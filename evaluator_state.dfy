/**
 * The loops of src/evaluator/evaluator.c over an interpreter object whose
 * environment heap the statements change in place: eval_block_statement,
 * eval_program and eval_loop.  Each method computes, step by step, what
 * the function of the same name in module Evaluator defines, and leaves
 * the environments that evaluation produced.
 */
module EvaluatorState {
  import opened Wrappers
  import opened Evaluator
  import Ast
  import Obj = Object

  class Interpreter {
    /** Every environment created so far; index 0 is the global one. */
    var envs: seq<Env>

    /** new_environment. */
    constructor ()
      ensures envs == NewEnvironment()
    {
      envs := NewEnvironment();
    }

    /** eval_block_statement: the statements in order until one returns, fails, continues or breaks. */
    method Block(fuel: nat, env: nat, ss: seq<Ast.Stmt>) returns (r: Eval)
      requires env < |envs|
      modifies this
      ensures r == EvalBlock(fuel, old(envs), env, ss)
      ensures r.Val? ==> envs == r.envs
    {
      ghost var target := EvalBlock(fuel, envs, env, ss);
      r := Stuck;
      var i := 0;
      while i < |ss|
        invariant 0 <= i <= |ss| && env < |envs|
        invariant i < |ss| ==> BlockFrom(fuel, envs, env, ss[i..]) == target
        invariant i == |ss| ==> r == target && (r.Val? ==> envs == r.envs)
      {
        assert ss[i..][0] == ss[i];
        r := EvalStmt(fuel, envs, env, ss[i]);
        if !r.Val? {
          return;
        }
        envs := r.envs;
        if Interrupts(r.v) {
          return;
        }
        assert ss[i..][1..] == ss[i + 1..];
        i := i + 1;
      }
    }

    /** eval_program: the statements in order until one returns, which is unwrapped, or fails. */
    method Program(fuel: nat, env: nat, ss: seq<Ast.Stmt>) returns (r: Eval)
      requires env < |envs|
      modifies this
      ensures r == EvalProgram(fuel, old(envs), env, ss)
      ensures r.Val? ==> envs == r.envs
    {
      ghost var target := EvalProgram(fuel, envs, env, ss);
      r := Stuck;
      var i := 0;
      while i < |ss|
        invariant 0 <= i <= |ss| && env < |envs|
        invariant i < |ss| ==> UnwrapReturn(TopFrom(fuel, envs, env, ss[i..])) == target
        invariant i == |ss| ==> r == target && (r.Val? ==> envs == r.envs)
      {
        assert ss[i..][0] == ss[i];
        r := EvalStmt(fuel, envs, env, ss[i]);
        if !r.Val? {
          return;
        }
        envs := r.envs;
        if r.v.Some? && r.v.value.ReturnValue? {
          r := Val(r.v.value.inner, envs);
          return;
        }
        if IsError(r.v) {
          return;
        }
        assert ss[i..][1..] == ss[i + 1..];
        i := i + 1;
      }
    }

    /**
     * eval_loop: the condition must give a boolean; then while it gives
     * obj_true the body runs, a return value or break ends the loop, a
     * continue skips the update and anything else runs it.
     */
    method Loop(fuel: nat, env: nat, c: Ast.Expr, body: seq<Ast.Stmt>, update: Ast.Clause) returns (r: Eval)
      requires env < |envs|
      modifies this
      ensures r == EvalLoop(fuel, old(envs), env, c, body, update)
      ensures r.Val? ==> envs == r.envs
    {
      r := LoopCondition(fuel, envs, env, c);
      if !r.Val? {
        return;
      }
      if r.v.None? {
        return Stuck;
      }
      envs := r.envs;
      if !r.v.value.Boolean? {
        r := Val(Some(Obj.Error("Loop condition should produce a boolean value")), envs);
        return;
      }
      ghost var target := LoopTurn(fuel, envs, env, c, body, update, None);
      var result: Option<Ptr> := None;
      var f := fuel;
      while true
        invariant env < |envs|
        invariant LoopTurn(f, envs, env, c, body, update, result) == target
        decreases f
      {
        if f == 0 {
          return OutOfFuel;
        }
        r := LoopCondition(f, envs, env, c);
        if !r.Val? {
          return;
        }
        envs := r.envs;
        if r.v != Some(Obj.Boolean(true)) {
          if result.None? {
            return Stuck;
          }
          r := Val(result.value, envs);
          return;
        }
        r := Block(f, env, body);
        if !r.Val? {
          return;
        }
        var v := r.v;
        if v.Some? && (v.value.ReturnValue? || v.value.Break?) {
          return;
        }
        if !(v.Some? && v.value.Continue?) {
          var u := RunUpdate(f, envs, env, update);
          if !u.Val? {
            return u;
          }
          envs := u.envs;
        }
        result := Some(v);
        f := f - 1;
      }
    }
  }
}
