/**
 * What the evaluator of module Evaluator promises: how blocks and programs
 * stop, the operators' dispatch and error messages, truthiness, function
 * application and its environments, and the discrepancies between the
 * environment code as written and as intended.
 */
module EvaluatorProperties {
  import opened Wrappers
  import opened Evaluator
  import Ast
  import Obj = Object
  import Builtins
  import Token

  // ---------------------------------------------------------------- blocks and programs

  /**
   * eval_block_statement evaluates no statement after the first that
   * returns, fails, continues or breaks: appending statements changes
   * nothing.  Otherwise the appended statements run in the environments
   * the first ones left.
   */
  lemma {:induction false} BlockAppend(fuel: nat, envs: seq<Env>, env: nat, ss: seq<Ast.Stmt>, more: seq<Ast.Stmt>)
    requires env < |envs| && |ss| >= 1 && |more| >= 1
    ensures var r := BlockFrom(fuel, envs, env, ss);
      && (r.Val? && Interrupts(r.v) ==> BlockFrom(fuel, envs, env, ss + more) == r)
      && (r.Val? && !Interrupts(r.v) ==> BlockFrom(fuel, envs, env, ss + more) == BlockFrom(fuel, r.envs, env, more))
      && (!r.Val? ==> BlockFrom(fuel, envs, env, ss + more) == r)
    decreases |ss|
  {
    assert (ss + more)[0] == ss[0];
    if |ss| > 1 {
      assert (ss + more)[1..] == ss[1..] + more;
      match EvalStmt(fuel, envs, env, ss[0])
      case Val(v, envs1) =>
        if !Interrupts(v) {
          BlockAppend(fuel, envs1, env, ss[1..], more);
        }
      case _ =>
    } else {
      assert (ss + more)[1..] == more;
    }
  }

  /** A block's result is that of its last statement when no earlier one interrupts it. */
  lemma {:induction false} BlockLast(fuel: nat, envs: seq<Env>, env: nat, ss: seq<Ast.Stmt>, s: Ast.Stmt)
    requires env < |envs| && |ss| >= 1
    requires BlockFrom(fuel, envs, env, ss).Val? && !Interrupts(BlockFrom(fuel, envs, env, ss).v)
    ensures EvalBlock(fuel, envs, env, ss + [s]) == EvalStmt(fuel, BlockFrom(fuel, envs, env, ss).envs, env, s)
  {
    BlockAppend(fuel, envs, env, ss, [s]);
  }

  /**
   * eval_program evaluates no statement after the first return value or
   * error; otherwise the appended statements run in the environments the
   * first ones left.
   */
  lemma {:induction false} TopAppend(fuel: nat, envs: seq<Env>, env: nat, ss: seq<Ast.Stmt>, more: seq<Ast.Stmt>)
    requires env < |envs| && |ss| >= 1 && |more| >= 1
    ensures var r := TopFrom(fuel, envs, env, ss);
      && (r.Val? && Halts(r.v) ==> TopFrom(fuel, envs, env, ss + more) == r)
      && (r.Val? && !Halts(r.v) ==> TopFrom(fuel, envs, env, ss + more) == TopFrom(fuel, r.envs, env, more))
      && (!r.Val? ==> TopFrom(fuel, envs, env, ss + more) == r)
    decreases |ss|
  {
    assert (ss + more)[0] == ss[0];
    if |ss| > 1 {
      assert (ss + more)[1..] == ss[1..] + more;
      match EvalStmt(fuel, envs, env, ss[0])
      case Val(v, envs1) =>
        if !Halts(v) {
          TopAppend(fuel, envs1, env, ss[1..], more);
        }
      case _ =>
    } else {
      assert (ss + more)[1..] == more;
    }
  }

  /** A program that has reached a return gives the returned value, whatever follows it. */
  lemma {:induction false} ProgramReturns(fuel: nat, envs: seq<Env>, env: nat, ss: seq<Ast.Stmt>, more: seq<Ast.Stmt>, o: Option<Obj.Object>)
    requires env < |envs| && |ss| >= 1
    requires TopFrom(fuel, envs, env, ss).Val? && TopFrom(fuel, envs, env, ss).v == Some(Obj.ReturnValue(o))
    ensures EvalProgram(fuel, envs, env, ss + more) == Val(o, TopFrom(fuel, envs, env, ss).envs)
  {
    if |more| >= 1 {
      TopAppend(fuel, envs, env, ss, more);
    } else {
      assert ss + more == ss;
    }
  }

  /** A program that has reached an error gives that error, whatever follows it. */
  lemma {:induction false} ProgramFails(fuel: nat, envs: seq<Env>, env: nat, ss: seq<Ast.Stmt>, more: seq<Ast.Stmt>, message: string)
    requires env < |envs| && |ss| >= 1
    requires TopFrom(fuel, envs, env, ss).Val? && TopFrom(fuel, envs, env, ss).v == Some(Obj.Error(message))
    ensures EvalProgram(fuel, envs, env, ss + more) == Val(Some(Obj.Error(message)), TopFrom(fuel, envs, env, ss).envs)
  {
    if |more| >= 1 {
      TopAppend(fuel, envs, env, ss, more);
    } else {
      assert ss + more == ss;
    }
  }

  // ---------------------------------------------------------------- prefix operators

  /** `!` inverts a boolean, gives true for null and for the number 0, and false for everything else. */
  lemma {:induction false} BangTable(o: Obj.Object)
    ensures Bang(o) == Obj.Boolean(o == Obj.Boolean(false) || o == Obj.Null || o == Obj.Number(0.0))
  {
  }

  /** `!!` is true exactly for what `!` calls true: so `!!5` is true and `!!null` false. */
  lemma {:induction false} DoubleBang(o: Obj.Object)
    ensures Bang(Bang(o)) == Obj.Boolean(!(o == Obj.Boolean(false) || o == Obj.Null || o == Obj.Number(0.0)))
  {
    BangTable(o);
    BangTable(Bang(o));
  }

  /** `!null` is true, although null is truthy for `if`: `!` is not the negation of is_truthy. */
  lemma {:induction false} BangNullDisagreesWithTruthy()
    ensures Bang(Obj.Null) == Obj.Boolean(true) && Truthy(Some(Obj.Null))
  {
  }

  /** Unary minus negates a number and rejects everything else with "unknown operator: -T". */
  lemma {:induction false} MinusCases(o: Obj.Object)
    ensures Minus(o).Number? <==> o.Number?
    ensures o.Number? ==> Minus(Minus(o)) == o
    ensures !o.Number? ==> Minus(o) == Obj.Error("unknown operator: -" + Obj.TypeName(o.Type()))
  {
  }

  /** A prefix expression whose operand is a non-error object applies the operator to it; an error operand is the result. */
  lemma {:induction false} PrefixEval(fuel: nat, envs: seq<Env>, env: nat, t: Token.Token, op: string, right: Ast.Expr, o: Obj.Object, envs1: seq<Env>)
    requires env < |envs| && fuel >= 1
    requires EvalExpr(fuel - 1, envs, env, right) == Val(Some(o), envs1)
    ensures o.Error? ==> EvalExpr(fuel, envs, env, Ast.PrefixExpr(t, op, right)) == Val(Some(o), envs1)
    ensures !o.Error? && op == "!" ==> EvalExpr(fuel, envs, env, Ast.PrefixExpr(t, op, right)) == Val(Some(Bang(o)), envs1)
    ensures !o.Error? && op == "-" ==> EvalExpr(fuel, envs, env, Ast.PrefixExpr(t, op, right)) == Val(Some(Minus(o)), envs1)
    ensures !o.Error? && op != "!" && op != "-" ==>
      EvalExpr(fuel, envs, env, Ast.PrefixExpr(t, op, right)) == Val(Some(Obj.Error("unknown operator: " + op + Obj.TypeName(o.Type()))), envs1)
  {
    assert EvalExpr(fuel, envs, env, Ast.PrefixExpr(t, op, right)) == EvalPrefix(fuel - 1, envs, env, op, right);
  }

  // ---------------------------------------------------------------- infix operators

  /**
   * An infix expression evaluates its right operand first and its left one
   * in the environments the right one left; the left error is reported
   * before the right one, and two objects are combined by InfixObjects.
   */
  lemma {:induction false} InfixEval(fuel: nat, envs: seq<Env>, env: nat, t: Token.Token, left: Ast.Expr, op: string, right: Ast.Expr,
                  b: Obj.Object, envs1: seq<Env>, a: Obj.Object, envs2: seq<Env>)
    requires env < |envs| && fuel >= 1
    requires EvalExpr(fuel - 1, envs, env, right) == Val(Some(b), envs1)
    requires env < |envs1| && EvalExpr(fuel - 1, envs1, env, left) == Val(Some(a), envs2)
    ensures var r := EvalExpr(fuel, envs, env, Ast.InfixExpr(t, left, op, right));
      && (a.Error? ==> r == Val(Some(a), envs2))
      && (!a.Error? && b.Error? ==> r == Val(Some(b), envs2))
      && (!a.Error? && !b.Error? ==>
            r == (match InfixObjects(a, op, b) case Some(o) => Val(Some(o), envs2) case None => Stuck))
  {
    assert EvalExpr(fuel, envs, env, Ast.InfixExpr(t, left, op, right)) == EvalInfix(fuel - 1, envs, env, left, op, right);
  }

  /** Objects of different types give "type mismatch", except that null compares and combines with anything. */
  lemma {:induction false} TypeMismatch(a: Obj.Object, op: string, b: Obj.Object)
    requires a.Type() != b.Type() && !((a.Null? || b.Null?) && LogicOrEquality(op))
    ensures InfixObjects(a, op, b) ==
      Some(Obj.Error("type mismatch: " + Obj.TypeName(a.Type()) + " " + op + " " + Obj.TypeName(b.Type())))
  {
  }

  /** Objects of one type other than numbers, strings and booleans support no operator, null only the four logic ones. */
  lemma {:induction false} SameTypeUnknown(a: Obj.Object, op: string, b: Obj.Object)
    requires a.Type() == b.Type() && !a.Number? && !a.Str? && !a.Boolean? && !(a.Null? && LogicOrEquality(op))
    ensures InfixObjects(a, op, b) ==
      Some(Obj.Error("unknown operator: " + Obj.TypeName(a.Type()) + " " + op + " " + Obj.TypeName(b.Type())))
  {
  }

  /** Strings support `+` alone, which concatenates them. */
  lemma {:induction false} StringInfix(x: string, op: string, y: string)
    ensures op == "+" ==> InfixObjects(Obj.Str(x), op, Obj.Str(y)) == Some(Obj.Str(x + y))
    ensures op != "+" ==> InfixObjects(Obj.Str(x), op, Obj.Str(y)) == Some(Obj.Error("unknown operator: STRING_OBJ " + op + " STRING_OBJ"))
  {
    if op != "+" {
      assert InfixObjects(Obj.Str(x), op, Obj.Str(y)) == Some(UnknownOperator(Obj.Str(x), op, Obj.Str(y)));
      assert "unknown operator: " + "STRING_OBJ" + " " + op + " " + "STRING_OBJ" == "unknown operator: STRING_OBJ " + op + " STRING_OBJ";
    }
  }

  /** Booleans support the four logic operators and nothing else: `true + false` is an unknown operator. */
  lemma {:induction false} BooleanInfixCases(x: bool, op: string, y: bool)
    ensures LogicOrEquality(op) ==> InfixObjects(Obj.Boolean(x), op, Obj.Boolean(y)) == Some(Obj.Boolean(
      if op == "==" then x == y else if op == "!=" then x != y else if op == "&&" then x && y else x || y))
    ensures !LogicOrEquality(op) ==>
      InfixObjects(Obj.Boolean(x), op, Obj.Boolean(y)) == Some(Obj.Error("unknown operator: BOOLEAN_OBJ " + op + " BOOLEAN_OBJ"))
  {
    if !LogicOrEquality(op) {
      BooleanUnknown(x, op, y);
    }
  }

  lemma {:induction false} BooleanUnknown(x: bool, op: string, y: bool)
    requires !LogicOrEquality(op)
    ensures InfixObjects(Obj.Boolean(x), op, Obj.Boolean(y)) == Some(Obj.Error("unknown operator: BOOLEAN_OBJ " + op + " BOOLEAN_OBJ"))
  {
    assert InfixObjects(Obj.Boolean(x), op, Obj.Boolean(y)) == Some(UnknownOperator(Obj.Boolean(x), op, Obj.Boolean(y)));
    UnknownText("BOOLEAN_OBJ", op, "unknown operator: BOOLEAN_OBJ ", " BOOLEAN_OBJ");
  }

  /** The unknown-operator message of two operands of one type, regrouped. */
  lemma {:induction false} UnknownText(name: string, op: string, head: string, tail: string)
    requires head == "unknown operator: " + name + " " && tail == " " + name
    ensures "unknown operator: " + name + " " + op + " " + name == head + op + tail
  {
  }

  /** Numbers compare with `<`, `>`, `==` and `!=`. */
  lemma {:induction false} NumberComparisons(x: real, y: real)
    ensures InfixObjects(Obj.Number(x), "<", Obj.Number(y)) == Some(Obj.Boolean(x < y))
    ensures InfixObjects(Obj.Number(x), ">", Obj.Number(y)) == Some(Obj.Boolean(x > y))
    ensures InfixObjects(Obj.Number(x), "==", Obj.Number(y)) == Some(Obj.Boolean(x == y))
    ensures InfixObjects(Obj.Number(x), "!=", Obj.Number(y)) == Some(Obj.Boolean(x != y))
  {
  }

  /** The arithmetic on numbers is exact; division by zero is left undefined. */
  lemma {:induction false} NumberArithmetic(x: real, y: real)
    ensures InfixObjects(Obj.Number(x), "+", Obj.Number(y)) == Some(Obj.Number(x + y))
    ensures InfixObjects(Obj.Number(x), "-", Obj.Number(y)) == Some(Obj.Number(x - y))
    ensures InfixObjects(Obj.Number(x), "*", Obj.Number(y)) == Some(Obj.Number(x * y))
    ensures InfixObjects(Obj.Number(x), "/", Obj.Number(y)) == (if y == 0.0 then None else Some(Obj.Number(x / y)))
  {
  }

  /** The operators eval_integer_infix_expression knows. */
  predicate NumberOperator(op: string)
  {
    op in {"+", "-", "*", "/", ">", "<", "!=", "=="} || LongOpcode(op).Some?
  }

  /** Any other operator on numbers, `&&` and `||` among them, is an unknown operator. */
  lemma {:induction false} NumberUnknown(x: real, op: string, y: real)
    requires !NumberOperator(op)
    ensures InfixObjects(Obj.Number(x), op, Obj.Number(y)) == Some(Obj.Error("unknown operator: INTEGER_OBJ " + op + " INTEGER_OBJ"))
  {
    assert NumberInfix(x, op, y) == Some(UnknownOperator(Obj.Number(x), op, Obj.Number(y)));
    assert "unknown operator: " + "INTEGER_OBJ" + " " + op + " " + "INTEGER_OBJ" == "unknown operator: INTEGER_OBJ " + op + " INTEGER_OBJ";
  }

  /** `&&` on numbers is an unknown operator. */
  lemma {:induction false} NumberAnd(x: real, y: real)
    ensures InfixObjects(Obj.Number(x), "&&", Obj.Number(y)) == Some(Obj.Error("unknown operator: INTEGER_OBJ && INTEGER_OBJ"))
  {
    assert LongOpcode("&&").None?;
    NumberUnknown(x, "&&", y);
    assert "unknown operator: INTEGER_OBJ " + "&&" + " INTEGER_OBJ" == "unknown operator: INTEGER_OBJ && INTEGER_OBJ";
  }

  /** The integer operators go through `(long)`: `%` by zero is undefined, and `7 % 2.5` is `7 % 2`. */
  lemma {:induction false} LongOperators()
    ensures InfixObjects(Obj.Number(7.0), "%", Obj.Number(0.0)) == None
    ensures InfixObjects(Obj.Number(7.0), "%", Obj.Number(2.5)) == Some(Obj.Number(1.0))
    ensures InfixObjects(Obj.Number(1.0), "<<", Obj.Number(4.0)) == Some(Obj.Number(16.0))
    ensures InfixObjects(Obj.Number(6.0), "&", Obj.Number(3.0)) == Some(Obj.Number(2.0))
  {
  }

  // ---------------------------------------------------------------- if

  /**
   * An if expression takes its consequence exactly when the condition is
   * truthy, which obj_null is; a falsy condition with no alternative gives
   * NULL, and an error condition is the result.
   */
  lemma {:induction false} IfEval(fuel: nat, envs: seq<Env>, env: nat, c: Ast.Expr, cons: seq<Ast.Stmt>, alt: Ast.Else, cv: Ptr, envs1: seq<Env>)
    requires env < |envs| && fuel >= 1
    requires EvalExpr(fuel - 1, envs, env, c) == Val(cv, envs1)
    ensures var r := EvalExpr(fuel, envs, env, Ast.IfExpr(c, cons, alt));
      && (IsError(cv) ==> r == Val(cv, envs1))
      && (!IsError(cv) && cv != None && cv != Some(Obj.Boolean(false)) ==> r == EvalBlock(fuel - 1, envs1, env, cons))
      && (cv == Some(Obj.Null) ==> r == EvalBlock(fuel - 1, envs1, env, cons))
      && ((cv == None || cv == Some(Obj.Boolean(false))) && alt.NoElse? ==> r == Val(None, envs1))
      && ((cv == None || cv == Some(Obj.Boolean(false))) && alt.ElseBlock? ==> r == EvalBlock(fuel - 1, envs1, env, alt.block))
  {
    assert EvalExpr(fuel, envs, env, Ast.IfExpr(c, cons, alt)) == EvalIf(fuel - 1, envs, env, c, cons, alt);
  }

  // ---------------------------------------------------------------- environments

  /** Lookup reads only environments at or below its starting index, so a longer heap does not change it. */
  lemma {:induction false} LookupPrefix(envs: seq<Env>, n: nat, env: nat, name: string)
    requires env < n <= |envs|
    ensures Lookup(envs, env, name) == Lookup(envs[..n], env, name)
    decreases env
  {
    if name !in envs[env].store {
      match envs[env].outer
      case Some(o) => if o < env { LookupPrefix(envs, n, o, name); }
      case None =>
    }
  }

  /** Resolve finds a level exactly when Lookup finds a value. */
  lemma {:induction false} ResolveIffLookup(envs: seq<Env>, env: nat, name: string)
    ensures Resolve(envs, env, name).Some? <==> Lookup(envs, env, name).Some?
    decreases env
  {
    if env < |envs| && name !in envs[env].store {
      match envs[env].outer
      case Some(o) => if o < env { ResolveIffLookup(envs, o, name); }
      case None =>
    }
  }

  /** The environment Resolve's level leads to holds the name, and no environment before it on the chain does. */
  lemma {:induction false} ResolveAncestor(envs: seq<Env>, env: nat, name: string)
    requires Resolve(envs, env, name).Some?
    ensures var a := Ancestor(envs, env, Resolve(envs, env, name).value);
      a.Some? && a.value <= env && name in envs[a.value].store
      && Lookup(envs, env, name) == Some(envs[a.value].store[name])
    decreases env
  {
    if name !in envs[env].store {
      var o := envs[env].outer.value;
      ResolveAncestor(envs, o, name);
    }
  }

  /**
   * Changing the store of an environment at or below env that holds the
   * name changes what Lookup finds from env to the new value, when no
   * environment between them holds it.
   */
  lemma {:induction false} LookupAfterSet(envs: seq<Env>, env: nat, name: string, o: Obj.Object)
    requires Resolve(envs, env, name).Some?
    ensures var a := Ancestor(envs, env, Resolve(envs, env, name).value);
      a.Some? && Lookup(EnvSet(envs, a.value, name, Some(o)), env, name) == Some(o)
    decreases env
  {
    ResolveAncestor(envs, env, name);
    if name !in envs[env].store {
      var p := envs[env].outer.value;
      ResolveAncestor(envs, p, name);
      LookupAfterSet(envs, p, name, o);
    }
  }

  /** set_ident writes where resolve_ident found the name, so reading the name again gives the new value. */
  lemma {:induction false} ReassignThenLookup(envs: seq<Env>, env: nat, name: string, o: Obj.Object)
    requires Resolve(envs, env, name).Some?
    ensures Lookup(SetIdent(envs, env, Resolve(envs, env, name).value, name, Some(o)), env, name) == Some(o)
  {
    ResolveAncestor(envs, env, name);
    LookupAfterSet(envs, env, name, o);
  }

  /** A let binds the name in the current store, and reading it back gives the value. */
  lemma {:induction false} LetThenLookup(envs: seq<Env>, env: nat, name: string, o: Obj.Object)
    requires env < |envs|
    ensures Lookup(EnvSet(envs, env, name, Some(o)), env, name) == Some(o)
    ensures Resolve(EnvSet(envs, env, name, Some(o)), env, name) == Some(0)
  {
  }

  /**
   * extend_function_env binds each parameter, a later one overriding an
   * earlier one of the same name, and leaves every other name and every
   * other environment alone.
   */
  lemma {:induction false} BindParamsBinds(envs: seq<Env>, env: nat, params: seq<string>, args: seq<Ptr>)
    requires env < |envs| && |params| == |args|
    ensures var r := BindParams(envs, env, params, args);
      && r[env].outer == envs[env].outer
      && (forall i | 0 <= i < |envs| && i != env :: r[i] == envs[i])
      && (forall x | x !in params :: (x in r[env].store <==> x in envs[env].store))
      && (forall x | x !in params && x in envs[env].store :: r[env].store[x] == envs[env].store[x])
      && (forall i | 0 <= i < |params| && params[i] !in params[i + 1..] ::
            (args[i].Some? ==> params[i] in r[env].store && r[env].store[params[i]] == args[i].value)
            && (args[i].None? ==> params[i] !in r[env].store))
    decreases |params|
  {
    if params != [] {
      var envs1 := EnvSet(envs, env, params[0], args[0]);
      BindParamsBinds(envs1, env, params[1..], args[1..]);
      var r := BindParams(envs, env, params, args);
      forall i | 0 <= i < |params| && params[i] !in params[i + 1..]
        ensures args[i].Some? ==> params[i] in r[env].store && r[env].store[params[i]] == args[i].value
        ensures args[i].None? ==> params[i] !in r[env].store
      {
        if i > 0 {
          assert params[1..][i - 1] == params[i] && args[1..][i - 1] == args[i];
          assert params[1..][i - 1 + 1..] == params[i + 1..];
        } else {
          assert params[0] !in params[1..];
        }
      }
      forall x | x !in params
        ensures x in r[env].store <==> x in envs[env].store
      {
        assert x != params[0] && x !in params[1..];
      }
    }
  }

  /**
   * A function's body sees its parameters, and every other name as the
   * environment the function was created in has it: the new environment is
   * enclosed by the function's own, not by the caller's.
   */
  lemma {:induction false} ClosureSees(envs: seq<Env>, params: seq<string>, fenv: nat, args: seq<Ptr>, name: string)
    requires fenv < |envs| && |params| == |args|
    ensures var (envs1, inner) := Enclose(envs, fenv);
      var body := BindParams(envs1, inner, params, args);
      && (name !in params ==> Lookup(body, inner, name) == Lookup(envs, fenv, name))
      && (forall i | 0 <= i < |params| && params[i] !in params[i + 1..] && args[i].Some? ::
            Lookup(body, inner, params[i]) == args[i])
  {
    var (envs1, inner) := Enclose(envs, fenv);
    var body := BindParams(envs1, inner, params, args);
    BindParamsBinds(envs1, inner, params, args);
    if name !in params {
      assert body[..|envs|] == envs;
      LookupPrefix(body, |envs|, fenv, name);
    }
  }

  // ---------------------------------------------------------------- calls

  /**
   * A call evaluates the callee, then the arguments left to right, then
   * applies: builtins directly, anything that is not a function is an
   * error, as is a wrong number of arguments; an argument's error is the
   * call's result.
   */
  lemma {:induction false} CallEval(fuel: nat, envs: seq<Env>, env: nat, t: Token.Token, callee: Ast.Expr, args: seq<Ast.Expr>,
                 f: Obj.Object, envs1: seq<Env>)
    requires env < |envs| && fuel >= 1 && !f.Error?
    requires EvalExpr(fuel - 1, envs, env, callee) == Val(Some(f), envs1)
    ensures env < |envs1|
    ensures EvalExpr(fuel, envs, env, Ast.CallExpr(t, callee, args)) == FinishCall(fuel - 1, envs1, Some(f), EvalList(fuel - 1, envs1, env, args))
  {
    assert EvalExpr(fuel, envs, env, Ast.CallExpr(t, callee, args)) == EvalCall(fuel - 1, envs, env, callee, args);
  }

  /** An argument's error is the call's result; otherwise the callee is applied to the arguments. */
  lemma {:induction false} FinishCallCases(fuel: nat, envs: seq<Env>, f: Obj.Object, args: EvalMany)
    requires GrowsMany(envs, args)
    ensures args.ManyError? ==> FinishCall(fuel, envs, Some(f), args) == Val(Some(args.err), args.envs)
    ensures args.Many? ==> FinishCall(fuel, envs, Some(f), args) == ApplyFunction(fuel, args.envs, f, args.vs)
  {
  }

  /**
   * apply_function: builtins are applied directly, anything that is not a
   * function is an error, as is a wrong number of arguments; a function's
   * body runs with its parameters bound in a new environment enclosed by
   * the function's own, a return value is unwrapped and a NULL result
   * dereferenced.
   */
  lemma {:induction false} ApplyCases(fuel: nat, envs: seq<Env>, f: Obj.Object, vs: seq<Ptr>)
    ensures var r := ApplyFunction(fuel, envs, f, vs);
      && (!f.Builtin? && !f.Function? ==> r == Val(Some(Obj.Error("Not a function: FUNCTION_OBJ")), envs))
      && (f.Function? && |f.params| != |vs| ==> r == Val(Some(Obj.Error(ArityMessage(|f.params|, |vs|))), envs))
      && (f.Builtin? && f.index < |Builtins.Names| && Objects(vs).Some? ==>
            r == Val(Some(Builtins.Apply(f.index, Objects(vs).value)), envs))
      && (f.Function? && |f.params| == |vs| && f.env < |envs| ==>
            var body := BindParams(envs + [Env(map[], Some(f.env))], |envs|, f.params, vs);
            r == (match EvalBlock(fuel, body, |envs|, f.body)
                  case Val(None, _) => Stuck
                  case Val(Some(o), envs3) => Val(if o.ReturnValue? then o.inner else Some(o), envs3)
                  case other => other))
  {
  }

  /** The message for a wrong number of arguments, as a test would see it. */
  lemma {:induction false} ArityMessageExample()
    ensures ArityMessage(1, 2) == "Wrong parameter count: Expected 1 got 2"
  {
  }

  // ---------------------------------------------------------------- loops

  /** A loop whose condition is not a boolean fails before its body runs. */
  lemma {:induction false} WhileNonBoolean(fuel: nat, envs: seq<Env>, env: nat, t: Token.Token, c: Ast.Expr, body: seq<Ast.Stmt>,
                        o: Obj.Object, envs1: seq<Env>)
    requires env < |envs| && fuel >= 1 && c != Ast.Nil && !o.Boolean?
    requires EvalExpr(fuel - 1, Enclose(envs, env).0, |envs|, c) == Val(Some(o), envs1)
    ensures EvalExpr(fuel, envs, env, Ast.WhileLoop(t, c, body)) ==
      Val(Some(Obj.Error("Loop condition should produce a boolean value")), envs1)
  {
    var (envs0, inner) := Enclose(envs, env);
    assert EvalExpr(fuel, envs, env, Ast.WhileLoop(t, c, body)) == EvalLoop(fuel - 1, envs0, inner, c, body, Ast.NoClause);
    assert LoopCondition(fuel - 1, envs0, inner, c) == Val(Some(o), envs1);
  }

  /**
   * One turn of a loop whose condition holds: a return value or break ends
   * the loop with it, a continue skips the update, anything else runs the
   * update and the next turn.
   */
  lemma {:induction false} LoopTurnCases(fuel: nat, envs: seq<Env>, env: nat, c: Ast.Expr, body: seq<Ast.Stmt>, update: Ast.Clause,
                      result: Option<Ptr>, envs1: seq<Env>, v: Ptr, envs2: seq<Env>)
    requires env < |envs| && fuel >= 1
    requires LoopCondition(fuel, envs, env, c) == Val(Some(Obj.Boolean(true)), envs1)
    requires env < |envs1| && EvalBlock(fuel, envs1, env, body) == Val(v, envs2)
    ensures env < |envs2|
    ensures var r := LoopTurn(fuel, envs, env, c, body, update, result);
      && (v.Some? && (v.value.ReturnValue? || v.value.Break?) ==> r == Val(v, envs2))
      && (v.Some? && v.value.Continue? ==> r == LoopTurn(fuel - 1, envs2, env, c, body, update, Some(v)))
      && (!(v.Some? && (v.value.ReturnValue? || v.value.Break? || v.value.Continue?)) ==>
            r == (match RunUpdate(fuel, envs2, env, update)
                  case Val(_, envs3) => LoopTurn(fuel - 1, envs3, env, c, body, update, Some(v))
                  case other => other))
  {
  }

  /** A loop's condition that fails gives the last body result; before any turn that result is uninitialised. */
  lemma {:induction false} LoopEnds(fuel: nat, envs: seq<Env>, env: nat, c: Ast.Expr, body: seq<Ast.Stmt>, update: Ast.Clause,
                 result: Option<Ptr>, cv: Ptr, envs1: seq<Env>)
    requires env < |envs| && fuel >= 1
    requires LoopCondition(fuel, envs, env, c) == Val(cv, envs1) && cv != Some(Obj.Boolean(true))
    ensures LoopTurn(fuel, envs, env, c, body, update, result) == (if result.None? then Stuck else Val(result.value, envs1))
  {
  }
}
