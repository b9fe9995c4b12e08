/**
 * Concrete evaluations: programs of src/evaluator/evaluator_test.c as
 * syntax trees, and the inputs that show where the environment, call and
 * indexing code as written differs from what it evidently means.
 */
module EvaluatorExamples {
  import opened Wrappers
  import opened Evaluator
  import Ast
  import Obj = Object
  import Token
  import Builtins
  import CInt
  import EvaluatorProperties

  /** The evaluator never reads tokens. */
  const T := Token.Token(Token.Illegal, "")

  function Num(v: real): Ast.Expr
  {
    Ast.NumberLiteral(T, v)
  }

  function Bool(b: bool): Ast.Expr
  {
    Ast.BooleanLiteral(T, b)
  }

  function Infix(l: Ast.Expr, op: string, r: Ast.Expr): Ast.Expr
  {
    Ast.InfixExpr(T, l, op, r)
  }

  function Expr(e: Ast.Expr): Ast.Stmt
  {
    Ast.ExprStmt(T, e)
  }

  function Return(e: Ast.Expr): Ast.Stmt
  {
    Ast.ReturnStmt(T, e)
  }

  /** Runs a program in a new global environment. */
  function Run(fuel: nat, program: seq<Ast.Stmt>): Eval
  {
    EvalProgram(fuel, NewEnvironment(), 0, program)
  }

  /** A program's run that ends with the pointer p. */
  predicate Gives(r: Eval, p: Ptr)
  {
    r.Val? && r.v == p
  }

  // ---------------------------------------------------------------- the tests

  /** `!true`, `!5` and `!!5`. */
  lemma {:induction false} BangExamples()
    ensures Gives(Run(3, [Expr(Ast.PrefixExpr(T, "!", Bool(true)))]), Some(Obj.Boolean(false)))
    ensures Gives(Run(3, [Expr(Ast.PrefixExpr(T, "!", Num(5.0)))]), Some(Obj.Boolean(false)))
    ensures Gives(Run(4, [Expr(Ast.PrefixExpr(T, "!", Ast.PrefixExpr(T, "!", Num(5.0))))]), Some(Obj.Boolean(true)))
  {
  }

  /** `if (1 > 2) { 10 }` gives NULL and `if (1) { 10 }` gives 10. */
  lemma {:induction false} IfExamples()
    ensures Gives(Run(4, [Expr(Ast.IfExpr(Infix(Num(1.0), ">", Num(2.0)), [Expr(Num(10.0))], Ast.NoElse))]), None)
    ensures Gives(Run(4, [Expr(Ast.IfExpr(Num(1.0), [Expr(Num(10.0))], Ast.NoElse))]), Some(Obj.Number(10.0)))
  {
  }

  /** `9; return 2 * 5; 9;` gives 10. */
  lemma {:induction false} ReturnExample()
    ensures Gives(Run(3, [Expr(Num(9.0)), Return(Infix(Num(2.0), "*", Num(5.0))), Expr(Num(9.0))]), Some(Obj.Number(10.0)))
  {
  }

  /** `return if (false) { 1 }; 9;`: the return wraps the NULL the if gives, and the program stops with NULL. */
  lemma {:induction false} ReturnNullExample()
    ensures Gives(Run(4, [Return(Ast.IfExpr(Bool(false), [Expr(Num(1.0))], Ast.NoElse)), Expr(Num(9.0))]), None)
  {
  }

  /** `if (10 > 1) { if (10 > 1) { return 10; } return 1; }` gives 10: the inner return leaves both blocks. */
  lemma {:induction false} NestedReturnExample()
    ensures var inner := Ast.IfExpr(Infix(Num(10.0), ">", Num(1.0)), [Return(Num(10.0))], Ast.NoElse);
      Gives(Run(6, [Expr(Ast.IfExpr(Infix(Num(10.0), ">", Num(1.0)), [Expr(inner), Return(Num(1.0))], Ast.NoElse))]), Some(Obj.Number(10.0)))
  {
    var envs := NewEnvironment();
    var cond := Infix(Num(10.0), ">", Num(1.0));
    var inner := Ast.IfExpr(cond, [Return(Num(10.0))], Ast.NoElse);
    var ten := Val(Some(Obj.ReturnValue(Some(Obj.Number(10.0)))), envs);
    assert EvalExpr(4, envs, 0, cond) == Val(Some(Obj.Boolean(true)), envs);
    assert EvalExpr(5, envs, 0, cond) == Val(Some(Obj.Boolean(true)), envs);
    assert EvalBlock(4, envs, 0, [Return(Num(10.0))]) == ten;
    assert EvalExpr(5, envs, 0, inner) == ten;
    assert EvalBlock(5, envs, 0, [Expr(inner), Return(Num(1.0))]) == ten;
  }

  /** `5 + true` combines a number with a boolean. */
  lemma {:induction false} MismatchMessage()
    ensures InfixObjects(Obj.Number(5.0), "+", Obj.Boolean(true)) == Some(Obj.Error("type mismatch: INTEGER_OBJ + BOOLEAN_OBJ"))
  {
    EvaluatorProperties.TypeMismatch(Obj.Number(5.0), "+", Obj.Boolean(true));
    assert Obj.TypeName(Obj.NumberObj) == "INTEGER_OBJ" && Obj.TypeName(Obj.BooleanObj) == "BOOLEAN_OBJ";
    var m := "type mismatch: " + "INTEGER_OBJ" + " " + "+" + " " + "BOOLEAN_OBJ";
    assert forall k | 0 <= k < |m| :: m[k] == "type mismatch: INTEGER_OBJ + BOOLEAN_OBJ"[k];
    assert m == "type mismatch: INTEGER_OBJ + BOOLEAN_OBJ";
  }

  /** `5 + true; 5;` stops at the type mismatch. */
  lemma {:induction false} MismatchExample()
    ensures Gives(Run(3, [Expr(Infix(Num(5.0), "+", Bool(true))), Expr(Num(5.0))]), Some(Obj.Error("type mismatch: INTEGER_OBJ + BOOLEAN_OBJ")))
  {
    var message := "type mismatch: INTEGER_OBJ + BOOLEAN_OBJ";
    MismatchMessage();
    var envs := NewEnvironment();
    var first := Expr(Infix(Num(5.0), "+", Bool(true)));
    assert EvalExpr(2, envs, 0, Bool(true)) == Val(Some(Obj.Boolean(true)), envs);
    assert EvalExpr(2, envs, 0, Num(5.0)) == Val(Some(Obj.Number(5.0)), envs);
    EvaluatorProperties.InfixEval(3, envs, 0, T, Num(5.0), "+", Bool(true), Obj.Boolean(true), envs, Obj.Number(5.0), envs);
    assert TopFrom(3, envs, 0, [first]) == Val(Some(Obj.Error(message)), envs);
    EvaluatorProperties.ProgramFails(3, envs, 0, [first], [Expr(Num(5.0))], message);
    assert [first] + [Expr(Num(5.0))] == [first, Expr(Num(5.0))];
  }

  /** `-true` is an unknown operator. */
  lemma {:induction false} MinusBooleanExample()
    ensures Gives(Run(3, [Expr(Ast.PrefixExpr(T, "-", Bool(true)))]), Some(Obj.Error("unknown operator: -BOOLEAN_OBJ")))
  {
    assert Minus(Obj.Boolean(true)) == Obj.Error("unknown operator: -BOOLEAN_OBJ") by {
      assert "unknown operator: -" + "BOOLEAN_OBJ" == "unknown operator: -BOOLEAN_OBJ";
    }
  }

  /** `5; true + false; 5;` stops at the unknown operator. */
  lemma {:induction false} UnknownOperatorExample()
    ensures Gives(Run(3, [Expr(Num(5.0)), Expr(Infix(Bool(true), "+", Bool(false))), Expr(Num(5.0))]), Some(Obj.Error("unknown operator: BOOLEAN_OBJ + BOOLEAN_OBJ")))
  {
    EvaluatorProperties.BooleanInfixCases(true, "+", false);
    var message := "unknown operator: BOOLEAN_OBJ + BOOLEAN_OBJ";
    assert "unknown operator: BOOLEAN_OBJ " + "+" + " BOOLEAN_OBJ" == message;
    var envs := NewEnvironment();
    var five := Expr(Num(5.0));
    var second := Expr(Infix(Bool(true), "+", Bool(false)));
    assert EvalExpr(2, envs, 0, Bool(false)) == Val(Some(Obj.Boolean(false)), envs);
    assert EvalExpr(2, envs, 0, Bool(true)) == Val(Some(Obj.Boolean(true)), envs);
    EvaluatorProperties.InfixEval(3, envs, 0, T, Bool(true), "+", Bool(false), Obj.Boolean(false), envs, Obj.Boolean(true), envs);
    assert EvalStmt(3, envs, 0, five) == Val(Some(Obj.Number(5.0)), envs);
    assert TopFrom(3, envs, 0, [second]) == Val(Some(Obj.Error(message)), envs);
    assert TopFrom(3, envs, 0, [five, second]) == Val(Some(Obj.Error(message)), envs) by {
      assert [five, second][1..] == [second];
    }
    EvaluatorProperties.ProgramFails(3, envs, 0, [five, second], [five], message);
    assert [five, second] + [five] == [five, second, five];
  }

  // ---------------------------------------------------------------- as written and as intended

  /** A global x = 1 and an environment enclosed by the global one, as a while loop or a call creates. */
  const Nested: seq<Env> := [Env(map["x" := Obj.Number(1.0)], None), Env(map[], Some(0))]

  /**
   * env_get reads only the current store, so inside a loop or a function
   * body an outer variable is undeclared; the lookup through the outer
   * environments finds it.
   */
  lemma {:induction false} OuterVariableLost()
    ensures IdentValueAsWritten(Nested, 1, "x") == Obj.Error("undeclared identifier 'x'")
    ensures IdentValue(Nested, 1, "x") == Obj.Number(1.0)
  {
    assert Builtins.IndexOfName("x") == None by {
      assert forall i | 0 <= i < |Builtins.Names| :: Builtins.Names[i] != "x";
    }
  }

  /** Three environments: a global x = 1, a function body's and a loop's inside it. */
  const Deep: seq<Env> := [Env(map["x" := Obj.Number(1.0)], None), Env(map[], Some(0)), Env(map[], Some(1))]

  /**
   * resolve_ident looks at env and env's outer environment over and over:
   * a name two levels out is never found and the loop never ends, nor does
   * it for an undefined name; the intended search finds x at level 2 and
   * reports y absent.
   */
  lemma {:induction false} ResolveLoops()
    ensures ResolveAsWritten(Deep, 2, "x") == Loops && Resolve(Deep, 2, "x") == Some(2)
    ensures ResolveAsWritten(Deep, 2, "y") == Loops && Resolve(Deep, 2, "y") == None
    ensures ResolveAsWritten(Deep, 1, "x") == Found(1) && Resolve(Deep, 1, "x") == Some(1)
  {
  }

  /**
   * eval_function_call copies an uninitialised object over the argument's
   * error instead of the error into the new object, so the call's result is
   * garbage; as intended it is the error.
   */
  lemma {:induction false} ArgumentErrorLost(fuel: nat, envs: seq<Env>, f: Ptr, message: string, envs1: seq<Env>)
    requires |envs1| >= |envs|
    ensures FinishCallAsWritten(fuel, envs, f, ManyError(Obj.Error(message), envs1)) == Stuck
    ensures FinishCall(fuel, envs, f, ManyError(Obj.Error(message), envs1)) == Val(Some(Obj.Error(message)), envs1)
  {
  }

  /** The two agree on every call whose arguments are not an error. */
  lemma {:induction false} ArgumentsAgree(fuel: nat, envs: seq<Env>, f: Ptr, args: EvalMany)
    requires GrowsMany(envs, args) && !args.ManyError?
    ensures FinishCallAsWritten(fuel, envs, f, args) == FinishCall(fuel, envs, f, args)
  {
  }

  /**
   * `[][0]`: the bound `len - 1` wraps around for an empty array, so index
   * 0 passes the check and the element read is past the end; as intended
   * the result is null.
   */
  lemma {:induction false} EmptyArrayIndex()
    ensures ArrayElementAsWritten([], 0.0) == None
    ensures ArrayElement([], 0.0) == Obj.Null
  {
  }

  /** On a non-empty array the check as written and as intended agree. */
  lemma {:induction false} ArrayElementAgrees(es: seq<Obj.Object>, v: real)
    requires 0 < |es| <= CInt.Two64
    ensures ArrayElementAsWritten(es, v) == Some(ArrayElement(es, v))
  {
    assert (|es| - 1) % CInt.Two64 == |es| - 1;
  }

  /**
   * `while (false) { 1 }`: eval_loop returns its result variable, which no
   * turn of the loop has set.
   */
  lemma {:induction false} LoopNeverEntered()
    ensures Run(3, [Expr(Ast.WhileLoop(T, Bool(false), [Expr(Num(1.0))]))]) == Stuck
  {
  }

  function Ident(name: string): Ast.Expr
  {
    Ast.Identifier(T, name)
  }

  /** `fn(a, b) { a + b }`. */
  const AddFn := Ast.FnLiteral(T, ["a", "b"], [Expr(Infix(Ident("a"), "+", Ident("b")))])

  /** The function `add` evaluates to, and the global environment after `let add = …`. */
  const AddObject := Obj.Function(["a", "b"], [Expr(Infix(Ident("a"), "+", Ident("b")))], 0)
  const AddEnvs: seq<Env> := [Env(map["add" := AddObject], None)]

  /** `add(2, 3)`'s application: the parameters bound in a new environment enclosed by the global one. */
  lemma {:induction false} AddApplies()
    ensures ApplyFunction(3, AddEnvs, AddObject, [Some(Obj.Number(2.0)), Some(Obj.Number(3.0))])
      == Val(Some(Obj.Number(5.0)), AddEnvs + [Env(map["a" := Obj.Number(2.0), "b" := Obj.Number(3.0)], Some(0))])
  {
    var args := [Some(Obj.Number(2.0)), Some(Obj.Number(3.0))];
    var body := BindParams(AddEnvs + [Env(map[], Some(0))], 1, ["a", "b"], args);
    assert body == AddEnvs + [Env(map["a" := Obj.Number(2.0), "b" := Obj.Number(3.0)], Some(0))];
    assert forall i | 0 <= i < |Builtins.Names| :: Builtins.Names[i] != "a" && Builtins.Names[i] != "b";
    assert EvalExpr(3, body, 1, Infix(Ident("a"), "+", Ident("b"))) == Val(Some(Obj.Number(5.0)), body);
  }

  /** `add` names the global function, not a builtin. */
  lemma {:induction false} AddLookup()
    ensures EvalExpr(3, AddEnvs, 0, Ident("add")) == Val(Some(AddObject), AddEnvs)
  {
    assert forall i | 0 <= i < |Builtins.Names| :: Builtins.Names[i] != "add";
  }

  /** The arguments `2, 3` evaluate in order and change no environment. */
  lemma {:induction false} AddArguments()
    ensures EvalList(3, AddEnvs, 0, [Num(2.0), Num(3.0)]) == Many([Some(Obj.Number(2.0)), Some(Obj.Number(3.0))], AddEnvs)
  {
  }

  /** `add(2, 3)` after `let add = …`. */
  lemma {:induction false} AddCall()
    ensures EvalStmt(4, AddEnvs, 0, Expr(Ast.CallExpr(T, Ident("add"), [Num(2.0), Num(3.0)])))
      == Val(Some(Obj.Number(5.0)), AddEnvs + [Env(map["a" := Obj.Number(2.0), "b" := Obj.Number(3.0)], Some(0))])
  {
    AddLookup();
    AddArguments();
    AddApplies();
    var args := [Some(Obj.Number(2.0)), Some(Obj.Number(3.0))];
    EvaluatorProperties.CallEval(4, AddEnvs, 0, T, Ident("add"), [Num(2.0), Num(3.0)], AddObject, AddEnvs);
    EvaluatorProperties.FinishCallCases(3, AddEnvs, AddObject, Many(args, AddEnvs));
  }

  /** `let add = fn(a, b) { a + b }; add(2, 3)` gives 5. */
  lemma {:induction false} CallExample()
    ensures var program := [Ast.LetStmt(T, "add", AddFn), Expr(Ast.CallExpr(T, Ident("add"), [Num(2.0), Num(3.0)]))];
      Gives(Run(4, program), Some(Obj.Number(5.0)))
  {
    var body := AddEnvs + [Env(map["a" := Obj.Number(2.0), "b" := Obj.Number(3.0)], Some(0))];
    assert EvalStmt(4, NewEnvironment(), 0, Ast.LetStmt(T, "add", AddFn)) == Val(None, AddEnvs);
    AddCall();
    var call := Ast.CallExpr(T, Ident("add"), [Num(2.0), Num(3.0)]);
    var program := [Ast.LetStmt(T, "add", AddFn), Expr(call)];
    assert program[1..] == [Expr(call)];
    assert TopFrom(4, NewEnvironment(), 0, program) == Val(Some(Obj.Number(5.0)), body);
  }
}
