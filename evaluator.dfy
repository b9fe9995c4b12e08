/**
 * The tree-walking evaluator of src/evaluator/evaluator.c, with the
 * environments of src/environment/environment.c folded in as a heap of
 * stores linked to their outer environment.
 *
 * A C `Object *` is a `Ptr`: None is the NULL pointer the evaluator returns
 * for let statements, reassignments and an if without else.  Evaluation
 * threads the environment heap, since env_set changes a store that other
 * closures may share, and it has fuel, because Monkey programs may run
 * forever: every nested evaluation and every turn of a loop spends one unit.
 * `Stuck` stands for what stops the C program or leaves it undefined: a
 * NULL or uninitialised pointer dereferenced, a failed assert, or an
 * undefined long conversion.
 */
module Evaluator {
  import opened Wrappers
  import Ast
  import Obj = Object
  import Builtins
  import Code
  import Fmt
  import Vm
  import CInt

  // ---------------------------------------------------------------- environments

  /** An environment: its store, and its outer environment as an index into the heap. */
  datatype Env = Env(store: map<string, Obj.Object>, outer: Option<nat>)

  /** A C pointer to an object; None is NULL. */
  type Ptr = Option<Obj.Object>

  /**
   * new_environment: the one global store.  C never sets its `outer` field;
   * the model gives it no outer environment.
   */
  function NewEnvironment(): (envs: seq<Env>)
    ensures |envs| == 1 && envs[0].store == map[] && envs[0].outer.None?
  {
    [Env(map[], None)]
  }

  /** new_enclosed_environment: a fresh, empty store whose outer environment is `outer`. */
  function Enclose(envs: seq<Env>, outer: nat): (r: (seq<Env>, nat))
    ensures r.1 == |envs| && r.0 == envs + [Env(map[], Some(outer))]
  {
    (envs + [Env(map[], Some(outer))], |envs|)
  }

  /**
   * env_set: hashmap_put into the store.  A NULL value is stored as NULL,
   * which every later hashmap_get reads as "absent", so it removes the name.
   */
  function EnvSet(envs: seq<Env>, env: nat, name: string, v: Ptr): (r: seq<Env>)
    requires env < |envs|
    ensures |r| == |envs| && r[env].outer == envs[env].outer
    ensures v.Some? ==> r[env].store == envs[env].store[name := v.value]
    ensures v.None? ==> r[env].store == envs[env].store - {name}
    ensures forall i | 0 <= i < |envs| && i != env :: r[i] == envs[i]
  {
    var s := envs[env].store;
    envs[env := envs[env].(store := if v.Some? then s[name := v.value] else s - {name})]
  }

  /** env_get as written: hashmap_get on this environment's own store only. */
  function LookupAsWritten(envs: seq<Env>, env: nat, name: string): Ptr
    requires env < |envs|
  {
    if name in envs[env].store then Some(envs[env].store[name]) else None
  }

  /** The lookup an enclosed environment needs: its own store, then its outer environments in turn. */
  function Lookup(envs: seq<Env>, env: nat, name: string): (r: Ptr)
    ensures env < |envs| && name in envs[env].store ==> r == Some(envs[env].store[name])
    decreases env
  {
    if env >= |envs| then None
    else if name in envs[env].store then Some(envs[env].store[name])
    else match envs[env].outer
      case Some(o) => if o < env then Lookup(envs, o, name) else None
      case None => None
  }

  /** What resolve_ident's loop does: finds the name at a level, reports it absent, or never stops. */
  datatype Resolution = Found(level: nat) | NotFound | Loops

  /**
   * resolve_ident as written: the loop steps to `env->outer` instead of
   * `cur_env->outer`, so it only ever looks at env and env's outer one,
   * and when the name is in neither and env has an outer environment it
   * never ends.
   */
  function ResolveAsWritten(envs: seq<Env>, env: nat, name: string): Resolution
    requires env < |envs|
  {
    if name in envs[env].store then Found(0)
    else match envs[env].outer
      case None => NotFound
      case Some(o) => if o < |envs| && name in envs[o].store then Found(1) else Loops
  }

  /** resolve_ident as intended: the number of outer steps to the first environment holding the name. */
  function Resolve(envs: seq<Env>, env: nat, name: string): Option<nat>
    decreases env
  {
    if env >= |envs| then None
    else if name in envs[env].store then Some(0)
    else match envs[env].outer
      case Some(o) =>
        if o < env then (match Resolve(envs, o, name) case Some(l) => Some(l + 1) case None => None)
        else None
      case None => None
  }

  /** The environment `level` outer steps above env, as set_ident's loop finds it. */
  function Ancestor(envs: seq<Env>, env: nat, level: nat): (r: Option<nat>)
    ensures r.Some? ==> r.value < |envs|
    ensures level == 0 ==> r == (if env < |envs| then Some(env) else None)
    decreases level
  {
    if env >= |envs| then None
    else if level == 0 then Some(env)
    else match envs[env].outer
      case Some(o) => Ancestor(envs, o, level - 1)
      case None => None
  }

  /** set_ident: env_set in the environment `level` steps out; a broken chain writes nothing. */
  function SetIdent(envs: seq<Env>, env: nat, level: nat, name: string, v: Ptr): (r: seq<Env>)
    ensures |r| == |envs|
  {
    match Ancestor(envs, env, level)
    case Some(a) => EnvSet(envs, a, name, v)
    case None => envs
  }

  // ---------------------------------------------------------------- results

  /** What an evaluation gives: a pointer and the environment heap after it, or the stops described above. */
  datatype Eval = Val(v: Ptr, envs: seq<Env>) | Stuck | OutOfFuel

  /** What eval_expressions gives: the pointers, or the first error alone. */
  datatype EvalMany = Many(vs: seq<Ptr>, envs: seq<Env>) | ManyError(err: Obj.Object, envs: seq<Env>) | ManyStuck | ManyOutOfFuel

  predicate IsError(v: Ptr)
  {
    v.Some? && v.value.Error?
  }

  /** The results eval_block_statement stops at: return values, errors, continue and break. */
  predicate Interrupts(v: Ptr)
  {
    v.Some? && (v.value.ReturnValue? || v.value.Error? || v.value.Continue? || v.value.Break?)
  }

  /** is_truthy: only the NULL pointer and obj_false are false; obj_null is true. */
  predicate Truthy(v: Ptr)
  {
    v.Some? && v.value != Obj.Boolean(false)
  }

  /** The envs after a successful evaluation extend the heap it started from. */
  predicate Grows(envs: seq<Env>, r: Eval)
  {
    r.Val? ==> |r.envs| >= |envs|
  }

  predicate GrowsMany(envs: seq<Env>, r: EvalMany)
  {
    (r.Many? || r.ManyError?) ==> |r.envs| >= |envs|
  }

  function TypeName(o: Obj.Object): string
  {
    Obj.TypeName(o.Type())
  }

  // ---------------------------------------------------------------- operators

  /** eval_bang_operator_expression: booleans invert, null is true, a number is true iff it is 0, anything else false. */
  function Bang(o: Obj.Object): (r: Obj.Object)
    ensures r.Boolean?
  {
    match o
    case Boolean(b) => Obj.Boolean(!b)
    case Null => Obj.Boolean(true)
    case Number(v) => Obj.Boolean(v == 0.0)
    case _ => Obj.Boolean(false)
  }

  /** eval_minus_operator_expression. */
  function Minus(o: Obj.Object): Obj.Object
  {
    if o.Number? then Obj.Number(-o.value) else Obj.Error("unknown operator: -" + TypeName(o))
  }

  /** The prefix operators `!` and `-`; any other operator is reported. */
  function PrefixObject(op: string, o: Obj.Object): Obj.Object
  {
    if op == "!" then Bang(o)
    else if op == "-" then Minus(o)
    else Obj.Error("unknown operator: " + op + TypeName(o))
  }

  function UnknownOperator(l: Obj.Object, op: string, r: Obj.Object): Obj.Object
  {
    Obj.Error("unknown operator: " + TypeName(l) + " " + op + " " + TypeName(r))
  }

  /** The opcode whose `(long)` semantics an integer operator shares with the VM. */
  function LongOpcode(op: string): Option<int>
  {
    if op == "<<" then Some(Code.OpLShift)
    else if op == ">>" then Some(Code.OpRShift)
    else if op == "|" then Some(Code.OpBitOr)
    else if op == "&" then Some(Code.OpBitAnd)
    else if op == "^" then Some(Code.OpBitXor)
    else if op == "%" then Some(Code.OpMod)
    else None
  }

  /**
   * eval_integer_infix_expression, then eval_integer_boolean_operation:
   * None where C divides by zero (an infinity or NaN, not modelled) or
   * where a `(long)` cast, `%` or a shift is undefined.
   */
  function NumberInfix(l: real, op: string, r: real): Option<Obj.Object>
  {
    if op == "+" then Some(Obj.Number(l + r))
    else if op == "-" then Some(Obj.Number(l - r))
    else if op == "*" then Some(Obj.Number(l * r))
    else if op == "/" then (if r == 0.0 then None else Some(Obj.Number(l / r)))
    else if LongOpcode(op).Some? then
      match (Vm.ToLong(l), Vm.ToLong(r))
      case (Some(a), Some(b)) =>
        (match Vm.LongOp(LongOpcode(op).value, a, b)
         case Ok(v) => Some(Obj.Number(v))
         case Err(_) => None)
      case _ => None
    else if op == ">" then Some(Obj.Boolean(l > r))
    else if op == "<" then Some(Obj.Boolean(l < r))
    else if op == "!=" then Some(Obj.Boolean(l != r))
    else if op == "==" then Some(Obj.Boolean(l == r))
    else Some(UnknownOperator(Obj.Number(l), op, Obj.Number(r)))
  }

  /** eval_boolean_infix_expression: the two booleans are the shared objects, so pointers compare as values. */
  function BooleanInfix(l: bool, op: string, r: bool): Obj.Object
  {
    if op == "==" then Obj.Boolean(r == l)
    else if op == "!=" then Obj.Boolean(r != l)
    else if op == "&&" then Obj.Boolean(r && l)
    else if op == "||" then Obj.Boolean(r || l)
    else UnknownOperator(Obj.Boolean(l), op, Obj.Boolean(r))
  }

  predicate LogicOrEquality(op: string)
  {
    op == "==" || op == "!=" || op == "&&" || op == "||"
  }

  /**
   * The part of eval_infix_expression after both operands are known not to
   * be errors: numbers, strings and booleans pairwise; a null on either side
   * for `==`, `!=`, `&&`, `||`; a type mismatch or an unknown operator
   * otherwise.  None where NumberInfix is undefined.
   */
  function InfixObjects(l: Obj.Object, op: string, r: Obj.Object): Option<Obj.Object>
  {
    if r.Number? && l.Number? then NumberInfix(l.value, op, r.value)
    else if r.Str? && l.Str? then Some(if op == "+" then Obj.Str(l.text + r.text) else UnknownOperator(l, op, r))
    else if r.Boolean? && l.Boolean? then Some(BooleanInfix(l.bval, op, r.bval))
    else if (r.Null? || l.Null?) && LogicOrEquality(op) then
      Some(if op == "==" then Obj.Boolean(r == l)
           else if op == "!=" then Obj.Boolean(r != l)
           else if op == "&&" then Obj.Boolean(r == Obj.Boolean(true) && l == Obj.Boolean(true))
           else Obj.Boolean(r == Obj.Boolean(true) || l == Obj.Boolean(true)))
    else if r.Type() != l.Type() then
      Some(Obj.Error("type mismatch: " + TypeName(l) + " " + op + " " + TypeName(r)))
    else Some(UnknownOperator(l, op, r))
  }

  // ---------------------------------------------------------------- indexing

  /**
   * eval_array_indexing as written: `index > len - 1 || index < 0` gives
   * obj_null, where `len - 1` is size_t arithmetic; for an empty array it
   * wraps to SIZE_MAX and the element read is past the end (None).
   */
  function ArrayElementAsWritten(es: seq<Obj.Object>, v: real): Option<Obj.Object>
  {
    var maxIndex := (|es| - 1) % CInt.Two64;
    if v > maxIndex as real || v < 0.0 then Some(Obj.Null)
    else
      var i := if v >= 0.0 then v.Floor else 0;
      if i < |es| then Some(es[i]) else None
  }

  /** Array indexing as intended: obj_null for an empty array and for any index outside 0..len-1. */
  function ArrayElement(es: seq<Obj.Object>, v: real): (r: Obj.Object)
    ensures 0.0 <= v && v.Floor < |es| && v <= (|es| - 1) as real ==> r == es[v.Floor]
    ensures v < 0.0 || v > (|es| - 1) as real ==> r == Obj.Null
  {
    if |es| == 0 || v > (|es| - 1) as real || v < 0.0 then Obj.Null
    else es[v.Floor]
  }

  /** eval_hash_indexing: an unhashable index is an error, a missing key obj_null. */
  function HashElement(pairs: map<Obj.HashKey, (Obj.Object, Obj.Object)>, index: Obj.Object): Obj.Object
  {
    match Obj.HashKeyOf(index)
    case None => Obj.Error("unusable as hash key: " + TypeName(index))
    case Some(k) => if k in pairs then pairs[k].1 else Obj.Null
  }

  function ArityMessage(expected: nat, got: nat): string
  {
    "Wrong parameter count: Expected " + Fmt.NatToString(expected) + " got " + Fmt.NatToString(got)
  }

  /** The objects behind a list of pointers; none at all when any pointer is NULL. */
  function Objects(vs: seq<Ptr>): (r: Option<seq<Obj.Object>>)
    ensures r.Some? <==> forall i | 0 <= i < |vs| :: vs[i].Some?
    ensures r.Some? ==> |r.value| == |vs| && forall i | 0 <= i < |vs| :: vs[i] == Some(r.value[i])
  {
    if vs == [] then Some([])
    else if vs[0].None? then None
    else match Objects(vs[1..])
      case Some(os) => Some([vs[0].value] + os)
      case None => None
  }

  /** extend_function_env's loop: each parameter env_set to its argument in turn. */
  function BindParams(envs: seq<Env>, env: nat, params: seq<string>, args: seq<Ptr>): (r: seq<Env>)
    requires env < |envs| && |params| == |args|
    ensures |r| == |envs|
    decreases |params|
  {
    if params == [] then envs
    else BindParams(EnvSet(envs, env, params[0], args[0]), env, params[1..], args[1..])
  }

  /** eval_identifier: a builtin's name first, then the environments; anything else is undeclared. */
  function IdentValue(envs: seq<Env>, env: nat, name: string): Obj.Object
  {
    match Builtins.IndexOfName(name)
    case Some(i) => Obj.Builtin(i)
    case None =>
      match Lookup(envs, env, name)
      case Some(o) => o
      case None => Obj.Error("undeclared identifier '" + name + "'")
  }

  /** eval_identifier as written, whose env_get sees only the current store. */
  function IdentValueAsWritten(envs: seq<Env>, env: nat, name: string): Obj.Object
    requires env < |envs|
  {
    match Builtins.IndexOfName(name)
    case Some(i) => Obj.Builtin(i)
    case None =>
      match LookupAsWritten(envs, env, name)
      case Some(o) => o
      case None => Obj.Error("undeclared identifier '" + name + "'")
  }

  // ---------------------------------------------------------------- evaluation

  /**
   * eval_expression.  Every function of the evaluation spends fuel when it
   * evaluates a nested expression; the second component of `decreases`
   * orders the functions that call each other without spending any.
   */
  function EvalExpr(fuel: nat, envs: seq<Env>, env: nat, e: Ast.Expr): (r: Eval)
    requires env < |envs|
    ensures Grows(envs, r)
    decreases fuel, 0, 0
  {
    if fuel == 0 then OutOfFuel else
    match e
    case Nil => Stuck
    case NumberLiteral(_, v) => Val(Some(Obj.Number(v)), envs)
    case BooleanLiteral(_, b) => Val(Some(Obj.Boolean(b)), envs)
    case StringLiteral(_, s) => Val(Some(Obj.Str(s)), envs)
    case Identifier(_, name) => Val(Some(IdentValue(envs, env, name)), envs)
    case FnLiteral(_, params, body) => Val(Some(Obj.Function(params, body, env)), envs)
    case PrefixExpr(_, op, right) => EvalPrefix(fuel - 1, envs, env, op, right)
    case InfixExpr(_, left, op, right) => EvalInfix(fuel - 1, envs, env, left, op, right)
    case IfExpr(c, cons, alt) => EvalIf(fuel - 1, envs, env, c, cons, alt)
    case CallExpr(_, callee, args) => EvalCall(fuel - 1, envs, env, callee, args)
    case ArrayLiteral(_, elements) => EvalArrayLiteral(fuel - 1, envs, env, elements)
    case IndexExpr(_, left, index) => EvalIndex(fuel - 1, envs, env, left, index)
    case HashLiteral(_, pairs) => EvalPairs(fuel - 1, envs, env, pairs, map[])
    case WhileLoop(_, c, body) =>
      var (envs1, inner) := Enclose(envs, env);
      EvalLoop(fuel - 1, envs1, inner, c, body, Ast.NoClause)
    case ForLoop(init, c, update, body) => EvalFor(fuel - 1, envs, env, init, c, update, body)
    case Reassignment(_, name, rhs) => EvalReassign(fuel - 1, envs, env, name, rhs)
  }

  /** eval_prefix_expression: an error operand is returned, NULL is dereferenced. */
  function EvalPrefix(fuel: nat, envs: seq<Env>, env: nat, op: string, right: Ast.Expr): (r: Eval)
    requires env < |envs|
    ensures Grows(envs, r)
    decreases fuel, 1, 0
  {
    match EvalExpr(fuel, envs, env, right)
    case Val(None, _) => Stuck
    case Val(Some(o), envs1) => Val(Some(if o.Error? then o else PrefixObject(op, o)), envs1)
    case other => other
  }

  /** eval_infix_expression: the right operand is evaluated before the left, but the left's error is reported first. */
  function EvalInfix(fuel: nat, envs: seq<Env>, env: nat, left: Ast.Expr, op: string, right: Ast.Expr): (r: Eval)
    requires env < |envs|
    ensures Grows(envs, r)
    decreases fuel, 1, 0
  {
    match EvalExpr(fuel, envs, env, right)
    case Val(rv, envs1) =>
      (match EvalExpr(fuel, envs1, env, left)
       case Val(lv, envs2) =>
         if IsError(lv) then Val(lv, envs2)
         else if IsError(rv) then Val(rv, envs2)
         else if lv.None? || rv.None? then Stuck
         else (match InfixObjects(lv.value, op, rv.value)
               case Some(o) => Val(Some(o), envs2)
               case None => Stuck)
       case other => other)
    case other => other
  }

  /** eval_if_expression: NULL when the condition is falsy and there is no alternative. */
  function EvalIf(fuel: nat, envs: seq<Env>, env: nat, c: Ast.Expr, cons: seq<Ast.Stmt>, alt: Ast.Else): (r: Eval)
    requires env < |envs|
    ensures Grows(envs, r)
    decreases fuel, 4, 0
  {
    match EvalExpr(fuel, envs, env, c)
    case Val(cv, envs1) =>
      if IsError(cv) then Val(cv, envs1)
      else if Truthy(cv) then EvalBlock(fuel, envs1, env, cons)
      else if alt.ElseBlock? then EvalBlock(fuel, envs1, env, alt.block)
      else Val(None, envs1)
    case other => other
  }

  /** eval: one statement. */
  function EvalStmt(fuel: nat, envs: seq<Env>, env: nat, s: Ast.Stmt): (r: Eval)
    requires env < |envs|
    ensures Grows(envs, r)
    decreases fuel, 1, 0
  {
    match s
    case ExprStmt(_, e) => EvalExpr(fuel, envs, env, e)
    case ReturnStmt(_, e) =>
      (match EvalExpr(fuel, envs, env, e)
       case Val(None, envs1) => Val(Some(Obj.ReturnValue(None)), envs1)
       case Val(Some(o), envs1) => Val(Some(if o.Error? then o else Obj.ReturnValue(Some(o))), envs1)
       case other => other)
    case LetStmt(_, name, e) =>
      (match EvalExpr(fuel, envs, env, e)
       case Val(v, envs1) => if IsError(v) then Val(v, envs1) else Val(None, EnvSet(envs1, env, name, v))
       case other => other)
    case ContinueStmt(_) => Val(Some(Obj.Continue), envs)
    case BreakStmt(_) => Val(Some(Obj.Break), envs)
  }

  /** eval_block_statement: an empty block returns its uninitialised result. */
  function EvalBlock(fuel: nat, envs: seq<Env>, env: nat, ss: seq<Ast.Stmt>): (r: Eval)
    requires env < |envs|
    ensures Grows(envs, r)
    decreases fuel, 3, 0
  {
    if ss == [] then Stuck else BlockFrom(fuel, envs, env, ss)
  }

  /** The statements of a block from the first on: the first interrupting result is returned, else the last result. */
  function BlockFrom(fuel: nat, envs: seq<Env>, env: nat, ss: seq<Ast.Stmt>): (r: Eval)
    requires env < |envs| && |ss| >= 1
    ensures Grows(envs, r)
    decreases fuel, 2, |ss|
  {
    match EvalStmt(fuel, envs, env, ss[0])
    case Val(v, envs1) =>
      if |ss| == 1 || Interrupts(v) then Val(v, envs1) else BlockFrom(fuel, envs1, env, ss[1..])
    case other => other
  }

  /** eval_expressions: evaluated left to right; the first error is returned alone. */
  function EvalList(fuel: nat, envs: seq<Env>, env: nat, es: seq<Ast.Expr>): (r: EvalMany)
    requires env < |envs|
    ensures GrowsMany(envs, r)
    ensures r.Many? ==> |r.vs| == |es|
    decreases fuel, 1, |es|
  {
    if es == [] then Many([], envs) else
    match EvalExpr(fuel, envs, env, es[0])
    case Val(v, envs1) =>
      if IsError(v) then ManyError(v.value, envs1)
      else (match EvalList(fuel, envs1, env, es[1..])
            case Many(vs, envs2) => Many([v] + vs, envs2)
            case other => other)
    case Stuck => ManyStuck
    case OutOfFuel => ManyOutOfFuel
  }

  /** eval_array_literal: the elements in order, the first error instead; a NULL element is not modelled. */
  function EvalArrayLiteral(fuel: nat, envs: seq<Env>, env: nat, es: seq<Ast.Expr>): (r: Eval)
    requires env < |envs|
    ensures Grows(envs, r)
    decreases fuel, 2, 0
  {
    match EvalList(fuel, envs, env, es)
    case Many(vs, envs1) => (match Objects(vs) case Some(os) => Val(Some(Obj.Array(os)), envs1) case None => Stuck)
    case ManyError(err, envs1) => Val(Some(err), envs1)
    case ManyStuck => Stuck
    case ManyOutOfFuel => OutOfFuel
  }

  /**
   * apply_function: builtins are called directly; a non-function and a
   * wrong argument count are errors; a function's body runs in a new
   * environment enclosed by the function's own, and a return value is
   * unwrapped.
   */
  function ApplyFunction(fuel: nat, envs: seq<Env>, f: Obj.Object, args: seq<Ptr>): (r: Eval)
    ensures Grows(envs, r)
    decreases fuel, 4, 0
  {
    if f.Builtin? then
      (if f.index < |Builtins.Names| && Objects(args).Some? then Val(Some(Builtins.Apply(f.index, Objects(args).value)), envs)
       else Stuck)
    else if !f.Function? then Val(Some(Obj.Error("Not a function: FUNCTION_OBJ")), envs)
    else if |f.params| != |args| then Val(Some(Obj.Error(ArityMessage(|f.params|, |args|))), envs)
    else if f.env >= |envs| then Stuck
    else
      var (envs1, inner) := Enclose(envs, f.env);
      var envs2 := BindParams(envs1, inner, f.params, args);
      match EvalBlock(fuel, envs2, inner, f.body)
      case Val(None, _) => Stuck
      case Val(Some(o), envs3) => Val(if o.ReturnValue? then o.inner else Some(o), envs3)
      case other => other
  }

  /** The end of eval_function_call as intended: an argument's error is the call's result. */
  function FinishCall(fuel: nat, envs: seq<Env>, f: Ptr, args: EvalMany): (r: Eval)
    requires GrowsMany(envs, args)
    ensures Grows(envs, r)
    decreases fuel, 5, 0
  {
    match args
    case ManyError(err, envs1) => Val(Some(err), envs1)
    case Many(vs, envs1) => if f.None? then Stuck else ApplyFunction(fuel, envs1, f.value, vs)
    case ManyStuck => Stuck
    case ManyOutOfFuel => OutOfFuel
  }

  /** eval_function_call: the callee, the arguments, then the application. */
  function EvalCall(fuel: nat, envs: seq<Env>, env: nat, callee: Ast.Expr, args: seq<Ast.Expr>): (r: Eval)
    requires env < |envs|
    ensures Grows(envs, r)
    decreases fuel, 6, 0
  {
    match EvalExpr(fuel, envs, env, callee)
    case Val(fv, envs1) =>
      if IsError(fv) then Val(fv, envs1) else FinishCall(fuel, envs1, fv, EvalList(fuel, envs1, env, args))
    case other => other
  }

  /** eval_index_expression: arrays take numbers, hashes any hashable key; the left operand is not checked for an error. */
  function EvalIndex(fuel: nat, envs: seq<Env>, env: nat, left: Ast.Expr, index: Ast.Expr): (r: Eval)
    requires env < |envs|
    ensures Grows(envs, r)
    decreases fuel, 1, 0
  {
    match EvalExpr(fuel, envs, env, left)
    case Val(None, _) => Stuck
    case Val(Some(l), envs1) =>
      if l.Array? || l.Hash? then
        match EvalExpr(fuel, envs1, env, index)
        case Val(None, _) => Stuck
        case Val(Some(i), envs2) =>
          if l.Hash? then Val(Some(HashElement(l.pairs, i)), envs2)
          else if !i.Number? then Val(Some(Obj.Error("attempting to index array with non-integer index: got " + TypeName(i))), envs2)
          else Val(Some(ArrayElement(l.elements, i.value)), envs2)
        case other => other
      else Val(Some(Obj.Error("attempting to index " + TypeName(l))), envs1)
    case other => other
  }

  /**
   * eval_hash_literal and iter_eval_hash_literal, over the pairs in source
   * order: key, its hash key, then value; the first error stops it and a
   * later pair with an equal key replaces an earlier one.
   */
  function EvalPairs(fuel: nat, envs: seq<Env>, env: nat, ps: seq<(Ast.Expr, Ast.Expr)>,
                     acc: map<Obj.HashKey, (Obj.Object, Obj.Object)>): (r: Eval)
    requires env < |envs|
    ensures Grows(envs, r)
    decreases fuel, 1, |ps|
  {
    if ps == [] then Val(Some(Obj.Hash(acc)), envs) else
    match EvalExpr(fuel, envs, env, ps[0].0)
    case Val(None, _) => Stuck
    case Val(Some(k), envs1) =>
      if k.Error? then Val(Some(k), envs1) else
      (match Obj.HashKeyOf(k)
       case None => Val(Some(Obj.Error("Unusable as hash key: " + TypeName(k))), envs1)
       case Some(hk) =>
         match EvalExpr(fuel, envs1, env, ps[0].1)
         case Val(None, _) => Stuck
         case Val(Some(v), envs2) =>
           if v.Error? then Val(Some(v), envs2) else EvalPairs(fuel, envs2, env, ps[1..], acc[hk := (k, v)])
         case other => other)
    case other => other
  }

  /** eval_loop_condition: a missing condition is obj_true. */
  function LoopCondition(fuel: nat, envs: seq<Env>, env: nat, c: Ast.Expr): (r: Eval)
    requires env < |envs|
    ensures Grows(envs, r)
    decreases fuel, 1, 0
  {
    if c == Ast.Nil then Val(Some(Obj.Boolean(true)), envs) else EvalExpr(fuel, envs, env, c)
  }

  /** eval_loop: the condition must first give a boolean; then the loop proper, whose result starts uninitialised. */
  function EvalLoop(fuel: nat, envs: seq<Env>, env: nat, c: Ast.Expr, body: seq<Ast.Stmt>, update: Ast.Clause): (r: Eval)
    requires env < |envs|
    ensures Grows(envs, r)
    decreases fuel, 5, 0
  {
    match LoopCondition(fuel, envs, env, c)
    case Val(None, _) => Stuck
    case Val(Some(o), envs1) =>
      if !o.Boolean? then Val(Some(Obj.Error("Loop condition should produce a boolean value")), envs1)
      else LoopTurn(fuel, envs1, env, c, body, update, None)
    case other => other
  }

  /** The update statement of a for loop, whose result is ignored. */
  function RunUpdate(fuel: nat, envs: seq<Env>, env: nat, update: Ast.Clause): (r: Eval)
    requires env < |envs|
    ensures Grows(envs, r)
    decreases fuel, 2, 0
  {
    match update
    case NoClause => Val(None, envs)
    case ClauseStmt(s) => EvalStmt(fuel, envs, env, s)
  }

  /**
   * One turn of eval_loop's while: the loop goes on while the condition is
   * obj_true.  A return value or a break ends it with that object; a
   * continue goes straight back to the condition, skipping the update; a
   * NULL result, an error or any other value runs the update and goes on.
   * When the condition fails the last body result is returned.
   */
  function LoopTurn(fuel: nat, envs: seq<Env>, env: nat, c: Ast.Expr, body: seq<Ast.Stmt>, update: Ast.Clause,
                    result: Option<Ptr>): (r: Eval)
    requires env < |envs|
    ensures Grows(envs, r)
    decreases fuel, 4, 0
  {
    if fuel == 0 then OutOfFuel else
    match LoopCondition(fuel, envs, env, c)
    case Val(cv, envs1) =>
      if cv != Some(Obj.Boolean(true)) then
        (if result.None? then Stuck else Val(result.value, envs1))
      else
        (match EvalBlock(fuel, envs1, env, body)
         case Val(v, envs2) =>
           if v.Some? && (v.value.ReturnValue? || v.value.Break?) then Val(v, envs2)
           else if v.Some? && v.value.Continue? then LoopTurn(fuel - 1, envs2, env, c, body, update, Some(v))
           else
             (match RunUpdate(fuel, envs2, env, update)
              case Val(_, envs3) => LoopTurn(fuel - 1, envs3, env, c, body, update, Some(v))
              case other => other)
         case other => other)
    case other => other
  }

  /** eval_for_loop: a new environment, the initialization (which must be a let), then the loop. */
  function EvalFor(fuel: nat, envs: seq<Env>, env: nat, init: Ast.Clause, c: Ast.Expr, update: Ast.Clause,
                   body: seq<Ast.Stmt>): (r: Eval)
    requires env < |envs|
    ensures Grows(envs, r)
    decreases fuel, 6, 0
  {
    var (envs1, inner) := Enclose(envs, env);
    match init
    case NoClause => EvalLoop(fuel, envs1, inner, c, body, update)
    case ClauseStmt(s) =>
      if !s.LetStmt? then Stuck
      else match EvalStmt(fuel, envs1, inner, s)
        case Val(_, envs2) => EvalLoop(fuel, envs2, inner, c, body, update)
        case other => other
  }

  /**
   * eval_reassignment of an identifier: the new value (not checked for an
   * error) is set where resolve_ident finds the name; an unknown name is an
   * error.
   */
  function EvalReassign(fuel: nat, envs: seq<Env>, env: nat, name: string, rhs: Ast.Expr): (r: Eval)
    requires env < |envs|
    ensures Grows(envs, r)
    decreases fuel, 1, 0
  {
    match EvalExpr(fuel, envs, env, rhs)
    case Val(v, envs1) =>
      (match Resolve(envs1, env, name)
       case Some(level) => Val(None, SetIdent(envs1, env, level, name, v))
       case None => Val(Some(Obj.Error(name + " is not defined")), envs1))
    case other => other
  }

  // ---------------------------------------------------------------- programs

  /** The results eval_program stops at: return values and errors. */
  predicate Halts(v: Ptr)
  {
    v.Some? && (v.value.ReturnValue? || v.value.Error?)
  }

  /** The statements of a program from the first on: the first return value or error is returned, else the last result. */
  function TopFrom(fuel: nat, envs: seq<Env>, env: nat, ss: seq<Ast.Stmt>): (r: Eval)
    requires env < |envs| && |ss| >= 1
    ensures Grows(envs, r)
    decreases |ss|
  {
    match EvalStmt(fuel, envs, env, ss[0])
    case Val(v, envs1) =>
      if |ss| == 1 || Halts(v) then Val(v, envs1) else TopFrom(fuel, envs1, env, ss[1..])
    case other => other
  }

  /** A top-level return value gives the value it wraps. */
  function UnwrapReturn(r: Eval): Eval
  {
    if r.Val? && r.v.Some? && r.v.value.ReturnValue? then Val(r.v.value.inner, r.envs) else r
  }

  /** eval_program: an empty program returns its uninitialised result. */
  function EvalProgram(fuel: nat, envs: seq<Env>, env: nat, ss: seq<Ast.Stmt>): (r: Eval)
    requires env < |envs|
    ensures Grows(envs, r)
  {
    if ss == [] then Stuck else UnwrapReturn(TopFrom(fuel, envs, env, ss))
  }

  /** eval_function_call as written: memcpy's arguments are swapped, so an argument's error is lost and an uninitialised object returned. */
  function FinishCallAsWritten(fuel: nat, envs: seq<Env>, f: Ptr, args: EvalMany): (r: Eval)
    requires GrowsMany(envs, args)
  {
    if args.ManyError? then Stuck else FinishCall(fuel, envs, f, args)
  }
}
