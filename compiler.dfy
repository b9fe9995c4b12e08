/**
 * The bytecode compiler (src/compiler/compiler.c, src/compiler/compiler.h).
 *
 * The compiler's state is a value: the constant pool, the symbol-table
 * chain, the stack of compilation scopes (the current one last) and the
 * is_void_expression flag.  The compile_* functions are functions from a
 * state to a new state or an error; the primitives that change the
 * compiler in place are also methods of the class `Compiler`, each proved
 * to make the same change as the function it is named after.
 */
module Compiler {
  import opened Wrappers
  import Code
  import BigEndian
  import Ast
  import Token
  import Obj = Object
  import SymbolTable
  import Builtins
  import CInt

  /** EmmittedInstruction: an opcode and the offset it was written at. */
  datatype Emitted = Emitted(op: nat, position: nat)

  /** CompilationScope: the scope's instructions and its last two emitted instructions. */
  datatype Scope = Scope(instructions: seq<int>, last: Emitted, previous: Emitted)

  /** new_compilation_scope: no instructions; both records zero-initialised ({OP_CONSTANT, 0}). */
  const NewScope: Scope := Scope([], Emitted(0, 0), Emitted(0, 0))

  datatype CState = CState(constants: seq<Obj.Object>, tables: SymbolTable.Tables, scopes: seq<Scope>, isVoid: bool)

  /** A compiler state has a current scope (scopes[scope_index]). */
  type State = c: CState | |c.scopes| >= 1 witness CState([], SymbolTable.NewTables, [NewScope], false)

  /** CompilerResult's failures; Crash stands for an assert or a NULL dereference that aborts the process. */
  datatype CError = UnknownOperator | UnknownIdentifier | Crash

  type CResult = Result<State, CError>

  /** The sentinel operand jumps are emitted with before they are back-patched. */
  const JumpSentinel: int := 9999

  function Cur(c: State): Scope { c.scopes[|c.scopes| - 1] }

  /** compiler_current_instructions. */
  function Ins(c: State): seq<int> { Cur(c).instructions }

  function WithCur(c: State, s: Scope): (d: State)
    ensures Cur(d) == s && |d.scopes| == |c.scopes| && d.scopes[..|c.scopes| - 1] == c.scopes[..|c.scopes| - 1]
    ensures d.constants == c.constants && d.tables == c.tables && d.isVoid == c.isVoid
  {
    c.(scopes := c.scopes[|c.scopes| - 1 := s])
  }

  // ---------------------------------------------------------------- how states relate

  /** d leaves every outer scope as it is in c, keeps the number of scopes and tables, and only adds constants. */
  predicate Framed(c: State, d: State)
  {
    && |d.scopes| == |c.scopes| && d.scopes[..|c.scopes| - 1] == c.scopes[..|c.scopes| - 1]
    && |d.tables| == |c.tables| && c.constants <= d.constants
  }

  /** ... and the current instructions of c are a prefix of those of d. */
  predicate Extends(c: State, d: State)
  {
    Framed(c, d) && Ins(c) <= Ins(d)
  }

  /** ... and d has strictly more instructions. */
  predicate Grew(c: State, d: State)
  {
    Extends(c, d) && |Ins(c)| < |Ins(d)|
  }

  lemma {:induction false} ExtendsTrans(a: State, b: State, c: State)
    requires Extends(a, b) && Extends(b, c)
    ensures Extends(a, c)
    ensures |Ins(a)| < |Ins(b)| || |Ins(b)| < |Ins(c)| ==> Grew(a, c)
  {
    assert a.constants <= c.constants by {
      assert c.constants[..|b.constants|] == b.constants;
      assert c.constants[..|a.constants|] == c.constants[..|b.constants|][..|a.constants|];
    }
    assert Ins(a) <= Ins(c) by {
      assert Ins(c)[..|Ins(b)|] == Ins(b);
      assert Ins(c)[..|Ins(a)|] == Ins(c)[..|Ins(b)|][..|Ins(a)|];
    }
  }

  /**
   * The fact remove_last_pop relies on: when the last instruction is OP_POP
   * it is the final byte, and the one before it is not OP_POP.
   */
  predicate PopOk(s: Scope)
  {
    s.last.op == Code.OpPop ==> s.last.position + 1 == |s.instructions| && s.previous.op != Code.OpPop
  }

  // ---------------------------------------------------------------- primitives

  /** add_constant: the object is appended and its index returned. */
  function AddConstant(c: State, o: Obj.Object): (r: (State, nat))
    ensures r.1 == |c.constants| && r.0.constants == c.constants + [o]
    ensures r.0.scopes == c.scopes && r.0.tables == c.tables && r.0.isVoid == c.isVoid
  {
    (c.(constants := c.constants + [o]), |c.constants|)
  }

  /**
   * emit: the instruction is appended to the current scope only, its offset
   * is the old length, and the last/previous records shift.
   */
  function Emit(c: State, op: nat, operands: seq<int>): (r: (State, nat))
    requires op < Code.OpCount && |operands| <= 4
    ensures r.1 == |Ins(c)| && Ins(r.0) == Ins(c) + Code.Instruction(op, operands)
    ensures Cur(r.0).last == Emitted(op, r.1) && Cur(r.0).previous == Cur(c).last
    ensures Grew(c, r.0) && r.0.tables == c.tables && r.0.constants == c.constants && r.0.isVoid == c.isVoid
  {
    var pos := |Ins(c)|;
    (WithCur(c, Scope(Ins(c) + Code.Instruction(op, operands), Emitted(op, pos), Cur(c).last)), pos)
  }

  /** remove_last_pop: one element shorter, and last_instruction restored from previous_instruction. */
  function RemoveLastPop(c: State): (d: State)
    requires |Ins(c)| >= 1
    ensures Ins(d) == Ins(c)[..|Ins(c)| - 1]
    ensures Cur(d).last == Cur(c).previous && Cur(d).previous == Cur(c).previous
    ensures Framed(c, d) && d.tables == c.tables && d.constants == c.constants && d.isVoid == c.isVoid
  {
    var s := Cur(c);
    WithCur(c, Scope(s.instructions[..|s.instructions| - 1], s.previous, s.previous))
  }

  /** replace_instruction: the bytes at pos are overwritten in place; the length does not change. */
  function ReplaceInstruction(c: State, pos: nat, ins: seq<int>): (d: State)
    requires pos + |ins| <= |Ins(c)|
    ensures |Ins(d)| == |Ins(c)| && Ins(d)[..pos] == Ins(c)[..pos]
    ensures Ins(d)[pos..pos + |ins|] == ins && Ins(d)[pos + |ins|..] == Ins(c)[pos + |ins|..]
    ensures Cur(d).last == Cur(c).last && Cur(d).previous == Cur(c).previous
    ensures Framed(c, d) && d.tables == c.tables && d.constants == c.constants && d.isVoid == c.isVoid
  {
    var s := Cur(c);
    var ins' := s.instructions[..pos] + ins + s.instructions[pos + |ins|..];
    assert ins'[..pos] == s.instructions[..pos];
    assert ins'[pos..pos + |ins|] == ins;
    assert ins'[pos + |ins|..] == s.instructions[pos + |ins|..];
    WithCur(c, s.(instructions := ins'))
  }

  /** The instruction at opPos has an opcode and room for that opcode's instruction with one operand. */
  predicate Patchable(c: State, opPos: nat, operand: int)
  {
    && opPos < |Ins(c)| && 0 <= Ins(c)[opPos] < Code.OpCount
    && opPos + |Code.Instruction(Ins(c)[opPos], [operand])| <= |Ins(c)|
  }

  /** change_operand: the instruction at opPos rebuilt with the new operand, written over the old one. */
  function ChangeOperand(c: State, opPos: nat, operand: int): (d: State)
    requires Patchable(c, opPos, operand)
    ensures |Ins(d)| == |Ins(c)| && Ins(d)[..opPos] == Ins(c)[..opPos]
    ensures var n := |Code.Instruction(Ins(c)[opPos], [operand])|;
      Ins(d)[opPos..opPos + n] == Code.Instruction(Ins(c)[opPos], [operand]) && Ins(d)[opPos + n..] == Ins(c)[opPos + n..]
    ensures Cur(d).last == Cur(c).last && Cur(d).previous == Cur(c).previous
    ensures Framed(c, d) && d.tables == c.tables && d.constants == c.constants && d.isVoid == c.isVoid
  {
    ReplaceInstruction(c, opPos, Code.Instruction(Ins(c)[opPos], [operand]))
  }

  /** enter_compiler_scope: a new empty scope and an enclosed symbol table. */
  function EnterScope(c: State): (d: State)
    ensures d.scopes == c.scopes + [NewScope] && d.tables == SymbolTable.Enclose(c.tables)
    ensures d.constants == c.constants && d.isVoid == c.isVoid
  {
    c.(scopes := c.scopes + [NewScope], tables := SymbolTable.Enclose(c.tables))
  }

  /** leave_compiler_scope: the current scope's instructions; the outer scope and table become current. */
  function LeaveScope(c: State): (r: (State, seq<int>))
    requires |c.scopes| >= 2 && |c.tables| >= 2
    ensures r.1 == Ins(c) && r.0.scopes == c.scopes[..|c.scopes| - 1]
    ensures r.0.tables == SymbolTable.Outer(c.tables) && r.0.constants == c.constants && r.0.isVoid == c.isVoid
  {
    (c.(scopes := c.scopes[..|c.scopes| - 1], tables := SymbolTable.Outer(c.tables)), Ins(c))
  }

  /** Both scope changes undo each other. */
  lemma {:induction false} LeaveEnter(c: State)
    ensures LeaveScope(EnterScope(c)).0 == c && LeaveScope(EnterScope(c)).1 == []
  {
    assert (c.scopes + [NewScope])[..|c.scopes|] == c.scopes;
  }

  /** The two-byte-operand instructions JMP and JMP_IF_FALSE are three bytes. */
  lemma {:induction false} JumpShape(op: nat, target: int)
    requires op == Code.OpJmp || op == Code.OpJmpIfFalse
    ensures |Code.Instruction(op, [target])| == 3 && Code.Instruction(op, [target])[0] == op
  {
    WideShape(op, target);
  }

  /** An instruction with one two-byte operand: the opcode, then the operand's high and low byte. */
  lemma {:induction false} WideShape(op: nat, x: int)
    requires op < Code.OpCount && Code.OperandWidths(op) == [2]
    ensures Code.Instruction(op, [x]) == [op, (x % 0x1_0000) / 0x100, (x % 0x1_0000) % 0x100]
  {
    var one: seq<int> := [x];
    assert one[..0] == [];
    var w := Code.DefinitionOf(op).widths;
    assert w[0] == 2;
    assert Code.EncodeFirst(w, [x], 1) == [] + Code.OperandBytes(2, x);
  }

  // ---------------------------------------------------------------- symbols

  /** load_symbol: the get instruction of the symbol's scope, with its index. */
  function LoadSymbol(c: State, s: SymbolTable.Symbol): (d: State)
    ensures Grew(c, d) && Cur(d).last.op != Code.OpPop
    ensures d.tables == c.tables && d.constants == c.constants && d.isVoid == c.isVoid
  {
    var op := match s.scope
      case GlobalScope => Code.OpGetGlobal
      case LocalScope => Code.OpGetLocal
      case BuiltinScope => Code.OpGetBuiltin
      case FreeScope => Code.OpGetFree;
    Emit(c, op, [s.index]).0
  }

  /** The loop of compile_function_literal that loads each captured symbol in the enclosing scope. */
  function LoadSymbols(c: State, syms: seq<SymbolTable.Symbol>): (d: State)
    ensures Extends(c, d) && d.tables == c.tables && d.constants == c.constants && d.isVoid == c.isVoid
    decreases |syms|
  {
    if syms == [] then c
    else
      var c1 := LoadSymbol(c, syms[0]);
      var d := LoadSymbols(c1, syms[1..]);
      ExtendsTrans(c, c1, d);
      d
  }

  /** The symbol_define calls of compile_function_literal, one per parameter. */
  function DefineParams(c: State, params: seq<string>): (d: State)
    ensures d.scopes == c.scopes && d.constants == c.constants && d.isVoid == c.isVoid && |d.tables| == |c.tables|
    decreases |params|
  {
    if params == [] then c
    else DefineParams(c.(tables := SymbolTable.Define(c.tables, params[0]).0), params[1..])
  }

  /** The symbol_define_builtin loop of new_compiler, over the builtin table from index i on. */
  function DefineBuiltins(ts: SymbolTable.Tables, i: nat): (r: SymbolTable.Tables)
    requires i <= |Builtins.Names|
    ensures |r| == |ts|
    decreases |Builtins.Names| - i
  {
    if i == |Builtins.Names| then ts
    else DefineBuiltins(SymbolTable.DefineBuiltin(ts, i, Builtins.Names[i]), i + 1)
  }

  /** new_compiler: no constants, the builtins in the global table, one empty scope. */
  function NewCompiler(): (c: State)
    ensures c.constants == [] && c.scopes == [NewScope] && |c.tables| == 1 && !c.isVoid
  {
    CState([], DefineBuiltins(SymbolTable.NewTables, 0), [NewScope], false)
  }

  // ---------------------------------------------------------------- operators

  /** compile_infix_operand: strncmp on the first two characters, then a switch on the first one. */
  function InfixOp(op: string): (r: Option<nat>)
    ensures r.Some? ==> r.value < Code.OpCount
  {
    if |op| >= 2 && op[..2] == "<<" then Some(Code.OpLShift)
    else if |op| >= 2 && op[..2] == ">>" then Some(Code.OpRShift)
    else if |op| >= 2 && op[..2] == "==" then Some(Code.OpEq)
    else if |op| >= 2 && op[..2] == "!=" then Some(Code.OpNotEq)
    else if |op| == 0 then None
    else if op[0] == '+' then Some(Code.OpAdd)
    else if op[0] == '-' then Some(Code.OpSub)
    else if op[0] == '*' then Some(Code.OpMul)
    else if op[0] == '/' then Some(Code.OpDiv)
    else if op[0] == '&' then Some(Code.OpBitAnd)
    else if op[0] == '|' then Some(Code.OpBitOr)
    else if op[0] == '^' then Some(Code.OpBitXor)
    else if op[0] == '%' then Some(Code.OpMod)
    else if op[0] == '>' then Some(Code.OpGreater)
    else None
  }

  /** compile_prefix_operand. */
  function PrefixOp(op: string): (r: Option<nat>)
    ensures r.Some? ==> r.value < Code.OpCount
  {
    if |op| == 0 then None
    else if op[0] == '!' then Some(Code.OpBang)
    else if op[0] == '-' then Some(Code.OpMinus)
    else None
  }

  /** The two-character operators are recognised by their first two characters. */
  lemma {:induction false} TwoCharOperators()
    ensures InfixOp("==") == Some(Code.OpEq) && InfixOp("!=") == Some(Code.OpNotEq)
    ensures InfixOp("<<") == Some(Code.OpLShift) && InfixOp(">>") == Some(Code.OpRShift)
  {
    assert "=="[..2] == "==";
    assert "!="[..2] == "!=";
    assert "<<"[..2] == "<<";
    assert ">>"[..2] == ">>";
  }

  /** `&&` and `||` match no two-character case and fall to the `&` and `|` cases. */
  lemma {:induction false} LogicalOperators()
    ensures InfixOp("&&") == Some(Code.OpBitAnd) && InfixOp("||") == Some(Code.OpBitOr)
  {
    assert "&&"[..2] == "&&";
    assert "||"[..2] == "||";
  }

  /** The one-character operators; `<` has no opcode of its own (the compiler swaps the operands of `<`). */
  lemma {:induction false} OneCharOperators()
    ensures InfixOp("+") == Some(Code.OpAdd) && InfixOp("-") == Some(Code.OpSub)
    ensures InfixOp("*") == Some(Code.OpMul) && InfixOp("/") == Some(Code.OpDiv)
    ensures InfixOp("%") == Some(Code.OpMod) && InfixOp(">") == Some(Code.OpGreater)
    ensures InfixOp("&") == Some(Code.OpBitAnd) && InfixOp("|") == Some(Code.OpBitOr) && InfixOp("^") == Some(Code.OpBitXor)
    ensures InfixOp("<").None? && InfixOp("=").None?
  {
  }

  /** The operators the parser produces map to their opcodes; `&&` and `||` fall to the `&` and `|` cases. */
  lemma {:induction false} OperatorTable()
    ensures InfixOp("+") == Some(Code.OpAdd) && InfixOp("-") == Some(Code.OpSub)
    ensures InfixOp("*") == Some(Code.OpMul) && InfixOp("/") == Some(Code.OpDiv)
    ensures InfixOp("%") == Some(Code.OpMod) && InfixOp(">") == Some(Code.OpGreater)
    ensures InfixOp("==") == Some(Code.OpEq) && InfixOp("!=") == Some(Code.OpNotEq)
    ensures InfixOp("<<") == Some(Code.OpLShift) && InfixOp(">>") == Some(Code.OpRShift)
    ensures InfixOp("&") == Some(Code.OpBitAnd) && InfixOp("|") == Some(Code.OpBitOr) && InfixOp("^") == Some(Code.OpBitXor)
    ensures InfixOp("&&") == Some(Code.OpBitAnd) && InfixOp("||") == Some(Code.OpBitOr)
    ensures InfixOp("<").None? && InfixOp("=").None?
    ensures PrefixOp("!") == Some(Code.OpBang) && PrefixOp("-") == Some(Code.OpMinus) && PrefixOp("+").None?
  {
    TwoCharOperators();
    LogicalOperators();
    OneCharOperators();
  }

  // ---------------------------------------------------------------- compiling

  /**
   * compile_expression.  A successful compilation appends to the current
   * scope only: everything emitted before, the outer scopes and the
   * constants already in the pool are kept, and the last instruction is
   * never OP_POP.
   */
  function CompileExpr(c: State, e: Ast.Expr): (r: CResult)
    ensures r.Ok? ==> Grew(c, r.value) && Cur(r.value).last.op != Code.OpPop
    decreases e, 2
  {
    match e
    case Nil => Err(Crash)
    case InfixExpr(_, _, _, _) => CompileInfix(c, e)
    case PrefixExpr(_, _, _) => CompilePrefix(c, e)
    case NumberLiteral(_, v) => CompileConstant(c, Obj.Number(v))
    case BooleanLiteral(_, b) => Ok(Emit(c, if b then Code.OpTrue else Code.OpFalse, []).0)
    case IfExpr(_, _, _) => CompileIf(c, e)
    case Identifier(_, name) => CompileIdentifier(c, name)
    case StringLiteral(_, text) => CompileConstant(c, Obj.Str(text))
    case ArrayLiteral(_, _) => CompileArray(c, e)
    case HashLiteral(_, _) => CompileHash(c, e)
    case IndexExpr(_, _, _) => CompileIndex(c, e)
    case FnLiteral(_, _, _) => CompileFunction(c, e)
    case CallExpr(_, _, _) => CompileCall(c, e)
    case WhileLoop(_, _, _) => CompileWhile(c, e)
    case Reassignment(_, _, _) => CompileReassignment(c, e)
    case ForLoop(_, _, _, _) => Err(UnknownOperator)
  }

  /** A number or string literal: the value joins the constant pool and OP_CONSTANT loads it by index. */
  function CompileConstant(c: State, o: Obj.Object): (r: CResult)
    ensures r.Ok? && r.value.constants == c.constants + [o]
    ensures Ins(r.value) == Ins(c) + Code.Instruction(Code.OpConstant, [|c.constants|])
    ensures Grew(c, r.value) && Cur(r.value).last.op != Code.OpPop
  {
    var (c1, k) := AddConstant(c, o);
    Ok(Emit(c1, Code.OpConstant, [k]).0)
  }

  /** compile_identifier: an unresolvable name is UNKNOWN_IDENTIFIER; otherwise the symbol is loaded. */
  function CompileIdentifier(c: State, name: string): (r: CResult)
    ensures r.Ok? <==> SymbolTable.Resolve(c.tables, name).1.Some?
    ensures r.Err? ==> r.error == UnknownIdentifier
    ensures r.Ok? ==> Grew(c, r.value) && Cur(r.value).last.op != Code.OpPop
  {
    var (ts, sym) := SymbolTable.Resolve(c.tables, name);
    if sym.None? then Err(UnknownIdentifier)
    else
      var c0: State := c.(tables := ts);
      Ok(LoadSymbol(c0, sym.value))
  }

  /** compile_prefix_expression: the operand, then OP_BANG or OP_MINUS. */
  function CompilePrefix(c: State, e: Ast.Expr): (r: CResult)
    requires e.PrefixExpr?
    ensures r.Ok? ==> Grew(c, r.value) && Cur(r.value).last.op != Code.OpPop
    decreases e, 1
  {
    var r1 := CompileExpr(c, e.right);
    if r1.Err? then r1
    else if PrefixOp(e.op).None? then Err(UnknownOperator)
    else
      var d := Emit(r1.value, PrefixOp(e.op).value, []).0;
      ExtendsTrans(c, r1.value, d);
      Ok(d)
  }

  /** compile_array_literal: the elements in order, then OP_ARRAY with their number. */
  function CompileArray(c: State, e: Ast.Expr): (r: CResult)
    requires e.ArrayLiteral?
    ensures r.Ok? ==> Grew(c, r.value) && Cur(r.value).last.op != Code.OpPop
    decreases e, 1
  {
    var r1 := CompileExprs(c, e.elements);
    if r1.Err? then r1
    else
      var d := Emit(r1.value, Code.OpArray, [|e.elements|]).0;
      ExtendsTrans(c, r1.value, d);
      Ok(d)
  }

  /** compile_index_expression: the indexed value, the index, then OP_INDEX. */
  function CompileIndex(c: State, e: Ast.Expr): (r: CResult)
    requires e.IndexExpr?
    ensures r.Ok? ==> Grew(c, r.value) && Cur(r.value).last.op != Code.OpPop
    decreases e, 1
  {
    var r1 := CompileExpr(c, e.left);
    if r1.Err? then r1
    else
      var r2 := CompileExpr(r1.value, e.index);
      if r2.Err? then r2
      else
        var d := Emit(r2.value, Code.OpIndex, []).0;
        ExtendsTrans(c, r1.value, r2.value);
        ExtendsTrans(c, r2.value, d);
        Ok(d)
  }

  /** compile_call_expression: the callee, the arguments in order, then OP_CALL with their number. */
  function CompileCall(c: State, e: Ast.Expr): (r: CResult)
    requires e.CallExpr?
    ensures r.Ok? ==> Grew(c, r.value) && Cur(r.value).last.op != Code.OpPop
    decreases e, 1
  {
    var r1 := CompileExpr(c, e.callee);
    if r1.Err? then r1
    else
      var r2 := CompileExprs(r1.value, e.args);
      if r2.Err? then r2
      else
        var d := Emit(r2.value, Code.OpCall, [|e.args|]).0;
        ExtendsTrans(c, r1.value, r2.value);
        ExtendsTrans(c, r2.value, d);
        Ok(d)
  }

  /** The loop over array elements or call arguments. */
  function CompileExprs(c: State, es: seq<Ast.Expr>): (r: CResult)
    ensures r.Ok? ==> Extends(c, r.value)
    decreases es, 0
  {
    if es == [] then Ok(c)
    else
      var r1 := CompileExpr(c, es[0]);
      if r1.Err? then r1
      else
        var r2 := CompileExprs(r1.value, es[1..]);
        if r2.Err? then r2
        else
          ExtendsTrans(c, r1.value, r2.value);
          r2
  }

  /** compile_infix_expression: `<` compiles its right operand first and emits OP_GREATER. */
  function CompileInfix(c: State, e: Ast.Expr): (r: CResult)
    requires e.InfixExpr?
    ensures r.Ok? ==> Grew(c, r.value) && Cur(r.value).last.op != Code.OpPop
    decreases e, 1
  {
    var (first, second) := if e.op == "<" then (e.right, e.left) else (e.left, e.right);
    var op := if e.op == "<" then Some(Code.OpGreater) else InfixOp(e.op);
    var r1 := CompileExpr(c, first);
    if r1.Err? then r1
    else
      var r2 := CompileExpr(r1.value, second);
      if r2.Err? then r2
      else if op.None? then Err(UnknownOperator)
      else
        var d := Emit(r2.value, op.value, []).0;
        ExtendsTrans(c, r1.value, r2.value);
        ExtendsTrans(c, r2.value, d);
        Ok(d)
  }

  /** compile_hash_expression: each key then its value, then OP_HASH with twice the pair count. */
  function CompileHash(c: State, e: Ast.Expr): (r: CResult)
    requires e.HashLiteral?
    ensures r.Ok? ==> Grew(c, r.value) && Cur(r.value).last.op != Code.OpPop
    decreases e, 1
  {
    var r1 := CompilePairs(c, e, 0);
    if r1.Err? then r1
    else
      var d := Emit(r1.value, Code.OpHash, [2 * |e.pairs|]).0;
      ExtendsTrans(c, r1.value, d);
      Ok(d)
  }

  /** The pairs of a hash literal from index i on, each key before its value. */
  function CompilePairs(c: State, e: Ast.Expr, i: nat): (r: CResult)
    requires e.HashLiteral? && i <= |e.pairs|
    ensures r.Ok? ==> Extends(c, r.value)
    decreases e, 0, |e.pairs| - i
  {
    if i == |e.pairs| then Ok(c)
    else
      var r1 := CompileExpr(c, e.pairs[i].0);
      if r1.Err? then r1
      else
        var r2 := CompileExpr(r1.value, e.pairs[i].1);
        if r2.Err? then r2
        else
          var r3 := CompilePairs(r2.value, e, i + 1);
          if r3.Err? then r3
          else
            ExtendsTrans(c, r1.value, r2.value);
            ExtendsTrans(c, r2.value, r3.value);
            r3
  }

  /** The `if (last_instruction_is(OP_POP)) remove_last_pop` step. */
  function DropLastPop(c: State): (d: State)
    requires PopOk(Cur(c))
    ensures Cur(d).last.op != Code.OpPop
    ensures Cur(c).last.op == Code.OpPop ==> d == RemoveLastPop(c)
    ensures Cur(c).last.op != Code.OpPop ==> d == c
  {
    if Cur(c).last.op == Code.OpPop then RemoveLastPop(c) else c
  }

  /**
   * Dropping the block's trailing OP_POP never removes code emitted before
   * the block: a block that emitted nothing leaves a last instruction
   * that is not OP_POP.
   */
  lemma {:induction false} DropKeeps(c: State, r: State)
    requires Extends(c, r) && PopOk(Cur(r)) && Cur(c).last.op != Code.OpPop
    requires |Ins(r)| == |Ins(c)| ==> r == c
    ensures Extends(c, DropLastPop(r))
  {
    if Cur(r).last.op == Code.OpPop {
      var d := DropLastPop(r);
      assert Ins(d) == Ins(r)[..|Ins(r)| - 1];
      assert Ins(d)[..|Ins(c)|] == Ins(r)[..|Ins(c)|];
      FramedTrans(c, r, d);
    }
  }

  lemma {:induction false} FramedTrans(a: State, b: State, c: State)
    requires Framed(a, b) && Framed(b, c)
    ensures Framed(a, c)
  {
    assert c.constants[..|a.constants|] == c.constants[..|b.constants|][..|a.constants|];
  }

  /**
   * compile_if_expression: the condition, OP_JMP_IF_FALSE, the consequence
   * without its trailing OP_POP, OP_JMP, then the alternative (or OP_NULL);
   * the first jump is patched to the offset after OP_JMP and the second to
   * the end.
   */
  function CompileIf(c: State, e: Ast.Expr): (r: CResult)
    requires e.IfExpr?
    ensures r.Ok? ==> Grew(c, r.value) && Cur(r.value).last.op != Code.OpPop
    decreases e, 1
  {
    var r1 := CompileExpr(c, e.condition);
    if r1.Err? then r1
    else
      var (c2, jif) := Emit(r1.value, Code.OpJmpIfFalse, [JumpSentinel]);
      var r3 := CompileBlock(c2, e.consequence);
      if r3.Err? then r3
      else
        var (c5, jmp) := Emit(DropLastPop(r3.value), Code.OpJmp, [JumpSentinel]);
        IfFirstPatch(r1.value, c2, r3.value, c5, jif, jmp);
        var c6 := ChangeOperand(c5, jif, |Ins(c5)|);
        var r7 := CompileAlternative(c6, e.alternative);
        if r7.Err? then r7
        else
          var c8 := r7.value;
          IfSecondPatch(c5, c6, c8, jif, jmp);
          var c9 := ChangeOperand(c8, jmp, |Ins(c8)|);
          IfGrew(c, r1.value, c5, c6, c8, c9, jif, jmp);
          Ok(c9)
  }

  /** The OP_JMP_IF_FALSE is still in place after the consequence and OP_JMP. */
  lemma {:induction false} IfFirstPatch(c1: State, c2: State, c3: State, c5: State, jif: nat, jmp: nat)
    requires jif == |Ins(c1)| && Ins(c2) == Ins(c1) + Code.Instruction(Code.OpJmpIfFalse, [JumpSentinel])
    requires Grew(c1, c2) && Cur(c2).last.op != Code.OpPop
    requires Extends(c2, c3) && PopOk(Cur(c3)) && (|Ins(c3)| == |Ins(c2)| ==> c3 == c2)
    requires jmp == |Ins(DropLastPop(c3))| && Grew(DropLastPop(c3), c5)
    requires Ins(c5) == Ins(DropLastPop(c3)) + Code.Instruction(Code.OpJmp, [JumpSentinel])
    ensures Patchable(c5, jif, |Ins(c5)|) && Ins(c5)[jif] == Code.OpJmpIfFalse
    ensures jif + 3 <= jmp && jmp + 3 == |Ins(c5)| && Ins(c5)[jmp] == Code.OpJmp
    ensures Extends(c1, c5) && |Code.Instruction(Code.OpJmpIfFalse, [|Ins(c5)|])| == 3
  {
    JumpShape(Code.OpJmpIfFalse, JumpSentinel);
    JumpShape(Code.OpJmpIfFalse, |Ins(c5)|);
    JumpShape(Code.OpJmp, JumpSentinel);
    DropKeeps(c2, c3);
    ExtendsTrans(c2, DropLastPop(c3), c5);
    ExtendsTrans(c1, c2, c5);
    assert Ins(c5)[jif] == Ins(c2)[jif];
  }

  /** The OP_JMP is still in place after the first patch and the alternative. */
  lemma {:induction false} IfSecondPatch(c5: State, c6: State, c8: State, jif: nat, jmp: nat)
    requires jif + 3 <= jmp && jmp + 3 == |Ins(c5)| && Ins(c5)[jmp] == Code.OpJmp
    requires |Ins(c6)| == |Ins(c5)| && Ins(c6)[jif + 3..] == Ins(c5)[jif + 3..]
    requires Extends(c6, c8)
    ensures Patchable(c8, jmp, |Ins(c8)|)
  {
    JumpShape(Code.OpJmp, |Ins(c8)|);
    assert Ins(c6)[jmp] == Ins(c6)[jif + 3..][jmp - jif - 3];
    assert Ins(c8)[jmp] == Ins(c6)[jmp];
  }

  /** Both patches lie after the code emitted before the if expression. */
  lemma {:induction false} IfGrew(c: State, c1: State, c5: State, c6: State, c8: State, c9: State, jif: nat, jmp: nat)
    requires Grew(c, c1) && jif == |Ins(c1)| && Extends(c1, c5)
    requires Framed(c5, c6) && |Ins(c6)| == |Ins(c5)| && Ins(c6)[..jif] == Ins(c5)[..jif]
    requires Extends(c6, c8) && jif <= jmp <= |Ins(c6)|
    requires Framed(c8, c9) && |Ins(c9)| == |Ins(c8)| && Ins(c9)[..jmp] == Ins(c8)[..jmp]
    ensures Grew(c, c9)
  {
    FramedTrans(c, c1, c5);
    FramedTrans(c, c5, c6);
    FramedTrans(c, c6, c8);
    FramedTrans(c, c8, c9);
    var n := |Ins(c)|;
    assert Ins(c9)[..n] == Ins(c9)[..jmp][..n];
    assert Ins(c8)[..jmp][..n] == Ins(c8)[..n] == Ins(c6)[..n];
    assert Ins(c6)[..n] == Ins(c6)[..jif][..n];
    assert Ins(c5)[..jif][..n] == Ins(c5)[..n] == Ins(c1)[..n];
  }

  /** The alternative without its trailing OP_POP, or OP_NULL when there is none. */
  function CompileAlternative(c: State, alt: Ast.Else): (r: CResult)
    requires Cur(c).last.op != Code.OpPop
    ensures r.Ok? ==> Extends(c, r.value) && Cur(r.value).last.op != Code.OpPop
    decreases alt, 0
  {
    match alt
    case NoElse => Ok(Emit(c, Code.OpNull, []).0)
    case ElseBlock(b) =>
      var r1 := CompileBlock(c, b);
      if r1.Err? then r1
      else
        DropKeeps(c, r1.value);
        Ok(DropLastPop(r1.value))
  }

  /** compile_block_statement: the statements in order, stopping at the first failure. */
  function CompileBlock(c: State, b: seq<Ast.Stmt>): (r: CResult)
    requires PopOk(Cur(c))
    ensures r.Ok? ==> Extends(c, r.value) && PopOk(Cur(r.value))
    ensures r.Ok? && |Ins(r.value)| == |Ins(c)| ==> r.value == c
    decreases b, 0
  {
    if b == [] then Ok(c)
    else
      var r1 := CompileStmt(c, b[0]);
      if r1.Err? then r1
      else
        var r2 := CompileBlock(r1.value, b[1..]);
        if r2.Err? then r2
        else
          ExtendsTrans(c, r1.value, r2.value);
          r2
  }

  /**
   * compile_statement: an expression statement is followed by OP_POP unless
   * the expression was void (which resets the flag); let defines the name
   * before compiling the value and then stores it; return emits
   * OP_RETURN_VALUE; break and continue hit the "not implemented" assert.
   */
  function CompileStmt(c: State, s: Ast.Stmt): (r: CResult)
    ensures r.Ok? ==> Grew(c, r.value) && PopOk(Cur(r.value))
    decreases s, 1
  {
    match s
    case ExprStmt(_, e) =>
      var r1 := CompileExpr(c, e);
      if r1.Err? then r1
      else if r1.value.isVoid then
        var d: State := r1.value.(isVoid := false);
        Ok(d)
      else
        var d := Emit(r1.value, Code.OpPop, []).0;
        ExtendsTrans(c, r1.value, d);
        Ok(d)
    case LetStmt(_, name, value) =>
      var (ts, sym) := SymbolTable.Define(c.tables, name);
      var c0: State := c.(tables := ts);
      var r1 := CompileExpr(c0, value);
      if r1.Err? then r1
      else
        var d := Emit(r1.value, if sym.scope == SymbolTable.GlobalScope then Code.OpSetGlobal else Code.OpSetLocal, [sym.index]).0;
        ExtendsTrans(c0, r1.value, d);
        Ok(d)
    case ReturnStmt(_, e) =>
      var r1 := CompileExpr(c, e);
      if r1.Err? then r1
      else
        var d := Emit(r1.value, Code.OpReturnValue, []).0;
        ExtendsTrans(c, r1.value, d);
        Ok(d)
    case BreakStmt(_) => Err(Crash)
    case ContinueStmt(_) => Err(Crash)
  }

  /** compile_program: the statements in order, stopping at the first failure. */
  function CompileProgram(c: State, stmts: seq<Ast.Stmt>): (r: CResult)
    requires PopOk(Cur(c))
    ensures r.Ok? ==> Extends(c, r.value) && PopOk(Cur(r.value))
  {
    CompileBlock(c, stmts)
  }

  // ---------------------------------------------------------------- functions and loops

  /**
   * The function epilogue: a trailing OP_POP is overwritten with
   * OP_RETURN_VALUE (and recorded as the last instruction), and OP_RETURN is
   * appended unless the body now ends in OP_RETURN_VALUE.
   */
  function Epilogue(c: State): (d: State)
    requires PopOk(Cur(c))
    ensures Framed(c, d) && d.tables == c.tables && d.constants == c.constants
  {
    var c1 := if Cur(c).last.op == Code.OpPop then ReplaceLastPop(c, true) else c;
    if Cur(c1).last.op != Code.OpReturnValue then Emit(c1, Code.OpReturn, []).0 else c1
  }

  /**
   * The epilogue as written: replace_instruction does not update
   * last_instruction, which still says OP_POP, so OP_RETURN is appended
   * after the new OP_RETURN_VALUE as well.
   */
  function EpilogueAsWritten(c: State): (d: State)
    requires PopOk(Cur(c))
  {
    var c1 := if Cur(c).last.op == Code.OpPop then ReplaceLastPop(c, false) else c;
    if Cur(c1).last.op != Code.OpReturnValue then Emit(c1, Code.OpReturn, []).0 else c1
  }

  /** The OP_POP at the end overwritten with OP_RETURN_VALUE; `record` also updates last_instruction. */
  function ReplaceLastPop(c: State, record: bool): (d: State)
    requires Cur(c).last.op == Code.OpPop && PopOk(Cur(c))
    ensures Ins(d) == Ins(c)[..|Ins(c)| - 1] + [Code.OpReturnValue]
    ensures Cur(d).last.op == (if record then Code.OpReturnValue else Code.OpPop)
    ensures Framed(c, d) && d.tables == c.tables && d.constants == c.constants && d.isVoid == c.isVoid
  {
    var pos := Cur(c).last.position;
    assert Code.Instruction(Code.OpReturnValue, []) == [Code.OpReturnValue];
    var c1 := ReplaceInstruction(c, pos, [Code.OpReturnValue]);
    assert Ins(c1) == Ins(c1)[..pos] + Ins(c1)[pos..pos + 1];
    if record then WithCur(c1, Cur(c1).(last := Emitted(Code.OpReturnValue, pos))) else c1
  }

  /** A body ending in an expression statement returns its value once; as written a dead OP_RETURN follows. */
  lemma {:induction false} EpilogueTrailingPop(c: State)
    requires Cur(c).last.op == Code.OpPop && PopOk(Cur(c))
    ensures Ins(Epilogue(c)) == Ins(c)[..|Ins(c)| - 1] + [Code.OpReturnValue]
    ensures Ins(EpilogueAsWritten(c)) == Ins(c)[..|Ins(c)| - 1] + [Code.OpReturnValue, Code.OpReturn]
  {
    assert Code.Instruction(Code.OpReturn, []) == [Code.OpReturn];
  }

  /** An empty body becomes [OP_RETURN]. */
  lemma {:induction false} EpilogueEmptyBody(c: State)
    requires Cur(c) == NewScope
    ensures Ins(Epilogue(c)) == [Code.OpReturn] && Ins(EpilogueAsWritten(c)) == [Code.OpReturn]
  {
    assert Code.Instruction(Code.OpReturn, []) == [Code.OpReturn];
  }

  /**
   * compile_function_literal: a new scope with the parameters defined, the
   * body and epilogue; back in the enclosing scope each captured symbol is
   * loaded, the compiled function is added as a constant and OP_CLOSURE
   * emitted with its index and the number of captured symbols.
   */
  function CompileFunction(c: State, e: Ast.Expr): (r: CResult)
    requires e.FnLiteral?
    ensures r.Ok? ==> Grew(c, r.value) && Cur(r.value).last.op != Code.OpPop
    decreases e, 1
  {
    var c1 := DefineParams(EnterScope(c), e.params);
    var r2 := CompileBlock(c1, e.body);
    if r2.Err? then r2
    else
      var c3 := Epilogue(r2.value);
      assert c3.scopes[..|c.scopes|] == c.scopes by {
        assert c1.scopes[..|c.scopes|] == c.scopes;
      }
      Ok(CloseFunction(c, c3, |e.params|))
  }

  /**
   * The second half of compile_function_literal, from leave_compiler_scope
   * on: c3 is the function's own scope one level inside c.
   */
  function CloseFunction(c: State, c3: State, numParams: nat): (d: State)
    requires |c3.scopes| == |c.scopes| + 1 && c3.scopes[..|c.scopes|] == c.scopes
    requires |c3.tables| == |c.tables| + 1 && c.constants <= c3.constants
    ensures Grew(c, d) && Cur(d).last.op == Code.OpClosure
  {
    var top := SymbolTable.Top(c3.tables);
    var (c4, ins) := LeaveScope(c3);
    var c5 := LoadSymbols(c4, top.free);
    var (c6, k) := AddConstant(c5, Obj.CompiledFunction(ins, top.numDefinitions, numParams));
    var d := Emit(c6, Code.OpClosure, [k, |top.free|]).0;
    assert Extends(c, c4);
    ExtendsTrans(c, c4, c5);
    ExtendsTrans(c, c5, c6);
    ExtendsTrans(c, c6, d);
    d
  }

  /**
   * The layout of a compiled let: the value's code, compiled once the name
   * is defined (so the value may refer to it), then one store into the slot
   * the definition took: OP_SET_GLOBAL at the outermost level, OP_SET_LOCAL
   * inside a function.
   */
  lemma {:induction false} LetLayout(c: State, s: Ast.Stmt) returns (v: State)
    requires s.LetStmt? && CompileStmt(c, s).Ok?
    ensures CompileExpr(c.(tables := SymbolTable.Define(c.tables, s.name).0), s.value) == Ok(v)
    ensures Ins(c) <= Ins(v) && |v.tables| == |c.tables|
    ensures Ins(CompileStmt(c, s).value)
      == Ins(v) + Code.Instruction(if |c.tables| == 1 then Code.OpSetGlobal else Code.OpSetLocal,
                                   [SymbolTable.Top(c.tables).numDefinitions])
  {
    var c0: State := c.(tables := SymbolTable.Define(c.tables, s.name).0);
    v := CompileExpr(c0, s.value).value;
  }

  /**
   * The layout of a compiled function literal: the body's code, closed by
   * the epilogue, becomes the newest constant, with the number of slots
   * its scope defined and the number of parameters; the enclosing code
   * ends with OP_CLOSURE naming that constant and the number of captured
   * variables loaded just before it.
   */
  lemma {:induction false} FnLayout(c: State, e: Ast.Expr) returns (f: State, k: nat, free: nat)
    requires e.FnLiteral? && CompileFunction(c, e).Ok?
    ensures var r := CompileBlock(DefineParams(EnterScope(c), e.params), e.body);
      r.Ok? && f == Epilogue(r.value)
    ensures free == |SymbolTable.Top(f.tables).free|
    ensures var d := CompileFunction(c, e).value;
      && c.constants <= d.constants && k == |d.constants| - 1
      && d.constants[k] == Obj.CompiledFunction(Ins(f), SymbolTable.Top(f.tables).numDefinitions, |e.params|)
      && Ins(c) <= Ins(d) && 4 <= |Ins(d)|
      && Ins(d)[|Ins(d)| - 4..] == Code.Instruction(Code.OpClosure, [k, free])
  {
    var c1 := DefineParams(EnterScope(c), e.params);
    f := Epilogue(CompileBlock(c1, e.body).value);
    var top := SymbolTable.Top(f.tables);
    var (c4, ins) := LeaveScope(f);
    var c5 := LoadSymbols(c4, top.free);
    var (c6, k') := AddConstant(c5, Obj.CompiledFunction(ins, top.numDefinitions, |e.params|));
    k, free := k', |top.free|;
    ClosureShape(k, free);
  }

  /** The offset the loop's closing OP_JMP targets: the first instruction of the condition. */
  function LoopStart(c: State): nat
  {
    |Ins(c)|
  }

  /**
   * The target as written: the offset of the last instruction emitted
   * before the loop, plus one.  It is the condition's offset only when that
   * instruction is one byte long.
   */
  function LoopStartAsWritten(c: State): nat
  {
    Cur(c).last.position + 1
  }

  /**
   * compile_while_loop: the condition, OP_JMP_IF_FALSE, the body, OP_JMP
   * back to the condition; the first jump is patched to the end and the
   * loop is a void expression.
   */
  function CompileWhile(c: State, e: Ast.Expr): (r: CResult)
    requires e.WhileLoop?
    ensures r.Ok? ==> Grew(c, r.value) && Cur(r.value).last.op != Code.OpPop && r.value.isVoid
    decreases e, 1
  {
    var start := LoopStart(c);
    var r1 := CompileExpr(c, e.condition);
    if r1.Err? then r1
    else
      var (c2, jif) := Emit(r1.value, Code.OpJmpIfFalse, [JumpSentinel]);
      JumpShape(Code.OpJmpIfFalse, JumpSentinel);
      var r3 := CompileBlock(c2, e.body);
      if r3.Err? then r3
      else
        var (c4, _) := Emit(r3.value, Code.OpJmp, [start]);
        ExtendsTrans(c2, r3.value, c4);
        assert Ins(c4)[..|Ins(c2)|] == Ins(c2);
        assert Ins(c4)[jif] == Ins(c2)[jif];
        JumpShape(Code.OpJmpIfFalse, |Ins(c4)|);
        var c5 := ChangeOperand(c4, jif, |Ins(c4)|);
        assert Grew(c, c5) by {
          ExtendsTrans(c, r1.value, c2);
          ExtendsTrans(c, c2, c4);
          assert Ins(c5)[..jif] == Ins(c4)[..jif];
          assert Ins(c)  <= Ins(c4)[..jif];
        }
        var d: State := c5.(isVoid := true);
        Ok(d)
  }

  /**
   * compile_reassignment: the name must resolve; the value, then the set
   * and get instructions of the symbol's scope.  A builtin hits the
   * "unreachable" assert.
   */
  function CompileReassignment(c: State, e: Ast.Expr): (r: CResult)
    requires e.Reassignment?
    ensures r.Ok? ==> Grew(c, r.value) && Cur(r.value).last.op != Code.OpPop
    decreases e, 1
  {
    var (ts, sym) := SymbolTable.Resolve(c.tables, e.name);
    if sym.None? then Err(UnknownIdentifier)
    else
      var c0: State := c.(tables := ts);
      var r1 := CompileExpr(c0, e.rhs);
      if r1.Err? then r1
      else
        var s := sym.value;
        if s.scope == SymbolTable.BuiltinScope then Err(Crash)
        else
          var d := SetAndGet(r1.value, s);
          ExtendsTrans(c0, r1.value, d);
          Ok(d)
  }

  /** The set instruction of the symbol's scope, then its get instruction, as compile_reassignment emits them. */
  function SetAndGet(c: State, s: SymbolTable.Symbol): (d: State)
    requires s.scope != SymbolTable.BuiltinScope
    ensures Grew(c, d) && Cur(d).last.op != Code.OpPop
  {
    var (setOp, getOp) := match s.scope
      case GlobalScope => (Code.OpSetGlobal, Code.OpGetGlobal)
      case LocalScope => (Code.OpSetLocal, Code.OpGetLocal)
      case _ => (Code.OpSetFree, Code.OpGetFree);
    var c2 := Emit(c, setOp, [s.index]).0;
    var d := Emit(c2, getOp, [s.index]).0;
    ExtendsTrans(c, c2, d);
    d
  }

  // ---------------------------------------------------------------- properties

  /** `a < b` is compiled exactly as `b > a`. */
  lemma {:induction false} LessIsSwappedGreater(c: State, t: Token.Token, u: Token.Token, a: Ast.Expr, b: Ast.Expr)
    ensures CompileExpr(c, Ast.InfixExpr(t, a, "<", b)) == CompileExpr(c, Ast.InfixExpr(u, b, ">", a))
  {
    assert ">" != "<" by { assert ">"[0] != "<"[0]; }
    assert InfixOp(">") == Some(Code.OpGreater);
  }

  /**
   * The layout of a compiled while loop: the condition's code first;
   * OP_JMP_IF_FALSE right after it, targeting the end; OP_JMP back to the
   * offset where the condition's code begins as the last instruction.
   */
  lemma {:induction false} WhileLayout(c: State, e: Ast.Expr)
    requires e.WhileLoop? && CompileWhile(c, e).Ok?
    ensures var d := CompileWhile(c, e).value; var cond := CompileExpr(c, e.condition).value;
      var n := |Ins(d)|; var k := |Ins(cond)|;
      && Ins(cond) <= Ins(d) && k + 6 <= n
      && Ins(d)[k..k + 3] == Code.Instruction(Code.OpJmpIfFalse, [n])
      && Ins(d)[n - 3..] == Code.Instruction(Code.OpJmp, [|Ins(c)|])
  {
    var c1 := CompileExpr(c, e.condition).value;
    var (c2, jif) := Emit(c1, Code.OpJmpIfFalse, [JumpSentinel]);
    var c3 := CompileBlock(c2, e.body).value;
    var (c4, jmp) := Emit(c3, Code.OpJmp, [|Ins(c)|]);
    JumpShape(Code.OpJmpIfFalse, JumpSentinel);
    JumpShape(Code.OpJmp, |Ins(c)|);
    ExtendsTrans(c2, c3, c4);
    assert Ins(c4)[jif] == Ins(c2)[jif];
    assert Ins(c1) <= Ins(c4) by {
      assert Ins(c4)[..jif] == Ins(c2)[..jif] == Ins(c1);
    }
    WhilePatched(c1, c4, jif, |Ins(c)|);
    assert CompileWhile(c, e).value == ChangeOperand(c4, jif, |Ins(c4)|).(isVoid := true);
  }

  /** Patching the OP_JMP_IF_FALSE of a while loop keeps the condition's code and the closing OP_JMP. */
  lemma {:induction false} WhilePatched(c1: State, c4: State, jif: nat, start: int)
    requires jif == |Ins(c1)| && Ins(c1) <= Ins(c4)
    requires jif + 6 <= |Ins(c4)| && Ins(c4)[jif] == Code.OpJmpIfFalse
    requires Ins(c4)[|Ins(c4)| - 3..] == Code.Instruction(Code.OpJmp, [start])
    ensures Patchable(c4, jif, |Ins(c4)|)
    ensures var d := ChangeOperand(c4, jif, |Ins(c4)|); var n := |Ins(d)|;
      && Ins(c1) <= Ins(d) && jif + 6 <= n
      && Ins(d)[jif..jif + 3] == Code.Instruction(Code.OpJmpIfFalse, [n])
      && Ins(d)[n - 3..] == Code.Instruction(Code.OpJmp, [start])
  {
    var n := |Ins(c4)|;
    JumpShape(Code.OpJmpIfFalse, n);
    var d := ChangeOperand(c4, jif, n);
    assert Ins(d)[n - 3..] == Ins(c4)[jif + 3..][n - 3 - (jif + 3)..];
    assert Ins(d)[..jif] == Ins(c4)[..jif] == Ins(c1);
  }

  /** Where the OP_JMP of a compiled if expression sits: after the condition, OP_JMP_IF_FALSE and the consequence without its trailing OP_POP. */
  function IfJumpAt(c: State, e: Ast.Expr): nat
    requires e.IfExpr? && CompileIf(c, e).Ok?
  {
    var c1 := CompileExpr(c, e.condition).value;
    var c2 := Emit(c1, Code.OpJmpIfFalse, [JumpSentinel]).0;
    |Ins(DropLastPop(CompileBlock(c2, e.consequence).value))|
  }

  /** What the second patch keeps: everything before the OP_JMP at jmp, which lies past the first jump. */
  lemma {:induction false} IfPrefixKept(c6: State, c8: State, c9: State, jif: nat, jmp: nat)
    requires jif + 3 <= jmp <= |Ins(c6)| && Extends(c6, c8)
    requires |Ins(c9)| == |Ins(c8)| && Ins(c9)[..jmp] == Ins(c8)[..jmp]
    ensures Ins(c9)[..jif] == Ins(c6)[..jif] && Ins(c9)[jif..jif + 3] == Ins(c6)[jif..jif + 3]
  {
    assert Ins(c8)[..|Ins(c6)|] == Ins(c6);
    assert Ins(c9)[..jif] == Ins(c9)[..jmp][..jif];
    assert Ins(c8)[..jmp][..jif] == Ins(c8)[..jif] == Ins(c6)[..jif];
    assert Ins(c9)[jif..jif + 3] == Ins(c9)[..jmp][jif..jif + 3];
    assert Ins(c8)[..jmp][jif..jif + 3] == Ins(c8)[jif..jif + 3] == Ins(c6)[jif..jif + 3];
  }

  /** After both patches: the condition's code is kept, OP_JMP_IF_FALSE targets just past OP_JMP, and OP_JMP targets the end. */
  lemma {:induction false} IfPatched(c1: State, c5: State, c8: State, jif: nat, jmp: nat)
    requires jif == |Ins(c1)| && jif + 3 <= jmp && jmp + 3 == |Ins(c5)| && Extends(c1, c5)
    requires Ins(c5)[jif] == Code.OpJmpIfFalse && Ins(c5)[jmp] == Code.OpJmp
    requires Patchable(c5, jif, |Ins(c5)|) && Extends(ChangeOperand(c5, jif, |Ins(c5)|), c8)
    requires Patchable(c8, jmp, |Ins(c8)|)
    ensures var d := ChangeOperand(c8, jmp, |Ins(c8)|);
      && Ins(c1) <= Ins(d)
      && Ins(d)[jif..jif + 3] == Code.Instruction(Code.OpJmpIfFalse, [jmp + 3])
      && Ins(d)[jmp..jmp + 3] == Code.Instruction(Code.OpJmp, [|Ins(d)|])
      && Ins(d)[jmp + 3..] == Ins(c8)[jmp + 3..]
  {
    var c6 := ChangeOperand(c5, jif, |Ins(c5)|);
    var d := ChangeOperand(c8, jmp, |Ins(c8)|);
    JumpShape(Code.OpJmp, |Ins(c8)|);
    JumpShape(Code.OpJmpIfFalse, |Ins(c5)|);
    IfPrefixKept(c6, c8, d, jif, jmp);
    assert Ins(c6)[jmp] == Ins(c6)[jif + 3..][jmp - jif - 3];
    assert Ins(c8)[jmp] == Ins(c6)[jmp];
    assert Ins(c1) == Ins(c5)[..jif];
  }

  /** The states of compile_if_expression up to the OP_JMP after the consequence. */
  lemma {:induction false} IfStatesToJump(c: State, e: Ast.Expr) returns (c1: State, c3: State, c5: State, jif: nat, jmp: nat)
    requires e.IfExpr? && CompileIf(c, e).Ok?
    ensures c1 == CompileExpr(c, e.condition).value && jif == |Ins(c1)|
    ensures var c2 := Emit(c1, Code.OpJmpIfFalse, [JumpSentinel]).0;
      PopOk(Cur(c2)) && CompileBlock(c2, e.consequence) == Ok(c3)
    ensures PopOk(Cur(c3)) && (c5, jmp) == Emit(DropLastPop(c3), Code.OpJmp, [JumpSentinel]) && jmp == IfJumpAt(c, e)
    ensures Patchable(c5, jif, |Ins(c5)|) && Ins(c5)[jif] == Code.OpJmpIfFalse
    ensures jif + 3 <= jmp && jmp + 3 == |Ins(c5)| && Ins(c5)[jmp] == Code.OpJmp && Extends(c1, c5)
  {
    c1 := CompileExpr(c, e.condition).value;
    var e2 := Emit(c1, Code.OpJmpIfFalse, [JumpSentinel]);
    var c2 := e2.0;
    jif := e2.1;
    c3 := CompileBlock(c2, e.consequence).value;
    var e5 := Emit(DropLastPop(c3), Code.OpJmp, [JumpSentinel]);
    c5, jmp := e5.0, e5.1;
    IfFirstPatch(c1, c2, c3, c5, jif, jmp);
  }

  /**
   * The states compile_if_expression passes through: the condition's code
   * (c1) ends at jif, where OP_JMP_IF_FALSE goes; OP_JMP follows the
   * consequence at jmp (state c5); c8 is the state after the alternative,
   * and the result is c8 with the OP_JMP patched.
   */
  lemma {:induction false} IfStates(c: State, e: Ast.Expr) returns (c1: State, c5: State, c8: State, jif: nat, jmp: nat)
    requires e.IfExpr? && CompileIf(c, e).Ok?
    ensures c1 == CompileExpr(c, e.condition).value && jmp == IfJumpAt(c, e)
    ensures jif == |Ins(c1)| && jif + 3 <= jmp && jmp + 3 == |Ins(c5)| && Extends(c1, c5)
    ensures Ins(c5)[jif] == Code.OpJmpIfFalse && Ins(c5)[jmp] == Code.OpJmp
    ensures Patchable(c5, jif, |Ins(c5)|) && Extends(ChangeOperand(c5, jif, |Ins(c5)|), c8)
    ensures Patchable(c8, jmp, |Ins(c8)|) && CompileIf(c, e).value == ChangeOperand(c8, jmp, |Ins(c8)|)
    ensures e.alternative.NoElse? ==> Ins(c8) == Ins(ChangeOperand(c5, jif, |Ins(c5)|)) + [Code.OpNull]
    ensures var d := CompileIf(c, e).value;
      && Ins(c1) <= Ins(d) && jmp + 3 <= |Ins(d)|
      && Ins(d)[jif..jif + 3] == Code.Instruction(Code.OpJmpIfFalse, [jmp + 3])
      && Ins(d)[jmp..jmp + 3] == Code.Instruction(Code.OpJmp, [|Ins(d)|])
  {
    var c3;
    c1, c3, c5, jif, jmp := IfStatesToJump(c, e);
    JumpShape(Code.OpJmpIfFalse, |Ins(c5)|);
    var c6 := ChangeOperand(c5, jif, |Ins(c5)|);
    c8 := CompileAlternative(c6, e.alternative).value;
    IfSecondPatch(c5, c6, c8, jif, jmp);
    IfPatched(c1, c5, c8, jif, jmp);
    if e.alternative.NoElse? {
      assert Code.Instruction(Code.OpNull, []) == [Code.OpNull];
    }
  }

  /**
   * The layout of a compiled if expression: the condition's code first;
   * OP_JMP_IF_FALSE right after it, targeting the offset just past the
   * OP_JMP that ends the consequence; that OP_JMP targets the end. Without
   * an else block the alternative is the single OP_NULL.
   */
  lemma {:induction false} IfLayout(c: State, e: Ast.Expr) returns (k: nat, m: nat)
    requires e.IfExpr? && CompileIf(c, e).Ok?
    ensures k == |Ins(CompileExpr(c, e.condition).value)| && m == IfJumpAt(c, e)
    ensures var d := CompileIf(c, e).value; var n := |Ins(d)|;
      && Ins(CompileExpr(c, e.condition).value) <= Ins(d) && k + 3 <= m && m + 3 <= n
      && Ins(d)[k..k + 3] == Code.Instruction(Code.OpJmpIfFalse, [m + 3])
      && Ins(d)[m..m + 3] == Code.Instruction(Code.OpJmp, [n])
      && (e.alternative.NoElse? ==> m + 4 == n && Ins(d)[m + 3] == Code.OpNull)
  {
    var c1, c5, c8;
    c1, c5, c8, k, m := IfStates(c, e);
    var d := ChangeOperand(c8, m, |Ins(c8)|);
    if e.alternative.NoElse? {
      JumpShape(Code.OpJmp, |Ins(c8)|);
      assert Ins(d)[m + 3..] == Ins(c8)[m + 3..] == [Code.OpNull];
      assert Ins(d)[m + 3] == Ins(d)[m + 3..][0];
    }
  }

  /** On a fresh compiler the as-written back jump goes to offset 1; the condition starts at offset 0. */
  lemma {:induction false} LoopStartFresh()
    ensures LoopStart(NewCompiler()) == 0 && LoopStartAsWritten(NewCompiler()) == 1
  {
  }

  /**
   * After a three-byte instruction such as the OP_SET_GLOBAL of a let, the
   * as-written target is the second byte of that instruction, an operand
   * byte the VM would decode as an opcode.
   */
  lemma {:induction false} LoopStartAfterWide(c: State, op: nat, x: int)
    requires op < Code.OpCount && Code.OperandWidths(op) == [2]
    ensures var d := Emit(c, op, [x]).0;
      LoopStart(d) == |Ins(d)| && LoopStartAsWritten(d) == |Ins(d)| - 2 && Ins(d)[LoopStartAsWritten(d) - 1] == op
  {
    WideShape(op, x);
  }

  /** The if expression of `if (true) { 10 }`: both jumps patched, OP_NULL for the missing alternative. */
  lemma {:induction false} IfTrueTenExpr(c: State, t: Token.Token)
    requires c.constants == [] && Cur(c) == NewScope && !c.isVoid
    ensures var r := CompileExpr(c, Ast.IfExpr(Ast.BooleanLiteral(t, true), [Ast.ExprStmt(t, Ast.NumberLiteral(t, 10.0))], Ast.NoElse));
      && r.Ok? && r.value.constants == [Obj.Number(10.0)] && !r.value.isVoid
      && Ins(r.value) == [Code.OpTrue, Code.OpJmpIfFalse, 0, 10, Code.OpConstant, 0, 0, Code.OpJmp, 0, 11, Code.OpNull]
  {
    var ten := Ast.NumberLiteral(t, 10.0);
    var e := Ast.IfExpr(Ast.BooleanLiteral(t, true), [Ast.ExprStmt(t, ten)], Ast.NoElse);
    var c1 := Emit(c, Code.OpTrue, []).0;
    assert CompileExpr(c, e.condition) == Ok(c1);
    var (c2, jif) := Emit(c1, Code.OpJmpIfFalse, [JumpSentinel]);
    IfStepCondition(c);
    IfStepConsequence(c2, t);
    var c3 := CompileBlock(c2, e.consequence).value;
    var (c5, jmp) := Emit(DropLastPop(c3), Code.OpJmp, [JumpSentinel]);
    IfStepFirstPatch(c3);
    var c6 := ChangeOperand(c5, jif, |Ins(c5)|);
    var c8 := Emit(c6, Code.OpNull, []).0;
    assert CompileAlternative(c6, e.alternative) == Ok(c8);
    IfStepSecondPatch(c6);
    var c9 := ChangeOperand(c8, jmp, |Ins(c8)|);
    assert CompileIf(c, e) == Ok(c9);
    DispatchIf(c, e);
    assert c9.constants == c3.constants && c9.isVoid == c3.isVoid;
  }

  lemma {:induction false} DispatchIf(c: State, e: Ast.Expr)
    requires e.IfExpr?
    ensures CompileExpr(c, e) == CompileIf(c, e)
  {
  }

  lemma {:induction false} IfStepCondition(c: State)
    requires Cur(c) == NewScope
    ensures Ins(Emit(Emit(c, Code.OpTrue, []).0, Code.OpJmpIfFalse, [JumpSentinel]).0) == [Code.OpTrue, Code.OpJmpIfFalse, 0x27, 0x0F]
  {
    WideShape(Code.OpJmpIfFalse, JumpSentinel);
  }

  lemma {:induction false} IfStepConsequence(c2: State, t: Token.Token)
    requires Ins(c2) == [Code.OpTrue, Code.OpJmpIfFalse, 0x27, 0x0F] && c2.constants == [] && !c2.isVoid
    requires Cur(c2).last.op == Code.OpJmpIfFalse
    ensures var r := CompileBlock(c2, [Ast.ExprStmt(t, Ast.NumberLiteral(t, 10.0))]);
      && r.Ok? && r.value.constants == [Obj.Number(10.0)] && !r.value.isVoid
      && Ins(r.value) == [Code.OpTrue, Code.OpJmpIfFalse, 0x27, 0x0F, Code.OpConstant, 0, 0, Code.OpPop]
      && Cur(r.value).last == Emitted(Code.OpPop, 7) && Cur(r.value).previous.op == Code.OpConstant
  {
    var ten := Ast.NumberLiteral(t, 10.0);
    var c3 := CompileConstant(c2, Obj.Number(10.0)).value;
    assert CompileExpr(c2, ten) == Ok(c3);
    ConstantBytes(c2, Obj.Number(10.0));
    OneExprProgram(c2, t, ten);
  }

  lemma {:induction false} IfStepFirstPatch(c3: State)
    requires Ins(c3) == [Code.OpTrue, Code.OpJmpIfFalse, 0x27, 0x0F, Code.OpConstant, 0, 0, Code.OpPop]
    requires Cur(c3).last == Emitted(Code.OpPop, 7) && Cur(c3).previous.op == Code.OpConstant
    ensures var (c5, jmp) := Emit(DropLastPop(c3), Code.OpJmp, [JumpSentinel]);
      && jmp == 7 && Cur(c5).last.op == Code.OpJmp && Patchable(c5, 1, |Ins(c5)|)
      && Ins(ChangeOperand(c5, 1, |Ins(c5)|)) == [Code.OpTrue, Code.OpJmpIfFalse, 0, 10, Code.OpConstant, 0, 0, Code.OpJmp, 0x27, 0x0F]
  {
    var c4 := DropLastPop(c3);
    assert Ins(c4) == [Code.OpTrue, Code.OpJmpIfFalse, 0x27, 0x0F, Code.OpConstant, 0, 0];
    IfStepJmp(c4);
    IfStepPatchJif(Emit(c4, Code.OpJmp, [JumpSentinel]).0);
  }

  lemma {:induction false} IfStepJmp(c4: State)
    requires Ins(c4) == [Code.OpTrue, Code.OpJmpIfFalse, 0x27, 0x0F, Code.OpConstant, 0, 0]
    ensures Ins(Emit(c4, Code.OpJmp, [JumpSentinel]).0) == [Code.OpTrue, Code.OpJmpIfFalse, 0x27, 0x0F, Code.OpConstant, 0, 0, Code.OpJmp, 0x27, 0x0F]
  {
    WideShape(Code.OpJmp, JumpSentinel);
  }

  lemma {:induction false} IfStepPatchJif(c5: State)
    requires Ins(c5) == [Code.OpTrue, Code.OpJmpIfFalse, 0x27, 0x0F, Code.OpConstant, 0, 0, Code.OpJmp, 0x27, 0x0F]
    ensures Patchable(c5, 1, 10)
    ensures Ins(ChangeOperand(c5, 1, 10)) == [Code.OpTrue, Code.OpJmpIfFalse, 0, 10, Code.OpConstant, 0, 0, Code.OpJmp, 0x27, 0x0F]
  {
    WideShape(Code.OpJmpIfFalse, 10);
    var c6 := ChangeOperand(c5, 1, 10);
    assert Ins(c6) == Ins(c6)[..1] + Ins(c6)[1..4] + Ins(c6)[4..];
  }

  lemma {:induction false} IfStepSecondPatch(c6: State)
    requires Ins(c6) == [Code.OpTrue, Code.OpJmpIfFalse, 0, 10, Code.OpConstant, 0, 0, Code.OpJmp, 0x27, 0x0F]
    ensures var c8 := Emit(c6, Code.OpNull, []).0;
      && Patchable(c8, 7, |Ins(c8)|)
      && Ins(ChangeOperand(c8, 7, |Ins(c8)|)) == [Code.OpTrue, Code.OpJmpIfFalse, 0, 10, Code.OpConstant, 0, 0, Code.OpJmp, 0, 11, Code.OpNull]
  {
    WideShape(Code.OpJmp, 11);
    var c8 := Emit(c6, Code.OpNull, []).0;
    assert Ins(c8) == [Code.OpTrue, Code.OpJmpIfFalse, 0, 10, Code.OpConstant, 0, 0, Code.OpJmp, 0x27, 0x0F, Code.OpNull];
    var c9 := ChangeOperand(c8, 7, 11);
    assert Ins(c9) == Ins(c9)[..7] + Ins(c9)[7..10] + Ins(c9)[10..];
  }
  /** The first test of compiler_test.c's conditionals: `if (true) { 10 }; 3333;`. */
  lemma {:induction false} IfExample(c: State, t: Token.Token)
    requires c.constants == [] && Cur(c) == NewScope && !c.isVoid
    ensures var r := CompileProgram(c, [
        Ast.ExprStmt(t, Ast.IfExpr(Ast.BooleanLiteral(t, true), [Ast.ExprStmt(t, Ast.NumberLiteral(t, 10.0))], Ast.NoElse)),
        Ast.ExprStmt(t, Ast.NumberLiteral(t, 3333.0))]);
      && r.Ok? && r.value.constants == [Obj.Number(10.0), Obj.Number(3333.0)]
      && Ins(r.value) == [Code.OpTrue, Code.OpJmpIfFalse, 0, 10, Code.OpConstant, 0, 0, Code.OpJmp, 0, 11,
                          Code.OpNull, Code.OpPop, Code.OpConstant, 0, 1, Code.OpPop]
  {
    var ifE := Ast.IfExpr(Ast.BooleanLiteral(t, true), [Ast.ExprStmt(t, Ast.NumberLiteral(t, 10.0))], Ast.NoElse);
    var last := Ast.NumberLiteral(t, 3333.0);
    var stmts := [Ast.ExprStmt(t, ifE), Ast.ExprStmt(t, last)];
    IfTrueTenExpr(c, t);
    var d1 := Emit(CompileExpr(c, ifE).value, Code.OpPop, []).0;
    assert CompileStmt(c, stmts[0]) == Ok(d1);
    assert CompileExpr(d1, last) == CompileConstant(d1, Obj.Number(3333.0));
    ConstantBytes(d1, Obj.Number(3333.0));
    OneExprProgram(d1, t, last);
    assert stmts[1..] == [Ast.ExprStmt(t, last)];
  }

  /** The bytes of OP_CONSTANT for one of the first 256 constants. */
  lemma {:induction false} ConstantBytes(c: State, o: Obj.Object)
    requires |c.constants| < 0x100
    ensures Ins(CompileConstant(c, o).value) == Ins(c) + [Code.OpConstant, 0, |c.constants|]
    ensures CompileConstant(c, o).value.isVoid == c.isVoid
  {
    WideShape(Code.OpConstant, |c.constants|);
  }

  /** A top-level `return 1;`: the constant, then OP_RETURN_VALUE, as compile_statement emits them. */
  lemma {:induction false} TopReturnExample(c: State, t: Token.Token)
    requires c.constants == [] && Cur(c) == NewScope && !c.isVoid
    ensures var r := CompileProgram(c, [Ast.ReturnStmt(t, Ast.NumberLiteral(t, 1.0))]);
      && r.Ok? && r.value.constants == [Obj.Number(1.0)]
      && Ins(r.value) == [Code.OpConstant, 0, 0, Code.OpReturnValue]
  {
    var s := Ast.ReturnStmt(t, Ast.NumberLiteral(t, 1.0));
    var c1 := CompileConstant(c, Obj.Number(1.0)).value;
    ConstantBytes(c, Obj.Number(1.0));
    assert CompileExpr(c, s.value) == Ok(c1);
    var d := Emit(c1, Code.OpReturnValue, []).0;
    assert CompileStmt(c, s) == Ok(d);
    assert [s][1..] == [];
    assert CompileBlock(d, []) == Ok(d);
  }

  /** A program of one expression statement whose expression is not void: the expression, then OP_POP. */
  lemma {:induction false} OneExprProgram(c: State, t: Token.Token, e: Ast.Expr)
    requires PopOk(Cur(c)) && CompileExpr(c, e).Ok? && !CompileExpr(c, e).value.isVoid
    ensures CompileProgram(c, [Ast.ExprStmt(t, e)]) == Ok(Emit(CompileExpr(c, e).value, Code.OpPop, []).0)
  {
    var d := Emit(CompileExpr(c, e).value, Code.OpPop, []).0;
    assert CompileStmt(c, Ast.ExprStmt(t, e)) == Ok(d);
    assert [Ast.ExprStmt(t, e)][1..] == [];
    assert CompileBlock(d, []) == Ok(d);
  }

  lemma {:induction false} LessThanExpr(c: State, t: Token.Token)
    requires c.constants == [] && Cur(c) == NewScope && !c.isVoid
    ensures var r := CompileExpr(c, Ast.InfixExpr(t, Ast.NumberLiteral(t, 1.0), "<", Ast.NumberLiteral(t, 2.0)));
      && r.Ok? && r.value.constants == [Obj.Number(2.0), Obj.Number(1.0)] && !r.value.isVoid
      && Ins(r.value) == [Code.OpConstant, 0, 0, Code.OpConstant, 0, 1, Code.OpGreater]
  {
    var e := Ast.InfixExpr(t, Ast.NumberLiteral(t, 1.0), "<", Ast.NumberLiteral(t, 2.0));
    var c1 := CompileConstant(c, Obj.Number(2.0)).value;
    ConstantBytes(c, Obj.Number(2.0));
    var c2 := CompileConstant(c1, Obj.Number(1.0)).value;
    ConstantBytes(c1, Obj.Number(1.0));
    assert CompileExpr(c, e.right) == Ok(c1);
    assert CompileExpr(c1, e.left) == Ok(c2);
    assert CompileInfix(c, e) == Ok(Emit(c2, Code.OpGreater, []).0);
  }

  /** compiler_test.c's `1 < 2`: the constants in the order 2, 1, then OP_GREATER and OP_POP. */
  lemma {:induction false} LessThanExample(c: State, t: Token.Token)
    requires c.constants == [] && Cur(c) == NewScope && !c.isVoid
    ensures var r := CompileProgram(c, [Ast.ExprStmt(t, Ast.InfixExpr(t, Ast.NumberLiteral(t, 1.0), "<", Ast.NumberLiteral(t, 2.0)))]);
      && r.Ok? && r.value.constants == [Obj.Number(2.0), Obj.Number(1.0)]
      && Ins(r.value) == [Code.OpConstant, 0, 0, Code.OpConstant, 0, 1, Code.OpGreater, Code.OpPop]
  {
    LessThanExpr(c, t);
    OneExprProgram(c, t, Ast.InfixExpr(t, Ast.NumberLiteral(t, 1.0), "<", Ast.NumberLiteral(t, 2.0)));
  }

  /** OP_CLOSURE's two-byte constant index and one-byte count of captured symbols. */
  lemma {:induction false} ClosureShape(k: int, n: int)
    ensures Code.Instruction(Code.OpClosure, [k, n]) == [Code.OpClosure, (k % 0x1_0000) / 0x100, (k % 0x1_0000) % 0x100, CInt.Low8(n)]
  {
    var ops: seq<int> := [k, n];
    assert ops[..1] == [k] && ops[..1][..0] == [];
    var w := Code.DefinitionOf(Code.OpClosure).widths;
    assert w[0] == 2 && w[1] == 1;
    Code.EncodeTwoOne(w, k, n);
  }

  lemma {:induction false} DispatchFn(c: State, e: Ast.Expr)
    requires e.FnLiteral?
    ensures CompileExpr(c, e) == CompileFunction(c, e)
  {
  }

  /** The empty body in its own scope: OP_RETURN only, no locals, nothing captured. */
  lemma {:induction false} EmptyBody(c: State)
    requires Cur(c) == NewScope
    ensures var c3 := Epilogue(EnterScope(c));
      && |c3.scopes| >= 2 && |c3.tables| >= 2 && SymbolTable.Top(c3.tables) == SymbolTable.EmptyLevel
      && LeaveScope(c3).1 == [Code.OpReturn] && LeaveScope(c3).0.scopes == c.scopes
      && LeaveScope(c3).0.constants == c.constants && LeaveScope(c3).0.tables == c.tables
  {
    var c1 := EnterScope(c);
    EpilogueEmptyBody(c1);
    assert c1.scopes[..|c.scopes|] == c.scopes;
  }

  /** `fn() { }`: the compiled body joins the pool; OP_CLOSURE loads it with no captured symbols. */
  lemma {:induction false} EmptyFunctionSteps(c: State, t: Token.Token)
    requires Cur(c) == NewScope
    ensures var c4 := LeaveScope(Epilogue(EnterScope(c))).0;
      CompileFunction(c, Ast.FnLiteral(t, [], [])) == Ok(Emit(AddConstant(c4, Obj.CompiledFunction([Code.OpReturn], 0, 0)).0, Code.OpClosure, [|c.constants|, 0]).0)
  {
    var c1 := EnterScope(c);
    assert DefineParams(c1, []) == c1;
    assert CompileBlock(c1, []) == Ok(c1);
    EmptyBody(c);
    assert LoadSymbols(LeaveScope(Epilogue(c1)).0, []) == LeaveScope(Epilogue(c1)).0;
  }

  /** OP_CLOSURE of the first constant with no captured symbols, emitted into an empty scope of an empty pool. */
  lemma {:induction false} ClosureOnFresh(c4: State, o: Obj.Object)
    requires c4.constants == [] && Ins(c4) == []
    ensures var c5 := Emit(AddConstant(c4, o).0, Code.OpClosure, [0, 0]).0;
      c5.constants == [o] && Ins(c5) == [Code.OpClosure, 0, 0, 0]
  {
    ClosureShape(0, 0);
    assert CInt.Low8(0) == 0;
  }

  /** compiler_test.c's `fn() { }` compiles to a function whose only instruction is OP_RETURN. */
  lemma {:induction false} EmptyFunctionExample(c: State, t: Token.Token)
    requires c.constants == [] && Cur(c) == NewScope && !c.isVoid
    ensures var r := CompileExpr(c, Ast.FnLiteral(t, [], []));
      && r.Ok? && r.value.constants == [Obj.CompiledFunction([Code.OpReturn], 0, 0)]
      && Ins(r.value) == [Code.OpClosure, 0, 0, 0]
  {
    DispatchFn(c, Ast.FnLiteral(t, [], []));
    EmptyFunctionSteps(c, t);
    EmptyBody(c);
    var c4 := LeaveScope(Epilogue(EnterScope(c))).0;
    ClosureOnFresh(c4, Obj.CompiledFunction([Code.OpReturn], 0, 0));
  }
}
