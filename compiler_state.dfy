/**
 * The Compiler struct of src/compiler/compiler.h as an object whose fields
 * the primitives of src/compiler/compiler.c update in place.  Each method
 * makes exactly the change the function of the same name in module
 * Compiler describes, so every property proved there holds of the object.
 */
module CompilerState {
  import opened Wrappers
  import C = Compiler
  import Code
  import Obj = Object
  import SymbolTable
  import Builtins
  import Ast

  class Compiler {
    /** constants, symbol_table, scopes[0..scope_index] and is_void_expression. */
    var constants: seq<Obj.Object>
    var tables: SymbolTable.Tables
    var scopes: seq<C.Scope>
    var isVoid: bool

    /** There is a current scope. */
    predicate Valid()
      reads this
    {
      |scopes| >= 1
    }

    /** The compiler's state as a value. */
    function Value(): C.State
      requires Valid()
      reads this
    {
      C.CState(constants, tables, scopes, isVoid)
    }

    /** new_compiler: the builtins defined one by one in the global table. */
    constructor ()
      ensures Valid() && Value() == C.NewCompiler()
    {
      constants := [];
      var ts := SymbolTable.NewTables;
      for i := 0 to |Builtins.Names|
        invariant C.DefineBuiltins(ts, i) == C.DefineBuiltins(SymbolTable.NewTables, 0)
      {
        ts := SymbolTable.DefineBuiltin(ts, i, Builtins.Names[i]);
      }
      tables := ts;
      scopes := [C.NewScope];
      isVoid := false;
    }

    /** add_constant. */
    method AddConstant(o: Obj.Object) returns (k: nat)
      requires Valid()
      modifies this
      ensures Valid() && (Value(), k) == C.AddConstant(old(Value()), o)
    {
      constants := constants + [o];
      k := |constants| - 1;
    }

    /** add_instruction: the bytes appended one at a time to the current scope. */
    method AddInstruction(ins: seq<int>) returns (pos: nat)
      requires Valid()
      modifies this
      ensures Valid() && pos == |C.Ins(old(Value()))|
      ensures Value() == C.WithCur(old(Value()), C.Cur(old(Value())).(instructions := C.Ins(old(Value())) + ins))
    {
      var top := |scopes| - 1;
      var s := scopes[top];
      pos := |s.instructions|;
      assert s.instructions + ins[..0] == s.instructions;
      assert old(scopes)[top := s] == old(scopes);
      for i := 0 to |ins|
        invariant |scopes| == top + 1 && scopes == old(scopes)[top := s.(instructions := s.instructions + ins[..i])]
        invariant constants == old(constants) && tables == old(tables) && isVoid == old(isVoid)
      {
        var cur := scopes[top];
        assert ins[..i + 1] == ins[..i] + [ins[i]];
        assert cur.instructions + [ins[i]] == s.instructions + ins[..i + 1];
        scopes := scopes[top := cur.(instructions := cur.instructions + [ins[i]])];
      }
      assert ins[..|ins|] == ins;
    }

    /** set_last_instruction: the old last record becomes the previous one. */
    method SetLastInstruction(op: nat, pos: nat)
      requires Valid()
      modifies this
      ensures Valid()
      ensures Value() == C.WithCur(old(Value()), C.Cur(old(Value())).(last := C.Emitted(op, pos), previous := C.Cur(old(Value())).last))
    {
      var top := |scopes| - 1;
      var s := scopes[top];
      scopes := scopes[top := s.(previous := s.last, last := C.Emitted(op, pos))];
    }

    /** emit: make_instruction, add_instruction, set_last_instruction. */
    method Emit(op: nat, operands: seq<int>) returns (pos: nat)
      requires Valid() && op < Code.OpCount && |operands| <= 4
      modifies this
      ensures Valid() && (Value(), pos) == C.Emit(old(Value()), op, operands)
    {
      ghost var v0 := Value();
      var ins := Code.MakeInstruction(op, operands);
      pos := AddInstruction(ins);
      ghost var v1 := Value();
      SetLastInstruction(op, pos);
      assert C.Cur(v1).last == C.Cur(v0).last;
      assert Value().scopes == v0.scopes[|v0.scopes| - 1 := C.Scope(C.Ins(v0) + ins, C.Emitted(op, pos), C.Cur(v0).last)];
    }

    /** remove_last_pop. */
    method RemoveLastPop()
      requires Valid() && |C.Ins(Value())| >= 1
      modifies this
      ensures Valid() && Value() == C.RemoveLastPop(old(Value()))
    {
      var top := |scopes| - 1;
      var s := scopes[top];
      scopes := scopes[top := C.Scope(s.instructions[..|s.instructions| - 1], s.previous, s.previous)];
    }

    /** replace_instruction: the bytes written over the current scope one at a time from pos on. */
    method ReplaceInstruction(pos: nat, ins: seq<int>)
      requires Valid() && pos + |ins| <= |C.Ins(Value())|
      modifies this
      ensures Valid() && Value() == C.ReplaceInstruction(old(Value()), pos, ins)
    {
      var top := |scopes| - 1;
      var s := scopes[top];
      var old_ := s.instructions;
      assert old_[..pos] + ins[..0] + old_[pos..] == old_;
      assert old(scopes)[top := s.(instructions := old_)] == old(scopes);
      for i := 0 to |ins|
        invariant |scopes| == top + 1
        invariant scopes == old(scopes)[top := s.(instructions := old_[..pos] + ins[..i] + old_[pos + i..])]
        invariant constants == old(constants) && tables == old(tables) && isVoid == old(isVoid)
      {
        var cur := scopes[top];
        var arr := cur.instructions;
        assert arr == old_[..pos] + ins[..i] + old_[pos + i..];
        assert |arr| == |old_| && pos + i < |arr|;
        var arr' := arr[pos + i := ins[i]];
        assert arr' == old_[..pos] + ins[..i + 1] + old_[pos + i + 1..];
        scopes := scopes[top := cur.(instructions := arr')];
      }
      assert ins[..|ins|] == ins;
    }

    /** change_operand: the opcode at opPos rebuilt with the new operand and written back. */
    method ChangeOperand(opPos: nat, operand: int)
      requires Valid() && C.Patchable(Value(), opPos, operand)
      modifies this
      ensures Valid() && Value() == C.ChangeOperand(old(Value()), opPos, operand)
    {
      var op := scopes[|scopes| - 1].instructions[opPos];
      var ins := Code.MakeInstruction(op, [operand]);
      ReplaceInstruction(opPos, ins);
    }

    /** enter_compiler_scope. */
    method EnterScope()
      requires Valid()
      modifies this
      ensures Valid() && Value() == C.EnterScope(old(Value()))
    {
      scopes := scopes + [C.NewScope];
      tables := SymbolTable.Enclose(tables);
    }

    /** leave_compiler_scope: the scope's instructions are returned to the caller. */
    method LeaveScope() returns (ins: seq<int>)
      requires Valid() && |scopes| >= 2 && |tables| >= 2
      modifies this
      ensures Valid() && (Value(), ins) == C.LeaveScope(old(Value()))
    {
      ins := scopes[|scopes| - 1].instructions;
      scopes := scopes[..|scopes| - 1];
      tables := SymbolTable.Outer(tables);
    }

    /**
     * compile_program: the statements compiled one after another; the first
     * failure is returned and the statements after it are not compiled.
     */
    method CompileProgram(program: seq<Ast.Stmt>) returns (err: Option<C.CError>)
      requires Valid() && C.PopOk(C.Cur(Value()))
      modifies this
      ensures Valid()
      ensures var r := C.CompileProgram(old(Value()), program);
        && (err.None? <==> r.Ok?)
        && (r.Err? ==> err == Some(r.error))
        && (r.Ok? ==> Value() == r.value)
    {
      var i := 0;
      while i < |program|
        invariant 0 <= i <= |program| && Valid() && C.PopOk(C.Cur(Value()))
        invariant C.CompileBlock(Value(), program[i..]) == C.CompileProgram(old(Value()), program)
      {
        assert program[i..][1..] == program[i + 1..];
        var r := C.CompileStmt(Value(), program[i]);
        if r.Err? {
          return Some(r.error);
        }
        constants, tables, scopes, isVoid := r.value.constants, r.value.tables, r.value.scopes, r.value.isVoid;
        i := i + 1;
      }
      err := None;
    }
  }
}
