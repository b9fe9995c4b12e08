/**
 * What src/vm/vm.c promises about its stack, its operators, its jumps and
 * its calls, proved of the machine in module Vm, and runs of the machine
 * on bytecode the compiler produces.
 */
module VmProperties {
  import opened Wrappers
  import opened Vm
  import Code
  import BigEndian
  import CInt
  import Obj = Object
  import C = Compiler
  import Ast
  import Token

  // ---------------------------------------------------------------- the stack

  /**
   * stack_push overflows exactly when sp has reached STACK_SIZE and then
   * changes nothing; otherwise the value is the new top, sp grows by one and
   * no other slot, global, frame or object changes.
   */
  lemma {:induction false} PushOverflowOrTop(m: State, r: Ref)
    ensures Push(m, r).res == StackOverflow <==> m.sp >= StackSize
    ensures Push(m, r).res == StackOverflow ==> Push(m, r).m == m
    ensures Push(m, r).res != StackOverflow ==>
      var m' := Push(m, r).m;
      && Push(m, r).res == VmOk && m'.sp == m.sp + 1 && StackTop(m') == r
      && (forall i :: 0 <= i < StackSize && i != m.sp ==> m'.stack[i] == m.stack[i])
      && m'.globals == m.globals && m'.frames == m.frames && m'.heap == m.heap
  {
  }

  /** stack_pop returns the top and lowers sp; the slot stays, so vm_last_popped_stack_elem returns it. */
  lemma {:induction false} PopLeavesSlot(m: State)
    requires CanPop(m)
    ensures Pop(m).1 == StackTop(m)
    ensures Pop(m).0.sp == m.sp - 1 && Pop(m).0.stack == m.stack
    ensures LastPopped(Pop(m).0) == Pop(m).1
  {
  }

  /** A pop after a successful push gives back the pushed pointer and the old sp. */
  lemma {:induction false} PushThenPop(m: State, r: Ref)
    requires m.sp < StackSize
    ensures Push(m, r).res == VmOk && CanPop(Push(m, r).m)
    ensures Pop(Push(m, r).m).1 == r && Pop(Push(m, r).m).0.sp == m.sp
    ensures LastPopped(Pop(Push(m, r).m).0) == r
  {
  }

  // ---------------------------------------------------------------- `!` and truthiness

  /** OP_BANG replaces the top pointer by its image under BangOf. */
  lemma {:induction false} BangReplacesTop(m: State)
    requires CanPop(m)
    ensures ExecBang(m).res == VmOk
    ensures ExecBang(m).m.sp == m.sp && StackTop(ExecBang(m).m) == BangOf(StackTop(m))
  {
  }

  /** true becomes false, false and null become true, every other object false. */
  lemma {:induction false} BangTable(r: Ref)
    ensures BangOf(TrueRef) == FalseRef && BangOf(FalseRef) == TrueRef && BangOf(NullRef) == TrueRef
    ensures r != TrueRef && r != FalseRef && r != NullRef ==> BangOf(r) == FalseRef
  {
  }

  /** The static objects hold what constants.c defines. */
  predicate StaticsIntact(m: State)
  {
    m.heap[TrueRef] == Obj.Boolean(true) && m.heap[FalseRef] == Obj.Boolean(false) && m.heap[NullRef] == Obj.Null
  }

  /** A pointer to a boolean or null object is one of the static objects. */
  predicate Canonical(m: State, r: Ref)
  {
    NullPtr < r < |m.heap| && ((m.heap[r].Boolean? || m.heap[r].Null?) ==> r == TrueRef || r == FalseRef || r == NullRef)
  }

  /**
   * For the pointers the machine itself creates, `!` is the negation of
   * is_truthy, the test OP_JMP_IF_FALSE applies: numbers, zero included,
   * are truthy, so `!5` and `!0` are false.
   */
  lemma {:induction false} BangNegatesTruthiness(m: State, r: Ref)
    requires StaticsIntact(m) && Canonical(m, r)
    ensures Deref(m, BangOf(r)) == Some(Obj.Boolean(!Truthy(m.heap[r])))
  {
  }

  /**
   * execute_bang_operator compares pointers only: a null object that is not
   * obj_null, such as the fresh one first([]) returns, is falsy for
   * OP_JMP_IF_FALSE and yet `!` of it is false.
   */
  lemma {:induction false} BangOfFreshNull(m: State, r: Ref)
    requires StaticsIntact(m) && r >= FirstConstant && r < |m.heap| && m.heap[r] == Obj.Null
    ensures !Truthy(m.heap[r]) && BangOf(r) == FalseRef
  {
  }

  // ---------------------------------------------------------------- jumps

  /** Frames start at ip -1, so the first opcode fetched is the one at 0. */
  lemma {:induction false} FirstFetch(constants: seq<Obj.Object>, instructions: seq<int>)
    ensures Cur(NewVm(constants, instructions)).ip + 1 == 0
  {
  }

  /** OP_JMP sets ip to pos - 1, so the next turn of the loop fetches the opcode at pos; nothing else changes. */
  lemma {:induction false} JmpStep(m: State, ins: seq<int>)
    requires MoreToRun(m, ins) && 0 <= Cur(m).ip + 1 && Cur(m).ip + 4 <= |ins|
    requires ins[Cur(m).ip + 1] == Code.OpJmp
    ensures Step(m, ins) == Out(SetIp(m, BigEndian.ReadUint16(ins, Cur(m).ip + 2) - 1), VmOk)
  {
    var ip := Cur(m).ip + 1;
    var m1 := SetIp(m, ip);
    assert Step(m, ins) == Exec(m1, ins, ip, ins[ip]);
    assert Exec(m1, ins, ip, ins[ip]) == ExecOperatorOp(m1, ins, ip, Code.OpJmp);
  }

  /**
   * OP_JMP_IF_FALSE skips its operand and pops the condition; it jumps, to
   * pos - 1 so that pos is fetched next, exactly when the condition is
   * false or null.
   */
  lemma {:induction false} JmpIfFalseStep(m: State, ins: seq<int>)
    requires MoreToRun(m, ins) && 0 <= Cur(m).ip + 1 && Cur(m).ip + 4 <= |ins|
    requires ins[Cur(m).ip + 1] == Code.OpJmpIfFalse
    requires CanPop(m) && Deref(m, StackTop(m)).Some?
    ensures var ip := Cur(m).ip + 1;
      var next := if Truthy(Deref(m, StackTop(m)).value) then ip + 2 else BigEndian.ReadUint16(ins, ip + 1) - 1;
      Step(m, ins) == Out(SetIp(m, next).(sp := m.sp - 1), VmOk)
  {
    var ip := Cur(m).ip + 1;
    var m1 := SetIp(m, ip);
    assert Step(m, ins) == Exec(m1, ins, ip, ins[ip]);
    assert Exec(m1, ins, ip, ins[ip]) == ExecOperatorOp(m1, ins, ip, Code.OpJmpIfFalse);
    var m2 := Advance(m1, 2);
    assert m2 == SetIp(m, ip + 2);
    assert CanPop(m2) && Pop(m2).1 == StackTop(m) && Pop(m2).0.heap == m.heap;
  }

  /** Numbers, strings and arrays are all truthy; only false and null are not. */
  lemma {:induction false} TruthyKinds(o: Obj.Object)
    ensures !Truthy(o) <==> o == Obj.Boolean(false) || o == Obj.Null
  {
  }

  // ---------------------------------------------------------------- arrays

  /**
   * OP_ARRAY replaces the top n slots by one new array holding their
   * objects in stack order: sp changes by 1 - n and the slots below are
   * left alone.
   */
  lemma {:induction false} ArrayCollapsesTop(m: State, ins: seq<int>, ip: nat)
    requires ip + 3 <= |ins|
    requires var n := BigEndian.ReadUint16(ins, ip + 1); n <= m.sp <= StackSize && m.sp - n < StackSize
    requires var n := BigEndian.ReadUint16(ins, ip + 1);
      forall i :: m.sp - n <= i < m.sp ==> Deref(m, m.stack[i]).Some?
    ensures var n := BigEndian.ReadUint16(ins, ip + 1);
      var o := ExecArray(m, ins, ip);
      && o.res == VmOk && o.m.sp == m.sp - n + 1
      && o.m.heap[..|m.heap|] == m.heap && o.m.stack[m.sp - n] == |m.heap|
      && o.m.heap[|m.heap|].Array? && |o.m.heap[|m.heap|].elements| == n
      && (forall i :: 0 <= i < n ==> Deref(m, m.stack[m.sp - n + i]) == Some(o.m.heap[|m.heap|].elements[i]))
      && (forall i :: 0 <= i < m.sp - n ==> o.m.stack[i] == m.stack[i])
  {
    var n := BigEndian.ReadUint16(ins, ip + 1);
    var m1 := Advance(m, 2);
    assert m1.stack == m.stack && m1.heap == m.heap && m1.sp == m.sp;
  }

  // ---------------------------------------------------------------- calls

  /**
   * call_closure: a wrong argument count is reported and pushes no frame;
   * otherwise the new frame's base is the first argument and sp lies
   * num_locals above it.
   */
  lemma {:induction false} CallClosureArity(m: State, callee: Ref, fn: Obj.Object, n: nat)
    requires n <= m.sp && fn.CompiledFunction?
    ensures CallClosure(m, callee, fn, n).res == WrongNumberOfArguments <==> n != fn.numParameters
    ensures n != fn.numParameters ==> CallClosure(m, callee, fn, n).m == m
    ensures n == fn.numParameters ==>
      var m' := CallClosure(m, callee, fn, n).m;
      && m'.frames == m.frames + [Frame(callee, -1, m.sp - n)]
      && m'.sp == m.sp - n + fn.numLocals && m'.stack == m.stack
  {
  }

  // ---------------------------------------------------------------- array indexing

  /** A non-empty array: the written and the intended bound check give the same result for every index. */
  lemma {:induction false} ArrayIndexAgrees(m: State, es: seq<Obj.Object>, v: real)
    requires 0 < |es| <= CInt.Two64
    ensures ArrayIndexAsWritten(m, es, v) == ArrayIndex(m, es, v)
  {
  }

  /** Indexing an empty array: as written the check passes and the read falls outside the array; as intended the result is null. */
  lemma {:induction false} EmptyArrayIndex(m: State, v: real)
    ensures ArrayIndexAsWritten(m, [], v).res == Crash
    ensures ArrayIndex(m, [], v) == Push(m, NullRef)
  {
  }

  // ---------------------------------------------------------------- hash literals

  /** OP_HASH over one key and one value, the instruction `{1: 1}` ends with. */
  function HashOfOneCode(): seq<int>
  {
    [Code.OpHash, 0, 2]
  }

  /**
   * `{1: 1}[1]` as written, with the constant 1 on the stack as key and value
   * and pushed again as index: OP_HASH completes, but the hash it builds has
   * no type, and OP_INDEX on it is undefined.
   */
  lemma {:induction false} UntypedHashIndexCrashes(m: State)
    requires m.sp == 2 && m.stack[0] == FirstConstant && m.stack[1] == FirstConstant
    requires m.numConstants >= 1 && m.heap[FirstConstant] == Obj.Number(1.0)
    ensures var (o, h) := ExecHashAsWritten(m, HashOfOneCode(), 0);
      && o.res == VmOk && h.Some?
      && var p := Push(o.m, FirstConstant);
      && p.res == VmOk && ExecIndexAsWritten(p.m, {h.value}).res == Crash
  {
    HashOfOneBuilds(m);
  }

  /**
   * `{1: 1}[1]` as intended, the hash typed as vm_build_array types its
   * array: OP_INDEX finds the value 1 under the key 1.
   */
  lemma {:induction false} TypedHashIndexFindsValue(m: State)
    requires m.sp == 2 && m.stack[0] == FirstConstant && m.stack[1] == FirstConstant
    requires m.numConstants >= 1 && m.heap[FirstConstant] == Obj.Number(1.0)
    ensures var o := ExecHash(m, HashOfOneCode(), 0);
      && o.res == VmOk
      && var p := Push(o.m, FirstConstant);
      && p.res == VmOk
      && var i := ExecIndex(p.m);
      && i.res == VmOk && i.m.sp == 1 && Deref(i.m, i.m.stack[0]) == Some(Obj.Number(1.0))
  {
    HashOfOneBuilds(m);
    var o := ExecHash(m, HashOfOneCode(), 0);
    var p := Push(o.m, FirstConstant);
    var (m1, index) := Pop(p.m);
    var (m2, left) := Pop(m1);
    assert Deref(m2, left) == Some(Obj.Hash(map[Obj.IntKey(1) := (Obj.Number(1.0), Obj.Number(1.0))]));
    assert Deref(m2, index) == Some(Obj.Number(1.0));
  }

  /** OP_HASH over the two ones: a hash holding the one pair 1: 1, pushed at slot 0. */
  lemma {:induction false} HashOfOneBuilds(m: State)
    requires m.sp == 2 && m.stack[0] == FirstConstant && m.stack[1] == FirstConstant
    requires m.numConstants >= 1 && m.heap[FirstConstant] == Obj.Number(1.0)
    ensures var o := ExecHash(m, HashOfOneCode(), 0);
      && o.res == VmOk && o.m.sp == 1 && o.m.stack[0] == |m.heap|
      && o.m.heap == m.heap + [Obj.Hash(map[Obj.IntKey(1) := (Obj.Number(1.0), Obj.Number(1.0))])]
  {
    assert BigEndian.ReadUint16(HashOfOneCode(), 1) == 2;
    assert VmHashKey(Obj.Number(1.0)) == Some(Obj.IntKey(1)) by {
      assert CInt.Trunc(1.0) == 1 && CInt.Wrap32(1) == 1;
    }
    var m1 := Advance(m, 2);
    assert HashFrom(m1, 0, 2, map[]) == Ok(map[Obj.IntKey(1) := (Obj.Number(1.0), Obj.Number(1.0))]);
  }

  /** Indexes past the end, and negative ones, which the size_t conversion makes huge, give null. */
  lemma {:induction false} ArrayIndexOutOfRange(m: State, es: seq<Obj.Object>, v: real)
    requires v <= -1.0 || v >= |es| as real
    requires CInt.LongMin as real <= v < CInt.Two64 as real && |es| <= CInt.LongMax
    ensures ArrayIndex(m, es, v) == Push(m, NullRef)
  {
    var n := CInt.Trunc(v);
    if v <= -1.0 {
      assert CInt.LongMin <= n <= -1;
      assert ToSize(v) == n + CInt.Two64;
    } else {
      assert |es| <= n < CInt.Two64;
    }
  }

  /** [1, 2, 3][99] and [1][-1] give null, [1, 2, 3][1] gives 2. */
  lemma {:induction false} ArrayIndexExamples(m: State)
    ensures ArrayIndex(m, [Obj.Number(1.0), Obj.Number(2.0), Obj.Number(3.0)], 99.0) == Push(m, NullRef)
    ensures ArrayIndex(m, [Obj.Number(1.0)], -1.0) == Push(m, NullRef)
    ensures var (m1, r) := Alloc(m, Obj.Number(2.0));
      ArrayIndex(m, [Obj.Number(1.0), Obj.Number(2.0), Obj.Number(3.0)], 1.0) == Push(m1, r)
  {
    ArrayIndexOutOfRange(m, [Obj.Number(1.0), Obj.Number(2.0), Obj.Number(3.0)], 99.0);
    ArrayIndexOutOfRange(m, [Obj.Number(1.0)], -1.0);
    assert CInt.Trunc(1.0) == 1;
  }

  // ---------------------------------------------------------------- single turns of the loop

  /** OP_CONSTANT pushes the constant's pointer and moves ip past its operand; nothing else changes. */
  lemma {:induction false} ConstantStep(m: State, ins: seq<int>)
    requires MoreToRun(m, ins) && 0 <= Cur(m).ip + 1 && Cur(m).ip + 4 <= |ins|
    requires ins[Cur(m).ip + 1] == Code.OpConstant
    requires BigEndian.ReadUint16(ins, Cur(m).ip + 2) < m.numConstants && m.sp < StackSize
    ensures var ip := Cur(m).ip + 1;
      Step(m, ins) == Out(SetIp(m, ip + 2).(stack := m.stack[m.sp := FirstConstant + BigEndian.ReadUint16(ins, ip + 1)], sp := m.sp + 1), VmOk)
  {
    var ip := Cur(m).ip + 1;
    var m1 := SetIp(m, ip);
    assert Step(m, ins) == Exec(m1, ins, ip, ins[ip]);
    assert Exec(m1, ins, ip, ins[ip]) == ExecConstant(m1, ins, ip);
  }

  /** OP_POP lowers sp by one. */
  lemma {:induction false} PopStep(m: State, ins: seq<int>)
    requires MoreToRun(m, ins) && 0 <= Cur(m).ip + 1 && ins[Cur(m).ip + 1] == Code.OpPop && CanPop(m)
    ensures Step(m, ins) == Out(SetIp(m, Cur(m).ip + 1).(sp := m.sp - 1), VmOk)
  {
    var ip := Cur(m).ip + 1;
    assert Step(m, ins) == Exec(SetIp(m, ip), ins, ip, Code.OpPop);
  }

  /** OP_RETURN_VALUE executes as ExecReturnValue. */
  lemma {:induction false} ReturnValueStep(m: State, ins: seq<int>)
    requires MoreToRun(m, ins) && 0 <= Cur(m).ip + 1 && ins[Cur(m).ip + 1] == Code.OpReturnValue
    ensures Step(m, ins) == ExecReturnValue(SetIp(m, Cur(m).ip + 1))
  {
    var ip := Cur(m).ip + 1;
    assert Step(m, ins) == Exec(SetIp(m, ip), ins, ip, Code.OpReturnValue);
  }

  /** OP_TRUE and OP_NULL push the shared obj_true and obj_null. */
  lemma {:induction false} LiteralStep(m: State, ins: seq<int>)
    requires MoreToRun(m, ins) && 0 <= Cur(m).ip + 1 && m.sp < StackSize
    requires ins[Cur(m).ip + 1] == Code.OpTrue || ins[Cur(m).ip + 1] == Code.OpNull
    ensures var r := if ins[Cur(m).ip + 1] == Code.OpTrue then TrueRef else NullRef;
      Step(m, ins) == Out(SetIp(m, Cur(m).ip + 1).(stack := m.stack[m.sp := r], sp := m.sp + 1), VmOk)
  {
    var ip := Cur(m).ip + 1;
    assert Step(m, ins) == Exec(SetIp(m, ip), ins, ip, ins[ip]);
  }

  /** OP_GREATER on two numbers replaces them by obj_true or obj_false. */
  lemma {:induction false} GreaterStep(m: State, ins: seq<int>, l: real, r: real)
    requires MoreToRun(m, ins) && 0 <= Cur(m).ip + 1 && ins[Cur(m).ip + 1] == Code.OpGreater
    requires 2 <= m.sp <= StackSize
    requires Deref(m, m.stack[m.sp - 2]) == Some(Obj.Number(l)) && Deref(m, m.stack[m.sp - 1]) == Some(Obj.Number(r))
    ensures Step(m, ins) == Out(SetIp(m, Cur(m).ip + 1).(stack := m.stack[m.sp - 2 := BoolRef(l > r)], sp := m.sp - 1), VmOk)
  {
    var ip := Cur(m).ip + 1;
    var m1 := SetIp(m, ip);
    assert Step(m, ins) == Exec(m1, ins, ip, ins[ip]);
    assert Exec(m1, ins, ip, ins[ip]) == ExecComparison(m1, Code.OpGreater);
  }

  // ---------------------------------------------------------------- whole runs

  /** The bytecode of `1 < 2`: the compiler swaps the operands and emits OP_GREATER. */
  function LessThanCode(): seq<int>
  {
    [Code.OpConstant, 0, 0, Code.OpConstant, 0, 1, Code.OpGreater, Code.OpPop]
  }

  /** The two constants pushed: 2 in slot 0 and 1 in slot 1. */
  lemma {:induction false} LessThanPushes(m0: State) returns (m2: State)
    requires FrameInstructions(m0) == Some(LessThanCode()) && Cur(m0).ip == -1 && m0.sp == 0 && m0.numConstants == 2
    ensures Run(m0, 4) == Run(m2, 2)
    ensures FrameInstructions(m2) == Some(LessThanCode()) && Cur(m2).ip == 5 && m2.sp == 2
    ensures m2.stack[0] == FirstConstant && m2.stack[1] == FirstConstant + 1 && m2.heap == m0.heap
  {
    var ins := LessThanCode();
    ConstantStep(m0, ins);
    var m1 := Step(m0, ins).m;
    RunSteps(m0, 4, ins, m1, VmOk);
    ConstantStep(m1, ins);
    m2 := Step(m1, ins).m;
    RunSteps(m1, 3, ins, m2, VmOk);
  }

  /** OP_GREATER finds 2 > 1 and pushes obj_true, which OP_POP pops. */
  lemma {:induction false} LessThanCompares(m2: State) returns (m4: State)
    requires FrameInstructions(m2) == Some(LessThanCode()) && Cur(m2).ip == 5 && m2.sp == 2
    requires Deref(m2, m2.stack[0]) == Some(Obj.Number(2.0)) && Deref(m2, m2.stack[1]) == Some(Obj.Number(1.0))
    ensures Run(m2, 2) == Run(m4, 0)
    ensures FrameInstructions(m4) == Some(LessThanCode()) && Cur(m4).ip == 7 && m4.sp == 0 && m4.stack[0] == TrueRef
  {
    var ins := LessThanCode();
    GreaterStep(m2, ins, 2.0, 1.0);
    var m3 := Step(m2, ins).m;
    RunSteps(m2, 2, ins, m3, VmOk);
    PopStep(m3, ins);
    m4 := Step(m3, ins).m;
    RunSteps(m3, 1, ins, m4, VmOk);
  }

  /** Four turns run `1 < 2` to the end, and the last popped element is obj_true. */
  lemma {:induction false} LessThanRun()
    ensures var o := Run(NewVm([Obj.Number(2.0), Obj.Number(1.0)], LessThanCode()), 4);
      o.Done? && o.res == VmOk && o.m.sp == 0 && LastPopped(o.m) == TrueRef
  {
    var m0 := NewVm([Obj.Number(2.0), Obj.Number(1.0)], LessThanCode());
    assert m0.heap[4] == Obj.Number(2.0) && m0.heap[5] == Obj.Number(1.0) by {
      assert m0.heap[4..6] == [Obj.Number(2.0), Obj.Number(1.0)];
    }
    var m2 := LessThanPushes(m0);
    var m4 := LessThanCompares(m2);
    RunStops(m4, 0);
  }

  /** Compiling `1 < 2` with a new compiler and running it leaves obj_true as the last popped element. */
  lemma {:induction false} CompileAndRunLessThan(t: Token.Token)
    ensures var r := C.CompileProgram(C.NewCompiler(), [Ast.ExprStmt(t, Ast.InfixExpr(t, Ast.NumberLiteral(t, 1.0), "<", Ast.NumberLiteral(t, 2.0)))]);
      && r.Ok?
      && var o := Run(NewVm(r.value.constants, C.Ins(r.value)), 4);
      o.Done? && o.res == VmOk && o.m.sp == 0 && LastPopped(o.m) == TrueRef
  {
    C.LessThanExample(C.NewCompiler(), t);
    LessThanRun();
  }

  /** The bytecode of `if (true) { 10 }; 3333;`. */
  function IfCode(): seq<int>
  {
    [Code.OpTrue, Code.OpJmpIfFalse, 0, 10, Code.OpConstant, 0, 0, Code.OpJmp, 0, 11,
     Code.OpNull, Code.OpPop, Code.OpConstant, 0, 1, Code.OpPop]
  }

  /** Proof step of IfRun: OP_TRUE pushes obj_true. */
  lemma {:induction false} IfRunTrue(m0: State) returns (m1: State)
    requires FrameInstructions(m0) == Some(IfCode()) && Cur(m0).ip == -1 && m0.sp == 0
    ensures Run(m0, 7) == Run(m1, 6)
    ensures FrameInstructions(m1) == Some(IfCode()) && Cur(m1).ip == 0 && m1.sp == 1 && m1.stack[0] == TrueRef
    ensures m1.heap == m0.heap && m1.numConstants == m0.numConstants
  {
    var ins := IfCode();
    LiteralStep(m0, ins);
    m1 := Step(m0, ins).m;
    RunSteps(m0, 7, ins, m1, VmOk);
  }

  /** Proof step of IfRun: OP_JMP_IF_FALSE pops obj_true and does not jump. */
  lemma {:induction false} IfRunNoJump(m1: State) returns (m2: State)
    requires FrameInstructions(m1) == Some(IfCode()) && Cur(m1).ip == 0 && m1.sp == 1 && m1.stack[0] == TrueRef
    requires StaticsIntact(m1)
    ensures Run(m1, 6) == Run(m2, 5)
    ensures FrameInstructions(m2) == Some(IfCode()) && Cur(m2).ip == 3 && m2.sp == 0
    ensures m2.heap == m1.heap && m2.numConstants == m1.numConstants
  {
    var ins := IfCode();
    JmpIfFalseStep(m1, ins);
    m2 := Step(m1, ins).m;
    RunSteps(m1, 6, ins, m2, VmOk);
  }

  /** Proof step of IfRun: OP_TRUE then OP_JMP_IF_FALSE, which pops obj_true and does not jump. */
  lemma {:induction false} IfRunCondition(m0: State) returns (m2: State)
    requires FrameInstructions(m0) == Some(IfCode()) && Cur(m0).ip == -1 && m0.sp == 0 && StaticsIntact(m0)
    ensures Run(m0, 7) == Run(m2, 5)
    ensures FrameInstructions(m2) == Some(IfCode()) && Cur(m2).ip == 3 && m2.sp == 0
    ensures m2.heap == m0.heap && m2.numConstants == m0.numConstants
  {
    var m1 := IfRunTrue(m0);
    m2 := IfRunNoJump(m1);
  }

  /** Proof step of IfRun: OP_CONSTANT 0 pushes 10. */
  lemma {:induction false} IfRunPushTen(m2: State) returns (m3: State)
    requires FrameInstructions(m2) == Some(IfCode()) && Cur(m2).ip == 3 && m2.sp == 0 && m2.numConstants == 2
    ensures Run(m2, 5) == Run(m3, 4)
    ensures FrameInstructions(m3) == Some(IfCode()) && Cur(m3).ip == 6 && m3.sp == 1
    ensures m3.heap == m2.heap && m3.numConstants == 2
  {
    var ins := IfCode();
    ConstantStep(m2, ins);
    m3 := Step(m2, ins).m;
    RunSteps(m2, 5, ins, m3, VmOk);
  }

  /** Proof step of IfRun: OP_JMP goes over the alternative's OP_NULL. */
  lemma {:induction false} IfRunJump(m3: State) returns (m4: State)
    requires FrameInstructions(m3) == Some(IfCode()) && Cur(m3).ip == 6 && m3.sp == 1 && m3.numConstants == 2
    ensures Run(m3, 4) == Run(m4, 3)
    ensures FrameInstructions(m4) == Some(IfCode()) && Cur(m4).ip == 10 && m4.sp == 1
    ensures m4.heap == m3.heap && m4.numConstants == 2
  {
    var ins := IfCode();
    assert ins[7] == Code.OpJmp && BigEndian.ReadUint16(ins, 8) == 11;
    JmpStep(m3, ins);
    m4 := Step(m3, ins).m;
    RunSteps(m3, 4, ins, m4, VmOk);
  }

  /** Proof step of IfRun: the consequence pushes 10 and OP_JMP goes over the alternative's OP_NULL. */
  lemma {:induction false} IfRunConsequence(m2: State) returns (m4: State)
    requires FrameInstructions(m2) == Some(IfCode()) && Cur(m2).ip == 3 && m2.sp == 0 && m2.numConstants == 2
    ensures Run(m2, 5) == Run(m4, 3)
    ensures FrameInstructions(m4) == Some(IfCode()) && Cur(m4).ip == 10 && m4.sp == 1
    ensures m4.heap == m2.heap && m4.numConstants == 2
  {
    var m3 := IfRunPushTen(m2);
    m4 := IfRunJump(m3);
  }

  /** Proof step of IfRun: OP_POP, OP_CONSTANT 1, OP_POP: 10 is popped, then 3333 pushed and popped. */
  lemma {:induction false} IfRunRest(m4: State) returns (m7: State)
    requires FrameInstructions(m4) == Some(IfCode()) && Cur(m4).ip == 10 && m4.sp == 1 && m4.numConstants == 2
    ensures Run(m4, 3) == Run(m7, 0)
    ensures FrameInstructions(m7) == Some(IfCode()) && Cur(m7).ip == 15 && m7.sp == 0
    ensures m7.stack[0] == FirstConstant + 1 && m7.heap == m4.heap
  {
    var ins := IfCode();
    PopStep(m4, ins);
    var m5 := Step(m4, ins).m;
    RunSteps(m4, 3, ins, m5, VmOk);
    ConstantStep(m5, ins);
    var m6 := Step(m5, ins).m;
    RunSteps(m5, 2, ins, m6, VmOk);
    PopStep(m6, ins);
    m7 := Step(m6, ins).m;
    RunSteps(m6, 1, ins, m7, VmOk);
  }

  /** Seven turns run `if (true) { 10 }; 3333;` to the end, and the last popped element is 3333. */
  lemma {:induction false} IfRun()
    ensures var m0 := NewVm([Obj.Number(10.0), Obj.Number(3333.0)], IfCode());
      var o := Run(m0, 7);
      o.Done? && o.res == VmOk && o.m.sp == 0 && Deref(o.m, LastPopped(o.m)) == Some(Obj.Number(3333.0))
  {
    var m0 := NewVm([Obj.Number(10.0), Obj.Number(3333.0)], IfCode());
    var m2 := IfRunCondition(m0);
    var m4 := IfRunConsequence(m2);
    var m7 := IfRunRest(m4);
    RunStops(m7, 0);
    assert m0.heap[5] == Obj.Number(3333.0) by {
      assert m0.heap[4..6] == [Obj.Number(10.0), Obj.Number(3333.0)];
    }
  }

  /** The bytecode of a top-level `return 1;`. */
  function TopReturnCode(): seq<int>
  {
    [Code.OpConstant, 0, 0, Code.OpReturnValue]
  }

  /**
   * A top-level `return 1;`: OP_RETURN_VALUE pops the main frame, whose base
   * pointer is 0, so sp wraps to SIZE_MAX and the push overflows; the run
   * ends with VM_STACK_OVERFLOW.
   */
  lemma {:induction false} TopReturnOverflows()
    ensures var o := Run(NewVm([Obj.Number(1.0)], TopReturnCode()), 2);
      o.Done? && o.res == StackOverflow && o.m.sp == CInt.Two64 - 1
  {
    var ins := TopReturnCode();
    var m0 := NewVm([Obj.Number(1.0)], ins);
    assert FrameInstructions(m0) == Some(ins);
    ConstantStep(m0, ins);
    var m1 := Step(m0, ins).m;
    RunSteps(m0, 2, ins, m1, VmOk);
    TopReturnFrom(m1, ins);
  }

  /** Proof step of TopReturnOverflows: OP_RETURN_VALUE in the main frame with one value on the stack overflows. */
  lemma {:induction false} TopReturnFrom(m: State, ins: seq<int>)
    requires ins == TopReturnCode() && FrameInstructions(m) == Some(ins)
    requires Cur(m).ip == 2 && Cur(m).basePointer == 0 && m.sp == 1 && |m.frames| == 1
    ensures var o := Run(m, 1); o.Done? && o.res == StackOverflow && o.m.sp == CInt.Two64 - 1
  {
    ReturnValueStep(m, ins);
    var (m1, v) := Pop(SetIp(m, 3));
    assert Step(m, ins) == LastFrameReturn(m1.(sp := CInt.Two64 - 1), v);
    var o := Step(m, ins);
    RunSteps(m, 1, ins, o.m, o.res);
  }

  /** Compiling `return 1;` with a new compiler and running it ends with VM_STACK_OVERFLOW. */
  lemma {:induction false} CompileAndRunTopReturn(t: Token.Token)
    ensures var r := C.CompileProgram(C.NewCompiler(), [Ast.ReturnStmt(t, Ast.NumberLiteral(t, 1.0))]);
      && r.Ok?
      && var o := Run(NewVm(r.value.constants, C.Ins(r.value)), 2);
      o.Done? && o.res == StackOverflow
  {
    C.TopReturnExample(C.NewCompiler(), t);
    TopReturnOverflows();
  }

  /** Compiling the conditional with a new compiler and running it leaves 3333 as the last popped element. */
  lemma {:induction false} CompileAndRunIf(t: Token.Token)
    ensures var r := C.CompileProgram(C.NewCompiler(), [
        Ast.ExprStmt(t, Ast.IfExpr(Ast.BooleanLiteral(t, true), [Ast.ExprStmt(t, Ast.NumberLiteral(t, 10.0))], Ast.NoElse)),
        Ast.ExprStmt(t, Ast.NumberLiteral(t, 3333.0))]);
      && r.Ok?
      && var o := Run(NewVm(r.value.constants, C.Ins(r.value)), 7);
      o.Done? && o.res == VmOk && o.m.sp == 0 && Deref(o.m, LastPopped(o.m)) == Some(Obj.Number(3333.0))
  {
    C.IfExample(C.NewCompiler(), t);
    IfRun();
  }
}
