/**
 * The stack machine of src/vm/vm.c (with src/vm/frame.c and
 * src/object/constants.c folded in) as a function from machine states to
 * machine states.  Object pointers are references into an object heap:
 * reference 0 is the C NULL pointer, 1..3 are the static obj_true,
 * obj_false and obj_null, the constants follow, and every new_* call
 * appends a fresh object.  Undefined behaviour of the C code (a NULL
 * dereference, a read past an array, a failed assert) ends the run with
 * the result Crash.
 */
module Vm {
  import opened Wrappers
  import Code
  import BigEndian
  import CInt
  import Obj = Object
  import Builtins

  type Ref = nat

  const NullPtr: Ref := 0
  const TrueRef: Ref := 1
  const FalseRef: Ref := 2
  const NullRef: Ref := 3
  const FirstConstant: Ref := 4

  const StackSize: nat := 2048
  const GlobalsSize: nat := 65536
  /** The free_variables array of a Closure holds 100 pointers. */
  const MaxFree: nat := 100

  /** A call frame: the closure, the index of the last fetched byte and the base pointer. */
  datatype Frame = Frame(closure: Ref, ip: int, basePointer: nat)

  /**
   * VMResult, with two additions: Crash for undefined behaviour, and
   * FloatingPoint for a division by zero, whose infinity or NaN the
   * real-number model cannot represent.
   */
  datatype VMResult =
    | VmOk | StackOverflow | UnsupportedOperation | UnsupportedType | UnhashableObject
    | UnindexableObject | CallNonFunction | WrongNumberOfArguments | Crash | FloatingPoint

  datatype Machine = Machine(
    stack: seq<Ref>, sp: nat, globals: seq<Ref>, frames: seq<Frame>,
    heap: seq<Obj.Object>, numConstants: nat)

  /** The fixed-size stack and globals, a current frame, and the static objects and constants in the heap. */
  predicate Shaped(m: Machine)
  {
    |m.stack| == StackSize && |m.globals| == GlobalsSize && |m.frames| >= 1
    && |m.heap| >= FirstConstant + m.numConstants
  }

  type State = m: Machine | Shaped(m)
    witness Machine(seq(StackSize, i => 0), 0, seq(GlobalsSize, i => 0), [Frame(0, -1, 0)],
                    [Obj.Null, Obj.Null, Obj.Null, Obj.Null], 0)

  /** The state a primitive leaves and the VMResult it returns. */
  datatype Out = Out(m: State, res: VMResult)

  // ---------------------------------------------------------------- the static objects and new_vm

  /** The heap of a new machine: NULL's placeholder, obj_true, obj_false, obj_null, then the constants. */
  function StaticHeap(constants: seq<Obj.Object>): (h: seq<Obj.Object>)
    ensures |h| == FirstConstant + |constants| && h[FirstConstant..] == constants
    ensures h[TrueRef] == Obj.Boolean(true) && h[FalseRef] == Obj.Boolean(false) && h[NullRef] == Obj.Null
  {
    [Obj.Null, Obj.Boolean(true), Obj.Boolean(false), Obj.Null] + constants
  }

  /**
   * new_vm: the instructions wrapped in a compiled function with no locals
   * and parameters, that in a closure, the closure in the only frame; the
   * stack and globals hold NULL pointers.
   */
  function NewVm(constants: seq<Obj.Object>, instructions: seq<int>): (m: State)
    ensures m.sp == 0 && |m.frames| == 1 && m.numConstants == |constants|
    ensures m.frames[0] == Frame(FirstConstant + |constants|, -1, 0)
    ensures |m.heap| == FirstConstant + |constants| + 1
    ensures m.heap[FirstConstant + |constants|] == Obj.Closure(Obj.CompiledFunction(instructions, 0, 0), [])
    ensures m.heap[FirstConstant..FirstConstant + |constants|] == constants
    ensures forall i :: 0 <= i < StackSize ==> m.stack[i] == NullPtr
    ensures forall i :: 0 <= i < GlobalsSize ==> m.globals[i] == NullPtr
  {
    var main := Obj.Closure(Obj.CompiledFunction(instructions, 0, 0), []);
    var h := StaticHeap(constants) + [main];
    assert h[FirstConstant..FirstConstant + |constants|] == StaticHeap(constants)[FirstConstant..];
    Machine(seq(StackSize, i => NullPtr), 0, seq(GlobalsSize, i => NullPtr),
            [Frame(FirstConstant + |constants|, -1, 0)], h, |constants|)
  }

  // ---------------------------------------------------------------- primitives

  function Cur(m: State): Frame
  {
    m.frames[|m.frames| - 1]
  }

  function SetIp(m: State, ip: int): (r: State)
    ensures Cur(r).ip == ip
  {
    m.(frames := m.frames[|m.frames| - 1 := Cur(m).(ip := ip)])
  }

  /** current_frame(vm)->ip += k. */
  function Advance(m: State, k: nat): State
  {
    SetIp(m, Cur(m).ip + k)
  }

  /** The object a pointer points to; NULL or a pointer outside the heap has none. */
  function Deref(m: State, r: Ref): (o: Option<Obj.Object>)
    ensures o.Some? <==> NullPtr < r < |m.heap|
  {
    if NullPtr < r < |m.heap| then Some(m.heap[r]) else None
  }

  /** A new_* call: the object appended to the heap and its fresh pointer. */
  function Alloc(m: State, o: Obj.Object): (r: (State, Ref))
    ensures r.1 == |m.heap| && r.0 == m.(heap := m.heap + [o])
  {
    (m.(heap := m.heap + [o]), |m.heap|)
  }

  /** stack_push: VM_STACK_OVERFLOW when sp >= STACK_SIZE, else the value written at sp and sp incremented. */
  function Push(m: State, r: Ref): Out
  {
    if m.sp >= StackSize then Out(m, StackOverflow)
    else Out(m.(stack := m.stack[m.sp := r], sp := m.sp + 1), VmOk)
  }

  /** stack_pop is defined when there is a slot below sp inside the stack. */
  predicate CanPop(m: State)
  {
    1 <= m.sp <= StackSize
  }

  /** stack_pop: sp decremented and the slot there returned; the slot itself is left in place. */
  function Pop(m: State): (r: (State, Ref))
    requires CanPop(m)
  {
    (m.(sp := m.sp - 1), m.stack[m.sp - 1])
  }

  /** stack_top: NULL for an empty stack, else the slot below sp. */
  function StackTop(m: State): (r: Ref)
    requires m.sp <= StackSize
    ensures m.sp == 0 ==> r == NullPtr
    ensures m.sp > 0 ==> r == m.stack[m.sp - 1]
  {
    if m.sp == 0 then NullPtr else m.stack[m.sp - 1]
  }

  /** vm_last_popped_stack_elem: the slot at sp, just above the top. */
  function LastPopped(m: State): Ref
    requires m.sp < StackSize
  {
    m.stack[m.sp]
  }

  /** native_bool_to_boolean_object: the shared obj_true or obj_false. */
  function BoolRef(b: bool): (r: Ref)
    ensures r == TrueRef || r == FalseRef
  {
    if b then TrueRef else FalseRef
  }

  /** size_t arithmetic for `base_pointer - 1`: 0 wraps to SIZE_MAX. */
  function SizeDec(n: nat): nat
  {
    if n >= 1 then n - 1 else CInt.Two64 - 1
  }

  /** size_t arithmetic for `sp - n`: below zero it wraps modulo 2^64. */
  function SizeSub(a: nat, b: nat): (r: nat)
    requires a < CInt.Two64
    ensures r < CInt.Two64 && (r + b - a) % CInt.Two64 == 0
  {
    (a - b) % CInt.Two64
  }

  /** A two-byte operand after the opcode at ip, if the instructions are long enough. */
  function Operand16(ins: seq<int>, ip: nat): Option<int>
  {
    if ip + 3 <= |ins| then Some(BigEndian.ReadUint16(ins, ip + 1)) else None
  }

  /** A one-byte operand, as the uint8_t the source stores it in. */
  function Operand8(ins: seq<int>, ip: nat): Option<int>
  {
    if ip + 2 <= |ins| then Some(CInt.Low8(ins[ip + 1])) else None
  }

  /**
   * An object taken back out of an array or a hash: booleans and null are
   * the static objects the machine pushes for them, anything else a fresh
   * copy.
   */
  function Materialize(m: State, o: Obj.Object): (r: (State, Ref))
    ensures r.1 == TrueRef ==> o == Obj.Boolean(true)
    ensures o.Boolean? || o.Null? ==> r.0 == m
    ensures !(o.Boolean? || o.Null?) ==> r == Alloc(m, o)
  {
    match o
    case Boolean(b) => (m, BoolRef(b))
    case Null => (m, NullRef)
    case _ => Alloc(m, o)
  }

  /** The objects behind stack[start..end], in stack order; None when one is NULL. */
  function Values(m: State, start: nat, end: nat): (r: Option<seq<Obj.Object>>)
    requires start <= end <= StackSize
    ensures r.Some? ==> (|r.value| == end - start
      && forall i :: 0 <= i < end - start ==> Deref(m, m.stack[start + i]) == Some(r.value[i]))
    ensures r.None? ==> exists i :: start <= i < end && Deref(m, m.stack[i]).None?
    decreases end - start
  {
    if start == end then Some([])
    else match Values(m, start, end - 1)
      case None => None
      case Some(vs) =>
        match Deref(m, m.stack[end - 1])
        case None => None
        case Some(o) => Some(vs + [o])
  }

  // ---------------------------------------------------------------- numbers

  /** The `(long)` cast of a double; a value outside long's range is undefined. */
  function ToLong(v: real): Option<int>
  {
    var n := CInt.Trunc(v);
    if CInt.IsLong(n) then Some(n) else None
  }

  /** The `size_t` conversion of an index: the truncated value modulo 2^64. */
  function ToSize(v: real): (i: nat)
    ensures i < CInt.Two64
  {
    CInt.Trunc(v) % CInt.Two64
  }

  predicate IsBinaryOp(op: int)
  {
    op == Code.OpAdd || op == Code.OpSub || op == Code.OpMul || op == Code.OpDiv || op == Code.OpMod
    || op == Code.OpBitOr || op == Code.OpBitAnd || op == Code.OpBitXor
    || op == Code.OpRShift || op == Code.OpLShift
  }

  /** The operators carried out on the `(long)` casts of their operands. */
  function LongOp(op: int, a: int, b: int): Result<real, VMResult>
  {
    if op == Code.OpMod then
      if b == 0 || (a == CInt.LongMin && b == -1) then Err(Crash) else Ok(CInt.Rem(a, b) as real)
    else if op == Code.OpRShift then
      if 0 <= b < 64 then Ok(CInt.ShiftRight(a, b) as real) else Err(Crash)
    else if op == Code.OpLShift then
      if 0 <= b < 64 then Ok(CInt.ShiftLeft(a, b) as real) else Err(Crash)
    else if op == Code.OpBitAnd then Ok(CInt.BitAnd(a, b) as real)
    else if op == Code.OpBitOr then Ok(CInt.BitOr(a, b) as real)
    else if op == Code.OpBitXor then Ok(CInt.BitXor(a, b) as real)
    else Err(UnsupportedOperation)
  }

  /** execute_binary_integer_operation on the two values: the number to push, or the error. */
  function NumberOp(op: int, l: real, r: real): Result<real, VMResult>
  {
    if op == Code.OpAdd then Ok(l + r)
    else if op == Code.OpSub then Ok(l - r)
    else if op == Code.OpMul then Ok(l * r)
    else if op == Code.OpDiv then (if r == 0.0 then Err(FloatingPoint) else Ok(l / r))
    else match (ToLong(l), ToLong(r))
      case (Some(a), Some(b)) => LongOp(op, a, b)
      case _ => Err(Crash)
  }

  /** execute_number_comparison: the boolean to push, or the error. */
  function NumberCompare(op: int, l: real, r: real): Result<bool, VMResult>
  {
    if op == Code.OpEq then Ok(l == r)
    else if op == Code.OpNotEq then Ok(l != r)
    else if op == Code.OpGreater then Ok(l > r)
    else Err(UnsupportedOperation)
  }

  // ---------------------------------------------------------------- operators

  /**
   * execute_binary_operation: right popped, then left.  Two numbers are
   * combined into a new number and two strings concatenated by `+`;
   * anything else is unsupported.  The left operand is only looked at when
   * the right one is a number or a string.
   */
  function ExecBinary(m: State, op: int): Out
  {
    if !CanPop(m) then Out(m, Crash) else
    var (m1, right) := Pop(m);
    if !CanPop(m1) then Out(m1, Crash) else
    var (m2, left) := Pop(m1);
    match Deref(m2, right)
    case None => Out(m2, Crash)
    case Some(ro) =>
      if !(ro.Number? || ro.Str?) then Out(m2, UnsupportedOperation)
      else match Deref(m2, left)
        case None => Out(m2, Crash)
        case Some(lo) =>
          if ro.Number? && lo.Number? then
            match NumberOp(op, lo.value, ro.value)
            case Err(e) => Out(m2, e)
            case Ok(v) => var (m3, r) := Alloc(m2, Obj.Number(v)); Push(m3, r)
          else if ro.Str? && lo.Str? then
            if op == Code.OpAdd then var (m3, r) := Alloc(m2, Obj.Str(lo.text + ro.text)); Push(m3, r)
            else Out(m2, UnsupportedOperation)
          else Out(m2, UnsupportedOperation)
  }

  /**
   * execute_comparison: numbers compare their values; any other pair is
   * compared by pointer for `==` and `!=`, and `>` is unsupported.
   */
  function ExecComparison(m: State, op: int): Out
  {
    if !CanPop(m) then Out(m, Crash) else
    var (m1, right) := Pop(m);
    if !CanPop(m1) then Out(m1, Crash) else
    var (m2, left) := Pop(m1);
    match Deref(m2, right)
    case None => Out(m2, Crash)
    case Some(ro) =>
      if ro.Number? && Deref(m2, left).None? then Out(m2, Crash)
      else if ro.Number? && Deref(m2, left).value.Number? then
        match NumberCompare(op, Deref(m2, left).value.value, ro.value)
        case Err(e) => Out(m2, e)
        case Ok(b) => Push(m2, BoolRef(b))
      else if op == Code.OpEq then Push(m2, BoolRef(right == left))
      else if op == Code.OpNotEq then Push(m2, BoolRef(right != left))
      else Out(m2, UnsupportedOperation)
  }

  /** The pointer execute_bang_operator pushes for an operand: it compares pointers only. */
  function BangOf(r: Ref): Ref
  {
    if r == TrueRef then FalseRef
    else if r == FalseRef then TrueRef
    else if r == NullRef then TrueRef
    else FalseRef
  }

  /** execute_bang_operator. */
  function ExecBang(m: State): Out
  {
    if !CanPop(m) then Out(m, Crash) else
    var (m1, operand) := Pop(m);
    Push(m1, BangOf(operand))
  }

  /** execute_minus_operator: a new number holding the negation, or unsupported type. */
  function ExecMinus(m: State): Out
  {
    if !CanPop(m) then Out(m, Crash) else
    var (m1, operand) := Pop(m);
    match Deref(m1, operand)
    case None => Out(m1, Crash)
    case Some(o) =>
      if !o.Number? then Out(m1, UnsupportedType)
      else var (m2, r) := Alloc(m1, Obj.Number(-o.value)); Push(m2, r)
  }

  /** is_truthy: a boolean's value, false for null, true for every other object. */
  function Truthy(o: Obj.Object): bool
  {
    match o
    case Boolean(b) => b
    case Null => false
    case _ => true
  }

  // ---------------------------------------------------------------- jumps, globals and locals

  /** OP_JMP: ip set to pos - 1, so that the loop's increment fetches pos next. */
  function ExecJmp(m: State, ins: seq<int>, ip: nat): Out
  {
    match Operand16(ins, ip)
    case None => Out(m, Crash)
    case Some(pos) => Out(SetIp(m, pos - 1), VmOk)
  }

  /** OP_JMP_IF_FALSE: the operand skipped, the condition popped, and the jump taken when it is falsy. */
  function ExecJmpIfFalse(m: State, ins: seq<int>, ip: nat): Out
  {
    match Operand16(ins, ip)
    case None => Out(m, Crash)
    case Some(pos) =>
      var m1 := Advance(m, 2);
      if !CanPop(m1) then Out(m1, Crash) else
      var (m2, c) := Pop(m1);
      match Deref(m2, c)
      case None => Out(m2, Crash)
      case Some(o) => if Truthy(o) then Out(m2, VmOk) else Out(SetIp(m2, pos - 1), VmOk)
  }

  /** OP_SET_GLOBAL: the popped pointer stored in the global slot. */
  function ExecSetGlobal(m: State, ins: seq<int>, ip: nat): Out
  {
    match Operand16(ins, ip)
    case None => Out(m, Crash)
    case Some(k) =>
      var m1 := Advance(m, 2);
      if !CanPop(m1) then Out(m1, Crash) else
      var (m2, r) := Pop(m1);
      Out(m2.(globals := m2.globals[k := r]), VmOk)
  }

  /** OP_GET_GLOBAL: the global slot pushed. */
  function ExecGetGlobal(m: State, ins: seq<int>, ip: nat): Out
  {
    match Operand16(ins, ip)
    case None => Out(m, Crash)
    case Some(k) => var m1 := Advance(m, 2); Push(m1, m1.globals[k])
  }

  /** OP_SET_LOCAL: the popped pointer stored at base_pointer + index. */
  function ExecSetLocal(m: State, ins: seq<int>, ip: nat): Out
  {
    match Operand8(ins, ip)
    case None => Out(m, Crash)
    case Some(k) =>
      var m1 := Advance(m, 1);
      if !CanPop(m1) then Out(m1, Crash) else
      var (m2, r) := Pop(m1);
      var slot := Cur(m2).basePointer + k;
      if slot >= StackSize then Out(m2, Crash)
      else Out(m2.(stack := m2.stack[slot := r]), VmOk)
  }

  /** OP_GET_LOCAL: the slot at base_pointer + index pushed. */
  function ExecGetLocal(m: State, ins: seq<int>, ip: nat): Out
  {
    match Operand8(ins, ip)
    case None => Out(m, Crash)
    case Some(k) =>
      var m1 := Advance(m, 1);
      var slot := Cur(m1).basePointer + k;
      if slot >= StackSize then Out(m1, Crash) else Push(m1, m1.stack[slot])
  }

  // ---------------------------------------------------------------- arrays, hashes, indexing

  /**
   * OP_ARRAY: the top n slots replaced by one new array holding their objects
   * in stack order.  With fewer than n slots, `sp - n` wraps: vm_build_array's
   * loop from the wrapped start never runs, so the array is empty, and the
   * push at the wrapped sp overflows.
   */
  function ExecArray(m: State, ins: seq<int>, ip: nat): Out
  {
    match Operand16(ins, ip)
    case None => Out(m, Crash)
    case Some(n) =>
      var m1 := Advance(m, 2);
      if n > m1.sp then
        var (m2, r) := Alloc(m1, Obj.Array([]));
        Push(m2.(sp := SizeSub(m1.sp, n)), r)
      else if m1.sp > StackSize then Out(m1, Crash) else
      match Values(m1, m1.sp - n, m1.sp)
      case None => Out(m1, Crash)
      case Some(es) =>
        var (m2, r) := Alloc(m1, Obj.Array(es));
        Push(m2.(sp := m1.sp - n), r)
  }

  /**
   * The key test of vm_build_hash and execute_hash_index as written: None
   * (VM_UNHASHABLE_OBJECT) whenever get_hash_key is negative, which takes in
   * every negative number as well as the kinds that have no key.
   */
  function VmHashKeyAsWritten(o: Obj.Object): (k: Option<Obj.HashKey>)
    ensures k.Some? ==> k.value == Obj.HashKeyAsWritten(o)
  {
    match Obj.HashKeyAsWritten(o)
    case IntKey(v) => if v < 0 then None else Some(Obj.IntKey(v))
    case StringKey(s) => Some(Obj.StringKey(s))
  }

  /** The key test as intended: exactly the kinds get_hash_key has a key for, whatever its sign. */
  function VmHashKey(o: Obj.Object): (k: Option<Obj.HashKey>)
    ensures k.Some? <==> Obj.Hashable(o)
    ensures k.Some? ==> k.value == Obj.HashKeyAsWritten(o)
  {
    Obj.HashKeyOf(o)
  }

  /** A negative number is refused as a key as written, though it has one. */
  lemma {:induction false} NegativeKeyRefused()
    ensures VmHashKeyAsWritten(Obj.Number(-5.0)).None?
    ensures VmHashKey(Obj.Number(-5.0)) == Some(Obj.IntKey(-5))
  {
    assert CInt.Trunc(-5.0) == -5;
  }

  /**
   * vm_build_hash from slot i on: a key at every second slot and its value
   * after it; a later pair with an equal key replaces an earlier one.  A
   * key of a kind that has no hash key ends the build with VM_UNHASHABLE_OBJECT.
   */
  function HashFrom(m: State, i: nat, end: nat, acc: map<Obj.HashKey, (Obj.Object, Obj.Object)>)
    : (r: Result<map<Obj.HashKey, (Obj.Object, Obj.Object)>, VMResult>)
    requires end <= StackSize
    ensures r.Err? ==> r.error == Crash || r.error == UnhashableObject
    decreases end - i
  {
    if i >= end then Ok(acc)
    else if i + 1 >= StackSize then Err(Crash)
    else match Deref(m, m.stack[i])
      case None => Err(Crash)
      case Some(key) =>
        match VmHashKey(key)
        case None => Err(UnhashableObject)
        case Some(k) =>
          match Deref(m, m.stack[i + 1])
          case None => Err(Crash)
          case Some(value) => HashFrom(m, i + 2, end, acc[k := (key, value)])
  }

  /**
   * OP_HASH: the top n slots, read as key/value pairs, replaced by one new
   * hash.  With fewer than n slots the start wraps as in OP_ARRAY: the hash is
   * empty and the push overflows.
   */
  function ExecHash(m: State, ins: seq<int>, ip: nat): (o: Out)
    ensures o.res == VmOk ==>
      && 1 <= o.m.sp <= StackSize && o.m.stack[o.m.sp - 1] == |m.heap|
      && |o.m.heap| == |m.heap| + 1 && o.m.heap[|m.heap|].Hash?
  {
    match Operand16(ins, ip)
    case None => Out(m, Crash)
    case Some(n) =>
      var m1 := Advance(m, 2);
      if n > m1.sp then
        var (m2, r) := Alloc(m1, Obj.Hash(map[]));
        Push(m2.(sp := SizeSub(m1.sp, n)), r)
      else if m1.sp > StackSize then Out(m1, Crash) else
      match HashFrom(m1, m1.sp - n, m1.sp, map[])
      case Err(e) => Out(m1, e)
      case Ok(pairs) =>
        var (m2, r) := Alloc(m1, Obj.Hash(pairs));
        Push(m2.(sp := m1.sp - n), r)
  }

  /**
   * OP_ARRAY and OP_HASH with more operands than stack slots: `sp - n` wraps
   * far above the stack, so the instruction ends with VM_STACK_OVERFLOW.
   */
  lemma ShortStackOverflows(m: State, ins: seq<int>, ip: nat)
    requires Operand16(ins, ip).Some? && Operand16(ins, ip).value > m.sp
    ensures ExecArray(m, ins, ip).res == StackOverflow
    ensures ExecHash(m, ins, ip).res == StackOverflow
  {
  }

  /**
   * OP_HASH as written: vm_build_hash allocates the hash and fills in its
   * pairs but never sets its type field.  The stack effect is that of
   * ExecHash; the second component is the pointer left without a type, the
   * one the new hash occupies whenever the instruction completes.
   */
  function ExecHashAsWritten(m: State, ins: seq<int>, ip: nat): (r: (Out, Option<Ref>))
    ensures r.0 == ExecHash(m, ins, ip)
    ensures r.1.Some? <==> r.0.res == VmOk
    ensures r.1.Some? ==> r.1.value == |m.heap| && r.0.m.sp >= 1 && r.0.m.stack[r.0.m.sp - 1] == r.1.value
  {
    var o := ExecHash(m, ins, ip);
    (o, if o.res == VmOk then Some(|m.heap|) else None)
  }

  /**
   * execute_array_index as written: the index converted to size_t and
   * compared with `len - 1`, also a size_t.  For an empty array that bound
   * wraps to SIZE_MAX, every index passes, and the element read lies past
   * the array.
   */
  function ArrayIndexAsWritten(m: State, es: seq<Obj.Object>, v: real): Out
  {
    var i := ToSize(v);
    var maxIndex := (|es| - 1) % CInt.Two64;
    if i > maxIndex then Push(m, NullRef)
    else if i >= |es| then Out(m, Crash)
    else var (m1, r) := Materialize(m, es[i]); Push(m1, r)
  }

  /** Array indexing as intended: null for every index at or past the length, the element otherwise. */
  function ArrayIndex(m: State, es: seq<Obj.Object>, v: real): Out
  {
    var i := ToSize(v);
    if i >= |es| then Push(m, NullRef)
    else var (m1, r) := Materialize(m, es[i]); Push(m1, r)
  }

  /** execute_hash_index: unhashable for an index that has no hash key, null for a missing key, the value otherwise. */
  function HashIndex(m: State, pairs: map<Obj.HashKey, (Obj.Object, Obj.Object)>, index: Obj.Object): Out
  {
    match VmHashKey(index)
    case None => Out(m, UnhashableObject)
    case Some(k) =>
      if k !in pairs then Push(m, NullRef)
      else var (m1, r) := Materialize(m, pairs[k].1); Push(m1, r)
  }

  /** OP_INDEX: index popped, then the indexed object; arrays take numbers, hashes any key. */
  function ExecIndex(m: State): Out
  {
    if !CanPop(m) then Out(m, Crash) else
    var (m1, index) := Pop(m);
    if !CanPop(m1) then Out(m1, Crash) else
    var (m2, left) := Pop(m1);
    match Deref(m2, left)
    case None => Out(m2, Crash)
    case Some(lo) =>
      if !(lo.Array? || lo.Hash?) then Out(m2, UnindexableObject)
      else match Deref(m2, index)
        case None => Out(m2, Crash)
        case Some(io) =>
          if lo.Array? then
            if io.Number? then ArrayIndex(m2, lo.elements, io.value) else Out(m2, UnindexableObject)
          else HashIndex(m2, lo.pairs, io)
  }

  /**
   * OP_INDEX as written, where `untyped` holds the pointers of hashes built
   * by vm_build_hash: execute_index_expression reads the indexed object's
   * type, which for those was never set, so indexing one is undefined.
   * Every other object is indexed as ExecIndex says.
   */
  function ExecIndexAsWritten(m: State, untyped: set<Ref>): (o: Out)
    ensures untyped == {} ==> o == ExecIndex(m)
    ensures o.res == Crash <==> ExecIndex(m).res == Crash || (2 <= m.sp <= StackSize && m.stack[m.sp - 2] in untyped)
  {
    if !CanPop(m) then Out(m, Crash) else
    var (m1, index) := Pop(m);
    if !CanPop(m1) then Out(m1, Crash) else
    var (m2, left) := Pop(m1);
    if left in untyped then Out(m2, Crash) else ExecIndex(m)
  }

  // ---------------------------------------------------------------- calls and returns

  /**
   * The pointer a builtin returns: first and last hand back an element of
   * their array, every other result is a new object.
   */
  function BuiltinResult(m: State, index: nat, args: seq<Obj.Object>, result: Obj.Object): (State, Ref)
  {
    if (index == Builtins.FirstIndex || index == Builtins.LastIndex)
       && |args| == 1 && args[0].Array? && |args[0].elements| > 0
    then Materialize(m, result)
    else Alloc(m, result)
  }

  /**
   * call_builtin_function: the builtin applied to the n argument objects;
   * the arguments are removed only afterwards, and the callee's slot stays
   * below the pushed result.
   */
  function CallBuiltin(m: State, index: nat, n: nat): Out
    requires n <= m.sp
  {
    if index >= |Builtins.Names| || m.sp > StackSize then Out(m, Crash) else
    match Values(m, m.sp - n, m.sp)
    case None => Out(m, Crash)
    case Some(args) =>
      var (m1, r) := BuiltinResult(m, index, args, Builtins.Apply(index, args));
      Push(m1.(sp := m.sp - n), r)
  }

  /**
   * call_closure: the enclosed function must be compiled; a wrong argument
   * count pushes no frame, otherwise a frame whose base is the first
   * argument, with sp above the function's locals.
   */
  function CallClosure(m: State, callee: Ref, fn: Obj.Object, n: nat): Out
    requires n <= m.sp
  {
    if !fn.CompiledFunction? then Out(m, Crash)
    else if n != fn.numParameters then Out(m, WrongNumberOfArguments)
    else
      var base := m.sp - n;
      Out(m.(frames := m.frames + [Frame(callee, -1, base)], sp := base + fn.numLocals), VmOk)
  }

  /** OP_CALL: the callee sits below its n arguments. */
  function ExecCall(m: State, ins: seq<int>, ip: nat): Out
  {
    match Operand8(ins, ip)
    case None => Out(m, Crash)
    case Some(n) =>
      var m1 := Advance(m, 1);
      if m1.sp < n + 1 || m1.sp - 1 - n >= StackSize then Out(m1, Crash) else
      var callee := m1.stack[m1.sp - 1 - n];
      match Deref(m1, callee)
      case None => Out(m1, Crash)
      case Some(o) =>
        match o
        case Builtin(index) => CallBuiltin(m1, index, n)
        case Closure(fn, _) => CallClosure(m1, callee, fn, n)
        case _ => Out(m1, CallNonFunction)
  }

  /** The frames without the current one; the source needs a frame left under it. */
  function PopFrame(m: State): State
    requires |m.frames| >= 2
  {
    m.(frames := m.frames[..|m.frames| - 1])
  }

  /**
   * The push after pop_frame has taken the last frame.  A failed push is
   * run_vm's result; a push that succeeds leaves no current frame for run_vm's
   * next test to read (Crash).  The model keeps the frame, since either way
   * run_vm goes no further.  For the main frame, whose base pointer is 0, sp
   * has wrapped to SIZE_MAX and the push overflows.
   */
  function LastFrameReturn(m: State, v: Ref): (o: Out)
    ensures o.res != VmOk
    ensures m.sp >= StackSize ==> o == Out(m, StackOverflow)
  {
    var o := Push(m, v);
    if o.res == VmOk then Out(o.m, Crash) else o
  }

  /** OP_RETURN_VALUE: the value popped, the frame popped, sp set below the callee, the value pushed. */
  function ExecReturnValue(m: State): Out
  {
    if !CanPop(m) then Out(m, Crash) else
    var (m1, v) := Pop(m);
    var sp := SizeDec(Cur(m1).basePointer);
    if |m1.frames| < 2 then LastFrameReturn(m1.(sp := sp), v)
    else Push(PopFrame(m1).(sp := sp), v)
  }

  /** OP_RETURN: like OP_RETURN_VALUE with obj_null as the value. */
  function ExecReturn(m: State): Out
  {
    var sp := SizeDec(Cur(m).basePointer);
    if |m.frames| < 2 then LastFrameReturn(m.(sp := sp), NullRef)
    else Push(PopFrame(m).(sp := sp), NullRef)
  }

  /** OP_GET_BUILTIN: a builtin object for the table entry. */
  function ExecGetBuiltin(m: State, ins: seq<int>, ip: nat): Out
  {
    match Operand8(ins, ip)
    case None => Out(m, Crash)
    case Some(k) =>
      var m1 := Advance(m, 1);
      if k >= |Builtins.Names| then Out(m1, Crash) else
      var (m2, r) := Alloc(m1, Obj.Builtin(k));
      Push(m2, r)
  }

  // ---------------------------------------------------------------- closures and loops

  /** push_closure: a new closure over the constant whose free variables are the top n slots. */
  function PushClosure(m: State, k: nat, n: int): Out
  {
    if k >= m.numConstants || n < 0 || n > MaxFree || n > m.sp || m.sp > StackSize then Out(m, Crash) else
    var closure := Obj.Closure(m.heap[FirstConstant + k], m.stack[m.sp - n..m.sp]);
    var (m1, r) := Alloc(m, closure);
    Push(m1.(sp := m.sp - n), r)
  }

  /** OP_CLOSURE: a two-byte constant index and a one-byte free-variable count. */
  function ExecClosure(m: State, ins: seq<int>, ip: nat): Out
  {
    if ip + 4 > |ins| then Out(m, Crash) else
    var k := BigEndian.ReadUint16(ins, ip + 1);
    var m1 := Advance(m, 3);
    PushClosure(m1, k, ins[ip + 3])
  }

  /** The free variables of the current frame's closure. */
  function CurrentFree(m: State): Option<seq<Ref>>
  {
    match Deref(m, Cur(m).closure)
    case Some(Closure(_, free)) => Some(free)
    case _ => None
  }

  /** OP_GET_FREE: the closure's free variable pushed. */
  function ExecGetFree(m: State, ins: seq<int>, ip: nat): Out
  {
    match Operand8(ins, ip)
    case None => Out(m, Crash)
    case Some(k) =>
      var m1 := Advance(m, 1);
      match CurrentFree(m1)
      case None => Out(m1, Crash)
      case Some(free) => if k >= |free| then Out(m1, Crash) else Push(m1, free[k])
  }

  /** OP_SET_FREE: the popped object copied over the object the free variable points to. */
  function ExecSetFree(m: State, ins: seq<int>, ip: nat): Out
  {
    match Operand8(ins, ip)
    case None => Out(m, Crash)
    case Some(k) =>
      var m1 := Advance(m, 1);
      if !CanPop(m1) then Out(m1, Crash) else
      var (m2, v) := Pop(m1);
      match CurrentFree(m2)
      case None => Out(m2, Crash)
      case Some(free) =>
        if k >= |free| || Deref(m2, free[k]).None? || Deref(m2, v).None? then Out(m2, Crash)
        else Out(m2.(heap := m2.heap[free[k] := m2.heap[v]]), VmOk)
  }

  /** OP_LOOP: the popped closure's compiled loop entered in a new frame based at sp. */
  function ExecLoop(m: State): Out
  {
    if !CanPop(m) then Out(m, Crash) else
    var (m1, c) := Pop(m);
    match Deref(m1, c)
    case Some(Closure(CompiledLoop(_, numLocals), _)) =>
      Out(m1.(frames := m1.frames + [Frame(c, -1, m1.sp)], sp := m1.sp + numLocals), VmOk)
    case _ => Out(m1, Crash)
  }

  /** OP_CONTINUE: the loop frame popped and sp reset to its base. */
  function ExecContinue(m: State): Out
  {
    if |m.frames| < 2 then Out(m, Crash)
    else Out(PopFrame(m).(sp := Cur(m).basePointer), VmOk)
  }

  /** OP_BREAK: the loop frame popped, sp reset to its base, and the enclosing frame's ip set to the operand. */
  function ExecBreak(m: State, ins: seq<int>, ip: nat): Out
  {
    if ip + 2 > |ins| || |m.frames| < 2 then Out(m, Crash)
    else Out(SetIp(PopFrame(m).(sp := Cur(m).basePointer), ins[ip + 1] % 0x1_0000), VmOk)
  }

  // ---------------------------------------------------------------- the fetch-decode-execute loop

  /** OP_CONSTANT: the constant's pointer pushed, then its operand skipped. */
  function ExecConstant(m: State, ins: seq<int>, ip: nat): Out
  {
    match Operand16(ins, ip)
    case None => Out(m, Crash)
    case Some(k) =>
      if k >= m.numConstants then Out(m, Crash) else
      var o := Push(m, FirstConstant + k);
      if o.res != VmOk then o else Out(Advance(o.m, 2), VmOk)
  }

  /** The opcodes that move values on and off the stack. */
  function ExecStackOp(m: State, ins: seq<int>, ip: nat, op: int): Out
  {
    if op == Code.OpConstant then ExecConstant(m, ins, ip)
    else if op == Code.OpPop then (if CanPop(m) then Out(Pop(m).0, VmOk) else Out(m, Crash))
    else if op == Code.OpTrue then Push(m, TrueRef)
    else if op == Code.OpFalse then Push(m, FalseRef)
    else if op == Code.OpNull then Push(m, NullRef)
    else if op == Code.OpSetGlobal then ExecSetGlobal(m, ins, ip)
    else if op == Code.OpGetGlobal then ExecGetGlobal(m, ins, ip)
    else if op == Code.OpSetLocal then ExecSetLocal(m, ins, ip)
    else if op == Code.OpGetLocal then ExecGetLocal(m, ins, ip)
    else Out(m, VmOk)
  }

  /** The operator opcodes and jumps. */
  function ExecOperatorOp(m: State, ins: seq<int>, ip: nat, op: int): Out
  {
    if IsBinaryOp(op) then ExecBinary(m, op)
    else if op == Code.OpGreater || op == Code.OpEq || op == Code.OpNotEq then ExecComparison(m, op)
    else if op == Code.OpBang then ExecBang(m)
    else if op == Code.OpMinus then ExecMinus(m)
    else if op == Code.OpJmp then ExecJmp(m, ins, ip)
    else if op == Code.OpJmpIfFalse then ExecJmpIfFalse(m, ins, ip)
    else Out(m, VmOk)
  }

  /** The opcodes that build, index and call objects. */
  function ExecObjectOp(m: State, ins: seq<int>, ip: nat, op: int): Out
  {
    if op == Code.OpArray then ExecArray(m, ins, ip)
    else if op == Code.OpHash then ExecHash(m, ins, ip)
    else if op == Code.OpIndex then ExecIndex(m)
    else if op == Code.OpCall then ExecCall(m, ins, ip)
    else if op == Code.OpReturnValue then ExecReturnValue(m)
    else if op == Code.OpReturn then ExecReturn(m)
    else if op == Code.OpGetBuiltin then ExecGetBuiltin(m, ins, ip)
    else Out(m, VmOk)
  }

  /** The closure and loop opcodes. */
  function ExecClosureOp(m: State, ins: seq<int>, ip: nat, op: int): Out
  {
    if op == Code.OpClosure then ExecClosure(m, ins, ip)
    else if op == Code.OpGetFree then ExecGetFree(m, ins, ip)
    else if op == Code.OpSetFree then ExecSetFree(m, ins, ip)
    else if op == Code.OpCurrentClosure then Push(m, Cur(m).closure)
    else if op == Code.OpLoop then ExecLoop(m)
    else if op == Code.OpContinue then ExecContinue(m)
    else if op == Code.OpBreak then ExecBreak(m, ins, ip)
    else if op == Code.OpCount then Out(m, Crash)
    else Out(m, VmOk)
  }

  predicate IsStackOp(op: int)
  {
    op == Code.OpConstant || op == Code.OpPop || op == Code.OpTrue || op == Code.OpFalse
    || op == Code.OpNull || op == Code.OpSetGlobal || op == Code.OpGetGlobal
    || op == Code.OpSetLocal || op == Code.OpGetLocal
  }

  predicate IsOperatorOp(op: int)
  {
    IsBinaryOp(op) || op == Code.OpGreater || op == Code.OpEq || op == Code.OpNotEq
    || op == Code.OpBang || op == Code.OpMinus || op == Code.OpJmp || op == Code.OpJmpIfFalse
  }

  predicate IsObjectOp(op: int)
  {
    op == Code.OpArray || op == Code.OpHash || op == Code.OpIndex || op == Code.OpCall
    || op == Code.OpReturnValue || op == Code.OpReturn || op == Code.OpGetBuiltin
  }

  /** The switch of run_vm on the opcode at ip; an opcode it has no case for does nothing. */
  function Exec(m: State, ins: seq<int>, ip: nat, op: int): Out
  {
    if IsStackOp(op) then ExecStackOp(m, ins, ip, op)
    else if IsOperatorOp(op) then ExecOperatorOp(m, ins, ip, op)
    else if IsObjectOp(op) then ExecObjectOp(m, ins, ip, op)
    else ExecClosureOp(m, ins, ip, op)
  }

  /** frame_instructions: the instructions of the compiled function or loop the current closure wraps. */
  function FrameInstructions(m: State): Option<seq<int>>
  {
    match Deref(m, Cur(m).closure)
    case Some(Closure(CompiledFunction(ins, _, _), _)) => Some(ins)
    case Some(Closure(CompiledLoop(ins, _), _)) => Some(ins)
    case _ => None
  }

  /** The loop condition of run_vm: ip below the index of the last instruction byte. */
  predicate MoreToRun(m: State, ins: seq<int>)
  {
    Cur(m).ip < |ins| - 1
  }

  /** One turn of run_vm's loop: ip incremented, the opcode there fetched and executed. */
  function Step(m: State, ins: seq<int>): Out
    requires MoreToRun(m, ins)
  {
    var ip := Cur(m).ip + 1;
    var m1 := SetIp(m, ip);
    if ip < 0 then Out(m1, Crash) else Exec(m1, ins, ip, ins[ip])
  }

  /** How a run ends: run_vm's result, or the fuel spent while it is still running. */
  datatype Outcome = Done(m: State, res: VMResult) | OutOfFuel(m: State)

  /** A run ending in machine m reports outcome o: res is its result, or None when the fuel ran out. */
  predicate Reports(o: Outcome, m: State, res: Option<VMResult>)
  {
    m == o.m && (res.Some? <==> o.Done?) && (res.Some? ==> res.value == o.res)
  }

  /**
   * run_vm, for at most fuel turns of its loop: it returns VM_OK when the
   * current frame has no instruction left, and the first error otherwise.
   */
  function Run(m: State, fuel: nat): Outcome
    decreases fuel
  {
    match FrameInstructions(m)
    case None => Done(m, Crash)
    case Some(ins) =>
      if !MoreToRun(m, ins) then Done(m, VmOk)
      else if fuel == 0 then OutOfFuel(m)
      else
        var o := Step(m, ins);
        if o.res != VmOk then Done(o.m, o.res) else Run(o.m, fuel - 1)
  }

  /** Run stops at once without an instruction source, at the end of the instructions, or without fuel. */
  lemma {:induction false} RunStops(m: State, fuel: nat)
    ensures FrameInstructions(m).None? ==> Run(m, fuel) == Done(m, Crash)
    ensures FrameInstructions(m).Some? && !MoreToRun(m, FrameInstructions(m).value) ==> Run(m, fuel) == Done(m, VmOk)
    ensures FrameInstructions(m).Some? && MoreToRun(m, FrameInstructions(m).value) && fuel == 0 ==> Run(m, fuel) == OutOfFuel(m)
  {
  }

  /** Otherwise Run takes a step, and stops at an error or goes on from the state the step leaves. */
  lemma {:induction false} RunSteps(m: State, fuel: nat, ins: seq<int>, m': State, r: VMResult)
    requires FrameInstructions(m) == Some(ins) && MoreToRun(m, ins) && fuel > 0
    requires Out(m', r) == Step(m, ins)
    ensures r != VmOk ==> Run(m, fuel) == Done(m', r)
    ensures r == VmOk ==> Run(m, fuel) == Run(m', fuel - 1)
  {
  }
}
