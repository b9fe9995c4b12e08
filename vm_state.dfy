/**
 * The VM struct of src/vm/vm.c as an object: a fixed stack and globals
 * array written in place, the stack pointer, the frames and the object
 * heap.  Every method makes exactly the change the function of the same
 * name in module Vm describes, and returns the same VMResult; RunVm is
 * run_vm's loop and is proved to reach the state Vm.Run computes.
 */
module VmState {
  import opened Wrappers
  import V = Vm
  import Code
  import BigEndian
  import CInt
  import Obj = Object
  import Builtins

  class VM {
    const stack: array<V.Ref>
    const globals: array<V.Ref>
    var sp: nat
    var frames: seq<V.Frame>
    var heap: seq<Obj.Object>
    var numConstants: nat

    predicate Valid()
      reads this
    {
      stack.Length == V.StackSize && globals.Length == V.GlobalsSize && stack != globals
      && |frames| >= 1 && |heap| >= V.FirstConstant + numConstants
    }

    /** The machine state the fields and arrays hold. */
    function Snapshot(): V.State
      requires Valid()
      reads this, stack, globals
    {
      V.Machine(stack[..], sp, globals[..], frames, heap, numConstants)
    }

    /** new_vm: stack and globals zeroed, the main closure in the only frame. */
    constructor (constants: seq<Obj.Object>, instructions: seq<int>)
      ensures Valid() && Snapshot() == V.NewVm(constants, instructions)
      ensures fresh(stack) && fresh(globals)
    {
      stack := new V.Ref[V.StackSize](i => V.NullPtr);
      globals := new V.Ref[V.GlobalsSize](i => V.NullPtr);
      sp := 0;
      var main := Obj.Closure(Obj.CompiledFunction(instructions, 0, 0), []);
      heap := [Obj.Null, Obj.Boolean(true), Obj.Boolean(false), Obj.Null] + constants + [main];
      frames := [V.Frame(V.FirstConstant + |constants|, -1, 0)];
      numConstants := |constants|;
      new;
      assert stack[..] == seq(V.StackSize, i => V.NullPtr);
      assert globals[..] == seq(V.GlobalsSize, i => V.NullPtr);
    }

    // -------------------------------------------------------------- primitives

    function Current(): V.Frame
      requires Valid()
      reads this
    {
      frames[|frames| - 1]
    }

    /** The object behind a pointer, as Vm.Deref gives it. */
    function Deref(r: V.Ref): Option<Obj.Object>
      reads this
    {
      if V.NullPtr < r < |heap| then Some(heap[r]) else None
    }

    method SetIp(ip: int)
      requires Valid()
      modifies this
      ensures Valid() && Snapshot() == V.SetIp(old(Snapshot()), ip)
    {
      frames := frames[|frames| - 1 := frames[|frames| - 1].(ip := ip)];
    }

    method Advance(k: nat)
      requires Valid()
      modifies this
      ensures Valid() && Snapshot() == V.Advance(old(Snapshot()), k)
    {
      SetIp(Current().ip + k);
    }

    method Alloc(o: Obj.Object) returns (r: V.Ref)
      requires Valid()
      modifies this
      ensures Valid() && (Snapshot(), r) == V.Alloc(old(Snapshot()), o)
    {
      r := |heap|;
      heap := heap + [o];
    }

    /** stack_push. */
    method Push(r: V.Ref) returns (res: V.VMResult)
      requires Valid()
      modifies this, stack
      ensures Valid() && V.Out(Snapshot(), res) == V.Push(old(Snapshot()), r)
    {
      if sp >= V.StackSize {
        return V.StackOverflow;
      }
      stack[sp] := r;
      sp := sp + 1;
      res := V.VmOk;
    }

    /** stack_pop. */
    method Pop() returns (r: V.Ref)
      requires Valid() && V.CanPop(Snapshot())
      modifies this
      ensures Valid() && (Snapshot(), r) == V.Pop(old(Snapshot()))
    {
      sp := sp - 1;
      r := stack[sp];
    }

    method Materialize(o: Obj.Object) returns (r: V.Ref)
      requires Valid()
      modifies this
      ensures Valid() && (Snapshot(), r) == V.Materialize(old(Snapshot()), o)
    {
      match o
      case Boolean(b) => r := V.BoolRef(b);
      case Null => r := V.NullRef;
      case _ => r := Alloc(o);
    }

    /** The loop of vm_build_array and call_builtin_function: the objects behind stack[start..end]. */
    method Values(start: nat, end: nat) returns (vs: Option<seq<Obj.Object>>)
      requires Valid() && start <= end <= V.StackSize
      ensures vs == V.Values(Snapshot(), start, end)
    {
      var acc: seq<Obj.Object> := [];
      var i := start;
      while i < end
        invariant start <= i <= end
        invariant V.Values(Snapshot(), start, i) == Some(acc)
      {
        var o := Deref(stack[i]);
        if o.None? {
          assert V.Values(Snapshot(), start, i + 1).None?;
          NoneStaysNone(start, i + 1, end);
          return None;
        }
        acc := acc + [o.value];
        i := i + 1;
      }
      vs := Some(acc);
    }

    /** Once one slot has no object, neither has any longer range. */
    lemma {:induction false} NoneStaysNone(start: nat, i: nat, end: nat)
      requires Valid() && start <= i <= end <= V.StackSize
      requires V.Values(Snapshot(), start, i).None?
      ensures V.Values(Snapshot(), start, end).None?
      decreases end - i
    {
      if i < end {
        NoneStaysNone(start, i + 1, end);
      }
    }

    // -------------------------------------------------------------- operators

    /** execute_binary_operation. */
    method ExecBinary(op: int) returns (res: V.VMResult)
      requires Valid()
      modifies this, stack
      ensures Valid() && V.Out(Snapshot(), res) == V.ExecBinary(old(Snapshot()), op)
    {
      if !(1 <= sp <= V.StackSize) {
        return V.Crash;
      }
      var right := Pop();
      if !(1 <= sp <= V.StackSize) {
        return V.Crash;
      }
      var left := Pop();
      var ro := Deref(right);
      if ro.None? {
        return V.Crash;
      }
      if !(ro.value.Number? || ro.value.Str?) {
        return V.UnsupportedOperation;
      }
      var lo := Deref(left);
      if lo.None? {
        return V.Crash;
      }
      if ro.value.Number? && lo.value.Number? {
        var v := V.NumberOp(op, lo.value.value, ro.value.value);
        if v.Err? {
          return v.error;
        }
        var r := Alloc(Obj.Number(v.value));
        res := Push(r);
      } else if ro.value.Str? && lo.value.Str? {
        if op != Code.OpAdd {
          return V.UnsupportedOperation;
        }
        var r := Alloc(Obj.Str(lo.value.text + ro.value.text));
        res := Push(r);
      } else {
        res := V.UnsupportedOperation;
      }
    }

    /** execute_comparison. */
    method ExecComparison(op: int) returns (res: V.VMResult)
      requires Valid()
      modifies this, stack
      ensures Valid() && V.Out(Snapshot(), res) == V.ExecComparison(old(Snapshot()), op)
    {
      if !(1 <= sp <= V.StackSize) {
        return V.Crash;
      }
      var right := Pop();
      if !(1 <= sp <= V.StackSize) {
        return V.Crash;
      }
      var left := Pop();
      var ro := Deref(right);
      if ro.None? {
        return V.Crash;
      }
      if ro.value.Number? {
        var lo := Deref(left);
        if lo.None? {
          return V.Crash;
        }
        if lo.value.Number? {
          var b := V.NumberCompare(op, lo.value.value, ro.value.value);
          if b.Err? {
            return b.error;
          }
          res := Push(V.BoolRef(b.value));
          return;
        }
      }
      if op == Code.OpEq {
        res := Push(V.BoolRef(right == left));
      } else if op == Code.OpNotEq {
        res := Push(V.BoolRef(right != left));
      } else {
        res := V.UnsupportedOperation;
      }
    }

    /** execute_bang_operator. */
    method ExecBang() returns (res: V.VMResult)
      requires Valid()
      modifies this, stack
      ensures Valid() && V.Out(Snapshot(), res) == V.ExecBang(old(Snapshot()))
    {
      if !(1 <= sp <= V.StackSize) {
        return V.Crash;
      }
      var operand := Pop();
      res := Push(V.BangOf(operand));
    }

    /** execute_minus_operator. */
    method ExecMinus() returns (res: V.VMResult)
      requires Valid()
      modifies this, stack
      ensures Valid() && V.Out(Snapshot(), res) == V.ExecMinus(old(Snapshot()))
    {
      if !(1 <= sp <= V.StackSize) {
        return V.Crash;
      }
      var operand := Pop();
      var o := Deref(operand);
      if o.None? {
        return V.Crash;
      }
      if !o.value.Number? {
        return V.UnsupportedType;
      }
      var r := Alloc(Obj.Number(-o.value.value));
      res := Push(r);
    }

    // -------------------------------------------------------------- jumps, globals and locals

    method ExecJmp(ins: seq<int>, ip: nat) returns (res: V.VMResult)
      requires Valid()
      modifies this
      ensures Valid() && V.Out(Snapshot(), res) == V.ExecJmp(old(Snapshot()), ins, ip)
    {
      if ip + 3 > |ins| {
        return V.Crash;
      }
      var pos: int := BigEndian.ReadUint16(ins, ip + 1);
      SetIp(pos - 1);
      res := V.VmOk;
    }

    method ExecJmpIfFalse(ins: seq<int>, ip: nat) returns (res: V.VMResult)
      requires Valid()
      modifies this
      ensures Valid() && V.Out(Snapshot(), res) == V.ExecJmpIfFalse(old(Snapshot()), ins, ip)
    {
      if ip + 3 > |ins| {
        return V.Crash;
      }
      var pos: int := BigEndian.ReadUint16(ins, ip + 1);
      Advance(2);
      if !(1 <= sp <= V.StackSize) {
        return V.Crash;
      }
      var c := Pop();
      var o := Deref(c);
      if o.None? {
        return V.Crash;
      }
      if !V.Truthy(o.value) {
        SetIp(pos - 1);
      }
      res := V.VmOk;
    }

    method ExecSetGlobal(ins: seq<int>, ip: nat) returns (res: V.VMResult)
      requires Valid()
      modifies this, globals
      ensures Valid() && V.Out(Snapshot(), res) == V.ExecSetGlobal(old(Snapshot()), ins, ip)
    {
      if ip + 3 > |ins| {
        return V.Crash;
      }
      var k := BigEndian.ReadUint16(ins, ip + 1);
      Advance(2);
      if !(1 <= sp <= V.StackSize) {
        return V.Crash;
      }
      var r := Pop();
      ghost var before := Snapshot();
      globals[k] := r;
      assert globals[..] == before.globals[k := r];
      res := V.VmOk;
    }

    method ExecGetGlobal(ins: seq<int>, ip: nat) returns (res: V.VMResult)
      requires Valid()
      modifies this, stack
      ensures Valid() && V.Out(Snapshot(), res) == V.ExecGetGlobal(old(Snapshot()), ins, ip)
    {
      if ip + 3 > |ins| {
        return V.Crash;
      }
      var k := BigEndian.ReadUint16(ins, ip + 1);
      Advance(2);
      res := Push(globals[k]);
    }

    method ExecSetLocal(ins: seq<int>, ip: nat) returns (res: V.VMResult)
      requires Valid()
      modifies this, stack
      ensures Valid() && V.Out(Snapshot(), res) == V.ExecSetLocal(old(Snapshot()), ins, ip)
    {
      if ip + 2 > |ins| {
        return V.Crash;
      }
      var k := CInt.Low8(ins[ip + 1]);
      Advance(1);
      if !(1 <= sp <= V.StackSize) {
        return V.Crash;
      }
      var r := Pop();
      var slot := Current().basePointer + k;
      if slot >= V.StackSize {
        return V.Crash;
      }
      ghost var before := Snapshot();
      stack[slot] := r;
      assert stack[..] == before.stack[slot := r];
      res := V.VmOk;
    }

    method ExecGetLocal(ins: seq<int>, ip: nat) returns (res: V.VMResult)
      requires Valid()
      modifies this, stack
      ensures Valid() && V.Out(Snapshot(), res) == V.ExecGetLocal(old(Snapshot()), ins, ip)
    {
      if ip + 2 > |ins| {
        return V.Crash;
      }
      var k := CInt.Low8(ins[ip + 1]);
      Advance(1);
      var slot := Current().basePointer + k;
      if slot >= V.StackSize {
        return V.Crash;
      }
      res := Push(stack[slot]);
    }

    // -------------------------------------------------------------- arrays, hashes, indexing

    /** OP_ARRAY with vm_build_array. */
    method ExecArray(ins: seq<int>, ip: nat) returns (res: V.VMResult)
      requires Valid()
      modifies this, stack
      ensures Valid() && V.Out(Snapshot(), res) == V.ExecArray(old(Snapshot()), ins, ip)
    {
      if ip + 3 > |ins| {
        return V.Crash;
      }
      var n := BigEndian.ReadUint16(ins, ip + 1);
      Advance(2);
      if n > sp {
        var r := Alloc(Obj.Array([]));
        sp := V.SizeSub(sp, n);
        res := Push(r);
        return;
      }
      if sp > V.StackSize {
        return V.Crash;
      }
      var es := Values(sp - n, sp);
      if es.None? {
        return V.Crash;
      }
      var r := Alloc(Obj.Array(es.value));
      sp := sp - n;
      res := Push(r);
    }

    /** vm_build_hash: the pairs from stack[start..end], two slots at a time. */
    method BuildHash(start: nat, end: nat) returns (pairs: Result<map<Obj.HashKey, (Obj.Object, Obj.Object)>, V.VMResult>)
      requires Valid() && start <= end <= V.StackSize
      ensures pairs == V.HashFrom(Snapshot(), start, end, map[])
    {
      var acc: map<Obj.HashKey, (Obj.Object, Obj.Object)> := map[];
      var i := start;
      while i < end
        invariant start <= i
        invariant V.HashFrom(Snapshot(), i, end, acc) == V.HashFrom(Snapshot(), start, end, map[])
        decreases end - i
      {
        if i + 1 >= V.StackSize {
          return Err(V.Crash);
        }
        var key := Deref(stack[i]);
        if key.None? {
          return Err(V.Crash);
        }
        var k := V.VmHashKey(key.value);
        if k.None? {
          return Err(V.UnhashableObject);
        }
        var value := Deref(stack[i + 1]);
        if value.None? {
          return Err(V.Crash);
        }
        acc := acc[k.value := (key.value, value.value)];
        i := i + 2;
      }
      pairs := Ok(acc);
    }

    /** OP_HASH. */
    method ExecHash(ins: seq<int>, ip: nat) returns (res: V.VMResult)
      requires Valid()
      modifies this, stack
      ensures Valid() && V.Out(Snapshot(), res) == V.ExecHash(old(Snapshot()), ins, ip)
    {
      if ip + 3 > |ins| {
        return V.Crash;
      }
      var n := BigEndian.ReadUint16(ins, ip + 1);
      Advance(2);
      if n > sp {
        var r := Alloc(Obj.Hash(map[]));
        sp := V.SizeSub(sp, n);
        res := Push(r);
        return;
      }
      if sp > V.StackSize {
        return V.Crash;
      }
      var pairs := BuildHash(sp - n, sp);
      if pairs.Err? {
        return pairs.error;
      }
      var r := Alloc(Obj.Hash(pairs.value));
      sp := sp - n;
      res := Push(r);
    }

    /** Array indexing, with the bound check for the empty array: null at or past the length. */
    method ArrayIndex(es: seq<Obj.Object>, v: real) returns (res: V.VMResult)
      requires Valid()
      modifies this, stack
      ensures Valid() && V.Out(Snapshot(), res) == V.ArrayIndex(old(Snapshot()), es, v)
    {
      var i := V.ToSize(v);
      if i >= |es| {
        res := Push(V.NullRef);
      } else {
        var r := Materialize(es[i]);
        res := Push(r);
      }
    }

    /** execute_hash_index. */
    method HashIndex(pairs: map<Obj.HashKey, (Obj.Object, Obj.Object)>, index: Obj.Object) returns (res: V.VMResult)
      requires Valid()
      modifies this, stack
      ensures Valid() && V.Out(Snapshot(), res) == V.HashIndex(old(Snapshot()), pairs, index)
    {
      var k := V.VmHashKey(index);
      if k.None? {
        return V.UnhashableObject;
      }
      if k.value !in pairs {
        res := Push(V.NullRef);
      } else {
        var r := Materialize(pairs[k.value].1);
        res := Push(r);
      }
    }

    /** OP_INDEX with execute_index_expression. */
    method ExecIndex() returns (res: V.VMResult)
      requires Valid()
      modifies this, stack
      ensures Valid() && V.Out(Snapshot(), res) == V.ExecIndex(old(Snapshot()))
    {
      if !(1 <= sp <= V.StackSize) {
        return V.Crash;
      }
      var index := Pop();
      if !(1 <= sp <= V.StackSize) {
        return V.Crash;
      }
      var left := Pop();
      var lo := Deref(left);
      if lo.None? {
        return V.Crash;
      }
      if !(lo.value.Array? || lo.value.Hash?) {
        return V.UnindexableObject;
      }
      var io := Deref(index);
      if io.None? {
        return V.Crash;
      }
      if lo.value.Array? {
        if io.value.Number? {
          res := ArrayIndex(lo.value.elements, io.value.value);
        } else {
          res := V.UnindexableObject;
        }
      } else {
        res := HashIndex(lo.value.pairs, io.value);
      }
    }

    // -------------------------------------------------------------- calls and returns

    /** call_builtin_function. */
    method CallBuiltin(index: nat, n: nat) returns (res: V.VMResult)
      requires Valid() && n <= sp
      modifies this, stack
      ensures Valid() && V.Out(Snapshot(), res) == V.CallBuiltin(old(Snapshot()), index, n)
    {
      if index >= |Builtins.Names| || sp > V.StackSize {
        return V.Crash;
      }
      var args := Values(sp - n, sp);
      if args.None? {
        return V.Crash;
      }
      var result := Builtins.Apply(index, args.value);
      var r;
      if (index == Builtins.FirstIndex || index == Builtins.LastIndex)
         && |args.value| == 1 && args.value[0].Array? && |args.value[0].elements| > 0
      {
        r := Materialize(result);
      } else {
        r := Alloc(result);
      }
      sp := sp - n;
      res := Push(r);
    }

    /** call_closure. */
    method CallClosure(callee: V.Ref, fn: Obj.Object, n: nat) returns (res: V.VMResult)
      requires Valid() && n <= sp
      modifies this
      ensures Valid() && V.Out(Snapshot(), res) == V.CallClosure(old(Snapshot()), callee, fn, n)
    {
      if !fn.CompiledFunction? {
        return V.Crash;
      }
      if n != fn.numParameters {
        return V.WrongNumberOfArguments;
      }
      var base := sp - n;
      frames := frames + [V.Frame(callee, -1, base)];
      sp := base + fn.numLocals;
      res := V.VmOk;
    }

    /** OP_CALL with execute_call. */
    method ExecCall(ins: seq<int>, ip: nat) returns (res: V.VMResult)
      requires Valid()
      modifies this, stack
      ensures Valid() && V.Out(Snapshot(), res) == V.ExecCall(old(Snapshot()), ins, ip)
    {
      if ip + 2 > |ins| {
        return V.Crash;
      }
      var n := CInt.Low8(ins[ip + 1]);
      Advance(1);
      if sp < n + 1 || sp - 1 - n >= V.StackSize {
        return V.Crash;
      }
      var callee := stack[sp - 1 - n];
      var o := Deref(callee);
      if o.None? {
        return V.Crash;
      }
      match o.value
      case Builtin(index) => res := CallBuiltin(index, n);
      case Closure(fn, _) => res := CallClosure(callee, fn, n);
      case _ => res := V.CallNonFunction;
    }

    /** pop_frame. */
    method PopFrame()
      requires Valid() && |frames| >= 2
      modifies this
      ensures Valid() && Snapshot() == V.PopFrame(old(Snapshot()))
    {
      frames := frames[..|frames| - 1];
    }

    /** The push after pop_frame has taken the last frame; a push that succeeds leaves no frame to run. */
    method LastFrameReturn(v: V.Ref) returns (res: V.VMResult)
      requires Valid()
      modifies this, stack
      ensures Valid() && V.Out(Snapshot(), res) == V.LastFrameReturn(old(Snapshot()), v)
    {
      res := Push(v);
      if res == V.VmOk {
        res := V.Crash;
      }
    }

    /** OP_RETURN_VALUE. */
    method ExecReturnValue() returns (res: V.VMResult)
      requires Valid()
      modifies this, stack
      ensures Valid() && V.Out(Snapshot(), res) == V.ExecReturnValue(old(Snapshot()))
    {
      if !(1 <= sp <= V.StackSize) {
        return V.Crash;
      }
      var v := Pop();
      var base := Current().basePointer;
      if |frames| < 2 {
        sp := V.SizeDec(base);
        res := LastFrameReturn(v);
        return;
      }
      PopFrame();
      sp := V.SizeDec(base);
      res := Push(v);
    }

    /** OP_RETURN. */
    method ExecReturn() returns (res: V.VMResult)
      requires Valid()
      modifies this, stack
      ensures Valid() && V.Out(Snapshot(), res) == V.ExecReturn(old(Snapshot()))
    {
      var base := Current().basePointer;
      if |frames| < 2 {
        sp := V.SizeDec(base);
        res := LastFrameReturn(V.NullRef);
        return;
      }
      PopFrame();
      sp := V.SizeDec(base);
      res := Push(V.NullRef);
    }

    /** OP_GET_BUILTIN. */
    method ExecGetBuiltin(ins: seq<int>, ip: nat) returns (res: V.VMResult)
      requires Valid()
      modifies this, stack
      ensures Valid() && V.Out(Snapshot(), res) == V.ExecGetBuiltin(old(Snapshot()), ins, ip)
    {
      if ip + 2 > |ins| {
        return V.Crash;
      }
      var k := CInt.Low8(ins[ip + 1]);
      Advance(1);
      if k >= |Builtins.Names| {
        return V.Crash;
      }
      var r := Alloc(Obj.Builtin(k));
      res := Push(r);
    }

    // -------------------------------------------------------------- closures and loops

    /** push_closure: the free variables copied from the stack one by one. */
    method PushClosure(k: nat, n: int) returns (res: V.VMResult)
      requires Valid()
      modifies this, stack
      ensures Valid() && V.Out(Snapshot(), res) == V.PushClosure(old(Snapshot()), k, n)
    {
      if k >= numConstants || n < 0 || n > V.MaxFree || n > sp || sp > V.StackSize {
        return V.Crash;
      }
      var free: seq<V.Ref> := [];
      for i := 0 to n
        invariant free == stack[sp - n..sp - n + i]
      {
        free := free + [stack[sp - n + i]];
      }
      var r := Alloc(Obj.Closure(heap[V.FirstConstant + k], free));
      sp := sp - n;
      res := Push(r);
    }

    /** OP_CLOSURE. */
    method ExecClosure(ins: seq<int>, ip: nat) returns (res: V.VMResult)
      requires Valid()
      modifies this, stack
      ensures Valid() && V.Out(Snapshot(), res) == V.ExecClosure(old(Snapshot()), ins, ip)
    {
      if ip + 4 > |ins| {
        return V.Crash;
      }
      var k := BigEndian.ReadUint16(ins, ip + 1);
      Advance(3);
      res := PushClosure(k, ins[ip + 3]);
    }

    /** The free variables of the current closure, as Vm.CurrentFree gives them. */
    function CurrentFree(): (r: Option<seq<V.Ref>>)
      requires Valid()
      reads this
    {
      match Deref(Current().closure)
      case Some(Closure(_, free)) => Some(free)
      case _ => None
    }

    /** OP_GET_FREE. */
    method ExecGetFree(ins: seq<int>, ip: nat) returns (res: V.VMResult)
      requires Valid()
      modifies this, stack
      ensures Valid() && V.Out(Snapshot(), res) == V.ExecGetFree(old(Snapshot()), ins, ip)
    {
      if ip + 2 > |ins| {
        return V.Crash;
      }
      var k := CInt.Low8(ins[ip + 1]);
      Advance(1);
      var free := CurrentFree();
      if free.None? || k >= |free.value| {
        return V.Crash;
      }
      res := Push(free.value[k]);
    }

    /** OP_SET_FREE: the memcpy of the new value over the free variable's object. */
    method ExecSetFree(ins: seq<int>, ip: nat) returns (res: V.VMResult)
      requires Valid()
      modifies this
      ensures Valid() && V.Out(Snapshot(), res) == V.ExecSetFree(old(Snapshot()), ins, ip)
    {
      if ip + 2 > |ins| {
        return V.Crash;
      }
      var k := CInt.Low8(ins[ip + 1]);
      Advance(1);
      if !(1 <= sp <= V.StackSize) {
        return V.Crash;
      }
      var v := Pop();
      var free := CurrentFree();
      if free.None? {
        return V.Crash;
      }
      if k >= |free.value| || Deref(free.value[k]).None? || Deref(v).None? {
        return V.Crash;
      }
      heap := heap[free.value[k] := heap[v]];
      res := V.VmOk;
    }

    /** OP_LOOP. */
    method ExecLoop() returns (res: V.VMResult)
      requires Valid()
      modifies this
      ensures Valid() && V.Out(Snapshot(), res) == V.ExecLoop(old(Snapshot()))
    {
      if !(1 <= sp <= V.StackSize) {
        return V.Crash;
      }
      var c := Pop();
      var o := Deref(c);
      if !(o.Some? && o.value.Closure? && o.value.fn.CompiledLoop?) {
        return V.Crash;
      }
      frames := frames + [V.Frame(c, -1, sp)];
      sp := sp + o.value.fn.numLocals;
      res := V.VmOk;
    }

    /** OP_CONTINUE. */
    method ExecContinue() returns (res: V.VMResult)
      requires Valid()
      modifies this
      ensures Valid() && V.Out(Snapshot(), res) == V.ExecContinue(old(Snapshot()))
    {
      if |frames| < 2 {
        return V.Crash;
      }
      var base := Current().basePointer;
      PopFrame();
      sp := base;
      res := V.VmOk;
    }

    /** OP_BREAK. */
    method ExecBreak(ins: seq<int>, ip: nat) returns (res: V.VMResult)
      requires Valid()
      modifies this
      ensures Valid() && V.Out(Snapshot(), res) == V.ExecBreak(old(Snapshot()), ins, ip)
    {
      if ip + 2 > |ins| || |frames| < 2 {
        return V.Crash;
      }
      var base := Current().basePointer;
      PopFrame();
      sp := base;
      SetIp(ins[ip + 1] % 0x1_0000);
      res := V.VmOk;
    }

    // -------------------------------------------------------------- the loop

    /** OP_CONSTANT. */
    method ExecConstant(ins: seq<int>, ip: nat) returns (res: V.VMResult)
      requires Valid()
      modifies this, stack
      ensures Valid() && V.Out(Snapshot(), res) == V.ExecConstant(old(Snapshot()), ins, ip)
    {
      if ip + 3 > |ins| {
        return V.Crash;
      }
      var k := BigEndian.ReadUint16(ins, ip + 1);
      if k >= numConstants {
        return V.Crash;
      }
      res := Push(V.FirstConstant + k);
      if res != V.VmOk {
        return;
      }
      Advance(2);
    }

    method ExecStackOp(ins: seq<int>, ip: nat, op: int) returns (res: V.VMResult)
      requires Valid()
      modifies this, stack, globals
      ensures Valid() && V.Out(Snapshot(), res) == V.ExecStackOp(old(Snapshot()), ins, ip, op)
    {
      if op == Code.OpConstant {
        res := ExecConstant(ins, ip);
      } else if op == Code.OpPop {
        if !(1 <= sp <= V.StackSize) {
          return V.Crash;
        }
        var _ := Pop();
        res := V.VmOk;
      } else if op == Code.OpTrue {
        res := Push(V.TrueRef);
      } else if op == Code.OpFalse {
        res := Push(V.FalseRef);
      } else if op == Code.OpNull {
        res := Push(V.NullRef);
      } else if op == Code.OpSetGlobal {
        res := ExecSetGlobal(ins, ip);
      } else if op == Code.OpGetGlobal {
        res := ExecGetGlobal(ins, ip);
      } else if op == Code.OpSetLocal {
        res := ExecSetLocal(ins, ip);
      } else if op == Code.OpGetLocal {
        res := ExecGetLocal(ins, ip);
      } else {
        res := V.VmOk;
      }
    }

    method ExecOperatorOp(ins: seq<int>, ip: nat, op: int) returns (res: V.VMResult)
      requires Valid()
      modifies this, stack
      ensures Valid() && V.Out(Snapshot(), res) == V.ExecOperatorOp(old(Snapshot()), ins, ip, op)
    {
      if V.IsBinaryOp(op) {
        res := ExecBinary(op);
      } else if op == Code.OpGreater || op == Code.OpEq || op == Code.OpNotEq {
        res := ExecComparison(op);
      } else if op == Code.OpBang {
        res := ExecBang();
      } else if op == Code.OpMinus {
        res := ExecMinus();
      } else if op == Code.OpJmp {
        res := ExecJmp(ins, ip);
      } else if op == Code.OpJmpIfFalse {
        res := ExecJmpIfFalse(ins, ip);
      } else {
        res := V.VmOk;
      }
    }

    method ExecObjectOp(ins: seq<int>, ip: nat, op: int) returns (res: V.VMResult)
      requires Valid()
      modifies this, stack
      ensures Valid() && V.Out(Snapshot(), res) == V.ExecObjectOp(old(Snapshot()), ins, ip, op)
    {
      if op == Code.OpArray {
        res := ExecArray(ins, ip);
      } else if op == Code.OpHash {
        res := ExecHash(ins, ip);
      } else if op == Code.OpIndex {
        res := ExecIndex();
      } else if op == Code.OpCall {
        res := ExecCall(ins, ip);
      } else if op == Code.OpReturnValue {
        res := ExecReturnValue();
      } else if op == Code.OpReturn {
        res := ExecReturn();
      } else if op == Code.OpGetBuiltin {
        res := ExecGetBuiltin(ins, ip);
      } else {
        res := V.VmOk;
      }
    }

    method ExecClosureOp(ins: seq<int>, ip: nat, op: int) returns (res: V.VMResult)
      requires Valid()
      modifies this, stack
      ensures Valid() && V.Out(Snapshot(), res) == V.ExecClosureOp(old(Snapshot()), ins, ip, op)
    {
      if op == Code.OpClosure {
        res := ExecClosure(ins, ip);
      } else if op == Code.OpGetFree {
        res := ExecGetFree(ins, ip);
      } else if op == Code.OpSetFree {
        res := ExecSetFree(ins, ip);
      } else if op == Code.OpCurrentClosure {
        res := Push(Current().closure);
      } else if op == Code.OpLoop {
        res := ExecLoop();
      } else if op == Code.OpContinue {
        res := ExecContinue();
      } else if op == Code.OpBreak {
        res := ExecBreak(ins, ip);
      } else if op == Code.OpCount {
        res := V.Crash;
      } else {
        res := V.VmOk;
      }
    }

    /** One turn of run_vm's loop. */
    method Step(ins: seq<int>) returns (res: V.VMResult)
      requires Valid() && V.MoreToRun(Snapshot(), ins)
      modifies this, stack, globals
      ensures Valid() && V.Out(Snapshot(), res) == V.Step(old(Snapshot()), ins)
    {
      var ip := Current().ip + 1;
      SetIp(ip);
      if ip < 0 {
        return V.Crash;
      }
      var op := ins[ip];
      if V.IsStackOp(op) {
        res := ExecStackOp(ins, ip, op);
      } else if V.IsOperatorOp(op) {
        res := ExecOperatorOp(ins, ip, op);
      } else if V.IsObjectOp(op) {
        res := ExecObjectOp(ins, ip, op);
      } else {
        res := ExecClosureOp(ins, ip, op);
      }
    }

    /** frame_instructions of the current frame, as Vm.FrameInstructions gives them. */
    function FrameInstructions(): Option<seq<int>>
      requires Valid()
      reads this
    {
      match Deref(Current().closure)
      case Some(Closure(CompiledFunction(ins, _, _), _)) => Some(ins)
      case Some(Closure(CompiledLoop(ins, _), _)) => Some(ins)
      case _ => None
    }

    /**
     * One test of run_vm's loop condition and, when it holds, one turn:
     * stop says the run ended here, with res as Vm.Run reports it; else the
     * run goes on from the new state with one unit of fuel less.
     */
    method Turn(ghost final: V.Outcome, f: nat) returns (stop: bool, res: Option<V.VMResult>)
      requires Valid() && V.Run(Snapshot(), f) == final
      modifies this, stack, globals
      ensures Valid()
      ensures stop ==> V.Reports(final, Snapshot(), res)
      ensures !stop ==> f > 0 && V.Run(Snapshot(), f - 1) == final
    {
      ghost var s := Snapshot();
      var ins := FrameInstructions();
      assert ins == V.FrameInstructions(s);
      V.RunStops(s, f);
      if ins.None? {
        return true, Some(V.Crash);
      }
      if !(Current().ip < |ins.value| - 1) {
        return true, Some(V.VmOk);
      }
      if f == 0 {
        return true, None;
      }
      var r := Step(ins.value);
      V.RunSteps(s, f, ins.value, Snapshot(), r);
      if r != V.VmOk {
        return true, Some(r);
      }
      stop, res := false, None;
    }

    /**
     * run_vm for at most fuel turns of its loop: the result it returns, or
     * None when the fuel is spent first; the state is the one Vm.Run reaches.
     */
    method RunVm(fuel: nat) returns (res: Option<V.VMResult>)
      requires Valid()
      modifies this, stack, globals
      ensures Valid()
      ensures V.Reports(V.Run(old(Snapshot()), fuel), Snapshot(), res)
    {
      ghost var final := V.Run(Snapshot(), fuel);
      var f := fuel;
      while true
        invariant Valid() && V.Run(Snapshot(), f) == final
        decreases f
      {
        var stop;
        stop, res := Turn(final, f);
        if stop {
          return;
        }
        f := f - 1;
      }
    }

    /** vm_last_popped_stack_elem. */
    method LastPopped() returns (r: V.Ref)
      requires Valid() && sp < V.StackSize
      ensures r == V.LastPopped(Snapshot())
    {
      r := stack[sp];
    }

    /** stack_top. */
    method StackTop() returns (r: V.Ref)
      requires Valid() && sp <= V.StackSize
      ensures r == V.StackTop(Snapshot())
    {
      if sp == 0 {
        return V.NullPtr;
      }
      r := stack[sp - 1];
    }
  }
}
