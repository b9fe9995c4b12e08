/**
 * Runtime objects (src/object/object.h, src/object/object.c): the object kinds,
 * their type names, hash keys and the `inspect` printer.
 */
module Object {
  import opened Wrappers
  import Ast
  import CInt
  import Fmt

  /** ObjectType in enum order; CompiledLoopObj is the kind vm.c and file_loader.c use but object.h does not list. */
  datatype ObjectType =
    | NumberObj | BooleanObj | NullObj | ReturnObj | ErrorObj | FunctionObj | StringObj
    | BuiltinObj | ArrayObj | HashObj | ContinueObj | BreakObj | CompiledFunctionObj | ClosureObj
    | CompiledLoopObj

  /** The enumerator's value; COMPILED_LOOP_OBJ has no enumerator and is numbered after CLOSURE_OBJ here. */
  function TypeCode(t: ObjectType): nat
  {
    match t
    case NumberObj => 0     case BooleanObj => 1   case NullObj => 2       case ReturnObj => 3
    case ErrorObj => 4      case FunctionObj => 5  case StringObj => 6     case BuiltinObj => 7
    case ArrayObj => 8      case HashObj => 9      case ContinueObj => 10  case BreakObj => 11
    case CompiledFunctionObj => 12                 case ClosureObj => 13   case CompiledLoopObj => 14
  }

  /** ObjectTypeString: twelve names; the number kind is still called INTEGER_OBJ. */
  const TypeStrings: seq<string> := [
    "INTEGER_OBJ", "BOOLEAN_OBJ", "NULL_OBJ", "RETURN_OBJ", "ERROR_OBJ", "FUNCTION_OBJ",
    "STRING_OBJ", "BUILTIN_OBJ", "ARRAY_OBJ", "HASH_OBJ", "CONTINUE_OBJ", "BREAK_OBJ"]

  /**
   * ObjectTypeString[type] in an error message.  The table stops before the
   * compiled-function, closure and loop kinds; that read past its end is
   * rendered as the empty name.
   */
  function TypeName(t: ObjectType): (s: string)
    ensures TypeCode(t) < |TypeStrings| ==> s == TypeStrings[TypeCode(t)]
  {
    if TypeCode(t) < |TypeStrings| then TypeStrings[TypeCode(t)] else ""
  }

  /** A hash key: the int32 key of a number or boolean, or a string's, whose crc32 value is not modelled. */
  datatype HashKey = IntKey(k: int) | StringKey(s: string)

  /**
   * Objects.  A function keeps the index of its environment in the
   * evaluator's environment heap; a closure keeps references into the VM's
   * object heap for its free variables.
   */
  datatype Object =
    | Number(value: real)
    | Boolean(bval: bool)
    | Null
    | ReturnValue(inner: Option<Object>)
    | Error(message: string)
    | Function(params: seq<string>, body: seq<Ast.Stmt>, env: nat)
    | Str(text: string)
    | Builtin(index: nat)
    | Array(elements: seq<Object>)
    | Hash(pairs: map<HashKey, (Object, Object)>)
    | Continue
    | Break
    | CompiledFunction(instructions: seq<int>, numLocals: nat, numParameters: nat)
    | CompiledLoop(instructions: seq<int>, numLocals: nat)
    | Closure(fn: Object, free: seq<nat>)
  {
    function Type(): ObjectType
    {
      match this
      case Number(_) => NumberObj                 case Boolean(_) => BooleanObj
      case Null => NullObj                        case ReturnValue(_) => ReturnObj
      case Error(_) => ErrorObj                   case Function(_, _, _) => FunctionObj
      case Str(_) => StringObj                    case Builtin(_) => BuiltinObj
      case Array(_) => ArrayObj                   case Hash(_) => HashObj
      case Continue => ContinueObj                case Break => BreakObj
      case CompiledFunction(_, _, _) => CompiledFunctionObj
      case CompiledLoop(_, _) => CompiledLoopObj  case Closure(_, _) => ClosureObj
    }
  }

  // ---------------------------------------------------------------- hash keys

  /** get_int_hash_key: `(long)value << NUMBER_OBJ` (a shift by 0), converted to the int32_t result. */
  function NumberKey(v: real): int
  {
    CInt.Wrap32(CInt.Trunc(v))
  }

  /**
   * get_hash_key as written: booleans shift their value left by BOOLEAN_OBJ
   * (1), numbers truncate, and every other kind gets -1, the value callers
   * test for "unhashable".
   */
  function HashKeyAsWritten(o: Object): HashKey
  {
    match o
    case Str(s) => StringKey(s)
    case Boolean(b) => IntKey(if b then 2 else 0)
    case Number(v) => IntKey(NumberKey(v))
    case _ => IntKey(-1)
  }

  /** The number -1 gets the "unhashable" key -1, exactly like an array or a function. */
  lemma {:induction false} MinusOneLooksUnhashable()
    ensures HashKeyAsWritten(Number(-1.0)) == IntKey(-1)
    ensures HashKeyAsWritten(Number(-1.0)) == HashKeyAsWritten(Array([]))
  {
    assert CInt.Trunc(-1.0) == -1;
  }

  predicate Hashable(o: Object)
  {
    o.Str? || o.Boolean? || o.Number?
  }

  /** get_hash_key with the "unhashable" answer kept apart from every key. */
  function HashKeyOf(o: Object): (r: Option<HashKey>)
    ensures r.Some? <==> Hashable(o)
    ensures r.Some? ==> r.value == HashKeyAsWritten(o)
  {
    if Hashable(o) then Some(HashKeyAsWritten(o)) else None
  }

  /** Booleans hash to value << 1, numbers to their truncation, and keys carry no type tag. */
  lemma {:induction false} HashKeyFacts()
    ensures HashKeyOf(Boolean(true)) == Some(IntKey(2)) && HashKeyOf(Boolean(false)) == Some(IntKey(0))
    ensures HashKeyOf(Number(0.0)) == HashKeyOf(Boolean(false))
    ensures HashKeyOf(Number(2.0)) == HashKeyOf(Boolean(true))
    ensures HashKeyOf(Number(2.75)) == HashKeyOf(Number(2.0))
    ensures HashKeyOf(Number(-1.0)) == Some(IntKey(-1))
  {
    assert CInt.Trunc(0.0) == 0 && CInt.Trunc(2.0) == 2 && CInt.Trunc(2.75) == 2 && CInt.Trunc(-1.0) == -1;
  }

  /** A number in int32 range hashes to its integer part. */
  lemma {:induction false} NumberKeyIsTruncation(v: real)
    requires -0x8000_0000 as real <= v < 0x8000_0000 as real
    ensures HashKeyOf(Number(v)) == Some(IntKey(CInt.Trunc(v)))
  {
    var n := CInt.Trunc(v);
    assert -0x8000_0000 <= n < 0x8000_0000 by {
      if v < 0.0 { assert (-v) < CInt.Abs(n) as real + 1.0 && -v <= 0x8000_0000 as real; }
    }
  }

  /** Exactly strings, booleans and numbers are hashable; equal objects have equal keys. */
  lemma {:induction false} UnhashableKinds(o: Object)
    ensures HashKeyOf(o).None? <==> !(o.Str? || o.Boolean? || o.Number?)
    ensures o.Str? ==> HashKeyOf(o) == Some(StringKey(o.text))
  {}

  // ---------------------------------------------------------------- inspect

  /** Objects inspect can print (a hash's pairs are printed in the hashmap's iteration order, which is not modelled). */
  predicate Inspectable(o: Object)
  {
    match o
    case Hash(_) => false
    case ReturnValue(v) => v.Some? && Inspectable(v.value)
    case Array(es) => forall i | 0 <= i < |es| :: Inspectable(es[i])
    case _ => true
  }

  /**
   * The text inspect_object appends for o.  Numbers print as the `(int)` of
   * the value; break, continue, compiled functions, loops and closures print
   * nothing, and a return value prints its value.
   */
  function Inspect(o: Object): string
    requires Inspectable(o)
    decreases o, 1
  {
    match o
    case Number(v) => Fmt.IntToString(CInt.Wrap32(CInt.Trunc(v)))
    case Boolean(b) => if b then "true" else "false"
    case ReturnValue(v) => Inspect(v.value)
    case Null => "null"
    case Error(m) => "ERROR: " + m + "\n"
    case Function(ps, _, _) => "fn (" + Ast.Join(ps, ", ") + ")"
    case Str(s) => s
    case Builtin(_) => "builtin function"
    case Array(es) => "[" + Ast.Join(InspectAll(es), ", ") + "]"
    case _ => ""
  }

  /** Each element's own text, in order. */
  function InspectAll(es: seq<Object>): (r: seq<string>)
    requires forall j | 0 <= j < |es| :: Inspectable(es[j])
    ensures |r| == |es| && forall j | 0 <= j < |es| :: r[j] == Inspect(es[j])
    decreases es, 0
  {
    if es == [] then [] else [Inspect(es[0])] + InspectAll(es[1..])
  }

  lemma {:induction false} JoinSnoc(parts: seq<string>, p: string, sep: string)
    ensures Ast.Join(parts + [p], sep) == if parts == [] then p else Ast.Join(parts, sep) + sep + p
    decreases |parts|
  {
    if |parts| >= 2 {
      JoinSnoc(parts[1..], p, sep);
      assert (parts + [p])[1..] == parts[1..] + [p];
    } else if |parts| == 1 {
      assert (parts + [p])[1..] == [p];
    }
  }

  /** ResizableBuffer: the text inspect appends to. */
  class Buffer {
    var text: string

    constructor ()
      ensures text == ""
    {
      text := "";
    }

    /** inspect_array_object: appends "[", the elements separated by ", ", then "]". */
    method InspectArray(es: seq<Object>)
      requires forall j | 0 <= j < |es| :: Inspectable(es[j])
      modifies this
      ensures text == old(text) + Inspect(Array(es))
    {
      ghost var start := text;
      ghost var all := InspectAll(es);
      text := text + "[";
      var i := 0;
      while i < |es|
        invariant 0 <= i <= |es|
        invariant text == ArrayPrefix(start, all, i)
      {
        var piece := Inspect(es[i]);
        ArrayPrefixStep(start, all, i);
        text := text + piece;
        if i < |es| - 1 {
          text := text + ", ";
        }
        i := i + 1;
      }
      ArrayPrefixDone(start, all);
      InspectArrayText(es);
      text := text + "]";
    }
  }

  /** What inspect_array_object has appended after i elements. */
  function ArrayPrefix(start: string, all: seq<string>, i: nat): string
    requires i <= |all|
  {
    start + "[" + Ast.Join(all[..i], ", ") + (if 0 < i < |all| then ", " else "")
  }

  lemma {:induction false} ArrayPrefixStep(start: string, all: seq<string>, i: nat)
    requires i < |all|
    ensures ArrayPrefix(start, all, i + 1) ==
      ArrayPrefix(start, all, i) + all[i] + (if i < |all| - 1 then ", " else "")
  {
    var joined := Ast.Join(all[..i], ", ");
    JoinSnoc(all[..i], all[i], ", ");
    assert all[..i] + [all[i]] == all[..i + 1];
    if i == 0 {
      assert ArrayPrefix(start, all, 0) == start + "[";
      assert Ast.Join(all[..1], ", ") == all[0];
    } else {
      assert ArrayPrefix(start, all, i) == start + "[" + joined + ", ";
      assert Ast.Join(all[..i + 1], ", ") == joined + ", " + all[i];
    }
  }

  lemma {:induction false} ArrayPrefixDone(start: string, all: seq<string>)
    ensures ArrayPrefix(start, all, |all|) == start + "[" + Ast.Join(all, ", ")
  {
    assert all[..|all|] == all;
  }

  lemma {:induction false} InspectArrayText(es: seq<Object>)
    requires forall j | 0 <= j < |es| :: Inspectable(es[j])
    ensures Inspectable(Array(es))
    ensures Inspect(Array(es)) == "[" + Ast.Join(InspectAll(es), ", ") + "]"
  {
  }

  /** Booleans print as true and false, null as null, a string as its characters. */
  lemma {:induction false} InspectScalars()
    ensures Inspect(Boolean(true)) == "true" && Inspect(Boolean(false)) == "false"
    ensures Inspect(Null) == "null"
    ensures Inspect(Str("monkey")) == "monkey"
  {}

  /** [1, 2] prints as "[1, 2]". */
  lemma {:induction false} InspectArrayExample()
    ensures Inspect(Array([Number(1.0), Number(2.0)])) == "[1, 2]"
  {
    assert CInt.Trunc(1.0) == 1 && CInt.Trunc(2.0) == 2;
    assert Fmt.NatToString(1) == "1" && Fmt.NatToString(2) == "2";
    var es := [Number(1.0), Number(2.0)];
    assert InspectAll(es) == ["1", "2"];
    assert Ast.Join(["1", "2"], ", ") == "1" + ", " + "2";
  }
}
