/**
 * The builtin functions of src/object/builtins.c: argument checks, len,
 * first, last, push, shift, rest and the name table.  A builtin object holds
 * its index in that table.
 */
module Builtins {
  import opened Wrappers
  import opened Object
  import Fmt
  import DynArray

  /** builtin_definitions, in table order. */
  const Names: seq<string> := ["len", "puts", "first", "last", "push", "shift", "rest"]

  const LenIndex: nat := 0
  const PutsIndex: nat := 1
  const FirstIndex: nat := 2
  const LastIndex: nat := 3
  const PushIndex: nat := 4
  const ShiftIndex: nat := 5
  const RestIndex: nat := 6

  /** The `%ld` message of check_args_len. */
  function ArgsLenMessage(expected: nat, got: nat): string
  {
    "wrong number of arguments: Expected " + Fmt.NatToString(expected) + " got " + Fmt.NatToString(got)
  }

  /** The message of unsupported_arg_error: the function's name and the argument's type name. */
  function UnsupportedMessage(fnName: string, o: Object): string
  {
    "argument to '" + fnName + "' not supported, got " + TypeName(o.Type())
  }

  /** check_args_len: an error object exactly when the count differs, NULL otherwise. */
  function CheckArgsLen(args: seq<Object>, expected: nat): (r: Option<Object>)
    ensures r.Some? <==> |args| != expected
    ensures r.Some? ==> r.value.Error? && r.value.message == ArgsLenMessage(expected, |args|)
  {
    if |args| != expected then Some(Error(ArgsLenMessage(expected, |args|))) else None
  }

  /**
   * unsupported_arg_error: an error unless the argument has the expected
   * type; a negative expected code (len passes -1) always gives the error.
   */
  function UnsupportedArgError(o: Object, expected: int, fnName: string): (r: Option<Object>)
    ensures r.Some? <==> (expected < 0 || TypeCode(o.Type()) != expected)
    ensures r.Some? ==> r.value.Error? && r.value.message == UnsupportedMessage(fnName, o)
  {
    if expected < 0 || TypeCode(o.Type()) != expected then Some(Error(UnsupportedMessage(fnName, o))) else None
  }

  /** len: a string's length or an array's element count as a number. */
  function Len(args: seq<Object>): Object
  {
    if |args| != 1 then Error(ArgsLenMessage(1, |args|))
    else match args[0]
      case Str(s) => Number(|s| as real)
      case Array(es) => Number(|es| as real)
      case _ => Error(UnsupportedMessage("len", args[0]))
  }

  /** builtin_puts: an error without arguments, null otherwise (the printing is not modelled). */
  function Puts(args: seq<Object>): Object
  {
    if |args| == 0 then Error(ArgsLenMessage(1, 0)) else Null
  }

  /** first: element 0 of an array, or null when it is empty. */
  function First(args: seq<Object>): Object
  {
    if |args| != 1 then Error(ArgsLenMessage(1, |args|))
    else if !args[0].Array? then Error(UnsupportedMessage("first", args[0]))
    else if |args[0].elements| < 1 then Null
    else args[0].elements[0]
  }

  /** last: element len-1 of an array, or null when it is empty. */
  function Last(args: seq<Object>): Object
  {
    if |args| != 1 then Error(ArgsLenMessage(1, |args|))
    else if !args[0].Array? then Error(UnsupportedMessage("last", args[0]))
    else if |args[0].elements| < 1 then Null
    else args[0].elements[|args[0].elements| - 1]
  }

  /**
   * builtin_append: a fresh array with the new element after (push) or before
   * (shift) the old ones.  Both report a wrong first argument under the name
   * "push".
   */
  function Append(args: seq<Object>, atFront: bool): Object
  {
    if |args| != 2 then Error(ArgsLenMessage(2, |args|))
    else if !args[0].Array? then Error(UnsupportedMessage("push", args[0]))
    else if atFront then Array([args[1]] + args[0].elements)
    else Array(args[0].elements + [args[1]])
  }

  /** rest: a fresh array of elements 1..len-1, or null for an empty array. */
  function Rest(args: seq<Object>): Object
  {
    if |args| != 1 then Error(ArgsLenMessage(1, |args|))
    else if !args[0].Array? then Error(UnsupportedMessage("rest", args[0]))
    else if |args[0].elements| < 1 then Null
    else Array(args[0].elements[1..])
  }

  /** Calling the builtin at a table index: the function pointer the Builtin object holds. */
  function Apply(index: nat, args: seq<Object>): Object
    requires index < |Names|
  {
    if index == LenIndex then Len(args)
    else if index == PutsIndex then Puts(args)
    else if index == FirstIndex then First(args)
    else if index == LastIndex then Last(args)
    else if index == PushIndex then Append(args, false)
    else if index == ShiftIndex then Append(args, true)
    else Rest(args)
  }

  // ---------------------------------------------------------------- what the builtins promise

  /** Wrong argument counts are reported by every builtin with the expected and actual counts. */
  lemma {:induction false} WrongCountIsError(index: nat, args: seq<Object>)
    requires index < |Names| && index != PutsIndex
    requires |args| != (if index == PushIndex || index == ShiftIndex then 2 else 1)
    ensures Apply(index, args).Error?
    ensures Apply(index, args).message ==
      ArgsLenMessage(if index == PushIndex || index == ShiftIndex then 2 else 1, |args|)
  {}

  /** len of a string or an array is its length; any other argument is an error naming its type. */
  lemma {:induction false} LenCases(o: Object)
    ensures o.Str? ==> Len([o]) == Number(|o.text| as real)
    ensures o.Array? ==> Len([o]) == Number(|o.elements| as real)
    ensures !o.Str? && !o.Array? ==> Len([o]) == Error(UnsupportedMessage("len", o))
  {}

  /** first, last and rest accept exactly one array and give null for the empty array. */
  lemma {:induction false} EmptyArrayGivesNull()
    ensures First([Array([])]) == Null && Last([Array([])]) == Null && Rest([Array([])]) == Null
  {}

  /** A non-array argument to first, last or rest is an error naming the builtin and the type. */
  lemma {:induction false} NonArrayIsError(o: Object)
    requires !o.Array?
    ensures First([o]) == Error(UnsupportedMessage("first", o))
    ensures Last([o]) == Error(UnsupportedMessage("last", o))
    ensures Rest([o]) == Error(UnsupportedMessage("rest", o))
    ensures Append([o, Null], false) == Error(UnsupportedMessage("push", o))
    ensures Append([o, Null], true) == Error(UnsupportedMessage("push", o))
  {}

  /** push grows the array by one, keeps the old elements in place and puts the value last. */
  lemma {:induction false} PushThenLast(es: seq<Object>, x: Object)
    ensures Append([Array(es), x], false).Array?
    ensures Len([Append([Array(es), x], false)]) == Number((|es| + 1) as real)
    ensures Append([Array(es), x], false).elements[..|es|] == es
    ensures Last([Append([Array(es), x], false)]) == x
  {
    assert (es + [x])[..|es|] == es;
  }

  /** shift puts the value first; rest of a shifted array is the original array. */
  lemma {:induction false} ShiftThenFirstAndRest(es: seq<Object>, x: Object)
    ensures Append([Array(es), x], true).Array?
    ensures First([Append([Array(es), x], true)]) == x
    ensures Rest([Append([Array(es), x], true)]) == Array(es)
  {
    assert ([x] + es)[1..] == es;
  }

  /** rest drops exactly the first element: first then rest gives the array back. */
  lemma {:induction false} FirstAndRest(es: seq<Object>)
    requires |es| >= 1
    ensures Rest([Array(es)]).Array?
    ensures [First([Array(es)])] + Rest([Array(es)]).elements == es
  {}

  // ---------------------------------------------------------------- the append loops

  /**
   * builtin_append as written: a dynamic array of capacity len+1, the new
   * element appended first for shift, then each old element, then the new
   * element for push.
   */
  method AppendBuild(args: seq<Object>, atFront: bool) returns (r: Object)
    ensures r == Append(args, atFront)
  {
    if |args| != 2 {
      return Error(ArgsLenMessage(2, |args|));
    }
    if !args[0].Array? {
      return Error(UnsupportedMessage("push", args[0]));
    }
    var old_ := args[0].elements;
    var d := new DynArray.Array<Object>.Init(|old_| + 1);
    if atFront {
      d.Append(args[1]);
    }
    ghost var front := if atFront then [args[1]] else [];
    var i := 0;
    while i < |old_|
      invariant 0 <= i <= |old_|
      invariant d.Valid() && d.cap > 0 && fresh(d) && fresh(d.buf)
      invariant d.Contents() == front + old_[..i]
    {
      d.Append(old_[i]);
      assert old_[..i + 1] == old_[..i] + [old_[i]];
      i := i + 1;
    }
    if !atFront {
      d.Append(args[1]);
    }
    assert old_[..|old_|] == old_;
    r := Array(d.buf[..d.len]);
  }

  /** rest as written: a dynamic array of capacity len-1 filled from element 1 on. */
  method RestBuild(args: seq<Object>) returns (r: Object)
    ensures r == Rest(args)
  {
    if |args| != 1 {
      return Error(ArgsLenMessage(1, |args|));
    }
    if !args[0].Array? {
      return Error(UnsupportedMessage("rest", args[0]));
    }
    var old_ := args[0].elements;
    if |old_| < 1 {
      return Null;
    }
    var d := new DynArray.Array<Object>.Init(|old_| - 1);
    if |old_| == 1 {
      return Array([]);
    }
    var i := 1;
    while i < |old_|
      invariant 1 <= i <= |old_|
      invariant d.Valid() && d.cap > 0 && fresh(d) && fresh(d.buf)
      invariant d.Contents() == old_[1..i]
    {
      d.Append(old_[i]);
      assert old_[1..i + 1] == old_[1..i] + [old_[i]];
      i := i + 1;
    }
    r := Array(d.buf[..d.len]);
  }

  // ---------------------------------------------------------------- the name table

  /** The table index of the first definition named `name`, as get_builtin_by_name's strcmp loop finds it. */
  function IndexOfName(name: string): (r: Option<nat>)
    ensures r.Some? ==> r.value < |Names| && Names[r.value] == name
    ensures r.Some? ==> forall j | 0 <= j < r.value :: Names[j] != name
    ensures r.None? <==> name !in Names
  {
    FirstMatch(Names, name, 0)
  }

  function FirstMatch(names: seq<string>, name: string, from: nat): (r: Option<nat>)
    requires from <= |names|
    ensures r.Some? ==> from <= r.value < |names| && names[r.value] == name
    ensures r.Some? ==> forall j | from <= j < r.value :: names[j] != name
    ensures r.None? <==> forall j | from <= j < |names| :: names[j] != name
    decreases |names| - from
  {
    if from == |names| then None
    else if names[from] == name then Some(from)
    else FirstMatch(names, name, from + 1)
  }

  /** get_builtin_by_name: the loop over the table, returning the first equal name's index or NULL. */
  method GetBuiltinByName(name: string) returns (r: Option<nat>)
    ensures r == IndexOfName(name)
  {
    var i := 0;
    while i < |Names|
      invariant 0 <= i <= |Names|
      invariant forall j | 0 <= j < i :: Names[j] != name
    {
      if name == Names[i] {
        FirstMatchIs(Names, name, 0, i);
        return Some(i);
      }
      i := i + 1;
    }
    r := None;
  }

  lemma {:induction false} FirstMatchIs(names: seq<string>, name: string, from: nat, i: nat)
    requires from <= i < |names| && names[i] == name
    requires forall j | from <= j < i :: names[j] != name
    ensures FirstMatch(names, name, from) == Some(i)
    decreases i - from
  {
    if from < i {
      FirstMatchIs(names, name, from + 1, i);
    }
  }

  /** The table fixes the indices the compiler and the VM use: len 0, puts 1, ..., push 4, rest 6. */
  lemma {:induction false} NameIndices()
    ensures IndexOfName("len") == Some(LenIndex) && IndexOfName("puts") == Some(PutsIndex)
    ensures IndexOfName("first") == Some(FirstIndex) && IndexOfName("last") == Some(LastIndex)
    ensures IndexOfName("push") == Some(PushIndex) && IndexOfName("shift") == Some(ShiftIndex)
    ensures IndexOfName("rest") == Some(RestIndex)
    ensures IndexOfName("map") == None
  {
    var n := Names;
    assert n[0] == "len" && n[1] == "puts" && n[2] == "first" && n[3] == "last";
    assert n[4] == "push" && n[5] == "shift" && n[6] == "rest";
    FirstMatchIs(n, "len", 0, 0);
    FirstMatchIs(n, "puts", 0, 1);
    FirstMatchIs(n, "first", 0, 2);
    FirstMatchIs(n, "last", 0, 3);
    assert "puts"[3] != "push"[3];
    FirstMatchIs(n, "push", 0, 4);
    FirstMatchIs(n, "shift", 0, 5);
    assert "last"[0] != "rest"[0];
    FirstMatchIs(n, "rest", 0, 6);
    assert forall j | 0 <= j < |n| :: n[j][0] != "map"[0];
  }

  // ---------------------------------------------------------------- the VM's test cases

  lemma {:induction false} LenExamples()
    ensures Len([Str("four")]) == Number(4.0) && Len([Str("")]) == Number(0.0)
    ensures Len([Array([Number(1.0), Number(2.0), Number(3.0)])]) == Number(3.0)
    ensures Len([Str("one"), Str("two")]) == Error(ArgsLenMessage(1, 2))
    ensures Len([Number(1.0)]) == Error(UnsupportedMessage("len", Number(1.0)))
  {}

  lemma {:induction false} ArrayExamples()
    ensures First([Array([Number(1.0), Number(2.0), Number(3.0)])]) == Number(1.0)
    ensures Last([Array([Number(1.0), Number(2.0), Number(3.0)])]) == Number(3.0)
    ensures Rest([Array([Number(1.0), Number(2.0), Number(3.0)])]) == Array([Number(2.0), Number(3.0)])
    ensures Append([Array([]), Number(1.0)], false) == Array([Number(1.0)])
    ensures Append([Number(1.0), Number(1.0)], false) == Error(UnsupportedMessage("push", Number(1.0)))
  {
    assert [Number(1.0), Number(2.0), Number(3.0)][1..] == [Number(2.0), Number(3.0)];
  }

  /** The count message for len("one", "two"). */
  lemma {:induction false} ArgsLenMessageExample()
    ensures ArgsLenMessage(1, 2) == "wrong number of arguments: Expected 1 got 2"
  {
    assert Fmt.NatToString(1) == "1" && Fmt.NatToString(2) == "2";
  }

  /** A number argument is reported with the table's name for numbers, INTEGER_OBJ. */
  lemma {:induction false} UnsupportedNumberMessage()
    ensures UnsupportedMessage("len", Number(1.0)) == "argument to 'len' not supported, got INTEGER_OBJ"
  {
    var m := "argument to '" + "len" + "' not supported, got " + "INTEGER_OBJ";
    assert forall k | 0 <= k < |m| :: m[k] == "argument to 'len' not supported, got INTEGER_OBJ"[k];
  }
}
