/**
 * The bytecode file of src/code/file_generator.c and src/vm/file_loader.c,
 * as byte sequences: the six magic bytes "MONKEY", a two-byte constant
 * count, the constants one after the other (each a type byte and its
 * payload), then the top-level instruction block.  The FILE* stream is the
 * byte sequence itself; a read past its end gives EOF, as fgetc does.
 *
 * The loader reads through int8_t variables in two places.  Reading keeps
 * that behaviour under the mode AsWritten, and the intended unsigned reading
 * under Intended; the lemmas at the end compare the two.
 */
module FileFormat {
  import opened Wrappers
  import Obj = Object
  import BigEndian
  import CInt
  import Seqs

  type Byte = BigEndian.uint8

  /** The eight bytes fwrite dumps for one double. */
  type Image = s: seq<Byte> | |s| == 8 witness [0, 0, 0, 0, 0, 0, 0, 0]

  /** compiler.h's Bytecode: the top-level instructions and the constant pool. */
  datatype Bytecode = Bytecode(instructions: seq<int>, constants: seq<Obj.Object>)

  /**
   * How a double is laid out in memory, which fwrite and fread copy as they
   * are.  IEEE 754 is not modelled: raw is the image of a value and cook the
   * value fread rebuilds from an image.
   */
  datatype DoubleLayout = DoubleLayout(raw: real -> Image, cook: seq<Byte> -> real)

  // ---------------------------------------------------------------------
  // Writing (file_generator.c)
  // ---------------------------------------------------------------------

  /** The bytes magic_number writes: "MONKEY". */
  const Magic: seq<Byte> := [0x4D, 0x4F, 0x4E, 0x4B, 0x45, 0x59]

  /** The type byte of a constant: its ObjectType enum value. */
  function TypeTag(t: Obj.ObjectType): Byte
  {
    Obj.TypeCode(t)
  }

  /** uint16_to_big_endian on a size_t: the low 16 bits, high byte first. */
  function Length16(n: nat): (r: seq<Byte>)
    ensures |r| == 2 && r[0] as int * 0x100 + r[1] == n % 0x1_0000
  {
    BigEndian.Bytes16(n % 0x1_0000)
  }

  /** write_byte on each element: fputc keeps the low eight bits of its int argument. */
  function Bytes(xs: seq<int>): (r: seq<Byte>)
    ensures |r| == |xs|
    ensures forall i :: 0 <= i < |xs| ==> r[i] == CInt.Low8(xs[i])
    ensures (forall i :: 0 <= i < |xs| ==> 0 <= xs[i] < 0x100) ==> r == xs
  {
    seq(|xs|, i requires 0 <= i < |xs| => CInt.Low8(xs[i]))
  }

  /** The characters of a string as the ints write_byte receives. */
  function Chars(s: string): (r: seq<int>)
    ensures |r| == |s| && forall i :: 0 <= i < |s| ==> r[i] == s[i] as int
  {
    seq(|s|, i requires 0 <= i < |s| => s[i] as int)
  }

  /** write_instructions: the length in two bytes, then every instruction byte. */
  function InstructionBlock(ins: seq<int>): seq<Byte>
  {
    Length16(|ins|) + Bytes(ins)
  }

  /** write_number_constant: the type byte, then the eight bytes of the double. */
  function NumberConstant(d: DoubleLayout, v: real): seq<Byte>
  {
    [TypeTag(Obj.NumberObj)] + d.raw(v)
  }

  /** write_string_constant: the type byte, the length in two bytes, then the characters. */
  function StringConstant(s: string): seq<Byte>
  {
    [TypeTag(Obj.StringObj)] + Length16(|s|) + Bytes(Chars(s))
  }

  /** write_function_constant: the type byte, num_locals in two bytes, num_parameters as one uint8_t, then the instructions. */
  function FunctionConstant(ins: seq<int>, numLocals: nat, numParameters: nat): seq<Byte>
  {
    [TypeTag(Obj.CompiledFunctionObj)] + Length16(numLocals) + [CInt.Low8(numParameters) as Byte] + InstructionBlock(ins)
  }

  /** The case of write_constants for one constant; any other type hits the assert and gives None. */
  function EncodeConstant(d: DoubleLayout, o: Obj.Object): (r: Option<seq<Byte>>)
    ensures r.Some? <==> o.Number? || o.Str? || o.CompiledFunction?
    ensures r.Some? ==> 0 < |r.value| && r.value[0] == TypeTag(o.Type())
  {
    match o
    case Number(v) => Some(NumberConstant(d, v))
    case Str(s) => Some(StringConstant(s))
    case CompiledFunction(ins, numLocals, numParameters) => Some(FunctionConstant(ins, numLocals, numParameters))
    case _ => None
  }

  /** The loop of write_constants: the constants' encodings in order, or None once one hits the assert. */
  function EncodeConstants(d: DoubleLayout, cs: seq<Obj.Object>): Option<seq<Byte>>
  {
    if cs == [] then Some([])
    else match (EncodeConstant(d, cs[0]), EncodeConstants(d, cs[1..]))
      case (Some(e), Some(es)) => Some(e + es)
      case (_, _) => None
  }

  /** The constants can be written exactly when each one can. */
  lemma {:induction false} EncodeConstantsSome(d: DoubleLayout, cs: seq<Obj.Object>)
    ensures EncodeConstants(d, cs).Some? <==> forall i :: 0 <= i < |cs| ==> EncodeConstant(d, cs[i]).Some?
    decreases |cs|
  {
    if cs != [] {
      EncodeConstantsSome(d, cs[1..]);
      assert forall i :: 1 <= i < |cs| ==> cs[1..][i - 1] == cs[i];
    }
  }

  /** A non-empty list is written as its first constant followed by the rest. */
  lemma {:induction false} EncodeConstantsFirst(d: DoubleLayout, cs: seq<Obj.Object>)
    requires cs != []
    ensures EncodeConstants(d, cs).Some? <==> EncodeConstant(d, cs[0]).Some? && EncodeConstants(d, cs[1..]).Some?
    ensures EncodeConstants(d, cs).Some? ==>
              EncodeConstants(d, cs).value == EncodeConstant(d, cs[0]).value + EncodeConstants(d, cs[1..]).value
  {
  }

  /** Encoding one more constant appends its bytes, or fails if that constant cannot be written. */
  lemma {:induction false} EncodeConstantsSnoc(d: DoubleLayout, cs: seq<Obj.Object>, c: Obj.Object)
    ensures EncodeConstants(d, cs + [c]).Some? <==> EncodeConstants(d, cs).Some? && EncodeConstant(d, c).Some?
    ensures EncodeConstants(d, cs + [c]).Some? ==>
              EncodeConstants(d, cs + [c]).value == EncodeConstants(d, cs).value + EncodeConstant(d, c).value
    decreases |cs|
  {
    if cs == [] {
      assert [] + [c] == [c] && [c][1..] == [];
      EncodeConstantsFirst(d, [c]);
    } else {
      var longer := cs + [c];
      assert longer[0] == cs[0] && longer[1..] == cs[1..] + [c];
      EncodeConstantsSnoc(d, cs[1..], c);
      EncodeConstantsFirst(d, longer);
      EncodeConstantsFirst(d, cs);
      if EncodeConstants(d, longer).Some? {
        Seqs.AppendAssoc(EncodeConstant(d, cs[0]).value, EncodeConstants(d, cs[1..]).value, EncodeConstant(d, c).value);
      }
    }
  }

  /** save_to_file: the magic bytes, the constant count, the constants, then the top-level instructions. */
  function Encode(d: DoubleLayout, bc: Bytecode): (r: Option<seq<Byte>>)
    ensures r.Some? <==> EncodeConstants(d, bc.constants).Some?
    ensures r.Some? ==> |r.value| >= 6 && r.value[..6] == Magic
  {
    match EncodeConstants(d, bc.constants)
    case None => None
    case Some(es) => Some(Magic + Length16(|bc.constants|) + es + InstructionBlock(bc.instructions))
  }

  // ---------------------------------------------------------------------
  // Reading (file_loader.c)
  // ---------------------------------------------------------------------

  const EOF: int := -1

  /** fgetc at a position: the byte there, or EOF once the position is past the end. */
  function Getc(bytes: seq<Byte>, pos: nat): (c: int)
    ensures -1 <= c < 0x100 && (c == EOF <==> pos >= |bytes|)
  {
    if pos < |bytes| then bytes[pos] else EOF
  }

  /** The value an fgetc result becomes when it is stored in an int8_t. */
  function Int8(c: int): (r: int)
    ensures -0x80 <= r < 0x80 && CInt.Low8(r) == CInt.Low8(c)
    ensures 0 <= c < 0x80 ==> r == c
  {
    var m := CInt.Low8(c);
    if m < 0x80 then m else m - 0x100
  }

  /** big_endian_to_uint16 on a two-element buffer, each element taken as its eight bits. */
  function Uint16Of(hi: int, lo: int): (r: nat)
    ensures r < 0x1_0000
    ensures 0 <= hi < 0x100 && 0 <= lo < 0x100 ==> r == hi * 0x100 + lo
  {
    CInt.Low8(hi) * 0x100 + CInt.Low8(lo)
  }

  /** Two fgetc results stored into an int8_t buffer and converted by big_endian_to_uint16. */
  function Uint16At(bytes: seq<Byte>, pos: nat): (r: nat)
    ensures r < 0x1_0000
    ensures pos + 1 < |bytes| ==> r == bytes[pos] as int * 0x100 + bytes[pos + 1]
  {
    var hi := Int8(Getc(bytes, pos));
    var lo := Int8(Getc(bytes, pos + 1));
    assert pos + 1 < |bytes| ==> CInt.Low8(hi) == bytes[pos] as int && CInt.Low8(lo) == bytes[pos + 1] as int by {
      if pos + 1 < |bytes| {
        ByteSurvivesInt8(bytes[pos] as int);
        ByteSurvivesInt8(bytes[pos + 1] as int);
      }
    }
    assert Uint16Of(hi, lo) == CInt.Low8(hi) * 0x100 + CInt.Low8(lo);
    Uint16Of(hi, lo)
  }

  /** A byte stored into an int8_t keeps its eight bits. */
  lemma {:induction false} ByteSurvivesInt8(c: int)
    requires 0 <= c < 0x100
    ensures CInt.Low8(Int8(c)) == c
  {
    assert CInt.Low8(c) == c % CInt.Two8;
  }

  /** n successive fgetc results from pos on. */
  function Getcs(bytes: seq<Byte>, pos: nat, n: nat): (r: seq<int>)
    ensures |r| == n && forall i :: 0 <= i < n ==> r[i] == Getc(bytes, pos + i)
  {
    seq(n, i requires 0 <= i < n => Getc(bytes, pos + i))
  }

  /** What strdup copies of the char buffer read_string_constant fills: everything before the first NUL. */
  function CString(cs: seq<int>): (s: string)
    ensures |s| <= |cs|
    ensures forall i :: 0 <= i < |s| ==> s[i] as int == CInt.Low8(cs[i]) != 0
  {
    if cs == [] || CInt.Low8(cs[0]) == 0 then []
    else [CInt.Low8(cs[0]) as char] + CString(cs[1..])
  }

  /** Whether the loader reads through its int8_t variables as the source does, or as unsigned bytes. */
  datatype Reading = AsWritten | Intended

  /**
   * read_function_constant's num_parameters.  As written it is stored in an
   * int8_t and then in the size_t field, so 0x80 and above become huge.
   */
  function ParameterCount(mode: Reading, c: int): (r: nat)
    ensures 0 <= c < 0x80 ==> r == c
    ensures mode.Intended? && 0 <= c < 0x100 ==> r == c
  {
    match mode
    case AsWritten => var p := Int8(c); if p < 0 then CInt.Two64 + p else p
    case Intended => CInt.Low8(c)
  }

  /** Why get_bytecode_from_file stops: the exit on a bad magic number, the assert on an unknown type, a truncated double. */
  datatype LoadError = NotMonkeyBinary | UnknownConstant(tag: int) | ShortNumber

  /** The type bytes read_constant knows. */
  function KnownTags(): set<int>
  {
    {TypeTag(Obj.NumberObj) as int, TypeTag(Obj.StringObj) as int,
     TypeTag(Obj.CompiledFunctionObj) as int, TypeTag(Obj.CompiledLoopObj) as int}
  }

  /** read_number_constant after the type byte: fread of eight bytes, which a truncated file leaves partly uninitialised. */
  function ReadNumber(d: DoubleLayout, bytes: seq<Byte>, pos: nat): (r: Result<(Obj.Object, nat), LoadError>)
    ensures r.Ok? <==> pos + 8 <= |bytes|
    ensures r.Ok? ==> r.value == (Obj.Number(d.cook(bytes[pos..pos + 8])), pos + 8)
    ensures r.Err? ==> r.error == ShortNumber
  {
    if pos + 8 <= |bytes| then Ok((Obj.Number(d.cook(bytes[pos..pos + 8])), pos + 8))
    else Err(ShortNumber)
  }

  /** read_string_constant after the type byte: the length in two bytes, then that many characters. */
  function ReadString(bytes: seq<Byte>, pos: nat): (r: (Obj.Object, nat))
    ensures r.0.Str? && r.1 == pos + 2 + Uint16At(bytes, pos)
  {
    var len := Uint16At(bytes, pos);
    (Obj.Str(CString(Getcs(bytes, pos + 2, len))), pos + 2 + len)
  }

  /** read_function_constant after the type byte: num_locals, num_parameters, the length, then the instructions. */
  function ReadFunction(mode: Reading, bytes: seq<Byte>, pos: nat): (r: (Obj.Object, nat))
    ensures r.0.CompiledFunction? && r.1 == pos + 5 + |r.0.instructions|
    ensures r.0.numLocals == Uint16At(bytes, pos) && |r.0.instructions| == Uint16At(bytes, pos + 3)
  {
    var numLocals := Uint16At(bytes, pos);
    var numParameters := ParameterCount(mode, Getc(bytes, pos + 2));
    var len := Uint16At(bytes, pos + 3);
    (Obj.CompiledFunction(Getcs(bytes, pos + 5, len), numLocals, numParameters), pos + 5 + len)
  }

  /** read_loop_constant after the type byte: num_locals, the length, then the instructions. */
  function ReadLoop(bytes: seq<Byte>, pos: nat): (r: (Obj.Object, nat))
    ensures r.0.CompiledLoop? && r.1 == pos + 4 + |r.0.instructions|
    ensures r.0.numLocals == Uint16At(bytes, pos) && |r.0.instructions| == Uint16At(bytes, pos + 2)
  {
    var numLocals := Uint16At(bytes, pos);
    var len := Uint16At(bytes, pos + 2);
    (Obj.CompiledLoop(Getcs(bytes, pos + 4, len), numLocals), pos + 4 + len)
  }

  /**
   * read_constant: the type byte picks the reader.  The result holds the
   * constant and the position after it; an unknown type hits the assert.
   */
  function ReadConstant(d: DoubleLayout, mode: Reading, bytes: seq<Byte>, pos: nat)
    : (r: Result<(Obj.Object, nat), LoadError>)
    ensures r.Ok? ==> pos < r.value.1
    ensures r.Err? && r.error.UnknownConstant? <==> Getc(bytes, pos) !in KnownTags()
    ensures r.Err? && r.error.UnknownConstant? ==> r.error.tag == Getc(bytes, pos)
    ensures r.Err? ==> r.error != NotMonkeyBinary
  {
    var tag := Getc(bytes, pos);
    if tag == TypeTag(Obj.NumberObj) as int then ReadNumber(d, bytes, pos + 1)
    else if tag == TypeTag(Obj.StringObj) as int then Ok(ReadString(bytes, pos + 1))
    else if tag == TypeTag(Obj.CompiledFunctionObj) as int then Ok(ReadFunction(mode, bytes, pos + 1))
    else if tag == TypeTag(Obj.CompiledLoopObj) as int then Ok(ReadLoop(bytes, pos + 1))
    else Err(UnknownConstant(tag))
  }

  /** read_constant as a reader from a position, for the loop of read_constants. */
  function ConstantReader(d: DoubleLayout, mode: Reading, bytes: seq<Byte>): nat -> Result<(Obj.Object, nat), LoadError>
  {
    (p: nat) => ReadConstant(d, mode, bytes, p)
  }

  /**
   * The loop of read_constants over a reader of one constant: n results in
   * order from pos and the position after the last, or the first error.
   */
  function ReadMany(read: nat -> Result<(Obj.Object, nat), LoadError>, pos: nat, n: nat)
    : (r: Result<(seq<Obj.Object>, nat), LoadError>)
    ensures r.Ok? ==> |r.value.0| == n
    ensures r.Err? ==> exists p :: read(p) == Err(r.error)
    decreases n
  {
    if n == 0 then Ok(([], pos))
    else match read(pos)
      case Err(e) => Err(e)
      case Ok((o, p)) =>
        match ReadMany(read, p, n - 1)
        case Err(e) => Err(e)
        case Ok((os, q)) => Ok(([o] + os, q))
  }

  /** read_constants: n constants in order from pos, and the position after the last. */
  function ReadConstants(d: DoubleLayout, mode: Reading, bytes: seq<Byte>, pos: nat, n: nat)
    : (r: Result<(seq<Obj.Object>, nat), LoadError>)
    ensures r.Ok? ==> |r.value.0| == n
    ensures r.Err? ==> r.error != NotMonkeyBinary
  {
    ReadMany(ConstantReader(d, mode, bytes), pos, n)
  }

  /** The loop one step further: the item read at the current position joins the ones read so far. */
  lemma {:induction false} ReadManySnoc(read: nat -> Result<(Obj.Object, nat), LoadError>, pos: nat, i: nat,
                                        cs: seq<Obj.Object>, p: nat, o: Obj.Object, q: nat)
    requires ReadMany(read, pos, i) == Ok((cs, p)) && read(p) == Ok((o, q))
    ensures ReadMany(read, pos, i + 1) == Ok((cs + [o], q))
    decreases i
  {
    if i == 0 {
      assert [o] + [] == cs + [o];
    } else {
      match read(pos)
      case Err(_) => assert false;
      case Ok((first, p0)) =>
        match ReadMany(read, p0, i - 1)
        case Err(_) => assert false;
        case Ok((rest, _)) =>
          ReadManySnoc(read, p0, i - 1, rest, p, o, q);
          assert [first] + (rest + [o]) == cs + [o];
    }
  }

  /** An item that cannot be read, after i good ones, is the error of the loop for every larger count. */
  lemma {:induction false} ReadManyFail(read: nat -> Result<(Obj.Object, nat), LoadError>, pos: nat, i: nat,
                                        cs: seq<Obj.Object>, p: nat, m: nat, e: LoadError)
    requires ReadMany(read, pos, i) == Ok((cs, p)) && read(p) == Err(e) && i < m
    ensures ReadMany(read, pos, m) == Err(e)
    decreases i
  {
    if i > 0 {
      match read(pos)
      case Err(_) => assert false;
      case Ok((_, p0)) =>
        match ReadMany(read, p0, i - 1)
        case Err(_) => assert false;
        case Ok((rest, _)) =>
          ReadManyFail(read, p0, i - 1, rest, p, m - 1, e);
    }
  }

  /**
   * The final loop of get_bytecode_from_file: every fgetc result until EOF.
   * As written each one goes through an int8_t, so 0x80..0xFE are stored
   * negative and 0xFF compares equal to EOF and stops the loop.
   */
  function TopLevel(mode: Reading, bytes: seq<Byte>, pos: nat): (r: seq<int>)
    ensures |r| <= |bytes| - pos || (pos > |bytes| && r == [])
    decreases |bytes| - pos
  {
    if pos >= |bytes| then []
    else
      var c := if mode.AsWritten? then Int8(bytes[pos]) else bytes[pos];
      if c == EOF then [] else [c] + TopLevel(mode, bytes, pos + 1)
  }

  /** The six fgetc results get_bytecode_from_file stores in uint8_t, compared by test_magic_number with "MONKEY". */
  predicate MagicOk(bytes: seq<Byte>)
  {
    forall i :: 0 <= i < 6 ==> CInt.Low8(Getc(bytes, i)) == Magic[i]
  }

  /**
   * get_bytecode_from_file: the magic number, the constant count, that many
   * constants, then two bytes of instruction count that are read and not
   * used, then the top-level instructions up to the end.
   */
  function Decode(d: DoubleLayout, mode: Reading, bytes: seq<Byte>): (r: Result<Bytecode, LoadError>)
    ensures r.Ok? ==> |r.value.constants| == Uint16At(bytes, 6)
  {
    if !MagicOk(bytes) then Err(NotMonkeyBinary)
    else match ReadConstants(d, mode, bytes, 8, Uint16At(bytes, 6))
      case Err(e) => Err(e)
      case Ok((cs, p)) => Ok(Bytecode(TopLevel(mode, bytes, p + 2), cs))
  }

  // ---------------------------------------------------------------------
  // Properties
  // ---------------------------------------------------------------------

  /** test_magic_number on what get_bytecode_from_file read holds exactly when the file starts with "MONKEY". */
  lemma {:induction false} MagicOkIff(bytes: seq<Byte>)
    ensures MagicOk(bytes) <==> |bytes| >= 6 && bytes[..6] == Magic
  {
    if |bytes| >= 6 && bytes[..6] == Magic {
      forall i | 0 <= i < 6 ensures CInt.Low8(Getc(bytes, i)) == Magic[i] {
        assert bytes[..6][i] == bytes[i];
      }
    } else if |bytes| < 6 {
      assert CInt.Low8(Getc(bytes, |bytes|)) != Magic[|bytes|];
    } else {
      assert exists i :: 0 <= i < 6 && bytes[..6][i] != Magic[i];
    }
  }

  /** A file is turned away as not a monkey binary exactly when its first six bytes are not "MONKEY". */
  lemma {:induction false} MagicAccepted(d: DoubleLayout, mode: Reading, bytes: seq<Byte>)
    ensures Decode(d, mode, bytes) == Err(NotMonkeyBinary) <==> !(|bytes| >= 6 && bytes[..6] == Magic)
  {
    MagicOkIff(bytes);
  }

  /** Reading the constant count back: the loader sees the number of constants, kept to 16 bits. */
  lemma {:induction false} CountReadBack(bytes: seq<Byte>, n: nat)
    requires |bytes| >= 8 && bytes[6..8] == Length16(n)
    ensures Uint16At(bytes, 6) == n % 0x1_0000
  {
    assert bytes[6] == bytes[6..8][0] && bytes[7] == bytes[6..8][1];
  }

  /** Whether the loader gives back exactly this constant when it reads the writer's bytes for it. */
  predicate Storable(d: DoubleLayout, mode: Reading, o: Obj.Object)
  {
    match o
    case Number(v) => d.cook(d.raw(v)) == v
    case Str(s) => |s| < 0x1_0000 && forall i :: 0 <= i < |s| ==> 0 < s[i] as int < 0x100
    case CompiledFunction(ins, numLocals, numParameters) =>
      |ins| < 0x1_0000 && (forall i :: 0 <= i < |ins| ==> 0 <= ins[i] < 0x100)
      && numLocals < 0x1_0000 && numParameters < (if mode.AsWritten? then 0x80 else 0x100)
    case _ => true
  }

  /** The bytes at pos..pos+|e| are e. */
  predicate Holds(bytes: seq<Byte>, pos: nat, e: seq<Byte>)
  {
    pos + |e| <= |bytes| && bytes[pos..pos + |e|] == e
  }

  lemma {:induction false} HoldsGetc(bytes: seq<Byte>, pos: nat, e: seq<Byte>)
    requires Holds(bytes, pos, e)
    ensures forall i :: 0 <= i < |e| ==> Getc(bytes, pos + i) == e[i]
  {
    forall i | 0 <= i < |e| ensures Getc(bytes, pos + i) == e[i] {
      assert bytes[pos..pos + |e|][i] == bytes[pos + i];
    }
  }

  lemma {:induction false} HoldsSplit(bytes: seq<Byte>, pos: nat, a: seq<Byte>, b: seq<Byte>)
    requires Holds(bytes, pos, a + b)
    ensures Holds(bytes, pos, a) && Holds(bytes, pos + |a|, b)
  {
    assert bytes[pos..pos + |a|] == (a + b)[..|a|];
    assert bytes[pos + |a|..pos + |a| + |b|] == (a + b)[|a|..];
  }

  /** When a + b runs to the end of the bytes, what follows a is b. */
  lemma {:induction false} HoldsRest(bytes: seq<Byte>, pos: nat, a: seq<Byte>, b: seq<Byte>)
    requires Holds(bytes, pos, a + b) && pos + |a| + |b| == |bytes|
    ensures bytes[pos + |a|..] == b
  {
    assert bytes[pos + |a|..] == bytes[pos..pos + |a| + |b|][|a|..];
  }

  /** Reading back characters that hold no NUL gives the string itself. */
  lemma {:induction false} CStringOfChars(s: string, cs: seq<int>)
    requires |cs| == |s| && forall i :: 0 <= i < |s| ==> cs[i] == s[i] as int && 0 < cs[i] < 0x100
    ensures CString(cs) == s
    decreases |s|
  {
    if s != [] {
      CStringOfChars(s[1..], cs[1..]);
      assert (CInt.Low8(cs[0]) as char) == s[0];
      assert s == [s[0]] + s[1..];
    }
  }

  /** The block the writer produced reads back as the same instructions. */
  lemma {:induction false} InstructionsReadBack(bytes: seq<Byte>, pos: nat, ins: seq<int>)
    requires Holds(bytes, pos, Bytes(ins)) && forall i :: 0 <= i < |ins| ==> 0 <= ins[i] < 0x100
    ensures Getcs(bytes, pos, |ins|) == ins
  {
    HoldsGetc(bytes, pos, Bytes(ins));
  }

  /** A length the writer put at pos reads back as itself. */
  lemma {:induction false} Length16ReadBack(bytes: seq<Byte>, pos: nat, n: nat)
    requires n < 0x1_0000 && Holds(bytes, pos, Length16(n))
    ensures Uint16At(bytes, pos) == n
  {
    HoldsGetc(bytes, pos, Length16(n));
  }

  /** read_constant hands the bytes after a number's type byte to read_number_constant. */
  lemma {:induction false} DispatchNumber(d: DoubleLayout, mode: Reading, bytes: seq<Byte>, pos: nat)
    requires Getc(bytes, pos) == TypeTag(Obj.NumberObj) as int
    ensures ReadConstant(d, mode, bytes, pos) == ReadNumber(d, bytes, pos + 1)
  {
  }

  /** read_constant hands the bytes after a string's type byte to read_string_constant. */
  lemma {:induction false} DispatchString(d: DoubleLayout, mode: Reading, bytes: seq<Byte>, pos: nat)
    requires Getc(bytes, pos) == TypeTag(Obj.StringObj) as int
    ensures ReadConstant(d, mode, bytes, pos) == Ok(ReadString(bytes, pos + 1))
  {
  }

  /** read_constant hands the bytes after a function's type byte to read_function_constant. */
  lemma {:induction false} DispatchFunction(d: DoubleLayout, mode: Reading, bytes: seq<Byte>, pos: nat)
    requires Getc(bytes, pos) == TypeTag(Obj.CompiledFunctionObj) as int
    ensures ReadConstant(d, mode, bytes, pos) == Ok(ReadFunction(mode, bytes, pos + 1))
  {
  }

  /** read_constant hands the bytes after a loop's type byte to read_loop_constant. */
  lemma {:induction false} DispatchLoop(d: DoubleLayout, mode: Reading, bytes: seq<Byte>, pos: nat)
    requires Getc(bytes, pos) == TypeTag(Obj.CompiledLoopObj) as int
    ensures ReadConstant(d, mode, bytes, pos) == Ok(ReadLoop(bytes, pos + 1))
  {
  }

  /** read_string_constant on a length and the characters that follow it. */
  lemma {:induction false} StringReaderResult(bytes: seq<Byte>, pos: nat, s: string)
    requires Uint16At(bytes, pos) == |s| && CString(Getcs(bytes, pos + 2, |s|)) == s
    ensures ReadString(bytes, pos) == (Obj.Str(s), pos + 2 + |s|)
  {
  }

  /** read_function_constant on the locals, the parameter byte, the length and the instructions. */
  lemma {:induction false} FunctionReaderResult(mode: Reading, bytes: seq<Byte>, pos: nat, ins: seq<int>, numLocals: nat, numParameters: nat)
    requires Uint16At(bytes, pos) == numLocals && Getc(bytes, pos + 2) == numParameters
    requires Uint16At(bytes, pos + 3) == |ins| && Getcs(bytes, pos + 5, |ins|) == ins
    ensures ReadFunction(mode, bytes, pos) == (Obj.CompiledFunction(ins, numLocals, ParameterCount(mode, numParameters)), pos + 5 + |ins|)
  {
  }

  /** read_loop_constant on the locals, the length and the instructions. */
  lemma {:induction false} LoopReaderResult(bytes: seq<Byte>, pos: nat, ins: seq<int>, numLocals: nat)
    requires Uint16At(bytes, pos) == numLocals && Uint16At(bytes, pos + 2) == |ins| && Getcs(bytes, pos + 4, |ins|) == ins
    ensures ReadLoop(bytes, pos) == (Obj.CompiledLoop(ins, numLocals), pos + 4 + |ins|)
  {
  }

  lemma {:induction false} NumberReadBack(d: DoubleLayout, mode: Reading, bytes: seq<Byte>, pos: nat, v: real)
    requires d.cook(d.raw(v)) == v && Holds(bytes, pos, NumberConstant(d, v))
    ensures ReadConstant(d, mode, bytes, pos) == Ok((Obj.Number(v), pos + |NumberConstant(d, v)|))
  {
    HoldsSplit(bytes, pos, [TypeTag(Obj.NumberObj)], d.raw(v));
    HoldsGetc(bytes, pos, [TypeTag(Obj.NumberObj)]);
    DispatchNumber(d, mode, bytes, pos);
  }

  lemma {:induction false} StringPartsReadBack(bytes: seq<Byte>, pos: nat, s: string)
    requires |s| < 0x1_0000 && forall i :: 0 <= i < |s| ==> 0 < s[i] as int < 0x100
    requires Holds(bytes, pos, StringConstant(s))
    ensures Getc(bytes, pos) == TypeTag(Obj.StringObj) as int
    ensures Uint16At(bytes, pos + 1) == |s|
    ensures Getcs(bytes, pos + 3, |s|) == Chars(s)
  {
    var head: seq<Byte> := [TypeTag(Obj.StringObj)] + Length16(|s|);
    assert StringConstant(s) == head + Bytes(Chars(s));
    HoldsSplit(bytes, pos, head, Bytes(Chars(s)));
    HoldsGetc(bytes, pos, head);
    assert Getc(bytes, pos + 1) == head[1] && Getc(bytes, pos + 2) == head[2];
    InstructionsReadBack(bytes, pos + 3, Chars(s));
  }

  lemma {:induction false} StringReadBack(d: DoubleLayout, mode: Reading, bytes: seq<Byte>, pos: nat, s: string)
    requires Storable(d, mode, Obj.Str(s)) && Holds(bytes, pos, StringConstant(s))
    ensures ReadConstant(d, mode, bytes, pos) == Ok((Obj.Str(s), pos + |StringConstant(s)|))
  {
    StringPartsReadBack(bytes, pos, s);
    CStringOfChars(s, Chars(s));
    DispatchString(d, mode, bytes, pos);
    StringReaderResult(bytes, pos + 1, s);
  }

  /** The fixed part of a function constant: type byte, locals, parameters and instruction count. */
  function FunctionHead(ins: seq<int>, numLocals: nat, numParameters: nat): seq<Byte>
  {
    [TypeTag(Obj.CompiledFunctionObj)] + Length16(numLocals) + [CInt.Low8(numParameters) as Byte] + Length16(|ins|)
  }

  lemma {:induction false} FunctionHeadReadBack(bytes: seq<Byte>, pos: nat, ins: seq<int>, numLocals: nat, numParameters: nat)
    requires |ins| < 0x1_0000 && numLocals < 0x1_0000 && numParameters < 0x100
    requires Holds(bytes, pos, FunctionHead(ins, numLocals, numParameters))
    ensures Getc(bytes, pos) == TypeTag(Obj.CompiledFunctionObj) as int
    ensures Uint16At(bytes, pos + 1) == numLocals
    ensures Getc(bytes, pos + 3) == numParameters
    ensures Uint16At(bytes, pos + 4) == |ins|
  {
    var h := FunctionHead(ins, numLocals, numParameters);
    HoldsGetc(bytes, pos, h);
    assert Getc(bytes, pos + 1) == h[1] && Getc(bytes, pos + 2) == h[2];
    assert Getc(bytes, pos + 4) == h[4] && Getc(bytes, pos + 5) == h[5];
  }

  /**
   * A function constant the writer produced reads back with its instructions
   * and locals, and with its parameter count as the mode's reading of the
   * parameter byte.
   */
  lemma {:induction false} FunctionRead(d: DoubleLayout, mode: Reading, bytes: seq<Byte>, pos: nat, ins: seq<int>, numLocals: nat, numParameters: nat)
    requires |ins| < 0x1_0000 && (forall i :: 0 <= i < |ins| ==> 0 <= ins[i] < 0x100)
    requires numLocals < 0x1_0000 && numParameters < 0x100
    requires Holds(bytes, pos, FunctionConstant(ins, numLocals, numParameters))
    ensures ReadConstant(d, mode, bytes, pos)
            == Ok((Obj.CompiledFunction(ins, numLocals, ParameterCount(mode, numParameters)), pos + 6 + |ins|))
  {
    var head := FunctionHead(ins, numLocals, numParameters);
    assert FunctionConstant(ins, numLocals, numParameters) == head + Bytes(ins);
    HoldsSplit(bytes, pos, head, Bytes(ins));
    FunctionHeadReadBack(bytes, pos, ins, numLocals, numParameters);
    InstructionsReadBack(bytes, pos + 6, ins);
    DispatchFunction(d, mode, bytes, pos);
    FunctionReaderResult(mode, bytes, pos + 1, ins, numLocals, numParameters);
  }

  lemma {:induction false} FunctionReadBack(d: DoubleLayout, mode: Reading, bytes: seq<Byte>, pos: nat, o: Obj.Object)
    requires o.CompiledFunction? && Storable(d, mode, o)
    requires Holds(bytes, pos, FunctionConstant(o.instructions, o.numLocals, o.numParameters))
    ensures ReadConstant(d, mode, bytes, pos) == Ok((o, pos + |FunctionConstant(o.instructions, o.numLocals, o.numParameters)|))
  {
    var ins, numLocals, numParameters := o.instructions, o.numLocals, o.numParameters;
    FunctionRead(d, mode, bytes, pos, ins, numLocals, numParameters);
    assert ParameterCount(mode, numParameters) == numParameters;
    assert o == Obj.CompiledFunction(ins, numLocals, ParameterCount(mode, numParameters));
    assert |FunctionConstant(ins, numLocals, numParameters)| == 6 + |ins|;
  }

  /** One constant written by the writer and read at its position gives it back, and the position after it. */
  lemma {:induction false} ConstantRoundTrip(d: DoubleLayout, mode: Reading, bytes: seq<Byte>, pos: nat, o: Obj.Object)
    requires EncodeConstant(d, o).Some? && Storable(d, mode, o)
    requires Holds(bytes, pos, EncodeConstant(d, o).value)
    ensures ReadConstant(d, mode, bytes, pos) == Ok((o, pos + |EncodeConstant(d, o).value|))
  {
    if o.Number? {
      NumberConstantReadBack(d, mode, bytes, pos, o);
    } else if o.Str? {
      StringConstantReadBack(d, mode, bytes, pos, o);
    } else {
      FunctionConstantReadBack(d, mode, bytes, pos, o);
    }
  }

  lemma {:induction false} NumberConstantReadBack(d: DoubleLayout, mode: Reading, bytes: seq<Byte>, pos: nat, o: Obj.Object)
    requires o.Number? && Storable(d, mode, o) && EncodeConstant(d, o).Some? && Holds(bytes, pos, EncodeConstant(d, o).value)
    ensures ReadConstant(d, mode, bytes, pos) == Ok((o, pos + |EncodeConstant(d, o).value|))
  {
    NumberReadBack(d, mode, bytes, pos, o.value);
  }

  lemma {:induction false} StringConstantReadBack(d: DoubleLayout, mode: Reading, bytes: seq<Byte>, pos: nat, o: Obj.Object)
    requires o.Str? && Storable(d, mode, o) && EncodeConstant(d, o).Some? && Holds(bytes, pos, EncodeConstant(d, o).value)
    ensures ReadConstant(d, mode, bytes, pos) == Ok((o, pos + |EncodeConstant(d, o).value|))
  {
    assert o == Obj.Str(o.text) && EncodeConstant(d, o).value == StringConstant(o.text);
    StringReadBack(d, mode, bytes, pos, o.text);
  }

  lemma {:induction false} FunctionConstantReadBack(d: DoubleLayout, mode: Reading, bytes: seq<Byte>, pos: nat, o: Obj.Object)
    requires o.CompiledFunction? && Storable(d, mode, o) && EncodeConstant(d, o).Some? && Holds(bytes, pos, EncodeConstant(d, o).value)
    ensures ReadConstant(d, mode, bytes, pos) == Ok((o, pos + |EncodeConstant(d, o).value|))
  {
    assert EncodeConstant(d, o).value == FunctionConstant(o.instructions, o.numLocals, o.numParameters);
    FunctionReadBack(d, mode, bytes, pos, o);
  }

  /** The reader gives back each of cs in turn, starting at pos, each ending where the writer's bytes for it end. */
  predicate ReadsEach(read: nat -> Result<(Obj.Object, nat), LoadError>, d: DoubleLayout, pos: nat, cs: seq<Obj.Object>)
    decreases |cs|
  {
    cs == [] ||
    (EncodeConstant(d, cs[0]).Some?
     && var next: nat := pos + |EncodeConstant(d, cs[0]).value|;
     read(pos) == Ok((cs[0], next)) && ReadsEach(read, d, next, cs[1..]))
  }

  /** The loop of read_constants over a reader that gives back each constant in turn. */
  lemma {:induction false} ReadManyReadsBack(read: nat -> Result<(Obj.Object, nat), LoadError>, d: DoubleLayout,
                                             pos: nat, cs: seq<Obj.Object>)
    requires EncodeConstants(d, cs).Some? && ReadsEach(read, d, pos, cs)
    ensures ReadMany(read, pos, |cs|) == Ok((cs, pos + |EncodeConstants(d, cs).value|))
    decreases |cs|
  {
    if cs != [] {
      EncodeConstantsFirst(d, cs);
      var p := pos + |EncodeConstant(d, cs[0]).value|;
      ReadManyReadsBack(read, d, p, cs[1..]);
      assert [cs[0]] + cs[1..] == cs;
    }
  }

  /** The reader applied where a constant was written gives it back, with the position after it. */
  lemma {:induction false} ReaderReadsBack(d: DoubleLayout, mode: Reading, bytes: seq<Byte>, pos: nat, o: Obj.Object, next: nat)
    requires EncodeConstant(d, o).Some? && Storable(d, mode, o)
    requires Holds(bytes, pos, EncodeConstant(d, o).value) && next == pos + |EncodeConstant(d, o).value|
    ensures ConstantReader(d, mode, bytes)(pos) == Ok((o, next))
  {
    ConstantRoundTrip(d, mode, bytes, pos, o);
  }

  /** A reader that gives back the first constant, then each of the rest, gives back each constant. */
  lemma {:induction false} ReadsEachCons(read: nat -> Result<(Obj.Object, nat), LoadError>, d: DoubleLayout, pos: nat,
                                         cs: seq<Obj.Object>, next: nat)
    requires cs != [] && EncodeConstant(d, cs[0]).Some? && next == pos + |EncodeConstant(d, cs[0]).value|
    requires read(pos) == Ok((cs[0], next)) && ReadsEach(read, d, next, cs[1..])
    ensures ReadsEach(read, d, pos, cs)
  {
  }

  /** The loader's reader gives back, in turn, each constant written at pos. */
  lemma {:induction false} ConstantsReadEach(d: DoubleLayout, mode: Reading, bytes: seq<Byte>, pos: nat, cs: seq<Obj.Object>)
    requires EncodeConstants(d, cs).Some? && forall i :: 0 <= i < |cs| ==> Storable(d, mode, cs[i])
    requires Holds(bytes, pos, EncodeConstants(d, cs).value)
    ensures ReadsEach(ConstantReader(d, mode, bytes), d, pos, cs)
    decreases |cs|
  {
    if cs != [] {
      var next := ConstantReadFirst(d, mode, bytes, pos, cs);
      ConstantsReadEach(d, mode, bytes, next, cs[1..]);
      ReadsEachCons(ConstantReader(d, mode, bytes), d, pos, cs, next);
    }
  }

  /** The first constant written at pos reads back, and the rest are written where it ends. */
  lemma {:induction false} ConstantReadFirst(d: DoubleLayout, mode: Reading, bytes: seq<Byte>, pos: nat, cs: seq<Obj.Object>)
    returns (next: nat)
    requires cs != [] && EncodeConstants(d, cs).Some? && forall i :: 0 <= i < |cs| ==> Storable(d, mode, cs[i])
    requires Holds(bytes, pos, EncodeConstants(d, cs).value)
    ensures EncodeConstant(d, cs[0]).Some? && next == pos + |EncodeConstant(d, cs[0]).value|
    ensures ConstantReader(d, mode, bytes)(pos) == Ok((cs[0], next))
    ensures EncodeConstants(d, cs[1..]).Some? && forall i :: 0 <= i < |cs[1..]| ==> Storable(d, mode, cs[1..][i])
    ensures Holds(bytes, next, EncodeConstants(d, cs[1..]).value)
  {
    EncodeConstantsFirst(d, cs);
    var o, tail := cs[0], cs[1..];
    var e := EncodeConstant(d, o).value;
    HoldsSplit(bytes, pos, e, EncodeConstants(d, tail).value);
    assert Storable(d, mode, o);
    next := pos + |e|;
    ReaderReadsBack(d, mode, bytes, pos, o, next);
    assert forall i :: 0 <= i < |tail| ==> tail[i] == cs[i + 1];
  }

  /** The constants written in order read back in order. */
  lemma {:induction false} ConstantsRoundTrip(d: DoubleLayout, mode: Reading, bytes: seq<Byte>, pos: nat, cs: seq<Obj.Object>)
    requires EncodeConstants(d, cs).Some? && forall i :: 0 <= i < |cs| ==> Storable(d, mode, cs[i])
    requires Holds(bytes, pos, EncodeConstants(d, cs).value)
    ensures ReadConstants(d, mode, bytes, pos, |cs|) == Ok((cs, pos + |EncodeConstants(d, cs).value|))
  {
    ConstantsReadEach(d, mode, bytes, pos, cs);
    ReadManyReadsBack(ConstantReader(d, mode, bytes), d, pos, cs);
  }

  /** The top-level loop reading bytes below 0x80 (or, as intended, any bytes) to the end gives them back. */
  lemma {:induction false} TopLevelReadBack(mode: Reading, bytes: seq<Byte>, pos: nat)
    requires pos <= |bytes|
    requires mode.AsWritten? ==> forall i :: pos <= i < |bytes| ==> bytes[i] < 0x80
    ensures TopLevel(mode, bytes, pos) == bytes[pos..]
    decreases |bytes| - pos
  {
    if pos < |bytes| {
      TopLevelReadBack(mode, bytes, pos + 1);
      assert bytes[pos..] == [bytes[pos]] + bytes[pos + 1..];
    }
  }

  /**
   * The intended loader reads back what the writer wrote: every constant the
   * file can hold and every top-level instruction byte.  The top-level length
   * is not needed, since the loader ignores it.
   */
  lemma {:induction false} RoundTrip(d: DoubleLayout, bc: Bytecode)
    requires Encode(d, bc).Some? && |bc.constants| < 0x1_0000
    requires forall i :: 0 <= i < |bc.constants| ==> Storable(d, Intended, bc.constants[i])
    requires forall i :: 0 <= i < |bc.instructions| ==> 0 <= bc.instructions[i] < 0x100
    ensures Decode(d, Intended, Encode(d, bc).value) == Ok(bc)
  {
    RoundTripIn(d, Intended, bc);
  }

  /** The loader as written also reads back the writer's file, when no instruction byte reaches 0x80 and no function takes 128 or more parameters. */
  lemma {:induction false} RoundTripAsWritten(d: DoubleLayout, bc: Bytecode)
    requires Encode(d, bc).Some? && |bc.constants| < 0x1_0000
    requires forall i :: 0 <= i < |bc.constants| ==> Storable(d, AsWritten, bc.constants[i])
    requires forall i :: 0 <= i < |bc.instructions| ==> 0 <= bc.instructions[i] < 0x80
    ensures Decode(d, AsWritten, Encode(d, bc).value) == Ok(bc)
  {
    RoundTripIn(d, AsWritten, bc);
  }

  lemma {:induction false} RoundTripIn(d: DoubleLayout, mode: Reading, bc: Bytecode)
    requires Encode(d, bc).Some? && |bc.constants| < 0x1_0000
    requires forall i :: 0 <= i < |bc.constants| ==> Storable(d, mode, bc.constants[i])
    requires forall i :: 0 <= i < |bc.instructions| ==>
               0 <= bc.instructions[i] < (if mode.AsWritten? then 0x80 else 0x100)
    ensures Decode(d, mode, Encode(d, bc).value) == Ok(bc)
  {
    DecodeEncoded(d, mode, bc);
    assert Bytes(bc.instructions) == bc.instructions;
    TopLevelReadBack(mode, bc.instructions, 0);
  }

  /**
   * The loader on the writer's file: the constants come back, and the
   * top-level instructions are what its last loop makes of the instruction
   * bytes written after the length.
   */
  lemma {:induction false} DecodeEncoded(d: DoubleLayout, mode: Reading, bc: Bytecode)
    requires Encode(d, bc).Some? && |bc.constants| < 0x1_0000
    requires forall i :: 0 <= i < |bc.constants| ==> Storable(d, mode, bc.constants[i])
    ensures Decode(d, mode, Encode(d, bc).value) == Ok(Bytecode(TopLevel(mode, Bytes(bc.instructions), 0), bc.constants))
  {
    var bytes, p := EncodedLayout(d, bc);
    MagicOkIff(bytes);
    ConstantsRoundTrip(d, mode, bytes, 8, bc.constants);
    DecodeParts(d, mode, bytes, bc.constants, p, Bytes(bc.instructions));
  }

  /** Where the writer puts the parts of a file: the magic, the count, the constants ending at p, and the instructions after two more bytes. */
  lemma {:induction false} EncodedLayout(d: DoubleLayout, bc: Bytecode) returns (bytes: seq<Byte>, p: nat)
    requires Encode(d, bc).Some? && |bc.constants| < 0x1_0000
    ensures bytes == Encode(d, bc).value && |bytes| >= 6 && bytes[..6] == Magic
    ensures Uint16At(bytes, 6) == |bc.constants|
    ensures Holds(bytes, 8, EncodeConstants(d, bc.constants).value)
    ensures p == 8 + |EncodeConstants(d, bc.constants).value|
    ensures p + 2 <= |bytes| && bytes[p + 2..] == Bytes(bc.instructions)
  {
    var es := EncodeConstants(d, bc.constants).value;
    bytes := Encode(d, bc).value;
    var count := Length16(|bc.constants|);
    var block := InstructionBlock(bc.instructions);
    assert bytes == Magic + count + es + block;
    assert Holds(bytes, 0, Magic + count + es + block);
    HoldsSplit(bytes, 0, Magic + count + es, block);
    HoldsSplit(bytes, 0, Magic + count, es);
    HoldsSplit(bytes, 0, Magic, count);
    Length16ReadBack(bytes, 6, |bc.constants|);
    p := 8 + |es|;
    HoldsRest(bytes, p, Length16(|bc.instructions|), Bytes(bc.instructions));
  }

  /** The loader's result once the magic is accepted and the constants are read up to p. */
  lemma {:induction false} DecodeParts(d: DoubleLayout, mode: Reading, bytes: seq<Byte>, cs: seq<Obj.Object>, p: nat, ins: seq<Byte>)
    requires MagicOk(bytes) && ReadConstants(d, mode, bytes, 8, Uint16At(bytes, 6)) == Ok((cs, p))
    requires p + 2 <= |bytes| && bytes[p + 2..] == ins
    ensures Decode(d, mode, bytes) == Ok(Bytecode(TopLevel(mode, ins, 0), cs))
  {
    TopLevelSuffix(mode, bytes, p + 2);
  }

  /** The top-level loop sees only the bytes from where it starts. */
  lemma {:induction false} TopLevelSuffix(mode: Reading, bytes: seq<Byte>, pos: nat)
    requires pos <= |bytes|
    ensures TopLevel(mode, bytes, pos) == TopLevel(mode, bytes[pos..], 0)
    decreases |bytes| - pos
  {
    if pos < |bytes| {
      TopLevelSuffix(mode, bytes, pos + 1);
      TopLevelSuffix(mode, bytes[pos..], 1);
      assert bytes[pos..][1..] == bytes[pos + 1..];
    }
  }

  /** The writer has no case for compiled loops, though the loader reads one: such a constant hits the writer's assert. */
  lemma {:induction false} LoopNotWritten(d: DoubleLayout, bc: Bytecode, i: nat)
    requires i < |bc.constants| && bc.constants[i].CompiledLoop?
    ensures Encode(d, bc) == None
  {
    EncodeConstantsSome(d, bc.constants);
  }

  /** The bytes of a loop constant as read_loop_constant expects them; the writer never produces them. */
  function LoopConstant(ins: seq<int>, numLocals: nat): seq<Byte>
  {
    [TypeTag(Obj.CompiledLoopObj)] + Length16(numLocals) + InstructionBlock(ins)
  }

  lemma {:induction false} LoopPartsReadBack(bytes: seq<Byte>, pos: nat, ins: seq<int>, numLocals: nat)
    requires |ins| < 0x1_0000 && numLocals < 0x1_0000 && forall i :: 0 <= i < |ins| ==> 0 <= ins[i] < 0x100
    requires Holds(bytes, pos, LoopConstant(ins, numLocals))
    ensures Getc(bytes, pos) == TypeTag(Obj.CompiledLoopObj) as int
    ensures Uint16At(bytes, pos + 1) == numLocals && Uint16At(bytes, pos + 3) == |ins|
    ensures Getcs(bytes, pos + 5, |ins|) == ins
  {
    var head := [TypeTag(Obj.CompiledLoopObj)] + Length16(numLocals) + Length16(|ins|);
    assert LoopConstant(ins, numLocals) == head + Bytes(ins);
    HoldsSplit(bytes, pos, head, Bytes(ins));
    HoldsGetc(bytes, pos, head);
    assert Getc(bytes, pos + 1) == head[1] && Getc(bytes, pos + 2) == head[2];
    assert Getc(bytes, pos + 3) == head[3] && Getc(bytes, pos + 4) == head[4];
    InstructionsReadBack(bytes, pos + 5, ins);
  }

  /** read_loop_constant: num_locals in two bytes, the length in two bytes, then that many instruction bytes. */
  lemma {:induction false} LoopReadBack(d: DoubleLayout, mode: Reading, bytes: seq<Byte>, pos: nat, ins: seq<int>, numLocals: nat)
    requires |ins| < 0x1_0000 && numLocals < 0x1_0000 && forall i :: 0 <= i < |ins| ==> 0 <= ins[i] < 0x100
    requires Holds(bytes, pos, LoopConstant(ins, numLocals))
    ensures ReadConstant(d, mode, bytes, pos) == Ok((Obj.CompiledLoop(ins, numLocals), pos + 5 + |ins|))
  {
    LoopPartsReadBack(bytes, pos, ins, numLocals);
    DispatchLoop(d, mode, bytes, pos);
    LoopReaderResult(bytes, pos + 1, ins, numLocals);
  }

  /** A string read from the file ends at its first NUL, though the length read says more. */
  lemma {:induction false} StringCutAtNul(d: DoubleLayout, mode: Reading)
    ensures ReadConstant(d, mode, [6, 0, 3, 'a' as Byte, 0, 'b' as Byte], 0) == Ok((Obj.Str("a"), 6))
  {
    var bytes: seq<Byte> := [6, 0, 3, 'a' as Byte, 0, 'b' as Byte];
    assert Getcs(bytes, 3, 3) == [97, 0, 98];
    assert CString([97, 0, 98]) == "a";
  }

  // ---------------------------------------------------------------------
  // The loader's int8_t variables, as written and as intended
  // ---------------------------------------------------------------------

  /**
   * The top-level loop as written: every byte up to the first 0xFF (which
   * compares equal to EOF once it is an int8_t) comes back through an
   * int8_t, and the rest of the file is dropped.
   */
  lemma {:induction false} TopLevelAsWritten(bytes: seq<Byte>, pos: nat, k: nat)
    requires pos <= k <= |bytes|
    requires forall i :: pos <= i < k ==> bytes[i] != 0xFF
    requires k < |bytes| ==> bytes[k] == 0xFF
    ensures TopLevel(AsWritten, bytes, pos) == seq(k - pos, i requires 0 <= i < k - pos => Int8(bytes[pos + i]))
    decreases k - pos
  {
    if pos < k {
      TopLevelAsWritten(bytes, pos + 1, k);
    }
  }

  /** The written instruction bytes up to the first 0xFF, read by the top-level loop as written. */
  lemma {:induction false} TopLevelStopsAt(ins: seq<int>, k: nat)
    requires k < |ins| && ins[k] == 0xFF && forall i :: 0 <= i < k ==> 0 <= ins[i] < 0x80
    ensures TopLevel(AsWritten, Bytes(ins), 0) == ins[..k]
  {
    var bytes := Bytes(ins);
    assert bytes[k] == CInt.Low8(0xFF) == 0xFF;
    forall i | 0 <= i < k ensures bytes[i] as int == ins[i] {
      assert bytes[i] == CInt.Low8(ins[i]);
    }
    TopLevelAsWritten(bytes, 0, k);
    var read := seq(k, i requires 0 <= i < k => Int8(bytes[0 + i]));
    assert read == ins[..k];
  }

  /**
   * As written the loader drops every top-level instruction from the first
   * 0xFF byte on, e.g. the operand byte of OpConstant 255 (the instructions
   * 0, 0, 255, 2 read back as 0, 0).
   */
  lemma {:induction false} TopLevelStopsAtFF(d: DoubleLayout, bc: Bytecode, k: nat)
    requires Encode(d, bc).Some? && |bc.constants| < 0x1_0000
    requires forall i :: 0 <= i < |bc.constants| ==> Storable(d, AsWritten, bc.constants[i])
    requires k < |bc.instructions| && bc.instructions[k] == 0xFF
    requires forall i :: 0 <= i < k ==> 0 <= bc.instructions[i] < 0x80
    ensures Decode(d, AsWritten, Encode(d, bc).value) == Ok(Bytecode(bc.instructions[..k], bc.constants))
  {
    DecodeEncoded(d, AsWritten, bc);
    TopLevelStopsAt(bc.instructions, k);
  }

  /** What an int8_t makes of each instruction byte: 0x80 to 0xFF come out 256 lower. */
  function SignExtended(ins: seq<int>): seq<int>
  {
    seq(|ins|, i requires 0 <= i < |ins| => if ins[i] < 0x80 then ins[i] else ins[i] - 0x100)
  }

  /** The written instruction bytes without 0xFF, read by the top-level loop as written. */
  lemma {:induction false} TopLevelSignExtendsBytes(ins: seq<int>)
    requires forall i :: 0 <= i < |ins| ==> 0 <= ins[i] < 0xFF
    ensures TopLevel(AsWritten, Bytes(ins), 0) == SignExtended(ins)
  {
    var bytes := Bytes(ins);
    assert bytes == ins;
    TopLevelAsWritten(bytes, 0, |ins|);
    var read := seq(|ins|, i requires 0 <= i < |ins| => Int8(bytes[0 + i]));
    forall i | 0 <= i < |ins| ensures read[i] == SignExtended(ins)[i] {
      assert CInt.Low8(ins[i]) == ins[i];
    }
    assert read == SignExtended(ins);
  }

  /** As written every top-level instruction byte from 0x80 to 0xFE comes back 256 lower: 200 reads back as -56. */
  lemma {:induction false} TopLevelSignExtends(d: DoubleLayout, bc: Bytecode)
    requires Encode(d, bc).Some? && |bc.constants| < 0x1_0000
    requires forall i :: 0 <= i < |bc.constants| ==> Storable(d, AsWritten, bc.constants[i])
    requires forall i :: 0 <= i < |bc.instructions| ==> 0 <= bc.instructions[i] < 0xFF
    ensures Decode(d, AsWritten, Encode(d, bc).value) == Ok(Bytecode(SignExtended(bc.instructions), bc.constants))
  {
    DecodeEncoded(d, AsWritten, bc);
    TopLevelSignExtendsBytes(bc.instructions);
  }

  /**
   * As written a function of 128 to 255 parameters comes back with 2^64 - 256
   * more than it had: the parameter byte goes through an int8_t into a size_t.
   * Read as intended it comes back unchanged.
   */
  lemma {:induction false} ParametersSignExtend(d: DoubleLayout, bytes: seq<Byte>, pos: nat, ins: seq<int>, numLocals: nat, numParameters: nat)
    requires |ins| < 0x1_0000 && (forall i :: 0 <= i < |ins| ==> 0 <= ins[i] < 0x100)
    requires numLocals < 0x1_0000 && 0x80 <= numParameters < 0x100
    requires Holds(bytes, pos, FunctionConstant(ins, numLocals, numParameters))
    ensures ReadConstant(d, AsWritten, bytes, pos)
            == Ok((Obj.CompiledFunction(ins, numLocals, CInt.Two64 - 0x100 + numParameters), pos + 6 + |ins|))
    ensures ReadConstant(d, Intended, bytes, pos)
            == Ok((Obj.CompiledFunction(ins, numLocals, numParameters), pos + 6 + |ins|))
  {
    FunctionRead(d, AsWritten, bytes, pos, ins, numLocals, numParameters);
    FunctionRead(d, Intended, bytes, pos, ins, numLocals, numParameters);
  }
}
