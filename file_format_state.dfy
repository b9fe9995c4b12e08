/**
 * The writer and the loader of the bytecode file as the C code runs them:
 * one write_byte or fgetc at a time, with loops over the constants and the
 * instruction bytes.  The FILE* is a byte sequence with a position; each
 * method is proved to produce what the matching function of module
 * FileFormat defines.
 */
module FileFormatState {
  import opened Wrappers
  import Obj = Object
  import CInt
  import BigEndian
  import FF = FileFormat

  /** The file save_to_file writes. */
  class Writer {
    /** Every byte written so far. */
    var written: seq<FF.Byte>

    constructor ()
      ensures written == []
    {
      written := [];
    }

    /** write_byte: fputc stores the low eight bits of its argument. */
    method WriteByte(b: int)
      modifies this
      ensures written == old(written) + [CInt.Low8(b)]
    {
      written := written + [CInt.Low8(b)];
    }

    /** magic_number: the six bytes of "MONKEY", one by one. */
    method MagicNumber()
      modifies this
      ensures written == old(written) + FF.Magic
    {
      var i := 0;
      while i < |FF.Magic|
        invariant 0 <= i <= |FF.Magic|
        invariant written == old(written) + FF.Magic[..i]
      {
        WriteByte(FF.Magic[i]);
        assert FF.Magic[..i + 1] == FF.Magic[..i] + [FF.Magic[i]];
        i := i + 1;
      }
    }

    /** uint16_to_big_endian into a two-byte buffer, then write_byte of both bytes. */
    method WriteLength(n: nat)
      modifies this
      ensures written == old(written) + FF.Length16(n)
    {
      var buf := new int[2];
      BigEndian.AsUint16(n % 0x1_0000, buf);
      assert buf[0] == buf[..2][0] && buf[1] == buf[..2][1];
      WriteByte(buf[0]);
      WriteByte(buf[1]);
    }

    /** The loop that writes each element through write_byte. */
    method WriteEach(xs: seq<int>)
      modifies this
      ensures written == old(written) + FF.Bytes(xs)
    {
      var i := 0;
      while i < |xs|
        invariant 0 <= i <= |xs|
        invariant written == old(written) + FF.Bytes(xs)[..i]
      {
        WriteByte(xs[i]);
        assert FF.Bytes(xs)[..i + 1] == FF.Bytes(xs)[..i] + [CInt.Low8(xs[i])];
        i := i + 1;
      }
      assert FF.Bytes(xs)[..i] == FF.Bytes(xs);
    }

    /** write_instructions: the length, then every instruction byte. */
    method WriteInstructions(ins: seq<int>)
      modifies this
      ensures written == old(written) + FF.InstructionBlock(ins)
    {
      WriteLength(|ins|);
      WriteEach(ins);
    }

    /** write_number_constant: the type byte, then fwrite of the double's eight bytes. */
    method WriteNumber(d: FF.DoubleLayout, v: real)
      modifies this
      ensures written == old(written) + FF.NumberConstant(d, v)
    {
      WriteByte(FF.TypeTag(Obj.NumberObj));
      written := written + d.raw(v);
    }

    /** write_string_constant: the type byte, the length, then each character. */
    method WriteString(s: string)
      modifies this
      ensures written == old(written) + FF.StringConstant(s)
    {
      WriteByte(FF.TypeTag(Obj.StringObj));
      WriteLength(|s|);
      WriteEach(FF.Chars(s));
    }

    /** write_function_constant: the type byte, num_locals, num_parameters cast to uint8_t, then the instructions. */
    method WriteFunction(ins: seq<int>, numLocals: nat, numParameters: nat)
      modifies this
      ensures written == old(written) + FF.FunctionConstant(ins, numLocals, numParameters)
    {
      WriteByte(FF.TypeTag(Obj.CompiledFunctionObj));
      WriteLength(numLocals);
      WriteByte(CInt.Low8(numParameters));
      WriteInstructions(ins);
    }

    /** One constant of write_constants by its type; any other type hits the assert and writes nothing. */
    method WriteConstant(d: FF.DoubleLayout, c: Obj.Object) returns (ok: bool)
      modifies this
      ensures ok == FF.EncodeConstant(d, c).Some?
      ensures ok ==> written == old(written) + FF.EncodeConstant(d, c).value
    {
      ok := true;
      if c.Number? {
        WriteNumber(d, c.value);
      } else if c.Str? {
        WriteString(c.text);
      } else if c.CompiledFunction? {
        WriteFunction(c.instructions, c.numLocals, c.numParameters);
      } else {
        ok := false;
      }
    }

    /**
     * write_constants: the count, then each constant by its type.  Any other
     * type stops writing at the assert: the result is false and the file is
     * left as far as it got.
     */
    method WriteConstants(d: FF.DoubleLayout, cs: seq<Obj.Object>) returns (ok: bool)
      modifies this
      ensures ok == FF.EncodeConstants(d, cs).Some?
      ensures ok ==> written == old(written) + FF.Length16(|cs|) + FF.EncodeConstants(d, cs).value
    {
      WriteLength(|cs|);
      var i := 0;
      while i < |cs|
        invariant 0 <= i <= |cs|
        invariant FF.EncodeConstants(d, cs[..i]).Some?
        invariant written == old(written) + FF.Length16(|cs|) + FF.EncodeConstants(d, cs[..i]).value
      {
        FF.EncodeConstantsSnoc(d, cs[..i], cs[i]);
        assert cs[..i + 1] == cs[..i] + [cs[i]];
        ok := WriteConstant(d, cs[i]);
        if !ok {
          FF.EncodeConstantsSome(d, cs);
          return;
        }
        i := i + 1;
      }
      assert cs[..i] == cs;
      ok := true;
    }

    /** save_to_file: a truncated file, then the magic number, the constants and the top-level instructions. */
    method SaveToFile(d: FF.DoubleLayout, bc: FF.Bytecode) returns (ok: bool)
      modifies this
      ensures ok == FF.Encode(d, bc).Some?
      ensures ok ==> written == FF.Encode(d, bc).value
    {
      written := [];
      MagicNumber();
      ok := WriteConstants(d, bc.constants);
      if !ok {
        return;
      }
      WriteInstructions(bc.instructions);
    }
  }

  /** A reader's result with the position it reached. */
  function At<T>(r: Result<T, FF.LoadError>, pos: nat): Result<(T, nat), FF.LoadError>
  {
    match r
    case Ok(v) => Ok((v, pos))
    case Err(e) => Err(e)
  }

  /** test_magic_number: the first six stored bytes against "MONKEY", stopping at the first difference. */
  method TestMagicNumber(value: array<int>) returns (ok: bool)
    requires value.Length >= 6
    ensures ok <==> forall i :: 0 <= i < 6 ==> value[i] == FF.Magic[i]
  {
    var i := 0;
    while i < 6
      invariant 0 <= i <= 6
      invariant forall j :: 0 <= j < i ==> value[j] == FF.Magic[j]
    {
      if value[i] != FF.Magic[i] {
        return false;
      }
      i := i + 1;
    }
    return true;
  }

  /** The file get_bytecode_from_file reads. */
  class Reader {
    /** The contents of the file. */
    const bytes: seq<FF.Byte>
    /** How many characters have been asked for; past the end every read gives EOF. */
    var pos: nat

    /** open_source_file: the file at its start. */
    constructor (contents: seq<FF.Byte>)
      ensures bytes == contents && pos == 0
    {
      bytes := contents;
      pos := 0;
    }

    /** fgetc. */
    method Getc() returns (c: int)
      modifies this
      ensures c == FF.Getc(bytes, old(pos)) && pos == old(pos) + 1
    {
      c := FF.Getc(bytes, pos);
      pos := pos + 1;
    }

    /** Two fgetc results into an int8_t buffer, then big_endian_to_uint16. */
    method ReadLength() returns (n: nat)
      modifies this
      ensures n == FF.Uint16At(bytes, old(pos)) && pos == old(pos) + 2
    {
      var buf := new int[2];
      var c := Getc();
      buf[0] := FF.Int8(c);
      c := Getc();
      buf[1] := FF.Int8(c);
      n := FF.Uint16Of(buf[0], buf[1]);
    }

    /** The loop that appends n fgetc results. */
    method ReadEach(n: nat) returns (xs: seq<int>)
      modifies this
      ensures xs == FF.Getcs(bytes, old(pos), n) && pos == old(pos) + n
    {
      xs := [];
      var i := 0;
      while i < n
        invariant 0 <= i <= n && pos == old(pos) + i
        invariant xs == FF.Getcs(bytes, old(pos), i)
      {
        var c := Getc();
        xs := xs + [c];
        i := i + 1;
      }
    }

    /** read_number_constant: fread of eight bytes into a double. */
    method ReadNumber(d: FF.DoubleLayout) returns (r: Result<Obj.Object, FF.LoadError>)
      modifies this
      ensures At(r, pos) == FF.ReadNumber(d, bytes, old(pos))
    {
      if pos + 8 <= |bytes| {
        r := Ok(Obj.Number(d.cook(bytes[pos..pos + 8])));
      } else {
        r := Err(FF.ShortNumber);
      }
      pos := pos + 8;
    }

    /** read_string_constant: the length, len characters into a buffer ended by NUL, then strdup. */
    method ReadString() returns (o: Obj.Object)
      modifies this
      ensures (o, pos) == FF.ReadString(bytes, old(pos))
    {
      var len := ReadLength();
      var start := pos;
      var value := new int[len + 1];
      var i := 0;
      while i < len
        invariant 0 <= i <= len && pos == start + i
        invariant value[..i] == FF.Getcs(bytes, start, i)
      {
        var c := Getc();
        value[i] := c;
        assert value[..i + 1] == value[..i] + [c];
        i := i + 1;
      }
      value[len] := 0;
      assert value[..len] == FF.Getcs(bytes, start, len);
      o := Obj.Str(FF.CString(value[..len]));
    }

    /** read_function_constant: num_locals, num_parameters through an int8_t (or as read), the length, then the instructions. */
    method ReadFunction(mode: FF.Reading) returns (o: Obj.Object)
      modifies this
      ensures (o, pos) == FF.ReadFunction(mode, bytes, old(pos))
    {
      var numLocals := ReadLength();
      var c := Getc();
      var numParameters := FF.ParameterCount(mode, c);
      var len := ReadLength();
      var ins := ReadEach(len);
      o := Obj.CompiledFunction(ins, numLocals, numParameters);
    }

    /** read_loop_constant: num_locals, the length, then the instructions. */
    method ReadLoop() returns (o: Obj.Object)
      modifies this
      ensures (o, pos) == FF.ReadLoop(bytes, old(pos))
    {
      var numLocals := ReadLength();
      var len := ReadLength();
      var ins := ReadEach(len);
      o := Obj.CompiledLoop(ins, numLocals);
    }

    /** read_constant: the type byte picks the reader; an unknown one hits the assert. */
    method ReadConstant(d: FF.DoubleLayout, mode: FF.Reading) returns (r: Result<Obj.Object, FF.LoadError>)
      modifies this
      ensures At(r, pos) == FF.ReadConstant(d, mode, bytes, old(pos))
    {
      var tag := Getc();
      if tag == FF.TypeTag(Obj.NumberObj) as int {
        r := ReadNumber(d);
      } else if tag == FF.TypeTag(Obj.StringObj) as int {
        var o := ReadString();
        r := Ok(o);
      } else if tag == FF.TypeTag(Obj.CompiledFunctionObj) as int {
        var o := ReadFunction(mode);
        r := Ok(o);
      } else if tag == FF.TypeTag(Obj.CompiledLoopObj) as int {
        var o := ReadLoop();
        r := Ok(o);
      } else {
        r := Err(FF.UnknownConstant(tag));
      }
    }

    /** read_constants: n constants appended in order. */
    method ReadConstants(d: FF.DoubleLayout, mode: FF.Reading, n: nat) returns (r: Result<seq<Obj.Object>, FF.LoadError>)
      modifies this
      ensures At(r, pos) == FF.ReadConstants(d, mode, bytes, old(pos), n)
    {
      ghost var start := pos;
      var constants: seq<Obj.Object> := [];
      var i := 0;
      while i < n
        invariant 0 <= i <= n
        invariant FF.ReadConstants(d, mode, bytes, start, i) == Ok((constants, pos))
      {
        ghost var before := pos;
        var c := ReadConstant(d, mode);
        if c.Err? {
          FF.ReadManyFail(FF.ConstantReader(d, mode, bytes), start, i, constants, before, n, c.error);
          return Err(c.error);
        }
        FF.ReadManySnoc(FF.ConstantReader(d, mode, bytes), start, i, constants, before, c.value, pos);
        constants := constants + [c.value];
        i := i + 1;
      }
      r := Ok(constants);
    }

    /** The six fgetc results of get_bytecode_from_file stored as uint8_t, then test_magic_number. */
    method ReadMagic() returns (ok: bool)
      requires pos == 0
      modifies this
      ensures ok == FF.MagicOk(bytes) && pos == 6
    {
      var magic := new int[6];
      var i := 0;
      while i < 6
        invariant 0 <= i <= 6 && pos == i
        invariant forall j :: 0 <= j < i ==> magic[j] == CInt.Low8(FF.Getc(bytes, j))
      {
        var c := Getc();
        magic[i] := CInt.Low8(c);
        i := i + 1;
      }
      ok := TestMagicNumber(magic);
    }

    /** The last loop of get_bytecode_from_file: fgetc until EOF, each result through an int8_t as written. */
    method ReadTopLevel(mode: FF.Reading) returns (ins: seq<int>)
      modifies this
      ensures ins == FF.TopLevel(mode, bytes, old(pos))
    {
      ins := [];
      while true
        invariant ins + FF.TopLevel(mode, bytes, pos) == FF.TopLevel(mode, bytes, old(pos))
        decreases |bytes| - pos
      {
        var c := Getc();
        var v := if mode.AsWritten? then FF.Int8(c) else c;
        if v == FF.EOF {
          return;
        }
        ins := ins + [v];
      }
    }

    /**
     * get_bytecode_from_file on a freshly opened file: the magic number, the
     * constants, the ignored instruction count, then every byte until EOF.
     */
    method GetBytecode(d: FF.DoubleLayout, mode: FF.Reading) returns (r: Result<FF.Bytecode, FF.LoadError>)
      requires pos == 0
      modifies this
      ensures r == FF.Decode(d, mode, bytes)
    {
      var ok := ReadMagic();
      if !ok {
        return Err(FF.NotMonkeyBinary);
      }
      var count := ReadLength();
      var constants := ReadConstants(d, mode, count);
      if constants.Err? {
        return Err(constants.error);
      }
      var _ := ReadLength();
      var ins := ReadTopLevel(mode);
      r := Ok(FF.Bytecode(ins, constants.value));
    }
  }
}
