/**
 * The bytecode instruction codec of src/code/code.c: the opcode definition
 * table, instruction encoding (make_instruction), operand decoding
 * (read_operands) and the disassembler (format_instruction,
 * instructions_to_string).  An instruction stream is the contents of an
 * IntArray: a sequence of C ints.
 */
module Code {
  import opened Wrappers
  import BigEndian
  import CInt
  import Fmt
  import Seqs

  const OpConstant := 0
  const OpAdd := 1
  const OpPop := 2
  const OpSub := 3
  const OpMul := 4
  const OpDiv := 5
  const OpLShift := 6
  const OpRShift := 7
  const OpMod := 8
  const OpBitOr := 9
  const OpBitAnd := 10
  const OpBitXor := 11
  const OpTrue := 12
  const OpFalse := 13
  const OpEq := 14
  const OpNotEq := 15
  const OpGreater := 16
  const OpMinus := 17
  const OpBang := 18
  const OpJmpIfFalse := 19
  const OpJmp := 20
  const OpNull := 21
  const OpGetGlobal := 22
  const OpSetGlobal := 23
  const OpArray := 24
  const OpHash := 25
  const OpIndex := 26
  const OpCall := 27
  const OpReturnValue := 28
  const OpReturn := 29
  const OpGetLocal := 30
  const OpSetLocal := 31
  const OpGetBuiltin := 32
  const OpClosure := 33
  const OpGetFree := 34
  const OpCurrentClosure := 35
  const OpSetFree := 36
  const OpLoop := 37
  const OpContinue := 38
  const OpBreak := 39
  /** One past the last opcode, and the number of entries in the definition table. */
  const OpCount := 40

  /** The enumerator name of each opcode, in enum order. */
  function Name(op: nat): string
  {
    match op
    case 0 => "OP_CONSTANT"
    case 1 => "OP_ADD"
    case 2 => "OP_POP"
    case 3 => "OP_SUB"
    case 4 => "OP_MUL"
    case 5 => "OP_DIV"
    case 6 => "OP_LSHIFT"
    case 7 => "OP_RSHIFT"
    case 8 => "OP_MOD"
    case 9 => "OP_BIT_OR"
    case 10 => "OP_BIT_AND"
    case 11 => "OP_BIT_XOR"
    case 12 => "OP_TRUE"
    case 13 => "OP_FALSE"
    case 14 => "OP_EQ"
    case 15 => "OP_NOT_EQ"
    case 16 => "OP_GREATER"
    case 17 => "OP_MINUS"
    case 18 => "OP_BANG"
    case 19 => "OP_JMP_IF_FALSE"
    case 20 => "OP_JMP"
    case 21 => "OP_NULL"
    case 22 => "OP_GET_GLOBAL"
    case 23 => "OP_SET_GLOBAL"
    case 24 => "OP_ARRAY"
    case 25 => "OP_HASH"
    case 26 => "OP_INDEX"
    case 27 => "OP_CALL"
    case 28 => "OP_RETURN_VALUE"
    case 29 => "OP_RETURN"
    case 30 => "OP_GET_LOCAL"
    case 31 => "OP_SET_LOCAL"
    case 32 => "OP_GET_BUILTIN"
    case 33 => "OP_CLOSURE"
    case 34 => "OP_GET_FREE"
    case 35 => "OP_CURRENT_CLOSURE"
    case 36 => "OP_SET_FREE"
    case 37 => "OP_LOOP"
    case 38 => "OP_CONTINUE"
    case 39 => "OP_BREAK"
    case _ => ""
  }

  /**
   * A table entry: the name (NULL in a zero-initialised entry, otherwise the
   * enumerator name of the opcode held here), the operand count and four
   * operand widths.
   */
  datatype Definition = Definition(name: Option<nat>, operandCount: nat, widths: seq<nat>)
  {
    ghost predicate WellFormed() { |widths| == 4 && operandCount <= 4 }
  }

  const NoWidths: seq<nat> := [0, 0, 0, 0]

  /**
   * Entry op of the table as src/code/code.c initialises it: OP_CONSTANT has
   * one two-byte operand, OP_ADD..OP_BIT_XOR have none, and the entries from
   * OP_TRUE on are zero-initialised (no name, no operands).
   */
  function DefinitionAsWritten(op: nat): (d: Definition)
    requires op < OpCount
    ensures d.WellFormed()
  {
    if op == OpConstant then Definition(Some(op), 1, [2, 0, 0, 0])
    else if op <= OpBitXor then Definition(Some(op), 0, NoWidths)
    else Definition(None, 0, NoWidths)
  }

  /**
   * The operand widths each opcode is read with by the VM (src/vm/vm.c):
   * two-byte indices and jump targets, one-byte counts and slots, and
   * OP_CLOSURE's constant index plus free-variable count.
   */
  function OperandWidths(op: nat): (w: seq<nat>)
  {
    if op == OpConstant || op == OpJmpIfFalse || op == OpJmp || op == OpGetGlobal
       || op == OpSetGlobal || op == OpArray || op == OpHash then [2]
    else if op == OpCall || op == OpGetLocal || op == OpSetLocal || op == OpGetBuiltin
       || op == OpGetFree || op == OpSetFree || op == OpBreak then [1]
    else if op == OpClosure then [2, 1]
    else []
  }

  /** Every opcode has at most two operands, each one or two bytes wide. */
  lemma {:induction false} OperandWidthsBounded(op: nat)
    ensures var w := OperandWidths(op); |w| <= 2 && forall i | 0 <= i < |w| :: w[i] == 1 || w[i] == 2
  {
  }

  /** Entry op of the corrected table: every opcode named, with the widths the VM reads. */
  function DefinitionOf(op: nat): (d: Definition)
    requires op < OpCount
    ensures d.WellFormed() && d.name == Some(op)
  {
    var w := OperandWidths(op);
    var widths := if |w| == 0 then NoWidths else if |w| == 1 then [w[0], 0, 0, 0] else [w[0], w[1], 0, 0];
    Definition(Some(op), |w|, widths)
  }

  /** The corrected entry lists exactly the widths the VM reads, each one or two bytes. */
  lemma {:induction false} DefinitionWidths(op: nat)
    requires op < OpCount
    ensures var d := DefinitionOf(op);
            d.operandCount <= 2 && d.widths[..d.operandCount] == OperandWidths(op)
            && forall i | 0 <= i < d.operandCount :: d.widths[i] == 1 || d.widths[i] == 2
  {
    OperandWidthsBounded(op);
  }

  /** What `lookup` yields: a table entry, NULL, or (for opcode == OP_COUNT) a read one past the table. */
  datatype LookupResult = Found(def: Definition) | NotFound | PastEnd

  /**
   * lookup as written: the guard is `opcode > OP_COUNT`.  A negative int
   * converted to the unsigned enum is above OP_COUNT as well.
   */
  function LookupAsWritten(op: int): LookupResult
  {
    if op < 0 || op > OpCount then NotFound
    else if op == OpCount then PastEnd
    else Found(DefinitionAsWritten(op))
  }

  /** The only opcode the as-written guard lets past the end of the table is OP_COUNT itself. */
  lemma {:induction false} LookupAsWrittenPastEnd()
    ensures LookupAsWritten(OpCount).PastEnd?
    ensures forall op: int :: LookupAsWritten(op).PastEnd? ==> op == OpCount
  {}

  /** lookup with the evidently intended guard `opcode >= OP_COUNT`, over the corrected table. */
  function Lookup(op: int): (r: Option<Definition>)
    ensures r.Some? <==> 0 <= op < OpCount
    ensures r.Some? ==> r.value.WellFormed()
  {
    if 0 <= op < OpCount then Some(DefinitionOf(op)) else None
  }

  // ---------------------------------------------------------------- encoding

  /** The bytes make_instruction's switch appends for one operand: only the width-2 case exists. */
  function OperandBytesAsWritten(width: nat, operand: int): seq<int>
  {
    if width == 2 then BigEndian.Bytes16(operand % 0x1_0000) else []
  }

  /** The corrected encoding also writes a one-byte operand (code_test expects OP_GET_LOCAL 0xFF to be two bytes). */
  function OperandBytes(width: nat, operand: int): (r: seq<int>)
    ensures |r| == if width == 1 || width == 2 then width else 0
    ensures forall i | 0 <= i < |r| :: 0 <= r[i] < 0x100
  {
    if width == 2 then BigEndian.Bytes16(operand % 0x1_0000)
    else if width == 1 then [CInt.Low8(operand)]
    else []
  }

  function EncodeAsWritten(widths: seq<nat>, operands: seq<int>): seq<int>
    requires |operands| <= |widths|
  {
    if operands == [] then []
    else
      var n := |operands| - 1;
      EncodeAsWritten(widths, operands[..n]) + OperandBytesAsWritten(widths[n], operands[n])
  }

  /** The operand bytes of an instruction, first operand first. */
  function Encode(widths: seq<nat>, operands: seq<int>): seq<int>
    requires |operands| <= |widths|
  {
    EncodeFirst(widths, operands, |operands|)
  }

  /** The bytes of the first k operands, as make_instruction's loop has written them after k turns. */
  function EncodeFirst(widths: seq<nat>, operands: seq<int>, k: nat): seq<int>
    requires k <= |operands| <= |widths|
  {
    if k == 0 then [] else EncodeFirst(widths, operands, k - 1) + OperandBytes(widths[k - 1], operands[k - 1])
  }

  /** make_instruction as written, over the table as written. */
  function MakeInstructionAsWritten(op: nat, operands: seq<int>): seq<int>
    requires op < OpCount && |operands| <= 4
  {
    [op] + EncodeAsWritten(DefinitionAsWritten(op).widths, operands)
  }

  /** Over widths that are all zero the as-written encoding writes no operand bytes. */
  lemma {:induction false} EncodeAsWrittenZero(widths: seq<nat>, operands: seq<int>)
    requires |operands| <= |widths|
    requires forall i | 0 <= i < |widths| :: widths[i] == 0
    ensures EncodeAsWritten(widths, operands) == []
    decreases |operands|
  {
    if operands != [] {
      EncodeAsWrittenZero(widths, operands[..|operands| - 1]);
    }
  }

  /** Every opcode from OP_TRUE on has a zero-initialised entry, so make_instruction writes the opcode alone. */
  lemma {:induction false} AsWrittenOpcodeOnly(op: nat, operands: seq<int>)
    requires OpTrue <= op < OpCount && |operands| <= 4
    ensures MakeInstructionAsWritten(op, operands) == [op]
  {
    EncodeAsWrittenZero(DefinitionAsWritten(op).widths, operands);
  }

  /** One width-1 operand encodes as its low byte. */
  lemma {:induction false} EncodeOne(widths: seq<nat>, a: int)
    requires |widths| >= 1 && widths[0] == 1
    ensures Encode(widths, [a]) == [CInt.Low8(a)]
  {
    assert EncodeFirst(widths, [a], 1) == [] + OperandBytes(1, a);
  }

  /** A width-2 operand then a width-1 operand: two big-endian bytes, then a low byte. */
  lemma {:induction false} EncodeTwoOne(widths: seq<nat>, a: int, b: int)
    requires |widths| >= 2 && widths[0] == 2 && widths[1] == 1
    ensures Encode(widths, [a, b]) == BigEndian.Bytes16(a % 0x1_0000) + [CInt.Low8(b)]
  {
    var two := [a, b];
    assert EncodeFirst(widths, two, 1) == [] + OperandBytes(2, a);
    assert Encode(widths, two) == EncodeFirst(widths, two, 1) + OperandBytes(1, b);
  }

  lemma {:induction false} GetLocalEncoding()
    ensures Instruction(OpGetLocal, [0xFF]) == [OpGetLocal, 0xFF]
  {
    var w := DefinitionOf(OpGetLocal).widths;
    assert w[0] == 1;
    EncodeOne(w, 0xFF);
  }

  lemma {:induction false} ClosureEncoding()
    ensures Instruction(OpClosure, [0xFFFE, 0xFF]) == [OpClosure, 0xFF, 0xFE, 0xFF]
  {
    var w := DefinitionOf(OpClosure).widths;
    assert w[0] == 2 && w[1] == 1;
    EncodeTwoOne(w, 0xFFFE, 0xFF);
    assert BigEndian.Bytes16(0xFFFE) == [0xFF, 0xFE];
  }

  /** code_test expects [OP_GET_LOCAL, 0xFF] and [OP_CLOSURE, 0xFF, 0xFE, 0xFF]; the code as written drops the operands. */
  lemma {:induction false} MakeInstructionAsWrittenDropsOperands()
    ensures MakeInstructionAsWritten(OpGetLocal, [0xFF]) == [OpGetLocal]
    ensures MakeInstructionAsWritten(OpClosure, [0xFFFE, 0xFF]) == [OpClosure]
    ensures Instruction(OpGetLocal, [0xFF]) == [OpGetLocal, 0xFF]
    ensures Instruction(OpClosure, [0xFFFE, 0xFF]) == [OpClosure, 0xFF, 0xFE, 0xFF]
  {
    AsWrittenOpcodeOnly(OpGetLocal, [0xFF]);
    AsWrittenOpcodeOnly(OpClosure, [0xFFFE, 0xFF]);
    GetLocalEncoding();
    ClosureEncoding();
  }

  /** The instruction make_instruction builds with the corrected table. */
  function Instruction(op: nat, operands: seq<int>): seq<int>
    requires op < OpCount && |operands| <= 4
  {
    [op] + Encode(DefinitionOf(op).widths, operands)
  }

  /** The total width of the first k operands. */
  function Width(widths: seq<nat>, k: nat): nat
    requires k <= |widths|
  {
    if k == 0 then 0 else Width(widths, k - 1) + widths[k - 1]
  }

  /** The encoded operands take exactly the sum of their widths. */
  lemma {:induction false} EncodeLength(widths: seq<nat>, operands: seq<int>)
    requires |operands| <= |widths|
    requires forall i | 0 <= i < |operands| :: widths[i] == 1 || widths[i] == 2
    ensures |Encode(widths, operands)| == Width(widths, |operands|)
  {
    EncodeFirstLength(widths, operands, |operands|);
  }

  lemma {:induction false} EncodeFirstLength(widths: seq<nat>, operands: seq<int>, k: nat)
    requires k <= |operands| <= |widths|
    requires forall i | 0 <= i < |operands| :: widths[i] == 1 || widths[i] == 2
    ensures |EncodeFirst(widths, operands, k)| == Width(widths, k)
  {
    if k > 0 {
      EncodeFirstLength(widths, operands, k - 1);
    }
  }

  /**
   * make_instruction: the opcode byte, then each operand in its width (a
   * width-2 operand converted to uint16_t and written big-endian, and, as a
   * correction of the missing `case 1`, a width-1 operand as one byte).
   */
  method MakeInstruction(op: nat, operands: seq<int>) returns (ins: seq<int>)
    requires op < OpCount && |operands| <= 4
    ensures ins == Instruction(op, operands)
    ensures ins[0] == op
  {
    var def := DefinitionOf(op);
    ins := [op];
    var i := 0;
    while i < |operands|
      invariant 0 <= i <= |operands|
      invariant ins == [op] + EncodeFirst(def.widths, operands, i)
    {
      var width := def.widths[i];
      Seqs.AppendAssoc([op], EncodeFirst(def.widths, operands, i), OperandBytes(width, operands[i]));
      if width == 2 {
        ins := ins + BigEndian.Bytes16(operands[i] % 0x1_0000);
      } else if width == 1 {
        ins := ins + [CInt.Low8(operands[i])];
      }
      i := i + 1;
    }
  }

  // ---------------------------------------------------------------- decoding

  /**
   * The operands read_operands collects when the definition's first `count`
   * operands start at `offset`: a width-2 operand through
   * big_endian_read_uint16 (whose assert needs both bytes) and, as a
   * correction, a width-1 operand as one uint8 element (the switch as written
   * has no `case 1`; see DecodeOperandsAsWritten).  None: a read leaves the
   * stream.
   */
  function DecodeOperands(widths: seq<nat>, count: nat, ins: seq<int>, offset: nat): Option<seq<int>>
    requires count <= |widths|
    decreases count
  {
    if count == 0 then Some([])
    else
      match DecodeOperands(widths, count - 1, ins, offset)
      case None => None
      case Some(prev) =>
        var at := offset + Width(widths, count - 1);
        var w := widths[count - 1];
        if w == 2 then
          if at + 2 <= |ins| then Some(prev + [BigEndian.ReadUint16(ins, at)]) else None
        else if w == 1 then
          if at < |ins| then Some(prev + [CInt.Low8(ins[at])]) else None
        else Some(prev)
  }

  /**
   * read_operands as written: its switch has only `case 2`, so a width-1
   * operand is stepped over without being read.
   */
  function DecodeOperandsAsWritten(widths: seq<nat>, count: nat, ins: seq<int>, offset: nat): Option<seq<int>>
    requires count <= |widths|
    decreases count
  {
    if count == 0 then Some([])
    else
      match DecodeOperandsAsWritten(widths, count - 1, ins, offset)
      case None => None
      case Some(prev) =>
        var at := offset + Width(widths, count - 1);
        if widths[count - 1] == 2 then
          if at + 2 <= |ins| then Some(prev + [BigEndian.ReadUint16(ins, at)]) else None
        else Some(prev)
  }

  /**
   * make_instruction and read_operands have no `case 1`: even over the
   * corrected table, OP_GET_LOCAL 0xFF is written as the opcode alone and its
   * operand byte is stepped over unread, where the corrected encoding and
   * decoding write and read the byte.
   */
  lemma {:induction false} WidthOneDroppedAsWritten()
    ensures EncodeAsWritten(DefinitionOf(OpGetLocal).widths, [0xFF]) == []
    ensures DecodeOperandsAsWritten(DefinitionOf(OpGetLocal).widths, 1, [OpGetLocal, 0xFF], 1) == Some([])
    ensures Encode(DefinitionOf(OpGetLocal).widths, [0xFF]) == [0xFF]
    ensures DecodeOperands(DefinitionOf(OpGetLocal).widths, 1, [OpGetLocal, 0xFF], 1) == Some([0xFF])
  {
    var widths := DefinitionOf(OpGetLocal).widths;
    assert widths[0] == 1;
    assert [0xFF][..0] == [];
    assert CInt.Low8(0xFF) == 0xFF;
    assert EncodeFirst(widths, [0xFF], 1) == OperandBytes(1, 0xFF);
  }

  /** read_operands: walks the operand widths with a running offset; bytes_read is the distance covered. */
  method ReadOperands(def: Definition, ins: seq<int>, offset: nat) returns (operands: Option<seq<int>>, bytesRead: nat)
    requires def.WellFormed()
    ensures operands == DecodeOperands(def.widths, def.operandCount, ins, offset)
    ensures bytesRead == Width(def.widths, def.operandCount)
  {
    var at := offset;
    var acc: seq<int> := [];
    var i := 0;
    var failed := false;
    while i < def.operandCount
      invariant 0 <= i <= def.operandCount
      invariant at == offset + Width(def.widths, i)
      invariant failed ==> DecodeOperands(def.widths, i, ins, offset) == None
      invariant !failed ==> DecodeOperands(def.widths, i, ins, offset) == Some(acc)
    {
      var w := def.widths[i];
      if !failed {
        if w == 2 {
          if at + 2 <= |ins| { acc := acc + [BigEndian.ReadUint16(ins, at)]; } else { failed := true; }
        } else if w == 1 {
          if at < |ins| { acc := acc + [CInt.Low8(ins[at])]; } else { failed := true; }
        }
      }
      at := at + w;
      i := i + 1;
    }
    operands := if failed then None else Some(acc);
    bytesRead := at - offset;
  }

  /** An operand fits its width: one that make_instruction writes without truncation. */
  predicate Fits(width: nat, operand: int)
  {
    (width == 2 ==> 0 <= operand < 0x1_0000) && (width == 1 ==> 0 <= operand < 0x100)
  }

  /** One operand read back from where its encoding lies. */
  lemma {:induction false} ReadEncodedOperand(width: nat, operand: int, s: seq<int>, at: nat)
    requires (width == 1 || width == 2) && Fits(width, operand)
    requires at + width <= |s| && s[at..at + width] == OperandBytes(width, operand)
    ensures width == 2 ==> BigEndian.ReadUint16(s, at) == operand
    ensures width == 1 ==> CInt.Low8(s[at]) == operand
  {
    assert s[at] == s[at..at + width][0];
    if width == 2 {
      assert s[at + 1] == s[at..at + width][1];
    }
  }

  /** Decoding one operand more, of width 1 or 2, appends what is read at its position. */
  lemma {:induction false} DecodeStep(widths: seq<nat>, k: nat, s: seq<int>, offset: nat, prev: seq<int>, x: int)
    requires 0 < k <= |widths| && (widths[k - 1] == 1 || widths[k - 1] == 2)
    requires DecodeOperands(widths, k - 1, s, offset) == Some(prev)
    requires var at := offset + Width(widths, k - 1);
      && at + widths[k - 1] <= |s|
      && (widths[k - 1] == 2 ==> BigEndian.ReadUint16(s, at) == x)
      && (widths[k - 1] == 1 ==> CInt.Low8(s[at]) == x)
    ensures DecodeOperands(widths, k, s, offset) == Some(prev + [x])
  {
  }

  /** Once the operands before position j decode, the operand encoded after them decodes as well. */
  lemma {:induction false} DecodeNext(widths: seq<nat>, operands: seq<int>, j: nat, prefix: seq<int>, head: seq<int>,
                                      last: seq<int>, suffix: seq<int>, s: seq<int>)
    requires j < |operands| <= |widths| && (widths[j] == 1 || widths[j] == 2) && Fits(widths[j], operands[j])
    requires |head| == Width(widths, j) && last == OperandBytes(widths[j], operands[j])
    requires s == prefix + head + last + suffix
    requires DecodeOperands(widths, j, s, |prefix|) == Some(operands[..j])
    ensures DecodeOperands(widths, j + 1, s, |prefix|) == Some(operands[..j + 1])
  {
    Seqs.MiddleSlice(prefix + head, last, suffix);
    ReadEncodedOperand(widths[j], operands[j], s, |prefix| + Width(widths, j));
    DecodeStep(widths, j + 1, s, |prefix|, operands[..j], operands[j]);
    Seqs.SnocSlice(operands, j);
  }

  /** Decoding the first k operands of an encoding, whatever precedes or follows it, gives them back. */
  lemma {:induction false} DecodeFirst(widths: seq<nat>, operands: seq<int>, k: nat, prefix: seq<int>, suffix: seq<int>)
    requires k <= |operands| <= |widths|
    requires forall i | 0 <= i < |operands| :: (widths[i] == 1 || widths[i] == 2) && Fits(widths[i], operands[i])
    ensures DecodeOperands(widths, k, prefix + EncodeFirst(widths, operands, k) + suffix, |prefix|) == Some(operands[..k])
    decreases k
  {
    if k > 0 {
      var j := k - 1;
      var head := EncodeFirst(widths, operands, j);
      var last := OperandBytes(widths[j], operands[j]);
      var s := prefix + head + last + suffix;
      assert EncodeFirst(widths, operands, k) == head + last;
      Seqs.AppendAssoc(prefix, head, last);
      Seqs.AppendAssoc(prefix + head, last, suffix);
      DecodeFirst(widths, operands, j, prefix, last + suffix);
      EncodeFirstLength(widths, operands, j);
      DecodeNext(widths, operands, j, prefix, head, last, suffix, s);
    }
  }

  /** Decoding the operands of an encoded instruction gives the operands back, whatever precedes or follows. */
  lemma {:induction false} DecodeEncode(widths: seq<nat>, operands: seq<int>, prefix: seq<int>, suffix: seq<int>)
    requires |operands| <= |widths|
    requires forall i | 0 <= i < |operands| :: (widths[i] == 1 || widths[i] == 2) && Fits(widths[i], operands[i])
    ensures DecodeOperands(widths, |operands|, prefix + Encode(widths, operands) + suffix, |prefix|) == Some(operands)
  {
    DecodeFirst(widths, operands, |operands|, prefix, suffix);
    assert operands[..|operands|] == operands;
  }

  /** Round trip: read_operands(lookup(op), make_instruction(op, ops), 1) gives ops and skips the encoded operand bytes. */
  lemma {:induction false} ReadOperandsRoundTrip(op: nat, operands: seq<int>, suffix: seq<int>)
    requires op < OpCount && |operands| == DefinitionOf(op).operandCount
    requires forall i | 0 <= i < |operands| :: Fits(DefinitionOf(op).widths[i], operands[i])
    ensures var ins := Instruction(op, operands) + suffix;
            DecodeOperands(DefinitionOf(op).widths, |operands|, ins, 1) == Some(operands)
            && 1 + Width(DefinitionOf(op).widths, |operands|) == |Instruction(op, operands)|
  {
    var w := DefinitionOf(op).widths;
    DefinitionWidths(op);
    DecodeEncode(w, operands, [op], suffix);
    EncodeLength(w, operands);
  }

  // ---------------------------------------------------------------- disassembly

  /** `%s` of the name; glibc prints a NULL string as "(null)". */
  function NameText(def: Definition): string
  {
    if def.name.Some? && def.name.value < OpCount then Name(def.name.value) else "(null)"
  }

  /** Every entry of the corrected table prints its opcode's enumerator name, never "(null)". */
  lemma {:induction false} EveryOpcodeNamed(op: nat)
    requires op < OpCount
    ensures NameText(DefinitionOf(op)) == Name(op)
    ensures Name(op) != "(null)"
  {
  }

  /** The text format_instruction gives when the operand count differs from the definition's. */
  function CountMismatch(given: nat, defined: nat): string
  {
    "ERROR: operand len " + Fmt.IntToString(given) + " does not match defined " + Fmt.IntToString(defined) + "\n"
  }

  /** format_instruction as written: it handles 0 or 1 operands and asserts on any other count (None). */
  function FormatAsWritten(def: Definition, operands: seq<int>): Option<string>
  {
    if |operands| != def.operandCount then Some(CountMismatch(|operands|, def.operandCount))
    else if def.operandCount == 0 then Some(NameText(def))
    else if def.operandCount == 1 then Some(NameText(def) + " " + Fmt.IntToString(operands[0]))
    else None
  }

  /** The decimal texts of OP_CLOSURE's operands in code_test. */
  lemma {:induction false} ClosureOperandTexts()
    ensures Fmt.IntToString(65535) == "65535" && Fmt.IntToString(255) == "255"
  {
    assert Fmt.NatToString(65535) == "65535" by {
      assert Fmt.NatToString(6) == "6";
      assert Fmt.NatToString(65) == "65";
      assert Fmt.NatToString(655) == "655";
      assert Fmt.NatToString(6553) == "6553";
    }
    assert Fmt.NatToString(255) == "255" by {
      assert Fmt.NatToString(25) == "25";
    }
  }

  /** OP_CLOSURE's entry in the corrected table: its name and two operands. */
  lemma {:induction false} ClosureDefinition()
    ensures NameText(DefinitionOf(OpClosure)) == "OP_CLOSURE" && DefinitionOf(OpClosure).operandCount == 2
  {
    assert OperandWidths(OpClosure) == [2, 1];
    assert Name(OpClosure) == "OP_CLOSURE";
  }

  /** OP_CLOSURE has two operands, which the as-written formatter cannot print; code_test expects "OP_CLOSURE 65535 255". */
  lemma {:induction false} FormatAsWrittenRejectsClosure()
    ensures FormatAsWritten(DefinitionOf(OpClosure), [65535, 255]).None?
    ensures Format(DefinitionOf(OpClosure), [65535, 255]) == Some("OP_CLOSURE 65535 255")
  {
    ClosureOperandTexts();
    ClosureDefinition();
    var whole := "OP_CLOSURE" + " " + "65535" + " " + "255";
    assert Format(DefinitionOf(OpClosure), [65535, 255]) == Some(whole);
    assert |whole| == 20;
    assert forall k | 0 <= k < 20 :: whole[k] == "OP_CLOSURE 65535 255"[k];
    assert whole == "OP_CLOSURE 65535 255";
  }

  /** format_instruction with the evidently intended two-operand case added. */
  function Format(def: Definition, operands: seq<int>): Option<string>
  {
    if |operands| != def.operandCount then Some(CountMismatch(|operands|, def.operandCount))
    else if def.operandCount == 0 then Some(NameText(def))
    else if def.operandCount == 1 then Some(NameText(def) + " " + Fmt.IntToString(operands[0]))
    else if def.operandCount == 2 then
      Some(NameText(def) + " " + Fmt.IntToString(operands[0]) + " " + Fmt.IntToString(operands[1]))
    else None
  }

  /** With the corrected table every instruction formats: no opcode has more than two operands. */
  lemma {:induction false} FormatTotal(op: nat, operands: seq<int>)
    requires op < OpCount
    ensures Format(DefinitionOf(op), operands).Some?
  {
    DefinitionWidths(op);
  }

  /** A listing line: the offset in four digits, a space, the instruction's text and a newline. */
  function Line(offset: nat, text: string): string
  {
    Fmt.Pad4(offset) + " " + text + "\n"
  }

  /** The line instructions_to_string appends for an opcode lookup does not know. */
  function UnknownLine(op: int): string
  {
    "ERROR: unknown opcode " + Fmt.IntToString(op) + "\n"
  }

  /** s prepended to a result; an aborted run stays aborted. */
  function Prepend(s: string, r: Option<string>): Option<string>
  {
    if r.None? then None else Some(s + r.value)
  }

  /**
   * What one iteration of instructions_to_string finds at an offset: a known
   * opcode with the operands read after it, or an opcode lookup rejects.
   */
  datatype Entry = Listed(offset: nat, def: Definition, operands: seq<int>) | Unknown(op: int)

  /**
   * One iteration of instructions_to_string at position i: the entry found
   * there and the next position.  An unknown opcode advances by one; a known
   * one advances past its operand bytes.  None: a read off the stream aborts
   * the run.
   */
  function Step(ins: seq<int>, i: nat): Option<(Entry, nat)>
    requires i < |ins|
  {
    match Lookup(ins[i])
    case None => Some((Unknown(ins[i]), i + 1))
    case Some(def) =>
      match DecodeOperands(def.widths, def.operandCount, ins, i + 1)
      case None => None
      case Some(operands) => Some((Listed(i, def, operands), i + 1 + Width(def.widths, def.operandCount)))
  }

  /**
   * The line appended for an entry: "%04ld %s\n" of the offset and the
   * formatted instruction, or the unknown-opcode error.  None: the
   * formatter's assert aborts the run.
   */
  function Render(e: Entry): Option<string>
  {
    match e
    case Unknown(op) => Some(UnknownLine(op))
    case Listed(offset, def, operands) =>
      match Format(def, operands)
      case None => None
      case Some(text) => Some(Line(offset, text))
  }

  /** The listing from position i on; every step advances. */
  function Disassemble(ins: seq<int>, i: nat): Option<string>
    decreases |ins| - i
  {
    if i >= |ins| then Some("")
    else match Step(ins, i)
      case None => None
      case Some((entry, next)) =>
        if next <= i || Render(entry).None? then None else Prepend(Render(entry).value, Disassemble(ins, next))
  }

  lemma {:induction false} PrependAssoc(a: string, b: string, r: Option<string>)
    ensures Prepend(a, Prepend(b, r)) == Prepend(a + b, r)
  {
    if r.Some? { assert a + (b + r.value) == (a + b) + r.value; }
  }

  lemma {:induction false} PrependEmpty(r: Option<string>)
    ensures Prepend("", r) == r
  {
    if r.Some? { assert "" + r.value == r.value; }
  }

  /** A step that moves forward to an entry with a line puts that line in front of the rest of the listing. */
  lemma {:induction false} DisassembleStep(ins: seq<int>, i: nat, entry: Entry, next: nat, line: string)
    requires i < |ins| && Step(ins, i) == Some((entry, next)) && next > i && Render(entry) == Some(line)
    ensures Disassemble(ins, i) == Prepend(line, Disassemble(ins, next))
  {
  }

  /** A step that aborts aborts the listing. */
  lemma {:induction false} DisassembleAbort(ins: seq<int>, i: nat)
    requires i < |ins| && Step(ins, i).None?
    ensures Disassemble(ins, i).None?
  {
  }

  /** The step over a known opcode whose operands could be read. */
  lemma {:induction false} StepKnown(ins: seq<int>, i: nat, def: Definition, operands: seq<int>, next: nat)
    requires i < |ins| && Lookup(ins[i]) == Some(def)
    requires DecodeOperands(def.widths, def.operandCount, ins, i + 1) == Some(operands)
    requires next == i + 1 + Width(def.widths, def.operandCount)
    ensures Step(ins, i) == Some((Listed(i, def, operands), next))
  {
  }

  /** Every instruction of the corrected table has a line. */
  lemma {:induction false} RenderListed(offset: nat, op: nat, operands: seq<int>)
    requires op < OpCount
    ensures Render(Listed(offset, DefinitionOf(op), operands)) == Some(Line(offset, Format(DefinitionOf(op), operands).value))
  {
    FormatTotal(op, operands);
  }

  /**
   * Disassembling an encoded instruction: at the instruction's offset the
   * listing finds the opcode's definition with exactly the operands it was
   * built from, and moves just past its operand bytes; DisassembleStep and
   * RenderListed then put its line in front of the rest.
   */
  lemma {:induction false} DisassembleInstruction(prefix: seq<int>, op: nat, operands: seq<int>, suffix: seq<int>, s: seq<int>) returns (next: nat)
    requires op < OpCount && |operands| == DefinitionOf(op).operandCount
    requires forall i | 0 <= i < |operands| :: Fits(DefinitionOf(op).widths[i], operands[i])
    requires s == prefix + Instruction(op, operands) + suffix
    ensures next == |prefix| + |Instruction(op, operands)| && next <= |s|
    ensures |prefix| < |s| && Step(s, |prefix|) == Some((Listed(|prefix|, DefinitionOf(op), operands), next))
  {
    InstructionLayout(prefix, op, operands, suffix, s);
    next := |prefix| + |Instruction(op, operands)|;
    StepKnown(s, |prefix|, DefinitionOf(op), operands, next);
  }

  /** Where an encoded instruction's opcode and operands lie in a stream that contains it. */
  lemma {:induction false} InstructionLayout(prefix: seq<int>, op: nat, operands: seq<int>, suffix: seq<int>, s: seq<int>)
    requires op < OpCount && |operands| == DefinitionOf(op).operandCount
    requires forall i | 0 <= i < |operands| :: Fits(DefinitionOf(op).widths[i], operands[i])
    requires s == prefix + Instruction(op, operands) + suffix
    ensures |prefix| < |s| && s[|prefix|] == op
    ensures DecodeOperands(DefinitionOf(op).widths, |operands|, s, |prefix| + 1) == Some(operands)
    ensures |Instruction(op, operands)| == 1 + Width(DefinitionOf(op).widths, |operands|)
  {
    var w := DefinitionOf(op).widths;
    DefinitionWidths(op);
    var e := Encode(w, operands);
    assert Instruction(op, operands) == [op] + e;
    Seqs.AppendAssoc(prefix, [op], e);
    assert s == prefix + [op] + e + suffix;
    DecodeEncode(w, operands, prefix + [op], suffix);
    EncodeLength(w, operands);
  }

  /**
   * One iteration of instructions_to_string over the table as written: the
   * as-written lookup.  An opcode equal to OP_COUNT passes the guard and
   * reads one entry past the table, which is undefined (None).
   */
  function StepAsWritten(ins: seq<int>, i: nat): Option<(Entry, nat)>
    requires i < |ins|
  {
    match LookupAsWritten(ins[i])
    case NotFound => Some((Unknown(ins[i]), i + 1))
    case PastEnd => None
    case Found(def) =>
      match DecodeOperands(def.widths, def.operandCount, ins, i + 1)
      case None => None
      case Some(operands) => Some((Listed(i, def, operands), i + 1 + Width(def.widths, def.operandCount)))
  }

  /** The line for an entry with the as-written formatter. */
  function RenderAsWritten(e: Entry): Option<string>
  {
    match e
    case Unknown(op) => Some(UnknownLine(op))
    case Listed(offset, def, operands) =>
      match FormatAsWritten(def, operands)
      case None => None
      case Some(text) => Some(Line(offset, text))
  }

  /** The as-written listing from position i on. */
  function DisassembleAsWritten(ins: seq<int>, i: nat): Option<string>
    decreases |ins| - i
  {
    if i >= |ins| then Some("")
    else match StepAsWritten(ins, i)
      case None => None
      case Some((entry, next)) =>
        if next <= i || RenderAsWritten(entry).None? then None
        else Prepend(RenderAsWritten(entry).value, DisassembleAsWritten(ins, next))
  }

  /** The listing line of a lone zero-operand instruction at offset 0. */
  lemma {:induction false} LoneLine(name: string, expected: string)
    requires expected == "0000 " + name + "\n"
    ensures Line(0, name) == expected
  {
    assert Fmt.NatToString(0) == "0";
    assert Fmt.Zeros(3) == "000" by {
      assert Fmt.Zeros(1) == "0";
      assert Fmt.Zeros(2) == "00";
    }
    assert Fmt.Pad4(0) == "0000";
  }

  /** The one line of a listing whose single entry renders as `line`. */
  lemma {:induction false} LoneEntry(entry: Entry, line: string)
    requires Step([OpTrue], 0) == Some((entry, 1)) && Render(entry) == Some(line)
    ensures Disassemble([OpTrue], 0) == Some(line)
  {
    assert Disassemble([OpTrue], 1) == Some("");
    assert line + "" == line;
  }

  /** The one line of an as-written listing whose single entry renders as `line`. */
  lemma {:induction false} LoneEntryAsWritten(entry: Entry, line: string)
    requires StepAsWritten([OpTrue], 0) == Some((entry, 1)) && RenderAsWritten(entry) == Some(line)
    ensures DisassembleAsWritten([OpTrue], 0) == Some(line)
  {
    assert DisassembleAsWritten([OpTrue], 1) == Some("");
    assert line + "" == line;
  }

  /**
   * Every entry from OP_TRUE on is zero-initialised, so the as-written
   * listing prints a NULL name where the corrected table prints the opcode's.
   */
  lemma {:induction false} DisassembleAsWrittenNullName()
    ensures DisassembleAsWritten([OpTrue], 0) == Some("0000 (null)\n")
    ensures Disassemble([OpTrue], 0) == Some("0000 OP_TRUE\n")
  {
    OpTrueListingAsWritten();
    OpTrueListing();
  }

  /** The as-written listing of a lone OP_TRUE. */
  lemma {:induction false} OpTrueListingAsWritten()
    ensures DisassembleAsWritten([OpTrue], 0) == Some("0000 (null)\n")
  {
    LoneLine("(null)", "0000 (null)\n");
    var written := Listed(0, DefinitionAsWritten(OpTrue), []);
    assert StepAsWritten([OpTrue], 0) == Some((written, 1));
    assert FormatAsWritten(DefinitionAsWritten(OpTrue), []) == Some("(null)");
    LoneEntryAsWritten(written, "0000 (null)\n");
  }

  /** The corrected listing of a lone OP_TRUE. */
  lemma {:induction false} OpTrueListing()
    ensures Disassemble([OpTrue], 0) == Some("0000 OP_TRUE\n")
  {
    LoneLine("OP_TRUE", "0000 OP_TRUE\n");
    var corrected := Listed(0, DefinitionOf(OpTrue), []);
    assert Step([OpTrue], 0) == Some((corrected, 1));
    assert Name(OpTrue) == "OP_TRUE";
    assert Format(DefinitionOf(OpTrue), []) == Some("OP_TRUE");
    LoneEntry(corrected, "0000 OP_TRUE\n");
  }

  /** The as-written guard lets OP_COUNT through to a read past the table; the corrected one reports it as unknown. */
  lemma {:induction false} DisassembleAsWrittenPastEnd()
    ensures DisassembleAsWritten([OpCount], 0).None?
    ensures Disassemble([OpCount], 0).Some?
  {
    assert StepAsWritten([OpCount], 0).None?;
    assert Step([OpCount], 0).Some?;
  }

  /** An unknown opcode at i: its error line joins the listing built so far. */
  lemma {:induction false} ListUnknown(ins: seq<int>, i: nat, out: string)
    requires i < |ins| && Lookup(ins[i]).None?
    requires Disassemble(ins, 0) == Prepend(out, Disassemble(ins, i))
    ensures Disassemble(ins, 0) == Prepend(out + UnknownLine(ins[i]), Disassemble(ins, i + 1))
  {
    var line := UnknownLine(ins[i]);
    DisassembleStep(ins, i, Unknown(ins[i]), i + 1, line);
    PrependAssoc(out, line, Disassemble(ins, i + 1));
  }

  /** A known opcode at i whose operands were read: its line joins the listing built so far. */
  lemma {:induction false} ListKnown(ins: seq<int>, i: nat, def: Definition, operands: seq<int>, out: string, line: string, next: nat)
    requires i < |ins| && Lookup(ins[i]) == Some(def)
    requires DecodeOperands(def.widths, def.operandCount, ins, i + 1) == Some(operands)
    requires Format(def, operands).Some? && line == Line(i, Format(def, operands).value)
    requires next == i + 1 + Width(def.widths, def.operandCount)
    requires Disassemble(ins, 0) == Prepend(out, Disassemble(ins, i))
    ensures Disassemble(ins, 0) == Prepend(out + line, Disassemble(ins, next))
  {
    RenderListed(i, ins[i], operands);
    StepKnown(ins, i, def, operands, next);
    DisassembleStep(ins, i, Listed(i, def, operands), next, line);
    PrependAssoc(out, line, Disassemble(ins, next));
  }

  /** instructions_to_string: the listing of the whole stream, built by appending to a buffer. */
  method InstructionsToString(ins: seq<int>) returns (listing: Option<string>)
    ensures listing == Disassemble(ins, 0)
  {
    var out := "";
    var i := 0;
    PrependEmpty(Disassemble(ins, 0));
    while i < |ins|
      invariant Disassemble(ins, 0) == Prepend(out, Disassemble(ins, i))
      decreases |ins| - i
    {
      var def := Lookup(ins[i]);
      if def.None? {
        ListUnknown(ins, i, out);
        out := out + UnknownLine(ins[i]);
        i := i + 1;
        continue;
      }
      var operands, bytesRead := ReadOperands(def.value, ins, i + 1);
      if operands.None? {
        DisassembleAbort(ins, i);
        return None;
      }
      FormatTotal(ins[i], operands.value);
      var line := Line(i, Format(def.value, operands.value).value);
      var next := i + 1 + bytesRead;
      ListKnown(ins, i, def.value, operands.value, out, line, next);
      out := out + line;
      i := next;
    }
    assert Disassemble(ins, i) == Some("");
    assert out + "" == out;
    listing := Some(out);
  }
}
