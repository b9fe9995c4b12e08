/**
 * Big-endian 16-bit encoding (src/big_endian/big_endian.c), used for
 * two-byte instruction operands and for the lengths in the bytecode file.
 */
module BigEndian {
  import DynArray
  import CInt

  type uint8 = x: int | 0 <= x < 0x100
  type uint16 = x: int | 0 <= x < 0x1_0000

  /** The two bytes of num, high byte first. */
  function Bytes16(num: uint16): (r: seq<uint8>)
    ensures |r| == 2 && r[0] as int * 0x100 + r[1] == num
  {
    [num / 0x100, num % 0x100]
  }

  /** big_endian_as_uint16: writes the high byte of num to buf[0] and the low byte to buf[1]. */
  method AsUint16(num: uint16, buf: array<int>)
    requires buf.Length >= 2
    modifies buf
    ensures buf[..2] == Bytes16(num)
    ensures buf[2..] == old(buf[2..])
  {
    buf[0] := (num / 0x100) % 0x100;
    buf[1] := num % 0x100;
    assert buf[..2] == [buf[0], buf[1]];
  }

  /** big_endian_push_uint16: appends the high byte, then the low byte. */
  method PushUint16(arr: DynArray.Array<int>, num: uint16)
    requires arr.Valid() && arr.cap > 0
    modifies arr, arr.buf
    ensures arr.Valid() && arr.cap > 0
    ensures arr.Contents() == old(arr.Contents()) + Bytes16(num)
  {
    arr.Append((num / 0x100) % 0x100);
    arr.Append(num % 0x100);
  }

  /**
   * big_endian_read_uint16: `(arr[offset] << 8) | arr[offset + 1]`, computed
   * on C ints and truncated to the uint16 return type.  The low 16 bits of
   * the shifted high element are its low byte times 256; the elements may be
   * any int (a loaded file can hold negative ones).  The source asserts that
   * both positions exist.
   */
  function ReadUint16(s: seq<int>, offset: nat): (r: uint16)
    requires offset + 2 <= |s|
    ensures 0 <= s[offset] < 0x100 && 0 <= s[offset + 1] < 0x100 ==>
              r == s[offset] * 0x100 + s[offset + 1]
  {
    ReadUint16Value(s[offset], s[offset + 1]);
    CInt.NatOr(CInt.Low8(s[offset]) * 0x100, s[offset + 1] % 0x1_0000)
  }

  /** The bits of the shifted low byte of x and the low 16 bits of y do not overlap. */
  lemma {:induction false} ReadUint16Value(x: int, y: int)
    ensures CInt.NatOr(CInt.Low8(x) * 0x100, y % 0x1_0000) < 0x1_0000
    ensures 0 <= x < 0x100 && 0 <= y < 0x100 ==> CInt.NatOr(CInt.Low8(x) * 0x100, y % 0x1_0000) == x * 0x100 + y
  {
    var hi := CInt.Low8(x);
    var lo := y % 0x1_0000;
    CInt.Pow2Bytes();
    CInt.NatOrBound(hi * 0x100, lo, 16);
    if 0 <= x < 0x100 && 0 <= y < 0x100 {
      assert hi == x && lo == y;
      CInt.NatOrDisjoint(hi, lo, 8);
    }
  }

  /** Reading back at the offset where num was pushed gives num, whatever precedes or follows it. */
  lemma {:induction false} ReadAfterPush(prefix: seq<int>, num: uint16, suffix: seq<int>)
    ensures ReadUint16(prefix + Bytes16(num) + suffix, |prefix|) == num
  {
    var s := prefix + Bytes16(num) + suffix;
    assert s[|prefix|] == Bytes16(num)[0] && s[|prefix| + 1] == Bytes16(num)[1];
  }
}
