/**
 * strlcpy from src/str_utils/str_utils.c: a bounded string copy into a
 * buffer of `siz` characters that always NUL-terminates a non-empty buffer
 * and returns the length of the source.  C strings are character sequences
 * holding a NUL; the string is the part before the first NUL.
 */
module StrUtils {

  /** strlen: the index of the first NUL. */
  function StrLen(s: seq<char>): (n: nat)
    requires '\0' in s
    ensures n < |s| && s[n] == '\0'
    ensures forall i | 0 <= i < n :: s[i] != '\0'
  {
    if s[0] == '\0' then 0 else 1 + StrLen(s[1..])
  }

  function Min(a: int, b: int): int { if a < b then a else b }

  /**
   * The buffer after strlcpy(dst, src, siz): nothing is written when siz is
   * 0; otherwise the first min(strlen(src), siz - 1) characters of src are
   * copied and a NUL follows them.  The rest of the buffer keeps its old
   * contents.
   */
  function Copied(d: seq<char>, src: seq<char>, siz: nat): seq<char>
    requires '\0' in src && siz <= |d|
  {
    if siz == 0 then d
    else
      var k := Min(StrLen(src), siz - 1);
      src[..k] + ['\0'] + d[k + 1..]
  }

  /** Whatever siz is, the result of a call with siz > 0 is the C string src truncated to siz - 1 characters. */
  lemma {:induction false} CopiedIsTruncation(d: seq<char>, src: seq<char>, siz: nat)
    requires '\0' in src && 0 < siz <= |d|
    ensures |Copied(d, src, siz)| == |d|
    ensures '\0' in Copied(d, src, siz)
    ensures StrLen(Copied(d, src, siz)) == Min(StrLen(src), siz - 1)
    ensures Copied(d, src, siz)[..StrLen(Copied(d, src, siz))] == src[..Min(StrLen(src), siz - 1)]
  {
    var k := Min(StrLen(src), siz - 1);
    var r := Copied(d, src, siz);
    assert r[k] == '\0';
    assert forall i | 0 <= i < k :: r[i] == src[i];
    StrLenAt(r, k);
  }

  /** A string whose first NUL is at k has length k. */
  lemma {:induction false} StrLenAt(s: seq<char>, k: nat)
    requires k < |s| && s[k] == '\0'
    requires forall i | 0 <= i < k :: s[i] != '\0'
    ensures StrLen(s) == k
  {
    if k > 0 {
      StrLenAt(s[1..], k - 1);
    }
  }

  /** When src fits (strlen(src) < siz), the buffer holds exactly the C string src. */
  lemma {:induction false} CopiedWhenFits(d: seq<char>, src: seq<char>, siz: nat)
    requires '\0' in src && StrLen(src) < siz <= |d|
    ensures Copied(d, src, siz)[..StrLen(src) + 1] == src[..StrLen(src) + 1]
  {
    var k := StrLen(src);
    assert Copied(d, src, siz)[..k + 1] == src[..k] + ['\0'];
    assert src[..k + 1] == src[..k] + [src[k]];
  }

  /**
   * strlcpy: copies with two cursors and a countdown n, as the source does;
   * returns strlen(src) whatever siz is.
   */
  method Strlcpy(dst: array<char>, src: seq<char>, siz: nat) returns (count: nat)
    requires '\0' in src && siz <= dst.Length
    modifies dst
    ensures count == StrLen(src)
    ensures dst[..] == Copied(old(dst[..]), src, siz)
  {
    ghost var d0 := dst[..];
    var len := StrLen(src);
    var d, s, n := 0, 0, siz;
    if n != 0 {
      n := n - 1;
      while n != 0
        invariant d == s <= len && s + n == siz - 1
        invariant dst[..s] == src[..s]
        invariant dst[s..] == d0[s..]
        decreases n
      {
        var c := src[s];
        dst[d] := c;
        d, s := d + 1, s + 1;
        if c == '\0' {
          break;
        }
        n := n - 1;
      }
    }
    if n == 0 {
      if siz != 0 {
        dst[d] := '\0';
      }
      while src[s] != '\0'
        invariant s <= len
        decreases len - s
      {
        s := s + 1;
      }
      s := s + 1;
    }
    count := s - 1;
    if siz != 0 {
      var k := Min(len, siz - 1);
      assert dst[..] == src[..k] + ['\0'] + d0[k + 1..];
    }
  }
}
