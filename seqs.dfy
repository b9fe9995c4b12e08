/** Facts about sequences that proofs elsewhere invoke by name. */
module Seqs {
  /** Concatenation is associative; stated once so that a proof need not rediscover it element by element. */
  lemma {:induction false} AppendAssoc<T>(a: seq<T>, b: seq<T>, c: seq<T>)
    ensures (a + b) + c == a + (b + c)
  {
  }

  /** The middle part of a three-part concatenation, sliced back out. */
  lemma {:induction false} MiddleSlice<T>(a: seq<T>, b: seq<T>, c: seq<T>)
    ensures (a + b + c)[|a|..|a| + |b|] == b
  {
  }

  /** A slice that lies in the front part of a concatenation is a slice of that part. */
  lemma {:induction false} SliceOfFront<T>(a: seq<T>, b: seq<T>, lo: nat, hi: nat)
    requires lo <= hi <= |a|
    ensures (a + b)[lo..hi] == a[lo..hi]
  {
    forall i | 0 <= i < hi - lo
      ensures (a + b)[lo..hi][i] == a[lo..hi][i]
    {
      assert (a + b)[lo + i] == a[lo + i];
    }
  }

  /** A slice of the part of s held at offset, taken relative to offset. */
  lemma {:induction false} SliceWithin<T>(s: seq<T>, offset: nat, e: seq<T>, lo: nat, hi: nat)
    requires offset + |e| <= |s| && s[offset..offset + |e|] == e && lo <= hi <= |e|
    ensures s[offset + lo..offset + hi] == e[lo..hi]
  {
    forall i | 0 <= i < hi - lo
      ensures s[offset + lo..offset + hi][i] == e[lo..hi][i]
    {
      assert s[offset + lo + i] == s[offset..offset + |e|][lo + i];
    }
  }

  /** The first j + 1 elements are the first j and then element j. */
  lemma {:induction false} SnocSlice<T>(s: seq<T>, j: nat)
    requires j < |s|
    ensures s[..j] + [s[j]] == s[..j + 1]
  {
  }
}
