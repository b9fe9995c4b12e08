/**
 * The growable arrays of src/dyn_array/dyn_array.c.  `DynamicArray` (of
 * `void*`) and `IntArray` (of `int`) are the same code twice; the model has
 * one generic class, instantiated at `int` for instruction streams.
 *
 * `buf` is the calloc'd block (null after a free), `cap` its size in
 * elements and `len` the number of elements in use.
 */
module DynArray {

  class Array<T(0)> {
    var buf: array?<T>
    var cap: nat
    var len: nat

    ghost predicate Valid()
      reads this
    {
      && len <= cap
      && (buf == null ==> cap == 0)
      && (buf != null ==> buf.Length == cap)
    }

    /** The elements in use, in index order. */
    ghost function Contents(): seq<T>
      reads this, buf
      requires Valid()
    {
      if buf == null then [] else buf[..len]
    }

    /** array_init / int_array_init: an empty array with room for initialSize elements. */
    constructor Init(initialSize: nat)
      ensures Valid() && fresh(buf)
      ensures cap == initialSize && len == 0 && Contents() == []
    {
      buf := new T[initialSize];
      cap := initialSize;
      len := 0;
    }

    /**
     * array_append / int_array_append.  When the block is full its capacity
     * doubles (realloc keeps the old elements); then the value is stored at
     * the old length.  With cap == 0 the doubled capacity is still 0 and the
     * store is out of bounds, so a positive capacity is required.
     */
    method Append(v: T)
      requires Valid() && cap > 0
      modifies this, buf
      ensures Valid() && buf != null
      ensures len == old(len) + 1
      ensures Contents() == old(Contents()) + [v]
      ensures cap == if old(len) == old(cap) then 2 * old(cap) else old(cap)
      ensures old(len) < old(cap) ==> buf == old(buf)
      ensures old(len) == old(cap) ==> fresh(buf)
    {
      if cap == len {
        var block, n := buf, len;
        var grown := new T[cap * 2];
        var i := 0;
        while i < n
          modifies grown
          invariant 0 <= i <= n
          invariant grown[..i] == block[..i]
        {
          grown[i] := block[i];
          i := i + 1;
        }
        buf := grown;
        cap := cap * 2;
      }
      buf[len] := v;
      len := len + 1;
    }

    /** array_free / int_array_free: the block is released and the array is empty with no capacity. */
    method Free()
      requires Valid()
      modifies this
      ensures Valid() && buf == null && len == 0 && cap == 0 && Contents() == []
    {
      buf := null;
      len := 0;
      cap := 0;
    }

    /** Element i, as `arr->arr[i]` reads it. */
    function At(i: nat): (v: T)
      reads this, buf
      requires Valid() && i < len
      ensures v == Contents()[i]
    {
      buf[i]
    }
  }
}
