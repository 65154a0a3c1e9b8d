/** Initialising a foreign array from a Python sequence: addrproxy_init. */
module ArrayInit {
  import opened Common
  import opened Memory
  import opened Layout
  import opened CompositeInit

  /** An array proxy with the memory that it refers to. */
  class ArrayProxy {
    const mem: array<Byte>
    const ptr: nat
    const length: nat
    const itemSize: nat
    const encode: PyObj -> Option<seq<Byte>>

    constructor (mem: array<Byte>, ptr: nat, length: nat, itemSize: nat, encode: PyObj -> Option<seq<Byte>>)
      ensures this.mem == mem && this.ptr == ptr && this.length == length && this.itemSize == itemSize && this.encode == encode
    {
      this.mem, this.ptr, this.length, this.itemSize, this.encode := mem, ptr, length, itemSize, encode;
    }

    /** The items lie in memory, and each conversion writes exactly one item. */
    ghost predicate Valid() {
      && ptr + ElementOffset(length, itemSize) <= mem.Length
      && (forall v :: encode(v).Some? ==> |encode(v).value| == itemSize)
    }

    /** The bytes of the first `n` items, from as many values. */
    function Encoded(values: seq<PyObj>, n: nat): (r: Option<seq<Byte>>)
      requires n <= |values|
    {
      if n == 0 then Some([])
      else
        var before, last := Encoded(values, n - 1), encode(values[n - 1]);
        if before.Some? && last.Some? then Some(before.value + last.value) else None
    }

    lemma {:induction false} EncodedSize(values: seq<PyObj>, n: nat)
      requires Valid() && n <= |values| && Encoded(values, n).Some?
      ensures |Encoded(values, n).value| == ElementOffset(n, itemSize)
    {
      if n > 0 {
        EncodedSize(values, n - 1);
        OffsetStep(n - 1, itemSize);
      }
    }

    /** Every item of the result is the encoding of its value. */
    lemma {:induction false} EncodedItem(values: seq<PyObj>, n: nat, i: nat)
      requires Valid() && i < n <= |values| && Encoded(values, n).Some?
      ensures encode(values[i]).Some? && ElementOffset(i, itemSize) + itemSize <= |Encoded(values, n).value|
      ensures Encoded(values, n).value[ElementOffset(i, itemSize)..ElementOffset(i, itemSize) + itemSize] == encode(values[i]).value
    {
      hide ElementOffset;
      EncodedSize(values, n);
      EncodedSize(values, n - 1);
      ElementEnds(i, n, itemSize);
      if i < n - 1 {
        EncodedItem(values, n - 1, i);
        ElementEnds(i, n - 1, itemSize);
      }
    }

    /** The offsets that the loop computes are exact exactly if the last one fits. */
    lemma OffsetsExactIff()
      ensures (forall i: nat :: i < length ==> Truncated(ElementOffset(i, itemSize)) == ElementOffset(i, itemSize))
         <==> OffsetsFit()
    {
      if length > 0 {
        forall i: nat | i < length ensures ElementOffset(i, itemSize) <= ElementOffset(length - 1, itemSize) {
          OffsetMono(i, length - 1, itemSize);
        }
        assert Truncated(ElementOffset(length - 1, itemSize)) < UNSIGNED;
      }
    }

    /** The values fill the first items, zeros the others; no argument counts as no values. */
    ghost predicate Filled(before: seq<Byte>, after: seq<Byte>, values: seq<PyObj>)
      requires |values| <= length && Encoded(values, |values|).Some? && |before| == mem.Length
      requires Valid()
    {
      EncodedSize(values, |values|);
      OffsetMono(|values|, length, itemSize);
      var bytes := Encoded(values, |values|).value;
      var all := bytes + Zeros(ElementOffset(length, itemSize) - |bytes|);
      after == Put(before, ptr, all)
    }

    /** The memory after the first `n` values have been stored, at the offsets that C computes;
        None if one of them cannot be converted. */
    function StoreAll(m: seq<Byte>, values: seq<PyObj>, n: nat): (r: Option<seq<Byte>>)
      requires n <= |values| && n <= length && ptr + ElementOffset(length, itemSize) <= |m|
      requires forall v :: encode(v).Some? ==> |encode(v).value| == itemSize
      ensures r.Some? ==> |r.value| == |m|
    {
      if n == 0 then Some(m)
      else
        var before, bytes := StoreAll(m, values, n - 1), encode(values[n - 1]);
        if before.None? || bytes.None? then None
        else
          ItemInside(n - 1);
          Some(Put(before.value, ptr + Truncated(ElementOffset(n - 1, itemSize)), bytes.value))
    }

    lemma ItemInside(i: nat)
      requires i < length
      ensures Truncated(ElementOffset(i, itemSize)) + itemSize <= ElementOffset(length, itemSize)
      ensures Truncated(ElementOffset(i, itemSize)) + ElementOffset(length - i, itemSize) <= ElementOffset(length, itemSize)
    {
      ElementEnds(i, length, itemSize);
      OffsetRest(i, length, itemSize);
    }

    /** The memory after a successful initialisation with the first `n` values. */
    function Finished(m: seq<Byte>, values: seq<PyObj>, n: nat): seq<Byte>
      requires n <= |values| && n <= length && ptr + ElementOffset(length, itemSize) <= |m|
      requires forall v :: encode(v).Some? ==> |encode(v).value| == itemSize
      requires StoreAll(m, values, n).Some?
    {
      var stored := StoreAll(m, values, n).value;
      if n < length then
        ItemInside(n);
        Put(stored, ptr + Truncated(ElementOffset(n, itemSize)), Zeros(ElementOffset(length - n, itemSize)))
      else stored
    }

    /** addrproxy_init with no argument (None) or one sequence; false is an exception. */
    method Init(arg: Option<seq<PyObj>>) returns (ok: bool)
      requires Valid()
      modifies mem
      ensures arg.None? ==> ok && mem[..] == Put(old(mem[..]), ptr, Zeros(ElementOffset(length, itemSize)))
      ensures arg.Some? ==> var n := |arg.value| % UNSIGNED;
        && (ok <==> n <= length && StoreAll(old(mem[..]), arg.value, n).Some?)
        && (ok ==> mem[..] == Finished(old(mem[..]), arg.value, n))
        && (n > length ==> mem[..] == old(mem[..]))
    {
      hide ElementOffset, Put;
      if arg.None? {
        Store(mem, ptr, Zeros(ElementOffset(length, itemSize)));
        return true;
      }
      var values := arg.value;
      var arglen := |values| % UNSIGNED;
      if arglen > length { return false; }
      ghost var m := mem[..];
      for i := 0 to arglen
        invariant StoreAll(m, values, i) == Some(mem[..])
      {
        var bytes := encode(values[i]);
        if bytes.None? {
          StoreFails(m, values, i, arglen);
          return false;
        }
        ItemInside(i);
        Store(mem, ptr + Truncated(ElementOffset(i, itemSize)), bytes.value);
      }
      if length > arglen {
        ItemInside(arglen);
        Store(mem, ptr + Truncated(ElementOffset(arglen, itemSize)), Zeros(ElementOffset(length - arglen, itemSize)));
      }
      return true;
    }

    lemma {:induction false} StoreFails(m: seq<Byte>, values: seq<PyObj>, i: nat, n: nat)
      requires i < n <= |values| && n <= length && ptr + ElementOffset(length, itemSize) <= |m|
      requires forall v :: encode(v).Some? ==> |encode(v).value| == itemSize
      requires encode(values[i]).None?
      ensures StoreAll(m, values, n).None?
    {
      if i < n - 1 { StoreFails(m, values, i, n - 1); }
    }

    /** Every offset that the loop computes is exact. */
    predicate OffsetsFit() {
      length == 0 || ElementOffset(length - 1, itemSize) < UNSIGNED
    }

    /** If the offsets are exact, initialisation succeeds exactly if the values can be converted,
        and then fills the items with them and with zeros. */
    lemma InitFills(m: seq<Byte>, values: seq<PyObj>)
      requires Valid() && |m| == mem.Length && OffsetsFit() && |values| <= length
      ensures StoreAll(m, values, |values|).Some? <==> Encoded(values, |values|).Some?
      ensures StoreAll(m, values, |values|).Some? ==> Filled(m, Finished(m, values, |values|), values)
    {
      hide ElementOffset, StoreAll, Encoded, Filled, Finished, OffsetsFit;
      StoresInARow(m, values, |values|);
      if Encoded(values, |values|).Some? { FinishedFills(m, values); }
    }

    lemma FinishedFills(m: seq<Byte>, values: seq<PyObj>)
      requires Valid() && |m| == mem.Length && OffsetsFit() && |values| <= length && Encoded(values, |values|).Some?
      requires |Encoded(values, |values|).value| == ElementOffset(|values|, itemSize) <= ElementOffset(length, itemSize)
      requires StoreAll(m, values, |values|) == Some(Put(m, ptr, Encoded(values, |values|).value))
      ensures Filled(m, Finished(m, values, |values|), values)
    {
      hide ElementOffset, StoreAll, Encoded, Filled, Put, OffsetsFit, Zeros;
      var n := |values|;
      OffsetRest(n, length, itemSize);
      var stored := StoreAll(m, values, n).value;
      var rest := ElementOffset(length, itemSize) - ElementOffset(n, itemSize);
      if n < length {
        LastOffset(n);
        AllStored(m, stored, Put(stored, ptr + ElementOffset(n, itemSize), Zeros(rest)), values);
      } else {
        NothingPut(stored, ptr + ElementOffset(n, itemSize));
        AllStored(m, stored, stored, values);
      }
    }

    lemma LastOffset(i: nat)
      requires OffsetsFit() && i < length
      ensures Truncated(ElementOffset(i, itemSize)) == ElementOffset(i, itemSize)
    {
      OffsetMono(i, length - 1, itemSize);
    }

    lemma {:induction false} StoresInARow(m: seq<Byte>, values: seq<PyObj>, n: nat)
      requires Valid() && |m| == mem.Length && OffsetsFit() && n <= |values| && n <= length
      ensures StoreAll(m, values, n).Some? <==> Encoded(values, n).Some?
      ensures Encoded(values, n).Some? ==>
        && |Encoded(values, n).value| == ElementOffset(n, itemSize) <= ElementOffset(length, itemSize)
        && StoreAll(m, values, n) == Some(Put(m, ptr, Encoded(values, n).value))
    {
      hide ElementOffset, OffsetsFit;
      OffsetStep(n, itemSize);
      OffsetMono(n, length, itemSize);
      if n == 0 {
        NothingPut(m, ptr);
      } else {
        StoresInARow(m, values, n - 1);
        LastOffset(n - 1);
        OffsetStep(n - 1, itemSize);
        if Encoded(values, n).Some? {
          PutTwice(m, ptr, Encoded(values, n - 1).value, encode(values[n - 1]).value);
        }
      }
    }

    /** After initialisation item `i` holds its value, or zeros if there is none. */
    lemma FilledItem(before: seq<Byte>, after: seq<Byte>, values: seq<PyObj>, i: nat)
      requires Valid() && |before| == mem.Length && |values| <= length && Encoded(values, |values|).Some?
      requires Filled(before, after, values) && i < length
      ensures ptr + ElementOffset(i, itemSize) + itemSize <= |after|
      ensures i < |values| ==> encode(values[i]).Some?
      ensures after[ptr + ElementOffset(i, itemSize)..ptr + ElementOffset(i, itemSize) + itemSize]
           == if i < |values| then encode(values[i]).value else Zeros(itemSize)
    {
      hide ElementOffset, Encoded, Put, Zeros;
      var n := |values|;
      EncodedSize(values, n);
      OffsetMono(n, length, itemSize);
      ElementEnds(i, length, itemSize);
      var bytes := Encoded(values, n).value;
      var all := bytes + Zeros(ElementOffset(length, itemSize) - |bytes|);
      var a := ElementOffset(i, itemSize);
      PutPart(before, ptr, all, a, a + itemSize);
      if i < n {
        EncodedItem(values, n, i);
        SliceLeft(bytes, Zeros(ElementOffset(length, itemSize) - |bytes|), a, a + itemSize);
      } else {
        OffsetMono(n, i, itemSize);
        SliceRight(bytes, ElementOffset(length, itemSize) - |bytes|, a, itemSize);
      }
    }

    /** Bytes outside the items stay. */
    lemma FilledOutside(before: seq<Byte>, after: seq<Byte>, values: seq<PyObj>, k: nat)
      requires Valid() && |before| == mem.Length && |values| <= length && Encoded(values, |values|).Some?
      requires Filled(before, after, values) && k < |before| && (k < ptr || ptr + ElementOffset(length, itemSize) <= k)
      ensures |after| == |before| && after[k] == before[k]
    {
      hide ElementOffset, Encoded;
      EncodedSize(values, |values|);
      OffsetMono(|values|, length, itemSize);
    }

    /** No argument fills the array with zeros. */
    lemma NoValues(m: seq<Byte>)
      requires Valid() && |m| == mem.Length
      ensures Encoded([], 0).Some? && Filled(m, Put(m, ptr, Zeros(ElementOffset(length, itemSize))), [])
    {
      EncodedSize([], 0);
      assert [] + Zeros(ElementOffset(length, itemSize)) == Zeros(ElementOffset(length, itemSize));
    }

    lemma AllStored(before: seq<Byte>, stored: seq<Byte>, after: seq<Byte>, values: seq<PyObj>)
      requires Valid() && |before| == mem.Length && |values| <= length && Encoded(values, |values|).Some?
      requires |Encoded(values, |values|).value| == ElementOffset(|values|, itemSize) <= ElementOffset(length, itemSize)
      requires stored == Put(before, ptr, Encoded(values, |values|).value)
      requires after == Put(stored, ptr + ElementOffset(|values|, itemSize), Zeros(ElementOffset(length, itemSize) - ElementOffset(|values|, itemSize)))
      ensures Filled(before, after, values)
    {
      hide ElementOffset, Encoded;
      PutTwice(before, ptr, Encoded(values, |values|).value, Zeros(ElementOffset(length, itemSize) - ElementOffset(|values|, itemSize)));
    }
  }

  /** An offset as the `unsigned` that C computes. */
  function Truncated(offset: nat): (r: nat)
    ensures r <= offset && (offset < UNSIGNED ==> r == offset)
  {
    offset % UNSIGNED
  }

  lemma OffsetStep(i: nat, size: nat)
    ensures ElementOffset(i + 1, size) == ElementOffset(i, size) + size
    ensures ElementOffset(0, size) == 0
  {
  }

  lemma OffsetMono(i: nat, j: nat, size: nat)
    requires i <= j
    ensures ElementOffset(i, size) <= ElementOffset(j, size)
  {
    MulMono(i, j, size);
  }

  lemma OffsetRest(i: nat, j: nat, size: nat)
    requires i <= j
    ensures ElementOffset(j - i, size) == ElementOffset(j, size) - ElementOffset(i, size)
  {
  }

  lemma SliceLeft(a: seq<Byte>, b: seq<Byte>, from: nat, to: nat)
    requires from <= to <= |a|
    ensures (a + b)[from..to] == a[from..to]
  {
  }

  lemma SliceRight(a: seq<Byte>, zeros: nat, from: nat, n: nat)
    requires |a| <= from && from + n <= |a| + zeros
    ensures (a + Zeros(zeros))[from..from + n] == Zeros(n)
  {
  }

  lemma PutPart(m: seq<Byte>, at: nat, bytes: seq<Byte>, from: nat, to: nat)
    requires at + |bytes| <= |m| && from <= to <= |bytes|
    ensures Put(m, at, bytes)[at + from..at + to] == bytes[from..to]
  {
  }

  lemma NothingPut(m: seq<Byte>, at: nat)
    requires at <= |m|
    ensures Put(m, at, Zeros(0)) == m
  {
  }

  /** Storing two pieces next to each other stores their concatenation. */
  lemma PutTwice(m: seq<Byte>, at: nat, a: seq<Byte>, b: seq<Byte>)
    requires at + |a| + |b| <= |m|
    ensures Put(Put(m, at, a), at + |a|, b) == Put(m, at, a + b)
  {
  }
}
