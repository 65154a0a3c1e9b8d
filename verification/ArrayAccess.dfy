/** Lengths, indices and slices of the address and array proxies of address_proxy.c. */
module ArrayAccess {
  import opened Common
  import opened Layout
  import opened Bounds

  /** `items` are the addresses that the proxy offers for reading. */
  datatype View = View(ptr: nat, length: nat, itemSize: nat)

  function Items(v: View): (r: seq<nat>)
    ensures |r| == v.length && forall i :: 0 <= i < v.length ==> r[i] == v.ptr + ElementOffset(i, v.itemSize)
  {
    seq(v.length, i requires 0 <= i < v.length => v.ptr + ElementOffset(i, v.itemSize))
  }

  // ----- Python's sequence protocol -----

  /** One end of a slice as PySlice_AdjustIndices leaves it, for step 1. */
  function Adjust(i: int, length: nat): (r: nat)
    ensures r <= length
  {
    if i < 0 then (if i + length < 0 then 0 else i + length)
    else if i >= length then length else i
  }

  /** q[start:stop] */
  function PySlice(q: seq<nat>, start: int, stop: int): seq<nat> {
    var lo, hi := Adjust(start, |q|), Adjust(stop, |q|);
    if lo <= hi then q[lo..hi] else []
  }

  /** q[i]; None is an IndexError. */
  function PyIndex(q: seq<nat>, i: int): Option<nat> {
    if 0 <= i < |q| then Some(q[i]) else if -|q| <= i < 0 then Some(q[|q| + i]) else None
  }

  function Sliced(v: View, start: int, stop: int): View {
    var lo, hi := Adjust(start, v.length), Adjust(stop, v.length);
    View(v.ptr + ElementOffset(lo, v.itemSize), if lo <= hi then hi - lo else 0, v.itemSize)
  }

  lemma OffsetSum(i: nat, j: nat, size: nat)
    ensures ElementOffset(i + j, size) == ElementOffset(i, size) + ElementOffset(j, size)
  {
  }

  /** A slice of a proxy offers the slice of what the proxy offers: `a[s:e][i]` is read
      at the address of `a[adj(s)+i]`. */
  lemma SlicedItems(v: View, start: int, stop: int)
    ensures Items(Sliced(v, start, stop)) == PySlice(Items(v), start, stop)
  {
    hide ElementOffset;
    var lo := Adjust(start, v.length);
    forall i: nat { OffsetSum(lo, i, v.itemSize); }
  }

  // ----- The proxy object -----

  function LengthFor(query: Option<Alloc>, ptr: nat, t: Stride, sized: bool): nat {
    if t.size == 0 || !sized then 0
    else
      var b := BoundsFor(query, ptr, t);
      if b.base == ptr then b.size / t.size else 1
  }

  class AddressProxy {
    var ptr: nat
    var length: nat
    const itemSize: nat

    constructor (ptr: nat, length: nat, itemSize: nat)
      ensures Value() == View(ptr, length, itemSize)
    {
      this.ptr, this.length, this.itemSize := ptr, length, itemSize;
    }

    ghost function Value(): View
      reads this
    {
      View(ptr, length, itemSize)
    }

    /** addrproxy_initlength; `sized` says that the pointee has a known length. */
    method InitLength(query: Option<Alloc>, t: Stride, sized: bool)
      requires t.size == itemSize
      modifies this
      ensures Value() == View(old(ptr), LengthFor(query, old(ptr), t, sized), itemSize)
    {
      if t.size == 0 || !sized {
        length := 0;
        return;
      }
      var bounds := FetchBounds(query, ptr, t);
      if bounds.base == ptr { length := bounds.size / t.size; } else { length := 1; }
    }

    /** addrproxy_item: the address that is read, or None for an IndexError. */
    method Item(index: int) returns (item: Option<nat>)
      ensures item == if 0 <= index < length then Some(Items(Value())[index]) else None
    {
      if index < 0 || index >= length { return None; }
      return Some(ptr + ElementOffset(index, itemSize));
    }

    /** addrproxy_subscript with an integer */
    method SubscriptInt(i: int) returns (item: Option<nat>)
      ensures item == PyIndex(Items(Value()), i)
    {
      item := Item(if i < 0 then i + length else i);
    }

    /** addrproxy_subscript with a slice; None is an IndexError. */
    method SubscriptSlice(start: int, stop: int, step: int) returns (slice: Option<AddressProxy>)
      ensures slice.Some? <==> step == 1
      ensures slice.Some? ==> fresh(slice.value) && slice.value.Value() == Sliced(Value(), start, stop)
      ensures slice.Some? ==> Items(slice.value.Value()) == PySlice(Items(Value()), start, stop)
    {
      if step != 1 { return None; }
      var lo, hi := Adjust(start, length), Adjust(stop, length);
      var obj := new AddressProxy(ptr + ElementOffset(lo, itemSize), if lo <= hi then hi - lo else 0, itemSize);
      SlicedItems(Value(), start, stop);
      return Some(obj);
    }

    /** addrproxy_ass_item: the address that is written, or None for an IndexError. */
    method AssItem(index: int) returns (item: Option<int>)
      ensures item.Some? <==> index < length
      ensures item.Some? ==> (item.value in Items(Value()) <==> 0 <= index || itemSize == 0 < length)
      ensures item.Some? && 0 <= index ==> item.value == Items(Value())[index]
    {
      if index >= length { return None; }
      item := Some(ptr + index * itemSize);
      if index < 0 {
        NegativeOffset(index, itemSize);
        if itemSize == 0 < length { assert Items(Value())[0] == ptr; }
      } else {
        assert Items(Value())[index] == ptr + ElementOffset(index, itemSize);
      }
    }
  }

  lemma NegativeOffset(i: int, size: nat)
    requires i < 0
    ensures 0 < size ==> i * size < 0
    ensures size == 0 ==> i * size == 0
  {
  }

  // ----- Reads stay inside the allocation -----

  function SlicedBy(v: View, slices: seq<(int, int)>): View {
    if slices == [] then v else Sliced(SlicedBy(v, slices[..|slices| - 1]), slices[|slices| - 1].0, slices[|slices| - 1].1)
  }

  /** Any chain of slices offers a contiguous part of what the first proxy offered. */
  lemma {:induction false} SlicesArePart(v: View, slices: seq<(int, int)>) returns (lo: nat, hi: nat)
    ensures lo <= hi <= v.length && Items(SlicedBy(v, slices)) == Items(v)[lo..hi]
    ensures SlicedBy(v, slices).itemSize == v.itemSize
    ensures SlicedBy(v, slices).ptr == v.ptr + ElementOffset(lo, v.itemSize)
  {
    hide ElementOffset, Items, Adjust;
    if slices == [] {
      lo, hi := 0, v.length;
      ItemsWhole(v);
    } else {
      var s := slices[|slices| - 1];
      var w := SlicedBy(v, slices[..|slices| - 1]);
      lo, hi := SlicesArePart(v, slices[..|slices| - 1]);
      lo, hi := SliceOfPart(v, w, lo, hi, s.0, s.1);
    }
  }

  lemma SliceOfPart(v: View, w: View, lo0: nat, hi0: nat, start: int, stop: int) returns (lo: nat, hi: nat)
    requires lo0 <= hi0 <= v.length && Items(w) == Items(v)[lo0..hi0]
    requires w.itemSize == v.itemSize && w.ptr == v.ptr + ElementOffset(lo0, v.itemSize)
    ensures lo <= hi <= v.length && Items(Sliced(w, start, stop)) == Items(v)[lo..hi]
    ensures Sliced(w, start, stop).itemSize == v.itemSize
    ensures Sliced(w, start, stop).ptr == v.ptr + ElementOffset(lo, v.itemSize)
  {
    hide ElementOffset, Items, Adjust;
    ItemsWhole(w);
    ItemsWhole(v);
    SlicedItems(w, start, stop);
    var a, b := Adjust(start, w.length), Adjust(stop, w.length);
    OffsetSum(lo0, a, v.itemSize);
    PartOfPart(Items(v), lo0, hi0, a, if a <= b then b else a);
    lo, hi := lo0 + a, lo0 + if a <= b then b else a;
  }

  lemma PartOfPart(q: seq<nat>, lo: nat, hi: nat, a: nat, b: nat)
    requires lo <= hi <= |q| && a <= b <= hi - lo
    ensures q[lo..hi][a..b] == q[lo + a..lo + b]
    ensures a == b ==> q[lo + a..lo + b] == []
  {
    var r := q[lo..hi];
    assert |r[a..b]| == b - a;
    assert forall i :: 0 <= i < b - a ==> r[a..b][i] == r[a + i] == q[lo + (a + i)];
  }

  lemma ItemsWhole(v: View)
    ensures |Items(v)| == v.length && Items(v)[0..v.length] == Items(v)
    ensures ElementOffset(0, v.itemSize) == 0
  {
  }

  ghost predicate ValidStride(t: Stride) {
    t.bounded && 0 < t.size && (t.isChar ==> t.size == 1)
  }

  /** The length that a new address proxy gets never takes it out of the allocation. */
  lemma LengthInside(a: Alloc, ptr: nat, t: Stride, sized: bool)
    requires ValidAlloc(a) && Contains(a, ptr) && a.size < UNSIGNED && ValidStride(t)
    ensures ptr + LengthFor(Some(a), ptr, t, sized) * t.size <= a.start + a.size
  {
    hide Find, Size, TypeOf, Occurs;
    if sized {
      var b := BoundsFor(Some(a), ptr, t);
      if t.isChar {
        MakeBoundsExact(a.start, a.start + a.size);
      } else {
        BoundsMeaning(a, ptr, t);
      }
      Quotient(b.size, t.size);
    }
  }

  lemma Quotient(n: nat, size: nat)
    requires 0 < size
    ensures n / size * size <= n < n / size * size + size
  {
  }

  /** Every index that a proxy accepts, after any chain of slices, reads an item that lies
      inside the allocation, whole items from the address of the first proxy. */
  lemma ReadsStayInside(a: Alloc, ptr: nat, t: Stride, sized: bool, slices: seq<(int, int)>, i: int)
    requires ValidAlloc(a) && Contains(a, ptr) && a.size < UNSIGNED && ValidStride(t)
    ensures var v := SlicedBy(View(ptr, LengthFor(Some(a), ptr, t, sized), t.size), slices);
      PyIndex(Items(v), i).Some? ==>
        var item := PyIndex(Items(v), i).value;
        ptr <= item && item + t.size <= a.start + a.size && (item - ptr) % t.size == 0
  {
    hide Occurs, WellFormed, ElementOffset, Items, LengthFor, Adjust;
    var n := LengthFor(Some(a), ptr, t, sized);
    var first := View(ptr, n, t.size);
    var lo, hi := SlicesArePart(first, slices);
    var v := SlicedBy(first, slices);
    if PyIndex(Items(v), i).Some? {
      var item := PyIndex(Items(v), i).value;
      assert item in Items(first);
      var k := ItemAt(first, item);
      LengthInside(a, ptr, t, sized);
      ElementInside(k, n, t.size);
      WholeStrides(k, t.size, item - ptr);
    }
  }

  lemma ItemAt(v: View, item: nat) returns (k: nat)
    requires item in Items(v)
    ensures k < v.length && item == v.ptr + ElementOffset(k, v.itemSize)
  {
    k :| 0 <= k < v.length && Items(v)[k] == item;
  }

  // ----- The lengths themselves -----

  /** A pointer to the first element of an array of at least two gets the length of the
      array; a pointer to a later element gets length 1. */
  lemma ElementLength(a: Alloc, t: Stride, c: Span, k: nat)
    requires ValidAlloc(a) && a.size < UNSIGNED && ValidStride(t) && !t.isChar
    requires c.ty.Array? && Size(c.ty.elem) == t.size && Occurs(TypeOf(a), c.start, c.ty)
    requires 1 < c.ty.len || (Unsized(a) && c.ty == TypeOf(a))
    requires k < c.ty.len
    ensures LengthFor(Some(a), a.start + c.start + ElementOffset(k, t.size), t, true) == if k == 0 then c.ty.len else 1
  {
    hide Occurs, WellFormed, BoundsFor, Size, TypeOf;
    var ptr := a.start + c.start + ElementOffset(k, t.size);
    ElementBounds(a, ptr, t, c, k);
    if k == 0 {
      WholeSizes(c.ty, t.size);
      QuotientIs(Size(c.ty), t.size, c.ty.len);
      if Unsized(a) && TypeOf(a) == c.ty { UnsizedFits(a, t.size); }
    } else {
      MulMono(1, k, t.size);
    }
  }

  /** A proxy is empty exactly when no object of the pointee's size starts at its address. */
  lemma EmptyIff(a: Alloc, ptr: nat, t: Stride)
    requires ValidAlloc(a) && Contains(a, ptr) && a.size < UNSIGNED && ValidStride(t) && 1 < t.size
    ensures LengthFor(Some(a), ptr, t, true) == 0 <==> !AllocStartsAt(a, ptr - a.start, t.size)
  {
    hide AllocStartsAt, TypeOf, BoundsFor, WellFormed, Size;
    var b := BoundsFor(Some(a), ptr, t);
    BoundsMeaning(a, ptr, t);
    Quotient(b.size, t.size);
  }

  lemma UnsizedFits(a: Alloc, size: nat)
    requires ValidAlloc(a) && Unsized(a) && Size(TypeOf(a).elem) == size
    ensures a.size / size == TypeOf(a).len
  {
    WholeSizes(TypeOf(a), size);
    QuotientIs(a.size, size, TypeOf(a).len);
  }

  /** The base proxy of an array without a length of its own has as many items as fit. */
  lemma HeapArrayLength(a: Alloc, t: Stride)
    requires ValidAlloc(a) && a.size < UNSIGNED && ValidStride(t)
    requires Unsized(a) && Size(TypeOf(a).elem) == t.size
    ensures LengthFor(Some(a), a.start, t, true) == TypeOf(a).len
  {
    hide Occurs, WellFormed, Size;
    UnsizedFits(a, t.size);
    if t.isChar {
      MakeBoundsExact(a.start, a.start + a.size);
    } else if 0 < TypeOf(a).len {
      WholeOccurs(TypeOf(a));
      ElementLength(a, t, Span(TypeOf(a), 0), 0);
    } else {
      NothingInside(a, t);
    }
  }

  lemma NothingInside(a: Alloc, t: Stride)
    requires ValidAlloc(a) && a.size < UNSIGNED && ValidStride(t) && !t.isChar
    requires Unsized(a) && Size(TypeOf(a).elem) == t.size && TypeOf(a).len == 0
    ensures LengthFor(Some(a), a.start, t, true) == 0
  {
    assert FindIn(a, 0, t.size) == None;
    WholeSizes(TypeOf(a), t.size);
  }

  /** A pointer to characters has the length of its allocation at the start, and 1 further in. */
  lemma CharLength(a: Alloc, ptr: nat, t: Stride)
    requires 0 < a.start <= ptr <= a.start + a.size && a.size < UNSIGNED && t.isChar && t.size == 1
    ensures LengthFor(Some(a), ptr, t, true) == if ptr == a.start then a.size else 1
  {
    CharBounds(a, ptr, t);
  }

  /** Pointers to nothing or to something of unknown length have length 0, pointers that are in no
      allocation 1. */
  lemma OtherLengths(query: Option<Alloc>, ptr: nat, t: Stride, sized: bool)
    ensures t.size == 0 || !sized ==> LengthFor(query, ptr, t, sized) == 0
    ensures 0 < t.size && sized && ptr != 0 && query.None? ==> LengthFor(query, ptr, t, sized) == 1
  {
    OtherBounds(query, ptr, t);
  }

  /** A pointer to an object that is an element of no array has length 1. */
  lemma SingleLength(a: Alloc, ptr: nat, t: Stride)
    requires ValidAlloc(a) && Contains(a, ptr) && a.size < UNSIGNED && ValidStride(t) && !t.isChar
    requires AllocStartsAt(a, ptr - a.start, t.size)
    requires Alone(a, ptr - a.start, t.size)
    ensures LengthFor(Some(a), ptr, t, true) == 1
  {
    hide BoundsFor, AllocStartsAt, TypeOf, Alone, WellFormed, Size;
    SingleBounds(a, ptr, t);
    QuotientIs(t.size, t.size, 1);
  }

  // ----- Python's indices, spelled out -----

  lemma AdjustIs(i: int, length: nat)
    ensures 0 <= i <= length ==> Adjust(i, length) == i
    ensures 0 < i <= length ==> Adjust(0 - i, length) == length - i
    ensures i > length ==> Adjust(i, length) == length && Adjust(0 - i, length) == 0
  {
  }

  /** Index `i` from the start, or counted from the end; anything else is an IndexError. */
  lemma PyIndexIs(q: seq<nat>, i: nat)
    ensures i < |q| ==> PyIndex(q, i) == Some(q[i]) && PyIndex(q, i - |q|) == Some(q[i])
    ensures i >= |q| ==> PyIndex(q, i).None? && PyIndex(q, 0 - i - 1).None?
  {
  }
}
