/** The libffi type descriptors that function_proxy.c builds and frees, over an explicit
    heap: reading an unset cell, freeing twice and using a freed cell are not allowed. */
module FfiDescriptors {
  import opened Common
  import TypeGraph

  // ----- Types and what their descriptors should be -----

  /** A foreign type as far as a call passes it by value. An enumeration may lack its base. */
  datatype Foreign =
    | Void
    | ByReference
    | Enumeration(base: Option<Foreign>)
    | Base(enc: Encoding, bytes: nat)
    | Composite(size: nat, members: seq<Foreign>)
    | NotHandled

  datatype Basic = VoidT | PointerT | UInt(bytes: nat) | SInt(bytes: nat) | FloatT(bytes: nat) | ComplexT(bytes: nat)

  datatype Extent = Extent(size: nat, align: nat)

  /** A descriptor without its addresses. */
  datatype Shape = Leaf(basic: Basic) | Node(extent: Extent, parts: seq<Shape>)

  function BasicExtent(b: Basic): Extent {
    match b
    case VoidT => Extent(1, 1)
    case PointerT => Extent(8, 8)
    case UInt(n) => Extent(n, n)
    case SInt(n) => Extent(n, n)
    case FloatT(n) => Extent(n, n)
    case ComplexT(n) => Extent(n, n / 2)
  }

  function ExtentOf(s: Shape): Extent {
    match s
    case Leaf(b) => BasicExtent(b)
    case Node(e, _) => e
  }

  function BasicFor(enc: Encoding, n: nat): Option<Basic> {
    match enc
    case Boolean => Some(UInt(1))
    case AddressLike | Unsigned | UnsignedChar => if n in {1, 2, 4, 8} then Some(UInt(n)) else None
    case Signed | SignedChar => if n in {1, 2, 4, 8} then Some(SInt(n)) else None
    case Float => if n in {4, 8, 16} then Some(FloatT(n)) else None
    case ComplexFloat => if n in {8, 16, 32} then Some(ComplexT(n)) else None
    case OtherEncoding => None
  }

  /** How libffi lays out a structure from the extents of its members; None is an error. */
  type Layouter = seq<Extent> -> Option<Extent>

  function Describe(t: Foreign, layouter: Layouter): Option<Shape>
    decreases t, 1, 0
  {
    match t
    case Void => Some(Leaf(VoidT))
    case ByReference => Some(Leaf(PointerT))
    case Enumeration(b) =>
      if b.Some? && b.value.Base? then Leafed(BasicFor(b.value.enc, b.value.bytes)) else None
    case Base(enc, n) => Leafed(BasicFor(enc, n))
    case Composite(n, ms) =>
      var parts := DescribeAll(t, |ms|, layouter);
      if parts.None? then None
      else
        var natural := layouter(Extents(parts.value));
        if natural.None? then None else Some(Node(Patched(natural.value, n, parts.value), parts.value))
    case NotHandled => None
  }

  function Leafed(b: Option<Basic>): Option<Shape> {
    if b.Some? then Some(Leaf(b.value)) else None
  }

  /** The descriptions of the first `n` members, if there is one for each. */
  function DescribeAll(t: Foreign, n: nat, layouter: Layouter): (r: Option<seq<Shape>>)
    requires t.Composite? && n <= |t.members|
    ensures r.Some? ==> |r.value| == n
    decreases t, 0, n
  {
    if n == 0 then Some([])
    else
      var before := DescribeAll(t, n - 1, layouter);
      if before.None? then None
      else
        var last := Describe(t.members[n - 1], layouter);
        if last.None? then None else Some(before.value + [last.value])
  }

  function Extents(parts: seq<Shape>): (r: seq<Extent>)
    ensures |r| == |parts| && forall i :: 0 <= i < |parts| ==> r[i] == ExtentOf(parts[i])
  {
    seq(|parts|, i requires 0 <= i < |parts| => ExtentOf(parts[i]))
  }

  function Max(a: nat, b: nat): nat {
    if a < b then b else a
  }

  function MaxAlign(a: nat, parts: seq<Shape>): (r: nat)
    ensures a <= r && (r == a || exists i :: 0 <= i < |parts| && r == ExtentOf(parts[i]).align)
    ensures forall i :: 0 <= i < |parts| ==> ExtentOf(parts[i]).align <= r
  {
    if parts == [] then a
    else
      var k := |parts| - 1;
      assert parts == parts[..k] + [parts[k]];
      Max(MaxAlign(a, parts[..k]), ExtentOf(parts[k]).align)
  }

  /** The foreign size wins over libffi's; then the alignment is that of the strictest member. */
  function Patched(natural: Extent, size: nat, parts: seq<Shape>): Extent {
    if natural.size == size then natural else Extent(size, MaxAlign(natural.align, parts))
  }

  /** `s` mirrors `t`: every structure with the foreign size and a part for each member. */
  predicate Mirrors(s: Shape, t: Foreign)
    decreases t
  {
    match t
    case Composite(n, ms) =>
      && s.Node? && s.extent.size == n && |s.parts| == |ms|
      && forall i :: 0 <= i < |ms| ==> Mirrors(s.parts[i], ms[i])
    case Base(enc, n) => s.Leaf? && Represents(s.basic, enc, n)
    case Enumeration(b) => s.Leaf? && b.Some? && b.value.Base? && Represents(s.basic, b.value.enc, b.value.bytes)
    case Void => s == Leaf(VoidT)
    case ByReference => s == Leaf(PointerT)
    case NotHandled => false
  }

  /** A basic descriptor of the right kind and size; a boolean counts as one byte. */
  predicate Represents(b: Basic, enc: Encoding, n: nat) {
    && (match enc
        case Boolean => b.UInt?
        case AddressLike | Unsigned | UnsignedChar => b.UInt?
        case Signed | SignedChar => b.SInt?
        case Float => b.FloatT?
        case ComplexFloat => b.ComplexT?
        case OtherEncoding => false)
    && BasicExtent(b).size == if enc.Boolean? then 1 else n
  }

  /** The base types that can be passed are those that have foreign types, in the same sizes. */
  lemma SameEncodings(enc: Encoding, n: nat)
    ensures BasicFor(enc, n).Some? <==> TypeGraph.Encodable(enc, n, 8 * n)
  {
  }

  /** The extent of a described structure: the foreign size; and libffi's alignment, or, if libffi's
      size differs, that of the strictest member if it is greater. */
  lemma StructExtent(t: Foreign, layouter: Layouter)
    requires t.Composite? && Describe(t, layouter).Some?
    ensures var s, natural := Describe(t, layouter).value, layouter(Extents(DescribeAll(t, |t.members|, layouter).value));
      && s.Node? && natural.Some? && s.extent.size == t.size && natural.value.align <= s.extent.align
      && (natural.value.size == t.size ==> s.extent == natural.value)
      && (natural.value.size != t.size ==> forall i :: 0 <= i < |s.parts| ==> ExtentOf(s.parts[i]).align <= s.extent.align)
      && (s.extent.align != natural.value.align ==> exists i :: 0 <= i < |s.parts| && s.extent.align == ExtentOf(s.parts[i]).align)
  {
  }

  /** What can be passed by value: base types of a supported size, and structures of such. */
  predicate ByValue(t: Foreign) {
    match t
    case Void => true
    case ByReference => true
    case Enumeration(b) => b.Some? && b.value.Base? && BasicFor(b.value.enc, b.value.bytes).Some?
    case Base(enc, n) => BasicFor(enc, n).Some?
    case Composite(_, ms) => forall i :: 0 <= i < |ms| ==> ByValue(ms[i])
    case NotHandled => false
  }

  /** If libffi accepts every structure, exactly these types are described. */
  lemma {:induction false} DescribeIff(t: Foreign, layouter: Layouter)
    requires forall e :: layouter(e).Some?
    ensures Describe(t, layouter).Some? <==> ByValue(t)
    decreases t, 1, 0
  {
    if t.Composite? { DescribeAllIff(t, |t.members|, layouter); }
  }

  lemma {:induction false} DescribeAllIff(t: Foreign, n: nat, layouter: Layouter)
    requires t.Composite? && n <= |t.members| && forall e :: layouter(e).Some?
    ensures DescribeAll(t, n, layouter).Some? <==> forall i :: 0 <= i < n ==> ByValue(t.members[i])
    decreases t, 0, n
  {
    if n > 0 {
      DescribeAllIff(t, n - 1, layouter);
      DescribeIff(t.members[n - 1], layouter);
    }
  }

  /** At every depth, a structure is aligned at least like its strictest member. */
  predicate Aligned(s: Shape) {
    match s
    case Leaf(_) => true
    case Node(e, parts) =>
      forall i :: 0 <= i < |parts| ==> Aligned(parts[i]) && ExtentOf(parts[i]).align <= e.align
  }

  ghost predicate AlignsMembers(layouter: Layouter) {
    forall es: seq<Extent>, i: nat :: i < |es| && layouter(es).Some? ==> es[i].align <= layouter(es).value.align
  }

  /** If libffi's own layouts do that, so do all descriptions: patching the size keeps it. */
  lemma {:induction false} DescribeAligned(t: Foreign, layouter: Layouter)
    requires AlignsMembers(layouter)
    requires Describe(t, layouter).Some?
    ensures Aligned(Describe(t, layouter).value)
    decreases t, 1, 0
  {
    if t.Composite? {
      DescribeAllAligned(t, |t.members|, layouter);
      var parts := DescribeAll(t, |t.members|, layouter).value;
      var natural := layouter(Extents(parts)).value;
      forall i | 0 <= i < |parts| ensures ExtentOf(parts[i]).align <= Patched(natural, t.size, parts).align {
        assert Extents(parts)[i] == ExtentOf(parts[i]);
      }
    }
  }

  lemma {:induction false} DescribeAllAligned(t: Foreign, n: nat, layouter: Layouter)
    requires AlignsMembers(layouter)
    requires t.Composite? && n <= |t.members| && DescribeAll(t, n, layouter).Some?
    ensures forall i :: 0 <= i < n ==> Aligned(DescribeAll(t, n, layouter).value[i])
    decreases t, 0, n
  {
    if n > 0 {
      DescribeAllAligned(t, n - 1, layouter);
      DescribeAligned(t.members[n - 1], layouter);
    }
  }

  lemma {:induction false} DescribeMirrors(t: Foreign, layouter: Layouter)
    requires Describe(t, layouter).Some?
    ensures Mirrors(Describe(t, layouter).value, t)
    decreases t, 1, 0
  {
    if t.Composite? { DescribeAllMirrors(t, |t.members|, layouter); }
  }

  lemma {:induction false} DescribeAllMirrors(t: Foreign, n: nat, layouter: Layouter)
    requires t.Composite? && n <= |t.members| && DescribeAll(t, n, layouter).Some?
    ensures forall i :: 0 <= i < n ==> Mirrors(DescribeAll(t, n, layouter).value[i], t.members[i])
    decreases t, 0, n
  {
    if n > 0 {
      DescribeAllMirrors(t, n - 1, layouter);
      DescribeMirrors(t.members[n - 1], layouter);
    }
  }

  // ----- The heap -----

  datatype Ptr = Null | Unset | Static(basic: Basic) | At(id: nat)

  datatype TypeRef = NoType | UnsetType | Type(id: nat)

  /** `StructCell` is an allocated ffi_type, `PtrArray` an array of ffi_type pointers,
      `RefArray` one of ForeignTypeObject pointers, `CifCell` an ffi_cif. */
  datatype Cell =
    | StructCell(elements: nat, extent: Extent)
    | PtrArray(items: seq<Ptr>)
    | RefArray(types: seq<TypeRef>)
    | CifCell(rtype: Ptr, args: Option<nat>)

  /** A descriptor with its addresses: `arr` is the cell of the element array. */
  datatype Desc = Fixed(basic: Basic) | Built(id: nat, arr: nat, extent: Extent, elems: seq<Desc>)

  function Root(d: Desc): Ptr {
    match d
    case Fixed(b) => Static(b)
    case Built(id, _, _, _) => At(id)
  }

  function ShapeOf(d: Desc): Shape
    decreases d, 1
  {
    match d
    case Fixed(b) => Leaf(b)
    case Built(_, _, e, _) => Node(e, ShapesOf(d))
  }

  function ShapesOf(d: Desc): (r: seq<Shape>)
    requires d.Built?
    ensures |r| == |d.elems| && forall i :: 0 <= i < |r| ==> r[i] == ShapeOf(d.elems[i])
    decreases d, 0
  {
    seq(|d.elems|, i requires 0 <= i < |d.elems| => ShapeOf(d.elems[i]))
  }

  ghost predicate Stored(cells: map<nat, Cell>, d: Desc)
    decreases d, 1
  {
    match d
    case Fixed(_) => true
    case Built(id, arr, e, _) => 
      id in cells && cells[id] == StructCell(arr, e) && StoredPrefix(cells, d) && cells[arr].items[|d.elems|] == Null
  }

  /** The element array of `d`, terminated by NULL, and all that it points to. */
  ghost predicate StoredArray(cells: map<nat, Cell>, d: Desc)
    requires d.Built?
  {
    StoredPrefix(cells, d) && cells[d.arr].items[|d.elems|] == Null
  }

  /** As `StoredArray`, but the items from the end of `d` on may still be unset. */
  ghost predicate StoredPrefix(cells: map<nat, Cell>, d: Desc)
    requires d.Built?
    decreases d, 0
  {
    && d.arr in cells && cells[d.arr].PtrArray? && |d.elems| < |cells[d.arr].items|
    && (forall i :: 0 <= i < |d.elems| ==> cells[d.arr].items[i] == Root(d.elems[i]) && Stored(cells, d.elems[i]))
  }

  ghost function Ids(d: Desc): set<nat>
    decreases d, 1, 0
  {
    match d
    case Fixed(_) => {}
    case Built(id, arr, _, elems) => {id, arr} + ElemIds(d, |elems|)
  }

  /** The cells of the first `n` elements. */
  ghost function ElemIds(d: Desc, n: nat): set<nat>
    requires d.Built? && n <= |d.elems|
    decreases d, 0, n
  {
    set i, x | 0 <= i < n && x in Ids(d.elems[i]) :: x
  }

  /** No cell is used twice. */
  ghost predicate Separate(d: Desc)
    decreases d, 1
  {
    match d
    case Fixed(_) => true
    case Built(id, arr, _, elems) => id != arr && id !in ElemIds(d, |elems|) && SeparateArray(d)
  }

  ghost predicate SeparateArray(d: Desc)
    requires d.Built?
    decreases d, 0
  {
    && d.arr !in ElemIds(d, |d.elems|)
    && (forall i :: 0 <= i < |d.elems| ==> Separate(d.elems[i]))
    && (forall i, j :: 0 <= i < j < |d.elems| ==> Ids(d.elems[i]) !! Ids(d.elems[j]))
  }

  lemma {:induction false} StoredFrame(c: map<nat, Cell>, d: map<nat, Cell>, t: Desc)
    requires Stored(c, t) && forall x :: x in Ids(t) ==> x in c && x in d && d[x] == c[x]
    ensures Stored(d, t)
    decreases t
  {
    if t.Built? {
      forall i | 0 <= i < |t.elems| ensures Stored(d, t.elems[i]) {
        ElemIdsCover(t, |t.elems|, i);
        StoredFrame(c, d, t.elems[i]);
      }
    }
  }

  lemma {:induction false} StoredInCells(c: map<nat, Cell>, t: Desc)
    requires Stored(c, t)
    ensures Ids(t) <= c.Keys
    decreases t
  {
    if t.Built? {
      forall i | 0 <= i < |t.elems| ensures Ids(t.elems[i]) <= c.Keys {
        StoredInCells(c, t.elems[i]);
      }
    }
  }

  lemma ElemIdsStep(d: Desc, n: nat)
    requires d.Built? && n < |d.elems|
    ensures ElemIds(d, n + 1) == ElemIds(d, n) + Ids(d.elems[n])
  {
  }

  lemma ElemIdsCover(d: Desc, n: nat, i: nat)
    requires d.Built? && i < n <= |d.elems|
    ensures Ids(d.elems[i]) <= ElemIds(d, n)
  {
  }

  class Heap {
    var cells: map<nat, Cell>
    var next: nat
    var refs: multiset<nat>
    const layouter: Layouter

    ghost predicate Valid()
      reads this
    {
      forall x :: x in cells ==> x < next
    }

    /** PyMem_Malloc */
    method Alloc(c: Cell) returns (id: nat)
      requires Valid()
      modifies this
      ensures Valid() && id !in old(cells) && cells == old(cells)[id := c] && refs == old(refs)
    {
      id := next;
      cells := cells[id := c];
      next := next + 1;
    }

    /** PyMem_Free */
    method Free(id: nat)
      requires Valid() && id in cells
      modifies this
      ensures Valid() && cells == old(cells) - {id} && refs == old(refs)
    {
      cells := cells - {id};
    }

    /** free_ffi_type */
    method FreeType(p: Ptr, ghost d: Desc)
      requires Valid() && p == Root(d) && Stored(cells, d) && Separate(d)
      modifies this
      ensures Valid() && cells == old(cells) - Ids(d) && refs == old(refs)
      decreases d, 1
    {
      hide Separate, SeparateArray, StoredArray, ElemIds;
      if p.At? {
        BuiltParts(cells, d);
        FreeTypeArr(cells[p.id].elements, d);
        Free(p.id);
        assert cells == old(cells) - Ids(d);
      }
    }

    /** free_ffi_type_arr */
    method FreeTypeArr(arr: nat, ghost d: Desc)
      requires Valid() && d.Built? && arr == d.arr && StoredArray(cells, d) && SeparateArray(d)
      modifies this
      ensures Valid() && cells == old(cells) - ElemIds(d, |d.elems|) - {arr} && refs == old(refs)
      decreases d, 0
    {
      hide Ids, ElemIds, Stored, Separate;
      var items := cells[arr].items;
      var i := 0;
      NoElems(d);
      while items[i] != Null
        invariant i <= |d.elems| && Valid() && refs == old(refs)
        invariant cells == old(cells) - ElemIds(d, i)
        decreases |d.elems| - i
      {
        RestStored(old(cells), d, i);
        FreeType(items[i], d.elems[i]);
        ElemIdsStep(d, i);
        i := i + 1;
      }
      ArrayKept(old(cells), d);
      Free(arr);
    }

    /** The assignment arr[i] = p */
    method SetItem(arr: nat, i: nat, p: Ptr)
      requires Valid() && arr in cells && cells[arr].PtrArray? && i < |cells[arr].items|
      modifies this
      ensures Valid() && cells == old(cells)[arr := PtrArray(old(cells)[arr].items[i := p])] && refs == old(refs)
    {
      cells := cells[arr := PtrArray(cells[arr].items[i := p])];
    }

    /** ffi_type_for_uniqtype: NULL, with nothing allocated, or a descriptor that owns
        exactly what was allocated. */
    method TypeFor(t: Foreign) returns (p: Ptr, ghost d: Desc)
      requires Valid()
      modifies this
      ensures Valid() && refs == old(refs)
      ensures p == Null <==> Describe(t, layouter).None?
      ensures p == Null ==> cells == old(cells)
      ensures p != Null ==> Made(old(cells), cells, p, d) && Some(ShapeOf(d)) == Describe(t, layouter)
      decreases t, 1
    {
      p, d := Null, Fixed(VoidT);
      match t {
        case Void => p := Static(VoidT);
        case ByReference => p, d := Static(PointerT), Fixed(PointerT);
        case Enumeration(b) =>
          if b.Some? && b.value.Base? {
            var basic := BasicFor(b.value.enc, b.value.bytes);
            if basic.Some? { p, d := Static(basic.value), Fixed(basic.value); }
          }
        case Base(enc, n) =>
          var basic := BasicFor(enc, n);
          if basic.Some? { p, d := Static(basic.value), Fixed(basic.value); }
        case Composite(_, _) => p, d := StructFor(t);
        case NotHandled =>
      }
      NothingMade(cells, d);
    }

    /** The COMPOSITE case of ffi_type_for_uniqtype */
    method StructFor(t: Foreign) returns (p: Ptr, ghost d: Desc)
      requires Valid() && t.Composite?
      modifies this
      ensures Valid() && refs == old(refs)
      ensures p == Null <==> Describe(t, layouter).None?
      ensures p == Null ==> cells == old(cells)
      ensures p != Null ==> Made(old(cells), cells, p, d) && Some(ShapeOf(d)) == Describe(t, layouter)
      decreases t, 0
    {
      hide Made, Partial, Stored, StoredPrefix, StoredArray, Separate, SeparateArray, Ids, ElemIds, Describe;
      var n := |t.members|;
      var arr := Alloc(PtrArray(seq(n + 1, _ => Unset)));
      d := Built(0, arr, Extent(0, 0), []);
      PartialStart(old(cells), cells, d, n);
      for i := 0 to n
        invariant Valid() && refs == old(refs) && Partial(old(cells), cells, d)
        invariant d.Built? && d.arr == arr && |d.elems| == i
        invariant arr in cells && cells[arr].PtrArray? && |cells[arr].items| == n + 1
        invariant DescribeAll(t, i, layouter) == Some(ShapesOf(d))
      {
        ghost var before := cells;
        var item, e := TypeFor(t.members[i]);
        if item == Null {
          SetItem(arr, i, Null);
          PartialEnds(old(cells), before, d);
          DescribeFails(t, i, n, layouter);
          FreeTypeArr(arr, d);
          p := Null;
          return;
        }
        MadeKeeps(before, cells, item, e, arr);
        PartialGrows(old(cells), before, cells, d, item, e);
        SetItem(arr, i, item);
        DescribeStep(t, i, layouter, d, e);
        d := d.(elems := d.elems + [e]);
      }
      PartialEnds(old(cells), cells, d);
      SetItem(arr, n, Null);
      ghost var parts := ShapesOf(d);
      p, d := Finish(t, arr, d);
      DescribeStruct(t, parts, layouter);
    }

    /** The struct descriptor for a complete element array. */
    method Finish(t: Foreign, arr: nat, ghost e: Desc) returns (p: Ptr, ghost d: Desc)
      requires Valid() && t.Composite? && e.Built? && e.arr == arr && |e.elems| == |t.members|
      requires StoredArray(cells, e) && SeparateArray(e)
      modifies this
      ensures Valid() && refs == old(refs)
      ensures var natural := layouter(Extents(ShapesOf(e)));
        if natural.None? then p == Null && cells == old(cells) - Owned(e)
        else
          && p != Null && Made(old(cells) - Owned(e), cells, p, d)
          && ShapeOf(d) == Node(Patched(natural.value, t.size, ShapesOf(e)), ShapesOf(e))
    {
      hide Made, Stored, StoredPrefix, StoredArray, Separate, SeparateArray, Ids, ElemIds, MaxAlign, Owned, ExtentOf, ShapesOf;
      var n := |t.members|;
      ghost var parts := ShapesOf(e);
      var c := cells;
      ItemsReadable(c, e);
      var items := c[arr].items;
      var extents := seq(n, i requires 0 <= i < n <= |items| && Points(c, items[i]) => ExtentAt(c, items[i]));
      assert extents == Extents(parts);
      var id := Alloc(StructCell(arr, Extent(0, 0)));
      StructMade(c, e, id, Extent(0, 0));
      var natural := layouter(extents);
      if natural.None? {
        FreeType(At(id), Built(id, arr, Extent(0, 0), e.elems));
        return Null, e;
      }
      var extent := natural.value;
      if extent.size != t.size {
        extent := extent.(size := t.size);
        MaxAlignNone(natural.value.align);
        for i := 0 to n
          invariant extent == Extent(t.size, MaxAlign(natural.value.align, parts[..i]))
          invariant Valid() && refs == old(refs) && cells == c[id := StructCell(arr, Extent(0, 0))]
        {
          MaxAlignStep(natural.value.align, parts, i);
          if extents[i].align > extent.align { extent := extent.(align := extents[i].align); }
        }
        assert parts[..n] == parts;
      }
      assert id in cells;
      cells := cells[id := StructCell(arr, extent)];
      assert cells == c[id := StructCell(arr, extent)];
      StructMade(c, e, id, extent);
      return At(id), Built(id, arr, extent, e.elems);
    }
  }

  lemma BuiltParts(cells: map<nat, Cell>, d: Desc)
    requires Stored(cells, d) && Separate(d) && d.Built?
    ensures d.id in cells && cells[d.id] == StructCell(d.arr, d.extent)
    ensures StoredArray(cells, d) && SeparateArray(d)
    ensures d.id != d.arr && d.id !in ElemIds(d, |d.elems|)
    ensures Ids(d) == {d.id, d.arr} + ElemIds(d, |d.elems|)
  {
  }

  lemma NoElems(d: Desc)
    requires d.Built?
    ensures ElemIds(d, 0) == {}
  {
  }

  /** Freeing the first elements does not touch the next one. */
  lemma RestStored(cells: map<nat, Cell>, d: Desc, i: nat)
    requires d.Built? && i < |d.elems| && StoredArray(cells, d) && SeparateArray(d)
    ensures Stored(cells - ElemIds(d, i), d.elems[i]) && Separate(d.elems[i])
    ensures cells[d.arr].items[i] == Root(d.elems[i])
  {
    StoredInCells(cells, d.elems[i]);
    StoredFrame(cells, cells - ElemIds(d, i), d.elems[i]);
  }

  lemma ArrayKept(cells: map<nat, Cell>, d: Desc)
    requires d.Built? && StoredArray(cells, d) && SeparateArray(d)
    ensures d.arr in cells - ElemIds(d, |d.elems|)
  {
  }

  predicate Points(c: map<nat, Cell>, p: Ptr) {
    p.Static? || (p.At? && p.id in c && c[p.id].StructCell?)
  }

  function ExtentAt(c: map<nat, Cell>, p: Ptr): Extent
    requires Points(c, p)
  {
    match p
    case Static(b) => BasicExtent(b)
    case At(id) => c[id].extent
  }

  lemma ItemsReadable(c: map<nat, Cell>, e: Desc)
    requires e.Built? && StoredArray(c, e)
    ensures e.arr in c && c[e.arr].PtrArray? && |e.elems| < |c[e.arr].items|
    ensures forall i :: 0 <= i < |e.elems| ==>
      Points(c, c[e.arr].items[i]) && ExtentAt(c, c[e.arr].items[i]) == ExtentOf(ShapesOf(e)[i])
  {
    forall i | 0 <= i < |e.elems| ensures Points(c, c[e.arr].items[i]) && ExtentAt(c, c[e.arr].items[i]) == ExtentOf(ShapesOf(e)[i]) {
      assert Stored(c, e.elems[i]);
    }
  }

  lemma StructMade(c: map<nat, Cell>, e: Desc, id: nat, extent: Extent)
    requires e.Built? && StoredArray(c, e) && SeparateArray(e) && id !in c
    ensures var d, c1 := Built(id, e.arr, extent, e.elems), c[id := StructCell(e.arr, extent)];
      && Made(c - Owned(e), c1, At(id), d) && Stored(c1, d) && Separate(d) && c1 - Ids(d) == c - Owned(e)
      && ShapeOf(d) == Node(extent, ShapesOf(e))
  {
    hide Stored, Separate, ElemIds, Ids;
    var d, c1 := Built(id, e.arr, extent, e.elems), c[id := StructCell(e.arr, extent)];
    SameElems(e, d);
    PrefixInCells(c, e);
    forall i | 0 <= i < |e.elems| ensures Stored(c1, e.elems[i]) { StoredFrame(c, c1, e.elems[i]); }
    StructParts(c1, d);
    assert c1 - Ids(d) == c - Owned(e);
  }

  lemma SameElems(e: Desc, d: Desc)
    requires e.Built? && d.Built? && e.arr == d.arr && e.elems == d.elems
    ensures ElemIds(d, |d.elems|) == ElemIds(e, |e.elems|) && ShapesOf(d) == ShapesOf(e)
  {
  }

  lemma StructParts(c: map<nat, Cell>, d: Desc)
    requires d.Built? && d.id in c && c[d.id] == StructCell(d.arr, d.extent) && StoredArray(c, d) && SeparateArray(d)
    requires d.id != d.arr && d.id !in ElemIds(d, |d.elems|)
    ensures Stored(c, d) && Separate(d) && Ids(d) == Owned(d) + {d.id}
  {
  }

  lemma MaxAlignNone(a: nat)
    ensures MaxAlign(a, []) == a
  {
  }

  lemma MaxAlignStep(a: nat, parts: seq<Shape>, i: nat)
    requires i < |parts|
    ensures MaxAlign(a, parts[..i + 1]) == Max(MaxAlign(a, parts[..i]), ExtentOf(parts[i]).align)
  {
    assert parts[..i + 1][..i] == parts[..i];
  }

  // ----- What a descriptor owns -----

  ghost function Owned(d: Desc): set<nat>
    requires d.Built?
  {
    {d.arr} + ElemIds(d, |d.elems|)
  }

  /** `p` is a new descriptor `d`, and its cells are all that `c` has beyond `c0`. */
  ghost predicate Made(c0: map<nat, Cell>, c: map<nat, Cell>, p: Ptr, d: Desc) {
    p == Root(d) && Stored(c, d) && Separate(d) && Ids(d) !! c0.Keys && c - Ids(d) == c0
  }

  /** `d` is an element array under construction, and its cells are all that `c` has beyond `c0`. */
  ghost predicate Partial(c0: map<nat, Cell>, c: map<nat, Cell>, d: Desc) {
    d.Built? && StoredPrefix(c, d) && SeparateArray(d) && Owned(d) !! c0.Keys && c - Owned(d) == c0
  }

  lemma NothingMade(c: map<nat, Cell>, d: Desc)
    ensures d.Fixed? ==> Made(c, c, Root(d), d)
  {
  }

  lemma PartialStart(c0: map<nat, Cell>, c: map<nat, Cell>, d: Desc, n: nat)
    requires d.Built? && d.elems == [] && d.arr !in c0 && c == c0[d.arr := PtrArray(seq(n + 1, _ => Unset))]
    ensures Partial(c0, c, d) && ShapesOf(d) == []
  {
  }

  lemma MadeKeeps(c: map<nat, Cell>, c1: map<nat, Cell>, p: Ptr, e: Desc, arr: nat)
    requires Made(c, c1, p, e) && arr in c
    ensures arr in c1 && c1[arr] == c[arr] && p != Null
  {
    assert arr in c1 - Ids(e);
  }

  /** Writing the terminator turns a construction into an array that can be freed. */
  lemma PartialEnds(c0: map<nat, Cell>, c: map<nat, Cell>, d: Desc)
    requires Partial(c0, c, d)
    ensures d.arr in c && c[d.arr].PtrArray? && |d.elems| < |c[d.arr].items|
    ensures var c1 := c[d.arr := PtrArray(c[d.arr].items[|d.elems| := Null])];
      StoredArray(c1, d) && SeparateArray(d) && c1 - ElemIds(d, |d.elems|) - {d.arr} == c0 && c1 - Owned(d) == c0
  {
    hide Stored, Separate;
    PartialWrite(c0, c, d, |d.elems|, Null);
    PartialDone(c0, c[d.arr := PtrArray(c[d.arr].items[|d.elems| := Null])], d);
  }

  lemma PartialDone(c0: map<nat, Cell>, c: map<nat, Cell>, d: Desc)
    requires Partial(c0, c, d) && c[d.arr].items[|d.elems|] == Null
    ensures StoredArray(c, d) && SeparateArray(d) && c - ElemIds(d, |d.elems|) - {d.arr} == c0 && c - Owned(d) == c0
  {
    hide Stored, Separate;
  }

  /** An item beyond the constructed part can be written. */
  lemma PartialWrite(c0: map<nat, Cell>, c: map<nat, Cell>, d: Desc, k: nat, p: Ptr)
    requires Partial(c0, c, d) && |d.elems| <= k < |c[d.arr].items|
    ensures Partial(c0, c[d.arr := PtrArray(c[d.arr].items[k := p])], d)
  {
    hide Stored, Separate;
    var c1 := c[d.arr := PtrArray(c[d.arr].items[k := p])];
    forall i | 0 <= i < |d.elems| ensures Stored(c1, d.elems[i]) {
      ElemStays(c, c1, d, i);
    }
    assert c1 - Owned(d) == c - Owned(d);
  }

  /** The construction does not depend on cells that it does not own. */
  lemma PartialFrame(c0: map<nat, Cell>, c: map<nat, Cell>, d: Desc, b0: map<nat, Cell>, b: map<nat, Cell>)
    requires Partial(c0, c, d) && b - Owned(d) == b0
    requires forall x :: x in Owned(d) ==> x in b && x in c && b[x] == c[x]
    ensures Partial(b0, b, d)
  {
    hide Stored, Separate, ElemIds;
    forall i | 0 <= i < |d.elems| ensures Stored(b, d.elems[i]) {
      ElemIdsCover(d, |d.elems|, i);
      StoredFrame(c, b, d.elems[i]);
    }
    assert d.arr in Owned(d);
    assert Owned(d) !! b0.Keys by { forall x | x in Owned(d) ensures x !in b - Owned(d) { } }
  }

  lemma ElemStays(c: map<nat, Cell>, c1: map<nat, Cell>, d: Desc, i: nat)
    requires d.Built? && i < |d.elems| && Stored(c, d.elems[i]) && SeparateArray(d)
    requires forall x :: x in c && x != d.arr ==> x in c1 && c1[x] == c[x]
    ensures Stored(c1, d.elems[i])
  {
    ElemIdsCover(d, |d.elems|, i);
    StoredInCells(c, d.elems[i]);
    StoredFrame(c, c1, d.elems[i]);
  }

  /** Storing a new descriptor in the next item. */
  lemma PartialGrows(c0: map<nat, Cell>, c: map<nat, Cell>, c1: map<nat, Cell>, d: Desc, p: Ptr, e: Desc)
    requires Partial(c0, c, d) && Made(c, c1, p, e) && |d.elems| + 1 < |c[d.arr].items|
    ensures d.arr in c1 && c1[d.arr] == c[d.arr]
    ensures Partial(c0, c1[d.arr := PtrArray(c1[d.arr].items[|d.elems| := p])], d.(elems := d.elems + [e]))
  {
    hide Stored, Separate, Ids, ElemIds;
    MadeKeeps(c, c1, p, e, d.arr);
    var c2 := c1[d.arr := PtrArray(c1[d.arr].items[|d.elems| := p])];
    var f := d.(elems := d.elems + [e]);
    ElemIdsGrow(d, e);
    assert d.arr in c && d.arr !in Ids(e);
    MadeFrame(c, c1, p, e);
    forall i | 0 <= i < |d.elems| ensures Stored(c2, d.elems[i]) {
      ElemStays(c, c2, d, i);
    }
    MadeStays(c, c1, c2, p, e, d.arr);
    PrefixInCells(c, d);
    assert c2 - Owned(f) == c - Owned(d);
  }

  lemma PrefixInCells(c: map<nat, Cell>, d: Desc)
    requires d.Built? && StoredPrefix(c, d)
    ensures Owned(d) <= c.Keys
    ensures forall i :: 0 <= i < |d.elems| ==> Ids(d.elems[i]) <= c.Keys
  {
    hide Stored, Ids;
    forall i | 0 <= i < |d.elems| ensures Ids(d.elems[i]) <= c.Keys { StoredInCells(c, d.elems[i]); }
  }

  lemma MadeFrame(c: map<nat, Cell>, c1: map<nat, Cell>, p: Ptr, e: Desc)
    requires Made(c, c1, p, e)
    ensures forall x :: x in c ==> x in c1 && c1[x] == c[x]
    ensures c1.Keys == c.Keys + Ids(e) && c.Keys !! Ids(e) && Separate(e)
  {
    hide Stored, Separate, Ids;
    StoredInCells(c1, e);
    forall x | x in c ensures x in c1 && c1[x] == c[x] { assert x in c1 - Ids(e); }
    forall x | x in c1 && x !in Ids(e) ensures x in c { assert x in c1 - Ids(e); }
  }

  lemma MadeStays(c: map<nat, Cell>, c1: map<nat, Cell>, c2: map<nat, Cell>, p: Ptr, e: Desc, arr: nat)
    requires Made(c, c1, p, e) && arr in c && arr in c2 && c2 == c1[arr := c2[arr]]
    ensures Stored(c2, e)
  {
    StoredInCells(c1, e);
    StoredFrame(c1, c2, e);
  }

  lemma ElemIdsGrow(d: Desc, e: Desc)
    requires d.Built?
    ensures var f := d.(elems := d.elems + [e]);
      && ElemIds(f, |f.elems|) == ElemIds(d, |d.elems|) + Ids(e)
      && forall i :: 0 <= i < |d.elems| ==> Ids(d.elems[i]) <= ElemIds(d, |d.elems|)
  {
    var f := d.(elems := d.elems + [e]);
    assert forall i :: 0 <= i < |d.elems| ==> f.elems[i] == d.elems[i];
    assert f.elems[|d.elems|] == e;
  }

  lemma DescribeStep(t: Foreign, i: nat, layouter: Layouter, d: Desc, e: Desc)
    requires t.Composite? && i < |t.members| && d.Built? && DescribeAll(t, i, layouter) == Some(ShapesOf(d))
    requires Describe(t.members[i], layouter) == Some(ShapeOf(e))
    ensures DescribeAll(t, i + 1, layouter) == Some(ShapesOf(d.(elems := d.elems + [e])))
  {
    assert ShapesOf(d) + [ShapeOf(e)] == ShapesOf(d.(elems := d.elems + [e]));
  }

  lemma {:induction false} DescribeFails(t: Foreign, i: nat, n: nat, layouter: Layouter)
    requires t.Composite? && i < n <= |t.members| && Describe(t.members[i], layouter).None?
    ensures DescribeAll(t, n, layouter).None? && Describe(t, layouter).None?
    decreases n
  {
    if i + 1 < n { DescribeFails(t, i, n - 1, layouter); }
    if n < |t.members| { DescribeNone(t, n, |t.members|, layouter); }
  }

  lemma {:induction false} DescribeNone(t: Foreign, n: nat, m: nat, layouter: Layouter)
    requires t.Composite? && n <= m <= |t.members| && DescribeAll(t, n, layouter).None?
    ensures DescribeAll(t, m, layouter).None?
    decreases m
  {
    if n < m { DescribeNone(t, n, m - 1, layouter); }
  }

  lemma DescribeStruct(t: Foreign, parts: seq<Shape>, layouter: Layouter)
    requires t.Composite? && DescribeAll(t, |t.members|, layouter) == Some(parts)
    ensures var natural := layouter(Extents(parts));
      Describe(t, layouter) == if natural.None? then None else Some(Node(Patched(natural.value, t.size, parts), parts))
  {
  }
}
