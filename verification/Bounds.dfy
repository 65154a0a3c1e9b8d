/** The bounds search of minicrunch.c: a stateful callback that descends a type tree. */
module Bounds {
  import opened Common
  import opened Layout

  /** An array type and the offset at which that array starts. */
  datatype Span = Span(ty: Ty, start: nat)

  datatype Found = Found(ty: Ty, container: Option<Span>)

  // ----- The descent -----

  predicate Covers(start: nat, size: nat, target: nat) {
    start <= target < start + size
  }

  function MemberAt(t: Ty, n: nat, target: nat): (i: Option<nat>)
    requires t.Struct? && n <= |t.fields|
    ensures i.Some? ==> i.value < n && Covers(t.fields[i.value].offset, Size(t.fields[i.value].ty), target)
    ensures i.None? ==> forall j :: 0 <= j < n ==> !Covers(t.fields[j].offset, Size(t.fields[j].ty), target)
  {
    if n == 0 then None
    else if Covers(t.fields[n - 1].offset, Size(t.fields[n - 1].ty), target) then Some(n - 1)
    else MemberAt(t, n - 1, target)
  }

  function ElementAt(t: Ty, target: nat): (k: Option<nat>)
    requires t.Array?
  {
    if 0 < Size(t.elem) && target / Size(t.elem) < t.len then Some(target / Size(t.elem)) else None
  }

  lemma ElementAtCovers(t: Ty, target: nat, k: nat)
    requires t.Array? && k < t.len
    ensures Covers(ElementOffset(k, Size(t.elem)), Size(t.elem), target) <==> ElementAt(t, target) == Some(k)
  {
    var s := Size(t.elem);
    if 0 < s { QuotientIs(target, s, k); }
  }

  lemma DivMul(a: nat, s: nat)
    requires 0 < s
    ensures a / s * s <= a < a / s * s + s
  {
  }

  lemma QuotientIs(a: nat, s: nat, k: nat)
    requires 0 < s
    ensures k * s <= a < k * s + s <==> a / s == k
  {
    var q := a / s;
    DivMul(a, s);
    if q < k { MulMono(q + 1, k, s); }
    if k < q { MulMono(k + 1, q, s); }
  }

  /** The direct subobject that contains `target` (an offset in `t`). */
  function Child(t: Ty, target: nat): (f: Option<Field>)
    ensures f.Some? ==> f.value.offset <= target
    ensures f.Some? ==> f.value.ty < t
  {
    match t
    case Struct(_, _, fs) =>
      var i := MemberAt(t, |fs|, target);
      if i.Some? then Some(fs[i.value]) else None
    case Array(e, n) =>
      var k := ElementAt(t, target);
      if k.None? then None
      else
        assert Covers(ElementOffset(k.value, Size(e)), Size(e), target) by { ElementAtCovers(t, target, k.value); }
        Some(Field(ElementOffset(k.value, Size(e)), e))
    case _ => None
  }

  /** What the search finds: the outermost subobject of the given size at the target
      offset, with the array whose element it is. `t` starts at `start`, within `outer`. */
  function Find(t: Ty, start: nat, target: nat, size: nat, outer: Option<Span>): Option<Found>
    requires start <= target
    decreases t, 1
  {
    if start == target && Size(t) == size then Some(Found(t, outer)) else FindInside(t, start, target, size)
  }

  /** As `Find`, among the proper subobjects of `t`. */
  function FindInside(t: Ty, start: nat, target: nat, size: nat): Option<Found>
    requires start <= target
    decreases t, 0
  {
    var f := Child(t, target - start);
    if f.None? then None
    else Find(f.value.ty, start + f.value.offset, target, size, if t.Array? then Some(Span(t, start)) else None)
  }

  // ----- What the search means -----

  /** Something of the given size starts at offset `o` of `t`. */
  ghost predicate StartsAt(t: Ty, o: nat, size: nat) {
    exists u :: Size(u) == size && Occurs(t, o, u)
  }

  lemma OneMemberCovers(t: Ty, i: nat, j: nat, target: nat)
    requires t.Struct? && WellFormed(t) && i < |t.fields| && j < |t.fields|
    requires Covers(t.fields[i].offset, Size(t.fields[i].ty), target)
    requires Covers(t.fields[j].offset, Size(t.fields[j].ty), target)
    ensures i == j
  {
    assert forall i, j :: 0 <= i < j < |t.fields| ==>
      Disjoint(t.fields[i].offset, Size(t.fields[i].ty), t.fields[j].offset, Size(t.fields[j].ty));
  }

  /** A proper subobject of non-zero size lies in the one child that contains its start. */
  lemma ProperSubobject(t: Ty, o: nat, u: Ty)
    requires WellFormed(t) && Occurs(t, o, u) && 0 < Size(u) && !(o == 0 && u == t)
    ensures var f := Child(t, o);
      f.Some? && WellFormed(f.value.ty) && Occurs(f.value.ty, o - f.value.offset, u)
  {
    hide ElementOffset, Occurs;
    if u == t { SubobjectInside(t, o, u); }
    if t.Struct? {
      var i := MemberOf(t, o, u);
      SubobjectInside(t.fields[i].ty, o - t.fields[i].offset, u);
      var j := MemberAt(t, |t.fields|, o);
      OneMemberCovers(t, i, j.value, o);
    } else {
      OnlyAggregates(t, o, u);
      var k := ElementOf(t, o, u);
      SubobjectInside(t.elem, o - ElementOffset(k, Size(t.elem)), u);
      ElementAtCovers(t, o, k);
    }
  }

  /** A child is a subobject, and so are its subobjects. */
  lemma ChildOccurs(t: Ty, target: nat, o: nat, u: Ty)
    requires Child(t, target).Some? && Occurs(Child(t, target).value.ty, o, u)
    ensures Occurs(t, Child(t, target).value.offset + o, u)
  {
    hide ElementOffset;
    var f := Child(t, target).value;
    assert f.offset + o - f.offset == o;
    if t.Struct? {
      assert t.fields[MemberAt(t, |t.fields|, target).value] == f;
    } else {
      assert ElementOffset(ElementAt(t, target).value, Size(t.elem)) == f.offset;
    }
  }

  /** The search succeeds exactly when a subobject of the requested size starts at the target. */
  lemma {:induction false} FindIff(t: Ty, start: nat, target: nat, size: nat, outer: Option<Span>)
    requires WellFormed(t) && start <= target && 0 < size
    ensures Find(t, start, target, size, outer).Some? <==> StartsAt(t, target - start, size)
    decreases t
  {
    hide Occurs, WellFormed, Child;
    var o := target - start;
    if start == target && Size(t) == size {
      WholeOccurs(t);
    } else {
      var f := Child(t, o);
      if f.Some? {
        ChildWellFormed(t, o);
        FindIff(f.value.ty, start + f.value.offset, target, size, if t.Array? then Some(Span(t, start)) else None);
        if u :| Size(u) == size && Occurs(f.value.ty, o - f.value.offset, u) { ChildOccurs(t, o, o - f.value.offset, u); }
      }
      if u :| Size(u) == size && Occurs(t, o, u) { ProperSubobject(t, o, u); }
    }
  }

  lemma WholeOccurs(t: Ty)
    ensures Occurs(t, 0, t)
  {
  }

  lemma ChildWellFormed(t: Ty, target: nat)
    requires WellFormed(t) && Child(t, target).Some?
    ensures WellFormed(Child(t, target).value.ty)
    ensures t.Array? ==> ElementAt(t, target).Some?
    ensures t.Array? ==> Child(t, target).value == Field(ElementOffset(ElementAt(t, target).value, Size(t.elem)), t.elem)
  {
  }

  /** `c` is an array in `t` one of whose elements starts at `target`. */
  ghost predicate Encloses(t: Ty, c: Span, target: nat, u: Ty) {
    && c.ty.Array? && c.ty.elem == u && Occurs(t, c.start, c.ty)
    && exists k: nat :: k < c.ty.len && target == c.start + ElementOffset(k, Size(u))
  }

  /** What is found has the requested size and starts at the target; a container is an
      array of which it is an element. */
  lemma {:induction false} FoundFits(t: Ty, target: nat, size: nat)
    requires WellFormed(t) && Find(t, 0, target, size, None).Some?
    ensures var f := Find(t, 0, target, size, None).value;
      && Size(f.ty) == size && Occurs(t, target, f.ty)
      && (f.container.Some? ==> Encloses(t, f.container.value, target, f.ty))
  {
    WholeOccurs(t);
    FoundFitsFrom(t, t, 0, target, size, None);
  }

  lemma {:induction false} FoundFitsFrom(root: Ty, t: Ty, start: nat, target: nat, size: nat, outer: Option<Span>)
    requires start <= target && Find(t, start, target, size, outer).Some?
    requires Occurs(root, start, t)
    requires outer.Some? ==> Encloses(root, outer.value, start, t)
    ensures var f := Find(t, start, target, size, outer).value;
      && Size(f.ty) == size && Occurs(root, target, f.ty)
      && (f.container.Some? ==> Encloses(root, f.container.value, target, f.ty))
    decreases t
  {
    hide Occurs, Child;
    if !(start == target && Size(t) == size) {
      var f := Child(t, target - start).value;
      WholeOccurs(f.ty);
      ChildOccurs(t, target - start, 0, f.ty);
      Nested(root, start, t, f.offset, f.ty);
      var inner := if t.Array? then Some(Span(t, start)) else None;
      if t.Array? { ChildIsElement(t, target - start); }
      FoundFitsFrom(root, f.ty, start + f.offset, target, size, inner);
    }
  }

  lemma ChildIsElement(t: Ty, target: nat)
    requires t.Array? && Child(t, target).Some?
    ensures var f := Child(t, target).value;
      f.ty == t.elem && exists k: nat :: k < t.len && f.offset == ElementOffset(k, Size(t.elem))
  {
  }

  /** A subobject of a subobject is a subobject. */
  lemma {:induction false} Nested(root: Ty, start: nat, t: Ty, o: nat, u: Ty)
    requires Occurs(root, start, t) && Occurs(t, o, u)
    ensures Occurs(root, start + o, u)
    decreases root
  {
    hide ElementOffset;
    if !(start == 0 && t == root) {
      match root
      case Struct(_, _, fs) =>
        var i :| 0 <= i < |fs| && fs[i].offset <= start && Occurs(fs[i].ty, start - fs[i].offset, t);
        Nested(fs[i].ty, start - fs[i].offset, t, o, u);
        assert start + o - fs[i].offset == start - fs[i].offset + o;
      case Array(e, n) =>
        var k: nat :| k < n && ElementOffset(k, Size(e)) <= start && Occurs(e, start - ElementOffset(k, Size(e)), t);
        Nested(e, start - ElementOffset(k, Size(e)), t, o, u);
        assert start + o - ElementOffset(k, Size(e)) == start - ElementOffset(k, Size(e)) + o;
    }
  }

  /** The search descends to any subobject that is larger than what it looks for. */
  lemma {:induction false} FindPasses(t: Ty, start: nat, target: nat, size: nat, outer: Option<Span>, o: nat, u: Ty)
    returns (c: Option<Span>)
    requires WellFormed(t) && start <= target && start + o <= target < start + o + Size(u)
    requires Occurs(t, o, u) && size < Size(u)
    ensures Find(t, start, target, size, outer) == Find(u, start + o, target, size, c)
    decreases t
  {
    hide Occurs, WellFormed, Child;
    c := outer;
    if !(u == t && o == 0) {
      SubobjectInside(t, o, u);
      CoveringChild(t, o, u, target - start);
      var f := Child(t, target - start).value;
      ChildWellFormed(t, target - start);
      var inner := if t.Array? then Some(Span(t, start)) else None;
      c := FindPasses(f.ty, start + f.offset, target, size, inner, o - f.offset, u);
    }
  }

  lemma CoveringChild(t: Ty, o: nat, u: Ty, target: nat)
    requires WellFormed(t) && Occurs(t, o, u) && Covers(o, Size(u), target) && !(o == 0 && u == t)
    ensures Child(t, target).Some? && Child(t, target) == Child(t, o)
    ensures Child(t, o).value.offset <= o && Occurs(Child(t, o).value.ty, o - Child(t, o).value.offset, u)
  {
    hide ElementOffset, Occurs;
    ProperSubobject(t, o, u);
    var f := Child(t, o).value;
    SubobjectInside(f.ty, o - f.offset, u);
    if t.Struct? {
      var i, j := MemberAt(t, |t.fields|, o).value, MemberAt(t, |t.fields|, target);
      assert Covers(t.fields[i].offset, Size(t.fields[i].ty), target);
      OneMemberCovers(t, i, j.value, target);
    } else {
      var k := ElementAt(t, o).value;
      ElementAtCovers(t, o, k);
      ElementAtCovers(t, target, k);
    }
  }

  /** An element of an array of at least two is found together with that array. */
  lemma ElementFindsArray(t: Ty, target: nat, size: nat, c: Span, k: nat)
    requires WellFormed(t) && 0 < size
    requires c.ty.Array? && 1 < c.ty.len && Size(c.ty.elem) == size && Occurs(t, c.start, c.ty)
    requires k < c.ty.len && target == c.start + ElementOffset(k, size)
    ensures Find(t, 0, target, size, None) == Some(Found(c.ty.elem, Some(c)))
  {
    hide Occurs, WellFormed;
    var a := c.ty;
    MulMono(2, a.len, size);
    ElementInside(k, a.len, size);
    var d := FindPasses(t, 0, target, size, None, c.start, a);
    ElementAtCovers(a, target - c.start, k);
    assert Child(a, target - c.start) == Some(Field(ElementOffset(k, size), a.elem));
    assert Find(a, c.start, target, size, d) == FindInside(a, c.start, target, size);
    assert Find(a.elem, target, target, size, Some(c)) == Some(Found(a.elem, Some(c)));
  }

  // ----- The callback and the search -----

  /** The direct container of the subobject that is being visited. */
  datatype Context = Context(container: Ty, offsetWithin: nat)

  /** struct bounds_cb_arg */
  class BoundsCbArg {
    const passedSize: nat
    const targetOffset: nat
    var success: bool
    var matched: Option<Ty>
    var containingArray: Option<Ty>
    var spanStart: nat

    constructor (size: nat, target: nat)
      ensures passedSize == size && targetOffset == target && !success
    {
      passedSize, targetOffset := size, target;
      success, matched, containingArray, spanStart := false, None, None, 0;
    }

    ghost function Container(): Option<Span>
      reads this
    {
      if containingArray.Some? then Some(Span(containingArray.value, spanStart)) else None
    }

    ghost function Result(): Option<Found>
      reads this
    {
      if success && matched.Some? then Some(Found(matched.value, Container())) else None
    }

    /** bounds_cb: the result says whether to stop. A type without a known length, `unbounded`,
        carries a size greater than that of any other. */
    method BoundsCb(u: Ty, unbounded: bool, ucc: Option<Context>, offset: nat) returns (stop: bool)
      requires ucc.Some? ==> ucc.value.offsetWithin <= offset
      requires !success
      modifies this
      ensures Container() == SpanOf(ucc, offset)
      ensures var matches := offset == targetOffset && !unbounded && Size(u) == passedSize;
        && (stop <==> targetOffset < offset || matches)
        && Result() == if matches then Some(Found(u, SpanOf(ucc, offset))) else None
      ensures success <==> Result().Some?
    {
      if ucc.Some? && ucc.value.container.Array? {
        spanStart := offset - ucc.value.offsetWithin;
        containingArray := Some(ucc.value.container);
      } else {
        spanStart := 0;
        containingArray := None;
      }
      if offset < targetOffset { return false; }
      if offset > targetOffset { return true; }
      if !unbounded && Size(u) < passedSize { return false; }
      if unbounded || Size(u) > passedSize { return false; }
      success := true;
      matched := Some(u);
      return true;
    }

    /** __liballocs_search_subobjects_spanning: the callback sees, root first, the
        subobjects that contain the target offset, until it says stop. */
    method Search(u: Ty, unbounded: bool, ucc: Option<Context>, offset: nat) returns (stop: bool)
      requires ucc.Some? ==> ucc.value.offsetWithin <= offset
      requires !success && offset <= targetOffset
      modifies this
      ensures Result() == if unbounded then FindInside(u, offset, targetOffset, passedSize)
                          else Find(u, offset, targetOffset, passedSize, SpanOf(ucc, offset))
      ensures success <==> Result().Some?
      decreases u
    {
      stop := BoundsCb(u, unbounded, ucc, offset);
      if !stop {
        var f := Child(u, targetOffset - offset);
        if f.Some? {
          stop := Search(f.value.ty, false, Some(Context(u, f.value.offset)), offset + f.value.offset);
        }
      }
    }
  }

  ghost function SpanOf(ucc: Option<Context>, offset: nat): Option<Span>
    requires ucc.Some? ==> ucc.value.offsetWithin <= offset
  {
    if ucc.Some? && ucc.value.container.Array? then Some(Span(ucc.value.container, offset - ucc.value.offsetWithin)) else None
  }

  // ----- Fetching bounds -----

  /** What liballocs knows of an allocation: `sized` says whether its type has a known length;
      if not, `ty` is the array of as many elements as fit, and its own size counts as unbounded. */
  datatype Alloc = Alloc(start: nat, size: nat, ty: Option<Ty>, sized: bool)

  /** The type whose objects a pointer steps over. */
  datatype Stride = Stride(size: nat, isChar: bool, bounded: bool)

  datatype Bounds = Bounds(base: nat, size: nat)

  const MAX_BOUNDS: Bounds := Bounds(0, UNSIGNED - 1)

  ghost predicate ValidAlloc(a: Alloc) {
    && 0 < a.start && 0 < a.size
    && (a.ty.Some? ==>
          && WellFormed(a.ty.value) && Size(a.ty.value) <= a.size
          && (!a.sized ==> a.ty.value.Array? && 0 < Size(a.ty.value.elem) && a.size < Size(a.ty.value) + Size(a.ty.value.elem)))
  }

  predicate Contains(a: Alloc, p: nat) {
    a.start <= p < a.start + a.size
  }

  /** An allocation without type counts as a signed char. */
  function TypeOf(a: Alloc): Ty {
    if a.ty.Some? then a.ty.value else Scalar(1)
  }

  predicate Unsized(a: Alloc) {
    a.ty.Some? && !a.sized
  }

  /** What the search finds in an allocation. */
  function FindIn(a: Alloc, target: nat, size: nat): Option<Found> {
    if Unsized(a) then FindInside(TypeOf(a), 0, target, size) else Find(TypeOf(a), 0, target, size, None)
  }

  function MakeBounds(base: nat, limit: nat): Bounds {
    Bounds(base, (limit - base) % UNSIGNED)
  }

  function SearchTarget(a: Alloc, obj: nat): nat {
    (obj - a.start) % UNSIGNED
  }

  function BoundsOfFound(a: Alloc, obj: nat, t: Stride, f: Option<Found>): Bounds {
    if f.None? then MakeBounds(obj, obj + 1)
    else if f.value.container.Some? then
      var c := f.value.container.value;
      var lower := a.start + c.start;
      MakeBounds(lower, if Unsized(a) && TypeOf(a) == c.ty then a.start + a.size
                        else lower + (if c.ty.Array? then c.ty.len else 0) * t.size)
    else MakeBounds(obj, obj + if t.size > 0 then t.size else 1)
  }

  function BoundsFor(query: Option<Alloc>, obj: nat, t: Stride): Bounds {
    if obj == 0 then MakeBounds(obj, obj + 1)
    else if query.None? then MAX_BOUNDS
    else
      var a := query.value;
      if t.isChar then
        if a.start <= obj <= a.start + a.size then MakeBounds(a.start, a.start + a.size) else MAX_BOUNDS
      else if !t.bounded then MakeBounds(obj, obj + 1)
      else BoundsOfFound(a, obj, t, FindIn(a, SearchTarget(a, obj), t.size))
  }

  /** __fetch_bounds_internal; `query` is the answer of liballocs to an allocation query. */
  method FetchBounds(query: Option<Alloc>, obj: nat, t: Stride) returns (b: Bounds)
    ensures b == BoundsFor(query, obj, t)
  {
    if obj == 0 { return MakeBounds(obj, obj + 1); }
    if query.None? { return MAX_BOUNDS; }
    var a := query.value;
    if t.isChar {
      if a.start <= obj && obj - a.start <= a.size { return MakeBounds(a.start, a.start + a.size); }
      return MAX_BOUNDS;
    }
    if !t.bounded { return MakeBounds(obj, obj + 1); }
    var arg := new BoundsCbArg(t.size, SearchTarget(a, obj));
    var _ := arg.Search(TypeOf(a), Unsized(a), None, 0);
    if !arg.success { return MakeBounds(obj, obj + 1); }
    match arg.containingArray
    case Some(array_t) =>
      var lower := a.start + arg.spanStart;
      var known := !(Unsized(a) && TypeOf(a) == array_t);
      var len := if array_t.Array? then array_t.len else 0;
      var upper := if !known then a.start + a.size else lower + len * t.size;
      return MakeBounds(lower, upper);
    case None =>
      return MakeBounds(obj, obj + if t.size > 0 then t.size else 1);
  }

  // ----- What the search means for an allocation -----

  /** Something of the given size starts at offset `o` of the allocation; an array without a
      length of its own has no size to compare. */
  ghost predicate AllocStartsAt(a: Alloc, o: nat, size: nat) {
    exists u :: Size(u) == size && Occurs(TypeOf(a), o, u) && !(Unsized(a) && u == TypeOf(a))
  }

  lemma ProperIsOther(t: Ty, target: nat, o: nat, u: Ty)
    requires WellFormed(t) && Child(t, target).Some? && Occurs(Child(t, target).value.ty, o, u)
    ensures u != t
  {
    hide Occurs, ElementOffset;
    ChildWellFormed(t, target);
    SubobjectInside(Child(t, target).value.ty, o, u);
  }

  lemma FindInIff(a: Alloc, o: nat, size: nat)
    requires ValidAlloc(a) && 0 < size
    ensures FindIn(a, o, size).Some? <==> AllocStartsAt(a, o, size)
  {
    hide Occurs, WellFormed, Child, Size, TypeOf, Find;
    var t := TypeOf(a);
    TypeFits(a);
    if Unsized(a) {
      var f := Child(t, o);
      if f.Some? {
        ChildWellFormed(t, o);
        FindIff(f.value.ty, f.value.offset, o, size, if t.Array? then Some(Span(t, 0)) else None);
        if u :| Size(u) == size && Occurs(f.value.ty, o - f.value.offset, u) {
          ChildOccurs(t, o, o - f.value.offset, u);
          ProperIsOther(t, o, o - f.value.offset, u);
        }
      }
      if u :| Size(u) == size && Occurs(t, o, u) && u != t { ProperSubobject(t, o, u); }
    } else {
      FindIff(t, 0, o, size, None);
      assert StartsAt(t, o, size) <==> AllocStartsAt(a, o, size);
    }
  }

  /** What is found has the requested size and place; a container is an array of which it is
      an element. */
  lemma FoundInFits(a: Alloc, target: nat, size: nat)
    requires ValidAlloc(a) && FindIn(a, target, size).Some?
    ensures var f := FindIn(a, target, size).value;
      && Size(f.ty) == size && Occurs(TypeOf(a), target, f.ty)
      && (f.container.Some? ==> Encloses(TypeOf(a), f.container.value, target, f.ty))
  {
    hide Occurs, WellFormed, Child, Size, TypeOf, Find, Encloses;
    var t := TypeOf(a);
    TypeFits(a);
    if Unsized(a) {
      InsideFits(t, target, size);
    } else {
      FoundFits(t, target, size);
    }
  }

  lemma InsideFits(t: Ty, target: nat, size: nat)
    requires WellFormed(t) && FindInside(t, 0, target, size).Some?
    ensures var f := FindInside(t, 0, target, size).value;
      && Size(f.ty) == size && Occurs(t, target, f.ty)
      && (f.container.Some? ==> Encloses(t, f.container.value, target, f.ty))
  {
    hide Occurs, WellFormed, Child, Find;
    var f := Child(t, target).value;
    WholeOccurs(t);
    WholeOccurs(f.ty);
    ChildOccurs(t, target, 0, f.ty);
    if t.Array? { ChildIsElement(t, target); }
    FoundFitsFrom(t, f.ty, f.offset, target, size, if t.Array? then Some(Span(t, 0)) else None);
  }

  /** An element is found together with its array, if that has two elements or more, or is the
      whole allocation and has no length of its own. */
  lemma ElementFindsArrayIn(a: Alloc, target: nat, size: nat, c: Span, k: nat)
    requires ValidAlloc(a) && 0 < size
    requires c.ty.Array? && Size(c.ty.elem) == size && Occurs(TypeOf(a), c.start, c.ty)
    requires 1 < c.ty.len || (Unsized(a) && c.ty == TypeOf(a))
    requires k < c.ty.len && target == c.start + ElementOffset(k, size)
    ensures FindIn(a, target, size) == Some(Found(c.ty.elem, Some(c)))
  {
    hide Occurs, WellFormed, Child, Size, TypeOf, ElementOffset;
    var t := TypeOf(a);
    TypeFits(a);
    if Unsized(a) && c.ty == t {
      RootAtZero(t, c.start);
      ElementChild(t, k, size);
      assert Find(t.elem, target, target, size, Some(c)) == Some(Found(t.elem, Some(c)));
    } else {
      ElementFindsArray(t, target, size, c, k);
      if Unsized(a) { PassesRoot(t, target, size, c, k); }
    }
  }

  lemma ElementChild(t: Ty, k: nat, size: nat)
    requires t.Array? && k < t.len && Size(t.elem) == size && 0 < size
    ensures Child(t, ElementOffset(k, size)) == Some(Field(ElementOffset(k, size), t.elem))
  {
    ElementAtCovers(t, ElementOffset(k, size), k);
  }

  /** The search for an element of an inner array does not stop at the root. */
  lemma PassesRoot(t: Ty, target: nat, size: nat, c: Span, k: nat)
    requires WellFormed(t) && 0 < size
    requires c.ty.Array? && 1 < c.ty.len && Size(c.ty.elem) == size && Occurs(t, c.start, c.ty)
    requires k < c.ty.len && target == c.start + ElementOffset(k, size)
    ensures Find(t, 0, target, size, None) == FindInside(t, 0, target, size)
  {
    hide Occurs, WellFormed, Child, ElementOffset;
    SubobjectInside(t, c.start, c.ty);
    WholeSizes(c.ty, size);
    MulMono(2, c.ty.len, size);
  }

  // ----- What the bounds mean -----

  lemma MakeBoundsExact(base: nat, limit: nat)
    requires base <= limit < base + UNSIGNED
    ensures MakeBounds(base, limit) == Bounds(base, limit - base)
  {
  }

  lemma TargetExact(a: Alloc, obj: nat)
    requires Contains(a, obj) && a.size < UNSIGNED
    ensures SearchTarget(a, obj) == obj - a.start
  {
  }

  /** `b` holds an object of the given size at `obj`, whole strides from its base, inside `a`. */
  predicate GoodBounds(a: Alloc, obj: nat, size: nat, b: Bounds) {
    && a.start <= b.base <= obj && obj + size <= b.base + b.size <= a.start + a.size
    && 0 < size && (obj - b.base) % size == 0
  }

  /** The bounds of a pointer into an allocation are good if an object of the stride's
      size starts there, and a single byte if not. */
  lemma BoundsMeaning(a: Alloc, obj: nat, t: Stride)
    requires ValidAlloc(a) && Contains(a, obj) && a.size < UNSIGNED
    requires !t.isChar && t.bounded && 0 < t.size
    ensures var b := BoundsFor(Some(a), obj, t);
      if AllocStartsAt(a, obj - a.start, t.size) then GoodBounds(a, obj, t.size, b)
      else b == Bounds(obj, 1)
  {
    hide Occurs, WellFormed, FindIn, ElementOffset, MakeBounds, SearchTarget, Size, TypeOf, GoodBounds, Encloses, AllocStartsAt;
    var ty, o := TypeOf(a), obj - a.start;
    TypeFits(a);
    TargetExact(a, obj);
    FindInIff(a, o, t.size);
    var f := FindIn(a, o, t.size);
    if f.None? {
      MakeBoundsExact(obj, obj + 1);
    } else {
      FoundInFits(a, o, t.size);
      SubobjectInside(ty, o, f.value.ty);
      if f.value.container.Some? {
        ContainerBounds(a, obj, t, f.value);
      } else {
        MakeBoundsExact(obj, obj + t.size);
        ObjectBounds(a, obj, t.size);
      }
    }
  }

  lemma ObjectBounds(a: Alloc, obj: nat, size: nat)
    requires a.start <= obj && obj + size <= a.start + a.size && 0 < size
    ensures GoodBounds(a, obj, size, Bounds(obj, size))
  {
  }

  lemma ContainerBounds(a: Alloc, obj: nat, t: Stride, f: Found)
    requires ValidAlloc(a) && Contains(a, obj) && a.size < UNSIGNED && 0 < t.size && Size(f.ty) == t.size
    requires f.container.Some? && Encloses(TypeOf(a), f.container.value, obj - a.start, f.ty)
    ensures GoodBounds(a, obj, t.size, BoundsOfFound(a, obj, t, Some(f)))
  {
    hide Occurs, WellFormed, ElementOffset, MakeBounds, Size, TypeOf;
    var c := f.container.value;
    TypeFits(a);
    var k: nat :| k < c.ty.len && obj - a.start == c.start + ElementOffset(k, t.size);
    ElementInside(k, c.ty.len, t.size);
    SubobjectInside(TypeOf(a), c.start, c.ty);
    WholeStrides(k, t.size, obj - a.start - c.start);
    WholeSizes(c.ty, t.size);
    var lower := a.start + c.start;
    var len := c.ty.len * t.size;
    MakeBoundsExact(lower, a.start + a.size);
    MakeBoundsExact(lower, lower + len);
  }

  lemma WholeSizes(t: Ty, size: nat)
    requires t.Array? && Size(t.elem) == size
    ensures t.len * size == Size(t)
  {
  }

  lemma WholeStrides(k: nat, size: nat, o: nat)
    requires 0 < size && o == ElementOffset(k, size)
    ensures o % size == 0 && o / size == k
  {
    QuotientIs(o, size, k);
    assert o == size * (o / size) + o % size;
  }

  lemma TypeFits(a: Alloc)
    requires ValidAlloc(a)
    ensures WellFormed(TypeOf(a)) && Size(TypeOf(a)) <= a.size
    ensures a.ty.Some? ==> a.ty.value == TypeOf(a)
  {
  }

  /** The bounds of a pointer to an element of an array are that array, if it has two elements or
      more; and to the end of the allocation, if it has no length of its own. */
  lemma ElementBounds(a: Alloc, obj: nat, t: Stride, c: Span, k: nat)
    requires ValidAlloc(a) && a.size < UNSIGNED && !t.isChar && t.bounded && 0 < t.size
    requires c.ty.Array? && Size(c.ty.elem) == t.size && Occurs(TypeOf(a), c.start, c.ty)
    requires 1 < c.ty.len || (Unsized(a) && c.ty == TypeOf(a))
    requires k < c.ty.len && obj == a.start + c.start + ElementOffset(k, t.size)
    ensures BoundsFor(Some(a), obj, t)
         == Bounds(a.start + c.start, if Unsized(a) && TypeOf(a) == c.ty then a.size else Size(c.ty))
  {
    hide Occurs, WellFormed, FindIn, ElementOffset, MakeBounds, SearchTarget, Size, TypeOf;
    var ty := TypeOf(a);
    TypeFits(a);
    ElementFindsArrayIn(a, obj - a.start, t.size, c, k);
    SubobjectInside(ty, c.start, c.ty);
    WholeSizes(c.ty, t.size);
    ElementInside(k, c.ty.len, t.size);
    StrideInside(k, c.ty.len, t.size);
    TargetExact(a, obj);
    var lower := a.start + c.start;
    MakeBoundsExact(lower, lower + Size(c.ty));
    MakeBoundsExact(lower, a.start + a.size);
    if Unsized(a) && ty == c.ty { RootAtZero(ty, c.start); }
  }

  lemma StrideInside(k: nat, n: nat, size: nat)
    requires k < n && 0 < size
    ensures ElementOffset(k, size) < n * size
  {
    ElementInside(k, n, size);
  }

  lemma RootAtZero(t: Ty, o: nat)
    requires WellFormed(t) && Occurs(t, o, t)
    ensures o == 0
  {
    SubobjectInside(t, o, t);
  }

  /** The search looks for the right offset exactly below 4 GiB. */
  lemma SearchTargetIff(a: Alloc, obj: nat)
    requires Contains(a, obj)
    ensures SearchTarget(a, obj) == obj - a.start <==> obj - a.start < 0x1_0000_0000
  {
  }

  /** `Bounds.size` is exact only below 4 GiB. */
  lemma BoundsSizeIff(base: nat, limit: nat)
    requires base <= limit
    ensures MakeBounds(base, limit).size == limit - base <==> limit - base < UNSIGNED
  {
  }

  // ----- The other cases -----

  /** The bounds of a pointer to characters are those of its allocation, whatever that is. */
  lemma CharBounds(a: Alloc, obj: nat, t: Stride)
    requires 0 < a.start <= obj <= a.start + a.size && a.size < UNSIGNED && t.isChar
    ensures BoundsFor(Some(a), obj, t) == Bounds(a.start, a.size)
  {
    MakeBoundsExact(a.start, a.start + a.size);
  }

  /** NULL and pointers to something of unknown size get a single byte; a pointer that is in no
      allocation, or to characters outside of the one that was found, gets everything. */
  lemma OtherBounds(query: Option<Alloc>, obj: nat, t: Stride)
    ensures obj == 0 ==> BoundsFor(query, obj, t) == Bounds(0, 1)
    ensures obj != 0 && query.None? ==> BoundsFor(query, obj, t) == Bounds(0, 0xFFFF_FFFF)
    ensures obj != 0 && query.Some? && t.isChar && (obj < query.value.start || query.value.start + query.value.size < obj) ==>
      BoundsFor(query, obj, t) == Bounds(0, 0xFFFF_FFFF)
    ensures obj != 0 && query.Some? && !t.isChar && !t.bounded ==> BoundsFor(query, obj, t) == Bounds(obj, 1)
  {
  }

  /** An element of the given size of array `c` starts at offset `o`. */
  ghost predicate ElementHere(a: Alloc, o: nat, size: nat, c: Span) {
    c.ty.Array? && Size(c.ty.elem) == size && Encloses(TypeOf(a), c, o, c.ty.elem)
  }

  /** No object of the given size that starts at offset `o` is an element of an array. */
  ghost predicate Alone(a: Alloc, o: nat, size: nat) {
    forall c :: !ElementHere(a, o, size, c)
  }

  lemma HereIs(a: Alloc, o: nat, size: nat, c: Span, u: Ty)
    requires Encloses(TypeOf(a), c, o, u) && Size(u) == size
    ensures ElementHere(a, o, size, c)
  {
    hide Occurs, ElementOffset, TypeOf;
  }

  /** The bytes of an array, to the end of the allocation if it has no length of its own. */
  function SpanBounds(a: Alloc, c: Span): Bounds {
    Bounds(a.start + c.start, if Unsized(a) && TypeOf(a) == c.ty then a.size else Size(c.ty))
  }

  /** If the object is an element of no array, the bounds are the object. */
  lemma SingleBounds(a: Alloc, obj: nat, t: Stride)
    requires ValidAlloc(a) && Contains(a, obj) && a.size < UNSIGNED && !t.isChar && t.bounded && 0 < t.size
    requires AllocStartsAt(a, obj - a.start, t.size)
    requires Alone(a, obj - a.start, t.size)
    ensures BoundsFor(Some(a), obj, t) == Bounds(obj, t.size)
  {
    hide Occurs, WellFormed, FindIn, ElementOffset, MakeBounds, SearchTarget, Size, TypeOf, Encloses, AllocStartsAt, ElementHere;
    var o := obj - a.start;
    TypeFits(a);
    TargetExact(a, obj);
    FindInIff(a, o, t.size);
    FoundInFits(a, o, t.size);
    var f := FindIn(a, o, t.size).value;
    SubobjectInside(TypeOf(a), o, f.ty);
    if f.container.Some? { HereIs(a, o, t.size, f.container.value, f.ty); }
    MakeBoundsExact(obj, obj + t.size);
  }

  /** Otherwise they are the object, or a whole array of which an object of that size is an element. */
  lemma ArrayBounds(a: Alloc, obj: nat, t: Stride)
    requires ValidAlloc(a) && Contains(a, obj) && a.size < UNSIGNED && !t.isChar && t.bounded && 0 < t.size
    requires AllocStartsAt(a, obj - a.start, t.size)
    ensures var b := BoundsFor(Some(a), obj, t);
      b == Bounds(obj, t.size) || exists c :: ElementHere(a, obj - a.start, t.size, c) && b == SpanBounds(a, c)
  {
    hide Occurs, WellFormed, FindIn, ElementOffset, MakeBounds, SearchTarget, TypeOf, Encloses, AllocStartsAt, Size, ElementHere;
    var o := obj - a.start;
    TypeFits(a);
    TargetExact(a, obj);
    FindInIff(a, o, t.size);
    FoundInFits(a, o, t.size);
    var f := FindIn(a, o, t.size).value;
    SubobjectInside(TypeOf(a), o, f.ty);
    MakeBoundsExact(obj, obj + t.size);
    if f.container.Some? {
      WholeArray(a, f, o, t);
      HereIs(a, o, t.size, f.container.value, f.ty);
    }
  }

  lemma WholeArray(a: Alloc, f: Found, o: nat, t: Stride)
    requires ValidAlloc(a) && a.size < UNSIGNED && Size(f.ty) == t.size && f.container.Some?
    requires Encloses(TypeOf(a), f.container.value, o, f.ty)
    ensures var c := f.container.value;
      BoundsOfFound(a, a.start + o, t, Some(f)) == SpanBounds(a, c)
  {
    hide Occurs, WellFormed, ElementOffset, MakeBounds, Size, TypeOf;
    var c := f.container.value;
    TypeFits(a);
    SubobjectInside(TypeOf(a), c.start, c.ty);
    WholeSizes(c.ty, t.size);
    var lower := a.start + c.start;
    if Unsized(a) && TypeOf(a) == c.ty { RootAtZero(c.ty, c.start); }
    MakeBoundsExact(lower, lower + Size(c.ty));
    MakeBoundsExact(lower, if Unsized(a) && TypeOf(a) == c.ty then a.start + a.size else lower);
  }
}
