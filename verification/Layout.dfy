/** Layout trees of foreign data without unions: which subobjects lie where. */
module Layout {
  import opened Common

  const POINTER_SIZE: nat := 8

  datatype Field = Field(offset: nat, ty: Ty)

  /** `Struct` carries the name that identifies the composite type. */
  datatype Ty =
    | Scalar(size: nat)
    | Pointer
    | Struct(name: string, size: nat, fields: seq<Field>)
    | Array(elem: Ty, len: nat)

  function Size(t: Ty): nat {
    match t
    case Scalar(n) => n
    case Pointer => POINTER_SIZE
    case Struct(_, n, _) => n
    case Array(e, n) => n * Size(e)
  }

  /** Members lie inside their structure and do not overlap. */
  ghost predicate WellFormed(t: Ty) {
    match t
    case Scalar(_) => true
    case Pointer => true
    case Struct(_, n, fs) =>
      && (forall i :: 0 <= i < |fs| ==> WellFormed(fs[i].ty) && fs[i].offset + Size(fs[i].ty) <= n)
      && (forall i, j :: 0 <= i < j < |fs| ==> Disjoint(fs[i].offset, Size(fs[i].ty), fs[j].offset, Size(fs[j].ty)))
    case Array(e, _) => WellFormed(e)
  }

  function ElementOffset(k: nat, size: nat): nat {
    k * size
  }

  /** `u` is `t` itself or a subobject at any depth, at offset `o`. */
  ghost predicate Occurs(t: Ty, o: nat, u: Ty)
    decreases t
  {
    || (o == 0 && u == t)
    || (match t
        case Struct(_, _, fs) =>
          exists i :: 0 <= i < |fs| && fs[i].offset <= o && Occurs(fs[i].ty, o - fs[i].offset, u)
        case Array(e, n) =>
          exists k: nat :: k < n && ElementOffset(k, Size(e)) <= o && Occurs(e, o - ElementOffset(k, Size(e)), u)
        case _ => false)
  }

  function Depth(t: Ty): nat
    decreases t, 1, 0
  {
    match t
    case Struct(_, _, fs) => 1 + MaxDepth(t, |fs|)
    case Array(e, _) => 1 + Depth(e)
    case _ => 0
  }

  function MaxDepth(t: Ty, n: nat): (d: nat)
    requires t.Struct? && n <= |t.fields|
    ensures forall i :: 0 <= i < n ==> Depth(t.fields[i].ty) <= d
    decreases t, 0, n
  {
    if n == 0 then 0
    else
      var d := MaxDepth(t, n - 1);
      if Depth(t.fields[n - 1].ty) > d then Depth(t.fields[n - 1].ty) else d
  }

  lemma ElementInside(k: nat, n: nat, size: nat)
    requires k < n
    ensures ElementOffset(k, size) + size <= n * size
  {
    assert (k + 1) * size <= n * size by { MulMono(k + 1, n, size); }
  }

  lemma MulMono(a: nat, b: nat, c: nat)
    requires a <= b
    ensures a * c <= b * c
  {
  }

  lemma {:induction false} SubobjectInside(t: Ty, o: nat, u: Ty)
    requires WellFormed(t) && Occurs(t, o, u)
    ensures o + Size(u) <= Size(t)
    ensures Depth(u) <= Depth(t) && (Depth(u) == Depth(t) ==> u == t && o == 0)
  {
    if !(o == 0 && u == t) {
      match t
      case Struct(_, _, fs) =>
        var i :| 0 <= i < |fs| && fs[i].offset <= o && Occurs(fs[i].ty, o - fs[i].offset, u);
        SubobjectInside(fs[i].ty, o - fs[i].offset, u);
      case Array(e, n) =>
        var k: nat :| k < n && ElementOffset(k, Size(e)) <= o && Occurs(e, o - ElementOffset(k, Size(e)), u);
        SubobjectInside(e, o - ElementOffset(k, Size(e)), u);
        ElementInside(k, n, Size(e));
    }
  }

  /** Two subobjects of the same type are identical or disjoint: so when the addresses of
      two structures of the same type differ, copying one to the other is well defined. */
  lemma {:induction false} SameTypeAliasing(t: Ty, o: nat, p: nat, u: Ty)
    requires WellFormed(t) && Occurs(t, o, u) && Occurs(t, p, u)
    ensures o == p || Disjoint(o, Size(u), p, Size(u))
    decreases t
  {
    hide Occurs, ElementOffset;
    if u == t {
      SubobjectInside(t, o, u);
      SubobjectInside(t, p, u);
    } else {
      if t.Struct? {
        var fs := t.fields;
        var i := MemberOf(t, o, u);
        var j := MemberOf(t, p, u);
        if i == j {
          SameTypeAliasing(fs[i].ty, o - fs[i].offset, p - fs[i].offset, u);
        } else {
          SubobjectInside(fs[i].ty, o - fs[i].offset, u);
          SubobjectInside(fs[j].ty, p - fs[j].offset, u);
          assert Disjoint(fs[i].offset, Size(fs[i].ty), fs[j].offset, Size(fs[j].ty));
        }
      } else {
        OnlyAggregates(t, o, u);
        var e := t.elem;
        var i := ElementOf(t, o, u);
        var j := ElementOf(t, p, u);
        if i == j {
          SameTypeAliasing(e, o - ElementOffset(i, Size(e)), p - ElementOffset(i, Size(e)), u);
        } else {
          SubobjectInside(e, o - ElementOffset(i, Size(e)), u);
          SubobjectInside(e, p - ElementOffset(j, Size(e)), u);
          ElementsDisjoint(i, j, Size(e));
        }
      }
    }
  }

  lemma OnlyAggregates(t: Ty, o: nat, u: Ty)
    requires Occurs(t, o, u) && u != t
    ensures t.Struct? || t.Array?
  {
  }

  /** The element that contains a proper subobject of an array. */
  lemma ElementOf(t: Ty, o: nat, u: Ty) returns (k: nat)
    requires t.Array? && Occurs(t, o, u) && u != t
    ensures k < t.len && ElementOffset(k, Size(t.elem)) <= o && Occurs(t.elem, o - ElementOffset(k, Size(t.elem)), u)
  {
    hide ElementOffset;
    k :| k < t.len && ElementOffset(k, Size(t.elem)) <= o && Occurs(t.elem, o - ElementOffset(k, Size(t.elem)), u);
  }

  /** The member that contains a proper subobject of a structure. */
  lemma MemberOf(t: Ty, o: nat, u: Ty) returns (i: nat)
    requires t.Struct? && Occurs(t, o, u) && u != t
    ensures i < |t.fields| && t.fields[i].offset <= o && Occurs(t.fields[i].ty, o - t.fields[i].offset, u)
  {
    i :| 0 <= i < |t.fields| && t.fields[i].offset <= o && Occurs(t.fields[i].ty, o - t.fields[i].offset, u);
  }

  lemma ElementsDisjoint(i: nat, j: nat, size: nat)
    requires i != j
    ensures Disjoint(ElementOffset(i, size), size, ElementOffset(j, size), size)
  {
    if i < j { ElementInside(i, j, size); } else { ElementInside(j, i, size); }
  }

  // ----- Traversal -----

  /** The offsets of the pointer slots, in the order in which traversal visits them. */
  function Visits(t: Ty): seq<nat>
    decreases t, 1, 0
  {
    match t
    case Scalar(_) => []
    case Pointer => [0]
    case Struct(_, _, fs) => FieldVisits(t, |fs|)
    case Array(_, n) => ElementVisits(t, n)
  }

  /** The visits in the first `n` members. */
  function FieldVisits(t: Ty, n: nat): seq<nat>
    requires t.Struct? && n <= |t.fields|
    decreases t, 0, n
  {
    if n == 0 then [] else
    FieldVisits(t, n - 1) + Shift(Visits(t.fields[n - 1].ty), t.fields[n - 1].offset)
  }

  /** The visits in the first `n` elements. */
  function ElementVisits(t: Ty, n: nat): seq<nat>
    requires t.Array?
    decreases t, 0, n
  {
    if n == 0 then [] else
    ElementVisits(t, n - 1) + Shift(Visits(t.elem), ElementOffset(n - 1, Size(t.elem)))
  }

  function Shift(s: seq<nat>, o: nat): (r: seq<nat>)
    ensures |r| == |s| && forall i :: 0 <= i < |s| ==> r[i] == s[i] + o
  {
    seq(|s|, i requires 0 <= i < |s| => s[i] + o)
  }

  /** No offset twice. */
  ghost predicate Distinct(s: seq<nat>) {
    forall i, j :: 0 <= i < j < |s| ==> s[i] != s[j]
  }

  /** `o` is the offset of a pointer in the first `n` members. */
  ghost predicate FieldPointer(t: Ty, n: nat, o: nat)
    requires t.Struct? && n <= |t.fields|
  {
    exists i :: 0 <= i < n && t.fields[i].offset <= o && Occurs(t.fields[i].ty, o - t.fields[i].offset, Pointer)
  }

  ghost predicate ElementPointer(t: Ty, n: nat, o: nat)
    requires t.Array?
  {
    exists k: nat :: k < n && ElementOffset(k, Size(t.elem)) <= o && Occurs(t.elem, o - ElementOffset(k, Size(t.elem)), Pointer)
  }

  lemma DistinctAppend(a: seq<nat>, b: seq<nat>)
    requires Distinct(a) && Distinct(b) && forall x :: x in a ==> x !in b
    ensures Distinct(a + b)
  {
    var s := a + b;
    forall i, j | 0 <= i < j < |s| ensures s[i] != s[j] {
      if i < |a| <= j { assert s[i] in a && s[j] in b; }
    }
  }

  /** Traversal is exact: it visits the offset of every pointer at any depth once. */
  lemma {:induction false} VisitsExact(t: Ty)
    requires WellFormed(t)
    ensures Distinct(Visits(t))
    ensures forall o :: o in Visits(t) <==> Occurs(t, o, Pointer)
    decreases t, 1, 0
  {
    match t
    case Scalar(_) =>
    case Pointer =>
    case Struct(_, _, fs) => FieldVisitsExact(t, |fs|);
    case Array(_, n) => ElementVisitsExact(t, n);
  }

  lemma ShiftMember(s: seq<nat>, d: nat, o: nat)
    ensures o in Shift(s, d) <==> d <= o && o - d in s
  {
    if o in Shift(s, d) {
      var i :| 0 <= i < |s| && Shift(s, d)[i] == o;
      assert s[i] == o - d;
    }
    if d <= o && o - d in s {
      var i :| 0 <= i < |s| && s[i] == o - d;
      assert Shift(s, d)[i] == o;
    }
  }

  lemma {:induction false} FieldVisitsExact(t: Ty, n: nat)
    requires t.Struct? && n <= |t.fields| && WellFormed(t)
    ensures Distinct(FieldVisits(t, n))
    ensures forall o :: o in FieldVisits(t, n) <==> FieldPointer(t, n, o)
    decreases t, 0, n
  {
    hide Occurs, Size, Shift, Visits, FieldPointer, Distinct, WellFormed;
    FieldsNone(t);
    if n > 0 {
      PartsWellFormed(t);
      var f := t.fields[n - 1];
      FieldVisitsExact(t, n - 1);
      VisitsExact(f.ty);
      ShiftDistinct(Visits(f.ty), f.offset);
      var a, b := FieldVisits(t, n - 1), Shift(Visits(f.ty), f.offset);
      forall o: nat ensures o in b <==> f.offset <= o && Occurs(f.ty, o - f.offset, Pointer) { ShiftMember(Visits(f.ty), f.offset, o); }
      forall o | o in a ensures o !in b { FieldPointerElsewhere(t, n - 1, o); }
      DistinctAppend(a, b);
      forall o: nat ensures o in a + b <==> FieldPointer(t, n, o) {
        FieldPointerStep(t, n, o);
      }
    }
  }

  lemma FieldsNone(t: Ty)
    requires t.Struct?
    ensures Distinct([]) && forall o: nat :: !FieldPointer(t, 0, o)
  {
  }

  lemma ElementsNone(t: Ty)
    requires t.Array?
    ensures Distinct([]) && forall o: nat :: !ElementPointer(t, 0, o)
  {
  }

  lemma PartsWellFormed(t: Ty)
    requires WellFormed(t)
    ensures t.Struct? ==> forall i :: 0 <= i < |t.fields| ==> WellFormed(t.fields[i].ty)
    ensures t.Array? ==> WellFormed(t.elem)
  {
  }

  lemma ShiftDistinct(s: seq<nat>, d: nat)
    requires Distinct(s)
    ensures Distinct(Shift(s, d))
  {
  }

  lemma FieldPointerElsewhere(t: Ty, n: nat, o: nat)
    requires t.Struct? && n < |t.fields| && WellFormed(t) && FieldPointer(t, n, o)
    ensures !(t.fields[n].offset <= o && Occurs(t.fields[n].ty, o - t.fields[n].offset, Pointer))
  {
    hide Occurs;
    var i :| 0 <= i < n && t.fields[i].offset <= o && Occurs(t.fields[i].ty, o - t.fields[i].offset, Pointer);
    SubobjectInside(t.fields[i].ty, o - t.fields[i].offset, Pointer);
    assert Disjoint(t.fields[i].offset, Size(t.fields[i].ty), t.fields[n].offset, Size(t.fields[n].ty));
    if t.fields[n].offset <= o && Occurs(t.fields[n].ty, o - t.fields[n].offset, Pointer) {
      SubobjectInside(t.fields[n].ty, o - t.fields[n].offset, Pointer);
    }
  }

  lemma ElementPointerBelow(t: Ty, n: nat, o: nat)
    requires t.Array? && WellFormed(t) && ElementPointer(t, n, o)
    ensures o < ElementOffset(n, Size(t.elem))
  {
    hide Occurs, ElementOffset;
    var k: nat :| k < n && ElementOffset(k, Size(t.elem)) <= o && Occurs(t.elem, o - ElementOffset(k, Size(t.elem)), Pointer);
    SubobjectInside(t.elem, o - ElementOffset(k, Size(t.elem)), Pointer);
    ElementEnds(k, n, Size(t.elem));
  }

  lemma ElementEnds(k: nat, n: nat, size: nat)
    requires k < n
    ensures ElementOffset(k, size) + size <= ElementOffset(n, size)
  {
    ElementInside(k, n, size);
  }

  lemma FieldPointerStep(t: Ty, n: nat, o: nat)
    requires t.Struct? && 0 < n <= |t.fields|
    ensures FieldPointer(t, n, o)
       <==> (FieldPointer(t, n - 1, o)
             || (t.fields[n - 1].offset <= o && Occurs(t.fields[n - 1].ty, o - t.fields[n - 1].offset, Pointer)))
  {
  }

  lemma {:induction false} ElementVisitsExact(t: Ty, n: nat)
    requires t.Array? && WellFormed(t)
    ensures Distinct(ElementVisits(t, n))
    ensures forall o :: o in ElementVisits(t, n) <==> ElementPointer(t, n, o)
    decreases t, 0, n
  {
    hide ElementOffset, Occurs, Size, Shift, Visits, ElementPointer, Distinct, WellFormed;
    ElementsNone(t);
    if n > 0 {
      PartsWellFormed(t);
      var d := ElementOffset(n - 1, Size(t.elem));
      ElementVisitsExact(t, n - 1);
      VisitsExact(t.elem);
      ShiftDistinct(Visits(t.elem), d);
      var a, b := ElementVisits(t, n - 1), Shift(Visits(t.elem), d);
      forall o: nat ensures o in b <==> d <= o && Occurs(t.elem, o - d, Pointer) { ShiftMember(Visits(t.elem), d, o); }
      forall o | o in a ensures o !in b { ElementPointerBelow(t, n - 1, o); }
      DistinctAppend(a, b);
      forall o: nat ensures o in a + b <==> ElementPointer(t, n, o) {
        ElementPointerStep(t, n, o);
      }
    }
  }

  lemma ElementPointerStep(t: Ty, n: nat, o: nat)
    requires t.Array? && 0 < n
    ensures ElementPointer(t, n, o)
       <==> (ElementPointer(t, n - 1, o)
             || (ElementOffset(n - 1, Size(t.elem)) <= o && Occurs(t.elem, o - ElementOffset(n - 1, Size(t.elem)), Pointer)))
  {
    hide ElementOffset, Occurs;
  }
}
