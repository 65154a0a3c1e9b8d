/** A composite proxy type derives from the type of its first member, if that is
    composite too; what inherited getters and passing type checks then mean. */
module Inheritance {
  import opened Common
  import opened Layout
  import opened Bounds
  import opened ArrayAccess

  /** The base type that CompositeProxy_InitType leaves: members are assigned in order, so
      the last composite member at offset 0 wins. */
  function BaseAmong(t: Ty, n: nat): (b: Option<Ty>)
    requires t.Struct? && n <= |t.fields|
    ensures b.Some? ==> b.value.Struct? && b.value < t
  {
    if n == 0 then None
    else if t.fields[n - 1].offset == 0 && t.fields[n - 1].ty.Struct? then Some(t.fields[n - 1].ty)
    else BaseAmong(t, n - 1)
  }

  /** The loop of CompositeProxy_InitType that picks the base type. */
  method InitBase(t: Ty) returns (b: Option<Ty>)
    requires t.Struct?
    ensures b == BaseAmong(t, |t.fields|)
  {
    b := None;
    for i := 0 to |t.fields|
      invariant b == BaseAmong(t, i)
    {
      if t.fields[i].offset == 0 && t.fields[i].ty.Struct? { b := Some(t.fields[i].ty); }
    }
  }

  function Base(t: Ty): (b: Option<Ty>)
    ensures b.Some? ==> b.value.Struct? && b.value < t
  {
    if t.Struct? then BaseAmong(t, |t.fields|) else None
  }

  /** PyType_IsSubtype on the proxy types of two structures. */
  predicate Inherits(t: Ty, u: Ty)
    decreases t
  {
    t == u || (Base(t).Some? && Inherits(Base(t).value, u))
  }

  lemma {:induction false} BaseIsMember(t: Ty, n: nat)
    requires t.Struct? && n <= |t.fields| && BaseAmong(t, n).Some?
    ensures exists i :: 0 <= i < n && t.fields[i].offset == 0 && t.fields[i].ty == BaseAmong(t, n).value
  {
    if t.fields[n - 1].offset == 0 && t.fields[n - 1].ty.Struct? {
    } else {
      BaseIsMember(t, n - 1);
    }
  }

  /** A structure has a base exactly if one of its members is a structure at offset 0; the base is
      the last of them. */
  lemma BaseIff(t: Ty)
    requires t.Struct?
    ensures Base(t).Some? <==> exists i: nat :: i < |t.fields| && t.fields[i].offset == 0 && t.fields[i].ty.Struct?
    ensures Base(t).Some? ==> exists i: nat :: LastAtZero(t, |t.fields|, i) && t.fields[i].ty == Base(t).value
  {
    LastBase(t, |t.fields|);
  }

  lemma {:induction false} LastBase(t: Ty, n: nat)
    requires t.Struct? && n <= |t.fields|
    ensures BaseAmong(t, n).None? ==> forall i :: 0 <= i < n ==> !(t.fields[i].offset == 0 && t.fields[i].ty.Struct?)
    ensures BaseAmong(t, n).Some? ==> exists i: nat :: LastAtZero(t, n, i) && t.fields[i].ty == BaseAmong(t, n).value
  {
    if n > 0 && t.fields[n - 1].offset == 0 && t.fields[n - 1].ty.Struct? {
      assert LastAtZero(t, n, n - 1);
    }
    if n > 0 && !(t.fields[n - 1].offset == 0 && t.fields[n - 1].ty.Struct?) {
      LastBase(t, n - 1);
      if i: nat :| LastAtZero(t, n - 1, i) && t.fields[i].ty == BaseAmong(t, n).value { assert LastAtZero(t, n, i); }
    }
  }

  /** Member `i` is the last of the first `n` that is a structure at offset 0. */
  ghost predicate LastAtZero(t: Ty, n: nat, i: nat)
    requires t.Struct? && n <= |t.fields|
  {
    && i < n && t.fields[i].offset == 0 && t.fields[i].ty.Struct?
    && forall j :: i < j < n ==> !(t.fields[j].offset == 0 && t.fields[j].ty.Struct?)
  }

  /** A type check accepts a type for itself, for its base, and for whatever that is accepted for. */
  lemma {:induction false} InheritsChain(t: Ty, u: Ty, v: Ty)
    ensures Inherits(t, t) && (Base(t).Some? ==> Inherits(t, Base(t).value))
    ensures Inherits(t, u) && Inherits(u, v) ==> Inherits(t, v)
    decreases t
  {
    if t != u && Base(t).Some? { InheritsChain(Base(t).value, u, v); }
    if Base(t).Some? { assert Inherits(Base(t).value, Base(t).value); }
  }

  /** What a type check accepts begins with the type that was asked for. */
  lemma {:induction false} InheritsOccurs(t: Ty, u: Ty)
    requires Inherits(t, u) && WellFormed(t)
    ensures Occurs(t, 0, u) && WellFormed(u) && Size(u) <= Size(t)
    decreases t
  {
    hide Occurs, WellFormed;
    if t == u {
      WholeOccurs(t);
    } else {
      BaseIsMember(t, |t.fields|);
      var i :| 0 <= i < |t.fields| && t.fields[i].offset == 0 && t.fields[i].ty == Base(t).value;
      PartsWellFormed(t);
      InheritsOccurs(t.fields[i].ty, u);
      FirstOccurs(t, i, u);
      SubobjectInside(t, 0, u);
    }
  }

  lemma FirstOccurs(t: Ty, i: nat, u: Ty)
    requires t.Struct? && i < |t.fields| && t.fields[i].offset == 0 && Occurs(t.fields[i].ty, 0, u)
    ensures Occurs(t, 0, u)
  {
    assert t.fields[i].offset <= 0 && Occurs(t.fields[i].ty, 0 - t.fields[i].offset, u);
  }

  /** compositeproxy_getfield: the getter of member `i` of `u`, on a proxy at `ptr`. */
  function GetterAddress(u: Ty, i: nat, ptr: nat): nat
    requires u.Struct? && i < |u.fields|
  {
    ptr + u.fields[i].offset
  }

  /** `path` names members from `t` inwards; the address that reading them one by one gives. */
  function Follow(t: Ty, path: seq<nat>, ptr: nat): Option<(Ty, nat)> {
    if path == [] then Some((t, ptr))
    else if t.Struct? && path[0] < |t.fields| then Follow(t.fields[path[0]].ty, path[1..], GetterAddress(t, path[0], ptr))
    else None
  }

  /** An inherited getter reads where following the first members explicitly leads. */
  lemma {:induction false} InheritedGetter(t: Ty, u: Ty, i: nat, ptr: nat) returns (path: seq<nat>)
    requires Inherits(t, u) && u.Struct? && i < |u.fields|
    ensures Follow(t, path, ptr) == Some((u.fields[i].ty, GetterAddress(u, i, ptr)))
    decreases t
  {
    if t == u {
      path := [i];
      assert path[1..] == [];
    } else {
      BaseIsMember(t, |t.fields|);
      var k :| 0 <= k < |t.fields| && t.fields[k].offset == 0 && t.fields[k].ty == Base(t).value;
      var rest := InheritedGetter(t.fields[k].ty, u, i, ptr);
      path := [k] + rest;
      assert path[1..] == rest;
    }
  }

  /** And what it reads is that member, at the offset of the member within the structure. */
  lemma InheritedMember(t: Ty, u: Ty, i: nat, ptr: nat)
    requires WellFormed(t) && Inherits(t, u) && u.Struct? && i < |u.fields|
    ensures GetterAddress(u, i, ptr) == ptr + u.fields[i].offset
    ensures Occurs(t, GetterAddress(u, i, ptr) - ptr, u.fields[i].ty)
  {
    hide WellFormed;
    InheritsOccurs(t, u);
    FieldOccurs(u, i);
    Nested(t, 0, u, u.fields[i].offset, u.fields[i].ty);
  }

  lemma FieldOccurs(u: Ty, i: nat)
    requires u.Struct? && i < |u.fields|
    ensures Occurs(u, u.fields[i].offset, u.fields[i].ty)
  {
    WholeOccurs(u.fields[i].ty);
    var o := u.fields[i].offset;
    assert u.fields[i].offset <= o && Occurs(u.fields[i].ty, o - u.fields[i].offset, u.fields[i].ty);
  }

  // ----- Copies from address proxies -----

  /** Copying a `u` out of a non-empty array of a type that derives from it, after any
      slicing, reads inside the allocation. */
  lemma CopySourceInside(a: Alloc, ptr: nat, t: Stride, pointee: Ty, u: Ty, slices: seq<(int, int)>)
    requires ValidAlloc(a) && Contains(a, ptr) && a.size < UNSIGNED && ValidStride(t)
    requires WellFormed(pointee) && Size(pointee) == t.size && Inherits(pointee, u)
    ensures var v := SlicedBy(View(ptr, LengthFor(Some(a), ptr, t, true), t.size), slices);
      0 < v.length ==> Contains(a, v.ptr) && v.ptr + Size(u) <= a.start + a.size
  {
    hide WellFormed, Occurs, Size, LengthFor, SlicedBy;
    InheritsOccurs(pointee, u);
    ReadsStayInside(a, ptr, t, true, slices, 0);
    var v := SlicedBy(View(ptr, LengthFor(Some(a), ptr, t, true), t.size), slices);
    if 0 < v.length { assert Items(v)[0] == v.ptr by { ZeroOffset(v.itemSize); } }
  }

  lemma ZeroOffset(size: nat)
    ensures ElementOffset(0, size) == 0
  {
  }

  /** The type check passes for an empty slice as well: a slice of an array that fills its
      allocation can be copied from exactly when it starts before the end. */
  lemma SliceSourceIff(a: Alloc, v: View, start: int, stop: int)
    requires v.itemSize > 0 && v.ptr + ElementOffset(v.length, v.itemSize) == a.start + a.size
    ensures Sliced(v, start, stop).ptr + v.itemSize <= a.start + a.size <==> Adjust(start, v.length) < v.length
  {
    var lo := Adjust(start, v.length);
    if lo < v.length { ElementEnds(lo, v.length, v.itemSize); }
  }
}
