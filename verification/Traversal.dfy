/** The traversal code that the cyclic collector runs over foreign memory. */
module Traversal {
  import opened Layout
  import opened ProxyState
  import ProxyCollector

  /** What a traversal callback sees of `todo`: it stops at the first slot where the
      callback returns a non-zero value. */
  function VisitUntil(stop: nat -> bool, todo: seq<nat>): (seq<nat>, bool) {
    if todo == [] then ([], false)
    else if stop(todo[0]) then ([todo[0]], true)
    else
      var (seen, stopped) := VisitUntil(stop, todo[1..]);
      ([todo[0]] + seen, stopped)
  }

  lemma {:induction false} VisitUntilAppend(stop: nat -> bool, a: seq<nat>, b: seq<nat>)
    ensures VisitUntil(stop, a + b)
         == if VisitUntil(stop, a).1 then VisitUntil(stop, a)
            else (VisitUntil(stop, a).0 + VisitUntil(stop, b).0, VisitUntil(stop, b).1)
  {
    if a == [] {
      assert [] + b == b;
      assert [] + VisitUntil(stop, b).0 == VisitUntil(stop, b).0;
    } else {
      VisitUntilAppend(stop, a[1..], b);
      assert (a + b)[1..] == a[1..] + b;
      assert [a[0]] + (VisitUntil(stop, a[1..]).0 + VisitUntil(stop, b).0)
          == [a[0]] + VisitUntil(stop, a[1..]).0 + VisitUntil(stop, b).0;
    }
  }

  /** Exactly when the callback returns non-zero for some slot, the traversal stops: after the first such. */
  lemma {:induction false} StopsAtFirst(stop: nat -> bool, todo: seq<nat>)
    ensures var (seen, stopped) := VisitUntil(stop, todo);
      && |seen| <= |todo| && seen == todo[..|seen|]
      && (stopped <==> exists i :: 0 <= i < |todo| && stop(todo[i]))
      && (stopped ==> seen != [] && stop(seen[|seen| - 1]) && forall i :: 0 <= i < |seen| - 1 ==> !stop(seen[i]))
      && (!stopped ==> seen == todo)
  {
    if todo != [] {
      StopsAtFirst(stop, todo[1..]);
      assert todo == [todo[0]] + todo[1..];
      assert forall i :: 0 < i < |todo| ==> todo[i] == todo[1..][i - 1];
    }
  }

  lemma VisitOne(stop: nat -> bool, a: nat)
    ensures VisitUntil(stop, [a]) == ([a], stop(a))
  {
    assert [a][1..] == [] && [a] + [] == [a];
    assert VisitUntil(stop, []) == ([], false);
  }

  lemma ShiftNone(d: nat)
    ensures Shift([], d) == []
  {
  }

  lemma ShiftAppend(a: seq<nat>, b: seq<nat>, d: nat)
    ensures Shift(a + b, d) == Shift(a, d) + Shift(b, d)
  {
  }

  lemma ShiftTwice(a: seq<nat>, d: nat, e: nat)
    ensures Shift(Shift(a, d), e) == Shift(a, d + e)
  {
  }

  /** ft_traverse of a foreign type on the data at address `data`. */
  method Traverse(t: Ty, data: nat, stop: nat -> bool) returns (seen: seq<nat>, vret: bool)
    ensures (seen, vret) == VisitUntil(stop, Shift(Visits(t), data))
    decreases t, 1
  {
    match t
    case Scalar(_) =>
      // no ft_traverse
      assert Shift(Visits(t), data) == [];
      return [], false;
    case Pointer =>
      assert Shift(Visits(t), data) == [data];
      VisitOne(stop, data);
      return [data], stop(data);
    case Struct(_, _, _) =>
      seen, vret := TraverseComposite(t, data, stop);
    case Array(_, _) =>
      seen, vret := TraverseArray(t, data, stop);
  }

  /** compositeproxy_traverse */
  method TraverseComposite(t: Ty, data: nat, stop: nat -> bool) returns (seen: seq<nat>, vret: bool)
    requires t.Struct?
    ensures (seen, vret) == VisitUntil(stop, Shift(Visits(t), data))
    decreases t, 0
  {
    hide Shift, Size;
    ShiftNone(data);
    seen := [];
    for i := 0 to |t.fields|
      invariant (seen, false) == VisitUntil(stop, Shift(FieldVisits(t, i), data))
    {
      var f := t.fields[i];
      var more, stopped := Traverse(f.ty, data + f.offset, stop);
      ghost var a, b := FieldVisits(t, i), Shift(Visits(f.ty), f.offset);
      ShiftAppend(a, b, data);
      ShiftTwice(Visits(f.ty), f.offset, data);
      VisitUntilAppend(stop, Shift(a, data), Shift(b, data));
      seen := seen + more;
      if stopped {
        FieldVisitsPrefix(t, i + 1, data, stop);
        return seen, true;
      }
    }
    return seen, false;
  }

  /** Once a prefix of the members has stopped the traversal, the rest does not matter. */
  lemma {:induction false} FieldVisitsPrefix(t: Ty, n: nat, data: nat, stop: nat -> bool)
    requires t.Struct? && n <= |t.fields| && VisitUntil(stop, Shift(FieldVisits(t, n), data)).1
    ensures VisitUntil(stop, Shift(Visits(t), data)) == VisitUntil(stop, Shift(FieldVisits(t, n), data))
    decreases |t.fields| - n
  {
    if n < |t.fields| {
      var b := Shift(Visits(t.fields[n].ty), t.fields[n].offset);
      ShiftAppend(FieldVisits(t, n), b, data);
      VisitUntilAppend(stop, Shift(FieldVisits(t, n), data), Shift(b, data));
      FieldVisitsPrefix(t, n + 1, data, stop);
    }
  }

  /** arrayproxy_traverse and addrproxy_traverse, for an array of known length. */
  method TraverseArray(t: Ty, data: nat, stop: nat -> bool) returns (seen: seq<nat>, vret: bool)
    requires t.Array?
    ensures (seen, vret) == VisitUntil(stop, Shift(Visits(t), data))
    decreases t, 0
  {
    hide ElementOffset, Shift, Size;
    ShiftNone(data);
    seen := [];
    for i := 0 to t.len
      invariant (seen, false) == VisitUntil(stop, Shift(ElementVisits(t, i), data))
    {
      var d := ElementOffset(i, Size(t.elem));
      var more, stopped := Traverse(t.elem, data + d, stop);
      ghost var a, b := ElementVisits(t, i), Shift(Visits(t.elem), d);
      ShiftAppend(a, b, data);
      ShiftTwice(Visits(t.elem), d, data);
      VisitUntilAppend(stop, Shift(a, data), Shift(b, data));
      seen := seen + more;
      if stopped {
        ElementVisitsPrefix(t, i + 1, data, stop);
        return seen, true;
      }
    }
    return seen, false;
  }

  lemma {:induction false} ElementVisitsPrefix(t: Ty, n: nat, data: nat, stop: nat -> bool)
    requires t.Array? && n <= t.len && VisitUntil(stop, Shift(ElementVisits(t, n), data)).1
    ensures VisitUntil(stop, Shift(Visits(t), data)) == VisitUntil(stop, Shift(ElementVisits(t, n), data))
    decreases t.len - n
  {
    if n < t.len {
      var b := Shift(Visits(t.elem), ElementOffset(n, Size(t.elem)));
      ShiftAppend(ElementVisits(t, n), b, data);
      VisitUntilAppend(stop, Shift(ElementVisits(t, n), data), Shift(b, data));
      ElementVisitsPrefix(t, n + 1, data, stop);
    }
  }

  /** A callback that never stops sees every slot of a block exactly once. */
  lemma TraversalSeesEverySlot(t: Ty, data: nat, stop: nat -> bool)
    requires WellFormed(t) && forall o :: !stop(o)
    ensures var (seen, stopped) := VisitUntil(stop, Shift(Visits(t), data));
      && !stopped && Distinct(seen)
      && forall a: nat :: a in seen <==> data <= a && Occurs(t, a - data, Pointer)
  {
    hide Visits, Occurs, WellFormed, VisitUntil, Shift;
    VisitsExact(t);
    ShiftDistinct(Visits(t), data);
    var todo := Shift(Visits(t), data);
    NeverStops(stop, todo);
    forall a: nat ensures a in todo <==> data <= a && Occurs(t, a - data, Pointer) { ShiftMember(Visits(t), data, a); }
  }

  lemma {:induction false} NeverStops(stop: nat -> bool, todo: seq<nat>)
    requires forall o :: !stop(o)
    ensures VisitUntil(stop, todo) == (todo, false)
  {
    if todo != [] {
      NeverStops(stop, todo[1..]);
      assert [todo[0]] + todo[1..] == todo;
    }
  }

  /** The offsets of the pointers of a type. */
  ghost function PointerOffsets(t: Ty): set<nat>
    requires WellFormed(t)
  {
    set o | o in Visits(t)
  }

  /** Traversing the base proxy of a block of type `t` visits each entry that the strong
      index has for that block exactly once, and so no target more often than its count. */
  lemma TraversalVisitsEntriesOnce(s: State, b: Addr, t: Ty, q: ProxyId)
    requires Inv(s) && WellFormed(t) && b in s.blocks && s.blocks[b].slots == PointerOffsets(t)
    ensures forall o :: Slot(b, o) in s.pointing ==> multiset(Visits(t))[o] == 1
    ensures q in s.proxies ==>
      |set o | o in Visits(t) && Slot(b, o) in s.pointing && s.pointing[Slot(b, o)] == q| <= s.refs[q]
  {
    hide Visits, CountOk, IndexOk, BlocksOk, LedgerOk, OwnersOk, Positive, DyingOk, WellFormed, Distinct;
    VisitsExact(t);
    forall o | Slot(b, o) in s.pointing ensures multiset(Visits(t))[o] == 1 {
      assert EntryOk(s, Slot(b, o));
      DistinctOnce(Visits(t), o);
    }
    if q in s.proxies {
      var visited := set o | o in Visits(t) && Slot(b, o) in s.pointing && s.pointing[Slot(b, o)] == q;
      EntriesBound(s, b, visited, q);
    }
  }

  lemma EntriesBound(s: State, b: Addr, visited: set<nat>, q: ProxyId)
    requires Inv(s) && q in s.proxies
    requires forall o :: o in visited ==> Slot(b, o) in s.pointing && s.pointing[Slot(b, o)] == q
    ensures q in s.refs && |visited| <= s.refs[q]
  {
    hide IndexOk, EntriesOk, BlocksOk, LedgerOk, OwnersOk, Positive, DyingOk;
    SlotCount(b, visited);
    SubsetSize(SlotsAt(b, visited), Refs(s.pointing, q));
  }

  ghost function SlotsAt(b: Addr, offsets: set<nat>): set<Loc> {
    set o | o in offsets :: Slot(b, o)
  }

  lemma {:induction false} SlotCount(b: Addr, offsets: set<nat>)
    ensures |SlotsAt(b, offsets)| == |offsets|
  {
    if offsets != {} {
      var o :| o in offsets;
      SlotCount(b, offsets - {o});
      assert SlotsAt(b, offsets) == SlotsAt(b, offsets - {o}) + {Slot(b, o)};
    }
  }

  lemma SubsetSize(a: set<Loc>, c: set<Loc>)
    requires a <= c
    ensures |a| <= |c|
  {
    assert c == a + (c - a);
  }

  lemma {:induction false} DistinctOnce(s: seq<nat>, o: nat)
    requires Distinct(s) && o in s
    ensures multiset(s)[o] == 1
  {
    assert s == [s[0]] + s[1..];
    if s[0] == o { NotIn(s[1..], o); } else { DistinctOnce(s[1..], o); }
  }

  lemma NotIn(s: seq<nat>, o: nat)
    requires o !in s
    ensures multiset(s)[o] == 0
  {
  }

  // ----- All bases together -----

  /** The calls of the callback with target `q` while the block at `b` is traversed. */
  ghost function Calls(s: State, b: Addr, offsets: seq<nat>, q: ProxyId): nat {
    if offsets == [] then 0
    else (if Targets(s, b, offsets[0], q) then 1 else 0) + Calls(s, b, offsets[1..], q)
  }

  predicate Targets(s: State, b: Addr, o: nat, q: ProxyId) {
    Slot(b, o) in s.pointing && s.pointing[Slot(b, o)] == q
  }

  ghost function Entries(s: State, b: Addr, offsets: seq<nat>, q: ProxyId): set<Loc> {
    set o | o in offsets && Targets(s, b, o, q) :: Slot(b, o)
  }

  lemma {:induction false} CallsAreEntries(s: State, b: Addr, offsets: seq<nat>, q: ProxyId)
    requires Distinct(offsets)
    ensures Calls(s, b, offsets, q) == |Entries(s, b, offsets, q)|
  {
    if offsets != [] {
      var o, rest := offsets[0], offsets[1..];
      CallsAreEntries(s, b, rest, q);
      assert offsets == [o] + rest;
      var e := Entries(s, b, rest, q);
      assert o !in rest;
      assert Slot(b, o) !in e;
      assert Entries(s, b, offsets, q) == if Targets(s, b, o, q) then e + {Slot(b, o)} else e;
    }
  }

  /** The layouts of registered blocks agree with the slots that they have. */
  ghost predicate LaidOut(s: State, layouts: map<Addr, Ty>) {
    forall b :: b in s.index ==>
      b in layouts && b in s.blocks && WellFormed(layouts[b]) && s.blocks[b].slots == PointerOffsets(layouts[b])
  }

  /** The calls with target `q` while all of `bases` are traversed, one after the other. */
  ghost function AllCalls(s: State, layouts: map<Addr, Ty>, bases: seq<Addr>, q: ProxyId): nat
    requires forall b :: b in bases ==> b in layouts
  {
    if bases == [] then 0 else Calls(s, bases[0], Visits(layouts[bases[0]]), q) + AllCalls(s, layouts, bases[1..], q)
  }

  ghost function EntriesOf(s: State, bases: seq<Addr>, q: ProxyId): set<Loc> {
    set l | l in s.pointing && s.pointing[l] == q && l.Slot? && l.block in bases
  }

  lemma {:induction false} AllCallsAreEntries(s: State, layouts: map<Addr, Ty>, bases: seq<Addr>, q: ProxyId)
    requires Inv(s) && LaidOut(s, layouts) && forall b :: b in bases ==> b in s.index
    requires forall i, j :: 0 <= i < j < |bases| ==> bases[i] != bases[j]
    ensures AllCalls(s, layouts, bases, q) == |EntriesOf(s, bases, q)|
  {
    hide Inv, Visits, WellFormed;
    if bases != [] {
      var b, rest := bases[0], bases[1..];
      AllCallsAreEntries(s, layouts, rest, q);
      VisitsExact(layouts[b]);
      CallsAreEntries(s, b, Visits(layouts[b]), q);
      BlockEntries(s, b, layouts[b], q);
      assert bases == [b] + rest && b !in rest;
      var e := Entries(s, b, Visits(layouts[b]), q);
      assert EntriesOf(s, bases, q) == e + EntriesOf(s, rest, q) && e !! EntriesOf(s, rest, q);
    }
  }

  lemma BlockEntries(s: State, b: Addr, t: Ty, q: ProxyId)
    requires Inv(s) && WellFormed(t) && b in s.blocks && s.blocks[b].slots == PointerOffsets(t)
    ensures forall l :: l in Entries(s, b, Visits(t), q) <==> l in s.pointing && s.pointing[l] == q && l.Slot? && l.block == b
  {
    hide CountOk, IndexOk, BlocksOk, LedgerOk, OwnersOk, Positive, WellFormed, Visits;
    forall l | l in s.pointing && s.pointing[l] == q && l.Slot? && l.block == b ensures l in Entries(s, b, Visits(t), q) {
      assert EntryOk(s, l);
      assert Targets(s, b, l.offset, q) && l == Slot(b, l.offset);
    }
  }

  /** Traversing every base proxy once calls back for `q` exactly as often as there are visits
      in the sense of the collector: no more often than its count. */
  lemma TraversingAllBases(s: State, layouts: map<Addr, Ty>, bases: seq<Addr>, q: ProxyId)
    requires Inv(s) && LaidOut(s, layouts) && q in s.proxies
    requires (forall b :: b in bases <==> b in s.index) && forall i, j :: 0 <= i < j < |bases| ==> bases[i] != bases[j]
    ensures AllCalls(s, layouts, bases, q) == |ProxyCollector.Visits(s, q)|
    ensures q in s.refs && AllCalls(s, layouts, bases, q) <= s.refs[q]
  {
    hide Inv, WellFormed, AllCalls;
    AllCallsAreEntries(s, layouts, bases, q);
    assert EntriesOf(s, bases, q) == ProxyCollector.Visits(s, q);
    ProxyCollector.VisitsWithinCount(s, q);
  }
}
