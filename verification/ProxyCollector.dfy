/** One step of CPython's cyclic collector over registered base proxies. */
module ProxyCollector {
  import opened ProxyState
  import opened Cascade
  import opened Reclamation
  import opened ProxyOps
  import opened ProxyApi

  // ----- Deleting several entries at once -----

  /** `s` without the entries of `L` and with handle counts `hs`. */
  ghost function Lower(s: State, L: set<Loc>, hs: map<ProxyId, nat>): (t: State)
    requires s.proxies.Keys <= hs.Keys
    ensures t.handles.Keys == t.proxies.Keys == s.proxies.Keys
  {
    Counted(s.(pointing := s.pointing - L, handles := map p | p in s.proxies :: hs[p]))
  }

  lemma LowerRaw(s: State, L: set<Loc>, hs: map<ProxyId, nat>)
    requires Raw(s) && Quiet(s) && s.proxies.Keys <= hs.Keys
    ensures Raw(Lower(s, L, hs)) && Quiet(Lower(s, L, hs))
  {
    hide IndexOk, EntriesOk, BlocksOk, LedgerOk, Tally;
    LowerParts(s, Lower(s, L, hs));
  }

  lemma LowerParts(s: State, t: State)
    requires t == s.(pointing := t.pointing, handles := t.handles, refs := t.refs)
    requires forall l :: l in t.pointing ==> l in s.pointing && t.pointing[l] == s.pointing[l]
    requires IndexOk(s) && EntriesOk(s) && BlocksOk(s.blocks) && LedgerOk(s)
    ensures IndexOk(t) && EntriesOk(t) && BlocksOk(t.blocks) && LedgerOk(t)
  {
    hide BlocksOk, Apart, BlockOk;
    forall l | l in t.pointing ensures EntryOk(t, l) { assert EntryOk(s, l); }
  }

  /** A self-supporting set stays one where its supports are still there. */
  lemma SupportTransfer(t: State, u: State, K: set<ProxyId>)
    requires SelfSupporting(t, K) && K <= u.proxies.Keys && u.dying == {}
    requires forall p :: p in K && p in t.handles ==> p in u.handles && t.handles[p] <= u.handles[p]
    requires forall l :: l in t.pointing && Anchored(t, l, K) ==>
      l in u.pointing && u.pointing[l] == t.pointing[l] && Anchored(u, l, K)
    ensures SelfSupporting(u, K)
  {
    hide Anchored;
    forall p | p in K ensures Supported(u, p, K) {
      assert Supported(t, p, K);
    }
  }

  /** With fewer references fewer sets support themselves. */
  lemma LowerSupport(s: State, L: set<Loc>, hs: map<ProxyId, nat>, K: set<ProxyId>)
    requires s.handles.Keys == s.proxies.Keys <= hs.Keys && s.dying == {}
    requires forall p :: p in s.proxies ==> hs[p] <= s.handles[p]
    requires SelfSupporting(Lower(s, L, hs), K)
    ensures SelfSupporting(s, K)
  {
    SupportTransfer(Lower(s, L, hs), s, K);
  }

  /** A self-supporting set of the lowered state is unaffected by an earlier reclamation. */
  lemma LowerAfter(s: State, L: set<Loc>, hs: map<ProxyId, nat>, A: set<ProxyId>, K: set<ProxyId>)
    requires s.handles.Keys == s.proxies.Keys <= hs.Keys && Quiet(s)
    requires K <= A
    requires SelfSupporting(Lower(s, L, hs), K)
    ensures SelfSupporting(Lower(Restrict(s, A), L, hs), K)
  {
    hide Tally, Supported;
    SupportTransfer(Lower(s, L, hs), Lower(Restrict(s, A), L, hs), K);
  }

  lemma LowerBefore(s: State, L: set<Loc>, hs: map<ProxyId, nat>, A: set<ProxyId>, K: set<ProxyId>)
    requires s.handles.Keys == s.proxies.Keys <= hs.Keys && Quiet(s)
    requires SelfSupporting(Lower(Restrict(s, A), L, hs), K)
    ensures SelfSupporting(Lower(s, L, hs), K)
  {
    hide Tally, Supported;
    SupportTransfer(Lower(Restrict(s, A), L, hs), Lower(s, L, hs), K);
  }

  lemma SameAlive(s: State, L: set<Loc>, hs: map<ProxyId, nat>)
    requires s.handles.Keys == s.proxies.Keys <= hs.Keys && Quiet(s)
    requires forall p :: p in s.proxies ==> hs[p] <= s.handles[p]
    ensures Alive(Lower(Reclaim(s), L, hs)) == Alive(Lower(s, L, hs))
    ensures Alive(Lower(s, L, hs)) <= Alive(s)
  {
    assert Reclaim(s).proxies.Keys <= hs.Keys;
    hide Lower, Restrict, Alive;
    var t := Lower(s, L, hs);
    var u := Lower(Reclaim(s), L, hs);
    AliveIsGreatest(s);
    AliveIsGreatest(t);
    AliveIsGreatest(u);
    LowerSupport(s, L, hs, Alive(t));
    LowerAfter(s, L, hs, Alive(s), Alive(t));
    LowerBefore(s, L, hs, Alive(s), Alive(u));
  }

  lemma TwiceTables(s: State, L: set<Loc>, hs: map<ProxyId, nat>, K: set<ProxyId>, G: set<ProxyId>)
    requires s.handles.Keys == s.proxies.Keys <= hs.Keys && G <= K
    ensures var a := Restrict(Lower(Restrict(s, K), L, hs), G);
      var b := Restrict(Lower(s, L, hs), G);
      a.proxies == b.proxies && a.handles == b.handles && a.index == b.index
  {
    hide Tally, Anchored, Kept, KeptBlocks, LostBlocks;
  }

  lemma TwiceEntries(s: State, L: set<Loc>, hs: map<ProxyId, nat>, K: set<ProxyId>, G: set<ProxyId>)
    requires s.handles.Keys == s.proxies.Keys <= hs.Keys && Quiet(s) && G <= K
    ensures Restrict(Lower(Restrict(s, K), L, hs), G).pointing == Restrict(Lower(s, L, hs), G).pointing
  {
    hide Tally, KeptBlocks, LostBlocks;
    var r := Lower(Restrict(s, K), L, hs);
    var t := Lower(s, L, hs);
    assert t.pointing == s.pointing - L;
    forall l | l in s.pointing
      ensures Anchored(t, l, G) <==> Anchored(s, l, G)
      ensures Anchored(s, l, G) <==> Anchored(s, l, K) && Anchored(r, l, G)
    {
      TwiceAnchored(s, L, hs, K, G, l);
    }
    TwiceMaps(s, L, hs, K, G);
  }

  lemma TwiceMaps(s: State, L: set<Loc>, hs: map<ProxyId, nat>, K: set<ProxyId>, G: set<ProxyId>)
    requires s.handles.Keys == s.proxies.Keys <= hs.Keys
    requires var r := Lower(Restrict(s, K), L, hs);
      var t := Lower(s, L, hs);
      forall l :: l in s.pointing ==>
        (Anchored(t, l, G) <==> Anchored(s, l, G)) && (Anchored(s, l, G) <==> Anchored(s, l, K) && Anchored(r, l, G))
    ensures Restrict(Lower(Restrict(s, K), L, hs), G).pointing == Restrict(Lower(s, L, hs), G).pointing
  {
    hide Tally, Anchored, Kept, KeptBlocks, KeptIndex, LostBlocks;
    var r := Lower(Restrict(s, K), L, hs);
    var t := Lower(s, L, hs);
    assert Restrict(r, G).pointing == map l | l in r.pointing && Anchored(r, l, G) :: r.pointing[l];
    assert Restrict(t, G).pointing == map l | l in t.pointing && Anchored(t, l, G) :: t.pointing[l];
  }

  lemma TwiceAnchored(s: State, L: set<Loc>, hs: map<ProxyId, nat>, K: set<ProxyId>, G: set<ProxyId>, l: Loc)
    requires s.handles.Keys == s.proxies.Keys <= hs.Keys && Quiet(s) && G <= K
    ensures Anchored(Lower(s, L, hs), l, G) <==> Anchored(s, l, G)
    ensures Anchored(s, l, G) <==> Anchored(s, l, K) && Anchored(Lower(Restrict(s, K), L, hs), l, G)
  {
    hide Tally, LostBlocks;
  }

  lemma TwiceBlocks(blocks: map<Addr, Block>, index: map<Addr, ProxyId>, K: set<ProxyId>, G: set<ProxyId>)
    requires G <= K
    ensures KeptBlocks(KeptBlocks(blocks, index, K), KeptIndex(index, K), G) == KeptBlocks(blocks, index, G)
    ensures multiset(LostBlocks(blocks, index, K)) + multiset(LostBlocks(KeptBlocks(blocks, index, K), KeptIndex(index, K), G))
         == multiset(LostBlocks(blocks, index, G))
  {
    var d1 := LostBlocks(blocks, index, K);
    var d2 := LostBlocks(KeptBlocks(blocks, index, K), KeptIndex(index, K), G);
    assert LostBlocks(blocks, index, G) == d1 + d2 && d1 !! d2;
  }

  lemma RestrictTwice(s: State, L: set<Loc>, hs: map<ProxyId, nat>, K: set<ProxyId>, G: set<ProxyId>)
    requires s.handles.Keys == s.proxies.Keys <= hs.Keys && Quiet(s) && G <= K
    ensures Restrict(Lower(Restrict(s, K), L, hs), G) == Restrict(Lower(s, L, hs), G)
  {
    TwiceTables(s, L, hs, K, G);
    TwiceEntries(s, L, hs, K, G);
    TwiceBlocks(s.blocks, s.index, K, G);
    hide Tally, Anchored, Kept, KeptBlocks, KeptIndex, LostBlocks;
    assert s.released + multiset(LostBlocks(s.blocks, s.index, K))
         + multiset(LostBlocks(KeptBlocks(s.blocks, s.index, K), KeptIndex(s.index, K), G))
        == s.released + multiset(LostBlocks(s.blocks, s.index, G));
  }

  /** Reclaiming in between makes no difference: reference counting is confluent. */
  lemma Confluence(s: State, L: set<Loc>, hs: map<ProxyId, nat>)
    requires s.handles.Keys == s.proxies.Keys <= hs.Keys && Quiet(s)
    requires forall p :: p in s.proxies ==> hs[p] <= s.handles[p]
    ensures Reclaim(Lower(Reclaim(s), L, hs)) == Reclaim(Lower(s, L, hs))
  {
    SameAlive(s, L, hs);
    RestrictTwice(s, L, hs, Alive(s), Alive(Lower(s, L, hs)));
  }

  lemma ReclaimSettled(s: State)
    requires Inv(s)
    ensures Reclaim(s) == s
  {
    EvolvesRefl(s);
    hide Raw, OwnersOk, Positive, Reclaim, Evolves;
    Settle(s, s);
  }

  // ----- The collector -----

  /** The entries of the slots in the blocks whose bases are in `D`. */
  ghost function EntriesIn(s: State, D: set<ProxyId>): set<Loc> {
    set l | l in s.pointing && l.Slot? && l.block in s.index && s.index[l.block] in D
  }

  /** tp_clear of `p`, if `p` is still tracked: every slot of its block is delref'd. */
  ghost function ClearOne(s: State, p: ProxyId): State
    requires s.handles.Keys == s.proxies.Keys
  {
    if IsBase(s, p) then Reclaim(Lower(s, EntriesIn(s, {p}), s.handles)) else s
  }

  lemma ClearOneInv(s: State, p: ProxyId)
    requires Inv(s)
    ensures Inv(ClearOne(s, p))
  {
    LowerRaw(s, EntriesIn(s, {p}), s.handles);
    hide Raw, OwnersOk, Positive, Reclaim, Lower;
    ReclaimInv(Lower(s, EntriesIn(s, {p}), s.handles));
  }

  /** The collector clears the members of its garbage set one after the other. */
  ghost function Collect(s: State, order: seq<ProxyId>): (t: State)
    requires Inv(s)
    ensures Inv(t)
  {
    if order == [] then s
    else
      var t := Collect(s, order[..|order| - 1]);
      ClearOneInv(t, order[|order| - 1]);
      ClearOne(t, order[|order| - 1])
  }

  /** What the collector establishes about the set it found: no handle names a member,
      and every counted reference to a member is a slot of a member's block. */
  ghost predicate Garbage(s: State, S: set<ProxyId>) {
    && (forall p :: p in S ==> IsBase(s, p) && p in s.handles && s.handles[p] == 0)
    && (forall l :: l in s.pointing && s.pointing[l] in S ==>
          l.Slot? && l.block in s.index && s.index[l.block] in S)
  }

  /** C owns the block of `p`, and that block contains counted pointers. */
  ghost predicate HeldByC(s: State, p: ProxyId) {
    exists l :: l in EntriesIn(s, {p}) && l.block in s.blocks && s.blocks[l.block].manual
  }

  ghost function Elements(order: seq<ProxyId>): set<ProxyId> {
    set p | p in order
  }

  lemma LowerTwice(s: State, L: set<Loc>, M: set<Loc>)
    requires s.handles.Keys == s.proxies.Keys
    ensures Lower(Lower(s, L, s.handles), M, s.handles) == Lower(s, L + M, s.handles)
  {
    assert s.pointing - L - M == s.pointing - (L + M);
  }

  lemma ClearAlive(s: State, x: State, L: set<Loc>, p: ProxyId)
    requires Inv(s) && IsBase(s, p)
    requires x == Reclaim(Lower(s, L, s.handles)) && IsBase(x, p)
    ensures ClearOne(x, p) == Reclaim(Lower(s, L + EntriesIn(s, {p}), s.handles))
  {
    var M := EntriesIn(s, {p});
    LowerTwice(s, L, M);
    Confluence(Lower(s, L, s.handles), M, s.handles);
    ClearSame(s, x, L, p);
    hide Restrict, Alive, Tally;
  }

  lemma ClearSame(s: State, x: State, L: set<Loc>, p: ProxyId)
    requires s.handles.Keys == s.proxies.Keys && IsBase(s, p)
    requires x == Reclaim(Lower(s, L, s.handles)) && IsBase(x, p)
    ensures Lower(x, EntriesIn(x, {p}), x.handles) == Lower(x, EntriesIn(s, {p}), s.handles)
  {
    hide Alive, Tally, Anchored, Kept, KeptBlocks, LostBlocks;
    assert x.pointing - EntriesIn(x, {p}) == x.pointing - EntriesIn(s, {p});
    assert x.handles == map q | q in x.proxies :: s.handles[q];
  }

  lemma ClearDead(s: State, x: State, L: set<Loc>, p: ProxyId)
    requires Inv(s) && Inv(x) && IsBase(s, p)
    requires x == Reclaim(Lower(s, L, s.handles)) && !IsBase(x, p) && !HeldByC(s, p)
    ensures x == Reclaim(Lower(s, L + EntriesIn(s, {p}), s.handles))
  {
    var M := EntriesIn(s, {p});
    LowerTwice(s, L, M);
    Confluence(Lower(s, L, s.handles), M, s.handles);
    DeadHasNoEntries(s, x, L, p);
    LowerNothing(x, M, s.handles);
    ReclaimSettled(x);
    hide Restrict, Alive, Tally;
  }

  lemma LowerNothing(x: State, M: set<Loc>, hs: map<ProxyId, nat>)
    requires CountOk(x) && M !! x.pointing.Keys && x.proxies.Keys <= hs.Keys
    requires forall q :: q in x.proxies ==> x.handles[q] == hs[q]
    ensures Lower(x, M, hs) == x
  {
    assert x.pointing - M == x.pointing;
    assert x.handles == map q | q in x.proxies :: hs[q];
  }

  lemma DeadHasNoEntries(s: State, x: State, L: set<Loc>, p: ProxyId)
    requires Inv(s) && Inv(x) && IsBase(s, p)
    requires x == Reclaim(Lower(s, L, s.handles)) && !IsBase(x, p) && !HeldByC(s, p)
    ensures EntriesIn(s, {p}) !! x.pointing.Keys
    ensures CountOk(x) && x.proxies.Keys <= s.handles.Keys
    ensures forall q :: q in x.proxies ==> x.handles[q] == s.handles[q]
  {
    hide Tally, Alive, LostBlocks, BlocksOk, LedgerOk, Positive;
    var M := EntriesIn(s, {p});
    var b := s.proxies[p].ptr;
    forall l | l in M ensures l !in x.pointing {
      assert l.block == b && !s.blocks[b].manual by { assert EntryOk(s, l); }
      assert l in x.pointing ==> EntryOk(x, l);
    }
  }

  /** Apart from the first member cleared, no member of `order` has slots that C holds on to. */
  ghost predicate Coverable(s: State, order: seq<ProxyId>) {
    forall i :: 0 < i < |order| ==> !HeldByC(s, order[i])
  }

  /** Clearing one after the other is the same as deleting all the slots at once and reclaiming. */
  lemma {:induction false} CollectAtOnce(s: State, S: set<ProxyId>, order: seq<ProxyId>)
    requires Inv(s) && Garbage(s, S) && (forall p :: p in order ==> p in S) && Coverable(s, order)
    ensures Collect(s, order) == Reclaim(Lower(s, EntriesIn(s, Elements(order)), s.handles))
  {
    hide Inv, Restrict, Alive, Tally, ClearOne;
    InvKeys(s);
    if order == [] {
      InvCounts(s);
      LowerNothing(s, {}, s.handles);
      ReclaimSettled(s);
      assert EntriesIn(s, Elements(order)) == {};
    } else {
      var n := |order| - 1;
      var p := order[n];
      var L := EntriesIn(s, Elements(order[..n]));
      var x := Collect(s, order[..n]);
      CollectAtOnce(s, S, order[..n]);
      assert L + EntriesIn(s, {p}) == EntriesIn(s, Elements(order)) by {
        assert Elements(order) == Elements(order[..n]) + {p};
      }
      if IsBase(x, p) {
        ClearAlive(s, x, L, p);
      } else {
        assert n > 0 by { assert p in S; }
        ClearDead(s, x, L, p);
        ClearNot(x, p);
      }
    }
  }

  lemma InvCounts(s: State)
    requires Inv(s)
    ensures CountOk(s)
  {
  }

  lemma ClearNot(s: State, p: ProxyId)
    requires Inv(s) && !IsBase(s, p)
    ensures s.handles.Keys == s.proxies.Keys && ClearOne(s, p) == s
  {
  }

  // ----- Clearing one proxy, slot by slot -----

  lemma ForgetIsLower(x: State, l: Loc)
    requires Inv(x)
    ensures x.handles.Keys == x.proxies.Keys
    ensures Forget(x, l) == Reclaim(Lower(x, {l}, x.handles))
  {
    hide Inv, Reclaim, Tally;
    InvKeys(x);
    InvCounts(x);
    if l in x.pointing {
      assert Lower(x, {l}, x.handles).handles == x.handles;
      assert Lower(x, {l}, x.handles) == Unlink(x, l);
    } else {
      LowerNothing(x, {l}, x.handles);
      ReclaimSettled(x);
    }
  }

  lemma ReclaimHandles(y: State)
    requires y.handles.Keys == y.proxies.Keys
    ensures Reclaim(y).handles.Keys == Reclaim(y).proxies.Keys <= y.proxies.Keys
    ensures forall q :: q in Reclaim(y).handles ==> Reclaim(y).handles[q] == y.handles[q]
  {
  }

  lemma LowerSame(x: State, L: set<Loc>, h: map<ProxyId, nat>)
    requires x.handles.Keys == x.proxies.Keys <= h.Keys
    requires forall q :: q in x.handles ==> x.handles[q] == h[q]
    ensures Lower(x, L, x.handles) == Lower(x, L, h)
  {
    assert (map q | q in x.proxies :: x.handles[q]) == (map q | q in x.proxies :: h[q]);
  }

  /** Deleting one more slot of a proxy that is being cleared. */
  lemma ForgetOneMore(s: State, D: set<Loc>, x: State, l: Loc)
    requires Inv(s) && Inv(x) && s.handles.Keys == s.proxies.Keys
    requires x == Reclaim(Lower(s, D, s.handles))
    ensures x.handles.Keys == x.proxies.Keys
    ensures Forget(x, l) == Reclaim(Lower(s, D + {l}, s.handles))
  {
    hide Inv, Reclaim, Tally, Forget;
    assert Quiet(s) by { InvQuiet(s); }
    ForgetIsLower(x, l);
    var y := Lower(s, D, s.handles);
    ReclaimHandles(y);
    LowerSame(x, {l}, s.handles);
    Confluence(y, {l}, s.handles);
    LowerTwice(s, D, {l});
  }

  lemma InvQuiet(s: State)
    requires Inv(s)
    ensures Quiet(s)
  {
  }

  /** Giving back the reference that protected the cleared proxy. */
  lemma DropAfterClear(s: State, p: ProxyId, D: set<Loc>, x: State)
    requires Inv(s) && p in s.proxies && s.handles.Keys == s.proxies.Keys && s.refs.Keys == s.proxies.Keys
    requires Inv(x) && x == Reclaim(Lower(AddHandle(s, p), D, AddHandle(s, p).handles))
    ensures p in x.handles && 0 < x.handles[p] && x.handles.Keys == x.proxies.Keys
    ensures Drop(x, p) == Reclaim(Lower(s, D, s.handles))
  {
    hide Inv, Reclaim, Tally;
    assert Quiet(s) by { InvQuiet(s); }
    var t := AddHandle(s, p);
    var y := Lower(t, D, t.handles);
    HandleKeepsAlive(y, p);
    ReclaimHandles(y);
    DropIsLower(x, p, s.handles);
    Confluence(y, {}, s.handles);
    LowerBack(s, p, D);
  }

  lemma DropIsLower(x: State, p: ProxyId, h: map<ProxyId, nat>)
    requires x.handles.Keys == x.proxies.Keys <= h.Keys && p in x.handles && 0 < x.handles[p]
    requires forall q :: q in x.handles ==> x.handles[q] == (if q == p then h[q] + 1 else h[q])
    ensures Drop(x, p) == Reclaim(Lower(x, {}, h))
  {
    hide Reclaim, Tally;
    assert x.pointing - {} == x.pointing;
    assert x.handles[p := x.handles[p] - 1] == Lower(x, {}, h).handles;
    assert DropOne(x, p) == Lower(x, {}, h);
  }

  lemma LowerBack(s: State, p: ProxyId, D: set<Loc>)
    requires s.refs.Keys == s.handles.Keys == s.proxies.Keys && p in s.proxies
    ensures var t := AddHandle(s, p);
      Lower(Lower(t, D, t.handles), {}, s.handles) == Lower(s, D, s.handles)
  {
    hide Tally;
    assert s.pointing - D - {} == s.pointing - D;
  }

  lemma HandleKeepsAlive(s: State, p: ProxyId)
    requires s.handles.Keys == s.proxies.Keys && s.dying == {} && p in s.handles && 0 < s.handles[p]
    ensures p in Reclaim(s).proxies
  {
    assert Supported(s, p, {p});
    assert SelfSupporting(s, {p});
    AliveIsGreatest(s);
  }

  /** All slots of the block of `p`, whether or not they have an entry. */
  ghost function SlotsOf(b: Addr, block: Block): set<Loc> {
    set o | o in block.slots :: Slot(b, o)
  }

  lemma SlotsAreEntries(s: State, p: ProxyId, b: Addr)
    requires Inv(s) && BaseOf(s, p, b)
    ensures b in s.blocks && s.handles.Keys == s.proxies.Keys
    ensures Lower(s, SlotsOf(b, s.blocks[b]), s.handles) == Lower(s, EntriesIn(s, {p}), s.handles)
  {
    hide Tally, BlocksOk, LedgerOk, Positive;
    forall l | l in s.pointing ensures l in SlotsOf(b, s.blocks[b]) <==> l in EntriesIn(s, {p}) { assert EntryOk(s, l); }
    assert s.pointing - SlotsOf(b, s.blocks[b]) == s.pointing - EntriesIn(s, {p});
  }

  // ----- How the collector finds its garbage set -----

  ghost function TrackedByGC(s: State): set<ProxyId> {
    set p | p in s.proxies && IsBase(s, p)
  }

  /** The visits of `p` when every tracked proxy is traversed once. */
  ghost function Visits(s: State, p: ProxyId): set<Loc> {
    set l | l in s.pointing && s.pointing[l] == p && l.Slot? && l.block in s.index
  }

  /** Visits never exceed the count, so subtracting them leaves the outside references. */
  lemma VisitsWithinCount(s: State, p: ProxyId)
    requires Inv(s) && p in s.proxies
    ensures p in s.refs && |Visits(s, p)| <= s.refs[p]
    ensures |Visits(s, p)| == s.refs[p] ==> s.handles[p] == 0 && Visits(s, p) == Refs(s.pointing, p)
  {
    var rest := Refs(s.pointing, p) - Visits(s, p);
    assert Refs(s.pointing, p) == Visits(s, p) + rest;
    if |Visits(s, p)| == s.refs[p] { assert rest == {}; }
  }

  /** `R` is what CPython keeps: proxies with more references than visits, and what they reach. */
  ghost predicate KeptByGC(s: State, R: set<ProxyId>) {
    && (forall p :: p in TrackedByGC(s) && p in s.refs && |Visits(s, p)| < s.refs[p] ==> p in R)
    && (forall l :: l in s.pointing && l.Slot? && l.block in s.index && s.index[l.block] in R ==> s.pointing[l] in R)
  }

  lemma CollectorFindsGarbage(s: State, R: set<ProxyId>)
    requires Inv(s) && KeptByGC(s, R)
    ensures Garbage(s, TrackedByGC(s) - R)
  {
    var S := TrackedByGC(s) - R;
    forall p | p in S ensures IsBase(s, p) && p in s.handles && s.handles[p] == 0 {
      VisitsWithinCount(s, p);
    }
    forall l | l in s.pointing && s.pointing[l] in S ensures l.Slot? && l.block in s.index && s.index[l.block] in S {
      VisitsWithinCount(s, s.pointing[l]);
      assert l in Refs(s.pointing, s.pointing[l]);
      assert l in Visits(s, s.pointing[l]);
      assert IsBase(s, s.index[l.block]);
    }
  }

  // ----- Complete and safe -----

  ghost predicate InOrder(S: set<ProxyId>, order: seq<ProxyId>) {
    Elements(order) == S
  }

  /** Once its members' slots are gone, nothing supports a member of the garbage set. */
  lemma GarbageUnsupported(s: State, S: set<ProxyId>)
    requires Inv(s) && Garbage(s, S)
    ensures s.handles.Keys == s.proxies.Keys
    ensures Alive(Lower(s, EntriesIn(s, S), s.handles)) !! S
  {
    var t := Lower(s, EntriesIn(s, S), s.handles);
    AliveIsGreatest(t);
    forall p | p in S ensures !Supported(t, p, Alive(t)) { }
  }

  /** The collector deletes every member of its garbage set, frees exactly those of their
      blocks that C does not own, and the order in which it clears them does not matter. */
  lemma CollectorIsComplete(s: State, S: set<ProxyId>, order: seq<ProxyId>)
    requires Inv(s) && Garbage(s, S) && InOrder(S, order) && Coverable(s, order)
    ensures var t := Collect(s, order);
      && t.proxies.Keys !! S
      && (forall p :: p in S ==> (s.proxies[p].ptr in t.blocks <==> s.blocks[s.proxies[p].ptr].manual))
      && t == Reclaim(Lower(s, EntriesIn(s, S), s.handles))
  {
    assert forall p :: p in order ==> p in Elements(order);
    CollectAtOnce(s, S, order);
    GarbageUnsupported(s, S);
    hide Alive, Tally, Anchored;
  }

  /** `q` is named by a location in the storage of `p`. */
  ghost predicate Names(s: State, p: ProxyId, q: ProxyId) {
    exists l :: l in s.pointing && s.pointing[l] == q
      && (l == PtrField(p) || (l.Slot? && l.block in s.index && s.index[l.block] == p))
  }

  /** Python holds `p`, or a block that C owns names it. */
  ghost predicate Root(s: State, p: ProxyId) {
    && p in s.proxies
    && ((p in s.handles && 0 < s.handles[p])
        || exists l :: l in s.pointing && s.pointing[l] == p && l.Slot? && l.block in s.blocks && s.blocks[l.block].manual)
  }

  ghost predicate Path(s: State, path: seq<ProxyId>) {
    && path != [] && Root(s, path[0])
    && (forall i :: 0 <= i < |path| - 1 ==> Names(s, path[i], path[i + 1]))
  }

  /** No member's block that C owns contains a counted pointer. */
  ghost predicate NoneHeld(s: State, S: set<ProxyId>) {
    forall p :: p in S ==> !HeldByC(s, p)
  }

  /** A handle protects `p` from any collection, memory of C only if it is none of the garbage. */
  ghost predicate Shielded(s: State, S: set<ProxyId>, p: ProxyId) {
    (p in s.handles && 0 < s.handles[p]) || (Root(s, p) && NoneHeld(s, S))
  }

  lemma HeldMember(s: State, S: set<ProxyId>, l: Loc)
    requires l in EntriesIn(s, S) && l.block in s.blocks && s.blocks[l.block].manual
    ensures !NoneHeld(s, S)
  {
    assert l in EntriesIn(s, {s.index[l.block]});
    assert HeldByC(s, s.index[l.block]);
  }

  /** An entry outside the garbage blocks names no member of the garbage set. */
  lemma OutsideNamesOutside(s: State, S: set<ProxyId>, l: Loc)
    requires Inv(s) && Garbage(s, S) && l in s.pointing && l !in EntriesIn(s, S)
    ensures s.pointing[l] in s.proxies && s.pointing[l] !in S
  {
    assert EntryOk(s, l);
  }

  lemma RootOutside(s: State, S: set<ProxyId>, p: ProxyId) returns (l: Loc)
    requires Inv(s) && Garbage(s, S) && Root(s, p) && Shielded(s, S, p)
    ensures p in s.proxies && p !in S
    ensures s.handles[p] == 0 ==>
      l in s.pointing && s.pointing[l] == p && l !in EntriesIn(s, S) && forall K :: Anchored(s, l, K)
  {
    l := PtrField(p);
    if s.handles[p] == 0 {
      l :| l in s.pointing && s.pointing[l] == p && l.Slot? && l.block in s.blocks && s.blocks[l.block].manual;
      if l in EntriesIn(s, S) { HeldMember(s, S, l); }
      OutsideNamesOutside(s, S, l);
    }
  }

  lemma NamedOutside(s: State, S: set<ProxyId>, p: ProxyId, q: ProxyId) returns (l: Loc)
    requires Inv(s) && Garbage(s, S) && Names(s, p, q) && p !in S
    ensures q in s.proxies && q !in S
    ensures l in s.pointing && s.pointing[l] == q && l !in EntriesIn(s, S)
    ensures forall K :: p in K ==> Anchored(s, l, K)
  {
    l :| l in s.pointing && s.pointing[l] == q
      && (l == PtrField(p) || (l.Slot? && l.block in s.index && s.index[l.block] == p));
    assert EntryOk(s, l);
    OutsideNamesOutside(s, S, l);
  }

  lemma {:induction false} PathAvoidsGarbage(s: State, S: set<ProxyId>, path: seq<ProxyId>)
    requires Inv(s) && Garbage(s, S) && Path(s, path) && Shielded(s, S, path[0])
    ensures forall p :: p in path ==> p in s.proxies && p !in S
  {
    hide Inv, Garbage, Root, Names, Shielded;
    if |path| == 1 {
      var l := RootOutside(s, S, path[0]);
    } else {
      var n := |path| - 1;
      PathAvoidsGarbage(s, S, path[..n]);
      var l := NamedOutside(s, S, path[n - 1], path[n]);
      assert path == path[..n] + [path[n]];
    }
  }

  lemma PathSupports(s: State, S: set<ProxyId>, path: seq<ProxyId>)
    requires Inv(s) && Garbage(s, S) && Path(s, path) && Shielded(s, S, path[0])
    requires forall p :: p in path ==> p in s.proxies && p !in S
    ensures s.handles.Keys == s.proxies.Keys
    ensures SelfSupporting(Lower(s, EntriesIn(s, S), s.handles), Elements(path))
  {
    InvKeys(s);
    var t := Lower(s, EntriesIn(s, S), s.handles);
    forall p | p in path ensures Supported(t, p, Elements(path)) {
      var i :| 0 <= i < |path| && path[i] == p;
      StillSupported(s, S, path, i);
    }
    assert s.dying == {};
    hide Inv, Garbage, Path, Supported, Shielded;
  }

  lemma StillSupported(s: State, S: set<ProxyId>, path: seq<ProxyId>, i: nat)
    requires Inv(s) && Garbage(s, S) && Path(s, path) && Shielded(s, S, path[0]) && i < |path|
    requires forall p :: p in path ==> p in s.proxies && p !in S
    ensures s.handles.Keys == s.proxies.Keys
    ensures Supported(Lower(s, EntriesIn(s, S), s.handles), path[i], Elements(path))
  {
    hide Inv, Garbage, Root, Names, Tally, EntriesIn, Shielded;
    InvKeys(s);
    var t := Lower(s, EntriesIn(s, S), s.handles);
    if i == 0 {
      var l := RootOutside(s, S, path[0]);
      assert s.handles[path[0]] == 0 ==> Anchored(s, l, Elements(path));
      assert s.handles[path[0]] == 0 ==> l in t.pointing && Anchored(t, l, Elements(path));
    } else {
      var l := NamedOutside(s, S, path[i - 1], path[i]);
      assert Anchored(s, l, Elements(path));
      assert l in t.pointing && Anchored(t, l, Elements(path));
    }
  }

  /** A set that supports itself without the slots of the garbage survives the collection
      of any part of the garbage, in any order. */
  lemma {:induction false} CollectKeepsSet(s: State, S: set<ProxyId>, order: seq<ProxyId>, K: set<ProxyId>)
    requires Inv(s) && s.handles.Keys == s.proxies.Keys && forall p :: p in order ==> p in S
    requires SelfSupporting(Lower(s, EntriesIn(s, S), s.handles), K)
    ensures var t := Collect(s, order);
      && t.handles.Keys == t.proxies.Keys && t.pointing.Keys <= s.pointing.Keys
      && (forall a :: a in t.index ==> a in s.index && t.index[a] == s.index[a])
      && SelfSupporting(Lower(t, EntriesIn(s, S), t.handles), K)
  {
    hide Inv, SelfSupporting, EntriesIn, ClearOne, Lower;
    if order != [] {
      var n := |order| - 1;
      CollectKeepsSet(s, S, order[..n], K);
      var x := Collect(s, order[..n]);
      ClearOneKeepsSet(x, order[n], EntriesIn(s, S), K) by { ClearedAreGarbage(s, S, x, order[n]); }
    }
  }

  lemma ClearedAreGarbage(s: State, S: set<ProxyId>, x: State, p: ProxyId)
    requires p in S && x.pointing.Keys <= s.pointing.Keys && forall a :: a in x.index ==> a in s.index && x.index[a] == s.index[a]
    ensures EntriesIn(x, {p}) <= EntriesIn(s, S)
  {
  }

  lemma ClearOneKeepsSet(x: State, p: ProxyId, L: set<Loc>, K: set<ProxyId>)
    requires Inv(x) && x.handles.Keys == x.proxies.Keys && EntriesIn(x, {p}) <= L
    requires SelfSupporting(Lower(x, L, x.handles), K)
    ensures var t := ClearOne(x, p);
      && t.handles.Keys == t.proxies.Keys && t.pointing.Keys <= x.pointing.Keys
      && (forall a :: a in t.index ==> a in x.index && t.index[a] == x.index[a])
      && SelfSupporting(Lower(t, L, t.handles), K)
  {
    hide SelfSupporting, EntriesIn, Alive, Tally, Anchored, Raw, OwnersOk, Positive, KeptBlocks, LostBlocks, Lower;
    if IsBase(x, p) {
      var y := Lower(x, EntriesIn(x, {p}), x.handles);
      LowerKeys(x, EntriesIn(x, {p}), L);
      AliveIsGreatest(y);
      LowerSupport(y, L, y.handles, K);
      LowerAfter(y, L, y.handles, Alive(y), K);
      LowerSameHandles(Reclaim(y), L, y.handles);
    }
  }

  lemma LowerKeys(x: State, M: set<Loc>, L: set<Loc>)
    requires x.handles.Keys == x.proxies.Keys && M <= L && Quiet(x)
    ensures var y := Lower(x, M, x.handles);
      && y.handles == x.handles && y.proxies == x.proxies && y.index == x.index && y.pointing == x.pointing - M && Quiet(y)
      && Lower(y, L, y.handles) == Lower(x, L, x.handles)
  {
    var y := Lower(x, M, x.handles);
    assert y.handles == x.handles;
    assert y.pointing - L == x.pointing - L;
  }

  lemma LowerSameHandles(t: State, L: set<Loc>, hs: map<ProxyId, nat>)
    requires t.handles.Keys == t.proxies.Keys <= hs.Keys && forall q :: q in t.proxies ==> t.handles[q] == hs[q]
    ensures Lower(t, L, t.handles) == Lower(t, L, hs)
  {
    assert (map q | q in t.proxies :: hs[q]) == (map q | q in t.proxies :: t.handles[q]);
  }

  /** No proxy that is reachable from a handle is deleted, in whatever order the collector
      clears whatever garbage; nor one reachable from memory that C owns, as long as that is
      none of the garbage. */
  lemma CollectorIsSafe(s: State, S: set<ProxyId>, order: seq<ProxyId>, path: seq<ProxyId>)
    requires Inv(s) && Garbage(s, S) && InOrder(S, order) && Path(s, path)
    requires (path[0] in s.handles && 0 < s.handles[path[0]]) || NoneHeld(s, S)
    ensures forall p :: p in path ==> p in Collect(s, order).proxies
  {
    hide Inv, Garbage, SelfSupporting, Root, Names, NoneHeld, EntriesIn, Collect;
    InvKeys(s);
    assert forall p :: p in order ==> p in Elements(order);
    PathAvoidsGarbage(s, S, path);
    PathSupports(s, S, path);
    CollectKeepsSet(s, S, order, Elements(path));
    SupportingAreProxies(Collect(s, order), EntriesIn(s, S), Elements(path));
    assert forall p :: p in path ==> p in Elements(path);
  }

  lemma SupportingAreProxies(t: State, L: set<Loc>, K: set<ProxyId>)
    requires t.handles.Keys == t.proxies.Keys && SelfSupporting(Lower(t, L, t.handles), K)
    ensures K <= t.proxies.Keys
  {
  }

  // ----- When no slot is left dangling -----

  lemma LowerSound(s: State, S: set<ProxyId>, t: State)
    requires Inv(s) && Sound(s) && Garbage(s, S)
    requires forall p :: p in S ==> !HeldByC(s, p)
    requires t == Reclaim(Lower(s, EntriesIn(s, S), s.handles)) && t.proxies.Keys !! S && Inv(t)
    ensures Sound(t)
  {
    hide Tally, LostBlocks, Alive, Positive, BlocksOk, LedgerOk;
    var u := Lower(s, EntriesIn(s, S), s.handles);
    forall l | l in t.tracked && Lives(t, l) ensures l in t.pointing {
      assert Lives(s, l) && l in s.pointing && EntryOk(s, l);
      assert l in EntriesIn(s, S) ==> l in EntriesIn(s, {s.index[l.block]});
      assert Anchored(u, l, Alive(u));
    }
  }

  lemma ClearOneOnlyTakes(s: State, p: ProxyId)
    requires Inv(s)
    ensures s.handles.Keys == s.proxies.Keys
    ensures var t := ClearOne(s, p);
      && t.pointing.Keys <= s.pointing.Keys && t.tracked == s.tracked && t.freeing == s.freeing
      && (forall b :: b in s.blocks && s.blocks[b].manual ==> b in t.blocks && t.blocks[b].manual)
    ensures IsBase(s, p) ==> ClearOne(s, p).pointing.Keys !! EntriesIn(s, {p})
  {
    hide Alive, Tally, Anchored, LostBlocks;
  }

  /** The collector deletes entries and releases Python's ownership; it never takes C's. */
  lemma {:induction false} CollectOnlyTakes(s: State, order: seq<ProxyId>)
    requires Inv(s)
    ensures var t := Collect(s, order);
      && t.pointing.Keys <= s.pointing.Keys && t.tracked == s.tracked && t.freeing == s.freeing
      && (forall b :: b in s.blocks && s.blocks[b].manual ==> b in t.blocks && t.blocks[b].manual)
      && (order != [] && IsBase(s, order[0]) ==> t.pointing.Keys !! EntriesIn(s, {order[0]}))
  {
    hide Inv, ClearOne, EntriesIn, IsBase;
    if order != [] {
      var n := |order| - 1;
      var t := Collect(s, order[..n]);
      CollectOnlyTakes(s, order[..n]);
      ClearOneOnlyTakes(t, order[n]);
      if n == 0 { assert t == s; }
    }
  }

  /** Clearing a member of the garbage set whose block C still owns takes the protection
      of the slots in that block away, although the block stays. */
  lemma HeldByCBreaks(s: State, p: ProxyId, order: seq<ProxyId>)
    requires Inv(s) && Sound(s) && IsBase(s, p) && HeldByC(s, p) && order != [] && order[0] == p
    ensures !Sound(Collect(s, order))
  {
    CollectOnlyTakes(s, order);
    var l :| l in EntriesIn(s, {p}) && l.block in s.blocks && s.blocks[l.block].manual;
    assert Lives(Collect(s, order), l);
  }

  lemma {:induction false} AnyOrder(S: set<ProxyId>) returns (order: seq<ProxyId>)
    ensures InOrder(S, order)
    decreases S
  {
    if S == {} {
      order := [];
    } else {
      var p :| p in S;
      var rest := AnyOrder(S - {p});
      order := [p] + rest;
      assert forall q :: q in order <==> q == p || q in Elements(rest);
    }
  }

  /** Exactly when the collector leaves every tracked slot protected, whatever order it
      takes: no member's block that C owns contains a counted pointer. */
  lemma CollectorIsSoundIff(s: State, S: set<ProxyId>)
    requires Inv(s) && Sound(s) && Garbage(s, S)
    ensures (forall order :: InOrder(S, order) ==> Sound(Collect(s, order)))
       <==> (forall p :: p in S ==> !HeldByC(s, p))
  {
    hide Inv, Sound, IsBase;
    if forall p :: p in S ==> !HeldByC(s, p) {
      forall order | InOrder(S, order) ensures Sound(Collect(s, order)) {
        assert forall p :: p in order ==> p in Elements(order);
        CollectorIsComplete(s, S, order);
        LowerSound(s, S, Collect(s, order));
      }
    } else {
      var p :| p in S && HeldByC(s, p);
      var rest := AnyOrder(S);
      var order := [p] + rest;
      assert Elements(order) == S;
      HeldByCBreaks(s, p, order);
      assert InOrder(S, order);
    }
  }

  /** The live location `l` holds an address that is in no block any more. */
  ghost predicate Dangling(s: State, l: Loc) {
    Lives(s, l) && l in s.mem && forall b :: !Inside(s, b, s.mem[l])
  }

  /** The dangling slot itself: C owns the block of `p` and no other garbage block has counted
      pointers.  Once `p` has been cleared first, its slot `l` is still in memory that C may
      read, and the block it points into, which C did not own, is gone. */
  lemma CollectorCanDangle(s: State, S: set<ProxyId>, order: seq<ProxyId>, p: ProxyId, l: Loc)
    requires Inv(s) && Garbage(s, S) && InOrder(S, order) && order != [] && order[0] == p
    requires forall i :: 0 < i < |order| ==> order[i] != p
    requires HeldByC(s, p) && NoneHeld(s, S - {p})
    requires l in EntriesIn(s, {p}) && l in s.mem && s.mem[l] != 0 && s.pointing[l] in S && UnownedByC(s, s.pointing[l])
    ensures Dangling(Collect(s, order), l)
  {
    hide Inv, Garbage, NoneHeld, HeldByC, EntriesIn, Collect, Reclaim, Lower, Inside, BlocksOk, IsBase, Coverable, InOrder;
    InvKeys(s);
    CoverableAfterFirst(s, S, order);
    CollectorIsComplete(s, S, order);
    CollectOnlyTakes(s, order);
    CollectKeepsMemory(s, S, order);
    SlotInBlock(s, p, l);
    GoneAddress(s, Collect(s, order), s.proxies[s.pointing[l]].ptr, s.mem[l]);
  }

  predicate UnownedByC(s: State, q: ProxyId) {
    q in s.proxies && s.proxies[q].ptr in s.blocks && !s.blocks[s.proxies[q].ptr].manual
  }

  lemma GoneAddress(s: State, t: State, c: Addr, a: Addr)
    requires BlocksOk(s.blocks) && Inside(s, c, a) && c !in t.blocks
    requires forall b :: b in t.blocks ==> b in s.blocks && t.blocks[b].size == s.blocks[b].size
    ensures forall b :: !Inside(t, b, a)
  {
    forall b ensures !Inside(t, b, a) {
      if Inside(t, b, a) {
        BlockAtUnique(s, b, a);
        BlockAtUnique(s, c, a);
      }
    }
  }

  lemma CoverableAfterFirst(s: State, S: set<ProxyId>, order: seq<ProxyId>)
    requires Inv(s) && Garbage(s, S) && InOrder(S, order) && order != [] && NoneHeld(s, S - {order[0]})
    requires forall i :: 0 < i < |order| ==> order[i] != order[0]
    ensures Coverable(s, order)
  {
    hide HeldByC;
    assert forall q :: q in order ==> q in Elements(order);
  }

  lemma CollectKeepsMemory(s: State, S: set<ProxyId>, order: seq<ProxyId>)
    requires Inv(s) && s.handles.Keys == s.proxies.Keys
    requires Collect(s, order) == Reclaim(Lower(s, EntriesIn(s, S), s.handles))
    ensures Collect(s, order).mem == s.mem
    ensures forall b :: b in Collect(s, order).blocks ==> b in s.blocks && Collect(s, order).blocks[b].size == s.blocks[b].size
    ensures BlocksOk(s.blocks) && Collect(s, order).freeing == {}
  {
  }

  lemma SlotInBlock(s: State, p: ProxyId, l: Loc)
    requires Inv(s) && HeldByC(s, p) && l in EntriesIn(s, {p}) && l in s.mem && s.mem[l] != 0
    ensures l in s.pointing && l.Slot? && l.block in s.blocks && s.blocks[l.block].manual
    ensures s.pointing[l] in s.proxies && Inside(s, s.proxies[s.pointing[l]].ptr, s.mem[l])
  {
    hide CountOk, BlocksOk, LedgerOk, OwnersOk, Positive;
    assert EntryOk(s, l);
    var k :| k in EntriesIn(s, {p}) && k.block in s.blocks && s.blocks[k.block].manual;
    assert EntryOk(s, k);
    SameBlock(s, p, k, l);
  }

  lemma SameBlock(s: State, p: ProxyId, k: Loc, l: Loc)
    requires IndexOk(s) && k in EntriesIn(s, {p}) && l in EntriesIn(s, {p})
    ensures k.block == l.block
  {
  }
}
