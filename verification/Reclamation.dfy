/** Whatever order the cascade takes, it ends in `Reclaim`: the greatest
    self-supporting set of proxies is left, and exactly the storage it and C own. */
module Reclamation {
  import opened ProxyState
  import opened Cascade

  lemma SupportGrows(s: State, p: ProxyId, K: set<ProxyId>, L: set<ProxyId>)
    requires Supported(s, p, K) && K <= L
    ensures Supported(s, p, L)
  {
    if !(p in s.handles && 0 < s.handles[p]) {
      var l :| l in s.pointing && s.pointing[l] == p && Anchored(s, l, K);
      assert Anchored(s, l, L);
    }
  }

  /** A union of self-supporting sets is self-supporting, so there is a greatest one. */
  lemma AliveIsGreatest(s: State)
    ensures SelfSupporting(s, Alive(s))
    ensures forall K :: SelfSupporting(s, K) ==> K <= Alive(s)
  {
    forall p | p in Alive(s) ensures p !in s.dying && Supported(s, p, Alive(s)) {
      var K :| SelfSupporting(s, K) && p in K;
      SupportGrows(s, p, K, Alive(s));
    }
  }

  /** A positive count means a handle or an entry. */
  lemma CountedMeansHeld(s: State, p: ProxyId)
    requires CountOk(s) && p in s.proxies && 0 < s.refs[p]
    ensures 0 < s.handles[p] || exists l :: l in s.pointing && s.pointing[l] == p
  {
    if s.handles[p] == 0 {
      assert Refs(s.pointing, p) != {};
      var l :| l in Refs(s.pointing, p);
    }
  }

  lemma EntriesAnchored(s: State, l: Loc)
    requires Inv(s) && l in s.pointing
    ensures Anchored(s, l, s.proxies.Keys)
  {
    assert EntryOk(s, l);
  }

  /** In a settled state every proxy is held by something that is still there. */
  lemma SettledIsSelfSupporting(s: State)
    requires Inv(s)
    ensures SelfSupporting(s, s.proxies.Keys)
  {
    forall p | p in s.proxies ensures Supported(s, p, s.proxies.Keys) {
      CountedMeansHeld(s, p);
      forall l | l in s.pointing ensures Anchored(s, l, s.proxies.Keys) { EntriesAnchored(s, l); }
    }
  }

  lemma SurvivorsAreSelfSupporting(s: State, t: State)
    requires Quiet(s) && s.handles.Keys == s.proxies.Keys && Inv(t) && Evolves(s, t)
    ensures SelfSupporting(s, t.proxies.Keys)
  {
    SettledIsSelfSupporting(t);
    SelfSupportBack(s, t, t.proxies.Keys);
  }

  lemma SelfSupportBack(s: State, t: State, K: set<ProxyId>)
    requires Shrinks(s, t) && BlocksShrink(s, t) && EntriesShrink(s, t)
    requires s.handles.Keys == s.proxies.Keys && t.handles.Keys == t.proxies.Keys && s.dying == {} && s.freeing == {}
    requires SelfSupporting(t, K)
    ensures SelfSupporting(s, K)
  {
    forall p | p in K ensures Supported(s, p, K) {
      assert Supported(t, p, K);
      if t.handles[p] == 0 {
        var l :| l in t.pointing && t.pointing[l] == p && Anchored(t, l, K);
        assert Anchored(s, l, K);
      }
    }
  }

  /** The proxies that are left after a cascade are exactly the greatest self-supporting set. */
  lemma SurvivorsAreAlive(s: State, t: State)
    requires Quiet(s) && s.handles.Keys == s.proxies.Keys && Inv(t) && Evolves(s, t)
    ensures t.proxies.Keys == Alive(s)
  {
    SurvivorsAreSelfSupporting(s, t);
    AliveIsGreatest(s);
    assert SelfSupporting(t, Alive(s));
  }

  /** `t` keeps the index entries, entries and blocks that `K` and C hold, and no others. */
  ghost predicate Settles(s: State, t: State, K: set<ProxyId>) {
    && (forall a :: a in s.index ==> (a in t.index <==> s.index[a] in K))
    && (forall l :: l in s.pointing ==> (l in t.pointing <==> Anchored(s, l, K)))
    && (forall b :: b in s.blocks ==> (b in t.blocks <==> Kept(s.blocks, s.index, b, K)))
    && (forall b :: b in t.blocks ==> (t.blocks[b].python <==> b in s.index && s.index[b] in K))
  }

  lemma SettlesIndex(s: State, t: State)
    requires Quiet(t) && IndexOk(t) && Shrinks(s, t)
    ensures forall a :: a in s.index ==> (a in t.index <==> s.index[a] in t.proxies)
  {
  }

  lemma SettlesBlocks(s: State, t: State)
    requires Quiet(s) && IndexOk(s) && Quiet(t) && IndexOk(t) && OwnersOk(t) && Shrinks(s, t) && BlocksShrink(s, t)
    ensures forall b :: b in s.blocks ==> (b in t.blocks <==> Kept(s.blocks, s.index, b, t.proxies.Keys))
    ensures forall b :: b in t.blocks ==> (t.blocks[b].python <==> b in s.index && s.index[b] in t.proxies)
  {
    SettlesIndex(s, t);
    forall b | b in s.blocks ensures b in t.blocks <==> Kept(s.blocks, s.index, b, t.proxies.Keys) {
    }
  }

  lemma SettlesEntry(s: State, t: State, l: Loc)
    requires Raw(s) && Quiet(s) && Inv(t) && Evolves(s, t) && l in s.pointing
    ensures l in t.pointing <==> Anchored(s, l, t.proxies.Keys)
  {
    hide Raw, Mid, Inv, Shrinks, LedgerMoves, SelfSupporting, IndexOk, OwnersOk;
    SettlesParts(s, t);
    SettlesIndex(s, t);
    SettlesBlocks(s, t);
    if l in t.pointing {
      EntriesAnchored(t, l);
    } else {
      assert EntryOk(s, l) by { RawEntries(s); }
      assert !Lives(t, l);
    }
  }

  lemma RawEntries(s: State)
    requires Raw(s)
    ensures EntriesOk(s)
  {
  }

  lemma SettlesParts(s: State, t: State)
    requires Raw(s) && Inv(t)
    ensures IndexOk(s) && IndexOk(t) && OwnersOk(t) && Quiet(t)
    ensures s.handles.Keys == s.proxies.Keys && t.handles.Keys == t.proxies.Keys && CountOk(t)
  {
  }

  /** A settled state that a cascade reaches is determined by the state it started from. */
  lemma Settle(s: State, t: State)
    requires Raw(s) && Quiet(s) && Inv(t) && Evolves(s, t)
    ensures t == Reclaim(s)
  {
    hide Raw, Inv, Shrinks, BlocksShrink, LedgerMoves, EntriesShrink, SelfSupporting, IndexOk, OwnersOk, Alive, Anchored;
    hide Tally, KeptIndex, KeptBlocks, LostBlocks, Kept;
    SettlesParts(s, t);
    SurvivorsAreAlive(s, t);
    SettlesIndex(s, t);
    SettlesBlocks(s, t);
    forall l | l in s.pointing ensures l in t.pointing <==> Anchored(s, l, t.proxies.Keys) { SettlesEntry(s, t, l); }
    SettledTables(s, t, Alive(s));
    SettledEntries(s, t, Alive(s));
    SettledStorage(s, t, Alive(s));
    UntouchedFields(s, t);
  }

  lemma UntouchedFields(s: State, t: State)
    requires Shrinks(s, t) && LedgerMoves(s, t)
    ensures t.mem == s.mem && t.tracked == s.tracked && t.acquired == s.acquired
  {
  }

  lemma SettledTables(s: State, t: State, K: set<ProxyId>)
    requires s.handles.Keys == s.proxies.Keys && t.handles.Keys == t.proxies.Keys == K
    requires Shrinks(s, t) && Settles(s, t, K)
    ensures var r := Restrict(s, K);
      t.proxies == r.proxies && t.handles == r.handles && t.index == r.index
  {
    hide Anchored, KeptBlocks, LostBlocks, Tally, Kept;
    assert t.proxies == map p | p in s.proxies && p in K :: s.proxies[p];
    assert t.handles == map p | p in s.proxies && p in K :: s.handles[p];
    assert t.index == KeptIndex(s.index, K);
  }

  lemma SettledEntries(s: State, t: State, K: set<ProxyId>)
    requires s.handles.Keys == s.proxies.Keys && EntriesShrink(s, t) && Settles(s, t, K)
    ensures t.pointing == Restrict(s, K).pointing
  {
    hide Anchored, KeptBlocks, KeptIndex, LostBlocks, Tally, Kept;
    assert t.pointing == map l | l in s.pointing && Anchored(s, l, K) :: s.pointing[l];
  }

  lemma SettledStorage(s: State, t: State, K: set<ProxyId>)
    requires s.handles.Keys == s.proxies.Keys && BlocksShrink(s, t) && LedgerMoves(s, t) && Settles(s, t, K)
    ensures t.blocks == Restrict(s, K).blocks && t.released == Restrict(s, K).released
  {
    var r := Restrict(s, K);
    forall b ensures b in t.blocks <==> b in r.blocks { }
    forall b | b in t.blocks ensures t.blocks[b] == r.blocks[b] { }
    forall a ensures t.released[a] == r.released[a] { }
  }

  // ----- Reclaiming re-establishes the invariant -----

  lemma AnchoredTargetAlive(s: State, l: Loc)
    requires s.dying == {} && l in s.pointing && s.pointing[l] in s.proxies && Anchored(s, l, Alive(s))
    ensures s.pointing[l] in Alive(s)
  {
    AliveIsGreatest(s);
    var q := s.pointing[l];
    var K := Alive(s) + {q};
    assert Anchored(s, l, K);
    forall p | p in K ensures Supported(s, p, K) {
      if p in Alive(s) { SupportGrows(s, p, Alive(s), K); }
    }
    assert SelfSupporting(s, K);
  }

  lemma ReclaimEntries(s: State)
    requires Raw(s) && Quiet(s)
    ensures EntriesOk(Reclaim(s))
  {
    var r := Reclaim(s);
    forall l | l in r.pointing ensures EntryOk(r, l) {
      assert EntryOk(s, l);
      AnchoredTargetAlive(s, l);
      ReclaimEntry(s, l, Alive(s));
    }
  }

  lemma ReclaimEntry(s: State, l: Loc, K: set<ProxyId>)
    requires s.handles.Keys == s.proxies.Keys && IndexOk(s) && Quiet(s) && K <= s.proxies.Keys
    requires l in s.pointing && EntryOk(s, l) && Anchored(s, l, K) && s.pointing[l] in K
    ensures EntryOk(Restrict(s, K), l)
  {
    var q := s.pointing[l];
    var b := s.proxies[q].ptr;
    assert b in s.blocks && Kept(s.blocks, s.index, b, K);
  }

  lemma ReclaimIndex(s: State, K: set<ProxyId>)
    requires s.handles.Keys == s.proxies.Keys && IndexOk(s) && Quiet(s) && K <= s.proxies.Keys
    ensures IndexOk(Restrict(s, K))
  {
  }

  lemma ReclaimBlocks(s: State, K: set<ProxyId>)
    requires s.handles.Keys == s.proxies.Keys && BlocksOk(s.blocks) && IndexOk(s) && Quiet(s)
    ensures BlocksOk(Restrict(s, K).blocks)
  {
    var r := Restrict(s, K).blocks;
    forall b, c | b in r && c in r ensures Apart(b, r[b].size, c, r[c].size) {
      assert Apart(b, s.blocks[b].size, c, s.blocks[c].size);
    }
    forall b | b in r ensures BlockOk(b, r[b]) { assert BlockOk(b, s.blocks[b]); }
  }

  lemma ReclaimLedger(s: State, K: set<ProxyId>)
    requires s.handles.Keys == s.proxies.Keys && LedgerOk(s) && Quiet(s)
    ensures LedgerOk(Restrict(s, K)) && OwnersOk(Restrict(s, K)) && DyingOk(Restrict(s, K))
  {
    hide Tally;
  }

  lemma ReclaimPositive(s: State)
    requires CountOk(s) && Quiet(s)
    ensures Positive(Reclaim(s)) && CountOk(Reclaim(s))
  {
    var r := Reclaim(s);
    AliveIsGreatest(s);
    forall p | p in r.proxies ensures 0 < r.refs[p] {
      assert Supported(s, p, Alive(s));
      if s.handles[p] == 0 {
        var l :| l in s.pointing && s.pointing[l] == p && Anchored(s, l, Alive(s));
        assert l in Refs(r.pointing, p);
      }
    }
  }

  /** Reclaiming re-establishes the whole invariant, whatever had lost its last reference. */
  lemma ReclaimInv(s: State)
    requires Raw(s) && Quiet(s)
    ensures Inv(Reclaim(s))
  {
    hide Tally, CountOk, IndexOk, EntriesOk, BlocksOk, LedgerOk, OwnersOk, DyingOk, Positive;
    RawParts(s);
    ReclaimEntries(s);
    ReclaimIndex(s, Alive(s));
    ReclaimBlocks(s, Alive(s));
    ReclaimLedger(s, Alive(s));
    ReclaimPositive(s);
  }

  lemma RawParts(s: State)
    requires Raw(s)
    ensures CountOk(s) && s.handles.Keys == s.proxies.Keys
  {
  }
}
