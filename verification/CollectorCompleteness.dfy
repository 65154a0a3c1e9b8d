/** When the cyclic collector deletes all of its garbage. */
module CollectorCompleteness {
  import opened ProxyState
  import opened Reclamation
  import opened ProxyApi
  import opened ProxyCollector

  /** `l` is an entry in the block of `p`, which C owns. */
  ghost predicate Pinning(s: State, p: ProxyId, l: Loc) {
    l in EntriesIn(s, {p}) && l.block in s.blocks && s.blocks[l.block].manual
  }

  /** The block of `p` is C's, names another member of `S`, and does not name `p` itself: if the
      collector deletes `p` before its turn, those slots are never cleared. */
  ghost predicate Risky(s: State, S: set<ProxyId>, p: ProxyId) {
    && (exists l :: Pinning(s, p, l) && s.pointing[l] in S && s.pointing[l] != p)
    && (forall l :: Pinning(s, p, l) ==> s.pointing[l] != p)
  }

  lemma RiskyEntry(s: State, S: set<ProxyId>, p: ProxyId) returns (l: Loc)
    requires Risky(s, S, p)
    ensures Pinning(s, p, l) && l in s.pointing && s.pointing[l] in S && s.pointing[l] != p
  {
    l :| Pinning(s, p, l) && s.pointing[l] in S && s.pointing[l] != p;
  }

  // ----- What clearing takes and leaves -----

  /** Only entries, index entries, Python's ownership and blocks that C does not own go. */
  ghost predicate Takes(s: State, t: State) {
    && (forall k :: k in t.pointing ==> k in s.pointing && t.pointing[k] == s.pointing[k])
    && (forall a :: a in t.index ==> a in s.index && t.index[a] == s.index[a])
    && (forall b :: b in t.blocks ==> b in s.blocks && t.blocks[b].manual == s.blocks[b].manual)
    && (forall b :: b in s.blocks && s.blocks[b].manual ==> b in t.blocks)
    && (forall q :: q in t.handles ==> q in s.handles && t.handles[q] == s.handles[q])
  }

  lemma TakesTrans(s: State, t: State, u: State)
    requires Takes(s, t) && Takes(t, u)
    ensures Takes(s, u)
  {
  }

  lemma ClearOneTakes(x: State, p: ProxyId)
    requires Inv(x)
    ensures x.handles.Keys == x.proxies.Keys && Takes(x, ClearOne(x, p))
    ensures var t := ClearOne(x, p);
      && (forall k :: k in x.pointing && k.Slot? && k.block in x.blocks && x.blocks[k.block].manual && k !in EntriesIn(x, {p})
            ==> k in t.pointing)
      && (IsBase(x, p) ==> t.pointing.Keys !! EntriesIn(x, {p}))
  {
    hide Alive, Tally, LostBlocks, CountOk, IndexOk, EntriesOk, BlocksOk, LedgerOk, OwnersOk, Positive;
    InvKeys(x);
  }

  lemma {:induction false} CollectTakes(s: State, order: seq<ProxyId>)
    requires Inv(s)
    ensures Takes(s, Collect(s, order))
  {
    hide Inv, ClearOne, Takes;
    if order != [] {
      var n := |order| - 1;
      CollectTakes(s, order[..n]);
      var x := Collect(s, order[..n]);
      ClearOneTakes(x, order[n]);
      TakesTrans(s, x, ClearOne(x, order[n]));
    } else {
      assert Takes(s, s) by { TakesSelf(s); }
    }
  }

  lemma TakesSelf(s: State)
    ensures Takes(s, s)
  {
  }

  /** The entries that are left in the blocks of those who had their turn are in memory of C. */
  lemma {:induction false} CollectLeaves(s: State, order: seq<ProxyId>, k: Loc)
    requires Inv(s) && k in Collect(s, order).pointing && k in EntriesIn(s, Elements(order))
    ensures Pinning(s, s.index[k.block], k)
  {
    hide Inv, ClearOne, Takes;
    var n := |order| - 1;
    assert order != [];
    var x := Collect(s, order[..n]);
    CollectTakes(s, order[..n]);
    ClearOneTakes(x, order[n]);
    TurnEntry(s, x, order[n], k);
    if k in EntriesIn(s, Elements(order[..n])) {
      CollectLeaves(s, order[..n], k);
    } else {
      assert s.index[k.block] == order[n];
    }
  }

  lemma HasOwner(x: State, b: Addr)
    requires Inv(x) && b in x.blocks
    ensures x.blocks[b].manual || b in x.index
  {
  }

  /** What is left in the block of `p` after its turn. */
  lemma TurnEntry(s: State, x: State, p: ProxyId, k: Loc)
    requires Inv(s) && Inv(x) && Takes(s, x) && x.handles.Keys == x.proxies.Keys && k in ClearOne(x, p).pointing
    requires Takes(x, ClearOne(x, p)) && (IsBase(x, p) ==> ClearOne(x, p).pointing.Keys !! EntriesIn(x, {p}))
    ensures k in x.pointing
    ensures k in EntriesIn(s, {p}) ==> Pinning(s, p, k)
  {
    hide CountOk, BlocksOk, LedgerOk, Positive, ClearOne;
    if k in EntriesIn(s, {p}) {
      assert EntryOk(x, k);
      HasOwner(x, k.block);
    }
  }

  /** Entries in memory of C stay as long as it is not their turn. */
  lemma {:induction false} CollectKeepsPinned(s: State, order: seq<ProxyId>, m: ProxyId, k: Loc)
    requires Inv(s) && Pinning(s, m, k) && m !in order
    ensures k in Collect(s, order).pointing && Collect(s, order).pointing[k] == s.pointing[k]
  {
    hide Inv, ClearOne;
    if order != [] {
      var n := |order| - 1;
      var x := Collect(s, order[..n]);
      CollectKeepsPinned(s, order[..n], m, k);
      CollectTakes(s, order[..n]);
      ClearOneTakes(x, order[n]);
    }
  }

  /** A member that its own block in memory of C names is there until its turn, and then cleared. */
  lemma {:induction false} SelfNamedIsCleared(s: State, order: seq<ProxyId>, m: ProxyId, k: Loc)
    requires Inv(s) && Pinning(s, m, k) && s.pointing[k] == m && m in order
    ensures Collect(s, order).pointing.Keys !! EntriesIn(s, {m})
  {
    hide Inv, ClearOne;
    var n := |order| - 1;
    var x := Collect(s, order[..n]);
    CollectTakes(s, order[..n]);
    ClearOneTakes(x, order[n]);
    if m in order[..n] {
      SelfNamedIsCleared(s, order[..n], m, k);
    } else {
      assert order == order[..n] + [order[n]];
      CollectKeepsPinned(s, order[..n], m, k);
      StillBase(s, x, m, k);
    }
  }

  lemma StillBase(s: State, x: State, m: ProxyId, k: Loc)
    requires Inv(s) && Inv(x) && Takes(s, x) && k in x.pointing && x.pointing[k] == m && k in EntriesIn(s, {m})
    ensures IsBase(x, m)
    ensures forall j :: j in x.pointing && j in EntriesIn(s, {m}) ==> j in EntriesIn(x, {m})
  {
    hide CountOk, BlocksOk, LedgerOk, OwnersOk, Positive;
    assert EntryOk(x, k);
    var a := x.proxies[m].ptr;
    assert s.index[a] == m;
  }

  // ----- Complete exactly without risky members -----

  lemma Referenced(t: State, q: ProxyId) returns (k: Loc)
    requires Inv(t) && q in t.proxies && t.handles[q] == 0
    ensures k in t.pointing && t.pointing[k] == q
  {
    hide IndexOk, EntriesOk, BlocksOk, LedgerOk, OwnersOk;
    CountedMeansHeld(t, q);
    k :| k in t.pointing && t.pointing[k] == q;
  }

  lemma NoSurvivor(s: State, S: set<ProxyId>, order: seq<ProxyId>, q: ProxyId)
    requires Inv(s) && Garbage(s, S) && InOrder(S, order) && q in S && forall p :: p in S ==> !Risky(s, S, p)
    ensures q !in Collect(s, order).proxies
  {
    hide Inv, Collect;
    var t := Collect(s, order);
    CollectTakes(s, order);
    InvKeys(t);
    if q in t.proxies {
      var k := Referenced(t, q);
      var m := s.index[k.block];
      assert m in S && k in EntriesIn(s, Elements(order));
      CollectLeaves(s, order, k);
      var j :| Pinning(s, m, j) && s.pointing[j] == m;
      SelfNamedIsCleared(s, order, m, j);
    }
  }

  lemma RiskySurvives(s: State, S: set<ProxyId>, p: ProxyId) returns (order: seq<ProxyId>, r: ProxyId)
    requires Inv(s) && Garbage(s, S) && p in S && Risky(s, S, p)
    ensures InOrder(S, order) && r in S && r in Collect(s, order).proxies
  {
    hide Inv, Collect, ClearOne, EntriesIn;
    var rest := AnyOrder(S - {p});
    order := rest + [p];
    assert InOrder(S, order) by { Appended(S, rest, p); }
    var x := Collect(s, rest);
    LastTurn(s, rest, p);
    CollectTakes(s, rest);
    ClearOneTakes(x, p);
    InvKeys(x);
    var l := RiskyEntry(s, S, p);
    assert p !in Elements(rest);
    CollectKeepsPinned(s, rest, p, l);
    r := s.pointing[l];
    if !IsBase(x, p) {
      Target(x, l);
      assert ClearOne(x, p) == x by { NotBase(x, p); }
    } else {
      assert x.handles[p] == 0;
      var k := Referenced(x, p);
      PinnedElsewhere(s, S, rest, p, l, k);
      OtherBlock(s, x, p, s.index[k.block], k);
      Target(Collect(s, order), k);
      r := p;
    }
  }

  lemma Appended(S: set<ProxyId>, rest: seq<ProxyId>, p: ProxyId)
    requires p in S && Elements(rest) == S - {p}
    ensures Elements(rest + [p]) == S
  {
    assert forall q :: q in rest + [p] <==> q in rest || q == p;
    assert forall q :: q in rest <==> q in Elements(rest);
  }

  lemma LastTurn(s: State, rest: seq<ProxyId>, p: ProxyId)
    requires Inv(s)
    ensures Collect(s, rest).handles.Keys == Collect(s, rest).proxies.Keys
    ensures Collect(s, rest + [p]) == ClearOne(Collect(s, rest), p)
  {
    InvKeys(Collect(s, rest));
    assert (rest + [p])[..|rest|] == rest;
  }

  lemma NotBase(x: State, p: ProxyId)
    requires x.handles.Keys == x.proxies.Keys && !IsBase(x, p)
    ensures ClearOne(x, p) == x
  {
  }

  lemma Target(t: State, l: Loc)
    requires Inv(t) && l in t.pointing
    ensures t.pointing[l] in t.proxies
  {
    assert EntryOk(t, l);
  }

  /** An entry for `p` that is left before its turn is in the block of another member, in memory of C. */
  lemma PinnedElsewhere(s: State, S: set<ProxyId>, rest: seq<ProxyId>, p: ProxyId, l: Loc, k: Loc)
    requires Inv(s) && Garbage(s, S) && Elements(rest) == S - {p} && p in S && Pinning(s, p, l)
    requires forall j :: Pinning(s, p, j) ==> s.pointing[j] != p
    requires k in Collect(s, rest).pointing && Takes(s, Collect(s, rest)) && Collect(s, rest).pointing[k] == p
    ensures k in s.pointing && k.Slot? && k.block in s.index && s.index[k.block] != p && Pinning(s, s.index[k.block], k)
  {
    hide CountOk, EntriesOk, BlocksOk, LedgerOk, OwnersOk, Positive, Collect;
    var m := s.index[k.block];
    if m == p {
      SameBlock(s, p, k, l);
    }
    assert m in Elements(rest);
    CollectLeaves(s, rest, k);
  }

  lemma OtherBlock(s: State, x: State, p: ProxyId, m: ProxyId, k: Loc)
    requires Takes(s, x) && Pinning(s, m, k) && m != p && k in x.pointing
    ensures k.Slot? && k.block in x.blocks && x.blocks[k.block].manual && k !in EntriesIn(x, {p})
  {
  }

  /** The collector deletes its whole garbage set, whatever order it takes, if and only if no
      member is risky. */
  lemma CollectorIsCompleteIff(s: State, S: set<ProxyId>)
    requires Inv(s) && Garbage(s, S)
    ensures (forall order :: InOrder(S, order) ==> Collect(s, order).proxies.Keys !! S)
       <==> (forall p :: p in S ==> !Risky(s, S, p))
  {
    hide Inv, Collect, Garbage, Risky, InOrder;
    if forall p :: p in S ==> !Risky(s, S, p) {
      forall order | InOrder(S, order) ensures Collect(s, order).proxies.Keys !! S {
        forall q | q in S ensures q !in Collect(s, order).proxies { NoSurvivor(s, S, order, q); }
      }
    } else {
      var p :| p in S && Risky(s, S, p);
      var order, r := RiskySurvives(s, S, p);
    }
  }

  /** Of a member that is deleted, the block is freed exactly if C does not own it. */
  lemma DeletedMembersBlock(s: State, S: set<ProxyId>, order: seq<ProxyId>, p: ProxyId)
    requires Inv(s) && Garbage(s, S) && p in S && p !in Collect(s, order).proxies
    ensures p in s.proxies && s.proxies[p].ptr in s.blocks
    ensures s.proxies[p].ptr in Collect(s, order).blocks <==> s.blocks[s.proxies[p].ptr].manual
  {
    hide CountOk, EntriesOk, BlocksOk, LedgerOk, Positive, Collect;
    CollectTakes(s, order);
    var t := Collect(s, order);
    var b := s.proxies[p].ptr;
    assert b in s.index && b in s.blocks;
    assert b in t.index ==> t.index[b] in t.proxies;
  }

  /** Two structures in memory of C that name each other: clearing the first deletes the second,
      whose slot then keeps the first. */
  lemma MutualPairSurvives(s: State, p: ProxyId, q: ProxyId)
    requires Inv(s) && p != q && Garbage(s, {p, q}) && Risky(s, {p, q}, p) && Risky(s, {p, q}, q)
    ensures p in Collect(s, [p, q]).proxies && q !in Collect(s, [p, q]).proxies
  {
    hide Inv, Collect, ClearOne, EntriesIn;
    var x := Collect(s, [p]);
    InvKeys(s);
    InvKeys(x);
    assert [p, q] == [p] + [q];
    LastTurn(s, [p], q);
    CollectTakes(s, [p]);
    PairEntries(s, p, q);
    var l := RiskyEntry(s, {p, q}, q);
    CollectKeepsPinned(s, [p], q, l);
    if q in x.proxies {
      var k := Referenced(x, q);
    }
    NotBase(x, q);
    Target(x, l);
  }

  /** After the first turn no entry for the second is left. */
  lemma PairEntries(s: State, p: ProxyId, q: ProxyId)
    requires Inv(s) && p != q && Garbage(s, {p, q}) && Risky(s, {p, q}, p) && Risky(s, {p, q}, q)
    ensures forall k :: k in Collect(s, [p]).pointing ==> Collect(s, [p]).pointing[k] != q
  {
    hide CountOk, EntriesOk, BlocksOk, LedgerOk, OwnersOk, Positive, Collect, ClearOne;
    InvKeys(s);
    CollectTakes(s, [p]);
    assert [] + [p] == [p];
    LastTurn(s, [], p);
    assert Collect(s, []) == s by { NothingCollected(s); }
    ClearOneTakes(s, p);
    var t := Collect(s, [p]);
    forall k | k in t.pointing ensures t.pointing[k] != q {
      if s.pointing[k] == q { PairEntry(s, p, q, k); }
    }
  }

  lemma PairEntry(s: State, p: ProxyId, q: ProxyId, k: Loc)
    requires Inv(s) && p != q && Garbage(s, {p, q}) && Risky(s, {p, q}, q) && k in s.pointing && s.pointing[k] == q
    ensures k in EntriesIn(s, {p})
  {
    hide CountOk, EntriesOk, BlocksOk, LedgerOk, OwnersOk, Positive;
    var j := RiskyEntry(s, {p, q}, q);
    if s.index[k.block] == q { SameBlock(s, q, j, k); }
  }

  lemma NothingCollected(s: State)
    requires Inv(s)
    ensures Collect(s, []) == s
  {
  }
}
