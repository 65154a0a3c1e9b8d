/** Reference counting in terms of trails of entries: what a dropped reference deletes, and what
    the notification of a pointer write frees. */
module ProxyReachability {
  import opened ProxyState
  import opened Cascade
  import opened Reclamation
  import opened ProxyOps
  import opened ProxyApi
  import opened ProxyCollector

  // ----- Trails -----

  /** Storage names the next member each time, and the first member is held by Python or C, or
      occurs again: then the trail starts with a cycle. */
  ghost predicate Trail(s: State, trail: seq<ProxyId>) {
    && trail != [] && trail[0] in s.proxies
    && (forall i :: 0 <= i < |trail| - 1 ==> Names(s, trail[i], trail[i + 1]))
    && (Root(s, trail[0]) || exists j :: 0 < j < |trail| && trail[j] == trail[0])
  }

  ghost predicate HasTrail(s: State, p: ProxyId) {
    exists trail :: Trail(s, trail) && trail[|trail| - 1] == p
  }

  /** What a state must satisfy for trails to tell what is alive: no count matters. */
  ghost predicate Ordered(s: State) {
    EntriesOk(s) && IndexOk(s) && Quiet(s) && s.handles.Keys == s.proxies.Keys
  }

  lemma EntryNames(s: State, l: Loc, q: ProxyId)
    requires EntriesOk(s) && l in s.pointing && s.pointing[l] == q
    ensures q in s.proxies
    ensures l.PtrField? ==> Names(s, l.owner, q)
    ensures l.Slot? ==> l.block in s.blocks && (l.block in s.index ==> Names(s, s.index[l.block], q))
  {
    assert EntryOk(s, l);
  }

  /** An entry in the storage of `p` is anchored with `p`. */
  lemma NamedSupported(s: State, p: ProxyId, q: ProxyId, K: set<ProxyId>)
    requires Ordered(s) && Names(s, p, q) && p in K
    ensures q in s.proxies && Supported(s, q, K)
  {
    hide IndexOk, EntriesOk;
    var l :| l in s.pointing && s.pointing[l] == q && (l == PtrField(p) || (l.Slot? && l.block in s.index && s.index[l.block] == p));
    EntryNames(s, l, q);
    assert Anchored(s, l, K);
  }

  lemma RootSupported(s: State, p: ProxyId, K: set<ProxyId>)
    requires Ordered(s) && Root(s, p)
    ensures Supported(s, p, K)
  {
    hide IndexOk, EntriesOk;
    if s.handles[p] == 0 {
      var l :| l in s.pointing && s.pointing[l] == p && l.Slot? && l.block in s.blocks && s.blocks[l.block].manual;
      assert Anchored(s, l, K);
    }
  }

  lemma TrailIsAlive(s: State, trail: seq<ProxyId>)
    requires Ordered(s) && Trail(s, trail)
    ensures forall p :: p in trail ==> p in Alive(s)
  {
    hide Ordered, Names, Root, Supported;
    var K := Elements(trail);
    forall p | p in K ensures p in s.proxies && Supported(s, p, K) {
      var i :| 0 <= i < |trail| && trail[i] == p;
      if i == 0 && Root(s, p) {
        RootSupported(s, p, K);
      } else {
        var j :| 0 < j < |trail| && trail[j] == p;
        assert trail[j - 1] in trail;
        NamedSupported(s, trail[j - 1], trail[j], K);
      }
    }
    assert SelfSupporting(s, K) by { OrderedQuiet(s); }
    AliveIsGreatest(s);
    assert forall p :: p in trail ==> p in K;
  }

  lemma OrderedQuiet(s: State)
    requires Ordered(s)
    ensures s.dying == {}
  {
  }

  lemma AliveSupported(s: State, p: ProxyId)
    requires p in Alive(s)
    ensures p in s.proxies && Supported(s, p, Alive(s))
  {
    AliveIsGreatest(s);
  }

  /** Who keeps `p`, if neither Python nor C does directly. */
  lemma Keeper(s: State, p: ProxyId) returns (h: ProxyId)
    requires Ordered(s) && p in Alive(s) && !Root(s, p)
    ensures h in Alive(s) && Names(s, h, p)
  {
    hide IndexOk, EntriesOk, Alive;
    AliveSupported(s, p);
    var l :| l in s.pointing && s.pointing[l] == p && Anchored(s, l, Alive(s));
    EntryNames(s, l, p);
    h := if l.Slot? then s.index[l.block] else l.owner;
  }

  /** Going from keeper to keeper ends at a root or in a cycle. */
  lemma {:induction false} TrailTo(s: State, tail: seq<ProxyId>) returns (trail: seq<ProxyId>)
    requires Ordered(s) && tail != [] && forall p :: p in tail ==> p in Alive(s)
    requires forall i :: 0 <= i < |tail| - 1 ==> Names(s, tail[i], tail[i + 1])
    ensures Trail(s, trail) && trail[|trail| - 1] == tail[|tail| - 1]
    decreases |Alive(s) - Elements(tail)|
  {
    hide Ordered, Names, Root, Alive;
    AliveSupported(s, tail[0]);
    trail := tail;
    if !Root(s, tail[0]) {
      var h := Keeper(s, tail[0]);
      AliveSupported(s, h);
      trail := [h] + tail;
      assert forall i :: 0 <= i < |trail| - 1 ==> Names(s, trail[i], trail[i + 1]);
      if h in tail {
        var j :| 0 <= j < |tail| && tail[j] == h;
        assert trail[j + 1] == trail[0];
      } else {
        Fewer(Alive(s), tail, h);
        trail := TrailTo(s, trail);
      }
    }
  }

  lemma Fewer(A: set<ProxyId>, tail: seq<ProxyId>, h: ProxyId)
    requires h in A && h !in tail
    ensures |A - Elements([h] + tail)| < |A - Elements(tail)|
  {
    assert Elements([h] + tail) == {h} + Elements(tail);
    assert A - Elements(tail) == (A - Elements([h] + tail)) + {h};
  }

  /** The greatest self-supporting set is what trails reach. */
  lemma AliveIff(s: State, p: ProxyId)
    requires Ordered(s)
    ensures p in Alive(s) <==> HasTrail(s, p)
  {
    hide Ordered, Alive, Names, Root;
    if p in Alive(s) {
      var trail := TrailTo(s, [p]);
    }
    if HasTrail(s, p) {
      var trail :| Trail(s, trail) && trail[|trail| - 1] == p;
      TrailIsAlive(s, trail);
      assert p in trail;
    }
  }

  // ----- What a dropped reference deletes -----

  /** For structures of any shape: what is left are the proxies that a trail reaches from a
      handle, from memory that C owns, or from a cycle. */
  lemma DropIsExact(s: State, p: ProxyId, q: ProxyId)
    requires Inv(s) && p in s.handles && 0 < s.handles[p]
    ensures s.handles.Keys == s.proxies.Keys
    ensures q in Drop(s, p).proxies <==> HasTrail(DropOne(s, p), q)
  {
    hide Inv, Tally, Ordered, Restrict, DropOne, Alive, Trail;
    InvKeys(s);
    var u := DropOne(s, p);
    DropOrdered(s, p);
    AliveIff(u, q);
    AliveAmong(u);
    RestrictProxies(u, Alive(u));
  }

  lemma DropOrdered(s: State, p: ProxyId)
    requires Inv(s) && p in s.handles && 0 < s.handles[p]
    ensures s.handles.Keys == s.proxies.Keys && Ordered(DropOne(s, p)) && DropOne(s, p).handles.Keys == DropOne(s, p).proxies.Keys
  {
    hide EntriesOk, IndexOk, BlocksOk, LedgerOk, Tally;
    InvKeys(s);
    DropOneStep(s, p);
  }

  lemma RestrictProxies(s: State, K: set<ProxyId>)
    requires s.handles.Keys == s.proxies.Keys && K <= s.proxies.Keys
    ensures Restrict(s, K).proxies.Keys == K
  {
  }

  lemma AliveAmong(s: State)
    ensures Alive(s) <= s.proxies.Keys
  {
  }

  /** The proxies can be ranked so that storage only names proxies of higher rank. */
  ghost predicate Acyclic(s: State, rank: ProxyId -> nat) {
    forall p, q :: Names(s, p, q) ==> rank(p) < rank(q)
  }

  ghost predicate Reachable(s: State, p: ProxyId) {
    exists path :: Path(s, path) && path[|path| - 1] == p
  }

  lemma {:induction false} RankGrows(s: State, rank: ProxyId -> nat, trail: seq<ProxyId>, i: nat, j: nat)
    requires Acyclic(s, rank) && i < j < |trail|
    requires forall k :: 0 <= k < |trail| - 1 ==> Names(s, trail[k], trail[k + 1])
    ensures rank(trail[i]) < rank(trail[j])
    decreases j
  {
    hide Names;
    assert Names(s, trail[j - 1], trail[j - 1 + 1]);
    if i < j - 1 { RankGrows(s, rank, trail, i, j - 1); }
  }

  /** Without cycles, dropping a reference deletes exactly the proxies that neither Python
      nor memory that C owns can reach any more, for structures of any depth and sharing. */
  lemma AcyclicDropIsExact(s: State, p: ProxyId, rank: ProxyId -> nat, q: ProxyId)
    requires Inv(s) && p in s.handles && 0 < s.handles[p] && Acyclic(s, rank)
    ensures s.handles.Keys == s.proxies.Keys
    ensures q in Drop(s, p).proxies <==> Reachable(DropOne(s, p), q)
  {
    hide Inv, Tally, Names, Drop, Root, DropOne;
    InvKeys(s);
    DropIsExact(s, p, q);
    var u := DropOne(s, p);
    StillAcyclic(s, p, rank);
    if HasTrail(u, q) {
      var trail :| Trail(u, trail) && trail[|trail| - 1] == q;
      if j :| 0 < j < |trail| && trail[j] == trail[0] { RankGrows(u, rank, trail, 0, j); }
      assert Path(u, trail);
    }
    if Reachable(u, q) {
      var path :| Path(u, path) && path[|path| - 1] == q;
      assert path[0] in u.proxies by { RootIsProxy(u, path[0]); }
      assert Trail(u, path);
    }
  }

  lemma RootIsProxy(s: State, p: ProxyId)
    requires Root(s, p)
    ensures p in s.proxies
  {
  }

  lemma StillAcyclic(s: State, p: ProxyId, rank: ProxyId -> nat)
    requires s.handles.Keys == s.proxies.Keys && p in s.handles && 0 < s.handles[p] && Acyclic(s, rank)
    ensures Acyclic(DropOne(s, p), rank)
  {
    var u := DropOne(s, p);
    forall x, y | Names(u, x, y) ensures rank(x) < rank(y) { assert Names(s, x, y); }
  }

  // ----- What the notification of a write frees -----

  /** The state without the entry of `l`. */
  ghost function Without(s: State, l: Loc): State
    requires s.handles.Keys == s.proxies.Keys
  {
    if l in s.pointing then Unlink(s, l) else s
  }

  lemma WithoutOrdered(s: State, l: Loc)
    requires Inv(s)
    ensures s.handles.Keys == s.proxies.Keys && Without(s, l).handles.Keys == Without(s, l).proxies.Keys
    ensures Ordered(Without(s, l)) && Without(s, l).blocks == s.blocks && Without(s, l).index == s.index
    ensures Forget(s, l) == Reclaim(Without(s, l))
    ensures Without(s, l).mem == s.mem
  {
    hide EntriesOk, IndexOk, BlocksOk, LedgerOk, OwnersOk, Positive, Tally, Reclaim;
    InvKeys(s);
    if l in s.pointing { UnlinkRaw(s, l); } else { ReclaimSettled(s); }
  }

  /** A block survives the notification for `l` if and only if C owns it, or its base proxy is in
      the greatest self-supporting set that does without the entry of `l`: that is, if a trail
      that does not use `l` reaches the base. */
  lemma SurvivesIff(s: State, l: Loc, b: Addr)
    requires Inv(s) && b in s.blocks
    ensures s.handles.Keys == s.proxies.Keys
    ensures b in Forget(s, l).blocks <==> s.blocks[b].manual || (b in s.index && s.index[b] in Alive(Without(s, l)))
    ensures b in Forget(s, l).blocks <==> s.blocks[b].manual || (b in s.index && HasTrail(Without(s, l), s.index[b]))
  {
    hide Inv, Forget, Alive, Ordered, Trail, Tally, Anchored, LostBlocks;
    WithoutOrdered(s, l);
    if b in s.index { AliveIff(Without(s, l), s.index[b]); }
  }

  /** A slot can be written through if and only if its block so survives. */
  lemma WritableIff(s: State, l: Loc)
    requires Inv(s) && l.Slot? && l.block in s.blocks && l.offset in s.blocks[l.block].slots
    ensures s.handles.Keys == s.proxies.Keys
    ensures WritableSlot(s, l)
       <==> (s.blocks[l.block].manual || (l.block in s.index && HasTrail(Without(s, l), s.index[l.block])))
  {
    hide Inv, Forget, Trail;
    SurvivesIff(s, l, l.block);
  }

  /** `C` is kept through `l` alone: no handle, and every other entry for a member lies in the
      storage of a member of lower rank that C does not own. */
  ghost predicate KeptThrough(s: State, l: Loc, C: set<ProxyId>, rank: ProxyId -> nat) {
    && (forall p :: p in C ==> p in s.handles && s.handles[p] == 0)
    && (forall k :: k in s.pointing && k != l && s.pointing[k] in C ==>
          exists p :: p in C && rank(p) < rank(s.pointing[k]) && StoredIn(s, k, p))
  }

  /** Location `k` goes with `p`. */
  predicate StoredIn(s: State, k: Loc, p: ProxyId) {
    match k
    case Slot(b, _) => b in s.blocks && !s.blocks[b].manual && b in s.index && s.index[b] == p
    case PtrField(o) => o == p
  }

  lemma {:induction false} KeptThroughDies(s: State, l: Loc, C: set<ProxyId>, rank: ProxyId -> nat, p: ProxyId)
    requires s.handles.Keys == s.proxies.Keys && KeptThrough(s, l, C, rank) && p in C
    ensures p !in Alive(Without(s, l))
    decreases rank(p)
  {
    hide Alive, Tally;
    var u := Without(s, l);
    if p in Alive(u) {
      AliveSupported(u, p);
      assert u.handles == s.handles;
      var k :| k in u.pointing && u.pointing[k] == p && Anchored(u, k, Alive(u));
      var q :| q in C && rank(q) < rank(p) && StoredIn(s, k, q);
      KeptThroughDies(s, l, C, rank, q);
    }
  }

  /** The failing case of a write: a block kept by its own slot `l`, or by a cycle through it, is
      freed by the notification, before the write. */
  lemma WriteIntoFreedBlock(s: State, l: Loc, C: set<ProxyId>, rank: ProxyId -> nat)
    requires Inv(s) && l.Slot? && l.block in s.blocks && !s.blocks[l.block].manual
    requires KeptThrough(s, l, C, rank) && l.block in s.index && s.index[l.block] in C
    ensures s.handles.Keys == s.proxies.Keys && l.block !in Forget(s, l).blocks && !WritableSlot(s, l)
  {
    hide Inv, Forget, Alive, Trail, KeptThrough;
    SurvivesIff(s, l, l.block);
    KeptThroughDies(s, l, C, rank, s.index[l.block]);
  }

  /** A write adds the entry for its target, and leaves its block, exactly if that is kept without
      the slot's old entry. */
  lemma WriteKeepsTargetIff(s: State, l: Loc, v: Addr, b: Addr)
    requires Inv(s) && WritableSlot(s, l) && b in s.index && Inside(s, b, v)
    ensures var t := Write(s, l, v);
      && (l in t.pointing <==> HasTrail(Without(s, l), s.index[b]))
      && (b in t.blocks <==> s.blocks[b].manual || HasTrail(Without(s, l), s.index[b]))
  {
    hide Inv, Alive, Ordered, Trail, Tally, Raw, Mid, Unlink;
    WithoutOrdered(s, l);
    AliveIff(Without(s, l), s.index[b]);
    assert b in s.blocks by { BlocksOf(s); }
    SurvivesIff(s, l, b);
    IndexKept(Without(s, l), b);
    WriteEntry(s, l, v);
    WriteIndex(s, l, v, b);
  }

  /** A write adds an entry exactly if the target lies in a block that is registered after the
      notification. */
  lemma WriteEntry(s: State, l: Loc, v: Addr)
    requires Inv(s) && WritableSlot(s, l)
    ensures Inv(Forget(s, l)) && Write(s, l, v).blocks == Forget(s, l).blocks
    ensures var b := BlockAt(Forget(s, l), v);
      l in Write(s, l, v).pointing <==> b.Some? && b.value in Forget(s, l).index
  {
    hide Inv, Forget, BlockAt;
    var t := Forget(s, l);
    ForgetInv(s, l);
    ForgetLeaves(s, l);
    if BlockAt(t, v).Some? && BlockAt(t, v).value in t.index { BaseAt(t, BlockAt(t, v).value); }
  }

  lemma WriteIndex(s: State, l: Loc, v: Addr, b: Addr)
    requires Inv(s) && WritableSlot(s, l) && b in s.index && Inside(s, b, v)
    ensures b in Forget(s, l).index <==> l in Write(s, l, v).pointing
  {
    hide Inv, Forget, WritableSlot, Inside, BlockAt, Write;
    InvKeys(s);
    var t := Forget(s, l);
    WriteEntry(s, l, v);
    ForgetLeaves(s, l);
    BlocksOf(s);
    BlocksOf(t);
    if b in t.index {
      SameInside(s, t, b, v);
      BlockAtUnique(t, b, v);
    } else if BlockAt(t, v).Some? {
      var c := BlockAt(t, v).value;
      BlockAtInside(t, v);
      SameInside(t, s, c, v);
      BlockAtUnique(s, c, v);
      BlockAtUnique(s, b, v);
    }
  }

  lemma IndexKept(u: State, b: Addr)
    requires u.handles.Keys == u.proxies.Keys && b in u.index
    ensures b in Reclaim(u).index <==> u.index[b] in Alive(u)
  {
  }

  lemma SameInside(s: State, t: State, b: Addr, v: Addr)
    requires Inside(s, b, v) && b in t.blocks && b in s.blocks && t.blocks[b].size == s.blocks[b].size
    ensures Inside(t, b, v)
  {
  }

  lemma BlocksOf(s: State)
    requires Inv(s)
    ensures BlocksOk(s.blocks) && forall b :: b in s.index ==> b in s.blocks
  {
  }

  /** The failing case: the new target is kept through the old entry of the slot alone, as when an
      element is taken out of a list. The slot then holds an address that is in no block. */
  lemma WriteCanDangle(s: State, l: Loc, v: Addr, b: Addr)
    requires Inv(s) && WritableSlot(s, l) && b in s.index && Inside(s, b, v)
    requires !s.blocks[b].manual && !HasTrail(Without(s, l), s.index[b])
    ensures Dangling(Write(s, l, v), l) && l !in Write(s, l, v).pointing
  {
    hide Inv, Alive, Trail, Forget, HasTrail, Inside, BlocksOk;
    WriteKeepsTargetIff(s, l, v, b);
    ForgetLeaves(s, l);
    BlocksOf(s);
    var t := Write(s, l, v);
    ForgetFields(s, l);
    GoneAddress(s, t, b, v);
  }

  lemma ForgetFields(s: State, l: Loc)
    requires Inv(s)
    ensures s.handles.Keys == s.proxies.Keys && Forget(s, l).freeing == {}
  {
    InvKeys(s);
    ForgetInv(s, l);
    hide Raw, OwnersOk, Positive, Forget;
  }
}
