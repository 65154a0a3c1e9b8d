/** How one deallocation cascade may change the state, and the primitive steps it is made of. */
module Cascade {
  import opened ProxyState

  /** `t` is reached from `s` by reclaiming only: nothing is added, storage that is
      still alive keeps its entries, and no self-supporting set loses a member. */
  ghost predicate Evolves(s: State, t: State) {
    && Shrinks(s, t)
    && BlocksShrink(s, t)
    && LedgerMoves(s, t)
    && EntriesShrink(s, t)
    && (forall K :: SelfSupporting(s, K) ==> SelfSupporting(t, K))
  }

  ghost predicate Shrinks(s: State, t: State) {
    && t.mem == s.mem && t.tracked == s.tracked
    && (forall p :: p in t.proxies ==> p in s.proxies && t.proxies[p] == s.proxies[p])
    && (forall p :: p in t.proxies && p !in t.dying ==> p !in s.dying)
    && (forall p :: p in t.proxies && p in s.handles && p in t.handles ==> t.handles[p] == s.handles[p])
    && (forall a :: a in t.index ==> a in s.index && t.index[a] == s.index[a])
    && (forall a :: a in s.index && a !in t.index ==> s.index[a] !in t.proxies || s.index[a] in t.dying)
  }

  ghost predicate BlocksShrink(s: State, t: State) {
    && (forall b :: b in t.blocks ==>
          && b in s.blocks
          && (t.blocks[b] == s.blocks[b] || t.blocks[b] == s.blocks[b].(python := false)))
    && (forall b :: b in t.blocks && b !in t.freeing ==> b !in s.freeing)
    && (forall b :: b in s.blocks && s.blocks[b].manual && b !in s.freeing ==> b in t.blocks && b !in t.freeing)
  }

  ghost predicate LedgerMoves(s: State, t: State) {
    && t.acquired == s.acquired
    && (forall a :: t.released[a] == s.released[a] + (if a in s.blocks && a !in t.blocks then 1 else 0))
  }

  ghost predicate EntriesShrink(s: State, t: State) {
    && (forall l :: l in t.pointing ==> l in s.pointing && t.pointing[l] == s.pointing[l])
    && (forall l :: l in s.pointing && l !in t.pointing ==> !Lives(t, l))
  }

  lemma EvolvesRefl(s: State)
    ensures Evolves(s, s)
  {
  }

  lemma BlocksShrinkTrans(s: State, t: State, u: State)
    requires BlocksShrink(s, t) && BlocksShrink(t, u)
    ensures BlocksShrink(s, u)
  {
  }

  lemma LedgerMovesTrans(s: State, t: State, u: State)
    requires LedgerMoves(s, t) && LedgerMoves(t, u) && BlocksShrink(s, t) && BlocksShrink(t, u)
    ensures LedgerMoves(s, u)
  {
  }

  lemma ShrinksTrans(s: State, t: State, u: State)
    requires Shrinks(s, t) && Shrinks(t, u)
    requires t.handles.Keys == t.proxies.Keys
    ensures Shrinks(s, u)
  {
  }

  lemma EntriesShrinkTrans(s: State, t: State, u: State)
    requires EntriesShrink(s, t) && EntriesShrink(t, u) && Shrinks(t, u) && BlocksShrink(t, u)
    ensures EntriesShrink(s, u)
  {
    forall l | l in s.pointing && l !in u.pointing ensures !Lives(u, l) {
      if l !in t.pointing {
        assert !Lives(t, l);
      }
    }
  }

  lemma EvolvesTrans(s: State, t: State, u: State)
    requires Evolves(s, t) && Evolves(t, u)
    requires t.handles.Keys == t.proxies.Keys
    ensures Evolves(s, u)
  {
    ShrinksTrans(s, t, u);
    BlocksShrinkTrans(s, t, u);
    LedgerMovesTrans(s, t, u);
    EntriesShrinkTrans(s, t, u);
    hide Shrinks, BlocksShrink, LedgerMoves, EntriesShrink, SelfSupporting;
  }

  // ----- Primitive steps -----

  /** `p`, which is not a registered base, starts to be deallocated. */
  function StartDying(s: State, p: ProxyId): State {
    s.(dying := s.dying + {p})
  }

  /** The registered base `p` of block `b` starts to be deallocated: Python gives up the block. */
  function GiveUp(s: State, p: ProxyId, b: Addr): State
    requires b in s.blocks
  {
    s.(dying := s.dying + {p},
       blocks := s.blocks[b := s.blocks[b].(python := false)],
       freeing := if s.blocks[b].manual then s.freeing else s.freeing + {b})
  }

  /** The entry of location `l` goes, and with it one count of its target. */
  ghost function Unlink(s: State, l: Loc): State
    requires s.proxies.Keys <= s.handles.Keys
  {
    Counted(s.(pointing := s.pointing - {l}))
  }

  /** Python code, or C code on its stack, gives back one reference to `p`. */
  ghost function DropOne(s: State, p: ProxyId): State
    requires s.handles.Keys == s.proxies.Keys && p in s.handles && 0 < s.handles[p]
  {
    Counted(s.(handles := s.handles[p := s.handles[p] - 1]))
  }

  /** The reference that the entry of `l` held is now held on the C stack. */
  function TakeOver(s: State, l: Loc): State
    requires l in s.pointing && s.pointing[l] in s.handles
  {
    var q := s.pointing[l];
    s.(pointing := s.pointing - {l}, handles := s.handles[q := s.handles[q] + 1])
  }

  ghost function RemoveBlock(s: State, b: Addr): State {
    s.(blocks := s.blocks - {b}, freeing := s.freeing - {b}, released := s.released + multiset{b})
  }

  function RemoveIndex(s: State, a: Addr): State {
    s.(index := s.index - {a})
  }

  function RemoveProxy(s: State, p: ProxyId): State {
    s.(proxies := s.proxies - {p}, refs := s.refs - {p}, handles := s.handles - {p}, dying := s.dying - {p})
  }

  // ----- Counting -----

  lemma RefsRemove(pointing: map<Loc, ProxyId>, l: Loc, p: ProxyId)
    requires l in pointing
    ensures |Refs(pointing - {l}, p)| == |Refs(pointing, p)| - (if pointing[l] == p then 1 else 0)
  {
    if pointing[l] == p {
      assert Refs(pointing, p) == Refs(pointing - {l}, p) + {l};
    } else {
      assert Refs(pointing, p) == Refs(pointing - {l}, p);
    }
  }

  lemma RefsAdd(pointing: map<Loc, ProxyId>, l: Loc, q: ProxyId, p: ProxyId)
    requires l !in pointing
    ensures |Refs(pointing[l := q], p)| == |Refs(pointing, p)| + (if q == p then 1 else 0)
  {
    if q == p {
      assert Refs(pointing[l := q], p) == Refs(pointing, p) + {l};
    } else {
      assert Refs(pointing[l := q], p) == Refs(pointing, p);
    }
  }

  lemma NoCountNoEntry(s: State, p: ProxyId)
    requires CountOk(s) && p in s.proxies && s.refs[p] == 0
    ensures s.handles[p] == 0 && forall l :: l in s.pointing ==> s.pointing[l] != p
  {
    assert |Refs(s.pointing, p)| == 0;
    assert forall l :: l in Refs(s.pointing, p) <==> l in s.pointing && s.pointing[l] == p;
  }

  /** A proxy whose count is zero belongs to no self-supporting set. */
  lemma NoCountNoSupport(s: State, p: ProxyId)
    requires CountOk(s) && p in s.proxies && s.refs[p] == 0
    ensures forall K :: SelfSupporting(s, K) ==> p !in K
  {
    NoCountNoEntry(s, p);
    assert forall K :: !Supported(s, p, K);
  }

  // ----- Each primitive step keeps the cascade invariant and only reclaims -----

  ghost predicate ReadyToDie(s: State, p: ProxyId) {
    && Raw(s) && OwnersOk(s) && p in s.proxies && p !in s.dying && s.refs[p] == 0
    && (forall q :: q in s.proxies && q !in s.dying && q != p ==> 0 < s.refs[q])
  }

  ghost predicate BaseOf(s: State, p: ProxyId, b: Addr) {
    p in s.proxies && s.proxies[p].ptr == b && b in s.index && s.index[b] == p
  }

  lemma StartDyingStep(s: State, p: ProxyId)
    requires ReadyToDie(s, p) && !IsBase(s, p)
    ensures Mid(StartDying(s, p)) && Evolves(s, StartDying(s, p))
  {
    StartDyingIndex(s, p);
    StartDyingEntries(s, p);
    StartDyingSupport(s, p);
    StartDyingShrinks(s, p);
    hide CountOk, IndexOk, EntriesOk, BlocksOk, LedgerOk, OwnersOk, DyingOk, Positive, IsBase, SelfSupporting;
    hide Shrinks, BlocksShrink, LedgerMoves, EntriesShrink, Tally;
  }

  lemma StartDyingShrinks(s: State, p: ProxyId)
    requires ReadyToDie(s, p)
    ensures var t := StartDying(s, p);
      && CountOk(t) && LedgerOk(t) && OwnersOk(t) && DyingOk(t) && Positive(t)
      && Shrinks(s, t) && BlocksShrink(s, t) && LedgerMoves(s, t) && EntriesShrink(s, t)
  {
    hide Tally, IndexOk, EntriesOk, BlocksOk;
  }

  lemma StartDyingIndex(s: State, p: ProxyId)
    requires IndexOk(s) && p in s.proxies && !IsBase(s, p)
    ensures IndexOk(StartDying(s, p))
  {
  }

  lemma StartDyingEntries(s: State, p: ProxyId)
    requires CountOk(s) && EntriesOk(s) && p in s.proxies && s.refs[p] == 0
    ensures EntriesOk(StartDying(s, p))
  {
    NoCountNoEntry(s, p);
    forall l | l in s.pointing ensures EntryOk(StartDying(s, p), l) { assert EntryOk(s, l); }
  }

  lemma StartDyingSupport(s: State, p: ProxyId)
    requires CountOk(s) && p in s.proxies && s.refs[p] == 0
    ensures forall K :: SelfSupporting(s, K) ==> SelfSupporting(StartDying(s, p), K)
  {
    NoCountNoSupport(s, p);
    hide CountOk;
    forall K | SelfSupporting(s, K) ensures SelfSupporting(StartDying(s, p), K) {
      forall k | k in K ensures Supported(StartDying(s, p), k, K) { assert Supported(s, k, K); }
    }
  }

  lemma GiveUpStep(s: State, p: ProxyId, b: Addr)
    requires ReadyToDie(s, p) && BaseOf(s, p, b)
    ensures b in s.blocks && Mid(GiveUp(s, p, b)) && Evolves(s, GiveUp(s, p, b))
  {
    GiveUpIndex(s, p, b);
    GiveUpEntries(s, p, b);
    GiveUpBlocks(s.blocks, b);
    GiveUpOwners(s, p, b);
    GiveUpPositive(s, p, b);
    GiveUpShrinks(s, p, b);
    GiveUpSupport(s, p, b);
    hide CountOk, IndexOk, EntriesOk, BlocksOk, LedgerOk, OwnersOk, DyingOk, Positive, IsBase, SelfSupporting;
    hide Shrinks, BlocksShrink, LedgerMoves, EntriesShrink, Tally, BaseOf;
  }

  lemma GiveUpIndex(s: State, p: ProxyId, b: Addr)
    requires IndexOk(s) && BaseOf(s, p, b) && p !in s.dying
    ensures b in s.blocks && s.blocks[b].python && IndexOk(GiveUp(s, p, b))
  {
  }

  lemma GiveUpEntries(s: State, p: ProxyId, b: Addr)
    requires CountOk(s) && EntriesOk(s) && BaseOf(s, p, b) && s.refs[p] == 0 && b in s.blocks
    ensures EntriesOk(GiveUp(s, p, b))
  {
    NoCountNoEntry(s, p);
    hide CountOk;
    forall l | l in s.pointing ensures EntryOk(GiveUp(s, p, b), l) { assert EntryOk(s, l); }
  }

  lemma GiveUpBlocks(blocks: map<Addr, Block>, b: Addr)
    requires BlocksOk(blocks) && b in blocks
    ensures BlocksOk(blocks[b := blocks[b].(python := false)])
  {
    var after := blocks[b := blocks[b].(python := false)];
    forall c, d | c in after && d in after ensures Apart(c, after[c].size, d, after[d].size) {
      assert Apart(c, blocks[c].size, d, blocks[d].size);
    }
    forall c | c in after ensures BlockOk(c, after[c]) { assert BlockOk(c, blocks[c]); }
  }

  lemma GiveUpOwners(s: State, p: ProxyId, b: Addr)
    requires OwnersOk(s) && LedgerOk(s) && CountOk(s) && b in s.blocks && s.blocks[b].python
    ensures OwnersOk(GiveUp(s, p, b)) && LedgerOk(GiveUp(s, p, b)) && CountOk(GiveUp(s, p, b))
  {
    hide Refs;
  }

  lemma GiveUpPositive(s: State, p: ProxyId, b: Addr)
    requires ReadyToDie(s, p) && b in s.blocks
    ensures DyingOk(GiveUp(s, p, b)) && Positive(GiveUp(s, p, b))
  {
    hide Tally, IndexOk, EntriesOk, BlocksOk, LedgerOk, OwnersOk;
  }

  lemma GiveUpShrinks(s: State, p: ProxyId, b: Addr)
    requires CountOk(s) && p in s.proxies && s.refs[p] == 0 && b in s.blocks
    ensures var t := GiveUp(s, p, b);
      Shrinks(s, t) && BlocksShrink(s, t) && LedgerMoves(s, t) && EntriesShrink(s, t)
  {
    hide Tally;
  }

  lemma GiveUpSupport(s: State, p: ProxyId, b: Addr)
    requires CountOk(s) && BaseOf(s, p, b) && s.refs[p] == 0 && b in s.blocks
    ensures forall K :: SelfSupporting(s, K) ==> SelfSupporting(GiveUp(s, p, b), K)
  {
    NoCountNoSupport(s, p);
    var t := GiveUp(s, p, b);
    hide CountOk;
    forall K | SelfSupporting(s, K) ensures SelfSupporting(t, K) {
      forall k | k in K ensures Supported(t, k, K) { assert Supported(s, k, K); }
    }
  }

  lemma DropOneCounts(s: State, p: ProxyId)
    requires CountOk(s) && p in s.handles && 0 < s.handles[p]
    ensures 0 < s.refs[p] && DropOne(s, p).refs == s.refs[p := s.refs[p] - 1]
  {
    hide Refs;
  }

  /** Giving back a reference breaks nothing but, perhaps, positivity of that one count. */
  lemma DropOneStep(s: State, p: ProxyId)
    requires Mid(s) && p in s.handles && 0 < s.handles[p]
    ensures Raw(DropOne(s, p)) && OwnersOk(DropOne(s, p))
    ensures DropOne(s, p).refs[p] == 0 ==> ReadyToDie(DropOne(s, p), p)
    ensures DropOne(s, p).refs[p] != 0 ==> Positive(DropOne(s, p))
  {
    hide Tally, IndexOk, EntriesOk, BlocksOk, LedgerOk, OwnersOk;
    DropOneCounts(s, p);
    HandlesStep(s, DropOne(s, p));
  }

  /** What the index, the entries and the blocks say does not depend on counts. */
  lemma HandlesStep(s: State, t: State)
    requires t == s.(handles := t.handles, refs := t.refs)
    requires IndexOk(s) && EntriesOk(s) && BlocksOk(s.blocks) && LedgerOk(s) && OwnersOk(s)
    ensures IndexOk(t) && EntriesOk(t) && BlocksOk(t.blocks) && LedgerOk(t) && OwnersOk(t)
  {
    hide BlocksOk, Apart, BlockOk;
    forall l | l in t.pointing ensures EntryOk(t, l) { assert EntryOk(s, l); }
  }

  lemma FewerEntriesStep(s: State, t: State)
    requires t == s.(pointing := t.pointing, handles := t.handles, refs := t.refs)
    requires forall l :: l in t.pointing ==> l in s.pointing && t.pointing[l] == s.pointing[l]
    requires IndexOk(s) && EntriesOk(s) && BlocksOk(s.blocks) && LedgerOk(s) && OwnersOk(s)
    ensures IndexOk(t) && EntriesOk(t) && BlocksOk(t.blocks) && LedgerOk(t) && OwnersOk(t)
  {
    hide BlocksOk, Apart, BlockOk;
    forall l | l in t.pointing ensures EntryOk(t, l) { assert EntryOk(s, l); }
  }

  lemma TakeOverCounts(s: State, l: Loc)
    requires CountOk(s) && l in s.pointing && s.pointing[l] in s.proxies
    ensures CountOk(TakeOver(s, l))
  {
    var t := TakeOver(s, l);
    forall p | p in s.proxies ensures Tally(t.proxies.Keys, t.handles, t.pointing)[p] == s.refs[p] { RefsRemove(s.pointing, l, p); }
  }

  lemma TakeOverStep(s: State, l: Loc)
    requires Mid(s) && l in s.pointing
    ensures s.pointing[l] in s.handles && s.pointing[l] !in s.dying && Mid(TakeOver(s, l))
    ensures DropOne(TakeOver(s, l), s.pointing[l]) == Unlink(s, l)
  {
    hide IndexOk, EntriesOk, BlocksOk, LedgerOk, OwnersOk, Tally, EntryOk;
    EntryTarget(s, l);
    var t := TakeOver(s, l);
    TakeOverCounts(s, l);
    FewerEntriesStep(s, t);
    assert DropOne(t, s.pointing[l]).handles == s.handles;
  }

  lemma EntryTarget(s: State, l: Loc)
    requires EntriesOk(s) && l in s.pointing
    ensures s.pointing[l] in s.proxies && s.pointing[l] !in s.dying
  {
    assert EntryOk(s, l);
  }

  /** Entries of storage that is going away are removed without touching anything that is kept. */
  lemma UnlinkDead(s: State, l: Loc)
    requires CountOk(s) && l in s.pointing && !Lives(s, l)
    ensures Evolves(s, Unlink(s, l))
  {
    hide Tally;
    var t := Unlink(s, l);
    forall K | SelfSupporting(s, K) ensures SelfSupporting(t, K) {
      assert !Anchored(s, l, K);
      forall k | k in K ensures Supported(t, k, K) {
        assert Supported(s, k, K);
        if s.handles[k] == 0 {
          var m :| m in s.pointing && s.pointing[m] == k && Anchored(s, m, K);
          assert m in t.pointing && Anchored(t, m, K);
        }
      }
    }
  }

  lemma RemoveBlockStep(s: State, b: Addr)
    requires Mid(s) && b in s.freeing
    requires forall o :: Slot(b, o) !in s.pointing
    ensures Mid(RemoveBlock(s, b)) && Evolves(s, RemoveBlock(s, b))
  {
    var t := RemoveBlock(s, b);
    RemoveBlockEntries(s, b);
    RemoveBlockRest(s, b);
    RemoveBlockShrinks(s, b);
    RemoveBlockSupport(s, b);
    hide CountOk, IndexOk, EntriesOk, BlocksOk, LedgerOk, OwnersOk, DyingOk, Positive, IsBase, SelfSupporting;
    hide Shrinks, BlocksShrink, LedgerMoves, EntriesShrink, Tally;
  }

  lemma RemoveBlockEntries(s: State, b: Addr)
    requires EntriesOk(s) && IndexOk(s) && b in s.blocks && !s.blocks[b].python
    requires forall o :: Slot(b, o) !in s.pointing
    ensures EntriesOk(RemoveBlock(s, b))
  {
    forall l | l in s.pointing ensures EntryOk(RemoveBlock(s, b), l) { assert EntryOk(s, l); }
  }

  lemma RemoveBlockRest(s: State, b: Addr)
    requires Mid(s) && b in s.freeing
    requires forall o :: Slot(b, o) !in s.pointing
    ensures b in s.blocks && !s.blocks[b].python
    ensures var t := RemoveBlock(s, b);
      CountOk(t) && IndexOk(t) && BlocksOk(t.blocks) && LedgerOk(t) && OwnersOk(t) && DyingOk(t) && Positive(t)
  {
    hide EntriesOk, Tally, BlocksOk, Positive;
    RemoveBlockBlocks(s, b);
    RemoveBlockPositive(s, b);
  }

  lemma RemoveBlockBlocks(s: State, b: Addr)
    requires BlocksOk(s.blocks)
    ensures BlocksOk(RemoveBlock(s, b).blocks)
  {
    var t := RemoveBlock(s, b).blocks;
    forall c, d | c in t && d in t ensures Apart(c, t[c].size, d, t[d].size) {
      assert Apart(c, s.blocks[c].size, d, s.blocks[d].size);
    }
    forall c | c in t ensures BlockOk(c, t[c]) { assert BlockOk(c, s.blocks[c]); }
  }

  lemma RemoveBlockPositive(s: State, b: Addr)
    requires Positive(s)
    ensures Positive(RemoveBlock(s, b))
  {
  }

  lemma RemoveBlockShrinks(s: State, b: Addr)
    requires Mid(s) && b in s.freeing
    requires forall o :: Slot(b, o) !in s.pointing
    ensures var t := RemoveBlock(s, b);
      Shrinks(s, t) && BlocksShrink(s, t) && LedgerMoves(s, t) && EntriesShrink(s, t)
  {
    hide EntriesOk, Tally, BlocksOk;
  }

  lemma RemoveBlockSupport(s: State, b: Addr)
    requires b in s.freeing
    ensures forall K :: SelfSupporting(s, K) ==> SelfSupporting(RemoveBlock(s, b), K)
  {
    forall K | SelfSupporting(s, K) ensures SelfSupporting(RemoveBlock(s, b), K) {
      forall k | k in K ensures Supported(RemoveBlock(s, b), k, K) { assert Supported(s, k, K); }
    }
  }

  lemma RemoveIndexStep(s: State, a: Addr)
    requires Mid(s) && a in s.index && s.index[a] in s.dying
    ensures Mid(RemoveIndex(s, a)) && Evolves(s, RemoveIndex(s, a))
  {
    var t := RemoveIndex(s, a);
    RemoveIndexEntries(s, a);
    RemoveIndexRest(s, a);
    RemoveIndexShrinks(s, a);
    RemoveIndexSupport(s, a);
    hide CountOk, IndexOk, EntriesOk, BlocksOk, LedgerOk, OwnersOk, DyingOk, Positive, IsBase, SelfSupporting;
    hide Shrinks, BlocksShrink, LedgerMoves, EntriesShrink, Tally;
  }

  lemma RemoveIndexEntries(s: State, a: Addr)
    requires EntriesOk(s) && a in s.index && s.index[a] in s.dying
    ensures EntriesOk(RemoveIndex(s, a))
  {
    forall l | l in s.pointing ensures EntryOk(RemoveIndex(s, a), l) { assert EntryOk(s, l); }
  }

  lemma RemoveIndexRest(s: State, a: Addr)
    requires Mid(s) && a in s.index && s.index[a] in s.dying
    ensures var t := RemoveIndex(s, a);
      CountOk(t) && IndexOk(t) && LedgerOk(t) && OwnersOk(t) && DyingOk(t) && Positive(t)
  {
    hide EntriesOk, BlocksOk, Tally;
  }

  lemma RemoveIndexShrinks(s: State, a: Addr)
    requires Mid(s) && a in s.index && s.index[a] in s.dying
    ensures var t := RemoveIndex(s, a);
      Shrinks(s, t) && BlocksShrink(s, t) && LedgerMoves(s, t) && EntriesShrink(s, t)
  {
    hide EntriesOk, Tally, BlocksOk;
  }

  lemma RemoveIndexSupport(s: State, a: Addr)
    requires a in s.index && s.index[a] in s.dying
    ensures forall K :: SelfSupporting(s, K) ==> SelfSupporting(RemoveIndex(s, a), K)
  {
    forall K | SelfSupporting(s, K) ensures SelfSupporting(RemoveIndex(s, a), K) {
      forall k | k in K ensures Supported(RemoveIndex(s, a), k, K) { assert Supported(s, k, K); }
    }
  }

  lemma RemoveProxyStep(s: State, p: ProxyId)
    requires Mid(s) && p in s.dying && PtrField(p) !in s.pointing
    requires forall a :: a in s.index ==> s.index[a] != p
    ensures Mid(RemoveProxy(s, p)) && Evolves(s, RemoveProxy(s, p))
  {
    var t := RemoveProxy(s, p);
    NoCountNoEntry(s, p);
    RemoveProxyEntries(s, p);
    RemoveProxyRest(s, p);
    RemoveProxyShrinks(s, p);
    RemoveProxySupport(s, p);
    hide CountOk, IndexOk, EntriesOk, BlocksOk, LedgerOk, OwnersOk, DyingOk, Positive, IsBase, SelfSupporting;
    hide Shrinks, BlocksShrink, LedgerMoves, EntriesShrink, Tally;
  }

  lemma RemoveProxyEntries(s: State, p: ProxyId)
    requires EntriesOk(s) && PtrField(p) !in s.pointing
    requires forall l :: l in s.pointing ==> s.pointing[l] != p
    ensures EntriesOk(RemoveProxy(s, p))
  {
    forall l | l in s.pointing ensures EntryOk(RemoveProxy(s, p), l) { assert EntryOk(s, l); }
  }

  lemma RemoveProxyRest(s: State, p: ProxyId)
    requires Mid(s) && p in s.dying && PtrField(p) !in s.pointing
    requires forall a :: a in s.index ==> s.index[a] != p
    ensures var t := RemoveProxy(s, p);
      CountOk(t) && IndexOk(t) && LedgerOk(t) && OwnersOk(t) && DyingOk(t) && Positive(t)
  {
    hide EntriesOk, BlocksOk, IndexOk, CountOk, Refs;
    RemoveProxyCounts(s, p);
    RemoveProxyIndex(s, p);
  }

  lemma RemoveProxyCounts(s: State, p: ProxyId)
    requires CountOk(s)
    ensures CountOk(RemoveProxy(s, p))
  {
    hide Refs;
  }

  lemma RemoveProxyIndex(s: State, p: ProxyId)
    requires IndexOk(s) && forall a :: a in s.index ==> s.index[a] != p
    ensures IndexOk(RemoveProxy(s, p))
  {
  }

  lemma RemoveProxyShrinks(s: State, p: ProxyId)
    requires Mid(s) && p in s.dying && PtrField(p) !in s.pointing
    requires forall a :: a in s.index ==> s.index[a] != p
    ensures var t := RemoveProxy(s, p);
      Shrinks(s, t) && BlocksShrink(s, t) && LedgerMoves(s, t) && EntriesShrink(s, t)
  {
    hide EntriesOk, Tally, BlocksOk;
  }

  lemma RemoveProxySupport(s: State, p: ProxyId)
    requires p in s.dying
    ensures forall K :: SelfSupporting(s, K) ==> SelfSupporting(RemoveProxy(s, p), K)
  {
    forall K | SelfSupporting(s, K) ensures SelfSupporting(RemoveProxy(s, p), K) {
      forall k | k in K ensures Supported(RemoveProxy(s, p), k, K) { assert Supported(s, k, K); }
    }
  }
}
