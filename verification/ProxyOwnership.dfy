/** Who keeps a block or a proxy alive: consequences of the operations of the runtime. */
module ProxyOwnership {
  import opened Common
  import opened ProxyState
  import opened Cascade
  import opened Reclamation
  import opened ProxyOps
  import opened ProxyApi
  import opened ProxyCollector
  import opened ProxyRuns

  // ----- Two owners -----

  /** Releasing references never takes C's ownership away, and a block goes only
      when C does not own it and its base proxy, if any, is gone. */
  ghost predicate FreesFairly(s: State, t: State) {
    && t.proxies.Keys <= s.proxies.Keys && t.blocks.Keys <= s.blocks.Keys
    && (forall a :: a in s.index && s.index[a] in t.proxies ==> a in t.index && t.index[a] == s.index[a])
    && (forall b :: b in s.blocks && b in t.blocks ==> t.blocks[b].manual == s.blocks[b].manual)
    && (forall b :: b in s.blocks && b !in t.blocks ==>
          !s.blocks[b].manual && (b in s.index ==> s.index[b] !in t.proxies))
  }

  lemma ReclaimFair(s: State)
    requires s.handles.Keys == s.proxies.Keys
    ensures FreesFairly(s, Reclaim(s))
  {
    hide Tally, Anchored;
  }

  lemma FairTrans(s: State, t: State, u: State)
    requires FreesFairly(s, t) && FreesFairly(t, u)
    ensures FreesFairly(s, u)
  {
  }

  lemma {:induction false} CollectFair(s: State, order: seq<ProxyId>)
    requires Inv(s)
    ensures FreesFairly(s, Collect(s, order))
  {
    hide Inv, Reclaim, Tally;
    if order != [] {
      var n := |order| - 1;
      var t := Collect(s, order[..n]);
      CollectFair(s, order[..n]);
      InvKeys(t);
      if IsBase(t, order[n]) {
        var u := Lower(t, EntriesIn(t, {order[n]}), t.handles);
        ReclaimFair(u);
        assert FreesFairly(t, u);
        FairTrans(t, u, Reclaim(u));
        FairTrans(s, t, Reclaim(u));
      }
    }
  }

  /** Whatever step is taken, a block that disappears had lost both owners: C did not own
      it, or gave it up in this very step, and no base proxy for it is left. */
  lemma OnlyUnownedBlocksAreFreed(s: State, step: Step, b: Addr)
    requires Inv(s) && Enabled(s, step) && b in s.blocks && b !in Apply(s, step).blocks
    ensures !s.blocks[b].manual || step == CFree(b)
    ensures b in s.index ==> s.index[b] !in Apply(s, step).proxies
  {
    hide Inv, FreesFairly, Forget, Drop, FreeByC, Reclaim, GetBase, Derive, Garbage, WritableSlot, FreshBlock;
    InvKeys(s);
    match step
    case CFree(c) => FreeFair(s, c); FairBlock(Disown(s, c), FreeByC(s, c), b);
    case DecRef(p) => DropFair(s, p); FairBlock(s, Drop(s, p), b);
    case WritePointer(l, v) => ForgetFair(s, l); WriteBlocks(s, l, v); FairBlock(s, Forget(s, l), b);
    case CopyPointer(dst, src) => ForgetFair(s, dst); CopyBlocks(s, dst, src); FairBlock(s, Forget(s, dst), b);
    case CollectCycles(S, order) => CollectFair(s, order); FairBlock(s, Collect(s, order), b);
    case GetOrCreateBase(a, base) => GetBaseGrows(s, a, base);
    case ProxyGetFrom(a, ptype, base, p) => GetFromGrows(s, a, ptype, base, p);
    case DecodePointer(l, accepted, ptype, base, p) => DecodeGrows(s, l, accepted, ptype, base, p);
    case TakeSlice(self, a, base, p) => SliceGrows(s, self, a, base, p);
    case _ =>
  }

  lemma FairBlock(s: State, t: State, b: Addr)
    requires FreesFairly(s, t) && b in s.blocks && b !in t.blocks
    ensures !s.blocks[b].manual && (b in s.index ==> s.index[b] !in t.proxies)
  {
  }

  lemma GetBaseGrows(s: State, a: Addr, base: ProxyId)
    requires Inv(s)
    ensures s.blocks.Keys <= GetBase(s, a, base).state.blocks.Keys
  {
  }

  lemma GetFromGrows(s: State, a: Addr, ptype: ProxyType, base: ProxyId, p: ProxyId)
    requires Inv(s) && base !in s.proxies && p !in s.proxies && p != base
    ensures s.blocks.Keys <= GetFrom(s, a, ptype, base, p).state.blocks.Keys
  {
    hide Inv, GetBase, Derive;
    GetBaseInv(s, a, base);
    GetBaseGrows(s, a, base);
    GetBaseNew(s, a, base);
    DeriveBlocks(GetBase(s, a, base), p, a, ptype);
  }

  lemma SliceGrows(s: State, self: ProxyId, a: Addr, base: ProxyId, p: ProxyId)
    requires Inv(s) && base !in s.proxies && p !in s.proxies && p != base && self in s.proxies
    ensures s.blocks.Keys <= Slice(s, self, a, base, p).state.blocks.Keys
  {
    hide Inv, GetBase, Derive;
    var addr := s.proxies[self].ptr;
    GetBaseInv(s, addr, base);
    GetBaseGrows(s, addr, base);
    GetBaseNew(s, addr, base);
    DeriveBlocks(GetBase(s, addr, base), p, a, s.proxies[self].ptype);
  }

  lemma DecodeGrows(s: State, l: Loc, accepted: set<ProxyType>, ptype: ProxyType, base: ProxyId, p: ProxyId)
    requires Inv(s) && base !in s.proxies && p !in s.proxies && p != base && l in s.mem
    ensures s.blocks.Keys <= Decode(s, l, t => t in accepted, ptype, base, p).state.blocks.Keys
  {
    hide Inv, GetBase, Derive;
    GetBaseInv(s, s.mem[l], base);
    GetBaseGrows(s, s.mem[l], base);
    GetBaseNew(s, s.mem[l], base);
    DeriveBlocks(GetBase(s, s.mem[l], base), p, s.mem[l], ptype);
  }

  lemma DeriveBlocks(o: Outcome, p: ProxyId, a: Addr, ptype: ProxyType)
    requires o.result.Some? ==>
      o.result.value in o.state.handles && 0 < o.state.handles[o.result.value]
    ensures o.result != Some(p) ==> Derive(o, p, a, ptype).blocks == o.state.blocks
  {
  }

  lemma FreeFair(s: State, c: Addr)
    requires Inv(s) && c in s.blocks
    ensures s.handles.Keys == s.proxies.Keys && FreesFairly(Disown(s, c), FreeByC(s, c))
  {
    InvKeys(s);
    ReclaimFair(Disown(s, c));
    hide Inv, Reclaim;
  }

  lemma DropFair(s: State, p: ProxyId)
    requires Inv(s) && p in s.handles && 0 < s.handles[p]
    ensures s.handles.Keys == s.proxies.Keys && FreesFairly(s, Drop(s, p))
  {
    hide Inv, Reclaim, Tally;
    InvKeys(s);
    ReclaimFair(DropOne(s, p));
  }

  lemma ForgetFair(s: State, l: Loc)
    requires Inv(s)
    ensures s.handles.Keys == s.proxies.Keys && FreesFairly(s, Forget(s, l))
  {
    hide Inv, Reclaim, Tally;
    InvKeys(s);
    if l in s.pointing { ReclaimFair(Unlink(s, l)); }
  }

  lemma WriteBlocks(s: State, l: Loc, v: Addr)
    requires s.handles.Keys == s.proxies.Keys
    ensures Write(s, l, v).blocks == Forget(s, l).blocks && Write(s, l, v).proxies == Forget(s, l).proxies
  {
    hide Forget;
  }

  lemma CopyBlocks(s: State, dst: Loc, src: Loc)
    requires s.handles.Keys == s.proxies.Keys && src in s.mem
    ensures CopySlot(s, dst, src).blocks == Forget(s, dst).blocks && CopySlot(s, dst, src).proxies == Forget(s, dst).proxies
  {
    hide Forget;
  }

  /** A block that C allocated survives C's free while its base proxy is registered. */
  lemma FreeKeepsRegisteredBlock(s: State, b: Addr)
    requires Inv(s) && b in s.index
    ensures b in s.blocks && s.handles.Keys == s.proxies.Keys
    ensures FreeByC(s, b) == Disown(s, b) && s.index[b] in FreeByC(s, b).proxies
  {
    assert b in s.blocks && s.blocks[b].python && s.index[b] in s.proxies;
    InvKeys(s);
    hide Inv;
    DisownOwned(s, b);
  }

  // ----- What a handle protects -----

  /** C's free releases the block, once, exactly if no base proxy is registered for it. */
  lemma FreeResult(s: State, b: Addr)
    requires Inv(s) && b in s.blocks
    ensures s.handles.Keys == s.proxies.Keys
    ensures var t := FreeByC(s, b);
      && (b in t.blocks <==> b in s.index)
      && (b in t.blocks ==> !t.blocks[b].manual)
      && t.released[b] == s.released[b] + if b in s.index then 0 else 1
  {
    hide CountOk, EntriesOk, BlocksOk, LedgerOk, Positive, Tally, Alive, Anchored;
    InvKeys(s);
    if b in s.index { FreeKeepsRegisteredBlock(s, b); }
  }

  /** Dropping any reference leaves a base alive that some other handle holds, directly or
      through a derived proxy at any address, even at the base's own address. */
  lemma DropKeepsHeldBase(s: State, p: ProxyId, h: ProxyId, q: ProxyId, b: Addr)
    requires Inv(s) && p in s.handles && 0 < s.handles[p]
    requires Holds(s, h, q, b) && (h != p || 1 < s.handles[p])
    ensures s.handles.Keys == s.proxies.Keys
    ensures var t := Drop(s, p);
      q in t.proxies && b in t.index && t.index[b] == q && b in t.blocks && t.blocks[b].python
  {
    hide Inv, Reclaim, Tally;
    InvKeys(s);
    var u := DropOne(s, p);
    HoldsBase(s, q, b);
    assert s.dying == {} by { InvQuiet(s); }
    assert Holds(u, h, q, b);
    DropInv(s, p);
    HoldsSurvives(u, h, q, b);
    HoldsBase(Drop(s, p), q, b);
  }

  lemma HoldsBase(s: State, q: ProxyId, b: Addr)
    requires Inv(s) && BaseOf(s, q, b)
    ensures b in s.blocks && s.blocks[b].python
  {
  }

  /** Storing a proxy that Python holds makes the slot an entry for that proxy's base, and
      keeps its block: also when the slot held the only other reference to it. */
  lemma StoreKeepsTarget(s: State, l: Loc, h: ProxyId, q: ProxyId, b: Addr, v: Addr)
    requires Inv(s) && l.Slot? && Holds(s, h, q, b) && Inside(s, b, v)
    ensures s.handles.Keys == s.proxies.Keys
    ensures var t := Write(s, l, v);
      && b in t.blocks && b in t.index && t.index[b] == q
      && l in t.pointing && t.pointing[l] == q && l in t.mem && t.mem[l] == v
  {
    InvKeys(s);
    ForgetHolds(s, l, h, q, b);
    ForgetInv(s, l);
    var t := Forget(s, l);
    assert Inside(t, b, v) && BlocksOk(t.blocks);
    BlockAtUnique(t, b, v);
    assert q in t.refs by { InvKeys(t); }
    hide Inv, Forget;
  }

  lemma ForgetHolds(s: State, l: Loc, h: ProxyId, q: ProxyId, b: Addr)
    requires Inv(s) && l.Slot? && Holds(s, h, q, b)
    ensures s.handles.Keys == s.proxies.Keys
    ensures Holds(Forget(s, l), h, q, b)
    ensures b in s.blocks && b in Forget(s, l).blocks && Forget(s, l).blocks[b].size == s.blocks[b].size
  {
    hide Inv, Tally, Reclaim;
    InvKeys(s);
    HoldsBase(s, q, b);
    assert s.dying == {} by { InvQuiet(s); }
    if l in s.pointing {
      var u := Unlink(s, l);
      assert Holds(u, h, q, b);
      HoldsSurvives(u, h, q, b);
      ReclaimSizes(u);
    }
  }

  lemma ReclaimSizes(s: State)
    requires s.handles.Keys == s.proxies.Keys
    ensures forall b :: b in Reclaim(s).blocks ==> b in s.blocks && Reclaim(s).blocks[b].size == s.blocks[b].size
  {
  }

  // ----- Constructing and dropping again -----

  /** What a constructor leaves is owned by Python alone and held by one reference. */
  lemma ConstructedIsPythonOwned(s: State, b: Addr, block: Block, content: map<Loc, Addr>, p: ProxyId)
    requires Inv(s) && Enabled(s, Construct(b, block, content, p))
    ensures var t := Constructed(s, b, block, content, p);
      && Inv(t) && BaseOf(t, p, b) && b in t.blocks && t.blocks[b].python && !t.blocks[b].manual
      && p in t.handles && t.handles[p] == 1 && p in t.refs && t.refs[p] == 1
  {
    ConstructedInv(s, b, block, content, p);
    hide Inv, FreshBlock;
  }

  /** `u` is `s` with a new block of Python's and a proxy for it that nothing holds any more. */
  ghost predicate JustDropped(s: State, u: State, b: Addr, p: ProxyId) {
    && p !in s.proxies && b !in s.blocks && b !in s.index
    && u.proxies.Keys == s.proxies.Keys + {p} && u.proxies == s.proxies[p := u.proxies[p]]
    && u.handles == s.handles[p := 0] && u.index == s.index[b := p] && u.pointing == s.pointing
    && u.blocks.Keys == s.blocks.Keys + {b} && u.blocks == s.blocks[b := u.blocks[b]] && !u.blocks[b].manual
    && u.released == s.released && u.acquired == s.acquired + multiset{b}
    && Quiet(u) && CountOk(u)
  }

  lemma ConstructedShape(s: State, b: Addr, block: Block, content: map<Loc, Addr>, p: ProxyId)
    requires block.ptype.Some? && b !in s.blocks && p !in s.proxies
    ensures var t := Constructed(s, b, block, content, p);
      && t.proxies == s.proxies[p := Proxy(b, block.ptype.value)] && t.handles == s.handles[p := 1]
      && t.index == s.index[b := p] && t.pointing == s.pointing
      && t.blocks == s.blocks[b := block.(python := true, manual := false)]
      && t.released == s.released && t.acquired == s.acquired + multiset{b} && t.mem == s.mem + content
      && t.dying == s.dying && t.freeing == s.freeing
  {
  }

  lemma ConstructedFields(s: State, b: Addr, block: Block, content: map<Loc, Addr>, p: ProxyId)
    requires Inv(s) && Enabled(s, Construct(b, block, content, p))
    ensures var t := Constructed(s, b, block, content, p);
      && t.handles.Keys == t.proxies.Keys && p in t.handles && 0 < t.handles[p]
      && JustDropped(s, DropOne(t, p), b, p)
  {
    hide Inv, FreshBlock, Tally, BaseOf, Constructed;
    ConstructedIsPythonOwned(s, b, block, content, p);
    InvKeys(Constructed(s, b, block, content, p));
    FreshNotThere(s, b, block, content);
    ConstructedShape(s, b, block, content, p);
    assert s.dying == {} && s.freeing == {} by { InvQuiet(s); }
    assert s.handles[p := 1][p := 0] == s.handles[p := 0];
  }

  /** Dropping that reference frees the block, removes the proxy and restores every table. */
  lemma ConstructThenDrop(s: State, b: Addr, block: Block, content: map<Loc, Addr>, p: ProxyId)
    requires Inv(s) && Enabled(s, Construct(b, block, content, p))
    ensures var t := Constructed(s, b, block, content, p);
      && t.handles.Keys == t.proxies.Keys && p in t.handles && 0 < t.handles[p]
      && Restored(s, Drop(t, p), b)
  {
    hide Inv, Constructed, JustDropped, Restored, Restrict, Alive;
    ConstructedFields(s, b, block, content, p);
    var u := DropOne(Constructed(s, b, block, content, p), p);
    DroppedAlive(s, u, b, p);
    DroppedRestrict(s, u, b, p);
  }

  /** Every table of `t` is that of `s`; one more block, `b`, has come and gone. */
  ghost predicate Restored(s: State, t: State, b: Addr) {
    && t.index == s.index && t.pointing == s.pointing && t.proxies == s.proxies
    && t.refs == s.refs && t.handles == s.handles && t.blocks == s.blocks
    && t.released == s.released + multiset{b} && t.acquired == s.acquired + multiset{b}
  }

  lemma DroppedAlive(s: State, u: State, b: Addr, p: ProxyId)
    requires Inv(s) && JustDropped(s, u, b, p)
    ensures Alive(u) == s.proxies.Keys
  {
    hide Inv, CountOk, Supported;
    EverythingKept(s);
    NothingNames(s, p);
    DroppedCount(s, u, b, p);
    NoCountNoSupport(u, p);
    SettledIsSelfSupporting(s);
    SupportTransfer(s, u, s.proxies.Keys);
    AliveIsGreatest(u);
  }

  lemma DroppedCount(s: State, u: State, b: Addr, p: ProxyId)
    requires JustDropped(s, u, b, p) && Refs(s.pointing, p) == {}
    ensures p in u.refs && u.refs[p] == 0
  {
  }

  lemma NothingNames(s: State, p: ProxyId)
    requires Inv(s) && p !in s.proxies
    ensures Refs(s.pointing, p) == {}
  {
    NoEntryNames(s, p);
  }

  lemma FreshNotThere(s: State, b: Addr, block: Block, content: map<Loc, Addr>)
    requires Inv(s) && FreshBlock(s, b, block, content)
    ensures b !in s.blocks && b !in s.index
  {
  }

  lemma EverythingKept(s: State)
    requires Inv(s)
    ensures s.dying == {} && s.freeing == {} && s.handles.Keys == s.proxies.Keys && CountOk(s)
    ensures forall a :: a in s.index ==> s.index[a] in s.proxies
    ensures forall c :: c in s.blocks ==>
      Kept(s.blocks, s.index, c, s.proxies.Keys) && (s.blocks[c].python <==> c in s.index)
    ensures forall l :: l in s.pointing ==> Anchored(s, l, s.proxies.Keys)
  {
    forall l | l in s.pointing ensures Anchored(s, l, s.proxies.Keys) { EntriesAnchored(s, l); }
  }

  lemma DroppedTables(s: State, u: State, b: Addr, p: ProxyId)
    requires JustDropped(s, u, b, p) && s.handles.Keys == s.proxies.Keys
    requires forall a :: a in s.index ==> s.index[a] in s.proxies
    ensures u.handles.Keys == u.proxies.Keys
    ensures var r := Restrict(u, s.proxies.Keys);
      r.proxies == s.proxies && r.handles == s.handles && r.index == s.index
  {
    hide Tally, CountOk, Kept, Anchored, KeptBlocks, LostBlocks;
    var r := Restrict(u, s.proxies.Keys);
    assert r.proxies == s.proxies;
    assert r.handles == s.handles;
    assert r.index == s.index;
  }

  lemma DroppedEntries(s: State, u: State, b: Addr, p: ProxyId)
    requires JustDropped(s, u, b, p) && u.handles.Keys == u.proxies.Keys
    requires forall l :: l in s.pointing ==> Anchored(s, l, s.proxies.Keys)
    ensures Restrict(u, s.proxies.Keys).pointing == s.pointing
  {
    forall l | l in s.pointing ensures Anchored(u, l, s.proxies.Keys) { DroppedAnchored(s, u, b, p, l); }
    hide Tally, CountOk, Kept, Anchored, KeptBlocks, LostBlocks, KeptIndex;
  }

  lemma DroppedRestrict(s: State, u: State, b: Addr, p: ProxyId)
    requires Inv(s) && JustDropped(s, u, b, p)
    ensures u.handles.Keys == u.proxies.Keys && Restored(s, Restrict(u, s.proxies.Keys), b)
  {
    hide Inv, Tally, Kept, Anchored, KeptBlocks, LostBlocks, KeptIndex;
    EverythingKept(s);
    DroppedTables(s, u, b, p);
    DroppedEntries(s, u, b, p);
    DroppedBlocks(s.blocks, u.blocks, s.index, b, p, s.proxies.Keys);
  }

  lemma DroppedAnchored(s: State, u: State, b: Addr, p: ProxyId, l: Loc)
    requires JustDropped(s, u, b, p) && Anchored(s, l, s.proxies.Keys)
    ensures Anchored(u, l, s.proxies.Keys)
  {
  }

  lemma DroppedBlocks(blocks: map<Addr, Block>, after: map<Addr, Block>, index: map<Addr, ProxyId>,
                      b: Addr, p: ProxyId, K: set<ProxyId>)
    requires b !in blocks && b !in index && p !in K && after.Keys == blocks.Keys + {b} && !after[b].manual
    requires after == blocks[b := after[b]]
    requires forall c :: c in blocks ==> Kept(blocks, index, c, K) && (blocks[c].python <==> c in index)
    requires forall a :: a in index ==> index[a] in K
    ensures KeptBlocks(after, index[b := p], K) == blocks
    ensures LostBlocks(after, index[b := p], K) == {b}
  {
    forall c | c in blocks ensures Kept(after, index[b := p], c, K) { assert Kept(blocks, index, c, K); }
  }

  // ----- Copying structures -----

  /** A slot that C or Python keeps. */
  ghost predicate StableSlot(s: State, k: Loc) {
    k.Slot? && Secure(s, k.block) && k.offset in s.blocks[k.block].slots
  }

  /** The content and the entry of slot `k` in `t` are those of slot `j` in `s`. */
  ghost predicate SameContent(s: State, j: Loc, t: State, k: Loc) {
    && j in s.mem && k in t.mem && t.mem[k] == s.mem[j]
    && (k in t.pointing <==> j in s.pointing)
    && (j in s.pointing ==> t.pointing[k] == s.pointing[j])
  }

  lemma ForgetKeepsSlot(s: State, l: Loc, k: Loc)
    requires Inv(s) && l.Slot? && StableSlot(s, k) && k != l && k in s.mem
    ensures s.handles.Keys == s.proxies.Keys
    ensures SameContent(s, k, Forget(s, l), k) && StableSlot(Forget(s, l), k)
  {
    hide Inv, Reclaim, Tally, Secure;
    InvKeys(s);
    ForgetSecure(s, l, k.block);
    if l in s.pointing {
      var u := Unlink(s, l);
      UnlinkSlotSecure(s, l, k.block);
      assert s.dying == {} && s.freeing == {} by { InvQuiet(s); }
      StableKept(u, k);
    }
  }

  lemma StableKept(s: State, k: Loc)
    requires s.handles.Keys == s.proxies.Keys && s.dying == {} && s.freeing == {} && k.Slot? && Secure(s, k.block)
    ensures k in Reclaim(s).pointing <==> k in s.pointing
    ensures k in s.pointing ==> Reclaim(s).pointing[k] == s.pointing[k]
    ensures Reclaim(s).mem == s.mem
  {
    if !s.blocks[k.block].manual {
      var h, q :| Holds(s, h, q, k.block);
      HeldIsAlive(s, h, q, k.block);
    }
    assert Anchored(s, k, Alive(s));
  }

  /** One slot of the copy: the destination gets content and entry of the source, every
      other stable slot keeps its own. */
  lemma CopySlotEffect(s: State, dst: Loc, src: Loc, k: Loc)
    requires Inv(s) && StableSlot(s, dst) && StableSlot(s, src) && src != dst && src in s.mem
    requires StableSlot(s, k) && k != dst && k in s.mem
    ensures s.handles.Keys == s.proxies.Keys
    ensures var t := CopySlot(s, dst, src);
      && SameContent(s, src, t, dst) && SameContent(s, k, t, k)
      && StableSlot(t, k) && StableSlot(t, dst)
  {
    hide Inv, Forget, StableSlot;
    InvKeys(s);
    StableIsSlot(s, dst);
    ForgetKeepsSlot(s, dst, src);
    ForgetKeepsSlot(s, dst, k);
    ForgetTargetStable(s, dst);
    var t := Forget(s, dst);
    TargetsCounted(s, dst);
    PokeLinkStable(t, dst, s.mem[src], k);
    PokeLinkStable(t, dst, s.mem[src], dst);
  }

  lemma StableIsSlot(s: State, k: Loc)
    requires StableSlot(s, k)
    ensures k.Slot?
  {
  }

  lemma TargetsCounted(s: State, l: Loc)
    requires Inv(s)
    ensures s.handles.Keys == s.proxies.Keys
    ensures forall k :: k in Forget(s, l).pointing ==> Forget(s, l).pointing[k] in Forget(s, l).refs
  {
    hide Forget, LedgerOk, OwnersOk, BlocksOk;
    InvKeys(s);
    ForgetInv(s, l);
    var t := Forget(s, l);
    forall k | k in t.pointing ensures t.pointing[k] in t.refs { assert EntryOk(t, k); }
  }

  lemma ForgetTargetStable(s: State, l: Loc)
    requires Inv(s) && StableSlot(s, l)
    ensures s.handles.Keys == s.proxies.Keys
    ensures StableSlot(Forget(s, l), l) && l !in Forget(s, l).pointing
  {
    hide Inv, Forget, Secure;
    InvKeys(s);
    ForgetSecure(s, l, l.block);
  }

  /** Writing to a slot and adding its entry disturbs no stable slot. */
  lemma PokeLinkStable(s: State, l: Loc, v: Addr, k: Loc)
    requires StableSlot(s, k) && l.Slot?
    ensures StableSlot(Poke(s, l, v), k)
    ensures forall q :: q in s.refs ==> StableSlot(Link(Poke(s, l, v), l, q), k)
  {
    SecureSame(s, Poke(s, l, v), k.block);
    forall q | q in s.refs ensures StableSlot(Link(Poke(s, l, v), l, q), k) {
      SecureSame(s, Link(Poke(s, l, v), l, q), k.block);
    }
    hide Secure;
  }

  lemma SecureSame(s: State, t: State, b: Addr)
    requires Secure(s, b) && t.blocks == s.blocks && t.index == s.index && t.proxies == s.proxies && t.handles == s.handles
    requires forall p :: PtrField(p) in s.pointing ==> PtrField(p) in t.pointing && t.pointing[PtrField(p)] == s.pointing[PtrField(p)]
    ensures Secure(t, b)
  {
    if !s.blocks[b].manual {
      var h, q :| Holds(s, h, q, b);
      assert Holds(t, h, q, b);
    }
  }

  /** A typed memcpy, slot by slot. */
  ghost predicate CopyOk(s: State, dst: seq<Loc>, src: seq<Loc>) {
    && |dst| == |src|
    && (forall i :: 0 <= i < |dst| ==> StableSlot(s, dst[i]) && dst[i] in s.mem)
    && (forall i :: 0 <= i < |src| ==> StableSlot(s, src[i]) && src[i] in s.mem)
    && (forall i, j :: 0 <= i < |dst| && 0 <= j < |src| ==> dst[i] != src[j])
    && (forall i, j :: 0 <= i < j < |dst| ==> dst[i] != dst[j])
  }

  ghost predicate CopyDone(s: State, dst: seq<Loc>, src: seq<Loc>, n: nat, t: State)
    requires |dst| == |src| && n <= |dst|
  {
    && (forall i :: 0 <= i < n ==> SameContent(s, src[i], t, dst[i]))
    && (forall k :: StableSlot(s, k) && k in s.mem && k !in dst[..n] ==> SameContent(s, k, t, k))
    && (forall k :: StableSlot(s, k) && k in s.mem ==> StableSlot(t, k) && k in t.mem)
  }

  lemma CopyDoneStep(s: State, dst: seq<Loc>, src: seq<Loc>, n: nat, t: State)
    requires CopyOk(s, dst, src) && n < |dst| && Inv(t) && CopyDone(s, dst, src, n, t)
    ensures t.handles.Keys == t.proxies.Keys && src[n] in t.mem && StableSlot(t, dst[n])
    ensures CopyDone(s, dst, src, n + 1, CopySlot(t, dst[n], src[n]))
  {
    hide Inv, StableSlot, CopySlot;
    InvKeys(t);
    var u := CopySlot(t, dst[n], src[n]);
    CopySlotEffect(t, dst[n], src[n], src[n]);
    forall i | 0 <= i < n ensures SameContent(s, src[i], u, dst[i]) {
      CopySlotEffect(t, dst[n], src[n], dst[i]);
    }
    forall k | StableSlot(s, k) && k in s.mem && k !in dst[..n + 1] ensures SameContent(s, k, u, k) {
      assert dst[..n + 1] == dst[..n] + [dst[n]];
      CopySlotEffect(t, dst[n], src[n], k);
    }
    forall k | StableSlot(s, k) && k in s.mem ensures StableSlot(u, k) && k in u.mem {
      if k != dst[n] { CopySlotEffect(t, dst[n], src[n], k); }
    }
  }
}
