/** The operations between which the invariant holds, as functions on the state. */
module ProxyOps {
  import opened ProxyState
  import opened Cascade
  import opened Reclamation

  // ----- Building blocks -----

  function AddHandle(s: State, p: ProxyId): State
    requires p in s.refs && p in s.handles
  {
    s.(refs := s.refs[p := s.refs[p] + 1], handles := s.handles[p := s.handles[p] + 1])
  }

  /** A new proxy object, held by whoever asked for it. */
  function NewProxy(s: State, p: ProxyId, ptr: Addr, ptype: ProxyType): State {
    s.(proxies := s.proxies[p := Proxy(ptr, ptype)], refs := s.refs[p := 1], handles := s.handles[p := 1],
       tracked := s.tracked - {PtrField(p)})
  }

  /** Proxy_Register: index the proxy and give its block a second owner. */
  function Register(s: State, p: ProxyId, b: Addr): State
    requires b in s.blocks
  {
    s.(index := s.index[b := p], blocks := s.blocks[b := s.blocks[b].(python := true)])
  }

  /** Proxy_AddRefTo */
  function Link(s: State, l: Loc, q: ProxyId): State
    requires q in s.refs
  {
    s.(pointing := s.pointing[l := q], refs := s.refs[q := s.refs[q] + 1], tracked := s.tracked + {l})
  }

  function NewBlock(s: State, b: Addr, block: Block, content: map<Loc, Addr>): State {
    s.(blocks := s.blocks[b := block], acquired := s.acquired + multiset{b},
       mem := s.mem + content,
       tracked := s.tracked - (set l | l in s.tracked && l.Slot? && l.block == b))
  }

  function Disown(s: State, b: Addr): State
    requires b in s.blocks
  {
    s.(blocks := s.blocks[b := s.blocks[b].(manual := false)])
  }

  function Poke(s: State, l: Loc, v: Addr): State {
    s.(mem := s.mem[l := v], tracked := s.tracked - {l})
  }

  // ----- Releasing references -----

  /** Py_DECREF from Python code */
  ghost function Drop(s: State, p: ProxyId): State
    requires s.handles.Keys == s.proxies.Keys && p in s.handles && 0 < s.handles[p]
  {
    Reclaim(DropOne(s, p))
  }

  /** proxy_delref */
  ghost function Forget(s: State, l: Loc): State
    requires s.handles.Keys == s.proxies.Keys
  {
    if l in s.pointing then Reclaim(Unlink(s, l)) else s
  }

  /** free, called by C code */
  ghost function FreeByC(s: State, b: Addr): State
    requires s.handles.Keys == s.proxies.Keys && b in s.blocks
  {
    Reclaim(Disown(s, b))
  }

  lemma DropInv(s: State, p: ProxyId)
    requires Inv(s) && p in s.handles && 0 < s.handles[p]
    ensures Inv(Drop(s, p))
  {
    DropOneStep(s, p);
    ReclaimInv(DropOne(s, p));
    hide Inv, Mid, Raw, Reclaim;
  }

  lemma UnlinkRaw(s: State, l: Loc)
    requires Inv(s) && l in s.pointing
    ensures Raw(Unlink(s, l)) && Quiet(Unlink(s, l))
  {
    TakeOverStep(s, l);
    DropOneStep(TakeOver(s, l), s.pointing[l]);
    hide Raw, Mid;
  }

  lemma ForgetInv(s: State, l: Loc)
    requires Inv(s)
    ensures Inv(Forget(s, l))
  {
    if l in s.pointing {
      UnlinkRaw(s, l);
      ReclaimInv(Unlink(s, l));
    }
    hide Inv, Mid, Raw, Reclaim, Unlink;
  }

  lemma DisownRaw(s: State, b: Addr)
    requires Inv(s) && b in s.blocks
    ensures Raw(Disown(s, b)) && Quiet(Disown(s, b))
  {
    hide IndexOk, EntriesOk, BlocksOk, LedgerOk, Tally, OwnersOk, Positive;
    EntriesPersist(s, Disown(s, b));
    FlagsOnly(s, Disown(s, b));
    DisownIndex(s, b);
  }

  lemma DisownIndex(s: State, b: Addr)
    requires IndexOk(s) && b in s.blocks
    ensures IndexOk(Disown(s, b))
  {
  }

  lemma FreeByCInv(s: State, b: Addr)
    requires Inv(s) && b in s.blocks
    ensures Inv(FreeByC(s, b))
  {
    DisownRaw(s, b);
    ReclaimInv(Disown(s, b));
    hide Inv, Mid, Raw, Reclaim;
  }

  // ----- Adding references -----

  /** Additions leave the entries that were there in order. */
  lemma EntriesPersist(s: State, t: State)
    requires EntriesOk(s) && t.pointing == s.pointing && t.dying == s.dying
    requires forall p :: p in s.proxies ==> p in t.proxies && t.proxies[p] == s.proxies[p]
    requires forall a :: a in s.index ==> a in t.index && t.index[a] == s.index[a]
    requires forall b :: b in s.blocks ==>
      b in t.blocks && t.blocks[b].size == s.blocks[b].size && t.blocks[b].slots == s.blocks[b].slots
    requires forall l :: l in s.pointing && l in s.mem ==> l in t.mem && t.mem[l] == s.mem[l]
    ensures EntriesOk(t)
  {
    forall l | l in t.pointing ensures EntryOk(t, l) { assert EntryOk(s, l); }
  }

  /** Changing owners changes neither the layout of memory nor the ledger. */
  lemma FlagsOnly(s: State, t: State)
    requires BlocksOk(s.blocks) && LedgerOk(s) && t.blocks.Keys == s.blocks.Keys
    requires t.acquired == s.acquired && t.released == s.released
    requires forall b :: b in s.blocks ==>
      && t.blocks[b] == s.blocks[b].(manual := t.blocks[b].manual, python := t.blocks[b].python)
      && (t.blocks[b].python && !s.blocks[b].python ==> s.blocks[b].managed && s.blocks[b].ptype.Some?)
    ensures BlocksOk(t.blocks) && LedgerOk(t)
  {
    assert LedgerOk(t) by { hide BlocksOk; }
    forall c, d | c in t.blocks && d in t.blocks ensures Apart(c, t.blocks[c].size, d, t.blocks[d].size) {
      assert Apart(c, s.blocks[c].size, d, s.blocks[d].size);
    }
    forall c | c in t.blocks ensures BlockOk(c, t.blocks[c]) { assert BlockOk(c, s.blocks[c]); }
  }

  lemma AddHandleInv(s: State, p: ProxyId)
    requires Inv(s) && p in s.proxies
    ensures p in s.refs && p in s.handles && Inv(AddHandle(s, p))
  {
    hide IndexOk, EntriesOk, BlocksOk, LedgerOk, OwnersOk, CountOk;
    AddHandleCounts(s, p);
    AddHandlePositive(s, p);
    HandlesStep(s, AddHandle(s, p));
  }

  lemma AddHandleCounts(s: State, p: ProxyId)
    requires CountOk(s) && p in s.proxies
    ensures p in s.refs && p in s.handles && CountOk(AddHandle(s, p))
  {
    hide Refs;
    var t := AddHandle(s, p);
    assert t.refs == Tally(t.proxies.Keys, t.handles, t.pointing);
  }

  lemma AddHandlePositive(s: State, p: ProxyId)
    requires Positive(s) && s.dying == {} && p in s.refs && p in s.handles
    ensures Positive(AddHandle(s, p)) && DyingOk(AddHandle(s, p))
  {
  }

  lemma NoEntryNames(s: State, p: ProxyId)
    requires EntriesOk(s) && p !in s.proxies
    ensures Refs(s.pointing, p) == {} && PtrField(p) !in s.pointing
  {
    forall l | l in s.pointing ensures s.pointing[l] != p && l != PtrField(p) { assert EntryOk(s, l); }
  }

  lemma NewProxyCounts(s: State, p: ProxyId, ptr: Addr, ptype: ProxyType)
    requires CountOk(s) && EntriesOk(s) && p !in s.proxies
    ensures CountOk(NewProxy(s, p, ptr, ptype))
  {
    hide EntriesOk, Refs;
    NoEntryNames(s, p);
    var t := NewProxy(s, p, ptr, ptype);
    assert t.refs == Tally(t.proxies.Keys, t.handles, t.pointing);
  }

  lemma NewProxyIndex(s: State, p: ProxyId, ptr: Addr, ptype: ProxyType)
    requires IndexOk(s) && p !in s.proxies
    ensures IndexOk(NewProxy(s, p, ptr, ptype))
  {
  }

  lemma NewProxyInv(s: State, p: ProxyId, ptr: Addr, ptype: ProxyType)
    requires Inv(s) && p !in s.proxies
    ensures Inv(NewProxy(s, p, ptr, ptype))
  {
    hide CountOk, IndexOk, EntriesOk, BlocksOk, LedgerOk, OwnersOk;
    var t := NewProxy(s, p, ptr, ptype);
    NewProxyCounts(s, p, ptr, ptype);
    NewProxyIndex(s, p, ptr, ptype);
    EntriesPersist(s, t);
    FlagsOnly(s, t);
    FlagsOwners(s, t);
  }

  lemma FlagsOwners(s: State, t: State)
    requires OwnersOk(s) && t.blocks == s.blocks && t.freeing == s.freeing
    ensures OwnersOk(t)
  {
  }

  lemma RegisterIndex(s: State, p: ProxyId, b: Addr)
    requires IndexOk(s) && s.dying == {} && p in s.proxies && s.proxies[p].ptr == b && b in s.blocks && b !in s.index
    ensures IndexOk(Register(s, p, b))
  {
  }

  lemma RegisterInv(s: State, p: ProxyId, b: Addr)
    requires Inv(s) && p in s.proxies && s.proxies[p].ptr == b && b in s.blocks && b !in s.index
    requires s.blocks[b].managed && s.blocks[b].ptype.Some?
    ensures Inv(Register(s, p, b))
  {
    hide IndexOk, EntriesOk, BlocksOk, LedgerOk, Tally;
    var t := Register(s, p, b);
    RegisterIndex(s, p, b);
    EntriesPersist(s, t);
    FlagsOnly(s, t);
  }

  /** `l` holds an address of the block of the registered base `q`. */
  ghost predicate PointsInto(s: State, l: Loc, q: ProxyId) {
    && IsBase(s, q)
    && match l
       case Slot(b, o) =>
         && b in s.blocks && o in s.blocks[b].slots
         && l in s.mem && (s.mem[l] == 0 || Inside(s, s.proxies[q].ptr, s.mem[l]))
       case PtrField(p) =>
         p in s.proxies && Spans(s, s.proxies[q].ptr, s.proxies[p].ptr)
  }

  lemma LinkCounts(s: State, l: Loc, q: ProxyId)
    requires CountOk(s) && l !in s.pointing && q in s.proxies
    ensures q in s.refs && CountOk(Link(s, l, q))
  {
    var t := Link(s, l, q);
    forall p | p in s.proxies ensures Tally(t.proxies.Keys, t.handles, t.pointing)[p] == t.refs[p] {
      RefsAdd(s.pointing, l, q, p);
    }
  }

  lemma LinkEntries(s: State, l: Loc, q: ProxyId)
    requires EntriesOk(s) && s.dying == {} && q in s.refs && PointsInto(s, l, q)
    ensures EntriesOk(Link(s, l, q))
  {
    forall k | k in Link(s, l, q).pointing ensures EntryOk(Link(s, l, q), k) {
      if k != l { assert EntryOk(s, k); }
    }
  }

  lemma LinkInv(s: State, l: Loc, q: ProxyId)
    requires Inv(s) && l !in s.pointing && PointsInto(s, l, q)
    ensures q in s.refs && Inv(Link(s, l, q))
  {
    hide CountOk, EntriesOk, IndexOk, BlocksOk, LedgerOk, Tally;
    LinkCounts(s, l, q);
    LinkEntries(s, l, q);
    LinkIndex(s, l, q);
    FlagsOnly(s, Link(s, l, q));
    LinkPositive(s, l, q);
  }

  lemma LinkIndex(s: State, l: Loc, q: ProxyId)
    requires IndexOk(s) && q in s.refs
    ensures IndexOk(Link(s, l, q))
  {
  }

  lemma LinkPositive(s: State, l: Loc, q: ProxyId)
    requires Positive(s) && s.dying == {} && q in s.refs
    ensures Positive(Link(s, l, q)) && DyingOk(Link(s, l, q))
  {
  }

  lemma PokeInv(s: State, l: Loc, v: Addr)
    requires Inv(s) && l !in s.pointing
    ensures Inv(Poke(s, l, v))
  {
    hide IndexOk, EntriesOk, BlocksOk, LedgerOk, Tally, OwnersOk;
    var t := Poke(s, l, v);
    EntriesPersist(s, t);
    FlagsOnly(s, t);
    FlagsOwners(s, t);
    PokeIndex(s, l, v);
  }

  lemma PokeIndex(s: State, l: Loc, v: Addr)
    requires IndexOk(s)
    ensures IndexOk(Poke(s, l, v))
  {
  }

  /** What malloc and the calls that give the new memory a type may be relied on for. */
  ghost predicate FreshBlock(s: State, b: Addr, block: Block, content: map<Loc, Addr>) {
    && BlockOk(b, block) && block.manual && !block.python
    && (forall c :: c in s.blocks ==> b != c && Apart(b, block.size, c, s.blocks[c].size))
    && (forall l :: l in content <==> l.Slot? && l.block == b && l.offset in block.slots)
  }

  lemma NewBlockEntries(s: State, b: Addr, block: Block, content: map<Loc, Addr>)
    requires EntriesOk(s) && FreshBlock(s, b, block, content)
    ensures EntriesOk(NewBlock(s, b, block, content))
  {
    forall l | l in s.pointing && l in s.mem ensures l !in content { assert EntryOk(s, l); }
    EntriesPersist(s, NewBlock(s, b, block, content));
  }

  lemma NewBlockBlocks(s: State, b: Addr, block: Block, content: map<Loc, Addr>)
    requires BlocksOk(s.blocks) && FreshBlock(s, b, block, content)
    ensures BlocksOk(NewBlock(s, b, block, content).blocks)
  {
    var t := NewBlock(s, b, block, content).blocks;
    forall c, d | c in t && d in t ensures Apart(c, t[c].size, d, t[d].size) {
      if c != b && d != b { assert Apart(c, s.blocks[c].size, d, s.blocks[d].size); }
    }
    forall c | c in t ensures BlockOk(c, t[c]) { if c != b { assert BlockOk(c, s.blocks[c]); } }
  }

  lemma NewBlockRest(s: State, b: Addr, block: Block, content: map<Loc, Addr>)
    requires IndexOk(s) && LedgerOk(s) && OwnersOk(s) && Quiet(s) && FreshBlock(s, b, block, content)
    ensures var t := NewBlock(s, b, block, content); IndexOk(t) && LedgerOk(t) && OwnersOk(t)
  {
  }

  lemma NewBlockInv(s: State, b: Addr, block: Block, content: map<Loc, Addr>)
    requires Inv(s) && FreshBlock(s, b, block, content)
    ensures Inv(NewBlock(s, b, block, content))
  {
    hide IndexOk, EntriesOk, BlocksOk, LedgerOk, Tally, OwnersOk, FreshBlock;
    NewBlockEntries(s, b, block, content);
    NewBlockBlocks(s, b, block, content);
    NewBlockRest(s, b, block, content);
  }
}
