/** What the entry points of the proxy code do to the state. */
module ProxyApi {
  import opened Common
  import opened ProxyState
  import opened Cascade
  import opened Reclamation
  import opened ProxyOps

  /** `result` is None for a C function that returns NULL (or Python's None). */
  datatype Outcome = Outcome(state: State, result: Option<ProxyId>)

  // ----- Allocation queries -----

  ghost function Lookup(blocks: map<Addr, Block>, a: Addr): Option<Addr> {
    if b :| b in blocks && b <= a < b + blocks[b].size then Some(b) else None
  }

  /** __liballocs_get_alloc_info: the block that contains an address. */
  ghost function BlockAt(s: State, a: Addr): Option<Addr> {
    Lookup(s.blocks, a)
  }

  lemma BlockAtUnique(s: State, b: Addr, a: Addr)
    requires BlocksOk(s.blocks) && Inside(s, b, a)
    ensures BlockAt(s, a) == Some(b)
  {
    forall c | c in s.blocks && c <= a < c + s.blocks[c].size ensures c == b {
      assert Apart(b, s.blocks[b].size, c, s.blocks[c].size);
    }
  }

  lemma BlockAtInside(s: State, a: Addr)
    requires BlockAt(s, a).Some?
    ensures Inside(s, BlockAt(s, a).value, a)
  {
  }

  // ----- Proxies -----

  /** Whether a base proxy can be had for address `a`. */
  ghost predicate HasBase(s: State, a: Addr) {
    var b := BlockAt(s, a);
    b.Some? && s.blocks[b.value].managed && s.blocks[b.value].ptype.Some?
  }

  /** Proxy_GetOrCreateBase; `p` is the object that is created when there is no base yet. */
  ghost function GetBase(s: State, a: Addr, p: ProxyId): Outcome
    requires Inv(s)
  {
    if !HasBase(s, a) then Outcome(s, None)
    else
      var b := BlockAt(s, a).value;
      if b in s.index then Outcome(AddHandle(s, s.index[b]), Some(s.index[b]))
      else Outcome(Register(NewProxy(s, p, b, s.blocks[b].ptype.value), p, b), Some(p))
  }

  lemma GetBaseInv(s: State, a: Addr, p: ProxyId)
    requires Inv(s) && p !in s.proxies
    ensures var o := GetBase(s, a, p);
      && Inv(o.state)
      && (o.result.Some? ==>
            && IsBase(o.state, o.result.value)
            && o.result.value in o.state.handles && 0 < o.state.handles[o.result.value]
            && Inside(o.state, o.state.proxies[o.result.value].ptr, a))
  {
    hide CountOk, EntriesOk, BlocksOk, LedgerOk, OwnersOk, Positive;
    if HasBase(s, a) {
      var b := BlockAt(s, a).value;
      if b in s.index {
        AddHandleInv(s, s.index[b]);
      } else {
        NewProxyInv(s, p, b, s.blocks[b].ptype.value);
        RegisterInv(NewProxy(s, p, b, s.blocks[b].ptype.value), p, b);
      }
    }
  }

  /** The caller's reference to base `q` becomes an entry for the new proxy `p`. */
  function Trade(s: State, p: ProxyId, q: ProxyId): State
    requires q in s.handles && 0 < s.handles[q]
  {
    s.(pointing := s.pointing[PtrField(p) := q], handles := s.handles[q := s.handles[q] - 1],
       tracked := s.tracked + {PtrField(p)})
  }

  lemma DropHarmless(s: State, p: ProxyId)
    requires Inv(s) && p in s.refs && 1 < s.refs[p] && p in s.handles && 0 < s.handles[p]
    ensures Drop(s, p) == DropOne(s, p) && Inv(DropOne(s, p))
    ensures DropOne(s, p).refs == s.refs[p := s.refs[p] - 1]
  {
    hide Raw, OwnersOk, Positive, Reclaim, Evolves, Tally;
    RawParts(s);
    DropOneCounts(s, p);
    DropOneStep(s, p);
    EvolvesRefl(DropOne(s, p));
    Settle(DropOne(s, p), DropOne(s, p));
  }

  /** Proxy_AddRefTo followed by Py_DECREF of the same base. */
  lemma TradeStep(s: State, p: ProxyId, q: ProxyId)
    requires Inv(s) && PtrField(p) !in s.pointing && PointsInto(s, PtrField(p), q)
    requires q in s.handles && 0 < s.handles[q]
    ensures q in s.refs && Inv(Link(s, PtrField(p), q)) && Drop(Link(s, PtrField(p), q), q) == Trade(s, p, q)
    ensures Inv(Trade(s, p, q))
  {
    hide Inv, Drop, DropOne, Tally, PointsInto;
    PointsIntoProxy(s, PtrField(p), q);
    RefsPositive(s, q);
    LinkInv(s, PtrField(p), q);
    var t := Link(s, PtrField(p), q);
    DropHarmless(t, q);
    DropFields(t, q);
    assert DropOne(t, q).refs == s.refs;
    assert DropOne(t, q) == Trade(s, p, q);
  }

  lemma PointsIntoProxy(s: State, l: Loc, q: ProxyId)
    requires PointsInto(s, l, q)
    ensures q in s.proxies
  {
  }

  lemma DropFields(s: State, p: ProxyId)
    requires s.handles.Keys == s.proxies.Keys && p in s.handles && 0 < s.handles[p]
    ensures DropOne(s, p) == s.(handles := s.handles[p := s.handles[p] - 1], refs := DropOne(s, p).refs)
  {
    hide Tally;
  }

  lemma RefsPositive(s: State, q: ProxyId)
    requires Inv(s) && q in s.proxies
    ensures q in s.refs && 0 < s.refs[q] && s.handles.Keys == s.proxies.Keys
  {
  }

  lemma GetBaseReady(s: State, a: Addr, base: ProxyId, p: ProxyId)
    requires Inv(s) && base !in s.proxies && p !in s.proxies && p != base
    ensures var o := GetBase(s, a, base);
      o.result.Some? ==>
        && o.result.value in o.state.proxies && o.result.value != p
        && o.result.value in o.state.handles && 0 < o.state.handles[o.result.value]
  {
    hide Inv, GetBase;
    GetBaseInv(s, a, base);
    GetBaseNew(s, a, base);
  }

  /** Proxy_GetFrom */
  ghost function GetFrom(s: State, a: Addr, ptype: ProxyType, base: ProxyId, p: ProxyId): Outcome
    requires Inv(s) && base !in s.proxies && p !in s.proxies && p != base
  {
    hide Inv, GetBase;
    GetBaseReady(s, a, base, p);
    var o := GetBase(s, a, base);
    if o.result.Some? && o.state.proxies[o.result.value] == Proxy(a, ptype) then o
    else Outcome(Derive(o, p, a, ptype), Some(p))
  }

  /** A new proxy at address `a`, kept alive together with the base in `o`, if any. */
  ghost function Derive(o: Outcome, p: ProxyId, a: Addr, ptype: ProxyType): State
    requires o.result.Some? ==>
      o.result.value != p && o.result.value in o.state.handles && 0 < o.state.handles[o.result.value]
  {
    var t := NewProxy(o.state, p, a, ptype);
    if o.result.Some? then Trade(t, p, o.result.value) else t
  }

  lemma DeriveInv(o: Outcome, p: ProxyId, a: Addr, ptype: ProxyType)
    requires Inv(o.state) && p !in o.state.proxies
    requires o.result.Some? ==>
      && IsBase(o.state, o.result.value)
      && o.result.value in o.state.handles && 0 < o.state.handles[o.result.value]
      && Spans(o.state, o.state.proxies[o.result.value].ptr, a)
    ensures Inv(Derive(o, p, a, ptype))
  {
    hide CountOk, IndexOk, BlocksOk, LedgerOk, OwnersOk, Positive, DyingOk, Tally, EntryOk;
    var t := NewProxy(o.state, p, a, ptype);
    NewProxyInv(o.state, p, a, ptype);
    if o.result.Some? {
      NoEntryNames(o.state, p);
      TradeStep(t, p, o.result.value);
    }
  }

  lemma GetFromInv(s: State, a: Addr, ptype: ProxyType, base: ProxyId, p: ProxyId)
    requires Inv(s) && base !in s.proxies && p !in s.proxies && p != base
    ensures Inv(GetFrom(s, a, ptype, base, p).state)
  {
    hide Inv, Derive, IsBase;
    GetBaseInv(s, a, base);
    GetBaseNew(s, a, base);
    DeriveInv(GetBase(s, a, base), p, a, ptype);
  }

  lemma GetBaseNew(s: State, a: Addr, base: ProxyId)
    requires Inv(s)
    ensures GetBase(s, a, base).state.proxies.Keys <= s.proxies.Keys + {base}
  {
  }

  /** addrproxy_getfrom on the pointer slot `l`: the base itself when its type is
      accepted for the pointee (any type, for a pointer to void), else an address proxy. */
  ghost function Decode(s: State, l: Loc, accepted: ProxyType -> bool, ptype: ProxyType,
                        base: ProxyId, p: ProxyId): Outcome
    requires Inv(s) && base !in s.proxies && p !in s.proxies && p != base && l in s.mem
  {
    hide Inv, GetBase;
    var a := s.mem[l];
    if a == 0 then Outcome(s, None)
    else
      GetBaseReady(s, a, base, p);
      var o := GetBase(s, a, base);
      if o.result.Some? && accepted(o.state.proxies[o.result.value].ptype) then o
      else Outcome(Derive(o, p, a, ptype), Some(p))
  }

  lemma DecodeInv(s: State, l: Loc, accepted: ProxyType -> bool, ptype: ProxyType, base: ProxyId, p: ProxyId)
    requires Inv(s) && base !in s.proxies && p !in s.proxies && p != base && l in s.mem
    ensures Inv(Decode(s, l, accepted, ptype, base, p).state)
  {
    hide Inv, Derive;
    GetBaseInv(s, s.mem[l], base);
    GetBaseNew(s, s.mem[l], base);
    if s.mem[l] != 0 {
      var o := GetBase(s, s.mem[l], base);
      if !(o.result.Some? && accepted(o.state.proxies[o.result.value].ptype)) {
        DeriveInv(o, p, s.mem[l], ptype);
      }
    }
  }

  /** addrproxy_subscript with a slice; None stands for the failing assertion on the base. */
  ghost function Slice(s: State, self: ProxyId, a: Addr, base: ProxyId, p: ProxyId): Outcome
    requires Inv(s) && base !in s.proxies && p !in s.proxies && p != base && self in s.proxies
  {
    hide Inv, GetBase;
    GetBaseReady(s, s.proxies[self].ptr, base, p);
    var o := GetBase(s, s.proxies[self].ptr, base);
    if o.result.None? then o
    else Outcome(Derive(o, p, a, s.proxies[self].ptype), Some(p))
  }

  /** The slice stays within the block that `self` points into. */
  ghost predicate SliceInBlock(s: State, self: ProxyId, a: Addr)
    requires self in s.proxies
  {
    HasBase(s, s.proxies[self].ptr) ==> Spans(s, BlockAt(s, s.proxies[self].ptr).value, a)
  }

  lemma SliceInv(s: State, self: ProxyId, a: Addr, base: ProxyId, p: ProxyId)
    requires Inv(s) && base !in s.proxies && p !in s.proxies && p != base && self in s.proxies
    requires SliceInBlock(s, self, a)
    ensures Inv(Slice(s, self, a, base, p).state)
    ensures Slice(s, self, a, base, p).result.Some? <==> HasBase(s, s.proxies[self].ptr)
  {
    hide Inv, Derive, IsBase, GetBase, Inside;
    var o := GetBase(s, s.proxies[self].ptr, base);
    GetBaseInv(s, s.proxies[self].ptr, base);
    GetBaseNew(s, s.proxies[self].ptr, base);
    GetBaseAt(s, s.proxies[self].ptr, base);
    if o.result.Some? {
      assert Spans(s, BlockAt(s, s.proxies[self].ptr).value, a);
      DeriveInv(o, p, a, s.proxies[self].ptype);
    }
  }

  lemma GetBaseAt(s: State, a: Addr, base: ProxyId)
    requires Inv(s) && base !in s.proxies
    ensures var o := GetBase(s, a, base);
      && (o.result.Some? <==> HasBase(s, a))
      && (o.result.Some? ==>
            && o.result.value in o.state.proxies
            && o.state.proxies[o.result.value].ptr == BlockAt(s, a).value
            && forall c :: Spans(s, BlockAt(s, a).value, c) ==> Spans(o.state, BlockAt(s, a).value, c))
  {
    hide CountOk, EntriesOk, BlocksOk, LedgerOk, OwnersOk, Positive, DyingOk;

  }

  // ----- What a handle keeps alive -----

  ghost predicate Pins(s: State, h: ProxyId, q: ProxyId) {
    h == q || (PtrField(h) in s.pointing && s.pointing[PtrField(h)] == q)
  }

  /** Python code holds `h`, which is the base `q` of block `b` or keeps that base alive. */
  ghost predicate Holds(s: State, h: ProxyId, q: ProxyId, b: Addr) {
    && h in s.proxies && h in s.handles && 0 < s.handles[h]
    && BaseOf(s, q, b) && Pins(s, h, q)
  }

  /** C owns the block, or Python code holds a proxy that keeps it. */
  ghost predicate Secure(s: State, b: Addr) {
    b in s.blocks && (s.blocks[b].manual || exists h, q :: Holds(s, h, q, b))
  }

  lemma HeldIsAlive(s: State, h: ProxyId, q: ProxyId, b: Addr)
    requires s.dying == {} && Holds(s, h, q, b)
    ensures h in Alive(s) && q in Alive(s)
  {
    assert Supported(s, h, {h, q});
    assert Supported(s, q, {h, q});
    assert SelfSupporting(s, {h, q});
    AliveIsGreatest(s);
  }

  lemma HoldsSurvives(s: State, h: ProxyId, q: ProxyId, b: Addr)
    requires s.handles.Keys == s.proxies.Keys && s.dying == {} && Holds(s, h, q, b) && b in s.blocks
    ensures Holds(Reclaim(s), h, q, b) && b in Reclaim(s).blocks
  {
    HeldIsAlive(s, h, q, b);
  }

  /** Secure blocks survive whatever is deleted elsewhere. */
  lemma SecureSurvives(s: State, b: Addr)
    requires s.handles.Keys == s.proxies.Keys && s.dying == {} && Secure(s, b)
    ensures Secure(Reclaim(s), b)
    ensures b in Reclaim(s).blocks && Reclaim(s).blocks[b].slots == s.blocks[b].slots
  {
    if !s.blocks[b].manual {
      var h, q :| Holds(s, h, q, b);
      HoldsSurvives(s, h, q, b);
    }
  }

  lemma UnlinkSlotSecure(s: State, l: Loc, b: Addr)
    requires s.handles.Keys == s.proxies.Keys && l.Slot? && Secure(s, b)
    ensures Secure(Unlink(s, l), b)
  {
    if !s.blocks[b].manual {
      var h, q :| Holds(s, h, q, b);
      assert Holds(Unlink(s, l), h, q, b);
    }
  }

  lemma ForgetSecure(s: State, l: Loc, b: Addr)
    requires Inv(s) && l.Slot? && Secure(s, b)
    ensures Secure(Forget(s, l), b)
    ensures b in Forget(s, l).blocks && Forget(s, l).blocks[b].slots == s.blocks[b].slots
    ensures l !in Forget(s, l).pointing && Forget(s, l).mem == s.mem
  {
    RawParts(s);
    if l in s.pointing {
      UnlinkSlotSecure(s, l, b);
      SecureSurvives(Unlink(s, l), b);
    }
  }

  // ----- Pointer stores and struct copies -----

  /** An instrumented pointer write: delref on the location, addref when the new
      target is registered, then the write itself. */
  ghost function Write(s: State, l: Loc, v: Addr): State
    requires s.handles.Keys == s.proxies.Keys
  {
    var t := Forget(s, l);
    var b := BlockAt(t, v);
    if b.Some? && b.value in t.index && t.index[b.value] in t.refs
    then Link(Poke(t, l, v), l, t.index[b.value])
    else Poke(t, l, v)
  }

  /** `l` is a pointer slot whose block outlives the notification of a write to it. */
  ghost predicate WritableSlot(s: State, l: Loc) {
    && l.Slot? && l.block in s.blocks && l.offset in s.blocks[l.block].slots
    && s.handles.Keys == s.proxies.Keys && l.block in Forget(s, l).blocks
  }

  /** What a notification leaves of the memory. */
  lemma ForgetLeaves(s: State, l: Loc)
    requires s.handles.Keys == s.proxies.Keys
    ensures var t := Forget(s, l);
      && l !in t.pointing && t.mem == s.mem
      && forall b :: b in t.blocks ==> b in s.blocks && t.blocks[b].slots == s.blocks[b].slots && t.blocks[b].size == s.blocks[b].size
  {
    hide Tally, Anchored, Alive, LostBlocks;
  }

  /** Slots of secure blocks can be written. */
  lemma SecureIsWritable(s: State, l: Loc)
    requires Inv(s) && l.Slot? && Secure(s, l.block) && l.offset in s.blocks[l.block].slots
    ensures WritableSlot(s, l)
  {
    hide Forget, Raw, OwnersOk, Positive;
    InvKeys(s);
    ForgetSecure(s, l, l.block);
  }

  lemma WriteInv(s: State, l: Loc, v: Addr)
    requires Inv(s) && WritableSlot(s, l)
    ensures Inv(Write(s, l, v))
  {
    hide Inv, Forget, Raw, Mid, Poke;
    var t := Forget(s, l);
    ForgetInv(s, l);
    ForgetLeaves(s, l);
    PokeInv(t, l, v);
    var b := BlockAt(t, v);
    if b.Some? && b.value in t.index && t.index[b.value] in t.refs {
      BaseAt(t, b.value);
      PokePoints(t, l, v, b.value);
      LinkInv(Poke(t, l, v), l, t.index[b.value]);
    }
  }

  lemma InvKeys(s: State)
    requires Inv(s)
    ensures s.refs.Keys == s.handles.Keys == s.proxies.Keys
  {
  }

  lemma PokePoints(s: State, l: Loc, v: Addr, b: Addr)
    requires l.Slot? && l.block in s.blocks && l.offset in s.blocks[l.block].slots
    requires Inside(s, b, v) && b in s.index && BaseOf(s, s.index[b], b)
    ensures PointsInto(Poke(s, l, v), l, s.index[b])
    ensures Poke(s, l, v).pointing == s.pointing
  {
  }

  lemma BaseAt(s: State, b: Addr)
    requires Inv(s) && b in s.index
    ensures BaseOf(s, s.index[b], b) && s.index[b] in s.refs
  {
  }

  /** One slot of a typed memcpy: the entry of the source slot is duplicated. */
  ghost function CopySlot(s: State, dst: Loc, src: Loc): State
    requires s.handles.Keys == s.proxies.Keys && src in s.mem
  {
    var t := Forget(s, dst);
    var u := Poke(t, dst, s.mem[src]);
    if src in t.pointing && t.pointing[src] in t.refs then Link(u, dst, t.pointing[src]) else u
  }

  lemma CopySlotInv(s: State, dst: Loc, src: Loc)
    requires Inv(s) && WritableSlot(s, dst) && src.Slot? && src != dst && src in s.mem
    ensures Inv(CopySlot(s, dst, src))
  {
    hide Inv, Forget, Raw, Mid, Poke;
    var t := Forget(s, dst);
    ForgetInv(s, dst);
    ForgetLeaves(s, dst);
    PokeInv(t, dst, s.mem[src]);
    if src in t.pointing && t.pointing[src] in t.refs {
      CopyPoints(t, dst, src);
      LinkInv(Poke(t, dst, t.mem[src]), dst, t.pointing[src]);
    }
  }

  lemma CopyPoints(s: State, dst: Loc, src: Loc)
    requires Inv(s) && src in s.pointing && src.Slot? && src in s.mem
    requires dst.Slot? && dst.block in s.blocks && dst.offset in s.blocks[dst.block].slots
    ensures PointsInto(Poke(s, dst, s.mem[src]), dst, s.pointing[src])
    ensures Poke(s, dst, s.mem[src]).pointing == s.pointing
  {
    assert EntryOk(s, src);
  }

  // ----- Zero filling -----

  /** memset over the bytes `from` to `to` of block `b`: nothing is notified of it. */
  function ZeroFill(s: State, b: Addr, from: nat, to: nat): State {
    s.(mem := map l | l in s.mem :: if InZone(l, b, from, to) then 0 else s.mem[l])
  }

  predicate InZone(l: Loc, b: Addr, from: nat, to: nat) {
    l.Slot? && l.block == b && from <= l.offset < to
  }

  lemma ZeroFillInv(s: State, b: Addr, from: nat, to: nat)
    requires Inv(s)
    ensures Inv(ZeroFill(s, b, from, to))
  {
    hide BlocksOk, Tally;
    var t := ZeroFill(s, b, from, to);
    forall l | l in t.pointing ensures EntryOk(t, l) { assert EntryOk(s, l); }
  }

  // ----- Constructors -----

  /** compositeproxy_ctor and arrayproxy_ctor up to initialisation: allocate, register,
      then give up the manual ownership. */
  function Constructed(s: State, b: Addr, block: Block, content: map<Loc, Addr>, p: ProxyId): State
    requires block.ptype.Some?
  {
    Disown(Register(NewProxy(NewBlock(s, b, block, content), p, b, block.ptype.value), p, b), b)
  }

  lemma ConstructedInv(s: State, b: Addr, block: Block, content: map<Loc, Addr>, p: ProxyId)
    requires Inv(s) && FreshBlock(s, b, block, content) && block.managed && block.ptype.Some? && p !in s.proxies
    ensures Inv(Constructed(s, b, block, content, p))
  {
    hide CountOk, EntriesOk, BlocksOk, LedgerOk, OwnersOk, Positive, DyingOk, Tally, BlockOk, Apart;
    var t := NewBlock(s, b, block, content);
    NewBlockInv(s, b, block, content);
    NewProxyInv(t, p, b, block.ptype.value);
    var u := NewProxy(t, p, b, block.ptype.value);
    RegisterInv(u, p, b);
    DisownOwned(Register(u, p, b), b);
  }

  /** C gives up a block that Python still owns: nothing else changes. */
  lemma DisownOwned(s: State, b: Addr)
    requires Inv(s) && b in s.blocks && s.blocks[b].python
    ensures Inv(Disown(s, b)) && FreeByC(s, b) == Disown(s, b)
  {
    hide CountOk, IndexOk, EntriesOk, BlocksOk, LedgerOk, Tally, DyingOk, Reclaim, Evolves;
    DisownRaw(s, b);
    EvolvesRefl(Disown(s, b));
    Settle(Disown(s, b), Disown(s, b));
  }
}
