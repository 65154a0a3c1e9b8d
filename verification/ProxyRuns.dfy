/** Whole runs of the proxy runtime: what every reachable state satisfies. */
module ProxyRuns {
  import opened ProxyState
  import opened Cascade
  import opened ProxyOps
  import opened ProxyApi
  import opened ProxyCollector

  /** The steps Python code, C code and the collector can take.  The numbers of new
      proxies and blocks are those the allocators return. */
  datatype Step =
    | Malloc(b: Addr, block: Block, content: map<Loc, Addr>)
    | CFree(b: Addr)
    | Construct(b: Addr, block: Block, content: map<Loc, Addr>, p: ProxyId)
    | GetOrCreateBase(a: Addr, base: ProxyId)
    | ProxyGetFrom(a: Addr, ptype: ProxyType, base: ProxyId, p: ProxyId)
    | DecodePointer(l: Loc, accepted: set<ProxyType>, ptype: ProxyType, base: ProxyId, p: ProxyId)
    | TakeSlice(self: ProxyId, a: Addr, base: ProxyId, p: ProxyId)
    | WritePointer(l: Loc, v: Addr)
    | CopyPointer(dst: Loc, src: Loc)
    | ZeroMemory(b: Addr, from: nat, to: nat)
    | IncRef(p: ProxyId)
    | DecRef(p: ProxyId)
    | CollectCycles(S: set<ProxyId>, order: seq<ProxyId>)

  ghost predicate NewPair(s: State, base: ProxyId, p: ProxyId) {
    base !in s.proxies && p !in s.proxies && base != p
  }

  ghost predicate Enabled(s: State, step: Step) {
    match step
    case Malloc(b, block, content) => FreshBlock(s, b, block, content)
    case CFree(b) => b in s.blocks && s.blocks[b].manual
    case Construct(b, block, content, p) =>
      FreshBlock(s, b, block, content) && block.managed && block.ptype.Some? && p !in s.proxies
    case GetOrCreateBase(a, base) => base !in s.proxies
    case ProxyGetFrom(a, ptype, base, p) => NewPair(s, base, p)
    case DecodePointer(l, accepted, ptype, base, p) => NewPair(s, base, p) && l in s.mem
    case TakeSlice(self, a, base, p) => NewPair(s, base, p) && self in s.proxies && SliceInBlock(s, self, a)
    case WritePointer(l, v) => WritableSlot(s, l)
    case CopyPointer(dst, src) => WritableSlot(s, dst) && src.Slot? && src != dst && src in s.mem
    case ZeroMemory(b, from, to) => b in s.blocks
    case IncRef(p) => p in s.handles && 0 < s.handles[p]
    case DecRef(p) => p in s.handles && 0 < s.handles[p]
    case CollectCycles(S, order) =>
      Garbage(s, S) && InOrder(S, order) && forall p :: p in S ==> !HeldByC(s, p)
  }

  ghost function Apply(s: State, step: Step): State
    requires Inv(s) && Enabled(s, step)
  {
    match step
    case Malloc(b, block, content) => NewBlock(s, b, block, content)
    case CFree(b) => FreeByC(s, b)
    case Construct(b, block, content, p) => Constructed(s, b, block, content, p)
    case GetOrCreateBase(a, base) => GetBase(s, a, base).state
    case ProxyGetFrom(a, ptype, base, p) => GetFrom(s, a, ptype, base, p).state
    case DecodePointer(l, accepted, ptype, base, p) => Decode(s, l, t => t in accepted, ptype, base, p).state
    case TakeSlice(self, a, base, p) => Slice(s, self, a, base, p).state
    case WritePointer(l, v) => Write(s, l, v)
    case CopyPointer(dst, src) => CopySlot(s, dst, src)
    case ZeroMemory(b, from, to) => ZeroFill(s, b, from, to)
    case IncRef(p) => AddHandle(s, p)
    case DecRef(p) => Drop(s, p)
    case CollectCycles(S, order) => Collect(s, order)
  }

  lemma StepInv(s: State, step: Step)
    requires Inv(s) && Enabled(s, step)
    ensures Inv(Apply(s, step))
  {
    hide Inv, FreshBlock, WritableSlot;
    match step
    case Malloc(b, block, content) => NewBlockInv(s, b, block, content);
    case CFree(b) => FreeByCInv(s, b);
    case Construct(b, block, content, p) => ConstructedInv(s, b, block, content, p);
    case GetOrCreateBase(a, base) => GetBaseInv(s, a, base);
    case ProxyGetFrom(a, ptype, base, p) => GetFromInv(s, a, ptype, base, p);
    case DecodePointer(l, accepted, ptype, base, p) => DecodeInv(s, l, t => t in accepted, ptype, base, p);
    case TakeSlice(self, a, base, p) => SliceInv(s, self, a, base, p);
    case WritePointer(l, v) => WriteInv(s, l, v);
    case CopyPointer(dst, src) => CopySlotInv(s, dst, src);
    case ZeroMemory(b, from, to) => ZeroFillInv(s, b, from, to);
    case IncRef(p) => InvKeys(s); AddHandleInv(s, p);
    case DecRef(p) => DropInv(s, p);
    case CollectCycles(S, order) =>
  }

  // ----- No location loses its protection -----

  /** `Sound`, but for the location that is about to be overwritten. */
  ghost predicate SoundBut(s: State, l: Loc) {
    && s.pointing.Keys <= s.tracked
    && (forall k :: k in s.tracked && k != l && Lives(s, k) ==> k in s.pointing)
  }

  lemma ReclaimSound(s: State, l: Loc)
    requires s.handles.Keys == s.proxies.Keys && Quiet(s) && SoundBut(s, l)
    ensures SoundBut(Reclaim(s), l)
    ensures Sound(s) ==> Sound(Reclaim(s))
  {
    hide Tally, Alive, LostBlocks;
  }

  lemma ForgetSound(s: State, l: Loc)
    requires Inv(s) && Sound(s)
    ensures SoundBut(Forget(s, l), l) && l !in Forget(s, l).pointing
  {
    hide Tally, Reclaim;
    if l in s.pointing {
      ReclaimSound(Unlink(s, l), l);
      assert l !in Reclaim(Unlink(s, l)).pointing by { ReclaimTakes(Unlink(s, l)); }
    }
  }

  lemma ReclaimTakes(s: State)
    requires s.handles.Keys == s.proxies.Keys
    ensures Reclaim(s).pointing.Keys <= s.pointing.Keys
  {
  }

  lemma DropSound(s: State, p: ProxyId)
    requires Inv(s) && Sound(s) && p in s.handles && 0 < s.handles[p]
    ensures Sound(Drop(s, p))
  {
    hide Tally, Reclaim;
    ReclaimSound(DropOne(s, p), PtrField(p));
  }

  lemma FreeSound(s: State, b: Addr)
    requires Inv(s) && Sound(s) && b in s.blocks
    ensures Sound(FreeByC(s, b))
  {
    hide Tally, Reclaim;
    ReclaimSound(Disown(s, b), Slot(b, 0));
  }

  lemma NewProxySound(s: State, p: ProxyId, ptr: Addr, ptype: ProxyType)
    requires Inv(s) && Sound(s) && p !in s.proxies
    ensures Sound(NewProxy(s, p, ptr, ptype)) && PtrField(p) !in s.pointing
  {
    hide CountOk, IndexOk, BlocksOk, LedgerOk, OwnersOk, Positive, DyingOk, EntryOk;
    NoEntryNames(s, p);
  }

  lemma NewBlockSound(s: State, b: Addr, block: Block, content: map<Loc, Addr>)
    requires Inv(s) && Sound(s) && FreshBlock(s, b, block, content)
    ensures Sound(NewBlock(s, b, block, content))
  {
    forall l | l in s.pointing ensures !(l.Slot? && l.block == b) { assert EntryOk(s, l); }
  }

  lemma GetBaseSound(s: State, a: Addr, base: ProxyId)
    requires Inv(s) && Sound(s) && base !in s.proxies
    ensures Sound(GetBase(s, a, base).state)
  {
    hide CountOk, EntriesOk, BlocksOk, LedgerOk, OwnersOk, Positive, DyingOk;
    if HasBase(s, a) && BlockAt(s, a).value !in s.index {
      var b := BlockAt(s, a).value;
      NewProxySound(s, base, b, s.blocks[b].ptype.value);
    }
  }

  lemma TradeSound(s: State, p: ProxyId, q: ProxyId)
    requires Sound(s) && q in s.handles && 0 < s.handles[q]
    ensures Sound(Trade(s, p, q))
  {
  }

  lemma DeriveSound(o: Outcome, p: ProxyId, a: Addr, ptype: ProxyType)
    requires Inv(o.state) && Sound(o.state) && p !in o.state.proxies
    requires o.result.Some? ==>
      o.result.value != p && o.result.value in o.state.handles && 0 < o.state.handles[o.result.value]
    ensures Sound(Derive(o, p, a, ptype))
  {
    assert o.result.Some? ==> NewProxy(o.state, p, a, ptype).handles[o.result.value] == o.state.handles[o.result.value];
    hide Inv, Sound, NewProxy;
    NewProxySound(o.state, p, a, ptype);
    if o.result.Some? { TradeSound(NewProxy(o.state, p, a, ptype), p, o.result.value); }
  }

  lemma PokeSound(s: State, l: Loc, v: Addr)
    requires SoundBut(s, l) && l !in s.pointing
    ensures Sound(Poke(s, l, v))
  {
  }

  lemma LinkSound(s: State, l: Loc, q: ProxyId)
    requires Sound(s) && q in s.refs
    ensures Sound(Link(s, l, q))
  {
  }

  lemma WriteSound(s: State, l: Loc, v: Addr)
    requires Inv(s) && Sound(s)
    ensures s.handles.Keys == s.proxies.Keys && Sound(Write(s, l, v))
  {
    hide Inv, Sound, SoundBut, Forget, Poke, Link, BlockAt;
    InvKeys(s);
    ForgetSound(s, l);
    var t := Forget(s, l);
    PokeSound(t, l, v);
    PokeRefs(t, l, v);
    if BlockAt(t, v).Some? && BlockAt(t, v).value in t.index && t.index[BlockAt(t, v).value] in t.refs {
      LinkSound(Poke(t, l, v), l, t.index[BlockAt(t, v).value]);
    }
  }

  lemma PokeRefs(s: State, l: Loc, v: Addr)
    ensures Poke(s, l, v).refs == s.refs
  {
  }

  lemma CopySound(s: State, dst: Loc, src: Loc)
    requires Inv(s) && Sound(s) && src in s.mem
    ensures s.handles.Keys == s.proxies.Keys && Sound(CopySlot(s, dst, src))
  {
    hide Inv, Sound, SoundBut, Forget, Poke, Link;
    InvKeys(s);
    ForgetSound(s, dst);
    var t := Forget(s, dst);
    PokeSound(t, dst, s.mem[src]);
    PokeRefs(t, dst, s.mem[src]);
    if src in t.pointing && t.pointing[src] in t.refs {
      LinkSound(Poke(t, dst, s.mem[src]), dst, t.pointing[src]);
    }
  }

  lemma CollectSound(s: State, S: set<ProxyId>, order: seq<ProxyId>)
    requires Inv(s) && Sound(s) && Garbage(s, S) && InOrder(S, order) && forall p :: p in S ==> !HeldByC(s, p)
    ensures Sound(Collect(s, order))
  {
    hide Inv, Sound, Garbage;
    CollectorIsSoundIff(s, S);
  }

  lemma StepSound(s: State, step: Step)
    requires Inv(s) && Sound(s) && Enabled(s, step)
    ensures Sound(Apply(s, step))
  {
    hide Inv, FreshBlock, WritableSlot, Derive, GetBase, Forget, Garbage;
    match step
    case Malloc(b, block, content) => NewBlockSound(s, b, block, content);
    case CFree(b) => FreeSound(s, b);
    case Construct(b, block, content, p) =>
      NewBlockInv(s, b, block, content);
      NewBlockSound(s, b, block, content);
      NewProxySound(NewBlock(s, b, block, content), p, b, block.ptype.value);
    case GetOrCreateBase(a, base) => GetBaseSound(s, a, base);
    case ProxyGetFrom(a, ptype, base, p) =>
      GetBaseSound(s, a, base); GetBaseInv(s, a, base); GetBaseNew(s, a, base);
      DeriveSound(GetBase(s, a, base), p, a, ptype);
    case DecodePointer(l, accepted, ptype, base, p) =>
      GetBaseSound(s, s.mem[l], base); GetBaseInv(s, s.mem[l], base); GetBaseNew(s, s.mem[l], base);
      DeriveSound(GetBase(s, s.mem[l], base), p, s.mem[l], ptype);
    case TakeSlice(self, a, base, p) =>
      var addr := s.proxies[self].ptr;
      GetBaseSound(s, addr, base); GetBaseInv(s, addr, base); GetBaseNew(s, addr, base);
      DeriveSound(GetBase(s, addr, base), p, a, s.proxies[self].ptype);
    case WritePointer(l, v) => WriteSound(s, l, v);
    case CopyPointer(dst, src) => CopySound(s, dst, src);
    case ZeroMemory(b, from, to) =>
    case IncRef(p) =>
    case DecRef(p) => DropSound(s, p);
    case CollectCycles(S, order) => CollectSound(s, S, order);
  }

  // ----- Runs -----

  ghost const INITIAL: State :=
    State(map[], map[], map[], map[], map[], map[], map[], {}, multiset{}, multiset{}, {}, {})

  /** One step; nothing is demanded of a step from a state that violates the invariant. */
  ghost predicate Next(s: State, step: Step, t: State) {
    Inv(s) ==> Enabled(s, step) && t == Apply(s, step)
  }

  ghost predicate IsRun(states: seq<State>, steps: seq<Step>) {
    && |states| == |steps| + 1 && states[0] == INITIAL
    && (forall i :: 0 <= i < |steps| ==> Next(states[i], steps[i], states[i + 1]))
  }

  /** Counts are conserved, the index agrees with the proxies, and no location has lost
      its protection, in every reachable state. */
  lemma {:induction false} RunKeeps(states: seq<State>, steps: seq<Step>, i: nat)
    requires IsRun(states, steps) && i < |states|
    ensures Inv(states[i]) && Sound(states[i])
  {
    hide Enabled, Apply;
    if i > 0 {
      RunKeeps(states, steps, i - 1);
      assert Next(states[i - 1], steps[i - 1], states[i]);
      hide Inv, Sound;
      StepInv(states[i - 1], steps[i - 1]);
      StepSound(states[i - 1], steps[i - 1]);
    }
  }

  // ----- Consequences for every run -----

  /** The address that location `l` holds. */
  ghost predicate HoldsAddress(s: State, l: Loc, a: Addr) {
    match l
    case Slot(b, o) => l in s.mem && s.mem[l] == a
    case PtrField(p) => p in s.proxies && s.proxies[p].ptr == a
  }

  /** No dangling: in every reachable state a location that was set to point into a
      registered block still points into a block that has not been freed, because the
      strong index maps it to that block's base proxy; or it is a slot that holds NULL. */
  lemma NoDanglingInRuns(states: seq<State>, steps: seq<Step>, i: nat, l: Loc) returns (b: Addr, a: Addr)
    requires IsRun(states, steps) && i < |states|
    requires l in states[i].tracked && Lives(states[i], l)
    ensures var s := states[i];
      && b in s.blocks && s.blocks[b].python && b in s.index
      && l in s.pointing && s.pointing[l] == s.index[b]
      && HoldsAddress(s, l, a) && (Spans(s, b, a) || (l.Slot? && a == 0))
  {
    RunKeeps(states, steps, i);
    hide IsRun;
    b, a := EntryTargets(states[i], l);
  }

  lemma EntryTargets(s: State, l: Loc) returns (b: Addr, a: Addr)
    requires Inv(s) && l in s.pointing
    ensures b in s.blocks && s.blocks[b].python && b in s.index && s.pointing[l] == s.index[b]
    ensures HoldsAddress(s, l, a) && (Spans(s, b, a) || (l.Slot? && a == 0))
  {
    hide CountOk, BlocksOk, LedgerOk, OwnersOk, Positive;
    assert EntryOk(s, l);
    b := s.proxies[s.pointing[l]].ptr;
    a := if l.Slot? then s.mem[l] else s.proxies[l.owner].ptr;
  }

  /** In every reachable state a block is there exactly when it was acquired once more
      often than it was released, and it has an owner; so no block is released twice. */
  lemma ReleasedOnceInRuns(states: seq<State>, steps: seq<Step>, i: nat, a: Addr)
    requires IsRun(states, steps) && i < |states|
    ensures var s := states[i];
      && s.released[a] <= s.acquired[a] <= s.released[a] + 1
      && (a in s.blocks <==> s.acquired[a] == s.released[a] + 1)
      && (a in s.blocks ==> s.blocks[a].manual || (a in s.index && s.blocks[a].python))
  {
    RunKeeps(states, steps, i);
  }

  /** The weak index names live proxies, each under its own address, and each count is the
      number of handles plus the number of locations that the strong index maps to it. */
  lemma IndexAndCountsInRuns(states: seq<State>, steps: seq<Step>, i: nat)
    requires IsRun(states, steps) && i < |states|
    ensures var s := states[i];
      && (forall a, b :: a in s.index && b in s.index && s.index[a] == s.index[b] ==> a == b)
      && (forall a :: a in s.index ==> s.index[a] in s.proxies && s.proxies[s.index[a]].ptr == a)
      && (forall p :: p in s.proxies ==>
            p in s.refs && p in s.handles && 0 < s.refs[p] == s.handles[p] + |Refs(s.pointing, p)|)
  {
    RunKeeps(states, steps, i);
  }
}
