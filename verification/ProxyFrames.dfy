/** What the steps of a run leave alone, and how they move Python's references. */
module ProxyFrames {
  import opened Common
  import opened ProxyState
  import opened Cascade
  import opened ProxyOps
  import opened ProxyApi
  import opened ProxyCollector
  import opened ProxyRuns
  import opened ProxyOwnership
  import opened ProxyReferences

  /** The proxy that a step hands to Python. */
  ghost function Returned(s: State, step: Step): Option<ProxyId>
    requires Inv(s) && Enabled(s, step)
  {
    match step
    case GetOrCreateBase(a, base) => GetBase(s, a, base).result
    case ProxyGetFrom(a, ptype, base, p) => GetFrom(s, a, ptype, base, p).result
    case DecodePointer(l, accepted, ptype, base, p) => Decode(s, l, t => t in accepted, ptype, base, p).result
    case TakeSlice(self, a, base, p) => Slice(s, self, a, base, p).result
    case Construct(_, _, _, p) => Some(p)
    case IncRef(p) => Some(p)
    case _ => None
  }

  /** The proxy of which a step takes a reference from Python. */
  function Taken(step: Step): Option<ProxyId> {
    if step.DecRef? then Some(step.p) else None
  }

  /** The locations that a step may write. */
  predicate Writes(step: Step, l: Loc) {
    match step
    case WritePointer(k, _) => l == k
    case CopyPointer(dst, _) => l == dst
    case ZeroMemory(b, from, to) => l.Slot? && l.block == b && from <= l.offset < to
    case Malloc(b, _, _) => l.Slot? && l.block == b
    case Construct(b, _, _, _) => l.Slot? && l.block == b
    case _ => false
  }

  /** The block that C gives up. */
  function Disowned(step: Step): Option<Addr> {
    if step.CFree? then Some(step.b) else None
  }

  /** Among the proxies that are left, Python has one reference more to `given` and one less to `taken`. */
  ghost predicate HandlesMove(s: State, t: State, given: Option<ProxyId>, taken: Option<ProxyId>) {
    forall x :: x in t.proxies ==>
      x in t.handles
      && t.handles[x] + (if taken == Some(x) then 1 else 0)
         == (if x in s.handles then s.handles[x] else 0) + (if given == Some(x) then 1 else 0)
  }

  /** What is left is as it was, but for the locations that the step may write, and for the block
      that C gives up. */
  ghost predicate Framed(s: State, t: State, step: Step) {
    && (forall x :: x in s.proxies && x in t.proxies ==> t.proxies[x] == s.proxies[x])
    && (forall a :: a in s.index && a in t.index ==> t.index[a] == s.index[a])
    && (forall b :: b in s.blocks && b in t.blocks ==>
          t.blocks[b] == s.blocks[b].(python := b in t.index, manual := s.blocks[b].manual && Disowned(step) != Some(b)))
    && (forall l :: l in s.mem && !Writes(step, l) ==> l in t.mem && t.mem[l] == s.mem[l])
    && (forall l :: l in s.pointing && l in t.pointing && !Writes(step, l) ==> t.pointing[l] == s.pointing[l])
    && (forall l :: l in t.pointing && l !in s.pointing ==> Writes(step, l) || (l.PtrField? && l.owner !in s.proxies))
  }

  // ----- Reclaiming -----

  /** Nothing is new, and what is left is as it was. */
  ghost predicate Only(s: State, t: State) {
    && (forall x :: x in t.proxies ==> x in s.proxies && t.proxies[x] == s.proxies[x])
    && (forall x :: x in t.proxies ==> x in t.handles && x in s.handles && t.handles[x] == s.handles[x])
    && (forall a :: a in t.index ==> a in s.index && t.index[a] == s.index[a])
    && (forall b :: b in t.blocks ==> b in s.blocks && t.blocks[b] == s.blocks[b].(python := b in t.index))
    && t.mem == s.mem
    && (forall l :: l in t.pointing ==> l in s.pointing && t.pointing[l] == s.pointing[l])
  }

  lemma ReclaimOnly(u: State)
    requires u.handles.Keys == u.proxies.Keys
    ensures Only(u, Reclaim(u))
  {
    hide Tally, Alive, Anchored, LostBlocks;
  }

  lemma OnlyTrans(s: State, t: State, u: State)
    requires Only(s, t) && Only(t, u)
    ensures Only(s, u)
  {
  }

  lemma OnlySelf(s: State)
    requires Inv(s)
    ensures Only(s, s)
  {
    hide CountOk, EntriesOk, BlocksOk, LedgerOk, Positive;
    InvKeys(s);
    PythonIndexed(s);
  }

  lemma {:induction false} CollectOnly(s: State, order: seq<ProxyId>)
    requires Inv(s)
    ensures Only(s, Collect(s, order))
  {
    hide Inv, Only, ClearOne;
    if order == [] {
      OnlySelf(s);
    } else {
      var n := |order| - 1;
      var x := Collect(s, order[..n]);
      CollectOnly(s, order[..n]);
      ClearOnly(x, order[n]);
      OnlyTrans(s, x, ClearOne(x, order[n]));
    }
  }

  lemma ClearOnly(x: State, p: ProxyId)
    requires Inv(x)
    ensures x.handles.Keys == x.proxies.Keys && Only(x, ClearOne(x, p))
  {
    hide Inv, Reclaim, Tally, EntriesIn;
    InvKeys(x);
    if IsBase(x, p) {
      var u := Lower(x, EntriesIn(x, {p}), x.handles);
      assert u.handles == x.handles;
      ReclaimOnly(u);
      LoweredOnly(x, u, Reclaim(u));
    } else {
      OnlySelf(x);
    }
  }

  lemma LoweredOnly(x: State, u: State, t: State)
    requires u == x.(pointing := u.pointing, refs := u.refs) && Only(u, t)
    requires forall l :: l in u.pointing ==> l in x.pointing && u.pointing[l] == x.pointing[l]
    ensures Only(x, t)
  {
  }

  lemma ForgetOnly(s: State, l: Loc)
    requires Inv(s)
    ensures s.handles.Keys == s.proxies.Keys && Only(s, Forget(s, l))
  {
    hide Inv, Reclaim, Tally;
    InvKeys(s);
    if l in s.pointing {
      ReclaimOnly(Unlink(s, l));
      LoweredOnly(s, Unlink(s, l), Reclaim(Unlink(s, l)));
    } else {
      OnlySelf(s);
    }
  }

  /** `u` is `s`, after which only reclaiming leads to `t`. */
  lemma OnlyFrames(s: State, u: State, t: State, step: Step)
    requires Only(u, t) && u.proxies == s.proxies && u.index == s.index && u.pointing == s.pointing && u.mem == s.mem
    requires u.blocks.Keys == s.blocks.Keys
    requires forall b :: b in s.blocks ==> u.blocks[b] == s.blocks[b].(manual := s.blocks[b].manual && Disowned(step) != Some(b))
    ensures Framed(s, t, step)
  {
  }

  // ----- Each step -----

  lemma GainedFrames(s: State, t: State, r: ProxyId, step: Step)
    requires Inv(s) && Gained(s, t, r) && !step.CFree?
    ensures HandlesMove(s, t, Some(r), None) && Framed(s, t, step)
  {
    hide Inv;
    InvKeys(s);
    PythonIndexed(s);
  }

  lemma SameFrames(s: State, step: Step)
    requires Inv(s) && !step.CFree?
    ensures HandlesMove(s, s, None, None) && Framed(s, s, step)
  {
    hide Inv;
    InvKeys(s);
    PythonIndexed(s);
  }

  /** One location has been written after reclaiming. */
  lemma WriteFrames(s: State, u: State, t: State, l: Loc, step: Step)
    requires Only(s, u) && t.proxies == u.proxies && t.handles == u.handles && t.index == u.index && t.blocks == u.blocks
    requires l in t.mem && t.mem == u.mem[l := t.mem[l]]
    requires forall k :: k in t.pointing && k != l ==> k in u.pointing && t.pointing[k] == u.pointing[k]
    requires Writes(step, l) && !step.CFree?
    ensures HandlesMove(s, t, None, None) && Framed(s, t, step)
  {
  }

  lemma NewBlockFrames(s: State, b: Addr, block: Block, content: map<Loc, Addr>, step: Step)
    requires Inv(s) && FreshBlock(s, b, block, content) && !step.CFree?
    requires forall l: Loc :: l.Slot? && l.block == b ==> Writes(step, l)
    ensures HandlesMove(s, NewBlock(s, b, block, content), None, None)
    ensures Framed(s, NewBlock(s, b, block, content), step)
  {
    hide CountOk, IndexOk, EntriesOk, BlocksOk, LedgerOk, OwnersOk, Positive;
    InvKeys(s);
    PythonIndexed(s);
    hide Inv;
  }

  lemma ConstructFrames(s: State, b: Addr, block: Block, content: map<Loc, Addr>, p: ProxyId)
    requires Inv(s) && Enabled(s, Construct(b, block, content, p))
    ensures HandlesMove(s, Constructed(s, b, block, content, p), Some(p), None)
    ensures Framed(s, Constructed(s, b, block, content, p), Construct(b, block, content, p))
  {
    hide Inv, FreshBlock, Constructed, HandlesMove, Framed;
    InvKeys(s);
    PythonIndexed(s);
    assert b !in s.blocks && (forall l :: l in content ==> l.Slot? && l.block == b) by { FreshContent(s, b, block, content); }
    FreshNotIndexed(s, b);
    ConstructedShape(s, b, block, content, p);
    ConstructedFramed(s, Constructed(s, b, block, content, p), b, block, content, p);
  }

  lemma ConstructedFramed(s: State, t: State, b: Addr, block: Block, content: map<Loc, Addr>, p: ProxyId)
    requires s.handles.Keys == s.proxies.Keys && p !in s.proxies && b !in s.blocks && b !in s.index
    requires forall c :: c in s.blocks ==> (s.blocks[c].python <==> c in s.index)
    requires forall l :: l in content ==> l.Slot? && l.block == b
    requires t.handles == s.handles[p := 1] && p in t.proxies && t.proxies == s.proxies[p := t.proxies[p]]
    requires t.index == s.index[b := p] && t.pointing == s.pointing && t.mem == s.mem + content
    requires b in t.blocks && t.blocks == s.blocks[b := t.blocks[b]]
    ensures HandlesMove(s, t, Some(p), None) && Framed(s, t, Construct(b, block, content, p))
  {
  }

  lemma FreshContent(s: State, b: Addr, block: Block, content: map<Loc, Addr>)
    requires FreshBlock(s, b, block, content)
    ensures b !in s.blocks && forall l :: l in content ==> l.Slot? && l.block == b
  {
  }

  lemma FreshNotIndexed(s: State, b: Addr)
    requires Inv(s) && b !in s.blocks
    ensures b !in s.index
  {
  }

  lemma FreeFrames(s: State, b: Addr)
    requires Inv(s) && b in s.blocks
    ensures s.handles.Keys == s.proxies.Keys
    ensures HandlesMove(s, FreeByC(s, b), None, None) && Framed(s, FreeByC(s, b), CFree(b))
  {
    hide Inv, Reclaim;
    InvKeys(s);
    ReclaimOnly(Disown(s, b));
    OnlyFrames(s, Disown(s, b), FreeByC(s, b), CFree(b));
  }

  lemma DropFrames(s: State, p: ProxyId)
    requires Inv(s) && p in s.handles && 0 < s.handles[p]
    ensures s.handles.Keys == s.proxies.Keys
    ensures HandlesMove(s, Drop(s, p), None, Some(p)) && Framed(s, Drop(s, p), DecRef(p))
  {
    hide Inv, Reclaim, DropOne;
    InvKeys(s);
    DropFields(s, p);
    ReclaimOnly(DropOne(s, p));
    OnlyFrames(s, DropOne(s, p), Drop(s, p), DecRef(p));
  }

  lemma CollectFrames(s: State, S: set<ProxyId>, order: seq<ProxyId>)
    requires Inv(s)
    ensures HandlesMove(s, Collect(s, order), None, None) && Framed(s, Collect(s, order), CollectCycles(S, order))
  {
    hide Inv, Collect;
    CollectOnly(s, order);
    OnlyFrames(s, s, Collect(s, order), CollectCycles(S, order));
  }

  lemma WriteStep(s: State, l: Loc, v: Addr)
    requires Inv(s)
    ensures s.handles.Keys == s.proxies.Keys
    ensures HandlesMove(s, Write(s, l, v), None, None) && Framed(s, Write(s, l, v), WritePointer(l, v))
  {
    hide Inv, Forget, BlockAt, HandlesMove, Framed, Only;
    InvKeys(s);
    ForgetOnly(s, l);
    WriteFrames(s, Forget(s, l), Write(s, l, v), l, WritePointer(l, v));
  }

  lemma CopyStep(s: State, dst: Loc, src: Loc)
    requires Inv(s) && src in s.mem
    ensures s.handles.Keys == s.proxies.Keys
    ensures HandlesMove(s, CopySlot(s, dst, src), None, None) && Framed(s, CopySlot(s, dst, src), CopyPointer(dst, src))
  {
    hide Inv, Forget, HandlesMove, Framed, Only;
    InvKeys(s);
    ForgetOnly(s, dst);
    WriteFrames(s, Forget(s, dst), CopySlot(s, dst, src), dst, CopyPointer(dst, src));
  }

  lemma ReturningFrames(s: State, step: Step)
    requires Inv(s) && Enabled(s, step) && (step.GetOrCreateBase? || step.ProxyGetFrom? || step.DecodePointer? || step.TakeSlice?)
    ensures HandlesMove(s, Apply(s, step), Returned(s, step), None) && Framed(s, Apply(s, step), step)
  {
    hide Inv, HandlesMove, Framed, Gained, GetBase, GetFrom, Decode, Slice;
    match step
    case GetOrCreateBase(a, base) =>
      GetBaseGains(s, a, base);
      if Returned(s, step).Some? { GainedFrames(s, Apply(s, step), Returned(s, step).value, step); } else { SameFrames(s, step); }
    case ProxyGetFrom(a, ptype, base, p) =>
      GetFromGains(s, a, ptype, base, p);
      GainedFrames(s, Apply(s, step), Returned(s, step).value, step);
    case DecodePointer(l, accepted, ptype, base, p) =>
      DecodeGains(s, l, t => t in accepted, ptype, base, p);
      if Returned(s, step).Some? { GainedFrames(s, Apply(s, step), Returned(s, step).value, step); } else { SameFrames(s, step); }
    case TakeSlice(self, a, base, p) =>
      SliceGains(s, self, a, base, p);
      if Returned(s, step).Some? { GainedFrames(s, Apply(s, step), Returned(s, step).value, step); } else { SameFrames(s, step); }
  }

  /** Every step gives Python exactly one reference to what it returns, takes exactly the one that is
      dropped, and changes nothing of what is left but what it writes. */
  lemma StepFrames(s: State, step: Step)
    requires Inv(s) && Enabled(s, step)
    ensures HandlesMove(s, Apply(s, step), Returned(s, step), Taken(step))
    ensures Framed(s, Apply(s, step), step)
  {
    hide Inv, FreshBlock, Garbage, HandlesMove, Framed, Only, Gained, GetBase, GetFrom, Decode, Slice, Forget, Reclaim, Constructed, Collect, BlockAt, Write, CopySlot;
    InvKeys(s);
    match step
    case Malloc(b, block, content) => NewBlockFrames(s, b, block, content, step);
    case CFree(b) => FreeFrames(s, b);
    case Construct(b, block, content, p) => ConstructFrames(s, b, block, content, p);
    case GetOrCreateBase(_, _) => ReturningFrames(s, step);
    case ProxyGetFrom(_, _, _, _) => ReturningFrames(s, step);
    case DecodePointer(_, _, _, _, _) => ReturningFrames(s, step);
    case TakeSlice(_, _, _, _) => ReturningFrames(s, step);
    case WritePointer(l, v) =>
      WriteStep(s, l, v);
    case CopyPointer(dst, src) =>
      CopyStep(s, dst, src);
    case ZeroMemory(b, from, to) => ZeroFrames(s, b, from, to);
    case IncRef(p) => IncFrames(s, p);
    case DecRef(p) => DropFrames(s, p);
    case CollectCycles(S, order) => CollectFrames(s, S, order);
  }

  lemma ZeroFrames(s: State, b: Addr, from: nat, to: nat)
    requires Inv(s)
    ensures HandlesMove(s, ZeroFill(s, b, from, to), None, None) && Framed(s, ZeroFill(s, b, from, to), ZeroMemory(b, from, to))
  {
    hide Inv;
    InvKeys(s);
    PythonIndexed(s);
  }

  lemma IncFrames(s: State, p: ProxyId)
    requires Inv(s) && p in s.handles
    ensures p in s.refs && HandlesMove(s, AddHandle(s, p), Some(p), None) && Framed(s, AddHandle(s, p), IncRef(p))
  {
    hide Inv;
    InvKeys(s);
    PythonIndexed(s);
  }
}
