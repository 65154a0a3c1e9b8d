/** Zero filling overwrites pointer slots without a notification: what that does to the index. */
module ProxyZeroing {
  import opened ProxyState
  import opened Cascade
  import opened ProxyOps
  import opened ProxyApi
  import opened ProxyCollector
  import opened ProxyRuns

  /** Every slot with an entry still points into the block of its target. */
  ghost predicate EntriesExact(s: State) {
    forall l :: l in s.pointing && l.Slot? ==> ExactAt(s, l)
  }

  ghost predicate ExactAt(s: State, l: Loc)
    requires l in s.pointing
  {
    s.pointing[l] in s.proxies && l in s.mem && Inside(s, s.proxies[s.pointing[l]].ptr, s.mem[l])
  }

  lemma ExactIff(s: State, l: Loc)
    requires Inv(s) && l in s.pointing && l.Slot?
    ensures l in s.mem && (ExactAt(s, l) <==> s.mem[l] != 0)
  {
    hide CountOk, LedgerOk, OwnersOk, Positive;
    assert EntryOk(s, l);
    var b := s.proxies[s.pointing[l]].ptr;
    assert b in s.blocks && BlockOk(b, s.blocks[b]);
  }

  /** Zeroing keeps that if and only if it covers no slot with an entry. A slot that it does cover
      holds NULL, but goes on keeping its target. */
  lemma ZeroFillExactIff(s: State, b: Addr, from: nat, to: nat)
    requires Inv(s) && EntriesExact(s)
    ensures var t := ZeroFill(s, b, from, to);
      && (EntriesExact(t) <==> forall l :: l in s.pointing ==> !InZone(l, b, from, to))
      && t.pointing == s.pointing && t.refs == s.refs
      && forall l :: l in s.pointing && InZone(l, b, from, to) ==> l in t.mem && t.mem[l] == 0
  {
    hide Inv, ExactAt;
    ZeroFillInv(s, b, from, to);
    var t := ZeroFill(s, b, from, to);
    forall l | l in s.pointing && l.Slot?
      ensures l in t.mem && (ExactAt(t, l) <==> !InZone(l, b, from, to))
    {
      ExactIff(s, l);
      ExactIff(t, l);
    }
  }

  /** Exactly the slots of the range become NULL, and nothing but their content changes. */
  lemma ZeroFillContent(s: State, b: Addr, from: nat, to: nat)
    ensures var t := ZeroFill(s, b, from, to);
      && t == s.(mem := t.mem) && t.mem.Keys == s.mem.Keys
      && forall l :: l in s.mem ==> t.mem[l] == match l
           case Slot(c, o) => if c == b && from <= o < to then 0 else s.mem[l]
           case PtrField(_) => s.mem[l]
  {
  }

  /** A step that zeroes no slot with an entry. */
  ghost predicate ZeroesNoEntry(s: State, step: Step) {
    step.ZeroMemory? ==> forall l :: l in s.pointing ==> !InZone(l, step.b, step.from, step.to)
  }

  /** No entry for a slot is new, and slots with entries keep their content. */
  ghost predicate SameOrFewer(s: State, t: State) {
    forall l :: l in t.pointing && l.Slot? ==> l in s.pointing && (l in s.mem ==> l in t.mem && t.mem[l] == s.mem[l])
  }

  lemma FewerExact(s: State, t: State)
    requires Inv(s) && Inv(t) && EntriesExact(s) && SameOrFewer(s, t)
    ensures EntriesExact(t)
  {
    hide Inv, ExactAt;
    forall l | l in t.pointing && l.Slot? ensures ExactAt(t, l) {
      ExactIff(s, l);
      ExactIff(t, l);
    }
  }

  lemma ReclaimFewer(s: State)
    requires s.handles.Keys == s.proxies.Keys
    ensures SameOrFewer(s, Reclaim(s)) && Reclaim(s).mem == s.mem && Reclaim(s).pointing.Keys <= s.pointing.Keys
  {
    hide Tally, Anchored, Alive, LostBlocks;
  }

  lemma ForgetFewer(s: State, l: Loc)
    requires s.handles.Keys == s.proxies.Keys
    ensures SameOrFewer(s, Forget(s, l))
    ensures Forget(s, l).mem == s.mem && Forget(s, l).pointing.Keys <= s.pointing.Keys && l !in Forget(s, l).pointing
  {
    hide Reclaim, Tally;
    ForgetLeaves(s, l);
    if l in s.pointing { ReclaimFewer(Unlink(s, l)); }
  }

  lemma NewBlockFewer(s: State, b: Addr, block: Block, content: map<Loc, Addr>)
    requires Inv(s) && FreshBlock(s, b, block, content)
    ensures SameOrFewer(s, NewBlock(s, b, block, content))
  {
    hide CountOk, IndexOk, BlocksOk, LedgerOk, OwnersOk, Positive;
    forall l | l in s.pointing && l.Slot? ensures l !in content { assert EntryOk(s, l); }
  }

  lemma DeriveFewer(o: Outcome, p: ProxyId, a: Addr, ptype: ProxyType)
    requires o.result.Some? ==>
      o.result.value != p && o.result.value in o.state.handles && 0 < o.state.handles[o.result.value]
    ensures SameOrFewer(o.state, Derive(o, p, a, ptype))
  {
  }

  lemma GetBaseFewer(s: State, a: Addr, base: ProxyId)
    requires Inv(s)
    ensures SameOrFewer(s, GetBase(s, a, base).state)
  {
    hide Inv, BlockAt;
  }

  lemma FewerTrans(s: State, t: State, u: State)
    requires SameOrFewer(s, t) && SameOrFewer(t, u) && s.mem.Keys <= t.mem.Keys
    ensures SameOrFewer(s, u)
  {
  }

  lemma {:induction false} CollectFewer(s: State, order: seq<ProxyId>)
    requires Inv(s)
    ensures SameOrFewer(s, Collect(s, order)) && Collect(s, order).mem == s.mem
  {
    hide Inv, Reclaim, Lower, SameOrFewer;
    if order == [] {
      FewerSelf(s);
    } else {
      var n := |order| - 1;
      var x := Collect(s, order[..n]);
      CollectFewer(s, order[..n]);
      ClearFewer(x, order[n]);
      FewerTrans(s, x, ClearOne(x, order[n]));
    }
  }

  lemma FewerSelf(s: State)
    ensures SameOrFewer(s, s)
  {
  }

  lemma ClearFewer(x: State, p: ProxyId)
    requires Inv(x)
    ensures x.handles.Keys == x.proxies.Keys && SameOrFewer(x, ClearOne(x, p)) && ClearOne(x, p).mem == x.mem
  {
    hide Raw, OwnersOk, Positive, Reclaim;
    InvKeys(x);
    if IsBase(x, p) {
      ReclaimFewer(Lower(x, EntriesIn(x, {p}), x.handles));
    } else {
      FewerSelf(x);
    }
  }

  lemma WriteExact(s: State, l: Loc, v: Addr)
    requires Inv(s) && EntriesExact(s) && WritableSlot(s, l)
    ensures EntriesExact(Write(s, l, v))
  {
    hide Inv, ExactAt, Forget, BlockAt;
    WriteInv(s, l, v);
    ForgetInv(s, l);
    ForgetFewer(s, l);
    var u, t := Forget(s, l), Write(s, l, v);
    forall k | k in t.pointing && k.Slot? ensures ExactAt(t, k) {
      ExactIff(t, k);
      if k == l {
        var b := BlockAt(u, v).value;
        BlockAtInside(u, v);
        PositiveBlock(u, b);
      } else {
        ExactIff(s, k);
      }
    }
  }

  lemma PositiveBlock(s: State, b: Addr)
    requires Inv(s) && b in s.blocks
    ensures 0 < b
  {
    assert BlockOk(b, s.blocks[b]);
  }

  lemma CopyExact(s: State, dst: Loc, src: Loc)
    requires Inv(s) && EntriesExact(s) && WritableSlot(s, dst) && src.Slot? && src != dst && src in s.mem
    ensures EntriesExact(CopySlot(s, dst, src))
  {
    hide Inv, ExactAt, Forget;
    CopySlotInv(s, dst, src);
    ForgetFewer(s, dst);
    var t := CopySlot(s, dst, src);
    forall k | k in t.pointing && k.Slot? ensures ExactAt(t, k) {
      ExactIff(t, k);
      ExactIff(s, if k == dst then src else k);
    }
  }

  lemma StepExact(s: State, step: Step)
    requires Inv(s) && EntriesExact(s) && Enabled(s, step) && ZeroesNoEntry(s, step)
    ensures EntriesExact(Apply(s, step))
  {
    StepInv(s, step);
    hide Inv, EntriesExact, FreshBlock, WritableSlot, Derive, GetBase, Forget, Garbage, Reclaim, SameOrFewer, InZone, Unlink;
    InvKeys(s);
    match step
    case WritePointer(l, v) => WriteExact(s, l, v);
    case CopyPointer(dst, src) => CopyExact(s, dst, src);
    case ZeroMemory(b, from, to) => ZeroFillExactIff(s, b, from, to);
    case _ =>
      StepFewer(s, step);
      FewerExact(s, Apply(s, step));
  }

  lemma StepFewer(s: State, step: Step)
    requires Inv(s) && Enabled(s, step) && !step.WritePointer? && !step.CopyPointer? && !step.ZeroMemory?
    ensures SameOrFewer(s, Apply(s, step))
  {
    hide Inv, FreshBlock, Derive, GetBase, Garbage, Reclaim, Unlink, Tally;
    InvKeys(s);
    match step
    case Malloc(b, block, content) => NewBlockFewer(s, b, block, content);
    case CFree(b) => ReclaimFewer(Disown(s, b));
    case Construct(b, block, content, p) => NewBlockFewer(s, b, block, content);
    case GetOrCreateBase(a, base) => GetBaseFewer(s, a, base);
    case ProxyGetFrom(a, ptype, base, p) => DerivedFewer(s, a, base, p, a, ptype);
    case DecodePointer(l, accepted, ptype, base, p) => DerivedFewer(s, s.mem[l], base, p, s.mem[l], ptype);
    case TakeSlice(self, a, base, p) => DerivedFewer(s, s.proxies[self].ptr, base, p, a, s.proxies[self].ptype);
    case IncRef(p) =>
    case DecRef(p) => ReclaimFewer(DropOne(s, p));
    case CollectCycles(S, order) => CollectFewer(s, order);
  }

  lemma DerivedFewer(s: State, at: Addr, base: ProxyId, p: ProxyId, a: Addr, ptype: ProxyType)
    requires Inv(s) && base !in s.proxies && p !in s.proxies && p != base
    ensures var o := GetBase(s, at, base);
      && (o.result.Some? ==> o.result.value != p && o.result.value in o.state.handles && 0 < o.state.handles[o.result.value])
      && SameOrFewer(s, o.state) && SameOrFewer(s, Derive(o, p, a, ptype))
  {
    hide Inv, Derive, SameOrFewer;
    GetBaseReady(s, at, base, p);
    GetBaseFewer(s, at, base);
    var o := GetBase(s, at, base);
    DeriveFewer(o, p, a, ptype);
    FewerTrans(s, o.state, Derive(o, p, a, ptype));
  }

  /** In a run that zeroes no slot with an entry, every slot with an entry points into the block
      of its target, at any time. */
  lemma {:induction false} RunExact(states: seq<State>, steps: seq<Step>, i: nat)
    requires IsRun(states, steps) && i < |states|
    requires forall j :: 0 <= j < i ==> ZeroesNoEntry(states[j], steps[j])
    ensures EntriesExact(states[i])
  {
    if i > 0 {
      RunExact(states, steps, i - 1);
      RunKeeps(states, steps, i - 1);
      assert Next(states[i - 1], steps[i - 1], states[i]);
      hide Inv, Sound, Enabled, Apply, EntriesExact, ZeroesNoEntry;
      StepExact(states[i - 1], steps[i - 1]);
    }
  }
}
