/** What Python gets from the entry points of the proxy code, besides a sound state. */
module ProxyResults {
  import opened Common
  import opened ProxyState
  import opened Cascade
  import opened ProxyOps
  import opened ProxyApi

  /** Nothing that was there is lost or changed, but for Python becoming an owner of blocks. */
  ghost predicate Extends(s: State, t: State) {
    && (forall p :: p in s.proxies ==> p in t.proxies && t.proxies[p] == s.proxies[p])
    && (forall p :: p in s.handles ==> p in t.handles && s.handles[p] <= t.handles[p])
    && (forall l :: l in s.pointing ==> l in t.pointing && t.pointing[l] == s.pointing[l])
    && (forall a :: a in s.index ==> a in t.index && t.index[a] == s.index[a])
    && t.mem == s.mem && t.blocks.Keys == s.blocks.Keys
    && (forall b :: b in s.blocks ==> t.blocks[b].(python := s.blocks[b].python) == s.blocks[b])
  }

  /** The result is the one base of the block that contains the address, the same as long as
      it is registered; there is none exactly if the allocation cannot have one. */
  lemma GetBaseResult(s: State, a: Addr, base: ProxyId)
    requires Inv(s) && base !in s.proxies
    ensures var o := GetBase(s, a, base);
      && (o.result.Some? <==> HasBase(s, a)) && Extends(s, o.state) && (o.result.None? ==> o.state == s)
      && (o.result.Some? ==>
            var b, r := BlockAt(s, a).value, o.result.value;
            && Inside(o.state, b, a) && Holds(o.state, r, r, b)
            && r == (if b in s.index then s.index[b] else base)
            && o.state.handles[r] == (if r in s.handles then s.handles[r] else 0) + 1)
  {
    hide Inv, AddHandle, NewProxy, Register, BaseOf, Extends, Holds, BlockAt;
    GetBaseInv(s, a, base);
    GetBaseAt(s, a, base);
    if HasBase(s, a) {
      var b := BlockAt(s, a).value;
      BlockAtInside(s, a);
      if b in s.index {
        FoundBase(s, b, a);
      } else {
        NewBase(s, b, a, base, s.blocks[b].ptype.value);
      }
    } else {
      ExtendsSelf(s);
    }
  }

  lemma ExtendsSelf(s: State)
    ensures Extends(s, s)
  {
  }

  lemma FoundBase(s: State, b: Addr, a: Addr)
    requires Inv(s) && b in s.index && Inside(s, b, a)
    ensures s.index[b] in s.refs && s.index[b] in s.handles
    ensures var t := AddHandle(s, s.index[b]);
      Extends(s, t) && Inside(t, b, a) && Holds(t, s.index[b], s.index[b], b) && t.handles[s.index[b]] == s.handles[s.index[b]] + 1
  {
    hide Inv;
    InvKeys(s);
    BaseAt(s, b);
  }

  lemma NewBase(s: State, b: Addr, a: Addr, base: ProxyId, ptype: ProxyType)
    requires Inv(s) && b in s.blocks && b !in s.index && Inside(s, b, a) && base !in s.proxies
    ensures base !in s.handles
    ensures var t := Register(NewProxy(s, base, b, ptype), base, b);
      Extends(s, t) && Inside(t, b, a) && Holds(t, base, base, b) && t.handles[base] == 1
  {
    hide Inv;
    InvKeys(s);
  }

  /** All addresses of a block have the same base, however often one asks. */
  lemma OneBasePerBlock(s: State, b: Addr, a: Addr, c: Addr, base: ProxyId, other: ProxyId)
    requires Inv(s) && base !in s.proxies && other !in s.proxies && other != base
    requires Inside(s, b, a) && Inside(s, b, c)
    ensures var o := GetBase(s, a, base);
      Inv(o.state) && GetBase(o.state, c, other).result == o.result
  {
    hide Inv, GetBase, BaseOf;
    GetBaseInv(s, a, base);
    GetBaseResult(s, a, base);
    var o := GetBase(s, a, base);
    BlocksInv(s);
    BlocksInv(o.state);
    BlockAtUnique(s, b, a);
    assert Inside(o.state, b, c) && Inside(o.state, b, a);
    BlockAtUnique(o.state, b, c);
    GetBaseNew(s, a, base);
    GetBaseResult(o.state, c, other);
    if o.result.Some? { HeldIsIndexed(o.state, o.result.value, b); }
  }

  lemma BlocksInv(s: State)
    requires Inv(s)
    ensures BlocksOk(s.blocks)
  {
  }

  lemma HeldIsIndexed(s: State, r: ProxyId, b: Addr)
    requires Holds(s, r, r, b)
    ensures b in s.index && s.index[b] == r
  {
  }

  /** `r` is held and, if its address belongs to an allocation that can have a base, keeps
      that allocation. */
  ghost predicate HeldResult(s: State, t: State, r: ProxyId, a: Addr) {
    && r in t.proxies && r in t.handles && 0 < t.handles[r]
    && (HasBase(s, a) ==> exists q :: Holds(t, r, q, BlockAt(s, a).value))
  }

  lemma DeriveResult(s: State, o: Outcome, p: ProxyId, at: Addr, a: Addr, ptype: ProxyType)
    requires Inv(o.state) && p !in o.state.proxies && Extends(s, o.state)
    requires o.result.Some? <==> HasBase(s, at)
    requires o.result.Some? ==> Holds(o.state, o.result.value, o.result.value, BlockAt(s, at).value)
    requires o.result.Some? && o.result.value in s.handles ==> s.handles[o.result.value] < o.state.handles[o.result.value]
    ensures var t := Derive(o, p, a, ptype);
      && Extends(s, t) && HeldResult(s, t, p, at) && t.proxies[p] == Proxy(a, ptype)
      && (o.result.None? ==> PtrField(p) !in t.pointing)
  {
    hide EntriesOk, BlocksOk, LedgerOk, OwnersOk, Positive, DyingOk, Tally, IndexOk, BlockAt;
    NoEntryNames(o.state, p);
    var t := Derive(o, p, a, ptype);
    if o.result.Some? {
      var q := o.result.value;
      assert Holds(t, p, q, BlockAt(s, at).value);
    }
  }

  /** Proxy_GetFrom gives a proxy of exactly the type and address asked for, which keeps the
      allocation; it is the base itself when that fits. */
  lemma GetFromResult(s: State, a: Addr, ptype: ProxyType, base: ProxyId, p: ProxyId)
    requires Inv(s) && base !in s.proxies && p !in s.proxies && p != base
    ensures var o := GetFrom(s, a, ptype, base, p);
      && o.result.Some? && Extends(s, o.state) && HeldResult(s, o.state, o.result.value, a)
      && o.state.proxies[o.result.value] == Proxy(a, ptype)
      && (a in s.index && Inside(s, a, a) && s.proxies[s.index[a]] == Proxy(a, ptype) ==> o.result == Some(s.index[a]))
  {
    hide Inv, GetBase, Derive, Inside;
    GetBaseInv(s, a, base);
    GetBaseNew(s, a, base);
    GetBaseResult(s, a, base);
    var o := GetBase(s, a, base);
    DeriveReady(s, o, a);
    if !(o.result.Some? && o.state.proxies[o.result.value] == Proxy(a, ptype)) {
      DeriveResult(s, o, p, a, a, ptype);
    }
    if a in s.index && Inside(s, a, a) { IndexedHasBase(s, a); }
  }

  /** What `GetBase` leaves is what `Derive` starts from. */
  lemma DeriveReady(s: State, o: Outcome, a: Addr)
    requires o.result.Some? ==> HasBase(s, a) && Holds(o.state, o.result.value, o.result.value, BlockAt(s, a).value)
    ensures o.result.Some? ==> o.result.value in o.state.handles && 0 < o.state.handles[o.result.value]
    ensures o.result.Some? ==> o.result.value in o.state.proxies && HeldResult(s, o.state, o.result.value, a)
  {
  }

  lemma IndexedHasBase(s: State, a: Addr)
    requires Inv(s) && a in s.index && Inside(s, a, a)
    ensures HasBase(s, a) && BlockAt(s, a) == Some(a) && s.index[a] in s.proxies
  {
    assert BlockOk(a, s.blocks[a]);
    BlockAtUnique(s, a, a);
  }

  /** Decoding NULL gives None. Decoding a pointer gives the base of its target if the type of
      that is accepted, wherever in the block the pointer points, and else a proxy at exactly
      its address; either keeps the target. */
  lemma DecodeResult(s: State, l: Loc, accepted: ProxyType -> bool, ptype: ProxyType, base: ProxyId, p: ProxyId)
    requires Inv(s) && base !in s.proxies && p !in s.proxies && p != base && l in s.mem
    ensures var o, a := Decode(s, l, accepted, ptype, base, p), s.mem[l];
      && (o.result.None? <==> a == 0) && (a == 0 ==> o.state == s) && Extends(s, o.state)
      && (a != 0 ==>
            var r := o.result.value;
            && HeldResult(s, o.state, r, a)
            && if HasBase(s, a) && accepted(BaseType(s, a)) then o.state.proxies[r] == Proxy(BlockAt(s, a).value, BaseType(s, a))
               else o.state.proxies[r] == Proxy(a, ptype))
  {
    hide Inv, GetBase, Derive, Inside, BlockAt;
    var a := s.mem[l];
    if a != 0 {
      GetBaseInv(s, a, base);
      GetBaseNew(s, a, base);
      GetBaseResult(s, a, base);
      GetBaseType(s, a, base);
      var o := GetBase(s, a, base);
      DeriveReady(s, o, a);
      if !(o.result.Some? && accepted(o.state.proxies[o.result.value].ptype)) {
        DeriveResult(s, o, p, a, a, ptype);
      }
    }
  }

  /** The proxy type of the base of address `a`: that of its proxy, or of its block. */
  ghost function BaseType(s: State, a: Addr): ProxyType
    requires Inv(s) && HasBase(s, a)
  {
    var b := BlockAt(s, a).value;
    if b in s.index then s.proxies[s.index[b]].ptype else s.blocks[b].ptype.value
  }

  lemma GetBaseType(s: State, a: Addr, base: ProxyId)
    requires Inv(s) && base !in s.proxies
    ensures HasBase(s, a) ==>
      var o := GetBase(s, a, base);
      o.result.Some? && o.result.value in o.state.proxies
      && o.state.proxies[o.result.value] == Proxy(BlockAt(s, a).value, BaseType(s, a))
  {
    hide EntriesOk, BlocksOk, LedgerOk, OwnersOk, Positive, DyingOk, CountOk;
    GetBaseAt(s, a, base);
  }

  /** A slice is a proxy of the same type at its own address, and keeps the block that contains
      the address of the proxy it was taken from. */
  lemma SliceResult(s: State, self: ProxyId, a: Addr, base: ProxyId, p: ProxyId)
    requires Inv(s) && base !in s.proxies && p !in s.proxies && p != base && self in s.proxies
    ensures var o := Slice(s, self, a, base, p);
      && (o.result.Some? <==> HasBase(s, s.proxies[self].ptr)) && Extends(s, o.state)
      && (o.result.Some? ==>
            && o.result == Some(p) && HeldResult(s, o.state, p, s.proxies[self].ptr)
            && o.state.proxies[p] == Proxy(a, s.proxies[self].ptype))
  {
    hide Inv, GetBase, Derive, Inside, BlockAt;
    var at := s.proxies[self].ptr;
    GetBaseInv(s, at, base);
    GetBaseNew(s, at, base);
    GetBaseResult(s, at, base);
    var o := GetBase(s, at, base);
    DeriveReady(s, o, at);
    if o.result.Some? { DeriveResult(s, o, p, at, a, s.proxies[self].ptype); }
  }

  /** A slice succeeds and keeps the block `b` that its proxy `self` keeps if and only if the
      address of `self` lies in `b`: that of an empty slice may be one past the end. */
  lemma SliceKeepsIff(s: State, self: ProxyId, q: ProxyId, b: Addr, a: Addr, base: ProxyId, p: ProxyId)
    requires Inv(s) && base !in s.proxies && p !in s.proxies && p != base && self in s.proxies
    requires Pins(s, self, q) && BaseOf(s, q, b)
    ensures var o := Slice(s, self, a, base, p);
      o.result.Some? && Pins(o.state, p, q) <==> Inside(s, b, s.proxies[self].ptr)
  {
    hide Inv, GetBase, Derive, BlockAt, Extends;
    var at := s.proxies[self].ptr;
    GetBaseResult(s, at, base);
    GetBaseReady(s, at, base, p);
    BlocksInv(s);
    BaseBlock(s, q, b);
    var o := GetBase(s, at, base);
    if Inside(s, b, at) { BlockAtUnique(s, b, at); }
    if o.result.Some? {
      BlockAtInside(s, at);
      DerivePins(o, p, a, s.proxies[self].ptype);
    }
  }

  lemma BaseBlock(s: State, q: ProxyId, b: Addr)
    requires Inv(s) && BaseOf(s, q, b)
    ensures b in s.blocks && s.blocks[b].managed && s.blocks[b].ptype.Some? && q in s.proxies
    ensures forall c :: c in s.index && s.index[c] == q ==> c == b
    ensures b in s.index && s.index[b] == q
  {
    hide CountOk, EntriesOk, LedgerOk, OwnersOk, Positive;
    assert BlockOk(b, s.blocks[b]);
  }

  lemma DerivePins(o: Outcome, p: ProxyId, a: Addr, ptype: ProxyType)
    requires o.result.Some? && o.result.value != p && o.result.value in o.state.handles && 0 < o.state.handles[o.result.value]
    ensures var t := Derive(o, p, a, ptype);
      PtrField(p) in t.pointing && t.pointing[PtrField(p)] == o.result.value
  {
  }

  /** After a pointer write the slot holds the address, and has an entry exactly if that
      lies in a registered block: then for the base of that block. */
  lemma WriteResult(s: State, l: Loc, v: Addr)
    requires Inv(s) && WritableSlot(s, l)
    ensures s.handles.Keys == s.proxies.Keys
    ensures var t := Write(s, l, v);
      && t.mem == s.mem[l := v]
      && (l in t.pointing <==> exists b :: b in t.index && Inside(t, b, v))
      && forall b :: b in t.index && Inside(t, b, v) ==> t.pointing[l] == t.index[b]
  {
    hide Inv, Forget, Raw, Mid;
    var u := Forget(s, l);
    ForgetInv(s, l);
    ForgetLeaves(s, l);
    BlocksInv(u);
    var t := Write(s, l, v);
    forall b | b in t.index && Inside(t, b, v) ensures BlockAt(u, v) == Some(b) && u.index[b] in u.refs {
      BlockAtUnique(u, b, v);
      BaseAt(u, b);
    }
    if l in t.pointing { assert Inside(t, BlockAt(u, v).value, v); }
  }
}
