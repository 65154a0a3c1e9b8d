/** Which references the entry points of the proxy code take, keep and give back. */
module ProxyReferences {
  import opened Common
  import opened ProxyState
  import opened Cascade
  import opened Reclamation
  import opened ProxyOps
  import opened ProxyApi
  import opened ProxyOwnership

  // ----- When there is a base -----

  /** There is a base for an address if and only if it lies in an allocation that accepts
      lifetime policies and whose type has a proxy type. */
  lemma GetBaseIff(s: State, a: Addr, p: ProxyId)
    requires Inv(s) && p !in s.proxies
    ensures GetBase(s, a, p).result.Some?
       <==> exists b :: b in s.blocks && b <= a < b + s.blocks[b].size && s.blocks[b].managed && s.blocks[b].ptype.Some?
  {
    hide CountOk, IndexOk, EntriesOk, LedgerOk, OwnersOk, Positive;
    if b :| b in s.blocks && b <= a < b + s.blocks[b].size && s.blocks[b].managed && s.blocks[b].ptype.Some? {
      BlockAtUnique(s, b, a);
    }
  }

  /** The allocations without a base are those that could not be registered. */
  lemma NoBaseMeansUnregistrable(s: State, b: Addr, a: Addr, p: ProxyId)
    requires Inv(s) && p !in s.proxies && Inside(s, b, a)
    ensures GetBase(s, a, p).result.Some? <==> BlockOk(b, s.blocks[b].(python := true))
  {
    hide CountOk, IndexOk, EntriesOk, LedgerOk, OwnersOk, Positive;
    GetBaseIff(s, a, p);
    BlockAtUnique(s, b, a);
    assert BlockOk(b, s.blocks[b]);
    forall c | c in s.blocks && c <= a < c + s.blocks[c].size ensures c == b { BlockAtUnique(s, c, a); }
  }

  // ----- What an operation that returns a proxy leaves behind -----

  /** Python holds one reference more, to `r`. */
  ghost predicate OneReference(s: State, t: State, r: ProxyId) {
    forall x :: x in t.proxies ==>
      x in t.handles && t.handles[x] == (if x in s.handles then s.handles[x] else 0) + (if x == r then 1 else 0)
  }

  /** The only new proxies are `r` and a base that `r` keeps, and the only new entry is that of `r`. */
  ghost predicate NewProxies(s: State, t: State, r: ProxyId) {
    && r in t.proxies
    && (forall x :: x in s.proxies ==> x in t.proxies && t.proxies[x] == s.proxies[x])
    && (forall x :: x in t.proxies && x !in s.proxies && x != r ==>
          PtrField(r) in t.pointing && t.pointing[PtrField(r)] == x && r !in s.proxies)
    && (forall l :: l in s.pointing ==> l in t.pointing && t.pointing[l] == s.pointing[l])
    && (forall l :: l in t.pointing && l !in s.pointing ==> l == PtrField(r) && r !in s.proxies && t.pointing[l] != r)
  }

  /** Memory is as it was, but that the block of a new base is registered. */
  ghost predicate SameMemory(s: State, t: State) {
    && t.mem == s.mem && t.acquired == s.acquired && t.released == s.released
    && t.dying == s.dying && t.freeing == s.freeing
    && (forall a :: a in s.index ==> a in t.index && t.index[a] == s.index[a])
    && (forall a :: a in t.index && a !in s.index ==> t.index[a] in t.proxies && t.index[a] !in s.proxies)
    && t.blocks.Keys == s.blocks.Keys
    && (forall b :: b in s.blocks ==> t.blocks[b] == s.blocks[b].(python := b in t.index))
  }

  ghost predicate Gained(s: State, t: State, r: ProxyId) {
    OneReference(s, t, r) && NewProxies(s, t, r) && SameMemory(s, t)
  }

  lemma GetBaseGains(s: State, a: Addr, base: ProxyId)
    requires Inv(s) && base !in s.proxies
    ensures var o := GetBase(s, a, base);
      && (o.result.None? ==> o.state == s)
      && o.state.pointing == s.pointing
      && (o.result.Some? ==> Gained(s, o.state, o.result.value) && (o.result.value in s.proxies || o.result.value == base))
  {
    hide Inv, AddHandle, Register, NewProxy, Gained, BlockAt;
    if HasBase(s, a) {
      var b := BlockAt(s, a).value;
      BlockAtInside(s, a);
      if b in s.index { FoundGains(s, b); } else { NewBaseGains(s, b, base, s.blocks[b].ptype.value); }
    }
  }

  lemma FoundGains(s: State, b: Addr)
    requires Inv(s) && b in s.index
    ensures s.index[b] in s.refs && s.index[b] in s.handles && s.index[b] in s.proxies
    ensures Gained(s, AddHandle(s, s.index[b]), s.index[b])
    ensures AddHandle(s, s.index[b]).pointing == s.pointing
  {
    hide CountOk, EntriesOk, BlocksOk, LedgerOk, Positive;
    InvKeys(s);
    PythonIndexed(s);
  }

  lemma PythonIndexed(s: State)
    requires Inv(s)
    ensures forall b :: b in s.blocks ==> (s.blocks[b].python <==> b in s.index)
  {
  }

  lemma NewBaseGains(s: State, b: Addr, base: ProxyId, ptype: ProxyType)
    requires Inv(s) && b in s.blocks && b !in s.index && base !in s.proxies
    ensures var t := Register(NewProxy(s, base, b, ptype), base, b);
      Gained(s, t, base) && t.pointing == s.pointing
  {
    hide Inv, Gained, NewProxies, SameMemory;
    InvKeys(s);
    NewBaseProxies(s, b, base, ptype);
    NewBaseMemory(s, b, base, ptype);
    assert OneReference(s, Register(NewProxy(s, base, b, ptype), base, b), base);
    GainedParts(s, Register(NewProxy(s, base, b, ptype), base, b), base);
  }

  lemma GainedParts(s: State, t: State, r: ProxyId)
    requires OneReference(s, t, r) && NewProxies(s, t, r) && SameMemory(s, t)
    ensures Gained(s, t, r)
  {
  }

  lemma NewBaseProxies(s: State, b: Addr, base: ProxyId, ptype: ProxyType)
    requires b in s.blocks && base !in s.proxies
    ensures NewProxies(s, Register(NewProxy(s, base, b, ptype), base, b), base)
  {
  }

  lemma NewBaseMemory(s: State, b: Addr, base: ProxyId, ptype: ProxyType)
    requires Inv(s) && b in s.blocks && b !in s.index && base !in s.proxies
    ensures SameMemory(s, Register(NewProxy(s, base, b, ptype), base, b))
  {
    hide CountOk, IndexOk, EntriesOk, BlocksOk, LedgerOk, OwnersOk, Positive;
    PythonIndexed(s);
    hide Inv;
  }

  // ----- The caller's reference to the base is given back -----

  lemma DeriveGains(s: State, o: Outcome, p: ProxyId, a: Addr, ptype: ProxyType)
    requires Inv(s) && p !in s.proxies && o.state.pointing == s.pointing && (o.result.None? ==> o.state == s)
    requires o.result.Some? ==>
      && Gained(s, o.state, o.result.value) && o.result.value != p && p !in o.state.proxies
      && o.result.value in o.state.handles && 0 < o.state.handles[o.result.value]
    ensures Gained(s, Derive(o, p, a, ptype), p)
  {
    hide Inv, NewProxies, SameMemory, Derive;
    InvKeys(s);
    PythonIndexed(s);
    FreshHasNoEntry(s, p);
    Targets(s);
    if o.result.Some? { ResultIsProxy(s, o.state, o.result.value); }
    DeriveOneReference(s, o, p, a, ptype);
    DeriveNewProxies(s, o, p, a, ptype);
    DeriveMemory(s, o, p, a, ptype);
  }

  lemma FreshHasNoEntry(s: State, p: ProxyId)
    requires Inv(s) && p !in s.proxies
    ensures PtrField(p) !in s.pointing
  {
    NoEntryNames(s, p);
  }

  lemma DeriveOneReference(s: State, o: Outcome, p: ProxyId, a: Addr, ptype: ProxyType)
    requires p !in s.handles && s.handles.Keys == s.proxies.Keys && (o.result.None? ==> o.state == s)
    requires o.result.Some? ==>
      && OneReference(s, o.state, o.result.value) && o.result.value != p && o.result.value in o.state.proxies
      && o.result.value in o.state.handles && 0 < o.state.handles[o.result.value]
    ensures OneReference(s, Derive(o, p, a, ptype), p)
  {
  }

  lemma DeriveNewProxies(s: State, o: Outcome, p: ProxyId, a: Addr, ptype: ProxyType)
    requires p !in s.proxies && PtrField(p) !in s.pointing && o.state.pointing == s.pointing && (o.result.None? ==> o.state == s)
    requires forall l :: l in s.pointing ==> s.pointing[l] in s.proxies
    requires o.result.Some? ==>
      && NewProxies(s, o.state, o.result.value) && o.result.value != p && p !in o.state.proxies
      && o.result.value in o.state.handles && 0 < o.state.handles[o.result.value]
    ensures NewProxies(s, Derive(o, p, a, ptype), p)
  {
    var t := Derive(o, p, a, ptype);
    assert t.proxies == o.state.proxies[p := Proxy(a, ptype)];
    assert t.pointing == if o.result.Some? then s.pointing[PtrField(p) := o.result.value] else s.pointing;
    hide Derive;
  }

  lemma DeriveMemory(s: State, o: Outcome, p: ProxyId, a: Addr, ptype: ProxyType)
    requires p !in s.proxies && (o.result.None? ==> o.state == s)
    requires forall b :: b in s.blocks ==> (s.blocks[b].python <==> b in s.index)
    requires o.result.Some? ==>
      && SameMemory(s, o.state) && o.result.value in o.state.handles && 0 < o.state.handles[o.result.value] && o.result.value != p
    ensures SameMemory(s, Derive(o, p, a, ptype))
  {
    var t := Derive(o, p, a, ptype);
    assert t.index == o.state.index && t.blocks == o.state.blocks && t.proxies.Keys == o.state.proxies.Keys + {p};
  }

  /** Python is left with exactly one new reference, to the result; and the result is the only
      new proxy besides a base that it keeps. */
  lemma GetFromGains(s: State, a: Addr, ptype: ProxyType, base: ProxyId, p: ProxyId)
    requires Inv(s) && base !in s.proxies && p !in s.proxies && p != base
    ensures var o := GetFrom(s, a, ptype, base, p);
      o.result.Some? && Gained(s, o.state, o.result.value)
  {
    hide Inv, GetBase, Derive, Gained;
    GetBaseGains(s, a, base);
    GetBaseReady(s, a, base, p);
    GetBaseNew(s, a, base);
    var o := GetBase(s, a, base);
    if !(o.result.Some? && o.state.proxies[o.result.value] == Proxy(a, ptype)) { DeriveGains(s, o, p, a, ptype); }
  }

  lemma DecodeGains(s: State, l: Loc, accepted: ProxyType -> bool, ptype: ProxyType, base: ProxyId, p: ProxyId)
    requires Inv(s) && base !in s.proxies && p !in s.proxies && p != base && l in s.mem
    ensures var o := Decode(s, l, accepted, ptype, base, p);
      if s.mem[l] == 0 then o == Outcome(s, None) else o.result.Some? && Gained(s, o.state, o.result.value)
  {
    hide Inv, GetBase, Derive, Gained;
    var a := s.mem[l];
    GetBaseGains(s, a, base);
    GetBaseReady(s, a, base, p);
    GetBaseNew(s, a, base);
    var o := GetBase(s, a, base);
    if a != 0 && !(o.result.Some? && accepted(o.state.proxies[o.result.value].ptype)) { DeriveGains(s, o, p, a, ptype); }
  }

  lemma SliceGains(s: State, self: ProxyId, a: Addr, base: ProxyId, p: ProxyId)
    requires Inv(s) && base !in s.proxies && p !in s.proxies && p != base && self in s.proxies
    ensures var o := Slice(s, self, a, base, p);
      if o.result.None? then o.state == s else Gained(s, o.state, o.result.value)
  {
    hide Inv, GetBase, Derive, Gained;
    var at := s.proxies[self].ptr;
    GetBaseGains(s, at, base);
    GetBaseReady(s, at, base, p);
    GetBaseNew(s, at, base);
    var o := GetBase(s, at, base);
    if o.result.Some? { DeriveGains(s, o, p, a, s.proxies[self].ptype); }
  }

  // ----- Dropping the result again -----

  /** All tables of `t` are those of `s`. */
  ghost predicate SameTables(s: State, t: State) {
    && t.proxies == s.proxies && t.handles == s.handles && t.refs == s.refs && t.index == s.index
    && t.pointing == s.pointing && t.blocks == s.blocks && t.mem == s.mem
    && t.acquired == s.acquired && t.released == s.released && t.dying == s.dying && t.freeing == s.freeing
  }

  /** Whatever operation returned `r`, dropping that reference at once undoes the operation. */
  lemma DropUndoes(s: State, t: State, r: ProxyId)
    requires Inv(s) && Inv(t) && Gained(s, t, r)
    ensures t.handles.Keys == t.proxies.Keys && r in t.handles && 0 < t.handles[r]
    ensures SameTables(s, Drop(t, r))
  {
    hide Inv, Gained, SameTables, Alive, Restrict, Unit, DropOne;
    DroppedUnit(s, t, r);
    var u := DropOne(t, r);
    OldAreAlive(s, u);
    NewAreNot(s, u, r);
    assert Alive(u) == s.proxies.Keys;
    RestrictedTables(s, u, r);
  }

  /** `t` after the reference is given back, before anything is reclaimed. */
  ghost predicate Unit(s: State, u: State, r: ProxyId) {
    && u.handles.Keys == u.proxies.Keys && s.proxies.Keys <= u.proxies.Keys
    && (forall x :: x in u.proxies ==> u.handles[x] == (if x in s.handles then s.handles[x] else 0))
    && NewProxies(s, u, r) && SameMemory(s, u)
  }

  lemma DroppedUnit(s: State, t: State, r: ProxyId)
    requires Inv(s) && Inv(t) && Gained(s, t, r)
    ensures t.handles.Keys == t.proxies.Keys && r in t.handles && 0 < t.handles[r]
    ensures Unit(s, DropOne(t, r), r)
  {
    hide Inv, NewProxies, SameMemory, DropOne;
    InvKeys(t);
    assert r in t.proxies by { ResultIsProxy(s, t, r); }
    DropFields(t, r);
    SameProxies(s, t, DropOne(t, r), r);
    InvKeys(s);
  }

  lemma ResultIsProxy(s: State, t: State, r: ProxyId)
    requires NewProxies(s, t, r)
    ensures r in t.proxies && s.proxies.Keys <= t.proxies.Keys
  {
  }

  lemma SameProxies(s: State, t: State, u: State, r: ProxyId)
    requires NewProxies(s, t, r) && SameMemory(s, t)
    requires u == t.(handles := u.handles, refs := u.refs)
    ensures NewProxies(s, u, r) && SameMemory(s, u) && s.proxies.Keys <= u.proxies.Keys
  {
  }

  lemma OldAreAlive(s: State, u: State)
    requires Inv(s) && exists r :: Unit(s, u, r)
    ensures s.proxies.Keys <= Alive(u)
  {
    hide Inv, Alive, Anchored;
    var r :| Unit(s, u, r);
    EverythingKept(s);
    var A := s.proxies.Keys;
    forall x | x in A ensures Supported(u, x, A) {
      if s.handles[x] == 0 {
        var l := CountedEntry(s, x);
        StillAnchored(s, u, r, l);
      }
    }
    assert SelfSupporting(u, A);
    AliveIsGreatest(u);
  }

  lemma CountedEntry(s: State, x: ProxyId) returns (l: Loc)
    requires Inv(s) && x in s.proxies && s.handles[x] == 0
    ensures l in s.pointing && s.pointing[l] == x && Anchored(s, l, s.proxies.Keys)
  {
    hide IndexOk, EntriesOk, BlocksOk, LedgerOk, OwnersOk;
    CountedMeansHeld(s, x);
    l :| l in s.pointing && s.pointing[l] == x;
    EverythingKept(s);
  }

  lemma StillAnchored(s: State, u: State, r: ProxyId, l: Loc)
    requires Unit(s, u, r) && Anchored(s, l, s.proxies.Keys)
    ensures Anchored(u, l, s.proxies.Keys)
  {
  }

  lemma NewAreNot(s: State, u: State, r: ProxyId)
    requires Inv(s) && Unit(s, u, r)
    ensures Alive(u) <= s.proxies.Keys
  {
    hide Inv, Alive, Supported, NewProxies;
    InvKeys(s);
    AliveIsGreatest(u);
    Targets(s);
    ResultUnsupported(s, u, r, Alive(u));
    forall x | x in Alive(u) ensures x in s.proxies {
      if x != r { OthersUnsupported(s, u, r, x, Alive(u)); }
    }
  }

  lemma ResultUnsupported(s: State, u: State, r: ProxyId, K: set<ProxyId>)
    requires Unit(s, u, r) && s.handles.Keys == s.proxies.Keys && forall l :: l in s.pointing ==> s.pointing[l] in s.proxies
    ensures r !in s.proxies ==> !Supported(u, r, K)
  {
  }

  lemma OthersUnsupported(s: State, u: State, r: ProxyId, x: ProxyId, K: set<ProxyId>)
    requires Unit(s, u, r) && s.handles.Keys == s.proxies.Keys && forall l :: l in s.pointing ==> s.pointing[l] in s.proxies
    requires x in u.proxies && x != r && (r !in s.proxies ==> r !in K)
    ensures x !in s.proxies ==> !Supported(u, x, K)
  {
  }

  lemma Targets(s: State)
    requires Inv(s)
    ensures forall l :: l in s.pointing ==> s.pointing[l] in s.proxies
  {
    forall l | l in s.pointing ensures s.pointing[l] in s.proxies { assert EntryOk(s, l); }
  }

  lemma RestrictedTables(s: State, u: State, r: ProxyId)
    requires Inv(s) && Unit(s, u, r)
    ensures SameTables(s, Restrict(u, s.proxies.Keys))
  {
    hide Inv, Unit, Restrict, Tally;
    EverythingKept(s);
    RestrictedProxies(s, u, r);
    RestrictedEntries(s, u, r);
    RestrictedBlocks(s, u, r);
    UnitFields(s, u, r);
    RestrictFields(u, s.proxies.Keys);
    var t := Restrict(u, s.proxies.Keys);
    assert t.refs == Tally(s.proxies.Keys, s.handles, s.pointing) == s.refs;
  }

  lemma UnitFields(s: State, u: State, r: ProxyId)
    requires Unit(s, u, r)
    ensures u.handles.Keys == u.proxies.Keys && u.mem == s.mem && u.acquired == s.acquired && u.released == s.released
    ensures u.dying == s.dying && u.freeing == s.freeing
  {
  }

  lemma RestrictFields(u: State, K: set<ProxyId>)
    requires u.handles.Keys == u.proxies.Keys
    ensures var t := Restrict(u, K);
      && t.mem == u.mem && t.acquired == u.acquired && t.dying == u.dying && t.freeing == u.freeing
      && t.blocks == KeptBlocks(u.blocks, u.index, K) && t.released == u.released + multiset(LostBlocks(u.blocks, u.index, K))
      && t.proxies.Keys <= t.handles.Keys && t.refs == Tally(t.proxies.Keys, t.handles, t.pointing)
  {
    hide KeptBlocks, LostBlocks, Anchored, Tally;
  }

  lemma RestrictedProxies(s: State, u: State, r: ProxyId)
    requires Inv(s) && Unit(s, u, r)
    ensures var t := Restrict(u, s.proxies.Keys);
      t.proxies == s.proxies && t.handles == s.handles && t.index == s.index
  {
    hide Inv, Anchored, Kept, KeptBlocks, LostBlocks, Tally;
    EverythingKept(s);
  }

  lemma RestrictedEntries(s: State, u: State, r: ProxyId)
    requires Inv(s) && Unit(s, u, r)
    ensures Restrict(u, s.proxies.Keys).pointing == s.pointing
  {
    hide Inv, Tally, KeptBlocks, LostBlocks, KeptIndex;
    EverythingKept(s);
    forall l | l in s.pointing ensures Anchored(u, l, s.proxies.Keys) { StillAnchored(s, u, r, l); }
  }

  lemma RestrictedBlocks(s: State, u: State, r: ProxyId)
    requires Inv(s) && Unit(s, u, r)
    ensures KeptBlocks(u.blocks, u.index, s.proxies.Keys) == s.blocks
    ensures LostBlocks(u.blocks, u.index, s.proxies.Keys) == {}
  {
    hide Inv, NewProxies;
    EverythingKept(s);
  }
}
