/** The global tables of proxy.c and the reference-counting code that updates them.
    Every method is proved against the declarative operations of ProxyState. */
module ProxyMachine {
  import opened Common
  import opened ProxyState
  import opened Cascade
  import opened Reclamation
  import opened ProxyOps
  import opened ProxyApi
  import opened ProxyCollector
  import opened ProxyOwnership

  /** A bound on the cascade: entries that can still be deleted plus proxies that can still die. */
  ghost function Fuel(s: State): nat {
    |s.pointing| + |s.proxies.Keys - s.dying|
  }

  lemma FuelShrinks(s: State, t: State)
    requires Evolves(s, t)
    ensures Fuel(t) <= Fuel(s)
  {
    Subset(t.pointing.Keys, s.pointing.Keys);
    Subset(t.proxies.Keys - t.dying, s.proxies.Keys - s.dying);
  }

  lemma Subset<T>(a: set<T>, b: set<T>)
    requires a <= b
    ensures |a| <= |b|
    ensures a != b ==> |a| < |b|
  {
    assert b == a + (b - a);
    if a != b { assert b - a != {}; }
  }

  lemma FuelDrops(s: State, t: State, p: ProxyId)
    requires t.pointing == s.pointing && t.proxies == s.proxies && t.dying == s.dying + {p}
    requires p in s.proxies && p !in s.dying
    ensures Fuel(t) < Fuel(s)
  {
    Subset(t.proxies.Keys - t.dying, s.proxies.Keys - s.dying);
  }

  // ----- The steps of the methods below, as facts about the state before and after -----

  lemma DecRefStep(s: State, p: ProxyId)
    requires Mid(s) && p in s.handles && 0 < s.handles[p]
    ensures p in s.refs && 0 < s.refs[p] && s.handles.Keys == s.proxies.Keys
    ensures DropOne(s, p) == s.(refs := s.refs[p := s.refs[p] - 1], handles := s.handles[p := s.handles[p] - 1])
    ensures Fuel(DropOne(s, p)) == Fuel(s)
    ensures s.refs[p] == 1 ==> ReadyToDie(DropOne(s, p), p)
    ensures s.refs[p] != 1 ==> Mid(DropOne(s, p)) && Evolves(DropOne(s, p), DropOne(s, p))
  {
    hide EntriesOk, BlocksOk, LedgerOk, OwnersOk, IndexOk, Evolves, Tally;
    DropOneCounts(s, p);
    DropOneStep(s, p);
    EvolvesRefl(DropOne(s, p));
  }

  lemma Then(s: State, t: State, u: State)
    requires Evolves(s, t) && Mid(t) && Evolves(t, u)
    ensures Evolves(s, u) && Fuel(u) <= Fuel(s)
  {
    hide Evolves, Fuel;
    EvolvesTrans(s, t, u);
    FuelShrinks(s, u);
  }

  lemma DeadDelRef(s: State, l: Loc, t: State)
    requires Mid(s) && !Lives(s, l)
    requires l in s.pointing ==> Evolves(Unlink(s, l), t)
    requires l !in s.pointing ==> t == s
    ensures Evolves(s, t) && Fuel(t) <= Fuel(s)
  {
    hide Evolves, Fuel, IndexOk, EntriesOk, BlocksOk, LedgerOk, OwnersOk, Tally, DyingOk, Positive;
    if l in s.pointing {
      UnlinkDead(s, l);
      EvolvesTrans(s, Unlink(s, l), t);
    } else {
      EvolvesRefl(s);
    }
    FuelShrinks(s, t);
  }

  lemma GiveUpFacts(s: State, p: ProxyId, b: Addr)
    requires ReadyToDie(s, p) && BaseOf(s, p, b)
    ensures b in s.blocks && Mid(GiveUp(s, p, b)) && Evolves(s, GiveUp(s, p, b))
    ensures Fuel(GiveUp(s, p, b)) < Fuel(s)
    ensures p !in s.dying && b !in s.freeing
  {
    GiveUpStep(s, p, b);
    FuelDrops(s, GiveUp(s, p, b), p);
    hide Mid, Evolves, Fuel, CountOk, EntriesOk, BlocksOk, LedgerOk, DyingOk, Positive;
  }

  lemma StartDyingFacts(s: State, p: ProxyId)
    requires ReadyToDie(s, p) && !IsBase(s, p)
    ensures Mid(StartDying(s, p)) && Evolves(s, StartDying(s, p))
    ensures Fuel(StartDying(s, p)) < Fuel(s)
    ensures p !in s.dying
    ensures forall a :: a in s.index ==> s.index[a] != p
  {
    StartDyingStep(s, p);
    FuelDrops(s, StartDying(s, p), p);
    hide Mid, Evolves, Fuel, CountOk, EntriesOk, BlocksOk, LedgerOk, DyingOk, Positive;
  }

  lemma IndexOnlyShrinks(s: State, t: State)
    requires Evolves(s, t)
    ensures forall a :: a in t.index ==> a in s.index && t.index[a] == s.index[a]
  {
  }

  lemma ClearIndex(g: State, t: State, a: Addr)
    requires Evolves(g, t) && Mid(t) && a in g.index && g.index[a] in t.dying
    ensures Mid(RemoveIndex(t, a)) && Evolves(g, RemoveIndex(t, a)) && Fuel(RemoveIndex(t, a)) <= Fuel(t)
    ensures forall c :: c in t.index ==> c in g.index && t.index[c] == g.index[c]
  {
    hide Mid, Evolves, Fuel;
    IndexOnlyShrinks(g, t);
    if a in t.index {
      RemoveIndexStep(t, a);
    } else {
      EvolvesRefl(t);
      assert RemoveIndex(t, a) == t;
    }
    Then(g, t, RemoveIndex(t, a));
    FuelShrinks(t, RemoveIndex(t, a));
  }

  lemma OnlyIndexed(s: State, p: ProxyId, b: Addr)
    requires ReadyToDie(s, p) && BaseOf(s, p, b)
    ensures forall a :: a in s.index && s.index[a] == p ==> a == b
  {
    hide CountOk, EntriesOk, BlocksOk, LedgerOk, OwnersOk;
  }

  lemma PointingOnlyShrinks(s: State, t: State)
    requires Evolves(s, t)
    ensures t.pointing.Keys <= s.pointing.Keys
  {
  }

  lemma ReadyFacts(s: State, p: ProxyId)
    requires ReadyToDie(s, p)
    ensures p in s.proxies
  {
  }

  lemma FreeingHasBlocks(s: State, b: Addr)
    requires Mid(s) && b in s.freeing
    ensures b in s.blocks
  {
  }

  lemma SlotsAllGone(s: State, t: State, b: Addr)
    requires Mid(t) && b in t.freeing && Evolves(s, t) && b in s.blocks
    requires forall o :: o in s.blocks[b].slots ==> Slot(b, o) !in t.pointing
    ensures forall o :: Slot(b, o) !in t.pointing
  {
    forall o ensures Slot(b, o) in t.pointing ==> o in t.blocks[b].slots {
      assert Slot(b, o) in t.pointing ==> EntryOk(t, Slot(b, o));
    }
  }

  lemma TakeOverFacts(s: State, l: Loc)
    requires Mid(s) && l in s.pointing
    ensures s.pointing[l] in s.handles && Mid(TakeOver(s, l)) && Fuel(TakeOver(s, l)) < Fuel(s)
    ensures s.proxies.Keys <= s.handles.Keys && l !in Unlink(s, l).pointing
    ensures TakeOver(s, l).handles.Keys == s.proxies.Keys
    ensures DropOne(TakeOver(s, l), s.pointing[l]) == Unlink(s, l)
  {
    hide IndexOk, EntriesOk, BlocksOk, LedgerOk, OwnersOk, Tally, DyingOk, Positive;
    TakeOverStep(s, l);
    Subset(TakeOver(s, l).pointing.Keys, s.pointing.Keys);
  }

  class Runtime {
    var index: map<Addr, ProxyId>
    var pointing: map<Loc, ProxyId>
    var proxies: map<ProxyId, Proxy>
    var refs: map<ProxyId, nat>
    var blocks: map<Addr, Block>
    var mem: map<Loc, Addr>
    ghost var handles: map<ProxyId, nat>
    ghost var tracked: set<Loc>
    ghost var acquired: multiset<Addr>
    ghost var released: multiset<Addr>
    ghost var dying: set<ProxyId>
    ghost var freeing: set<Addr>

    ghost function View(): State
      reads this
    {
      State(index, pointing, proxies, refs, handles, blocks, mem, tracked, acquired, released, dying, freeing)
    }

    // ----- The cascade -----

    /** Py_DECREF: give back one reference, and deallocate when it was the last one. */
    method DecRef(p: ProxyId)
      requires Mid(View()) && p in handles && 0 < handles[p]
      modifies this
      ensures Mid(View()) && dying == old(dying) && freeing == old(freeing)
      ensures Evolves(DropOne(old(View()), p), View())
      decreases Fuel(View()), 3
    {
      hide Mid, ReadyToDie, Evolves, Fuel, DropOne;
      ghost var s := View();
      DecRefStep(s, p);
      refs := refs[p := refs[p] - 1];
      handles := handles[p := handles[p] - 1];
      assert View() == DropOne(s, p);
      if refs[p] == 0 {
        Dealloc(p);
      }
    }

    /** proxy_dealloc */
    method Dealloc(p: ProxyId)
      requires ReadyToDie(View(), p)
      modifies this
      ensures Mid(View()) && dying == old(dying) && freeing == old(freeing)
      ensures Evolves(old(View()), View())
      decreases Fuel(View()), 2
    {
      hide Mid, ReadyToDie, Evolves, Fuel, Unlink;
      ghost var s := View();
      Unregister(p);
      ghost var t := View();
      DelRef(PtrField(p));
      ghost var u := View();
      DeadDelRef(t, PtrField(p), u);
      IndexOnlyShrinks(t, u);
      RemoveProxyStep(u, p);
      Then(t, u, RemoveProxy(u, p));
      Then(s, t, RemoveProxy(u, p));
      proxies := proxies - {p};
      refs := refs - {p};
      handles := handles - {p};
      dying := dying - {p};
      assert View() == RemoveProxy(u, p);
    }

    /** Proxy_Unregister */
    method Unregister(p: ProxyId)
      requires ReadyToDie(View(), p)
      modifies this
      ensures Mid(View()) && freeing == old(freeing)
      ensures dying == old(dying) + {p} && p !in old(dying)
      ensures Evolves(old(View()), View()) && Fuel(View()) < Fuel(old(View()))
      ensures forall a :: a in index ==> index[a] != p
      decreases Fuel(View()), 1
    {
      hide Mid, ReadyToDie, Evolves, Fuel;
      ghost var s := View();
      ReadyFacts(s, p);
      var a := proxies[p].ptr;
      if a in index && index[a] == p {
        DetachPolicy(p, a);
        ghost var t := View();
        ClearIndex(s, t, a);
        OnlyIndexed(s, p, a);
        index := index - {a};
        assert View() == RemoveIndex(t, a);
      } else {
        StartDyingFacts(s, p);
        dying := dying + {p};
        assert View() == StartDying(s, p);
      }
    }

    /** __liballocs_detach_lifetime_policy: the block is freed when Python was its last owner. */
    method DetachPolicy(p: ProxyId, b: Addr)
      requires ReadyToDie(View(), p) && BaseOf(View(), p, b)
      modifies this
      ensures Mid(View()) && freeing == old(freeing)
      ensures dying == old(dying) + {p} && p !in old(dying)
      ensures Evolves(old(View()), View()) && Fuel(View()) < Fuel(old(View()))
      decreases Fuel(View()), 0
    {
      hide Mid, ReadyToDie, Evolves, Fuel;
      ghost var s := View();
      GiveUpFacts(s, p, b);
      ghost var g := GiveUp(s, p, b);
      blocks := blocks[b := blocks[b].(python := false)];
      dying := dying + {p};
      if !blocks[b].manual {
        freeing := freeing + {b};
        assert View() == g;
        FreeBlock(b);
        Then(s, g, View());
        FuelShrinks(g, View());
      } else {
        assert View() == g;
      }
    }

    /** free, with the notifications that liballocs sends for the slots of the block. */
    method FreeBlock(b: Addr)
      requires Mid(View()) && b in freeing
      modifies this
      ensures Mid(View()) && dying == old(dying) && freeing == old(freeing) - {b}
      ensures Evolves(old(View()), View())
      decreases Fuel(View()), 1
    {
      hide Mid, Evolves, Fuel, Unlink;
      ghost var s := View();
      FreeingHasBlocks(s, b);
      var todo := blocks[b].slots;
      EvolvesRefl(s);
      while todo != {}
        invariant Mid(View()) && dying == s.dying && freeing == s.freeing
        invariant Evolves(s, View()) && Fuel(View()) <= Fuel(s)
        invariant forall o :: o in s.blocks[b].slots && o !in todo ==> Slot(b, o) !in pointing
      {
        var o :| o in todo;
        ghost var t := View();
        DelRef(Slot(b, o));
        DeadDelRef(t, Slot(b, o), View());
        Then(s, t, View());
        PointingOnlyShrinks(t, View());
        todo := todo - {o};
      }
      ghost var t := View();
      SlotsAllGone(s, t, b);
      RemoveBlockStep(t, b);
      Then(s, t, RemoveBlock(t, b));
      blocks := blocks - {b};
      freeing := freeing - {b};
      released := released + multiset{b};
      assert View() == RemoveBlock(t, b);
    }

    /** proxy_delref: delete the entry of a location; unknown locations are ignored. */
    method DelRef(l: Loc)
      requires Mid(View())
      modifies this
      ensures Mid(View()) && dying == old(dying) && freeing == old(freeing)
      ensures l !in pointing
      ensures l !in old(pointing) ==> View() == old(View())
      ensures l in old(pointing) ==> Evolves(Unlink(old(View()), l), View())
      decreases Fuel(View()), 0
    {
      hide Mid, Evolves, Fuel, Unlink, DropOne;
      ghost var s := View();
      if l in pointing {
        TakeOverFacts(s, l);
        var q := pointing[l];
        pointing := pointing - {l};
        handles := handles[q := handles[q] + 1];
        assert View() == TakeOver(s, l);
        DecRef(q);
        PointingOnlyShrinks(Unlink(s, l), View());
      }
    }

    // ----- Releasing references, between operations -----

    /** Py_DECREF from Python code: the whole cascade is `Drop`. */
    method Release(p: ProxyId)
      requires Inv(View()) && p in handles && 0 < handles[p]
      modifies this
      ensures Inv(View()) && View() == Drop(old(View()), p)
    {
      hide Mid, Evolves, Raw, DropOne, Reclaim;
      ghost var s := View();
      DropRaw(s, p);
      DecRef(p);
      Settle(DropOne(s, p), View());
    }

    /** proxy_delref, called for a location whose storage stays. */
    method Unpoint(l: Loc)
      requires Inv(View())
      modifies this
      ensures Inv(View()) && View() == Forget(old(View()), l)
    {
      hide Mid, Evolves, Raw, Unlink, Reclaim;
      ghost var s := View();
      InvKeys(s);
      if l in pointing { UnlinkRaw(s, l); }
      DelRef(l);
      if l in s.pointing { Settle(Unlink(s, l), View()); }
    }

    /** free, called by C code on a block that it owns. */
    method ForeignFree(b: Addr)
      requires Inv(View()) && b in blocks && blocks[b].manual
      modifies this
      ensures Inv(View()) && View() == FreeByC(old(View()), b)
    {
      hide Mid, Evolves, Raw, Reclaim;
      ghost var s := View();
      InvKeys(s);
      DisownRaw(s, b);
      blocks := blocks[b := blocks[b].(manual := false)];
      assert View() == Disown(s, b);
      if blocks[b].python {
        DisownOwned(s, b);
      } else {
        StartFreeing(s, b);
        freeing := freeing + {b};
        FreeBlock(b);
        EvolvesTrans(Disown(s, b), Freeing(s, b), View());
        Settle(Disown(s, b), View());
      }
    }

    // ----- Taking references -----

    /** Py_INCREF */
    method IncRef(p: ProxyId)
      requires Inv(View()) && p in proxies
      modifies this
      ensures Inv(View()) && p in old(refs) && p in old(handles) && View() == AddHandle(old(View()), p)
    {
      hide Inv;
      AddHandleInv(View(), p);
      refs := refs[p := refs[p] + 1];
      handles := handles[p := handles[p] + 1];
    }

    /** Proxy_AddRefTo; the assertion of the source is the second precondition. */
    method AddRefTo(q: ProxyId, l: Loc)
      requires Inv(View()) && l !in pointing && PointsInto(View(), l, q)
      modifies this
      ensures Inv(View()) && q in old(refs) && View() == Link(old(View()), l, q)
    {
      hide Inv, PointsInto;
      LinkInv(View(), l, q);
      pointing := pointing[l := q];
      refs := refs[q := refs[q] + 1];
      tracked := tracked + {l};
    }

    /** PyObject_New of a proxy, `p` being the new object. */
    method NewObject(p: ProxyId, ptr: Addr, ptype: ProxyType)
      requires Inv(View()) && p !in proxies
      modifies this
      ensures Inv(View()) && View() == NewProxy(old(View()), p, ptr, ptype)
    {
      hide Inv;
      NewProxyInv(View(), p, ptr, ptype);
      proxies := proxies[p := Proxy(ptr, ptype)];
      refs := refs[p := 1];
      handles := handles[p := 1];
      tracked := tracked - {PtrField(p)};
    }

    /** Proxy_Register */
    method RegisterProxy(p: ProxyId)
      requires Inv(View()) && p in proxies && proxies[p].ptr in blocks && proxies[p].ptr !in index
      requires blocks[proxies[p].ptr].managed && blocks[proxies[p].ptr].ptype.Some?
      modifies this
      ensures Inv(View()) && View() == Register(old(View()), p, old(proxies)[p].ptr)
    {
      hide Inv;
      var b := proxies[p].ptr;
      RegisterInv(View(), p, b);
      index := index[b := p];
      blocks := blocks[b := blocks[b].(python := true)];
    }

    /** Proxy_GetOrCreateBase; while the base is being created the static flag of the
        source stops the inner call, so the new object has no base of its own. */
    method GetOrCreateBase(a: Addr, created: ProxyId) returns (r: Option<ProxyId>)
      requires Inv(View()) && created !in proxies
      modifies this
      ensures Inv(View()) && Outcome(View(), r) == GetBase(old(View()), a, created)
    {
      hide Inv, AddHandle, NewProxy, Register;
      ghost var s := View();
      InvBlocks(s);
      if b :| b in blocks && b <= a < b + blocks[b].size {
        BlockAtUnique(s, b, a);
        if !blocks[b].managed || blocks[b].ptype.None? {
          return None;
        }
        if b in index {
          BaseAt(s, b);
          var q := index[b];
          IncRef(q);
          return Some(q);
        }
        var ptype := blocks[b].ptype.value;
        NewProxyFields(s, created, b, ptype);
        NewObject(created, b, ptype);
        RegisterProxy(created);
        return Some(created);
      }
      return None;
    }

    /** The common end of the getfrom functions and of slicing: a new proxy `p` that
        takes over the caller's reference to `base` as an entry for its own address. */
    method DeriveFrom(base: Option<ProxyId>, p: ProxyId, a: Addr, ptype: ProxyType)
      requires Inv(View()) && p !in proxies
      requires base.Some? ==>
        && IsBase(View(), base.value)
        && base.value in handles && 0 < handles[base.value]
        && Spans(View(), proxies[base.value].ptr, a)
      modifies this
      ensures Inv(View())
      ensures base.Some? ==> base.value != p && base.value in old(handles) && 0 < old(handles)[base.value]
      ensures View() == Derive(Outcome(old(View()), base), p, a, ptype)
    {
      hide Inv, NewProxy, Link, Drop, Trade, PointsInto;
      ghost var s := View();
      NewProxyFields(s, p, a, ptype);
      NewObject(p, a, ptype);
      if base.Some? {
        var q := base.value;
        DeriveSteps(s, q, p, a, ptype);
        AddRefTo(q, PtrField(p));
        Release(q);
      }
    }

    /** Proxy_GetFrom */
    method ProxyGetFrom(a: Addr, ptype: ProxyType, created: ProxyId, p: ProxyId) returns (r: ProxyId)
      requires Inv(View()) && created !in proxies && p !in proxies && p != created
      modifies this
      ensures Inv(View())
      ensures Outcome(View(), Some(r)) == GetFrom(old(View()), a, ptype, created, p)
    {
      hide Inv, GetBase, Derive, IsBase, Spans;
      ghost var s := View();
      GetBaseInv(s, a, created);
      GetBaseNew(s, a, created);
      GetBaseSpans(s, a, created);
      var base := GetOrCreateBase(a, created);
      if base.Some? && proxies[base.value] == Proxy(a, ptype) {
        return base.value;
      }
      DeriveFrom(base, p, a, ptype);
      return p;
    }

    /** addrproxy_getfrom on the pointer slot `l`; `accepted` are the proxy types that pass
        the type check against the pointee (all of them for a pointer to void). */
    method DecodePointer(l: Loc, accepted: set<ProxyType>, ptype: ProxyType, created: ProxyId, p: ProxyId)
      returns (r: Option<ProxyId>)
      requires Inv(View()) && created !in proxies && p !in proxies && p != created && l in mem
      modifies this
      ensures Inv(View())
      ensures Outcome(View(), r) == Decode(old(View()), l, t => t in accepted, ptype, created, p)
    {
      hide Inv, GetBase, Derive, IsBase, Spans;
      ghost var s := View();
      var a := mem[l];
      if a == 0 {
        return None;
      }
      GetBaseInv(s, a, created);
      GetBaseNew(s, a, created);
      GetBaseSpans(s, a, created);
      var base := GetOrCreateBase(a, created);
      if base.Some? && proxies[base.value].ptype in accepted {
        return base;
      }
      DeriveFrom(base, p, a, ptype);
      return Some(p);
    }

    /** addrproxy_subscript with a slice that starts at address `a`; None when the assertion
        that a base exists fails. */
    method TakeSlice(self: ProxyId, a: Addr, created: ProxyId, p: ProxyId) returns (r: Option<ProxyId>)
      requires Inv(View()) && created !in proxies && p !in proxies && p != created && self in proxies
      requires SliceInBlock(View(), self, a)
      modifies this
      ensures Inv(View())
      ensures Outcome(View(), r) == Slice(old(View()), self, a, created, p)
    {
      hide Inv, GetBase, Derive, IsBase, Spans;
      ghost var s := View();
      var ptr, ptype := proxies[self].ptr, proxies[self].ptype;
      GetBaseInv(s, ptr, created);
      GetBaseNew(s, ptr, created);
      GetBaseAt(s, ptr, created);
      var base := GetOrCreateBase(ptr, created);
      if base.None? {
        return None;
      }
      DeriveFrom(base, p, a, ptype);
      return Some(p);
    }

    // ----- Memory -----

    /** addrproxy_storeinto: None stores NULL, a value of the wrong type is refused; the
        liballocs notification does delref, then addref when the new target is registered. */
    method StorePointer(value: Option<ProxyId>, typeOk: bool, l: Loc) returns (ok: bool)
      requires Inv(View()) && WritableSlot(View(), l) && (value.Some? ==> value.value in proxies)
      modifies this
      ensures Inv(View())
      ensures ok == (value.None? || typeOk)
      ensures old(View()).handles.Keys == old(View()).proxies.Keys
      ensures View() == if !ok then old(View())
                        else Write(old(View()), l, if value.None? then 0 else old(proxies)[value.value].ptr)
    {
      hide Inv, WritableSlot;
      InvKeys(View());
      if value.None? {
        WriteThrough(l, 0);
        return true;
      }
      if !typeOk {
        return false;
      }
      WriteThrough(l, proxies[value.value].ptr);
      return true;
    }

    /** __notify_ptr_write followed by the write. */
    method WriteThrough(l: Loc, v: Addr)
      requires Inv(View()) && WritableSlot(View(), l)
      modifies this
      ensures Inv(View()) && old(View()).handles.Keys == old(View()).proxies.Keys
      ensures View() == Write(old(View()), l, v)
    {
      hide Inv, WritableSlot, Forget, Lookup, BlocksOk;
      ghost var s := View();
      InvKeys(s);
      WriteInv(s, l, v);
      Unpoint(l);
      WriteFacts(s, l, v);
      tracked := tracked - {l};
      NotifyAddRef(l, v);
      mem := mem[l := v];
      assert View() == Write(s, l, v);
    }

    /** The second half of the notification: proxy_addref when the target is registered. */
    method NotifyAddRef(l: Loc, v: Addr)
      requires BlocksOk(blocks) && forall b :: b in index ==> index[b] in refs
      modifies this
      ensures var s := old(View());
        var b := BlockAt(s, v);
        View() == if b.Some? && b.value in s.index then Link(s, l, s.index[b.value]) else s
    {
      hide BlocksOk;
      if b :| b in blocks && b <= v < b + blocks[b].size {
        BlockAtUnique(View(), b, v);
        if b in index {
          var q := index[b];
          refs := refs[q := refs[q] + 1];
          pointing := pointing[l := q];
          tracked := tracked + {l};
        }
      }
    }

    /** One slot of a typed memcpy. */
    method CopyPointer(dst: Loc, src: Loc)
      requires Inv(View()) && WritableSlot(View(), dst) && src.Slot? && src != dst && src in mem
      modifies this
      ensures Inv(View()) && old(View()).handles.Keys == old(View()).proxies.Keys
      ensures View() == CopySlot(old(View()), dst, src)
    {
      hide Inv, WritableSlot, Forget, PointsInto;
      ghost var s := View();
      InvKeys(s);
      CopySlotInv(s, dst, src);
      var v := mem[src];
      Unpoint(dst);
      ForgetTargets(s, dst);
      tracked := tracked - {dst};
      if src in pointing {
        var q := pointing[src];
        refs := refs[q := refs[q] + 1];
        pointing := pointing[dst := q];
        tracked := tracked + {dst};
      }
      mem := mem[dst := v];
      assert View() == CopySlot(s, dst, src);
    }

    /** A typed memcpy between two structures: `dst` and `src` are their pointer slots. */
    method CopyStruct(dst: seq<Loc>, src: seq<Loc>)
      requires Inv(View()) && CopyOk(View(), dst, src)
      modifies this
      ensures Inv(View()) && CopyDone(old(View()), dst, src, |dst|, View())
    {
      hide Inv, StableSlot, SameContent, CopySlot;
      ghost var s := View();
      StartCopy(s, dst, src);
      for i := 0 to |dst|
        invariant Inv(View()) && CopyDone(s, dst, src, i, View())
      {
        CopyDoneStep(s, dst, src, i, View());
        StableWritable(View(), dst[i]);
        StableWritable(s, src[i]);
        CopyPointer(dst[i], src[i]);
      }
    }

    /** memset: no notification is sent, so the strong index keeps its entries. */
    method ZeroMemory(b: Addr, from: nat, to: nat)
      requires Inv(View())
      modifies this`mem
      ensures Inv(View()) && View() == ZeroFill(old(View()), b, from, to)
    {
      hide Inv;
      ZeroFillInv(View(), b, from, to);
      mem := map l | l in mem :: if InZone(l, b, from, to) then 0 else mem[l];
    }

    /** malloc, called by C code, together with the type that liballocs gives the block. */
    method Malloc(b: Addr, block: Block, content: map<Loc, Addr>)
      requires Inv(View()) && FreshBlock(View(), b, block, content)
      modifies this
      ensures Inv(View()) && View() == NewBlock(old(View()), b, block, content)
    {
      hide Inv, FreshBlock;
      NewBlockInv(View(), b, block, content);
      blocks := blocks[b := block];
      mem := mem + content;
      acquired := acquired + multiset{b};
      tracked := tracked - (set l | l in tracked && l.Slot? && l.block == b);
    }

    /** compositeproxy_ctor and arrayproxy_ctor, up to initialisation. */
    method ConstructProxy(b: Addr, block: Block, content: map<Loc, Addr>, p: ProxyId)
      requires Inv(View()) && FreshBlock(View(), b, block, content)
      requires block.managed && block.ptype.Some? && p !in proxies
      modifies this
      ensures Inv(View()) && View() == Constructed(old(View()), b, block, content, p)
    {
      hide Inv, FreshBlock;
      ghost var s := View();
      ConstructedInv(s, b, block, content, p);
      FreshNotIndexed(s, b, block, content);
      Malloc(b, block, content);
      NewObject(p, b, block.ptype.value);
      RegisterProxy(p);
      DisownOwned(View(), b);
      ForeignFree(b);
    }

    // ----- The cyclic collector -----

    /** The traversal of a block with Proxy_ClearRef: every slot is delref'd. */
    method ClearSlots(b: Addr)
      requires Inv(View()) && b in blocks
      modifies this
      ensures Inv(View()) && old(View()).handles.Keys == old(View()).proxies.Keys
      ensures View() == Reclaim(Lower(old(View()), SlotsOf(b, old(blocks)[b]), old(handles)))
    {
      hide Inv, Reclaim, Lower, Forget;
      ghost var t := View();
      StartClear(t);
      var todo := blocks[b].slots;
      ghost var done: set<Loc> := {};
      while todo != {}
        invariant Inv(View()) && View() == Reclaim(Lower(t, done, t.handles))
        invariant todo <= t.blocks[b].slots && done == SlotSet(b, t.blocks[b].slots - todo)
      {
        var o :| o in todo;
        ForgetOneMore(t, done, View(), Slot(b, o));
        Unpoint(Slot(b, o));
        todo := todo - {o};
        done := done + {Slot(b, o)};
        assert done == SlotSet(b, t.blocks[b].slots - todo);
      }
      SlotSetAll(b, t.blocks[b], todo);
    }

    /** tp_clear of a proxy that is still tracked, with the reference CPython takes around it. */
    method ClearProxy(p: ProxyId)
      requires Inv(View())
      modifies this
      ensures Inv(View()) && old(View()).handles.Keys == old(View()).proxies.Keys
      ensures View() == ClearOne(old(View()), p)
    {
      hide Inv, Reclaim, Lower, Drop, SlotsOf, EntriesIn;
      ghost var s := View();
      InvKeys(s);
      if p !in proxies || proxies[p].ptr !in index || index[proxies[p].ptr] != p {
        return;
      }
      var b := proxies[p].ptr;
      SlotsAreEntries(s, p, b);
      IncRef(p);
      ClearSlots(b);
      DropAfterClear(s, p, SlotsOf(b, s.blocks[b]), View());
      Release(p);
    }

    /** The collector clears the garbage it found, in the order of its list. */
    method CollectCycles(order: seq<ProxyId>)
      requires Inv(View())
      modifies this
      ensures Inv(View()) && View() == Collect(old(View()), order)
    {
      hide Inv, ClearOne;
      ghost var s := View();
      for i := 0 to |order|
        invariant Inv(View()) && View() == Collect(s, order[..i])
      {
        InvKeys(View());
        assert order[..i + 1][..i] == order[..i];
        ClearProxy(order[i]);
      }
      assert order[..|order|] == order;
    }
  }

  ghost function SlotSet(b: Addr, offsets: set<nat>): set<Loc> {
    set o | o in offsets :: Slot(b, o)
  }

  lemma SlotSetAll(b: Addr, block: Block, todo: set<nat>)
    requires todo == {}
    ensures SlotSet(b, block.slots - todo) == SlotsOf(b, block)
  {
    assert block.slots - todo == block.slots;
  }

  lemma StartClear(t: State)
    requires Inv(t)
    ensures t.handles.Keys == t.proxies.Keys && t == Reclaim(Lower(t, {}, t.handles))
  {
    hide Inv, Reclaim, Tally;
    InvKeys(t);
    InvCounts(t);
    LowerNothing(t, {}, t.handles);
    ReclaimSettled(t);
  }

  lemma FreshNotIndexed(s: State, b: Addr, block: Block, content: map<Loc, Addr>)
    requires Inv(s) && FreshBlock(s, b, block, content)
    ensures b !in s.index && !block.python && block.manual
  {
  }

  lemma ForgetTargets(s: State, l: Loc)
    requires Inv(s)
    ensures s.handles.Keys == s.proxies.Keys
    ensures var t := Forget(s, l);
      forall k :: k in t.pointing ==> t.pointing[k] in t.refs
  {
    ForgetInv(s, l);
    var t := Forget(s, l);
    hide Forget, LedgerOk, OwnersOk, BlocksOk;
    forall k | k in t.pointing ensures t.pointing[k] in t.refs { assert EntryOk(t, k); }
  }

  lemma StartCopy(s: State, dst: seq<Loc>, src: seq<Loc>)
    requires CopyOk(s, dst, src)
    ensures CopyDone(s, dst, src, 0, s)
  {
  }

  lemma StableWritable(s: State, l: Loc)
    requires Inv(s) && StableSlot(s, l)
    ensures l.Slot? && WritableSlot(s, l)
  {
    hide Inv, Secure, WritableSlot;
    SecureIsWritable(s, l);
  }

  lemma WriteFacts(s: State, l: Loc, v: Addr)
    requires Inv(s) && WritableSlot(s, l)
    ensures s.handles.Keys == s.proxies.Keys
    ensures var t := Forget(s, l);
      && BlocksOk(t.blocks) && (forall b :: b in t.index ==> t.index[b] in t.refs)
  {
    ForgetInv(s, l);
    hide WritableSlot, Forget, LedgerOk, OwnersOk, EntriesOk, BlocksOk;
  }

  lemma DeriveSteps(s: State, q: ProxyId, p: ProxyId, a: Addr, ptype: ProxyType)
    requires Inv(s) && p !in s.proxies && IsBase(s, q) && q in s.handles && 0 < s.handles[q]
    requires Spans(s, s.proxies[q].ptr, a)
    ensures var t := NewProxy(s, p, a, ptype);
      && Inv(t) && PtrField(p) !in t.pointing && PointsInto(t, PtrField(p), q) && q in t.handles && 0 < t.handles[q]
      && q in t.refs && q != p
      && Drop(Link(t, PtrField(p), q), q) == Trade(t, p, q) && q in Link(t, PtrField(p), q).handles
      && 0 < Link(t, PtrField(p), q).handles[q]
  {
    hide CountOk, IndexOk, BlocksOk, LedgerOk, OwnersOk, Positive, DyingOk, Tally;
    NoEntryNames(s, p);
    NewProxyInv(s, p, a, ptype);
    TradeStep(NewProxy(s, p, a, ptype), p, q);
  }

  lemma GetBaseSpans(s: State, a: Addr, created: ProxyId)
    requires Inv(s) && created !in s.proxies
    ensures var o := GetBase(s, a, created);
      o.result.Some? ==> o.result.value in o.state.proxies && Spans(o.state, o.state.proxies[o.result.value].ptr, a)
  {
    hide Inv;
    GetBaseInv(s, a, created);
  }

  ghost function Freeing(s: State, b: Addr): State
    requires b in s.blocks
  {
    Disown(s, b).(freeing := s.freeing + {b})
  }

  lemma StartFreeing(s: State, b: Addr)
    requires Inv(s) && b in s.blocks && !s.blocks[b].python
    ensures Mid(Freeing(s, b)) && Evolves(Disown(s, b), Freeing(s, b))
    ensures Freeing(s, b).handles.Keys == Freeing(s, b).proxies.Keys
  {
    hide Raw, OwnersOk, Positive, Evolves;
    InvKeys(s);
    DisownRaw(s, b);
    FreeingRaw(Disown(s, b), s.freeing + {b});
    FreeingOwners(s, b);
    FreeingEvolves(s, b);
  }

  lemma FreeingOwners(s: State, b: Addr)
    requires OwnersOk(s) && Positive(s) && b in s.blocks && !s.blocks[b].python
    ensures OwnersOk(Freeing(s, b)) && Positive(Freeing(s, b))
  {
  }

  /** Marking a block as being freed changes nothing that Raw says. */
  lemma FreeingRaw(s: State, f: set<Addr>)
    requires Raw(s)
    ensures Raw(s.(freeing := f))
  {
    hide BlocksOk, Tally;
    var t := s.(freeing := f);
    assert EntriesOk(t) by {
      forall l | l in t.pointing ensures EntryOk(t, l) { assert EntryOk(s, l); }
    }
  }

  lemma FreeingEvolves(s: State, b: Addr)
    requires Inv(s) && b in s.blocks && !s.blocks[b].python
    ensures Evolves(Disown(s, b), Freeing(s, b))
  {
    hide EntriesOk, BlocksOk, LedgerOk, CountOk, DyingOk, Positive, Supported;
    var d := Disown(s, b);
    var t := Freeing(s, b);
    forall K | SelfSupporting(d, K) ensures SelfSupporting(t, K) { SupportTransfer(d, t, K); }
  }

  lemma InvBlocks(s: State)
    requires Inv(s)
    ensures BlocksOk(s.blocks)
  {
  }

  lemma NewProxyFields(s: State, p: ProxyId, ptr: Addr, ptype: ProxyType)
    ensures var t := NewProxy(s, p, ptr, ptype);
      && t.index == s.index && t.blocks == s.blocks && t.pointing == s.pointing
      && p in t.proxies && t.proxies[p] == Proxy(ptr, ptype)
  {
  }

  lemma DropRaw(s: State, p: ProxyId)
    requires Inv(s) && p in s.handles && 0 < s.handles[p]
    ensures s.handles.Keys == s.proxies.Keys && Raw(DropOne(s, p)) && Quiet(DropOne(s, p))
  {
    hide Raw;
    RawParts(s);
    DropOneStep(s, p);
  }
}
