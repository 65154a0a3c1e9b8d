/** The type table of foreign_type.c: memoised construction in two phases.  An object is
    published in the table before it is initialised, so that cycles find it there. */
module TypeTable {
  import opened TypeGraph

  /** ForeignTypeObject together with the proxy type object it owns.  `fields` are the member
      types of a composite, `pointee` that of an address type, `proxyOwner` the foreign type
      whose proxy type this one uses, and `parent` the foreign type whose proxy type is the
      base class of this one's. */
  class ForeignType {
    const utype: TypeId
    var fields: seq<ForeignType?>
    var pointee: ForeignType?
    var proxyOwner: ForeignType?
    var parent: ForeignType?

    constructor (t: TypeId)
      ensures utype == t && fields == [] && pointee == null && proxyOwner == null && parent == null
    {
      utype := t;
      fields, pointee, proxyOwner, parent := [], null, null, null;
    }
  }

  class Table {
    const g: Graph
    var typdict: map<TypeId, ForeignType>
    var err: bool
    ghost var links: map<TypeId, seq<bool>>

    ghost function Abs(): Tab
      reads this
    {
      Tab(typdict.Keys, links, err)
    }

    /** What edge `m` of an initialised entry must have become. */
    ghost predicate LinkedTo(o: ForeignType?, m: TypeId, ok: bool)
      reads this`typdict
    {
      if ok then m in typdict && o == typdict[m] else o == null
    }

    /** `parent` is the last of the first `n` members that is a composite at offset 0. */
    ghost predicate ParentOk(c: TypeId, parent: ForeignType?, fields: seq<ForeignType?>, n: nat)
      requires Closed(g) && c in g.types && g.types[c].Composite? && n <= |fields| && n <= |g.types[c].members|
    {
      if parent == null then
        forall i :: 0 <= i < n && IsFirstMember(g, c, i) ==> fields[i] == null
      else
        exists i :: && 0 <= i < n && IsFirstMember(g, c, i) && fields[i] == parent
                    && forall j :: i < j < n && IsFirstMember(g, c, j) ==> fields[j] == null
    }

    lemma CompositeDone(c: TypeId, oks: seq<bool>)
      requires Closed(g) && c in typdict && c in g.types && g.types[c].Composite?
      requires var o := typdict[c];
        var ms := Edges(g, c);
        && |o.fields| == |oks| == |ms| <= |g.types[c].members| && o.proxyOwner == o
        && (forall j :: 0 <= j < |ms| ==> LinkedTo(o.fields[j], ms[j], oks[j]))
        && ParentOk(c, o.parent, o.fields, |ms|)
      ensures Initialised(c, oks)
    {
    }

    lemma AddressDone(a: TypeId, ok: bool)
      requires Closed(g) && a in typdict && a in g.types && g.types[a].Address?
      requires var o := typdict[a];
        var p := g.types[a].pointee;
        && LinkedTo(o.pointee, p, ok) && o.proxyOwner == o
        && o.parent == (if ok && p in g.types && g.types[p].Composite? then o.pointee else null)
      ensures Initialised(a, [ok])
    {
    }

    lemma ArrayDone(t: TypeId, ok: bool)
      requires Closed(g) && t in typdict && t in g.types && g.types[t].Array?
      requires |Edges(g, t)| == 1 && LinkedTo(typdict[t].proxyOwner, Edges(g, t)[0], ok)
      ensures Initialised(t, [ok])
    {
    }

    lemma KnownEdge(c: TypeId, i: nat)
      requires Closed(g) && c in g.types && i < |Edges(g, c)|
      ensures Known(g, Edges(g, c)[i])
    {
      assert Edges(g, c)[i] in Edges(g, c);
    }

    lemma ParentStart(c: TypeId)
      requires Closed(g) && c in g.types && g.types[c].Composite?
      ensures ParentOk(c, null, [], 0)
    {
    }

    lemma ParentStep(c: TypeId, parent: ForeignType?, fields: seq<ForeignType?>, i: nat, f: ForeignType?)
      requires Closed(g) && c in g.types && g.types[c].Composite? && i == |fields| && i < |g.types[c].members|
      requires ParentOk(c, parent, fields, i)
      ensures ParentOk(c, if f != null && IsFirstMember(g, c, i) then f else parent, fields + [f], i + 1)
    {
      var after := fields + [f];
      if f != null && IsFirstMember(g, c, i) {
        assert after[i] == f;
      } else if parent != null {
        var j :| 0 <= j < i && IsFirstMember(g, c, j) && fields[j] == parent
          && forall k :: j < k < i && IsFirstMember(g, c, k) ==> fields[k] == null;
        assert after[j] == parent;
      }
    }

    /** The object of entry `k` has been initialised, with `oks` telling which edges have a type. */
    ghost predicate Initialised(k: TypeId, oks: seq<bool>)
      requires Closed(g) && k in typdict && k in g.types
      reads this`typdict, typdict[k]
    {
      var o := typdict[k];
      var ms := Edges(g, k);
      && |oks| == |ms|
      && match g.types[k]
         case Composite(_, _, _) =>
           && |o.fields| == |ms| && o.proxyOwner == o
           && (forall i :: 0 <= i < |ms| ==> LinkedTo(o.fields[i], ms[i], oks[i]))
           && ParentOk(k, o.parent, o.fields, |ms|)
         case Address(p, _) =>
           && LinkedTo(o.pointee, p, oks[0]) && o.proxyOwner == o
           && o.parent == (if oks[0] && p in g.types && g.types[p].Composite? then o.pointee else null)
         case Array(e) => |ms| == 1 && LinkedTo(o.proxyOwner, ms[0], oks[0])
         case _ => true
    }

    ghost predicate Valid()
      reads this, set k | k in typdict :: typdict[k]
    {
      && Closed(g) && typdict.Keys <= g.types.Keys
      && (forall k :: k in typdict ==> typdict[k].utype == k)
      && (forall k :: k in links ==> k in typdict && Initialised(k, links[k]))
    }

    /** `o` is the object in the table for type `m`, or null. */
    ghost predicate ObjectOf(o: ForeignType?, m: TypeId)
      reads this`typdict
    {
      o == null || (m in typdict && o == typdict[m])
    }

    /** A type that cannot fail to have an object: a base type can, because of a pending exception. */
    ghost predicate Certain(m: TypeId) {
      Supported(g, m) && !g.types[m].Base?
    }

    /** Member `i` is a structure at offset 0. */
    predicate Leads(members: seq<TypeId>, offsets: seq<nat>, i: nat) {
      i < |members| && i < |offsets| && offsets[i] == 0 && members[i] in g.types && g.types[members[i]].Composite?
    }

    ghost predicate BaseMember(o: ForeignType, members: seq<TypeId>, offsets: seq<nat>, i: nat)
      reads o
    {
      && i < |o.fields| && Leads(members, offsets, i) && o.parent == o.fields[i]
      && forall j :: i < j < |o.fields| ==> !Leads(members, offsets, j)
    }

    /** The object of type `t` is what the description of `t` says. */
    ghost predicate Complete(t: TypeId)
      requires t in typdict && t in g.types
      reads this`typdict, typdict[t]
    {
      var o := typdict[t];
      match g.types[t]
      case Composite(named, members, offsets) =>
        && |o.fields| == (if named then |members| else 0) <= |offsets|
        && (forall i :: 0 <= i < |o.fields| ==> ObjectOf(o.fields[i], members[i]) && (Certain(members[i]) ==> o.fields[i] != null))
        && o.proxyOwner == o
        // the base class belongs to the last composite member at offset 0
        && (o.parent == null <==> forall i :: 0 <= i < |o.fields| ==> !Leads(members, offsets, i))
        && (o.parent != null ==> exists i :: BaseMember(o, members, offsets, i))
      case Address(p, _) =>
        && ObjectOf(o.pointee, p) && (Certain(p) ==> o.pointee != null) && o.proxyOwner == o
        && o.parent == if p in g.types && g.types[p].Composite? then o.pointee else null
      case Array(e) =>
        // the proxy type is that of the address type of the element
        e != 0 ==> (e in g.addressOf && g.addressOf[e] in typdict && o.proxyOwner == typdict[g.addressOf[e]]
                    && IsAddressOf(g, o.proxyOwner.utype, e))
      case _ => true
    }

    /** An initialised object is complete. */
    lemma InitialisedIsComplete(t: TypeId)
      requires Valid() && TabOk(g, Abs()) && t in links
      ensures t in typdict && t in g.types && Complete(t)
    {
      assert Initialised(t, links[t]) && LinksOk(g, typdict.Keys, Edges(g, t), links[t]);
      assert typdict[t].utype == t;
      if g.types[t].Composite? { ParentIsBase(t); }
    }

    /** What an outermost call returns is complete. */
    lemma MadeIsComplete(T: Tab, t: TypeId)
      requires Valid() && Outermost(g, T) && Known(g, t) && T.keys <= g.types.Keys && Make(g, T, t) == (Abs(), true)
      ensures t in typdict && t in g.types && Complete(t)
    {
      hide Initialised, Make, Complete, LinksOk, Closed;
      MakeCompletes(g, T, t);
      InitialisedIsComplete(t);
    }

    /** In a table without missing links every supported member, pointee and element has its object. */
    lemma NothingMissing(t: TypeId)
      requires Valid() && TabOk(g, Abs()) && AllLinked(g, Abs()) && t in links
      ensures t in typdict && t in g.types
      ensures match g.types[t]
              case Composite(named, members, _) =>
                named ==> |typdict[t].fields| == |members| && forall i :: 0 <= i < |members| && Supported(g, members[i]) ==> typdict[t].fields[i] != null
              case Address(p, _) => Supported(g, p) ==> typdict[t].pointee != null
              case Array(e) => e != 0 ==> typdict[t].proxyOwner != null
              case _ => true
    {
      hide Complete;
      InitialisedIsComplete(t);
      assert FullyLinked(g, Edges(g, t), links[t]) && Initialised(t, links[t]);
    }

    lemma ParentIsBase(t: TypeId)
      requires Valid() && TabOk(g, Abs()) && t in links && g.types[t].Composite?
      ensures var o, members, offsets := typdict[t], g.types[t].members, g.types[t].offsets;
        && (o.parent == null <==> forall i :: 0 <= i < |o.fields| ==> !Leads(members, offsets, i))
        && (o.parent != null ==> exists i :: BaseMember(o, members, offsets, i))
    {
      var o, members, offsets := typdict[t], g.types[t].members, g.types[t].offsets;
      assert Initialised(t, links[t]) && LinksOk(g, typdict.Keys, Edges(g, t), links[t]);
      forall i | 0 <= i < |o.fields| ensures Leads(members, offsets, i) <==> IsFirstMember(g, t, i) { }
      forall i | 0 <= i < |o.fields| && Leads(members, offsets, i) ensures o.fields[i] != null {
        assert Edges(g, t)[i] == members[i];
      }
      if o.parent != null {
        var i :| 0 <= i < |o.fields| && IsFirstMember(g, t, i) && o.fields[i] == o.parent
          && forall j :: i < j < |o.fields| && IsFirstMember(g, t, j) ==> o.fields[j] == null;
        assert BaseMember(o, members, offsets, i);
      }
    }

    constructor (graph: Graph)
      requires Closed(graph)
      ensures Valid() && g == graph && Abs() == EMPTY_TAB
    {
      g := graph;
      typdict := map[];
      err := false;
      links := map[];
    }

    /** PyErr_Clear */
    method ClearError()
      requires Valid()
      modifies this`err
      ensures Valid() && Abs() == old(Abs()).(err := false)
    {
      err := false;
    }

    /** ForeignType_GetOrCreate */
    method GetOrCreate(t: TypeId) returns (r: ForeignType?)
      requires Valid() && Known(g, t)
      modifies this
      ensures Valid() && (Abs(), r != null) == Make(g, old(Abs()), t)
      ensures r != null ==> t in typdict && r == typdict[t] && r.utype == t
      ensures forall k :: k in old(typdict) ==> k in typdict && typdict[k] == old(typdict)[k]
      ensures forall k :: k in typdict && k !in old(typdict) ==> fresh(typdict[k])
      ensures Outermost(g, old(Abs())) && r != null ==> t in g.types && Complete(t)
      decreases Left(g, typdict.Keys), 0, 0
    {
      hide Closed, Initialised, MakeAll, Left, Supported, Edges, Complete, TabOk;
      ghost var T := Abs();
      if t in typdict {
        if Outermost(g, T) { MadeIsComplete(T, t); }
        return typdict[t];
      }
      r := NewType(t);
      if r != null {
        LeftShrinks(g, typdict.Keys, typdict.Keys + {t});
        SupportedKnown(g, t);
        Publish(r);
        InitType(r);
        if Outermost(g, T) { MadeIsComplete(T, t); }
      }
    }

    /** PyDict_SetItem: the object is in the table, but not initialised. */
    method Publish(o: ForeignType)
      requires Valid() && o.utype !in typdict && o.utype in g.types
      requires forall k :: k in typdict ==> typdict[k] != o
      modifies this`typdict
      ensures Valid() && typdict == old(typdict)[o.utype := o] && typdict.Keys == old(typdict.Keys) + {o.utype}
    {
      hide Closed, ParentOk;
      typdict := typdict[o.utype := o];
    }

    /** ForeignType_New */
    method NewType(t: TypeId) returns (r: ForeignType?)
      requires Valid() && Known(g, t)
      modifies this`err
      ensures (r != null) == Creates(g, old(err), t)
      ensures err == if r == null then ErrAfterFailure(g, old(err), t) else old(err)
      ensures r != null ==> fresh(r) && r.utype == t && r.fields == [] && r.pointee == null && r.parent == null
      ensures r != null ==> r.proxyOwner == (if g.types[t].Composite? || g.types[t].Address? || g.types[t].Subprogram? then r else null)
    {
      if t == 0 {
        err := true;
        return null;
      }
      match g.types[t]
      case Void | Array(_) =>
        r := new ForeignType(t);
      case Base(enc, size, bits) =>
        // the exception of an unsupported encoding or of a bit field, or one that was pending before
        err := err || !Encodable(enc, size, bits);
        if err {
          return null;
        }
        r := new ForeignType(t);
      case Composite(_, _, _) | Subprogram(_) =>
        r := new ForeignType(t);
        r.proxyOwner := r;
      case Address(p, _) =>
        if p == 0 {
          return null;
        }
        r := new ForeignType(t);
        r.proxyOwner := r;
      case Enumeration | Subrange(_) | OtherKind =>
        err := true;
        return null;
    }

    /** ForeignType_Init, and the InitType function of each kind. */
    method InitType(o: ForeignType)
      requires Valid() && o.utype in typdict && typdict[o.utype] == o && o.utype !in links
      requires Supported(g, o.utype) && o.pointee == null && o.parent == null
      requires o.proxyOwner == (if g.types[o.utype].Composite? || g.types[o.utype].Address? || g.types[o.utype].Subprogram? then o else null)
      modifies this, o
      ensures Valid()
      ensures var (V, oks) := MakeAll(g, old(Abs()), Edges(g, o.utype), g.types[o.utype].Composite?);
        Abs() == V.(links := V.links[o.utype := oks])
      ensures forall k :: k in old(typdict) ==> k in typdict && typdict[k] == old(typdict)[k]
      ensures forall k :: k in typdict && k !in old(typdict) ==> fresh(typdict[k])
      decreases Left(g, typdict.Keys), 2, 1
    {
      hide MakeAll, Make, Left;
      var t := o.utype;
      if g.types[t].Composite? {
        InitComposite(o);
      } else if g.types[t].Address? {
        InitAddress(o);
      } else if g.types[t].Array? {
        InitArray(o);
      } else {
        MakeAllNone(g, Abs(), false);
        links := links[t := []];
      }
    }

    /** AddressProxy_InitType */
    method InitAddress(o: ForeignType)
      requires Valid() && o.utype in typdict && typdict[o.utype] == o && o.utype !in links
      requires g.types[o.utype].Address? && o.pointee == null && o.parent == null && o.proxyOwner == o
      modifies this, o
      ensures Valid()
      ensures var (V, oks) := MakeAll(g, old(Abs()), Edges(g, o.utype), false);
        Abs() == V.(links := V.links[o.utype := oks])
      ensures forall k :: k in old(typdict) ==> k in typdict && typdict[k] == old(typdict)[k]
      ensures forall k :: k in typdict && k !in old(typdict) ==> fresh(typdict[k])
      decreases Left(g, typdict.Keys), 1, 0
    {
      hide MakeAll, Make, Left, Initialised, Closed, Edges, Known, Complete, Outermost;
      var t := o.utype;
      var p := g.types[t].pointee;
      AddressEdges(g, t);
      MakeAllOne(g, Abs(), p, false);
      o.pointee := GetOrCreate(p);
      if o.pointee != null && g.types[p].Composite? {
        o.parent := o.pointee;
      }
      AddressDone(t, o.pointee != null);
      links := links[t := [o.pointee != null]];
    }

    /** ArrayProxy_InitType */
    method InitArray(o: ForeignType)
      requires Valid() && o.utype in typdict && typdict[o.utype] == o && o.utype !in links
      requires g.types[o.utype].Array? && o.proxyOwner == null
      modifies this, o
      ensures Valid()
      ensures var (V, oks) := MakeAll(g, old(Abs()), Edges(g, o.utype), false);
        Abs() == V.(links := V.links[o.utype := oks])
      ensures forall k :: k in old(typdict) ==> k in typdict && typdict[k] == old(typdict)[k]
      ensures forall k :: k in typdict && k !in old(typdict) ==> fresh(typdict[k])
      decreases Left(g, typdict.Keys), 1, 0
    {
      hide MakeAll, Make, Left, Initialised, Closed, Edges, Known, Complete, Outermost;
      var t := o.utype;
      ArrayEdges(g, t);
      var a := g.addressOf[g.types[t].elem];
      MakeAllOne(g, Abs(), a, false);
      var addr := GetOrCreate(a);
      if addr != null {
        o.proxyOwner := addr;
      }
      ArrayDone(t, addr != null);
      links := links[t := [addr != null]];
    }

    /** CompositeProxy_InitType */
    method InitComposite(o: ForeignType)
      requires Valid() && o.utype in typdict && typdict[o.utype] == o && o.utype !in links
      requires g.types[o.utype].Composite? && o.parent == null && o.proxyOwner == o
      modifies this, o
      ensures Valid()
      ensures var (V, oks) := MakeAll(g, old(Abs()), Edges(g, o.utype), true);
        Abs() == V.(links := V.links[o.utype := oks])
      ensures forall k :: k in old(typdict) ==> k in typdict && typdict[k] == old(typdict)[k]
      ensures forall k :: k in typdict && k !in old(typdict) ==> fresh(typdict[k])
      decreases Left(g, typdict.Keys), 2, 0
    {
      hide Make, MakeAll, Left, Progress, ParentOk, Closed, Edges, Known;
      var t := o.utype;
      ghost var S := Abs();
      CompositeEdges(g, t);
      ghost var oks := InitFields(o);
      ProgressDone(g, S, Edges(g, t), true, Abs(), oks);
      CompositeDone(t, oks);
      links := links[t := oks];
    }

    /** The loop over the members. */
    method InitFields(o: ForeignType) returns (ghost oks: seq<bool>)
      requires Valid() && o.utype in typdict && typdict[o.utype] == o && o.utype !in links
      requires g.types[o.utype].Composite? && o.parent == null && o.proxyOwner == o
      modifies this, o
      ensures Valid() && o.utype in typdict && typdict[o.utype] == o && o.utype !in links && o.proxyOwner == o
      ensures |o.fields| == |oks| == |Edges(g, o.utype)|
      ensures forall j :: 0 <= j < |oks| ==> LinkedTo(o.fields[j], Edges(g, o.utype)[j], oks[j])
      ensures ParentOk(o.utype, o.parent, o.fields, |oks|)
      ensures forall k :: k in old(typdict) ==> k in typdict && typdict[k] == old(typdict)[k]
      ensures forall k :: k in typdict && k !in old(typdict) ==> fresh(typdict[k])
      ensures Progress(g, old(Abs()), Edges(g, o.utype), true, |oks|, Abs(), oks)
      decreases Left(g, typdict.Keys), 1, 0
    {
      hide Make, MakeAll, Left, Progress, ParentOk, Closed, Edges, Known, Initialised;
      var t := o.utype;
      var ms := Edges(g, t);
      oks := [];
      ghost var S := Abs();
      CompositeEdges(g, t);
      ProgressStart(g, S, ms, true);
      o.fields := [];
      ParentStart(t);
      for i := 0 to |ms|
        invariant Valid() && t in typdict && typdict[t] == o && t !in links
        invariant |o.fields| == |oks| == i && o.proxyOwner == o
        invariant forall j :: 0 <= j < i ==> LinkedTo(o.fields[j], ms[j], oks[j])
        invariant ParentOk(t, o.parent, o.fields, i)
        invariant forall k :: k in old(typdict) ==> k in typdict && typdict[k] == old(typdict)[k]
        invariant forall k :: k in typdict && k !in old(typdict) ==> fresh(typdict[k])
        invariant Progress(g, S, ms, true, i, Abs(), oks)
      {
        ghost var T := Abs();
        LeftShrinks(g, S.keys, T.keys);
        ghost var U, ok := InitField(o, i);
        ProgressStep(g, S, ms, true, i, T, oks, U, ok);
        oks := oks + [ok];
      }
    }

    /** One round of the loop over the members. */
    method InitField(o: ForeignType, i: nat) returns (ghost U: Tab, ghost ok: bool)
      requires Valid() && o.utype in typdict && typdict[o.utype] == o && o.utype !in links
      requires g.types[o.utype].Composite? && o.proxyOwner == o && |o.fields| == i < |Edges(g, o.utype)|
      requires i < |g.types[o.utype].members| && ParentOk(o.utype, o.parent, o.fields, i)
      modifies this, o
      ensures Valid() && o.utype in typdict && typdict[o.utype] == o && o.utype !in links && o.proxyOwner == o
      ensures |o.fields| == i + 1 && o.fields[..i] == old(o.fields)
      ensures LinkedTo(o.fields[i], Edges(g, o.utype)[i], ok)
      ensures ParentOk(o.utype, o.parent, o.fields, i + 1)
      ensures forall k :: k in old(typdict) ==> k in typdict && typdict[k] == old(typdict)[k]
      ensures forall k :: k in typdict && k !in old(typdict) ==> fresh(typdict[k])
      ensures Known(g, Edges(g, o.utype)[i]) && (U, ok) == Make(g, old(Abs()), Edges(g, o.utype)[i])
      ensures Abs() == if ok then U else U.(err := false)
      decreases Left(g, typdict.Keys), 0, 1
    {
      hide Complete, Outermost, Make, MakeAll, Left, ParentOk, Closed, Edges, Known, Initialised;
      var t := o.utype;
      KnownEdge(t, i);
      var f := GetOrCreate(Edges(g, t)[i]);
      U, ok := Abs(), f != null;
      ParentStep(t, o.parent, o.fields, i, f);
      if f == null {
        err := false;
      } else if IsFirstMember(g, t, i) {
        o.parent := f;
      }
      o.fields := o.fields + [f];
    }
  }
}
