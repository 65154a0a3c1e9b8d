/** Foreign type descriptions (uniqtypes) and what ForeignType_GetOrCreate computes on them. */
module TypeGraph {
  import opened Common

  /** A type description is named by its address; 0 is the null pointer. */
  type TypeId = nat

  datatype Uniqtype =
    | Void
    | Base(enc: Encoding, size: nat, bits: nat)
    | Composite(named: bool, members: seq<TypeId>, offsets: seq<nat>)
    | Subprogram(related: seq<TypeId>)
    | Address(pointee: TypeId, ultimate: TypeId)
    | Array(elem: TypeId)
    | Enumeration
    | Subrange(elem: TypeId)
    | OtherKind

  /** The type descriptions of a program; `addressOf` is what liballocs returns for
      "the address type of". */
  datatype Graph = Graph(types: map<TypeId, Uniqtype>, addressOf: map<TypeId, TypeId>)

  ghost predicate Known(g: Graph, t: TypeId) {
    t == 0 || t in g.types
  }

  predicate IsAddressOf(g: Graph, a: TypeId, t: TypeId) {
    a in g.types && g.types[a].Address? && g.types[a].pointee == t
  }

  /** Finite and closed under member, pointee and array-to-address-of-element edges. */
  ghost predicate Closed(g: Graph) {
    && 0 !in g.types
    && (forall t :: t in g.types && g.types[t].Composite? ==> |g.types[t].members| == |g.types[t].offsets|)
    && (forall t :: t in g.types ==> forall m :: m in Edges(g, t) ==> Known(g, m))
    && (forall t :: Known(g, t) ==> t in g.addressOf)
    && (forall t :: t in g.types && g.types[t].Array? ==> Known(g, g.types[t].elem))
    && (forall t :: t in g.addressOf ==> IsAddressOf(g, g.addressOf[t], t))
  }

  /** The types that initialising `t` looks up, in order (CompositeProxy_InitType,
      AddressProxy_InitType and ArrayProxy_InitType); a composite without member names
      counts as incomplete. */
  function Edges(g: Graph, t: TypeId): seq<TypeId> {
    if t !in g.types then [] else
    match g.types[t]
    case Composite(named, members, _) => if named then members else []
    case Address(p, _) => [p]
    case Array(e) => if e in g.addressOf then [g.addressOf[e]] else []
    case _ => []
  }

  /** Whether member `i` makes the composite `c` a subclass: it is itself a composite and
      lies at offset 0. */
  predicate IsFirstMember(g: Graph, c: TypeId, i: nat)
    requires Closed(g) && c in g.types && g.types[c].Composite? && i < |g.types[c].members|
  {
    var m := g.types[c].members[i];
    g.types[c].offsets[i] == 0 && m in g.types && g.types[m].Composite?
  }

  /** The size and bit-size tests of ForeignBaseType_New. */
  predicate Encodable(enc: Encoding, size: nat, bits: nat) {
    && bits == 8 * size
    && match enc
       case Boolean => true
       case AddressLike | Unsigned | Signed | UnsignedChar | SignedChar => size in {1, 2, 4, 8}
       case Float => size in {4, 8, 16}
       case ComplexFloat => size in {8, 16, 32}
       case OtherEncoding => false
  }

  /** Integers and characters have a power of two of bytes, up to 8; a complex number consists of
      two floating-point numbers; truth values may have any size; none is a bit field. */
  lemma EncodableSizes(enc: Encoding, size: nat, bits: nat)
    ensures enc in {AddressLike, Unsigned, Signed, UnsignedChar, SignedChar} ==>
      (Encodable(enc, size, bits) <==> bits == 8 * size && exists k: nat :: k <= 3 && size == PowerOfTwo(k))
    ensures enc == Float ==> (Encodable(enc, size, bits) <==> bits == 8 * size && exists k: nat :: 2 <= k <= 4 && size == PowerOfTwo(k))
    ensures enc == ComplexFloat ==> (Encodable(enc, size, bits) <==> size % 2 == 0 && bits % 2 == 0 && Encodable(Float, size / 2, bits / 2))
    ensures enc == Boolean ==> (Encodable(enc, size, bits) <==> bits == 8 * size)
    ensures enc == OtherEncoding ==> !Encodable(enc, size, bits)
  {
    assert PowerOfTwo(0) == 1 && PowerOfTwo(1) == 2 && PowerOfTwo(2) == 4 && PowerOfTwo(3) == 8 && PowerOfTwo(4) == 16;
    forall k: nat | k <= 4
      ensures PowerOfTwo(k) == if k == 0 then 1 else if k == 1 then 2 else if k == 2 then 4 else if k == 3 then 8 else 16
    {
    }
    var log: nat := if size == 1 then 0 else if size == 2 then 1 else if size == 4 then 2 else if size == 8 then 3 else 4;
    assert size in {1, 2, 4, 8, 16} ==> size == PowerOfTwo(log);
    hide PowerOfTwo;
  }

  function PowerOfTwo(k: nat): nat {
    if k == 0 then 1 else 2 * PowerOfTwo(k - 1)
  }

  predicate Supported(g: Graph, t: TypeId) {
    t in g.types &&
    match g.types[t]
    case Void | Composite(_, _, _) | Subprogram(_) | Array(_) => true
    case Base(enc, size, bits) => Encodable(enc, size, bits)
    case Address(p, _) => p != 0
    case Enumeration | Subrange(_) | OtherKind => false
  }

  /** Whether ForeignType_New returns an object, `err` being the pending Python exception:
      ForeignBaseType_New asks whether any exception is pending, even one left by others. */
  predicate Creates(g: Graph, err: bool, t: TypeId) {
    Supported(g, t) && (g.types[t].Base? ==> !err)
  }

  /** Whether an exception is pending after ForeignType_New has returned NULL: it sets one,
      except for an address type without pointee. */
  predicate ErrAfterFailure(g: Graph, err: bool, t: TypeId) {
    if t in g.types && g.types[t].Address? then err else true
  }

  /** The type table: its keys, for every initialised entry which of its edges got a foreign
      type, and whether a Python exception is pending. */
  datatype Tab = Tab(keys: set<TypeId>, links: map<TypeId, seq<bool>>, err: bool)

  ghost function Left(g: Graph, keys: set<TypeId>): nat {
    |g.types.Keys - keys|
  }

  lemma LeftShrinks(g: Graph, a: set<TypeId>, b: set<TypeId>)
    requires a <= b
    ensures Left(g, b) <= Left(g, a)
    ensures (exists t :: t in g.types && t in b && t !in a) ==> Left(g, b) < Left(g, a)
  {
    var x, y := g.types.Keys - b, g.types.Keys - a;
    assert y == x + (y - x);
    if t :| t in g.types && t in b && t !in a { assert t in y - x; }
  }

  /** ForeignType_GetOrCreate: the table afterwards, and whether an object is returned. */
  ghost function Make(g: Graph, T: Tab, t: TypeId): (r: (Tab, bool))
    requires Closed(g) && Known(g, t) && T.keys <= g.types.Keys
    ensures T.keys <= r.0.keys <= g.types.Keys
    ensures r.1 ==> t in r.0.keys
    ensures forall k :: k in r.0.links ==> k in T.links || k !in T.keys
    decreases Left(g, T.keys), 0, 0
  {
    if t in T.keys then (T, true)
    else if !Creates(g, T.err, t) then (T.(err := ErrAfterFailure(g, T.err, t)), false)
    else
      var U := T.(keys := T.keys + {t});
      LeftShrinks(g, T.keys, U.keys);
      var (V, oks) := MakeAll(g, U, Edges(g, t), g.types[t].Composite?);
      (V.(links := V.links[t := oks]), true)
  }

  /** The edges of one type in order; a composite clears the exception of a failed member. */
  ghost function MakeAll(g: Graph, T: Tab, ts: seq<TypeId>, clears: bool): (r: (Tab, seq<bool>))
    requires Closed(g) && (forall m :: m in ts ==> Known(g, m)) && T.keys <= g.types.Keys
    ensures T.keys <= r.0.keys <= g.types.Keys && |r.1| == |ts|
    ensures forall k :: k in r.0.links ==> k in T.links || k !in T.keys
    decreases Left(g, T.keys), 1, |ts|
  {
    if ts == [] then (T, [])
    else
      var (U, ok) := Make(g, T, ts[0]);
      LeftShrinks(g, T.keys, U.keys);
      var (V, oks) := MakeAll(g, if clears && !ok then U.(err := false) else U, ts[1..], clears);
      (V, [ok] + oks)
  }

  lemma CompositeEdges(g: Graph, t: TypeId)
    requires Closed(g) && t in g.types && g.types[t].Composite?
    ensures |Edges(g, t)| <= |g.types[t].members|
    ensures forall m :: m in Edges(g, t) ==> Known(g, m)
  {
  }

  lemma AddressEdges(g: Graph, t: TypeId)
    requires Closed(g) && t in g.types && g.types[t].Address?
    ensures Edges(g, t) == [g.types[t].pointee] && Known(g, g.types[t].pointee)
  {
    assert g.types[t].pointee in Edges(g, t);
  }

  lemma ArrayEdges(g: Graph, t: TypeId)
    requires Closed(g) && t in g.types && g.types[t].Array?
    ensures g.types[t].elem in g.addressOf && Edges(g, t) == [g.addressOf[g.types[t].elem]]
    ensures Known(g, g.addressOf[g.types[t].elem])
  {
  }

  lemma MakeAllNone(g: Graph, T: Tab, clears: bool)
    requires Closed(g) && T.keys <= g.types.Keys
    ensures MakeAll(g, T, [], clears) == (T, [])
  {
  }

  /** The edges `ts[..i]` have been dealt with, `T` being the table now. */
  ghost predicate Progress(g: Graph, S: Tab, ts: seq<TypeId>, clears: bool, i: nat, T: Tab, oks: seq<bool>)
    requires Closed(g) && (forall m :: m in ts ==> Known(g, m))
    requires S.keys <= g.types.Keys && T.keys <= g.types.Keys && i <= |ts|
  {
    var (V, rest) := MakeAll(g, T, ts[i..], clears);
    MakeAll(g, S, ts, clears) == (V, oks + rest)
  }

  lemma ProgressStart(g: Graph, S: Tab, ts: seq<TypeId>, clears: bool)
    requires Closed(g) && (forall m :: m in ts ==> Known(g, m)) && S.keys <= g.types.Keys
    ensures Progress(g, S, ts, clears, 0, S, [])
  {
    assert ts[0..] == ts;
    assert [] + MakeAll(g, S, ts, clears).1 == MakeAll(g, S, ts, clears).1;
  }

  lemma ProgressStep(g: Graph, S: Tab, ts: seq<TypeId>, clears: bool, i: nat, T: Tab, oks: seq<bool>, U: Tab, ok: bool)
    requires Closed(g) && (forall m :: m in ts ==> Known(g, m)) && S.keys <= g.types.Keys && T.keys <= g.types.Keys
    requires i < |ts| && Progress(g, S, ts, clears, i, T, oks) && Make(g, T, ts[i]) == (U, ok)
    ensures var T' := if clears && !ok then U.(err := false) else U;
      Progress(g, S, ts, clears, i + 1, T', oks + [ok])
  {
    assert ts[i..][0] == ts[i] && ts[i..][1..] == ts[i + 1..];
    var T' := if clears && !ok then U.(err := false) else U;
    var rest := MakeAll(g, T', ts[i + 1..], clears).1;
    assert oks + ([ok] + rest) == (oks + [ok]) + rest;
  }

  lemma ProgressDone(g: Graph, S: Tab, ts: seq<TypeId>, clears: bool, T: Tab, oks: seq<bool>)
    requires Closed(g) && (forall m :: m in ts ==> Known(g, m)) && S.keys <= g.types.Keys && T.keys <= g.types.Keys
    requires Progress(g, S, ts, clears, |ts|, T, oks)
    ensures MakeAll(g, S, ts, clears) == (T, oks)
  {
    assert ts[|ts|..] == [];
    assert oks + [] == oks;
  }

  // ----- No half-built entries, and nothing supported is left out -----

  /** An edge has a foreign type only if that is in the table, and every supported edge that
      is not a base type has one. */
  ghost predicate LinksOk(g: Graph, keys: set<TypeId>, ts: seq<TypeId>, oks: seq<bool>) {
    && |oks| == |ts|
    && (forall i :: 0 <= i < |ts| && oks[i] ==> ts[i] in keys)
    && (forall i :: 0 <= i < |ts| && Supported(g, ts[i]) && !g.types[ts[i]].Base? ==> oks[i])
  }

  /** Every initialised entry is linked to entries of the same table. */
  ghost predicate TabOk(g: Graph, T: Tab) {
    && T.links.Keys <= T.keys <= g.types.Keys
    && (forall k :: k in T.keys ==> Supported(g, k))
    && (forall k :: k in T.links ==> LinksOk(g, T.keys, Edges(g, k), T.links[k]))
  }

  /** The keys that `U` has and `T` has not are all initialised; older entries are as before. */
  ghost predicate Completed(T: Tab, U: Tab) {
    && T.keys <= U.keys
    && U.links.Keys == T.links.Keys + (U.keys - T.keys)
    && (forall k :: k in T.links ==> U.links[k] == T.links[k])
  }

  lemma TabOkStart(g: Graph, T: Tab, t: TypeId)
    requires TabOk(g, T) && Supported(g, t)
    ensures TabOk(g, T.(keys := T.keys + {t}))
  {
  }

  lemma TabOkFinish(g: Graph, T: Tab, t: TypeId, V: Tab, oks: seq<bool>)
    requires TabOk(g, V) && Completed(T.(keys := T.keys + {t}), V) && LinksOk(g, V.keys, Edges(g, t), oks)
    requires t !in T.keys && T.links.Keys <= T.keys
    ensures TabOk(g, V.(links := V.links[t := oks])) && Completed(T, V.(links := V.links[t := oks]))
  {
  }

  lemma TabOkErr(g: Graph, T: Tab, err: bool)
    requires TabOk(g, T)
    ensures TabOk(g, T.(err := err))
  {
  }

  lemma LinksOkCons(g: Graph, keys: set<TypeId>, t: TypeId, ok: bool, ts: seq<TypeId>, oks: seq<bool>)
    requires LinksOk(g, keys, ts, oks)
    requires (ok ==> t in keys) && (Supported(g, t) && !g.types[t].Base? ==> ok)
    ensures LinksOk(g, keys, [t] + ts, [ok] + oks)
  {
  }

  /** ForeignType_GetOrCreate returns an object exactly for the types that are in the table
      or supported, except for a new base type while an exception is pending; whatever it
      adds to the table is initialised when it returns, whatever cycles the types form. */
  lemma {:induction false} MakeCompletes(g: Graph, T: Tab, t: TypeId)
    requires Closed(g) && Known(g, t) && TabOk(g, T)
    ensures T.keys <= g.types.Keys
    ensures var r := Make(g, T, t);
      && TabOk(g, r.0) && Completed(T, r.0)
      && (r.1 <==> t in T.keys || Creates(g, T.err, t))
    decreases Left(g, T.keys), 0, 0
  {
    hide TabOk, Completed, LinksOk, Closed, Edges, Supported;
    TabKeys(g, T);
    if t !in T.keys && Creates(g, T.err, t) {
      var U := T.(keys := T.keys + {t});
      TabOkStart(g, T, t);
      TabKeys(g, U);
      LeftShrinks(g, T.keys, U.keys);
      SupportedKnown(g, t);
      var (V, oks) := MakeAll(g, U, Edges(g, t), g.types[t].Composite?);
      MakeAllCompletes(g, U, Edges(g, t), g.types[t].Composite?);
      TabOkFinish(g, T, t, V, oks);
    } else {
      TabOkErr(g, T, ErrAfterFailure(g, T.err, t));
      CompletedRefl(T);
    }
  }

  lemma CompletedRefl(T: Tab)
    ensures forall err :: Completed(T, T.(err := err))
  {
  }

  lemma TabKeys(g: Graph, T: Tab)
    requires TabOk(g, T)
    ensures T.links.Keys <= T.keys <= g.types.Keys
  {
  }

  lemma SupportedKnown(g: Graph, t: TypeId)
    requires Closed(g) && Supported(g, t)
    ensures t in g.types && forall m :: m in Edges(g, t) ==> Known(g, m)
  {
  }

  lemma {:induction false} MakeAllCompletes(g: Graph, T: Tab, ts: seq<TypeId>, clears: bool)
    requires Closed(g) && (forall m :: m in ts ==> Known(g, m)) && TabOk(g, T)
    ensures T.keys <= g.types.Keys
    ensures var r := MakeAll(g, T, ts, clears);
      TabOk(g, r.0) && Completed(T, r.0) && LinksOk(g, r.0.keys, ts, r.1)
    decreases Left(g, T.keys), 1, |ts|
  {
    hide TabOk, Completed, Closed, Edges, Known, Supported, LinksOk, Creates;
    TabKeys(g, T);
    if ts != [] {
      var (U, ok) := Make(g, T, ts[0]);
      MakeCompletes(g, T, ts[0]);
      LeftShrinks(g, T.keys, U.keys);
      TabOkErr(g, U, false);
      var U' := if clears && !ok then U.(err := false) else U;
      var (V, oks) := MakeAll(g, U', ts[1..], clears);
      MakeAllCompletes(g, U', ts[1..], clears);
      CompletedErr(T, U, U', V);
      CreatesUnlessBase(g, T.err, ts[0]);
      LinksOkCons(g, V.keys, ts[0], ok, ts[1..], oks);
      assert [ts[0]] + ts[1..] == ts;
    } else {
      CompletedRefl(T);
      LinksOkNone(g, T.keys);
    }
  }

  lemma LinksOkNone(g: Graph, keys: set<TypeId>)
    ensures LinksOk(g, keys, [], [])
  {
  }

  lemma CompletedErr(T: Tab, U: Tab, U': Tab, V: Tab)
    requires Completed(T, U) && U' == U.(err := U'.err) && Completed(U', V)
    ensures Completed(T, V) && U.keys <= V.keys
  {
  }

  lemma CreatesUnlessBase(g: Graph, err: bool, t: TypeId)
    ensures Supported(g, t) ==> t in g.types
    ensures Supported(g, t) && !g.types[t].Base? ==> Creates(g, err, t)
  {
  }

  // ----- Pending exceptions -----

  /** The pointee of every address type is absent, an address type or supported. */
  predicate Clean(g: Graph) {
    forall a :: a in g.types ==>
      g.types[a].Address? ==>
        var p := g.types[a].pointee;
        p == 0 || Supported(g, p) || (p in g.types && g.types[p].Address?)
  }

  ghost predicate FullyLinked(g: Graph, ts: seq<TypeId>, oks: seq<bool>) {
    |oks| == |ts| && forall i :: 0 <= i < |ts| && Supported(g, ts[i]) ==> oks[i]
  }

  /** A failure sets no exception. */
  predicate Silent(g: Graph, t: TypeId) {
    Supported(g, t) || (t in g.types && g.types[t].Address?)
  }

  ghost predicate NewFullyLinked(g: Graph, T: Tab, U: Tab) {
    forall k :: k in U.links && k !in T.links ==> FullyLinked(g, Edges(g, k), U.links[k])
  }

  lemma {:induction false} CleanMake(g: Graph, T: Tab, t: TypeId)
    requires Closed(g) && Clean(g) && Known(g, t) && TabOk(g, T) && !T.err
    ensures T.keys <= g.types.Keys
    ensures var r := Make(g, T, t);
      && (r.1 <==> Supported(g, t))
      && (Silent(g, t) ==> !r.0.err)
      && NewFullyLinked(g, T, r.0)
    decreases Left(g, T.keys), 0, 0
  {
    hide Closed, Clean, LinksOk, Edges, FullyLinked, Completed;
    TabKeys(g, T);
    if t !in T.keys && Creates(g, T.err, t) {
      var U := T.(keys := T.keys + {t});
      TabOkStart(g, T, t);
      LeftShrinks(g, T.keys, U.keys);
      SupportedKnown(g, t);
      if !g.types[t].Composite? { CleanEdges(g, t); }
      CleanMakeAll(g, U, Edges(g, t), g.types[t].Composite?);
    }
  }

  lemma CleanEdges(g: Graph, t: TypeId)
    requires Closed(g) && Clean(g) && Supported(g, t) && !g.types[t].Composite?
    ensures forall m :: m in Edges(g, t) ==> Silent(g, m)
  {
  }

  lemma {:induction false} CleanMakeAll(g: Graph, T: Tab, ts: seq<TypeId>, clears: bool)
    requires Closed(g) && Clean(g) && (forall m :: m in ts ==> Known(g, m)) && TabOk(g, T) && !T.err
    requires clears || forall m :: m in ts ==> Silent(g, m)
    ensures T.keys <= g.types.Keys
    ensures var r := MakeAll(g, T, ts, clears);
      !r.0.err && FullyLinked(g, ts, r.1) && NewFullyLinked(g, T, r.0)
    decreases Left(g, T.keys), 1, |ts|
  {
    hide Closed, Clean, LinksOk, Edges, TabOk, NewFullyLinked, FullyLinked, Completed, Supported, Known, Silent, Creates;
    TabKeys(g, T);
    if ts != [] {
      var (U, ok) := Make(g, T, ts[0]);
      CleanMake(g, T, ts[0]);
      MakeCompletes(g, T, ts[0]);
      LeftShrinks(g, T.keys, U.keys);
      TabOkErr(g, U, false);
      var U' := if clears && !ok then U.(err := false) else U;
      SupportedSilent(g, ts[0]);
      CleanMakeAll(g, U', ts[1..], clears);
      MakeAllCompletes(g, U', ts[1..], clears);
      var (V, oks) := MakeAll(g, U', ts[1..], clears);
      NewFullyLinkedTrans(g, T, U, U', V);
      FullyLinkedCons(g, ts[0], ok, ts[1..], oks);
      assert [ts[0]] + ts[1..] == ts;
    } else {
      NewFullyLinkedRefl(g, T);
    }
  }

  lemma SupportedSilent(g: Graph, t: TypeId)
    ensures Supported(g, t) ==> Silent(g, t)
  {
  }

  lemma FullyLinkedCons(g: Graph, t: TypeId, ok: bool, ts: seq<TypeId>, oks: seq<bool>)
    requires FullyLinked(g, ts, oks) && (Supported(g, t) ==> ok)
    ensures FullyLinked(g, [t] + ts, [ok] + oks)
  {
  }

  lemma NewFullyLinkedRefl(g: Graph, T: Tab)
    ensures NewFullyLinked(g, T, T) && FullyLinked(g, [], [])
  {
  }

  lemma NewFullyLinkedTrans(g: Graph, T: Tab, U: Tab, U': Tab, V: Tab)
    requires NewFullyLinked(g, T, U) && U' == U.(err := U'.err) && NewFullyLinked(g, U', V) && Completed(U', V)
    ensures NewFullyLinked(g, T, V)
  {
  }

  // ----- Main results -----

  /** No call is in progress: every entry of the table is initialised. */
  ghost predicate Outermost(g: Graph, T: Tab) {
    TabOk(g, T) && T.links.Keys == T.keys
  }

  /** `m` is a member of the structure `t`, what the address type `t` points to, or the type of
      the address of an element of the array type `t`. */
  ghost predicate Needs(g: Graph, t: TypeId, m: TypeId) {
    t in g.types &&
    match g.types[t]
    case Composite(named, members, _) => named && exists i :: 0 <= i < |members| && members[i] == m
    case Address(p, _) => m == p
    case Array(e) => e in g.addressOf && m == g.addressOf[e]
    case _ => false
  }

  /** Initialising a type looks up exactly these types. */
  lemma NeedsIff(g: Graph, t: TypeId, m: TypeId)
    ensures m in Edges(g, t) <==> Needs(g, t, m)
  {
  }

  /** A path of supported types, each of which needs the next. */
  ghost predicate TypePath(g: Graph, path: seq<TypeId>) {
    && path != []
    && (forall i :: 0 <= i < |path| ==> Supported(g, path[i]))
    && (forall i :: 0 < i < |path| ==> Needs(g, path[i - 1], path[i]))
  }

  /** An outermost call leaves no half-built entry, and everything supported that can be
      reached from the requested type is in the table; a base type may be missing if an
      exception was pending when it was looked up, which cannot happen on clean graphs. */
  lemma {:induction false} ReachableTypesAreMade(g: Graph, T: Tab, path: seq<TypeId>, i: nat)
    requires Closed(g) && Outermost(g, T) && TypePath(g, path) && i < |path|
    ensures Known(g, path[0]) && T.keys <= g.types.Keys
    ensures var r := Make(g, T, path[0]);
      r.1 ==> Outermost(g, r.0) && (path[i] in r.0.keys || g.types[path[i]].Base?)
  {
    hide Closed, Supported, Edges, LinksOk, Make;
    assert Supported(g, path[0]) && Supported(g, path[i]);
    SupportedKnown(g, path[0]);
    SupportedKnown(g, path[i]);
    var r := Make(g, T, path[0]);
    MakeCompletes(g, T, path[0]);
    if r.1 && i > 0 {
      ReachableTypesAreMade(g, T, path, i - 1);
      SupportedKnown(g, path[i - 1]);
      BaseHasNoEdges(g, path[i - 1]);
      assert path[i] in Edges(g, path[i - 1]) by { NeedsIff(g, path[i - 1], path[i]); }
      SupportedEdge(g, r.0, path[i - 1], path[i]);
    }
  }

  lemma SupportedEdge(g: Graph, T: Tab, k: TypeId, m: TypeId)
    requires Outermost(g, T) && k in T.keys && m in Edges(g, k) && Supported(g, m)
    ensures m in g.types && (m in T.keys || g.types[m].Base?)
  {
    hide Closed, Edges;
    assert LinksOk(g, T.keys, Edges(g, k), T.links[k]);
  }

  lemma BaseHasNoEdges(g: Graph, t: TypeId)
    requires t in g.types
    ensures g.types[t].Base? ==> Edges(g, t) == []
  {
  }

  /** The table has a link for every supported edge. */
  ghost predicate AllLinked(g: Graph, T: Tab) {
    forall k :: k in T.links ==> FullyLinked(g, Edges(g, k), T.links[k])
  }

  /** On clean graphs, without a pending exception at the start, every reachable supported
      type is made and linked, and no exception is pending when an object is returned. */
  lemma {:induction false} CleanGraphsAreComplete(g: Graph, T: Tab, path: seq<TypeId>, i: nat)
    requires Closed(g) && Clean(g) && Outermost(g, T) && AllLinked(g, T) && !T.err
    requires TypePath(g, path) && i < |path|
    ensures Known(g, path[0]) && T.keys <= g.types.Keys
    ensures var r := Make(g, T, path[0]);
      r.1 && !r.0.err && AllLinked(g, r.0) && path[i] in r.0.keys
  {
    hide Closed, Clean, Supported;
    assert Supported(g, path[0]) && Supported(g, path[i]);
    SupportedKnown(g, path[0]);
    var r := Make(g, T, path[0]);
    MakeCompletes(g, T, path[0]);
    CleanMake(g, T, path[0]);
    if i > 0 {
      CleanGraphsAreComplete(g, T, path, i - 1);
      assert path[i] in Edges(g, path[i - 1]) by { NeedsIff(g, path[i - 1], path[i]); }
      assert LinksOk(g, r.0.keys, Edges(g, path[i - 1]), r.0.links[path[i - 1]]);
    }
  }

  /** A pending exception is never left behind together with an object, for any table and
      any type, exactly when the graph is clean. */
  lemma NoLeakedExceptionIff(g: Graph)
    requires Closed(g)
    ensures (forall T, t :: Outermost(g, T) && !T.err && Known(g, t) && T.keys <= g.types.Keys && Make(g, T, t).1
                            ==> !Make(g, T, t).0.err)
       <==> Clean(g)
  {
    if Clean(g) {
      forall T, t | Outermost(g, T) && !T.err && Known(g, t) && T.keys <= g.types.Keys && Make(g, T, t).1
        ensures !Make(g, T, t).0.err
      {
        CleanMake(g, T, t);
      }
    } else {
      var a :| a in g.types && g.types[a].Address? && !GoodPointee(g, a);
      LeakingAddress(g, a);
    }
  }

  predicate GoodPointee(g: Graph, a: TypeId)
    requires a in g.types && g.types[a].Address?
  {
    var p := g.types[a].pointee;
    p == 0 || Supported(g, p) || (p in g.types && g.types[p].Address?)
  }

  const EMPTY_TAB := Tab({}, map[], false)

  lemma LeakingAddress(g: Graph, a: TypeId)
    requires Closed(g) && a in g.types && g.types[a].Address? && !GoodPointee(g, a)
    ensures Outermost(g, EMPTY_TAB) && Make(g, EMPTY_TAB, a).1 && Make(g, EMPTY_TAB, a).0.err
  {
    FailingAddress(g, EMPTY_TAB, a);
  }

  lemma MakeAllOne(g: Graph, T: Tab, t: TypeId, clears: bool)
    requires Closed(g) && Known(g, t) && T.keys <= g.types.Keys
    ensures var (U, ok) := Make(g, T, t);
      MakeAll(g, T, [t], clears) == (if clears && !ok then U.(err := false) else U, [ok])
  {
    assert [t][1..] == [];
    var (U, ok) := Make(g, T, t);
    var U' := if clears && !ok then U.(err := false) else U;
    assert MakeAll(g, U', [], clears) == (U', []);
    assert [ok] + [] == [ok];
  }

  lemma FailingAddress(g: Graph, T: Tab, a: TypeId)
    requires Closed(g) && a in g.types && g.types[a].Address? && !GoodPointee(g, a)
    requires T.keys <= g.types.Keys && a !in T.keys && g.types[a].pointee !in T.keys
    ensures Make(g, T, a) == (Tab(T.keys + {a}, T.links[a := [false]], true), true)
  {
    var p := g.types[a].pointee;
    var U := T.(keys := T.keys + {a});
    assert Edges(g, a) == [p];
    assert Make(g, U, p) == (U.(err := true), false);
    MakeAllOne(g, U, p, false);
  }

  /** The table when edge `i` of `ts` is looked up. */
  ghost function TabAt(g: Graph, T: Tab, ts: seq<TypeId>, clears: bool, i: nat): (U: Tab)
    requires Closed(g) && (forall m :: m in ts ==> Known(g, m)) && T.keys <= g.types.Keys && i <= |ts|
    ensures U.keys <= g.types.Keys
    decreases i
  {
    if i == 0 then T else TabAt(g, AfterFirst(g, T, ts, clears), ts[1..], clears, i - 1)
  }

  ghost function AfterFirst(g: Graph, T: Tab, ts: seq<TypeId>, clears: bool): (U: Tab)
    requires Closed(g) && (forall m :: m in ts ==> Known(g, m)) && T.keys <= g.types.Keys && ts != []
    ensures U.keys <= g.types.Keys
  {
    var (U, ok) := Make(g, T, ts[0]);
    if clears && !ok then U.(err := false) else U
  }

  lemma TabAtNext(g: Graph, T: Tab, ts: seq<TypeId>, clears: bool, i: nat)
    requires Closed(g) && (forall m :: m in ts ==> Known(g, m)) && T.keys <= g.types.Keys && i < |ts|
    ensures TabAt(g, T, ts, clears, i + 1) == AfterFirst(g, TabAt(g, T, ts, clears, i), ts[i..], clears)
    decreases i
  {
    hide Make;
    if i > 0 {
      TabAtNext(g, AfterFirst(g, T, ts, clears), ts[1..], clears, i - 1);
      assert ts[1..][i - 1..] == ts[i..];
    }
  }

  /** An edge gets a type if and only if that is in the table by then, or supported: and, if it
      is a base type, no exception is pending. */
  lemma {:induction false} LinkIff(g: Graph, T: Tab, ts: seq<TypeId>, clears: bool, i: nat)
    requires Closed(g) && (forall m :: m in ts ==> Known(g, m)) && TabOk(g, T) && T.keys <= g.types.Keys && i < |ts|
    ensures var U := TabAt(g, T, ts, clears, i);
      MakeAll(g, T, ts, clears).1[i] <==> ts[i] in U.keys || Creates(g, U.err, ts[i])
    decreases i
  {
    hide TabOk, Creates, Make;
    MakeCompletes(g, T, ts[0]);
    if i > 0 {
      var U := AfterFirst(g, T, ts, clears);
      TabOkErr(g, Make(g, T, ts[0]).0, false);
      LinkIff(g, U, ts[1..], clears, i - 1);
      assert ts[1..][i - 1] == ts[i];
    }
  }

  /** What the leak does: in any structure in which a pointer to an unsupported type is looked up
      for the first time right before a supported base type, whatever is in the table besides,
      that member gets no type, and stays without one. */
  lemma StaleExceptionHidesMember(g: Graph, T: Tab, c: TypeId, i: nat)
    requires Closed(g) && TabOk(g, T) && T.keys <= g.types.Keys && c in g.types && c !in T.keys && Known(g, c)
    requires g.types[c].Composite? && i + 1 < |Edges(g, c)| && forall m :: m in Edges(g, c) ==> Known(g, m)
    requires var a, b := Edges(g, c)[i], Edges(g, c)[i + 1];
      var U := TabAt(g, T.(keys := T.keys + {c}), Edges(g, c), true, i);
      && a in g.types && g.types[a].Address? && !GoodPointee(g, a) && b in g.types && g.types[b].Base?
      && {a, b, g.types[a].pointee} !! U.keys
    ensures var r := Make(g, T, c);
      && r.1 && c in r.0.links && |r.0.links[c]| == |Edges(g, c)| && !r.0.links[c][i + 1]
      && (forall S: Tab :: S.keys <= g.types.Keys && c in S.keys ==> Make(g, S, c) == (S, true))
  {
    var ms := Edges(g, c);
    var S := T.(keys := T.keys + {c});
    var U := TabAt(g, S, ms, true, i);
    assert Supported(g, c);
    TabOkStart(g, T, c);
    FailingAddress(g, U, ms[i]);
    TabAtNext(g, S, ms, true, i);
    hide Closed, TabOk, Edges;
    LinkIff(g, S, ms, true, i + 1);
  }

  /** With an empty table there is an object exactly for void, structures, functions and arrays, for
      address types with a pointee, and for base types of a known encoding and size. */
  lemma FromEmptyTable(g: Graph, t: TypeId)
    requires Closed(g) && Known(g, t)
    ensures Make(g, EMPTY_TAB, t).1
       <==> (t in g.types && match g.types[t]
             case Void => true
             case Base(enc, size, bits) => Encodable(enc, size, bits)
             case Composite(_, _, _) => true
             case Subprogram(_) => true
             case Address(p, _) => p != 0
             case Array(_) => true
             case Enumeration => false
             case Subrange(_) => false
             case OtherKind => false)
  {
    MakeCompletes(g, EMPTY_TAB, t);
  }
}
