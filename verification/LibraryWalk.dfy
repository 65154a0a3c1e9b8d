/** library_loader.c: the useful types of a library are added to its module, recursively,
    the names of the module serving as the visited set. */
module LibraryWalk {
  import opened TypeGraph

  // ----- Names -----

  const NAME_BUFFER: nat := 256

  function Sanitized(c: char): char {
    if c == '$' then '_' else c
  }

  /** The attribute name of a type: at most 255 characters, with `$` replaced. */
  function Mangled(name: string): (m: string)
    ensures |m| == if |name| < NAME_BUFFER then |name| else NAME_BUFFER - 1
    ensures forall i :: 0 <= i < |m| ==> m[i] == Sanitized(name[i])
  {
    var n := if |name| < NAME_BUFFER then |name| else NAME_BUFFER - 1;
    seq(n, i requires 0 <= i < |name| => Sanitized(name[i]))
  }

  /** An attribute name is the first 255 characters of the type name, with `_` for `$`. */
  lemma MangledText(name: string)
    ensures '$' !in Mangled(name)
    ensures |Mangled(name)| == if |name| <= 255 then |name| else 255
    ensures forall i :: 0 <= i < |Mangled(name)| ==> Mangled(name)[i] == if name[i] == '$' then '_' else name[i]
  {
  }

  /** The two characters cannot be told apart in an attribute name. */
  predicate Alike(c: char, d: char) {
    c == d || (c == '$' && d == '_') || (c == '_' && d == '$')
  }

  /** Exactly which names clash: those of equal length below 255 characters, or of at least
      255, that agree up to `$` and `_` in the first 255 characters. */
  lemma MangledClash(a: string, b: string)
    ensures Mangled(a) == Mangled(b)
       <==> ((|a| == |b| || (|a| >= 255 && |b| >= 255))
             && forall i :: 0 <= i < |a| && i < |b| && i < 255 ==> Alike(a[i], b[i]))
  {
    if Mangled(a) == Mangled(b) {
      forall i | 0 <= i < |a| && i < |b| && i < 255 ensures Alike(a[i], b[i]) {
        assert Mangled(a)[i] == Mangled(b)[i];
      }
    }
  }

  /** The text of a C string in a buffer. */
  function CString(s: seq<char>): string {
    if s == [] || s[0] == '\0' then [] else [s[0]] + CString(s[1..])
  }

  lemma {:induction false} CStringPrefix(s: seq<char>, n: nat)
    requires n < |s| && s[n] == '\0' && forall i :: 0 <= i < n ==> s[i] != '\0'
    ensures CString(s) == s[..n]
  {
    if n > 0 {
      CStringPrefix(s[1..], n - 1);
      assert s[..n] == [s[0]] + s[1..][..n - 1];
    }
  }

  /** The buffer manipulation of add_type_to_module: strncpy, termination, replacement. */
  method MangleName(name: string) returns (attr: string)
    requires '\0' !in name
    ensures attr == Mangled(name)
  {
    var buffer := new char[NAME_BUFFER];
    for i := 0 to NAME_BUFFER
      invariant forall j :: 0 <= j < i ==> buffer[j] == if j < |name| then name[j] else '\0'
    {
      buffer[i] := if i < |name| then name[i] else '\0';
    }
    buffer[NAME_BUFFER - 1] := '\0';
    for i := 0 to NAME_BUFFER
      invariant forall j :: 0 <= j < NAME_BUFFER ==>
        buffer[j] == (var c := if j < |name| && j < NAME_BUFFER - 1 then name[j] else '\0';
                      if j < i then Sanitized(c) else c)
    {
      if buffer[i] == '$' {
        buffer[i] := '_';
      }
    }
    CStringPrefix(buffer[..], |Mangled(name)|);
    attr := CString(buffer[..]);
    assert attr == Mangled(name);
  }

  // ----- The walk -----

  /** A library's types and their names; `rank` witnesses that every cycle of the walk
      passes through a composite. */
  datatype Library = Library(g: Graph, name: map<TypeId, string>, rank: map<TypeId, nat>, limit: nat)

  /** The types the walk goes on to. */
  function WalkEdges(g: Graph, t: TypeId): seq<TypeId> {
    if t !in g.types then [] else
    match g.types[t]
    case Composite(_, members, _) => members
    case Array(e) => [e]
    case Subrange(e) => [e]
    case Address(_, ultimate) => [ultimate]
    case Subprogram(related) => related
    case _ => []
  }

  ghost predicate Walkable(lib: Library) {
    && Closed(lib.g) && lib.name.Keys == lib.g.types.Keys == lib.rank.Keys
    && (forall t :: t in lib.g.types ==> '\0' !in lib.name[t] && lib.rank[t] < lib.limit)
    && (forall t, m :: t in lib.g.types && m in WalkEdges(lib.g, t) ==> WalkEdgeOk(lib, t, m))
  }

  ghost predicate WalkEdgeOk(lib: Library, t: TypeId, m: TypeId)
    requires t in lib.g.types && t in lib.rank
  {
    Known(lib.g, m) && (lib.g.types[t].Composite? || Height(lib, m) < Height(lib, t))
  }

  /** Zero for composites and the null pointer, else one more than the rank. */
  function Height(lib: Library, t: TypeId): nat {
    if t in lib.g.types && t in lib.rank && !lib.g.types[t].Composite? then lib.rank[t] + 1 else 0
  }

  lemma EdgesDown(lib: Library, t: TypeId)
    requires Walkable(lib) && t in lib.g.types
    ensures lib.name.Keys == lib.g.types.Keys
    ensures forall m :: m in WalkEdges(lib.g, t) ==>
      && Known(lib.g, m) && Height(lib, m) < lib.limit + 1
      && (!lib.g.types[t].Composite? ==> Height(lib, m) < Height(lib, t))
    ensures lib.g.types[t].Array? || lib.g.types[t].Subrange? ==> lib.g.types[t].elem in WalkEdges(lib.g, t)
    ensures lib.g.types[t].Address? ==> lib.g.types[t].ultimate in WalkEdges(lib.g, t)
  {
    forall m | m in WalkEdges(lib.g, t) ensures WalkEdgeOk(lib, t, m) { }
  }

  /** The attributes of the module, each bound to the type it was added for, and the type table. */
  datatype Mod = Mod(attrs: map<string, TypeId>, T: Tab)

  ghost function AllNames(lib: Library): set<string>
    requires lib.g.types.Keys <= lib.name.Keys
  {
    set t | t in lib.g.types :: Mangled(lib.name[t])
  }

  ghost function Unnamed(lib: Library, W: Mod): nat
    requires lib.g.types.Keys <= lib.name.Keys
  {
    |AllNames(lib) - W.attrs.Keys|
  }

  lemma UnnamedShrinks(lib: Library, V: Mod, W: Mod)
    requires lib.g.types.Keys <= lib.name.Keys && V.attrs.Keys <= W.attrs.Keys
    ensures Unnamed(lib, W) <= Unnamed(lib, V)
    ensures (exists n :: n in AllNames(lib) && n in W.attrs && n !in V.attrs) ==> Unnamed(lib, W) < Unnamed(lib, V)
  {
    var x, y := AllNames(lib) - W.attrs.Keys, AllNames(lib) - V.attrs.Keys;
    assert y == x + (y - x);
    if n :| n in AllNames(lib) && n in W.attrs && n !in V.attrs { assert n in y - x; }
  }

  /** Attributes are only added. */
  ghost predicate Grows(V: Mod, W: Mod) {
    forall n :: n in V.attrs ==> n in W.attrs && W.attrs[n] == V.attrs[n]
  }

  lemma GrowsRefl(W: Mod)
    ensures Grows(W, W)
  {
  }

  lemma GrowsTrans(U: Mod, V: Mod, W: Mod)
    requires Grows(U, V) && Grows(V, W)
    ensures Grows(U, W)
  {
  }

  lemma LibKeys(lib: Library)
    requires Walkable(lib)
    ensures lib.name.Keys == lib.g.types.Keys && 0 !in lib.g.types && Closed(lib.g)
  {
  }

  lemma WalkedMembers(lib: Library, t: TypeId)
    requires t in lib.g.types && lib.g.types[t].Composite?
    ensures WalkEdges(lib.g, t) == lib.g.types[t].members
  {
  }

  lemma WalkedSignature(lib: Library, t: TypeId)
    requires t in lib.g.types && lib.g.types[t].Subprogram?
    ensures WalkEdges(lib.g, t) == lib.g.types[t].related
  {
  }

  /** add_type_to_module; looking for an absent attribute clears any pending exception. */
  ghost function AddType(lib: Library, W: Mod, t: TypeId): (r: (Mod, int))
    requires Walkable(lib) && t in lib.g.types && TabOk(lib.g, W.T)
    ensures TabOk(lib.g, r.0.T) && W.attrs.Keys <= r.0.attrs.Keys && Grows(W, r.0)
    ensures r.1 == 0 ==> Unnamed(lib, r.0) < Unnamed(lib, W)
  {
    var n := Mangled(lib.name[t]);
    if n in W.attrs then (W, 1)
    else
      TabOkErr(lib.g, W.T, false);
      MakeCompletes(lib.g, W.T.(err := false), t);
      var (U, ok) := Make(lib.g, W.T.(err := false), t);
      TabOkErr(lib.g, U, false);
      if !ok then (W.(T := U.(err := false)), -1)
      else
        var V := Mod(W.attrs[n := t], U);
        assert n in AllNames(lib);
        UnnamedShrinks(lib, W, V);
        (V, 0)
  }

  /** recursively_add_useful_types */
  ghost function Walk(lib: Library, W: Mod, t: TypeId): (V: Mod)
    requires Walkable(lib) && Known(lib.g, t) && TabOk(lib.g, W.T)
    ensures TabOk(lib.g, V.T) && W.attrs.Keys <= V.attrs.Keys && Grows(W, V)
    decreases Unnamed(lib, W), Height(lib, t), 1, 0
  {
    hide Walkable, TabOk, WalkEdgeOk, Height, AddType, Closed, Unnamed, AllNames, Supported, Grows, Mangled, WalkEdges;
    GrowsRefl(W);
    if t == 0 then W
    else
      EdgesDown(lib, t);
      match lib.g.types[t]
      case Base(enc, size, bits) => if bits != 8 * size then W else AddType(lib, W, t).0
      case Void => AddType(lib, W, t).0
      case Composite(_, members, _) =>
        var (V, code) := AddType(lib, W, t);
        WalkedMembers(lib, t);
        if code == 0 then
          GrowsTrans(W, V, WalkAll(lib, V, members, lib.limit + 1));
          WalkAll(lib, V, members, lib.limit + 1)
        else V
      case Array(e) => Walk(lib, W, e)
      case Subrange(e) => Walk(lib, W, e)
      case Address(_, ultimate) => Walk(lib, W, ultimate)
      case Subprogram(related) => WalkedSignature(lib, t); WalkAll(lib, W, related, Height(lib, t))
      case Enumeration | OtherKind => W
  }

  ghost function WalkAll(lib: Library, W: Mod, ts: seq<TypeId>, bound: nat): (V: Mod)
    requires Walkable(lib) && TabOk(lib.g, W.T)
    requires forall m :: m in ts ==> Known(lib.g, m) && Height(lib, m) < bound
    ensures TabOk(lib.g, V.T) && W.attrs.Keys <= V.attrs.Keys && Grows(W, V)
    decreases Unnamed(lib, W), bound, 0, |ts|
  {
    hide Walkable, TabOk, Grows, Unnamed;
    GrowsRefl(W);
    LibKeys(lib);
    if ts == [] then W
    else
      var V := Walk(lib, W, ts[0]);
      UnnamedShrinks(lib, W, V);
      GrowsTrans(W, V, WalkAll(lib, V, ts[1..], bound));
      WalkAll(lib, V, ts[1..], bound)
  }

  // ----- Everything useful is added -----

  ghost predicate DistinctNames(lib: Library)
    requires lib.name.Keys == lib.g.types.Keys
  {
    forall t, u :: t in lib.g.types && u in lib.g.types && Mangled(lib.name[t]) == Mangled(lib.name[u]) ==> t == u
  }

  ghost predicate Added(lib: Library, W: Mod, t: TypeId) {
    t in lib.name && Mangled(lib.name[t]) in W.attrs && W.attrs[Mangled(lib.name[t])] == t
  }

  /** Attributes with the name of a type of the library are bound to that type. */
  ghost predicate OwnNames(lib: Library, W: Mod) {
    forall t :: t in lib.name && Mangled(lib.name[t]) in W.attrs ==> Added(lib, W, t)
  }

  /** The walk has dealt with `t`: what it adds for `t` itself is there, and for a type that
      it passes through, it has dealt with the types that follow. */
  ghost predicate Covered(lib: Library, W: Mod, t: TypeId)
    requires Walkable(lib)
    decreases Height(lib, t)
  {
    if t !in lib.g.types then true
    else if lib.g.types[t].Composite? then Added(lib, W, t)
    else if lib.g.types[t].Void? || lib.g.types[t].Base? then Supported(lib.g, t) ==> Added(lib, W, t)
    else EdgesDown(lib, t); forall m :: m in WalkEdges(lib.g, t) ==> Covered(lib, W, m)
  }

  lemma {:induction false} CoveredGrows(lib: Library, V: Mod, W: Mod, t: TypeId)
    requires Walkable(lib) && Grows(V, W) && Covered(lib, V, t)
    ensures Covered(lib, W, t)
    decreases Height(lib, t)
  {
    hide Walkable, WalkEdges, Height, Mangled, Supported;
    if t in lib.g.types && !lib.g.types[t].Composite? && !lib.g.types[t].Void? && !lib.g.types[t].Base? {
      EdgesDown(lib, t);
      forall m | m in WalkEdges(lib.g, t) ensures Covered(lib, W, m) { CoveredGrows(lib, V, W, m); }
    }
  }

  /** Composites that were added have all their members dealt with, except for those whose
      members are being walked. */
  ghost predicate MembersCovered(lib: Library, W: Mod, grey: set<TypeId>)
    requires Walkable(lib)
  {
    forall c :: c in lib.g.types && lib.g.types[c].Composite? && Added(lib, W, c) && c !in grey ==> AllCovered(lib, W, lib.g.types[c].members)
  }

  ghost predicate AllCovered(lib: Library, W: Mod, ts: seq<TypeId>)
    requires Walkable(lib)
  {
    forall m :: m in ts ==> Covered(lib, W, m)
  }

  lemma AllCoveredGrows(lib: Library, V: Mod, W: Mod, ts: seq<TypeId>)
    requires Walkable(lib) && Grows(V, W) && AllCovered(lib, V, ts)
    ensures AllCovered(lib, W, ts)
  {
    forall m | m in ts ensures Covered(lib, W, m) { CoveredGrows(lib, V, W, m); }
  }

  lemma AddTypeAdds(lib: Library, W: Mod, t: TypeId)
    requires Walkable(lib) && DistinctNames(lib) && OwnNames(lib, W) && TabOk(lib.g, W.T) && t in lib.g.types
    ensures var (V, code) := AddType(lib, W, t);
      && OwnNames(lib, V) && (Supported(lib.g, t) ==> Added(lib, V, t)) && (code == -1 ==> !Supported(lib.g, t))
      && (forall c :: c in lib.g.types && c != t && Added(lib, V, c) ==> Added(lib, W, c))
      && (code == 1 ==> Added(lib, W, t) && V == W) && code in {-1, 0, 1}
  {
    hide Mangled, TabOk, Closed, Supported, WalkEdgeOk, WalkEdges, Walkable, AllNames, Unnamed, Grows;
    LibKeys(lib);
    TabOkErr(lib.g, W.T, false);
    MakeCompletes(lib.g, W.T.(err := false), t);
  }

  lemma MembersAfterAdd(lib: Library, W: Mod, t: TypeId, grey: set<TypeId>)
    requires Walkable(lib) && DistinctNames(lib) && OwnNames(lib, W) && TabOk(lib.g, W.T) && t in lib.g.types
    requires MembersCovered(lib, W, grey)
    ensures MembersCovered(lib, AddType(lib, W, t).0, grey + {t})
    ensures AddType(lib, W, t).1 == 1 || !lib.g.types[t].Composite? ==> MembersCovered(lib, AddType(lib, W, t).0, grey)
  {
    hide Walkable, DistinctNames, OwnNames, TabOk, AddType, Added, Covered;
    AddTypeAdds(lib, W, t);
    var V := AddType(lib, W, t).0;
    forall c | c in lib.g.types && lib.g.types[c].Composite? && Added(lib, V, c) && c !in grey && Added(lib, W, c)
      ensures AllCovered(lib, V, lib.g.types[c].members)
    {
      AllCoveredGrows(lib, W, V, lib.g.types[c].members);
    }
  }

  ghost predicate WalkInv(lib: Library, W: Mod, grey: set<TypeId>) {
    Walkable(lib) && DistinctNames(lib) && TabOk(lib.g, W.T) && OwnNames(lib, W) && MembersCovered(lib, W, grey)
  }

  lemma {:induction false} WalkCovers(lib: Library, W: Mod, t: TypeId, grey: set<TypeId>)
    requires WalkInv(lib, W, grey) && Known(lib.g, t)
    ensures WalkInv(lib, Walk(lib, W, t), grey) && Covered(lib, Walk(lib, W, t), t)
    decreases Unnamed(lib, W), Height(lib, t), 1, 0
  {
    hide Walkable, DistinctNames, TabOk, OwnNames, MembersCovered, AddType, Height, Unnamed, Mangled;
    LibKeys(lib);
    if t != 0 {
      EdgesDown(lib, t);
      var (V, code) := AddType(lib, W, t);
      match lib.g.types[t]
      case Base(enc, size, bits) =>
        AddTypeAdds(lib, W, t);
        MembersAfterAdd(lib, W, t, grey);
      case Void =>
        AddTypeAdds(lib, W, t);
        MembersAfterAdd(lib, W, t, grey);
      case Composite(_, members, _) =>
        AddTypeAdds(lib, W, t);
        MembersAfterAdd(lib, W, t, grey);
        if code == 0 {
          WalkAllCovers(lib, V, members, lib.limit + 1, grey + {t});
          MembersFinish(lib, WalkAll(lib, V, members, lib.limit + 1), t, grey);
        }
      case Array(e) => WalkCovers(lib, W, e, grey);
      case Subrange(e) => WalkCovers(lib, W, e, grey);
      case Address(_, ultimate) => WalkCovers(lib, W, ultimate, grey);
      case Subprogram(related) => WalkAllCovers(lib, W, related, Height(lib, t), grey);
      case Enumeration | OtherKind =>
    }
  }

  lemma MembersFinish(lib: Library, W: Mod, t: TypeId, grey: set<TypeId>)
    requires Walkable(lib) && MembersCovered(lib, W, grey + {t}) && t in lib.g.types && lib.g.types[t].Composite?
    requires AllCovered(lib, W, lib.g.types[t].members)
    ensures MembersCovered(lib, W, grey)
  {
    hide Walkable, Added, AllCovered;
  }

  lemma {:induction false} WalkAllCovers(lib: Library, W: Mod, ts: seq<TypeId>, bound: nat, grey: set<TypeId>)
    requires WalkInv(lib, W, grey)
    requires forall m :: m in ts ==> Known(lib.g, m) && Height(lib, m) < bound
    ensures WalkInv(lib, WalkAll(lib, W, ts, bound), grey) && AllCovered(lib, WalkAll(lib, W, ts, bound), ts)
    decreases Unnamed(lib, W), bound, 0, |ts|
  {
    hide Walkable, DistinctNames, TabOk, OwnNames, MembersCovered, AddType, Height, Unnamed, Mangled;
    LibKeys(lib);
    if ts != [] {
      var V := Walk(lib, W, ts[0]);
      WalkCovers(lib, W, ts[0], grey);
      UnnamedShrinks(lib, W, V);
      WalkAllCovers(lib, V, ts[1..], bound, grey);
      CoveredGrows(lib, V, WalkAll(lib, V, ts[1..], bound), ts[0]);
    }
  }

  /** `m` is a member, an element, what a chain of pointers ends at, or part of a signature. */
  ghost predicate LeadsTo(g: Graph, t: TypeId, m: TypeId) {
    t in g.types &&
    match g.types[t]
    case Composite(_, members, _) => exists i :: 0 <= i < |members| && members[i] == m
    case Array(e) => m == e
    case Subrange(e) => m == e
    case Address(_, ultimate) => m == ultimate
    case Subprogram(related) => exists i :: 0 <= i < |related| && related[i] == m
    case _ => false
  }

  lemma LeadsToIff(g: Graph, t: TypeId, m: TypeId)
    ensures m in WalkEdges(g, t) <==> LeadsTo(g, t, m)
  {
  }

  /** A path of the walk. */
  ghost predicate WalkPath(lib: Library, path: seq<TypeId>) {
    && path != [] && (forall i :: 0 <= i < |path| ==> path[i] in lib.g.types)
    && (forall i :: 0 < i < |path| ==> LeadsTo(lib.g, path[i - 1], path[i]))
  }

  ghost predicate Reaches(lib: Library, t: TypeId, u: TypeId) {
    exists path :: WalkPath(lib, path) && path[0] == t && path[|path| - 1] == u
  }

  /** No type of the library has an attribute yet. */
  ghost predicate NoneAdded(lib: Library, W: Mod)
    requires lib.name.Keys == lib.g.types.Keys
  {
    forall t :: t in lib.g.types ==> Mangled(lib.name[t]) !in W.attrs
  }

  lemma {:induction false} PathCovered(lib: Library, W: Mod, path: seq<TypeId>, i: nat)
    requires WalkInv(lib, W, {}) && WalkPath(lib, path) && Covered(lib, W, path[0]) && i < |path|
    ensures Covered(lib, W, path[i])
  {
    hide Walkable, DistinctNames, TabOk, OwnNames, Mangled;
    if i > 0 {
      PathCovered(lib, W, path, i - 1);
      assert path[i] in WalkEdges(lib.g, path[i - 1]) by { LeadsToIff(lib.g, path[i - 1], path[i]); }
      var t := path[i - 1];
      if lib.g.types[t].Composite? {
        WalkedMembers(lib, t);
        assert AllCovered(lib, W, lib.g.types[t].members);
      }
    }
  }

  /** The walk terminates on every library whose cycles pass through composites, and if names
      are distinct and initially absent, every supported type that it reaches and that is a
      composite, void or a base type is bound to its name in the module. */
  lemma WalkAddsReachable(lib: Library, W: Mod, path: seq<TypeId>, i: nat)
    requires Walkable(lib) && DistinctNames(lib) && NoneAdded(lib, W) && TabOk(lib.g, W.T)
    requires WalkPath(lib, path) && i < |path|
    ensures Known(lib.g, path[0])
    ensures var u := lib.g.types[path[i]];
      Supported(lib.g, path[i]) && (u.Composite? || u.Void? || u.Base?) ==> Added(lib, Walk(lib, W, path[0]), path[i])
  {
    hide Walkable, TabOk, Mangled, Supported;
    LibKeys(lib);
    assert MembersCovered(lib, W, {}) && OwnNames(lib, W);
    WalkCovers(lib, W, path[0], {});
    PathCovered(lib, Walk(lib, W, path[0]), path, i);
  }

  // ----- Nothing else is added -----

  /** Types that get a name in the module. */
  predicate Useful(lib: Library, u: TypeId) {
    u in lib.g.types && Supported(lib.g, u) && (lib.g.types[u].Composite? || lib.g.types[u].Void? || lib.g.types[u].Base?)
  }

  /** The attributes that `W` has and `V` has not are names of useful types that `t` reaches. */
  ghost predicate AddsOnly(lib: Library, V: Mod, W: Mod, t: TypeId) {
    forall n :: n in W.attrs && n !in V.attrs ==> NameOfReached(lib, n, W.attrs[n], t)
  }

  ghost predicate NameOfReached(lib: Library, n: string, u: TypeId, t: TypeId) {
    Useful(lib, u) && u in lib.name && n == Mangled(lib.name[u]) && Reaches(lib, t, u)
  }

  lemma ReachesSelf(lib: Library, t: TypeId)
    requires t in lib.g.types
    ensures Reaches(lib, t, t)
  {
    assert WalkPath(lib, [t]);
  }

  lemma ReachesFurther(lib: Library, t: TypeId, m: TypeId, u: TypeId)
    requires t in lib.g.types && LeadsTo(lib.g, t, m) && Reaches(lib, m, u)
    ensures Reaches(lib, t, u)
  {
    hide LeadsTo;
    var path :| WalkPath(lib, path) && path[0] == m && path[|path| - 1] == u;
    assert WalkPath(lib, [t] + path);
  }

  lemma AddsFurther(lib: Library, V: Mod, W: Mod, t: TypeId, m: TypeId)
    requires t in lib.g.types && LeadsTo(lib.g, t, m) && AddsOnly(lib, V, W, m)
    ensures AddsOnly(lib, V, W, t)
  {
    hide LeadsTo, Useful, Mangled, Reaches;
    forall n | n in W.attrs && n !in V.attrs ensures NameOfReached(lib, n, W.attrs[n], t) {
      ReachesFurther(lib, t, m, W.attrs[n]);
    }
  }

  lemma AddsTrans(lib: Library, U: Mod, V: Mod, W: Mod, t: TypeId)
    requires AddsOnly(lib, U, V, t) && AddsOnly(lib, V, W, t) && Grows(V, W)
    ensures AddsOnly(lib, U, W, t)
  {
    hide NameOfReached;
  }

  lemma AddTypeOnly(lib: Library, W: Mod, t: TypeId)
    requires Walkable(lib) && TabOk(lib.g, W.T) && t in lib.g.types
    requires lib.g.types[t].Composite? || lib.g.types[t].Void? || lib.g.types[t].Base?
    ensures AddsOnly(lib, W, AddType(lib, W, t).0, t)
  {
    hide Mangled, TabOk, Closed, WalkEdgeOk, WalkEdges, Walkable, AllNames, Unnamed, Grows, Reaches;
    LibKeys(lib);
    ReachesSelf(lib, t);
    TabOkErr(lib.g, W.T, false);
    MakeCompletes(lib.g, W.T.(err := false), t);
    KeysSupported(lib.g, W.T);
  }

  lemma KeysSupported(g: Graph, T: Tab)
    requires TabOk(g, T)
    ensures forall k :: k in T.keys ==> Supported(g, k)
  {
  }

  lemma {:induction false} WalkAddsOnly(lib: Library, W: Mod, t: TypeId)
    requires Walkable(lib) && TabOk(lib.g, W.T) && Known(lib.g, t)
    ensures AddsOnly(lib, W, Walk(lib, W, t), t)
    decreases Unnamed(lib, W), Height(lib, t), 1, 0
  {
    hide Walkable, TabOk, AddType, Height, Unnamed, Mangled, AddsOnly, WalkEdges, Closed, Supported, Grows;
    LibKeys(lib);
    AddsNone(lib, W, t);
    if t != 0 {
      EdgesDown(lib, t);
      var (V, code) := AddType(lib, W, t);
      match lib.g.types[t]
      case Base(enc, size, bits) => AddTypeOnly(lib, W, t);
      case Void => AddTypeOnly(lib, W, t);
      case Composite(_, members, _) =>
        AddTypeOnly(lib, W, t);
        if code == 0 {
          WalkedMembers(lib, t);
          WalkAllAddsOnly(lib, V, members, lib.limit + 1, t);
          AddsTrans(lib, W, V, WalkAll(lib, V, members, lib.limit + 1), t);
        }
      case Array(e) => WalkAddsOnly(lib, W, e); AddsFurther(lib, W, Walk(lib, W, e), t, e);
      case Subrange(e) => WalkAddsOnly(lib, W, e); AddsFurther(lib, W, Walk(lib, W, e), t, e);
      case Address(_, u) => WalkAddsOnly(lib, W, u); AddsFurther(lib, W, Walk(lib, W, u), t, u);
      case Subprogram(related) =>
        WalkedSignature(lib, t);
        WalkAllAddsOnly(lib, W, related, Height(lib, t), t);
      case Enumeration | OtherKind =>
    }
  }

  lemma AddsNone(lib: Library, W: Mod, t: TypeId)
    ensures AddsOnly(lib, W, W, t)
  {
  }

  lemma {:induction false} WalkAllAddsOnly(lib: Library, W: Mod, ts: seq<TypeId>, bound: nat, t: TypeId)
    requires Walkable(lib) && TabOk(lib.g, W.T) && t in lib.g.types
    requires forall m :: m in ts ==> Known(lib.g, m) && Height(lib, m) < bound && LeadsTo(lib.g, t, m)
    ensures AddsOnly(lib, W, WalkAll(lib, W, ts, bound), t)
    decreases Unnamed(lib, W), bound, 0, |ts|
  {
    hide Walkable, TabOk, AddType, Height, Unnamed, Mangled, AddsOnly, LeadsTo;
    LibKeys(lib);
    AddsNone(lib, W, t);
    if ts != [] {
      var V := Walk(lib, W, ts[0]);
      WalkAddsOnly(lib, W, ts[0]);
      UnnamedShrinks(lib, W, V);
      WalkAllAddsOnly(lib, V, ts[1..], bound, t);
      AddsFurther(lib, W, V, t, ts[0]);
      AddsTrans(lib, W, V, WalkAll(lib, V, ts[1..], bound), t);
    }
  }

  /** The types that the walk adds are exactly the useful types that it reaches. */
  lemma WalkAddsExactly(lib: Library, W: Mod, t: TypeId, u: TypeId)
    requires Walkable(lib) && DistinctNames(lib) && NoneAdded(lib, W) && TabOk(lib.g, W.T) && Known(lib.g, t)
    ensures Added(lib, Walk(lib, W, t), u) <==> Useful(lib, u) && Reaches(lib, t, u)
    ensures forall n :: n in Walk(lib, W, t).attrs && n !in W.attrs ==> Added(lib, Walk(lib, W, t), Walk(lib, W, t).attrs[n])
  {
    hide Walkable, TabOk, Mangled, Walk, DistinctNames, NoneAdded, Added, Reaches, Useful, AddsOnly;
    LibKeys(lib);
    WalkAddsOnly(lib, W, t);
    AddedIsReached(lib, W, Walk(lib, W, t), t);
    if Useful(lib, u) && Reaches(lib, t, u) { ReachedIsAdded(lib, W, t, u); }
  }

  lemma AddedIsReached(lib: Library, W: Mod, V: Mod, t: TypeId)
    requires lib.name.Keys == lib.g.types.Keys && NoneAdded(lib, W) && AddsOnly(lib, W, V, t)
    ensures forall u :: Added(lib, V, u) ==> Useful(lib, u) && Reaches(lib, t, u)
    ensures forall n :: n in V.attrs && n !in W.attrs ==> Added(lib, V, V.attrs[n])
  {
    hide Mangled, Reaches, Useful;
  }

  lemma ReachedIsAdded(lib: Library, W: Mod, t: TypeId, u: TypeId)
    requires Walkable(lib) && lib.name.Keys == lib.g.types.Keys && DistinctNames(lib) && NoneAdded(lib, W) && TabOk(lib.g, W.T)
    requires Known(lib.g, t) && Useful(lib, u) && Reaches(lib, t, u)
    ensures Added(lib, Walk(lib, W, t), u)
  {
    hide Walkable, TabOk, Mangled, Walk, DistinctNames, NoneAdded, Added, LeadsTo;
    var path :| WalkPath(lib, path) && path[0] == t && path[|path| - 1] == u;
    WalkAddsReachable(lib, W, path, |path| - 1);
  }
}
