/** The code of library_loader.c that fills a module, against the walk of LibraryWalk. */
module LibraryLoader {
  import opened TypeGraph
  import opened TypeTable
  import opened LibraryWalk

  class Loader {
    const lib: Library
    const table: Table
    /** The attributes of the Python module; null stands for an object that is not a type. */
    var attrs: map<string, ForeignType?>

    ghost function Abs(): Mod
      reads this, table
    {
      Mod(map n | n in attrs :: if attrs[n] == null then 0 else attrs[n].utype, table.Abs())
    }

    ghost predicate Valid()
      reads this, table, set k | k in table.typdict :: table.typdict[k]
    {
      && Walkable(lib) && table.g == lib.g && table.Valid() && TabOk(lib.g, table.Abs())
    }

    constructor (library: Library, types: Table, existing: map<string, ForeignType?>)
      requires Walkable(library) && types.g == library.g && types.Valid() && TabOk(library.g, types.Abs())
      ensures Valid() && lib == library && table == types && attrs == existing
    {
      lib, table, attrs := library, types, existing;
    }

    /** add_type_to_module */
    method AddTypeToModule(t: TypeId) returns (code: int)
      requires Valid() && t in lib.g.types
      modifies this, table
      ensures Valid() && (Abs(), code) == AddType(lib, old(Abs()), t)
    {
      hide Walkable, Make, Closed, Mangled, TabOk, Table.Valid, Unnamed;
      LibNames(lib, t);
      var name := MangleName(lib.name[t]);
      if name in attrs {
        return 1;
      }
      var ptype := LookUpType(t);
      if ptype == null {
        return -1;
      }
      attrs := attrs[name := ptype];
      assert Abs().attrs == old(Abs().attrs)[name := t];
      return 0;
    }

    /** The table of types after an attribute was found absent: PyObject_HasAttrString has
        cleared the exception of the failed look-up, and any other. */
    method LookUpType(t: TypeId) returns (ptype: ForeignType?)
      requires Valid() && t in lib.g.types && Known(lib.g, t)
      modifies table
      ensures Valid() && attrs == old(attrs) && Abs().attrs == old(Abs().attrs)
      ensures ptype != null ==> ptype.utype == t
      ensures var (U, ok) := Make(lib.g, old(table.Abs()).(err := false), t);
        ok == (ptype != null) && table.Abs() == if ok then U else U.(err := false)
    {
      hide Walkable, Make, TabOk, Table.Valid;
      TabOkErr(lib.g, table.Abs(), false);
      table.ClearError();
      LibKeys(lib);
      MakeCompletes(lib.g, table.Abs(), t);
      ptype := table.GetOrCreate(t);
      if ptype == null {
        TabOkErr(lib.g, table.Abs(), false);
        table.ClearError();
      }
    }

    /** recursively_add_useful_types */
    method AddUsefulTypes(t: TypeId)
      requires Valid() && Known(lib.g, t)
      modifies this, table
      ensures Valid() && Abs() == Walk(lib, old(Abs()), t)
      decreases Unnamed(lib, Abs()), Height(lib, t), 1, 0
    {
      hide Walkable, WalkAll, AddType, TabOk, WalkEdges, Height, Unnamed, Table.Valid;
      LibKeys(lib);
      if t == 0 {
        return;
      }
      EdgesDown(lib, t);
      match lib.g.types[t]
      case Base(enc, size, bits) =>
        if bits != 8 * size {
          return;
        }
        var _ := AddTypeToModule(t);
      case Void =>
        var _ := AddTypeToModule(t);
      case Composite(_, members, _) =>
        WalkedMembers(lib, t);
        var code := AddTypeToModule(t);
        if code == 0 {
          AddAll(members, lib.limit + 1);
        }
      case Array(e) => AddUsefulTypes(e);
      case Subrange(e) => AddUsefulTypes(e);
      case Address(_, ultimate) => AddUsefulTypes(ultimate);
      case Subprogram(related) =>
        WalkedSignature(lib, t);
        AddAll(related, Height(lib, t));
      case Enumeration | OtherKind =>
    }

    /** The loops over members and over the types of a signature. */
    method AddAll(ts: seq<TypeId>, ghost bound: nat)
      requires Valid() && forall m :: m in ts ==> Known(lib.g, m) && Height(lib, m) < bound
      modifies this, table
      ensures Valid() && Abs() == WalkAll(lib, old(Abs()), ts, bound)
      decreases Unnamed(lib, Abs()), bound, 0
    {
      hide Walkable, Walk, AddType, TabOk, WalkEdges, Height, Unnamed, Table.Valid, Grows;
      LibKeys(lib);
      ghost var W := Abs();
      for i := 0 to |ts|
        invariant Valid()
        invariant forall m :: m in ts[i..] ==> Known(lib.g, m) && Height(lib, m) < bound
        invariant WalkAll(lib, W, ts, bound) == WalkAll(lib, Abs(), ts[i..], bound)
        invariant W.attrs.Keys <= Abs().attrs.Keys
      {
        UnnamedShrinks(lib, W, Abs());
        assert ts[i..][1..] == ts[i + 1..] && ts[i] in ts[i..];
        AddUsefulTypes(ts[i]);
      }
    }
  }

  lemma LibNames(lib: Library, t: TypeId)
    requires Walkable(lib) && t in lib.g.types
    ensures lib.name.Keys == lib.g.types.Keys && Closed(lib.g) && Known(lib.g, t) && '\0' !in lib.name[t]
  {
  }
}
