/** Preparing a foreign function for calls: what funproxytype_setup acquires and releases. */
module FfiSetup {
  import opened Common
  import opened FfiDescriptors

  /** ForeignType_GetOrCreate: a new reference to a type object, or None if unsupported. */
  type Lookup = Foreign -> Option<nat>

  /** A NULL-terminated array of references; only the first `|ids|` of its items and the
      terminator are known. */
  ghost predicate HoldsRefs(types: seq<TypeRef>, ids: seq<nat>) {
    |ids| < |types| && forall i :: 0 <= i < |ids| ==> types[i] == Type(ids[i])
  }

  ghost predicate Terminated(types: seq<TypeRef>, ids: seq<nat>) {
    HoldsRefs(types, ids) && types[|ids|] == NoType
  }

  /** Argument descriptors `d` in array `d.arr` and argument types in array `targ`. */
  ghost predicate ArgsBuilt(c0: map<nat, Cell>, c: map<nat, Cell>, d: Desc, targ: nat, types: seq<TypeRef>) {
    targ !in c0 && Partial(c0[targ := RefArray(types)], c, d)
  }

  lemma ArgsCells(c0: map<nat, Cell>, c: map<nat, Cell>, d: Desc, targ: nat, types: seq<TypeRef>)
    requires ArgsBuilt(c0, c, d, targ, types)
    ensures d.Built? && targ in c && c[targ] == RefArray(types) && targ !in Owned(d)
    ensures d.arr in c && c[d.arr].PtrArray? && |d.elems| < |c[d.arr].items| && d.arr != targ
  {
    hide Stored, Separate, ElemIds;
    assert targ in c - Owned(d);
  }

  lemma ArgsTypes(c0: map<nat, Cell>, c: map<nat, Cell>, d: Desc, targ: nat, types: seq<TypeRef>, types1: seq<TypeRef>)
    requires ArgsBuilt(c0, c, d, targ, types)
    ensures ArgsBuilt(c0, c[targ := RefArray(types1)], d, targ, types1)
  {
    hide Stored, Separate, StoredPrefix, SeparateArray, ElemIds;
    ArgsCells(c0, c, d, targ, types);
    var b, b0 := c[targ := RefArray(types1)], c0[targ := RefArray(types1)];
    assert b - Owned(d) == (c - Owned(d))[targ := RefArray(types1)];
    assert b0 == c0[targ := RefArray(types)][targ := RefArray(types1)];
    PartialOwned(c0[targ := RefArray(types)], c, d);
    PartialFrame(c0[targ := RefArray(types)], c, d, b0, b);
  }

  lemma PartialOwned(c0: map<nat, Cell>, c: map<nat, Cell>, d: Desc)
    requires Partial(c0, c, d)
    ensures Owned(d) <= c.Keys
  {
    PrefixInCells(c, d);
  }

  lemma ArgsForget(c0: map<nat, Cell>, c: map<nat, Cell>, d: Desc, targ: nat, types: seq<TypeRef>)
    requires ArgsBuilt(c0, c, d, targ, types)
    ensures Partial(c0, c - {targ}, d)
  {
    hide Stored, Separate, StoredPrefix, SeparateArray, ElemIds;
    ArgsCells(c0, c, d, targ, types);
    PartialOwned(c0[targ := RefArray(types)], c, d);
    assert (c - {targ}) - Owned(d) == (c - Owned(d)) - {targ} == c0;
    PartialFrame(c0[targ := RefArray(types)], c, d, c0, c - {targ});
  }

  class FunctionType {
    const results: seq<Foreign>
    const args: seq<Foreign>
    const lookup: Lookup
    /** Whether ffi_prep_cif accepts the descriptors of a return type and of arguments. */
    const prepare: (Foreign, seq<Foreign>) -> bool
    const heap: Heap
    var ff_cif: Option<nat>
    var ff_argtypes: Option<nat>
    var ff_rettype: TypeRef
    ghost var ret: Desc
    ghost var arg: Desc
    ghost var retId: nat
    ghost var argIds: seq<nat>

    constructor (results: seq<Foreign>, args: seq<Foreign>, lookup: Lookup, prepare: (Foreign, seq<Foreign>) -> bool, heap: Heap)
      ensures this.results == results && this.args == args && this.lookup == lookup
      ensures this.prepare == prepare && this.heap == heap && ff_cif.None?
    {
      this.results, this.args, this.lookup, this.prepare, this.heap := results, args, lookup, prepare, heap;
      ff_cif, ff_argtypes, ff_rettype := None, None, UnsetType;
    }

    // ----- What is held -----

    ghost predicate ArgOk(i: nat)
      requires i < |args|
    {
      lookup(args[i]).Some? && Describe(args[i], heap.layouter).Some?
    }

    /** The arrays of descriptors and types that the first `|ids|` arguments need. */
    ghost predicate Describes(d: Desc, ids: seq<nat>) {
      && d.Built? && |d.elems| == |ids| <= |args|
      && forall i :: 0 <= i < |ids| ==>
           lookup(args[i]) == Some(ids[i]) && Describe(args[i], heap.layouter) == Some(ShapesOf(d)[i])
    }

    /** The cells that a prepared function holds: descriptors, arrays and call interface. */
    ghost function Held(): set<nat>
      reads this
      requires ff_cif.Some? && (args != [] ==> arg.Built? && ff_argtypes.Some?)
    {
      Ids(ret) + {ff_cif.value} + if args == [] then {} else Owned(arg) + {ff_argtypes.value}
    }

    ghost predicate Ready()
      reads this, heap
    {
      && heap.Valid() && ff_cif.Some? && ff_cif.value in heap.cells
      && heap.cells[ff_cif.value] == CifCell(Root(ret), if args == [] then None else Some(if arg.Built? then arg.arr else 0))
      && ff_rettype == Type(retId) && multiset{retId} + multiset(argIds) <= heap.refs
      && Stored(heap.cells, ret) && Separate(ret) && ff_cif.value !in Ids(ret)
      && (if args == [] then argIds == [] else ArgsReady())
    }

    ghost predicate ArgsReady()
      reads this, heap
    {
      && arg.Built? && StoredArray(heap.cells, arg) && SeparateArray(arg) && Describes(arg, argIds) && |argIds| == |args|
      && ff_argtypes.Some? && ff_argtypes.value in heap.cells
      && heap.cells[ff_argtypes.value].RefArray? && Terminated(heap.cells[ff_argtypes.value].types, argIds)
      && ff_cif.Some? && ff_cif.value != ff_argtypes.value
      && {ff_cif.value, ff_argtypes.value} !! Owned(arg)
      && Ids(ret) !! Owned(arg) && ff_argtypes.value !in Ids(ret)
    }

    /** funproxytype_setup: failure releases exactly what was acquired, and success holds
        exactly what was allocated and referenced. */
    method Setup() returns (ok: bool)
      requires heap.Valid() && (ff_cif.Some? ==> Ready())
      modifies this, heap
      ensures old(ff_cif).Some? ==> ok && unchanged(this) && unchanged(heap)
      ensures old(ff_cif).None? ==>
        (ok <==>
          && |results| == 1 && lookup(results[0]).Some? && Describe(results[0], heap.layouter).Some?
          && (forall i :: 0 <= i < |args| ==> lookup(args[i]).Some? && Describe(args[i], heap.layouter).Some?)
          && prepare(results[0], args))
      ensures !ok ==> ff_cif.None? && heap.Valid() && heap.cells == old(heap.cells) && heap.refs == old(heap.refs)
      ensures ok ==> Ready()
      ensures ok && old(ff_cif).None? ==>
        && heap.cells - Held() == old(heap.cells) && Held() !! old(heap.cells).Keys
        && heap.refs == old(heap.refs) + multiset{retId} + multiset(argIds)
        && lookup(results[0]) == Some(retId) && Describe(results[0], heap.layouter) == Some(ShapeOf(ret))
    {
      hide Partial, Made, ElemIds, Owned, Stored, StoredPrefix, StoredArray, Separate, SeparateArray, Ids, ArgsBuilt, Describe, ShapeOf, ShapesOf, Root;
      if ff_cif.Some? { return true; }
      if |results| != 1 { return false; }
      var rettype := lookup(results[0]);
      if rettype.None? { return false; }
      heap.refs := heap.refs + multiset{rettype.value};
      ff_rettype := Type(rettype.value);
      retId := rettype.value;
      ghost var c0 := heap.cells;
      var rtype, d := heap.TypeFor(results[0]);
      if rtype == Null {
        heap.refs := heap.refs - multiset{ff_rettype.id};
        return false;
      }
      ret := d;
      ghost var c1 := heap.cells;
      ok := SetupArgs(c0, rtype);
      if !ok {
        heap.FreeType(rtype, ret);
        heap.refs := heap.refs - multiset{ff_rettype.id};
      }
    }

    /** The rest of funproxytype_setup, once there is a descriptor for the return value. */
    method SetupArgs(ghost c0: map<nat, Cell>, rtype: Ptr) returns (ok: bool)
      requires heap.Valid() && ff_cif.None? && ff_rettype == Type(retId) && retId in heap.refs && |results| == 1
      requires Made(c0, heap.cells, rtype, ret)
      modifies this, heap
      ensures heap.Valid() && ff_rettype == old(ff_rettype) && retId == old(retId) && ret == old(ret)
      ensures ok <==> (forall i :: 0 <= i < |args| ==> ArgOk(i)) && prepare(results[0], args)
      ensures !ok ==> ff_cif.None? && heap.cells == old(heap.cells) && heap.refs == old(heap.refs)
      ensures ok ==> Ready() && heap.refs == old(heap.refs) + multiset(argIds)
      ensures ok ==> heap.cells - Held() == c0 && Held() !! c0.Keys
    {
      hide Partial, Made, ElemIds, Owned, Stored, StoredPrefix, StoredArray, Separate, SeparateArray, Ids, ArgsBuilt, Describe, ShapeOf, ShapesOf, Root, Ready, ArgsReady, Held, HoldsRefs, Terminated, Describes, Building;
      ghost var c1 := heap.cells;
      var arr: Option<nat> := None;
      argIds := [];
      if |args| > 0 {
        var a, targ;
        ghost var d, ids;
        ok, a, targ, d, ids := BuildArgs();
        if !ok { return; }
        arr, ff_argtypes, arg, argIds := Some(a), Some(targ), d, ids;
      }
      ok := PrepareCif(c0, c1, rtype, arr, old(heap.refs));
    }

    /** What funproxytype_setup knows when only the call interface is missing. */
    ghost predicate Assembled(c1: map<nat, Cell>, arr: Option<nat>)
      reads this, heap
    {
      if args == [] then arr.None? && heap.cells == c1 && argIds == []
      else
        && arr.Some? && ff_argtypes.Some? && Building(c1, arr.value, ff_argtypes.value, arg, argIds)
        && Describes(arg, argIds) && |argIds| == |args|
    }

    /** The call interface that ffi_prep_cif has filled in becomes that of the function. */
    method Accept(ghost c0: map<nat, Cell>, ghost c1: map<nat, Cell>, ghost c2: map<nat, Cell>, rtype: Ptr, arr: Option<nat>, cif: nat)
      requires heap.Valid() && ff_rettype == Type(retId) && multiset{retId} + multiset(argIds) <= heap.refs
      requires cif !in c2 && heap.cells == c2[cif := CifCell(Unset, None)]
      requires Made(c0, c1, rtype, ret)
      requires if args == [] then arr.None? && c2 == c1 && argIds == []
        else
          && arr.Some? && ff_argtypes.Some? && Describes(arg, argIds) && |argIds| == |args|
          && BuiltIn(c2, c1, arr.value, ff_argtypes.value)
      modifies this`ff_cif, heap
      ensures Ready() && heap.refs == old(heap.refs)
      ensures heap.cells - Held() == c0 && Held() !! c0.Keys
    {
      hide Describes, HoldsRefs, Terminated, Partial, Made, ElemIds, Owned, Stored, StoredPrefix, StoredArray, Separate, SeparateArray, Ids, ArgsBuilt, Describe, ShapeOf, ShapesOf, Root;
      assert cif in heap.cells;
      heap.cells := heap.cells[cif := CifCell(rtype, arr)];
      ff_cif := Some(cif);
      assert heap.cells == c2[cif := CifCell(rtype, arr)];
      if |args| > 0 {
        HeldWithArgs(c0, c1, c2, rtype, ret, arg, ff_argtypes.value, cif, heap.cells[cif]);
      } else {
        HeldAlone(c0, c1, rtype, ret, cif, heap.cells[cif]);
      }
    }

    /** As `Building`, in cells `c`, for the arguments that are held. */
    ghost predicate BuiltIn(c: map<nat, Cell>, c1: map<nat, Cell>, arr: nat, targ: nat)
      reads this
    {
      && targ in c && c[targ].RefArray? && ArgsBuilt(c1, c, arg, targ, c[targ].types)
      && Terminated(c[targ].types, argIds) && arg.Built? && arg.arr == arr
      && arr in c && c[arr].PtrArray? && |arg.elems| < |c[arr].items| && c[arr].items[|arg.elems|] == Null
    }

    method PrepareCif(ghost c0: map<nat, Cell>, ghost c1: map<nat, Cell>, rtype: Ptr, arr: Option<nat>, ghost refs0: multiset<nat>)
      returns (ok: bool)
      requires heap.Valid() && ff_cif.None? && ff_rettype == Type(retId) && |results| == 1
      requires heap.refs == refs0 + multiset(argIds) && retId in refs0
      requires Made(c0, c1, rtype, ret) && Assembled(c1, arr)
      modifies this`ff_cif, heap
      ensures heap.Valid() && (ok <==> prepare(results[0], args))
      ensures !ok ==> ff_cif.None? && heap.cells == c1 && heap.refs == refs0
      ensures ok ==> Ready() && heap.refs == old(heap.refs)
      ensures ok ==> heap.cells - Held() == c0 && Held() !! c0.Keys
    {
      hide Partial, Made, ElemIds, Owned, Stored, StoredPrefix, StoredArray, Separate, SeparateArray, Ids, ArgsBuilt, Describe, ShapeOf, ShapesOf, Root;
      ghost var c2 := heap.cells;
      var cif := heap.Alloc(CifCell(Unset, None));
      ok := prepare(results[0], args);
      if ok {
        Accept(c0, c1, c2, rtype, arr, cif);
      } else {
        heap.Free(cif);
        assert heap.cells == c2;
        if |args| > 0 { FreeArgs(arr.value, ff_argtypes.value, c1, arg, argIds, refs0); }
      }
    }

    /** funproxytype_dealloc gives back exactly what is held, if there is an argument. For a
        function without arguments ff_argtypes was never set: `defined` is false, since the
        release loop reads it. By then the cells are free, but not the reference to the type. */
    method Dealloc() returns (defined: bool)
      requires heap.Valid() && (ff_cif.Some? ==> Ready())
      modifies heap
      ensures heap.Valid()
      ensures ff_cif.None? ==> defined && unchanged(heap)
      ensures ff_cif.Some? ==> (defined <==> args != [])
      ensures !defined ==> heap.cells == old(heap.cells) - Held() && heap.refs == old(heap.refs)
      ensures ff_cif.Some? && defined ==>
        && heap.cells == old(heap.cells) - Held()
        && heap.refs == old(heap.refs) - multiset{retId} - multiset(argIds)
    {
      hide Describes, Partial, Made, ElemIds, Owned, Stored, StoredPrefix, StoredArray, Separate, SeparateArray, Ids, ArgsBuilt, Describe, ShapeOf, ShapesOf, Root;
      if ff_cif.None? { return true; }
      if args != [] {
        FreeHeld();
        return true;
      }
      ghost var c := heap.cells;
      heap.FreeType(heap.cells[ff_cif.value].rtype, ret);
      heap.Free(ff_cif.value);
      assert heap.cells == c - Held();
      defined := false;
    }

    /** funproxytype_dealloc of a prepared function with arguments */
    method FreeHeld()
      requires heap.Valid() && ff_cif.Some? && Ready() && args != []
      modifies heap
      ensures heap.Valid()
      ensures heap.cells == old(heap.cells) - Held()
      ensures heap.refs == old(heap.refs) - multiset{retId} - multiset(argIds)
    {
      hide Describes, Partial, Made, ElemIds, Owned, Stored, StoredPrefix, StoredArray, Separate, SeparateArray, Ids, ArgsBuilt, Describe, ShapeOf, ShapesOf, Root;
      ghost var c := heap.cells;
      var cif, targ := heap.cells[ff_cif.value], ff_argtypes.value;
      heap.FreeType(cif.rtype, ret);
      StoredInCells(c, ret);
      ArgsSurvive(c, arg, Ids(ret));
      heap.FreeTypeArr(cif.args.value, arg);
      OwnedParts(arg);
      heap.Free(ff_cif.value);
      ReleaseTypes(targ, argIds);
      heap.Free(targ);
      heap.refs := heap.refs - multiset{ff_rettype.id};
      assert heap.cells == c - Held();
    }

    // ----- References -----

    /** The loop over ff_argtypes that drops the references. */
    method ReleaseTypes(targ: nat, ghost ids: seq<nat>)
      requires heap.Valid() && targ in heap.cells && heap.cells[targ].RefArray?
      requires Terminated(heap.cells[targ].types, ids) && multiset(ids) <= heap.refs
      modifies heap
      ensures heap.Valid() && heap.cells == old(heap.cells) && heap.refs == old(heap.refs) - multiset(ids)
    {
      var types := heap.cells[targ].types;
      var i := 0;
      while types[i] != NoType
        invariant i <= |ids| && heap.Valid() && heap.cells == old(heap.cells)
        invariant heap.refs == old(heap.refs) - multiset(ids[..i])
        decreases |ids| - i
      {
        MultisetStep(ids, i);
        heap.refs := heap.refs - multiset{types[i].id};
        i := i + 1;
      }
      assert ids[..i] == ids;
    }

    /** The release of both argument arrays, in the order of the error path. */
    method FreeArgs(arr: nat, targ: nat, ghost c0: map<nat, Cell>, ghost d: Desc, ghost ids: seq<nat>, ghost refs0: multiset<nat>)
      requires heap.Valid() && targ in heap.cells && heap.cells[targ].RefArray? && d.Built? && d.arr == arr
      requires ArgsBuilt(c0, heap.cells, d, targ, heap.cells[targ].types)
      requires arr in heap.cells && heap.cells[arr].PtrArray? && |d.elems| < |heap.cells[arr].items|
      requires heap.cells[arr].items[|d.elems|] == Null
      requires Terminated(heap.cells[targ].types, ids) && heap.refs == refs0 + multiset(ids)
      modifies heap
      ensures heap.Valid() && heap.cells == c0 && heap.refs == refs0
    {
      hide ArgsBuilt, Partial, StoredArray, SeparateArray, ElemIds, Owned;
      ghost var c := heap.cells;
      ArgsCells(c0, c, d, targ, c[targ].types);
      ReleaseTypes(targ, ids);
      heap.Free(targ);
      ArgsForget(c0, c, d, targ, c[targ].types);
      PartialDone(c0, c - {targ}, d);
      heap.FreeTypeArr(arr, d);
    }

    /** Both arrays have room for every argument and end in NULL; the first elements of
        `d` and of `ids` are stored in them, and nothing else has been allocated since `c0`. */
    ghost predicate Building(c0: map<nat, Cell>, arr: nat, targ: nat, d: Desc, ids: seq<nat>)
      reads heap
    {
      && heap.Valid() && targ in heap.cells && heap.cells[targ].RefArray?
      && ArgsBuilt(c0, heap.cells, d, targ, heap.cells[targ].types) && HoldsRefs(heap.cells[targ].types, ids)
      && d.Built? && d.arr == arr && arr in heap.cells && heap.cells[arr].PtrArray?
      && |heap.cells[arr].items| == |args| + 1 && heap.cells[arr].items[|args|] == Null
      && |heap.cells[targ].types| == |args| + 1 && heap.cells[targ].types[|args|] == NoType
    }

    /** The loop of funproxytype_setup over the arguments. */
    method BuildArgs() returns (ok: bool, arr: nat, targ: nat, ghost d: Desc, ghost ids: seq<nat>)
      requires heap.Valid() && 0 < |args|
      modifies heap
      ensures heap.Valid()
      ensures ok <==> forall i :: 0 <= i < |args| ==> ArgOk(i)
      ensures !ok ==> heap.cells == old(heap.cells) && heap.refs == old(heap.refs)
      ensures ok ==> Building(old(heap.cells), arr, targ, d, ids) && Describes(d, ids) && |ids| == |args|
      ensures ok ==> heap.refs == old(heap.refs) + multiset(ids)
    {
      hide Partial, Made, ElemIds, Owned, Stored, StoredPrefix, StoredArray, Separate, SeparateArray, Ids, ArgsBuilt, Describe, ShapeOf, ShapesOf, Root;
      var n := |args|;
      ghost var c0 := heap.cells;
      arr := heap.Alloc(PtrArray(seq(n + 1, _ => Unset)));
      targ := heap.Alloc(RefArray(seq(n + 1, _ => UnsetType)));
      heap.SetItem(arr, n, Null);
      SetType(targ, n, NoType);
      d, ids := Built(0, arr, Extent(0, 0), []), [];
      ArgsStart(c0, heap.cells, d, targ, n);
      for i := 0 to n
        invariant Building(c0, arr, targ, d, ids) && Describes(d, ids) && |ids| == i
        invariant heap.refs == old(heap.refs) + multiset(ids)
        invariant forall k :: 0 <= k < i ==> ArgOk(k)
      {
        ok, d, ids := BuildArg(i, arr, targ, c0, d, ids, old(heap.refs));
        if !ok {
          assert !ArgOk(i);
          FreeArgs(arr, targ, c0, d, ids, old(heap.refs));
          return;
        }
      }
      ok := true;
    }

    /** One iteration; on failure both arrays are terminated where they must be freed to. */
    method BuildArg(i: nat, arr: nat, targ: nat, ghost c0: map<nat, Cell>, ghost d0: Desc, ghost ids0: seq<nat>,
                    ghost refs0: multiset<nat>)
      returns (ok: bool, ghost d: Desc, ghost ids: seq<nat>)
      requires heap.refs == refs0 + multiset(ids0)
      requires Building(c0, arr, targ, d0, ids0) && Describes(d0, ids0) && |ids0| == i < |args|
      modifies heap
      ensures Building(c0, arr, targ, d, ids)
      ensures ok <==> ArgOk(i)
      ensures ok ==> Describes(d, ids) && |ids| == i + 1
      ensures !ok ==> |d.elems| <= i + 1 && heap.cells[arr].items[|d.elems|] == Null
      ensures !ok ==> Terminated(heap.cells[targ].types, ids)
      ensures heap.refs == refs0 + multiset(ids)
    {
      hide HoldsRefs, Partial, Made, ElemIds, Owned, Stored, StoredPrefix, StoredArray, Separate, SeparateArray, Ids, ArgsBuilt, Describe, ShapeOf, ShapesOf, Root;
      var described, typed;
      described, d := BuildDescriptor(i, arr, targ, c0, d0, ids0);
      typed, ids := BuildType(i, arr, targ, c0, d, ids0, refs0);
      ok := described && typed;
      if !ok {
        TerminatedBy(heap.cells[targ].types, ids, i);
        SetArgItem(i + 1, arr, targ, Null, c0, d, ids);
        SetArgType(i + 1, arr, targ, NoType, c0, d, ids);
        TerminatedBy(heap.cells[targ].types, ids, i + 1);
      }
    }

    method BuildDescriptor(i: nat, arr: nat, targ: nat, ghost c0: map<nat, Cell>, ghost d0: Desc, ghost ids: seq<nat>)
      returns (ok: bool, ghost d: Desc)
      requires Building(c0, arr, targ, d0, ids) && |d0.elems| == i < |args|
      modifies heap
      ensures Building(c0, arr, targ, d, ids) && heap.refs == old(heap.refs)
      ensures heap.cells[targ] == old(heap.cells[targ])
      ensures ok <==> Describe(args[i], heap.layouter).Some?
      ensures ok ==> |d.elems| == i + 1 && ShapesOf(d) == ShapesOf(d0) + [Describe(args[i], heap.layouter).value]
      ensures !ok ==> d == d0 && heap.cells[arr].items[i] == Null
    {
      hide HoldsRefs, Partial, Made, ElemIds, Owned, Stored, StoredPrefix, StoredArray, Separate, SeparateArray, Ids, ArgsBuilt, Describe, ShapeOf, ShapesOf, Root;
      d := d0;
      ghost var c, types := heap.cells, heap.cells[targ].types;
      ArgsCells(c0, c, d, targ, types);
      var item, e := heap.TypeFor(args[i]);
      ok := item != Null;
      if ok {
        ArgsGrow(c0, c, heap.cells, d, item, e, targ, types);
        d := d.(elems := d.elems + [e]);
        ShapesGrow(d0, e);
        heap.SetItem(arr, i, item);
      } else {
        SetArgItem(i, arr, targ, item, c0, d, ids);
      }
    }

    method BuildType(i: nat, arr: nat, targ: nat, ghost c0: map<nat, Cell>, ghost d: Desc, ghost ids0: seq<nat>,
                     ghost refs0: multiset<nat>)
      returns (ok: bool, ghost ids: seq<nat>)
      requires heap.refs == refs0 + multiset(ids0)
      requires Building(c0, arr, targ, d, ids0) && |ids0| == i < |args|
      modifies heap
      ensures Building(c0, arr, targ, d, ids) && heap.cells[arr] == old(heap.cells[arr])
      ensures ok <==> lookup(args[i]).Some?
      ensures ids == if ok then ids0 + [lookup(args[i]).value] else ids0
      ensures !ok ==> heap.cells[targ].types[i] == NoType
      ensures heap.refs == refs0 + multiset(ids)
    {
      hide Partial, Made, ElemIds, Owned, Stored, StoredPrefix, StoredArray, Separate, SeparateArray, Ids, ArgsBuilt, Describe, ShapeOf, ShapesOf, Root;
      var t := lookup(args[i]);
      ok, ids := t.Some?, ids0;
      if ok {
        SetArgType(i, arr, targ, Type(t.value), c0, d, ids);
        heap.refs := heap.refs + multiset{t.value};
        ids := ids + [t.value];
      } else {
        SetArgType(i, arr, targ, NoType, c0, d, ids);
      }
    }

    /** ffi_arg_types[k] = p, beyond the part that is in use */
    method SetArgItem(k: nat, arr: nat, targ: nat, p: Ptr, ghost c0: map<nat, Cell>, ghost d: Desc, ghost ids: seq<nat>)
      requires Building(c0, arr, targ, d, ids) && |d.elems| <= k <= |args| && (k == |args| ==> p == Null)
      modifies heap
      ensures Building(c0, arr, targ, d, ids) && heap.refs == old(heap.refs)
      ensures heap.cells == old(heap.cells)[arr := PtrArray(old(heap.cells)[arr].items[k := p])]
      ensures heap.cells[targ] == old(heap.cells)[targ]
    {
      hide Partial, Made, ElemIds, Owned, Stored, StoredPrefix, StoredArray, Separate, SeparateArray, Ids, ArgsBuilt, Describe, ShapeOf, ShapesOf, Root;
      ArgsCells(c0, heap.cells, d, targ, heap.cells[targ].types);
      ArgsWrite(c0, heap.cells, d, targ, heap.cells[targ].types, k, p);
      heap.SetItem(arr, k, p);
    }

    /** self->ff_argtypes[k] = t, beyond the part that is in use */
    method SetArgType(k: nat, arr: nat, targ: nat, t: TypeRef, ghost c0: map<nat, Cell>, ghost d: Desc, ghost ids: seq<nat>)
      requires Building(c0, arr, targ, d, ids) && |ids| <= k <= |args| && (k == |args| ==> t == NoType)
      modifies heap
      ensures Building(c0, arr, targ, d, ids) && heap.refs == old(heap.refs)
      ensures heap.cells == old(heap.cells)[targ := RefArray(old(heap.cells)[targ].types[k := t])]
      ensures heap.cells[arr] == old(heap.cells)[arr]
    {
      hide Partial, Made, ElemIds, Owned, Stored, StoredPrefix, StoredArray, Separate, SeparateArray, Ids, ArgsBuilt, Describe, ShapeOf, ShapesOf, Root;
      ArgsCells(c0, heap.cells, d, targ, heap.cells[targ].types);
      ArgsTypes(c0, heap.cells, d, targ, heap.cells[targ].types, heap.cells[targ].types[k := t]);
      SetType(targ, k, t);
    }

    method SetType(targ: nat, i: nat, t: TypeRef)
      requires heap.Valid() && targ in heap.cells && heap.cells[targ].RefArray? && i < |heap.cells[targ].types|
      modifies heap
      ensures heap.Valid() && heap.refs == old(heap.refs)
      ensures heap.cells == old(heap.cells)[targ := RefArray(old(heap.cells)[targ].types[i := t])]
    {
      heap.cells := heap.cells[targ := RefArray(heap.cells[targ].types[i := t])];
    }
  }

  lemma ShapesGrow(d: Desc, e: Desc)
    requires d.Built?
    ensures ShapesOf(d.(elems := d.elems + [e])) == ShapesOf(d) + [ShapeOf(e)]
  {
  }

  lemma ArgsWrite(c0: map<nat, Cell>, c: map<nat, Cell>, d: Desc, targ: nat, types: seq<TypeRef>, k: nat, p: Ptr)
    requires ArgsBuilt(c0, c, d, targ, types) && d.arr in c && c[d.arr].PtrArray? && |d.elems| <= k < |c[d.arr].items|
    ensures ArgsBuilt(c0, c[d.arr := PtrArray(c[d.arr].items[k := p])], d, targ, types)
  {
    hide Partial, Owned;
    PartialWrite(c0[targ := RefArray(types)], c, d, k, p);
  }

  lemma ArgsGrow(c0: map<nat, Cell>, c: map<nat, Cell>, c1: map<nat, Cell>, d: Desc, p: Ptr, e: Desc, targ: nat, types: seq<TypeRef>)
    requires ArgsBuilt(c0, c, d, targ, types) && Made(c, c1, p, e)
    requires d.arr in c && c[d.arr].PtrArray? && |d.elems| + 1 < |c[d.arr].items|
    ensures d.arr in c1 && c1[d.arr] == c[d.arr] && targ in c1 && c1[targ] == RefArray(types)
    ensures ArgsBuilt(c0, c1[d.arr := PtrArray(c1[d.arr].items[|d.elems| := p])], d.(elems := d.elems + [e]), targ, types)
  {
    hide Partial, Owned, Made;
    ArgsCells(c0, c, d, targ, types);
    MadeKeeps(c, c1, p, e, targ);
    PartialGrows(c0[targ := RefArray(types)], c, c1, d, p, e);
  }

  lemma ArgsStart(c0: map<nat, Cell>, c: map<nat, Cell>, d: Desc, targ: nat, n: nat)
    requires d.Built? && d.elems == [] && d.arr !in c0 && targ !in c0 && d.arr != targ && targ in c && c[targ].RefArray?
    requires d.arr in c && c[d.arr].PtrArray? && |c[d.arr].items| == n + 1 && c - {d.arr, targ} == c0
    ensures ArgsBuilt(c0, c, d, targ, c[targ].types) && ShapesOf(d) == []
  {
    assert c - Owned(d) == c0[targ := c[targ]] by {
      assert Owned(d) == {d.arr};
      forall x | x in c - {d.arr} ensures x in c0[targ := c[targ]] && (c - {d.arr})[x] == c0[targ := c[targ]][x] {
        if x != targ { assert x in c - {d.arr, targ}; }
      }
    }
  }

  /** Everything that a function without arguments holds. */
  lemma HeldAlone(c0: map<nat, Cell>, c1: map<nat, Cell>, p: Ptr, ret: Desc, cif: nat, cell: Cell)
    requires Made(c0, c1, p, ret) && cif !in c1
    ensures var c, held := c1[cif := cell], Ids(ret) + {cif};
      && p == Root(ret) && Stored(c, ret) && Separate(ret) && cif !in Ids(ret)
      && c - held == c0 && held !! c0.Keys
  {
    hide Stored, Separate, Ids;
    MadeFrame(c0, c1, p, ret);
    StoredFrame(c1, c1[cif := cell], ret);
    assert c1[cif := cell] - (Ids(ret) + {cif}) == c1 - Ids(ret);
  }

  /** Everything that a function with arguments holds: no cell is held twice. */
  lemma HeldWithArgs(c0: map<nat, Cell>, c1: map<nat, Cell>, c2: map<nat, Cell>, p: Ptr, ret: Desc, arg: Desc, targ: nat, cif: nat, cell: Cell)
    requires Made(c0, c1, p, ret) && cif !in c2 && targ in c2 && c2[targ].RefArray?
    requires ArgsBuilt(c1, c2, arg, targ, c2[targ].types) && arg.arr in c2 && c2[arg.arr].PtrArray?
    requires |arg.elems| < |c2[arg.arr].items| && c2[arg.arr].items[|arg.elems|] == Null
    ensures var c, held := c2[cif := cell], Ids(ret) + {cif} + (Owned(arg) + {targ});
      && p == Root(ret) && Stored(c, ret) && Separate(ret) && cif !in Ids(ret)
      && StoredArray(c, arg) && SeparateArray(arg) && cif != targ && {cif, targ} !! Owned(arg)
      && Ids(ret) !! Owned(arg) && targ !in Ids(ret)
      && c - held == c0 && held !! c0.Keys
  {
    hide Stored, Separate, Ids, StoredPrefix, SeparateArray, ElemIds, Owned, ArgsBuilt, Partial;
    var c := c2[cif := cell];
    var types := c2[targ].types;
    MadeFrame(c0, c1, p, ret);
    ArgsCells(c1, c2, arg, targ, types);
    ArgsBase(c1, c2, arg, targ, types);
    StoredFrame(c1, c, ret);
    ArgsFinished(c1, c2, c, arg, targ, types);
    var held := Ids(ret) + {cif} + (Owned(arg) + {targ});
    assert c - held == (c2 - Owned(arg) - {targ}) - Ids(ret);
  }

  lemma ArgsBase(c0: map<nat, Cell>, c: map<nat, Cell>, d: Desc, targ: nat, types: seq<TypeRef>)
    requires ArgsBuilt(c0, c, d, targ, types)
    ensures Owned(d) !! c0.Keys && targ !in c0 && c - Owned(d) - {targ} == c0
    ensures Owned(d) <= c.Keys && forall x :: x in c0 ==> x in c && c[x] == c0[x]
  {
    hide Stored, Separate, StoredPrefix, SeparateArray, ElemIds, Owned;
    ArgsForget(c0, c, d, targ, types);
    PartialOwned(c0[targ := RefArray(types)], c, d);
    assert c - Owned(d) - {targ} == (c - {targ}) - Owned(d);
    forall x | x in c0 ensures x in c && c[x] == c0[x] { assert x in c - Owned(d) - {targ}; }
  }

  lemma ArgsFinished(c0: map<nat, Cell>, c: map<nat, Cell>, c1: map<nat, Cell>, d: Desc, targ: nat, types: seq<TypeRef>)
    requires ArgsBuilt(c0, c, d, targ, types) && c[d.arr].items[|d.elems|] == Null
    requires forall x :: x in c ==> x in c1 && c1[x] == c[x]
    ensures StoredArray(c1, d) && SeparateArray(d)
  {
    hide Stored, Separate, ElemIds, Owned;
    ArgsCells(c0, c, d, targ, types);
    PartialOwned(c0[targ := RefArray(types)], c, d);
    PartialFrame(c0[targ := RefArray(types)], c, d, c1 - Owned(d), c1);
    PartialDone(c1 - Owned(d), c1, d);
  }

  /** Freeing cells that an array does not own leaves it as it is. */
  lemma ArgsSurvive(c: map<nat, Cell>, d: Desc, gone: set<nat>)
    requires d.Built? && StoredArray(c, d) && SeparateArray(d) && gone !! Owned(d)
    ensures StoredArray(c - gone, d)
  {
    hide Stored, Separate, ElemIds;
    assert d.arr in Owned(d);
    forall i | 0 <= i < |d.elems| ensures Stored(c - gone, d.elems[i]) {
      ElemIdsCover(d, |d.elems|, i);
      StoredInCells(c, d.elems[i]);
      StoredFrame(c, c - gone, d.elems[i]);
    }
  }

  lemma OwnedParts(d: Desc)
    requires d.Built?
    ensures Owned(d) == {d.arr} + ElemIds(d, |d.elems|)
  {
  }

  lemma TerminatedBy(types: seq<TypeRef>, ids: seq<nat>, k: nat)
    ensures HoldsRefs(types, ids) && k == |ids| && types[k] == NoType ==> Terminated(types, ids)
  {
  }

  lemma MultisetStep(ids: seq<nat>, i: nat)
    requires i < |ids|
    ensures multiset(ids[..i + 1]) == multiset(ids[..i]) + multiset{ids[i]}
    ensures ids[i] in multiset(ids) - multiset(ids[..i])
    ensures multiset(ids[..i]) <= multiset(ids)
  {
    assert ids[..i + 1] == ids[..i] + [ids[i]];
    assert ids == ids[..i] + ([ids[i]] + ids[i + 1..]);
  }
}
