/** Initialising a foreign structure from Python values: compositeproxy_init. */
module CompositeInit {
  import opened Common
  import opened Memory

  /** A Python object: `proxy` is its address if it passes the type check against the
      structure, `items` its content if it is a dictionary. */
  datatype PyObj = PyObj(id: nat, proxy: Option<nat>, items: Option<map<string, PyObj>>, attrs: map<string, PyObj>)

  /** `encode` is what ft_storeinto of the field's type writes, None being an error; a field
      of an unrecognised type has none. */
  datatype FieldInfo = FieldInfo(name: string, offset: nat, size: nat, encode: Option<PyObj -> Option<seq<Byte>>>)

  /** A call passes a tuple, a conversion a single object. */
  datatype Args = Tuple(values: seq<PyObj>) | Single(value: PyObj)

  /** `Undefined` is the use of the missing type of an unrecognised field. */
  datatype Outcome = Done | Failed | Undefined

  type Keywords = map<string, PyObj>

  class CompositeProxy {
    const mem: array<Byte>
    const ptr: nat
    const size: nat
    const fields: seq<FieldInfo>

    constructor (mem: array<Byte>, ptr: nat, size: nat, fields: seq<FieldInfo>)
      ensures this.mem == mem && this.ptr == ptr && this.size == size && this.fields == fields
    {
      this.mem, this.ptr, this.size, this.fields := mem, ptr, size, fields;
    }

    predicate Recognised(i: nat) {
      i < |fields| && fields[i].encode.Some?
    }

    /** Recognised fields lie inside the structure, apart from each other, and each type
        writes exactly the bytes of its field. */
    ghost predicate Valid() {
      && ptr + size <= mem.Length
      && (forall i: nat :: Recognised(i) ==> fields[i].offset + fields[i].size <= size)
      && (forall i: nat, v :: Recognised(i) && Encoded(i, v).Some? ==> |Encoded(i, v).value| == fields[i].size)
      && (forall i: nat, j: nat :: Recognised(i) && Recognised(j) && i < j ==>
            Disjoint(fields[i].offset, fields[i].size, fields[j].offset, fields[j].size))
    }

    function Encoded(i: nat, v: PyObj): Option<seq<Byte>>
      requires Recognised(i)
    {
      fields[i].encode.value(v)
    }

    // ----- What initialisation means -----

    ghost predicate Holds(m: seq<Byte>, i: nat, bytes: seq<Byte>)
      requires Recognised(i)
    {
      ptr + fields[i].offset + fields[i].size <= |m|
      && m[ptr + fields[i].offset..ptr + fields[i].offset + fields[i].size] == bytes
    }

    predicate InField(k: nat, i: nat) {
      Recognised(i) && ptr + fields[i].offset <= k < ptr + fields[i].offset + fields[i].size
    }

    /** Bytes outside the recognised fields are the same. */
    ghost predicate OthersKept(before: seq<Byte>, after: seq<Byte>) {
      |before| == |after| &&
      forall k :: 0 <= k < |before| && (forall i: nat :: Recognised(i) ==> !InField(k, i)) ==> before[k] == after[k]
    }

    /** Positional value, else keyword, else zero; None if the value cannot be converted. */
    function Wanted(i: nat, values: seq<PyObj>, kwargs: Keywords): Option<seq<Byte>>
      requires Recognised(i)
    {
      if i < |values| then Encoded(i, values[i])
      else if fields[i].name in kwargs then Encoded(i, kwargs[fields[i].name])
      else Some(Zeros(fields[i].size))
    }

    /** The fields among the first `n` that a value initialises. */
    function Count(n: nat, values: seq<PyObj>, kwargs: Keywords): nat
      requires n <= |fields|
    {
      if n == 0 then 0
      else Count(n - 1, values, kwargs)
           + if Initialises(n - 1, values, kwargs) then 1 else 0
    }

    ghost predicate FilledFrom(before: seq<Byte>, after: seq<Byte>, r: Outcome, values: seq<PyObj>, kwargs: Keywords) {
      && r != Undefined && OthersKept(before, after)
      && (r == Done <==>
            && (forall i: nat :: Recognised(i) ==> Wanted(i, values, kwargs).Some?)
            && Count(|fields|, values, kwargs) <= |values| + |kwargs|)
      && (r == Done ==> forall i: nat :: Recognised(i) ==> Holds(after, i, Wanted(i, values, kwargs).value))
    }

    predicate AttributeFits(i: nat, arg: PyObj) {
      Recognised(i) && fields[i].name in arg.attrs && Encoded(i, arg.attrs[fields[i].name]).Some?
    }

    /** The first field, from `i` on, that has no fitting attribute. */
    function Misfit(i: nat, arg: PyObj): nat
      decreases |fields| - i
    {
      if i < |fields| && AttributeFits(i, arg) then Misfit(i + 1, arg) else i
    }

    /** The attribute loop comes to an unrecognised field of which there is an attribute. */
    predicate AttributeUndefined(arg: PyObj) {
      var i := Misfit(0, arg);
      i < |fields| && !Recognised(i) && fields[i].name in arg.attrs
    }

    ghost predicate TakenFrom(m: seq<Byte>, i: nat, arg: PyObj) {
      AttributeFits(i, arg) && Holds(m, i, FromAttribute(i, arg))
    }

    function FromAttribute(i: nat, arg: PyObj): seq<Byte>
      requires AttributeFits(i, arg)
    {
      Encoded(i, arg.attrs[fields[i].name]).value
    }

    // ----- Loops -----

    /** compositeproxy_setfield */
    method SetField(i: nat, v: PyObj) returns (ok: bool)
      requires Valid() && Recognised(i)
      modifies mem
      ensures ok <==> Encoded(i, v).Some?
      ensures mem[..] == if ok then Put(old(mem[..]), ptr + fields[i].offset, Encoded(i, v).value) else old(mem[..])
    {
      var bytes := Encoded(i, v);
      if bytes.None? { return false; }
      Store(mem, ptr + fields[i].offset, bytes.value);
      return true;
    }

    lemma PutKeepsOthers(before: seq<Byte>, m: seq<Byte>, i: nat, bytes: seq<Byte>)
      requires Valid() && Recognised(i) && |m| == mem.Length && |bytes| == fields[i].size && OthersKept(before, m)
      ensures OthersKept(before, Put(m, ptr + fields[i].offset, bytes))
    {
      var after := Put(m, ptr + fields[i].offset, bytes);
      forall k | 0 <= k < |before| && (forall i: nat :: Recognised(i) ==> !InField(k, i)) ensures before[k] == after[k] {
        assert !InField(k, i);
      }
    }

    lemma PutKeepsField(m: seq<Byte>, i: nat, bytes: seq<Byte>, j: nat, held: seq<Byte>)
      requires Valid() && Recognised(i) && Recognised(j) && |m| == mem.Length && |bytes| == fields[i].size
      requires i != j && Holds(m, j, held)
      ensures Holds(Put(m, ptr + fields[i].offset, bytes), j, held)
    {
      assert Disjoint(fields[i].offset, fields[i].size, fields[j].offset, fields[j].size) by {
        if i < j { } else { assert Disjoint(fields[j].offset, fields[j].size, fields[i].offset, fields[i].size); }
      }
      var a := ptr + fields[j].offset;
      PutApart(m, ptr + fields[i].offset, bytes, a, a + fields[j].size);
    }

    lemma PutHolds(m: seq<Byte>, i: nat, bytes: seq<Byte>)
      requires Valid() && Recognised(i) && |m| == mem.Length && |bytes| == fields[i].size
      ensures Holds(Put(m, ptr + fields[i].offset, bytes), i, bytes)
    {
    }

    /** The attempt to take every field from an attribute of the same name. */
    method InitFromAttributes(arg: PyObj) returns (r: Outcome)
      requires Valid()
      modifies mem
      ensures r == Done <==> forall i :: 0 <= i < |fields| ==> AttributeFits(i, arg)
      ensures r == Undefined <==> AttributeUndefined(arg)
      ensures r == Done ==> forall i :: 0 <= i < |fields| ==> TakenFrom(mem[..], i, arg)
      ensures OthersKept(old(mem[..]), mem[..])
    {
      hide OthersKept, Holds;
      ghost var before := mem[..];
      OthersKeptSelf(before);
      for i := 0 to |fields|
        invariant Misfit(0, arg) == Misfit(i, arg)
        invariant forall j :: 0 <= j < i ==> AttributeFits(j, arg)
        invariant forall j :: 0 <= j < i ==> TakenFrom(mem[..], j, arg)
        invariant OthersKept(before, mem[..])
      {
        var name := fields[i].name;
        if name !in arg.attrs {
          assert !AttributeFits(i, arg);
          return Failed;
        }
        if !Recognised(i) {
          assert !AttributeFits(i, arg);
          return Undefined;
        }
        ghost var m := mem[..];
        var ok := SetField(i, arg.attrs[name]);
        if !ok {
          assert !AttributeFits(i, arg);
          return Failed;
        }
        ghost var bytes := Encoded(i, arg.attrs[name]).value;
        PutKeepsOthers(before, m, i, bytes);
        PutHolds(m, i, bytes);
        forall j | 0 <= j < i ensures TakenFrom(mem[..], j, arg) {
          assert TakenFrom(m, j, arg);
          PutKeepsField(m, i, bytes, j, FromAttribute(j, arg));
        }
      }
      r := Done;
    }

    predicate Initialises(i: nat, values: seq<PyObj>, kwargs: Keywords) {
      Recognised(i) && (i < |values| || fields[i].name in kwargs)
    }

    /** One recognised field: positional argument first, else keyword, else zero. */
    method FillField(i: nat, values: seq<PyObj>, kwargs: Keywords) returns (ok: bool)
      requires Valid() && Recognised(i)
      modifies mem
      ensures ok <==> Wanted(i, values, kwargs).Some?
      ensures ok ==> |Wanted(i, values, kwargs).value| == fields[i].size
      ensures mem[..] == if ok then Put(old(mem[..]), ptr + fields[i].offset, Wanted(i, values, kwargs).value) else old(mem[..])
    {
      var name := fields[i].name;
      if i < |values| {
        ok := SetField(i, values[i]);
      } else if name in kwargs {
        ok := SetField(i, kwargs[name]);
      } else {
        Store(mem, ptr + fields[i].offset, Zeros(fields[i].size));
        ok := true;
      }
    }

    /** The loop that initialises the fields, and the final test. */
    method InitFields(values: seq<PyObj>, kwargs: Keywords) returns (r: Outcome)
      requires Valid()
      modifies mem
      ensures FilledFrom(old(mem[..]), mem[..], r, values, kwargs)
    {
      hide OthersKept, Wanted, Holds, Valid, Put;
      ghost var before := mem[..];
      OthersKeptSelf(before);
      var initialized := 0;
      for i := 0 to |fields|
        invariant initialized == Count(i, values, kwargs)
        invariant HeldBefore(mem[..], i, values, kwargs)
        invariant OthersKept(before, mem[..])
      {
        if Recognised(i) {
          ghost var m := mem[..];
          var ok := FillField(i, values, kwargs);
          if !ok { return Failed; }
          if Initialises(i, values, kwargs) { initialized := initialized + 1; }
          FieldFilled(before, m, i, values, kwargs);
        }
      }
      return if initialized <= |values| + |kwargs| then Done else Failed;
    }

    /** The recognised fields before `i` hold what is wanted. */
    ghost predicate HeldBefore(m: seq<Byte>, i: nat, values: seq<PyObj>, kwargs: Keywords) {
      forall j :: 0 <= j < i && Recognised(j) ==>
        Wanted(j, values, kwargs).Some? && Holds(m, j, Wanted(j, values, kwargs).value)
    }

    lemma FieldFilled(before: seq<Byte>, m: seq<Byte>, i: nat, values: seq<PyObj>, kwargs: Keywords)
      requires Valid() && Recognised(i) && |m| == mem.Length && HeldBefore(m, i, values, kwargs) && OthersKept(before, m)
      requires Wanted(i, values, kwargs).Some? && |Wanted(i, values, kwargs).value| == fields[i].size
      ensures ptr + fields[i].offset + fields[i].size <= |m|
      ensures var after := Put(m, ptr + fields[i].offset, Wanted(i, values, kwargs).value);
        HeldBefore(after, i + 1, values, kwargs) && OthersKept(before, after)
    {
      hide OthersKept, Wanted, Holds, Put;
      var bytes := Wanted(i, values, kwargs).value;
      PutKeepsOthers(before, m, i, bytes);
      PutHolds(m, i, bytes);
      forall j | 0 <= j < i && Recognised(j) ensures Holds(Put(m, ptr + fields[i].offset, bytes), j, Wanted(j, values, kwargs).value) {
        PutKeepsField(m, i, bytes, j, Wanted(j, values, kwargs).value);
      }
    }

    lemma OthersKeptSelf(m: seq<Byte>)
      ensures OthersKept(m, m)
    {
    }

    // ----- The whole -----

    /** compositeproxy_init on a tuple and keywords, or on a single object to convert.
        `kwargs` is None when there are none. */
    method Init(args: Args, kwargs: Option<Keywords>) returns (r: Outcome)
      requires Valid() && (args.Single? ==> kwargs.None?)
      requires var arg := OneArgument(args, kwargs);
        arg.Some? && arg.value.proxy.Some? ==> SourceApart(arg.value.proxy.value)
      modifies mem
      ensures Initialised(old(mem[..]), mem[..], r, args, kwargs)
    {
      var convert_mode := args.Single?;
      var values := Values(args);
      var keywords := if kwargs.Some? then kwargs.value else map[];
      if |values| == 0 && |keywords| == 0 {
        Store(mem, ptr, Zeros(size));
        return Done;
      }
      if |values| == 1 && |keywords| == 0 {
        var arg := values[0];
        if arg.proxy.Some? {
          if arg.proxy.value == ptr { return Failed; }
          Store(mem, ptr, mem[arg.proxy.value..arg.proxy.value + size]);
          return Done;
        }
        if arg.items.Some? {
          values, keywords := [], arg.items.value;
        } else {
          ghost var before := mem[..];
          r := InitFromAttributes(arg);
          if r != Failed { return; }
          if convert_mode { return; }
          ghost var between := mem[..];
          r := InitFields(values, map[]);
          OthersKeptTwice(before, between, mem[..]);
          assert values == [arg];
          return;
        }
      }
      if convert_mode && |keywords| == 0 { return Failed; }
      r := InitFields(values, keywords);
    }

    function Values(args: Args): seq<PyObj> {
      match args
      case Tuple(vs) => vs
      case Single(v) => [v]
    }

    /** The argument, if there is just one and no keyword. */
    function OneArgument(args: Args, kwargs: Option<Keywords>): Option<PyObj> {
      if |Values(args)| == 1 && (kwargs.Some? ==> |kwargs.value| == 0) then Some(Values(args)[0]) else None
    }

    /** A conversion always has one argument, a call exactly if there is one value and no keyword. */
    lemma OneArgumentIs(v: PyObj, values: seq<PyObj>, kwargs: Keywords)
      ensures OneArgument(Single(v), None) == Some(v)
      ensures |values| == 1 ==> OneArgument(Tuple(values), None) == Some(values[0]) && OneArgument(Tuple(values), Some(map[])) == Some(values[0])
      ensures |values| != 1 || |kwargs| > 0 ==> OneArgument(Tuple(values), Some(kwargs)).None?
      ensures |values| != 1 ==> OneArgument(Tuple(values), None).None?
    {
    }

    /** A structure of the same type lies apart unless it is the same one. */
    predicate SourceApart(other: nat) {
      other + size <= mem.Length && (other == ptr || Disjoint(ptr, size, other, size))
    }

    /** What each way of calling makes of the memory of the structure. */
    ghost predicate Initialised(before: seq<Byte>, after: seq<Byte>, r: Outcome, args: Args, kwargs: Option<Keywords>)
      requires Valid() && |before| == mem.Length
    {
      var arg := OneArgument(args, kwargs);
      if arg.None? then
        if Values(args) == [] && (kwargs.Some? ==> |kwargs.value| == 0) then r == Done && after == Put(before, ptr, Zeros(size))
        else FilledFrom(before, after, r, Values(args), if kwargs.Some? then kwargs.value else map[])
      else if arg.value.proxy.Some? then
        var other := arg.value.proxy.value;
        if other == ptr then r == Failed && after == before
        else r == Done && other + size <= |before| && after == Put(before, ptr, before[other..other + size])
      else if arg.value.items.Some? then
        if args.Single? && |arg.value.items.value| == 0 then r == Failed && after == before
        else FilledFrom(before, after, r, [], arg.value.items.value)
      else if forall i :: 0 <= i < |fields| ==> AttributeFits(i, arg.value) then
        r == Done && OthersKept(before, after) && forall i :: 0 <= i < |fields| ==> TakenFrom(after, i, arg.value)
      else if AttributeUndefined(arg.value) then r == Undefined
      else if args.Single? then r == Failed && OthersKept(before, after)
      else FilledFrom(before, after, r, [arg.value], map[])
    }

    lemma OthersKeptTwice(a: seq<Byte>, b: seq<Byte>, c: seq<Byte>)
      requires OthersKept(a, b) && OthersKept(b, c)
      ensures OthersKept(a, c)
    {
    }

    // ----- The parts of the memory, spelled out -----

    /** The bytes of field `i`. */
    function Part(m: seq<Byte>, i: nat): seq<Byte>
      requires i < |fields| && ptr + fields[i].offset + fields[i].size <= |m|
    {
      m[ptr + fields[i].offset..][..fields[i].size]
    }

    /** After the loop has succeeded, a field of a recognised type holds the positional value of its
        position; if there is none, the keyword value of its name; and if there is none either, zeros. */
    lemma FilledField(before: seq<Byte>, after: seq<Byte>, values: seq<PyObj>, kwargs: Keywords, i: nat)
      requires Valid() && |before| == mem.Length && FilledFrom(before, after, Done, values, kwargs)
      requires i < |fields| && fields[i].encode.Some?
      ensures ptr + fields[i].offset + fields[i].size <= |after|
      ensures i < |values| ==> fields[i].encode.value(values[i]) == Some(Part(after, i))
      ensures i >= |values| && fields[i].name in kwargs ==> fields[i].encode.value(kwargs[fields[i].name]) == Some(Part(after, i))
      ensures i >= |values| && fields[i].name !in kwargs ==> forall k :: 0 <= k < fields[i].size ==> Part(after, i)[k] == 0
    {
      assert Recognised(i) && Holds(after, i, Wanted(i, values, kwargs).value);
      var at := ptr + fields[i].offset;
      assert after[at..][..fields[i].size] == after[at..at + fields[i].size];
    }

    /** The loop succeeds exactly if each of those values can be converted. */
    lemma FilledIff(before: seq<Byte>, after: seq<Byte>, r: Outcome, values: seq<PyObj>, kwargs: Keywords)
      requires DistinctNames() && FilledFrom(before, after, r, values, kwargs)
      ensures r == Done <==> forall i :: 0 <= i < |fields| && fields[i].encode.Some? ==>
        && (i < |values| ==> fields[i].encode.value(values[i]).Some?)
        && (i >= |values| && fields[i].name in kwargs ==> fields[i].encode.value(kwargs[fields[i].name]).Some?)
    {
      FinalTestNeverFails(values, kwargs);
      forall i: nat | Recognised(i)
        ensures Wanted(i, values, kwargs).Some? <==>
          && (i < |values| ==> fields[i].encode.value(values[i]).Some?)
          && (i >= |values| && fields[i].name in kwargs ==> fields[i].encode.value(kwargs[fields[i].name]).Some?)
      {
      }
      assert forall i :: 0 <= i < |fields| && fields[i].encode.Some? ==> Recognised(i);
    }

    /** A field that was taken from an attribute holds the attribute of its name. */
    lemma TakenField(m: seq<Byte>, i: nat, arg: PyObj)
      requires TakenFrom(m, i, arg)
      ensures i < |fields| && fields[i].encode.Some? && fields[i].name in arg.attrs
      ensures ptr + fields[i].offset + fields[i].size <= |m|
      ensures fields[i].encode.value(arg.attrs[fields[i].name]) == Some(Part(m, i))
    {
      var at := ptr + fields[i].offset;
      assert m[at..][..fields[i].size] == m[at..at + fields[i].size];
    }

    /** The missing type of a field is used exactly if there is an attribute of its name, and one
        that can be converted for every field before it. */
    lemma UndefinedIff(arg: PyObj)
      ensures AttributeUndefined(arg) <==> exists i: nat :: StopsAt(i, arg)
    {
      MisfitIs(0, arg);
      var k := Misfit(0, arg);
      if AttributeUndefined(arg) { assert StopsAt(k, arg); }
      if i: nat :| StopsAt(i, arg) { MisfitUnique(i, arg); }
    }

    ghost predicate StopsAt(i: nat, arg: PyObj) {
      && i < |fields| && fields[i].encode.None? && fields[i].name in arg.attrs
      && forall j :: 0 <= j < i ==> AttributeFits(j, arg)
    }

    lemma MisfitUnique(i: nat, arg: PyObj)
      requires i < |fields| && !AttributeFits(i, arg) && forall j :: 0 <= j < i ==> AttributeFits(j, arg)
      ensures Misfit(0, arg) == i
    {
      MisfitIs(0, arg);
    }

    /** An attribute fits if it has the name of a recognised field and can be converted for it. */
    lemma FitsIff(i: nat, arg: PyObj)
      requires i < |fields|
      ensures AttributeFits(i, arg) <==> match fields[i].encode
        case None => false
        case Some(encode) => fields[i].name in arg.attrs && encode(arg.attrs[fields[i].name]).Some?
    {
    }

    lemma {:induction false} MisfitIs(i: nat, arg: PyObj)
      requires i <= |fields|
      ensures i <= Misfit(i, arg) <= |fields|
      ensures forall j :: i <= j < Misfit(i, arg) ==> AttributeFits(j, arg)
      ensures Misfit(i, arg) < |fields| ==> !AttributeFits(Misfit(i, arg), arg)
      decreases |fields| - i
    {
      if i < |fields| && AttributeFits(i, arg) { MisfitIs(i + 1, arg); }
    }

    /** A byte that belongs to no field of a recognised type stays. */
    lemma OthersAre(before: seq<Byte>, after: seq<Byte>, k: nat)
      requires Valid() && OthersKept(before, after) && k < |before|
      requires forall i :: 0 <= i < |fields| && fields[i].encode.Some? ==>
        k < ptr + fields[i].offset || ptr + fields[i].offset + fields[i].size <= k
      ensures |after| == |before| && after[k] == before[k]
    {
      forall i: nat | Recognised(i) ensures !InField(k, i) { }
    }

    /** So does every byte outside the structure. */
    lemma OutsideStays(before: seq<Byte>, after: seq<Byte>, k: nat)
      requires Valid() && OthersKept(before, after) && k < |before| && (k < ptr || ptr + size <= k)
      ensures |after| == |before| && after[k] == before[k]
    {
      forall i | 0 <= i < |fields| && fields[i].encode.Some?
        ensures k < ptr + fields[i].offset || ptr + fields[i].offset + fields[i].size <= k
      {
        assert Recognised(i);
      }
      OthersAre(before, after, k);
    }

    // ----- The final test -----

    ghost predicate DistinctNames() {
      forall i, j :: 0 <= i < j < |fields| ==> fields[i].name != fields[j].name
    }

    /** When names are distinct the final test always succeeds: superfluous positional
        values and unknown keywords are accepted. */
    lemma FinalTestNeverFails(values: seq<PyObj>, kwargs: Keywords)
      requires DistinctNames()
      ensures Count(|fields|, values, kwargs) <= |values| + |kwargs|
    {
      var used := CountWithin(|fields|, values, kwargs);
      SetSize(used, kwargs.Keys);
    }

    lemma {:induction false} CountWithin(n: nat, values: seq<PyObj>, kwargs: Keywords) returns (used: set<string>)
      requires DistinctNames() && n <= |fields|
      ensures used <= kwargs.Keys && Count(n, values, kwargs) <= |values| + |used|
      ensures n <= |values| ==> used == {} && Count(n, values, kwargs) <= n
      ensures forall x :: x in used ==> exists i :: 0 <= i < n && fields[i].name == x
    {
      used := {};
      if n > 0 {
        used := CountWithin(n - 1, values, kwargs);
        var name := fields[n - 1].name;
        if |values| < n && Recognised(n - 1) && name in kwargs {
          assert name !in used;
          used := used + {name};
        }
      }
    }
  }

  lemma SetSize(a: set<string>, b: set<string>)
    requires a <= b
    ensures |a| <= |b|
  {
    assert b == a + (b - a);
  }
}
