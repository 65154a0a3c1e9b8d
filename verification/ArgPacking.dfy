/** The two passes of funproxy_call that find a place for every argument. */
module ArgPacking {
  import opened Common
  import opened Memory

  /** What the type of an argument makes of it: `data` is the result of ft_getdataptr, for
      types that have one, and `encoding` that of ft_storeinto, None being an error. */
  datatype Arg = Arg(size: nat, hasData: bool, data: Option<nat>, encoding: Option<seq<Byte>>)

  datatype Place = Unset | Null | Data(ptr: nat) | Buffer(offset: nat)

  predicate ValidArg(a: Arg) {
    a.encoding.Some? ==> |a.encoding.value| == a.size
  }

  /** Whether the argument needs room in `argvals`. */
  predicate Stored(a: Arg) {
    !(a.hasData && a.data.Some?)
  }

  /** The room that the first `i` arguments need. */
  function Offset(args: seq<Arg>, i: nat): nat
    requires i <= |args|
  {
    if i == 0 then 0 else Offset(args, i - 1) + if Stored(args[i - 1]) then args[i - 1].size else 0
  }

  lemma OffsetStep(args: seq<Arg>, i: nat)
    requires i < |args|
    ensures Offset(args, i + 1) == Offset(args, i) + if Stored(args[i]) then args[i].size else 0
  {
  }

  lemma {:induction false} OffsetMono(args: seq<Arg>, i: nat, j: nat)
    requires i <= j <= |args|
    ensures Offset(args, i) <= Offset(args, j)
  {
    if i < j { OffsetMono(args, i, j - 1); }
  }

  /** Different arguments never share a byte of the buffer. */
  lemma RangesApart(args: seq<Arg>, i: nat, j: nat)
    requires i < j < |args| && Stored(args[i]) && Stored(args[j])
    ensures Offset(args, i) + args[i].size <= Offset(args, j)
    ensures Offset(args, j) + args[j].size <= Offset(args, |args|)
  {
    OffsetMono(args, i + 1, j);
    OffsetMono(args, j + 1, |args|);
  }

  /** The last argument that needs room ends where all the room ends. */
  lemma {:induction false} LastStored(args: seq<Arg>, n: nat) returns (i: nat)
    requires n <= |args| && 0 < Offset(args, n)
    ensures i < n && Stored(args[i]) && Offset(args, i) + args[i].size == Offset(args, n)
  {
    if Stored(args[n - 1]) && 0 < args[n - 1].size { i := n - 1; } else { i := LastStored(args, n - 1); }
  }

  /** `argsize` is an `unsigned`: every argument fits into the buffer of that size exactly
      when less than 4 GiB are needed. */
  lemma FitsIff(args: seq<Arg>)
    ensures (forall i :: 0 <= i < |args| && Stored(args[i]) ==> Offset(args, i) + args[i].size <= Offset(args, |args|) % UNSIGNED)
       <==> Offset(args, |args|) < UNSIGNED
  {
    var total := Offset(args, |args|);
    if total < UNSIGNED {
      forall i | 0 <= i < |args| && Stored(args[i]) ensures Offset(args, i) + args[i].size <= total {
        OffsetMono(args, i + 1, |args|);
      }
    } else {
      var i := LastStored(args, |args|);
    }
  }

  /** The first pass. */
  method Measure(args: seq<Arg>, ff_args: array<Place>) returns (argsize: nat)
    requires ff_args.Length == |args|
    modifies ff_args
    ensures argsize == Offset(args, |args|) % UNSIGNED
    ensures forall i :: 0 <= i < |args| && args[i].hasData ==>
      ff_args[i] == if args[i].data.Some? then Data(args[i].data.value) else Null
    ensures forall i :: 0 <= i < |args| && !args[i].hasData ==> ff_args[i] == old(ff_args[i])
  {
    argsize := 0;
    for i := 0 to |args|
      invariant argsize == Offset(args, i) % UNSIGNED
      invariant forall k :: 0 <= k < i && args[k].hasData ==>
        ff_args[k] == if args[k].data.Some? then Data(args[k].data.value) else Null
      invariant forall k :: 0 <= k < i && !args[k].hasData ==> ff_args[k] == old(ff_args[k])
      invariant forall k :: i <= k < |args| ==> ff_args[k] == old(ff_args[k])
    {
      var data := None;
      if args[i].hasData {
        data := args[i].data;
        ff_args[i] := if data.Some? then Data(data.value) else Null;
      }
      if data.None? { argsize := (argsize + args[i].size) % UNSIGNED; }
    }
  }

  /** Where argument `i` ends up, and what is there. */
  ghost predicate Placed(args: seq<Arg>, i: nat, place: Place, argvals: seq<Byte>)
    requires i < |args|
  {
    if Stored(args[i]) then
      && place == Buffer(Offset(args, i)) && Offset(args, i) + args[i].size <= |argvals|
      && args[i].encoding == Some(argvals[Offset(args, i)..Offset(args, i) + args[i].size])
    else place == Data(args[i].data.value)
  }

  lemma NoOffset(args: seq<Arg>)
    ensures Offset(args, 0) == 0
  {
  }

  /** Storing the encoding of argument `i` leaves those before it in place. */
  lemma NextPlaced(args: seq<Arg>, i: nat, places: seq<Place>, argvals: seq<Byte>)
    requires |places| == |args| && i < |args| && Stored(args[i]) && args[i].encoding.Some? && ValidArg(args[i])
    requires Offset(args, i) + args[i].size <= |argvals|
    requires forall k :: 0 <= k < i ==> Placed(args, k, places[k], argvals)
    ensures var after, updated := Put(argvals, Offset(args, i), args[i].encoding.value), places[i := Buffer(Offset(args, i))];
      forall k :: 0 <= k <= i ==> Placed(args, k, updated[k], after)
  {
    hide Offset;
    var after := Put(argvals, Offset(args, i), args[i].encoding.value);
    forall k | 0 <= k < i ensures Placed(args, k, places[k], after) {
      if Stored(args[k]) {
        RangesApart(args, k, i);
        PutApart(argvals, Offset(args, i), args[i].encoding.value, Offset(args, k), Offset(args, k) + args[k].size);
      }
    }
  }

  /** What becomes of the arguments. `Error` is a Python exception, `Overrun` a write beyond the
      end of the buffer. */
  datatype Packing = Packed | Error | Overrun

  predicate Fits(args: seq<Arg>, room: nat, i: nat)
    requires i < |args|
  {
    Stored(args[i]) ==> args[i].encoding.Some? && Offset(args, i) + args[i].size <= room
  }

  /** The first argument, from `i` on, that cannot be stored in a buffer of the given size. */
  function Obstacle(args: seq<Arg>, room: nat, i: nat): (k: nat)
    requires i <= |args|
    ensures i <= k <= |args| && (k < |args| ==> !Fits(args, room, k))
    ensures k == |args| <==> forall j :: i <= j < |args| ==> Fits(args, room, j)
    decreases |args| - i
  {
    if i < |args| && Fits(args, room, i) then Obstacle(args, room, i + 1) else i
  }

  /** The outcome for a buffer of the given size. */
  function Outcome(args: seq<Arg>, room: nat): Packing {
    var k := Obstacle(args, room, 0);
    if k == |args| then Packed else if args[k].encoding.None? then Error else Overrun
  }

  /** Below 4 GiB nothing is written beyond the end, and only values that cannot be converted
      are errors. */
  lemma OutcomeBelowLimit(args: seq<Arg>)
    requires Offset(args, |args|) < UNSIGNED
    ensures var room := Offset(args, |args|) % UNSIGNED;
      && (Outcome(args, room) == Packed <==>
            forall i :: 0 <= i < |args| && (!args[i].hasData || args[i].data.None?) ==> args[i].encoding.Some?)
      && Outcome(args, room) != Overrun
  {
    hide Offset;
    FitsIff(args);
    var room := Offset(args, |args|) % UNSIGNED;
    assert forall i :: 0 <= i < |args| && Stored(args[i]) ==> Offset(args, i) + args[i].size <= room;
    forall i | 0 <= i < |args| ensures Fits(args, room, i) <==> (Stored(args[i]) ==> args[i].encoding.Some?) { }
  }

  /** From 4 GiB on it never succeeds. */
  lemma OutcomeAboveLimit(args: seq<Arg>)
    requires UNSIGNED <= Offset(args, |args|)
    ensures Outcome(args, Offset(args, |args|) % UNSIGNED) != Packed
  {
    hide Offset;
    FitsIff(args);
    var room := Offset(args, |args|) % UNSIGNED;
    var i :| 0 <= i < |args| && Stored(args[i]) && Offset(args, i) + args[i].size > room;
    assert !Fits(args, room, i);
  }

  /** The second pass, over the places that the first pass has left. */
  method Fill(args: seq<Arg>, ff_args: array<Place>, argvals: array<Byte>) returns (r: Packing, cur: nat)
    requires ff_args.Length == |args|
    requires forall i :: 0 <= i < |args| ==> ValidArg(args[i])
    requires forall i :: 0 <= i < |args| && args[i].hasData ==>
      ff_args[i] == if args[i].data.Some? then Data(args[i].data.value) else Null
    modifies ff_args, argvals
    ensures r == Outcome(args, argvals.Length)
    ensures r == Packed ==> cur == Offset(args, |args|) && forall i :: 0 <= i < |args| ==> Placed(args, i, ff_args[i], argvals[..])
  {
    hide Offset, Put;
    cur := 0;
    NoOffset(args);
    for i := 0 to |args|
      invariant cur == Offset(args, i)
      invariant Obstacle(args, argvals.Length, 0) == Obstacle(args, argvals.Length, i)
      invariant forall k :: 0 <= k < i ==> Placed(args, k, ff_args[k], argvals[..])
      invariant forall k :: i <= k < |args| && args[k].hasData ==>
        ff_args[k] == if args[k].data.Some? then Data(args[k].data.value) else Null
    {
      OffsetStep(args, i);
      if args[i].hasData && ff_args[i] != Null {
        assert Placed(args, i, ff_args[i], argvals[..]);
      } else {
        if args[i].encoding.None? { return Error, cur; }
        if cur + args[i].size > argvals.Length { return Overrun, cur; }
        ghost var before, places := argvals[..], ff_args[..];
        Store(argvals, cur, args[i].encoding.value);
        ff_args[i] := Buffer(cur);
        NextPlaced(args, i, places, before);
        assert ff_args[..] == places[i := Buffer(cur)];
        assert forall k :: 0 <= k < |args| ==> ff_args[k] == ff_args[..][k];
        cur := cur + args[i].size;
      }
    }
    r := Packed;
  }

  /** An argument whose type gives its data is passed where that is; the others are stored, each in
      bytes of its own. */
  lemma PlacedMeaning(args: seq<Arg>, places: seq<Place>, argvals: seq<Byte>, i: nat)
    requires |places| == |args| && i < |args| && forall k :: 0 <= k < |args| ==> Placed(args, k, places[k], argvals)
    ensures args[i].hasData && args[i].data.Some? ==> places[i] == Data(args[i].data.value)
    ensures !args[i].hasData || args[i].data.None? ==>
      && places[i].Buffer? && places[i].offset + args[i].size <= |argvals|
      && args[i].encoding == Some(argvals[places[i].offset..places[i].offset + args[i].size])
      && forall j :: 0 <= j < |args| && j != i && places[j].Buffer? ==>
           Disjoint(places[i].offset, args[i].size, places[j].offset, args[j].size)
  {
    if !args[i].hasData || args[i].data.None? {
      assert Placed(args, i, places[i], argvals);
      forall j | 0 <= j < |args| && j != i && places[j].Buffer?
        ensures Disjoint(places[i].offset, args[i].size, places[j].offset, args[j].size)
      {
        assert Placed(args, j, places[j], argvals);
        if i < j { RangesApart(args, i, j); } else { RangesApart(args, j, i); }
      }
    }
  }

  /** funproxy_call up to the call itself. */
  method Pack(narg: nat, args: seq<Arg>) returns (r: Packing, ff_args: array<Place>, argvals: array<Byte>)
    requires forall i :: 0 <= i < |args| ==> ValidArg(args[i])
    ensures r == if |args| == narg then Outcome(args, Offset(args, |args|) % UNSIGNED) else Error
    ensures r == Packed ==> ff_args.Length == narg == |args| && argvals.Length == Offset(args, |args|)
    ensures r == Packed ==> forall i :: 0 <= i < |args| ==> Placed(args, i, ff_args[i], argvals[..])
  {
    ff_args := new Place[narg](_ => Unset);
    argvals := new Byte[0];
    if |args| != narg { return Error, ff_args, argvals; }
    var argsize := Measure(args, ff_args);
    argvals := new Byte[argsize](_ => 0);
    var cur;
    r, cur := Fill(args, ff_args, argvals);
    if UNSIGNED <= Offset(args, |args|) { OutcomeAboveLimit(args); }
  }
}
