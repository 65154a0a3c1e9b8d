/** Concrete states in which the proxy code loses memory that is still in use. */
module ProxyExamples {
  import opened Common
  import opened ProxyState
  import opened ProxyOps
  import opened ProxyApi
  import opened ProxyCollector
  import opened CollectorCompleteness
  import opened ProxyReachability

  /** A node with one pointer at offset 0. */
  function Node(manual: bool, python: bool): Block {
    Block(8, {0}, true, Some(0), manual, python)
  }

  lemma CountedOnce(s: State)
    requires s.refs.Keys == s.handles.Keys == s.proxies.Keys
    requires forall p :: p in s.proxies ==> s.handles[p] == 0 && s.refs[p] == 1 && |Refs(s.pointing, p)| == 1
    ensures CountOk(s)
  {
    assert s.refs == Tally(s.proxies.Keys, s.handles, s.pointing);
  }

  /** One node that only its own pointer keeps. */
  ghost const SELF_KEPT: State :=
    State(map[100 := 1], map[Slot(100, 0) := 1], map[1 := Proxy(100, 0)], map[1 := 1], map[1 := 0],
          map[100 := Node(false, true)], map[Slot(100, 0) := 100], {Slot(100, 0)},
          multiset{100}, multiset{}, {}, {})

  lemma SelfKeptCounts()
    ensures CountOk(SELF_KEPT)
  {
    assert Refs(SELF_KEPT.pointing, 1) == {Slot(100, 0)};
  }

  lemma SelfKeptTables()
    ensures IndexOk(SELF_KEPT) && EntriesOk(SELF_KEPT) && BlocksOk(SELF_KEPT.blocks)
  {
  }

  lemma KeptBySelf()
    ensures KeptThrough(SELF_KEPT, Slot(100, 0), {1}, _ => 0)
  {
  }

  /** Writing to that pointer frees the node first. */
  lemma SelfKeptNodeIsFreed()
    ensures Inv(SELF_KEPT) && Sound(SELF_KEPT) && Slot(100, 0) in SELF_KEPT.pointing
    ensures SELF_KEPT.handles.Keys == SELF_KEPT.proxies.Keys && 100 !in Forget(SELF_KEPT, Slot(100, 0)).blocks
    ensures !WritableSlot(SELF_KEPT, Slot(100, 0))
  {
    var s := SELF_KEPT;
    SelfKeptCounts();
    SelfKeptTables();
    KeptBySelf();
    hide CountOk, IndexOk, EntriesOk, BlocksOk, KeptThrough, Forget, WritableSlot;
    WriteIntoFreedBlock(s, Slot(100, 0), {1}, _ => 0);
  }

  /** Two registered nodes that C owns and that name each other. */
  ghost const MUTUAL_PAIR: State :=
    State(map[100 := 1, 200 := 2], map[Slot(100, 0) := 2, Slot(200, 0) := 1],
          map[1 := Proxy(100, 0), 2 := Proxy(200, 0)], map[1 := 1, 2 := 1], map[1 := 0, 2 := 0],
          map[100 := Node(true, true), 200 := Node(true, true)],
          map[Slot(100, 0) := 200, Slot(200, 0) := 100], {Slot(100, 0), Slot(200, 0)},
          multiset{100, 200}, multiset{}, {}, {})

  lemma MutualPairRefs()
    ensures Refs(MUTUAL_PAIR.pointing, 1) == {Slot(200, 0)} && Refs(MUTUAL_PAIR.pointing, 2) == {Slot(100, 0)}
  {
  }

  lemma MutualPairCounts()
    ensures CountOk(MUTUAL_PAIR)
  {
    hide Refs, CountOk;
    MutualPairRefs();
    CountedOnce(MUTUAL_PAIR);
  }

  lemma MutualPairIndex()
    ensures IndexOk(MUTUAL_PAIR)
  {
  }

  lemma MutualPairEntries()
    ensures EntriesOk(MUTUAL_PAIR)
  {
  }

  lemma MutualPairBlocks()
    ensures BlocksOk(MUTUAL_PAIR.blocks)
  {
  }

  lemma MutualPairRest()
    ensures LedgerOk(MUTUAL_PAIR) && DyingOk(MUTUAL_PAIR) && OwnersOk(MUTUAL_PAIR) && Positive(MUTUAL_PAIR) && Quiet(MUTUAL_PAIR) && Sound(MUTUAL_PAIR)
  {
  }

  lemma MutualPairRisks()
    ensures Garbage(MUTUAL_PAIR, {1, 2}) && Risky(MUTUAL_PAIR, {1, 2}, 1) && Risky(MUTUAL_PAIR, {1, 2}, 2)
  {
    var s := MUTUAL_PAIR;
    assert Pinning(s, 1, Slot(100, 0)) && Pinning(s, 2, Slot(200, 0));
  }

  /** The collector finds both and deletes only the second. */
  lemma MutualPairIsNotCollected()
    ensures Inv(MUTUAL_PAIR) && Sound(MUTUAL_PAIR) && Garbage(MUTUAL_PAIR, {1, 2}) && InOrder({1, 2}, [1, 2])
    ensures 1 in Collect(MUTUAL_PAIR, [1, 2]).proxies && 2 !in Collect(MUTUAL_PAIR, [1, 2]).proxies
  {
    MutualPairCounts();
    MutualPairIndex();
    MutualPairEntries();
    MutualPairBlocks();
    MutualPairRest();
    MutualPairRisks();
    hide CountOk, IndexOk, EntriesOk, BlocksOk, LedgerOk, DyingOk, OwnersOk, Positive, Sound, EntriesIn, Risky, Collect, Garbage;
    assert Elements([1, 2]) == {1, 2};
    MutualPairSurvives(MUTUAL_PAIR, 1, 2);
  }

  /** A list of two nodes whose head is in memory of C. */
  ghost const LIST: State :=
    State(map[200 := 2, 300 := 3], map[Slot(100, 0) := 2, Slot(200, 0) := 3],
          map[2 := Proxy(200, 0), 3 := Proxy(300, 0)], map[2 := 1, 3 := 1], map[2 := 0, 3 := 0],
          map[100 := Node(true, false), 200 := Node(false, true), 300 := Node(false, true)],
          map[Slot(100, 0) := 200, Slot(200, 0) := 300, Slot(300, 0) := 0], {Slot(100, 0), Slot(200, 0)},
          multiset{100, 200, 300}, multiset{}, {}, {})

  lemma ListRefs()
    ensures Refs(LIST.pointing, 2) == {Slot(100, 0)} && Refs(LIST.pointing, 3) == {Slot(200, 0)}
  {
  }

  lemma ListCounts()
    ensures CountOk(LIST)
  {
    hide Refs, CountOk;
    ListRefs();
    CountedOnce(LIST);
  }

  lemma ListIndex()
    ensures IndexOk(LIST)
  {
  }

  lemma ListEntries()
    ensures EntriesOk(LIST)
  {
  }

  lemma ListBlocks()
    ensures BlocksOk(LIST.blocks)
  {
  }

  lemma ListRest()
    ensures LedgerOk(LIST) && DyingOk(LIST) && OwnersOk(LIST) && Positive(LIST) && Quiet(LIST) && Sound(LIST)
  {
  }

  lemma ListKept(rank: ProxyId -> nat)
    requires forall p :: rank(p) == p
    ensures KeptThrough(LIST, Slot(100, 0), {2, 3}, rank)
  {
    assert StoredIn(LIST, Slot(200, 0), 2);
  }

  /** Taking out the first node, by `head = head->next`, frees both: the head then dangles. */
  lemma TakingOutFreesTheRest()
    ensures Inv(LIST) && Sound(LIST) && WritableSlot(LIST, Slot(100, 0)) && Inside(LIST, 300, 300)
    ensures Dangling(Write(LIST, Slot(100, 0), 300), Slot(100, 0))
  {
    var s, l, rank := LIST, Slot(100, 0), (p: ProxyId) => p;
    ListCounts();
    ListIndex();
    ListEntries();
    ListBlocks();
    ListRest();
    ListKept(rank);
    hide CountOk, IndexOk, EntriesOk, BlocksOk, LedgerOk, DyingOk, OwnersOk, Positive, Sound, KeptThrough, Forget, WritableSlot, Write, Without, Alive, HasTrail, Dangling;
    WritableIff(s, l);
    WithoutOrdered(s, l);
    KeptThroughDies(s, l, {2, 3}, rank, 3);
    AliveIff(Without(s, l), 3);
    WriteCanDangle(s, l, 300, 300);
  }
}
