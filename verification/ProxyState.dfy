/** The state that the proxy code of proxy.c shares with liballocs and CPython,
    and the declarative meaning of "dropping the last reference".

    Block starts and proxy objects are identified by numbers.  A location that
    can hold a counted pointer is either a pointer slot inside a foreign block or
    the `p_ptr` field of a proxy object. */
module ProxyState {
  import opened Common

  type Addr = nat
  type ProxyId = nat
  type ProxyType = nat

  datatype Loc = Slot(block: Addr, offset: nat) | PtrField(owner: ProxyId)

  datatype Proxy = Proxy(ptr: Addr, ptype: ProxyType)

  /** A foreign allocation: `slots` are the offsets of its pointer slots, `managed`
      says that its allocator accepts lifetime policies, `ptype` is the proxy type
      of its own type (if any), `manual` and `python` are its two possible owners. */
  datatype Block = Block(size: nat, slots: set<nat>, managed: bool, ptype: Option<ProxyType>,
                         manual: bool, python: bool)

  /** `index` is proxy_dict, `pointing` is proxy_pointing_addr_dict, `refs` is
      ob_refcnt.  `handles` counts the references that Python code holds.  `mem`
      is the content of the pointer slots; `tracked` are the locations whose last
      write pointed into a registered block.  `dying` and `freeing` are the
      deallocations in progress: both are empty between operations. */
  datatype State = State(
    index: map<Addr, ProxyId>,
    pointing: map<Loc, ProxyId>,
    proxies: map<ProxyId, Proxy>,
    refs: map<ProxyId, nat>,
    handles: map<ProxyId, nat>,
    blocks: map<Addr, Block>,
    mem: map<Loc, Addr>,
    tracked: set<Loc>,
    acquired: multiset<Addr>,
    released: multiset<Addr>,
    dying: set<ProxyId>,
    freeing: set<Addr>)

  // ----- The invariant -----

  ghost function Refs(pointing: map<Loc, ProxyId>, p: ProxyId): set<Loc> {
    set l | l in pointing && pointing[l] == p
  }

  /** The reference counts that the handles and the strong index account for. */
  ghost function Tally(ps: set<ProxyId>, handles: map<ProxyId, nat>, pointing: map<Loc, ProxyId>): (counts: map<ProxyId, nat>)
    requires ps <= handles.Keys
    ensures counts.Keys == ps
  {
    map p | p in ps :: handles[p] + |Refs(pointing, p)|
  }

  ghost predicate CountOk(s: State) {
    && s.handles.Keys == s.proxies.Keys
    && s.refs == Tally(s.proxies.Keys, s.handles, s.pointing)
  }

  /** `q` is a registered base proxy. */
  predicate IsBase(s: State, q: ProxyId) {
    q in s.proxies && s.proxies[q].ptr in s.index && s.index[s.proxies[q].ptr] == q
  }

  ghost predicate IndexOk(s: State) {
    && (forall a :: a in s.index ==>
          && s.index[a] in s.proxies && s.proxies[s.index[a]].ptr == a
          && (s.index[a] !in s.dying ==> a in s.blocks && s.blocks[a].python))
    && (forall b :: b in s.blocks && s.blocks[b].python ==> b in s.index && s.index[b] !in s.dying)
  }

  predicate Inside(s: State, b: Addr, a: Addr) {
    b in s.blocks && b <= a < b + s.blocks[b].size
  }

  /** As `Inside`, but one past the end is allowed: an empty slice points there. */
  predicate Spans(s: State, b: Addr, a: Addr) {
    b in s.blocks && b <= a <= b + s.blocks[b].size
  }

  /** An entry of the strong index names a registered base, and the location still holds an
      address of that base's block: or NULL, if its memory was zeroed behind the index's back. */
  ghost predicate EntryOk(s: State, l: Loc)
    requires l in s.pointing
  {
    var q := s.pointing[l];
    && IsBase(s, q) && q !in s.dying
    && match l
       case Slot(b, o) =>
         && b in s.blocks && o in s.blocks[b].slots
         && l in s.mem && (s.mem[l] == 0 || Inside(s, s.proxies[q].ptr, s.mem[l]))
       case PtrField(p) =>
         p in s.proxies && Spans(s, s.proxies[q].ptr, s.proxies[p].ptr)
  }

  ghost predicate EntriesOk(s: State) {
    forall l :: l in s.pointing ==> EntryOk(s, l)
  }

  ghost predicate BlockOk(b: Addr, block: Block) {
    && 0 < b
    && (forall o :: o in block.slots ==> o < block.size)
    && (block.python ==> block.managed && block.ptype.Some?)
  }

  ghost predicate Apart(b: Addr, bSize: nat, c: Addr, cSize: nat) {
    b == c || Disjoint(b, bSize, c, cSize)
  }

  ghost predicate BlocksOk(blocks: map<Addr, Block>) {
    && (forall b :: b in blocks ==> BlockOk(b, blocks[b]))
    && (forall b, c {:trigger Apart(b, blocks[b].size, c, blocks[c].size)} ::
          b in blocks && c in blocks ==> Apart(b, blocks[b].size, c, blocks[c].size))
  }

  /** Every acquisition of an address is matched by one release, unless the block is there. */
  ghost predicate LedgerOk(s: State) {
    forall a :: s.acquired[a] == s.released[a] + (if a in s.blocks then 1 else 0)
  }

  /** A block has an owner unless it is being freed. */
  ghost predicate OwnersOk(s: State) {
    && s.freeing <= s.blocks.Keys
    && (forall b :: b in s.blocks ==> (b in s.freeing <==> !s.blocks[b].manual && !s.blocks[b].python))
  }

  ghost predicate DyingOk(s: State) {
    && s.dying <= s.proxies.Keys
    && (forall p :: p in s.dying ==> p in s.refs && s.refs[p] == 0)
  }

  /** Everything but "live proxies have a positive count" and "blocks have owners". */
  ghost predicate Raw(s: State) {
    CountOk(s) && IndexOk(s) && EntriesOk(s) && BlocksOk(s.blocks) && LedgerOk(s) && DyingOk(s)
  }

  ghost predicate Positive(s: State) {
    forall p :: p in s.proxies && p !in s.dying ==> p in s.refs && 0 < s.refs[p]
  }

  /** What holds in the middle of a cascade of deallocations. */
  ghost predicate Mid(s: State) {
    Raw(s) && OwnersOk(s) && Positive(s)
  }

  ghost predicate Quiet(s: State) {
    s.dying == {} && s.freeing == {}
  }

  /** The invariant between operations. */
  ghost predicate Inv(s: State) {
    Mid(s) && Quiet(s)
  }

  /** The storage of location `l` still exists. */
  predicate Lives(s: State, l: Loc) {
    match l
    case Slot(b, o) => b in s.blocks && b !in s.freeing
    case PtrField(p) => p in s.proxies && p !in s.dying
  }

  /** No location that was set to point into a registered block has lost its entry. */
  ghost predicate Sound(s: State) {
    && s.pointing.Keys <= s.tracked
    && (forall l :: l in s.tracked && Lives(s, l) ==> l in s.pointing)
  }

  // ----- What survives when references are taken away -----

  /** The storage of `l` is kept by C or by a member of `K`. */
  predicate Anchored(s: State, l: Loc, K: set<ProxyId>) {
    match l
    case Slot(b, o) =>
      b in s.blocks && b !in s.freeing && (s.blocks[b].manual || (b in s.index && s.index[b] in K))
    case PtrField(p) => p in K
  }

  ghost predicate Supported(s: State, p: ProxyId, K: set<ProxyId>)
  {
    || (p in s.handles && 0 < s.handles[p])
    || (exists l :: l in s.pointing && s.pointing[l] == p && Anchored(s, l, K))
  }

  /** Every member of `K` is held by a handle, by C, or by another member of `K`. */
  ghost predicate SelfSupporting(s: State, K: set<ProxyId>) {
    && K <= s.proxies.Keys && K !! s.dying
    && (forall p :: p in K ==> Supported(s, p, K))
  }

  /** The greatest self-supporting set. */
  ghost function Alive(s: State): set<ProxyId> {
    set p | p in s.proxies && exists K :: SelfSupporting(s, K) && p in K
  }

  /** Block `b` is kept by C, or by a member of `K` that is its base. */
  predicate Kept(blocks: map<Addr, Block>, index: map<Addr, ProxyId>, b: Addr, K: set<ProxyId>)
    requires b in blocks
  {
    blocks[b].manual || (b in index && index[b] in K)
  }

  function KeptIndex(index: map<Addr, ProxyId>, K: set<ProxyId>): map<Addr, ProxyId> {
    map a | a in index && index[a] in K :: index[a]
  }

  function KeptBlocks(blocks: map<Addr, Block>, index: map<Addr, ProxyId>, K: set<ProxyId>): map<Addr, Block> {
    map b | b in blocks && Kept(blocks, index, b, K) :: blocks[b].(python := b in index && index[b] in K)
  }

  function LostBlocks(blocks: map<Addr, Block>, index: map<Addr, ProxyId>, K: set<ProxyId>): set<Addr> {
    set b | b in blocks && !Kept(blocks, index, b, K)
  }

  ghost function Counted(s: State): State
    requires s.proxies.Keys <= s.handles.Keys
  {
    s.(refs := Tally(s.proxies.Keys, s.handles, s.pointing))
  }

  /** The state in which exactly the proxies of `K`, and the storage they or C own, are left. */
  ghost function Restrict(s: State, K: set<ProxyId>): State
    requires s.handles.Keys == s.proxies.Keys
  {
    Counted(s.(
      proxies := map p | p in s.proxies && p in K :: s.proxies[p],
      handles := map p | p in s.proxies && p in K :: s.handles[p],
      index := KeptIndex(s.index, K),
      pointing := map l | l in s.pointing && Anchored(s, l, K) :: s.pointing[l],
      blocks := KeptBlocks(s.blocks, s.index, K),
      released := s.released + multiset(LostBlocks(s.blocks, s.index, K))))
  }

  /** What reference counting must leave behind: only the greatest self-supporting set. */
  ghost function Reclaim(s: State): State
    requires s.handles.Keys == s.proxies.Keys
  {
    Restrict(s, Alive(s))
  }
}
