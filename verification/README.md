# A model of pycallocs

pycallocs shows foreign memory to Python as proxy objects, using what liballocs knows about the
types and the lifetimes of allocations. This project models its core in Dafny and proves what that
core is for.

**The proxy lifetime machine** (the modules named `Proxy...`, `Cascade`, `Reclamation` and
`CollectorCompleteness`). The state holds the weak index from
block start to base proxy, the strong index from pointer location to base proxy, reference counts,
the handles of Python code, foreign blocks with their two possible owners, the content of their
pointer slots, and a ledger of acquired and released addresses. `ProxyMachine.Runtime` is the
imperative code, with its recursive cascade of deallocations. Each method is proved equal to a
function on the state. What a cascade leaves is not described step by step but declaratively:
`ProxyState.Reclaim` keeps the greatest set of proxies in which each member is held by a handle, by
memory that C owns, or by another member. On top of that stand the invariants of whole runs, and
safety and completeness of the cyclic collector.

**Foreign types** (`TypeGraph`, `TypeTable`, `LibraryWalk`, `LibraryLoader`). The memoised two-phase
construction of type objects over cyclic type graphs, where an object is published before it is
initialised, and the walk that adds the types of a library to a Python module.

**Layout, bounds and arrays** (`Layout`, `Traversal`, `Bounds`, `ArrayAccess`, `Inheritance`). Trees of
structures and arrays without unions; traversal of pointer slots; the stateful callback of the bounds
search; array lengths, indices and slices; inheritance of first members.

**Values** (`Memory`, `Scalars`, `CompositeInit`, `ArrayInit`, `ArgPacking`, `FfiDescriptors`, `FfiSetup`).
Scalar encodings, initialisation of structures and arrays in byte memory, packing of call arguments,
and the libffi descriptors of a foreign function over an explicit heap in which reading an unset
cell, freeing twice and using a freed cell are impossible.

## What is assumed of the surroundings

- A pointer-write notification of liballocs deletes the reference of the location and then, if the new
  target is registered, adds one; a block is freed when its last owner goes, and freeing it deletes
  the reference of each slot in it; copying typed memory copies contents and entries of slots; memset
  is not notified.
- A block may have any size, also 0 (an empty structure or array); the allocation query finds no block at
  an address that is in none.
- For liballocs an array type without a length has no size that a stride could equal.
- CPython calls `tp_clear` on the members of its garbage list in list order, holding a reference to the
  member meanwhile; looking for an absent attribute clears a pending exception.
- The liballocs subobject search visits, root first, the subobjects that contain the offset.
- libffi either rejects a structure or gives it a size and an alignment that follow from its members.

## Where the code does not do what one would expect

Each of these is proved, together with the exact condition under which all is well.

- A type with an address or array member whose pointee is unsupported leaves a pending Python
  exception behind, and a base type that is looked up next is then reported as unsupported for good
  (`TypeGraph.NoLeakedExceptionIff`, `TypeGraph.LinkIff`, `TypeGraph.StaleExceptionHidesMember`).
- The notification of a pointer write drops the old reference first. If the block that is written to is
  kept by that slot alone, or by a cycle through it, it is freed before the write
  (`ProxyReachability.WritableIff`, `ProxyReachability.WriteIntoFreedBlock`,
  `ProxyExamples.SelfKeptNodeIsFreed`). If the new target is, as in `head = head->next`, it is freed as
  well, and the slot dangles (`ProxyReachability.WriteKeepsTargetIff`,
  `ProxyReachability.WriteCanDangle`, `ProxyExamples.TakingOutFreesTheRest`).
- Zero filling an existing structure or array sends no notification. A slot that had an entry then holds
  NULL but keeps its old target (`ProxyZeroing.ZeroFillExactIff`, `ProxyZeroing.RunExact`).
- The cyclic collector does not always delete its garbage: a member that dies before its turn, and whose
  slots are in memory that C owns, goes on keeping what they name
  (`CollectorCompleteness.CollectorIsCompleteIff`, `ProxyExamples.MutualPairIsNotCollected`).
- The cyclic collector also clears slots in blocks that C still owns. C is then left with dangling
  pointers (`ProxyCollector.CollectorIsSoundIff`, `ProxyCollector.CollectorCanDangle`).
- Slicing asserts that a base proxy exists; it succeeds exactly when the allocation can have one,
  which static memory cannot (`ProxyApi.SliceInv`). A slice of an empty slice at the end of a block does
  not keep that block (`ProxyResults.SliceKeepsIff`).
- The final test of structure initialisation never fails, so superfluous positional values and unknown
  keywords are accepted (`CompositeInit.CompositeProxy.FinalTestNeverFails`); initialisation from
  attributes uses the missing type of an unrecognised field
  (`CompositeInit.CompositeProxy.InitFromAttributes`).
- Item assignment tests the upper end of the index only (`ArrayAccess.AddressProxy.AssItem`).
- An empty slice at the end of an array passes the type check of a copy, which then reads past the
  allocation (`Inheritance.SliceSourceIff`).
- `Bounds.size`, the size of the argument buffer and item offsets are 32 bits wide
  (`Bounds.BoundsSizeIff`, `ArgPacking.FitsIff`, `ArrayInit.ArrayProxy.OffsetsExactIff`).
- Deallocating the type of a prepared function without arguments reads an array that was never set
  (`FfiSetup.FunctionType.Dealloc`).
- A loaded character cannot always be stored again (`Scalars.CharRestoreIff`).

## Model

| member | source | states |
|---|---|---|
| ProxyMachine.Runtime.DecRef | proxy.c:159-166 | giving back a reference, and the whole recursive cascade that follows, terminates and only reclaims: nothing is added, storage that stays keeps its entries, no self-supporting set of proxies loses a member |
| ProxyMachine.Runtime.Dealloc | proxy.c:159-166 | deallocating a proxy in the middle of a cascade keeps the weakened invariant and only reclaims |
| ProxyMachine.Runtime.Unregister | proxy.c:98-112 | only the registered base itself gives up the block and the index entry; the index entry outlives the block meanwhile, and the weakened invariant allows for that |
| ProxyMachine.Runtime.DelRef | proxy.c:37-66 | deleting the entry of a location drops one count of its target and may cascade; unknown locations are ignored |
| ProxyMachine.Runtime.Release | proxy.c:159-166 | dropping a reference re-establishes the full invariant and ends in exactly `Drop`, the declarative result |
| ProxyMachine.Runtime.Unpoint | proxy.c:37-66 | deleting an entry between operations ends in exactly `Forget` |
| ProxyMachine.Runtime.ForeignFree | proxy.c:107-110 | C's free ends in exactly `FreeByC`: the block goes only if Python does not own it |
| ProxyMachine.Runtime.AddRefTo | proxy.c:17-25 | a new entry of the strong index adds one count to its target and keeps the invariant |
| ProxyMachine.Runtime.RegisterProxy | proxy.c:77-94 | registering indexes the proxy and makes Python an owner of its block |
| ProxyMachine.Runtime.GetOrCreateBase | proxy.c:115-157 | ends in exactly `GetBase`: found, created and registered, or None (GetBaseIff says when) |
| ProxyMachine.Runtime.ProxyGetFrom | proxy.c:196-216 | the base itself if type and address agree, else a proxy at the address that holds the base through its own entry |
| ProxyMachine.Runtime.DecodePointer | address_proxy.c:227-275 | decoding NULL gives None; an accepted base is returned itself, without comparing addresses; else a new address proxy that holds the base |
| ProxyMachine.Runtime.TakeSlice | address_proxy.c:65-77 | a slice is a new proxy that keeps the base alive |
| ProxyMachine.Runtime.StorePointer | address_proxy.c:312-334 | None stores NULL, a wrong type changes nothing, else delref, addref and write end in exactly `Write`, for any slot whose block survives the notification |
| ProxyMachine.Runtime.CopyStruct | composite_proxy.c:75-92 | a typed copy leaves in every destination slot the content and the entry of its source, and every other stable slot as it was |
| ProxyMachine.Runtime.ZeroMemory | composite_proxy.c:154-160 | zero filling ends in exactly `ZeroFill`: contents change, entries do not, and the invariant is kept |
| ProxyMachine.Runtime.ConstructProxy | composite_proxy.c:179-187 | malloc of any size, registration and detachment of the manual owner end in the state `Constructed` |
| ProxyMachine.Runtime.ClearProxy | composite_proxy.c:262-265 | clearing one garbage proxy ends in exactly `ClearOne`, also if the cascade reaches it |
| ProxyMachine.Runtime.CollectCycles | proxy.c:280-293 | clearing the garbage in list order ends in exactly `Collect` |
| Reclamation.AliveIsGreatest | proxy.c:159-166 | there is a greatest set of proxies that handles, C or members support: the meaning of "still referenced" |
| Reclamation.Settle | proxy.c:159-166 | every cascade that only reclaims and ends in the invariant ends in `Reclaim` of its start, whatever order it took |
| Reclamation.ReclaimInv | proxy.c:37-66 | reclaiming re-establishes the full invariant from any state in which some counts have dropped to zero |
| ProxyOps.DropInv | proxy.c:159-166 | dropping a reference keeps the invariant |
| ProxyOps.ForgetInv | proxy.c:37-66 | deleting an entry keeps the invariant |
| ProxyOps.FreeByCInv | proxy.c:107-110 | C's free keeps the invariant |
| ProxyApi.BlockAtUnique | proxy.c:125-126 | an address lies in at most one block, so the allocation query is well defined |
| ProxyApi.GetBaseInv | proxy.c:115-157 | get-or-create keeps the invariant, and its result is a registered base, held, whose block contains the address |
| ProxyApi.GetFromInv | proxy.c:196-216 | deriving a proxy keeps the invariant |
| ProxyApi.DecodeInv | address_proxy.c:227-275 | decoding a pointer keeps the invariant |
| ProxyApi.SliceInv | address_proxy.c:65-77 | slicing keeps the invariant and succeeds if and only if the allocation can have a base proxy |
| ProxyApi.TradeStep | address_proxy.c:267-268 | adding an entry and giving back the base is, in effect, turning the reference into the entry: nothing is reclaimed |
| ProxyResults.GetBaseResult | proxy.c:115-157 | the result is the one base of the block that contains the address, with one more reference; there is none exactly if the allocation cannot have one; nothing that was there is lost or changed |
| ProxyResults.OneBasePerBlock | proxy.c:132-138 | any two addresses of a block get the same base |
| ProxyResults.GetFromResult | proxy.c:196-216 | the result has exactly the type and address asked for and keeps the allocation; it is the base itself when that fits (and its block is not empty) |
| ProxyResults.DecodeResult | address_proxy.c:227-275 | None exactly for NULL; the base, at the start of its block, exactly if its type is accepted; else a proxy at the pointer's address; either keeps the target |
| ProxyResults.SliceResult | address_proxy.c:65-77 | a slice is a proxy of the same type at its own address that keeps the block containing the address of the proxy it was taken from |
| ProxyResults.SliceKeepsIff | address_proxy.c:68-74 | a slice succeeds and keeps the block that its source keeps if and only if the source's address lies in that block |
| ProxyResults.WriteResult | address_proxy.c:331-332 | after a write to any slot whose block survives the notification, the slot holds the address and has an entry exactly if that lies in a registered block, for the base of that block |
| ProxyReferences.GetBaseIff | proxy.c:121-156 | there is a base for an address if and only if it lies in an allocation that accepts lifetime policies and whose type has a proxy type |
| ProxyReferences.NoBaseMeansUnregistrable | proxy.c:127-146 | the allocations without a base are exactly those that could not be registered |
| ProxyReferences.GetBaseGains | proxy.c:132-156 | exactly one new reference, to the base; nothing else new but that base and its registration |
| ProxyReferences.GetFromGains | proxy.c:200-215 | Python has exactly one new reference, to the result: that of get-or-create is given back; the only new proxies are the result and a base that it keeps |
| ProxyReferences.DecodeGains | address_proxy.c:238-274 | the same for decoding a pointer, and nothing at all happens for NULL |
| ProxyReferences.SliceGains | address_proxy.c:65-77 | the same for slicing |
| ProxyReferences.DropUndoes | proxy.c:159-166 | dropping the result of any of these at once restores every table: proxies, counts, both indices, blocks and ledger |
| ProxyFrames.StepFrames | proxy.c:17-66 | every step of a run gives Python exactly one reference to what it returns and takes exactly the one that is dropped; of what is left, it changes only the locations that it writes and the ownership of the block that C frees |
| ProxyReachability.AliveIff | proxy.c:37-66 | the greatest self-supporting set is what a trail of entries reaches from a handle, from memory that C owns, or from a cycle |
| ProxyReachability.SurvivesIff | address_proxy.c:331-331 | any block survives the notification for a slot if and only if C owns it or a trail that does not use the slot reaches its base |
| ProxyReachability.WritableIff | address_proxy.c:331-332 | a slot can be written, its block being there after the notification, if and only if C owns the block or a trail that does not use the slot reaches the base |
| ProxyReachability.WriteIntoFreedBlock | address_proxy.c:331-332 | a block kept by the slot itself, or by a cycle through it, is freed before the write |
| ProxyReachability.WriteKeepsTargetIff | proxy.c:20-32 | the slot gets its entry, and the target's block stays, exactly if the target is kept without the slot's old entry |
| ProxyReachability.WriteCanDangle | proxy.c:20-32 | otherwise, the slot holds an address that is in no block |
| ProxyExamples.SelfKeptNodeIsFreed | address_proxy.c:331-332 | a concrete sound state with a node that only its own pointer keeps, which a write to that pointer frees |
| ProxyExamples.TakingOutFreesTheRest | proxy.c:20-32 | a concrete list whose head dangles after `head = head->next` |
| ProxyCollector.VisitsWithinCount | proxy.c:280-293 | the visits of a traversal never exceed the count, and equal it only if no handle and no other location refers to the proxy |
| ProxyCollector.CollectorFindsGarbage | proxy.c:280-293 | what CPython's subtraction of visits leaves unreached is a garbage set: unheld, and named only by slots of its own blocks |
| ProxyCollector.Confluence | proxy.c:37-66 | reclaiming between deletions makes no difference to the result |
| ProxyCollector.CollectAtOnce | composite_proxy.c:262-265 | clearing members one after the other equals deleting all their slots at once and reclaiming, if none but the first has counted slots in memory that C owns |
| ProxyCollector.CollectorIsComplete | proxy.c:280-293 | for garbage of which none but the first member cleared has counted slots in memory that C owns: every member is deleted, exactly those of their blocks that C does not own are freed, and the order makes no difference |
| CollectorCompleteness.CollectorIsCompleteIff | proxy.c:280-293 | every order of clearing deletes the whole garbage set if and only if each member whose block is C's and names another member also names itself there |
| CollectorCompleteness.DeletedMembersBlock | proxy.c:280-293 | of a member that is deleted, in whatever order, the block is freed exactly if C does not own it |
| CollectorCompleteness.MutualPairSurvives | proxy.c:280-293 | of two structures in memory of C that name each other the collector deletes only the second |
| ProxyExamples.MutualPairIsNotCollected | proxy.c:280-293 | a concrete sound state in which that happens |
| ProxyCollector.CollectorIsSafe | proxy.c:280-293 | no proxy that a path of entries reaches from a handle is deleted, for any garbage and any order; nor one reached from memory that C owns, if no garbage block that C owns contains a counted pointer |
| ProxyCollector.CollectorIsSoundIff | address_proxy.c:364-367 | every order of clearing leaves all counted locations protected if and only if no block of the garbage that C owns contains a counted pointer |
| ProxyCollector.CollectorCanDangle | address_proxy.c:364-367 | otherwise a slot that C can read holds an address that is in no block |
| ProxyRuns.StepInv | proxy.c:17-66 | every step keeps the invariant: counts, both indices, blocks, owners and ledger |
| ProxyRuns.StepSound | proxy.c:17-66 | no step takes the entry of a location that stays and was set to point into a registered block |
| ProxyRuns.RunKeeps | proxy.c:17-66 | both hold in every state of every run |
| ProxyRuns.NoDanglingInRuns | proxy.c:17-66 | in every reachable state a location that was set to point into a registered block holds an address of a block that is not freed, because the strong index maps it to that block's base; or NULL, if it is a slot |
| ProxyRuns.ReleasedOnceInRuns | proxy.c:107-110 | in every reachable state each address was acquired as often as released, once more if the block is there; a block that is there has an owner |
| ProxyRuns.IndexAndCountsInRuns | proxy.c:77-112 | in every reachable state the weak index is injective and names live proxies under their own address, and each count is the handles plus the locations mapped to the proxy |
| ProxyZeroing.ZeroFillExactIff | composite_proxy.c:154-160 | after zero filling, every slot with an entry still points into the block of its target if and only if no slot with an entry was covered; a covered one holds NULL and keeps its target |
| ProxyZeroing.ZeroFillContent | composite_proxy.c:154-160 | exactly the slots of the range become NULL, and nothing but their content changes |
| ProxyZeroing.StepExact | proxy.c:17-66 | every other step keeps slots and entries in agreement |
| ProxyZeroing.RunExact | proxy.c:17-66 | in runs that zero no slot with an entry, every slot with an entry points into the block of its target at any time |
| ProxyOwnership.OnlyUnownedBlocksAreFreed | proxy.c:107-110 | whatever step is taken, a block that disappears was not owned by C, or C freed it in this step, and its base proxy is gone |
| ProxyOwnership.FreeKeepsRegisteredBlock | proxy.c:89-90 | a block survives C's free while its base proxy is registered |
| ProxyOwnership.FreeResult | proxy.c:107-110 | C's free releases the block, once, exactly if no base proxy is registered for it |
| ProxyOwnership.DropKeepsHeldBase | proxy.c:159-179 | dropping any reference, also that of a derived proxy at the base's own address, leaves a base registered that another handle holds directly or through a derived proxy |
| ProxyOwnership.StoreKeepsTarget | address_proxy.c:331-332 | storing a held proxy makes the slot an entry for its base and never frees the target, even when the slot held the same target |
| ProxyOwnership.ConstructedIsPythonOwned | composite_proxy.c:184-187 | a constructor leaves a block owned by Python alone and a base proxy with one reference |
| ProxyOwnership.ConstructThenDrop | composite_proxy.c:190-194 | dropping that reference frees the block and restores every table |
| ProxyOwnership.CopySlotEffect | composite_proxy.c:90-90 | copying a slot copies content and entry and disturbs no other stable slot |
| ProxyReachability.DropIsExact | proxy.c:159-166 | for structures of any shape, dropping a reference leaves exactly the proxies that a trail reaches from a handle, from memory that C owns, or from a cycle |
| ProxyReachability.AcyclicDropIsExact | proxy.c:159-166 | for entries without cycles, of any depth and sharing, it deletes exactly the proxies that no handle and no memory of C reaches any more |
| TypeTable.Table.GetOrCreate | foreign_type.c:174-197 | the table afterwards and the result are those of `Make`; older entries keep their objects; after an outermost call the object is complete; terminates by the types not yet in the table |
| TypeTable.Table.NewType | foreign_type.c:116-153 | an object exactly for the kinds, encodings and sizes that are supported, and for a base type only while no exception is pending |
| TypeTable.Table.InitComposite | composite_proxy.c:314-346 | every edge is looked up and linked, its failure cleared, and the base class is the last composite member at offset 0 |
| TypeTable.Table.InitAddress | address_proxy.c:410-440 | the pointee is looked up and linked; a failure leaves its exception pending |
| TypeTable.Table.InitArray | address_proxy.c:562-572 | the array uses the proxy type of the address type of its element |
| TypeTable.Table.MadeIsComplete | composite_proxy.c:318-342 | what an outermost call returns is complete by its description: a structure has a field for each of its members, each null or the member's object, and not null for a supported member that is no base type; its base class is that of the last composite member at offset 0; likewise pointees, and element address types of arrays |
| TypeTable.Table.InitialisedIsComplete | address_proxy.c:410-440 | the same for every initialised object of the table |
| TypeTable.Table.NothingMissing | composite_proxy.c:318-342 | in a table without missing links every supported member, pointee and element, of whatever kind, has its object |
| TypeGraph.FromEmptyTable | foreign_type.c:116-153 | which kinds of types get an object |
| TypeGraph.EncodableSizes | foreign_basetype.c:214-286 | integers and characters of 1 to 8 bytes, a power of two; floats of 4 to 16; complex numbers of two floats; truth values of any size; no bit fields |
| TypeGraph.MakeCompletes | foreign_type.c:174-197 | whatever cycles the types form, an object is returned exactly for types in the table or supported (but for a new base type while an exception is pending), and what was added is initialised on return |
| TypeGraph.ReachableTypesAreMade | foreign_type.c:174-197 | an outermost call leaves no half-built entry, and every supported type that members, pointees and elements lead to from the requested one is in the table, except that a base type may be missing because of a pending exception |
| TypeGraph.CleanGraphsAreComplete | foreign_type.c:174-197 | if no address type has an unsupported pointee, every reachable supported type is made and every supported edge is linked |
| TypeGraph.NoLeakedExceptionIff | address_proxy.c:414-416 | an object is never returned with an exception pending, for all tables and types, if and only if no address type has an unsupported pointee |
| TypeGraph.LinkIff | foreign_type.c:174-197 | an edge gets a type if and only if that is in the table by then, or supported and, for a base type, no exception is pending |
| TypeGraph.StaleExceptionHidesMember | foreign_basetype.c:288-292 | in any structure and any table: a base type looked up right after a new address type with an unsupported pointee gets no type, for good |
| LibraryLoader.Loader.AddTypeToModule | library_loader.c:57-82 | the module and the table afterwards and the code returned are those of `AddType` |
| LibraryLoader.Loader.AddUsefulTypes | library_loader.c:84-128 | the recursion does what `Walk` says and terminates: names not yet added, then rank to the next composite |
| LibraryWalk.MangleName | library_loader.c:60-67 | the buffer operations yield the first 255 characters with `$` replaced |
| LibraryWalk.MangledText | library_loader.c:60-67 | an attribute name is the first 255 characters with `_` for `$` |
| LibraryWalk.MangledClash | library_loader.c:60-67 | exactly which names clash |
| LibraryWalk.WalkCovers | library_loader.c:84-128 | after the walk each composite that was added has all its members dealt with, except those still being walked |
| LibraryWalk.WalkAddsReachable | library_loader.c:84-128 | with distinct, initially absent names every supported composite, void or base type on a path of the walk is bound to its name |
| LibraryWalk.WalkAddsExactly | library_loader.c:84-128 | with distinct, initially absent names the types added are exactly the supported structures, void and base types that members, elements, pointers and signatures lead to |
| Layout.SubobjectInside | composite_proxy.c:48-48 | every subobject at any depth lies inside its container |
| Layout.SameTypeAliasing | composite_proxy.c:83-90 | two subobjects of the same type are identical or disjoint, so comparing addresses makes the copy well defined |
| Layout.VisitsExact | composite_proxy.c:237-250 | traversal visits the offset of every pointer at any depth of structures and arrays exactly once |
| Traversal.Traverse | composite_proxy.c:252-255 | the callback sees the slots of the type in order until it returns non-zero |
| Traversal.StopsAtFirst | address_proxy.c:355-361 | a traversal visits the slots in order up to the first for which the callback returns non-zero, and says whether there was one |
| Traversal.TraverseComposite | composite_proxy.c:237-250 | the loop over members, with its early return, visits the slots of the structure in order until the callback stops it |
| Traversal.TraverseArray | address_proxy.c:349-362 | the same for the loop over the items of an array |
| Traversal.TraversalSeesEverySlot | composite_proxy.c:237-250 | a callback that never stops sees the address of every pointer once |
| Traversal.TraversalVisitsEntriesOnce | proxy.c:280-293 | traversing a block visits each of its entries in the strong index once, and so no target more often than its count |
| Traversal.TraversingAllBases | proxy.c:280-293 | traversing every base once calls back for a proxy exactly as often as the strong index has entries for it in registered blocks, so no more often than its count |
| Bounds.BoundsCbArg.BoundsCb | minicrunch.c:24-111 | the callback records the direct container if that is an array, stops at a subobject of the right size at the target or beyond the target, and reports success only for the former; a type without a length never has the right size |
| Bounds.BoundsCbArg.Search | minicrunch.c:189-197 | driving the callback root first over the subobjects that contain the target finds what `Find` finds |
| Bounds.FetchBounds | minicrunch.c:121-281 | the bounds are `BoundsFor` of the allocation, the pointer and the stride |
| Bounds.FindIff | minicrunch.c:63-107 | the search succeeds if and only if a subobject of the requested size starts at the target offset |
| Bounds.FoundFits | minicrunch.c:38-46 | what is found has that size and place; a container is an array of which it is an element |
| Bounds.FindInIff | minicrunch.c:189-197 | the same for an allocation: an array without a length of its own is not itself a match |
| Bounds.FoundInFits | minicrunch.c:198-214 | what is found in an allocation has the requested size and place; a container is an array of which it is an element |
| Bounds.ElementFindsArray | minicrunch.c:38-46 | an element of any array of two or more is found together with that array, however deep |
| Bounds.BoundsMeaning | minicrunch.c:198-234 | below 4 GiB the bounds contain the object, lie in the allocation and put the object whole strides from their base if an object of that size starts there, else they are one byte |
| Bounds.ElementBounds | minicrunch.c:200-213 | for an element of an array of two or more they are the whole array; of an array without a length, to the end of the allocation |
| Bounds.SingleBounds | minicrunch.c:215-221 | for an object that is an element of no array they are the object |
| Bounds.ArrayBounds | minicrunch.c:198-221 | in general they are the object, or a whole array of which an object of that size is an element |
| Bounds.CharBounds | minicrunch.c:236-258 | for characters they are those of the allocation, whatever its type |
| Bounds.OtherBounds | minicrunch.c:123-174 | one byte for NULL and for strides of unknown size, everything for pointers in no allocation or outside of it |
| Bounds.BoundsSizeIff | include/minicrunch.h:4-7 | the 32-bit size is exact if and only if the span is below 4 GiB |
| Bounds.SearchTargetIff | minicrunch.c:147-147 | the 32-bit target offset is exact if and only if the pointer is less than 4 GiB into its allocation |
| ArrayAccess.AddressProxy.InitLength | address_proxy.c:205-225 | the length becomes `LengthFor` of the allocation |
| ArrayAccess.AddressProxy.Item | address_proxy.c:33-43 | item `index` of the proxy, or an error exactly outside 0 to length |
| ArrayAccess.AddressProxy.SubscriptInt | address_proxy.c:45-52 | Python's indexing, negative indices included |
| ArrayAccess.AddressProxy.SubscriptSlice | address_proxy.c:53-78 | a new proxy that offers the items that Python's slicing of the items gives; steps other than 1 are refused |
| ArrayAccess.AddressProxy.AssItem | address_proxy.c:88-98 | accepted exactly below the length; the address is one of the items if and only if the index is not negative (items of size 0 aside) |
| ArrayAccess.SlicedItems | address_proxy.c:63-75 | the arithmetic on address and length is slicing of the sequence of items: `a[s:e][i]` is `a[adj(s)+i]` |
| ArrayAccess.AdjustIs | address_proxy.c:63-63 | ends of slices: as given, counted from the end, or clipped |
| ArrayAccess.PyIndexIs | address_proxy.c:47-52 | indices: from the start, counted from the end, or an error |
| ArrayAccess.SlicesArePart | address_proxy.c:63-75 | any chain of slices offers a contiguous part of the first proxy's items |
| ArrayAccess.LengthInside | address_proxy.c:205-225 | the length never takes a new proxy past its allocation |
| ArrayAccess.ReadsStayInside | address_proxy.c:33-77 | every index accepted after any chain of slices reads an item inside the allocation, whole items from the first |
| ArrayAccess.ElementLength | address_proxy.c:217-224 | the first element of an array of two or more, or of one without a length, gets the length of the array; later elements get 1 |
| ArrayAccess.SingleLength | address_proxy.c:217-224 | an object that is an element of no array gives length 1 |
| ArrayAccess.CharLength | address_proxy.c:217-224 | a pointer to characters has the length of its allocation at the start, and 1 further in |
| ArrayAccess.OtherLengths | address_proxy.c:211-224 | 0 for pointees of size 0 or unknown length, 1 for pointers that are in no allocation |
| ArrayAccess.HeapArrayLength | address_proxy.c:511-515 | an array without a length of its own has as many items as fit its allocation |
| ArrayAccess.EmptyIff | address_proxy.c:205-225 | a proxy is empty exactly when no object of the pointee's size starts at its address |
| Inheritance.InitBase | composite_proxy.c:318-342 | the loop leaves the last composite member at offset 0 as the base |
| Inheritance.BaseIff | composite_proxy.c:333-339 | there is a base exactly if a member is a structure at offset 0, and it is the last of them |
| Inheritance.InheritsChain | composite_proxy.c:333-339 | a type check accepts a type for itself, for its base, and along chains of bases |
| Inheritance.InheritsOccurs | proxy.c:237-241 | what passes a type check begins with a subobject of the type asked for, and has at least its size |
| Inheritance.InheritedGetter | composite_proxy.c:46-51 | an inherited getter reads the address that following the first members explicitly gives |
| Inheritance.InheritedMember | composite_proxy.c:46-51 | and what it reads is that member, at its offset in the structure |
| Inheritance.CopySourceInside | address_proxy.c:420-425 | copying a structure out of a non-empty array of a deriving type, after any slicing, reads inside the allocation |
| Inheritance.SliceSourceIff | proxy.c:237-241 | a slice of an array that fills its allocation can be copied from if and only if it starts before the end |
| Scalars.IntStoreInto | foreign_basetype.c:31-76 | a number is stored exactly if it is in range, a truth value always, nothing else ever; a load then returns the number (0 or 1); no other byte changes, and failure changes nothing |
| Scalars.IntGetFrom | foreign_basetype.c:25-30 | a loaded value is always accepted by a store of the same width and signedness |
| Scalars.LoadStored | foreign_basetype.c:24-76 | loading what was stored gives the value, for every width and signedness |
| Scalars.StoreLoaded | foreign_basetype.c:24-76 | storing what was loaded gives the same bytes |
| Scalars.Limits | foreign_basetype.c:24-76 | the ranges of the eight integer types |
| Scalars.PlaceValue | foreign_basetype.c:24-30 | bytes are little-endian digits |
| Scalars.TwosComplement | foreign_basetype.c:51-57 | the top bit makes a signed number negative by the full range |
| Scalars.CharStoreInto | foreign_basetype.c:78-144 | the same for characters: numbers in range, truth values, and text, bytes and bytearrays of length 1 with a code in range |
| Scalars.CharRestoreIff | foreign_basetype.c:124-148 | a loaded character can be stored again if and only if it is one byte wide and, when signed, below 128 |
| Scalars.CharRestoreSame | foreign_basetype.c:124-148 | its byte is then unchanged |
| Scalars.BoolStoreInto | foreign_basetype.c:16-22 | one byte, 0 or 1, by truth value; an exception changes nothing |
| CompositeInit.CompositeProxy.SetField | composite_proxy.c:53-58 | a field is overwritten as a whole or not at all |
| CompositeInit.CompositeProxy.InitFromAttributes | composite_proxy.c:105-118 | succeeds exactly if every field is recognised and has a fitting attribute, which it then holds; uses a missing type exactly if the first field that does not fit is unrecognised but has an attribute; touches recognised fields only |
| CompositeInit.CompositeProxy.InitFields | composite_proxy.c:131-164 | on success each recognised field holds its positional value, else its keyword, else zero; other bytes are untouched; fails exactly if a value cannot be converted or the final test fails |
| CompositeInit.CompositeProxy.Init | composite_proxy.c:60-177 | the outcome and memory for each way of calling: defaults, copy, dictionary, attributes, positional values and keywords; a failed attribute attempt leaves no trace in recognised fields once the loop succeeds |
| CompositeInit.CompositeProxy.FilledField | composite_proxy.c:138-160 | after the loop a field of a recognised type holds the conversion of its positional value; if there is none, of its keyword; if there is none either, zeros |
| CompositeInit.CompositeProxy.FilledIff | composite_proxy.c:132-164 | the loop succeeds exactly if each of those values can be converted |
| CompositeInit.CompositeProxy.TakenField | composite_proxy.c:108-110 | a field taken from an attribute holds the conversion of the attribute of its name |
| CompositeInit.CompositeProxy.FitsIff | composite_proxy.c:108-110 | an attribute fits exactly if it has the name of a recognised field and can be converted |
| CompositeInit.CompositeProxy.UndefinedIff | composite_proxy.c:53-58 | the missing type of an unrecognised field is used exactly if there is an attribute of its name and fitting ones for all fields before it |
| CompositeInit.CompositeProxy.OthersAre | composite_proxy.c:132-162 | a byte that belongs to no recognised field stays |
| CompositeInit.CompositeProxy.OutsideStays | composite_proxy.c:132-162 | so does every byte outside the structure |
| CompositeInit.CompositeProxy.OneArgumentIs | composite_proxy.c:64-78 | which calls count as having one argument |
| CompositeInit.CompositeProxy.FinalTestNeverFails | composite_proxy.c:164-176 | with distinct field names the count never exceeds values plus keywords |
| ArrayInit.ArrayProxy.Init | address_proxy.c:116-168 | for any length and any number of values: succeeds exactly if the number, modulo 2^32, is not too great and those values can be converted; the memory is then that before with the stores at the 32-bit offsets and the zeros |
| ArrayInit.ArrayProxy.InitFills | address_proxy.c:146-164 | if all offsets fit 32 bits that fills the items with the values and zeros, and changes nothing else |
| ArrayInit.ArrayProxy.NoValues | address_proxy.c:126-131 | no argument fills all items with zeros |
| ArrayInit.ArrayProxy.FilledItem | address_proxy.c:146-164 | item `i` then holds value `i`, or zeros beyond the last value |
| ArrayInit.ArrayProxy.FilledOutside | address_proxy.c:146-164 | bytes outside the items stay |
| ArrayInit.ArrayProxy.OffsetsExactIff | address_proxy.c:147-163 | the 32-bit item offsets are exact if and only if that of the last item fits |
| ArgPacking.Measure | function_proxy.c:269-285 | the first pass sums, modulo 2^32, the sizes of the arguments without data of their own and sets the places of the others |
| ArgPacking.Fill | function_proxy.c:287-301 | the second pass comes to the first value that cannot be converted or does not fit the buffer, and is an error or an overrun accordingly; else it stores exactly the counted arguments, and leaves every place set and every stored encoding intact |
| ArgPacking.Pack | function_proxy.c:251-301 | for any mix and any size of arguments: the outcome for the computed buffer, an error for a wrong number; on success the buffer is exactly as large as what is stored in it |
| ArgPacking.PlacedMeaning | function_proxy.c:275-300 | an argument whose type gives its data is passed where that is; each other one is stored in bytes of its own |
| ArgPacking.OutcomeBelowLimit | function_proxy.c:269-301 | below 4 GiB nothing overruns, and it succeeds exactly if every value can be converted |
| ArgPacking.OutcomeAboveLimit | function_proxy.c:269-301 | from 4 GiB on it never succeeds |
| ArgPacking.RangesApart | function_proxy.c:299-300 | the ranges of different arguments are disjoint and inside the buffer |
| ArgPacking.FitsIff | function_proxy.c:270-287 | every range fits the buffer of the computed 32-bit size if and only if less than 4 GiB are needed |
| FfiDescriptors.Heap.TypeFor | function_proxy.c:32-139 | NULL exactly if the type cannot be described, with the heap as before; else a descriptor of the right shape that owns exactly the cells that were allocated, none twice |
| FfiDescriptors.Heap.StructFor | function_proxy.c:85-134 | the same for structures, whichever member fails at whichever index, and if libffi refuses |
| FfiDescriptors.Heap.Finish | function_proxy.c:102-134 | the structure gets the foreign size, and when that differs from libffi's the alignment of the strictest member |
| FfiDescriptors.Heap.FreeType | function_proxy.c:15-23 | freeing a descriptor removes exactly the cells it owns |
| FfiDescriptors.Heap.FreeTypeArr | function_proxy.c:24-29 | freeing an array removes it and what its elements own up to the terminator |
| FfiDescriptors.DescribeMirrors | function_proxy.c:34-133 | a description mirrors its type at every depth: structures with the foreign size and a part for each member, basic types of the right kind and size |
| FfiDescriptors.DescribeIff | function_proxy.c:34-138 | if libffi accepts every structure, exactly base types of supported sizes and structures of describable types are described |
| FfiDescriptors.SameEncodings | function_proxy.c:47-84 | the base types that can be passed are those that have foreign types, in the same sizes |
| FfiDescriptors.StructExtent | function_proxy.c:119-131 | a structure keeps libffi's alignment, or, if libffi's size differs from the foreign one, gets that of its strictest member if it is greater |
| FfiDescriptors.DescribeAligned | function_proxy.c:119-131 | if libffi aligns structures like their strictest member, so does every description, patched or not |
| FfiSetup.FunctionType.Setup | function_proxy.c:143-213 | fails exactly if something is unsupported or libffi refuses, and then heap and type references are as before; else the function holds exactly what was allocated and referenced |
| FfiSetup.FunctionType.BuildArgs | function_proxy.c:173-188 | whichever of the two parallel arrays fails at whichever index, both are released in full |
| FfiSetup.FunctionType.FreeArgs | function_proxy.c:199-208 | the error path releases both arrays, each descriptor and each type reference once |
| FfiSetup.FunctionType.Dealloc | function_proxy.c:221-239 | gives back exactly the cells and references that are held, if there is an argument; else it comes to read an unset array |

## Left out

- ProxyMachine.Runtime: proxies are numbered entries of the tables of one object, not heap objects of their own, so that a cascade can be described on one state.
- ProxyMachine.Runtime.GetOrCreateBase: allocations whose own type is an address are excluded, because decoding would follow the pointer instead of making a proxy for the block; the `creating_base` flag appears as the rule that the object being created gets no base of its own.
- ProxyMachine.Runtime.ForeignFree: C frees only blocks that it owns.
- ProxyMachine.Runtime.ConstructProxy: the initialisation that follows is modelled in CompositeInit and ArrayInit; the path that drops the new proxy when it fails is ConstructThenDrop.
- ProxyRuns.NoDanglingInRuns: collector steps of a run clear garbage in which no block that C owns contains counted pointers; CollectorIsSoundIff shows that this condition is exact. A pointer write is a step if the block survives the notification (WritableIff). A slot counts as set to point into a registered block if that is so after the notification; when it is not, WriteCanDangle applies. A slot may hold NULL because it was zeroed (RunExact).
- ProxyOwnership.CopySlotEffect: stable slots are those in blocks that C owns or that a held proxy keeps.
- ProxyApi.SliceInv: the start of the slice lies in the block or one past its end, as ArrayAccess shows for slices of proxies whose length comes from the bounds.
- TypeTable.Table.InitComposite: that CPython copies the list of base classes when a type becomes ready is not modelled, so a structure that is made ready while its first member is still being initialised counts as inheriting from it.
- TypeTable.Table.NewType: floating-point and complex encodings are only told apart as supported sizes; the members that the void type leaves unset are not modelled.
- LibraryWalk.WalkAddsReachable: cycles that avoid composites do not occur in C and are excluded.
- Layout.SameTypeAliasing: unions, overlapping members and flexible array members inside structures are excluded; arrays without a length occur as whole allocations only.
- Bounds.BoundsCbArg.BoundsCb: the outermost array and the accumulated length, which nothing reads, are not modelled; neither are the bounds caches and debug output.
- Bounds.BoundsMeaning: allocations of 4 GiB and more are excluded; BoundsSizeIff shows that the reported size is then wrong.
- FfiDescriptors.Heap.TypeFor: the base of an enumeration, if there is one, is a base type.
- Scalars.IntStoreInto: objects that convert to a number through `__index__` count as not accepted; the byte order is little-endian.
- FfiSetup.FunctionType.Setup: whether libffi accepts the call interface is a function of the types.
- ArrayInit.ArrayProxy.InitFills: offsets that do not fit 32 bits wrap, and then items overwrite each other; OffsetsExactIff gives the condition.
- CompositeInit.CompositeProxy.Init: a conversion is a function of the value and writes a whole field or nothing; a structure that is copied is the same or lies apart, as Layout.SameTypeAliasing shows.
- Loading of libraries, ELF scanning and symbol lookup: platform plumbing.
- The foreign call itself, closures and their memory.
- Floats, complex numbers, printing and error texts.
- The insides of liballocs, libffi and CPython beyond the contracts above.
