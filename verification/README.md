# Models of the GHC runtime system

Machines of the runtime system in `rts/`, modelled in Dafny with proofs that they keep their laws. There is one module for
each source file or component; code that updates its data in place is modelled by classes and loops, the rest by functions.
`dafny verify dfyconfig.toml` checks everything.

- **Object code** (`SectionTable`, `ObjectCode`, `LinkedLists`, `Reachability`, `CheckUnload`): the mark and sweep collector of
  loaded object code, with its section table, two doubly linked lists and mark bit.
- **On-demand linking** (`Linking`, `Lookups`, `Stranding`, `StrandedMember`, `Linker`): the symbol table and the lazy loading
  of archive members. `Linking` is what the linker computes, as a function, and `Lookups` what a lookup answers and why it can
  fail; `Linker` has the methods, each proved equal to it; `Stranding` is about when a successful `resolveObjs` may leave an
  object half linked.
- **Hash tables** (`HashArithmetic`, `Hash`, `HashHistory`, `FileLock`): linear hashing as a bag of entries and, for histories
  without duplicate keys, as a map; file locking on top of the contracts of the table.
- **Capabilities** (`CapabilityProtocol`, `Capability`): the hand-off protocol as a state machine with one step for each
  critical section, and the critical sections as methods over linked lists.
- **Exceptions between threads** (`ThrowTo`): `throwTo` messages, their locks and queues, as a state machine.
- **Stack surgery** (`Stacks`, `Continuation`, `Freezing`, `RaiseAsync`, `Interpreter`): chunked stacks, captured
  continuations, freezing a computation into AP_STACKs, and application in the byte-code interpreter.
- **Profiling** (`Profiling`, `ProfHeap`, `RetainerSet`): cost-centre stacks, biographical profiling, retainer sets.
- **Printers and parsers** (`Hpc`, `ProfilerReportJson`): tix files and JSON strings.

`Options` and `Sequences` hold what several modules share.

## Findings

Properties that one might expect and that do not hold, each with an input and with the exact condition.

- After a successful `resolveObjs` an object can be left `OBJECT_NEEDED`, and a ready object can depend on it: the result of
  the lookup of `__cxa_finalize` is ignored (`rts/Linker.c:915-920`), and `objects` is walked only once. `StrandedMember.Run` is
  such a run. `Stranding.SafeExactly` gives the condition, over the symbol table, the states and the order of `objects` before
  the call: the owner of `__cxa_finalize` is not waiting to be demanded, or a lookup of `__cxa_atexit` fails for good, or no
  object that could be pulled in by name comes before one that is wanted.
- The yield of a task that is neither a worker nor bound (`rts/Capability.c:1028-1037`) can lose a wakeup:
  `CapabilityProtocol.PlainYieldCanStrand` is such a run, `PlainYieldExact` the condition. The code relies on a pending sync.
- `readTix` does not restore every module that `writeTix` can print, because a name is printed as it is and read up to the next
  quotation mark into 256 characters (`rts/Hpc.c:83-96`): `Hpc.QuotedNameIsLost`, with the condition in `TixRoundTrip`.
- The comment of `enterFunCCS` says that for different roots the whole function stack is appended
  (`rts/Profiling.c:428-434`); `appendCCS` stops at a CAF. The code is followed; `Profiling.OwnPartWhole` says when nothing is left out.

## Model

| member | source | states |
|---|---|---|
| SectionTable.OCSectionIndices.constructor | rts/CheckUnload.c:168-187 | an empty table is sorted and has nothing removed |
| SectionTable.OCSectionIndices.Reserve | rts/CheckUnload.c:212-235 | afterwards there is room for the new entries, and the table holds what it held |
| SectionTable.RoundUp | rts/CheckUnload.c:212-235 | the new capacity is the least power of two that is large enough |
| SectionTable.OCSectionIndices.Insert | rts/CheckUnload.c:239-287 | the indexed sections of the object are appended, nothing else changes, and the order is lost |
| SectionTable.EntriesOfElement | rts/CheckUnload.c:239-287 | an entry is contributed exactly when it describes a section of the object that is indexed, with its address range and the object as owner |
| SectionTable.OCSectionIndices.FindSectionIdx | rts/CheckUnload.c:344-370 | on a sorted table of disjoint ranges the binary search returns the only entry that covers the address, and -1 exactly if none does |
| SectionTable.OCSectionIndices.FindOC | rts/CheckUnload.c:372-377 | the owner of the address, none exactly if every covering entry has lost its owner |
| SectionTable.OCSectionIndices.Remove | rts/CheckUnload.c:291-307 | exactly the entries of the object lose their owner; order and ranges stay |
| SectionTable.ForgetAt | rts/CheckUnload.c:291-307 | a removal clears the owner of exactly the entries that some section of the object starts in |
| SectionTable.OCSectionIndices.RemoveRemoved | rts/CheckUnload.c:322-342 | in place and in order, exactly the entries that still have an owner are left |
| SectionTable.LiveProper | rts/CheckUnload.c:322-342 | what is left are nonempty ranges that are pairwise apart |
| SectionTable.OCSectionIndices.Sort | rts/CheckUnload.c:309-320 | the table is sorted by start address and is a permutation of what it was |
| SectionTable.SortByStartSorts | rts/CheckUnload.c:200-210 | ordering by cmpSectionIndex keeps ranges apart and yields increasing start addresses |
| SectionTable.SortByStartPermutes | rts/CheckUnload.c:309-320 | ordering loses no entry and invents none |
| ObjectCodes.AgreesInsert | rts/CheckUnload.c:239-287 | after an insertion the table names exactly the registered objects and their sections |
| ObjectCodes.AgreesForget | rts/CheckUnload.c:291-307 | after a removal the table names exactly the other registered objects |
| ObjectCodes.AgreesLive | rts/CheckUnload.c:322-342 | compaction does not change what the table names |
| ObjectCodes.AgreesPermute | rts/CheckUnload.c:309-320 | sorting does not change what the table names |
| ObjectCodes.Lookup | rts/CheckUnload.c:372-377 | a lookup finds the one registered object that contains the address, if there is one |
| LinkedLists.DoublyUnlink | rts/CheckUnload.c:394-404 | joining the neighbours of a node takes exactly that node out of a doubly linked list |
| LinkedLists.DoublyPush | rts/CheckUnload.c:406-412 | putting a node in front of a doubly linked list keeps it well formed |
| LinkedLists.SinglyDelete | rts/Linker.c:1864-1874 | redirecting the predecessor takes exactly that node out of the root list |
| Reachability.ClosedHolds | rts/CheckUnload.c:382-419 | a marked set that holds the roots and is closed under dependencies holds everything reachable |
| Reachability.ReachableFrom | rts/CheckUnload.c:382-419 | what is reachable from something reachable is reachable |
| CheckUnload.ObjectPool.RemoveFromOld | rts/CheckUnload.c:394-404 | the object leaves old_objects; both lists stay well formed and disjoint |
| CheckUnload.ObjectPool.AddToObjects | rts/CheckUnload.c:406-412 | the object becomes the first of objects; both lists stay well formed and disjoint |
| CheckUnload.ObjectPool.MarkObjectLive | rts/CheckUnload.c:382-419 | on any graph, also a cyclic one, it terminates, and the newly marked objects are reachable from the argument and closed under dependencies |
| CheckUnload.MarkedExactlyMore | rts/CheckUnload.c:382-419 | if the marked objects are exactly those reachable from the roots, marking from one more object keeps it so |
| CheckUnload.ObjectPool.MarkObjectCode | rts/CheckUnload.c:421-437 | exactly the objects that contain the address become roots, and the marked objects are those reachable from the roots |
| CheckUnload.ObjectPool.InsertOCSectionIndices | rts/CheckUnload.c:239-287 | the object enters the table and the front of objects |
| CheckUnload.ObjectPool.PrepareUnloadCheck | rts/CheckUnload.c:439-454 | nothing is marked, every object is set aside, and the table is sorted and names exactly the registered objects |
| CheckUnload.ObjectPool.CheckUnload | rts/CheckUnload.c:456-495 | exactly the objects that are not reachable, along dependencies, from the root list or from an address that was marked are freed; n_unloaded_objects goes down by their number; no list, dependency or table entry of a survivor names a freed object |
| CheckUnload.ObjectPool.MarkRootList | rts/CheckUnload.c:470-473 | every object of loaded_objects becomes a root |
| CheckUnload.ObjectPool.FreeUnmarked | rts/CheckUnload.c:475-494 | the survivors are exactly the marked objects, and every freed one had been unloaded |
| CheckUnload.ObjectPool.Survivors | rts/CheckUnload.c:475-494 | the marked objects are closed under dependencies and include the root list, so dropping the others leaves nothing dangling |
| Linking.Redefine | rts/Linker.c:258-397 | the new definition wins exactly if the types agree and the old one is not strong, and either the old one is weak and the new one is not, or both are weak and only the new one has an address, or neither is weak and only the new owner is linked in |
| Linking.OfferAllDefines | rts/Linker.c:1710-1721 | after an object has offered its symbols all of them are defined; a definition that changed is one of the object; strong and fixed ones are not changed |
| Linking.OfferAllHolds | rts/Linker.c:1710-1721 | what an object that is linked in offers, unless as a weak symbol, ends in a definition that stays, unless the types disagree |
| Linker.OnDemandLinker.GhciInsertSymbolTable | rts/Linker.c:258-397 | the table gets exactly the definition that the decision tree picks; owners stay registered, loaded objects that define the symbol |
| Linker.OnDemandLinker.RemoveFromTable | rts/Linker.c:1150-1164 | exactly the definitions of the object's names that it owns leave the table |
| Linker.OnDemandLinker.GhciLookupSymbolInfo | rts/Linker.c:405-421 | a weak symbol that is found counts as a normal one from then on; nothing else changes |
| Linker.OnDemandLinker.IsAlreadyLoaded | rts/Linker.c:1416-1426 | true exactly if an object with the path is registered and not unloaded |
| Linker.OnDemandLinker.LoadObj | rts/Linker.c:1552-1590 | succeeds exactly if the path is loaded already or the file can be read and entered; only in the second case, one new object is first in objects and in the root list, and the table is the old one with its symbols offered |
| Linker.OnDemandLinker.LoadOc | rts/Linker.c:1574-1589 | on failure no object is added; on success the symbols have been offered in order |
| Linker.OnDemandLinker.UnloadObj | rts/Linker.c:1842-1884 | exactly the objects of the file are unloaded, lose their symbols in the table and, unless only purged, leave the root list, which keeps its order; all other definitions stay; the answer says whether there were any |
| Linker.OnDemandLinker.MajorGC | rts/Linker.c:986-993 | over every state that loads, lookups and unloads can reach, a collection keeps exactly the objects reachable along recorded dependencies from the root list or from a reached address, and no symbol owner or dependency names a freed object |
| Linker.OnDemandLinker.LookupDependentSymbol | rts/Linker.c:897-996 | terminates on cyclic symbol dependencies and computes the model function, whose answers LookupAnswers gives, with all invariants kept |
| Linker.OnDemandLinker.DemandFinalizer | rts/Linker.c:915-920 | the extra lookup of __cxa_finalize, whose result is ignored |
| Linker.OnDemandLinker.LoadSymbol | rts/Linker.c:1025-1051 | computes the model function: the owner is tried first if it has not been demanded |
| Linker.OnDemandLinker.OcTryLoad | rts/Linker.c:1692-1754 | computes the model function: symbols are offered, relocations looked up in order, the first that is NULL fails |
| Linker.OnDemandLinker.OfferSymbols | rts/Linker.c:1710-1721 | the table is the old one with all symbols of the object offered in order |
| Linker.OnDemandLinker.RunPendingInitializers | rts/Linker.c:1785-1797 | resolved objects become ready, in order, up to the first whose initialisers fail |
| Linker.OnDemandLinker.ResolveObjs | rts/Linker.c:1804-1829 | after a success every object that was wanted is ready, and whatever its relocations refer to has an address, can no longer be redefined and is a dependency of it; with the guard nothing is left NEEDED or RESOLVED and every dependency is ready or has been unloaded; a failure has a cause: a wanted object refers to a name without an address, or the initialisers of a resolved one fail |
| Linker.OnDemandLinker.LookupSymbol | rts/Linker.c:1074-1092 | a name of the table whose owner need not be loaded has its address; one whose owner must be loaded has its address if the owner gets resolved, and NULL if it stays NEEDED; any other name has an address exactly if the dynamic linker knows it; NULL has a cause: the name has no address, or an object that is wanted refers to a name that has none |
| Linking.LookupRuns | rts/Linker.c:897-996 | what every lookup keeps: fixed definitions, recorded dependencies, the states of objects that have been demanded; a found symbol is fixed and its owner recorded; what is left waiting could be pulled in, or something that could be will never resolve |
| Linking.LoadRuns | rts/Linker.c:1025-1051 | loadSymbol keeps the same as a lookup does, and the symbol it was asked for is fixed afterwards |
| Linking.RelocateRuns | rts/Linker.c:1723-1736 | a loop of lookups keeps the same; if it succeeds, everything the relocations refer to has an address and is a dependency |
| Linking.TryRuns | rts/Linker.c:1692-1754 | on success the object is resolved with all it refers to linked; on failure it stays NEEDED; nothing is left waiting unless a lookup of __cxa_finalize was ignored |
| Linking.DoomedFails | rts/Linker.c:1804-1816 | an object that refers to a symbol without an address makes resolveObjs_ fail |
| Linking.GuardSuffices | rts/Linker.c:1804-1816 | with the guard, success of the first loop leaves no object NEEDED |
| Linking.ResolveAllRuns | rts/Linker.c:1804-1829 | the main properties of resolveObjs_, of the model function |
| Linking.FinalizerRecorded | rts/Linker.c:915-920 | a lookup of __cxa_atexit by an object makes the owner of __cxa_finalize a dependency of it, whether or not that owner resolves |
| Lookups.LookupAnswers | rts/Linker.c:897-996 | the answer of every lookup, by an object or not: for a name of the table its address, unless its owner had to be loaded and could not be; for any other name that of the dynamic linker; the special names always have an address |
| Lookups.LoadAnswers | rts/Linker.c:1025-1051 | loadSymbol answers the address of the definition, which is fixed from then on, or NULL if the owner has to be loaded and stays NEEDED |
| Lookups.TryOffers | rts/Linker.c:1710-1721 | after ocTryLoad all symbols of the object are defined, and those that are not weak for good |
| Lookups.LookupCause | rts/Linker.c:897-996 | a lookup answers NULL only if the name has no address, or if an object that waits refers to a name that has none |
| Lookups.ResolveCause | rts/Linker.c:1804-1829 | resolveObjs_ fails only because of a name without an address or a failing initialiser |
| Lookups.InitialiseStops | rts/Linker.c:1785-1797 | the object whose initialisers fail stays resolved; those before it are ready and those after it as they were |
| Stranding.SafeExactly | rts/Linker.c:915-920 | resolveObjs_ leaves nothing half linked for all symbols, relocations and initialisers of the objects and all names known to the dynamic linker, if and only if the guard holds of the symbol table, the states and the order of objects |
| Stranding.Strands | rts/Linker.c:1804-1829 | without the guard there are symbols and relocations with which the call succeeds and an object is left NEEDED |
| Linker.OnDemandLinker.AlwaysListed | rts/Linker.c:1804-1829 | what that theorem takes for granted holds of every linker at rest |
| StrandedMember.Run | rts/Linker.c:915-920 | a concrete run: an archive member owns __cxa_finalize and refers to a missing symbol; resolveObjs succeeds, the wanted object is ready and depends on the member, which is NEEDED |
| HashArithmetic.MaskIsMod | rts/Hash.c:78-94 | masking with 2^n - 1 is the remainder modulo 2^n |
| HashArithmetic.MasksAddress | rts/Hash.c:78-94 | the two masks compute Larson's address, at every split |
| HashArithmetic.SplitMoves | rts/Hash.c:148-202 | one expansion moves keys only out of bucket split, and only to max + split, also when the table doubles |
| Hash.Directory.AllocSegment | rts/Hash.c:134-139 | the new segment is in the directory and the old ones stay |
| Hash.Directory.Set | rts/Hash.c:185-202 | writes one slot that is in use, or the first one that is not |
| Hash.HashTable.constructor | rts/Hash.c:536-559 | a new table is empty and well formed |
| Hash.HashTable.HashKey | rts/Hash.c:78-94 | the bucket is in use and is the one every entry with the key sits in |
| Hash.HashTable.AllocHashList | rts/Hash.c:285-315 | the cell was free; cells in chains plus free cells are HCHUNK times the chunks |
| Hash.HashTable.FreeHashList | rts/Hash.c:317-326 | the cell becomes the first free one |
| Hash.HashTable.Lookup | rts/Hash.c:204-225 | the data of some entry with the key, nothing exactly if there is none |
| Hash.HashTable.Find | rts/Hash.c:204-225 | the walk stops at the first cell of the chain that matches |
| Hash.HashTable.FirstMatchAt | rts/Hash.c:204-225 | the cell the walk stops at is the first matching entry of the list that the chain holds |
| Hash.HashTable.Insert | rts/Hash.c:328-355 | the bag of entries gets one more; every cell sits in the bucket its hash names; at most one bucket is added; kcount < HLOAD * bcount until the table is at its maximum |
| Hash.HashTable.Remove | rts/Hash.c:377-406 | one matching entry leaves the bag and its data is returned, nothing exactly if there is none |
| Hash.HashTable.Unlink | rts/Hash.c:377-406 | exactly the cell found leaves its chain |
| Hash.HashTable.Expand | rts/Hash.c:148-202 | the bag is unchanged; there is one more bucket unless the directory is full; no uninitialised slot is read |
| Hash.HashTable.SplitChain | rts/Hash.c:184-202 | the cells of one chain are dealt out to two by their hash, none lost |
| Hash.DealtBag | rts/Hash.c:184-202 | dealing out one bucket keeps the bag of the table |
| Hash.DropBag | rts/Hash.c:377-406 | taking an entry out of a list removes just it from the bag |
| Hash.HashTable.KeyCount | rts/Hash.c:561-564 | the number of entries |
| Hash.HashTable.IterHashTable | rts/Hash.c:510-529 | the backwards walk hands every entry to the function once, up to the first that stops it |
| Hash.HashTable.KeysHashTable | rts/Hash.c:252-276 | as many keys as fit, each entry's at most once |
| HashHistory.InsertIsMap | rts/Hash.c:328-355 | inserting a key that is not there updates the map that the bag stands for |
| HashHistory.RemoveIsMap | rts/Hash.c:377-406 | removing an entry removes its key from the map that the bag stands for |
| HashHistory.Apply | rts/Hash.c:204-406 | one operation answers as a map does |
| HashHistory.Replay | rts/Hash.c:204-406 | over every history that inserts no key twice, all answers are those of a finite map, whatever order the chains have |
| FileLock.FileLocking.constructor | rts/FileLock.c:52-60 | nothing is locked |
| FileLock.FileLocking.LockFile | rts/FileLock.c:78-113 | 0 exactly if the file is free, or is held by readers only and the request is to read; then the holder is added, otherwise nothing changes |
| FileLock.FileLocking.UnlockFile | rts/FileLock.c:115-145 | 1 exactly if the descriptor holds nothing; otherwise one of its holds ends, and with the last holder of a file its Lock leaves obj_hash |
| FileLock.FileLocking.CountDown | rts/FileLock.c:131-135 | readers gets closer to zero, and is zero exactly if no holder is left |
| FileLock.FileLocking.HolderMeans | rts/FileLock.c:122-130 | the entry found names the Lock of a file that the descriptor holds: none dangles |
| FileLock.ObjectsAdd | rts/FileLock.c:90-100 | a new Lock keeps obj_hash in step with the held files |
| FileLock.ObjectsLess | rts/FileLock.c:137-140 | removing the Lock of a file that is no longer held keeps obj_hash in step with the held files |
| FileLock.KeysFirst | rts/FileLock.c:90-100 | the first holder keeps key_hash in step with the holders |
| FileLock.KeysMore | rts/FileLock.c:101-112 | one more reader keeps key_hash in step with the holders |
| FileLock.KeysLess | rts/FileLock.c:131-145 | one holder less, if others are left, keeps key_hash in step with the holders |
| FileLock.KeysLast | rts/FileLock.c:131-145 | the last holder that goes, and its Lock with it, leaves no entry of key_hash dangling |
| CapabilityProtocol.StepKeeps | rts/Capability.c:514-934 | every step keeps owner, queues, spare stack and wakeups consistent |
| CapabilityProtocol.RunKeeps | rts/Capability.c:514-934 | every run of steps keeps owner, queues, spare stack and wakeups consistent |
| CapabilityProtocol.RunsAreSafe | rts/Capability.c:514-934 | in every reachable state: if a capability is free and tasks wait to return to it, the first has its wakeup flag set or is on its way to check; who believes to own a capability is its running_task; no two tasks own the same; queue members are distinct |
| CapabilityProtocol.HeadCanTake | rts/Capability.c:787-816 | that first task gets the capability by its own next steps, without a spurious wakeup |
| CapabilityProtocol.QueueIsFifo | rts/Capability.c:205-243 | a step appends to the returning queue, or takes its head, who becomes the owner |
| CapabilityProtocol.DispatchKeeps | rts/Capability.c:548-628 | whoever is first is told when a capability is handed on |
| CapabilityProtocol.HandOverTells | rts/Capability.c:548-628 | after releasing, yielding or prodding: the first returning task is told; without one and without a sync, the task of the bound thread that is next; without that, a new worker has the capability if there is no spare one, and the top spare worker is told if there is work; otherwise no flag changes and the capability is free |
| CapabilityProtocol.YieldWaits | rts/Capability.c:1009-1037 | where a task waits after its yield: a worker on top of the spare workers, unless there are six, when it exits; a bound task on its condition; any other task at the end of the returning queue |
| CapabilityProtocol.WorkerCanTake | rts/Capability.c:716-772 | a bound task or top spare worker that has been told takes the free capability by its own next two steps |
| CapabilityProtocol.WakeupPassedOn | rts/Capability.c:716-816 | a task that is woken out of turn passes the wakeup on to the one whose turn it is |
| CapabilityProtocol.StepsTake | rts/Capability.c:716-1138 | a wakeup is consumed by the task that was waiting; who finds a capability free has it |
| CapabilityProtocol.CheckReturnKeeps | rts/Capability.c:787-816 | waitForReturnCapability keeps the invariant, also when the wakeup came too late |
| CapabilityProtocol.CheckWorkerKeeps | rts/Capability.c:716-772 | waitForWorkerCapability keeps the invariant, also for migrated bound tasks and wakeups that came too late |
| CapabilityProtocol.ProdKeeps | rts/Messages.c:48-56 | prodCapability and the hand-off of sendMessage, which borrow an idle capability, keep the invariant |
| CapabilityProtocol.PlainYieldExact | rts/Capability.c:1028-1037 | the yield of a task that is neither worker nor bound loses no wakeup if and only if another task is queued or the release starts a worker |
| CapabilityProtocol.PlainYieldCanStrand | rts/Capability.c:1028-1037 | a run from the initial state after which such a yield strands the task |
| Capability.Capability.NewReturningTask | rts/Capability.c:205-222 | the task is last in the queue; the count is the length |
| Capability.Capability.PopReturningTask | rts/Capability.c:224-243 | the first task leaves the queue; the count is the length |
| Capability.Capability.GiveCapabilityToTask | rts/Capability.c:514-531 | the wakeup flag of the task is set, and stays set if it was |
| Capability.Capability.ReleaseCapability | rts/Capability.c:548-628 | the capability is free or a new worker has it; told is: the first returning task; without one nobody if a sync is pending, else the task of a bound thread that is next, else the top spare worker if there is work |
| Capability.Capability.EnqueueWorker | rts/Capability.c:646-674 | the worker is on top of the spare stack unless six are there already; then it stops |
| Capability.Capability.Enter | rts/Capability.c:891-934 | takes the capability exactly if it is free, otherwise queues |
| Capability.Capability.CheckReturn | rts/Capability.c:787-816 | takes it exactly if it is free and the task is first; if another is first, that one is told |
| Capability.Capability.CheckWorker | rts/Capability.c:716-772 | a worker or bound task takes the capability exactly if it is free, the task is still assigned to it, and it is bound or on top of the spare stack; if another worker is on top, that one is told |
| Capability.Capability.TryGrabCapability | rts/Capability.c:1120-1138 | takes it exactly if it is free |
| Capability.Capability.Prod | rts/Capability.c:1098-1107 | an idle capability is handed on, a busy one left alone |
| Capability.EnterAgrees | rts/Capability.c:891-934 | the protocol step of waitForCapability is this critical section |
| Capability.CheckReturnAgrees | rts/Capability.c:787-816 | the protocol step of waitForReturnCapability is this critical section |
| Capability.CheckWorkerAgrees | rts/Capability.c:716-772 | the protocol step of waitForWorkerCapability is this critical section |
| Stacks.ChunkEnds | rts/RaiseAsync.c:910-941 | every chunk but the last ends in an underflow frame for the next |
| Stacks.JoinSplit | rts/Continuation.c:463-507 | the stack of a chain of chunks is that of its first chunks followed by that of the others |
| Stacks.ChainStackOk | rts/Continuation.c:400-461 | joining a well-formed chain gives a well-formed stack |
| Stacks.SeenWhole | rts/Continuation.c:400-461 | a place in a chunk cuts the joined stack in two |
| Stacks.NextFrame | rts/Continuation.c:400-461 | moving past one frame of a chunk moves past exactly the words of that frame in the joined stack |
| Stacks.NextChunkSame | rts/Continuation.c:419-431 | going from an underflow frame to the next chunk does not move the place in the joined stack |
| Stacks.ReturnThroughAppend | rts/Continuation.c:159-346 | masking state is returned through two parts of a stack one after the other |
| Stacks.JoinReturned | rts/Threads.c:739-752 | taking the return values across the chunk boundary does not change the joined stack |
| Stacks.CopyReturnValues | rts/Threads.c:739-767 | the return values, in order, end up above what was on the next chunk |
| Stacks.StgTSO.ThreadStackUnderflow | rts/Threads.c:725-771 | the words above the underflow frame become return values on top of the next chunk and the stack as a whole is what it was, or they do not fit; the old chunk is empty and its size is taken off |
| Continuation.ScanFinds | rts/Continuation.c:400-461 | what the scan finds is a matching prompt |
| Continuation.ScanIsFirst | rts/Continuation.c:400-461 | no frame above the prompt that is found is a matching prompt, or may not be captured |
| Continuation.ScanMisses | rts/Continuation.c:400-461 | if it finds none, a frame that may not be captured is above every matching prompt |
| Continuation.Captures | rts/Continuation.c:400-461 | what the scan finds is a prompt with the tag, with no other one, nor any of the five kinds of frame that may not be captured, above it |
| Continuation.Refuses | rts/Continuation.c:433-446 | if the scan finds nothing, one of the five kinds of frame comes before every prompt with the tag |
| Continuation.FindPrompt | rts/Continuation.c:384-461 | the first pass finds what the scan of the joined stack finds, and its word counts are right |
| Continuation.PopStackChunk | rts/Continuation.c:355-361 | exactly the top chunk is given up |
| Continuation.CopyWholeChunks | rts/Continuation.c:478-498 | the second pass has copied what the first counted |
| Continuation.Unwind | rts/Continuation.c:478-502 | the copy is the words above the prompt, the thread has the words below it |
| Continuation.CaptureContinuationAndAbort | rts/Continuation.c:364-507 | not NULL: a matching prompt with no other above it, and no stop, update, atomically, catch-retry or catch-stm frame above it; the copy is all words above it, without underflow frames, across any number of chunks, with the mask frame for resuming, and exactly the words below are left. NULL: the thread is unchanged, and one of those five kinds of frame comes before every matching prompt |
| Continuation.LastMaskDecides | rts/Continuation.c:159-346 | the outermost mask frame alone decides the state after returning through all frames |
| Continuation.LastMaskReplaced | rts/Continuation.c:159-346 | replacing the outermost mask frame replaces the state after returning through all frames |
| Continuation.LastMaskAt | rts/Continuation.c:448-461 | the recorded frame is a mask frame of the captured words |
| Continuation.LastMaskIsLast | rts/Continuation.c:448-461 | no captured mask frame comes after the recorded one |
| Continuation.RecordsMask | rts/Continuation.c:448-461 | nothing is recorded if no captured frame restores a masking state; otherwise the outermost such frame, and the one that restores the state of the capture |
| Continuation.AbortRestoresPrompt | rts/ContinuationOps.cmm:91-160 | aborting restores the state that returning to the prompt would have |
| Continuation.ResumeRestoresBoth | rts/ContinuationOps.cmm:174-235 | resuming re-establishes the state of the capture exactly if the captured frames change it or it is the same, and returning restores the state of the resumer; all words but the mask frame are pushed as they were captured |
| Freezing.ThawUnder | rts/Apply.cmm:666-735 | entering an AP_STACK leaves what is below on the stack |
| Freezing.ThawWithin | rts/Apply.cmm:666-735 | entering an AP_STACK gives the same result in every heap that has the closures it is made of |
| Freezing.UpdatesSnoc | rts/RaiseAsync.c:857-908 | the update frames of a stack with one more frame are those before, and that one if it is an update frame |
| Freezing.RethreadSnoc | rts/RaiseAsync.c:857-908 | replacing the updatees of a stack with one more frame replaces those before, and the one of that frame |
| Freezing.ThawNew | rts/RaiseAsync.c:862-879 | a new AP_STACK thaws to what its parts thaw to |
| Freezing.PassFreezes | rts/RaiseAsync.c:1073-1087 | passing an ordinary frame adds it to what will be frozen with the next update frame |
| Freezing.PastUpdateFreezes | rts/RaiseAsync.c:857-908 | passing an update frame freezes it with all above it, and keeps what has been frozen recoverable |
| Freezing.AcrossChunkFreezes | rts/RaiseAsync.c:910-941 | passing an underflow frame freezes what is above it; only that frame is dropped |
| Freezing.PastAtomicallyFreezes | rts/RaiseAsync.c:987-1049 | passing an interrupted transaction replaces it by a call that runs it again |
| Freezing.FreezeThenThaw | rts/RaiseAsync.c:745-759 | freezing then thawing is the identity: entering the AP_STACK of an update frame, and what it enters in turn, rebuilds the words up to and including that frame in order, with the AP_STACKs in place of the updatees and without underflow frames, over any number of frames and chunks |
| Freezing.EveryUpdateIsRecorded | rts/RaiseAsync.c:857-908 | every update frame that was passed has its AP_STACK |
| Freezing.LinkedLast | rts/RaiseAsync.c:889-902 | an updatee points to the AP_STACK of the last frame that updates it |
| Freezing.LinkedOthers | rts/RaiseAsync.c:889-902 | other closures are not changed |
| RaiseAsync.HandlerRunsMasked | rts/RaiseAsync.c:951-985 | the handler runs masked, and returning from it gives back the state of the catch frame |
| RaiseAsync.HandlerApplied | rts/RaiseAsync.c:951-985 | the resumed thread enters the handler of the catch frame and applies it to the exception, masked; what was below the frame comes after, in the state it would have been returned to in |
| RaiseAsync.TopFacts | rts/RaiseAsync.c:816-827 | a thread that is about to enter a closure is frozen as that closure with the words under it, any other as a return to its top frame |
| RaiseAsync.NoHaltMeans | rts/RaiseAsync.c:829-1088 | no frame that has been passed is a stop frame, a catch frame for the exception, or the transaction to stop at |
| RaiseAsync.FreezeUpdate | rts/RaiseAsync.c:857-908 | the code for an update frame makes the AP_STACK, updates the thunk unless it is the one of stop_here, and leaves the AP_STACK as current closure |
| RaiseAsync.FreezeUnderflow | rts/RaiseAsync.c:910-941 | the code for an underflow frame makes an AP_STACK without update, and goes on with the next chunk |
| RaiseAsync.FreezeAtomically | rts/RaiseAsync.c:987-1049 | what is above the frame of the transaction is discarded together with it, and one new closure, which calls atomically on the same code, takes their place; no AP_STACK is made |
| RaiseAsync.PassAt | rts/RaiseAsync.c:1073-1087 | any other frame stays with those above it |
| RaiseAsync.Kill | rts/RaiseAsync.c:943-949 | at the stop frame nothing of the stack is left |
| RaiseAsync.ApplyHandler | rts/RaiseAsync.c:951-985 | the stack is an enter frame for the handler of the catch frame, the frame that applies it to the exception, an unmask frame exactly if the frames left the thread unmasked, and what was below the catch frame; the thread is masked |
| RaiseAsync.Condemn | rts/RaiseAsync.c:987-1004 | the transaction is condemned and gets a dummy result |
| RaiseAsync.Step | rts/RaiseAsync.c:829-1088 | each frame is passed, whichever it is, and the whole invariant kept |
| RaiseAsync.UnwoundSnoc | rts/RaiseAsync.c:1051-1087 | mask frames restore, transactions abort, in the order of the frames |
| RaiseAsync.RaiseAsync | rts/RaiseAsync.c:774-1088 | terminates on every well-formed chain; the heap has exactly the AP_STACKs of the frames passed; it stops at stop_here, or at the first frame that ends the unwinding, with masking state and transactions as after returning through what was passed |
| ThrowTo.StepKeeps | rts/RaiseAsync.c:231-611 | every step keeps the invariant, changes no message of another capability, and never raises an exception twice or after revocation |
| ThrowTo.RunKeeps | rts/RaiseAsync.c:231-611 | every run of steps keeps the invariant |
| ThrowTo.AtMostOnePlace | rts/Messages.c:67-126 | a message is in at most one inbox or blocked_exceptions queue, and there once |
| ThrowTo.NotYetRaised | rts/RaiseAsync.c:542-590 | one that can still be received has not been raised |
| ThrowTo.RaisedAtMostOnce | rts/RaiseAsync.c:542-611 | in every run each exception is raised at most once, and never after its message became MSG_NULL |
| ThrowTo.StaysRevoked | rts/Messages.h:25-37 | a revoked message stays revoked |
| ThrowTo.RaisedOnlyIfAllowed | rts/RaiseAsync.c:231-590 | an exception is only raised by the capability that owns the target, in a thread that is alive and unmasked, or interruptible and blocked in an operation that can be interrupted |
| ThrowTo.ThrowDecides | rts/RaiseAsync.c:231-490 | a dead target gets nothing, a remote one the message; a local one that runs, or is blocked on a black hole, has the exception raised if it is unmasked and the message queued if not; one in an interruptible operation unless it is masked uninterruptibly; one in a foreign call has it queued |
| ThrowTo.ThrowGoesOn | rts/RaiseAsync.c:231-490 | throwToMsg always has a step to take, except that it may wait for a lock |
| ThrowTo.ClaimDecides | rts/RaiseAsync.c:278-338 | a target blocked on its own message: if that was revoked the target is woken first; otherwise it is revoked now and the exception raised, unless the target is masked uninterruptibly |
| ThrowTo.PerformDecides | rts/RaiseAsync.c:542-590 | the first message of the queue is dropped if revoked, and otherwise its exception raised, after revoking the message the thread is blocked on |
| ThrowTo.PerformStarts | rts/RaiseAsync.c:563-566 | it starts exactly if the thread is unmasked, or interruptible in an interruptible operation |
| ThrowTo.AwakenDecides | rts/RaiseAsync.c:592-611 | messages to a dead thread are finished without being raised |
| ThrowTo.HeldWhileWaiting | rts/RaiseAsync.c:278-320 | what a capability has locked while it waits for another lock |
| ThrowTo.WaitsDownwards | rts/RaiseAsync.c:290-310 | a capability in the middle of a chain of waits spins from a greater to a smaller message address |
| ThrowTo.SourceWaits | rts/RaiseAsync.c:231-611 | throwTo blocks its source until the exception has been raised or the message revoked |
| ThrowTo.IdleCan | rts/RaiseAsync.c:186-228 | a running thread can start a throwTo; a message in the inbox can be received; a thread blocked on its message can be woken exactly if that has been finished or revoked |
| ThrowTo.NoRing | rts/RaiseAsync.c:290-310 | no ring of capabilities, each holding one message and waiting for the next, is reachable: the spin rule admits no deadlock |
| ThrowTo.NoDeadlock | rts/RaiseAsync.c:231-611 | as long as a capability is in the middle of sending, receiving or raising, it or one that it waits for, directly or not, can go on |
| Profiling.PushTruncates | rts/Profiling.c:532-603 | in a path without repetitions a push of what is there is a truncation |
| Profiling.PushDistinct | rts/Profiling.c:532-603 | a push keeps a path free of repetitions and puts the cost centre on top |
| Profiling.Profiler.constructor | rts/Profiling.c:148-223 | CCS_MAIN and CCS_OVERHEAD, in the memo table |
| Profiling.Profiler.CheckLoop | rts/Profiling.c:605-614 | finds the nearest ancestor with the cost centre, none exactly if the path does not have it |
| Profiling.Profiler.ActualPush | rts/Profiling.c:627-661 | a fresh stack, whose path is one longer, in the memo table of its parent |
| Profiling.IsInIndexTable | rts/Profiling.c:663-677 | finds exactly what the memo table holds, which is what an unmemoised push gives |
| Profiling.Profiler.AddBackEdge | rts/Profiling.c:574-593 | a back edge keeps the memo tables right |
| Profiling.Profiler.Register | rts/Profiling.c:209-224 | a registered stack is a child of CCS_MAIN and its own root |
| Profiling.Profiler.PushCostCentre | rts/Profiling.c:532-603 | the path of the result is the unmemoised push, whichever way it was found; the memo table of the stack has the result, and all memo tables stay right |
| Profiling.Profiler.PathDetermines | rts/Profiling.c:532-603 | equal paths are equal pointers |
| Profiling.Profiler.AppendCCS | rts/Profiling.c:505-526 | pushes the cost centres after the last CAF of the second stack, one by one |
| Profiling.AppendItself | rts/Profiling.c:516-518 | the shortcut for a stack appended to itself gives what appending it would |
| Profiling.OwnPartWhole | rts/Profiling.c:520-525 | all but CCS_MAIN is appended if and only if there is no CAF |
| Profiling.OwnPartAt | rts/Profiling.c:505-530 | what is appended is what comes after the last CAF, or after CCS_MAIN |
| Profiling.DropLast | rts/Profiling.c:380-396 | how dropCommonPrefix recurses over two stacks of the same depth |
| Profiling.DropTake | rts/Profiling.c:436-446 | only as many cost centres of the deeper stack count as the other is deep |
| Profiling.DropIsSuffix | rts/Profiling.c:355-378 | dropCommonPrefix is what remains of the second stack after the longest common prefix |
| Profiling.Profiler.EnterFunEqualStacks | rts/Profiling.c:380-396 | the equation for equally deep stacks |
| Profiling.Profiler.EnterFunCurShorter | rts/Profiling.c:398-409 | the equation when the function stack is deeper |
| Profiling.Profiler.EnterFunCCS | rts/Profiling.c:411-457 | ccs ++> ccsfn = ccs ++ dropCommonPrefix ccs ccsfn in every same-root case, with the recursion-truncating push; for different roots the own part of ccsfn is appended; entering a CAF changes nothing |
| Profiling.DifferentRoots | rts/Profiling.c:428-434 | stacks with different roots have only CCS_MAIN in common |
| Profiling.SharedRoot | rts/Profiling.c:428-456 | stacks that have more than CCS_MAIN in common have the same root |
| ProfHeap.LdvProfile.constructor | rts/ProfHeap.c:321-343 | the first era, nothing counted |
| ProfHeap.LdvProfile.Create | rts/include/rts/prof/LDV.h:35-37 | a closure is created in the current era; no counter changes meaning |
| ProfHeap.LdvProfile.Use | compiler/GHC/StgToCmm/Prof.hs:365-382 | the closure with this id, and no other, is last used in the current era; its birth stays and no counter changes |
| ProfHeap.LdvProfile.RecordDead | rts/ProfHeap.c:249-313 | adds the difference steps of exactly one life to every era |
| ProfHeap.LdvProfile.Die | rts/LdvProfile.c:62-168 | the closure dies in this era, and is counted unless inherently used |
| ProfHeap.DeathCounted | rts/ProfHeap.c:249-313 | after a death the void and drag counters are still the sums of the steps of all lives |
| ProfHeap.UseKeeps | rts/ProfHeap.c:249-313 | a use does not change what has been counted |
| ProfHeap.WeightMeans | rts/ProfHeap.c:249-313 | in which censuses a closure counts as void, as dragging, as not used and as used |
| ProfHeap.LdvProfile.HeapCensus | rts/ProfHeap.c:1287-1340 | every closure of the heap goes to one counter of the era, whatever the order, and the next era begins unless it is the last |
| ProfHeap.CensusTaken | rts/ProfHeap.c:1001-1032 | after a census the counters of its era are the sums over the closures alive, by whether they have been used |
| ProfHeap.LdvProfile.NextEra | rts/ProfHeap.c:356-386 | the next era is empty; the array is doubled when full |
| ProfHeap.LdvProfile.Reallocate | rts/ProfHeap.c:376-381 | twice the length, the same censuses |
| ProfHeap.LdvProfile.KillAll | rts/LdvProfile.c:239-244 | every closure left dies in the last era |
| ProfHeap.TotalAdvances | rts/ProfHeap.c:744-775 | the running sum of the steps is the total of the era |
| ProfHeap.LdvProfile.AggregateCensusInfo | rts/ProfHeap.c:744-775 | for every trace of creations, uses, deaths and censuses: void_total of era t is the size of all created by t, never used and dead after t; drag_total that of all last used before t and dead after t |
| ProfHeap.VoidIsNotUsed | rts/ProfHeap.c:765-772 | in every era void_total <= not_used and drag_total <= used |
| ProfHeap.StepsAreBounded | rts/ProfHeap.c:262-293 | during the run, too, the void and drag counters of an earlier era do not exceed not_used and used |
| RetainerSets.InsertIncreasing | rts/RetainerSet.c:123-192 | the new elements are increasing and are the old ones and the new |
| RetainerSets.IncreasingUnique | rts/RetainerSet.c:141-146 | an increasing sequence is determined by its elements |
| RetainerSets.KeyInsert | rts/RetainerSet.h:144-145 | the additive key does not depend on the order of insertion |
| RetainerSets.RetainerSets.constructor | rts/RetainerSet.c:64-74 | no sets |
| RetainerSets.RetainerSets.IsMember | rts/RetainerSet.h:88-115 | both searches decide membership; everything is a member of rs_MANY |
| RetainerSets.RetainerSets.Singleton | rts/RetainerSet.c:88-110 | the one set with just this element |
| RetainerSets.RetainerSets.IsAdded | rts/RetainerSet.c:152-166 | the comparison with a stored set succeeds exactly if it is the set with the element added |
| RetainerSets.RetainerSets.CopyAdded | rts/RetainerSet.c:180-186 | the elements of the new set are the old ones with the new one in its place |
| RetainerSets.RetainerSets.AddElement | rts/RetainerSet.c:123-192 | the one stored set with one more element, rs_MANY exactly at the bound; no two stored sets have the same elements |
| RetainerSets.Associate | rts/RetainerSet.c:123-192 | folding over retainers in any order gives the set of them, rs_MANY exactly when there are too many |
| RetainerSets.SameSetSamePointer | rts/RetainerSet.c:123-192 | objects with the same set of retainers get the same pointer |
| Interpreter.InterpState.Shuffle | rts/Interpreter.c:818-825 | the arguments move down over the info word, and the gap gets the one for those that are left |
| Interpreter.InterpState.Slide | rts/Interpreter.c:1619-1629 | the overlapping move drops exactly the words under the top ones |
| Interpreter.InterpState.MakePap | rts/Interpreter.c:849-866 | the PAP has the old arguments and the new, in order |
| Interpreter.InterpState.DoApply | rts/Interpreter.c:781-911 | a BCO or PAP with enough arguments runs with exactly its arguments on top, the others under the right stg_ap frame and the rest untouched; with too few a PAP is returned; the stack overflows exactly if a PAP does not fit |
| Interpreter.InterpState.Apply | rts/Interpreter.c:781-911 | applied to frame after frame, through intermediate PAPs, a function ends up running with exactly its arguments, or in a PAP with all of them |
| Interpreter.Surplus | rts/Interpreter.c:818-825 | what is left of a frame is again a frame of the remaining arguments |
| Interpreter.GroupingDoesNotMatter | rts/Interpreter.c:781-911 | two groupings of the same arguments run the same code on the same words, or return PAPs of the same code and arguments |
| Interpreter.InterpState.AllocUnfilled | rts/Interpreter.c:1631-1668 | a new unfilled closure on top of the stack |
| Interpreter.InterpState.Fill | rts/Interpreter.c:1672-1718 | the closure gets the function and the arguments on top of the stack in order |
| Interpreter.InterpState.EvalAp | rts/Interpreter.c:509-551 | the code runs with its arguments on top of an update frame, or the stack overflows, exactly if they do not fit |
| Hpc.NumberDecimal | rts/Hpc.c:98-105 | reading inverts printing for every 64-bit number |
| Hpc.NamePrinted | rts/Hpc.c:83-96 | a printed name is read back exactly if it has no quotation mark and fits the buffer |
| Hpc.ModulePrinted | rts/Hpc.c:121-153 | a printed module is read back exactly if its name is readable |
| Hpc.TixRoundTrip | rts/Hpc.c:318-365 | reading (lines 107-188) what writeTix printed gives the same modules, ticks and hash numbers if and only if every name has no quotation mark and at most 255 characters |
| Hpc.QuotedNameIsLost | rts/Hpc.c:83-96 | a module whose name has a quotation mark in it does not come back |
| Hpc.TixExample | rts/Hpc.c:318-365 | the format, by example |
| Hpc.ModuleShape | rts/Hpc.c:121-153 | whatever is accepted as a module is one: its name in quotation marks, its hash number, how many ticks it has, and that many ticks in brackets |
| Hpc.MergeMeans | rts/Hpc.c:155-179 | another version of a registered module is refused, and nothing but the counts of the module changes |
| Hpc.WriteTix | rts/Hpc.c:318-365 | the file is the text of all modules in order, with commas and blanks as the source prints them |
| Hpc.TixFile.ExpectString | rts/Hpc.c:83-96 | reads a string exactly as the model parser does, and fails where it fails |
| Hpc.TixFile.ExpectWord64 | rts/Hpc.c:98-105 | reads all digits that come, modulo 2^64; no digits are 0 |
| Hpc.TixFile.ReadTix | rts/Hpc.c:107-188 | reads the whole file as the model parser does and merges all modules into the table, or fails where that fails |
| Hpc.MergeRestores | rts/Hpc.c:155-179 | every module read sets the counts of the registered one; others are not touched |
| Hpc.CountsComeBack | rts/Hpc.c:107-188 | reading what an earlier run wrote sets the counts of all its modules as they were |
| ProfilerReportJson.EscapedSize | rts/ProfilerReportJson.c:21-94 | the result is one more than the length of the escaped text, for the terminator |
| ProfilerReportJson.PrintHex | rts/ProfilerReportJson.c:173-179 | sprintf writes six bytes, the last of them the terminator, and nothing before them changes |
| ProfilerReportJson.EscapeString | rts/ProfilerReportJson.c:96-192 | the buffer is filled exactly, every write including that of sprintf is inside it, and decoding it by section 7 of RFC 8259 gives the input |
| ProfilerReportJson.DecodeEscape | rts/ProfilerReportJson.c:96-192 | escaping is inverted by decoding, so it leaves no raw quotation mark, control character or unpaired reverse solidus |
| ProfilerReportJson.DecodeStrict | rts/ProfilerReportJson.c:96-192 | what decodes has no control character, and no quotation mark that is not after a reverse solidus |
| ProfilerReportJson.EscapeForms | rts/ProfilerReportJson.c:96-192 | the seven short escapes, and what stays as it is |
| ProfilerReportJson.EscapeInjective | rts/ProfilerReportJson.c:96-192 | different labels have different escaped texts |

## Left out

Weaker than the source:

- ThrowTo.StepKeeps: a thread blocked on an MVar or in STM is one reason, interruptible, checked in one step, because the retry
  after locking an MVar that the thread has left only repeats the step; MSG_TRY_WAKEUP is a step that may wake such a thread at
  any time, so that wakeups arrive is not claimed; a NULL source is left out, since `throwTo` is only called with a thread.
- ThrowTo.NoRing: about message locks only; locks on MVars are taken and given back within one step.
- RaiseAsync.RaiseAsync: needs three free words in each chunk (the runtime keeps 21 in reserve); does not model the removal of
  the thread from queues, its wakeup at the end, dirty marks, and waking what is blocked on an updated thunk.
- Profiling.Profiler.Register: only for a cost centre that CCS_MAIN has no child for yet. The code would make a second stack
  with the same path; a registered stack is that of a CAF, whose cost centre has no other stack under CCS_MAIN.
- Profiling.Profiler.PushCostCentre: sequential; the check that is repeated under the lock is left out, and so is the case of
  a stack that is `EMPTY_STACK`.
- ProfHeap.LdvProfile.HeapCensus: the biographical counters only; counters by identity, and closures selected by name, are left out.
- RetainerSets.Associate: stands for the guarded calls of the retainer profiler; in which order it finds retainers is not
  modelled, and every order is covered.
- Hpc.TixFile.ReadTix: a string without an end, or with more than 255 characters, and a file with more ticks than the
  registered module are failures; the C code has no defined behaviour for them.
- Linker.OnDemandLinker.LoadObj: the file, and on which symbol entering it fails, are parameters; a file that is an archive is
  not looked into, but archive members are objects like any other.
- Linker.OnDemandLinker.ResolveObjs: relocation is a loop of lookups that fails on NULL; relocating, mapping memory and
  `OBJECT_DONT_RESOLVE` are left out.
- ProfilerReportJson.DecodeEscape: the decoder reads `\u` escapes of ASCII characters only, which are the ones that occur.

Not modelled:

- Parsing of ELF, PE and Mach-O, the Windows lookup of symbols, dynamic libraries, native objects and finalizers of objects.
- `DYNAMIC_OBJECT` ranges and zero-length sections in the section table.
- Weak memory ordering: critical sections, exchanges and compare-and-swaps are single steps.
- Spurious wakeups are allowed, but that the operating system wakes a waiting task eventually is not claimed.
- Workers that the operating system has killed, shutdown, garbage collection workers, sparks and I/O managers.
- The choice of a capability by `find_capability_for_task`; it is a parameter.
- Integers are unbounded, except where words are masked or numbers printed: counters do not overflow.
- `freeHashTable`, the hash function for strings, and debug assertions.
- Parallel marking of object code, which exchanges mark bits atomically.
- Time and allocation counters of cost-centre stacks, `ccsSetSelected`, and the printing of reports.
- The layout of the LDV word, and closures without a profiling header.
- Other byte codes, tagging, allocation failure and compiled functions in the interpreter; an application of a compiled
  function is deferred with the stack unchanged.
- Environment variables, the `fork` check and `hs_hpc_module` in `rts/Hpc.c`; the rest of the JSON report.
