# A verified model of RedPlanet's time travel and privileged hart

RedPlanet is a RISC-V simulator that can run backwards. This project models the parts that make that possible, and the
privileged hart they carry, and proves what they promise.

* **The snapshot store** (`Slab`, `Table`, `RadixTree`, `Room`, `Balance`, `Sharing`, `ArrayStorage`, `ArrayReads`,
  `ArrayPaths`, `ArrayDrops`, `ArrayFill`, `Instance`, `Storage`, `Head`, `Need`, `Leak`, `SpaceTime`, `StoreLaws`,
  `Accessor`). Reference-counted slabs with an intrusive list of empty slots lie under paged arrays; the arrays are 64-way radix trees of any number of layers, whose pages are shared between
  positions, arrays and snapshots. The slabs are objects that are changed in place. `Sound` says that every live pointer
  names a filled slot whose count is at least its number of live copies; a multiset of live pointers is carried along as
  ghost state. `SpaceTimes.SpaceTime.model` is the timeline of plain contents that the allocator stands for, and every
  method changes it as `Commands.Step` says. `History` runs whole command sequences and proves snapshot isolation. `StoreLaws` says the same of
  reads after writes, without the timeline.
* **The simulator** (`Timeline`, `Simulator`, `Replay`, `Backing`). Undo, redo, jumps and reverse search by sparse snapshots and
  replay. The specification is one log of steps; the state is the fold of a prefix of it. The allocator below it is the
  `Timeline` that the snapshot store was proved to implement; `Backing` puts the two together.
* **The hart** (`Words`, `Status`, `Interrupts`, `Trap`, `Hart`, `HartProperties`, `HartLaws`, `Core`, `Departures`).
  Traps, returns, interrupts, register accesses and decoded instructions as a state machine; `Core` is the object that
  goes through its states, and `HartLaws` says what each of them does to the registers, by their numbers and bits. A memory access answers and also says what devices did with their interrupt lines meanwhile.
* **Memory and devices** (`Mmu`, `AddressMap`, `Board`, `Plic`, `Clint`, `Machine`). The Sv32 walk, the address map, the
  loader, the interrupt controller and the timer, the last two also together with the hart.

Reference counts and slot numbers are stored in 31 bits, and the code does not check all of them: a count of 2^31 would
read as an empty slot. No operation of the store asks its caller for room. It answers `Overflow`, and goes no further, at
the very step at which a count or the length of a slab is at its limit and would have to grow, as inserting an array with
2^31 top-level pages always does. What an operation needs can be read off the state before it (`Need`, `Sharing`): a slot
for a new object or for one that is shared, one page in each table for a new array, one page for each shared page that a
write meets and nothing for a page that has one owner, and references for the entries of these pages and for the snapshot
that a checked-out HEAD is copied from. If every slab has that room before the operation (`Needs.Fits`), its answer is
`Done`, and it takes no more than that (`Needs.Took`). So a run of the allocator is a run of the plain timeline, in whole
or up to the first command that does not fit the state it has reached. How much a whole run can take is also bounded by
the plain timeline alone (`Needs.RunSlots`, `Needs.RunRefs`): from a new allocator, a run within 2^31 - 1 items a slab and
less than 2^31 - 1 references an item is carried out in whole.

References are conserved. `Leaks.Leak` is the sum of all counts, less the pointers in pages, in snapshots and in HEAD; it
is zero exactly when every count is the number of pointers to its slot, so that nothing is kept that nothing points to
(`Leaks.NothingLeaked`). Every operation says by how much it changes it: not at all, apart from two places where the code
forgets pointers. So what a whole run leaks can be told from the plain timeline (`Leaks.RunLeaks`).

Where the code departs from what it is for, the code was kept, and a lemma says exactly when it does the right thing:

| member | departure |
|---|---|
| `Leaks.LeakByCommand`, `Leaks.LeaksNothing`, `Leaks.DirtySnapshotLeaks` | making a snapshot forgets the pointers of a dirty HEAD, and giving up an array forgets the pointer to the page it is reset to: their counts never come down again |
| `Simulators.Simulator.ClearForwardHistory`, `Replays.ClearAfterCustomStep` | clearing the forward history on its own right after a custom step drops the tick of that step |
| `Statuses.MstatusIsMaskedExactly`, `Statuses.SstatusIsMaskedExactly`, `Statuses.EnableCannotBeCleared` | a write of mstatus or sstatus looks at the value to see which fields to write, so it cannot clear single bits, nor a pair of bits as a whole |
| `HartProperties.ScauseAfterTrap`, `Departures.ScauseIsWrong` | scause is read from the last trap into machine mode |
| `HartProperties.InterruptsAsPrescribed`, `Departures.DelegatedInterruptIsTaken` | machine mode takes delegated interrupts |
| `HartProperties.PreciseExceptions`, `Departures.RefusedWriteHasRead`, `Departures.FailedStoreHasCleared`, `Departures.FailedLoadHasRaised` | a refused write of a read-only register, a failed store-conditional, and an access that fails after devices reacted to it, have already changed something |
| `HartProperties.ConfinedBelowMachine`, `Departures.SenvcfgChangesMenvcfg`, `Departures.StoreLowersTimer` | senvcfg names menvcfg, and device registers are open to every privilege level |
| `InterruptRegisters.SupervisorWritesAreConfined`, `Departures.SipReachesUndelegated` | sip can change the software interrupt when it is not delegated |
| `HartProperties.HandlerIsInTable` | the handler address of a vectored interrupt wraps around at the end of the address space, where a checked build would panic |
| `Mmus.SuperpageTranslation`, `Mmus.SuperpageIsMisplaced` | superpages take the wrong part of the virtual page number |
| `Mmus.DirtyBitLost`, `Mmus.ReadCleansPage` | a read can clear the dirty bit |
| `Plics.Drive` | no aligned access can enable a source, so the external interrupt line is never raised |
| `Clints.WordWriteClears` | storing half of mtime or mtimecmp clears all of it |
| `Clints.RegistersByAddress` | red-planet-core/src/core/clint.rs:70-119 | what stores, ticks and restarts make of mtime and mtimecmp, by address |
| `Clints.WordsByAddress` | red-planet-core/src/core/clint.rs:87-98 | which half of which register a 4-byte read answers, by address |
| `Clints.LineAfter`, `Clints.NeverMoved`, `Machines.TimerNeverPending` | the timer interrupt is not pending in the beginning, although mtimecmp is not above mtime, and never becomes so before mtimecmp is written by 8 bytes at once |
| `Clints.LongReadIsSwapped`, `Clints.TimeIsSwapped` | an 8-byte read of the timer, and so the time and timeh registers, have the halves the wrong way round |

## Model

| member | source | states |
|---|---|---|
| `Slabs.NextEmptyIsFree` | space-time/src/table.rs:103-118 | the slab grows exactly when no slot is empty; otherwise the next slot to be filled is an empty one |
| `Slabs.AddItemKeeps` | space-time/src/table.rs:103-118 | an added item gets a slot that was not filled, with count 1; all other slots and the chain of empty slots stay in order |
| `Slabs.RemoveRefKeeps` | space-time/src/table.rs:144-161 | giving up a reference frees a slot exactly when it was the last, the freed slot joins the chain, and no other slot is touched |
| `Slabs.AddRefKeeps` | space-time/src/table.rs:230-233 | a further reference changes no item and keeps the chain of empty slots |
| `Slabs.ShadowKeeps` | space-time/src/table.rs:205-216 | duplicating a shared item moves one owner to a fresh slot with count 1, and every old slot reads as before |
| `Slabs.SoleOwner` | space-time/src/table.rs:190-198 | a count of 1 means that no other live pointer names the slot |
| `Tables.Table.AddItem` | space-time/src/table.rs:103-118 | the metadata words and the item vector change as the slab does; overflows exactly when no slot is empty and the length is at its limit |
| `Tables.Table.IsUniqueTablePtr` | space-time/src/table.rs:235-242 | true exactly for a filled slot with one reference |
| `Tables.Table.CloneTablePtr` | space-time/src/table.rs:230-233 | adds one reference to the slot, and nothing else; overflows exactly when the count is at its limit |
| `Tables.Table.PopItem` | space-time/src/table.rs:144-161 | gives up one reference and answers the item exactly when it was the last |
| `Tables.Table.CloneItem` | space-time/src/table.rs:130-140 | the new pointer names a duplicate with one owner, the old slot loses one; overflows exactly when there is no slot for it |
| `Tables.Table.SetItem` | space-time/src/table.rs:191-198 | a write through the reference of a sole owner changes that slot only |
| `Balances.BalanceIsExact` | space-time/src/table.rs:144-161 | a tree has at least as many references as there are pointers to it, and just as many if and only if every count is the number of pointers to its slot, so that no page is kept that nothing points to |
| `RadixTree.LiveReads` | space-time/src/array_storage.rs:92-110 | following a live pointer never meets an empty slot, and reads something exactly at the positions below the page |
| `RadixTree.Compose` | space-time/src/array_storage.rs:301-321 | consecutive writes to one tree are one write of the joined buffers |
| `RadixTree.WriteEntry` | space-time/src/array_storage.rs:299-321 | writing below one entry of an owned page changes exactly the positions of that entry, and the count stays sound |
| `Chunks.Cut` | space-time/src/array_storage.rs:301-311 | the cuts of a run into pages follow each other without gap or overlap, from its first position to its last |
| `ArrayStorages.CloneArrayItem` | space-time/src/array_storage.rs:283-297 | duplicating a shared page adds a reference to each of its 64 children; every pointer reads as before, and nothing becomes more shared for those who write through other pointers; done if each table has room for a page |
| `ArrayStorages.WriteImpl` | space-time/src/array_storage.rs:267-336 | for any number of layers and any buffer, exactly the positions of the buffer below the given pointer change; what all other live pointers read does not; done if there is room for the shared pages on the way, and takes no more |
| `ArrayStorages.WriteDir` | space-time/src/array_storage.rs:282-321 | the same for one page of page-table entries, entry after entry, each write leaving the entries to come no more shared than they were |
| `ArrayStorages.CloneAll` | space-time/src/array_storage.rs:283-297 | adds one reference for each of the given pointers, and is done exactly when all of them fit |
| `Rooms.FitsHasSlot` | space-time/src/table.rs:103-118 | a slab that is not full of items takes another one, in an empty slot or at its end |
| `Sharings.TouchedIsAcross` | space-time/src/array_storage.rs:299-321 | the pages that the recursion over the layers meets are as many as hold part of the run, counted by division for each page size |
| `Sharings.SharedCut` | space-time/src/array_storage.rs:299-321 | what a run has to duplicate is what it has to duplicate below the entry it starts in, and then below the entries after it |
| `Sharings.ShadowNodeTame` | space-time/src/array_storage.rs:283-297 | duplicating a shared page makes no page more shared for the holder of any other pointer |
| `Sharings.WriteEntryTame` | space-time/src/array_storage.rs:299-321 | nor does a write below one entry of an owned page |
| `Sharings.SharedPage` | space-time/src/array_storage.rs:283-297 | a shared page costs one page more than its entries do once they are shared by the copy |
| `ArrayPaths.Set` | space-time/src/array_storage.rs:224-264 | the path to one item is made private level by level, the item is written, and no other position or pointer reads differently; done if there is room for the shared pages of the path |
| `ArrayReads.Get` | space-time/src/array_storage.rs:92-110 | the walk down the layers answers what the tree reads as at that position |
| `ArrayReads.ReadImpl` | space-time/src/array_storage.rs:112-159 | fills exactly the asked part of the buffer with the items from a position on, across pages |
| `ArrayReads.IterRangeReads` | space-time/src/array_storage.rs:167-211 | the chained iterators of one tree yield exactly its items in the range, in order |
| `ArrayDrops.DropTablePtr` | space-time/src/array_storage.rs:361-395 | the worklist releases every pointer of every freed page exactly once, frees a page only when all its references are released, and leaves everything reachable from other live pointers as it was; of all references, exactly the given one and those of the freed pages are given up |
| `ArrayDrops.PopDirs` | space-time/src/array_storage.rs:372-384 | one level of the worklist: counts drop by exactly the number of pointers given up, and the freed pages are handed on |
| `ArrayDrops.PopData` | space-time/src/array_storage.rs:386-389 | the last level of the worklist, on the data pages |
| `ArrayDrops.ReleasedKeeps` | space-time/src/array_storage.rs:361-395 | releasing pointers keeps the counts sound and what the remaining live pointers read |
| `ArrayDrops.ReleasedGrew` | space-time/src/array_storage.rs:361-395 | releasing pointers takes no slot and no reference in any table |
| `ArrayDrops.ReleasedBalance` | space-time/src/array_storage.rs:372-400 | dropping pointers gives up just as many references, and every page that is freed gives up those that it held |
| `ArrayFill.AddTopLevelPage` | space-time/src/array_storage.rs:44-60 | the new tree reads the given value at every position, with one page per layer; all else reads as before; done if every table has room for a page |
| `ArrayFill.AddPageAbove` | space-time/src/table.rs:180-188 | 64 references to a page replace the original one and fill a page above it; done exactly when there is a slot and these references fit |
| `Instances.ArrayStorage.constructor` | space-time/src/array_storage.rs:32-42 | an empty storage with any number of layers is sound and holds nothing |
| `Instances.ArrayStorage.NewInstance` | space-time/src/array_storage.rs:64-79 | the new array has the given size and reads the given value everywhere; other live pointers read as before; exactly its own references are made; done if there is room for a page in each table and a reference for each page, and always an overflow for 2^31 - 1 pages or more |
| `Instances.ArrayStorage.CloneInstance` | space-time/src/array_storage.rs:405-416 | the copy shares all pages, and nothing reads differently; done exactly when all these references fit |
| `Instances.ArrayStorage.DropInstance` | space-time/src/array_storage.rs:418-422 | giving up an array gives up one reference for each of its pages, with those of all pages that are freed, but none for its reset page; everything else stays readable as before |
| `Instances.ArrayStorage.Get` | space-time/src/array_storage.rs:438-449 | answers the item at an index in bounds, and nothing otherwise |
| `Instances.ArrayStorage.Set` | space-time/src/array_storage.rs:452-463 | writes exactly one item of this array, and refuses an index out of bounds; no reference is lost; done if there is room for the shared pages on the way |
| `Instances.ArrayStorage.Read` | space-time/src/array_storage.rs:465-499 | succeeds exactly for a range in bounds, then holds the items of the range; otherwise leaves the buffer alone |
| `Instances.ArrayStorage.Write` | space-time/src/array_storage.rs:501-535 | succeeds exactly for a range in bounds, and then changes exactly these items of this array, even where positions share a page; no reference is lost; done if there is room for the shared pages that the range meets, and takes no more |
| `Instances.ArrayStorage.Reset` | space-time/src/array_storage.rs:572-579 | every item is again the value the array was created with, and no reference is lost; done if a reference fits for each page that differs from the first |
| `Instances.ArrayStorage.IterRangeYields` | space-time/src/array_storage.rs:537-570 | yields the items of the range in order, exactly when it is in bounds, as single reads do |
| `Storages.Storage.CloneSnapshot` | space-time/src/lib.rs:32-63 | a copy of a snapshot shares every object and page, every pointer being accounted for; done exactly when all these references fit |
| `Storages.Storage.DeleteSnapshot` | space-time/src/lib.rs:65-86 | gives up one reference for each pointer of one snapshot but those to reset pages; what others hold reads as before, and no room is taken |
| `Storages.WriteObject` | space-time/src/lib.rs:431-438 | writing a shared object duplicates it first, so no other owner sees the write; done exactly when it has one owner or there is a slot |
| `Storages.ReplaceSlot` | space-time/src/lib.rs:88-97 | when one owner's pointers change, all other snapshots stand for the same contents |
| `SpaceTimes.SpaceTime.constructor` | space-time/src/lib.rs:237-239 | a new allocator is empty, its HEAD is dirty, it has no snapshots, all the room there is, and nothing leaked |
| `SpaceTimes.SpaceTime.GetHeadMut` | space-time/src/lib.rs:116-137 | a checked-out HEAD becomes a dirty copy with the same contents before it is changed; done if the references of the copy fit, and always for a dirty HEAD |
| `SpaceTimes.SpaceTime.MakeSnapshot` | space-time/src/lib.rs:139-149 | adds a snapshot with the contents of HEAD and checks it out, all else staying as it was; leaks the pointers of a dirty HEAD and nothing else; done if the references of the copy fit |
| `SpaceTimes.SpaceTime.DropSnapshot` | space-time/src/lib.rs:151-170 | removes exactly that snapshot, and fails when there is none; HEAD and all other snapshots keep their contents; gives up all its pointers, unless HEAD takes them over, but for one of each array |
| `SpaceTimes.SpaceTime.Checkout` | space-time/src/lib.rs:182-203 | HEAD gets the contents of the snapshot; fails when there is none; gives up the pointers of a dirty HEAD but for one of each array |
| `SpaceTimes.SpaceTime.Insert` | space-time/src/lib.rs:296-305 | appends an object to HEAD and answers its id, all else staying as it was; done if there is a slot and HEAD can be copied |
| `SpaceTimes.SpaceTime.InsertArray` | space-time/src/lib.rs:307-316 | appends an array of the given size to HEAD, all of whose items are the given one, and answers its id, all else staying as it was; done if the state before has room for its pages, and always an overflow for 2^31 - 1 top-level pages or more |
| `SpaceTimes.SpaceTime.Get` | space-time/src/lib.rs:378-393 | answers the object with that id in HEAD, or that the id is invalid |
| `SpaceTimes.SpaceTime.SetObject` | space-time/src/lib.rs:418-440 | exactly that object of HEAD becomes the given one; an invalid id is reported, HEAD being dirty nevertheless; always done for an object of a dirty HEAD that has one owner |
| `SpaceTimes.SpaceTime.SetItem` | space-time/src/lib.rs:558-560 | exactly that item of that array of HEAD becomes the given one, or nothing when out of bounds; done if the state before has room for the shared pages on the way |
| `SpaceTimes.SpaceTime.WriteItems` | space-time/src/lib.rs:562-564 | item j of that array of HEAD becomes item j - index of the buffer for each j in the range, and all other items, the fill, the size, all other arrays and objects and all snapshots are as before; nothing changes when out of bounds; done if the state before has room for the shared pages that the range meets |
| `SpaceTimes.SpaceTime.ResetArray` | space-time/src/lib.rs:566-569 | every item of the array of HEAD is its fill again, all else being as before; done if a reference fits for each page that differs from the first |
| `SpaceTimes.SpaceTime.GetItem` | space-time/src/lib.rs:477-479 | answers one item of an array of HEAD |
| `SpaceTimes.SpaceTime.ReadItems` | space-time/src/lib.rs:485-487 | copies a range of an array of HEAD, or leaves the buffer alone |
| `Accessors.IterRangeYields` | space-time/src/lib.rs:489-504 | a range yields the items between its bounds; it fails exactly when it starts after its end, ends after the array, or is inclusive and empty |
| `StoreLaws.WriteThenGet` | space-time/src/lib.rs:477-564 | an item reads as the buffer has it after a range write that covers it, and any other item as before; the write is refused exactly when its last item cannot be read |
| `StoreLaws.WriteThenRead` | space-time/src/lib.rs:485-564 | a range reads back exactly as it was written |
| `StoreLaws.SetThenGet` | space-time/src/lib.rs:477-560 | an item reads as it was set, and any other as before; setting it is refused exactly when it cannot be read |
| `StoreLaws.SetObjectThenGet` | space-time/src/lib.rs:378-440 | an object reads as it was set, and any other as before; setting it is refused exactly when it cannot be read |
| `StoreLaws.InsertThenGet` | space-time/src/lib.rs:296-393 | a new object reads as it was inserted under an id that was invalid before; any other reads as before |
| `StoreLaws.CreateThenGet` | space-time/src/lib.rs:307-479 | a new array has the given size and reads its fill everywhere, under an id that was invalid before; all others read as before |
| `StoreLaws.ResetThenGet` | space-time/src/lib.rs:307-569 | an array that is created, written to and reset reads its fill everywhere, and read the written items in between |
| `StoreLaws.DropThenCheckout` | space-time/src/lib.rs:151-203 | a dropped snapshot cannot be checked out any more, every other one can exactly if it could before, and HEAD reads as before |
| `Needs.NeedWithin` | space-time/src/lib.rs:88-204 | what a command takes of slots and references is no more than the sizes of the objects and arrays of HEAD say |
| `Needs.RunWithin` | space-time/src/lib.rs:88-204 | whole runs take no more than the plain timeline says, by the sum over their commands |
| `Needs.RunFits` | space-time/src/lib.rs:88-204 | a state with room for what a run can take has room for each of its commands when its turn comes |
| `Leaks.NothingLeaked` | space-time/src/lib.rs:139-204 | nothing has leaked if and only if every object and every page has exactly as many references as there are pointers to it in snapshots, in HEAD and in pages |
| `Leaks.OwnedIsTotal` | space-time/src/lib.rs:139-204 | the pointers of all snapshots and of HEAD are as many as the sizes of their objects and arrays say |
| `Leaks.LeakByCommand` | space-time/src/lib.rs:139-204 | how many references each command leaks: those of a dirty HEAD of which a snapshot is made, one for each array that is given up with its snapshot or with HEAD, and no other |
| `Leaks.LeaksNothing` | space-time/src/lib.rs:139-204 | a run leaks nothing if and only if none of its commands does |
| `Leaks.DirtySnapshotLeaks` | space-time/src/lib.rs:139-149 | the shortest run that leaks: an object is inserted and a snapshot is made |
| `Commands.SnapshotIsFrozen` | space-time/src/lib.rs:284-286 | no run that keeps a snapshot changes what it holds |
| `Commands.CheckoutRestores` | space-time/src/lib.rs:284-289 | checking out a snapshot restores the contents HEAD had when it was made, whatever was done in between |
| `Commands.ResetRestores` | space-time/src/array_storage.rs:572-579 | after any run of writes, snapshots and checkouts of later snapshots, a reset restores the fill given at creation |
| `Histories.ExecuteAll` | space-time/src/lib.rs:88-204 | every run of the allocator does what the plain timeline does, whatever the number of layers, in whole or up to the first command that does not fit the state it has reached; in whole if the state it starts in has room for all that the plain timeline can take; a whole run leaks exactly what the plain timeline says |
| `Histories.ExecuteFromNew` | space-time/src/lib.rs:237-239 | from a new allocator, every run within the limits of the 31-bit fields, told from the plain timeline alone, is carried out in whole, and so can be told what it leaks |
| `Histories.ExecuteOnObjects` | space-time/src/lib.rs:237-239 | from a new allocator, any run of up to 65536 commands that creates no arrays is carried out in whole |
| `Histories.SnapshotIsolation` | space-time/src/lib.rs:245-289 | after a snapshot and any run that keeps it, checking it out makes every object and array item read as before; it is carried out if there is room for what the run can take |
| `Simulators.Simulator.constructor` | red-planet-core/src/simulator.rs:133-153 | a new simulator has an empty log and one snapshot, of state 0 |
| `Simulators.Simulator.AvailableSteps` | red-planet-core/src/simulator.rs:190-195 | the length of the log |
| `Simulators.Simulator.Step` | red-planet-core/src/simulator.rs:268-284 | forgets what follows the current state and appends a default step; the new state is the default tick of the state before |
| `Simulators.Simulator.StepWith` | red-planet-core/src/simulator.rs:231-262 | the same with a custom tick: the new state and the answer are what it makes of the state before |
| `Simulators.Simulator.ReplayStep` | red-planet-core/src/simulator.rs:288-303 | repeats the step of the log at the current state: the new state is its custom tick, or the default one, of the state before; past the end of the log a default step is added |
| `Simulators.Simulator.UndoStep` | red-planet-core/src/simulator.rs:306-328 | goes to the state before, and never changes the log; false exactly at state 0 |
| `Simulators.Simulator.RedoStep` | red-planet-core/src/simulator.rs:414-426 | goes to the next state of the log; false exactly at its end |
| `Simulators.Simulator.GoTo` | red-planet-core/src/simulator.rs:429-437 | goes to any state; the log only grows, by default steps, when the state lies past its end |
| `Simulators.Simulator.GoToState` | red-planet-core/src/simulator.rs:525-544 | reaches the state from the last snapshot before it; with regular spacing at most 2048 steps are replayed |
| `Simulators.Simulator.FindBaseSnapshot` | red-planet-core/src/simulator.rs:547-552 | finds the last snapshot at or before a state |
| `Simulators.Simulator.GoToSnapshot` | red-planet-core/src/simulator.rs:555-574 | restores the state of a snapshot, with its place in the side list of custom ticks |
| `Simulators.Simulator.MakeSnapshot` | red-planet-core/src/simulator.rs:455-462 | adds a snapshot at the end; the snapshots stay ordered by state |
| `Simulators.Simulator.ClearForwardHistory` | red-planet-core/src/simulator.rs:576-582 | cuts the log at the current state, and drops every later snapshot from the allocator; the list of custom ticks matches the log afterwards if and only if HEAD was detached or its index was at the end of the list |
| `Simulators.Simulator.UndoStepsUntil` | red-planet-core/src/simulator.rs:350-411 | ends at the last earlier state that the predicate accepts, or at state 0 when none is; evaluates each state at most once and each undone state exactly once; visits between one and as many states as steps are undone, in decreasing order, and last the one it ends at when there was a match |
| `Simulators.Simulator.SearchFrom` | red-planet-core/src/simulator.rs:375-389 | evaluates each state from a snapshot up to a bound once, and finds the last match among them |
| `Simulators.CustomAt` | red-planet-core/src/simulator.rs:288-300 | the side list names a step at the right place exactly when that step of the log is custom |
| `Simulators.StatesOfLog` | red-planet-core/src/simulator.rs:288-300 | state 0 is the first one, and each later state is made from the one before by its step, custom or default |
| `Replays.RunFromStart` | red-planet-core/src/simulator.rs:231-437 | after any run of commands the allocator holds the fold of the log up to the position that the plain history gives; when all jumps were in range, snapshots are at most 2049 steps apart |
| `Replays.TravelKeepsLog` | red-planet-core/src/simulator.rs:306-437 | undo, redo, reverse search and jumps in range never change what was logged |
| `Replays.StepsAsGiven` | red-planet-core/src/simulator.rs:231-426 | whatever was run before: a step runs its tick, default or custom, on the current state; undoing it gives the state before, and redoing it the state after it again |
| `Replays.SearchesBack` | red-planet-core/src/simulator.rs:350-411 | a reverse search ends at the last earlier state that is accepted, or at the start, and changes no log |
| `Replays.JumpTakesSteps` | red-planet-core/src/simulator.rs:429-437 | a jump past the end of the log takes default steps |
| `Replays.TravelIsLossless` | red-planet-core/src/simulator.rs:306-437 | whatever is undone, redone, searched and jumped to in between, going back to a position gives the state that was there |
| `Replays.StepAndRepeat` | red-planet-core/src/simulator.rs:231-426 | the simulator takes a custom step, takes it back and repeats it: the states are those before, after, before and after it |
| `Replays.ClearAfterCustomStep` | red-planet-core/src/simulator.rs:251-253 | cleared on its own right after a custom step, the list of custom ticks no longer matches the log |
| `Backings.TicksAreCoded` | red-planet-core/src/simulator.rs:97-110 | any list of commands that change HEAD is a tick of the kind that the next three are about |
| `Backings.RequestsAreCommands` | red-planet-core/src/simulator.rs:97-110 | when every tick edits HEAD by commands, all that the simulator asks of its allocator is a run of allocator commands |
| `Backings.Simulate` | red-planet-core/src/simulator.rs:133-153 | every run of the simulator with such ticks comes with a run of commands that leads to the same allocator contents |
| `Backings.Mirror` | red-planet-core/src/simulator.rs:133-153 | the store that carries out this run ends with the state that the log says, and it does carry it out if it has the room |
| `Statuses.WritesKeepStatus` | red-planet-core/src/core/status.rs:352-443 | whatever is written, MPP is never the reserved level and SD tells whether an extension is dirty |
| `Statuses.SstatusIsConfined` | red-planet-core/src/core/status.rs:441-443 | a write of sstatus changes no field of machine mode |
| `Statuses.SstatusShowsNoMachineFields` | red-planet-core/src/core/status.rs:437-439 | sstatus reads the same whatever the fields of machine mode hold |
| `Statuses.MstatusIsMaskedExactly` | red-planet-core/src/core/status.rs:352-416 | a write of mstatus gives every field its masked bits if and only if it does not ask to clear a set single bit, nor to change a pair of bits while the value has neither of them |
| `Statuses.SstatusIsMaskedExactly` | red-planet-core/src/core/status.rs:437-443 | the same of a write of sstatus, under its narrower mask |
| `Statuses.ReadClearChangesNothing` | red-planet-core/src/core/execute.rs:1108-1120 | a read-and-clear never changes mstatus or sstatus, so it is right only when there is nothing to clear |
| `Statuses.EnableCannotBeCleared` | red-planet-core/src/core/status.rs:355-363 | supervisor interrupts stay enabled when a write asks to disable them |
| `Statuses.ZeroesAreIgnored` | red-planet-core/src/core/status.rs:352-416 | writing zeros under any mask changes nothing |
| `Statuses.WordsShowFields` | red-planet-core/src/core/status.rs:348-350 | reading mstatus and mstatush shows every field |
| `InterruptRegisters.RegisterWritesKeep` | red-planet-core/src/core/interrupts.rs:196-289 | mideleg and mie stay in their masks, and SEIP stays the disjunction of its two sources |
| `InterruptRegisters.LinesKeep` | red-planet-core/src/core/interrupts.rs:291-313 | so do changes of the interrupt lines, and MEIP follows its line |
| `InterruptRegisters.DriveSetsLevels` | red-planet-core/src/core/interrupts.rs:291-313 | after any line changes each line is at the level it was last set to, and nothing else but the software bit of supervisor mode has changed |
| `InterruptRegisters.DriveIsQuiet` | red-planet-core/src/core/interrupts.rs:291-313 | line changes alter nothing if and only if no line ends at another level and that software bit is not newly set |
| `InterruptRegisters.DeviceBitsAreReadOnly` | red-planet-core/src/core/interrupts.rs:207-241 | no register write changes MEIP, MTIP or MSIP |
| `InterruptRegisters.SupervisorWritesAreConfined` | red-planet-core/src/core/interrupts.rs:259-289 | sie only changes delegated interrupts; sip changes one that is not delegated exactly when it flips an undelegated SSIP |
| `InterruptRegisters.BitsOfReady` | red-planet-core/src/core/interrupts.rs:136-164 | the ready interrupts of a mode are those pending, enabled and delegated to it |
| `TrapRegisters.MergeAlignedIsAligned` | red-planet-core/src/core/trap.rs:479-493 | whatever is written to mepc and sepc, they stay word-aligned |
| `TrapRegisters.WriteTvecIsAligned` | red-planet-core/src/core/trap.rs:703-716 | so do the bases of both trap vectors |
| `TrapRegisters.TvecRoundTrip` | red-planet-core/src/core/trap.rs:694-716 | a legal vector that is written in whole is read back |
| `TrapRegisters.SatpRoundTrip` | red-planet-core/src/core/trap.rs:588-607 | a word written to satp in whole is read back from its three fields |
| `TrapRegisters.CauseRoundTrip` | red-planet-core/src/core/trap.rs:718-754 | a cause that can occur is read back after it is written; any other write is ignored |
| `HartProperties.TrapKeeps` | red-planet-core/src/core/trap.rs:280-369 | a trap keeps the invariant of the hart |
| `HartProperties.ExecuteKeeps` | red-planet-core/src/core/mod.rs:753-924 | so does every instruction, also when it raises an exception |
| `HartProperties.Run` | red-planet-core/src/core/mod.rs:656-708 | the invariant holds in every state reachable by steps, during which devices may drive lines, by other line changes, resets and non-maskable interrupts: x0 is 0; pc, mepc, sepc and both vector bases are word-aligned; MPP is legal; mideleg, mie and medeleg are in their masks; SEIP and SD are right |
| `HartProperties.TrapNeverLowersPrivilege` | red-planet-core/src/core/trap.rs:280-369 | a trap never lowers the privilege level, saves the program counter at the level it enters and disables interrupts there |
| `HartProperties.TrapsNest` | red-planet-core/src/core/execute.rs:800-851 | a trap to machine mode inside a supervisor handler, then mret, then sret restore first the handler's and then the original pc, privilege, MIE and SIE |
| `HartProperties.HandlerKeepsSaved` | red-planet-core/src/core/mod.rs:753-924 | a handler none of whose instructions returns or writes sepc, mepc, sstatus or mstatus keeps all that a trap saved, and the privilege level |
| `HartProperties.InstructionsKeepSaved` | red-planet-core/src/core/mod.rs:753-924 | any instruction executed without exception keeps all that a trap saved, and the privilege level, unless it is a return or accesses sepc, mepc, sstatus or mstatus |
| `HartProperties.HandlersNest` | red-planet-core/src/core/execute.rs:800-851 | so nested traps over any such handlers return to the pc, privilege level, MIE and SIE that were interrupted |
| `HartProperties.InterruptsAsPrescribed` | red-planet-core/src/core/interrupts.rs:168-187 | no interrupt that section 3.1.9 prescribes is missed; one is taken against it if and only if machine mode enables interrupts, some are pending, and all of those are delegated |
| `HartProperties.TakenInOrder` | red-planet-core/src/core/interrupts.rs:130-187 | an interrupt for machine mode is taken before one for supervisor mode, and of those for one mode the first in the prescribed order |
| `HartProperties.HandlerIsInTable` | red-planet-core/src/core/trap.rs:341-348 | the handler lies at its place in the vector table if and only if that is inside the address space |
| `HartProperties.ScauseAfterTrap` | red-planet-core/src/core/trap.rs:511-514 | after a supervisor trap scause shows its cause if and only if the last machine trap had the same code |
| `HartProperties.ConfinedBelowMachine` | red-planet-core/src/core/mod.rs:753-924 | an instruction executed below machine mode keeps all machine registers, undelegated enables and machine fields of mstatus (MPRV may be cleared) if and only if it does not alter menvcfg by a permitted write of senvcfg and its memory accesses leave every interrupt line at its level; it never raises the privilege level |
| `HartProperties.PreciseExceptions` | red-planet-core/src/core/execute.rs:1095-1126 | an instruction that raises an exception leaves the hart unchanged, except exactly for a write refused after its read, a store-conditional that fails after noting success, and an access that fails after devices drove lines |
| `HartProperties.DeviceBitsAreLines` | red-planet-core/src/core/interrupts.rs:83-116 | in every reachable state MEIP, MTIP and MSIP are what their lines were last set to, also during steps |
| `HartLaws.TrapMode` | red-planet-core/src/core/trap.rs:280-383 | a trap enters supervisor mode if and only if the hart is not in machine mode and the cause is a known exception whose code is set in medeleg or a known interrupt whose bit is set in mideleg; otherwise it enters machine mode |
| `HartLaws.TrapSaves` | red-planet-core/src/core/trap.rs:295-360 | exactly which registers a trap changes: cause, epc and trap value, which is the faulting address, instruction or pc, and the enable and previous level of the mode it enters |
| `HartLaws.TrapHandler` | red-planet-core/src/core/trap.rs:336-351 | the handler is at the base of the vector register of the mode entered, plus four times the number of a vectored interrupt, modulo 2^32 |
| `HartLaws.McauseAfterTrap` | red-planet-core/src/core/mod.rs:1097-1126 | after a trap into machine mode mcause reads the number that the privileged architecture gives the cause |
| `HartLaws.SretRestores` | red-planet-core/src/core/execute.rs:800-826 | sret goes to sepc and SPP, restores SIE, sets SPIE, and clears SPP and MPRV; it is illegal in user mode and under TSR |
| `HartLaws.MretRestores` | red-planet-core/src/core/execute.rs:828-851 | mret goes to mepc and MPP, restores MIE, sets MPIE, sets MPP to user mode, and clears MPRV unless it returns to machine mode; it is illegal below machine mode |
| `HartLaws.InterruptMode` | red-planet-core/src/core/mod.rs:928-943 | an interrupt that is taken enters supervisor mode if and only if it is delegated and the hart is below machine mode; so one that should trap to supervisor mode does, and one that should trap to machine mode does |
| `HartLaws.SoleInterrupt` | red-planet-core/src/core/interrupts.rs:130-187 | whether the only interrupt that is pending and enabled is taken, and into which mode, for every level, enable and delegation |
| `HartLaws.NoInterrupt` | red-planet-core/src/core/interrupts.rs:130-187 | with none pending and enabled nothing is taken |
| `HartLaws.OrderOfNumbers` | red-planet-core/src/core/interrupts.rs:130-164 | no interrupt is taken while one for the same mode that comes before it in the order 11, 3, 7, 9, 1, 5 is pending and enabled |
| `HartLaws.ControlFlow` | red-planet-core/src/core/execute.rs:976-1017 | after any instruction without exception the pc is 4 further, unless it was a return, a jump, or a branch whose condition holds on its two source values, when it is the target |
| `HartLaws.BranchesAndJumps` | red-planet-core/src/core/execute.rs:976-1017 | a branch or jump raises an exception if and only if it is taken and its target is misaligned, and then changes nothing; a jump leaves pc + 4 in its destination; nothing else changes |
| `HartLaws.Computations` | red-planet-core/src/core/execute.rs:878-928 | computations never fail, and set their destination alone to what they compute from their sources |
| `HartLaws.SystemInstructions` | red-planet-core/src/core/execute.rs:627-876 | ecall, ebreak, wfi and sfence.vma raise their exceptions at the levels and under the bits that say so, or only go on |
| `HartLaws.LoadsAndStores` | red-planet-core/src/core/execute.rs:1019-1062 | the address of a load or store is base plus offset; a load sets its destination to what memory answers, a store hands over its source; which exception a failed access raises |
| `HartLaws.ReservedAccesses` | red-planet-core/src/core/execute.rs:543-563 | load-reserved and store-conditional fault at a misaligned address before memory is asked; otherwise the one loads, and the other stores and notes success |
| `HartLaws.AtomicOperations` | red-planet-core/src/core/execute.rs:930-974 | an atomic operation writes what it computes from the word read and its source, and leaves the word read in its destination; it faults at a misaligned address before memory is asked |
| `HartLaws.LineChanges` | red-planet-core/src/core/interrupts.rs:291-313 | which pending bit each line change sets or clears, by number |
| `HartLaws.StepInOrder` | red-planet-core/src/core/mod.rs:656-708 | a step takes a ready interrupt first; else it fetches at the pc and executes, takes an exception of either as a trap, and then takes an interrupt that is ready |
| `HartLaws.OtherEvents` | red-planet-core/src/core/mod.rs:295-330 | what a line change, a non-maskable interrupt and a reset make of every register |
| `HartLaws.RegisterAccess` | red-planet-core/src/core/mod.rs:600-623 | which registers each level may access; a register can be written if and only if it can be read and is not read-only |
| `HartLaws.WriteThenRead` | red-planet-core/src/core/trap.rs:455-607 | sscratch, mscratch, stval, mtval, mtinst, mtval2 and satp read as they were written |
| `HartLaws.AddressThenRead` | red-planet-core/src/core/trap.rs:475-493 | sepc and mepc read as written without the two lowest bits; a vector register reads as written unless its mode is reserved, when it is not written |
| `HartLaws.CauseThenRead` | red-planet-core/src/core/trap.rs:718-754 | mcause and scause read as written if that is the number of a cause, and otherwise as before |
| `HartLaws.WritesAreLocal` | red-planet-core/src/core/mod.rs:475-598 | a register write changes only registers of its kind |
| `HartLaws.OthersReadAsBefore` | red-planet-core/src/core/mod.rs:475-598 | apart from the status, interrupt and configuration registers, which share bits, a register write changes what no other register reads as |
| `HartLaws.MaskedWrites` | red-planet-core/src/core/interrupts.rs:196-289 | which bits of mideleg, mie, sie, mip and sip a write changes under its mask, by number |
| `HartLaws.OtherMaskedWrites` | red-planet-core/src/core/trap.rs:532-536 | the same of medeleg, menvcfg and menvcfgh |
| `HartLaws.ReadsShowBits` | red-planet-core/src/core/interrupts.rs:191-289 | what the interrupt, delegation and configuration registers read as; sie and sip show the delegated bits |
| `HartLaws.StatusReads` | red-planet-core/src/core/status.rs:348-439 | sstatus reads as mstatus without the bits of machine mode |
| `HartLaws.RegisterInstructions` | red-planet-core/src/core/execute.rs:1064-1126 | csrrw, csrrs and csrrc and their immediate forms on a plain register: the old value goes to the destination, and the register is replaced, or gets or loses the bits of the operand |
| `HartLaws.StatusBits` | red-planet-core/src/core/status.rs:39-226 | the bit of mstatus and mstatush at which each single field lies |
| `HartLaws.StatusPairs` | red-planet-core/src/core/status.rs:229-271 | the bits of mstatus at which MPP, FS, VS and XS lie |
| `HartLaws.StatusWrites` | red-planet-core/src/core/status.rs:352-416 | a write of mstatus sets a single bit if and only if it is set in the value and the mask, and clears none |
| `HartLaws.PairWrites` | red-planet-core/src/core/status.rs:364-400 | a write of mstatus changes FS, VS and MPP under the mask if the value has one of their bits, and not otherwise; the reserved level is ignored, and SD follows |
| `HartLaws.SupervisorStatusWrites` | red-planet-core/src/core/status.rs:441-443 | a write of sstatus does the same to the fields of supervisor mode, and changes no other field |
| `HartLaws.StatusRegisters` | red-planet-core/src/core/status.rs:418-443 | which of these a write of sstatus, mstatus and mstatush does, and what the last makes of SBE and MBE |
| `Departures.DelegatedInterruptIsTaken` | red-planet-core/src/core/interrupts.rs:168-187 | a run in which machine mode sets a delegated interrupt pending and takes it |
| `Departures.ScauseIsWrong` | red-planet-core/src/core/trap.rs:511-514 | a run after which scause is 0 in the handler of a breakpoint |
| `Departures.RefusedWriteHasRead` | red-planet-core/src/core/execute.rs:1095-1126 | a refused write of the cycle counter that has changed a general register |
| `Departures.FailedStoreHasCleared` | red-planet-core/src/core/execute.rs:553-563 | a failed store-conditional that has cleared its destination |
| `Departures.FailedLoadHasRaised` | red-planet-core/src/core/mmu.rs:229-244 | a load in supervisor mode whose page walk sets the accessed bit in mtimecmp, which clears that register and raises the timer interrupt, and which then fails because nothing is mapped at the physical address |
| `Departures.SenvcfgChangesMenvcfg` | red-planet-core/src/core/mod.rs:512-515 | a write of senvcfg in supervisor mode that changes menvcfg |
| `Departures.StoreLowersTimer` | red-planet-core/src/core/clint.rs:100-108 | after mtimecmp was written by 8 bytes at once and reached, a store to mtime in supervisor mode lowers the timer interrupt of machine mode |
| `Departures.SipReachesUndelegated` | red-planet-core/src/core/interrupts.rs:275-289 | a write of sip in supervisor mode that sets an interrupt which is not delegated |
| `Cores.Core.TakeTrap` | red-planet-core/src/core/trap.rs:280-369 | updates cause, epc, tval, pc, status and privilege, each in its place, as the state machine does; so `HartLaws.TrapMode`, `TrapSaves` and `TrapHandler` hold of it |
| `Cores.Core.Sret` | red-planet-core/src/core/execute.rs:800-826 | returns from supervisor mode, or is illegal below it or under TSR |
| `Cores.Core.Mret` | red-planet-core/src/core/execute.rs:828-851 | returns from machine mode; the saved level is never reserved |
| `Cores.Core.CsrOperation` | red-planet-core/src/core/execute.rs:1095-1126 | reads, then writes under the mask of the operation, with both kinds of refusal |
| `Cores.Core.JumpTo` | red-planet-core/src/core/execute.rs:976-992 | jumps and links, or changes nothing when the target is misaligned |
| `Cores.Core.DriveLines` | red-planet-core/src/core/interrupts.rs:291-313 | the callbacks of devices, one after the other, set and clear the pending bits |
| `Cores.Core.LoadOperation` | red-planet-core/src/core/execute.rs:1019-1040 | a load sets its destination, or raises the exception of its access |
| `Cores.Core.ConditionalStore` | red-planet-core/src/core/execute.rs:553-563 | notes success before it stores, and stays with that when the store fails |
| `Cores.Core.BranchOperation` | red-planet-core/src/core/execute.rs:995-1017 | takes a branch, or changes nothing when the target is misaligned |
| `Cores.Core.AmoOperation` | red-planet-core/src/core/execute.rs:930-974 | reads, computes and writes one word, with the exceptions of each access |
| `Cores.Core.ExecuteInstruction` | red-planet-core/src/core/mod.rs:753-924 | each decoded instruction has the effect of the state machine; so `HartLaws.ControlFlow`, `BranchesAndJumps`, `Computations`, `LoadsAndStores` and `AtomicOperations` hold of it |
| `Cores.Core.StepWith` | red-planet-core/src/core/mod.rs:687-708 | an exception of the instruction or its fetch is taken as a trap |
| `Cores.Core.Step` | red-planet-core/src/core/mod.rs:656-674 | an interrupt that is ready is taken instead of the instruction, and one that became ready after it |
| `Cores.Core.Reset` | red-planet-core/src/core/mod.rs:295-315 | a reset keeps the invariant |
| `Cores.Core.Nmi` | red-planet-core/src/core/mod.rs:318-330 | a non-maskable interrupt saves the pc and keeps the invariant |
| `Cores.RunCore` | red-planet-core/src/core/mod.rs:656-674 | every run of the object goes through the states of the state machine |
| `Mmus.EncodeDecode` | red-planet-core/src/core/mmu.rs:469-482 | an entry is determined by its fields: putting the decoded fields together gives the same word |
| `Mmus.DecodeEncode` | red-planet-core/src/core/mmu.rs:469-482 | setting a field of a page table entry leaves all its other bits alone |
| `Mmus.EntryBits` | red-planet-core/src/core/mmu.rs:469-482 | the bit of an entry at which each field lies |
| `Mmus.Mmu.Translate` | red-planet-core/src/core/mmu.rs:350-440 | the loop over the levels computes the translation and its update of memory; so `Mmus.Permitted`, `TwoLevelTranslation` and `SuperpageTranslation` hold of it |
| `Mmus.Permitted` | red-planet-core/src/core/mmu.rs:396-433 | a translation that succeeds below machine mode has found a leaf with W for a write, X for an instruction, R, or X under MXR, for a read, U for user mode, and no U for supervisor mode except for data under SUM; it is aligned, and now has A, and D after a write, if it had not; nothing else changed |
| `Mmus.Untranslated` | red-planet-core/src/core/mmu.rs:350-376 | in machine mode and without Sv32 the address is the physical one, and nothing changes |
| `Mmus.ReadOnlyTables` | red-planet-core/src/core/mmu.rs:427-433 | a translation that would have to change an entry that cannot be written answers an access fault and changes nothing; any other one is as if it could be written |
| `Mmus.FaultKinds` | red-planet-core/src/core/mmu.rs:384-413 | a translation that fails otherwise answers an access fault if the entry it needs lies outside of memory, and a page fault if not |
| `Mmus.ChangesOneEntry` | red-planet-core/src/core/mmu.rs:350-440 | at most one entry changes, only in its A and D bits, and none when the translation fails |
| `Mmus.TranslationIsIdempotent` | red-planet-core/src/core/mmu.rs:427-433 | repeating an access gives the same address and changes nothing |
| `Mmus.OthersKeepMapping` | red-planet-core/src/core/mmu.rs:427-433 | a translation for another address, access, privilege or configuration, also of another address space, never changes the result of this one |
| `Mmus.TwoLevelTranslation` | red-planet-core/src/core/mmu.rs:378-437 | an access through a pointer entry and a leaf whose bits permit it is never refused, unless the leaf had to be updated and cannot be; it gets the leaf's page number and the page offset, modulo 2^32 |
| `Mmus.SuperpageTranslation` | red-planet-core/src/core/mmu.rs:378-437 | an access through an aligned root leaf whose bits permit it is never refused, unless the leaf had to be updated and cannot be; it gets the leaf's page number plus the upper page number of the address, which is as prescribed if and only if both page numbers of the address are equal |
| `Mmus.SuperpageIsMisplaced` | red-planet-core/src/core/mmu.rs:415-425 | an address in a superpage that is mapped to another page than prescribed |
| `Mmus.MappedAsPrescribed` | red-planet-core/src/core/mmu.rs:415-437 | a 4 KiB page is mapped as section 4.3.2 prescribes; a superpage is if and only if both parts of the virtual page number are equal |
| `Mmus.DirtyBitLost` | red-planet-core/src/core/mmu.rs:427-433 | a translation clears a set dirty bit if and only if it finds a permitted, aligned leaf in writable memory that is dirty but not accessed, and is not for a write |
| `Mmus.ReadCleansPage` | red-planet-core/src/core/mmu.rs:427-433 | a read after which a dirty page is clean |
| `AddressMaps.TryFrom` | red-planet-core/src/address_map.rs:85-101 | building succeeds if and only if the ranges are pairwise disjoint, and then holds the same entries in order |
| `AddressMaps.TryFromTwoWay` | red-planet-core/src/address_map.rs:175-191 | succeeds if and only if ranges are disjoint and values distinct, and the inverse map holds exactly the entries |
| `AddressMaps.RangeValue` | red-planet-core/src/address_map.rs:45-79 | answers the mapped range that contains the address, or else the maximal vacant range around it, without overflow |
| `AddressMaps.BuildAndFind` | red-planet-core/src/address_map.rs:45-101 | a map is built if and only if of any two ranges one ends before the other starts, and then finds the entry whose range holds the address, if there is one |
| `AddressMaps.RegionsPartition` | red-planet-core/src/address_map.rs:45-79 | mapped and vacant regions partition the 32-bit address space |
| `Boards.BoardMapIsValid` | red-planet-core/src/board/mod.rs:59-67 | the fixed memory map can be built |
| `Boards.Board.CheckAccess` | red-planet-core/src/board/system_bus.rs:76-91 | an access is passed on if and only if it lies within one mapped range |
| `Boards.WhichResource` | red-planet-core/src/board/mod.rs:59-67 | which resource of a new board takes an access, and at which of its addresses, by the numbers of the memory map |
| `Boards.Board.WriteRam` | red-planet-core/src/resources/ram.rs:86-97 | writes the part of the buffer that fits, and nothing else |
| `Boards.Board.WriteBus` | red-planet-core/src/board/system_bus.rs:158-163 | a write changes DRAM exactly when all of it lies in DRAM |
| `Boards.Board.LoadPhysical` | red-planet-core/src/board/mod.rs:197-238 | for any base and buffer it terminates and stores the buffer at exactly the DRAM addresses it covers |
| `Plics.ClaimIsRight` | red-planet-core/src/resources/plic.rs:65-96 | an interrupt is needed if and only if an enabled pending source has a priority above the threshold, and a claim takes the lowest-numbered source of maximal priority |
| `Plics.Plic.Update` | red-planet-core/src/resources/plic.rs:211-222 | after any change of the registers the line of the core agrees with them, and has followed what the core was told |
| `Plics.Plic.Read` | red-planet-core/src/resources/plic.rs:155-172 | which register each address reads; a claim answers the source to be handled and clears its pending bit |
| `Plics.Plic.Write` | red-planet-core/src/resources/plic.rs:188-209 | writes a register, keeps the line in agreement, and can enable nothing by aligned accesses |
| `Plics.ClaimsAndRaises` | red-planet-core/src/resources/plic.rs:48-92 | a claim clears the pending bit of the source it answers and nothing else, no other read changes anything, and raising a source sets its pending bit |
| `Plics.StoresByAddress` | red-planet-core/src/resources/plic.rs:188-209 | what a store makes of the registers, by its address: priorities and the threshold saturate at 7, of the first word of a bit array only source 0 is kept, and completing a source clears its pending bit |
| `Plics.BitOrder` | red-planet-core/src/resources/plic.rs:188-209 | the highest bit of a word stands for its first source, and the lowest for its last |
| `Plics.TopBitIsSourceZero` | red-planet-core/src/resources/plic.rs:194-198 | the mask on the first word leaves only the bit of source 0 |
| `Plics.Drive` | red-planet-core/src/resources/plic.rs:109-122 | in every run of aligned in-bounds accesses the line agrees with the registers and is never raised |
| `Clints.WordWriteClears` | red-planet-core/src/core/clint.rs:37-51 | storing one half of a register clears all of it, which is what is meant if and only if that half is stored as zero and the other one is zero |
| `Clints.MovesExactly` | red-planet-core/src/core/clint.rs:158-168 | for every store, tick and restart whether the line is moved and which way, told from the two registers before it |
| `Clints.NeverMoved` | red-planet-core/src/core/clint.rs:100-168 | no run of stores, ticks and restarts moves the line before mtimecmp is written by 8 bytes at once with a value other than zero |
| `Clints.LineAfter` | red-planet-core/src/core/clint.rs:158-168 | after any run the line is high if and only if mtimecmp is not above mtime and was above it at some time before |
| `Clints.LongReadIsSwapped` | red-planet-core/src/core/clint.rs:130-134 | an 8-byte read gives a register if and only if its halves are equal, or, at the address of its higher half, if the lower half is zero |
| `Clints.TimeIsSwapped` | red-planet-core/src/core/mod.rs:624-631 | time reads the higher half of mtime and timeh the lower one |
| `Clints.Clint.Update` | red-planet-core/src/core/clint.rs:158-168 | applies a change and tells the core exactly when that changed whether an interrupt is needed |
| `Clints.Clint.WriteWord` | red-planet-core/src/core/clint.rs:97-108 | a 4-byte store changes the registers, and the line by what was told |
| `Clints.Clint.WriteLong` | red-planet-core/src/core/clint.rs:110-119 | an 8-byte store at the address of a higher half sets the register |
| `Clints.Drive` | red-planet-core/src/core/clint.rs:58-168 | the object goes through these states in every run, and its line is as `LineAfter` says |
| `Machines.ExternalInterruptIsNeed` | red-planet-core/src/resources/plic.rs:211-222 | in every joint run of the hart and the controller MEIP is set if and only if some enabled pending source has a priority above the threshold |
| `Machines.TimerInterruptIsNeed` | red-planet-core/src/core/clint.rs:158-168 | in every joint run of the hart and the timer MTIP is set if and only if mtimecmp is not above mtime and was above it at some time before |
| `Machines.TimerNeverPending` | red-planet-core/src/core/clint.rs:100-168 | in a joint run with word stores and ticks only, MTIP is never set |

## Left out

- The terminal interface, the debugger stub, sockets, ELF loading, the compliance plugins and logging.
- `remove`, `remove_array` and `pop`: without them ids are dense and kept when a snapshot is copied; with them, collecting
  a snapshot into a fresh arena would move ids.
- Several types of objects and arrays side by side: one slab of objects and one storage of arrays stand for each type's own.
- What an operation does after a count or slab length has exceeded 31 bits: it stops there with `Overflow`, and nothing
  is promised about the contents from then on. The simulator is modelled over an allocator that does not overflow.
- That `Needs.Fits` is necessary: it asks the same room of every table, which is as much as the most loaded one takes. The
  single steps are exact: `Tables.Table`, `CloneAll`, `CloneInstance`, `CloneSnapshot`, `WriteObject`, `AddPageAbove`.
- 64-bit wrap-around of array indices and of 64 to the power of the number of layers, which would take eleven layers.
- `HEAD` instances and page lists are values that are replaced, as are the pages inside a slab: aliasing between an
  instance and a mutable reference into it is not modelled. Hart registers, which the allocator stores as values, are too.
- The mutable accessor's `iter_range`, whose bounds differ from those of the immutable one.
- Ticks that are not deterministic, or that keep state outside the allocator; the simulator takes ticks as functions.
- The binary searches of the standard library in the simulator are modelled by the index they find.
- CSR numbers and decoding: the hart starts from decoded instructions and named registers. Counters and all other
  registers are `CsrOther`, with the value they read as a parameter and writes that touch nothing modelled.
- What arithmetic instructions compute, and what memory answers and which lines devices drive meanwhile: parameters of
  the instructions. Of the devices only the interrupt controller and the timer are modelled.
- Debug translations, which do the same walk without writing; misaligned and byte-wide accesses of the MMU.
- mstatus is kept by its fields, not as one word; `Statuses.Mstatus` is the word they make up.
- What devices other than DRAM do with a write; the UART, the ROMs and powering down.
- Accesses of the interrupt controller past the end of its arrays, which panic.
