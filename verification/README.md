# Parla, verified

Parla is a task runtime for programs that use CPUs and GPUs in one process. This project models the parts of it
whose correctness is not visible from any one function, and proves what they promise.

1. **One array over many devices** (`Protocol`, `Buffers`, `OneArray*`, `Coherence`, `DeviceBuffers`, `Parrays`).
   A `PArray` keeps copies of an array, or of slices of it, on several devices, an MSI-style protocol decides what
   moves where, and an interpreter executes its operations. Buffers hold real elements here. The main theorem is a
   refinement: over every run of accesses that keeps to `OneArrayTheorem.Guard`, each access sees exactly what it
   would see on one ordinary array, whatever order Python visits a set in. Two corollaries need no state-dependent
   guard: runs of whole-array accesses (`OneArrayRuns`), and scatter/gather over disjoint slices, phase after phase
   (`OneArrayScatter`). `OneArrayEffects` says what one access changes and what it leaves alone: which copies are
   there afterwards, which buffers are freed, who is the owner. `OneArrayLimits` shows how exact each clause of the
   guard is, and `OneArrayFailures` gives a short run of a new array for each.
2. **Slices in slices** (`Slices`, `LocalSlices`, `AxisOrder`). Translating an index into the full array to an index
   into a subarray, over any number of dimensions, and what NumPy's order of axes does to it.
3. **Tasks and the scheduler** (`TaskRuntime`, `TaskGraphInvariants`, `TaskRuntimeInvariants`,
   `TaskRuntimeTheorems`, `TaskRaces`, `TaskEarlyRuns`, `TaskMoves`, `TaskMapping`, `TaskMoveRuns`, `Tasks`). Each
   section under a mutex is one step of a state machine; the theorems hold in every state that any interleaving of such
   steps reaches. `TaskMapping` adds what the mapper has in hand between its steps. The classes in `Tasks` update their
   fields and queues in loops, and every method is shown to be a run of that machine.
4. **Deadlock** (`TaskDeadlocks`, `TaskDeadlockCauses`, `TaskLockOrder`, `TaskDeadlockRuns`, `CholeskyLocks`,
   `CholeskyDeadlock`). When threads wait for each other's task mutexes, for the queue of new tasks or for the mapper
   for ever; which step exactly closes the circle; in which programs only the mapper can be the cause, and exactly when
   it is; and a run into a deadlock for each rule a program breaks.
5. **Resources** (`Resources`): all-or-nothing updates, and conservation over runs.
6. **Task graphs** (`Cholesky*`, `Sweep`, `Quicksort`): the same answer under every schedule that respects the
   dependencies, and that it is the right one.
7. **Partitioning** (`Partitioning`, `LDevice`): renumbered sparse partitions, and block tilings.

Functions say what the code computes; imperative code is a class or a method proved against such a function, and the
promises are lemmas about the functions. `dafny verify dfyconfig.toml` verifies the project.

## Where the code does less than it says

Each of these is a lemma for all inputs, with the exact condition where there is one, and a lemma with a concrete
input or run.

- A write to a newly loaded subarray leaves whole copies other than the owner's valid; all later whole reads are
  right exactly when there was none (`OneArrayLimits.NewPartWriteExact`, `OneArrayFailures.SliceStoreMissesCpu`).
- A modified owner that writes again does not look for subarrays read meanwhile; those keep the old elements
  (`OneArrayLimits.OwnerWriteExact`, `OwnerSliceWriteExact`, `OneArrayFailures.OwnerStoreMissesSlice`).
- A whole write at a device that holds subarrays does not raise the version. What a later read sees then depends on
  the numbers of the devices (`OneArrayLimits.ReadsAfterWriteOverParts`, `WriteOverPartsExact`,
  `OneArrayFailures.StoreOverSliceMissesOwner`).
- `update` keeps the index maps of other devices; a whole read at such a device never sees the new array, and a slice
  read sees it only for the first view of the map
  (`OneArrayLimits.ReadsAfterUpdate`, `PartReadsAfterUpdate`, `OneArrayFailures.UpdateMissesSlice`).
- `evict` raises exactly when the last copy should go to a CPU that holds subarrays
  (`OneArrayLimits.EvictRaises`, `OneArrayFailures.EvictToSliceRaises`). When it does write the last copy to the CPU it
  marks the evicted device complete, not the CPU, and a subarray access at such an owner raises
  (`OneArrayLimits.PartAtOwnerRaises`, `OneArrayFailures.SliceAtOwnerRaises`).
- `evict` of an owner with a shared copy elsewhere looks for a new owner, does not use it, and does nothing; and after
  it has written the last copy to the CPU, the buffer it came from is still there if it held the whole array
  (`OneArrayEffects.EvictNothing`, `EvictLastCopy`, and `EvictExactly` for all states).
- A first subarray access at a device where a whole buffer was left behind raises
  (`OneArrayLimits.StaleBufferRaises`, `OneArrayFailures.SliceBesideBufferRaises`).
- `_map_slice_with_slice` takes `end - step + (end - begin) % step` for the last element. It is that exactly when the
  remainder is zero or half a step (`Slices.LastElementExact`); results are right exactly when it is zero or at least
  half a step (`Slices.SliceInSlice`); `None` means "not a subset" for every target exactly in the former case
  (`Slices.RejectsExactly`). The input is `Slices.InexactSlice`.
- A list of one index is recorded in the same way as that index, and then not found by itself; a list loses its
  repetitions (`LocalSlices.RecordedIndex`, `ListNotFound`, `RecordedListsChange`).
- When a slice stands between an integer and a list, NumPy moves the list's axis to the front of the result; the code
  translates as if axes stayed (`AxisOrder.AxesStayExactly`). Such a subarray loses elements or gives others
  (`AxisOrder.SeparatedListLosesElements`, `SeparatedListReadsOthers`), and so does a slice of an axis that a list cut
  out (`AxisOrder.SliceOnListMoves`). If no list moves, lookups are right (`AxisOrder.LookupInNumPy`, `LocalInPlace`).
- An index that stops before the subarray's last axes is accepted, and right only where positions in the subarray and
  in the full array agree (`LocalSlices.ShortIndex`, `ShortIndexReadsAnotherRow`).
- A notification between assigning a task and checking whether it is blocked queues the task twice, and that is
  exactly when it happens (`TaskRaces.RaceQueuesTwice`). Without it a continuation never runs early
  (`TaskRaces.ContinuationsAreNeverEarly`); with it, it can (`TaskEarlyRuns.RacesCanEndEarly`), and it does happen
  (`TaskEarlyRuns.RacesHappen`).
- A data movement task gets its dependencies one by one, and is queued when those it has so far have finished. If the
  mapper then adds another, the task can start before that one has finished, and this is the only way
  (`TaskMoves.MovesAreNeverEarly`, `LateMovesStartEarly`); it does happen (`TaskMoveRuns.LateAdditionsHappen`).
- If the last of these finishes after the mapper has added it, and before the mapper looks whether the data movement
  task is blocked, both enqueue the task, and that is exactly when it is queued twice
  (`TaskMapping.RaceListsTwice`, `MovesAreQueuedOnce`); it does happen (`TaskMoveRuns.MoveRacesHappen`).
- New tasks are appended to the mapper's queue on the right, where the mapper takes them, in order to be served first
  come, first served. If the queue was not used up they overtake the older ones, exactly when one of them has all its
  dependencies mapped (`TaskRuntimeTheorems.NewOvertakeOld`).
- Threads that hold task mutexes can deadlock, and then the tasks never finish (`TaskDeadlocks.DeadlockIsForEver`). A
  step makes the first deadlock exactly when the waits lead from whom its thread needs next to somebody whose mutex, or
  mapping phase, the thread keeps (`TaskDeadlockCauses.DeadlockExact`); nothing else stops a thread
  (`TaskDeadlocks.HolderMoves`, `SomebodyMoves`).
- Even a program whose tasks can be ranked so that lists of dependencies rise and bodies name only higher tasks can
  deadlock, for the mapper reads the flags of dependencies under their mutexes while it has the queue of new tasks: two
  tasks on one task are enough (`TaskDeadlockRuns.FillingDeadlocks`), or one, when the body of the other hosts the
  mapper (`FillingInABodyDeadlocks`). Such a program, the Cholesky one among them, is in a deadlock exactly when the
  waits lead from the task whose flag is read next back to the mapper (`TaskLockOrder.RankedDeadlockExact`,
  `CholeskyLocks.CholeskyDeadlockExact`), and goes on otherwise (`TaskLockOrder.RankedProgramsGoOn`,
  `CholeskyLocks.CholeskyGoesOn`). The Cholesky program does come to it, with the first three tasks it spawns
  (`CholeskyDeadlock.CholeskyDeadlocks`).
- Without one of the rules there are deadlocks without that: lists in opposite orders, a task named twice, a task named
  while it registers, awaiting an older task, spawning on an older task, a data movement task with dependencies in the
  wrong order or made in the thread of a younger body, and the race above
  (`TaskDeadlockRuns.OppositeOrdersDeadlock`, `NamingTwiceDeadlocks`, `NamingEarlyDeadlocks`,
  `AwaitingOlderDeadlocks`, `SpawningOnOlderDeadlocks`, `TaskMoveRuns.MovingInWrongOrderDeadlocks`,
  `MovingInABodyDeadlocks`, `TaskDeadlockRuns.RacingDeadlocks`).
- An unknown resource name raises after the amounts before it were applied (`Resources.AllOrNothing`,
  `UnknownNameKeepsMemory`), and with the device's monitor held: every later call for the device blocks
  (`Resources.StuckExactly`).
- The sweep orders cells by the sign bit and waits by comparison with zero. They differ for a negative zero and for a
  NaN with the sign bit set, and then the upstream neighbour comes later (`Sweep.UpstreamIsEarlier`,
  `NegativeZeroWaitsForLater`).
- The ravelled grid counts rows of the grid's height; every cell has a device exactly when the grid is no higher than
  wide (`LDevice.RaveledExact`).
- `_factors(2)` is `[2, 1]`: entries are primes or one (`LDevice.FactorsAreRight`, `FactorsOfTwo`).

## Model

| member | source | states |
|---|---|---|
| OneArrayTheorem.ManyCopiesAreOneArray | parla/parray/core.py:358-435 | over every guarded run, under any set iteration order, no access raises and every read and write sees exactly the elements one ordinary array would show |
| OneArrayTheorem.StepRefines | parla/parray/coherence.py:216-427 | one access keeps the invariant between all device copies and the logical array, and the task sees that array before its own store |
| OneArrayTheorem.CreatedIsRight | parla/parray/coherence.py:87-111 | a new array satisfies the invariant: one modified copy at the device with the data |
| OneArrayRuns.WholeArrayCoherence | parla/parray/coherence.py:135-488 | runs of whole reads, writes, evictions and updates meet every guard, so each access sees the last value written anywhere |
| OneArrayRuns.WholeRunsAreSafe | parla/parray/coherence.py:135-488 | every reachable whole-array state has one writer or many readers (versions included), and no operation list from it loads from an empty device or evicts the last valid copy at any prefix |
| OneArrayRuns.WriteBackNeverLoses | parla/parray/coherence.py:197-214 | every prefix of a write-back's list can be executed and leaves a full current copy somewhere |
| OneArrayScatter.ScatterGather | parla/parray/coherence.py:161-214 | from one complete copy, after any run of accesses to disjoint slices at their devices, a whole read or write anywhere leaves base overlaid with every update; a closing write at a device without slices leaves one complete copy again, where the next phase can start |
| OneArrayScatter.ScatterRunsAreGuarded | parla/parray/coherence.py:297-300 | such runs meet every guard in every intermediate state, and after a slice write the owner's copy is never valid |
| OneArrayScatter.PhasesSeeOneArray | parla/parray/coherence.py:231-427 | from a new array on, over any sequence of such phases, every access of every phase sees one array; the old owner of each phase keeps its buffer and takes no slices later |
| OneArrayScatter.ClosingWriteLeavesOneCopy | parla/parray/coherence.py:374-383 | a whole write after a slice was written leaves one modified copy, and on every device but the old owner neither mark nor buffer of an earlier one |
| OneArrayScatter.SubarrayBookkeeping | parla/parray/memory.py:319-353 | after any guarded run each index map matches its buffer list entry by entry, and entry k holds exactly the elements its view names |
| OneArrayScatter.WriteOverPartsGathers | parla/parray/coherence.py:340-360 | a whole write at a device with slices leaves the gathered array both there and at the old owner |
| OneArrayEffects.EvictExactly | parla/parray/coherence.py:429-488 | after an eviction that does not raise, the device has a valid copy if and only if it had one, is the owner, and is the CPU or had another valid copy beside its own; a whole buffer is freed if and only if the device is not the owner, slices if and only if it is not the CPU |
| OneArrayEffects.EvictShared | parla/parray/coherence.py:458-465 | a shared copy that is not the owner's goes: invalid, version -1, no mark, empty buffer; everything else stays |
| OneArrayEffects.EvictNothing | parla/parray/coherence.py:442-457 | nothing changes if there is no copy, if the last copy is the CPU's, or if the owner's copy has a shared one beside it |
| OneArrayEffects.EvictLastCopy | parla/parray/coherence.py:469-478 | the last copy, gathered from slices if there are any, is at the CPU then, which is the owner and the only device with a copy |
| OneArrayEffects.ReadInPlace | parla/parray/coherence.py:273-312 | a whole read where a copy is valid moves nothing |
| OneArrayEffects.ReadBringsCopy | parla/parray/coherence.py:273-312 | elsewhere it brings one copy and changes no other copy, slice or buffer |
| OneArrayEffects.OwnerAfterRead | parla/parray/coherence.py:282-293 | which device is the owner then: the old one if and only if its copy is valid, it is a GPU, and its number is even or the reader's is odd |
| OneArrayEffects.WriteLeavesOneCopy | parla/parray/coherence.py:361-427 | a whole write by a device without the modified copy makes it the owner with the only copy; all other copies and all slices are gone with their buffers |
| OneArrayEffects.WriteInPlace | parla/parray/coherence.py:365-372 | a whole write by the device with the modified copy moves nothing |
| OneArrayEffects.SliceReadStays | parla/parray/coherence.py:231-243 | a slice read changes nothing at other devices |
| OneArrayEffects.SliceUpgradeFrees | parla/parray/coherence.py:390-416 | a store into a slice read before invalidates every whole copy, frees their buffers except the owner's, and leaves other devices' slices |
| OneArrayEffects.SliceClaimStays | parla/parray/coherence.py:383-389 | a store into a new slice invalidates the owner's copy and changes no buffer but its own |
| OneArraySteps.ReadWholeStep | parla/parray/coherence.py:273-312 | a whole read leaves the logical array at its device and keeps the invariant |
| OneArraySteps.ReadOverPartsStep | parla/parray/coherence.py:244-272 | a whole read at a device with slices gathers all slices into the owner and reloads the device |
| OneArraySteps.WriteWholeStep | parla/parray/coherence.py:361-427 | a whole write first shows the logical array, then its store becomes the logical array |
| OneArraySteps.EvictStep | parla/parray/coherence.py:429-488 | evicting with one copy kept changes no contents and keeps the invariant |
| OneArraySteps.UpdateStep | parla/parray/core.py:182-224 | replacing the array re-establishes the invariant when no other device has an index map |
| OneArrayParts.ReadPartStep | parla/parray/coherence.py:231-243 | a slice read shows exactly the selected elements of the logical array |
| OneArrayParts.WritePartStep | parla/parray/coherence.py:374-427 | a slice write shows the selected elements, and its store changes exactly those in the logical array |
| OneArray.WriteBackGathers | parla/parray/coherence.py:161-214 | executing a write-back overlays all slices on the latest copy, in any set order, empties exactly the evicted devices and changes nothing else |
| OneArray.EvictedDevices | parla/parray/coherence.py:161-206 | which devices a write-back evicts; the kept device only if it holds slices |
| OneArrayLimits.EvictRaises | parla/parray/coherence.py:469-478 | eviction raises if and only if the last copy would go to a CPU that holds slices |
| OneArrayLimits.PartAtOwnerRaises | parla/parray/coherence.py:469-478 | a slice access at the owner raises if and only if the owner is not marked complete |
| OneArrayLimits.StaleBufferRaises | parla/parray/memory.py:424-427 | a first slice read or write raises if and only if an old whole buffer was left at the device |
| OneArrayLimits.ReadsAfterUpdate | parla/parray/core.py:196-224 | after update a whole read sees the new data if and only if the device held no slices |
| OneArrayLimits.PartReadsAfterUpdate | parla/parray/core.py:196-224 | after update a slice read at a device that held slices sees the new data if and only if it reads the first view of the map that survived |
| OneArrayLimits.NewPartWriteExact | parla/parray/coherence.py:383-389 | all whole reads after any store to a new slice are right if and only if only the owner's whole copy was valid |
| OneArrayLimits.OwnerWriteExact | parla/parray/coherence.py:365-372 | all held slices are right after any whole store by a modified owner if and only if none has elements |
| OneArrayLimits.OwnerSliceWriteExact | parla/parray/coherence.py:365-372 | all held slices are right after any store into a slice by a modified, complete owner if and only if the slice overlaps none of them |
| OneArrayLimits.ReadsAfterWriteOverParts | parla/parray/coherence.py:340-360 | what a read at each device sees after a whole write at a device that held slices: new data or old, by device order |
| OneArrayLimits.WriteOverPartsExact | parla/parray/coherence.py:340-360 | after such a write all reads are right if and only if the store changed nothing |
| OneArrayLimits.LaterOfTwo | parla/parray/coherence.py:175-178 | of two copies with the highest version a write-back takes the later one in dictionary order |
| OneArrayFailures.EvictToSliceRaises | parla/parray/coherence.py:469-478 | a new array on a GPU: after the CPU read a slice, evicting the GPU raises |
| OneArrayFailures.SliceAtOwnerRaises | parla/parray/coherence.py:469-478 | a new array on a GPU: after an eviction a slice read at the CPU raises |
| OneArrayFailures.SliceBesideBufferRaises | parla/parray/memory.py:424-427 | a new array on a GPU: after an eviction and a read back at the GPU, a slice read at the CPU raises |
| OneArrayFailures.SliceStoreMissesCpu | parla/parray/coherence.py:383-389 | a new array on the CPU: after GPU 0 read it and GPU 1 stored into a slice, the CPU reads the old array |
| OneArrayFailures.OwnerStoreMissesSlice | parla/parray/coherence.py:297-300 | a new array on the CPU: after GPU 1 read a slice and the CPU stored an array, GPU 1 reads the old slice |
| OneArrayFailures.StoreOverSliceMissesOwner | parla/parray/coherence.py:340-360 | a new array on the CPU: after GPU 1 read a slice and stored an array, the CPU reads the old array |
| OneArrayFailures.UpdateMissesSlice | parla/parray/core.py:196-224 | a new array on the CPU: after GPU 1 read a slice and the CPU updated the array, a read at GPU 1 does not give it, nor does a slice read |
| Buffers.WriteBackThenExtract | parla/parray/memory.py:415-441 | writing a slice back and extracting it gives it again, and nothing outside the slice changes |
| Buffers.ExtractThenWriteBack | parla/parray/memory.py:415-441 | writing back what was extracted copies exactly the selected elements, and is the identity on its own source |
| Coherence.Coherence.constructor | parla/parray/coherence.py:87-111 | the dictionaries start with one modified complete copy at version 0 |
| Coherence.Coherence.Reset | parla/parray/coherence.py:116-129 | the loop leaves the state of a new object with the new owner |
| Coherence.Coherence.VisitAll | parla/parray/coherence.py:161-195 | the loop downgrades or drops each entry once, and collects holders, latest copy and evictions |
| Coherence.Coherence.WriteBackTo | parla/parray/coherence.py:135-214 | updates the dictionaries in place to the protocol function's state, with its list or exception |
| Coherence.Coherence.Read | parla/parray/coherence.py:216-312 | the in-place read follows the protocol function and keeps the typing of the dictionaries |
| Coherence.Coherence.Write | parla/parray/coherence.py:314-427 | the in-place write follows the protocol function and keeps the typing of the dictionaries |
| Coherence.Coherence.InvalidateWholes | parla/parray/coherence.py:404-416 | the loop invalidates every complete copy and drops exactly those that are not the owner's |
| Coherence.Coherence.EvictFrom | parla/parray/coherence.py:429-488 | the in-place eviction follows the protocol function and keeps the typing of the dictionaries; a shared copy of a device other than the owner becomes invalid with version -1 and no mark, and its buffer is to be freed |
| DeviceBuffers.MultiDeviceBuffer.Move | parla/parray/memory.py:415-441 | one copy between full arrays and slices, with its exceptions, changing only the destination |
| DeviceBuffers.MultiDeviceBuffer.CopyDataBetweenDevice | parla/parray/memory.py:443-472 | the loop writes back every slice of the source, or extracts the destination's newest slice |
| DeviceBuffers.MultiDeviceBuffer.ClearAt | parla/parray/memory.py:516-521 | both dictionaries forget the device and nothing else |
| Parrays.PArray.ProcessOperations | parla/parray/core.py:402-435 | the loop executes the list in order, failing exactly where an operation fails |
| Parrays.PArray.CoherenceRead | parla/parray/core.py:358-377 | protocol call, then its operations |
| Parrays.PArray.CoherenceWrite | parla/parray/core.py:379-398 | protocol call, then its operations |
| Parrays.PArray.ReadBy | parla/parray/core.py:448-471 | a task's read gets the ghost array, or the elements its slice selects |
| Parrays.PArray.WriteBy | parla/parray/core.py:448-471 | a task's write gets the ghost array, and its store is applied to it |
| Parrays.PArray.EvictFrom | parla/parray/core.py:335-354 | a guarded eviction succeeds and leaves the ghost array as it is; the device has a copy then if and only if it had one, was the owner, and is the CPU or had another beside its own; if it was not the owner its buffer is empty and everything else unchanged |
| Parrays.PArray.Update | parla/parray/core.py:182-224 | buffers and protocol are replaced, and the ghost array is the new data |
| Slices.MapIntFinds | parla/parray/memory.py:152-174 | the result is k if and only if the slice's k-th element is the number |
| Slices.MapIntFails | parla/parray/memory.py:168-172 | there is no result if and only if the number is not in the slice |
| Slices.LastElementExact | parla/parray/memory.py:199-201 | the code's last element is the last if and only if the remainder is zero or half a step |
| Slices.SliceInSlice | parla/parray/memory.py:177-212 | a result selects the same elements in the same order if and only if the remainder is zero or at least half a step; always for steps 1 and 2 |
| Slices.RejectsNonSubsets | parla/parray/memory.py:204-209 | for exact slices of two or more elements, no result if and only if not a subset |
| Slices.RejectsExactly | parla/parray/memory.py:177-212 | that holds for every target if and only if the slice is exact |
| Slices.InexactSlice | parla/parray/memory.py:199-201 | range(0, 5, 4): the code finds one of its two elements in range(8), and none of it in itself |
| LocalSlices.LookupIsFaithful | parla/parray/memory.py:214-317 | over any number of axes, indexing the subarray with the local index yields the element the global index selects |
| LocalSlices.MissingMeansOutside | parla/parray/memory.py:245-296 | an axis fails if and only if some selected position is not in the subarray |
| LocalSlices.FoundExactly | parla/parray/memory.py:240-296 | for duplicate-free lists and exact slices of two or more elements, a subarray is used if and only if, on every axis both its map and the index mention, it has the integer it was cut out with or every selected position; other axes are accepted |
| LocalSlices.ShortIndex | parla/parray/memory.py:240-247 | an index that stops before any number of the map's axes is right at a position if and only if, on each of those axes, the subarray's entry there is that position |
| LocalSlices.ShortIndexReadsAnotherRow | parla/parray/memory.py:240-247 | row 0 of the rows 1 and 2 is read as row 1 |
| LocalSlices.RecordedIndex | parla/parray/memory.py:115-135 | recording an index and reading it back is the identity if and only if lists are duplicate-free and not of length one |
| LocalSlices.RecordedListsChange | parla/parray/memory.py:115-135 | [3] comes back as 3, and [3, 5, 3] as [3, 5] |
| LocalSlices.ListNotFound | parla/parray/memory.py:214-317 | a recorded list is found by itself again if and only if it does not have exactly one entry |
| LocalSlices.RecordedMapIsSound | parla/parray/memory.py:338-348 | recording a duplicate-free index gives a map with keys and positions inverse to each other |
| LocalSlices.IndicesMap.SetSlicesMapping | parla/parray/memory.py:319-353 | the loop appends one map per axis at the device, and fails exactly when the rank is too high |
| LocalSlices.IndicesMap.GetGlobalSlices | parla/parray/memory.py:115-135 | the loop returns the recorded index of the given or the newest subarray |
| LocalSlices.IndicesMap.MapLocalSlices | parla/parray/memory.py:214-317 | the nested loops find the first subarray that maps the whole index, and fail exactly when none does or the index is longer than the rank; for duplicate-free lists and exact slices of two or more elements that is the first subarray with every position the index selects, and failure means that every subarray lacks one |
| AxisOrder.AxesStayExactly | parla/parray/memory.py:415-441 | NumPy leaves the axes of a selection where they are if and only if the index has no list, no slice before the list, or no slice between an integer and the list |
| AxisOrder.LookupInNumPy | parla/parray/memory.py:214-317 | if the requested, the recorded and the translated index keep their axes in place, the translated one selects in the extracted buffer what the requested one selects in the array, element by element |
| AxisOrder.LocalInPlace | parla/parray/memory.py:214-317 | if the request has slices only where slices were recorded, the translated index keeps its axes in place whenever the request does |
| AxisOrder.SeparatedListLosesElements | parla/parray/memory.py:389-390 | a recorded index with a slice between its integer and its list, looked up again: fewer elements come back |
| AxisOrder.SeparatedListReadsOthers | parla/parray/memory.py:389-390 | asked for two of the three rows, the lookup reads other elements |
| AxisOrder.SliceOnListMoves | parla/parray/memory.py:389-390 | a slice looked up on an axis that a list cut out becomes a list, and the translated index no longer keeps its axes in place |
| TaskRuntimeTheorems.NeverEarly | parla/task_runtime.py:513-524 | in every interleaving a task enters the ready queue before its first run only when all its spawn-time dependencies have finished |
| TaskRuntimeTheorems.CountersAreExact | parla/task_runtime.py:427-436 | in every reachable state the counter of a task that has not run is the number of pending notifications and registrations; finished tasks have no dependents |
| TaskRuntimeTheorems.NoLostWakeup | parla/task_runtime.py:452-458 | in every reachable state a schedulable task is being run, queued, with a worker, or about to be checked by the mapper |
| TaskRuntimeTheorems.MappingIsClosedAndConserves | parla/task_runtime.py:1822-1846 | no task is assigned before its spawn-time dependencies; the mapper's queues and hand neither lose nor duplicate a task |
| TaskRuntimeTheorems.MapperNeverStops | parla/task_runtime.py:2047-2050 | the mapper never pops an assigned task |
| TaskRuntimeTheorems.OldestFirst | parla/task_runtime.py:1589-1612 | over every run, as many of the ready tasks as were scheduled are gone, the oldest ones; the others stand, in order, behind all newer ones |
| TaskRuntimeTheorems.NewTasksQueueUp | parla/task_runtime.py:1569-1576 | until the queue is filled, the new tasks stand, in order, to the right of all that became ready later |
| TaskRuntimeTheorems.StatusIsOutcome | parla/task_runtime.py:362-413 | over every run a completed task's body has returned, and a failed one's has raised or was begun when it was not running |
| TaskRuntimeTheorems.NewOvertakeOld | parla/task_runtime.py:1822-1846 | after filling a queue that was not empty, the next task is a new one if and only if some new task has all its dependencies mapped |
| TaskRuntimeTheorems.MappableAppend | parla/task_runtime.py:1828-1838 | the queue of new tasks is filtered in its order |
| TaskRuntimeInvariants.InvariantKept | parla/task_runtime.py:357-540 | every step of every thread keeps all invariants |
| TaskRuntimeInvariants.TokensChange | parla/task_runtime.py:1589-1612 | entries in the ready and device queues and with workers come and go only by the named steps |
| TaskRuntimeInvariants.AwakeKept | parla/task_runtime.py:2039-2046 | no step makes a task schedulable without queueing it, being the assignment that precedes the check |
| TaskRuntimeInvariants.ConservedKept | parla/task_runtime.py:1569-1587 | each step moves a task between the queues, the mapper's hand and the assigned set without loss |
| TaskRuntimeInvariants.ClosedKept | parla/task_runtime.py:507-511 | what passed the dependency check has only mapped dependencies, at every later time |
| TaskRuntimeInvariants.DependenciesStayKnown | parla/task_runtime.py:507-511 | every dependency of a task is a task, at every later time |
| TaskGraphInvariants.LinkedKeeps | parla/task_runtime.py:470-481 | asking a dependency keeps counters, links and lists, whether it accepts or refuses |
| TaskGraphInvariants.NotifiedKeeps | parla/task_runtime.py:487-490 | notifying one dependent keeps them |
| TaskGraphInvariants.MoveKeeps | parla/task_runtime.py:1902-1924 | adding a data movement task as a dependency keeps them |
| TaskGraphInvariants.MoveLinkedKeeps | parla/task_runtime.py:492-505 | adding one dependency to a data movement task keeps them |
| TaskGraphInvariants.ZeroMeansFinished | parla/task_runtime.py:438-442 | with an exact counter of zero every dependency has finished |
| TaskRaces.ContinuationsAreNeverEarly | parla/task_runtime.py:526-540 | without the race a task is queued and begun, for its first run or to continue, only when everything it depends on or awaits has finished |
| TaskRaces.OrderlyKept | parla/task_runtime.py:357-413 | without the race every counter stays exact and no task is queued or run twice at a time |
| TaskRaces.RaceQueuesTwice | parla/task_runtime.py:2039-2044 | a step is the first race if and only if the mapper's next check leaves some task queued twice |
| TaskEarlyRuns.RacesHappen | parla/task_runtime.py:2034-2044 | a concrete run reaches the race |
| TaskEarlyRuns.RacesCanEndEarly | parla/task_runtime.py:357-413 | every race can go on to a continuation that runs before what it awaits has finished |
| TaskMoves.MovesSeeDependencies | parla/task_runtime.py:1926-1960 | a data movement task is queued only when every dependency it has by then has finished |
| TaskMoves.MovesAreNeverEarly | parla/task_runtime.py:1926-1960 | unless a dependency is added to one that is queued or running already, a data movement task that is queued or has started has only finished dependencies |
| TaskMoves.LateMovesStartEarly | parla/task_runtime.py:1926-1960 | every such addition can go on to a data movement task that has started before a dependency has finished |
| TaskMapping.NoLostMove | parla/task_runtime.py:2034-2044 | in every interleaving, a data movement task that is not blocked, not finished and not running is queued, with a worker, or in the hand of the mapper, which is still moving the compute task it was made for |
| TaskMapping.HandCanBeEmptied | parla/task_runtime.py:2034-2044 | what the mapper has in hand can be checked when its mutex is free, what is listed can be enqueued, and the hand is empty whenever the mapper is not making data movement tasks |
| TaskMapping.MovesAreQueuedOnce | parla/task_runtime.py:1946-1960 | without the race below, a data movement task is queued or listed at most once at a time, and never after it has started |
| TaskMapping.RaceListsTwice | parla/task_runtime.py:1946-1960 | a step is the first race if and only if the mapper's next check leaves some data movement task queued and listed |
| TaskMapping.UndisturbedMoves | parla/task_runtime.py:1985-2035 | if nobody takes a step in between, the mapper leaves exactly the unblocked ones of the data movement tasks it made in the ready queue, left of what was there, in order |
| TaskMapping.ActsAreRuns | parla/task_runtime.py:1985-2044 | every run of the mapper and the other threads is a run of the state machine of the runtime |
| TaskMoveRuns.LateAdditionsHappen | parla/task_runtime.py:492-505 | a concrete run, which breaks no rule, comes to such an addition |
| TaskMoveRuns.MoveRacesHappen | parla/task_runtime.py:1946-1960 | a concrete run comes to the race of TaskMapping |
| TaskDeadlocks.DeadlockIsForEver | parla/task_runtime.py:427-524 | whatever anybody does, everybody in a deadlock stays in it, with the state of its tasks and of the mapper unchanged |
| TaskDeadlocks.HolderMoves | parla/task_runtime.py:362-524 | a thread that holds a mutex or runs the mapping phase can go on if and only if it does not need somebody occupied |
| TaskDeadlocks.SomebodyMoves | parla/task_runtime.py:362-524 | in a state without deadlock everybody who holds a mutex can go on, or waits through others for somebody who can |
| TaskDeadlocks.MovesAreRuns | parla/task_runtime.py:1822-1846 | every run of the threads is a run of the state machine of the runtime |
| TaskDeadlocks.FlagsStay | parla/task_runtime.py:1822-1846 | while the mapper fills its queue no flag changes and nobody enters the queue of new tasks |
| TaskDeadlockCauses.DeadlockExact | parla/task_runtime.py:427-524 | a step makes the first deadlock if and only if the waits lead from what its thread needs next to something the thread keeps |
| TaskLockOrder.RankedDeadlockExact | parla/task_runtime.py:1822-1846 | in every run of a program that follows the rules there is a deadlock if and only if the mapper, filling its queue, needs the mutex of a task from which the waits lead back to it |
| TaskLockOrder.RankedProgramsGoOn | parla/task_runtime.py:362-524 | otherwise everybody occupied can go on, or waits through others for somebody who can |
| TaskDeadlockRuns.OppositeOrdersDeadlock | parla/task_runtime.py:427-436 | two tasks on the same two tasks, in opposite orders, deadlock with both while these notify |
| TaskDeadlockRuns.NamingTwiceDeadlocks | parla/task_runtime.py:427-436 | a task that names one task twice deadlocks with it |
| TaskDeadlockRuns.NamingEarlyDeadlocks | parla/task_runtime.py:427-436 | so does a task that names one whose registration is not over, which the source prevents |
| TaskDeadlockRuns.AwaitingOlderDeadlocks | parla/task_runtime.py:526-540 | a body that awaits a task of lower rank deadlocks with it and a new task on both |
| TaskDeadlockRuns.SpawningOnOlderDeadlocks | parla/task_runtime.py:362-413 | so does a body that spawns on one |
| TaskDeadlockRuns.RacingDeadlocks | parla/task_runtime.py:2039-2044 | after the race a task that is run twice deadlocks with the task it awaits twice |
| TaskDeadlockRuns.FillingDeadlocks | parla/task_runtime.py:1822-1846 | with two tasks on one task, and no rule broken, the mapper deadlocks with the task that notifies and the new task that enters the queue |
| TaskDeadlockRuns.FillingInABodyDeadlocks | parla/task_runtime.py:1822-1846 | a body that spawns goes on as the mapper and asks for the mutex it holds itself, no rule broken |
| TaskMoveRuns.MovingInWrongOrderDeadlocks | parla/task_runtime.py:1926-1960 | the mapper adds to a data movement task a task of lower rank than the last, and deadlocks |
| TaskMoveRuns.MovingInABodyDeadlocks | parla/task_runtime.py:1926-1960 | so it does when it adds a task of lower rank than the body in whose thread it runs |
| Tasks.TaskObject.AddDependent | parla/task_runtime.py:470-481 | the dependent is appended unless the task has finished |
| Tasks.TaskObject.HandleDependencyEvent | parla/task_runtime.py:513-524 | the counter falls by one, and the result says whether the task became schedulable |
| Tasks.Scheduler.RegisterDependencies | parla/task_runtime.py:427-436 | the loop is a run of registration steps, one for each dependency |
| Tasks.Scheduler.NotifyDependents | parla/task_runtime.py:487-490 | the loop is a run of notification steps, one for each dependent, enqueueing as they do |
| Tasks.Scheduler.Split | parla/task_runtime.py:1822-1838 | the loop splits the new queue by whether all dependencies are mapped, keeping order |
| Tasks.Scheduler.FillCurrentQueue | parla/task_runtime.py:1822-1846 | is the state machine's fill step on the queues in place |
| Tasks.Scheduler.ConstructMove | parla/task_runtime.py:1902-1960 | the run is exactly: the creation and link of the task, then one addition for each earlier user of the data that the compute task depends on; then the look at its counter; it depends on exactly the unfinished ones of these and is listed if and only if there are none; the compute task is entered as a user |
| Tasks.MadeWith | parla/task_runtime.py:1922-1936 | after such a run the data movement task depends on exactly those earlier users of the data, among the compute task's dependencies, that have not finished, and its counter is their number |
| Tasks.ChosenAre | parla/task_runtime.py:1926-1934 | the users asked are those in the list that are among the dependencies, as often as they are in the list |
| Tasks.EnteredExactly | parla/task_runtime.py:1938-1944 | the compute task is entered once as a user of the data and, if that is a slice, of the whole PArray, and nothing else changes |
| Tasks.Scheduler.EnqueueMoves | parla/task_runtime.py:2034-2035 | enqueues every listed data movement task, so that the mapper's hand is empty |
| Tasks.Scheduler.MoveOperands | parla/task_runtime.py:1985-2035 | one data movement task for each operand, and the ready queue gets exactly the unblocked ones of them, in order |
| Tasks.Scheduler.MapTasks | parla/task_runtime.py:1961-2054 | fills a short queue, then tries tasks from its right end: the run (between placing a task and assigning it come the steps that make and enqueue its data movement tasks, one task for each operand), the number tried (at most three, fewer only if the queue is used up or one failed), both queues and the assigned tasks are exactly those; the ready queue gets, once each, the unblocked ones of the data movement tasks and of the assigned tasks, and nothing else; the mapper's hand is empty and every invariant of the runtime holds after |
| Tasks.MappingLosesNoMove | parla/task_runtime.py:1961-2054 | after it, in every reachable state, a data movement task that is not blocked, not finished and not running is queued or with a worker |
| Tasks.TriesOnce | parla/task_runtime.py:1975-1977 | the number of tasks tried is determined, and not zero if there is a task |
| Tasks.Scheduler.ScheduleTasks | parla/task_runtime.py:2056-2074 | the loop moves the oldest four ready tasks, or all if fewer, to the device queues, and leaves the others in order |
| Resources.ResourcePool.UpdateResource | parla/task_runtime.py:1187-1216 | one amount is applied, refused or raises |
| Resources.ResourcePool.AtomicallyUpdate | parla/task_runtime.py:1151-1185 | updated if and only if all names exist and every amount is covered by what is available, a missing name exactly where the amounts before it are covered, and refused otherwise; refused leaves the pool as it was, a missing name leaves the amounts before it and the monitor held, and then every call blocks |
| Resources.ResourcePool.Release | parla/task_runtime.py:1174-1176 | the unwinding loop restores the pool and cannot fail |
| Resources.GrantedExactly | parla/task_runtime.py:1151-1205 | an allocation of distinct, known names is granted if and only if no amount is more than what is available, and a deallocation if and only if no amount makes it negative |
| Resources.CapacityIsGranted | parla/task_runtime.py:1187-1205 | the whole of what is available can be allocated |
| Resources.AllOrNothing | parla/task_runtime.py:1151-1216 | the pool is fully updated or unchanged if and only if no unknown name comes after a nonzero amount with all amounts before it available; always when all names exist |
| Resources.UnknownNameKeepsMemory | parla/task_runtime.py:1151-1216 | 4 of memory, 1 of it and an unknown resource allocated: 3 are left |
| Resources.StuckExactly | parla/task_runtime.py:1151-1216 | a call for a device blocks for ever if and only if an earlier call for it met a missing name, and no call changes that |
| Resources.Conservation | parla/task_runtime.py:1104-1123 | over any run of allocations and matching deallocations available plus held is the initial amount, nothing goes negative |
| Resources.ActKeepsBalance | parla/task_runtime.py:1116-1123 | a deallocation of what is held never fails |
| Cholesky.Sequential | examples/cholesky/blocked_cholesky_cpu.py:117-157 | the loops run in program order, in place, compute the blocked Cholesky recurrence on and below the diagonal and leave the rest; if the kernels keep their laws and no factorization of a block fails, the blocks times their transpose are the given matrix |
| Cholesky.SolveBlock | examples/cholesky/blocked_cholesky_cpu.py:138-157 | the updates and the solve of one block below the diagonal make it the recurrence's and change only that block |
| Cholesky.FactorMultipliesBack | examples/cholesky/blocked_cholesky_cpu.py:75-97 | with kernels that keep their laws (the factor of a definite block times its transpose is the block, the solution times the transposed triangle is the right-hand side, the update subtracts a product with a transpose), the recurrence's factor times its transpose is the matrix |
| Cholesky.FactorOfTwoByTwo | examples/cholesky/blocked_cholesky_cpu.py:75-97 | blocks of one number, with rows 4, 6 and 6, 25: the kernels keep their laws, and the factor has the rows 2 and 3, 4 |
| CholeskyLocks.CholeskyDeadlockExact | examples/cholesky/blocked_cholesky_cpu.py:117-158 | in every interleaving of the program's threads there is a deadlock if and only if the mapper needs the mutex of a task from which the waits lead back to it |
| CholeskyLocks.CholeskyGoesOn | examples/cholesky/blocked_cholesky_cpu.py:117-158 | otherwise everybody occupied can go on, or waits through others for somebody who can |
| CholeskyDeadlock.CholeskyDeadlocks | examples/cholesky/blocked_cholesky_cpu.py:117-158 | a concrete run of the program for three blocks: the first factorization, the solve that depends on it and is being spawned, and the mapper wait for each other, and `main` for the solve |
| CholeskySchedules.EveryScheduleFactors | examples/cholesky/blocked_cholesky_cpu.py:117-157 | every schedule that respects the declared dependencies, with overlapping tasks, ends with the blocks of the recurrence on and below the diagonal and the given ones above it |
| CholeskySchedules.EveryScheduleMultipliesBack | examples/cholesky/blocked_cholesky_cpu.py:117-157 | under those laws, what every such schedule leaves on and below the diagonal, times its transpose, is the given matrix |
| CholeskySchedules.UnfinishedGoesOn | examples/cholesky/blocked_cholesky_cpu.py:117-157 | a schedule that has not run some task always has an enabled step |
| CholeskySchedules.OperandIsInput | examples/cholesky/blocked_cholesky_cpu.py:122-157 | whatever a begun task clones, at any time, is the input the recurrence prescribes |
| CholeskySchedules.NoConflicts | examples/cholesky/blocked_cholesky_cpu.py:117-157 | tasks that run at the same time never write a block another of them reads or writes |
| CholeskySpawning.SpawnAll | examples/cholesky/blocked_cholesky_cpu.py:117-158 | the loops spawn every task exactly once, after everything it depends on, and return the last factorization |
| CholeskySpawning.LastAwaitsAll | examples/cholesky/blocked_cholesky_cpu.py:158 | every task is the returned one or a transitive dependency of it |
| Sweep.UnravelRavel | examples/sweeps/sweeps_numba_sgpu.py:20-44 | unpacking a packed index gives the index, and packed indices are in range |
| Sweep.RavelUnravel | examples/sweeps/sweeps_numba_sgpu.py:20-44 | packing an unpacked number gives the number |
| Sweep.RavelIsOrdered | examples/sweeps/sweeps_numba_sgpu.py:20-44 | packed indices compare like the indices, the first one first |
| Sweep.GenerateItems | examples/sweeps/sweeps_numba_sgpu.py:46-69 | the loops fill the array exactly, with every cell once, in the order of wavefront, direction and offsets |
| Sweep.StandsOnce | examples/sweeps/sweeps_numba_sgpu.py:46-69 | every work item stands in the list exactly once |
| Sweep.UpstreamIsEarlier | examples/sweeps/sweeps_numba_sgpu.py:122-136 | an upstream neighbour stands strictly earlier if and only if sign bit and comparison with zero agree, and strictly later otherwise |
| Sweep.NegativeZeroWaitsForLater | examples/sweeps/sweeps_numba_sgpu.py:122-136 | two cells and a negative zero along x: the first work item waits for the second |
| Quicksort.Partition | examples/simple/quicksort.py:10-24 | in place: a rearrangement of the range around a pivot, smaller elements before it, others after |
| Quicksort.InsertionSort | examples/simple/quicksort.py:31-40 | in place: a sorted rearrangement of the range |
| Quicksort.RunTask | examples/simple/quicksort.py:42-57 | a task rearranges its range only, sorts it or leaves the two parts beside the pivot, and less work |
| Quicksort.StepKeeps | examples/simple/quicksort.py:50-57 | running any pending task keeps the ranges disjoint and everything in order outside them |
| Quicksort.ParallelQuicksort | examples/simple/quicksort.py:42-66 | running pending tasks in any order terminates with a sorted permutation |
| Quicksort.SortedPermutationIsUnique | examples/simple/quicksort.py:69 | so the result does not depend on the order |
| Partitioning.CollectVertices | parla/partitioning.py:183-190 | each partition's vertex set is exactly the endpoints of its edges |
| Partitioning.BuildEdges | parla/partitioning.py:195-203 | each partition's local entries are exactly its edges, renumbered |
| Partitioning.PartitionMatrix | parla/partitioning.py:163-208 | fails exactly for a non-square matrix or an invalid master; ascending global ids, exact endpoints, exact local entries and the master of every vertex otherwise |
| Partitioning.Reconstruction | parla/partitioning.py:195-208 | mapping local entries back rebuilds the matrix, each nonzero from exactly one place of one partition |
| LDevice.FactorsAreRight | parla/ldevice.py:22-26 | the factors multiply back to the number and each is a prime or one |
| LDevice.FactorsOfTwo | parla/ldevice.py:22-26 | the factors of 2 are 2 and 1 |
| LDevice.SplitMultipliesBack | parla/ldevice.py:29-34 | the two parts multiply back to the number |
| LDevice.SplitIsProper | parla/ldevice.py:29-34 | the second part is one if and only if the number is a prime or one, the first only for one |
| LDevice.SplitPower | parla/ldevice.py:29-34 | a power of two is split in the middle, the larger part first: 4 into 2 and 2 |
| LDevice.SlicesTile | parla/ldevice.py:316-318 | without overlap the slices cut the range into consecutive blocks of rounded-down or rounded-up size |
| LDevice.SlicesOverlap | parla/ldevice.py:316-318 | with overlap each slice is its block widened by it on both sides and cut off at the ends of the range |
| LDevice.BlocksAreExact | parla/ldevice.py:316-318 | a slice starts at its fraction of the range rounded up, and a device number is the index by the block size rounded down |
| LDevice.DeviceIsBlock | parla/ldevice.py:259-268 | an index is on device k if and only if it is in the k-th of the slices that cut the indices |
| LDevice.SequenceBlocked | parla/ldevice.py:254-262 | the sequence map is in range and monotone with one block of rounded-down or rounded-up size for each device, and onto if and only if there are no more devices than logical devices |
| LDevice.GridBlocked | parla/ldevice.py:275-291 | the grid map is in range and determines both block coordinates |
| LDevice.GridUsesAll | parla/ldevice.py:275-291 | every device is used if and only if both sides of the grid are at least the two factors |
| LDevice.RaveledExact | parla/ldevice.py:298-316 | every cell of the ravelled grid has a device if and only if the grid is no higher than wide |

## Left out

- CUDA streams and events (with the early notification of dependents they allow), cupy and NumPy calls, GPU stack locals, logging, timing, the launcher, multiloading: foreign calls and process state.
- The order in which Python visits a set is a parameter; theorems hold for every order. Device numbers are -1 for the CPU and 0 up for GPUs.
- A subarray's identity is its hash together with the positions of the flattened array it selects; collisions of hashes are not modelled. That slices loaded at the same time are disjoint is the protocol's own assumption (parla/parray/coherence.py:297, 383) and is part of the guard.
- `evict` with `keep_one_copy=False`, slices of slices, PArray operators and memory tracking.
- After an exception the class `Coherence` promises nothing about its dictionaries.
- Coherence.Coherence.Read: the branches that share one tail in the source are separate methods.
- The interpreter's `SWITCH_DEVICE_FLAG`: the code compares a list with an integer, so it never has an effect.
- LocalSlices.LookupIsFaithful: the axes of results are in the order of the index; AxisOrder.LookupInNumPy is the statement for NumPy. An index has at most one list, and slices have positive steps, as the source assumes.
- The hash of a slice, and `get_by_global_slices`/`set_by_global_slices` beyond the index translation.
- Dependencies on tasks that are not spawned yet: the code rejects them in `spawn_task`.
- The grain of some steps is coarser than the source's: `CheckBlocked` is the check and the enqueueing together, `Schedule` is the pop from the ready queue and the push to the device queue together, `AddMove` creates a data movement task and makes its compute task depend on it, and `Fill` uses all flags of dependencies at once. `TaskDeadlocks` reads them one by one, each when its mutex is free; none changes in between (`TaskDeadlocks.FlagsStay`).
- The mapper's look at the counter of a data movement task is a step of `TaskMapping` only; `TaskDeadlocks` does not count it as a need. Whoever has that task's mutex runs it, and needs no mutex but that of its compute task.
- The mutexes of the other queues: nobody who holds one of them takes the mutex of a task. Waits for resources, which hold the mapper up as well.
- TaskRuntimeTheorems.NoLostWakeup: says that a schedulable task is in some queue or hand, not that the scheduler gets to it.
- The order within device queues, colocation limits, counts of mapped and launched tasks, the device choice (an answer of the policy), and `_finish`.
- Tasks.Scheduler.MapTasks: resource allocation, which blocks, is not part of it; registration of awaited tasks, launching and the worker threads are steps of the state machine only, not methods. Mutexes that a method needs are free when it is called.
- Resources: blocking allocation, `check_resources_availability`, and rounding of floating-point amounts.
- Cholesky: kernels are abstract functions of whole blocks, and a task's closure has the loop indices of its spawn.
- Sweep: machine integers are unbounded; the rest of `compute_fluxes`.
- Quicksort: a task is one step. Tasks have disjoint ranges and change nothing outside them, so overlapping tasks do not matter.
- Partitioning: neighbourhoods beyond the endpoints, which the source does not build, and `edge_masters`, which it leaves empty; entries are integers.
- LDevice: floating-point quotients (exact here), `PartitionedTensor`, and the truncation of the device list.
- Jacobi, Fox and the other examples: their graphs add little beyond Cholesky.
