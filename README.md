# S: a verified model of the dependency-tracking scheduler

S is a small reactive library. A *data* stream holds a value; a *computation*
runs a body that reads other streams, and the library records each read as a
*dependents* edge (stream → computation). Writing a data stream floods the
dependents graph, breadth first, to collect every computation that must run
again (`toRun`). A *tick* then runs those computations and commits their new
values. `freeze` (in `lib/index.js`, `batch`) gathers many writes into a
single tick. `cleanup` registers callbacks that run before the computation
runs again. `root` hands out a disposer that runs every callback.

The project models two revisions of the scheduler, each at two levels:

| file | module | what it is |
|---|---|---|
| `common.dfy` | `Common` | values, write arguments, errors, JavaScript `Set`s, `xet`, cleanup maps, and the loops both revisions share (running a cleanup set, the commit loop, the disposer's loop) |
| `graph.dfy` | `Graph` | the dependents graph; `computeDependents`' flood fill, and a proof that it reaches exactly the computations some walk from the written stream reaches |
| `scheduler.dfy` | `Scheduler` | `lib/index.ts` as functions over a `World` value, with the lemmas about ticks, writes, conflicts and `freeze` |
| `runtime.dfy` | `Machine` | `lib/index.ts` as a `Runtime` class. Its fields are the module state; its methods update those fields in place, with the source's loops. Each method is proved equal to a `Scheduler` function: mostly the one of the same name; `ComputeDependents` to `PropagateFrom`, `RunBody` to `RunSteps`, `RunAll` to `RunItems` |
| `legacy.dfy` | `Legacy` | `lib/index.js` (the older revision) as functions over its own `World` |
| `legacy_runtime.dfy` | `LegacyMachine` | `lib/index.js` as a `Runtime` class, proved against `Legacy` |

Modelling choices:

- A stream is a handle: an index into `kinds`, `value` and `next`.
- A JavaScript `Set` iterates in insertion order. It is modelled as a sequence
  without duplicates; `add` appends and `delete` removes in place.
- A `Map`'s key order is kept in `cleanupOrder`.
- A computation body is a list of calls (tracked read, `sample`d read,
  `cleanup(id)`) plus a function that combines what the calls returned.
- A body may read only streams created before its own. As a result every
  dependents edge points to a larger handle. This is what makes the flood
  fill terminate: it keeps no visited set, so on a cycle it would never stop.
- Cleanup callbacks are ids; calling one appends the id to the log `called`.
- `stats.ticks` and `stats.computations.evaluated` are the fields `ticks` and
  `evaluated`.
- An exception is a `Result` error. `Conflict`, `CleanupWithoutComputationContext`
  and `FreezingWhilePropagating` are the ones the code throws.

Behaviour of the code worth noting:

- `freeze` called while propagating throws `FreezingWhilePropagating`.
- The flood fill deletes each visited computation only from the *written*
  stream's dependents set. The intermediate streams keep their readers.
- `root(f)` only passes `f` a disposer that runs every registered cleanup.
  The code has no root scope that owns computations, no runaway-tick counter
  and no `parents` map.
- `children` is read but nothing ever writes to it, so no computation is
  ever banned from recomputation (`Scheduler.Unbanned`, which every
  operation keeps).
- A write's updater receives the committed `value`, not the pending `next`.
  So four writes `x => x - 1` in one freeze all write the same value, and
  the stream goes down by one (`Scheduler.FreezeDecrements`).
- The older revision's `batch` does not stop an inner `batch` from ticking.
  `tick` never looks at `batching`, so each nested batch runs its own tick
  when it closes (`Legacy.BatchTickCount`).

## Model

| member | source | states |
|---|---|---|
| Common.Xet | lib/index.ts:79-93 | the key is present afterwards and maps to the result; a present key leaves the map unchanged and returns the stored value; a missing key stores `fn(key)`; only that key is added |
| Common.Insert | lib/index.ts:130 | `Set.add`: the element is a member afterwards, the old elements keep their order, an element already present changes nothing, no duplicate appears |
| Common.Delete | lib/index.ts:132 | `Set.delete`: exactly the element is removed, nothing is duplicated, a missing element changes nothing |
| Common.InsertAll | lib/index.ts:153-155 | the members afterwards are the old members plus the added ones, with no duplicate |
| Common.WithoutAll | lib/index.ts:365-368 | once every element of a set has been deleted, the set is empty |
| Common.DeleteWithout | lib/index.ts:367 | deleting one more element from what is left equals leaving out one more element |
| Common.RunEach | lib/index.ts:365-368 | running a cleanup set calls every callback once, in set order, and leaves the set empty |
| Common.CommitValues | lib/index.ts:380-382 | each stream in the resolve set takes its pending value; every other stream keeps its value |
| Common.Commit | lib/index.ts:380-382 | the commit loop over `streamsToResolve` yields, for each stream, its pending value if it is in the set and its committed value otherwise |
| Common.CallAll | lib/index.ts:346-348 | one cleanup set's callbacks are logged in set order |
| Common.CallEvery | lib/index.ts:345-349 | the disposer's nested loop logs every set in the Map's key order, each in set order |
| Common.AllCleanupsMembers | lib/index.ts:345-349 | a callback is logged by the disposer's loops exactly when it is in some registered set |
| Common.AllCleanupsAgree | lib/index.ts:364-368 | changing one computation's cleanup set does not change the callbacks collected for the other computations |
| Graph.AddReader | lib/index.ts:199-200 | recording a read adds exactly the edge stream → `active[0]` and changes no other stream's readers |
| Graph.AddReaderUpward | lib/index.ts:199-200 | an edge from an older stream to a newer computation keeps every edge pointing to a newer handle |
| Graph.VisitFacts | lib/index.ts:125-132 | about `Graph.Visit`, one step of the work list: visiting x pushes x's readers, deletes x from the written stream's readers and changes no other node's readers |
| Graph.FloodMeasure | lib/index.ts:124-136 | each step of the work-list loop lowers the number of walks still pending on the stack, so the loop ends |
| Graph.FloodToRun | lib/index.ts:124-136 | about `Graph.Flood`, the work-list loop: the loop only appends to `toRun`, keeps it duplicate-free, and adds exactly the nodes reachable from the stack without expanding a generator |
| Graph.FloodGraph | lib/index.ts:124-136 | about `Graph.Flood`: the loop changes only the written stream's reader set, and keeps the graph's edges pointing upward |
| Graph.FloodSource | lib/index.ts:127-133 | about `Graph.Flood`: the written stream ends with exactly those of its readers the loop does not expand (the generators), in order |
| Graph.ReachesIffBelow | lib/index.ts:119-137 | a node is in the closure the fill explores exactly when some walk from the written stream (stopping at generators) reaches it |
| Graph.ComputeDependentsFacts | lib/index.ts:119-137 | about `Graph.ComputeDependents`, that is `computeDependents(s)`: `toRun` grows to its old contents plus exactly the computations a walk from s reaches, stays duplicate-free, the graph stays upward, s keeps only its generator readers, and every other node keeps its readers |
| Graph.ReachedIsReader | lib/index.ts:122-128 | anything the fill reaches is the reader of some stream |
| Scheduler.Initial | lib/index.ts:45-54 | the library starts idle, with no streams, nothing to run and no deferred writes, nothing banned from recomputation, and the invariant holds |
| Scheduler.Read | lib/index.ts:198-205 | inside a computation a read returns the pending value and adds exactly the edge stream → `active[0]`; outside one it returns the committed value and changes nothing |
| Scheduler.Sample | lib/index.ts:398-404 | `sample` returns the committed value and records no edge |
| Scheduler.XetCleanups | lib/index.ts:336 | get-or-create of a cleanup set, appending a new key at the end of the Map's order |
| Scheduler.Register | lib/index.ts:336-337 | the callback joins the computation's cleanup set; every other set is unchanged |
| Scheduler.Cleanup | lib/index.ts:334-341 | fails with `CleanupWithoutComputationContext` exactly when no computation is running; otherwise registers the callback on `active[0]` |
| Scheduler.RunStep | lib/index.ts:229 | one call of a body returns the pending value of a tracked stream, the committed value of a sampled one and `undefined` for `cleanup`, and changes only the graph and the cleanups |
| Scheduler.RunStepRecords | lib/index.ts:198-200 | one call adds exactly its tracked edge, registers exactly its cleanup (as `cleanup` does at lib/index.ts:334-340), and leaves every other computation's cleanups alone |
| Scheduler.RunSteps | lib/index.ts:228-230 | a body returns what its calls observe, records exactly its tracked edges and registers exactly its cleanups |
| Scheduler.CleanupChildren | lib/index.ts:139-156 | every child of the computation is banned from the next recomputation; with `children` empty nothing is banned |
| Scheduler.Bracket | lib/index.ts:226-230 | the body runs with its computation on top of `active`, which is balanced afterwards; it returns what its calls observe and records exactly its edges and cleanups; for a generator, which skips `cleanupChildren`, `children` and the banned set stay as they were |
| Scheduler.Compute | lib/index.ts:223-237 | `next` becomes the body's result on its previous value and its reads; idle, the value is committed at once; otherwise the stream joins `streamsToResolve`; no other stream's values change; exactly the body's edges and cleanups are recorded |
| Scheduler.Publish | lib/index.ts:229-236 | the body's result becomes `next`; idle, it is committed at once; otherwise the stream joins `streamsToResolve`; the invariant holds |
| Scheduler.Extend | lib/index.ts:160-165 | a new stream extends every per-stream sequence and keeps the invariant |
| Scheduler.ExtendValid | lib/index.ts:158-165 | adding a stream keeps the invariant |
| Scheduler.ObservedExtend | lib/index.ts:229 | a new stream does not change what an older body observes |
| Scheduler.NewData | lib/index.ts:158-165 | a new data stream whose value and pending value are the initial value |
| Scheduler.NewComputation | lib/index.ts:219-240 | creating a computation adds one stream and exactly its body's edges, and changes no other stream, the state, the queues or the counters; it bans nothing from recomputation |
| Scheduler.NewComputationFirstRun | lib/index.ts:219-240 | the first run computes on `undefined` and the existing streams' values; idle, its value is committed at once; otherwise it awaits the commit |
| Scheduler.NewGenerator | lib/index.ts:256-308 | a new generator records the edges its body tracks; its value and `next` stay `undefined` (its synchronous completion is listed under Left out); it bans nothing from recomputation |
| Scheduler.PropagateFrom | lib/index.ts:119-137 | on the world: `toRun` gains exactly the reachable computations, the written stream keeps only its generator readers, and nothing else changes |
| Scheduler.RunCleanups | lib/index.ts:365-368 | a computation's cleanups are called in set order and its set is emptied; the other sets are unchanged |
| Scheduler.RunItem | lib/index.ts:364-376 | one snapshot item runs its cleanups; unless banned it is counted and its pending value becomes its body's result on the current values; a banned item is unbanned instead; nothing outside it changes |
| Scheduler.RunItems | lib/index.ts:364-377 | the execute phase keeps the invariant and the state, leaves `toRun`, `nextTicks` and `ticks` alone, and bans nothing when nothing was banned |
| Scheduler.RunItemsSplit | lib/index.ts:370-376 | running the snapshot is running a prefix of it, then the rest |
| Scheduler.RunItemsComputes | lib/index.ts:370-376 | with nothing banned, each sync computation of the snapshot ends the loop holding its body's result, computed on the pending values the items before it left |
| Scheduler.RunItemsUntouched | lib/index.ts:364-377 | during the execute phase no committed value changes, streams outside the snapshot keep their pending values, and `streamsToResolve` only grows |
| Scheduler.RunItemsCleanups | lib/index.ts:364-368 | the execute phase calls every snapshot computation's cleanups, in snapshot order |
| Scheduler.RunItemsEvaluated | lib/index.ts:370-373 | with nothing banned, each snapshot item is computed and counted exactly once, and every sync item awaits the commit |
| Scheduler.Begin | lib/index.ts:357-362 | `ticks` goes up by one, the state becomes propagating and `toRun` is emptied |
| Scheduler.Settle | lib/index.ts:380-385 | after the commit phase every stream's committed value is its pending value, `streamsToResolve` is empty, and the state is idle |
| Scheduler.TickOnce | lib/index.ts:355-385 | a tick when not idle does nothing; from idle it ticks once, ends idle, and empties `toRun` and `streamsToResolve` |
| Scheduler.TickSettles | lib/index.ts:380-385 | after a tick, every stream has settled |
| Scheduler.TickCommitsData | lib/index.ts:361-385 | two-phase commit: no value changes before the snapshot has run; then each data stream commits the pending value it had when the tick began |
| Scheduler.TickRunsCleanups | lib/index.ts:364-368 | a tick calls exactly the cleanups of its snapshot, in order |
| Scheduler.TickEvaluates | lib/index.ts:370-373 | a tick evaluates each snapshot computation once |
| Scheduler.TickComputes | lib/index.ts:361-385 | a tick from idle commits, for each sync computation of the snapshot, its body's result on the committed values from before the tick and on the pending values of the snapshot items run before it |
| Scheduler.NextTick | lib/index.ts:386 | the first deferred write is taken off the queue, and it writes a data stream |
| Scheduler.Stage | lib/index.ts:185-186 | the new value becomes the stream's pending value and the stream joins `streamsToResolve`; the invariant holds |
| Scheduler.Tick | lib/index.ts:354-395 | a tick when propagating or frozen does nothing; from idle it ends idle with no deferred write, empty `toRun` and empty `streamsToResolve`; it bans nothing from recomputation |
| Scheduler.Write | lib/index.ts:167-197 | while propagating, the write is deferred and the committed value returned; otherwise it fails with `Conflict` exactly when the stream already awaits a different pending value, and a failed write changes nothing; a write from idle ends idle and settled; a write while frozen changes no committed value and runs no tick; no write bans anything from recomputation |
| Scheduler.Accept | lib/index.ts:184-196 | a write that does not conflict keeps the invariant; from idle it ends idle and settled; while frozen it runs no tick and commits nothing; it bans nothing from recomputation |
| Scheduler.WriteFrozen | lib/index.ts:175-192 | a write while frozen sets the pending value to the updater applied to the committed value, queues the stream and floods its readers; no committed value changes |
| Scheduler.WriteIdle | lib/index.ts:175-196 | a write from idle is committed by the tick it starts, every stream settles, and one tick runs |
| Scheduler.TickCount | lib/index.ts:357-394 | a tick from idle runs one tick for itself and one for each deferred write |
| Scheduler.WriteCount | lib/index.ts:189-196 | a write from idle succeeds and runs one tick plus one per deferred write |
| Scheduler.Freeze | lib/index.ts:321-332 | fails with `FreezingWhilePropagating` when propagating, changing nothing; a `Conflict` inside leaves the state frozen; otherwise the old state is restored; a nested freeze runs no tick and commits nothing; it bans nothing from recomputation |
| Scheduler.RunOps | lib/index.ts:328 | the callback's writes run frozen; no tick runs and no committed value changes; the first error ends the callback; nothing is banned from recomputation |
| Scheduler.RunOp | lib/index.ts:328 | one write or nested freeze inside a freeze runs no tick, changes no committed value, can fail only with `Conflict`, and bans nothing from recomputation |
| Scheduler.FreezeTicksOnce | lib/index.ts:321-332 | the writes of a freeze from idle are coalesced into a single tick, plus one per deferred write |
| Scheduler.DecrementAgain | lib/index.ts:175-187 | while frozen, a second decrement writes the same pending value and raises no conflict |
| Scheduler.RunDecrement | lib/index.ts:175-187 | one decrement inside a freeze queues the stream with its committed value minus one and hands over to the rest of the callback |
| Scheduler.RunDecrements | lib/index.ts:175-187 | any number of decrements of one stream inside a freeze succeed and agree on the pending value |
| Scheduler.FreezeDecrements | test/test.ts:317-330 | a freeze of n ≥ 1 decrements takes one off the stream, in one tick |
| Scheduler.FreezeFourDecrements | test/test.ts:317-330 | the four-decrement freeze leaves the count one lower after one tick |
| Scheduler.Dispose | lib/index.ts:343-352 | the disposer calls every set, in Map order, and clears the Map |
| Scheduler.DisposeCallsAll | lib/index.ts:343-352 | the disposer calls exactly the registered callbacks, after those already called, and leaves no callback registered |
| Machine.Runtime.constructor | lib/index.ts:45-54 | the object starts as the initial world |
| Machine.Runtime.Read | lib/index.ts:198-205 | the accessor's read, in place, equals `Scheduler.Read` |
| Machine.Runtime.Sample | lib/index.ts:398-404 | saves and restores `active`; equals `Scheduler.Sample` |
| Machine.Runtime.Register | lib/index.ts:336-337 | equals `Scheduler.Register` |
| Machine.Runtime.Cleanup | lib/index.ts:334-341 | fails exactly as `Scheduler.Cleanup` does, changing nothing; otherwise equals it |
| Machine.Runtime.ComputeDependents | lib/index.ts:119-137 | the work-list `while` loop over the fields equals `Scheduler.PropagateFrom` |
| Machine.Runtime.CleanupChildren | lib/index.ts:152-155 | the `for` loop over the children equals `Scheduler.CleanupChildren` |
| Machine.Runtime.RunStep | lib/index.ts:229 | equals `Scheduler.RunStep` |
| Machine.Runtime.RunBody | lib/index.ts:229 | the body's calls, one at a time, equal `Scheduler.RunSteps` |
| Machine.Runtime.Bracket | lib/index.ts:226-230 | `cleanupChildren` (sync computations only), `active.unshift`, the body and `active.shift`, in that order, equal `Scheduler.Bracket` |
| Machine.Runtime.Compute | lib/index.ts:223-237 | equals `Scheduler.Compute` |
| Machine.Runtime.Publish | lib/index.ts:229-236 | setting `next`, then committing it when idle or queueing the stream otherwise, equals `Scheduler.Publish` |
| Machine.Runtime.NewData | lib/index.ts:158-165 | equals `Scheduler.NewData` |
| Machine.Runtime.NewComputation | lib/index.ts:219-240 | equals `Scheduler.NewComputation` |
| Machine.Runtime.NewGenerator | lib/index.ts:256-308 | equals `Scheduler.NewGenerator` |
| Machine.Runtime.Extend | lib/index.ts:160-165 | appending a stream object to the per-stream fields equals `Scheduler.Extend` |
| Machine.Runtime.RunCleanups | lib/index.ts:365-368 | the loop calling and deleting each callback equals `Scheduler.RunCleanups` |
| Machine.Runtime.RunItem | lib/index.ts:364-376 | equals `Scheduler.RunItem` |
| Machine.Runtime.RunAll | lib/index.ts:364-377 | the loop over the snapshot equals `Scheduler.RunItems` |
| Machine.Runtime.Begin | lib/index.ts:357-362 | equals `Scheduler.Begin`, returning the snapshot of `toRun` |
| Machine.Runtime.Settle | lib/index.ts:380-385 | the commit loop over the fields equals `Scheduler.Settle` |
| Machine.Runtime.TickOnce | lib/index.ts:355-385 | equals `Scheduler.TickOnce` |
| Machine.Runtime.Tick | lib/index.ts:354-395 | equals `Scheduler.Tick`, including the deferred write it runs |
| Machine.Runtime.NextTick | lib/index.ts:386 | `nextTicks.shift()` equals `Scheduler.NextTick` |
| Machine.Runtime.Stage | lib/index.ts:184-185 | setting `next` and adding the stream to `streamsToResolve` equals `Scheduler.Stage` |
| Machine.Runtime.Write | lib/index.ts:167-197 | equals `Scheduler.Write`, result and new state |
| Machine.Runtime.Accept | lib/index.ts:184-196 | staging, `computeDependents` and the tick when idle, in place, equal `Scheduler.Accept` |
| Machine.Runtime.Freeze | lib/index.ts:321-332 | saving the state, running the callback frozen, restoring the state and ticking equals `Scheduler.Freeze` |
| Machine.Runtime.RunOps | lib/index.ts:328 | the loop over the callback's calls, stopping at the first error, equals `Scheduler.RunOps` |
| Machine.Runtime.RunOp | lib/index.ts:328 | one write or nested freeze, in place, equals `Scheduler.RunOp` |
| Machine.Runtime.Dispose | lib/index.ts:344-351 | equals `Scheduler.Dispose` |
| Legacy.Initial | lib/index.js:3-14 | the older library starts with no streams, not propagating and not batching |
| Legacy.Read | lib/index.js:54-61 | a read returns the committed value; inside a computation it adds exactly the edge stream → `active[0]` |
| Legacy.Sample | lib/index.js:19-25 | returns the committed value and records no edge |
| Legacy.Register | lib/index.js:105-106 | the callback joins the computation's cleanup set; every other set is unchanged |
| Legacy.Cleanup | lib/index.js:103-110 | fails with `CleanupWithoutComputationContext` exactly when no computation is running |
| Legacy.RunStep | lib/index.js:73 | one call of a visitor returns the committed value it reads, or `undefined` for `cleanup`, and changes only the graph and the cleanups |
| Legacy.RunStepRecords | lib/index.js:55-59 | one call adds exactly its tracked edge, registers exactly its cleanup (as `cleanup` does at lib/index.js:103-110), and leaves every other computation's cleanups alone |
| Legacy.RunSteps | lib/index.js:73 | a visitor returns what its calls observe, records exactly its tracked edges and cleanups |
| Legacy.RunVisitor | lib/index.js:72-74 | the visitor runs with its stream on top of `active`; the stack is balanced afterwards |
| Legacy.Compute | lib/index.js:71-76 | `next` becomes the visitor's result; no value and no other stream's `next` changes |
| Legacy.Extend | lib/index.js:27-28 | a new stream object extends every per-stream sequence and keeps the invariant |
| Legacy.ExtendValid | lib/index.js:27-28 | adding a stream keeps the invariant |
| Legacy.NewData | lib/index.js:27-28 | a new data stream holding the initial value |
| Legacy.NewComputation | lib/index.js:65-85 | the first run sets `value` directly to the visitor's result and records exactly its edges |
| Legacy.PropagateFrom | lib/index.js:38-49 | the write's flood fill adds exactly the reachable computations to `toRun` and empties the written stream's readers |
| Legacy.RunCleanups | lib/index.js:134-137 | a computation's cleanups are called in set order and its set is emptied |
| Legacy.RunItem | lib/index.js:133-141 | one item runs its cleanups and is counted; its `next` becomes its visitor's result on the committed values; no other stream's `next` changes |
| Legacy.RunItems | lib/index.js:133-141 | the first loop keeps the invariant |
| Legacy.RunItemsUntouched | lib/index.js:133-141 | items outside the snapshot keep their `next` |
| Legacy.RunItemsComputes | lib/index.js:133-141 | each snapshot computation ends the loop holding its visitor's result on the committed values, which the loop does not change |
| Legacy.RunItemsEvaluated | lib/index.js:139 | every snapshot item is counted once |
| Legacy.RunItemsCleanups | lib/index.js:134-137 | every snapshot item's cleanups run, in snapshot order |
| Legacy.Begin | lib/index.js:126-131 | `ticks` up by one, propagating, `toRun` emptied |
| Legacy.Settle | lib/index.js:143-147 | each snapshot computation takes its computed `next` as its value, every other stream keeps its value, and propagation ends |
| Legacy.Tick | lib/index.js:123-148 | does nothing while propagating; otherwise ticks once and empties `toRun` |
| Legacy.TickEvaluates | lib/index.js:133-141 | a tick evaluates each snapshot computation once and calls its cleanups |
| Legacy.TickCommits | lib/index.js:133-147 | two-phase commit: no value changes while the snapshot computes; then each snapshot computation takes its computed `next` and every other stream keeps its value |
| Legacy.TickComputes | lib/index.js:131-147 | after a tick each snapshot computation holds its visitor's result on the values from before the tick |
| Legacy.Write | lib/index.js:31-61 | the value changes at once to the argument (or the updater's result); a tick runs exactly when neither propagating nor batching; the accessor returns the new value |
| Legacy.WriteBatched | lib/index.js:51-53 | inside a batch a write only sets the value and schedules the readers |
| Legacy.Batch | lib/index.js:95-101 | `batch` restores `batching` and keeps the invariant |
| Legacy.RunOps | lib/index.js:98 | the callback's writes and nested batches run batching, changing neither the flags nor the streams |
| Legacy.RunOp | lib/index.js:98 | one write or nested batch keeps the invariant, `batching` and `propagating` |
| Legacy.BatchTickCount | lib/index.js:95-101 | a batch ticks once at its end, plus once for each nested batch |
| Legacy.RunOpsTickCount | lib/index.js:95-101 | inside a batch the writes tick nothing; every nested batch ticks when it closes |
| Legacy.RunDecrements | lib/index.js:32-33 | inside a batch each decrement applies to the value the previous one left |
| Legacy.NoNested | lib/index.js:95-101 | a callback with only writes nests no batch |
| Legacy.BatchDecrements | test/test.js:229-239 | a batch of n decrements takes n off the stream, in one tick |
| Legacy.BatchFourDecrements | test/test.js:229-239 | the four-decrement batch takes four off the count, in one tick |
| Legacy.Dispose | lib/index.js:112-121 | the disposer calls every set, in Map order, and clears the Map |
| Legacy.DisposeCallsAll | lib/index.js:112-121 | the disposer calls exactly the registered callbacks and leaves none |
| LegacyMachine.Runtime.constructor | lib/index.js:3-14 | the object starts as the initial world |
| LegacyMachine.Runtime.Read | lib/index.js:54-61 | equals `Legacy.Read` |
| LegacyMachine.Runtime.Sample | lib/index.js:19-25 | equals `Legacy.Sample` |
| LegacyMachine.Runtime.Register | lib/index.js:105-106 | equals `Legacy.Register` |
| LegacyMachine.Runtime.Cleanup | lib/index.js:103-110 | fails exactly as `Legacy.Cleanup` does, changing nothing; otherwise equals it |
| LegacyMachine.Runtime.RunStep | lib/index.js:73 | equals `Legacy.RunStep` |
| LegacyMachine.Runtime.RunSteps | lib/index.js:73 | the visitor's calls, one at a time, equal `Legacy.RunSteps` |
| LegacyMachine.Runtime.RunVisitor | lib/index.js:72-74 | pushing the stream, running its calls and popping it equals `Legacy.RunVisitor` |
| LegacyMachine.Runtime.Compute | lib/index.js:71-76 | equals `Legacy.Compute` |
| LegacyMachine.Runtime.NewData | lib/index.js:27-28 | equals `Legacy.NewData` |
| LegacyMachine.Runtime.NewComputation | lib/index.js:65-85 | equals `Legacy.NewComputation` |
| LegacyMachine.Runtime.Extend | lib/index.js:27-28 | appending a stream object to the per-stream fields equals `Legacy.Extend` |
| LegacyMachine.Runtime.PropagateFrom | lib/index.js:38-49 | the work-list `while` loop equals `Legacy.PropagateFrom` |
| LegacyMachine.Runtime.Write | lib/index.js:31-61 | equals `Legacy.Write`, returned value and new state |
| LegacyMachine.Runtime.RunCleanups | lib/index.js:134-137 | equals `Legacy.RunCleanups` |
| LegacyMachine.Runtime.RunItem | lib/index.js:133-141 | equals `Legacy.RunItem` |
| LegacyMachine.Runtime.Count | lib/index.js:139 | `stats.computations.evaluated++` adds one to `evaluated` and changes nothing else |
| LegacyMachine.Runtime.RunAll | lib/index.js:133-141 | the first loop equals `Legacy.RunItems` |
| LegacyMachine.Runtime.Begin | lib/index.js:126-131 | equals `Legacy.Begin`, returning the snapshot |
| LegacyMachine.Runtime.Settle | lib/index.js:143-147 | the commit loop equals `Legacy.Settle` |
| LegacyMachine.Runtime.Tick | lib/index.js:123-148 | equals `Legacy.Tick` |
| LegacyMachine.Runtime.Batch | lib/index.js:95-101 | saving `batching`, running the callback, restoring it and ticking equals `Legacy.Batch` |
| LegacyMachine.Runtime.RunOps | lib/index.js:98 | the loop over the callback's calls equals `Legacy.RunOps` |
| LegacyMachine.Runtime.RunOp | lib/index.js:98 | one write or nested batch, in place, equals `Legacy.RunOp` |
| LegacyMachine.Runtime.Dispose | lib/index.js:113-120 | equals `Legacy.Dispose` |

## Left out

- Generators: only their tracked reads are modelled. The asynchronous iteration, `await`, cancellation with the sentinel, and the completion handler that floods and ticks (lib/index.ts:264-306) need promises and an event loop, which the model does not have.
- Scheduler.NewGenerator: the model never sets a generator's `next` nor adds it to `streamsToResolve`, not even for a generator that completes without suspending. Such a generator runs `iterate` to its end inside `generator()` and sets both synchronously (lib/index.ts:303-304), and a later tick commits the value. The same holds when a tick recomputes a generator (`Scheduler.Compute`).
- Machine.Runtime.NewGenerator: equals `Scheduler.NewGenerator`, so it leaves out the same synchronous completion.
- Body writes and nested definitions: a body never writes a stream and never defines a computation. Either would re-enter `tick` or `computation` from inside `compute`.
- `children` is never written by the source. The lemmas about evaluation counts and about what a tick computes (`Scheduler.TickEvaluates`, `Scheduler.TickComputes`) therefore take `Scheduler.Unbanned` as a hypothesis. `Scheduler.Initial` establishes it, and every operation that returns a new world keeps it.
- Bodies read only streams created before their own (the requirement on `Read` and `StepsOf`). On a dependency cycle the source's flood fill never stops, and the model has no state for that. The restriction also excludes programs without a cycle. One example is a body that, on a later run, reads through a closure a stream created after its own computation.
- Freeze and batch callbacks (`Scheduler.Callback`, `Legacy.Batched`) are only writes to data streams and nested freezes or batches. A callback that reads a stream is not modelled. Neither is one that defines a data stream or a computation inside it; a computation's first run while frozen would queue it in `streamsToResolve`. Nor is a callback that calls `cleanup()`: it throws `CleanupWithoutComputationContext` and leaves the state `frozen`.
- Cleanup callbacks are ids whose call is logged; what they do is not modelled.
- The commented-out `addInitiator` code and the initiator error classes (lib/index.ts:32-41, 58-60, 95-117) are dead code.
- Loose equality: the conflict test `nextVal != stream.next` is modelled as inequality of `Value`s. JavaScript's coercions (`null == undefined`, `'1' == 1`) are not modelled.
- The return value of the deferred write that `tick` runs is discarded, as in the source. That write cannot conflict, because `streamsToResolve` is empty once the commit phase is over.
- `Math.random` stream ids (lib/index.js:67) play no role in scheduling.
- Tests reset `stats` by assignment; the model's counters only grow.
- The view, store, `z5`, `idea`, `idea2` and `utils` files are not part of this model.
