# Wire and utility components, verified

This project models the small stateful components under `lib/wire` and `lib/util` of a
device farm, and the simulator observer of its iOS provider: length-delimited framing, an
expiring set, a reorder buffer, a process manager with its resource pool, timed channels,
log output under back-pressure, transactions over channels, SRV record ordering, a
concurrency limiter, a sliding-window counter and a snapshot observer.

Each component appears twice. A class keeps the source's fields and updates them in place,
in the source's order, and the contract of each of its methods says that it does to its
state what a function on values does. The theorems are about those functions: over every
run of operations, every interleaving of continuations, every way of cutting a byte stream,
every sequence of random draws or answers of stdout.

| file | component |
|---|---|
| `Framing.dfy` | the varint encoder and the incremental decoder |
| `TtlSet.dfy`, `TtlRuns.dfy` | the expiring set on its linked items; its runs |
| `SeqQueue.dfy` | the reorder buffer |
| `ProcessManager.dfy`, `ProcessObjects.dfy` | processes, resources and starts; the same on objects |
| `ProcessRuns.dfy` | on which record a start acts, whose child is heard, where timers are |
| `ProcessStarts.dfy`, `ProcessPromises.dfy` | what a start waits for; whether its promise can still settle |
| `ProcessTraces.dfy` | with what promises settle and in which state processes are, from the events of a run |
| `ChannelManager.dfy`, `ChannelRuns.dfy` | channels with aliases and timers; their runs |
| `Transactions.dfy` | the type-directed router, and transactions |
| `Srv.dfy` | priority groups and weighted picks |
| `LogQueue.dfy`, `Limiter.dfy`, `FailCounter.dfy`, `SimObserver.dfy` | one component each |
| `Events.dfy`, `Wrappers.dfy` | event logs; small shared types |

## How the outside world appears

- Clocks are arguments or a `now` field; a pending `setTimeout` is an entry with its due time.
  In the allowed runs of the channel manager a timer fires when it is due, before time goes
  on; `ChannelRuns.TimeGoesOn` shows that this never holds time up.
- Each `await` ends a step. What waits is a list of continuations, resumed in any order. An
  optional callback of the process manager that is missing is one that resumes at once.
- `emit`, `push` and `resolve` append to a log; listeners and handlers do not call back in.
- `Math.random` is an arbitrary sequence of reals in [0, 1); the answers of `stdout.write`
  and the order of events are arbitrary.
- Ids, channel names, udids, values and message type names are strings that the source only
  compares (or uses as keys); numbers stand for them.

## Where the code and its promise differ

The model follows the code; these lemmas give the input and the exact condition.

- A five-byte length prefix can decode to a negative number, because `<<` works on int32.
  `Buffer.slice` then counts from the end, and chunking matters:
  `Framing.NegativePrefixExample`, `Framing.ChunkingDoesNotMatterExactlyWhen`.
- An empty last payload stays in the decoder until the next byte: `Framing.RoundTrip`.
- A length of 2^31 or more is encoded as something else: `Framing.PrefixDecodesExactlyBelow2To31`.
- Bumping a value that is already in the expiring set cuts off every other value; they stay in
  the index and no check ever drops them: `TtlRuns.StrandedExample`,
  `TtlRuns.BumpReachableExactlyWhen`, `TtlRuns.CheckExpiresAllExactlyWhen`.
- A check that runs exactly when it is due drops nothing, because an item expires only after
  its time to live: `TtlRuns.CheckOnTimeDropsNothing`.
- Dropping a value schedules nothing, so the next check can be late for the new head:
  `TtlRuns.LateCheckExample`, `TtlRuns.DropsMakeLateExactlyWhen`, `TtlRuns.CheckInTimeExactlyWhen`.
- Emitted insert and drop events alternate only if silent changes come in pairs:
  `TtlRuns.SilentInsertExample`, `TtlRuns.EmittedEventsExactlyWhen`.
- SRV records of weight zero are dropped: `Srv.SortOrders`, `Srv.FirstPickExactlyPositive`.
- Two removes of one process at a time release its resources twice, and can leave a timer
  behind: `Processes.OverlapExample`, `Processes.FinishConservesExactlyWhen`,
  `ProcessRuns.OverlapTimerExample`, `ProcessRuns.FinishTimersExactlyWhen`.
- A process that is created again while an older start of its id is being spawned, listens to
  its child or waits to restart can be written to by that start: marked running, given the old
  child's terminate handler, or restarted while it runs. `Processes.StaleReadyExample` and
  `ProcessRuns.StaleRestartExample` are such runs, `ProcessRuns.KeepsToItselfExactlyWhen` the
  condition.
- A start whose child is spawned and then stopped, before it is ready or ends, never settles
  its promise, and neither does a start that waits for such a one after a crash:
  `ProcessStarts.ForsakenExample` and `ProcessPromises.DoomedExample` are the runs,
  `ProcessPromises.SettlesExactlyUnlessDoomed` the condition.
- Unregistering a channel by its alias, or registering a taken id, leaves names that lead
  astray: `ChannelRuns.ByAliasExample`, `ChannelRuns.TakenIdExample`,
  `ChannelRuns.UnregisterCoherentExactlyById`, `ChannelRuns.RegisterCoherentExactlyWhen`; over
  whole runs: `ChannelRuns.NamesStayRightExactlyWhen`.
- A channel registered with the infinite timeout 1 and then extended has a finite timeout and
  still never times out: `ChannelRuns.ExtendedOneExample`, `ChannelRuns.OneIsForever`.
- Adding a function to the router and removing it again takes earlier copies of it away as
  well, and leaves the message type registered: `Transactions.LostListenerExample`,
  `Transactions.RemovalUndoesExactlyWhen`.

## Model

| member | source | states |
|---|---|---|
| Framing.ChunkingDoesNotMatterExactlyWhen | lib/wire/messagestream.ts:9-39 | For every resting decoder and every byte stream: all ways of cutting the stream into chunks give the same frames and state as feeding it whole, if and only if no length prefix that decodes to a negative -k has more than k bytes behind it. |
| Framing.DrainAppend | lib/wire/messagestream.ts:9-39 | Feeding a part and then the rest equals feeding both at once, partial prefixes, partial bodies and held-back empty frames included. |
| Framing.ChunkingShows | lib/wire/messagestream.ts:14-30 | When a negative prefix has too many bytes behind it, some cut of the stream changes the result. |
| Framing.NegativePrefixExample | lib/wire/messagestream.ts:14-28 | The prefix FF FF FF FF 0F and two more bytes: one frame together, another frame split. |
| Framing.Turn | lib/wire/messagestream.ts:11-37 | Each turn of the loop shortens the buffer, or leaves the body without consuming a byte: the loop terminates. |
| Framing.RoundTrip | lib/wire/messagestream.ts:9-55 | For all payloads shorter than 2^31 bytes and every cut of the encoder's output, the decoder pushes the payloads in order and ends fresh, exactly when the last payload is not empty; else it holds exactly that one back. |
| Framing.PrefixDecodesExactlyBelow2To31 | lib/wire/messagestream.ts:13-50 | The length bytes of n decode to n if and only if n is below 2^31. |
| Framing.LongLengthReads | lib/wire/messagestream.ts:13-50 | The length bytes of n at or above 2^31 read back as the int32 value of n if that is not negative; otherwise as its lowest fourteen bits, with the prefix unfinished if the fifteenth is set. |
| Framing.OverlongPrefixExample | lib/wire/messagestream.ts:13-24 | FF FF FF FF 87 7F is the length 2147484663: the sixth shift count is 35 modulo 32, and the sum is no int32. |
| Framing.PrefixAdds | lib/wire/messagestream.ts:12-24 | From position i of a prefix, the length bytes of v add v * 128^i, in the source's 32-bit shifts. |
| Framing.DelimitedStream.Transform | lib/wire/messagestream.ts:9-39 | The decoder's loop over its four fields leaves the state and pushes the frames of the functional decoder, for every chunk. |
| Framing.DelimitingStream.Transform | lib/wire/messagestream.ts:43-54 | The encoder's loop pushes the length bytes and then the payload. |
| TtlSets.TTLSet.Bump | lib/util/ttlset.ts:26-41 | On the linked items: a new value goes behind the live chain, a known one becomes the live chain by itself; items stay in disjoint, correctly linked chains that partition the index. |
| TtlSets.TTLSet.Drop | lib/util/ttlset.ts:43-45 | The value leaves its chain and the index, live or stranded; an absent value changes nothing. |
| TtlSets.TTLSet.Check | lib/util/ttlset.ts:59-71 | Dropping from the head until it is not expired, on the linked items. |
| TtlSets.TTLSet.Remove | lib/util/ttlset.ts:92-110 | Unlinking joins the item's neighbours, moves `head` and `tail` if it was there, and changes nothing else. |
| TtlSets.TTLSet.Create | lib/util/ttlset.ts:73-80 | A fresh item behind the tail, under its value in the index but not yet in the live chain; the change is logged. |
| TtlSets.TTLSet.DropItem | lib/util/ttlset.ts:82-90 | The item's value leaves its chain and the index, and the change is logged. |
| TtlSets.TTLSet.ScheduleCheck | lib/util/ttlset.ts:51-57 | The timer is cleared, and set again if there is a head. |
| TtlSets.UnlinkNeighbours | lib/util/ttlset.ts:96-101 | After unlinking, each value's neighbours are what they were with the unlinked one skipped. |
| TtlRuns.RunInvariant | lib/util/ttlset.ts:26-110 | After every run, re-bumps included: disjoint chains that list exactly the index, changes that alternate per value and fold to the index, and a pending check whenever the live chain is not empty. |
| TtlRuns.CheckOnTimeDropsNothing | lib/util/ttlset.ts:51-71 | Scheduled for a head that has not expired, the check is due at the last moment at which the head is not expired: run then, it drops nothing and is scheduled for the same moment; run later, it drops the head; for an expired head it is due at once. |
| TtlRuns.DropsMakeLateExactlyWhen | lib/util/ttlset.ts:26-71 | After every run that ends in a bump or a check: some drops can make the pending check late for the head they leave, if and only if the head has time left and some live value carries an older time. |
| TtlRuns.CheckInTimeExactlyWhen | lib/util/ttlset.ts:26-71 | In every run the pending check is no later than the moment of scheduling or the end of the head's time, if and only if the head is no older than the one the check was scheduled for, or that one had to go at once. |
| TtlRuns.CheckAlwaysInTime | lib/util/ttlset.ts:26-71 | In every run with times that never decrease, re-bumps included, the pending check is in time for the head. |
| TtlRuns.NoHeadNoCheck | lib/util/ttlset.ts:51-57 | After every bump and check of every run, a check is pending if and only if the live chain is not empty. |
| TtlRuns.LiveAfter | lib/util/ttlset.ts:26-71 | A bump stamps its value and puts it behind the live chain, or alone into it; a drop takes the value away; a check takes away expired heads; all other times stay. |
| TtlRuns.RunOldestFirst | lib/util/ttlset.ts:26-71 | With such times the live chain is sorted by time after every run. |
| TtlRuns.LateCheckExample | lib/util/ttlset.ts:26-57 | Bump 1 at 100, bump 2 with the older time 10, drop 1: value 2 waits for the check of value 1. |
| TtlRuns.RunEmitsWhatIsAskedFor | lib/util/ttlset.ts:26-90 | In every run the emitted events are exactly: an insert for each non-silent bump of an absent value, a drop for each non-silent drop of a present one, and a drop for each expired head of a check; and the recorded changes are those and the silent ones, in order. |
| TtlRuns.EmittedEventsExactlyWhen | lib/util/ttlset.ts:73-90 | In every run these events alternate about a value if and only if each comes after an even number of silent changes that callers ask for, and then fold to the index if and only if the number of silent changes is even. |
| TtlRuns.SilentInsertExample | lib/util/ttlset.ts:73-90 | A silent insert and an emitted drop: the only event is a drop. |
| TtlRuns.BumpReachableExactlyWhen | lib/util/ttlset.ts:26-41 | A re-bump leaves the live chain equal to the one value; every value is reachable afterwards exactly when the value was new and all were reachable, or it was the only one. |
| TtlRuns.ExpireDropsHeads | lib/util/ttlset.ts:59-71 | A check drops exactly the expired values at the head, in order, once each, and touches nothing else. |
| TtlRuns.CheckExpiresAllExactlyWhen | lib/util/ttlset.ts:59-71 | After a check no value is older than the time to live, if and only if no stranded value was and the expired live values were a prefix. |
| TtlRuns.StrandedExample | lib/util/ttlset.ts:26-71 | Bump 1, bump 2, bump 1: no later check drops 2. |
| TtlRuns.RunShowsPlain | lib/util/ttlset.ts:26-110 | Without re-bumps and with times that never decrease, the set is a plain list in bump order, sorted by time, and list and index agree. |
| TtlRuns.CheckDropsStale | lib/util/ttlset.ts:59-71 | Then a check drops exactly the values older than the time to live, oldest first, once each. |
| SeqQueues.OrderedDelivery | lib/wire/seqqueue.js:9-55 | For every arrival order within the window: nothing is skipped if and only if the backlog stays empty or below the limit, and then the delivered messages are exactly the longest contiguous run, in order. |
| SeqQueues.ConsumeInOrder | lib/wire/seqqueue.js:28-55 | One run of the loop delivers the rest of the contiguous run, and skips exactly when the remaining backlog has reached the limit. |
| SeqQueues.NextFrom | lib/wire/seqqueue.js:32-45 | The longest contiguous run: all before it arrived, it did not. |
| SeqQueues.RunIsBalanced | lib/wire/seqqueue.js:1-55 | After every run, duplicates and skips included: accepted handlers are those delivered, overwritten and stored; `waiting` is what is neither delivered nor skipped; `lo` stays in bounds; an unlocked queue rests only with nothing to do. |
| SeqQueues.LockedUntilStarted | lib/wire/seqqueue.js:1-31 | In every run the queue is open exactly if the last `start` or `stop` was a start; otherwise a call delivers and skips nothing, and a push only stores its handler and counts. |
| SeqQueues.SeqQueue.Push | lib/wire/seqqueue.js:20-27 | Push on the array is the functional step, out-of-range numbers ignored. |
| SeqQueues.SeqQueue.Start | lib/wire/seqqueue.js:9-15 | Start on the array is the functional step. |
| SeqQueues.SeqQueue.Stop | lib/wire/seqqueue.js:16-19 | Stop on the array is the functional step. |
| SeqQueues.SeqQueue.MaybeConsume | lib/wire/seqqueue.js:28-55 | The loop on the array is the functional one; it terminates by `waiting`. |
| Processes.RunConserves | lib/util/ProcessManager.ts:99-448 | In every interleaving in which removes of one id do not overlap, the pool and all holdings are together the initial multiset. |
| Processes.HeldIsNotFree | lib/util/ProcessManager.ts:11-136 | With distinct initial resources, what a managed process holds is one of them, held once and not in the pool. |
| Processes.NeverShared | lib/util/ProcessManager.ts:11-136 | With distinct initial resources no two processes ever hold the same one. |
| Processes.FinishConservesExactlyWhen | lib/util/ProcessManager.ts:318-344 | The end of a remove conserves resources if and only if it releases what the id holds at that moment. |
| Processes.OverlapExample | lib/util/ProcessManager.ts:318-344 | Two overlapping removes put the resource into the pool twice. |
| Processes.EveryStartSettlesAtMostOnce | lib/util/ProcessManager.ts:160-169 | In every interleaving each start resolves its promise at most once. |
| Processes.IdsChangeOnlyBy | lib/util/ProcessManager.ts:98-344 | The set of managed ids changes only through `create` and the end of `remove`, by that id. |
| Processes.NoResurrection | lib/util/ProcessManager.ts:179-287 | No callback of a start whose id is absent changes a record, begins a start or schedules a restart. |
| Processes.StartThenReady | lib/util/ProcessManager.ts:139-281 | An undisturbed start ends with the process running, its promise resolved with true, and every other record and start as before. |
| Processes.StaleReadyExample | lib/util/ProcessManager.ts:139-344 | Removed while spawning and created again: the old child's ready message marks the new record running. |
| ProcessRuns.KeepsToItselfExactlyWhen | lib/util/ProcessManager.ts:98-344 | At no point of a run can a callback of a start, without a further create, change another record than the one it was begun for, if and only if no create succeeded for an id of which a start was being spawned, listening or about to restart. |
| ProcessRuns.OwnExactly | lib/util/ProcessManager.ts:139-287 | In a reachable state no such callback can follow if and only if every start that may still act was begun for the record its id leads to. |
| ProcessRuns.StaleRestartExample | lib/util/ProcessManager.ts:139-344 | Crashed, removed, created again, started and ready within the two seconds: the restart sets the running successor to starting and spawns a second child for it. |
| ProcessRuns.HeardNoMore | lib/util/ProcessManager.ts:171-316 | Once a start has cleaned up, by its child's exit or error or by the terminate handler, no event of that child has an effect in any continuation of the run. |
| ProcessRuns.RunTimersManaged | lib/util/ProcessManager.ts:329-390 | In every interleaving in which removes of one id do not overlap, a stored timer belongs to a managed process. |
| ProcessRuns.StateChangesClearTimers | lib/util/ProcessManager.ts:62-390 | Every step that changes a process's state clears its timer, and only `setTimer` of its id stores one. |
| ProcessRuns.FinishTimersExactlyWhen | lib/util/ProcessManager.ts:329-343 | The end of a remove leaves no timer behind if and only if the id leads to the record it looked up, to none, or to one without a timer. |
| ProcessRuns.OverlapTimerExample | lib/util/ProcessManager.ts:318-381 | Two overlapping removes with a create and a `setTimer` between their ends: the timer outlives its process. |
| ProcessPromises.SettlesExactlyUnlessDoomed | lib/util/ProcessManager.ts:139-316 | In every interleaving, some continuation with any calls and events settles the promise of a start, if and only if no stop ran the terminate handler, while it only waited for its child, of the start itself or of one that it waits for through its restarts. |
| ProcessPromises.CanSettleExactly | lib/util/ProcessManager.ts:160-287 | In a reachable state a start can still settle if and only if it has settled, listens to its child, is being spawned, failing, about to restart or ready, or waits for a later start that can. |
| ProcessPromises.RunBusy | lib/util/ProcessManager.ts:160-287 | In every run a start is at one stage at most: being spawned, listening, failing, about to restart, or waiting for its restart. |
| ProcessPromises.DoomedExample | lib/util/ProcessManager.ts:179-316 | Crashed, restarted, and the restart stopped before it is ready: the first start, which no stop forsook, waits for ever. |
| ProcessTraces.SettlesWithTheFirstAnswer | lib/util/ProcessManager.ts:160-287 | In every interleaving a promise has settled with the first answer that the events give its start: true for a clean exit and the end of the ready callback; false for a failed spawn, a signal, an error, and a ready message, crash or restart whose id is gone; the answer of the restart it waits for. |
| ProcessTraces.FailedSpawnExample | lib/util/ProcessManager.ts:139-286 | Created, started, and the spawn fails: the promise settles with false. |
| ProcessTraces.RestartsOnlyAfterCrash | lib/util/ProcessManager.ts:179-257 | In every interleaving only a start whose child has exited with a code, while it was listened to, is restarted. |
| ProcessTraces.StateFollowsTheRun | lib/util/ProcessManager.ts:98-390 | In every interleaving a managed process has the state, start time, timer and resources that the events since its creation give it: starting from a start or restart, running from a ready message, what `setState` says. |
| ProcessTraces.CreateTakesExactlyWhen | lib/util/ProcessManager.ts:99-136 | In every reachable state a create succeeds if and only if the id is free and the pool suffices; then the process holds that many resources from the front; otherwise nothing changes. |
| ProcessTraces.PoolChangesOnlyBy | lib/util/ProcessManager.ts:11-344 | Only a create that succeeds takes from the pool, at its front, and only the end of a remove gives back, behind it, what the record it looked up holds. |
| ProcessTraces.StartAnswersAtOnceExactlyWhen | lib/util/ProcessManager.ts:139-149 | In every run `start` answers false at once if and only if the id is not managed, and true if and only if the process runs and the start is not forced. |
| ProcessTraces.RemoveGoesOn | lib/util/ProcessManager.ts:302-448 | In every interleaving a remove of a managed process, by itself or in a cleanup, is in progress until the step at which the id is managed no longer. |
| ProcessStarts.AccountedExactlyUnlessForsaken | lib/util/ProcessManager.ts:139-316 | In every interleaving a start has settled, listens to its child, or is served by something that waits, be it for another start, if and only if no stop has forsaken it. |
| ProcessStarts.ForsakenNeverSettles | lib/util/ProcessManager.ts:160-316 | The promise of a forsaken start is open in every continuation of the run. |
| ProcessStarts.ForsakenExample | lib/util/ProcessManager.ts:139-316 | Created, started, spawned and stopped before it is ready. |
| ProcessObjects.ResourcePool.Allocate | lib/util/ProcessManager.ts:16-21 | All or nothing, from the front; what is given and what stays are the old pool. |
| ProcessObjects.ResourcePool.Release | lib/util/ProcessManager.ts:24-26 | Returned resources go to the end of the pool. |
| ProcessObjects.ProcessManager.Create | lib/util/ProcessManager.ts:99-136 | On the objects: the functional step, with a fresh record or nothing changed. |
| ProcessObjects.ProcessManager.Start | lib/util/ProcessManager.ts:139-162 | On the objects, up to the first await. |
| ProcessObjects.ProcessManager.ResolveOnce | lib/util/ProcessManager.ts:164-169 | The first value is kept, later ones are ignored. |
| ProcessObjects.ProcessManager.RemoveListeners | lib/util/ProcessManager.ts:171-177 | The child's listeners go, if there is a child. |
| ProcessObjects.ProcessManager.RunTerminateHandler | lib/util/ProcessManager.ts:313-316 | The listeners of the start that set the handler go. |
| ProcessObjects.ProcessManager.AfterSpawn | lib/util/ProcessManager.ts:236-281 | Listeners are attached, and the terminate handler goes to the record found under the id now. |
| ProcessObjects.ProcessManager.UpdateTerminateHandler | lib/util/ProcessManager.ts:294-299 | The handler of the record found under the id is replaced, if there is one. |
| ProcessObjects.ProcessManager.HandleReady | lib/util/ProcessManager.ts:214-227 | The record found under the id now is marked running and its timer cleared, or the start settles with false. |
| ProcessObjects.ProcessManager.MessageHandler | lib/util/ProcessManager.ts:264-271 | A ready message is handled, and the listener removes itself. |
| ProcessObjects.ProcessManager.FinishRemove | lib/util/ProcessManager.ts:329-343 | The captured record's resources are released and the id deleted. |
| ProcessObjects.ProcessManager.SetState | lib/util/ProcessManager.ts:357-370 | Timer cleared, state set, start time renewed unless running. |
| ProcessObjects.ProcessManager.SetTimer | lib/util/ProcessManager.ts:373-381 | The record found under the id has the timer, in place of an older one. |
| ProcessObjects.ProcessManager.ClearTimer | lib/util/ProcessManager.ts:384-390 | The record found under the id has no timer. |
| Channels.RunInvariant | lib/wire/channelmanager.ts:23-99 | In every allowed run: coherent names, timers in correspondence with timed channels, now <= due <= lastActivity + timeout, delays within Int32, and timeouts never early and at most once per registration. |
| ChannelRuns.TimeoutsAtDeadlines | lib/wire/channelmanager.ts:79-99 | Every timeout found by a timer was at exactly lastActivity + timeout, no channel with a timer is past that, and no registration timed out twice. |
| ChannelRuns.SilentChannelTimesOut | lib/wire/channelmanager.ts:23-99 | In every allowed run, a channel registered with any timeout above 1, however far beyond Int32, and then left alone: it is there before its deadline and gone after it, it can only time out at exactly the deadline and once, and at the deadline its timer is due and times it out. |
| ChannelRuns.LivesUntilItsDeadline | lib/wire/channelmanager.ts:23-99 | In every allowed run in which it is not unregistered, a channel has exactly the deadline that its registration and every keepalive and extension through its id or alias give it: it is there while the clock is below it, gone once the clock is past it, and times out only at a moment at which the clock had reached it, once. |
| ChannelRuns.ArmedForTheRest | lib/wire/channelmanager.ts:79-98 | A registration and a timer that finds time left arm a timer for the rest of it, or for 2147483647 ms if that is less. |
| ChannelRuns.TimeGoesOn | lib/wire/channelmanager.ts:79-99 | In every allowed run, after finitely many timers that are due none is due any more: each check removes the channel or arms a timer for later. |
| ChannelRuns.OneIsForever | lib/wire/channelmanager.ts:67-98 | In every allowed run, a channel registered with timeout 1 never has a timer and never times out, even if it is extended, and stays until it is unregistered. |
| ChannelRuns.ExtendedOneExample | lib/wire/channelmanager.ts:67-98 | Extended from 1 to 10 and idle for 1000 ms, the channel is still there and no timer is pending. |
| ChannelRuns.NamesInEveryRun | lib/wire/channelmanager.ts:23-72 | In every allowed run, each name is the id or the alias of its record; through either, a keepalive notes the time and an extension adds to the timeout, of that record and no other; and unregistering by id takes exactly these names away. |
| ChannelRuns.NamesStayRightExactlyWhen | lib/wire/channelmanager.ts:23-99 | In every run without restriction, each name leads to its own record at all times, if and only if no step registers an id whose old record has another name, unregisters by alias, or lets a left-over timer time out an alias. |
| ChannelRuns.UnregisterCoherentExactlyById | lib/wire/channelmanager.ts:47-58 | Unregistering keeps the names coherent if and only if it is done by id. |
| ChannelRuns.ByAliasExample | lib/wire/channelmanager.ts:47-58 | Unregistered by its alias, the channel stays under its id without a timer. |
| ChannelRuns.RegisterCoherentExactlyWhen | lib/wire/channelmanager.ts:23-45 | Registering, with its first check, keeps the names coherent if and only if it is refused, the id is fresh, or its old record had no other name. |
| ChannelRuns.TakenIdExample | lib/wire/channelmanager.ts:23-45 | Registered again under the same id, the channel's alias leads to the old record, whose timer checks the new one. |
| Channels.ChannelManager.Register | lib/wire/channelmanager.ts:23-45 | On shared records: refused exactly when the alias is taken, with nothing changed; else the functional step. |
| Channels.ChannelManager.Unregister | lib/wire/channelmanager.ts:47-58 | On shared records, the functional step. |
| Channels.ChannelManager.Keepalive | lib/wire/channelmanager.ts:60-65 | On shared records, the functional step. |
| Channels.ChannelManager.UpdateTimeout | lib/wire/channelmanager.ts:67-72 | On shared records, the functional step. |
| Channels.ChannelManager.Fire | lib/wire/channelmanager.ts:94-97 | A timer's callback is the check of its id. |
| Channels.ChannelManager.Check | lib/wire/channelmanager.ts:79-99 | On shared records: time out, arm again within Int32, or leave an infinite timeout alone. |
| LogQueue.LosslessFifo | lib/util/logger.ts:144-192 | For every interleaving and all answers of stdout: written then pending lines are the issued lines in order; blocked exactly while a listener is attached; pending only while blocked, after a refused write. |
| LogQueue.LogBlocksExactlyWhenRefused | lib/util/logger.ts:144-168 | After a log call in every run: its line is written if stdout was free and queued if not, and stdout is blocked if and only if it refused its last write. |
| LogQueue.DrainWritesToFirstRefusal | lib/util/logger.ts:170-191 | After a drain event in every run: pending lines are written up to the first refused one, at least one if there was one, and stdout is blocked again if and only if there was a refusal. |
| LogQueue.QuietUntilDrain | lib/util/logger.ts:144-191 | Nothing is written between a refusal and the next drain event. |
| LogQueue.DrainEmptiesExactlyWhen | lib/util/logger.ts:175-190 | A drain empties the queue if and only if stdout accepts every pending line but possibly the last. |
| LogQueue.Log.Write | lib/util/logger.ts:144-168 | The fields after a log call. |
| LogQueue.Log.SetupDrainListener | lib/util/logger.ts:170-174 | A listener is attached afterwards. |
| LogQueue.Log.OnDrain | lib/util/logger.ts:175-191 | The drain loop on the fields is the functional flush. |
| Transactions.FirstAnswerSettles | lib/wire/transmanager.ts:40-78 | Among any number of concurrent transactions, the first answer settles a transaction for good: a done message on its own channel resolves it with the reply if that reports success and rejects it with the reply if not, its own timer times it out; with no answer it is open. |
| Transactions.SettlesInIsolation | lib/wire/transmanager.ts:40-78 | Each transaction ends as the events after its start would end it alone. |
| Transactions.SharedChannelExample | lib/wire/transmanager.ts:46-71 | Two transactions on one channel would both settle by one done message. |
| Transactions.RunExact | lib/wire/transmanager.ts:46-76 | In every run listeners, subscriptions and timers are exactly those of the unsettled transactions, one each, and no promise is settled twice. |
| Transactions.StepIsolated | lib/wire/transmanager.ts:49-71 | One event changes the outcome of exactly the open transactions that react to it. |
| Transactions.DispatchByType | lib/wire/router.ts:17-100 | After every list of registrations and removals, by type or by name: a message reaches the functions that listen to its type's name, in order, with the envelope's channel or its own, and then those for every message; types never registered, missing messages and missing type URLs reach nobody. |
| Transactions.RemovalUndoesExactlyWhen | lib/wire/router.ts:17-100 | Adding a function for a type and removing it again leaves the deliveries of a message as they were, if and only if: its type was registered and the function did not listen under a name it is delivered by; or its type was not registered and still is not, or nobody is left to listen. |
| Transactions.LostListenerExample | lib/wire/router.ts:17-56 | A function that listens already, added and removed again, is lost. |
| Transactions.WireRouter.Handle | lib/wire/router.ts:58-100 | The handler's look-ups and two emits are the functional dispatch. |
| Transactions.WireRouter.On | lib/wire/router.ts:26-28 | The function is added to its type's listeners and the type is registered. |
| Transactions.WireRouter.OnEvent | lib/wire/router.ts:29-31 | The function is added to the event's listeners. |
| Transactions.WireRouter.RemoveListener | lib/wire/router.ts:41-56 | The function goes from the listeners, however often it was added. |
| Transactions.WireRouter.RemoveAllListeners | lib/wire/router.ts:35-37 | The type's listeners go; the type stays registered. |
| Transactions.TransactionManager.RunTransaction | lib/wire/transmanager.ts:46-76 | One listener, one subscription, one timer, on a router for the done message. |
| Transactions.TransactionManager.CloseTransaction | lib/wire/transmanager.ts:50-71 | Timer, subscription and listener go, and the promise is settled unless it was. |
| Transactions.TransactionManager.OnTimeout | lib/wire/transmanager.ts:63-69 | The timer closes its own transaction. |
| Transactions.TransactionManager.Receive | lib/wire/transmanager.ts:49-61 | The listeners present when a message comes are called in order, with the functional effect. |
| Srv.SortOrders | lib/util/srv.ts:6-44 | For every sequence of draws: a permutation of exactly the positive-weight records, in order of priority; a permutation of the input if and only if no weight is zero. |
| Srv.OrderingsExactly | lib/util/srv.ts:6-44 | An ordering is the result for some sequence of draws if and only if it is a permutation of the positive-weight records in order of priority. |
| Srv.SortByIsStable | lib/util/srv.ts:8 | Records of equal priority, or of equal weight, keep their order. |
| Srv.FirstPickByRank | lib/util/srv.ts:25-41 | In a group the shares of the draw are laid out by descending weight, ties in the group's order, and the first pick is the record into whose share the draw falls. |
| Srv.PickIsShuffle | lib/util/srv.ts:26-37 | The picks of a group are exactly its positive-weight records. |
| Srv.ChosenExactlyInShare | lib/util/srv.ts:27-31 | A draw picks a record if and only if it falls into that record's share of the total weight. |
| Srv.FirstPickExactlyPositive | lib/util/srv.ts:26-37 | A record can be picked first if and only if its weight is positive. |
| Srv.GroupsTiered | lib/util/srv.ts:6-24 | Grouping keeps the sorted records: one priority per group, growing from group to group. |
| Srv.PickAll | lib/util/srv.ts:26-37 | The recursive pick with its counter loop; `sum` is always the total weight that remains. |
| Srv.ShuffleWeighted | lib/util/srv.ts:25-41 | The picks of one group, sorted by weight first. |
| Srv.GroupByPriority | lib/util/srv.ts:6-24 | The caller's array is sorted by priority in place, and the reduce loop builds the groups of what it holds then. |
| Srv.SortInPlace | lib/util/srv.ts:8 | The array holds the stable sort of what it held. |
| Srv.Sort | lib/util/srv.ts:42-44 | The composition, each group taking its own draws; the caller's array ends up sorted by priority. |
| Limiters.RunIsFair | lib/util/requtil.js:22-40 | In every run: calls start in order, running never exceeds the limit, the counter is the number of running calls, and a waiting call implies the limit is reached. |
| Limiters.CountsFollowTheRun | lib/util/requtil.js:22-40 | In every run each call is accepted, and the finished calls are those whose promises settled. |
| Limiters.CallsPartition | lib/util/requtil.js:22-40 | Each accepted call is exactly one of queued and started, and only started ones finish. |
| Limiters.Limiter.MaybeNext | lib/util/requtil.js:26-31 | The loop is the functional step. |
| Limiters.Limiter.Call | lib/util/requtil.js:36-39 | A call is queued and started if there is room. |
| Limiters.Limiter.OnDone | lib/util/requtil.js:32-35 | A finished call makes room for the next. |
| FailCounters.StoredIsWindowExactlyWhen | lib/util/failcounter.ts:14-27 | With a clock that never goes back, the stored values are the calls inside the window if and only if the window is positive. |
| FailCounters.EmitsExactlyWhenExceeded | lib/util/failcounter.ts:14-27 | The event is emitted exactly when the calls inside the window exceed the threshold. |
| FailCounters.EachCallCuts | lib/util/failcounter.ts:14-27 | With any clock and any window, a call drops the stored values before the first that is still in the window, keeps itself, and emits exactly when more than the threshold are stored. |
| FailCounters.FailCounter.Increment | lib/util/failcounter.ts:14-27 | The shifting loop is the functional step. |
| SimObservers.EverySnapshotReplays | lib/units/ios-provider/IOSSimObserver.ts:33-47 | After every sequence of snapshots the state is the last one's set, and the events alternate per simulator, attached first, and fold to it. |
| SimObservers.OneEventPerChange | lib/units/ios-provider/IOSSimObserver.ts:33-47 | A snapshot emits one event for each simulator that came or went and none for the others, duplicates or not. |
| SimObservers.EventsInOrder | lib/units/ios-provider/IOSSimObserver.ts:33-47 | A snapshot tells first of the simulators that went, in the order in which they came, then of those that came, in the order in which it first lists them. |
| SimObservers.IOSSimObserver.ProcessState | lib/units/ios-provider/IOSSimObserver.ts:33-47 | The two loops are the functional step. |

## Left out

- Framing.DelimitedStream.Transform: lengths are unbounded integers, where the source's sums are doubles, exact up to 2^53; that takes more than four million continuation bytes in one prefix to matter.
- Framing.DelimitingStream.Transform: what the surrounding byte stream does with an empty pushed frame; the model logs the calls of `push`.
- TtlSets.TTLSet.Bump: keys that a plain JavaScript object inherits, and times that are not numbers.
- TtlSets.TTLSet.Check: the clock is read once per call, while `bump` and `check` read it again in `scheduleCheck`.
- TtlRuns.RunInvariant: `stop`, which clears the timer and nothing else.
- SeqQueues.SeqQueue.Push: handlers that call back into the queue, and sequence numbers that are negative or not whole.
- Processes.RunConserves: the order in which `cleanup` visits ids is an argument; a manager without a pool is one whose creates ask for no resources.
- Processes.NoResurrection: the killing of the child process itself.
- Transactions.SettlesInIsolation: fresh response channels are assumed (the source draws UUIDs); `runTransactionDev` listens on a shared router and is not modelled.
- Transactions.DispatchByType: the binary decoding of envelopes and messages, and listener contexts; the libraries are not part of this model.
- Srv.Sort: the statistical distribution of the picks beyond each record's share. Only the caller's array is modelled as an array; the groups are internal.
- Limiters.RunIsFair: a handler that throws before it returns a promise.
- The sorting of arrays is the language's own, modelled as a stable insertion sort.
- `getStats` and `checkHealth` of the process manager: single passes.
- Log formatting and colours, and the `entry` events; `srv.resolve` and `srv.attempt`; the listing of simulators and its timer.
- Sockets, ZeroMQ, MongoDB, HTTP, adb, the authentication units, the command line and the user interface.
