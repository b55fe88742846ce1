# Verified models of the cache, lifecycle, throttle and retry protocols

A Dafny model of five components of the albstractions Go modules, with proofs of what each is for.
`dafny verify dfyconfig.toml` checks all of it.

| files | component |
|---|---|
| `WriteThroughModel`, `WriteThrough` | per-key write locks of `cache.WriteThrough`, and the consistency of front and store that rests on them |
| `FlightModel`, `FlightGroup`, `ReadThrough`, `TierModel` | the single-flight protocol of `cache.ReadThrough`, and stacks of read-through tiers under single and concurrent reads |
| `LifecycleModel`, `LifecycleAccounting`, `LifecycleCalls`, `Lifecycle`, `Teardown` | `lifecycle.Group`: registration racing shutdown, causes and errors, the timed teardown |
| `Expiry`, `MemoryModel`, `Memory`, `Sharded` | expiry resolution, `cache.Memory` under stale clock samples, `cache.Sharded` and its iteration |
| `Cadence`, `ThrottleModel`, `Throttle` | the due-time recurrence of `throttle.Throttle`, and the recurrence under its semaphore |
| `Stop`, `Retry` | stop conditions as trees with a value, and the loop of `retry.Retry.Do` |
| `Basics` | options, set sizes, sums |

## How the concurrent components are modelled

A protocol is a transition system (`…Model`). One step is one section under the component's mutex,
one channel event, or one call into code the model does not see (a loader, a writer, `fn`). The
number of callers, keys and goroutines is arbitrary, contexts end at any time, and a run is any
sequence of enabled steps. An inductive invariant is proved for every step, and the theorems are
about the state after any run.

Beside each system is the object: a class with the source's own fields (`locks`, `refs`, `m`,
`started`, `pending`, `nextAllowed`, …) and one method per section, which changes them in place.
Each method's contract says that the new state is exactly the system's next one (`model == Next(…)`,
with the fields agreeing with `model`), so what holds after every run holds of the object under every
interleaving. Locks and calls are objects, told apart by identity.

Sequential code (`isMiss`, `GetContext`, `cleanup`, `rebuild`, snapshots, iteration, the teardown
loops, `Retry.Do`) is methods with loops or recursion proved against a specification.

## Assumptions

- The clock never goes back. Times are integers; zero is the zero time, and means never.
- A writer or deleter that fails or panics leaves the store as it was, and nobody else writes the store or the wrapped front.
- The front of a `WriteThrough` or `ReadThrough` is infallible, as `Memory` is.
- Keys equal themselves, and code called under a key does not re-enter it.
- A timer never fires early. In the timed teardown, the budget and the callbacks' own timeouts also end on time.
- Loads, writers and `fn` may take any time; where a bound needs them to
  end, the statement says so.

## Where the code and its documentation differ

- `WithMaxInflight` says that the cap bounds how far ahead the cadence can be reserved
  (throttle/throttle.go:58-61). Callers cancelled in their paced wait give their slot back and keep their
  turn, so it does not: `ThrottleModel.ReservationHasNoBound` gives runs of a one-slot throttle reserved
  any number of delays ahead. `CapBoundsReservationExactly` gives the condition under which the bound
  holds, and `ReservationIsBounded` the bound that always does.
- A `Memory` operation is not always judged at the time it sampled: maintenance that sampled later can run
  first and remove an entry the operation's own time would still see (cache/memory.go:160-195). A lookup
  then misses, a snapshot omits the entry, and a `Keep` set of the entry resolves as `Default`
  would. `MemoryModel.OvertakenOperationsDiffer` is such a run; `ReadAtOwnTimeExactly`, `SnapshotAtOwnTimeExactly` and `SetAtOwnTimeExactly` say exactly when it
  happens; and `EveryOperationIsAtomic` says what holds always: each key is judged at a time between the
  operation's sample and its section.
- Wrapping a front that already holds a value other than the store's leaves it there until an update or an
  eviction reaches the key (cache/writethrough.go:79-91), which is the one exception in
  `WriteThroughModel.UnheldKeyIsConsistent`; `StaleFrontIsPossible` is such a front.

## Model

| member | source | states |
|---|---|---|
| WriteThroughModel.MutualExclusion | cache/writethrough.go:180-227 | after any run of any number of callers, at most one is between taking and draining a lock of a given key, though lock objects are removed and re-created |
| WriteThroughModel.LocksCount | cache/writethrough.go:66-69 | a lock's count is the number of callers that refer to it, and its channel is full exactly when one caller holds it, else none does |
| WriteThroughModel.ListedIffInUse | cache/writethrough.go:186-193 | a key has a lock in the table exactly while some call for it is under way: none is missing, none is leaked |
| WriteThroughModel.LocksExclude | cache/writethrough.go:195-203 | the counts, the full channel and the listing of referred locks together imply one holder per key |
| WriteThroughModel.StepKeepsLocks | cache/writethrough.go:180-227 | every step keeps the lock invariant: counts, channel contents, and every referred lock being the one listed for its key |
| WriteThroughModel.FrontFollowsStore | cache/writethrough.go:125-155 | with a deleter, a key's front history is a prefix of its store history, at most one update behind, and equal when nobody holds the key |
| WriteThroughModel.UnheldKeyIsConsistent | cache/writethrough.go:120-155 | deleter or not, and after any errors, panics, evictions and abandoned waits, a key nobody holds is missing in the front or equal to the store, if and only if the front did not come with a stale value that no update or eviction has reached; with a deleter and an update since the last eviction they agree outright |
| WriteThroughModel.StaleFrontIsPossible | cache/writethrough.go:79-91 | a front wrapped with a value the store does not have shows it while nobody holds the key |
| WriteThroughModel.ReturnedCallsTellTheTruth | cache/writethrough.go:120-155 | a call that returned nil made its update in front and store, and one that returned an error made none anywhere |
| WriteThroughModel.StoreSeesWhatItShould | cache/writethrough.go:143-155 | in every run, with a deleter the store's history is the front's due history, and without one exactly its sets: no delete reaches the store |
| WriteThroughModel.ValuesAreTheLastUpdates | cache/writethrough.go:131-154 | in every run store and front hold the value of the last set in their history, nothing after a delete, and what they started with before any update |
| WriteThroughModel.GivingUpNeedsAnEndedContext | cache/writethrough.go:202-208 | a call returns its context's error only if that context has ended |
| WriteThroughModel.NoWedge | cache/writethrough.go:195-218 | a caller that has not returned can take its next step, or waits on a lock whose holder can |
| WriteThroughModel.StepKeepsInv | cache/writethrough.go:125-227 | every step keeps the lock, data, pending-update and authorship invariants |
| WriteThrough.WriteThrough.constructor | cache/writethrough.go:79-91 | a new object, over any given front and store, is an initial state of the system |
| WriteThrough.WriteThrough.Enter | cache/writethrough.go:186-193 | the first section of lock is one step: the listed lock, or a fresh one, with one more reference |
| WriteThrough.WriteThrough.TrySend | cache/writethrough.go:197-201 | the first select is one step; it takes the lock exactly if the channel was empty |
| WriteThrough.WriteThrough.WaitSend | cache/writethrough.go:202-204 | the send of the second select is one step |
| WriteThrough.WriteThrough.CallStore | cache/writethrough.go:131-133 | the store call is one step; a successful set or, with a deleter, delete changes that key, and a delete without a deleter or a failure changes nothing |
| WriteThrough.WriteThrough.CallFront | cache/writethrough.go:134 | the front update is one step and changes one key |
| WriteThrough.WriteThrough.Drain | cache/writethrough.go:216 | the receive of unlock is one step |
| WriteThrough.WriteThrough.Release | cache/writethrough.go:221-227 | release is one step; the table entry goes exactly with the last reference |
| WriteThrough.WriteThrough.Mutate | cache/writethrough.go:125-155 | a call with nobody else about: a failed store call changes nothing, a successful one updates store and front alike, and no lock is left in the table |
| FlightModel.OneLoadPerKey | cache/readthrough.go:252-279 | at most one load of a key runs at any time |
| FlightModel.UnlinkDeletesOwnEntry | cache/readthrough.go:298-300 | the entry a leader deletes is its own call's, and no other entry changes |
| FlightModel.ClosedCallNeverChanges | cache/readthrough.go:298-301 | nothing that happens after a call is closed, a new call for its key included, changes it |
| FlightModel.ResultsAreShared | cache/readthrough.go:257-272 | a waiter comes back with exactly the result of one closed, non-abandoned call of its key that it waited on, or because its own context ended; a nil error comes only with a value the loader returned with nil |
| FlightModel.JoinedCallsAreReturned | cache/readthrough.go:257-272 | a waiter that waited on a call that was not abandoned, and did not leave early, comes back with exactly that call's value and error |
| FlightModel.LoadEndDecidesAbandonment | cache/readthrough.go:286-310 | at any load's end the call is abandoned exactly if the leader's context has ended and the load returned an error, and its value and error are the load's |
| FlightModel.AbandonedExactly | cache/readthrough.go:307-310 | in every run a call is abandoned if and only if its load returned an error after its leader's context had ended, and nobody comes back with the result of such a call |
| FlightModel.EndedLoadStays | cache/readthrough.go:307-310 | what a load ended with never changes afterwards |
| FlightModel.RetriesExactly | cache/readthrough.go:263-272 | a woken waiter goes round again exactly if the load was given up and its own context is live |
| FlightModel.LoadsBounded | cache/readthrough.go:274-277 | n invocations start at most n loads, and each leads at most once |
| FlightModel.RejoinsNeverRepeat | cache/readthrough.go:253-270 | a caller back at the head of the loop never waits on a call it has waited on before |
| FlightModel.LoopsPerAbandonedCall | cache/readthrough.go:253-278 | every caller, back or not, has gone round the loop, the round it leads included, at most once per abandoned call plus one |
| FlightModel.StepLowersStepsLeft | cache/readthrough.go:252-279 | every step lowers a measure of the steps left |
| FlightModel.RunsAreBounded | cache/readthrough.go:252-279 | the unbounded loop ends: with n invocations no run has more than n(4n + 5) steps |
| FlightModel.NoWedge | cache/readthrough.go:282-311 | even after a panic or Goexit, a caller that is not back can move, or waits on an open call whose leader can |
| FlightModel.StepKeepsInv | cache/readthrough.go:252-311 | every step keeps the invariant of table, calls, leaders and waiters |
| FlightGroup.FlightGroup.constructor | cache/readthrough.go:236-239 | a new group is the system's initial state for any list of invocations |
| FlightGroup.FlightGroup.Enter | cache/readthrough.go:254-277 | the head of the loop is one step: join the call listed, or list a fresh one and lead it |
| FlightGroup.FlightGroup.Publish | cache/readthrough.go:286-310 | return, panic and Goexit each write what they should into the call: abandoned exactly for an error after the leader's context ended, a nil error exactly for a load that returned one |
| FlightGroup.FlightGroup.EndLoad | cache/readthrough.go:307-310 | the end of the load is one step |
| FlightGroup.FlightGroup.Unlink | cache/readthrough.go:298-300 | deleting the key's entry is one step |
| FlightGroup.FlightGroup.Close | cache/readthrough.go:301 | closing the call is one step |
| FlightGroup.FlightGroup.Resolve | cache/readthrough.go:263-272 | a woken waiter returns the result, its cause, or goes round, as the system says |
| FlightGroup.FlightGroup.Lead | cache/readthrough.go:282-311 | however the load ends, the leader publishes, deletes its entry and closes, in that order |
| FlightGroup.FlightGroup.Do | cache/readthrough.go:252-279 | a call with none in flight for its key runs the load, publishes its end, and leaves no entry |
| ReadThrough.GetMeans | cache/readthrough.go:143-156 | a stack of any depth answers with its highest front that has the key, else with the origin read through the union of all tiers' miss errors; other errors pass unchanged |
| ReadThrough.GetAnswers | cache/readthrough.go:143-156 | the first front that has the key answers; if none has, the origin's value is a hit, its error a miss exactly if it matches the built-in miss or an error some tier registered, and any other error comes up unchanged |
| ReadThrough.StackAnswersAsOrigin | cache/readthrough.go:105-125 | a stack is transparent for a key if and only if its highest front that has the key agrees with the origin |
| ReadThrough.ContainedIsTransparent | cache/readthrough.go:105-125 | a stack whose fronts are contained in the origin answers every Get as the origin does |
| ReadThrough.StackIsOneTier | cache/readthrough.go:105-125 | such a stack is indistinguishable from one tier with the union of the miss errors |
| ReadThrough.GetFillsFromTheTop | cache/readthrough.go:193-206 | exactly which fronts a Get fills, with what; misses and errors fill none |
| ReadThrough.GetKeepsContained | cache/readthrough.go:193-206 | a Get keeps every front contained in the origin |
| ReadThrough.TransparentAfterAnyRun | cache/readthrough.go:113-156 | after any run of reads entering at any tier and of evictions, every tier still answers as the origin through the tiers from it down |
| TierModel.ConcurrentReadsAreTransparent | cache/readthrough.go:113-156 | with looks, loads, stores and returns of any number of reads at any tiers interleaved, loads shared and fronts dropping keys, fronts stay inside the origin and every returned read answered as the origin, as if alone |
| TierModel.FrontsAnswer | cache/readthrough.go:144-146 | a look at a front that has the key gives its value up without a load |
| TierModel.MissesGoDownOneTier | cache/readthrough.go:113-125 | a miss goes to the next tier's front, or from the last to the origin |
| TierModel.FrontsAreFilledExactly | cache/readthrough.go:193-201 | a front changes by the store of a loaded value under its key, or by dropping a key, and in no other way |
| TierModel.StepKeepsInv | cache/readthrough.go:143-206 | every such step keeps fronts contained and every load in progress right for its tier |
| TierModel.NoWedge | cache/readthrough.go:143-206 | a read that has not returned can take a step of its own |
| ReadThrough.UnionMiss | cache/readthrough.go:209-219 | an error is a miss of the union of two lists exactly if it is one of either |
| ReadThrough.ReadThrough.IsMissError | cache/readthrough.go:209-219 | the early-returning loop is membership: the built-in miss or any registered error |
| ReadThrough.ReadThrough.Load | cache/readthrough.go:113-125 | the loader made of the tier below turns its miss into the miss error and leaves the tiers below as its Get does |
| ReadThrough.ReadThrough.Fetch | cache/readthrough.go:143-156 | the method that updates fronts in place, down the whole stack, is the specified Get |
| ReadThrough.ReadThrough.GetContext | cache/readthrough.go:143-156 | the same, its answer in plain terms: front hit, origin's value, registered miss, or the error as it is |
| LifecycleModel.AcceptedGoroutinesAreAwaited | lifecycle/lifecycle.go:431-454 | once run waits, every goroutine was refused, or has been counted; the wait group is zero exactly when all accepted ones are done |
| LifecycleModel.NoAddAfterWait | lifecycle/lifecycle.go:400-408 | nothing is added to the wait group once it is waited on |
| LifecycleModel.PhasesOnlyAdvance | lifecycle/lifecycle.go:330-340 | a goroutine only moves forward, so it is started at most once |
| LifecycleModel.SnapshotsAreComplete | lifecycle/lifecycle.go:365-369 | the lists run tears down hold every accepted callback and shutdown, and the shutdown of every server whose goroutine was accepted, despite Serve's two sections |
| LifecycleModel.CauseIsFinal | lifecycle/lifecycle.go:473-481 | whoever sees the context cancelled sees a cause, and no later step changes it |
| LifecycleModel.CauseIsInResult | lifecycle/lifecycle.go:458-466 | if a goroutine's error is the cause, Run returns it even when the budget ran out |
| LifecycleModel.ResultIsGenuine | lifecycle/lifecycle.go:383-389 | Run returns every failed drain in order, and besides only errors goroutines failed with, none twice |
| LifecycleModel.ResultIsExactWhenDrained | lifecycle/lifecycle.go:405-413 | if all goroutines were done at the final read, Run's errors are exactly the failed drains and one per failed goroutine |
| LifecycleAccounting.ReturnIsNoted | lifecycle/lifecycle.go:419-424 | at any return the error is to be collected exactly if it is not nil and either neither context has ended or it is no context error |
| LifecycleAccounting.VerdictsAreExact | lifecycle/lifecycle.go:419-428 | in every run a goroutine's verdict is a failure with some error if and only if its function returned that error, before either context had ended or as no context error |
| LifecycleAccounting.ReturnedErrorsAreInTheResult | lifecycle/lifecycle.go:405-413 | if all goroutines are back at the final read, exactly those errors are in Run's result |
| LifecycleAccounting.ExitIsJudgedByTheContext | lifecycle/lifecycle.go:425-427 | a clean return is an unexpected exit exactly while the group's context is live |
| LifecycleAccounting.FirstTriggerWins | lifecycle/lifecycle.go:473-481 | the first trigger enters shutdown with its own reason, and later ones change nothing |
| LifecycleAccounting.CauseIsGenuine | lifecycle/lifecycle.go:418-429 | a recorded cause is a failure that was returned, an early exit that was one, or a parent that has ended |
| LifecycleAccounting.EndingMeansShutdown | lifecycle/lifecycle.go:419-428 | no goroutine is over before the group is shutting down: one that fails or exits early brings it about |
| LifecycleAccounting.RegistrationIsOpenUntilShutdown | lifecycle/lifecycle.go:434-454 | a goroutine is refused exactly once a cause is recorded, and otherwise counted at once or, before Run, queued |
| LifecycleAccounting.SnapshotsAreWhatWasRegistered | lifecycle/lifecycle.go:365-369 | the lists run tears down are, in order, what Defer and Serve were given while registration was open |
| LifecycleAccounting.ReadyMeansSpawned | lifecycle/lifecycle.go:336-361 | once ready is closed every accepted goroutine has been counted |
| LifecycleModel.StepKeepsInv | lifecycle/lifecycle.go:329-481 | every step keeps the invariant of phases, queues, counts, servers, snapshots and errors |
| Lifecycle.Group.Register | lifecycle/lifecycle.go:434-454 | accepted exactly while registration is open; counted at once after Run has started, queued before |
| Lifecycle.Group.Require | lifecycle/lifecycle.go:177-179 | one step; it reports whether the goroutine was accepted |
| Lifecycle.Group.ServeFirst | lifecycle/lifecycle.go:228-238 | Serve's first section is one step |
| Lifecycle.Group.ServeSecond | lifecycle/lifecycle.go:239-244 | Serve's second section is one step |
| Lifecycle.Group.Defer | lifecycle/lifecycle.go:200-210 | one step: appended exactly while registration is open |
| Lifecycle.Group.RunStart | lifecycle/lifecycle.go:330-334 | run's first section is one step and takes all of pending |
| Lifecycle.Group.SpawnNext | lifecycle/lifecycle.go:336-340 | one round of the spawn loop is one step |
| Lifecycle.Group.StopRegistration | lifecycle/lifecycle.go:365-369 | run's second section is one step and gives the two lists to tear down |
| Lifecycle.Group.RecordDrains | lifecycle/lifecycle.go:383-389 | the loop over drain errors appends the failed ones in registration order |
| Lifecycle.Group.FinishRun | lifecycle/lifecycle.go:410-413 | the final read returns all errors recorded by then |
| Lifecycle.Group.RecordCause | lifecycle/lifecycle.go:474-478 | shutdown's section is one step |
| Lifecycle.Group.GoReturns | lifecycle/lifecycle.go:419-424 | a returned error is collected unless it is a context error and shutdown has begun, by either context |
| Lifecycle.Group.Collect | lifecycle/lifecycle.go:458-466 | collectError's section is one step |
| Lifecycle.Group.CheckExit | lifecycle/lifecycle.go:425-427 | a clean return is an unexpected exit exactly while the group's context is live |
| Lifecycle.Group.Shutdown | lifecycle/lifecycle.go:473-481 | uninterrupted, the first call records its cause, closes registration and cancels; later ones change nothing |
| Lifecycle.Group.SpawnAll | lifecycle/lifecycle.go:336-340 | the spawn loop counts and starts each goroutine taken |
| Lifecycle.Group.EndGoroutine | lifecycle/lifecycle.go:419-428 | a goroutine that returns during shutdown records its error unless it is a context error, and is no longer counted |
| Lifecycle.TearDown | lifecycle/lifecycle.go:365-408 | over the lists run took, the accepted callbacks run in order, back to back after the last drain, all of them unless the budget is spent |
| Lifecycle.Group.Run | lifecycle/lifecycle.go:329-414 | a whole Run of a quiet group: it returns the failed drains of every accepted server in order and the error of every accepted goroutine that failed and was back, nothing else; accepted callbacks ran in order unless the budget was spent; and it returns at the earliest time all that is over |
| LifecycleCalls.AfterRunMeans | lifecycle/lifecycle.go:329-414 | the same result and cause, of the system's state after those sections, from the invariant |
| LifecycleModel.NothingStartsBeforeRun | lifecycle/lifecycle.go:440-453 | after any run of steps without a call of Run, every goroutine is queued or refused |
| Teardown.CallbacksEndInTime | lifecycle/lifecycle.go:391-398 | a callback runs its work out unless it obeys a context that ends first, by its own timeout or the budget |
| Teardown.DrainsEndInTime | lifecycle/lifecycle.go:380-382 | a drain runs its work out unless it obeys the budget, and fails if it was cut short or broken |
| Teardown.RunDrains | lifecycle/lifecycle.go:377-382 | the wait ends with the last drain, within the budget if all obey it |
| Teardown.RunCallbacks | lifecycle/lifecycle.go:391-398 | the callbacks that run are a prefix of registration order, back to back; none starts on a spent budget, and one is skipped only if it is spent |
| Teardown.Run | lifecycle/lifecycle.go:371-408 | no callback starts before the last drain ends; run returns within the budget exactly if every drain and callback that ran did, as when all obey their contexts; and it returns at the earliest time when drains, callbacks and either the goroutines or the budget are over |
| Expiry.ResolutionIsIdeal | cache/ttl.go:118-179 | an expiry is resolveExpiry's if and only if it ends the allowed lifetime nearest to the requested one in unbounded arithmetic, however far away the time |
| Expiry.ExpiriesMean | cache/ttl.go:118-179 | what each kind asks for and gets: Keep the live expiry or Default, Default the configured lifetime or Never, Never no end but the maximum, a lifetime or time itself within the bounds and the nearer bound outside |
| Expiry.ResolvedAsClamped | cache/ttl.go:131-143 | saturating subtraction and the 292-year exception equal unbounded clamping |
| Expiry.ClampIsNearest | cache/ttl.go:168-179 | a lifetime is the nearest allowed one exactly if it is the clamped one |
| Expiry.ResolvedExpiryReapplies | cache/ttl.go:131-141 | a returned expiry passed to At at a later set yields the later of it and now plus the minimum, and never stays never |
| Expiry.ResolvedBounds | cache/ttl.go:118-179 | with a maximum every resolved expiry is a time within [min, max] of now |
| MemoryModel.SectionSimulates | cache/memory.go:160-195 | every section, with any stale time, gives what the never-evicting map gives at the judged times |
| MemoryModel.SectionKeepsStandsFor | cache/memory.go:160-236 | every section keeps the map it stands for: exactly the entries seen expired are missing |
| MemoryModel.EveryOperationIsAtomic | cache/memory.go:160-236 | after any interleaving, an operation acts atomically at its section on the never-evicting map, each key judged between the operation's sample and now |
| MemoryModel.MissingIsCondemned | cache/memory.go:160-236 | the real map lacks an entry of the never-evicting one if and only if, since the key was last written, some maintenance ran that sampled at or after its expiry |
| MemoryModel.ReadAtOwnTimeExactly | cache/memory.go:162-180 | a lookup agrees with the never-evicting map at its own sampled time if and only if the key was not overtaken: live then, but condemned since by a later sample |
| MemoryModel.SnapshotAtOwnTimeExactly | cache/memory.go:126-136 | a snapshot agrees at its own sampled time if and only if no key was overtaken |
| MemoryModel.SetAtOwnTimeExactly | cache/memory.go:184-195 | a set agrees at its own sampled time if and only if it does not keep the expiry of an overtaken key that Default would resolve differently |
| MemoryModel.OvertakenOperationsDiffer | cache/memory.go:162-195 | one concrete run after which a lookup misses, a snapshot is empty, and a Keep set makes permanent an entry that was live at their sample |
| MemoryModel.KeptIsLastWritten | cache/memory.go:184-195 | in every run the keys kept are those set and not deleted since, each with the value of its last Set |
| MemoryModel.LookupFindsTheLastWritten | cache/memory.go:162-180 | after any run a lookup finds v if and only if the key was last set to v, the entry has not been condemned since, and it never expires or expires later than the lookup's time |
| MemoryModel.PermanentEntryIsAlwaysFound | cache/memory.go:238-243 | an entry with no expiry is found at every time, whatever maintenance runs |
| MemoryModel.SetStoresValueAndExpiry | cache/memory.go:184-195 | a set stores exactly its value with the expiry it gives back, resolved from the entry live at its time |
| MemoryModel.SetInThePastIsGone | cache/memory.go:238-243 | an entry set to expire at its own time or before is gone at the moment it is set |
| MemoryModel.EvictionIsInvisible | cache/memory.go:170-177 | lazy deletion, cleanup and rebuild at any stale time leave the view from that time on unchanged and never remove an entry live then |
| MemoryModel.NoEntryOutlivesTheMaximum | cache/ttl.go:96-110 | with a maximum, through any run, every stored entry ends, at most the maximum after the latest set |
| MemoryModel.StoredExpiryReapplies | cache/memory.go:184-195 | any stored expiry of any run, kept ones included, re-applies through At at a later set |
| MemoryModel.KeepPreservesExpiry | cache/ttl.go:120-126 | through a chain of Keep sets on live entries the real entry has the last other expiry while it is there, and it is there until maintenance finds that expiry past |
| Memory.Memory.Read | cache/memory.go:163-170 | lookup's first section is the specified read |
| Memory.Memory.Recheck | cache/memory.go:171-176 | lookup's second section evicts exactly an entry expired at the sampled time |
| Memory.Memory.Lookup | cache/memory.go:162-180 | uninterrupted, a lookup returns the live value and evicts an expired one |
| Memory.Memory.Set | cache/memory.go:184-195 | the map gets the value with the returned expiry, resolved against the existing entry's, an expired one counting as absent |
| Memory.Memory.Cleanup | cache/memory.go:212-221 | deleting in place leaves exactly the live view |
| Memory.Memory.Rebuild | cache/memory.go:225-236 | copying leaves exactly the live view |
| Memory.Memory.Snapshot | cache/memory.go:126-136 | the copy lists the live entries, each once, in some order |
| Memory.Memory.ItemsContext | cache/memory.go:117-149 | a dead context stops the iteration before the snapshot is taken; otherwise the yields are those of a listing of the live entries |
| Memory.Iterate | cache/memory.go:138-146 | what is yielded is a prefix of the snapshot, with the exact number of looks at the context for each way to end |
| Sharded.Sharded.Get | cache/sharded.go:81-83 | over shards that together hold one map, Get is one Memory's lookup, lazy eviction included |
| Sharded.Sharded.Set | cache/sharded.go:86-88 | Set returns one Memory's expiry and leaves the shards holding its next map |
| Sharded.Sharded.Delete | cache/sharded.go:91-93 | Delete leaves the shards holding one Memory's next map |
| Sharded.SplitsUpdate | cache/sharded.go:161-163 | a change to one key made in its shard and in the whole alike keeps the shards a partition of the whole |
| Sharded.Sharded.CleanupShard | cache/memory.go:212-221 | a shard's own cleanup is invisible in the whole from its sampled time on |
| Sharded.Sharded.Interfere | cache/sharded.go:81-108 | what others do to the shards between visits is the given writes, each a section of its shard, in order |
| Sharded.Sharded.Visit | cache/sharded.go:129-140 | one round: what others write, then the shard's own iteration, which looks at the context before it copies |
| Sharded.Sharded.ItemsContext | cache/sharded.go:122-143 | with any writes to the shards before each visit, the scan's history is the one those writes give; a stopped or cancelled scan has yielded a prefix of the shard-by-shard concatenation, a completed one all of it |
| Sharded.HistoryOfIsValid | cache/sharded.go:117-143 | any routed writes between visits keep every key in its shard only, so every scan's history is a valid one |
| Sharded.QuietScanListsOneMemory | cache/sharded.go:122-143 | with no writes in between, a completed scan lists the one map's entries live when their own shard was visited, each once, whatever times the visits sample |
| Sharded.QuietScanAtOneTime | cache/sharded.go:122-143 | if the visits happen to sample one time, that is exactly what one Memory lists then |
| Sharded.YieldedWasLive | cache/sharded.go:117-143 | under any writes between visits, every pair a scan yields, stopped or not, was live at its shard's snapshot |
| Sharded.NoKeyTwice | cache/sharded.go:117-143 | under any writes between visits, no scan, stopped or not, yields a key twice |
| Sharded.UntouchedKeyIsYieldedOnce | cache/sharded.go:117-143 | a key untouched and live throughout a completed scan is yielded, exactly once, with its value |
| Sharded.SparedKeyIsYieldedOnce | cache/sharded.go:117-143 | the same, said of the writes: none to the key, and no maintenance of its shard that finds it expired |
| Sharded.ConsecutiveKeysReachAllShards | cache/sharded.go:30-39 | of as many consecutive integer keys as there are shards, each shard gets one and only one, while their 64-bit values do not wrap |
| Cadence.DueIsTheMaximum | throttle/throttle.go:147-157 | closed form, both ways: turn i is due at the largest of now_k plus the delays of turns k to i - 1 |
| Cadence.DuesAreSpaced | throttle/throttle.go:96-103 | due times are at least the intervening delays apart |
| Cadence.NoDriftExactlyWhileBacklogged | throttle/throttle.go:99-103 | they are exactly that far apart if and only if every caller between arrived before the cadence reached it |
| Cadence.IdleTimeIsForgotten | throttle/throttle.go:145-153 | after an idle gap all dues are those of a throttle just made: idle time earns no credit |
| Cadence.RateIsBounded | throttle/throttle.go:147-157 | with delays of at least d, at most floor(w / d) + 1 turns are due in any window of length w |
| Cadence.ReservedExactly | throttle/throttle.go:58-61 | with a constant delay, the field is at most n + 1 delays ahead if and only if at most n turns are ahead |
| ThrottleModel.SlotsAreHolders | throttle/throttle.go:117-125 | on every path the slots in use are the callers between acquire and release, at most n, and so are the calls of fn |
| ThrottleModel.NeverBeforeDue | throttle/throttle.go:138-143 | fn never runs before its caller's own turn is due |
| ThrottleModel.OneTurnPerCaller | throttle/throttle.go:126-133 | the cadence is the recurrence over turns, one per caller at most, and a caller refused while queued or at the check has none |
| ThrottleModel.NoWedge | throttle/throttle.go:114-135 | a caller still in Do can move, or a slot holder can, at once or when its turn is due |
| ThrottleModel.CancelledCallersTakeNoTurn | throttle/throttle.go:106-112 | a caller cancelled before Do, while queued or before the look at its context never takes a turn nor runs, whatever happens after |
| ThrottleModel.ZeroWaitLooksAtTheContext | throttle/throttle.go:160-163 | a caller with nothing to wait for, but cancelled, never runs |
| ThrottleModel.OnlyCancelledCallersDoNotRun | throttle/throttle.go:105 | Do returns without running fn only to a caller whose context has ended |
| ThrottleModel.FreeSlotsAreTaken | throttle/throttle.go:117-123 | a queued caller can take a slot exactly while fewer than n callers hold one |
| ThrottleModel.TurnsAheadAreAccountedFor | throttle/throttle.go:106-112 | the turns ahead are exactly those waited for and those given up |
| ThrottleModel.ReservationIsBounded | throttle/throttle.go:58-61 | in any run with delays of at most d, the cadence is reserved at most n + 1 delays ahead plus one per turn given up and still ahead |
| ThrottleModel.CapBoundsReservationExactly | throttle/throttle.go:58-61 | with a constant delay, n + 1 delays bound the reservation if and only if turns waited for and given up are within the cap |
| ThrottleModel.ReservationHasNoBound | throttle/throttle.go:106-112 | for any n there is a one-slot run in which n callers cancelled in their paced waits reserve the cadence n delays ahead, beyond the two that one slot would allow from n = 3 on |
| ThrottleModel.StepKeepsInv | throttle/throttle.go:114-157 | every step keeps the invariant of slots, turns and due times |
| Throttle.Throttle.TryAcquire | throttle/throttle.go:117-123 | the select on the semaphore is one step, possible exactly while it is not full |
| Throttle.Throttle.CheckContext | throttle/throttle.go:126-130 | a cancelled caller with a slot leaves without a turn |
| Throttle.Throttle.NextSlot | throttle/throttle.go:147-157 | one step; the wait returned ends exactly when the turn is due |
| Throttle.Throttle.EndWait | throttle/throttle.go:160-172 | a wait of zero looks at the context, others race it against the timer; the outcome is the matching step |
| Throttle.Throttle.Release | throttle/throttle.go:120 | giving the slot back is one step |
| Throttle.Throttle.TakeTurn | throttle/throttle.go:142-157 | the caller's turn follows the last one, and the wait ends when it is due |
| Throttle.Throttle.Pace | throttle/throttle.go:138-143 | a paced caller takes a turn and advances the cadence, cancelled or not |
| Throttle.Throttle.Do | throttle/throttle.go:114-135 | a call with a slot free: fn runs, when due, unless the context ended; only a caller that took its turn advances the cadence; the slot is given back on every path |
| Stop.HaltsExactlyFromValue | retry/stop.go:21-108 | while no other leaf fires, a tree halts exactly from its value on: least over Any, greatest over All |
| Stop.HaltsWithinValues | retry/stop.go:21-108 | whatever other leaves do, a tree halts from its value on and never before the value that counts them as immediate |
| Stop.LeavesHalt | retry/stop.go:21-108 | an attempt limit, a time limit and a predicate halt exactly from their number, from their time and on their errors; Any halts with any of its parts, All only with all |
| Stop.ValueIsLeastAndGreatest | retry/stop.go:62-108 | the value of MaxAttempts(n) is n, of Any the least and of All the greatest of its parts' |
| Stop.CountingTreeHasValue | retry/stop.go:21-28 | a tree of MaxAttempts alone always has a value |
| Stop.ValueIsPositive | retry/stop.go:21-24 | a value is at least one |
| Stop.Consult | retry/stop.go:21-108 | the StopFunc as called, Any and All returning at the first that decides, is the tree's quantified meaning |
| Retry.Do | retry/retry.go:108-135 | the loop has the specified outcome: end, one hook per attempt numbered from 1 with its delay, and the schedule advanced by one Next per retry after an optional Reset |
| Retry.OutcomeIsUnique | retry/retry.go:108-135 | the specification leaves nothing open: a world has one outcome |
| Retry.OutcomeMeans | retry/retry.go:108-135 | every attempt but the last failed, met no stop and no ended context; the last succeeded, was halted with its error returned, or had its wait cut short, at once when there is no delay and else before the timer |
| Retry.HooksTell | retry/retry.go:119-131 | the hook is told each attempt's number, time, error and the delay about to be waited, zero on success and halt |
| Retry.AnyLimitEndsDo | retry/stop.go:69-86 | with a time limit, predicate or attempt limit among Any, no attempt follows a failure that meets it |
| Retry.AllLimitsHoldDo | retry/stop.go:91-108 | with one among All, Do halts only on a failure that meets it |
| Retry.MaxAttemptsMakesItsAttempts | retry/stop.go:21-28 | MaxAttempts(n) alone makes exactly n attempts at a function that keeps failing |
| Retry.ValueCapsAttempts | retry/retry.go:115-134 | a finite value caps the attempts in every world, so the unbounded loop ends |
| Retry.HaltIsNotTooEarly | retry/retry.go:124-127 | a halt never comes before the value that counts other leaves as immediate |
| Retry.HaltsAfterValueAttempts | retry/retry.go:115-134 | against persistent failure with other leaves silent, it halts after exactly the value's number of attempts, and never if there is none |
| Retry.CountingTreeMakesValueAttempts | retry/retry.go:115-134 | a tree of MaxAttempts under Any and All makes exactly its value's number of attempts, fires as many hooks in order, calls Next once less, and returns the last error |

## Left out

- Certificates and keys (`certkit`), and HTTP: `Shutdown`, `ListenAndServe` and the swallowing of `ErrServerClosed` are outcomes; signals are a shutdown step that may happen at any time.
- Schedules: a delay is any integer the schedule gives. Their float arithmetic and the wrapped rate limiter are not part of this model.
- Waiter schedules: `pace` hands the whole wait to code outside the module.
- Mocks, `Close`, option plumbing and constructor panics: each is settled by reading one branch.
- NaN keys, for which `lock` is skipped on purpose, and writers or loaders that re-enter their own key.
- `ReadThrough.Set` racing a load, which the source documents as uncoordinated, and reads of a stack whose context ends or whose loader panics: `TierModel` has reads that go through.
- Whole calls under contention are sequences of section methods, ordered by the steps' guards; only uncontended calls are single methods (`Mutate`, `FlightGroup.Do`, `Throttle.Do`, `Group.Run`).
- The values of contexts: a context is live or ended, and its cause is not modelled.
- The error handler and panics of goroutines or callbacks in `lifecycle`, and repeated calls of `Run`, which wait for the first.
- That the parent's own cause is recorded when the parent ends: a worker that returns first is recorded as an unexpected exit (lifecycle/lifecycle.go:421-427).
- Reservations more than 2^63 - 1 nanoseconds ahead, where the wait of `nextSlot` saturates, and overflow of the clock itself.
- That fn starts are spaced by the delays: only due times are (throttle/throttle.go:99-103).
- Lifecycle.Group.Run: goroutines return only after shutdown begins; other orders are the transition system's.
- Retry.Do: runs in a finite trace of attempts, so a loop without a value ends as Unfinished when the trace does.
- Sharded.Sharded.ItemsContext: writes during a visit's yields are put before the next visit; a snapshot does not see them either way.
- Sharded.Sharded.Get: one operation at a time; the interleaving of sections inside one shard is Memory's, already covered there. All shards have one configuration, as one constructor gives them.
