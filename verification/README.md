# Inference engine: verified model

This project models the parts of the inference engine that keep state over time, and proves what
they promise over every input and every run.

- **Session pool.** `PoolState` gives the pool as a value (slots, migration hold, primary gateway) and
  what each operation does to it; `Planning` holds the planners; `SupervisedPool` is the mutable object
  with its loops, each method proved to perform exactly the `PoolState` transition. `PoolRuns` lets
  retires, drains, scale-ups, gateway hints and migrations interleave in any order. Every step carries
  its own arbitrary set of busy sessions and its own number of dials that succeed, so one run covers
  every way sessions turn busy or idle and every dial failure. `Migration`, `Disconnects`,
  `Ledger`, `Episode`, `Clearing` and `Capacity` hold the theorems; `PoolFacts` and `Collections` are their helpers.
- **Reconnect protocol.** `Reconnect` is a state machine whose steps are the atomic flag accesses of
  the reconnect tasks, interleaved with drains, retires and in-place migrations.
- **Timing and admission.** `FailureWindow`, `RateLimiter` (both over `SlidingWindow`), `Throttle` and
  `Fanout`: the stateful code against a declarative account of whole histories.
- **Epochs.** `EpochStore` has the crypto provider's handle table and the multi-epoch decryptor;
  `EpochRotation` runs them together with the schedule loop, in any order.
- **Streaming.** `SseReader` is the upstream line reader, `Rechunk` the loop that cuts, numbers and
  encrypts; `SseLines`, `SseFacts`, `RechunkFacts` and `Arrival` hold their theorems and `Pipeline` composes them end to end.
- **Evidence.** `EpochEvidence` has the report-data preimages, their verification and the match
  against a registration.

`dafny verify dfyconfig.toml` checks everything.

Properties that one might expect but that are false of the code, each with its exact condition:

- A second migration under an armed hold can lose track of held sources, because arming a hold replaces
  the pending list. `Migration.MigrationUnderHold` says exactly when the logical size survives;
  `Migration.MigrationUnderHoldWitness` is a pool where it does not.
- A migration does not look again before it redials a source it found idle, so it can cut off a session
  that turned busy meanwhile: `Disconnects.MigrationCutsOff` says which sessions,
  `Disconnects.SafeExactlyWhenNothingRedialed` when it cannot happen, `Disconnects.LateBusyIsCutOff` that it can.
- After a whole-pool migration stopped at a failed dial, drains may take sessions nobody replaced.
  `Episode.InterruptedLoss` is such a run; `Ledger.SizeLaw` counts them in every run.
- The retire loop forgets a source that turns busy between its two checks. In a partial migration, until a
  different one is started, the hold then never clears and every drain is refused
  (`Episode.AbandonedHoldsForever`); otherwise it can always clear (`Clearing.EpisodeCanEnd`,
  `Clearing.ClearsExactlyWhenWatched`).
- The rotator logs that a failed rotation is retried after 30 seconds, but its error path leaves the
  in-progress flag set. `EpochRotation.FailedRotationIsFinal` proves that no epoch is minted afterwards,
  `EpochRotation.StuckExactlyAfterFailure` which runs end there, `EpochRotation.StuckIsReachable` that some do.
- The legacy re-chunking loop compares bytes with a number of characters, so where frames are cut can
  depend on how the text arrived: `Arrival.ArrivalIsIgnoredExactlyWhenSteady`, `Arrival.ArrivalMatters`.
- Report data determines its epoch if and only if no field of the epoch contains NUL
  (`EpochEvidence.DeterminedExactlyWhenNulFree`).

## Model

| member | source | states |
|---|---|---|
| `Planning.GatewayPlanMeaning` | crates/ie-engine/src/gateway_migration.rs:22-50 | refused exactly for an empty pool or a fraction outside 0..1, with its reason; otherwise aims at floor(pool * fraction) and plans exactly what is missing there |
| `Planning.ShareIsFloor` | crates/ie-engine/src/gateway_migration.rs:43-43 | the share is the floor of count times fraction: share <= n * f < share + 1 |
| `Planning.PlanWithinSources` | crates/ie-engine/src/gateway_migration.rs:22-50 | a migration never plans more moves than sessions off the target, and with fraction 1.0 plans all of them |
| `Planning.GrownShareIsMet` | crates/ie-engine/src/gateway_migration.rs:22-50 | once the share is on the target, growing the pool there by any amount leaves nothing to move: floor((L+k)f) <= floor(Lf)+k |
| `Planning.DrainPlanMeaning` | crates/ie-engine/src/cutover.rs:60-141 | a plan takes what was asked as far as sessions are idle; blocked exactly when refused or when idle sessions fall short |
| `Planning.FractionDrainWants` | crates/ie-engine/src/cutover.rs:123-124 | a valid fraction drain asks for everything above floor(size * (1 - fraction)) |
| `Planning.PlanPoolScale` | crates/ie-engine/src/cutover.rs:143-166 | blocked exactly for a target outside 1..pool size; otherwise the planned growth ends exactly at max(current, target), within the pool size |
| `Planning.ClampDesired` | crates/ie-engine/src/desired_pool.rs:33-37 | the hint where it lies between baseline and maximum, in whichever order they are, else the nearer bound |
| `Planning.BootMeaning` | crates/ie-engine/src/config.rs:92-103 | boot dials min(baseline, size), or for an explicit fraction none, max(1, floor(size * fraction)), or all |
| `Planning.BootWithinTarget` | crates/ie-engine/src/cutover.rs:47-58 | never more than the pool may hold, and at least one where any is asked for |
| `PoolFacts.PruneKeepsLogical` | crates/ie-engine/src/pool.rs:975-994 | pruning the hold keeps exactly the held sources still present and leaves the logical size alone |
| `SupervisedPool.SupervisedPool.PruneMigrationHold` | crates/ie-engine/src/pool.rs:975-994 | the loop performs exactly the prune transition |
| `SupervisedPool.SupervisedPool.ForgetMigrationPending` | crates/ie-engine/src/pool.rs:1004-1012 | exactly the named id leaves the pending sources, target and keep-source flag stay, and the hold clears exactly when no other source is pending |
| `SupervisedPool.SupervisedPool.DrainCandidateIds` | crates/ie-engine/src/pool.rs:765-775 | lists, in slot order, exactly the idle sessions off a protected target |
| `SupervisedPool.SupervisedPool.RemoveStillIdle` | crates/ie-engine/src/pool.rs:779-799 | removes exactly the chosen sessions idle at their own check, keeps the rest in order, and counts them |
| `SupervisedPool.SupervisedPool.DrainWithPlan` | crates/ie-engine/src/pool.rs:750-810 | the whole drain, with its second busy check, performs exactly the drain transition and reports its result |
| `SupervisedPool.SupervisedPool.ScalePoolTo` | crates/ie-engine/src/pool.rs:691-740 | dials the planned sessions onto the primary, keeping those that came up |
| `SupervisedPool.SupervisedPool.ApplyDesiredPoolTarget` | crates/ie-engine/src/desired_pool.rs:40-69 | a hint scales up, drains down or does nothing around the clamped target |
| `SupervisedPool.SupervisedPool.RetirePass` | crates/ie-engine/src/pool.rs:1062-1118 | one pass of the retire loop for one id, with both busy checks: watched again exactly while it is a source busy at the first; left in the pool and the hold, unwatched, if busy only at the second; else it is off the sources and not pending, nothing else changes, and the hold clears exactly when no other id was pending |
| `SupervisedPool.SupervisedPool.ClassifySources` | crates/ie-engine/src/pool.rs:876-887 | splits the sources not already held, in order, by the busy check |
| `PoolFacts.SourceIdsInOrder` | crates/ie-engine/src/pool.rs:850-856 | sources are taken in slot order |
| `SupervisedPool.SupervisedPool.MigrateSessionTo` | crates/ie-engine/src/pool.rs:1128-1206 | replaces one source slot in place, changes nothing when the dial fails, and succeeds without a dial when the id is on no source |
| `SupervisedPool.SupervisedPool.RedialSources` | crates/ie-engine/src/pool.rs:889-898 | redials idle sources in order up to the first failed dial |
| `SupervisedPool.SupervisedPool.DialAheadFor` | crates/ie-engine/src/pool.rs:900-923 | arms the hold, dials replacements, and after a failed dial holds exactly the sources already replaced |
| `SupervisedPool.SupervisedPool.MigrateGatewayPool` | crates/ie-engine/src/pool.rs:818-944 | the migrate call, blank target included, performs exactly the migrate transition and reports its result |
| `Migration.MigrationMeetsPlan` | crates/ie-engine/src/pool.rs:848-927 | starting with nothing outstanding and all dials succeeding: on_target = max(old, floor(slots * fraction)), sources busy when classified stay connected, and busy ones are held exactly as far as the idle ones fell short |
| `Migration.MigrationReport` | crates/ie-engine/src/pool.rs:857-944 | from any pool: a failed dial is reported exactly when one of the dials needed failed; every other report counts what is on and off the target, what moved and why it was blocked |
| `Migration.MigrationConserves` | crates/ie-engine/src/pool.rs:818-944 | whichever dial fails, slots minus held sources equals the old slot count, exactly the sources still present are pending, and no source busy when classified is lost |
| `Disconnects.MigrationCutsOff` | crates/ie-engine/src/pool.rs:876-898 | from any pool and for any dial outcome a migrate call disconnects exactly the first idle-when-classified sources it redials, so a session busy at its own turn is spared if and only if it is not one of them |
| `Disconnects.SafeExactlyWhenNothingRedialed` | crates/ie-engine/src/pool.rs:889-898 | no way of turning busy during the call is harmed if and only if nothing is to move, no movable source was idle, or the first dial fails |
| `Disconnects.LateBusyIsCutOff` | crates/ie-engine/src/pool.rs:889-898 | a pool in which a session that turns busy while another is redialed is disconnected |
| `Migration.MigrationUnderHold` | crates/ie-engine/src/pool.rs:901-916 | for every pool, hold and dial outcome, a migrate call keeps the logical size if and only if its plan is blocked, nothing is outstanding, the idle sources suffice, no busy source is left to hold, or a dial fails before the idle sources are through |
| `Migration.MigrationUnderHoldWitness` | crates/ie-engine/src/pool.rs:996-1002 | a concrete pool whose second migration forgets a held source that is still connected |
| `PoolRuns.DrainOutcome` | crates/ie-engine/src/pool.rs:750-810 | a drain removes only sessions idle at listing and at their own check, keeps the others in order, drained + remaining = current, spares a protected target, and changes nothing under a keep-source hold |
| `PoolRuns.DrainReportsBlocked` | crates/ie-engine/src/pool.rs:750-810 | blocked if and only if held, refused, or fewer removed than wanted |
| `PoolRuns.DrainsAsAsked` | crates/ie-engine/src/pool.rs:765-799 | never more removed than asked; exactly the smaller of what was asked and what is idle and unprotected when nothing turns busy before its own check |
| `PoolRuns.CandidatesInOrder` | crates/ie-engine/src/pool.rs:485-498 | drain candidates are taken in slot order |
| `PoolRuns.DrainReason` | crates/ie-engine/src/pool.rs:756-809 | the reason of a blocked drain: held, refused and why, or too few idle sessions; sessions busy at their own check leave no reason |
| `PoolRuns.DrainAim` | crates/ie-engine/src/pool.rs:803-808 | the reported aim is what would be left if no chosen session turned busy |
| `PoolRuns.FractionDrainExact` | crates/ie-engine/src/cutover.rs:88-141 | an unblocked fraction drain leaves at most floor(size * (1 - fraction)) sessions, and removes exactly the excess as far as sessions are idle when none turns busy |
| `PoolRuns.ScaleReport` | crates/ie-engine/src/pool.rs:691-740 | a scale-up is refused exactly for a size outside 1..pool size, fails exactly when not all dials came up, and otherwise reports the growth; what came up stays, on the primary |
| `PoolRuns.DrainFractionSettles` | crates/ie-engine/src/cutover.rs:88-141 | an unblocked fraction drain, repeated at once, drains zero |
| `Ledger.SizeLaw` | crates/ie-engine/src/pool.rs:750-810 | over every run whose migrations start with nothing outstanding or have nothing to move, with any number of migrations, targets and failed dials: slots = logical size at the start + scale-ups - drained sessions that were not held + held sources present |
| `Ledger.SizeFromBoot` | crates/ie-engine/src/pool.rs:539-623 | the same law from boot, with the sessions that came up at boot |
| `Episode.EpisodeStep` | crates/ie-engine/src/pool.rs:750-810 | every step under an armed hold keeps the sizes, loses no target session and removes only held sources it did not see busy |
| `Episode.RepeatMovesNothing` | crates/ie-engine/src/pool.rs:832-900 | under an armed hold the same migration, repeated, moves and dials nothing and at most prunes the hold |
| `Episode.MigrationEpisode` | crates/ie-engine/src/pool.rs:818-1126 | over every run from a migration while its hold is armed, whatever retire loops were left before: slots = old size + scale-ups + held sources present, no target session lost, only idle held sources removed, back to the logical size when the hold clears, and repeats move nothing |
| `Episode.InterruptedEpisode` | crates/ie-engine/src/pool.rs:906-920 | over every accounted run after a migration of any fraction that stopped at any dial: slots = old size + scale-ups - unheld sessions drained + held sources present; for a partial migration under its hold nothing unheld is drained and the run is as safe as any episode |
| `Episode.InterruptedLoss` | crates/ie-engine/src/pool.rs:906-920 | a whole-pool migration stopped at its second dial after which a drain takes a session nobody replaced |
| `Episode.AbandonedHoldsForever` | crates/ie-engine/src/pool.rs:1062-1118 | a held source that turns busy between the retire loop's two checks is never removed in any run of a partial migration: the hold never clears, repeats do not help and every drain is refused |
| `Episode.RemovableExactlyWhenWatched` | crates/ie-engine/src/pool.rs:1062-1118 | under the hold of a partial migration some run removes a held source if and only if a retire loop watches it |
| `Clearing.HoldClears` | crates/ie-engine/src/pool.rs:1062-1118 | from every state of an episode whose pending sources are all watched, retire-loop steps alone lift the hold and leave the pool at its logical size |
| `Clearing.EpisodeCanEnd` | crates/ie-engine/src/pool.rs:1004-1118 | after every run of an episode in which the loop abandoned no source, the loops alone end it: no hold, slots = old size + scale-ups, and no drain is refused for a migration |
| `Clearing.ClearsExactlyWhenWatched` | crates/ie-engine/src/pool.rs:1062-1118 | the hold of a partial migration can still clear if and only if every held source present is watched |
| `Clearing.RunKeepsGoneWatched` | crates/ie-engine/src/pool.rs:1062-1118 | in every run of a partial episode the pending sources that are gone are still watched, so the condition above is exact in every state |
| `Capacity.CapacityNeverExceeded` | crates/ie-engine/src/pool.rs:539-623 | from boot, over every run of retires, drains, scale-ups, hints and accounted migrations, live sessions minus held sources never exceed pool_target_size |
| `Capacity.HintExact` | crates/ie-engine/src/desired_pool.rs:33-69 | a hint yields exactly max(desired, current) when scaling up and max(desired, busy) when draining |
| `Reconnect.RunInvariant` | crates/ie-engine/src/pool.rs:309-442 | in every interleaving: ids are fresh, at most one claim per live session, at most one task re-dialing, suppressed sessions stay quiet |
| `Reconnect.NeverTwoDialers` | crates/ie-engine/src/pool.rs:344-442 | no two reconnect tasks ever re-dial the same session at once |
| `Reconnect.NoAttemptAfterSuppression` | crates/ie-engine/src/pool.rs:452-462 | no reconnect attempt for a session starts after it was suppressed |
| `Reconnect.DoubleClaimOnlyWhenSuppressed` | crates/ie-engine/src/pool.rs:452-462 | two tasks can hold a claim on one session only after it stopped being live |
| `Reconnect.DoubleClaimHappens` | crates/ie-engine/src/pool.rs:452-462 | from every reachable state with a live unclaimed session some run gives two tasks a claim on it |
| `Reconnect.ClearReschedules` | crates/ie-engine/src/pool.rs:374-442 | at the end of a dial the task gives up its claim, and a new task for the session appears if and only if the dial failed and the pool is open |
| `Reconnect.LostSessionIsRetried` | crates/ie-engine/src/pool.rs:309-442 | over every run, after a notice for a live session some task for it exists until it is suppressed or removed, the pool closes, or a dial of it succeeds |
| `Reconnect.RetryCanDial` | crates/ie-engine/src/pool.rs:309-442 | from every reachable state with a task for a live session some continuation re-dials it |
| `Reconnect.AttemptCanEnd` | crates/ie-engine/src/pool.rs:374-442 | a re-dial can end either way, and after a failure on an open pool another task is there |
| `Reconnect.NoAttemptAfterClose` | crates/ie-engine/src/pool.rs:309-372 | in every run, once the pool closed no task is spawned and no attempt starts |
| `FailureWindow.ReconnectCircuit.Record` | crates/ie-engine/src/pool.rs:281-300 | pops old failures in a loop, pushes the new one, opens and clears at the threshold |
| `FailureWindow.DequeIsRecentFailures` | crates/ie-engine/src/pool.rs:281-307 | over every history the deque equals the failures since the last reset within the window of the latest one, and stays below the threshold between calls |
| `FailureWindow.OpensExactlyOnBursts` | crates/ie-engine/src/pool.rs:281-307 | the circuit opens on a failure if and only if the last `threshold` failures since reset fit in the window |
| `FailureWindow.ResetCloses` | crates/ie-engine/src/pool.rs:302-307 | a reset closes the circuit and forgets every failure |
| `RateLimiter.OpsControlRateLimiter.CheckOp` | crates/ie-engine/src/plane/ops_control.rs:237-250 | the retain loop and the push perform exactly the admission check |
| `RateLimiter.HitsMatchHistory` | crates/ie-engine/src/plane/ops_control.rs:237-250 | at every later instant the pruned hits agree with the full admission history on the window |
| `RateLimiter.RefusedExactlyWhenFull` | crates/ie-engine/src/plane/ops_control.rs:237-250 | a limited call is refused if and only if max_hits were admitted in the trailing window |
| `RateLimiter.NoBurstAnywhere` | crates/ie-engine/src/plane/ops_control.rs:217-250 | over every history, every closed interval of the window's length holds at most max_hits admissions |
| `RateLimiter.OnlyForceAndDrainCount` | crates/ie-engine/src/plane/ops_control.rs:237-241 | migrations and status calls are always admitted and never counted; force_target and drain count exactly when admitted |
| `Throttle.ClosedForm` | crates/ie-engine/src/cutover.rs:312-329 | start i is the maximum of next + i*stagger and now_j + (i-j)*stagger over j <= i |
| `Throttle.StartsAreSpaced` | crates/ie-engine/src/cutover.rs:312-329 | any k+1 successive starts span at least k staggers |
| `Throttle.StartsAreEarliest` | crates/ie-engine/src/cutover.rs:312-329 | no schedule that respects the stagger and the asks starts anything earlier |
| `Throttle.StartsRespect` | crates/ie-engine/src/cutover.rs:312-329 | the throttle's own schedule respects them |
| `Throttle.PoolConnectThrottle.TryBegin` | crates/ie-engine/src/cutover.rs:312-329 | a start is handed out exactly when a permit is free, the starts so far are the schedule of all asks, and at most `concurrency` connects are in flight |
| `Fanout.SpawnRanges` | crates/ie-engine/src/cutover.rs:342-375 | non-empty contiguous ranges, at most one per worker, that together visit every index once and in order |
| `Fanout.MapWithConcurrency` | crates/ie-engine/src/cutover.rs:342-375 | results equal the map over 0..count in order, each index visited once, by at most min(max(concurrency,1), count) workers |
| `EpochStore.RealCryptoProvider.RegisterSecret` | crates/ie-crypto/src/provider.rs:95-101 | a handle is never issued twice |
| `EpochStore.RealCryptoProvider.BeginResponse` | crates/ie-crypto/src/provider.rs:156-186 | a response session opens exactly on a registered handle with a usable request, under a number not in use, and otherwise nothing changes |
| `EpochStore.RotatingEpochDecryptor.AddEpoch` | crates/ie-engine/src/epoch/rotating_decryptor.rs:102-109 | the epoch is filed under its id and becomes current; every retained epoch keeps its registered handle |
| `EpochStore.RotatingEpochDecryptor.PruneRetired` | crates/ie-engine/src/epoch/rotating_decryptor.rs:115-138 | an epoch stays if and only if it is current or now <= not_after + grace; exactly the handles of the others are freed |
| `EpochStore.RotatingEpochDecryptor.DisposeAll` | crates/ie-engine/src/epoch/engine_epoch.rs:131-135 | the removal loop drops exactly the listed epochs and frees exactly their handles |
| `EpochStore.RotatingEpochDecryptor.Resolve` | crates/ie-engine/src/epoch/rotating_decryptor.rs:52-83 | the handle of the named epoch, else of the current one, and it is registered |
| `EpochRotation.RotateAt` | crates/ie-engine/src/epoch/policy.rs:37-40 | the earliest instant that is neither past nor more than the lead before expiry |
| `EpochRotation.RunAgrees` | crates/ie-engine/src/epoch/rotator.rs:217-247 | over every run of ticks, rotations (scheduled or forced), posts, prunes and stop, for every policy, the decryptor, rotator and provider agree |
| `EpochRotation.RunPaced` | crates/ie-engine/src/epoch/rotator.rs:170-188 | with lead < ttl and rotations only from the schedule loop, successive epochs are created at least ttl - lead apart |
| `EpochRotation.ResolvedHandlesAreLive` | crates/ie-engine/src/epoch/rotating_decryptor.rs:52-100 | in every reachable state the current epoch is retained, every request resolves to a registered handle, and a retained named epoch gives its own key pair and its own usage key |
| `EpochRotation.EpochStaysThroughGrace` | crates/ie-engine/src/epoch/rotating_decryptor.rs:66-138 | over every run, an epoch once added stays and resolves to a registered handle for its key pair as long as no prune comes after its end plus grace; in a run of the schedule loop it is the very same epoch |
| `EpochRotation.RotationSucceeds` | crates/ie-engine/src/epoch/rotator.rs:170-247 | from every reachable state in which a rotation is due, minting and posting to sessions that all answer 201 installs an epoch that starts now under a fresh handle, keeps the others, and leaves the rotator ready |
| `EpochRotation.NextRotationComes` | crates/ie-engine/src/epoch/rotator.rs:170-247 | from every reachable state of a rotator that is neither stopped nor in a rotation, waiting, minting and posting install a new epoch while the current one stays |
| `EpochRotation.PostMeaning` | crates/ie-engine/src/epoch/rotator.rs:190-247 | a minted epoch becomes current exactly when some session is live and each answers 201; otherwise nothing is installed and the rotation stays in progress |
| `EpochRotation.StopIsFinal` | crates/ie-engine/src/epoch/rotator.rs:159-189 | from a stop on, whatever came before, no run mints an epoch |
| `EpochRotation.EpochsKeptBounded` | crates/ie-engine/src/epoch/rotator.rs:170-188 | with lead < ttl, after any prune of any run of the schedule loop at most floor((ttl+grace)/(ttl-lead)) + 1 epochs are kept |
| `EpochRotation.FailedRotationIsFinal` | crates/ie-engine/src/epoch/rotator.rs:217-247 | after a failed rotation no run ever mints or adds an epoch again |
| `EpochRotation.StuckExactlyAfterFailure` | crates/ie-engine/src/epoch/rotator.rs:190-247 | a run ends in that state if and only if on the way some started rotation failed to mint or some minted epoch was not answered 201 by every live session |
| `EpochRotation.StuckIsReachable` | crates/ie-engine/src/epoch/rotator.rs:190-247 | one forced rotation with no live session leads there from any start |
| `EpochRotation.HandlesKeptBounded` | crates/ie-engine/src/epoch/rotator.rs:217-247 | over every run of the schedule loop with lead < ttl the provider holds at most one handle besides those of the retained epochs, and after a prune at most floor((ttl+grace)/(ttl-lead)) + 2 |
| `EpochRotation.PostEpochToSessions` | crates/ie-engine/src/epoch/rotator.rs:190-215 | succeeds exactly when there is a live session and every one answers 201 |
| `SseReader.StreamDeltas` | crates/ie-upstream/src/sse.rs:22-69 | at most one reasoning text and then at most one content text, none empty |
| `SseReader.StreamDeltasMeaning` | crates/ie-upstream/src/sse.rs:22-69 | a text is said exactly when the speaking object carries it non-empty as content or as its first non-empty reasoning field |
| `SseReader.VllmSseStream.EnqueueSseLine` | crates/ie-upstream/src/client.rs:562-614 | queues exactly the line's marked items, or reports a malformed line and changes nothing |
| `SseLines.DataLineSays` | crates/ie-upstream/src/client.rs:562-614 | a data line, with any white space around it and after the colon, contributes exactly what its data parses to: an error item, nothing, the deltas in order, or the one frame |
| `SseLines.DoneSaysNothing` | crates/ie-upstream/src/client.rs:567-570 | the end marker contributes nothing |
| `SseLines.EmptySaysNothing` | crates/ie-upstream/src/sse.rs:135-142 | a data line without data contributes nothing |
| `SseLines.OtherLineSaysNothing` | crates/ie-upstream/src/client.rs:563-566 | a line that does not start with data: after trimming contributes nothing |
| `SseLines.StreamSaysItsDeltas` | crates/ie-upstream/src/client.rs:505-614 | for every chunking of a stream of events and the end marker a legacy reader says their deltas in order, with the boundary marked |
| `SseReader.VllmSseStream.PollNext` | crates/ie-upstream/src/client.rs:511-558 | yields exactly the next of the remaining items, and ends exactly when none remain |
| `SseReader.VllmSseStream.ReadAll` | crates/ie-upstream/src/client.rs:505-558 | reading to the end collects all remaining items |
| `SseReader.VllmSseStream.constructor` | crates/ie-upstream/src/client.rs:493-503 | what a new reader will yield is a function of the concatenated symbols alone |
| `SseFacts.OutputIsLineByLine` | crates/ie-upstream/src/client.rs:511-558 | for every split into chunks the output is that of the newline-split lines in order, with the unterminated last line |
| `SseFacts.EveryTextSplits` | crates/ie-upstream/src/client.rs:520-527 | every text is a sequence of newline-terminated lines and an unterminated rest, so the line-by-line account covers every stream |
| `SseFacts.FaultsOnlyInterleave` | crates/ie-upstream/src/client.rs:533-535 | transport errors appear as items and change nothing else, wherever they fall |
| `SseFacts.SeparatorPlacement` | crates/ie-upstream/src/client.rs:536-553 | the separator stands right before the first content after the first reasoning, or at the end, and nowhere without reasoning |
| `SseFacts.SeparatorOnce` | crates/ie-upstream/src/client.rs:593-609 | exactly one separator if some reasoning occurred, none otherwise or outside legacy mode; deleting it leaves all items in arrival order |
| `Rechunk.EncryptPiece` | crates/ie-engine/src/infer/ope_inference.rs:917-961 | a frame goes out and the number advances exactly when the encryption succeeds |
| `Rechunk.CutPending` | crates/ie-engine/src/infer/ope_inference.rs:672-689 | the inner loop cuts and encrypts exactly the specified pieces and keeps the specified rest |
| `Rechunk.CloseResponse` | crates/ie-engine/src/infer/ope_inference.rs:708-780 | each exit attempts a final frame exactly where one is due and then frees the session |
| `Rechunk.RunChatInference` | crates/ie-engine/src/infer/ope_inference.rs:668-780 | the loop and its exits make exactly the specified provider calls and frames |
| `RechunkFacts.ServeChat` | crates/ie-engine/src/infer/ope_inference.rs:584-653 | the session is freed exactly once on every path that opened it, upstream refusal included |
| `RechunkFacts.EveryExitIsOrderly` | crates/ie-engine/src/infer/ope_inference.rs:668-780 | whichever encryptions fail: successful frames are numbered 0..n-1, only the last can be final, and the session is used only between one begin and one free |
| `RechunkFacts.FramesCarryAllText` | crates/ie-engine/src/infer/ope_inference.rs:668-780 | with encryption working: frames concatenate to all received text and exactly the last is final, also after a mid-stream error; a response given up has no final frame |
| `RechunkFacts.LegacyFramesAreSmall` | crates/ie-engine/src/infer/ope_inference.rs:597-601 | legacy frames hold at most chunk_chars characters, 8 if it is 0, although the guard counts bytes |
| `RechunkFacts.LegacyPiecesAreFull` | crates/ie-engine/src/infer/ope_inference.rs:672-689 | text is sent as soon as there is a chunk of it: every piece has chunk_chars characters or at least that many bytes, and fewer bytes are held back |
| `RechunkFacts.OutcomeMeaning` | crates/ie-engine/src/infer/ope_inference.rs:708-780 | completed exactly when the upstream never failed; closed early only on a live stream that has sent a frame, given up on a live stream only if none was sent |
| `RechunkFacts.CharBytesIsLeast` | crates/ie-engine/src/infer/ope_inference.rs:675-675 | a character counts the least number of UTF-8 bytes that holds its code point |
| `Arrival.ArrivalIsIgnoredExactlyWhenSteady` | crates/ie-engine/src/infer/ope_inference.rs:672-689 | for every text and chunk size, the legacy pieces are the same for every way the text can arrive if and only if in every block of chunk_chars characters all but the last stay under chunk_chars bytes |
| `Arrival.AsciiFeed` | crates/ie-engine/src/infer/ope_inference.rs:672-689 | so for ASCII text, and for every text with chunks of one character, arrival never matters |
| `Arrival.ArrivalMatters` | crates/ie-engine/src/infer/ope_inference.rs:672-689 | for every chunk size of two or more, a chunk of wide characters can arrive so as to be cut differently |
| `Pipeline.ClientGetsTheWords` | crates/ie-engine/src/infer/ope_inference.rs:668-780 | for every chunking upstream, a response not given up decrypts to the words read before the first error |
| `Pipeline.ClientTextIsFolded` | crates/ie-upstream/src/client.rs:505-614 | for every chunking of well-formed lines the client decrypts the delta texts in order with one separator at the boundary |
| `Pipeline.ClientDecryptsTheDeltas` | crates/ie-upstream/src/client.rs:505-614 | the same stated on the events a server sends: the client decrypts the texts of all their deltas, folded at the boundary |
| `EpochEvidence.JoinedInjective` | crates/ie-attestation/src/sev_snp/quote.rs:51-77 | NUL-free fields can be told from any other fields, NUL or not, by their NUL-joined form |
| `EpochEvidence.PreimageDetermines` | crates/ie-attestation/src/sev_snp/quote.rs:43-77 | a preimage equals that of a NUL-free epoch and scope if and only if epoch, issue time and nonce are equal and the digests agree up to ASCII case; nothing is asked of the other side |
| `EpochEvidence.DeterminedExactlyWhenNulFree` | crates/ie-attestation/src/sev_snp/quote.rs:43-77 | in any scope, an epoch is the only one with its preimage if and only if its fields hold no NUL |
| `EpochEvidence.EpochDataVerifies` | crates/ie-attestation/src/sev_snp/quote.rs:99-127 | report data bound for a NUL-free epoch and scope verifies if and only if the claims, whatever they hold, carry that epoch and scope |
| `EpochEvidence.ConnectDataVerifies` | crates/ie-attestation/src/sev_snp/quote.rs:99-127 | connect-scoped report data verifies if and only if the claims carry no epoch, the same ed25519 key and the same scope |
| `EpochEvidence.ConnectDataNeverVerifiesEpoch` | crates/ie-attestation/src/sev_snp/quote.rs:19-127 | connect-scoped report data never verifies against claims with an epoch, whatever the fields hold |
| `EpochEvidence.EpochLayout` | crates/ie-attestation/src/sev_snp/quote.rs:51-77 | splitting an epoch preimage at NUL gives back its thirteen fields in order, digests in lower case |
| `EpochEvidence.ConnectLayout` | crates/ie-attestation/src/sev_snp/quote.rs:19-41 | splitting a connect preimage at NUL gives back its seven fields in order |
| `EpochEvidence.LowerMeaning` | crates/ie-attestation/src/sev_snp/quote.rs:27-29 | two digests have the same lower-case form exactly when they are equal up to the case of ASCII letters |
| `EpochEvidence.NulConfusesEpochs` | crates/ie-attestation/src/sev_snp/quote.rs:43-77 | every epoch with a NUL in some field shares its preimage, and so its report data under every hash, with another epoch |
| `EpochEvidence.EvidenceBindsRegistration` | crates/ie-attestation/src/epoch_evidence.rs:60-93 | verification and matching accept if and only if the registration is the bound epoch's own ids, window and hybrid keys, under claims carrying that epoch and scope |
| `EpochEvidence.RefusalNamesFirstMismatch` | crates/ie-attestation/src/epoch_evidence.rs:55-93 | each refusal names the first mismatch, empty keys never match, and a blank usage key is missing |

## Left out

- HTTP/2, TLS, connector I/O, pull workers, status files, signals, CLI and the main wiring: a dial is a step that succeeds with a fresh session id or fails.
- Real cryptography and the transcript chain: encryption is an oracle that succeeds or fails per call, and SHA-512 a function assumed not to collide on the preimages compared.
- Evidence collection, certificate caches, policy allowlists and request validation: input plumbing or single-branch checks.
- JSON: one data line is malformed, without a choice, or the fields of its first choice; usage counters and finish reasons are not kept.
- UTF-8 decoding of network chunks happens per chunk in the source, so chunks are character sequences here; a character split across two network chunks is not modelled.
- Rust integer widths: counts, frame numbers and milliseconds do not overflow; `f64` fractions are reals, so rounding of the product is not modelled.
- One pool call at a time: drain, scale, migrate and hint are whole steps, interleaved with retire-loop steps; the atomic flags of reconnects are interleaved at their own grain in `Reconnect`. With migrations whole steps, the push branch of `migrate_session_to` for a vanished slot (crates/ie-engine/src/pool.rs:1183-1191) is unreachable and absent.
- Migrations to a different target while an armed hold still has sources present, beyond what `Migration.MigrationUnderHold` and `Disconnects.MigrationCutsOff` say of one such call: the run theorems assume migrations that start with nothing outstanding or have nothing to move.
- Dials of one scale-up run concurrently in the source; here the successful ones come up in issue order.
- The consecutive-failure counter of first connects (crates/ie-engine/src/pool.rs:625-637) also opens the circuit; only the reconnect window is modelled.
- Sleeps end exactly when asked in `Throttle`; in the source they may overshoot. Waiting for a permit is a refused attempt that is tried again.
- ISO time strings are milliseconds. The bound on kept epochs is for rotations from the schedule loop; a forced `rotate_now` is covered by the agreement theorems only.
- `EpochEvidence` keeps only the claims that enter the binding or the match; the `kex` name of a registration is compared by neither.
- The chain value and line encoding of frames, the usage header and the trailer are not modelled.
