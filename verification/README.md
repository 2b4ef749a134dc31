# Verified model of the loom-mcp registry protocol, evaluation runner and trajectory reader

This project models the parts of loom-mcp whose correctness is not visible in any
single function, and proves what they promise:

- **The routed-call protocol** (`Call*.dfy`). Callers, providers and sweepers of any
  number of registry replicas share one expiring hash per tool-use identity, a result
  stream, a settlement sorted set, per-lease sorted sets and a membership hash, through
  atomic Redis Lua scripts. Each script is a function of the call's `Cell`, the clock,
  the catalog record and its arguments (`CallScripts`); a run is any sequence of script
  executions, clock ticks, catalog commits, queue operations, sweepers' reads and stream
  losses (`CallRuns`). `CallStore` runs the same scripts as methods on the Redis key
  layout, each proved equal to its function on the cell it touches and to change no other.
  `CallEffects` says what each script answers and leaves behind, `CallOutcomes` what
  callers and providers can rely on over runs.
- **The toolset catalog** (`Catalog`, `CatalogEffects`, `CatalogStore`): admission generations, provider
  leases, draining, tombstones and the health epoch, as one record per toolset changed
  by compare-and-swap. The protocol's scripts check leases in these same records.
- **The request queue** (`RequestQueue`): bounded publication with consumer groups and
  MINID trimming.
- **Evaluation and expectation algorithms**: maximum bipartite matching of expected
  tools (`ToolMatching`), JSON values and exact decimals (`JsonSubset`, `Decimals`), the
  tool-sequence diff (`ToolEdits`), the integer median (`Median`).
- **Stateful components**: the experiment runner's collector (`RunnerLog`, `Runner`),
  the attempt log with crash recovery (`AttemptLog`, `FinalLog`, `AttemptWriter`,
  `WriterEffects`), the schema cache (`SchemaCache`) and the trajectory builder over
  possibly cyclic child links (`TrajectoryRun`, `TrajectoryTree`, `TrajectoryBuilder`),
  with where every step ends up (`TrajectoryPlaces`).

`dafny verify dfyconfig.toml` checks the whole project.

## Modelling assumptions

- SHA-256 and SHA-1 are injective and distinct: digests, record keys and registration
  tokens are kept as what they hash.
- Redis runs one script at a time and its clock does not go back. Stream identifiers are
  pairs (milliseconds, sequence) that strictly increase over the life of a stream name,
  also across the loss of the stream; their upper bounds and Lua's number precision are
  not modelled.
- A key is visible through its expiration millisecond, when its remaining lifetime is
  already zero.
- A successful read, clock and compare-and-swap attempt of a catalog operation is one
  atomic step, and successive commits read a nondecreasing clock. The health epoch does
  not wrap around.
- What the service validates before it runs a script (timeouts, lifetimes, payload
  identity) is part of `Enabled`. Clock readings stay below `CLOCK_LIMIT`, so that the
  deadlines computed from them are exact integers in Lua.
- The attempt log's codec is a parameter: encodings are single lines that decode to
  their record with or without the newline, and whose proper prefixes fail for want of
  bytes (`AttemptLog.Sound`; `AttemptLog.SoundCodecExists` gives one). The keys of a plan
  are distinct. Renaming a file is atomic. A crash loses written bytes that were not
  synced from some point on, and leaves a rename whose directory was not synced either
  done or undone; what was synced stays.
- The entry IDs of a run ascend, as the run record validates before a trajectory is built.
- Schema compilation is a function of the schema bytes.
- Records carry a lifetime number (`birth`) that the implementation does not store. It
  serves to tell admissions of one identity apart; every later state of every run has
  the same number until the record's expiration is past.
- A sweeper's cleanup follows two reads of its own: the key, from the settlement set
  when it was due or from the index of a lease, and then no admitted call under it
  (events `Listing` and `Finding`). Settlement scripts may run on any key with any lease
  index, which only adds runs.

## What does not hold, and exactly when it does

- The strict reader accepts every reachable record only if no publication answers an
  overload of an earlier admission. The publish script re-checks the request digest,
  which a re-admission of the same request shares
  (`registry/bounded_publish.go:56`), and then stores the foreign overload identifier.
  `CallSafety.ReadableExactly` gives the condition in both directions, and
  `CallCounterexamples.ForeignOverload` a run from the empty store.
  `CallSafety.SameLifetimeAnswers` shows that a publisher acting on a snapshot of the
  current admission always meets it. Only readability needs the condition: all other
  results hold for those runs too.
- In a record's expiration millisecond Redis still shows the key and the reader reports
  an expiration error; `CallInvariants.ReaderAcceptsExactly` gives the exact range.
- The settlement indexes cover every live dispatch only if no cleanup runs on a key that
  was admitted and claimed again after its sweeper found it missing: the cleanup script
  does not look at the record (`registry/call_admission.go:448-459`).
  `CallSettlement.IndexedExactly` is the equivalence, `CallCounterexamples.CleanupRace`
  a run in which a sweeper lists a due key, finds its record expired, and cleans up
  after the next admission was claimed; `CallSettlement.HitBeganLater` shows that only
  such re-admissions are ever hit. A provider release then does not find the call
  (`CallCounterexamples.ReleaseMisses`), and it finds all calls unless that happened
  before (`CallSettlement.ReleaseSettlesEverything`).
- A provider release settles its calls with the cause `provider_lease_lost`; the cause
  the release passes, `provider_lease_released`, is used exactly when the execution
  deadline has passed (`CallTransitions.SettlementJustified`).
  `CallCounterexamples.ReleasedAsLost` is a run from the empty store.
- The ordered tool matcher is greedy: each tool takes the first compatible call that is
  left. It finds a full in-order assignment whenever one exists
  (`ToolMatching.FullExactly`), but its count need not be the largest:
  `ToolMatching.GreedyFallsShort` is an input where it counts one of two.
  `ToolMatching.GreedyIsBestExactly` says for all inputs when it is the largest: when no
  tool that takes a call on the greedy way costs the later ones two matches.
  `ToolMatching.NoUsefulSkipIsBest` is a simpler sufficient condition on the table alone:
  no tool passes over a call that a later tool could use.

## Model

| member | source | states |
|---|---|---|
| `CallInvariants.ReaderAcceptsExactly` | registry/call_decision.go:101-242 | a record with the invariant's clauses passes the attach script and the Go decoder if and only if it has not reached its expiration and its publication answers an overload of its own or none; otherwise it is reported corrupt |
| `CallInvariants.EnsureKeeps` | registry/call_decision.go:305-355 | an admission leaves a good record, starts a lifetime only where the earlier record has expired, and changes nothing while a decision is visible |
| `CallInvariants.RejectKeeps` | registry/call_decision.go:356-388 | a rejection is stored only where the earlier record has expired, and nothing changes while a decision is visible |
| `CallInvariants.MigrateKeeps` | registry/call_decision.go:290-304 | marking a legacy record as decided keeps it good and changes nothing else |
| `CallInvariants.InitializeKeeps` | registry/call_admission.go:66-84 | initialising the result stream keeps the record, the stream order and a terminal event |
| `CallInvariants.PublicationKeepsExactly` | registry/bounded_publish.go:169-178 | committing a publication keeps the call good whatever overload it answers, and readable if and only if that overload is none or not after the record's overload event |
| `CallInvariants.TerminateKeeps` | registry/call_admission.go:134-148 | any script that appends and commits a terminal leaves a good record whose terminal is the newest stream event |
| `CallInvariants.ClaimKeeps` | registry/call_admission.go:164-235 | claiming keeps the record good, dispatches at most once and only terminates undispatched calls of a generation that is not current |
| `CallInvariants.CompleteKeeps` | registry/call_admission.go:85-163 | completing keeps the record good and writes the terminal at most once |
| `CallInvariants.LiveEventKeeps` | registry/call_admission.go:236-282 | output deltas keep the record good, stay within their bound and never follow a terminal |
| `CallInvariants.OverloadKeeps` | registry/call_admission.go:283-350 | an overload report keeps the record good and its overload event moves only forward |
| `CallInvariants.RestoreKeeps` | registry/call_admission.go:351-373 | restoring a lost terminal event appends a copy of the recorded payload, changes only the stream and the recorded event ID, and only of a finished call |
| `CallInvariants.SettleKeeps` | registry/call_admission.go:374-447 | settlement keeps the record good, changes it at most once and then ends it with the unknown-outcome payload |
| `CallInvariants.EvolutionComposes` | registry/call_admission.go:85-447 | within one lifetime identity is fixed, dispatch and terminal are write-once, claims and counters only grow; a new lifetime begins only after the old record expired; and this relation is transitive |
| `CallTransitions.ClaimExecutesExactly` | registry/call_admission.go:164-235 | "execute" is answered if and only if a live lease of the call's own generation asks for the current publication of an undispatched, unfinished call before its deadline |
| `CallTransitions.RejectedIsInert` | registry/call_decision.go:356-388 | a rejected call passes no gate: it is never published, claimed, completed, overloaded or restored |
| `CallTransitions.ClaimJustified` | registry/call_admission.go:207-222 | a claim commits a terminal only for a call that was never dispatched, before its deadline, while the catalog's generation is another than the call's |
| `CallTransitions.CompleteJustified` | registry/call_admission.go:128-163 | a provider result needs the dispatched live lease before the deadline, otherwise the unknown outcome is committed at or after it |
| `CallTransitions.OverloadJustified` | registry/call_admission.go:321-340 | an overload report commits a terminal only for a call that was never dispatched, before its deadline, while the catalog's generation is another than the call's |
| `CallTransitions.SettlementJustified` | registry/call_admission.go:395-446 | a claim is settled if and only if it is dispatched, unfinished, unexpired and its exact lease is not live or its deadline has passed; the cause is `provider_lease_lost` before the deadline and the sweeper's own from then on |
| `CallTransitions.SettledIsNotDue` | registry/call_admission.go:374-447 | whatever the settle script finds, the key leaves the settlement set or gets a score after the script's clock reading |
| `CallTransitions.RestoredIsVisible` | registry/call_admission.go:351-373 | after a restore the newest stream event is the terminal payload under the recorded event ID |
| `CallTransitions.ClaimKeepsIndexed` | registry/call_admission.go:223-234 | a claim puts the call into the settlement set no later than its deadline, into its lease's index and into the membership hash |
| `CallTransitions.SettleKeepsIndexed` | registry/call_admission.go:374-447 | settlement never drops a call that stays dispatched from the indexes, even with an outdated lease index |
| `CallTransitions.CleanupKeepsExactly` | registry/call_admission.go:448-459 | cleanup keeps the indexes complete if and only if the key has no live dispatch at that moment |
| `CallSafety.OnCellKeeps` | registry/call_admission.go:85-447 | every script of every kind, whatever its arguments, keeps a good call good, evolves it within its lifetime or begins a new one over an expired record, and does not lose its terminal event |
| `CallSafety.RunKeepsGood` | registry/call_decision.go:101-242 | over every interleaving of all scripts each call stays good and only evolves within its lifetime, or begins a new one after the old record expired |
| `CallSafety.ReadableExactly` | registry/call_decision.go:101-242 | over every run, the reader's corruption errors are unreachable if and only if no publication answers an overload its record never had |
| `CallSafety.ForeignAnswerCorrupts` | registry/bounded_publish.go:54-71 | a publication that answers a foreign overload always leaves an unreadable record |
| `CallSafety.SameLifetimeAnswers` | registry/bounded_publish.go:54-71 | a publisher whose snapshot is of the current lifetime never does that |
| `CallSafety.ExecutesAtMostOnce` | registry/call_admission.go:164-235 | over every run, replica, redelivery and re-admission, as long as a decision's expiration is not past, "execute" is answered at most once for its identity |
| `CallSafety.ExecutesAgainOnlyAfterExpiry` | registry/call_admission.go:164-235 | between any two answers "execute" for one identity in any run, the record of the first has expired |
| `CallSettlement.DecisionIsFinal` | registry/call_decision.go:305-388 | an identity is admitted or rejected once and for all until the decision expires, in every later state of every run |
| `CallSettlement.DispatchIsFinal` | registry/call_admission.go:207-235 | dispatch ownership and the dispatched request never change until the record expires |
| `CallSettlement.TerminalIsFinal` | registry/call_admission.go:104-163 | terminal payload, digest and cause never change until the record expires |
| `CallSettlement.TerminalIsJustified` | registry/call_admission.go:66-447 | whenever any event of any run commits a terminal, its cause is true at that moment: of the call's own catalog record, or, for a stale admission, of the record of the provider that noticed it, which is the call's own when that provider serves the call's toolset |
| `CallSettlement.TerminalStaysInStream` | registry/call_admission.go:134-162 | over every run that does not lose the stream, the terminal is its newest event in every later state, so MAXLEN trimming never drops it |
| `CallSettlement.OnlyCopiesFollow` | registry/call_admission.go:351-373 | no event changes the result stream of a finished call short of losing it, except a restore that appends a copy of the recorded payload |
| `CallSettlement.IndexedExactly` | registry/call_admission.go:223-234 | over every run, all live dispatches are indexed if and only if no cleanup, by a sweeper that had listed the key and found no call, hits a live dispatch |
| `CallSettlement.HitBeganLater` | registry/call_admission.go:725-760 | after a sweeper found no admitted call under a key, any live dispatch there, in any later state, belongs to a lifetime that began since |
| `CallSettlement.OwnedOnlyShrinks` | registry/call_admission.go:374-447 | without its lease an incarnation gains no call, and any settlement of one of its calls takes it away |
| `CallSettlement.ReleaseSettlesEverything` | registry/service.go:261-279 | from complete indexes, after a provider release whose index keys were all handled, while everything else goes on, no unexpired call is left dispatched to that incarnation without a result, unless it registers again or a cleanup hits a live dispatch before the index is read |
| `CallSettlement.ReleaseLeavesUnindexed` | registry/service.go:261-279 | whatever cleanups ran, a call still dispatched to that incarnation in the end was so when the lease index was read, and missing from its indexes |
| `CallCounterexamples.CleanupRace` | registry/call_admission.go:448-459 | a concrete run from the empty store: a sweeper lists a due key, finds its record expired, and cleans up after the same request was admitted, published and claimed again, so a live dispatch is in no index |
| `CallCounterexamples.ReleaseMisses` | registry/call_admission.go:448-459 | that run continued by a provider release: the call is dispatched to the released lease and not in the index the release reads |
| `CallCounterexamples.ForeignOverload` | registry/bounded_publish.go:54-71 | a concrete run from the empty store in which a delayed retry corrupts the next admission of its request |
| `CallCounterexamples.ReleasedAsLost` | registry/call_admission.go:395-446 | a concrete run from the empty store in which a release before the deadline settles its call as lost, not as released |
| `CallEffects.AdmitsExactly` | registry/call_decision.go:305-355 | an admission is answered 1 and begins a record with the deadline and expiration asked for exactly where Redis shows nothing; otherwise nothing changes and the answer tells the same request, another one, or a rejection |
| `CallEffects.RejectsExactly` | registry/call_decision.go:356-388 | a rejection is stored with its kind, message and expiration exactly where Redis shows nothing; a repeat is confirmed and anything else told |
| `CallEffects.MigratesExactly` | registry/call_decision.go:290-304 | migration accepts exactly an admitted record of the same request and marks it decided |
| `CallEffects.AttachTells` | registry/call_decision.go:101-242 | an attach tells that nothing is there, that another request is, the kind and message of a rejection, or the snapshot with whether the call is published and finished; or reports corruption |
| `CallEffects.ReaderIsStrict` | registry/call_decision.go:101-242 | of records of any origin the strict reader accepts exactly those whose identity, times, publication, overload, dispatch and result fit together |
| `CallEffects.InitializesExactly` | registry/call_admission.go:66-84 | the result stream is opened, with one init event, exactly for an admitted call without request, result or stream |
| `CallEffects.GateOpensExactly` | registry/bounded_publish.go:54-97 | the publish script gets to its append if and only if the record is admitted under that digest, unfinished, undispatched, before its deadline and not published for this answer, and the publisher's generation is active with a stored lease that is neither draining nor expired |
| `CallEffects.GateAnswers` | registry/bounded_publish.go:54-97 | otherwise it answers the result or request that is there, that the admission changed, or that nobody serves |
| `CallEffects.ClaimsExactly` | registry/call_admission.go:164-235 | a claim dispatches a claimable call of its own generation to the exact lease, due when the lease or the deadline ends; of another generation it ends the call as stale; else it changes nothing |
| `CallEffects.ClaimAnswers` | registry/call_admission.go:164-235 | the answer of every claim that changes nothing, by what the record says |
| `CallEffects.CompletesExactly` | registry/call_admission.go:85-163 | the owner's completion before the deadline records and streams exactly the payload it sent, under the event it answers; from the deadline on the unknown outcome; the key leaves the indexes and nothing else changes |
| `CallEffects.CompletionAccepted` | registry/call_admission.go:85-163 | answer 1 is given if and only if the exact dispatched lease stands, the request is the dispatched one, and the call is unfinished before its deadline |
| `CallEffects.CompletionRepeats` | registry/call_admission.go:115-122 | a repeat changes nothing: the same payload is confirmed under the recorded event, the deadline's outcome told, any other payload conflicts |
| `CallEffects.CompletionRefused` | registry/call_admission.go:86-114 | a completion by anybody else changes nothing, and which error it gets |
| `CallEffects.StreamsExactly` | registry/call_admission.go:236-282 | the owner's delta is streamed with its payload and counted while the call is unfinished, before its deadline and below the limit, and otherwise ignored |
| `CallEffects.StreamRefused` | registry/call_admission.go:236-270 | a delta of anybody but the owner is not streamed and changes nothing |
| `CallEffects.ReportsExactly` | registry/call_admission.go:283-350 | an overload report streams a retry control and records its event, its delay and its request; of another generation it ends the call as stale |
| `CallEffects.ReportRefused` | registry/call_admission.go:283-350 | a report by a provider without a standing lease, of a request it was not sent or already reported, or of an owned, finished or overdue call changes nothing |
| `CallEffects.RestoresExactly` | registry/call_admission.go:351-373 | the recorded result is streamed again exactly when the call is finished and its event is not in the stream |
| `CallEffects.SettlesExactly` | registry/call_admission.go:374-447 | settlement ends a dispatched call without its owner or past its deadline with the unknown outcome, looks again when the standing owner's lease or the deadline ends, and otherwise removes the key from the indexes |
| `CallEffects.CleansExactly` | registry/call_admission.go:448-459 | cleanup removes the key from the settlement set, the membership hash and the index its membership names, or the one it was found in |
| `CallOutcomes.PublishesExactly` | registry/bounded_publish.go:54-179 | over the protocol's state, an event publishes a call if and only if it is wanted, served and has room; then the toolset's queue ends with an entry carrying the call's key and the record names it, and else neither changes |
| `CallOutcomes.FullQueueAnswers` | registry/bounded_publish.go:98-131 | with the gates open and a group at the bound the answer is 0 |
| `CallOutcomes.RunKeepsQueues` | registry/bounded_publish.go:98-168 | over every run of the protocol every toolset's queue stays in order and finds all that its groups still owe |
| `CallOutcomes.ReachableQueuesServe` | registry/bounded_publish.go:98-168 | in every state reached from the empty store each group of each toolset finds all its unread and pending entries stored |
| `CallOutcomes.AcceptedResultStays` | registry/call_admission.go:134-162 | once a completion was accepted, its payload is the call's result in every later state of every run until the call expires, and the newest stream event unless the stream is lost |
| `CallOutcomes.RepeatIsConfirmed` | registry/call_admission.go:115-122 | the same provider repeating an accepted completion any time later, while its lease stands, gets it confirmed under the recorded event, and with another payload a conflict |
| `CallStore.Store.Ensure` | registry/call_decision.go:305-355 | the script on the Redis keys has the specified effect and reply and touches no other call |
| `CallStore.Store.Publish` | registry/bounded_publish.go:54-179 | the whole script on the Redis keys and the toolset's stream: gates, bounded append and trim, and commit of the appended identifier, as specified, touching no other call |
| `CallStore.Store.Claim` | registry/call_admission.go:164-235 | the script on the Redis keys has the specified effect and reply and touches no other call |
| `CallStore.Store.Complete` | registry/call_admission.go:85-163 | the script on the Redis keys has the specified effect and reply and touches no other call |
| `CallStore.Store.LiveEvent` | registry/call_admission.go:236-282 | the script on the Redis keys has the specified effect and reply and touches no other call |
| `CallStore.Store.ReportOverload` | registry/call_admission.go:283-350 | the script on the Redis keys has the specified effect and reply and touches no other call |
| `CallStore.Store.Restore` | registry/call_admission.go:351-373 | the script on the Redis keys has the specified effect and reply and touches no other call |
| `CallStore.Store.Settle` | registry/call_admission.go:374-447 | the script on the Redis keys has the specified effect and reply and touches no other call |
| `CallStore.Store.Cleanup` | registry/call_admission.go:448-459 | the script on the Redis keys has the specified effect and touches no other call |
| `CallStore.Store.SettleLostClaims` | registry/call_admission.go:725-760 | a batch without error removes its size, or everything, from the due keys; each key that stops being due was settled or cleaned as its record and membership demand, no other call changes, and it fails only for a due key without membership |
| `CallStore.Store.SettleAll` | registry/call_settlement.go:64-87 | the repeated batches end; each key that stops being due was settled or cleaned as its record and membership demand, no other call changes, and without error a full batch is gone or nothing is due |
| `CallStore.Store.SettleLostClaimsForLease` | registry/call_admission.go:764-789 | one pass without interleaved steps and without error over a released lease's index leaves none of its keys dispatched to that lease, and touches no other call |
| `Catalog.RunKeepsSound` | registry/catalog.go:879-917 | every record any run of catalog operations stores passes the parser's lifecycle clauses, and a recorded pong implies a stored non-draining lease |
| `Catalog.RunSucceeds` | registry/catalog.go:207-270 | tombstones only grow, a replaced generation is tombstoned, and within one generation the epoch never decreases and retirement is final |
| `Catalog.RetiredNeverReturns` | registry/catalog.go:399-435 | a generation once retired or replaced is never active again |
| `Catalog.TakeoverExactly` | registry/catalog.go:207-270 | another generation takes over if and only if a valid registration of an untombstoned token finds no unexpired lease |
| `Catalog.GapRaisesEpoch` | registry/catalog.go:769-806 | after a moment without routable members, any later moment of the same generation with routable members has a strictly larger epoch |
| `Catalog.PongAcrossGapIgnored` | registry/catalog.go:552-644 | a pong for a ping issued before such a moment is never recorded, whatever was committed in between |
| `Catalog.OnlyRegistrationRevives` | registry/catalog.go:142-394 | a lease that is not live becomes live only by registering the same incarnation under the same token |
| `Catalog.StepBoundsLeases` | registry/catalog.go:142-335 | no operation stores a lease beyond its clock plus the largest duration |
| `CatalogEffects.RegistrationAnswers` | registry/catalog.go:142-270 | a registration is accepted if and only if its duration is valid, its token untombstoned, and the token is current or every lease has expired; and which refusal it gets otherwise |
| `CatalogEffects.RegistersExactly` | registry/catalog.go:207-270 | an accepted registration stores its lease for exactly the duration asked for, not draining, under its token, and keeps every other unexpired lease unchanged |
| `CatalogEffects.RegisteredIsLive` | registry/catalog.go:207-270 | its holder is a live provider of the token at exactly the times before now plus the duration |
| `CatalogEffects.RegistrationFences` | registry/catalog.go:207-270 | joining a served generation keeps epoch and pong, joining an unserved one moves the epoch on, and a new generation starts at epoch one with the old one tombstoned |
| `CatalogEffects.RefusedRegistrationKeeps` | registry/catalog.go:207-250 | a refused registration changes nothing, except that a blocked one removes expired leases |
| `CatalogEffects.DrainsExactly` | registry/catalog.go:276-335 | draining keeps the lease until the later of its end and the duration asked for, marks it, touches no other lease and fences the epoch when nobody else serves |
| `CatalogEffects.DrainedStaysLive` | registry/catalog.go:276-335 | the draining holder stays a live provider for exactly that long |
| `CatalogEffects.DrainMisses` | registry/catalog.go:276-312 | draining without a lease that stands changes nothing, or only sweeps when that lease has expired |
| `CatalogEffects.ReleasesExactly` | registry/catalog.go:342-394 | releasing removes exactly the lease named and the expired ones, and nothing of another generation |
| `CatalogEffects.ReleaseFences` | registry/catalog.go:342-394 | a release moves the epoch on exactly when the last member that was granted calls goes |
| `CatalogEffects.RetiresExactly` | registry/catalog.go:399-435 | retiring deactivates and tombstones exactly the generation named, and conflicts with another |
| `CatalogEffects.PrunesExactly` | registry/catalog.go:769-785 | a sweep removes exactly the expired leases and fences the epoch when the last one that served is among them |
| `CatalogEffects.PingsExactly` | registry/catalog.go:537-644 | a ping gets the generation and epoch exactly when an active generation has a lease that is neither draining nor expired |
| `CatalogEffects.PongsExactly` | registry/catalog.go:552-607 | a pong is recorded exactly when it answers the current epoch from a serving member, and never moves the time back |
| `CatalogEffects.PromptPongIsRecorded` | registry/catalog.go:552-644 | a serving member that answers the ping it was sent, with nothing committed in between, is recorded |
| `CatalogStore.ToolsetCatalog.Register` | registry/catalog.go:142-270 | the method performs the specified transition on its toolset's record and on no other |
| `CatalogStore.ToolsetCatalog.DrainProvider` | registry/catalog.go:276-335 | the method performs the specified transition on its toolset's record and on no other |
| `CatalogStore.ToolsetCatalog.ReleaseProvider` | registry/catalog.go:342-394 | the method performs the specified transition on its toolset's record and on no other |
| `CatalogStore.ToolsetCatalog.Retire` | registry/catalog.go:399-435 | the method performs the specified transition on its toolset's record and on no other |
| `CatalogStore.ToolsetCatalog.RecordPong` | registry/catalog.go:552-607 | the method performs the specified transition on its toolset's record and on no other |
| `CatalogStore.ToolsetCatalog.HealthIdentity` | registry/catalog.go:537-644 | the method performs the specified transition and names the identity a ping carries |
| `CatalogStore.ToolsetCatalog.PruneExpired` | registry/catalog.go:769-785 | the loop removes exactly the expired leases and fences the epoch when the last routable one goes |
| `RequestQueue.TrimKeepsOutstanding` | registry/bounded_publish.go:143-168 | MINID trimming, exact or approximate, removes no entry that is unread or pending in any group |
| `RequestQueue.AppendsExactlyBelowBound` | registry/bounded_publish.go:98-131 | a bounded publication appends if and only if every group's exact unread plus pending count is below the bound, although unread entries are counted only up to bound + 1 |
| `RequestQueue.NothingIsLost` | registry/bounded_publish.go:98-168 | over every run of publications, group creations, reads and acknowledgements, every group still owes exactly what was appended and it has not acknowledged, and all of it is stored |
| `RequestQueue.ReachableServes` | registry/bounded_publish.go:98-168 | in every state any run reaches from an empty stream without groups, each group finds all its unread and pending entries stored |
| `RequestQueue.AppendedAreNew` | registry/bounded_publish.go:132-132 | identifiers appended by a run are after everything the stream generated before |
| `RequestQueue.PublishesExactly` | registry/bounded_publish.go:132-168 | an accepted publication appends one entry with its event as the newest, and trimming only removes older ones |
| `RequestQueue.TrimsFinished` | registry/bounded_publish.go:143-168 | unlimited trimming leaves no entry before the trim point |
| `RequestQueue.TrimIdIsCandidate` | registry/bounded_publish.go:133-163 | the trim point is what some group still needs first, and not after the newest entry |
| `RequestQueue.BacklogIsLargest` | registry/bounded_publish.go:102-131 | the reported backlog is that of the group furthest behind |
| `RequestQueue.RequestStream.Publish` | registry/bounded_publish.go:98-168 | the script's loops over the groups compute the specified backlog, trim point, stream and reply |
| `ToolMatching.BindExpected` | expect/expected_tools.go:101-113 | the in-place search binds the tool by moving owners along an augmenting path, or changes no owner and has seen every call reachable from it |
| `ToolMatching.MatchUnordered` | expect/expected_tools.go:78-99 | the unordered count is the size of a maximum one-to-one assignment of expected tools to compatible calls |
| `ToolMatching.MatchOrdered` | expect/expected_tools.go:78-99 | the ordered matcher counts the first compatible call left for each tool in turn, which is the size of an in-order choice, and matches everything if and only if a strictly increasing choice of compatible calls exists |
| `ToolMatching.GreedyIsBestExactly` | expect/expected_tools.go:78-99 | the ordered count is never more than the largest in-order choice, and equals it if and only if no take on the greedy way costs the later tools two matches |
| `ToolMatching.BestIsLargest` | expect/expected_tools.go:78-99 | no in-order choice of tools and compatible calls is larger than the recursive optimum |
| `ToolMatching.BestIsReached` | expect/expected_tools.go:78-99 | an in-order choice of that size exists |
| `ToolMatching.NoUsefulSkipIsBest` | expect/expected_tools.go:78-99 | the ordered count is the largest whenever no tool passes over a call that a later tool could use |
| `ToolMatching.GreedyFallsShort` | expect/expected_tools.go:78-99 | three tools and three calls for which the ordered count is one and two can be matched in order |
| `ToolMatching.FullExactly` | expect/expected_tools.go:78-99 | when all tools can be matched in order, and only then, the greedy choice matches all |
| `ToolMatching.CertificateBounds` | expect/expected_tools.go:78-113 | a set of tools confined to too few calls bounds every assignment |
| `ToolMatching.Evaluate` | expect/expected_tools.go:120-142 | the check passes if and only if there is no diagnostic, an exact expectation has as many tools as calls, and a legal assignment of all tools exists; the count behind the score is that of the greedy choice in order, or of a maximum assignment without order |
| `JsonSubset.ToolEdges` | expect/expected_tools.go:38-73 | a tool and a call are compatible if and only if the names agree, the payload decodes and the expected value is included in the actual one |
| `JsonSubset.Check` | expect/expected_tools.go:120-142 | the whole check passes if and only if all arguments are JSON, sizes fit and some legal choice of calls has all expected values |
| `JsonSubset.ExactIsEquality` | expect/json_subset.go:36-80 | exact comparison of decoded JSON is equality of the values they denote |
| `JsonSubset.InexactIsInclusion` | expect/json_subset.go:36-80 | inexact comparison is inclusion: objects may have more fields, everything else is equal |
| `JsonSubset.SubsetIsOrder` | expect/json_subset.go:36-80 | inexact comparison is reflexive, transitive, antisymmetric up to exact equality, and implied by it |
| `Decimals.ReadsParts` | expect/json_subset.go:84-108 | on every number text of section 6 of RFC 8259 the code finds sign, digits and exponent and does not panic |
| `Decimals.SameFormExactly` | expect/json_subset.go:84-108 | two number texts get the same digits and exponent if and only if they denote the same number, for any lengths, exponents and signs of zero |
| `Decimals.FormIsUnique` | expect/json_subset.go:84-108 | trimmed digits and an exponent are determined by the number they form |
| `ToolEdits.Edits` | eval/toolseq.go:84-113 | the table and walk terminate in bounds and list exactly the specified walk |
| `ToolEdits.EditsAreMinimal` | eval/toolseq.go:84-113 | the edits replay the baseline into the candidate, number len(base) + len(cand) - 2 LCS, and no insert/delete script is shorter |
| `ToolEdits.LcsIsReached` | eval/toolseq.go:89-97 | a common subsequence of the table's length exists |
| `ToolEdits.LcsIsLongest` | eval/toolseq.go:89-97 | no common subsequence is longer |
| `ToolEdits.ModalSequence` | eval/toolseq.go:66-81 | the modal sequence is the most frequent one, ties going to the earliest repeat, with its true count |
| `Median.MidpointExactly` | eval/compare_stats.go:28-39 | for signed values of any width the bitwise midpoint is the floored mean, lies between them, and no intermediate value leaves the width |
| `Median.AndIsBitwise` | eval/compare_stats.go:38-38 | the modelled `&` acts on each two's complement bit |
| `Median.XorIsBitwise` | eval/compare_stats.go:38-38 | the modelled `^` acts on each two's complement bit |
| `Median.MedianSplits` | eval/compare_stats.go:28-39 | the result fits the width, at least half of the values are on either side of it, and it is one of an odd number of values |
| `Median.EvenMedianIsMean` | eval/compare_stats.go:28-39 | an even number of values has the floored mean of its two middle ones |
| `RunnerLog.InFlightBounded` | eval/runner.go:146-186 | at every moment of every run at most Concurrency attempts are in flight |
| `RunnerLog.DispatchedOnce` | eval/runner.go:160-178 | no planned index is dispatched twice, and dispatches follow the schedule |
| `RunnerLog.DispatchedBelowLimit` | eval/runner.go:197-212 | with a token limit every dispatch sees fewer tokens spent than the limit |
| `RunnerLog.LateReturnsBounded` | eval/doc.go:48-51 | once the limit is reached at most Concurrency - 1 further attempts return |
| `RunnerLog.ObservedOnce` | eval/runner.go:215-236 | the observer sees each record at most once and nothing after it panicked |
| `RunnerLog.StoppedOnce` | eval/record.go:180-184 | only the first stop reason is kept, and nothing starts after it |
| `RunnerLog.SortedIsSchedule` | eval/runner.go:238-260 | the schedule is every planned index once, unbounded timeouts first, then longer before shorter, ties in plan order |
| `Runner.AcceptedKeeps` | eval/runner.go:197-236 | accounting a returned record keeps ledger, jobs, records and observations consistent with the history, whatever the store and the observer do |
| `Runner.AcceptedDecides` | eval/runner.go:197-236 | accounting a record that ran adds its tokens and stops for the first of: live model disabled, token limit reached, store failed, observer panicked |
| `Runner.AcceptedFails` | eval/runner.go:197-236 | the run returns an error once anything but the token limit stops it, also when another reason is kept |
| `Runner.AcceptedReasons` | eval/runner.go:197-236 | the reason kept stays true of the run, and without one nothing happened that must stop it |
| `Runner.CollectedIsFinishing` | eval/runner.go:146-186 | when collection ends, every slot that did not run has a stop reason to carry |
| `Runner.Collector.Collect` | eval/runner.go:146-186 | the loop ends for every behaviour of workers, context, store and observer, never blocks for good, and keeps its history legal |
| `Runner.Collector.RunPlan` | eval/runner.go:66-98 | every planned index ends with one record that ran without skip reason or was skipped for the first stop reason; the reason is true of the run, and a run without one had none; tokens are those of the attempts that ran; an observer that does not panic saw every final record; the history is legal |
| `AttemptLog.ReadAttempts` | eval/store_decode.go:55-125 | the loop over lines computes the specified load: sorted records, torn flag or error |
| `AttemptLog.AppendCrashes` | eval/store_decode.go:55-95 | after a crash at any byte of an append, loading yields the earlier records, flagged torn if the new one is incomplete, or those and the new one |
| `AttemptLog.WholeLogLoads` | eval/store_decode.go:55-95 | a log of whole lines loads exactly its records |
| `AttemptLog.LoadsExactly` | eval/store_decode.go:55-125 | a log of whole lines loads if and only if they are of its kind and no index and no key occurs twice |
| `AttemptLog.DamageRefused` | eval/store_decode.go:80-90 | a whole line that does not decode makes the log invalid wherever it stands, and so does an unfinished last line unless it only ends too early |
| `AttemptLog.HeaderRefused` | eval/store_decode.go:55-90 | without its header line the log is invalid |
| `AttemptLog.SoundCodecExists` | eval/store_decode.go:55-95 | the assumptions on the codec can be met: a codec with all of them |
| `AttemptLog.SortKeeps` | eval/store_decode.go:97-102 | sorting by index loses and invents nothing |
| `FinalLog.FinalAttempts` | eval/store_finish.go:65-80 | the loops over the index table compute the specified final order |
| `FinalLog.FinalIsPermutation` | eval/store_finish.go:65-80 | the final log is a permutation of the report that extends the streamed order and can be loaded |
| `WriterEffects.FinalInOrder` | eval/store_finish.go:65-80 | the final log is what was streamed, in that order, then the rest in report order |
| `AttemptWriter.RunKeeps` | eval/store_write.go:93-203 | over every run of appends and finishes the file is durable planned lines followed by at most part of one more planned line, or a whole replacement that was not synced; while the writer is usable nothing is unsynced and its order is exactly the lines |
| `AttemptWriter.CrashConsistent` | eval/store_write.go:93-153 | from a crash during or between any calls of any run, with unsynced bytes lost from any point on and an unsynced rename done or undone, loading succeeds and yields the durable lines, possibly the one being written, or a whole replacement log; every acknowledged append is there in order, with its own record unless a finish replaces the log |
| `AttemptWriter.LiveLogLoads` | eval/store_finish.go:9-38 | a reader of the live log, after any run, finds every acknowledged append in order; until the log is replaced with its own record, and nothing else while no failure is kept |
| `AttemptWriter.AcknowledgedAreDurable` | eval/store_write.go:93-104 | until an accepted finish renames its replacement over the log, whatever finishes were refused or failed before, the durable lines are exactly the acknowledged appends |
| `AttemptWriter.AcknowledgedInOrder` | eval/store_write.go:93-104 | over every run, the writer's order is that of the acknowledged appends |
| `AttemptWriter.FirstErrorSticks` | eval/store_write.go:156-190 | after the first persistence failure every call returns it and changes nothing |
| `WriterEffects.AppendsExactly` | eval/store_write.go:93-104 | an append returns no error if and only if no failure is kept, the writer is not finished, the attempt is planned, not yet written, of the right kind and prepared, and its line was written whole and synced; then it is in the log and the order |
| `WriterEffects.AppendAnswers` | eval/store_write.go:164-180 | which error every other append gets, and that a refusal changes nothing |
| `WriterEffects.FinishesExactly` | eval/store_write.go:133-153 | a finish returns no error if and only if the report is complete for the plan, of its kind and prepared, and every step of the replacement succeeded; then the log is the report in its final order |
| `WriterEffects.FinishAnswers` | eval/store_write.go:181-203 | which error every other finish gets, by the first record that does not fit, and which log is left |
| `AttemptWriter.LogWriter.Append` | eval/store_write.go:32-104 | the method performs the specified append step for some outcome of the file system |
| `AttemptWriter.LogWriter.ValidateReport` | eval/store_write.go:181-203 | the loop over the report refuses exactly as specified |
| `AttemptWriter.LogWriter.Finish` | eval/store_write.go:78-153 | the method performs the specified finish step for some outcome of the file system |
| `SchemaCache.StoredAllKeeps` | registry/schema_validator.go:111-154 | however callers interleave, map and order hold the same keys once each, at most 128, the latest insertions, each with what compiling its schema gives |
| `SchemaCache.Validator.CompiledSchema` | registry/schema_validator.go:111-154 | a lookup gives what compiling from scratch gives, whatever other callers store between its two critical sections |
| `TrajectoryRun.JoinsExactly` | trajectory/entries.go:18-123 | entries join if and only if all they name decodes, call IDs are unique and each result is the only one of an earlier call of its name; then the ledger holds exactly those |
| `TrajectoryRun.ReadExactly` | trajectory/events.go:32-108 | with ascending entry IDs a run is read if and only if its events decode and its entries join, and then every entry has been read |
| `TrajectoryRun.EveryEntryOnce` | trajectory/entries.go:18-90 | wherever the planner boundaries fall, the steps show every entry's calls and answers exactly once and in order |
| `TrajectoryPlaces.EveryStepIsPlaced` | trajectory/entries.go:18-66 | in every read run a tool call is under the planner step of the model call that made it, or else under the first boundary that reaches its entry; an answer under that boundary; an observation under its stamp or the current step; a model call under its own step |
| `TrajectoryPlaces.EveryCallAndEventOnce` | trajectory/events.go:32-130 | a read run shows every model call and every observed event exactly once and in order |
| `TrajectoryRun.SortCallsOrders` | trajectory/build.go:109-116 | a step's model calls are ordered by sequence number and attempt |
| `TrajectoryTree.FlatExactly` | trajectory/build.go:103-121 | flattening keeps every step as often as it was found and orders by planner step |
| `TrajectoryPlaces.FlatIsRanked` | trajectory/build.go:103-121 | planner step by planner step, model calls come before entries and entries before observations |
| `TrajectoryPlaces.FlatHolds` | trajectory/build.go:103-121 | within a planner step entries and observations keep the order found, and the model calls are those found, sorted |
| `TrajectoryTree.BuildsExactly` | trajectory/build.go:56-91 | building yields a tree if and only if it is the unfolding of the record from that run and no run occurs below itself |
| `TrajectoryPlaces.BuiltExactly` | trajectory/build.go:56-101 | a built tree has its run's steps in their final order, the ledger of exactly its calls and results, and the tree of every child it links, in link order |
| `TrajectoryPlaces.LinksExactly` | trajectory/events.go:138-157 | the children to build are those of the linking events, in their order, if and only if all of them decode |
| `TrajectoryBuilder.RunBuilder.ReadEventsAndEntries` | trajectory/events.go:32-91 | the loops over events and entries compute the specified reading of the run |
| `TrajectoryBuilder.RunBuilder.Flatten` | trajectory/build.go:103-121 | the loop over the sorted planner steps computes the specified order |
| `TrajectoryBuilder.Builder.BuildRun` | trajectory/build.go:56-91 | the guarded recursion ends for every record, cyclic or not, restores the active set and computes the specified tree |

## Left out

- Redis, Pulse and gRPC clients, contexts, timers, goroutine plumbing and telemetry: only the atomic effect of each script and the clock are modelled.
- JSON and schema codecs, SHA hashing and UUIDs: parameters or injective functions with the round trips stated where they are used.
- The Lua decoders' behaviour on hashes that no script writes (missing or malformed fields of foreign origin), and digests of payloads that do not decode.
- `registry/health_tracker.go`, result waiting and the `CallTool`/`RetryTool` handlers: any order of their script calls is a run.
- The order in which ZRANGE returns keys: a sweep may take due keys in any order.
- CallStore.Store.SettleAll: states what a pass without interleaved scripts achieves; other replicas' steps between two scripts are covered by the run theorems.
- CallStore.Store.SettleLostClaimsForLease: states one pass without interleaved steps; the pass among all other steps is `CallSettlement.ReleaseSettlesEverything`.
- Admission token derivation, schema fingerprints, tag search and discovery: they only add easy members.
- Prepared attempts, receipts and artifacts of the experiment store: one yes-or-no outcome of validation.
- The record-size policy that drops exports: the model starts from the stored attempt.
- Runner.Collector.RunPlan: token sums are unbounded integers, so overflow of Go's `int` is not modelled.
- Float scores, pass-fraction regression labels, report rendering and selection of attempts.
- The final answer, totals and text of trajectory steps; errors are one failure without its message.
- `agenttest`, `dsl`, `codegen` and the generated code.
