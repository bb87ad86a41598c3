# FeatBit Python server SDK: a verified model

The SDK keeps a local copy of feature flags and user segments. A WebSocket client feeds the copy with full
snapshots and patches, an evaluator turns a flag and a user into a variation, a broadcaster tells listeners which
flags may have changed, and analytics events travel back to the service through a bounded pipeline. This project
models that system in Dafny and proves what its parts keep, one by one and together. `dafny verify dfyconfig.toml`
checks all of it.

There are four layers.

1. **Evaluation.** `VariationSplitting`, `Evaluator` and `Client` follow the code: the split of the 32-bit hash
   words, the condition operators, recursive segment membership, rollouts, and the ordered list of four operations.
   `OperatorMeaning`, `RolloutMeaning`, `EvaluatorMeaning`, `ClientMeaning`, `EvaluatorFrame` and `SegmentGraph` say
   what they mean: a declarative reading of conditions, segments, rollouts and flags, exactly when `variation` raises,
   which segments an evaluation can read at all, and that membership without reference cycles is the one solution of
   its own equations.
2. **The synchronised store.** `DataStorage` and `Streaming` hold the store, the conversion of a message, the
   short-circuiting fold of a patch, the dependency scan and the broadcast of change notices, as the classes that
   update them. `MessageMeaning` reads the store after a message off the message, `SyncHistory` follows the store over
   whole histories of messages, and `NoticeSoundness` compares the flags that a patch can change with the flags that
   are announced.
3. **Listeners.** `NoticeBroadcaster` is the registry, queue and dispatching thread. `FlagTracking` runs streaming
   thread, queue, dispatching thread and listeners together, one store access at a time, and proves that the value a
   listener remembers is a coherent cache of the store. `PlainMessages` derives the same from what the messages look
   like.
4. **The other concurrent protocols.** `EventProcessor` (gate, inbox, dispatcher, flush workers, two ways to stop),
   `Status` (elected publisher, waiting threads), `ReadWriteLock` (atomic reads of the store), `WebSocketTimeout`
   (hand-over of the process-global timeout) and `Backoff`.

Objects that the source updates in place are classes. Each critical section is a method whose contract equates the
new fields with a function of the old ones. The interleavings of those sections are step systems (`State`, `Step`,
`Enabled`, `Do`, `Run`) that use the very same functions, with the histories needed to state what a run has done. A
theorem about a `Run` holds in every reachable state of every interleaving.

## Where the obvious claim fails

Each place in the code where a natural property does not hold is a lemma with the exact condition or a witness.

- `variation` raises when no variation is served, because it reads an attribute of the missing result, although its
  documentation promises the default value when evaluation fails. Ranges are never validated, so a gap raises for
  all its users, and even consecutive pieces of [0, 1] leave out the word -2^31: `VariationRaisesExactly`,
  `PartitionRaises`, with the flags of `HalvesRaise` and `GapRaises`.
- An archived entity is stored without a category, so the broadcast of any message that holds one stops there:
  `BroadcastKeysExact` says what is still announced, `TombstoneStopsBroadcast` and `ArchivingIsSilent` what is not.
- A patch refused part-way keeps what it had applied and announces nothing. `PatchAccepted` and `PatchRefused` say
  which prefix, `RefusalLeavesTrace` that refusal is all-or-nothing if and only if the very first entry is refused,
  `RefusedPatchIsSilent` which values then change unannounced.
- The dependency scan sees direct references in conditions without an operator only: `OperatorReferenceIsSilent`
  and `NestedReferenceIsSilent` give flags whose value changes without a notice. `ChangeIsPatched` holds without
  any such hypothesis.
- A snapshot announces what it leaves, not what it drops: `SnapshotAnnounces`, `SnapshotSilentExactly`. Each of these
  silent changes leaves a listener out of date at rest: `SilentChangeStays`, `DroppedFlagStays`.
- A listener evaluates its flag before it is registered. It is coherent as long as no notice for its key is taken
  while it is not registered (`CacheCoherent`); `UpdateBeforeRegistration` is a run in which one is.
- A callback that raises is not repeated: `RaisedCallback` says exactly when the listener is coherent all the same,
  `RaisedCallbackStays` and the run of `FirstCallback` show it out of date.
- A sender that raises loses the rest of its payload, and nothing else: `ShutdownDrains`. A sender that stops the
  processor never returns, and neither does the dispatcher: `StuckForever`. A pool that refuses a flush keeps its
  permit, and shutting down waits for it without end: `LostForever`. Otherwise stopping works: `ReturnsUnlessStuck`.
- A library that refuses to take its earlier timeout back leaves a client's timeout in effect: `TimeoutHandedBack`,
  `RefusedPutBack`.
- A segment made of the users who are not in it satisfies no membership equations (`SelfExclusionHasNoSolution`);
  the evaluator then answers by exhausting its stack. Without cycles there is exactly one solution.

## Model

| member | source | states |
|---|---|---|
| VariationSplitting.PercentageOf | fbclient/utils/variation_splitting_algorithm.py:22-25 | the percentage of a hash word lies in [0, 1] and is 1 for the word -2^31 only |
| VariationSplitting.BucketSize | fbclient/utils/variation_splitting_algorithm.py:13-25 | exactly how many of the 2^32 hash words a range other than [0, 1] receives |
| VariationSplitting.BucketFairness | fbclient/utils/variation_splitting_algorithm.py:13-25 | every range receives its proportional share of the hash words, up to three |
| VariationSplitting.Select | fbclient/evaluator.py:293-303 | the loop finds the first range that contains the word, or none does |
| VariationSplitting.PiecesDisjoint | fbclient/evaluator.py:293-303 | no word belongs to two pieces of a partition of [0, 1] |
| VariationSplitting.SelectionExact | fbclient/evaluator.py:293-303 | over a partition exactly one piece serves each word, except that -2^31 is unserved iff no piece is all of [0, 1] |
| VariationSplitting.GrowingKeepsWords | fbclient/utils/variation_splitting_algorithm.py:15-18 | a range that starts at 0 and grows keeps its words |
| Evaluator.FlagEvent.Add | fbclient/event_types.py:109-113 | an event records successful results only, in order |
| Evaluator.MatchUserVariation | fbclient/evaluator.py:88-99 | the loop over the four operations returns their first result, the event records that very result, and is worth sending exactly if it succeeded |
| EvaluatorMeaning.AllHoldMeaning | fbclient/evaluator.py:147-149 | a rule matches iff all its conditions hold; otherwise the first condition that is not true decides, false or exception |
| EvaluatorMeaning.AnyMemberMeaning | fbclient/evaluator.py:256-260 | a segment list holds iff some segment contains the user and no earlier lookup said anything but no |
| EvaluatorMeaning.SubstringMeaning | fbclient/evaluator.py:210-213 | the containment test holds iff the text splits around the part |
| EvaluatorMeaning.EndsAreSubstrings | fbclient/evaluator.py:210-231 | starting or ending with a text implies containing it, so the three operators agree |
| EvaluatorMeaning.OppositeOperators | fbclient/evaluator.py:157-184 | each negative operator is the negation of its positive one, missing values and unreadable lists included; only exceptions are shared |
| EvaluatorMeaning.NumericComparisons | fbclient/evaluator.py:188-203 | on numbers the four comparisons are one linear order; otherwise, and without an operator, all fail |
| OperatorMeaning.TextOperators | fbclient/evaluator.py:205-231 | equality, containment, start and end say how the attribute splits around the value |
| OperatorMeaning.BooleanOperators | fbclient/evaluator.py:233-239 | the two boolean operators exclude each other and cover exactly the attributes that read true or false |
| OperatorMeaning.ListOperator | fbclient/evaluator.py:157-221 | a list condition is the disjunction of the equality conditions on its texts: more texts only admit more users, order and repetition do not matter |
| OperatorMeaning.ComparisonOperators | fbclient/evaluator.py:151-203 | a condition with one of the four names compares two numbers by the sign of their difference |
| OperatorMeaning.UnknownComparison | fbclient/evaluator.py:155-203 | any other name that contains "Than", and an absent operator, never holds |
| OperatorMeaning.NameSelects | fbclient/evaluator.py:151-186 | a condition has an operator exactly if its name, the property where there is no operator, is the one of that operator |
| OperatorMeaning.ListNames | fbclient/evaluator.py:165-168 | "IsOneOf" holds of the users whose attribute is in the parsed list, "NotOneOf" of all others |
| OperatorMeaning.TextNames | fbclient/evaluator.py:157-172 | for each of the six text names, how the attribute splits around the value, or that it does not |
| OperatorMeaning.RegexNames | fbclient/evaluator.py:177-180 | the value is the pattern and the attribute the text; an invalid pattern raises under both names |
| OperatorMeaning.BooleanNames | fbclient/evaluator.py:173-176 | which lower-cased text each of the two names asks for |
| OperatorMeaning.SegmentNames | fbclient/evaluator.py:181-184 | some listed segment contains the user before any lookup raises, or not |
| OperatorMeaning.AttributeMeaning | fbclient/common_types.py:59-70 | what an attribute is for a built-in property in any case, a custom one, and a missing one |
| OperatorMeaning.CustomEquality | fbclient/evaluator.py:205-208 | equality on a custom property compares with what the user has under it |
| EvaluatorMeaning.EvaluateMeaning | fbclient/evaluator.py:102-145 | disabled value, else first target, else the rollout of the least rule that does not fail, with an empty rollout going to the fallthrough and never to a later rule |
| EvaluatorMeaning.DecisionsComplete | fbclient/evaluator.py:114-136 | the cases of that reading leave nothing out |
| EvaluatorMeaning.ResultFromFlag | fbclient/evaluator.py:102-145 | any result carries an id and the value of the flag's variation map, and each of the four reasons is given exactly in its case: off, targeted, served by the first rule that does not fail, or nothing served before the fallthrough |
| EvaluatorMeaning.RolloutServes | fbclient/evaluator.py:290-303 | over a partition the variation served is the one whose piece holds the hash word of the dispatch text |
| RolloutMeaning.ServesByDispatch | fbclient/evaluator.py:290-303 | that text is the flag key and what the user has under the configured dispatch key: the key by default, a built-in or custom attribute, or nothing |
| RolloutMeaning.SameDispatchSameResult | fbclient/evaluator.py:290-303 | users with the same dispatch attribute get the same result |
| RolloutMeaning.RolloutSends | fbclient/evaluator.py:270-302 | what a rollout sends to the experiment, by the variation it serves |
| RolloutMeaning.SentToExperiment | fbclient/evaluator.py:102-145 | what goes to the experiment, of any result of an evaluation: nothing when off, a target exactly if all targets are included, any other by the serving that decided |
| EvaluatorMeaning.GrowingKeepsUsers | fbclient/evaluator.py:290-303 | growing the first share of a rollout keeps the variation of every user it already served |
| EvaluatorMeaning.ExperimentShare | fbclient/evaluator.py:270-288 | the share of a rollout that goes to an experiment is proportional, up to three words, and capped at all; everything with all targets included, nothing when the rule takes no part |
| EvaluatorMeaning.UnservedWord | fbclient/evaluator.py:262-303 | a flag whose fallthrough cuts up [0, 1] serves nothing only at the word -2^31 of a split fallthrough |
| EvaluatorFrame.AllHoldAgrees | fbclient/evaluator.py:147-149 | a rule asks about the segments it references and no others |
| EvaluatorFrame.MemberFrame | fbclient/evaluator.py:246-260 | membership depends only on a reference-closed part of the store |
| EvaluatorFrame.EvaluateFrame | fbclient/evaluator.py:127-149 | evaluation reads the flag and the segments its references lead to, for every user |
| EvaluatorFrame.ReachableIsClosed | fbclient/evaluator.py:246-260 | the segments on reference paths of a flag are closed under references and contain its own |
| EvaluatorFrame.ChangeIsReachable | fbclient/evaluator.py:246-260 | if a result changes, a segment on a reference path of the flag changed |
| EvaluatorFrame.SolutionIsMember | fbclient/evaluator.py:246-260 | where references go down in some rank every solution of the membership equations is what the recursion computes |
| EvaluatorFrame.DepthIrrelevant | fbclient/evaluator.py:246-260 | there more stack changes nothing once it fits the rank |
| EvaluatorFrame.RankedMembership | fbclient/evaluator.py:147-185 | there the equations have exactly one solution, negated conditions included, and it is computed |
| SegmentGraph.AcyclicIsRanked | fbclient/evaluator.py:246-260 | segment references have no cycle iff some rank goes down along all of them, and then one below the number of segments does |
| SegmentGraph.MembershipWellDefined | fbclient/evaluator.py:147-185 | without cycles the equations have exactly one solution, and it is computed with room for as many nested lookups as there are segments |
| SegmentGraph.MembershipMeaning | fbclient/evaluator.py:247-255 | computed, and in every solution: an unknown segment has no members, the excluded are out whatever else holds, the included among the others are in, and the rest are in exactly if some rule holds and all before it plainly fail |
| EvaluatorFrame.SelfExclusionHasNoSolution | fbclient/evaluator.py:183-184 | without acyclicity there may be no solution |
| EvaluatorFrame.InSegmentOperator | fbclient/evaluator.py:151-182 | a condition without operator is a segment condition when its property says so |
| ClientMeaning.RolloutUnserved | fbclient/evaluator.py:290-303 | any rollout, with gaps and overlaps or without, serves nothing exactly if none of its ranges holds the hash word |
| ClientMeaning.NothingServed | fbclient/evaluator.py:88-145 | exactly when evaluation gives no result, for every flag |
| ClientMeaning.VariationRaisesExactly | fbclient/client.py:242-294 | exactly when asking for a variation raises instead of giving the default, for every store, key, flag and user |
| ClientMeaning.VariationServes | fbclient/client.py:242-294 | what it gives otherwise: the default in the three cases, or the text of the served variation cast to the type of the flag |
| ClientMeaning.UnsplitNeverRaises | fbclient/client.py:242-294 | it never raises when the fallthrough has a variation for everybody |
| ClientMeaning.PartitionUnserved | fbclient/evaluator.py:290-303 | of the pieces of [0, 1] exactly the word -2^31 of a split rollout is unserved |
| ClientMeaning.PartitionRaises | fbclient/client.py:242-294 | exactly when a flag whose fallthrough cuts up [0, 1] raises |
| ClientMeaning.HalvesRaise | fbclient/client.py:293-294 | a flag of two halves raises exactly at the word -2^31 |
| ClientMeaning.GapRaises | fbclient/client.py:293-294 | a flag that serves the lower half only raises for exactly the upper half of the words |
| Common.RemoveFirstCounts | fbclient/notice_broadcaster.py:44-47 | removing a listener takes away exactly one registration |
| DataStorage.InMemoryDataStorage.constructor | fbclient/data_storage.py:11-16 | the store starts empty, at version zero and not initialized |
| DataStorage.InMemoryDataStorage.Get | fbclient/data_storage.py:18-27 | a lookup finds exactly the live entity under the key |
| DataStorage.InMemoryDataStorage.GetAll | fbclient/data_storage.py:29-35 | the listing holds exactly the live entities |
| DataStorage.InMemoryDataStorage.Init | fbclient/data_storage.py:37-65 | a snapshot replaces everything iff it is admissible and newer; the repeated empty snapshot is accepted |
| DataStorage.InMemoryDataStorage.Upsert | fbclient/data_storage.py:67-85 | an item is stored iff valid and strictly newer than what its key holds, else nothing changes |
| DataStorage.SnapshotAccepted | fbclient/data_storage.py:37-63 | a snapshot with entities is accepted exactly with a positive version greater than the one held, and replaces everything; the same version is refused |
| DataStorage.EmptySnapshotAccepted | fbclient/data_storage.py:44-58 | exactly when an empty snapshot is accepted, and when it changes nothing |
| DataStorage.UpsertAccepted | fbclient/data_storage.py:67-83 | exactly when an upsert is accepted, and what it changes |
| DataStorage.InitIdempotent | fbclient/data_storage.py:48-58 | sending a snapshot again never changes the store |
| DataStorage.ReplayHoldsLatest | fbclient/data_storage.py:67-85 | after any sequence of upserts each key holds its most recent candidate, tombstones included |
| DataStorage.ReplayVersion | fbclient/data_storage.py:80-82 | from any store the version ends as the greatest of the start and the acceptable timestamps, and the status as initialized iff it was or one was acceptable |
| DataStorage.ReplayConsistent | fbclient/data_storage.py:67-85 | upserts keep every stored timestamp within the version, and then the version covers every storable entry |
| DataStorage.Convergence | fbclient/data_storage.py:67-85 | replicas that start from any common store and receive the same entries in any order and multiplicity end equal |
| Streaming.DictionaryHoldsLast | fbclient/streaming.py:56-68 | an entity is found under its id, and the last one with an id wins |
| Streaming.GreatestIsGreatest | fbclient/streaming.py:63-68 | the version of a list is its greatest timestamp and never negative |
| Streaming.FlagsToDict | fbclient/streaming.py:56-63 | the flag loop builds that dictionary and version |
| Streaming.SegmentsToDict | fbclient/streaming.py:64-68 | the segment loop does so, continuing the version of the flags |
| Streaming.DataToDict | fbclient/streaming.py:49-69 | a message becomes both dictionaries and their common version |
| Streaming.SortedEntries | fbclient/streaming.py:287 | a dictionary is listed completely, once each, by timestamp |
| Streaming.ProcessingOrder | fbclient/streaming.py:286-287 | all flags by timestamp, then all segments by timestamp |
| Streaming.OrderedIsDistinct | fbclient/streaming.py:286-287 | a message is processed with at most one entry for each entity |
| Streaming.PatchAccepted | fbclient/streaming.py:285-287 | a patch succeeds iff every entry is valid and newer than the stored entity |
| Streaming.PatchContents | fbclient/streaming.py:285-287 | an accepted patch overrides the store with exactly the batch, and the version covers it |
| Streaming.PatchOrderIrrelevant | fbclient/streaming.py:285-287 | the order of equal timestamps does not matter |
| Streaming.PatchRefused | fbclient/streaming.py:285-287 | a refused patch has applied exactly the entries before the first unacceptable one |
| Streaming.RefusalLeavesTrace | fbclient/streaming.py:285-290 | refusal leaves the contents alone iff the very first entry is the one refused |
| Streaming.BroadcastKeysExact | fbclient/streaming.py:250-280 | the announced flags are exactly those patched before the first tombstone and the live ones that name a segment patched before it directly |
| Streaming.TombstoneStopsBroadcast | fbclient/streaming.py:267-274 | nothing behind a tombstone is announced |
| Streaming.StreamingProcessor.BroadcastOnce | fbclient/streaming.py:271-280 | a key is announced once for each message |
| Streaming.StreamingProcessor.BroadcastAll | fbclient/streaming.py:276-280 | the flags found for a segment are announced unless they were before |
| Streaming.StreamingProcessor.Broadcasting | fbclient/streaming.py:265-280 | the notices enqueued are the announced keys, each once; it raises iff there is a tombstone |
| Streaming.StreamingProcessor.UpsertAll | fbclient/streaming.py:286-287 | the short-circuiting fold over the processing order |
| Streaming.StreamingProcessor.Publish | fbclient/streaming.py:265-297 | the scan uses the flags that are live after the update, and leaves the store alone |
| Streaming.StreamingProcessor.ApplyMessage | fbclient/streaming.py:284-289 | a patch is folded in, anything else replaces everything |
| Streaming.StreamingProcessor.Report | fbclient/streaming.py:290-294 | an applied message sets the ready event and reports a good state, which is published with whatever happens meanwhile |
| Streaming.StreamingProcessor.OnProcessData | fbclient/streaming.py:248-299 | what a whole message does to store, ready event, status and broadcaster: refused means nothing but the applied prefix, applied means a good state and then exactly the announced keys, failed iff a tombstone |
| MessageMeaning.AppliedFlag | fbclient/streaming.py:56-63 | after an applied message the last flag with a key decides: archived, it is gone for every user; else it is live as sent, with its timestamp |
| MessageMeaning.AppliedSegment | fbclient/streaming.py:64-68 | so for segments |
| MessageMeaning.UnmentionedFlag | fbclient/streaming.py:285-289 | a flag that the message does not mention stays under a patch and goes with a snapshot |
| MessageMeaning.UnmentionedSegment | fbclient/streaming.py:285-289 | so for segments |
| MessageMeaning.FailsOnArchived | fbclient/streaming.py:267-274 | the processing of an applied message fails exactly if the last entity with some id is archived |
| MessageMeaning.PatchApplies | fbclient/streaming.py:285-287 | a patch is applied exactly if the last entity with each id has an id, a positive timestamp, and is newer than what is stored |
| SyncHistory.SnapshotVersion | fbclient/streaming.py:49-69 | an accepted snapshot leaves no timestamp above the version, and one equal to it when keys are unique |
| SyncHistory.PatchStep | fbclient/streaming.py:285-287 | a patch, accepted or not, keeps the version invariant and lowers no timestamp |
| SyncHistory.SyncStep | fbclient/streaming.py:285-289 | so does any message, except that an accepted snapshot may lower single timestamps |
| SyncHistory.VersionOverHistory | fbclient/data_storage.py:37-85 | over any history no stored timestamp exceeds the version, versions never decrease, initialized never reverts |
| SyncHistory.TightOverHistory | fbclient/data_storage.py:37-85 | and the version is the greatest stored timestamp or zero, when snapshots have unique keys |
| SyncHistory.StampsOverPatches | fbclient/data_storage.py:48-80 | as long as no accepted snapshot replaces the store, refused and repeated ones included, per-entity timestamps never decrease |
| NoticeSoundness.OrderedIsFiled | fbclient/streaming.py:56-68 | a message files flags under flags and segments under segments |
| NoticeSoundness.ChangeIsPatched | fbclient/streaming.py:285-289 | if an accepted patch changes a flag for any user, it patches the flag or a segment on one of its reference paths |
| NoticeSoundness.NoticesSound | fbclient/streaming.py:250-280 | flag by flag: a change for any user is announced when the entries that concern the flag are referenced directly and lie before the first tombstone |
| NoticeSoundness.MessageNoticesSound | fbclient/streaming.py:248-299 | so the processing of a patch message announces every such flag that it changes |
| NoticeSoundness.PlainIsSeen | fbclient/streaming.py:250-263 | flat segments and references without operator are all seen by the scan |
| NoticeSoundness.SnapshotAnnounces | fbclient/streaming.py:265-280 | a snapshot announces exactly the flags live afterwards that lie before its first tombstone |
| NoticeSoundness.SnapshotSilentExactly | fbclient/streaming.py:284-297 | what an accepted snapshot does to a flag is unannounced exactly when it drops or hides the flag |
| NoticeSoundness.ArchivingIsSilent | fbclient/streaming.py:62 | every accepted patch that archives a flag removes it for every user and does not announce it |
| NoticeSoundness.YesNoValue | fbclient/evaluator.py:127-145 | the value of the witness flag is the membership of the user in its segment |
| NoticeSoundness.OperatorReferenceIsSilent | fbclient/streaming.py:255-260 | a reference through an operator changes the flag without a notice |
| NoticeSoundness.NestedReferenceIsSilent | fbclient/streaming.py:250-263 | so does a reference through another segment |
| NoticeSoundness.RefusedPatchIsSilent | fbclient/streaming.py:286-290 | a refused patch changes values exactly as its accepted part does, and then some entry of that part concerns the flag |
| NoticeSoundness.RefusedPatchChanges | fbclient/streaming.py:286-290 | such a change happens |
| NoticeBroadcaster.NoticeBroadcater.constructor | fbclient/notice_broadcaster.py:11-15 | open, no listener, empty queue |
| NoticeBroadcaster.NoticeBroadcater.AddListener | fbclient/notice_broadcaster.py:23-34 | an open broadcaster appends a registration, repeated ones too; a closed one ignores it |
| NoticeBroadcaster.NoticeBroadcater.RemoveListener | fbclient/notice_broadcaster.py:36-49 | the first registration goes, and the type with the last one |
| NoticeBroadcaster.NoticeBroadcater.Broadcast | fbclient/notice_broadcaster.py:51-57 | accepted and enqueued in one, or ignored |
| NoticeBroadcaster.NoticeBroadcater.Close | fbclient/notice_broadcaster.py:61-64 | exactly one caller closes the gate |
| NoticeBroadcaster.AddsWhileOpen | fbclient/notice_broadcaster.py:23-34 | nobody is registered once it is closed, or for a blank type; otherwise behind the others of the type |
| NoticeBroadcaster.RegistrationsCounted | fbclient/notice_broadcaster.py:23-49 | registrations are counted by multiplicity, in a closed broadcaster too when removing, and other types are left alone |
| NoticeBroadcaster.AddThenRemove | fbclient/notice_broadcaster.py:23-49 | adding and then removing a listener leaves no trace among the registrations |
| NoticeBroadcaster.StepKeepsInv | fbclient/notice_broadcaster.py:51-85 | every step keeps accepted = dispatched + queued, the single last sentinel, and the order of calls |
| NoticeBroadcaster.EveryNoticeDelivered | fbclient/notice_broadcaster.py:51-85 | when the thread is gone every accepted notice was dispatched once, in order, to its whole snapshot |
| NoticeBroadcaster.StopEndsThread | fbclient/notice_broadcaster.py:59-76 | from any state in which it is open, a stop leads to the end of the thread with all accepted notices dispatched |
| NoticeBroadcaster.DispatchTakesSnapshot | fbclient/notice_broadcaster.py:78-85 | a dispatch takes the registrations of its moment, and nothing happens after the thread has gone |
| FlagTracking.FlagValueChangedListener.constructor | fbclient/flag_change_notification.py:36-47 | the remembered value is the first evaluation |
| FlagTracking.FlagValueChangedListener.OnFlagChange | fbclient/flag_change_notification.py:49-55 | the callback runs iff the key fits and the value differs, with both values, and is remembered unless it raises |
| FlagTracking.CallbacksChain | fbclient/flag_change_notification.py:53-55 | callbacks chain from the initial to the remembered value, each reporting a change from what the one before it left remembered, raising ones included |
| FlagTracking.UpsertCarries | fbclient/streaming.py:285-297 | a value changed by one upsert in the middle of a patch is announced at its end |
| FlagTracking.OwnEntrySeen | fbclient/streaming.py:285-297 | a flag entry still to come in a clean patch is one that will be announced |
| FlagTracking.StepKeepsInv | fbclient/streaming.py:285-299 | every step of streaming, queue, dispatcher, callbacks and registry keeps a listener coherent that no notice has passed by |
| FlagTracking.NothingMissed | fbclient/notice_broadcaster.py:78-85 | in every run a listener registered whenever a notice for its key is taken has missed none |
| FlagTracking.CacheCoherent | fbclient/flag_change_notification.py:47-55 | in every reachable state a listener, whose key had no notice taken while it was not registered, remembers the current value, or its notice is on its way |
| FlagTracking.SettledListenersAgree | fbclient/flag_change_notification.py:47-55 | at rest such a listener agrees with the store |
| FlagTracking.NextNoticeRepairs | fbclient/notice_broadcaster.py:78-85 | a listener that missed a notice is coherent again with the next one taken while it is registered |
| FlagTracking.Unregisters | fbclient/notice_broadcaster.py:36-49 | unregistering takes away one registration |
| FlagTracking.UnregisteredUncalled | fbclient/notice_broadcaster.py:78-85 | who is not registered when a notice is taken is not called for it |
| FlagTracking.MessageIsSteps | fbclient/streaming.py:248-299 | what the contract of processing a whole message says is what a sequence of the single steps does: its store, and its announced keys behind the queue |
| FlagTracking.CallbacksReportChanges | fbclient/flag_change_notification.py:51-55 | in every run whatever callbacks report real changes from the value remembered before |
| FlagTracking.CallbacksChainInRuns | fbclient/flag_change_notification.py:49-55 | in every reachable state of a clean run each new value is the next previous one, and the last one is remembered |
| FlagTracking.RaisedCallback | fbclient/flag_change_notification.py:54-55 | a callback that raises leaves its listener coherent exactly if another notice for the flag is on its way to it |
| FlagTracking.RaisedCallbackStays | fbclient/flag_change_notification.py:54-55 | a callback that raises with no other notice on the way leaves its listener out of date when the pipeline is at rest again |
| FlagTracking.FirstCallback | fbclient/flag_change_notification.py:49-55 | a run in which a listener registered in time is called: up to date at rest if the callback returns, out of date if it raises |
| FlagTracking.SilentChangeStays | fbclient/streaming.py:248-299 | after every patch that changes a flag unannounced its listener is out of date when the pipeline is at rest again |
| FlagTracking.DroppedFlagStays | fbclient/streaming.py:288-297 | so it is, from any state at rest, after every accepted snapshot that drops the flag |
| FlagTracking.DroppedFlagRun | fbclient/streaming.py:288-297 | a run from the start in which that happens |
| FlagTracking.UpdateBeforeRegistration | fbclient/flag_change_notification.py:128-129 | a run in which a notice is taken between creation and registration, and the listener stays out of date |
| PlainMessages.PlainPatchIsClean | fbclient/streaming.py:250-290 | on a plain store a plain patch that is newer throughout and holds no tombstone is clean for every flag |
| PlainMessages.PlainRunCoherent | fbclient/streaming.py:248-299 | coherence from what the messages look like and from no notice being taken before registration |
| EventProcessor.PartitionSound | fbclient/event_processor.py:238-240 | the parts of a payload concatenate to it, non-empty and within the limit, all but the last at the limit |
| EventProcessor.PartitionPrefix | fbclient/event_processor.py:238-248 | the first parts make up a first part of the payload, all of it only if they are all parts |
| EventProcessor.RunFlush | fbclient/event_processor.py:237-251 | a flush posts the parts in order up to the one at which the sender raises, and the whole payload exactly if it does not |
| EventProcessor.EventDispatcher.constructor | fbclient/event_processor.py:109-119 | an empty buffer and five permits |
| EventProcessor.EventDispatcher.PutEventsToBuffer | fbclient/event_processor.py:171-174 | sendable events are appended, others dropped |
| EventProcessor.EventDispatcher.TriggerFlush | fbclient/event_processor.py:176-194 | with a permit the whole buffer becomes the payload of a new flush and the buffer is empty; without one it is kept; when the pool raises it is kept and the permit is lost |
| EventProcessor.FlushHandsOver | fbclient/event_processor.py:176-194 | so does the flush step of the system |
| EventProcessor.FlushedSoFar | fbclient/event_processor.py:133-194 | in a run all events accepted and processed so far are then in payloads |
| EventProcessor.FlushSends | fbclient/event_processor.py:237-251 | a flush that has started can send its whole payload by its own posts alone |
| EventProcessor.FlushReachesSender | fbclient/event_processor.py:176-251 | a flush message with a permit to spare leads, by posts of the new flush alone and without a stop, to all of the buffer being sent |
| EventProcessor.EventDispatcher.ProcessBatch | fbclient/event_processor.py:130-147 | a batch message by message, going on after a flush that raises, ended at once by the shutdown marker |
| EventProcessor.DefaultEventProcessor.constructor | fbclient/event_processor.py:20-24 | an open gate and an empty inbox |
| EventProcessor.DefaultEventProcessor.PutMessageToInbox | fbclient/event_processor.py:36-49 | a message is enqueued iff there is room |
| EventProcessor.DefaultEventProcessor.SendEvent | fbclient/event_processor.py:62-72 | the locked section is the sending step of the system |
| EventProcessor.DefaultEventProcessor.Flush | fbclient/event_processor.py:74-77 | the locked section is the flush request of the system |
| EventProcessor.DefaultEventProcessor.CloseGate | fbclient/event_processor.py:79-85 | exactly one caller closes the gate and goes on to stop |
| EventProcessor.StopsClose | fbclient/event_processor.py:62-101 | each way of stopping closes the gate, and behind it nothing enters the inbox |
| EventProcessor.BatchIsSteps | fbclient/event_processor.py:125-153 | processing a batch is a sequence of single steps of the system |
| EventProcessor.StepConserves | fbclient/event_processor.py:62-194 | every step keeps accepted = payloads + buffer + taken + inbox, in order |
| EventProcessor.StepKeepsMarkerLast | fbclient/event_processor.py:79-153 | every step keeps the marker behind all accepted events, for both ways of stopping |
| EventProcessor.StepKeepsPermits | fbclient/event_processor.py:176-226 | every step keeps permits + working flushes + lost permits = 5 and the wake-up owed to a sleeping dispatcher |
| EventProcessor.StepKeepsPosts | fbclient/event_processor.py:229-251 | every step keeps the posts of each payload a first part of its partition, complete once its flush is over unless the sender raised |
| EventProcessor.EventsConserved | fbclient/event_processor.py:62-222 | in every interleaving each accepted event is in exactly one place, in order |
| EventProcessor.ShutdownDrains | fbclient/event_processor.py:79-222 | when the dispatcher has returned, by either way, all accepted events are in payloads, and of each the sender received, in non-empty chunks of at most 50, a first part: all of it exactly if it did not raise for it |
| EventProcessor.NothingAfterExit | fbclient/event_processor.py:146-153 | after that nothing is accepted or sent |
| EventProcessor.SleeperWillWake | fbclient/event_processor.py:224-226 | as long as no permit is lost a sleeping dispatcher is owed a notification, by a worker that can move or one that is stuck in a stop of its own |
| EventProcessor.FinalSendAlone | fbclient/event_processor.py:199-208 | the final direct send overlaps no flush |
| EventProcessor.PermitsConserved | fbclient/event_processor.py:118-185 | permits, flushes that hold one, and permits lost to a pool that raised always make five |
| EventProcessor.StoppingEnds | fbclient/event_processor.py:79-101 | once the gate is closed every step of the pipeline reduces the work left, and one can be taken until the dispatcher returns, unless a flush is stuck or a permit lost |
| EventProcessor.StuckForever | fbclient/event_processor.py:56-60 | a flush whose sender stops the processor waits for the marker and the dispatcher for the flush, forever |
| EventProcessor.LostForever | fbclient/event_processor.py:185-226 | a permit lost to a pool that raised never comes back, and the dispatcher never returns |
| EventProcessor.ReturnsUnlessStuck | fbclient/event_processor.py:79-101 | once the gate is closed the dispatcher can still return iff no flush is stuck and no permit was lost |
| EventProcessor.SenderRaises | fbclient/event_processor.py:241-251 | a run in which the sender raises and the event is not received |
| EventProcessor.SenderStops | fbclient/event_processor.py:79-98 | a run in which a flush is stuck |
| EventProcessor.PoolRefuses | fbclient/event_processor.py:140-191 | a run in which a permit is lost |
| Status.DataUpdateStatusProvider.constructor | fbclient/status.py:14-23 | initializing, nobody subscribed, nothing queued |
| Status.DataUpdateStatusProvider.UpdateState | fbclient/status.py:64-91 | a transition is committed, queued with the listeners of the moment, and one caller is elected to publish |
| Status.UpdateTransition | fbclient/status.py:69-88 | which updates are transitions, to which type, since when, with which error, and queued for whom |
| Status.DataUpdateStatusProvider.PopNotification | fbclient/status.py:95-99 | the publisher takes the oldest transition, or steps down |
| Status.DataUpdateStatusProvider.PublishPending | fbclient/status.py:93-105 | the publishing loop, whatever listeners and other threads do to the provider while it tells a transition |
| Status.DrainedTells | fbclient/status.py:93-105 | it tells exactly the transitions queued at the start and committed meanwhile, in commit order, and steps down |
| Status.DataUpdateStatusProvider.AddListener | fbclient/status.py:107-115 | a listener is subscribed once |
| Status.DataUpdateStatusProvider.RemoveListener | fbclient/status.py:117-124 | and unsubscribed |
| Status.SubscriptionsAreASet | fbclient/status.py:107-124 | listeners form a set |
| Status.StepKeepsInv | fbclient/status.py:64-144 | every step, updates from inside listeners included, keeps one publisher, the order of delivery, and no lost wake-up |
| Status.TransitionsDelivered | fbclient/status.py:64-105 | in every run delivered, current and queued transitions make up the committed history, and the calls made are those of the delivered ones and a first part of the current one, in commit order, by one publisher at a time |
| Status.PublisherEnds | fbclient/status.py:93-105 | when no more updates come the publisher tells all that is queued and steps down |
| Status.SleepersAreRight | fbclient/status.py:126-144 | nobody waits while the state is OK or OFF |
| Status.WaitsExactly | fbclient/status.py:129-144 | a waiting thread falls asleep exactly while the state is neither OK nor OFF |
| Status.TransitionWakes | fbclient/status.py:81-82 | every transition wakes all sleepers |
| Status.HistoryLegal | fbclient/status.py:69-80 | every committed transition is a new type or an error, keeps its start time otherwise, and never interrupts an initialization |
| Status.InterruptionNeedsSettling | fbclient/status.py:72-75 | no interruption is reported before a success or a shutdown |
| ReadWriteLock.ReadWriteLock.constructor | fbclient/utils/rwlock.py:13-15 | no readers |
| ReadWriteLock.ReadWriteLock.ReadLock | fbclient/utils/rwlock.py:17-21 | one more reader, as in the acquiring step |
| ReadWriteLock.ReadWriteLock.ReleaseReadLock | fbclient/utils/rwlock.py:23-28 | one reader less, and the last one wakes the waiting writers |
| ReadWriteLock.ReadWriteLock.MustWait | fbclient/utils/rwlock.py:34-35 | a writer goes on waiting exactly while there are readers |
| ReadWriteLock.AllStages | fbclient/data_storage.py:59-82 | the single assignments of an accepted write add up to the write |
| ReadWriteLock.StepKeepsLock | fbclient/utils/rwlock.py:17-39 | every step keeps counter, exclusion and the reason of each waiting writer |
| ReadWriteLock.StepKeepsStore | fbclient/data_storage.py:18-85 | every step keeps the fields in memory a committed store, or one writer's partial update of it |
| ReadWriteLock.MutualExclusion | fbclient/utils/rwlock.py:17-39 | writers exclude readers and each other, and the counter counts the readers |
| ReadWriteLock.ReadsAreAtomic | fbclient/data_storage.py:18-85 | writes are sequential, and each read finds exactly the live item of the store that was the latest when it was made |
| ReadWriteLock.WriteCompletes | fbclient/utils/rwlock.py:30-39 | with the lock free a thread can carry a write through, and the store becomes what the write makes of it |
| ReadWriteLock.ReadCompletes | fbclient/utils/rwlock.py:17-28 | with no writer at work a thread can carry a read through, and the counter is as before |
| WebSocketTimeout.ConnectionTimeout.Prepare | fbclient/streaming.py:125-143 | run alone, the method is its single accesses, also when the library refuses the timeout |
| WebSocketTimeout.ConnectionTimeout.Restore | fbclient/streaming.py:145-155 | only an owner puts the remembered setting back and releases, once, also when the library refuses that setting |
| WebSocketTimeout.StepKeepsInv | fbclient/streaming.py:125-191 | every single access keeps ownership, the setting to put back and the count of releases |
| WebSocketTimeout.TimeoutHandedBack | fbclient/streaming.py:125-191 | whenever the process lock is free the setting is the original one, or the one in effect at the last refusal; one owner at most; acquisitions and releases match |
| WebSocketTimeout.RefusalKeeps | fbclient/streaming.py:152-155 | the setting that is handed on changes at a refusal only |
| WebSocketTimeout.RefusedPutBack | fbclient/streaming.py:152-155 | one refusal leaves the timeout of a client in effect for all |
| Backoff.BackoffAndJitterStrategy.constructor | fbclient/utils/exponential_backoff_jitter_strategy.py:13-23 | the initial fields |
| Backoff.BackoffAndJitterStrategy.SetGoodRun | fbclient/utils/exponential_backoff_jitter_strategy.py:25-29 | the given time is remembered, or the present one |
| Backoff.BackoffAndJitterStrategy.Next | fbclient/utils/exponential_backoff_jitter_strategy.py:38-51 | delay and new fields, resets and forced restarts included |
| Backoff.GoodRunResets | fbclient/utils/exponential_backoff_jitter_strategy.py:38-51 | a good run longer ago than the interval makes the next delay a first one, any other lets the count go on |
| Backoff.ForcedRestart | fbclient/utils/exponential_backoff_jitter_strategy.py:42-49 | a forced restart waits for the maximum and starts the count again |
| Backoff.BackoffGrows | fbclient/utils/exponential_backoff_jitter_strategy.py:34-36 | backoffs are positive, bounded, doubling below the maximum, and stay at it |
| Backoff.BackoffMonotone | fbclient/utils/exponential_backoff_jitter_strategy.py:34-36 | backoffs never shrink with the number of retries |
| Backoff.BackoffSaturates | fbclient/utils/exponential_backoff_jitter_strategy.py:34-36 | the maximum is reached after finitely many retries |
| Backoff.DelayBounds | fbclient/utils/exponential_backoff_jitter_strategy.py:46-47 | a delay lies in the upper half of its backoff |
| Backoff.DelaysBounded | fbclient/utils/exponential_backoff_jitter_strategy.py:38-51 | so do all delays of a run, whose backoffs count on |
| Backoff.TotalBounded | fbclient/utils/exponential_backoff_jitter_strategy.py:38-51 | the total waiting time lies in the upper half of the total backoff |
| Backoff.TotalGeometric | fbclient/utils/exponential_backoff_jitter_strategy.py:34-36 | until saturation the total backoff is first * (2^n - 1) |

## Left out

- FlagTracking.CacheCoherent: for a listener and its own flag only, assumes that its callback does not raise, that no notice for its key is taken while it is not registered, that applied entries which concern the flag come from accepted patches, lie before the first tombstone and are referenced directly, and that accepted snapshots neither drop nor hide the flag; each of these has a lemma above that shows coherence lost without it. Where evaluation has no value to compare with (it raises), nothing is claimed about the remembered value.
- NoticeSoundness.NoticesSound: assumes that the entries which concern the flag are referenced directly and lie before the first tombstone, for the reasons given by ArchivingIsSilent, OperatorReferenceIsSilent and NestedReferenceIsSilent.
- SegmentGraph.MembershipWellDefined: the interpreter stack is the number `Lib.depth` of nested segment lookups; membership of segments that need more room is left as the code has it, an exception that reads as "not a member".
- EvaluatorMeaning.NumericComparisons: numbers are reals, already rounded to five places; rounding itself, infinities and not-a-number are not modelled.
- EvaluatorMeaning.ExperimentShare: the quotient of the two shares is real, without floating-point rounding.
- EventProcessor.ShutdownDrains: a chunk for which the sender raises counts as not received, whatever arrived of it.
- EventProcessor.StoppingEnds: proves descent and that a step is enabled; that enabled steps are eventually taken is up to the scheduler.
- EventProcessor.EventDispatcher.TriggerFlush: a pool that raises is taken not to have queued the flush; one that fails to start a thread after queueing it may still run it, without giving the permit back.
- Backoff.BackoffGrows: over the reals; for very many retries the source multiplies a float by a huge integer and may overflow.
- MD5, regular expressions, JSON lists, lower-casing, number parsing and the cast of a served string are arbitrary functions in `Model.Lib`; an invalid pattern raises, JSON lists are lists of strings, and a cast yields a value or none.
- Dates, the variation list that becomes `variationMap`, and payloads with missing keys: entities arrive with their timestamps and maps.
- Evaluating is one step: the several store reads of one evaluation are not interleaved with updates.
- `run` with its reconnecting and self-closing logic, and, within the coherence pipeline, the status update between store and notices and the stop of the broadcaster.
- Transport, TLS, headers, tokens, pings, logging, wall-clock time, join timeouts and the interval timer of the flush task.
- Client lifecycle, configuration, default values by type, `get_all_latest_flag_variations`, the maybe-changed listener, custom stores and processors.
- Throwables outside `Exception`, and events of unknown type.
