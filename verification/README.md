# Maeglagi: verified models of its hard parts

This project models the parts of the Maeglagi workspace whose correctness is not visible in any one
function, and proves what those parts promise over all inputs, all orders and all runs.
`dafny verify dfyconfig.toml` checks everything.

| part | modules |
|---|---|
| Knowledge merging: mentions to entities, relation periods, supersessions, the validator, the context store | `Temporal`, `Grouping`, `GroupingTheorems`, `GroupLoop`, `EntityResolution`, `RelationPeriods`, `Supersessions`, `Resolver`, `Extraction`, `Validation`, `ContextStore`, `ContextUpdate` |
| Delivery of source events to streams | `SourceEventBroker`, `SourceEvents`, `SourceEventTheorems` |
| Restoring a snapshot next to other restorers, with a commit whose outcome may stay unknown | `Restore`, `RestoreTheorems`, `RestoreCleanup` |
| References of a snapshot under renaming | `SnapshotRefs`, `SnapshotRefTheorems` |
| Server-sent events in arbitrary network chunks | `Sse`, `SseTheorems` |
| Chunking with overlap | `Chunker` |
| Analysis slots and the two advisory locks | `AnalysisSlots`, `AdvisoryLocks` |
| Provider credentials, their defaults and the selections that name them | `Credentials`, `CredentialStore`, `CredentialTheorems`, `CredentialRaces` |
| Token lifetimes | `Tokens` |

`Options`, `Text`, `Sequences` and `Ontology` hold what the parts share.

How the program is represented:

- `normalize_name`, `normalize_identifier`, `squash`, the date parser, `normalize_ollama_url`, the token
  digest and `uuid5` are function-valued parameters or, for identifiers, injective constructors. Only the
  properties a theorem names are assumed of them, in its `requires`.
- Instants are natural numbers with `None` for unknown; `EARLIEST` is 0, so that an unknown start ties
  with the earliest instant as it does with `datetime.min`.
- Code that changes objects or variables step by step is a class or a method with a loop, proved against
  a function; the theorems are about that function. So the endpoints of `CredentialStore.Store` refine
  `Add`, `Choose`, `Remove` and `Upsert` in `Credentials`, and those of `Tokens.McpTokens` refine `Issue`,
  `Extend`, `Revoke` and `Authenticate`.
- Protocols are state machines. A step is what happens between two awaits, or one call to the outside
  world; time limits and lost connections are steps that can be taken at any time. Theorems quantify over
  every run from a start state.
- Dafny characters are Unicode scalar values where JavaScript counts UTF-16 code units; the frame parser
  only compares and cuts at characters that are one unit in both.

Where the code does less than it seems to promise, the model keeps the code, shows an input, and states
the exact condition:

- The validator counts the items an endpoint name matches, the resolver looks up normal forms. A relation
  whose end has an empty normal form passes the first and is dropped by the second
  (`SeparatorNameIsDropped`); it is kept exactly when each end has a non-empty normal form for the item it
  matches (`AcceptedRelationsResolve`).
- The frame parser normalizes its remainder again on every call. Cutting a stream into chunks is harmless
  for every cut exactly when the stream has no CR CR LF (`ChunkingIsHarmlessExactlyWithoutCrCrLf`); a CR CR
  LF can change every plain payload (`CrCrLfCanChangeAPayload`).
- The broker's loop takes a dispatch query that times out for an idle wait that timed out: if the connection
  answers the liveness query, the message is dropped and no stream is reset. A due message is missing from
  a stream without a marker exactly then (`MissingExactlyWhenDropped`), and a quiet stream can go on showing
  an old state (`TimedOutDispatchGoesUnnoticed`), but only of a source whose last message was dropped
  (`QuietStreamIsCurrent`).
- When flushing the restored rows fails, the session rolls its transaction back before the cleanup starts,
  although a comment says that the reservation is held through the cleanup; the model allows both. If it is
  rolled back, another restorer can commit while the first still deletes its own objects, and only then
  (`CleanupMeetsCommitExactlyWhenReleased`); in all other cases nothing is deleted after a commit
  (`DeletesBeforeAnyCommit`).
- The snapshot validation compares canonical identifiers, the restore renames spellings. An accepted
  artifact can lose an edge (`AcceptedReferenceCanDangle`); references survive exactly when the artifact
  spells each one like the identifier of the row it names (`ReferencesSurviveExactlyWhenSpelledAlike`).
- The snapshot validation reads neither the persons and projects inside utterances and confirmed snapshots
  nor the identifiers of associations, although the restore renames both. Even an artifact in canonical
  spelling can be restored with a speaker who does not exist (`AcceptedSpeakerCanDangle`), or be accepted
  and then refused by the database (`RepeatedAssociationIsRefused`) or for a missing key
  (`TwoMembersAreRestoredExactlyWhen`). When it is restored and what then resolves is stated exactly
  (`RestoredExactlyWhen`, `CanonicalArtifactSurvivesExactlyWhen`).
- `normalize` can depend on the order of intervals that end before they start; for two intervals it does
  exactly when they differ, start together and one of them is such (`PairOrderMattersExactlyWhen`). The
  resolver builds none.
- Removing an account credential locks the account of the caller, storing a selection that of its own
  caller and the workspace. An owner's removal can overlap the selection of another administrator and leave
  it without its credential, and no other overlap of the two can (`RaceBreaksExactlyWhenForeign`).
- In SQL `now()` is the start of the transaction. An extension that starts before its token expires and
  waits for the row past that moment brings the token back, although its documentation excludes that, and
  no other step does (`RevivedExactlyWhenLate`). Dead tokens stay dead and the limit of twenty holds but for such extensions
  (`DeadTokensStayDead`, `AtMostTwentyActive`); with one the limit can be exceeded (`LimitCanBeExceeded`).

## Model

| member | source | states |
|---|---|---|
| Temporal.Normalize | backend/app/modules/context_engine/application/temporal.py:58-66 | the loop that rewrites the last period computes the fold `Normalized` over the sorted input |
| Temporal.NormalizedIgnoresOrder | backend/app/modules/context_engine/application/temporal.py:36-66 | well-formed intervals give the same list in every order, ties and unknown starts included |
| Temporal.PairOrderMattersExactlyWhen | backend/app/modules/context_engine/application/temporal.py:36-66 | two intervals normalize alike in both orders exactly when they are equal, start at different times, or both end no earlier than they start |
| Temporal.NormalizedPartitionsInput | backend/app/modules/context_engine/application/temporal.py:45-66 | the sorted input splits into blocks of which each output period is the hull: its bounds are extreme bounds of its block, an explicit end beating an open one |
| Temporal.NormalizedSeparates | backend/app/modules/context_engine/application/temporal.py:58-66 | output periods are strictly apart and no two overlap |
| Temporal.KnownSpanHasOnePeriod | backend/app/modules/context_engine/application/temporal.py:58-66 | every input span with both bounds known lies inside exactly one output period |
| Temporal.NormalizedIsFixedPoint | backend/app/modules/context_engine/application/temporal.py:58-66 | normalizing twice is normalizing once |
| GroupLoop.Group.Absorb | backend/app/modules/context_engine/application/entity_resolution.py:84-88 | absorbing makes names, keys, identifiers and the first known date those of the members of both groups, one after the other |
| GroupLoop.FindMatched | backend/app/modules/context_engine/application/entity_resolution.py:178-202 | the groups a mention joins: by identifier, then by name unless the name is ambiguous, with the warning exactly then |
| GroupLoop.AbsorbMatched | backend/app/modules/context_engine/application/entity_resolution.py:202-206 | merging the matched groups into the first removes exactly the others from the list |
| GroupLoop.TakeMention | backend/app/modules/context_engine/application/entity_resolution.py:177-212 | one mention turns the groups of objects into the groups the specification has |
| GroupLoop.GroupMentions | backend/app/modules/context_engine/application/entity_resolution.py:176-212 | the whole grouping loop over mutable groups represents `Grouped`, with its warnings |
| GroupingTheorems.TogetherExactlyWhenLinked | backend/app/modules/context_engine/application/entity_resolution.py:176-212 | two identified mentions end in one group exactly when a chain of same-kind mentions with shared identifiers links them; names never join them |
| GroupingTheorems.GroupIdentifiersAreDisjoint | backend/app/modules/context_engine/application/entity_resolution.py:176-212 | groups of one kind never share an identifier |
| GroupingTheorems.GroupingConservesMentions | backend/app/modules/context_engine/application/entity_resolution.py:176-212 | no mention with a key is lost or duplicated across groups |
| GroupingTheorems.KeysAreNormalizedNames | backend/app/modules/context_engine/application/entity_resolution.py:76-88 | a group's keys are exactly the non-empty normal forms of its names |
| GroupingTheorems.IdentifiedGroupsIgnoreOrder | backend/app/modules/context_engine/application/entity_resolution.py:176-212 | the identifier sets of identified groups do not depend on the order or repetition of mentions |
| EntityResolution.PickCanonical | backend/app/modules/context_engine/application/entity_resolution.py:54-56 | the canonical name is one of the names and none is more complete |
| EntityResolution.StableKeyIsAnIdentifier | backend/app/modules/context_engine/application/entity_resolution.py:91-96 | an identified group's key is one of its identifiers |
| EntityResolution.IdentifiedIdsAreDistinct | backend/app/modules/context_engine/application/entity_resolution.py:214-234 | different identified groups get different entity ids |
| EntityResolution.IdentifiedIdsIgnoreOrder | backend/app/modules/context_engine/application/entity_resolution.py:214-234 | the set of identified entity ids is independent of mention order |
| EntityResolution.BuildEntities | backend/app/modules/context_engine/application/entity_resolution.py:214-238 | the loop builds one entity a group and a lookup that finds exactly the entities with a key |
| EntityResolution.Endpoint | backend/app/modules/context_engine/application/entity_resolution.py:242-250 | an endpoint is resolved exactly when one entity has a normal form of the name |
| RelationPeriods.StatedIntervalIsWellFormed | backend/app/modules/context_engine/application/entity_resolution.py:261-275 | every interval the resolver builds is well formed and takes its bounds from the relation or the timestamp |
| RelationPeriods.CollectPeriods | backend/app/modules/context_engine/application/entity_resolution.py:252-276 | the loop files each resolvable relation's interval under its ends and kind, with the warnings about ambiguous and missing ends in order |
| RelationPeriods.DroppedRelationsAreReported | backend/app/modules/context_engine/application/entity_resolution.py:252-260 | there are exactly as many warnings about a missing end as relations that are dropped |
| RelationPeriods.EmitRelations | backend/app/modules/context_engine/application/entity_resolution.py:278-292 | the loop emits exactly the normalized periods of every triple |
| RelationPeriods.ResolvedRelationsAreOrderly | backend/app/modules/context_engine/application/entity_resolution.py:252-292 | the periods of one triple are disjoint and increasing, relation ids are distinct, and every triple was stated |
| RelationPeriods.ResolvedBoundIsStated | backend/app/modules/context_engine/application/entity_resolution.py:252-292 | a known bound of a resolved relation was stated by a relation of its triple; only a start can be the date of the source instead |
| RelationPeriods.KnownRelationIsCovered | backend/app/modules/context_engine/application/entity_resolution.py:252-292 | a stated relation with both bounds known is covered by exactly one resolved relation |
| Supersessions.LinkSupersessions | backend/app/modules/context_engine/application/entity_resolution.py:99-134 | the loop links and reports what the specification decides event by event |
| Supersessions.DecideIsSound | backend/app/modules/context_engine/application/entity_resolution.py:109-133 | a link only sets one entity's successor, to a different existing decision; an event is left for the store exactly when nobody here bears the old name |
| Supersessions.LinksAreSound | backend/app/modules/context_engine/application/entity_resolution.py:99-134 | linking changes nothing but successors and every successor is another resolved decision |
| Resolver.ResolveExtraction | backend/app/modules/context_engine/application/entity_resolution.py:137-295 | the whole resolution is grouping, entities, relations and supersessions composed, with all their warnings in order |
| Validation.PromoteStructuredContexts | backend/app/modules/agent_workflows/validation.py:29-61 | the loop adds exactly the contexts without an event of their kind and name |
| Validation.PromotionIsIdempotent | backend/app/modules/agent_workflows/validation.py:29-61 | promoting a promoted result changes nothing |
| Validation.FindItems | backend/app/modules/agent_workflows/validation.py:140-153 | the endpoint table finds exactly the items whose name or alias has a normal form of the name |
| Validation.CheckEndpoints | backend/app/modules/agent_workflows/validation.py:140-155 | the check passes exactly when every relation end matches exactly one item |
| Validation.ValidateExtraction | backend/app/modules/agent_workflows/validation.py:91-173 | the checks in their order give the specified verdict, with the error of the first that fails |
| Validation.UniqueNameResolves | backend/app/modules/context_engine/application/entity_resolution.py:237-250 | a name that matches one mention resolves exactly when its normal form there is not empty, whatever else is grouped |
| Validation.AcceptedRelationsResolve | backend/app/modules/agent_workflows/validation.py:140-155 | a relation of an accepted result is resolved exactly when both ends have non-empty normal forms |
| Validation.ValidatorRefinesResolver | backend/app/modules/agent_workflows/validation.py:91-173 | if no end has an empty normal form, the resolver drops no relation of an accepted result |
| Validation.SeparatorNameIsDropped | backend/app/modules/agent_workflows/validation.py:91-173 | a grounded result, accepted by the whole validator, whose only relation the resolver drops because its ends have an empty normal form |
| ContextStore.Upsert | backend/app/modules/context_engine/application/context_store.py:40-46 | replaces the first item of the key in place, or appends |
| ContextStore.MergeExtraction | backend/app/modules/context_engine/application/context_store.py:49-108 | the two loops over events are upserts followed by the removal of superseded decisions |
| ContextStore.MergeIsIdempotent | backend/app/modules/context_engine/application/context_store.py:49-108 | merging the same result and source twice gives the same state as once |
| ContextStore.DecisionKeyLaw | backend/app/modules/context_engine/application/context_store.py:57-108 | decision keys are old plus new minus superseded; keys stay unique, untouched items keep value and order, kept new keys hold their latest item |
| ContextStore.OpenItemKeyLaw | backend/app/modules/context_engine/application/context_store.py:57-96 | issue and action keys only grow, by the new ones, and stay unique |
| ContextStore.UntouchedItemsStay | backend/app/modules/context_engine/application/context_store.py:40-46 | upserts leave items with other keys and their relative order alone |
| ContextUpdate.Close | backend/app/modules/context_engine/application/context_store.py:160-174 | one item is removed for each granted resolution and one warning given for each other |
| ContextUpdate.ClosingCounts | backend/app/modules/context_engine/application/context_store.py:160-174 | a key loses as many items as it was granted, never below none |
| ContextUpdate.ClosingKeepsTheRest | backend/app/modules/context_engine/application/context_store.py:160-174 | items whose keys were not granted stay in order |
| ContextUpdate.Update | backend/app/modules/context_engine/application/context_store.py:187-240 | the model-backed update merges, rewrites the narrative and closes what is proved, and warns about unverified quotations and unproved closings in order |
| ContextUpdate.UnverifiedExactly | backend/app/modules/context_engine/application/context_store.py:226-240 | a title is reported exactly when an own item of that title quotes what the text does not say |
| ContextUpdate.ModelOnlyClosesWithProof | backend/app/modules/context_engine/application/context_store.py:153-240 | a model's answer never touches decisions or sources, and closes only items with a quotation that is in the text |
| ContextUpdate.TimelineRecords | backend/app/modules/context_engine/application/context_store.py:111-150 | the loop keeps the first event of each kind and key |
| ContextUpdate.TimelineIsKeyed | backend/app/modules/context_engine/application/context_store.py:111-150 | rows have distinct keys, cover exactly the timeline events, and never supersede themselves |
| ContextUpdate.KeylessUpdate | backend/app/modules/agent_workflows/context_updater.py:13-42 | merges and appends the new summaries that fit, and says the summary is full exactly when one did not |
| ContextUpdate.KeylessUpdateKeepsNarrative | backend/app/modules/agent_workflows/context_updater.py:13-42 | the summary only grows, within its limit, a state that is set stays, and a second update changes nothing |
| SourceEventBroker.SourceSubscription.Reset | backend/app/api/workspaces/source_event_broker.py:53-57 | a reset leaves the marker alone in the queue, so it always fits |
| SourceEventBroker.SourceSubscription.Offer | backend/app/api/workspaces/source_event_broker.py:226-232 | an accepted event is queued, or resets a full queue |
| SourceEventBroker.SourceEventBroker.Subscribe | backend/app/api/workspaces/source_event_broker.py:106-113 | refused while unhealthy; otherwise adds a fresh empty subscription that accepts exactly its sources |
| SourceEventBroker.SourceEventBroker.Notify | backend/app/api/workspaces/source_event_broker.py:118-137 | queues a notification, or resets every stream and drains the queue |
| SourceEventBroker.SourceEventBroker.Terminated | backend/app/api/workspaces/source_event_broker.py:127-133 | the end of the connection replaces all notifications |
| SourceEventBroker.SourceEventBroker.Dispatch | backend/app/api/workspaces/source_event_broker.py:207-232 | a found event goes to exactly the streams that accept it; a missing one resets all |
| SourceEventBroker.SourceEventBroker.Interrupted | backend/app/api/workspaces/source_event_broker.py:178-182 | unhealthy, every stream reset, no notification left |
| SourceEventBroker.SourceEventBroker.Reconnected | backend/app/api/workspaces/source_event_broker.py:187-197 | healthy again, and every stream reset |
| SourceEventTheorems.StepKeepsInv | backend/app/api/workspaces/source_event_broker.py:118-232 | each step, be it a write, a notification, an overflow, a termination, a dispatch, a timeout with its liveness query, pruning, a reconnection or a stream's own, keeps the delivery invariant for every stream |
| SourceEventTheorems.QuietStreamIsCurrent | backend/app/api/workspaces/source_events.py:97-174 | a quiet stream on a live connection shows, for every watched source, exactly what the database holds, unless the last message of that source was dropped by a dispatch that timed out |
| SourceEventTheorems.MissingExactlyWhenDropped | backend/app/api/workspaces/source_event_broker.py:149-175 | of a stream without a marker, a due message that has left the broker is missing exactly when its dispatch timed out |
| SourceEventTheorems.TimedOutDispatchGoesUnnoticed | backend/app/api/workspaces/source_event_broker.py:140-175 | wherever a watched row can change, a dispatch that times out on a live connection leaves a quiet stream that shows the old state |
| SourceEventTheorems.DropsAreTimeouts | backend/app/api/workspaces/source_event_broker.py:161-175 | without a dispatch that times out no message is dropped |
| SourceEventTheorems.WriteKeepsFresh | backend/migrations/versions/202609260003_source_event_queue.py:52-91 | the trigger fires for every change of what a stream shows, so a stale stream is always owed a new look |
| SourceEventTheorems.ConsumedEventsHaveNoGap | backend/app/api/workspaces/source_event_broker.py:46-57 | what a stream has taken are accepted messages in commit order; of those since its subscription exactly the ones whose dispatch timed out are left out |
| SourceEventTheorems.NextTakenIsNextOffered | backend/app/api/workspaces/source_events.py:116-132 | the next thing taken is the marker, which ends the stream, or the next accepted message; queues hold at most 64 |
| SourceEventTheorems.LossIsMarked | backend/app/api/workspaces/source_event_broker.py:118-232 | a message that is neither taken, queued nor coming has left the marker in front, or its dispatch timed out |
| SourceEventTheorems.UnhealthyIsMarked | backend/app/api/workspaces/source_event_broker.py:178-197 | until the listener is healthy again every stream is about to end |
| SourceEventTheorems.MarkerStays | backend/app/api/workspaces/source_event_broker.py:53-57 | no step loses a marker or puts anything before it |
| RestoreTheorems.StepKeepsInv | backend/app/demo_snapshot.py:520-799 | with any number of restorers every step keeps the restore invariant |
| RestoreTheorems.SuccessMeansRestored | backend/app/demo_snapshot.py:732-799 | a normal return, also after a failed commit call, means row, graph and all objects are the restorer's own and there |
| RestoreTheorems.OnlyOneSucceeds | backend/app/demo_snapshot.py:555-799 | at most one restorer of a target succeeds |
| RestoreTheorems.UncertainMeansPreserved | backend/app/demo_snapshot.py:735-785 | an uncertain outcome means nothing was deleted and everything outside SQL is there |
| RestoreTheorems.CommittedRowIsWhole | backend/app/demo_snapshot.py:577-733 | a committed row is never without its graph and objects |
| RestoreTheorems.UndoneMeansGone | backend/app/demo_snapshot.py:758-795 | a restore that fails without residue leaves no row, node or object of its own |
| RestoreTheorems.DeletesOnlyItsOwn | backend/app/demo_snapshot.py:535-552 | a restorer removes only what it wrote, and nothing once its own row is committed |
| RestoreTheorems.DeletesBeforeAnyCommit | backend/app/demo_snapshot.py:757-791 | the graph is never deleted after anybody's commit, and objects are not either while a reservation is held |
| RestoreTheorems.CleanupMeetsCommitExactlyWhenReleased | backend/app/demo_snapshot.py:728-787 | while a restorer deletes its objects somebody can still commit before it is done exactly when its transaction was rolled back first; any number of sources |
| RestoreTheorems.ReleasedCleanupIsReached | backend/app/demo_snapshot.py:728-787 | from every free target such a rolled-back cleanup is reached, with another restorer ready to start |
| RestoreCleanup.CleanupCreatedState | backend/app/demo_snapshot.py:535-552 | the loop tries every deletion, reports each failure, and reports none only if everything is gone |
| RestoreCleanup.LoopTakesTheSteps | backend/app/demo_snapshot.py:547-552 | the loop's effect is that of the protocol's cleaning steps |
| SnapshotRefTheorems.RestoredIdsAreDistinct | backend/app/demo_snapshot.py:342-343 | restored rows, nodes and edges have distinct identifiers within their kind; associations, whose identifiers are not validated and drawn anew if null or empty, exactly when the artifact gives none twice |
| SnapshotRefTheorems.RestoredExactlyWhen | backend/app/demo_snapshot.py:577-728 | an accepted artifact is restored exactly when objects are named like their sources, no identifier key or source list that the restore reads is missing, no association has the identifier or pair of another, and foreign keys are spelled like what they name |
| SnapshotRefTheorems.ReferencesSurviveExactlyWhenSpelledAlike | backend/app/demo_snapshot.py:600-728 | all restored references, those inside utterances and confirmed snapshots included, resolve exactly when the artifact spells each like the identifier it names |
| SnapshotRefTheorems.GraphReferenceResolvesExactlyWhen | backend/app/demo_snapshot.py:308-338 | an accepted graph reference resolves exactly when the row it names spells its identifier canonically |
| SnapshotRefTheorems.SourceReferencesResolve | backend/app/demo_snapshot.py:588-592 | once every source has found its object, every graph and store reference to a source resolves |
| SnapshotRefTheorems.CanonicalArtifactSurvivesExactlyWhen | backend/app/demo_snapshot.py:178-339 | an accepted artifact in canonical spelling is restored exactly when no such key is missing and its associations are proper, and then every reference resolves exactly when those in utterances and confirmed snapshots name rows of the artifact |
| SnapshotRefTheorems.AcceptedSpeakerCanDangle | backend/app/demo_snapshot.py:671-709 | an accepted canonical artifact is restored with an utterance of a person that does not exist |
| SnapshotRefTheorems.RepeatedAssociationIsRefused | backend/app/demo_snapshot.py:216-239 | an accepted canonical artifact with a repeated, non-empty association identifier cannot be restored |
| SnapshotRefTheorems.TwoMembersAreRestoredExactlyWhen | backend/app/demo_snapshot.py:662-667 | a canonical artifact with two members of a project, whatever their identifiers, is accepted; it is restored exactly when neither key is missing and no identifier is given twice |
| SnapshotRefTheorems.ContextAndChunkAgree | backend/app/demo_snapshot.py:275-281 | a restored context and its chunk agree on their source |
| SnapshotRefTheorems.AcceptedReferenceCanDangle | backend/app/demo_snapshot.py:311-329 | for every identifier with a second spelling there is an accepted artifact that is restored with an edge without ends |
| SnapshotRefTheorems.IdentifiersStayDistinct | backend/app/demo_snapshot.py:346-354 | renaming directory identifiers never makes two node identifiers equal |
| SnapshotRefTheorems.DirectoryEntriesAreFollowed | backend/app/demo_snapshot.py:346-354 | an identifier that names a person or project names the restored one afterwards |
| Sse.ParseSseFrames | frontend/src/lib/api/sse.ts:2-13 | the loop with its early return gives the payloads up to the terminal frame and the carried remainder |
| Sse.ApiStream | frontend/src/lib/api/client.ts:249-261 | reading chunk by chunk yields what parsing the whole text at once yields, for texts without CR CR LF |
| Sse.ParsingResumes | frontend/src/lib/api/sse.ts:3-5 | the carried remainder is all a later call needs |
| Sse.ChunksDoNotMatter | frontend/src/lib/api/client.ts:249-261 | every way of cutting such a text gives the same payloads and the same end |
| SseTheorems.ChunkingIsHarmlessExactlyWithoutCrCrLf | frontend/src/lib/api/sse.ts:3-5 | no cut changes the frames exactly when the text has no CR CR LF |
| SseTheorems.CrCrLfCanChangeAPayload | frontend/src/lib/api/sse.ts:3-10 | every plain one-line payload followed by CR CR LF LF arrives unchanged in one cut and changed in another |
| SseTheorems.PrintedEventsArrive | backend/app/api/ask/router.py:59-67 | what the server prints arrives event by event, in order, and ends, however it is cut and whatever text follows |
| Chunker.CharacterOverlapChunker.Create | backend/app/modules/ingestion/application/chunking.py:19-23 | refuses exactly the sizes and overlaps that cannot work |
| Chunker.CharacterOverlapChunker.Split | backend/app/modules/ingestion/application/chunking.py:40-58 | the loop gives the stripped, non-empty texts of the windows |
| Chunker.CharacterOverlapChunker.ChunkSource | backend/app/modules/ingestion/application/chunking.py:25-38 | positions count through all segments and each chunk has its segment's times |
| Chunker.WindowEndsAtLastSpace | backend/app/modules/ingestion/application/chunking.py:47-51 | a window that is cut short ends at the last space of its second half, or at its full size if there is none |
| Chunker.EndsNeverMoveBack | backend/app/modules/ingestion/application/chunking.py:46-57 | a window starts after the one before it, leaves no gap, and never ends earlier |
| Chunker.WindowsRebuildTheText | backend/app/modules/ingestion/application/chunking.py:40-58 | windows are within the size, cover the text, and their new text put together is the text |
| Chunker.NoTextIsLost | backend/app/modules/ingestion/application/chunking.py:52-54 | every character that is not white space is in some part |
| Chunker.SplitTextFits | backend/app/modules/ingestion/application/chunking.py:52-54 | no part is empty or longer than the size |
| AnalysisSlots.StepKeepsInv | backend/app/modules/agent_workflows/locks.py:30-48 | entering, taking a gate, taking a permit and leaving, by cancellation too, keep counts, holders and tables right |
| AnalysisSlots.OneGatePerWorkspace | backend/app/modules/agent_workflows/locks.py:33-40 | tasks of a workspace meet at one gate, all tasks at one semaphore, and one task a workspace is past its gate |
| AnalysisSlots.CapacityIsForThoseInside | backend/app/modules/agent_workflows/locks.py:22-40 | at most four are inside and nobody waiting at a gate holds a permit |
| AnalysisSlots.TablesHoldWhatIsUsed | backend/app/modules/agent_workflows/locks.py:41-48 | the tables hold exactly the workspaces in use and are empty when nobody is left |
| AnalysisSlots.NobodyIsStuck | backend/app/modules/agent_workflows/locks.py:39-48 | a task can always leave, and some waiting task can go on if none is inside |
| AdvisoryLocks.KeysNeverMeet | backend/app/modules/agent_workflows/locks.py:51-75 | both kinds of key fit a signed 64-bit integer and are never equal |
| AdvisoryLocks.LocksExclude | backend/app/modules/agent_workflows/locks.py:69-79 | two sessions never hold both locks for one source or one workspace |
| AdvisoryLocks.NoCircleOfWaiting | backend/app/modules/agent_workflows/locks.py:69-75 | sessions never wait in a circle |
| AdvisoryLocks.SomeSessionCanGoOn | backend/app/modules/agent_workflows/locks.py:69-79 | some session holds both locks or can take its next one |
| CredentialStore.Store.ChooseDefaultCredential | backend/app/api/workspaces/credentials.py:291-322 | clears the other defaults and sets one active credential |
| CredentialStore.Store.UpsertDefaultCredential | backend/app/api/workspaces/credentials.py:412-487 | replaces or inserts the named key and makes it the default |
| Credentials.FreshName | backend/app/api/workspaces/router.py:279-284 | the label loop ends, because each try meets another existing label, with the first free one |
| Credentials.FirstFree | backend/app/api/workspaces/router.py:279-284 | there is a first free label |
| CredentialTheorems.StepKeepsInv | backend/app/api/workspaces/router.py:204-318 | each operation, creating workspaces and setting models included, keeps defaults, names and references |
| CredentialTheorems.ExactlyOneDefault | backend/app/api/workspaces/credentials.py:188-487 | after any sequence a scope has one default exactly if it has a credential |
| CredentialTheorems.NamesIdentify | backend/app/api/workspaces/credentials.py:188-487 | provider and label identify a credential in its scope |
| CredentialTheorems.SelectionsNameCredentials | backend/app/api/workspaces/credentials.py:341-370 | when whole operations follow one another, no stored selection names a deleted credential, or one of another workspace or account |
| CredentialTheorems.ChosenIsDefault | backend/app/api/workspaces/credentials.py:301-309 | a choice makes one credential its scope's only default and leaves every other scope and field alone |
| CredentialTheorems.AddedTakesNoDefault | backend/app/api/workspaces/credentials.py:188-227 | an addition gives its scope one active row more, which is the default exactly if the scope had none, and moves no default; a refusal changes nothing |
| CredentialTheorems.RemovedExactlyWhenNothingBreaks | backend/app/api/workspaces/credentials.py:329-384 | a removal is refused exactly when the scope would lose its default, a selection its credential, or a provider in use its last active credential; otherwise only that row goes |
| CredentialTheorems.RemovalUndoesAddition | backend/app/api/workspaces/credentials.py:188-384 | removing what was just added gives the old state back, except for the only active credential of a provider already in use |
| CredentialTheorems.UpsertedIsDefault | backend/app/api/workspaces/credentials.py:421-487 | after an upsert the named credential is the only default, active, with the key that came along; other keys stay |
| CredentialTheorems.EndpointMovesOnlyWithItsKey | backend/app/api/workspaces/credentials.py:248-271 | a stored key never moves to another Ollama endpoint: the endpoint changes only together with the key, after a recent sign-in |
| CredentialTheorems.SetModelsKeeps | backend/app/api/ai/models.py:172-223 | a model selection is stored only for credentials the workspace may use |
| CredentialRaces.SelectionsStaySound | backend/app/api/ai/models.py:180-222 | any interleaving of removals and selections under their locks keeps selections sound if nobody but the owner stores them while the owner removes account credentials |
| CredentialRaces.RaceBreaksExactlyWhenForeign | backend/app/api/workspaces/credentials.py:332-384 | a removal and a selection of one credential can leave a selection without its credential exactly when the owner removes it from the account and somebody else selects it |
| CredentialRaces.AdministratorCanLoseASelection | backend/app/api/workspaces/credentials.py:332-384 | the breaking overlap exists wherever an owner has one credential and another administrator selects it |
| Tokens.IssueAddsOneActive | backend/app/auth/mcp.py:58-101 | an issue adds one row, active at once, below the limit, and changes nothing else; a refusal changes nothing |
| Tokens.ExtendedSecretIsAccepted | backend/app/auth/mcp.py:104-141 | exactly an active token whose expiry moves later is extended; its secret is then accepted exactly until the new expiry, all others are answered as before |
| Tokens.RevokedSecretIsRefused | backend/app/api/mcp_tokens.py:97-108 | only the owner revokes; from then on that secret is refused at all times, all others are answered as before |
| Tokens.McpTokens.AuthenticateMcpToken | backend/app/auth/mcp.py:144-164 | accepts by a conditional update that records the use |
| Tokens.IssuedSecretIsAccepted | backend/app/auth/mcp.py:86-101 | an issued secret is accepted for its owner exactly until its lifetime ends |
| Tokens.LifetimesAreBounded | backend/app/auth/mcp.py:47-55 | in every run no expiry is further than the longest lifetime away |
| Tokens.AtMostTwentyActive | backend/app/auth/mcp.py:72-85 | in every run an owner has at most twenty active tokens and one more for each extension that took effect after its token had expired |
| Tokens.TokensFollow | backend/app/auth/mcp.py:104-141 | over any run a token keeps owner and hash, its expiry never moves earlier, and what is revoked stays revoked |
| Tokens.AcceptedWasIssued | backend/app/auth/mcp.py:86-164 | in every run an accepted secret was issued to that owner, who has not revoked its token since |
| Tokens.DeadTokensStayDead | backend/app/auth/mcp.py:107-164 | once expired or revoked, a token is never active or accepted again, unless an extension of it started before it expired and took effect afterwards |
| Tokens.RevivedExactlyWhenLate | backend/app/auth/mcp.py:104-120 | a step brings a dead token back exactly when it is its owner's extension, started before the expiry and taking effect after it |
| Tokens.RevokedIsNeverLate | backend/app/auth/mcp.py:112-120 | a revoked token has no such extension |
| Tokens.LimitCanBeExceeded | backend/app/auth/mcp.py:72-120 | a run of issues and one such extension ends with twenty-one active tokens |

## Left out

- HTTP routing, Pydantic and SQLAlchemy wiring, Supabase, Neo4j, httpx, Vault and Celery: only their effects on rows, graph, objects and locks are modelled.
- Provider adapters, prompts, prices and the model catalogue; what a key offers is a parameter.
- Unicode normalization, case folding, regular expressions, hashing and the inside of `uuid5`.
- `JSON.parse` in `apiStream`: payloads are the strings it receives; a payload that is no JSON ends the generator.
- `analyze_source`, the PostgreSQL executor, the graph writer and the checkpoints of the workflow service.
- `superseded_by` chains: they may form a cycle, and ids of entities without identifiers may coincide; neither is claimed away.
- Rows that change workspace or owner, which no code in the modelled files does, and loss of the SQL connection during a restore.
- Graph commits and object writes that land after their call has failed and the cleanup has finished.
- SQL constraints on restored rows other than primary keys, unique pairs and foreign keys: positions, lengths, checks and emails. `analysis_checkpoint` and `metadata`, which are copied unchanged. Other keys that the validation does not ask for, such as the content type, and values of another JSON type than the code expects.
- Credential operations other than removals and selections that overlap in time: additions, rotations, choices, upserts and new workspaces are whole steps. The recent-sign-in check and the provider's answer are inputs.
- Deletion of accounts and workspaces.
- Difference between the database clock and the application clock for tokens; one clock that never goes back is used for both. A token operation reads it at its start and takes effect at one later moment: an issue counts and inserts in one step.
- Numbers on the notification channel that the trigger did not send.
- Fairness: the slot, lock and delivery models say what is safe and that somebody can go on, not when.
- React components, pages, mock API and styling.
- GroupLoop.Group.Absorb: stated for groups of one kind, which is the only way the loop calls it.
