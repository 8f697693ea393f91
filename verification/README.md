# Derived turns of a session log: a Dafny model

The log store keeps one append-only table of events. Everything it serves about turns is derived: a turn
index kept in step with the log by incremental ingest and by a chunked background build, stored turns built
lazily from the index, and pages assembled from stored turns. This project models those parts and asks one
question throughout: does the fast derived thing equal the simple recomputation, in every reachable state?

`dafny verify dfyconfig.toml` checks the whole project.

How the model is laid out:

- `Events`, `IndexRules`, `TurnRule`, `TurnIndex`, `IndexFacts`: the log, the rules an event is indexed by (this
  version's, and those of any other version), the index recomputed from the log (`IndexOf`), and the incremental
  write (`WriteEventTurn`).
- `IndexProtocol`: ingest, the build's transactions, aborts, crashes and restarts under other rules as steps of a
  state machine. `IndexStore` has the same operations as classes that update tables in place, each transaction of
  a build a method that is one step of the machine.
- `Dedup`, `Pairing`, `ShownCopies`: count-wise pairing of dual-emitted copies and its fingerprint text, their
  loops, and how many copies a reader sees.
- `Cache`, `CacheSafety`, `Freshness`, `Materializing`, `StaleTurns`: stored turns under any interleaving of ingest,
  builds, crashes, restarts and any number of materializers.
- `TurnModel` is the builder's closed form. `Passes`, `Visibility`, `Grouping` relate it to the builder's
  loops, which are in `Builder` and `BuildModel` and change an entry table in place. `ReaderView` and
  `PageAggregates` say what a reader gets over the fields of the events alone.
- `Latest`, `Composition`, `StoredPage`, `PageEquality`, `ServedPage`: a page of stored turns against the
  same page built from its events. `PageServer` is the server's own read path as a class.
- `Preview`, `TurnWindow`, `TimeSearch`, `Wake`: previews, paging, the search by time and the wake-up protocol.
- `RawPage`, `RawOrder`, `RawAgreement`: the raw page, and when it agrees with its events in event order.
- `FailingInputs`: concrete inputs on which the conditions for page equality and for grouping fail.

A `TurnEvent` is an event row with its turn id, as the store hands rows to the builder. Payloads are JSON
values. A fingerprint is the text that the program hashes. The model follows one session; other sessions
only make gaps between its event ids.

## What the proofs found

- **Index rules rolled back.** The index row records which version of the rules wrote it, not which versions
  ingested since. A server that goes from rules V to W, stores events without rebuilding, and goes back to V
  takes the index for current although those events are in no turn (`IndexProtocol.RollbackLosesAnEvent`,
  from every current session). A restart keeps the index exact if and only if an index row of the new version
  reaches the newest event (`IndexProtocol.RestartExactIffSafe`). Staying at a version, or moving to one the
  row was not written by, always meets that guard (`IndexProtocol.RestartForwardIsSafe`).
- **Search by time and id gaps.** `firstEventIDAtOrAfter` has a branch for probes that land in a gap, but that
  branch is never taken: a probe in a gap just below `hi` moves neither bound and the loop repeats it for ever.
  Any answer the loop gives is right. For every table a search ends if and only if it never comes to bounds, more
  than one id apart, with no row in their upper half (`TimeSearch.EndsIffNoGapMet`). Without gaps every search
  ends; if every search ends there is no gap between events of different seconds; when no two events share a
  second the two meet (`TimeSearch.EverySearchEnds`, `TimeSearch.EverySearchEndsIffContiguous`).
- **Narration across turns.** A stored page equals the rebuilt page if and only if no prose on it is narration
  only through a tool call of another turn (`PageEquality.StoredPageIsRebuiltPageIff`).
- **The builder's own grouping.** It matches the index exactly when every event resolves to the same turn id
  from its decoded body as from the extracted field; only an undecodable event can break that
  (`Grouping.GroupingMatchesIndexIff`, `Grouping.GroupingMatchesIndexWhenDecoded`).
- **Two promotion passes.** Some page has both of the first two passes promote in one turn if and only if the
  block promoted by the second carries reasoning beside its text (`Visibility.FirstTwoPassesMeetIff`).
- **Order of the raw page.** It concatenates rows turn by turn. That is event order if and only if no turn on the
  page resumes after another began. Its aggregate sources, each value with the event it came from, are those of the
  same events in event order if and only if spend, cost and context each have their newest event in the
  highest-numbered turn that reports them
  (`RawAgreement.RawPageAgreesIff`). The reference for a stored page is therefore the builder over the page's
  events in event-id order.

## Model

| member | source | states |
|---|---|---|
| TurnRule.TurnRuleClosedForm | internal/store/turn_index.go:141-151 | The running-state rule gives every event the nearest turn id at or before it, and before any, the id made from the session's first event |
| TurnIndex.WriteExtends | internal/store/turn_index.go:239-290 | One incremental write takes the recomputed index of a log to the recomputed index of the log with the event added, in all three tables and the running state, and hits no key |
| TurnIndex.WriteAllExtends | internal/store/turn_index.go:340-371 | The same for a batch in one transaction |
| IndexFacts.TurnNumbering | internal/store/turn_index.go:239-290 | Turn numbers are exactly 1..next-1, turn ids are distinct and first event ids rise with the number |
| IndexFacts.EveryEventInItsTurn | internal/store/turn_index.go:239-290 | event_turns holds every event of the log and nothing else, each in the turn with the id the rule names |
| IndexFacts.TurnRowFacts | internal/store/turn_index.go:239-290 | A turns row's first and last event, count and prompt flag are those of the events event_turns puts in the turn |
| IndexFacts.CandidatesAreTheEvents | internal/store/turn_index.go:239-290 | dedup_candidates holds exactly one row for each event the rules take as a candidate, with the event's turn number, key and source |
| IndexRules.CandidateIff | internal/server/dedup.go:37-64 | An event is a candidate if and only if row type and body both say user message or result and the text is not empty; its source is the event's |
| IndexRules.SameKeyIff | internal/server/dedup.go:58-62 | Two candidates have one key if and only if both are prompts or both are replies, of one text |
| IndexProtocol.IngestKeepsInv | internal/store/turn_index.go:185-234 | Storing an event keeps the protocol invariant in every state, with a build at any stage beside it, and always appends the event |
| IndexProtocol.FirstEventOpensIndex | internal/store/turn_index.go:198-221 | The first event of a session without row and events opens its index: the session is current and its tables are the index of that event |
| IndexProtocol.IngestKeepsCurrent | internal/store/turn_index.go:223-234 | Storing an event into a current session leaves it current, its tables, row and state those of the longer log |
| IndexProtocol.IngestLeavesCurrentIff | internal/store/turn_index.go:185-234 | After storing an event a session is current if and only if it was before or had neither row nor events; otherwise only the log changed |
| IndexProtocol.IngestAloneKeepsIndex | internal/store/turn_index.go:185-234 | A session that only ever ingests is current, with the exact index of its whole log, after its first event and ever after |
| IndexProtocol.BuildTransaction | internal/store/turn_index.go:336-371 | A build transaction that commits extends the index of a prefix of the log by exactly the next events |
| IndexProtocol.FinishAborts | internal/store/turn_index.go:340-371 | When ingest opened the index after the builder's delete, the builder's next commit hits a primary key and rolls back |
| IndexProtocol.AbandonedBuildStops | internal/store/turn_index.go:313-379 | A build ended by an error, a crash or a restart has no further effect and leaves what it committed |
| IndexProtocol.ReadTakesAChunk | internal/store/turn_index.go:125-127 | A build reads the 2000 oldest events it has not written, and leaves fewer than that to the last transaction |
| IndexProtocol.StepKeepsInv | internal/store/turn_index.go:185-399 | Every ingest, delete, read, chunk, final mark, crash and guarded restart, under whatever rules each version has, keeps the protocol invariant |
| IndexProtocol.CurrentIndexIsExact | internal/store/turn_index.go:185-399 | In every run from whatever leftovers, with any family of rules, a session whose row carries the running version has all tables, the state and the through-id equal to the running rules folded over its whole log |
| IndexProtocol.RestartExactIffSafe | internal/store/turn_index.go:193-197 | A restart under any version keeps a current index exact if and only if a row of that version reaches the newest event |
| IndexProtocol.RestartForwardIsSafe | internal/store/turn_index.go:193-197 | Restarting under the running version, or one that did not write the row, meets the guard |
| IndexProtocol.RollbackLosesAnEvent | internal/store/turn_index.go:193-197 | From every current session a rollback of the rules leaves a session that counts as current with an event in no turn |
| IndexStore.SessionTurnState.AssignTurn | internal/store/turn_index.go:141-151 | The new last turn id is the event's own, the previous one, or one made from the event id; the next number is untouched |
| IndexStore.Transaction.WriteEventTurn | internal/store/turn_index.go:239-290 | The in-place writes give exactly the specified tables and state, refuse exactly on a key violation, and keep turn ids unique |
| IndexStore.WriteBatch | internal/store/turn_index.go:340-371 | Writing a batch in place equals folding the write over it, or refuses as the fold aborts |
| IndexStore.Store.StoreEvent | internal/store/store.go:290-319 | The event and its index rows land together or not at all, exactly as the protocol's ingest step says; a brand-new session or a current one is then current with the exact index of its log, any other only has a longer log |
| IndexStore.Store.DeletePartialTurnIndex | internal/store/turn_index.go:381-399 | The index row and the index tables are emptied and the log is untouched |
| IndexStore.IngestBesideBuild | internal/store/store.go:290-319 | Storing an event is the protocol's ingest step at every stage of a build, and leaves what the build holds alone |
| IndexStore.IndexBuilder.Check | internal/store/turn_index.go:317-320 | The call goes on exactly when the session is not current, as the protocol's check says |
| IndexStore.IndexBuilder.Clear | internal/store/turn_index.go:322-327 | The delete transaction is the protocol's delete step on whatever the tables hold |
| IndexStore.IndexBuilder.ReadBatch | internal/store/turn_index.go:329-335 | A read through the reader pool is the protocol's read step on the log as it then is; a short batch ends the chunked part |
| IndexStore.IndexBuilder.WriteChunk | internal/store/turn_index.go:336-350 | The chunk's transaction is the protocol's chunk step: it commits the batch, or a taken key rolls it back and ends the build |
| IndexStore.IndexBuilder.FinishBuild | internal/store/turn_index.go:353-378 | The last transaction, batch after batch until a short one, is the protocol's final step: everything left and the session's row, or nothing |
| IndexStore.WriteAllAppends | internal/store/turn_index.go:358-371 | Batches written one after the other in a transaction are one batch |
| IndexStore.IndexBuilder.BuildTurnIndex | internal/store/turn_index.go:313-379 | The transactions together, with no writer in between, index the whole log under the running version from any leftovers |
| IndexStore.Store.BuildTurnIndex | internal/store/turn_index.go:313-379 | The same as a call on the store; a current index is left alone |
| IndexStore.Store.Validator | internal/store/validators.go:50-64 | In any reachable state, current or not, the session is indexed first if it has to be, and the maximum and the sum read off the turns table are the log's newest id and its length |
| Dedup.PairsAreCountwise | internal/server/dedup.go:69-101 | For every key the pairing is the order-preserving matching of the first min(h, o) copies of each source, and nothing else |
| Dedup.PairsAreSymmetric | internal/server/dedup.go:66-101 | Pairs are symmetric and join copies of one key from opposite sources |
| Dedup.OppositeUnique | internal/server/dedup.go:69-101 | A copy has at most one twin |
| Dedup.AppendKeepsPairs | internal/server/dedup.go:69-101 | A new copy keeps every pair and adds at most its own |
| Dedup.VisibleCopiesAreTheLargerCount | internal/server/dedup.go:66-101 | Of the candidates of a key exactly max(h, o) are not the OTel half of a pair |
| ShownCopies.ShownIsTheLargerCount | internal/server/turnmodel.go:591-604 | Of the events that say one text as a prompt, and of those that say one as a reply, h from the harness and o from OTel, exactly max(h, o) have an entry that is not a duplicate, however the session is divided into pages |
| ShownCopies.PairShowsTheHarnessCopy | internal/server/turnmodel.go:591-604 | A pair is two prompts or two replies of one text from opposite sources; on every page both entries name the harness event's group, the harness copy is shown and the OTel copy is not |
| Dedup.FingerprintInjective | internal/server/dedup.go:120-135 | Equal fingerprint texts name the same candidates with the same twins |
| Pairing.QueueCopies | internal/server/dedup.go:72-90 | After the first loop each key's queues hold its copies of each source in event order |
| Pairing.PairDualEmits | internal/server/dedup.go:71-101 | The queue loops compute the specified pairing |
| Pairing.PairsFingerprint | internal/server/dedup.go:120-135 | The loop writes the specified text for the sorted candidates |
| Pairing.SortedAlready | internal/server/dedup.go:125-126 | On candidates in event order the sort changes nothing |
| Cache.SelectIsEventsOfTurn | internal/store/turn_index.go:654-677 | Reading a turn through event_turns, at whatever prefix the tables index, gives that prefix's events of the turn, and none when it had no such turn |
| CacheSafety.StepKeepsStored | internal/store/turn_index.go:185-399 | Every index step that leaves a turn stored keeps it a builder output for earlier events and an earlier pairing, both under the rules the index row names |
| CacheSafety.ActionKeepsInv | internal/server/stored_turns.go:199-251 | Every step of every materializer, of ingest, of the build and of a guarded restart under other rules keeps the cache invariant |
| Materializing.MaterializationStores | internal/server/stored_turns.go:199-251 | In every cache state of a current session a materialization that runs to its end stores the builder's output for the turn's present events and pairs, leaves the turn fresh and touches nothing else |
| Materializing.OnlyReplaceAndDeleteStore | internal/store/turn_index.go:725-759 | What is stored changes only when a build's delete drops all of it or a finishing materializer replaces its one turn |
| Materializing.AbandonedMaterializationStops | internal/server/stored_turns.go:199-251 | A materialization ended by an error or a restart has no further effect |
| Materializing.RestartKeepsFreshness | internal/store/turn_index.go:487-493 | A restart under the same versions keeps every stored turn, as fresh or as stale as it was |
| Freshness.SameFingerprintSamePairs | internal/server/dedup.go:115-135 | If an older reading of the candidates gives a turn the same fingerprint, it gives the turn's events the same pairs |
| Freshness.FreshTurnIsExact | internal/store/turn_index.go:487-493 | In every cache state a turn of a current session that does not need materializing holds the builder's output for its present events and the present pairs, both under the rules at work |
| Freshness.FreshTurnIsExactInEveryRun | internal/server/stored_turns.go:199-251 | The same at the end of every run, with late writers, any number of materializers and restarts under other rules |
| Freshness.NewCopyMovesFingerprint | internal/server/dedup.go:115-135 | A copy filed in one turn changes another turn's fingerprint if and only if it pairs into that turn |
| StaleTurns.OneEventMakesStale | internal/store/turn_index.go:487-493 | Storing one event into a session with every turn fresh makes stale exactly its own turn and, when it pairs, the turn of its twin |
| Passes.PassesCommute | internal/server/turnmodel.go:577-589 | The three promotion passes can run in any order |
| Passes.PassesIdempotent | internal/server/turnmodel.go:832-964 | Running a pass twice is running it once |
| Passes.PassesOnlyReveal | internal/server/turnmodel.go:832-964 | A pass never hides an entry, changes only primary and duplicate, and keeps them opposite |
| Visibility.PassesMeetClosedForm | internal/server/turnmodel.go:577-589 | The first loop and the three passes over its result give every row the closed-form entry |
| ReaderView.PromotedAsRecoveredIff | internal/server/turnmodel.go:912-964 | Recovered or OTel partial prose is promoted if and only if no decoded event of its turn is a result with text or harness, non-recovered partial prose |
| ReaderView.PromotedAsUnsupersededIff | internal/server/turnmodel.go:805-857 | A text block is promoted by the second pass if and only if no event of its turn is a result with text |
| ReaderView.PromotedAsNarrationIff | internal/server/turnmodel.go:885-907 | A text block is promoted by the third pass if and only if some event of the page is a tool call of its message |
| ReaderView.ShownIff | internal/server/turnmodel.go:577-605 | An entry is primary, and no duplicate, if and only if a rule over the fields of the page's events shows it: unpaired conversation or the harness copy, recovered text, a text block, or narration |
| ReaderView.ReadingPage | internal/server/project.go:47-96 | The projected page has one turn for each turn id in order of first appearance, listing the shown events in order, and an entry, without raw message, for exactly the shown events |
| ReaderView.EntryNamesItsEvent | internal/server/turnmodel.go:301-383 | Role and kind tell what the event is: each kind and role belongs to exactly the event types it names |
| ReaderView.EntryIsItsEvents | internal/server/turnmodel.go:502-545 | An entry carries its event's id, turn, source, time, message and recovered flag, through every pass |
| ReaderView.EntryTextIsItsEvents | internal/server/turnmodel.go:967-1004 | An entry's text is the one its event's type keeps text in |
| ReaderView.EntryPayloadsAreItsEvents | internal/server/turnmodel.go:661-669 | Only a tool call has a tool input and only a tool result a tool output, each the event's own |
| ReaderView.UndecodedIsHidden | internal/server/turnmodel.go:473-485 | An event that cannot be decoded is never shown and never in a group |
| Visibility.PairedCopiesKeepTheirAnnotation | internal/server/turnmodel.go:591-604 | No pass promotes a copy that can pair; the OTel copy of a pair stays hidden and only it |
| Visibility.ProseSupersedesRecovered | internal/server/turnmodel.go:912-932 | Prose stands against recovered text exactly when its block has one payload |
| Visibility.FirstTwoPassesNeverMeet | internal/server/turnmodel.go:832-857 | With one payload per block no turn is promoted by both the recovered and the unsuperseded pass |
| Visibility.FirstTwoPassesMeet | internal/server/turnmodel.go:832-857 | In a page of a recovered text and a block with text and reasoning in one turn, both passes promote |
| Visibility.FirstTwoPassesMeetIff | internal/server/turnmodel.go:789-857 | For a recovered text and prose of one turn, some page has both promoted, one by each of the first two passes, if and only if the prose's block carries reasoning |
| Builder.SurfaceRecoveredBlocks | internal/server/turnmodel.go:937-964 | The in-place loop promotes exactly the recovered texts of turns nothing supersedes, read off the table before it |
| Builder.SurfaceUnsupersededBlocks | internal/server/turnmodel.go:832-857 | The in-place loop promotes exactly the prose of turns without a result, read off the table before it |
| Builder.SurfaceNarrationBlocks | internal/server/turnmodel.go:885-907 | The in-place loop promotes exactly the prose whose message has a tool call |
| BuildModel.BuildTurns | internal/server/turnmodel.go:751-787 | The loop gives the distinct turns in order of first event with their entries in order, and settles every entry's turn id |
| BuildModel.ReadSources | internal/server/turnmodel.go:561-575 | The variable-by-variable update is one step of the last-value-wins fold |
| BuildModel.BuildTurnModel | internal/server/turnmodel.go:440-655 | The whole build, loops and passes, is the closed form over its rows, and its sources the fold over them |
| BuildModel.ProjectForReading | internal/server/project.go:47-96 | The loops give the projection and leave their argument alone |
| Grouping.IndexedRowsAreSettled | internal/server/turnmodel.go:751-787 | Rows that carry index turn ids are grouped as the index has them |
| Grouping.GroupingMatchesIndexIff | internal/server/turnmodel.go:751-787 | Grouping a whole session without index ids gives the index's turns if and only if every event resolves to one turn both ways |
| Grouping.GroupingMatchesIndexWhenDecoded | internal/store/turn_index.go:141-151 | When decoded bodies agree with the extracted turn id, only an undecodable event that names another turn can break that |
| FailingInputs.UndecodableEventIsGroupedApart | internal/server/turnmodel.go:751-787 | A log that fails: a decoded event of one turn, then an undecodable one that names another |
| Grouping.OneTurnFromOneTurn | internal/server/stored_turns.go:207-211 | The rows of an indexed turn build into exactly one turn, so the error beside it is unreachable |
| Latest.MergedSourcesAreThePages | internal/server/stored_turns.go:146-156 | Merging the turns' sources by event id equals the last-value-wins fold over the page, for every division into turns |
| PageAggregates.ContextOfIff | internal/server/turnmodel.go:691-712 | An event is a context reading if and only if its usage - the usage total before the spend's before a result's own - says something |
| PageAggregates.AggregatesIffReported | internal/server/turnmodel.go:720-723 | A page has aggregates if and only if some event on it reports cost, spend or context |
| PageAggregates.TotalIsTheNewest | internal/server/turnmodel.go:724-740 | The total is the newest session cost; without one, what the newest spend comes to; without either, zero |
| PageAggregates.BreakdownsAndContextAreTheNewest | internal/server/turnmodel.go:724-745 | The breakdowns are the newest spend's whatever the total is, and the context is its newest reading |
| Composition.TurnEntryIsPageEntryIff | internal/server/turnmodel.go:885-907 | An entry built with its turn alone equals the entry built with the page if and only if it does not narrate across turns; then it is hidden alone and shown on the page |
| StoredPage.AssembleStoredPage | internal/server/stored_turns.go:119-173 | The loops give the turns in order, the union of the groups, the merged aggregates and the entries by id |
| StoredPage.ExpandEntry | internal/server/stored_turns.go:350-365 | One entry fails exactly when it was cut and its event is gone or cannot be decoded; otherwise it becomes its event's full entry |
| StoredPage.ExpandToolPayloads | internal/server/stored_turns.go:338-367 | Every entry gets its event's payloads back in place, or the call fails exactly when some entry does |
| PageEquality.StoredPageExpands | internal/server/stored_turns.go:350-361 | On a page of stored turns neither error of the expansion can occur |
| PageEquality.StoredPageIsRebuiltPageIff | internal/server/stored_turns.go:65-173 | For every page, assembled and expanded stored turns equal the projection of the build over the page's events in event order, if and only if narration stays in its turn |
| FailingInputs.StoredPageHidesNarration | internal/server/turnmodel.go:885-907 | A page that fails: text and a result in one turn, the tool call of the text's message in the next; the stored page hides the text, the rebuilt page shows it |
| ServedPage.StoredTurnIsLocal | internal/server/stored_turns.go:199-251 | A stored turn depends only on the pairs of its own rows |
| ServedPage.PageTurn | internal/store/turn_index.go:654-677 | Each turn taken from a page's rows in event order has all its events, under its place in the page |
| ServedPage.ServedPageIsRebuiltPageIff | internal/server/stored_turns.go:65-114 | In every cache state, a window of fresh turns of a current session assembles to the rebuilt page if and only if narration stays in its turn |
| PageServer.ReadSessionPairs | internal/server/stored_turns.go:186-196 | The pairs and the candidates filed by turn are those of the candidates read |
| PageServer.TurnFingerprint | internal/server/stored_turns.go:182-184 | The text is the fingerprint of the turn under the session's pairing |
| PageServer.PreviewsAreStored | internal/server/stored_turns.go:236-244 | Previewing the entries the projected turn lists gives one stored entry per visible row, in row order |
| PageServer.BuildStoredTurn | internal/server/stored_turns.go:199-245 | Building, projecting and previewing one turn's rows gives the specified content, and the through-id is the newest event's |
| PageServer.TurnServer.IndexTurns | internal/server/stored_turns.go:65-68 | Afterwards the session is current, the log untouched, and stored turns are kept or fall with the deleted leftovers |
| PageServer.TurnServer.TurnEvents | internal/store/turn_index.go:656-677 | The rows read are the log's events that event_turns puts in the turn |
| PageServer.TurnServer.MaterializeStoredTurn | internal/server/stored_turns.go:199-251 | The call is a whole run of the cache's five materializer actions: the turn is stored with what the builder makes of its present events and pairs, is fresh, and nothing else changes; neither of its two errors can occur |
| PageServer.TurnServer.FreshenTurns | internal/server/stored_turns.go:77-92 | After the loop no turn of the window needs materializing |
| PageServer.TurnServer.StoredTail | internal/server/stored_turns.go:65-114 | Without a concurrent writer a page read, from any sound cache, answers the window with the rebuilt page if and only if narration stays in its turn, and with the validator of the log; an empty window gives an empty page |
| Preview.TruncateUTF8 | internal/server/stored_turns.go:324-333 | The loop cuts where the specification cuts |
| Preview.TruncatedIsLongestWholePrefix | internal/server/stored_turns.go:324-333 | On well-formed UTF-8 the cut is the longest prefix of whole characters within the limit |
| Preview.ShortenKeepsShape | internal/server/stored_turns.go:297-322 | Shortening keeps the JSON shape and keys and cuts only string values |
| Preview.CutIffChanged | internal/server/stored_turns.go:297-322 | The flag is raised exactly when the value changed, which is exactly when it held an over-long string |
| Preview.ShortenIdempotent | internal/server/stored_turns.go:297-322 | A shortened value has nothing left to shorten |
| Preview.PreviewThenExpand | internal/server/stored_turns.go:258-295 | A preview expanded from its event is exactly the builder's entry |
| Preview.PreviewCarries | internal/server/stored_turns.go:258-275 | A preview gives each payload's size, and the payload itself up to 2048 bytes, beyond that the shortened input or the longest whole prefix of the output |
| Preview.PreviewMarksCuts | internal/server/stored_turns.go:258-295 | An entry is marked cut exactly when its payload differs from the event's; a stored output is within the limit |
| TurnWindow.WindowHolds | internal/store/turn_index.go:526-618 | A window is an interval ending at its upper bound with min(limit, prompts) prompt turns starting at a prompt or at turn 1, or min(limit, turns) turns without prompts, the limit being the caller's when positive and else 30; `more` holds exactly when a turn precedes it |
| TurnWindow.CursorBound | internal/store/turn_index.go:526-560 | A cursor that is an event bounds the window just below that event's turn |
| TurnWindow.NoCursor | internal/store/turn_index.go:531-533 | Without a cursor the range is every turn |
| TurnWindow.OtherCursor | internal/store/turn_index.go:538-554 | A cursor that is no event gives an empty range if and only if it is below every event, and else ends the range at the turn of the newest event below it |
| TurnWindow.WalkIsDisjointAndEnds | internal/store/turn_index.go:516-619 | Paging back while the session grows serves consecutive disjoint intervals, every page but the last says there is more, and the walk is no longer than the first read's turns |
| TurnWindow.MoreLeadsToAPage | internal/store/turn_index.go:516-619 | When a page says there is more, any later read before any event of its oldest turn gives a page that is not empty and ends where it began |
| TurnWindow.WalkCanFinish | internal/store/turn_index.go:516-619 | Every walk, however the session has grown, goes on to one whose last page says there is no more |
| TurnWindow.CompleteWalkExists | internal/store/turn_index.go:516-619 | From every session with events, under any limit, a complete walk exists |
| TurnWindow.EveryTurnServedOnce | internal/store/turn_index.go:516-619 | Once a page says there is no more, every turn of the first read was served on exactly one page |
| RawPage.ChooseTurns | internal/server/server.go:231-243 | The loop keeps the longest suffix of the window that fits, or the newest turn alone |
| RawPage.RawRows | internal/server/server.go:231-257 | The page never exceeds the cap, holds every chosen event or the newest 5000 of an oversized newest turn, and `more` says exactly that something was left out |
| RawOrder.RawReadingIsNewestIff | internal/server/server.go:244-257 | For every field and all whole turns, the last value in raw order is the newest one if and only if the newest event with the field is in the highest-numbered turn that has one |
| RawOrder.RawSourcesAreThePagesIff | internal/server/turnmodel.go:561-575 | The aggregate sources over raw order are those over event order if and only if that holds for spend, cost and context |
| RawOrder.RawPageIsInOrderIff | internal/server/server.go:244-257 | Rows read turn by turn are in event order if and only if no turn resumes after another began |
| RawAgreement.RawPageAgreesIff | internal/server/server.go:231-257 | Both of these for every log and every raw page of whole turns, against the page's events in event order |
| RawOrder.InterleavedTurnsMoveTheRawCost | internal/server/server.go:244-257 | A page that fails: when a turn resumes with a newer, different cost, raw order shows the older one |
| TimeSearch.FirstEventIDAtOrAfter | internal/store/store.go:627-675 | With contiguous ids the search ends with the smallest id at or after the time, or reports that no event is that late |
| TimeSearch.ProbeHalves | internal/store/store.go:656-672 | Without gaps each probe leaves at most half of the bounds, rounded up |
| TimeSearch.AnyAnswerIsFirst | internal/store/store.go:650-675 | With any gaps, an answer the loop gives is the smallest id at or after the time |
| TimeSearch.EndsIffNoGapMet | internal/store/store.go:650-674 | For every table, gaps and ties included, and every time, the search ends if and only if it meets no bounds with a gap in all of their upper half |
| TimeSearch.EverySearchEnds | internal/store/store.go:650-674 | For every table, without gaps every search ends, and if every search ends no gap separates events of different seconds |
| TimeSearch.EverySearchEndsIffContiguous | internal/store/store.go:663-667 | When no two events share a second, every search ends if and only if the ids have no gap |
| TimeSearch.GapBeforeTheAnswer | internal/store/store.go:663-667 | A table that fails: ids 1, 2 and 100 at three seconds, searched for the third |
| TimeSearch.GapInsideASecond | internal/store/store.go:663-667 | A table with a gap whose every search ends: ids 1, 5 and 6, the gap inside one second |
| TimeSearch.GapAfterTheAnswer | internal/store/store.go:663-667 | A table with no gap between seconds that fails: ids 1, 2 and 10, the last two in one second |
| TimeSearch.WindowRange | internal/store/store.go:524-552 | The id range of two searches selects exactly the events created in the half-open window |
| Wake.TurnMaterializer.Note | internal/server/stored_turns.go:437-439 | From every reachable state the locked section is the protocol's note step |
| Wake.TurnMaterializer.Send | internal/server/stored_turns.go:440-443 | The send that drops when the channel is full is the protocol's send step |
| Wake.TurnMaterializer.Receive | internal/server/stored_turns.go:473-474 | Taking the token is the protocol's receive step |
| Wake.TurnMaterializer.Swap | internal/server/stored_turns.go:478-481 | The locked section is the protocol's swap step, and what it returns is what the worker then has to drain |
| Wake.TurnMaterializer.NoteEvent | internal/server/stored_turns.go:433-444 | A turn_complete, result or error leaves its session pending and a token in the channel; any other event changes nothing |
| Wake.TurnMaterializer.RunOnce | internal/server/stored_turns.go:473-499 | With nobody in between, one round leaves nothing pending, every session noted drained, and the worker waiting |
| Wake.NoLostWakeUp | internal/server/stored_turns.go:433-481 | In every reachable state with a pending session and no noter on its way to the channel, a blocked worker has a token to receive |
| Wake.EveryOtherStepGetsCloser | internal/server/stored_turns.go:473-481 | Without new notes every step brings the worker closer to rest |
| Wake.RestMeansAllDrained | internal/server/stored_turns.go:473-481 | When nothing but a note can happen, every session noted was drained since |

## Left out

- TurnIndex.WriteExtends: a body whose turn_id is not valid JSON, or a row the candidate function fails on, makes ingest fail in the program; rows of the model always have an extracted field and a candidate answer.
- IndexProtocol.CurrentIndexIsExact: holds for runs whose restarts meet the guard of RestartExactIffSafe, which is exact; the rules of a version are any functions that name turns and take candidates only from row types whose bodies the build reads.
- IndexStore.Store.BuildTurnIndex: says what a build leaves when no other writer comes between its transactions; with other writers each transaction is a protocol step, by the methods of IndexBuilder, and IndexProtocol.CurrentIndexIsExact is what holds.
- IndexStore.IndexBuilder.BuildTurnIndex: the same; a build that another writer aborts ends with its error, as FinishAborts says.
- PageServer.TurnServer.StoredTail: reads without a concurrent writer; under interleavings the per-turn freshness of Freshness.FreshTurnIsExactInEveryRun is what holds, because turn rows and entry rows are separate reads. The validator's time of last update is not modelled.
- PageEquality.StoredPageIsRebuiltPageIff: the session id is not part of the page compared, and an absent map of source groups is the same as an empty one.
- TimeSearch.FirstEventIDAtOrAfter: needs contiguous ids because with gaps the loop need not end; EndsIffNoGapMet says exactly when it does, and AnyAnswerIsFirst that any answer is right.
- RawAgreement.RawPageAgreesIff: a page cut inside one oversized turn is a tail of that turn's events, in order, by RawPage.RawRows; what the cut leaves out is not compared.
- Preview.ShortenIdempotent: `shortenStrings` updates maps and slices in place; it is modelled on values, so aliasing inside a decoded JSON value is not captured.
- TurnWindow.WindowHolds: the window is a handful of queries without a loop of its own; it is modelled as a function of the tables.
- Wake.NoLostWakeUp: mutex sections and channel operations are atomic steps; the pause before a drain is not modelled.
- Other sessions, and the per-session lock that keeps one builder at work, beyond the one builder of the protocol.
- SQLite: transactions are atomic, writers are serialised, keys abort a transaction.
- JSON parsing and encoding (taken as lossless) and SHA-256 (the text before hashing is the key).
- Display-only entry fields (images, subagent fields, error codes, session actions) are one opaque value per entry.
- Building the newest few stale turns of a session after a turn ends (`materializeNewestStaleTurns`) and reading one entry (`fullStoredEntry`): they are the same materialization and expansion on fewer turns.
- Pairing inside a page only (`pagePairs`), used where no session-wide pairing is at hand.
- HTTP handlers, the client, settings, the log forwarder, the sessions projection, `TurnState`, aggregate listing, text matching and ranking in search.
