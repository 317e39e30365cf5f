# Marmosa: a verified model

Marmosa is a file-backed event store with Dynamic Consistency Boundaries: an append may carry a
condition "fail if events match this query after this position", and a decision is read, folded,
taken and appended under such a condition. This project models the store, its indices, the
decision loops and the projections, and proves what they are for. Everything is checked by
`dafny verify dfyconfig.toml`.

The simple meaning of a read is `Log.Scan`: all matching events of the log, in order. Every faster
or concurrent path is measured against it.

| module | what it holds |
|---|---|
| `Domain`, `Log`, `Sequences`, `Keys` | events, queries and the matching rule; the log, its scan, and what it means that files store and index a log; position lists, sorting, key order |
| `FileNames`, `Storage`, `PathStore` | padded position names, sanitised index names, vocabularies without aliases; the path map underneath, the layout of a store in it, and the writing side of the store carried out on it |
| `IndexedRead`, `Indices`, `EventStore` | the indexed read as functions of the files and its refinement of the scan; index updates; the store as an object |
| `VacuousItems`, `Naming`, `MissingEntries`, `UnionReads` | exactly when the read is the scan and when it is a snapshot |
| `Protocol` | the store as a step machine: processes, the global lock, files, history; index-file reads and all writes are separate steps, a process may crash or lose a write between any two |
| `ProtocolSafety`, `ProtocolSnapshots`, `ProtocolSerial` | the invariants of every run |
| `ProtocolTheorems`, `ProtocolOutcomes`, `WholeBatches`, `ProtocolProgress` | the main results over all runs |
| `LoneDecision`, `TornRun` | two runs step by step: a decision that commits, and where serializability ends |
| `DecisionModel`, `Execute` | unary and n-ary decision models, retry loops |
| `IndexLocking`, `Locks` | position files under their locks; all locks together |
| `Projections`, `Batches`, `ProjectionStore`, `ProjectionRunner` | checkpointed folds, batches, the projection store, rebuild, the grouped fold |
| `Maintenance`, `Paging` | additive tag migration; reading page by page |

## What was found

The promises hold under conditions a caller can check. Where one is needed it is shown to be
needed.

- **Vacuous items.** An item with neither types nor tags matches every event but contributes no
  position (`src/event_store/mod.rs:205`). A query is read right from every store if and only if
  it has no such item (`VacuousItems.RightIffNonVacuous`).
- **Colliding names.** Letter case, `/ : * ?` and the joining underscore of tags collide
  (`FileNames.NamesCollide`), and nothing else: `FileNames.FileOfTypeIff` and
  `FileNames.FileOfTagIff` say character by character which names share a file. Lower-case names
  without those characters never do, if no tag key has an underscore
  (`FileNames.PlainNamesAreAliasFree`). A vocabulary is always read right if and only if no two of its
  names share a file, or it has no types (`Naming.AlwaysRightIffAliasFree`). A conflict is never
  missed for a collision (`IndexedRead.NoMissedConflict`), but reads go wrong in two ways: without
  a limit they return foreign events from eleven candidates on (`Naming.MisreadDependsOnCount`);
  with a limit they are cut short before they are filtered, so from two candidates on a match can
  be lost (`Naming.LimitedReadLosesMatch`): a page comes back empty before the end, and the last
  event is not found.
- **Zero limit.** `max_count = Some(0)` without items yields one event when there is one to yield;
  `IndexedRead.ReadRefinesScan` states exactly this exception.
- **Several files united.** An unlocked read takes the last item with its last type last. It is a
  snapshot whatever is appended meanwhile if and only if all files of that part are among the
  files of every other part (`UnionReads.AlwaysSnapshotIffLastSubsumes`); for a single item, tags
  or none, if and only if its types share one file (`UnionReads.AlwaysSnapshotIffOneFile`). The
  machine answers queries with one item and at most one type file by file, all others at one
  instant.
- **Half-indexed events.** A crash between an event file and its index files, or a lost index
  write, leaves an event that no query by the missing file finds; queries without items do
  (`MissingEntries.UnindexedEventUnnoticed`). Every query is read right from given files if and
  only if no event lacks an entry (`MissingEntries.EveryQueryRightIffComplete`). After such a
  crash a guarded append can commit against an event of its own type
  (`TornRun.TornRunIsNotSerial`); decisions that run alone are all serial if and only if no event
  lacks an entry (`MissingEntries.AllSerialAloneIffComplete`). Serializability and snapshots are
  promised for runs in which that has not happened; conditions without items, density,
  immutability, contiguity, progress and freedom from deadlock hold with it.
- **Mixed n-ary lists.** If some projections ask for everything and others name items, the store
  is asked only for the items (`src/decision_model/execute.rs:205-212`). Nothing is lost if and
  only if the list is not mixed (`DecisionModel.CompositeCompleteIff`). The condition of a mixed
  list fails with nobody interfering exactly when the newest event is a lost one
  (`DecisionModel.MixedFailsAlone`).
- **Checkpoint zero.** A batch never saves position 0, and a checkpoint at position 0, which a
  rebuild writes before it starts (`src/projections.rs:366`), counts as none. A first batch that
  ends there is processed again or forgotten in the total. Batches add up for every projection if
  that is not the case, and for the projection that counts events only then
  (`Batches.CountsExactlyIfAnchored`). After a rebuild of a log of one event the checkpoint stands
  at position 0, total 0: counting can go on from a rebuild of one event or more if and only if it
  was of more than one, or nothing follows (`Batches.CountsAfterRebuild`).
- **Tags arriving late.** A tag added to an event at or before the position a decision saw last is
  invisible to the decision's condition (`Maintenance.RetaggingUnnoticed`,
  `Maintenance.TagArrivesUnseen`).
- **Retries.** `max_retries - 1` needs `max_retries >= 1` (`src/decision_model/execute.rs:139`, `169`).
- **Tags and events.** The examples at `src/event_store/maintenance.rs:41` and `77` say that at
  least as many events are processed as tags are added. The code counts tags: one event can gain
  two (`Maintenance.MoreTagsThanEvents`), and the examples hold on every log if and only if the
  factory never offers an event of the type two new keys (`Maintenance.ProcessedCoversAdded`).

## Model

| member | source | states |
|---|---|---|
| Domain.MatchingCases | src/domain.rs:50-76 | the matching rule on the cases the tests promise: no item, an item without anything, one type, several, one tag, several, both, several items |
| Domain.AppendedIsStamped | src/event_store/mod.rs:357-371 | a log is the old one and the stamped batch exactly if it keeps what was there and holds behind it, in order, every field that was handed in, under consecutive positions and one time |
| FileNames.RoundTrip | src/event_store/mod.rs:146-164 | a padded event file name parses back to its position at every width up to the largest `u64`, and to nothing beyond |
| FileNames.PaddedWidth | src/event_store/mod.rs:370 | a name has ten digits at least, and no leading zero if it has more |
| FileNames.ParsesExactly | src/event_store/mod.rs:146-164 | exactly which file names parse, and to which position: a plus sign or none, digits whose value is a `u64`, the suffix |
| FileNames.PathRoundTrip | src/event_store/mod.rs:329-340 | the same through the full path: the last segment of an event path determines the position |
| FileNames.FilesOfMembers | src/event_store/indices.rs:173-187 | the index files of an event are its type's file first and then its tags' files in order, no others |
| FileNames.SanitizeIff | src/event_store/indices.rs:10-16 | two names are sanitised alike exactly if they are alike character by character: equal, one ASCII letter in two cases, or both among `/ : * ? _`; the result has no capital and none of `/ : * ?` |
| FileNames.FileOfTypeIff | src/event_store/indices.rs:90-101 | exactly which types share a file |
| FileNames.FileOfTagIff | src/event_store/indices.rs:18-22 | exactly which tags share a file: those whose key, underscore and value are alike end to end |
| FileNames.LowerIff | src/projections.rs:609-615 | lower-casing makes two texts equal exactly if they differ in ASCII letter case alone, and leaves no capital |
| FileNames.NamesOfThree | src/event_store/indices.rs:10-22 | the file names of one position, one type and one tag, spelled out |
| FileNames.PlainNamesAreAliasFree | src/event_store/indices.rs:10-22 | lower-case names without `/ : * ?`, and without an underscore in a tag's key, never collide |
| FileNames.NamesCollide | src/event_store/indices.rs:10-22 | two types, and two tags, that differ and share a file |
| Storage.InMemoryStorage.DeleteDirAll | src/in_memory.rs:62-93 | exactly the files at or below the path are gone, the rest is unchanged |
| Storage.InMemoryStorage.ReadDir | src/in_memory.rs:95-113 | exactly the direct children, each once, in ascending order, and nothing from further down |
| Storage.ChildIff | src/in_memory.rs:95-113 | directly in a directory, written with or without a closing slash, lies what has exactly one more name |
| Storage.UnderIff | src/in_memory.rs:62-77 | at or below a path lies the path itself and whatever goes on after one more slash |
| Storage.ReadsAgree | src/in_memory.rs:35-42 | in the path map of a store an event or index path is present exactly if that file is, and holds its content: paths never clash |
| Storage.EventWriteRepresents | src/event_store/mod.rs:368-371 | writing one event path changes that event file and no other file of the store |
| Storage.IndexWriteRepresents | src/event_store/indices.rs:46-52 | writing one index path changes that position file and no other file of the store |
| Storage.ListingIsEvents | src/event_store/mod.rs:329-340 | listing the event directory and parsing the paths yields exactly the stored positions, index files notwithstanding |
| PathStore.NextSequence | src/event_store/mod.rs:326-340 | on the path map: listing, parsing and taking the largest gives the position after the last stored one |
| PathStore.LocksDistinct | src/event_store/indices.rs:33-34 | no two position files share a lock |
| PathStore.AddPositionAt | src/event_store/indices.rs:24-58 | on the path map and under its lock: exactly the one position file changes, by the one entry, and the lock is free again |
| PathStore.StoreEvent | src/event_store/mod.rs:359-378 | on the path map: the event file and all its index entries, nothing else |
| PathStore.AppendAll | src/event_store/mod.rs:316-386 | an append without a condition on the path map: the paths hold exactly a fully indexed log that is longer by what was handed in, in every field, and every lock is free |
| Sequences.SortDedup | src/event_store/indices.rs:199-215 | concatenating, sorting and removing neighbours is the strictly ascending union |
| Sequences.PushSorted | src/event_store/indices.rs:46-52 | pushing an absent position and sorting keeps a list strictly increasing and adds exactly it |
| Sequences.SortStable | src/decision_model/build.rs:17-19 | sorting keeps the order of elements with the same key |
| Keys.AtMostIffPrecedes | src/projections.rs:678-684 | the key order without its recursion: a key comes before another if it is a proper beginning of it or has the smaller character where they first differ |
| Keys.Sorted | src/projections.rs:678-684 | the members of a key set in that order, ascending, each once |
| Log.NextIsLength | src/event_store/mod.rs:329-340 | on a dense log the position computed from the directory is the length of the log |
| Log.ScanExact | src/domain.rs:50-76 | the scan is exactly the matching events from a position on, each once, ascending |
| Indices.AddPositionExact | src/event_store/indices.rs:24-58 | adding a position keeps every file strictly increasing and adds exactly that entry |
| Indices.AddToAllExact | src/event_store/indices.rs:173-187 | indexing an event adds its position to its files and to no other |
| Indices.IndexNext | src/event_store/mod.rs:359-378 | writing an event file and its index entries behind a fully indexed log gives a fully indexed log |
| IndexedRead.ReadRefinesScan | src/event_store/mod.rs:236-310 | the indexed read is scan, order, limit, for every start, limit and direction and on both paths, if and only if it is not the zero-limit case |
| IndexedRead.ReadFilesExactly | src/event_store/mod.rs:269-288 | whatever files there are: the parallel path returns all records in order, or fails exactly if one is missing |
| IndexedRead.ReadMatchingExactly | src/event_store/mod.rs:290-307 | whatever files there are: the sequential path returns the matching records of those before the first missing one, up to the limit, and fails only if it gets to the missing one first |
| IndexedRead.ResolvedExactly | src/event_store/mod.rs:210-234 | on alias-free names a position is resolved exactly if its event matches from the start on |
| IndexedRead.ZeroLimit | src/event_store/mod.rs:290-307 | when the limit the sequential path applies differs in effect from the limit asked for |
| IndexedRead.ReadSucceeds | src/event_store/mod.rs:236-310 | no read fails on files whose index is truthful, colliding names or not |
| IndexedRead.NoMissedConflict | src/event_store/mod.rs:342-354 | whatever the names, a condition that reports nothing has no matching event after its position |
| IndexedRead.NothingMissedOfAll | src/event_store/mod.rs:215-217 | a condition without items misses nothing, whatever the index lacks |
| IndexedRead.ReadWithin | src/event_store/mod.rs:236-310 | whatever the names, a read succeeds and returns only stored events from the start on |
| IndexedRead.DetectsExactly | src/event_store/mod.rs:342-354 | on alias-free names a condition reports a conflict exactly when there is one |
| IndexedRead.VacuousItemsResolveToNothing | src/event_store/mod.rs:200-206 | a vacuous item is resolved as if it were not there |
| VacuousItems.VacuousItemFails | src/event_store/mod.rs:200-206 | for every query with a vacuous item, a store of names that do not collide from which the read is nothing and the scan everything |
| VacuousItems.RightIffNonVacuous | src/event_store/mod.rs:200-206 | a query whose own names do not collide is read right from every store if and only if none of its items is vacuous |
| Naming.MisreadDependsOnCount | src/event_store/mod.rs:265-307 | any event that shares the files of an item it does not match: up to ten copies are dropped, from eleven on all are returned |
| Naming.CollisionDependsOnCount | src/event_store/mod.rs:265-307 | the case of types that differ in letter case |
| Naming.ReadOfOneLooksAtOne | src/event_store/mod.rs:260-307 | a read of one event looks at its first candidate only and returns it if it matches, nothing otherwise |
| Naming.LimitedReadLosesMatch | src/event_store/mod.rs:260-307 | any event and any foreign one that shares its files, in front of it in either direction: a read of one event returns nothing though one matches |
| Naming.AlwaysRightIffAliasFree | src/event_store/indices.rs:10-22 | every store and query over a vocabulary is read right, for every start, limit and direction, if and only if no two names share a file or there are no types |
| UnionReads.BothUniteFiles | src/event_store/mod.rs:167-234 | several types in one item and one item for each resolve to the same union of files |
| UnionReads.ResolvedAtOnce | src/event_store/mod.rs:210-234 | read at one moment, a query resolves to what the index tells at that moment |
| UnionReads.ShownAtOnce | src/event_store/mod.rs:167-207 | read file by file while nothing is appended, the items show what the index tells then |
| UnionReads.AlwaysSnapshotIffLastSubsumes | src/event_store/mod.rs:167-234 | a read of any non-vacuous items, file by file, is always a snapshot if and only if the files of the last part read are among those of every part |
| UnionReads.AlwaysSnapshotIffOneFile | src/event_store/mod.rs:167-207 | for one item, with tags or without: if and only if all its types share one file |
| UnionReads.UnionReadIsNoSnapshot | src/event_store/mod.rs:167-234 | for any two types with two files, in one item or two: the later event is returned without the earlier one, no log prefix answers that, and a condition built on it stays silent |
| MissingEntries.EveryQueryRightIffComplete | src/event_store/indices.rs:46-52 | on alias-free names every query is read right from given files if and only if no event lacks an index entry |
| MissingEntries.AllSerialAloneIffComplete | src/decision_model/execute.rs:157-174 | on alias-free names every decision that runs alone sees all matches or is stopped by its condition, if and only if no event lacks an index entry |
| MissingEntries.UnindexedEventUnnoticed | src/event_store/mod.rs:368-375 | an event without its type entry is in the log; a condition asking by that type misses it, a condition without items finds it |
| TornRun.TornRunIsNotSerial | src/event_store/mod.rs:368-375 | the run: a writer crashes after its event file, a guarded append commits against that event; the files hold a log no serial run writes |
| EventStore.MarmosaStore.NextSequence | src/event_store/mod.rs:329-340 | the loop over parsed paths finds one past the largest stored position, or zero |
| EventStore.MarmosaStore.GetAllPositions | src/event_store/mod.rs:146-164 | the stored positions from the start on, strictly ascending |
| EventStore.MarmosaStore.GetPositionsByEventTypes | src/event_store/indices.rs:199-215 | the strictly ascending union of the types' files |
| EventStore.MarmosaStore.GetPositionsByAllTags | src/event_store/mod.rs:182-197 | the intersection of the tags' files |
| EventStore.MarmosaStore.GetPositionsForQueryItem | src/event_store/mod.rs:167-207 | union over types intersected with intersection over tags; nothing for a vacuous item |
| EventStore.MarmosaStore.GetPositionsForQuery | src/event_store/mod.rs:210-234 | the union over items from the start on, ascending; the directory for a query without items |
| EventStore.MarmosaStore.ReadInternal | src/event_store/mod.rs:236-310 | computes the read that refines the scan, reversing and truncating before files are opened |
| EventStore.MarmosaStore.ReadAllFiles | src/event_store/mod.rs:269-288 | the parallel path: all records in order, or the failure of the first missing file |
| EventStore.MarmosaStore.ReadSequentially | src/event_store/mod.rs:290-309 | the sequential path: matching records in order, stopping at the limit |
| EventStore.MarmosaStore.AddEventToIndices | src/event_store/indices.rs:173-187 | enters the position in all files of the event, events untouched |
| EventStore.MarmosaStore.Append | src/event_store/mod.rs:316-386 | succeeds exactly if no conflict is reported; then the log is the old log and the whole batch as it was handed in, field by field; otherwise nothing changed; agreement is kept |
| EventStore.MarmosaStore.WriteBatch | src/event_store/mod.rs:356-378 | the batch becomes one contiguous block of consecutive positions in order, every event with its id, its metadata and the time of the append |
| EventStore.AppendedIsRead | src/event_store/mod.rs:356-386 | reading everything after the old log returns what was handed in, in order and in every field |
| EventStore.DescendingIff | src/event_store/mod.rs:249-253 | a read descends exactly if the option is among those given, wherever it stands |
| EventStore.MarmosaStore.ReadLast | src/extensions.rs:44-57 | always succeeds with a stored event or none; with clean names it is the matching event after which none matches, or none exactly when none matches |
| EventStore.NewestOfScan | src/extensions.rs:44-57 | a descending read of one event is the newest match |
| DecisionModel.FoldEnds | src/decision_model/build.rs:21-23 | the fold is the last of the states that begin with the initial one and go on by applying each event in turn to the state before it, first event first; there is only one such run of states |
| DecisionModel.BuildAppliesInOrder | src/decision_model/build.rs:17-23 | the state of a model built on a scan is where its events, applied in log order, end |
| DecisionModel.RecordsScan | src/decision_model/build.rs:17-23 | a model that records its events records exactly the scan, in order |
| DecisionModel.BuildOnScan | src/decision_model/build.rs:10-36 | on a scan the model is the fold over the scan, guarded with its last position |
| DecisionModel.NothingMissed | src/decision_model/build.rs:28-33 | if nothing matches after the last position seen, everything that matches was seen, whatever bound the read stopped at |
| DecisionModel.ConflictBeyond | src/decision_model/build.rs:28-33 | the guard finds something exactly if a matching event lies beyond the bound of the read |
| DecisionModel.CollectItems | src/decision_model/build.rs:45-65 | the loop yields the distinct items of all queries, or the query for everything if one asks for it |
| DecisionModel.BuildNary | src/decision_model/build.rs:38-92 | each state is where the projection's own matches, applied by ascending position, end; one condition with the union query and the largest position |
| DecisionModel.NaryIsUnary | src/decision_model/build.rs:71-84 | each n-ary state is the unary model of that projection's filtered events |
| DecisionModel.NaryOrderIndependent | src/decision_model/build.rs:66-69 | with distinct positions the order of the input does not matter |
| DecisionModel.UnionMatches | src/decision_model/build.rs:45-65 | the union query matches exactly if some projection's query does |
| DecisionModel.UnionQueryExactly | src/decision_model/build.rs:45-60 | which items the union query has, and in which order: those of all queries end to end, each once, where it first appears |
| DecisionModel.CompositeLoses | src/decision_model/execute.rs:205-212 | exactly which events the composite read loses |
| DecisionModel.CompositeCompleteIff | src/decision_model/execute.rs:205-212 | nothing is lost if and only if all or none of the queries ask for everything |
| DecisionModel.CompositeReadIsUnary | src/decision_model/execute.rs:191-217 | on an unmixed list each state is that of the projection's own read: its events applied in log order |
| DecisionModel.MixedListLosesEvents | src/decision_model/execute.rs:205-212 | a mixed list of two and a log of one event whose event is lost |
| DecisionModel.NaryMissedNothing | src/decision_model/execute.rs:191-217 | on an unmixed list an unopposed common condition means that every state is where all its matches now, applied in log order, end |
| DecisionModel.MixedFailsAlone | src/decision_model/build.rs:86-89 | on a mixed list the condition fails with nobody interfering exactly if the newest event is one the read lost |
| Execute.ExecuteDecision | src/decision_model/execute.rs:123-145 | retries exactly the failed conditions, at most `max_retries` times, and returns the last outcome |
| Execute.InterferenceFound | src/decision_model/execute.rs:157-174 | after a full read, another batch trips the condition exactly if it contains a selected event |
| Execute.Attempt | src/decision_model/execute.rs:158-173 | one attempt commits on the exact log it extends, or fails for interference, or is rejected and changes nothing; the state it was decided on is where the matching events of that log, applied in order, end |
| Execute.ExecuteAsync | src/decision_model/execute.rs:147-175 | success was decided on the log its events extend, on the state in which that log's matching events, applied in order, end; what is stored is what the decision made; a conflict is reported only after interference in every one of `max_retries` attempts |
| Execute.BuildNaryAsync | src/decision_model/execute.rs:191-217 | fails exactly on an empty list; on an unmixed one each state is where its own events, applied in log order, end, and the condition guards their union |
| ProtocolSafety.StepSafe | src/event_store/mod.rs:316-386 | every step keeps files, index, lock and history consistent |
| ProtocolSafety.RunSafe | src/event_store/mod.rs:316-386 | the same over every run from an empty store |
| ProtocolSnapshots.ShowsPrefix | src/event_store/mod.rs:359-378 | while no event is half-indexed, an index file shows at every moment exactly its events below some log bound |
| ProtocolSnapshots.RunQuiet | src/event_store/indices.rs:173-187 | unless an event was left half-indexed, all events are fully indexed but the one in flight, and every reader holds prefixes |
| ProtocolSerial.FileReadIsSnapshot | src/event_store/mod.rs:167-207 | intersecting files read at different times is the scan of the shortest prefix among them |
| ProtocolSerial.AtomicReadIsSnapshot | src/event_store/mod.rs:236-310 | a read at one instant is the scan of a prefix, even while an event is being indexed |
| ProtocolSerial.PassedCheckIsSerial | src/event_store/mod.rs:342-354 | a job whose check passes commits what it would write if it ran alone now |
| ProtocolSerial.RunConsistent | src/decision_model/execute.rs:157-174 | in every run without a half-indexed event every view is a snapshot and every committed entry is serial |
| ProtocolTheorems.DenseImmutableLog | src/event_store/mod.rs:316-386 | crashes included: positions are 0 to n-1, files are never overwritten, every indexed position has its event, no read fails |
| ProtocolTheorems.SuccessIsContiguous | src/event_store/mod.rs:356-381 | every success left its whole batch, the one handed in or decided on, as one block in order, with every field and the time its check was made at |
| ProtocolTheorems.ReadsFileByFile | src/event_store/mod.rs:167-207 | which reads open their files one by one, and in which order: those for one item with one type or none, and with a tag if none, the type's file first; all others are answered at one instant |
| ProtocolTheorems.SnapshotRead | src/event_store/mod.rs:167-207 | a read file by file returns the matches of what its own job asks, below a bound: at least the log length at its start less an event then being indexed, at most the log length at its end |
| ProtocolTheorems.EveryViewIsSnapshot | src/event_store/mod.rs:236-310 | so is every view any process ever took |
| WholeBatches.FinishedIsSettled | src/event_store/mod.rs:359-378 | a finished batch is fully indexed |
| WholeBatches.SuccessIsFinished | src/event_store/mod.rs:359-381 | every success is a finished batch |
| WholeBatches.BatchesSeenWhole | src/event_store/mod.rs:167-207 | a read file by file sees every batch whole that was finished when it began |
| WholeBatches.BatchesSeenWholeAtOnce | src/event_store/mod.rs:236-310 | a read at one instant sees every batch whole that is finished then |
| ProtocolTheorems.Serializability | src/decision_model/execute.rs:157-174 | in runs without a half-indexed event the files hold what running the committed jobs one at a time would write, each adding what it was given or decided on; each decision was taken on the state in which all matches just before its own events, applied in log order, end; each condition had nothing against it |
| ProtocolTheorems.NoConflictMissed | src/event_store/mod.rs:342-354 | no append went ahead against a matching event after its position, whatever the names; after a half-indexed event this is still so for conditions without items |
| ProtocolTheorems.NoSpuriousConflict | src/event_store/mod.rs:342-354 | a decision's check fails exactly if a matching event was written beyond its snapshot, and never by its own process |
| ProtocolTheorems.StepsStayOpen | src/event_store/mod.rs:321-385 | no step of one process takes a step away from another, except that taking the lock keeps the others from taking it |
| ProtocolTheorems.CrashesAnywhere | src/event_store/mod.rs:321-385 | a process may crash between any two steps; that frees its lock, changes no file, and leaves a half-indexed event exactly if an index file of its own was next |
| ProtocolTheorems.AnyIndexWriteMayBeLost | src/event_store/indices.rs:51-53 | any index write may be lost, and its process goes on as if it had been made |
| ProtocolOutcomes.OutcomesMean | src/decision_model/execute.rs:157-174 | in every run, crashes included: who ended with a conflict had a matching event in the log after its condition's position; who was rejected was so by its business rule on what it saw; nothing fails, and only a crash crashes |
| ProtocolOutcomes.DetectsTruly | src/event_store/mod.rs:342-354 | on alias-free names a condition reports no conflict that is not there, even while index entries are missing |
| ProtocolOutcomes.RejectedOnSnapshot | src/decision_model/execute.rs:157-174 | a rejection was decided on the state in which the matching events of some beginning of the log, applied in order, end |
| LoneDecision.LoneDecisionCommits | src/decision_model/execute.rs:157-174 | the run of a decision that meets nobody: it reads, decides, checks, writes its event and its index entry, and succeeds |
| ProtocolTheorems.BoundedRetry | src/decision_model/execute.rs:157-174 | never more than `max_retries` attempts, and a conflict is reported only after exactly that many |
| ProtocolTheorems.NoDeadlock | src/event_store/mod.rs:321-385 | an unfinished run always has a process that can step without crashing |
| ProtocolProgress.StepProgress | src/decision_model/execute.rs:157-174 | every step brings its process nearer to its end in a well-founded order and leaves the others where they are |
| ProtocolProgress.EveryRunEnds | src/decision_model/execute.rs:157-174 | whatever actions are chosen for ever, from some moment on none of them is a step: every run ends |
| ProtocolProgress.EndedIsFinished | src/event_store/mod.rs:321-385 | a run that cannot go on has finished every process |
| IndexLocking.NoLostUpdate | src/event_store/indices.rs:24-58 | under every interleaving of lock, read, write, free, each file is increasing and holds exactly what was added |
| IndexLocking.FinishedWritersCount | src/event_store/indices.rs:103-137 | when all writers are done a file holds its first content and the positions handed in, nothing else |
| IndexLocking.SomeWriterGoesOn | src/event_store/indices.rs:36-56 | as long as a writer of a file is unfinished, one of them has a step that brings it nearer to its end |
| Locks.AppendFits | src/event_store/mod.rs:321-385 | an append takes locks in order and frees all, on success, failed condition and failed write |
| Locks.AddTagsFits | src/event_store/maintenance.rs:124-152 | so does a tag migration |
| Locks.RebuildFits | src/projections.rs:361-382 | and a rebuild |
| Locks.AppendHolds | src/event_store/mod.rs:321-385 | an append holds the store lock around everything it does, and within it takes the lock of each index file of each event in turn |
| Locks.AddTagsLocks | src/event_store/maintenance.rs:124-152 | a tag migration takes the file locks of its tags in turn and no other |
| Locks.LocksExclude | src/event_store/indices.rs:36-56 | no lock is ever held by two |
| Locks.FindStepper | src/event_store/indices.rs:36-56 | following lock holders from any unfinished process ends at one that can step |
| Locks.DeadlockFree | src/projections.rs:361-382 | any mix of appends, migrations and rebuilds always has a step, and finished processes hold nothing |
| Projections.RunIsFold | src/projections.rs:401-468 | a run over ascending events folds each key on its own and leaves the last position and the number of matching events |
| Projections.FoldKeyTrace | src/projections.rs:424-455 | the fold of a key is the last of the instances that begin with none and change by `apply` at each event that the query selects and the selector assigns to the key, first event first |
| Projections.KeyTraceUnique | src/projections.rs:424-455 | there is only one such run of instances |
| Projections.FoldFiltered | src/extensions.rs:139-158 | folding the matching events alone is folding what matches |
| Batches.IncrementalIsOneShot | src/projections.rs:401-468 | from any contents and checkpoint, batches may be empty, overlap and repeat: processing them in turn is processing everything at once, if the first is anchored |
| Batches.CountsExactlyIfAnchored | src/projections.rs:418-421 | for the counting projection that is so if and only if the first batch is anchored, from every start and for every way of cutting |
| Batches.ZeroIsReplayed | src/projections.rs:461-465 | a batch that ends at position zero, with no checkpoint above zero, is applied again by the next |
| Batches.AnchoredAfterRebuild | src/projections.rs:357-383 | when a rebuild followed by batches is anchored, in terms of how many events it covered |
| Batches.RebuildThenBatches | src/projections.rs:357-383 | a rebuild over the first events and then batches equals one batch over everything reached on the cleared store, if anchored |
| Batches.CountsAfterRebuild | src/projections.rs:366 | counting goes on right after a rebuild of one event or more if and only if it was of more than one or no event follows |
| ProjectionStore.StorageBackendProjectionStore.RemoveOldTags | src/projections.rs:731-745 | removes exactly the tag files of the key |
| ProjectionStore.StorageBackendProjectionStore.Save | src/projections.rs:730-854 | stores the state under the next version and keeps tag directories and metadata index in agreement, in and out of batch mode |
| ProjectionStore.StorageBackendProjectionStore.Delete | src/projections.rs:856-902 | removes the key everywhere, agreement kept |
| ProjectionStore.StorageBackendProjectionStore.Clear | src/projections.rs:688-692 | from any content, agreeing or not, to an empty agreeing store |
| ProjectionStore.StorageBackendProjectionStore.RebuildMetadataIndex | src/projections.rs:509-541 | the index becomes the metadata of the state files, whatever it held |
| ProjectionStore.StorageBackendProjectionStore.QueryByTag | src/projections.rs:609-636 | exactly the states that carry the tag up to ASCII letter case in key and value, one per key |
| ProjectionStore.StorageBackendProjectionStore.QueryByTags | src/projections.rs:638-687 | exactly the states that carry every tag, one per key, by ascending key; nothing for an empty list |
| ProjectionStore.VersionCountsSaves | src/projections.rs:757-837 | over any run a key holds the state saved last, and its version is the number of saves since the last delete or clear, with the times of the first and last of them |
| ProjectionStore.Perform | src/projections.rs:730-914 | any run of operations leaves exactly those states, tag directories in agreement, and the metadata index too outside batch mode |
| ProjectionRunner.ProjectionRunner.ApplyEvent | src/projections.rs:430-455 | one event updates the instance of its key by `apply`, saving or deleting |
| ProjectionRunner.ProjectionRunner.ProcessEvents | src/projections.rs:401-468 | contents, saved checkpoint and returned position are those of the checkpointed fold |
| ProjectionRunner.ProcessInBatches | src/projections.rs:401-468 | handing batches to the projection in turn is the batchwise run the laws of `Batches` are about |
| ProjectionRunner.RebuildBatch | src/projections.rs:357-383 | processing a whole log from a cleared store gives every key its fold and the checkpoint the last position |
| ProjectionRunner.RebuildThenBatchesIsRebuild | src/projections.rs:357-468 | what a rebuild left, processed further in any batches, is what a rebuild of everything reached leaves |
| ProjectionRunner.ProjectionRunner.Rebuild | src/projections.rs:357-383 | from any earlier content: every key holds its fold, indices agree, batch mode is off, the checkpoint stands at the last event |
| ProjectionRunner.ProjectionRunner.BuildProjections | src/extensions.rs:139-158 | the states are those of applying every event in turn to the instance of its key, the survivors each once, by ascending key |
| ProjectionRunner.GroupedIsFold | src/extensions.rs:139-158 | that grouping folds each key on its own |
| ProjectionRunner.RebuildIsGroupedFold | src/extensions.rs:139-158 | a rebuild holds exactly the grouped fold of the matching events |
| Maintenance.MergeTagsAdds | src/event_store/maintenance.rs:133-142 | old tags stay in place, every offered key is present, only new keys were added |
| Maintenance.MergeTagsExactly | src/event_store/maintenance.rs:133-142 | exactly which offered tags are added, and in which order: of each key the event does not have, the first |
| Maintenance.MigrationIsAdditive | src/event_store/maintenance.rs:127-152 | nothing but tags of events of the type changes, every other field stays, and the tags only grow |
| Maintenance.TagKeepsIndexed | src/event_store/maintenance.rs:133-142 | a tag added to an event and its position to the tag's file keep full agreement |
| Maintenance.MigrateEvent | src/event_store/maintenance.rs:127-152 | one event gets the merged tags, the count is their growth, agreement is kept |
| Maintenance.AddTags | src/event_store/maintenance.rs:106-158 | run alone: exactly the events a read of the type returns get their tags, counts are those events and the tags the log has gained in all, agreement is kept; with names that do not collide these are the events of the type; an empty type is refused and changes nothing |
| Maintenance.RetaggingUnnoticed | src/event_store/maintenance.rs:133-150 | retagging an event before the position of an append condition does not change what the condition finds |
| Maintenance.TagArrivesUnseen | src/event_store/maintenance.rs:133-150 | a decision that missed an event tagged afterwards, and whose condition stays silent |
| Maintenance.GrowsByOneUnlessTwo | src/event_store/maintenance.rs:133-142 | an offer grows a tag list by at most one exactly if it is not of two new keys |
| Maintenance.ProcessedCoversAdded | src/event_store/maintenance.rs:41 | at least as many events are processed as tags are added, on every log, if and only if the factory never offers an event of the type two new keys |
| Maintenance.MoreTagsThanEvents | src/event_store/maintenance.rs:41 | one event that gains two tags |
| Paging.PageSplits | src/event_store/mod.rs:231-233 | a page is the front of what is left, without a gap, and moves the cursor unless it is empty |
| Paging.PagesAreScan | src/event_store/mod.rs:236-310 | with appends between pages the pages so far are exactly the matches up to the cursor, and complete once a page is empty |
| Paging.ReadPages | src/event_store/mod.rs:236-310 | paging through the store while others append between pages ends whatever the names; with clean names it gives the full ascending read of the log it ends on |

## Left out

- JSON: file contents are typed values. The fallbacks for corrupt files, and the reading of bare states by `get`, are not modelled.
- `size_in_bytes`, executor details, `LedgerManager`, `EventFileManager`, `StorageInitializer`, options and validators, `CommandResult`, the event builder, `get_all`.
- The Node and WASM backend and its stale-lock recovery.
- `ProjectionRebuilder`, `ProjectionTagIndex`, `ProjectionMetadataIndex`: the projection store keeps its own indices.
- Related-events projections, which read the whole store while events are processed.
- `delete_store`, and several `add_tags` runs at once: neither takes the global lock and no order is promised.
- Positions beyond the largest `u64`: appends are modelled while the position after the batch is one; where it is not, `sequence += 1` overflows. `start_position` at that very value would overflow too and is a plain number here.
- Lower-casing beyond ASCII, and projection keys or projection tags that contain `/` or end in `.json`.
- Clocks are parameters; `ProcessEvents` and `Rebuild` use one time for all saves of a call.
- Directories as entries of their own (`create_dir_all`): a directory is a path prefix.
- The stores hold their files as typed maps; `Storage.Represents` says how a path map holds them, `PathStore` writes through it. Reads are not replayed on the path map, and the projection store's paths are tuples throughout.
- EventStore.MarmosaStore.Append: takes no lock and cannot crash; locks, crashes and failed writes are in `Protocol`, `IndexLocking` and `Locks`.
- Storage.InMemoryStorage.TryAcquire: one turn of the spinning loop that acquires a lock; that waiting ends is the matter of `Locks.DeadlockFree` and `ProtocolProgress.EveryRunEnds`.
- PathStore.AppendAll: an append without a condition, run alone; conditions are in `EventStore`, other processes in `Protocol`.
- In `Protocol` the check under the lock is one step, since only the lock holder writes; the event files a finished read opens are read in one step, since they never change; a query over several types or items is answered at one instant.
- ProtocolTheorems.Serializability: for runs without a half-indexed event; with one it can fail, as `TornRun.TornRunIsNotSerial` shows. A crashed or unfinished writer counts with the events it has written.
- ProtocolTheorems.NoConflictMissed: after a half-indexed event only for conditions without items, for the same reason.
- Execute.Attempt: one other batch is appended between read and append, with the same time; finer interleavings are in `Protocol`.
- Execute.ExecuteAsync: the same, attempt by attempt.
- UnionReads.AlwaysSnapshotIffLastSubsumes: the reads are file contents at non-decreasing log lengths, not steps of `Protocol`.
- MissingEntries.AllSerialAloneIffComplete: a decision alone is its read and its check on unchanging files, not a run of `Protocol`.
- LoneDecision.LoneDecisionCommits: one run, for decisions that ask for everything and append one event without tags; that every run ends, and what its outcomes mean, is the matter of `ProtocolProgress.EveryRunEnds` and `ProtocolOutcomes.OutcomesMean`.
- ProtocolOutcomes.RejectedOnSnapshot: for runs without a half-indexed event, like the other snapshot results.
- WholeBatches.BatchesSeenWhole: a batch written while the read is under way, or cut short by a crash, may be seen in part.
- VacuousItems.RightIffNonVacuous: for queries whose own names do not collide; for others no store meets its premise.
- Execute.BuildNaryAsync: says nothing about the states of a mixed list, which `DecisionModel.CompositeLoses` describes event by event.
- EventStore.MarmosaStore.ReadLast: with colliding names only that a stored event or none is returned; which, `Naming.ReadOfOneLooksAtOne` says.
- Paging.ReadPages: with colliding names only that it ends; a page can be empty too early (`Naming.LimitedReadLosesMatch`).
- Maintenance.AddTags: index and event writes do not fail, and nothing else runs meanwhile; one `add_tags` beside appends and decisions takes no global lock and is not in `Protocol`, where a tag arriving late goes unnoticed (`Maintenance.TagArrivesUnseen`).
- Batches.CountsExactlyIfAnchored: the converse is about the counting projection; another projection may happen to tolerate a replay.
