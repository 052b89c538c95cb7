# A verified model of the update service

The service keeps stacks and their updates in a database and large checkpoints in a blob store,
and serves many clients from several replicas at once. This project models it and proves, for every
input and every run, what its parts promise each other.

- **The update engine.** `UpdateModel` and `UpdatePlans` give the tables and what each request does
  to them; `Lifecycle` is what every accepted request keeps. `Transactions` runs requests
  concurrently as steps (take a lock, decide, put a blob, commit, abort, a delete that comes late, a
  cache eviction). `Atomicity`, `BlobSafety` and `Runs` show that every reachable state is the result
  of the commits one at a time, with every referred blob intact. `DeltaProtocol`, `BaseCache`,
  `JournalRuns` and `LeasesAndEvents` build on that. `Acceptance` is when a request is accepted,
  `LifecycleRuns` what moves an update through its statuses, `CheckpointHistory` which saves the
  checkpoints come from and which is the newest, `BlobHistory` which blobs are to be deleted.
  `UpdatesService` is the service object whose methods end as planned. In all these a put has landed,
  or never does, by the time its transaction ends. `StrayPuts` adds the puts of aborted
  transactions that land later, and `LostCheckpoint` is two runs in which one destroys a committed
  checkpoint.
- **Journal replay.** `JournalReplay`, `RefreshPass`, `JournalLoop`, `JournalStore`; `JournalOutput` and
  `JournalValues` tell the whole result from the entries alone.
- **Texts and bytes.** `TextEdits`, `JsonText`, `RawMember`, `BlobKeys`. Text positions are UTF-16
  code units in the scanner, Unicode scalar values in the engine.
- **The deployment comparator.** `StateValues`, `Comparator`, `ResourcePairing`, `DeploymentComparison`,
  `DocumentComparison`.
- **The notification hub.** `Subscribers`, `NotificationHub`.
- **Import resolution.** `ImportResolver`.
- **Stack deletion and blob cleanup.** `BlobCleanup`, `CleanupWorker`.

A transaction's reads are taken together, once it holds its locks, and the writes together at its
commit; `Atomicity.PlanStays` is why that loses nothing. Nondeterminism a request meets (fresh ids,
the rows a sweep's statements select, which of several equally recent checkpoints a query returns)
is drawn when it begins and checked when it decides. The text encoding, JSON serialization and the
hash are functions constrained by `UpdateModel.EncodingFacts` and `UpdateModel.HashFacts`: a decoder
undoes the encoder but for one leading byte order mark, JSON parsing undoes serialization and refuses
a leading mark, and encoding and hash are injective.

## Where the code differs from what one would expect

- The delta baseline is the client's text only if that has no leading byte order mark: the decoder
  drops one (`DeltaProtocol.ServerTextIsClientText`, `DeltaProtocol.MarkedTextIsRetainedBare`).
- `active` in the notification hub counts the open subscribers plus the subscriptions whose client
  could not be created, which keep their slot (`NotificationHub.Hub.Subscribe`).
- Overlapping waits of one subscriber abandon the earlier promise (`Subscribers.OverlapAbandons`).
- A manifest that is an empty object on one side and absent on the other never matches
  (`DeploymentComparison.LoneManifestDiffers`).
- With repeated URNs two lists may pair up and still not match. That is so exactly when two resources
  clash in sorted order (`ResourcePairing.MatchIsPairingWithoutClash`), which takes ties of normal form
  on both sides (`ResourcePairing.OneSidedTiesMatch`); `ResourcePairing.PairingCanBeMissed` is an input.
- No call stack suffices to resolve a document's secrets exactly when a plaintext is met again while
  resolving itself (`StateValues.ResolvingEndsExactly`); a secret that decrypts to an envelope of its own ciphertext is
  such a one (`StateValues.SelfHoldingSecretOverflows`).
- Blobs put by aborted writes, and those of superseded baselines whose delete failed, are cleaned up by
  nothing (`BlobCleanup.ForgottenExactly`).
- A full checkpoint's key is named by its version, which a retry takes again. So a put that outlives its
  aborted save can destroy the checkpoint of the retry, by landing after the retry's commit
  (`LostCheckpoint.LostAfterCommit`) or between the retry's put and its commit
  (`LostCheckpoint.LostByCommit`). `StrayPuts.LatePutsExactly` is exactly when a run loses a row.
- An update that has ended still has a baseline row exactly when a sweep ended it while it had one and no
  cancellation of it has been committed since (`RunTheorems.EndedKeepsBaseExactly`).
- A refresh entry with a state that removes both an old and a new resource puts one object at two places
  of the list; the replay follows the sharing (`JournalLoop.Replayer.CollectResources`).

## Model

| member | source | states |
|---|---|---|
| `Lifecycle.RequestsKeep` | packages/updates/src/postgres.ts:183-457 | every accepted request, of any kind, keeps the tables well formed: `active_update_id` names exactly the one update of its stack that has not ended, leases are held exactly while running, nothing is stored before the start, versions and events are as promised |
| `Lifecycle.EndedStaysEnded` | packages/updates/src/postgres.ts:347-457 | a terminal status is absorbing and an ended update gains no checkpoint, journal or outbox row under any later request; a late cancellation drops its baseline row, and nothing else changes it |
| `Lifecycle.NumbersAreKept` | packages/updates/src/postgres.ts:200-213 | kinds and versions are given once and kept; a new non-preview update takes the number after the last, a preview the last succeeded one |
| `Lifecycle.VersionsCountUpdates` | packages/updates/src/postgres.ts:200-213 | the non-preview versions of a stack are exactly 1..n for its n non-preview updates |
| `Lifecycle.NextNumberKeeps` | packages/updates/src/postgres.ts:813-817 | creating the next non-preview update keeps the numbers 1..n each taken once, so the unique index never fires |
| `Lifecycle.SaveAddsDocument` | packages/updates/src/postgres.ts:1088-1145 | an accepted save that is no replay adds exactly one full checkpoint, under the next version, holding the document given |
| `Lifecycle.ImportAddsDocument` | packages/updates/src/postgres.ts:800-842 | an accepted import adds one succeeded update with the document as its only checkpoint, on a stack at rest whose head is the expected one, and changes nothing else |
| `RunTheorems.EndedForever` | packages/updates/src/postgres.ts:347-457 | over a whole concurrent run an ended update keeps its status, checkpoints, journal and events until its stack is deleted |
| `RunTheorems.EndedKeepsBaseExactly` | packages/updates/src/gc-worker.ts:148-217 | over every run an ended update has a baseline row exactly when a committed sweep ended it while it had one and no cancellation of it has committed since |
| `LifecycleRuns.StepMoves` | packages/updates/src/postgres.ts:262-457 | over every run each change of an update's row is by a committed request and is that request's move: a start, a completion, a cancellation, a renewal or a sweep with its status, token, lease, times and announcement, or else nothing but checkpoints and journal; new updates are the ones created or imported |
| `LifecycleRuns.StacksMove` | packages/updates/src/postgres.ts:183-258 | over every run a committed creation adds exactly the update asked for and makes it the active one, an import one ended update, and a deletion takes the stack with all its updates and no other |
| `LifecycleRuns.CompletionIsRecorded` | packages/updates/src/postgres.ts:347-400 | a committed completion leaves the running update with exactly the status asked for, and announces that status once |
| `LifecycleRuns.EndedWithCause` | packages/updates/src/postgres.ts:369-457 | an update has a terminal status exactly when some committed step ended it with that status: a completion as asked for, a cancellation or a sweep as cancelled, an import as succeeded |
| `Acceptance.AcceptedExactly` | packages/updates/src/postgres.ts:183-842 | a request of any kind is accepted exactly when its conditions hold of the rows it finds: status, unexpired lease, token, number in sequence, fitting edits, a stack at rest, the head or the bare stack expected |
| `Acceptance.LeaseIsMissing` | packages/updates/src/postgres.ts:1212-1230 | a write is refused for its lease exactly when the update does not run under one that has not expired, unless its text does not parse or its batch is empty |
| `Acceptance.NumberIsRefused` | packages/updates/src/helpers.ts:420-455 | which refusal a number gets: stale when passed, conflicting when taken by another text, out of order when too far ahead, and a replay when it repeats |
| `Lifecycle.EndingRequest` | packages/updates/src/postgres.ts:385-457 | a request that ends an update leaves it a baseline exactly when it is a sweep and the update had one |
| `Transactions.StepKeepsLocks` | packages/updates/src/postgres.ts:1147-1245 | row and advisory locks stay exclusive and are taken in the order stack rows ascending, update rows, cleanup lock |
| `Transactions.NoDeadlock` | packages/updates/src/gc-worker.ts:129-186 | no cycle of waiting transactions exists in any state with that order, stack deletion and the sweep included |
| `RunTheorems.RunsNeverDeadlock` | packages/stacks/src/index.ts:573-629 | no reachable state of any run of lifecycle, checkpoint, import, deletion and sweep transactions holds a cycle of waits |
| `Atomicity.PlanStays` | packages/updates/src/postgres.ts:525-542 | what a transaction decided under its locks is what it would decide at its commit, whatever others commit in between |
| `Atomicity.ChangesStayInFootprint` | packages/updates/src/postgres.ts:1147-1230 | a transaction writes only rows it has locked or created |
| `RunTheorems.CommitsAreSerial` | packages/updates/src/postgres.ts:525-542 | in every state of every run the tables are the result of the commits so far run one at a time, each accepted |
| `Runs.StepKeeps` | packages/updates/src/postgres.ts:525-542 | every step of every transaction keeps the global invariant: tables, locks, prepared decisions, blobs, doomed keys and the serial history |
| `Runs.RunsAreSafe` | packages/updates/src/postgres.ts:183-457 | the global invariant holds in every state of every run, so the lifecycle invariant does too |
| `BlobSafety.RequestKeys` | packages/updates/src/postgres.ts:994-1039 | puts go to keys no row has, every row of a new version is an old one or has its bytes among the puts, and superseded keys belong to baselines that are past |
| `RunTheorems.RowsReadBack` | packages/updates/src/postgres.ts:870-888 | in every state of every run without late landings a committed checkpoint or baseline reads back exactly what it was saved from, from its row or from its blob |
| `RunTheorems.PutsHitNoReferredKey` | packages/updates/src/postgres.ts:1112-1130 | no put of a live transaction writes a key a committed row refers to, whatever earlier tries have put and aborted |
| `RunTheorems.DeletesHitNoReferredKey` | packages/updates/src/postgres.ts:1032-1039 | a key left to be deleted is referred to by no committed row then or ever after, however late the delete comes |
| `BlobSafety.PlanIsIdeal` | packages/updates/src/postgres.ts:927-970 | deciding from what the blob store returns is deciding from what the rows were given |
| `BlobKeys.KeysAreDistinct` | packages/updates/src/helpers.ts:44-60 | the key strings of different checkpoints and baselines never coincide |
| `BlobHistory.DoomedExactly` | packages/updates/src/postgres.ts:1029-1039 | in every state of every run a key is left to be deleted exactly when a committed row has referred to it and none does now, so nothing superseded or deleted with its stack is forgotten |
| `BlobHistory.LargeOnesAreBlobs` | packages/updates/src/postgres.ts:994-1130 | in every state of every run exactly the checkpoints and baselines above the threshold are in the blob store, under the key of their version or number |
| `CheckpointHistory.SavesAdd` | packages/updates/src/postgres.ts:507-617 | every committed save, import or journal batch that does not elide the write adds a checkpoint of its document, but for a repetition of the number retained |
| `CheckpointHistory.FullIsAdded` | packages/updates/src/postgres.ts:1088-1145 | every full checkpoint there is was added by a committed save, with its document and time |
| `CheckpointHistory.AddedStays` | packages/updates/src/postgres.ts:1088-1145 | a checkpoint once added stays as it was added until its stack is deleted |
| `DeltaProtocol.ServerTextIsClientText` | packages/updates/src/postgres.ts:518-591 | delta protocol agreement, exactly: over every run the baseline read back for number n is the client's text n without a leading byte order mark, so it is the client's text if and only if that has none |
| `DeltaProtocol.SavesAdvanceByOne` | packages/updates/src/helpers.ts:420-455 | accepted numbers increase by exactly one after the first, and an equal number changes nothing |
| `DeltaProtocol.VerbatimIsAccepted` | packages/updates/src/postgres.ts:518-545 | a verbatim save is accepted exactly when it parses, the lease has not expired and its number is in sequence |
| `DeltaProtocol.DeltaIsAccepted` | packages/updates/src/postgres.ts:551-591 | a delta is accepted exactly when the lease has not expired, a baseline exists, the number is in sequence and a new number's edits give a parsable text of the hash sent |
| `DeltaProtocol.RetriesAreReplays` | packages/updates/src/helpers.ts:420-455 | repeating the stored number is a no-op replay: for a verbatim save always, for a delta exactly when the text has no leading byte order mark |
| `DeltaProtocol.EditedIsClientText` | packages/updates/src/helpers.ts:207-220 | edits whose result has the client's hash give the client's text, less a leading mark |
| `DeltaProtocol.MarkedTextIsRetainedBare` | packages/updates/src/helpers.ts:207-220 | a concrete request on which agreement fails: a delta producing a marked text is accepted and the mark is lost |
| `BaseCache.FlushStartsFromCurrentBase` | packages/updates/src/postgres.ts:1051-1076 | base cache coherence: on any replica, cached or not, a flush starts from what loading would give now |
| `CheckpointHistory.LatestIsNewest` | packages/updates/src/postgres.ts:1262-1279 | over every run what the query for the latest checkpoint may answer is exactly the one whose save was decided last among those left |
| `CheckpointHistory.FlushBaseIsNewest` | packages/updates/src/postgres.ts:1051-1076 | the base a flush is prepared with is the document some save, flush or import added to another update of the stack, none of those left having been added later; it is the empty deployment when none is left |
| `CheckpointHistory.ImportHeadIsNewest` | packages/updates/src/postgres.ts:809-816 | a committed import that expects a head expects the checkpoint added last on the stack |
| `CheckpointHistory.DeletionFindsNothing` | packages/stacks/src/index.ts:586-604 | a stack is deleted without force only at rest and when nothing is left on it or a checkpoint added last is small and lists no resources |
| `BaseCache.OthersAreSettled` | packages/updates/src/postgres.ts:1262-1298 | while an update is live no request changes the checkpoints of its stack's other updates |
| `JournalRuns.FlushIsReplay` | packages/updates/src/postgres.ts:593-617 | in every run the checkpoint a flush adds is the replay in sequence order of the client's entries for all numbers stored so far, on the base loading would give now |
| `JournalRuns.StoredIsPosted` | packages/updates/src/postgres.ts:593-617 | over every run the numbers stored for an update are exactly those of the batches committed for it, elided ones included |
| `JournalStore.FlushRefinesReplay` | packages/updates/src/postgres.ts:593-617 | two runs of batches that sent the same numbers, in any batching, repetition and order, flush the same checkpoint |
| `JournalStore.StoredIsSent` | packages/updates/src/postgres.ts:609-613 | what is stored is exactly the client's entries for the numbers sent |
| `JournalStore.ResendIsIdle` | packages/updates/src/postgres.ts:613 | sending a batch again stores nothing |
| `JournalStore.AscendingSorts` | packages/updates/src/postgres.ts:1059-1063 | the stored entries are replayed in strictly increasing sequence order |
| `JournalReplay.JournalCut` | packages/updates/src/postgres.ts:1569-1587 | replaying past a base-state rebuild is replaying from its result, only the refresh flag carried across |
| `JournalValues.ListedValues` | packages/updates/src/postgres.ts:1502-1644 | the whole list, from the entries since the last rebuild alone: each new resource kept has the last state given to it and exactly the marks made on it since; each base resource kept has the last state given to it, or what it was, and exactly the marks that name it |
| `JournalValues.NewValuesAre` | packages/updates/src/postgres.ts:1480-1567 | in every replay a new resource holds the last state that its success, a refresh or an outputs entry gave it, and the marks made since |
| `JournalValues.ReplacedAre` | packages/updates/src/postgres.ts:1544-1567 | in every replay a base index is replaced by the state of the last entry that gives it one, and marked exactly when a success says so |
| `JournalReplay.OneMoreRebuild` | packages/updates/src/postgres.ts:1615-1656 | one more rebuild leaves the resources as they are and keeps only the creating pending operations |
| `JournalReplay.RefreshFlag` | packages/updates/src/postgres.ts:1478-1603 | a refresh once seen is never forgotten, across rebuilds too |
| `JournalReplay.RefreshClosure` | packages/updates/src/postgres.ts:1658-1696 | after a refresh every reference names a strictly earlier listed resource, no property lists nothing, and every parent is absent or listed |
| `JournalReplay.StepKeeps` | packages/updates/src/postgres.ts:1480-1592 | the replay's pieces of state stay consistent, so that one object never stands for two values |
| `JournalReplay.RunSharesValues` | packages/updates/src/postgres.ts:1480-1642 | in every replay the places of the list that hold one object hold one value, so pruning in place is well defined |
| `RefreshPass.PassCloses` | packages/updates/src/postgres.ts:1658-1696 | the pruning pass reaches that closure on every list, shared objects included |
| `RefreshPass.PassKeepsClosed` | packages/updates/src/postgres.ts:1658-1696 | a closed list is left as it is, objects that stand at several places included |
| `RefreshPass.PassIsIdempotent` | packages/updates/src/postgres.ts:1658-1696 | a second pass changes nothing, on every list and whatever objects it shares |
| `RefreshPass.PassOnlyDrops` | packages/updates/src/postgres.ts:1658-1696 | the pass only takes away: lists are shortened in order, properties and single references dropped, and nothing else of any resource changes |
| `RefreshPass.PassKeepsExactly` | packages/updates/src/postgres.ts:1658-1696 | and it drops nothing else: references to what is listed before the object stay, each as often as it was there, a property stays exactly when one of its references does, and so do listed parents |
| `RefreshPass.DanglingParentIsDropped` | packages/updates/src/postgres.ts:1689-1695 | the fallback lookup of a dangling parent never finds anything |
| `RefreshPass.RebuildDependencies` | packages/updates/src/postgres.ts:1658-1696 | the two loops rewrite the resource objects in place to exactly the pass's result |
| `RefreshPass.ResourceObject.PruneReferences` | packages/updates/src/postgres.ts:1661-1687 | one resource's references are pruned in place to those already listed |
| `JournalLoop.ApplyJournalEntries` | packages/updates/src/postgres.ts:1465-1603 | the replay on objects computes the replay function of what they held; the base is as it was before, of the objects given only the rows' own states may be pruned, and only such states and fresh copies are listed |
| `JournalLoop.ReplayStored` | packages/updates/src/postgres.ts:1059-1073 | reading the stored rows and replaying them modifies no object that existed before, so a cached base stays what it was |
| `JournalLoop.Replayer.RebuildFromJournal` | packages/updates/src/postgres.ts:1615-1656 | the rebuilt deployment, pruning none but copies made here and states held |
| `JournalLoop.Replayer.CollectResources` | packages/updates/src/postgres.ts:1619-1642 | base resources are copied, new and replacing states listed uncopied, and places share an object exactly where the source shares one |
| `JournalLoop.Replayer.ApplySuccess` | packages/updates/src/postgres.ts:1513-1537 | a success entry updates the pieces of state in the source's order; a mark makes a copy, a state is held as it is |
| `JournalLoop.Replayer.ApplyRefreshSuccess` | packages/updates/src/postgres.ts:1544-1558 | a refresh entry replaces or deletes the base index and changes the new resource, both places sharing the state's object |
| `JournalLoop.Replayer.UpdateNewResource` | packages/updates/src/postgres.ts:1480-1489 | changes the slot the operation's resource went to, unless it has been emptied |
| `JournalOutput.SlotsAre` | packages/updates/src/postgres.ts:1480-1567 | every new resource stands in success order and is removed exactly when an entry says so |
| `JournalOutput.RemovedForGood` | packages/updates/src/postgres.ts:1480-1489 | a removed new resource never reappears |
| `JournalOutput.DeletedAre` | packages/updates/src/postgres.ts:1513-1558 | the base indices deleted are exactly those some success or refresh names |
| `JournalOutput.ResultLists` | packages/updates/src/postgres.ts:1623-1644 | the result lists the new resources kept, in success order, then the base indices kept, in base order, each once; as they stand without a refresh, and after one with nothing changed but references left out |
| `JournalOutput.IncompleteExactly` | packages/updates/src/postgres.ts:1508-1558 | an operation is in progress exactly when its last begin, success, failure or refresh since the rebuild is that begin, and no key is so twice |
| `JournalOutput.PendingExactly` | packages/updates/src/postgres.ts:1646-1655 | the result's pending operations are those in progress and, behind them, the creating operations of the deployment worked on, in order |
| `JournalOutput.PendingInOrder` | packages/updates/src/postgres.ts:1502-1512 | the journal's pending operations stand in the order in which they have been in progress |
| `JournalOutput.ResultHeader` | packages/updates/src/postgres.ts:1496-1506 | the secrets provider and every other member of the result are those the journal gives last, or the base's |
| `JournalOutput.WorkingBaseIs` | packages/updates/src/postgres.ts:1496-1500 | the base list replayed on is the last snapshot written, else the caller's |
| `LeasesAndEvents.RenewalOrExpiry` | packages/updates/src/gc-worker.ts:148-168 | on one state renewal and cancellation for expiry are never both enabled |
| `LeasesAndEvents.LeaseWithinDefault` | packages/updates/src/postgres.ts:684-728 | in every state of every run a lease belongs to a running update with a token and reaches no further than the default time from now, whatever durations were asked for |
| `LeasesAndEvents.LeaseIsLastGranted` | packages/updates/src/postgres.ts:262-311 | in every state of every run the lease of a running update is the one granted last, by its start for the default time or by the last committed renewal |
| `LeasesAndEvents.SavesAreLeased` | packages/updates/src/postgres.ts:1212-1230 | over every run whatever save or journal batch is committed was decided no later than the lease granted last to its update |
| `LeasesAndEvents.SweepCancelsExactly` | packages/updates/src/gc-worker.ts:108-217 | over every run a sweep cancels a running update it reaches exactly when the lease of its last renewal ran out more than the grace time before the sweep's clock reading; a renewal for a positive time read within the grace time of the sweep always saves it |
| `LeasesAndEvents.CycleLeavesNone` | packages/updates/src/gc-worker.ts:111-217 | a cycle that selects everything leaves nothing expired or stale and changes nothing else |
| `LeasesAndEvents.OneStartOneEnd` | packages/updates/src/postgres.ts:1168-1188 | in every state of every run an update has announced at most one start and one end, in that order, exactly one end once started and ended, with the status it ended with |
| `UpdatesService.Service.UpsertCheckpoint` | packages/updates/src/postgres.ts:1088-1145 | inserts the checkpoint under the next version, through the blob store above the threshold |
| `UpdatesService.Service.WriteDeltaBase` | packages/updates/src/postgres.ts:994-1027 | replaces the baseline row, through the blob store above the threshold |
| `UpdatesService.Service.DeleteDeltaBase` | packages/updates/src/postgres.ts:972-985 | removes the baseline row and hands back its key |
| `UpdatesService.Service.CreateUpdate` | packages/updates/src/postgres.ts:183-258 | ends as planned, with every rejection |
| `UpdatesService.Service.StartUpdate` | packages/updates/src/postgres.ts:262-311 | ends as planned, with every rejection |
| `UpdatesService.Service.CompleteUpdate` | packages/updates/src/postgres.ts:347-407 | ends as planned, clears the cache entry and deletes the superseded blob |
| `UpdatesService.Service.CancelUpdate` | packages/updates/src/postgres.ts:409-457 | ends as planned, tells whether it cancelled, clears the cache entry and deletes the superseded blob |
| `UpdatesService.Service.RenewLease` | packages/updates/src/postgres.ts:684-728 | ends as planned, with every rejection |
| `UpdatesService.Service.ImportStack` | packages/updates/src/postgres.ts:800-842 | ends as planned, with every rejection, when the head query answers a latest row |
| `UpdatesService.Service.PatchCheckpoint` | packages/updates/src/postgres.ts:507-512 | ends as planned, with every rejection |
| `UpdatesService.Service.PatchCheckpointVerbatim` | packages/updates/src/postgres.ts:518-545 | ends as planned, with every rejection and the replay |
| `UpdatesService.Service.PatchCheckpointDelta` | packages/updates/src/postgres.ts:551-591 | ends as planned, with every rejection and the replay |
| `UpdatesService.Service.InsertJournalRows` | packages/updates/src/postgres.ts:609-613 | the insertion loop keeps the row of a number already taken |
| `UpdatesService.Service.FlushJournal` | packages/updates/src/postgres.ts:1051-1076 | empties a cache grown past its limit, loads and caches the base unless cached, and saves the replay of what is stored; a base that cannot be read saves nothing |
| `UpdatesService.Service.SaveReplay` | packages/updates/src/postgres.ts:1059-1074 | the replay leaves every cached document as it was |
| `UpdatesService.Service.AppendJournalEntries` | packages/updates/src/postgres.ts:593-617 | ends as planned from the cached base or from what the load query's row gives, which is then cached; a base that cannot be read rolls the batch back |
| `UpdatesService.Service.RunCycle` | packages/updates/src/gc-worker.ts:80-217 | a cycle does nothing while another runs or without the advisory lock, and else cancels, announces and frees exactly what the sweep's change says |
| `StrayPuts.LatePutsExactly` | packages/updates/src/postgres.ts:1112-1130 | over every run in which puts of aborted transactions may land at any later time, any number of times: every committed row stays readable in every state exactly when no landing hits a row kept under its key with other bytes, and no transaction commits a put of its own that a landing has overwritten with other bytes and that it has not put again |
| `StrayPuts.LateRowsReadBack` | packages/updates/src/postgres.ts:870-888 | then every checkpoint and baseline reads back exactly what it was saved from, in every state |
| `StrayPuts.PutIsStored` | packages/updates/src/postgres.ts:1112-1116 | what a live transaction has put is what the store holds exactly when no landing has overwritten it since its last put |
| `StrayPuts.CheckpointLandsExactly` | packages/updates/src/postgres.ts:1112-1130 | a full checkpoint's put hits a row with other bytes exactly when the row kept under its version holds another document |
| `StrayPuts.OnlyCheckpointsHarm` | packages/updates/src/postgres.ts:987-1007 | with the client's saves only landings of full checkpoints can do harm: baselines' puts may land at any time of the run, since a sequence-numbered key stands for one text of the client |
| `LostCheckpoint.LostAfterCommit` | packages/updates/src/postgres.ts:1088-1130 | a concrete run for any two large documents: the put of an aborted save lands after the next save has committed under the same version, and the committed checkpoint reads back as the aborted document |
| `LostCheckpoint.LostByCommit` | packages/updates/src/postgres.ts:1088-1130 | a concrete run in which the put lands between the next save's own put and its commit, when no row is kept under the key, and the commit loses the checkpoint |
| `TextEdits.ApplyTextEdits` | packages/updates/src/helpers.ts:145-197 | the buffer-filling loop answers the error or the spliced bytes of the right-to-left specification |
| `TextEdits.AcceptsExactlyDisjointSpans` | packages/updates/src/helpers.ts:145-197 | exactly the edit lists with in-bounds, non-overlapping spans are accepted |
| `TextEdits.LengthLaw` | packages/updates/src/helpers.ts:145-197 | the result's length is that of the text less the spans plus the new texts |
| `TextEdits.RefusalIsTrue` | packages/updates/src/helpers.ts:152-168 | an answer of out of bounds or overlap is true of the edits |
| `TextEdits.OrderOnlyMattersForInsertions` | packages/updates/src/helpers.ts:145-197 | a permutation that keeps the order of insertions at one point gives the same result |
| `TextEdits.SortIsStable` | packages/updates/src/helpers.ts:150-152 | sorting keeps the order of edits with equal spans |
| `TextEdits.FrontAndRest` | packages/updates/src/helpers.ts:163-188 | the left-to-right pieces are what splicing from right to left leaves |
| `RawMember.ExtractsLastMember` | packages/updates/src/helpers.ts:539-572 | on every well-formed object text the scanner returns the source slice of the last member whose decoded name is the key, or nothing when there is none |
| `RawMember.ExtractionAgreesWithGrammar` | packages/updates/src/helpers.ts:539-572 | the same against the grammar trees of RFC 8259, with any white space before and text behind |
| `RawMember.ExtractRawJsonMember` | packages/updates/src/helpers.ts:539-572 | the member loop computes the scan, on every text, well formed or not |
| `RawMember.ScanJsonString` | packages/updates/src/helpers.ts:472-484 | the string loop ends at the closing quote, or fails |
| `RawMember.ScanJsonValue` | packages/updates/src/helpers.ts:487-529 | the value loop ends behind the value, or fails |
| `RawMember.ReachesClose` | packages/updates/src/helpers.ts:492-509 | counting brackets outside strings reaches exactly the bracket that closes the value |
| `RawMember.DecodesWhatIsWritten` | packages/updates/src/helpers.ts:560-563 | a member name decodes to the characters its escapes stand for |
| `DocumentComparison.MatchIsExact` | packages/migrate/src/compare.ts:526-605 | comparator exactness on any two JSON documents, secret envelopes and non-objects included: with distinct URNs per side they match exactly when the versions can be compared, resolving ends on both sides, and they say the same field by field and resource by resource, every secret by what it decrypts to |
| `DocumentComparison.CompareDeploymentState` | packages/migrate/src/compare.ts:503-605 | the whole comparison of two documents: it fails exactly when resolving overflows, and else gives the match, the unverifiable flag and the versions that cannot be compared |
| `DocumentComparison.ComparisonEndsExactly` | packages/migrate/src/compare.ts:164-218 | given stack enough, resolving both sides ends exactly when neither document holds a cycle of envelopes |
| `DocumentComparison.ReencryptedMatches` | packages/migrate/src/compare.ts:526-605 | a document whose secrets can all be had matches itself encrypted anew |
| `DeploymentComparison.AgreementIsExact` | packages/migrate/src/compare.ts:545-605 | on resolved values with distinct URNs agreement is agreement field by field and resource by resource |
| `DeploymentComparison.FieldsAgreeExactly` | packages/migrate/src/compare.ts:563-589 | the deployments' own fields agree exactly when all but the four coded ones agree, the manifests agree but for their time, and the integrity errors are the same |
| `DeploymentComparison.LoneManifestDiffers` | packages/migrate/src/compare.ts:571-576 | an object manifest on one side only is always a mismatch, an empty one included |
| `DeploymentComparison.CompareResolved` | packages/migrate/src/compare.ts:545-605 | the comparison of resolved values; it is in doubt exactly when some place of both holds a secret that could not be verified, and tells of a field exactly when one differs |
| `Comparator.DiffValues` | packages/migrate/src/compare.ts:272-387 | the walk reports nothing exactly when the values are equal and verified, zero members being waived at the first level only; a differing field exactly when there is one, and an unverified secret exactly when one is met |
| `Comparator.DiffersExactly` | packages/migrate/src/compare.ts:272-387 | a field is reported as different exactly when the values are different whatever the unverified secrets hold |
| `Comparator.VerdictIsSame` | packages/migrate/src/compare.ts:272-387 | no difference and no doubt is equality with every secret verified |
| `Comparator.DiffMembers` | packages/migrate/src/compare.ts:338-362 | the member loop of that walk |
| `Comparator.DiffArrays` | packages/migrate/src/compare.ts:307-324 | the element loop of that walk |
| `ResourcePairing.CompareResources` | packages/migrate/src/compare.ts:436-496 | the resource loops report a difference exactly when some URN's groups disagree, sorted by the two-part pairing key |
| `ResourcePairing.AgreeingAreAlike` | packages/migrate/src/compare.ts:415-423 | resources that agree have one normal form, so zero members never decide the first part of the key |
| `ResourcePairing.MatchIsPairingWithoutClash` | packages/migrate/src/compare.ts:475-494 | repeated URNs included, two lists match exactly when they pair up and no place of the sorted groups holds two resources that spell a zero member differently or are a secret and an object |
| `ResourcePairing.OneSidedTiesMatch` | packages/migrate/src/compare.ts:475-494 | where of the resources of one URN and normal form one side holds only copies of one, as with distinct normal forms, two lists match exactly when they pair up |
| `ResourcePairing.GroupByUrn` | packages/migrate/src/compare.ts:425-434 | groups hold the resources of each URN in list order |
| `ResourcePairing.DistinctIsExact` | packages/migrate/src/compare.ts:436-496 | with distinct URNs the resource comparison is exact |
| `ResourcePairing.MatchGivesPairing` | packages/migrate/src/compare.ts:436-496 | with repeated URNs a match gives a URN-preserving pairing of agreeing resources |
| `ResourcePairing.PermutationMatches` | packages/migrate/src/compare.ts:484-494 | any permutation of a fully decrypted list matches it under any total order |
| `ResourcePairing.PairingOrderIsTotal` | packages/migrate/src/compare.ts:475-489 | the two-part key orders resources totally when signatures do |
| `ResourcePairing.PairingCanBeMissed` | packages/migrate/src/compare.ts:475-494 | two concrete lists with ties on both sides that pair up but do not match |
| `StateValues.EnvelopeHolds` | packages/migrate/src/compare.ts:164-200 | an envelope resolves to its own plaintext, else to what its ciphertext decrypts to, else to the unverifiable mark |
| `StateValues.ReencryptionIsInvisible` | packages/migrate/src/compare.ts:164-200 | documents that differ only in how their secrets are encrypted resolve to the same value |
| `StateValues.CleanExactlyWhenDecrypted` | packages/migrate/src/compare.ts:164-200 | a resolved value holds no unverifiable mark exactly when every secret met could be had |
| `StateValues.ResolveAlikeExactly` | packages/migrate/src/compare.ts:164-200 | two documents resolve to one verified value exactly when every secret could be had and they differ in nothing but how their secrets are encrypted |
| `StateValues.ResolvingEndsExactly` | packages/migrate/src/compare.ts:164-200 | resolving ends, given stack enough, exactly when no plaintext is met again while resolving itself |
| `StateValues.DeeperIsSame` | packages/migrate/src/compare.ts:164-200 | more call stack never changes an answer |
| `Subscribers.WakeupIsNotLost` | packages/api/src/notifications.ts:136-168 | a notification to a live subscriber wakes its current wait, or else its next one, ahead of any later failure |
| `Subscribers.FailureIsTold` | packages/api/src/notifications.ts:143-168 | a failure rejects the wait there is, and is never forgotten: until an end each later wait is answered at once, woken when a notification is buffered and else rejected with the first problem, whatever comes in between |
| `Subscribers.EndIsFinal` | packages/api/src/notifications.ts:150-183 | an end or a close ends the wait there is, and at once every later one, whatever comes in between |
| `Subscribers.OverlapAbandons` | packages/api/src/notifications.ts:156-168 | a wait that overlaps a pending one leaves the earlier promise unsettled for ever |
| `Subscribers.OneWaitKept` | packages/api/src/notifications.ts:136-183 | with waits one at a time the waiter is the only unsettled promise |
| `Subscribers.SettledStays` | packages/api/src/notifications.ts:136-183 | a settled promise keeps its answer |
| `Subscribers.Subscriber.OnNotify` | packages/api/src/notifications.ts:136-140 | wakes the waiter or buffers |
| `Subscribers.Subscriber.OnFail` | packages/api/src/notifications.ts:143-147 | keeps the first failure and rejects the waiter |
| `Subscribers.Subscriber.OnEnd` | packages/api/src/notifications.ts:150-154 | ends and releases the waiter |
| `Subscribers.Subscriber.DoWait` | packages/api/src/notifications.ts:156-168 | abort before buffered work before failure |
| `Subscribers.Subscriber.DoClose` | packages/api/src/notifications.ts:170-177 | closes once and tells whether to release |
| `NotificationHub.Hub.Subscribe` | packages/api/src/notifications.ts:230-274 | takes a slot exactly when allowed, keeps at most one live listener per channel and the slots within the limit; a client that cannot be created loses its slot |
| `NotificationHub.Hub.EnsureChannel` | packages/api/src/notifications.ts:291-319 | one live listener per channel |
| `NotificationHub.Hub.Attach` | packages/api/src/notifications.ts:321-326 | the subscriber joins its key set and the count grows by one |
| `NotificationHub.Hub.CloseSubscriber` | packages/api/src/notifications.ts:170-177 | the slot is released once and the clamps at zero never bind |
| `NotificationHub.Hub.Release` | packages/api/src/notifications.ts:344-367 | the last subscriber retires the listener and ends its client once |
| `NotificationHub.Hub.Dispatch` | packages/api/src/notifications.ts:328-332 | a notification reaches exactly the open subscribers of its key, and the live ones are woken now or at their next wait |
| `NotificationHub.Hub.FailChannel` | packages/api/src/notifications.ts:334-342 | a failed listener is retired once and tells its open subscribers: waits are rejected now, and later ones with the first problem |
| `NotificationHub.Hub.CloseHub` | packages/api/src/notifications.ts:276-289 | shutdown retires every live listener, each client ended exactly once, and ends exactly the open subscribers of those listeners |
| `NotificationHub.Hub.AbortSubscriber` | packages/api/src/notifications.ts:125-154 | an aborted request ends its own subscriber, whether it waits or not, and no other |
| `NotificationHub.Hub.Await` | packages/api/src/notifications.ts:156-168 | a wait changes its subscriber only |
| `NotificationHub.RefCountIsSum` | packages/api/src/notifications.ts:321-367 | a live listener's reference count is the sum of its key-set sizes |
| `NotificationHub.ReleaseKeepsState` | packages/api/src/notifications.ts:344-367 | a release keeps the key sets, the count and the single ending exact |
| `ImportResolver.ResolutionIsExact` | packages/esc/src/service.ts:1389-1451 | on every graph resolution succeeds exactly when every reachable import exists and every chain has at most 50 edges, and then lists exactly the environments reached with their bodies |
| `ImportResolver.NoRepeats` | packages/esc/src/service.ts:1421-1426 | where chains are bounded no chain meets a name again, so the visited set never decides alone |
| `ImportResolver.ResolveImports` | packages/esc/src/service.ts:1389-1451 | the recursion with its copied visited set and filled result computes the specification, and terminates on every graph |
| `ImportResolver.FqnIsInjective` | packages/esc/src/service.ts:1421 | full names tell environments apart |
| `BlobCleanup.QueuedWithLastStack` | packages/stacks/src/index.ts:631-651 | a deletion queues exactly the keys whose last referring stack it deletes |
| `BlobCleanup.NothingDangles` | packages/stacks/src/index.ts:609-658 | over every run the blob of a committed checkpoint is stored and its key is not queued |
| `BlobCleanup.ForgottenExactly` | packages/updates/src/postgres.ts:1005-1039 | over every run a stored blob is neither referred to nor queued exactly when a write that is open or aborted put it and no later one committed its key, or it is a superseded baseline's whose delete is outstanding or has failed |
| `BlobCleanup.AbandonedStays` | packages/updates/src/postgres.ts:1112-1116 | the blob of an aborted write stays, referred to and queued by nothing, until a later write commits its key |
| `BlobCleanup.StrandedStays` | packages/updates/src/postgres.ts:1029-1039 | a superseded baseline's blob whose delete failed stays for ever |
| `BlobCleanup.LeavesByHolder` | packages/updates/src/blob-cleanup-worker.ts:128-134 | a key leaves the queue only when the worker still holding its claim acknowledges having deleted the blob |
| `BlobCleanup.DeletesOnlyOrphans` | packages/updates/src/blob-cleanup-worker.ts:80-87 | whatever is deleted from the store, by a worker or behind a save, no committed checkpoint refers to it |
| `BlobCleanup.StepKeeps` | packages/stacks/src/index.ts:618-647 | deletions, writes that put, replace, commit or abort, late deletes and workers, in any interleaving, keep the invariant; the fixed lock serializes the decisions |
| `BlobCleanup.ClaimIsExclusive` | packages/updates/src/blob-cleanup-worker.ts:95-126 | over every run a claimed key is claimed again only more than five minutes later, unless its worker has given it back |
| `BlobCleanup.RetryWaits` | packages/updates/src/blob-cleanup-worker.ts:136-152 | a key given back after its n-th claim is claimed again no sooner than the n-th retry delay from then |
| `BlobCleanup.AttemptsAreClaims` | packages/updates/src/blob-cleanup-worker.ts:95-126 | a queued row counts the claims of its key, over every run |
| `BlobCleanup.RowStays` | packages/stacks/src/index.ts:618-647 | a key that has left the queue never comes back, and until it leaves only claims and retries change its row |
| `BlobCleanup.RetryDelayIsBounded` | packages/updates/src/blob-cleanup-worker.ts:137-140 | every retry delay lies in 1..1024 seconds, doubling from one |
| `CleanupWorker.Worker.RunCycle` | packages/updates/src/blob-cleanup-worker.ts:73-93 | one cycle removes rows with their blobs, puts failed ones off, leaves the rest and stops early only with nothing to claim |
| `CleanupWorker.Worker.ClaimNext` | packages/updates/src/blob-cleanup-worker.ts:95-126 | claims one claimable row, or tells there is none |
| `CleanupWorker.Worker.Acknowledge` | packages/updates/src/blob-cleanup-worker.ts:128-134 | removes the row only for its claim holder |
| `CleanupWorker.Worker.PutOff` | packages/updates/src/blob-cleanup-worker.ts:136-152 | reschedules the row only for its claim holder |

## Left out

- Postgres, Drizzle, S3, HTTP, tRPC and telemetry: rows are maps, locks are ownership, blob storage is a map with atomic put and delete, and one clock never runs back.
- UTF-8, JSON serialization, SHA-256, lease token randomness and YAML parsing: functions with the stated facts, or parameters. Lone surrogates are not texts of the engine.
- Ties in `created_at`: the unique id that breaks them is not modelled, so the head and base queries may return any of several equally recent rows.
- The gauge of active updates, `pg_notify` calls, update metadata and the fields of webhook payloads.
- Engine event batches, history, export and repair: readers and inserts outside the locks, or lookups on what is proved of the rows.
- `applyDelta` has no caller here and is not RFC 7396 in general.
- Checks that run before a transaction, of envelope, hash and sequence number formats and of the number of journal entries in a batch; only whether a deployment text parses is kept.
- Resource fields the replay only carries along are one opaque member, and so are deployment members it does not read.
- Paths, redaction and wording of comparator mismatches; numbers are integers, objects are maps, and negative zero and prototype keys do not occur.
- The collection of ciphertexts and the batch decrypter: what was decrypted is a parameter.
- The comparator's signature strings: signatures are taken as a total order of values, as injective ones give, and the pairing key as the pair compared part by part; a collation in which a later part of the string outweighs an earlier one is not modelled.
- That a text written out in JSON text is shorter than it, which `StateValues.Shrinks` states, is a fact of JSON.
- Which of several failing imports rejects first: a failed resolution is one outcome.
- The order in which cleanup rows are claimed, the work deadline and the stored error text; the queue of a cycle is touched by no other worker in `CleanupWorker`, while `BlobCleanup` interleaves them all.
- Creation, renaming and tagging of stacks beyond an empty stack row; a deletion's webhook.
- `BlobCleanup` names its writers' keys by what the engine proves of them: a key put is referred to by nothing and never was retired (`RunTheorems.PutsHitNoReferredKey`, `BlobSafety.RequestKeys`), and a replaced key is the stack's own.
