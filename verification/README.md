# FluxBar offline core: a verified model

FluxBar keeps a local copy of a Miniflux inbox. A user edits that copy at once;
each edit also goes into an outbox. A gated worker delivers the outbox row by row
and acknowledges every row, and a refresh overwrites the remote baselines while
edits keep arriving. Counts are not recounted: they are stored remote counters
patched by what the outbox still owes. This project models the Rust core of that
protocol and proves what it promises, for every input and every run.

`dafny verify dfyconfig.toml` checks the project.

| file | contents |
|---|---|
| `Domain.dfy`, `Collections.dfy` | rows, requests, selections; facts about finite sets and sums |
| `StoreSpec.dfy` | every store transaction as a function on table values |
| `Store.dfy` | the store as a class with the loops of its transactions, proved against those functions |
| `EditLaws.dfy` | what each edit and each acknowledgement writes in every table, and how shown counts move |
| `RefreshLaws.dfy` | what a refresh of each kind of selection writes in every table |
| `Overlay.dfy` | local value = queued value if there is one, otherwise the remote baseline |
| `Reconciliation.dfy` | what a complete or incomplete refresh does to each row |
| `Counters.dfy` | patched counts against recounts; deliveries are invisible |
| `UndoJournal.dfy` | the undo journal over whole runs of transactions |
| `Flush.dfy`, `SyncService.dfy` | delivery sequences, retries after a crash; the flush loop over a failing remote |
| `SyncProtocol.dfy` | user, worker, server and refresh interleaved, with an ideal client as reference |
| `EventualSync.dfy` | from every reachable state a flush and a refresh bring server and table together |
| `ListLaws.dfy` | the article list and its size, row by row and in every run |
| `Pagination.dfy` | the cursor loop against any server |
| `StateLock.dfy`, `Scheduler.dfy`, `Icons.dfy` | locks, wake-ups and threads as step systems, and the shared objects as classes |
| `Runtime.dfy` | the session and the registry of account services |
| `Scrollover.dfy` | the exposure tracker against the history of what it was shown |
| `Navigation.dfy`, `TitleOrder.dfy` | the navigation tree, its stable order, its round trip through the tables |
| `Preview.dfy` | the preview text normaliser against a one-pass reference |

Tables of one account are maps, the outbox is split by field, and a transaction
either commits as a whole or changes nothing. Time, random batch ids, replies of
the server, thread scheduling and lower-casing are parameters or steps, so a
theorem holds for every choice of them.

## Where the code does not meet the property one would expect

Each entry keeps the code's behaviour, names a concrete case, and proves exactly when
the property holds.

- Refreshing the starred list with "unread only" takes the unread branch without a
  star condition (`rust-core/src/persistence/store.rs:1007`). It then marks unrelated
  unread articles as read. `Reconciliation.OutsideRowsKeptExactly`,
  `SyncProtocol.ApplyReadsYourWritesExactly` and `SyncProtocol.UnsafeSelectionsExactly`
  say exactly when; cases: `Reconciliation.StarredUnreadRefreshSpills`,
  `SyncProtocol.StarredUnreadRefreshForgets`.
- `set_starred` queues a row for an entry that has no row
  (`rust-core/src/persistence/store.rs:521-525`). The later insert can show the wrong value
  (exact: `Overlay.ApplyKeepsOverlay`; case: `Overlay.StarOfMissingEntryIsLost`), and while the
  entry is missing every flush stops at the orphan (exact: `SyncService.Service.FlushPending`,
  `Flush.OrphanBlocks`; case: `Flush.StarOfMissingEntryBlocksFlush`).
- A baseline other than read or unread moves no counter when its entry is delivered
  (exact: `Counters.UnknownBaselineShows`, `Counters.ReadDeltaShifts`; case: `Counters.UnknownBaselineDeliveryShows`), and undo
  restores such a status as unread (exact: `UndoJournal.UndoRestoresExactly`; case:
  `UndoJournal.UndoForgetsUnknownStatus`).
- A counter clamped at zero lets a shown count rise by one (exact: `Counters.ShownCountShifts`
  and the `Counters.DeliveryKeeps...` lemmas; case: `Counters.ClampedDeliveryShows`).
- If starting the worker thread fails (`rust-core/src/sync.rs:612-618`), a deadline stays set
  with no worker. In every run that is so exactly when the last start failed
  (`Scheduler.UnattendedExactly`), and some later request starts a worker exactly while the
  deadline still lies ahead (`Scheduler.RecoversExactly`); case:
  `Scheduler.FailedSpawnLosesRequest`.
- The Rust icon service can load an icon again after a success. It does so exactly when the
  icon was stored after the call's own look into the cache and that load is no longer
  registered (`Icons.RedundantLoadByHistory`, `Icons.RedundantInsertExactly`); case:
  `Icons.StepwiseLoadsTwice`. The Go service, with one lock, never does
  (`Icons.RedundantLoadsExactly`).
- The comment on `build_navigation` calls the returned total "the sum over all feeds"; the
  code leaves out feeds without a known category, and so does the model
  (`Navigation.TreeTotal`).

## Model

| member | source | states |
|---|---|---|
| Persistence.Store.SetRead | rust-core/src/persistence/store.rs:437-511 | new tables and receipt of a read edit: only listed rows whose status differs change, are queued and journalled; a drawn batch id that is taken rolls back |
| Persistence.Store.MarkEach | rust-core/src/persistence/store.rs:457-488 | the loop over requested ids, duplicates included, yields one change, one outbox row and one undo item per changed row |
| Persistence.Store.SetStarred | rust-core/src/persistence/store.rs:513-533 | the local star and exactly one queued row, also when the entry row is missing |
| Persistence.Store.PendingList | rust-core/src/persistence/store.rs:535-562 | every outbox row exactly once, in some order |
| Persistence.Store.Acknowledge | rust-core/src/persistence/store.rs:581-661 | baseline and counters move by the delivered value; only the delivered revision leaves the outbox; without an entry row nothing commits |
| Persistence.Store.Undo | rust-core/src/persistence/store.rs:663-693 | every recorded entry gets its prior value back, each as a compensating outbox row, and the batch is gone |
| Persistence.Store.DiscardUndo | rust-core/src/persistence/store.rs:695-706 | only the batch and its items disappear |
| Persistence.Store.ApplySnapshot | rust-core/src/persistence/store.rs:305-435 | reconcile, rebuild navigation, upsert entries; any repeated key rolls everything back |
| Persistence.Store.Navigation | rust-core/src/persistence/store.rs:784-827 | per category the sum of clamped feed counts, and their sum as unread total |
| EditLaws.SetReadWrites | rust-core/src/persistence/store.rs:457-488 | a read edit writes the status and one newer outbox row of each listed row with another status, and leaves every other row, mark, feed, category, total and star alone; a colliding batch id changes nothing |
| EditLaws.AutomaticEditJournals | rust-core/src/persistence/store.rs:450-488 | an undoable edit adds one item per moved row with its prior value, and its batch exactly if a row moved |
| EditLaws.ManualEditForgets | rust-core/src/persistence/store.rs:482-511 | a manual edit removes every item of the listed ids, moved or not, and every batch left empty |
| EditLaws.ReceiptTells | rust-core/src/persistence/store.rs:490-511 | the receipt names the batch and the number of moved rows |
| EditLaws.SetStarredWrites | rust-core/src/persistence/store.rs:513-533 | one star and one newer outbox row are written, nothing else in any table |
| EditLaws.UndoWrites | rust-core/src/persistence/store.rs:663-693 | each recorded entry takes its recorded value and a newer outbox row, the batch goes, and no counter, star or other row moves |
| EditLaws.DiscardWrites | rust-core/src/persistence/store.rs:695-706 | a batch and its items go, nothing else |
| EditLaws.ReadAcknowledged | rust-core/src/persistence/store.rs:581-625 | a delivered read moves one baseline, its feed counter and exactly the totals of unread selections that contain the entry, clamped at zero |
| EditLaws.StarAcknowledged | rust-core/src/persistence/store.rs:626-661 | a delivered star moves one baseline, the starred total and the totals of starred selections |
| EditLaws.EditMovesFeedCount | rust-core/src/persistence/store.rs:829-837 | over an overlaid known table an edit moves the count shown for a feed by the recount of its rows, up to the clamp |
| EditLaws.EditMovesCategoryCount | rust-core/src/persistence/store.rs:784-827 | the count shown for a category is then the sum of its feeds' moved counts, each clamped on its own; without a clamped feed it moves by the recount of all its rows |
| EditLaws.EditMovesStarred | rust-core/src/persistence/store.rs:839-852 | the same for the starred total |
| EditLaws.SetReadIsLocal | rust-core/src/persistence/store.rs:437-511 | every read edit is such an edit: counters and baselines stay, the overlay holds |
| EditLaws.SetStarredIsLocal | rust-core/src/persistence/store.rs:513-533 | so is every star, of a missing entry too |
| EditLaws.UndoIsLocal | rust-core/src/persistence/store.rs:663-693 | so is every undo |
| Overlay.SetReadKeepsSound | rust-core/src/persistence/store.rs:437-511 | a read edit keeps local value = queued value or baseline, and the outbox attached to stored entries |
| Overlay.SetStarredKeepsSound | rust-core/src/persistence/store.rs:513-533 | starring keeps that exactly for stored entries |
| Overlay.UndoKeepsSound | rust-core/src/persistence/store.rs:663-693 | undo keeps it |
| Overlay.AcknowledgeKeepsOverlay | rust-core/src/persistence/store.rs:581-661 | an acknowledgement keeps the overlay exactly when the delivered row was superseded or still asks for the delivered value |
| Overlay.AcknowledgeKeepsSound | rust-core/src/persistence/store.rs:581-661 | acknowledging what the flush loop read keeps the whole invariant although revisions restart at one |
| Overlay.ApplyKeepsOverlay | rust-core/src/persistence/store.rs:369-415 | a refresh keeps the overlay exactly when first-time inserts agree with the outbox |
| Overlay.ApplyKeepsSound | rust-core/src/persistence/store.rs:305-435 | with an outbox attached to stored entries every refresh keeps the invariant |
| Overlay.StarOfMissingEntryIsLost | rust-core/src/persistence/store.rs:521-525 | concrete case of a queued star that the next refresh hides |
| Reconciliation.AppliedRow | rust-core/src/persistence/store.rs:369-415 | fetched rows take the new baseline, keep queued local values, all other rows are only reconciled |
| Reconciliation.QueuedValuesSurvive | rust-core/src/persistence/store.rs:369-415 | a queued read or star value survives every refresh |
| Reconciliation.IncompleteReconcilesNothing | rust-core/src/persistence/store.rs:341-345 | rows missing from an incomplete fetch keep their state |
| Reconciliation.ReconciledExactly | rust-core/src/persistence/store.rs:971-1029 | after a complete fetch the baselines inside the selection are exactly the fetched entries of the selection |
| Reconciliation.LeavingRowFollowsBaseline | rust-core/src/persistence/store.rs:1007-1027 | a row that left the selection keeps a queued value and otherwise follows its new baseline |
| Reconciliation.OutsideRowsKeptExactly | rust-core/src/persistence/store.rs:1007-1017 | rows outside the selection stay, except exactly those the starred-and-unread selection spills onto |
| Reconciliation.StarredUnreadRefreshSpills | rust-core/src/persistence/store.rs:1007 | concrete case of that spill |
| RefreshLaws.CategoryRefresh | rust-core/src/persistence/store.rs:971-1029 | refreshing a category: fetched rows follow the fetch, only unread rows of that category can be marked read, all others stay, and the total is stored for that category |
| RefreshLaws.FeedRefresh | rust-core/src/persistence/store.rs:971-1029 | the same for a feed |
| RefreshLaws.AllRefresh | rust-core/src/persistence/store.rs:971-1029 | the same for the whole list, whatever id the selection carries |
| RefreshLaws.UnreadRefresh | rust-core/src/persistence/store.rs:971-1029 | the same for the unread list, whatever its flag says |
| RefreshLaws.StarredRefresh | rust-core/src/persistence/store.rs:971-1029 | the same for the starred list: stars go from unfetched rows, or with the flag every unfetched unread row is marked read |
| RefreshLaws.UnusableScopeRefresh | rust-core/src/persistence/store.rs:71-82 | a category or feed without a positive id is refreshed as the whole unread list |
| RefreshLaws.RefreshCommitsExactly | rust-core/src/persistence/store.rs:305-435 | a refresh commits exactly when no category or feed id repeats, and no entry id in a complete fetch that takes stock |
| RefreshLaws.RefreshedNavigation | rust-core/src/persistence/store.rs:347-367 | afterwards the navigation tables hold exactly the categories and feeds of the snapshot, with titles and counters |
| Counters.ReadDeltaIsRecount | rust-core/src/persistence/store.rs:829-837 | the patched read divergence is the difference of a local and a remote recount |
| Counters.StarDeltaIsRecount | rust-core/src/persistence/store.rs:839-852 | the same for stars |
| Counters.ReadDeltaShifts | rust-core/src/persistence/store.rs:581-625 | a delivery moves stored counter and divergence oppositely exactly for known baselines or an unsuperseded value |
| Counters.ShownCountShifts | rust-core/src/persistence/store.rs:601-614 | a shown count stays, or rises by one exactly when the clamp at zero loses a decrement |
| Counters.DeliveryKeepsRows | rust-core/src/persistence/store.rs:919-960 | the article list hides every delivery |
| Counters.DeliveryKeepsFeedCount | rust-core/src/persistence/store.rs:784-837 | feed counts are unchanged by a delivery, current or superseded, up to the clamp |
| Counters.DeliveryKeepsCategoryCount | rust-core/src/persistence/store.rs:784-827 | the same for category sums |
| Counters.DeliveryKeepsUnreadTotal | rust-core/src/persistence/store.rs:784-827 | the same for the unread total |
| Counters.DeliveryKeepsStarred | rust-core/src/persistence/store.rs:839-852 | the same for the starred total |
| Counters.DeliveryKeepsTotal | rust-core/src/persistence/store.rs:737-754 | the same for the total of every selection |
| Counters.ClampedDeliveryShows | rust-core/src/persistence/store.rs:601-614 | a concrete delivery that raises a shown count from zero to one |
| Counters.UnknownBaselineDeliveryShows | rust-core/src/persistence/store.rs:588-600 | a concrete delivery over an unknown baseline that raises a shown count |
| Counters.UnknownBaselineShows | rust-core/src/persistence/store.rs:588-600 | the exact count shown after a delivery over an unknown baseline |
| Counters.CountedMeansRecount | rust-core/src/persistence/store.rs:737-754 | stored total plus divergence equals the number of matching local rows |
| Counters.DeliveryKeepsCounted | rust-core/src/persistence/store.rs:601-647 | a delivery patches such a total to the new count, so its clamp never fires |
| Counters.CompleteRefreshCounts | rust-core/src/persistence/store.rs:326-345 | a complete refresh stores a total that counts the new baselines |
| UndoJournal.RunKeepsJournal | rust-core/src/persistence/store.rs:450-511 | in every run each item has a batch and an entry, and each batch has an item |
| UndoJournal.ReceiptCountsChangedRows | rust-core/src/persistence/store.rs:450-511 | the receipt counts exactly the rows whose status moved, even with repeated ids |
| UndoJournal.RunKeepsItem | rust-core/src/persistence/store.rs:457-488 | an item leaves a run only by a manual mark of its entry |
| UndoJournal.UndoRestoresExactly | rust-core/src/persistence/store.rs:663-693 | after any run the undo restores exactly the entries not re-marked since, queues each, leaves all others; exact for known statuses |
| UndoJournal.UndoForgetsUnknownStatus | rust-core/src/persistence/store.rs:475-481 | a concrete unknown status that an undo turns into unread |
| SyncProtocol.StepKeepsInv | rust-core/src/sync.rs:471-556 | every user, worker, server and refresh step keeps the protocol invariant |
| SyncProtocol.EveryRunReadsYourWrites | rust-core/src/sync.rs:255-291 | in every interleaving with failures, lost replies and crashes, each stored row's local values are what the user last asked for |
| ListLaws.ListShowsRows | rust-core/src/persistence/store.rs:919-960 | the list holds exactly the stored rows that are asked for or retained and shows feed, category, text, status and star as stored |
| ListLaws.EveryRunListsYourWrites | rust-core/src/persistence/store.rs:714-782 | in every run the list holds exactly the stored articles that belong to the selection by the values the user last asked for, or are retained, and shows them with those values |
| ListLaws.EveryRunSizesYourWrites | rust-core/src/persistence/store.rs:737-754 | in every run, between a refresh that takes stock of a selection and the next refresh, the size shown for it is the number of stored articles the user put into it |
| ListLaws.TotalCoversRows | rust-core/src/persistence/store.rs:737-754 | for any table the size is at least the matching rows, is that number without a stored total, and otherwise the larger of it and the patched total |
| ListLaws.DivergenceExactly | rust-core/src/persistence/store.rs:870-917 | what patches a stored total is unread here minus unread there, or stars here minus stars there, and nothing for a list that is neither |
| SyncProtocol.BackgroundKeepsLocalValues | rust-core/src/sync.rs:471-556 | in every run deliveries, refreshes, failures and crashes never change a shown value |
| SyncProtocol.ConfirmRemovesExactlyUnedited | rust-core/src/sync.rs:508-556 | in every run an acknowledgement removes its row exactly when no user action queued it anew since the flush read the outbox, although revisions restart at one; a row that stays is untouched and asks for what the user wants now |
| SyncProtocol.ConfirmLosesNoEdit | rust-core/src/persistence/store.rs:650-659 | in every run a row that an acknowledgement removes asks for the delivered value and the server holds it; only the delivered revision is removed |
| SyncProtocol.EmptyOutboxMeansSynced | rust-core/src/sync.rs:508-556 | whenever a run has nothing queued, the server holds every value the user asked for and baselines and local values equal it |
| EventualSync.EveryRunCanSync | rust-core/src/sync.rs:471-556 | from every state of every run, crash included, the worker alone can reach an empty outbox with every value of the user on the server, by one flush that meets no failure |
| EventualSync.FlushDrains | rust-core/src/sync.rs:508-556 | such a flush, of any length, delivers and removes every row it read |
| EventualSync.EveryRunCanCatchUp | rust-core/src/persistence/store.rs:305-435 | a further refresh of the whole list makes every article stored, with server, baseline and local value as the user asked |
| SyncProtocol.PatchedTotalIsRecount | rust-core/src/persistence/store.rs:737-754 | from one complete refresh to the next the shown total is the number of local rows, whatever happens in between |
| SyncProtocol.ApplyReadsYourWritesExactly | rust-core/src/persistence/store.rs:1007-1027 | applying a refresh keeps all local values exactly when no stored article is forgotten |
| SyncProtocol.UnsafeSelectionsExactly | rust-core/src/persistence/store.rs:1007 | a selection can break read-your-writes in some run exactly when it is starred-and-unread |
| SyncProtocol.StarredUnreadRefreshForgets | rust-core/src/persistence/store.rs:1007 | a run of two refreshes and no edit that shows an unread article as read |
| SyncService.Service.FlushPending | rust-core/src/sync.rs:508-556 | whatever fails, exactly a prefix leaves the outbox, at most one more row is delivered, and no orphan is passed; over a perfect connection to a server that knows the starred articles the flush stops exactly at the first orphan and succeeds exactly without one; success empties the outbox, merges it into the server, and makes baselines equal local values exactly over an overlaid table |
| SyncService.ConvergedMeans | rust-core/src/sync.rs:508-556 | a converged state spelled out: the server differs only by the queued values, nothing is queued, each baseline equals its local value, and scope and text stay |
| SyncService.Service.Send | rust-core/src/sync.rs:528-547 | one delivery sets the desired value, stars through read-then-toggle, or changes nothing, and succeeds exactly when its calls do |
| Flush.DeliverAllAt | rust-core/src/sync.rs:519-547 | a delivery sequence leaves the last delivered value of each field of each article |
| Flush.ConfirmAllRow | rust-core/src/persistence/store.rs:581-661 | a sequence of acknowledgements moves only baselines, to the last confirmed values |
| Flush.ConfirmAllOutbox | rust-core/src/persistence/store.rs:650-659 | with current revisions exactly the confirmed rows leave the outbox |
| Flush.FullFlushConverges | rust-core/src/sync.rs:508-556 | a complete flush of an outbox without orphans empties it, merges it into the server, advances every baseline to its queued value and moves no local value; baselines then equal local values exactly over an overlaid table |
| Flush.PrefixLeavesSuffix | rust-core/src/sync.rs:519-553 | a flush that stops removes exactly a prefix and leaves every other row untouched, whatever the outbox holds |
| Flush.RetryConverges | rust-core/src/sync.rs:508-556 | flushing again after a crash between delivery and acknowledgement ends, in any order, with the server, outbox and table of one undisturbed flush |
| Flush.FlushGetsThroughExactly | rust-core/src/persistence/store.rs:581-600 | every listed row can be acknowledged exactly when every outbox row belongs to a stored entry |
| Flush.OrphanBlocks | rust-core/src/persistence/store.rs:581-600 | a row without an entry is never passed: it and every row listed behind it stay queued, and its entry stays missing |
| Flush.StarOfMissingEntryBlocksFlush | rust-core/src/persistence/store.rs:521-525 | a concrete star of an unknown entry behind which nothing is confirmed |
| Pagination.FetchCompleteSelection | rust-core/src/remote/miniflux.rs:203-270 | the loop asks until the first answer that does not continue, and its outcome or error kind is exactly what that answer means |
| Pagination.VerdictSound | rust-core/src/remote/miniflux.rs:203-270 | any server: a success is ascending, duplicate-free and as long as first announced, within the request bound; the duplicate error never occurs |
| Pagination.StableFetchesAll | rust-core/src/remote/miniflux.rs:203-270 | a server whose selection does not change delivers exactly the whole selection |
| Pagination.AppendPage | rust-core/src/remote/miniflux.rs:224-240 | one page is accepted exactly when it ascends beyond the cursor, and then appended |
| Pagination.FailuresMean | rust-core/src/remote/miniflux.rs:203-270 | a success has exactly the announced length; each error kind says what the last answer was: missing, out of order, too much, or too short |
| StateLock.EveryRunConserves | rust-core/src/sync.rs:71-141 | in every run the value is in the slot or in exactly one guard and is the last one written |
| StateLock.TimeoutTakesNothing | rust-core/src/sync.rs:93-116 | a waiter gives up only on an empty slot and never takes the value along |
| StateLock.NeverStuck | rust-core/src/sync.rs:79-141 | waking one waiter per release is enough |
| StateLock.StateSlot.TakeOrWait | rust-core/src/sync.rs:93-116 | one turn of a waiter's loop: take a full slot, otherwise give up or sleep |
| StateLock.StateSlot.Release | rust-core/src/sync.rs:135-141 | dropping a guard fills the slot and notifies one sleeper |
| StateLock.CheckExactly | rust-core/src/sync.rs:79-116 | a waiter that looks leaves exactly when the slot is empty and its deadline is over, takes the value exactly when there is one, and otherwise sleeps; nobody else moves |
| StateLock.LeavesOnlyByRelease | rust-core/src/sync.rs:79-141 | in every run a thread without a deadline leaves only by its own release; one with a deadline may also leave an empty slot |
| StateLock.ThreadsAreInside | rust-core/src/sync.rs:79-141 | in every run exactly the threads that came and have not left are known, each with the deadline it came with |
| StateLock.DropExactly | rust-core/src/sync.rs:135-141 | a release refills the slot, wakes one sleeper exactly if there is one, and moves nobody else |
| Scheduler.EveryRunIsSafe | rust-core/src/sync.rs:577-656 | at most one worker, deadline = earliest request since the last fire, no early fire, no lost request |
| Scheduler.RequestsKeepTheirDue | rust-core/src/sync.rs:577-611 | in every run each request is remembered with the time it was made plus its own delay |
| Scheduler.FiresWhenDue | rust-core/src/sync.rs:622-642 | in every run a worker fires only when the earliest waiting request is due, and claims all that wait |
| Scheduler.EveryScheduleServes | rust-core/src/sync.rs:622-656 | once due, a request of a running worker is covered after at most four steps of that worker in every schedule; requests and time never set it back, and the worker never depends on a spurious wake-up |
| Scheduler.WaitingRequestsAreServed | rust-core/src/sync.rs:622-656 | a running worker will be up by the deadline without a spurious wake-up and can then serve everything that waits |
| Scheduler.UnattendedExactly | rust-core/src/sync.rs:605-619 | in every run a deadline lacks a worker exactly when the last thread start failed |
| Scheduler.RecoversExactly | rust-core/src/sync.rs:577-619 | such a deadline gets a worker in some continuation exactly while it lies ahead |
| Scheduler.FailedSpawnLosesRequest | rust-core/src/sync.rs:612-618 | a concrete failed start after which a request is never served |
| Scheduler.FailedSpawnWedges | rust-core/src/sync.rs:612-618 | after a failed start and a passed deadline no later request starts a worker |
| Scheduler.FlushScheduler.ScheduleFlush | rust-core/src/sync.rs:577-611 | an earlier deadline replaces the current one and wakes the worker; a worker is started unless one runs |
| Scheduler.FlushScheduler.RequestFlush | rust-core/src/sync.rs:577-619 | after a whole request a worker is marked as running exactly if one was, or if an earlier deadline started a thread successfully |
| Scheduler.FlushScheduler.TakeTurn | rust-core/src/sync.rs:622-642 | the worker stops without a deadline, waits for a future one, takes a passed one |
| Runtime.AppRuntime.Configure | rust-core/src/runtime.rs:175-206 | stale generations change nothing; otherwise the live service of the account or the new candidate is published and dead entries dropped |
| Runtime.AppRuntime.Borrow | rust-core/src/runtime.rs:372-377 | work that starts takes a reference to the session's service and changes nothing else |
| Runtime.ConfigureKeepsInv | rust-core/src/runtime.rs:175-206 | the registry stays sound and the generation never decreases |
| Runtime.RunningWorkSharesItsGate | rust-core/src/runtime.rs:180-187 | while work of an account runs, configuring it again hands out the same service |
| Runtime.EveryRunHasOneGate | rust-core/src/runtime.rs:175-206 | in any order of configurations and running work the registry stays sound, at most one service per account is alive, and the session belongs to the winner |
| Runtime.HandlesAreLedger | rust-core/src/runtime.rs:372-377 | in every run the references to a service are the times it was taken minus the times it was given back |
| Runtime.AliveExactly | rust-core/src/runtime.rs:180-187 | so a service is alive exactly while work has it or the session is its own |
| Runtime.NextEngineExactly | rust-core/src/runtime.rs:175-206 | in every run an accepted configuration publishes the one service of its account that is in use or current, and a new one exactly if there is none; a stale one changes nothing |
| Runtime.ServicesExactly | rust-core/src/runtime.rs:188-206 | afterwards the registry lists the published service and exactly the live ones of other accounts |
| Runtime.OneLiveEngine | rust-core/src/runtime.rs:180-187 | of all services ever published for an account at most one is alive |
| Runtime.WinnerIsLastHighest | rust-core/src/runtime.rs:175-180 | the winner has the maximum submitted generation and no later configuration ties with it |
| Icons.SingleFlight | rust-core/src/icons.rs:476-560 | at most one load per feed in flight; only results of successful loads are cached or returned |
| Icons.EveryScheduleReleases | rust-core/src/icons.rs:434-444 | in every interleaving, whichever way its load ends, a leader opens its slot with at most five steps of its own; no other call sets it back, it can always go on, and then nobody sleeps on the slot and every check lets its waiter go |
| Icons.EverySleeperIsFreed | rust-core/src/icons.rs:495-531 | in every run a sleeping call has such a leader |
| Icons.EveryWaiterIsReleased | rust-core/src/icons.rs:434-444 | the leader's remaining steps alone, panic included, free each sleeper |
| Icons.RedundantInsertExactly | rust-core/src/icons.rs:528-540 | in every run a registration loads an icon again exactly when the feed is cached by then and no load of it is registered |
| Icons.RedundantLoadByHistory | rust-core/src/icons.rs:483-540 | that happens exactly when the icon was stored after the call's own look into the cache and the storing load is no longer registered |
| Icons.StepwiseLoadsTwice | rust-core/src/icons.rs:483-540 | a concrete run with separate locks that loads one icon twice |
| Icons.RedundantLoadsExactly | go-core/internal/miniflux/service.go:484-517 | a corollary on lock styles: some run loads again exactly with separate locks, none with one lock |
| Icons.IconService.FeedIcon | rust-core/src/icons.rs:476-560 | an undisturbed call returns the cached icon, waits for a registered load, or loads, caches a success and leaves no load registered and its slot open |
| Icons.IconService.RegisterLoad | rust-core/src/icons.rs:533-539 | a call leads exactly when no load was registered, and then owns an unready slot |
| Icons.WaiterReturnsLeadersIcon | rust-core/src/icons.rs:495-531 | in every run a waiter whose leader loaded an icon returns the cached one of its feed however late it reads it, with one lock exactly the leader's |
| Icons.EndsWithoutIconExactly | rust-core/src/icons.rs:495-560 | a call ends without an icon exactly when its time is over, its own load brought none, or the load it waited for left none in the cache |
| Icons.EndsWithIcon | rust-core/src/icons.rs:483-560 | an icon a call ends with is the cached one of its feed or that of its own load |
| Scrollover.ScrolloverExposureTracker.ProcessScroll | macos/FluxBar/ScrolloverExposureTracker.swift:79-114 | returned, sorted, are only unread rows that passed the top and have a qualifying stretch of looks in the history, and exactly those while time does not run backwards; they are dropped before the new look |
| Scrollover.ScrolloverExposureTracker.Observe | macos/FluxBar/ScrolloverExposureTracker.swift:53-77 | the new exposure table, with the look added to the history |
| Scrollover.ScrolloverExposureTracker.Rebase | macos/FluxBar/ScrolloverExposureTracker.swift:43-51 | frames move, nothing qualifies or is forgotten, rows no longer unread are dropped |
| Scrollover.QualifiedExactly | macos/FluxBar/ScrolloverExposureTracker.swift:39-114 | after any sequence of calls in the order of time a row counts as qualified exactly when two looks are far enough apart, all looks between showed it, and it was not dropped since |
| Scrollover.MarkedExactly | macos/FluxBar/ScrolloverExposureTracker.swift:93-105 | after any sequence of calls in the order of time a scroll marks exactly the unread qualified rows whose bottom edge moved past the top since it last settled, or that vanished while their middle was in the upper half |
| Scrollover.FramesAreLast | macos/FluxBar/ScrolloverExposureTracker.swift:43-114 | after any sequence of calls a tracked row has the frame last shown and is compared with the frame it last settled at |
| Scrollover.PerformedTracks | macos/FluxBar/ScrolloverExposureTracker.swift:39-114 | which rows each call keeps, starts or stops tracking |
| Scrollover.VisibleFractionExactly | macos/FluxBar/ScrolloverExposureTracker.swift:116-119 | the visible fraction is the height of the overlap over the height of the row, and nothing when they are apart |
| Scrollover.RequalifiesAfterMark | macos/FluxBar/ScrolloverExposureTracker.swift:106-108 | after a mark only looks made later can qualify the row again |
| Navigation.BuildNavigation | rust-core/src/domain/navigation.rs:49-90 | builds the sorted tree; the returned total is the sum over its categories |
| Navigation.TreeTotal | rust-core/src/domain/navigation.rs:65-81 | that total counts each feed with a known category once and orphans never |
| Navigation.TreeNode | rust-core/src/domain/navigation.rs:54-88 | every node is an input category holding exactly its feeds, sorted, with their sum |
| Navigation.TreeOrder | rust-core/src/domain/navigation.rs:83-98 | no category is lost or doubled, and the order is the only stable one by title |
| Navigation.TreeHoldsInputs | rust-core/src/domain/navigation.rs:54-88 | with distinct category ids each category has as nodes exactly its input feeds, with id, title, category and counter, none lost or doubled |
| TitleOrder.StableSortExactly | rust-core/src/domain/navigation.rs:93-98 | a sequence is the stable sort exactly when it is ordered and keeps ties in input order |
| TitleOrder.FirstDifferenceDecides | rust-core/src/domain/navigation.rs:93-98 | titles ascend: the first differing character decides, and a prefix comes first |
| Navigation.InsertCategoriesExactly | rust-core/src/persistence/store.rs:347-367 | a tree can be stored exactly when no id repeats, and the tables then hold exactly its feeds per category |
| Navigation.BuiltStoresExactly | rust-core/src/domain/navigation.rs:49-90 | a built tree can be stored exactly when category ids and ids of attached feeds are distinct |
| Navigation.NavigationRoundTrip | rust-core/src/persistence/store.rs:784-827 | with no queued reads the stored tree reads back every feed, category and total count, negatives as zero; exactly the attached feeds are stored, and a category shows the builder's sum exactly without negative counters |
| Navigation.TotalReadsBackExactly | rust-core/src/persistence/store.rs:784-827 | the total read back is the builder's exactly when no counter is negative |
| Preview.CollapsedIsFlow | rust-core/src/article.rs:158-169 | splitting, collapsing and joining equals replacing each whitespace run by one newline or space |
| Preview.WhitespaceBecomes | rust-core/src/article.rs:158-169 | whitespace between two visible characters becomes one newline if it holds one, otherwise one space |
| Preview.OuterWhitespaceGoes | rust-core/src/article.rs:158-169 | whitespace at either end goes |
| Preview.NormalizedIsClean | rust-core/src/article.rs:158-177 | the output has no outer or adjacent whitespace and respects a positive limit |
| Preview.CleanLines | rust-core/src/article.rs:158-165 | such text has no empty line |
| Preview.UnchangedExactly | rust-core/src/article.rs:158-177 | exactly clean text within the limit is left alone |
| Preview.Idempotent | rust-core/src/article.rs:158-177 | normalising twice changes nothing, for every text and limit |
| Preview.NormalizedKeepsVisible | rust-core/src/article.rs:158-177 | no visible character is lost before the cut, and the cut is the longest trimmed beginning |

## Left out

- SQLite itself, its files, pragmas and schema text: a transaction is one atomic step on maps; several accounts are several independent stores.
- HTTP, JSON, error texts, logging, the C interface and localization: a remote call is one step that works, fails, or takes effect and reports failure.
- Integer widths: ids, counters and revisions are unbounded integers, so an `i32` overflow of a total is not modelled.
- Persistence.Store.Navigation: gives counts by category id; the order of the tree read back (`COLLATE NOCASE`) and the titles are not part of its result.
- Counters.DeliveryKeepsRows: the article list is a map of rows; sorting by date and the cut at 200 rows come after it and are not modelled.
- Persistence.Store.PendingList: the order by time stamp is left open; the flush theorems hold for every order.
- SyncService.Service.FlushPending: a flush that cannot even read the outbox in time changes nothing and is not a case of its own; concurrent edits during a flush are in SyncProtocol, not in this class.
- SyncProtocol.EveryRunReadsYourWrites: assumes this client alone changes read and star values on the server; a call that takes effect only after its gate was released is not modelled.
- SyncProtocol.EveryRunReadsYourWrites: a browse is one look at the server; articles that arrive between its single requests are seen by the next one.
- SyncProtocol.EveryRunReadsYourWrites: refreshes with the starred-and-unread selection and stars of unknown entries are excluded from its runs; both are covered by exact conditions of their own.
- StateLock, Scheduler, Icons and SyncProtocol interleave threads as steps on values; their classes cover the critical sections on the shared fields, not the blocking wait itself. Sections that only assign one field have no row above; the whole calls made of them do.
- Scheduler.EveryScheduleServes: assumes that no thread start fails after the request; a request that was due when a start failed is the case of Scheduler.RecoversExactly.
- Runtime: credential validation, account ids derived by hashing and the construction of the remote client.
- Scrollover.ScrolloverExposureTracker.ProcessScroll: times and frames are real numbers, rounding is not modelled.
- Navigation.BuildNavigation: lower-casing is an arbitrary function on strings and sorting is one library step, specified as the stable sort.
- The Go twins of the store and the service are not modelled on their own; of the Go code only the icon service is.
- Icon decoding and contrast, HTML parsing, image address resolution, views, shortcuts and probes.
