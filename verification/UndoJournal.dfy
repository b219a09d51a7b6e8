/** The undo journal over whole runs of store transactions. */
module UndoJournal {
  import opened Collections
  import opened Domain
  import opened StoreSpec
  import opened Overlay
  import opened Reconciliation

  datatype Transaction =
    | MarkRead(ids: seq<int>, read: bool, undoable: bool, batch: string)
    | MarkStarred(id: int, starred: bool)
    | UndoBatch(batch: string)
    | DiscardBatch(batch: string)
    | AcknowledgeDelivery(m: Mutation)
    | ApplyRefresh(snapshot: Snapshot)

  function Perform(db: Db, t: Transaction): Db {
    match t
    case MarkRead(ids, read, undoable, batch) => SetRead(db, ids, read, undoable, batch)
    case MarkStarred(id, starred) => SetStarred(db, id, starred)
    case UndoBatch(batch) => Undo(db, batch)
    case DiscardBatch(batch) => WithoutBatch(db, batch)
    case AcknowledgeDelivery(m) => if Acknowledge(db, m).Success? then Acknowledge(db, m).value else db
    case ApplyRefresh(snapshot) => if Apply(db, snapshot).Success? then Apply(db, snapshot).value else db
  }

  function Run(db: Db, ts: seq<Transaction>): Db {
    if ts == [] then db else Perform(Run(db, ts[..|ts| - 1]), ts[|ts| - 1])
  }

  // ---- Shape ------------------------------------------------------------

  predicate ItemsAttached(db: Db) {
    forall k :: k in db.items ==> k.batch in db.batches && k.entry in db.entries
  }

  ghost predicate HasItem(items: map<ItemKey, bool>, batch: string) {
    exists k :: k in items && k.batch == batch
  }

  ghost predicate BatchesInhabited(db: Db) {
    forall b :: b in db.batches ==> HasItem(db.items, b)
  }

  /** Every item has a batch and a stored entry; every batch has an item. */
  ghost predicate JournalSound(db: Db) {
    ItemsAttached(db) && BatchesInhabited(db)
  }

  lemma SetReadKeepsJournal(db: Db, ids: seq<int>, read: bool, undoable: bool, batch: string)
    requires JournalSound(db)
    ensures JournalSound(SetRead(db, ids, read, undoable, batch))
  {
    var after := SetRead(db, ids, read, undoable, batch);
    var changed := Changed(db, ids, read);
    if undoable && SetReadCommits(db, ids, read, undoable, batch) {
      forall b | b in after.batches ensures HasItem(after.items, b) {
        if b in db.batches {
          var k :| k in db.items && k.batch == b;
          assert k in after.items;
        } else {
          Inhabited(changed);
          var id :| id in changed;
          assert ItemKey(batch, id) in after.items;
        }
      }
    }
  }

  lemma WithoutBatchKeepsJournal(db: Db, batch: string)
    requires JournalSound(db)
    ensures JournalSound(WithoutBatch(db, batch))
    ensures batch !in WithoutBatch(db, batch).batches
  {
    var after := WithoutBatch(db, batch);
    forall b | b in after.batches ensures HasItem(after.items, b) {
      var k :| k in db.items && k.batch == b;
      assert k in after.items;
    }
  }

  lemma EntriesStay(db: Db, t: Transaction)
    ensures db.entries.Keys <= Perform(db, t).entries.Keys
  {
    match t {
      case MarkRead(ids, read, undoable, batch) => SetReadTables(db, ids, read, undoable, batch);
      case ApplyRefresh(snapshot) =>
        if Apply(db, snapshot).Success? {
          UpsertAllKeys(db, BaseRows(db, snapshot), snapshot.entries);
        }
      case _ =>
    }
  }

  lemma PerformKeepsJournal(db: Db, t: Transaction)
    requires JournalSound(db)
    ensures JournalSound(Perform(db, t))
  {
    EntriesStay(db, t);
    match t {
      case MarkRead(ids, read, undoable, batch) => SetReadKeepsJournal(db, ids, read, undoable, batch);
      case UndoBatch(batch) => WithoutBatchKeepsJournal(EditReads(db, Priors(db.items, batch)), batch);
      case DiscardBatch(batch) => WithoutBatchKeepsJournal(db, batch);
      case _ => assert Perform(db, t).items == db.items && Perform(db, t).batches == db.batches;
    }
  }

  /** The journal keeps its shape in every run that starts from an empty store. */
  lemma {:induction false} RunKeepsJournal(ts: seq<Transaction>)
    ensures JournalSound(Run(EmptyDb(), ts))
  {
    if ts != [] {
      RunKeepsJournal(ts[..|ts| - 1]);
      PerformKeepsJournal(Run(EmptyDb(), ts[..|ts| - 1]), ts[|ts| - 1]);
    }
  }

  // ---- Receipts -----------------------------------------------------------

  /** The receipt counts the rows whose status moved, however often they were listed. */
  lemma ReceiptCountsChangedRows(db: Db, ids: seq<int>, read: bool, undoable: bool, batch: string)
    requires SetReadCommits(db, ids, read, undoable, batch)
    ensures var after := SetRead(db, ids, read, undoable, batch);
            var moved := set id | id in db.entries && after.entries[id].status != db.entries[id].status;
            && moved == Changed(db, ids, read)
            && (forall id :: id in moved ==> after.entries[id].status == Mark(read))
            && SetReadReceipt(db, ids, read, undoable, batch) ==
               Success(if undoable && moved != {} then Some(Receipt(batch, |moved|)) else None)
            && (undoable ==> (batch in after.batches <==> moved != {}))
  {
    SetReadTables(db, ids, read, undoable, batch);
  }

  // ---- Undo over a run ------------------------------------------------------

  /** Entries a run re-marks by hand, whether or not their status moved. */
  function Remarked(ts: seq<Transaction>): set<int> {
    set t, id | t in ts && t.MarkRead? && !t.undoable && id in t.ids :: id
  }

  predicate LeavesBatch(t: Transaction, batch: string) {
    match t
    case MarkRead(_, _, undoable, b) => undoable ==> b != batch
    case UndoBatch(b) => b != batch
    case DiscardBatch(b) => b != batch
    case _ => true
  }

  /** A run that neither reverts the batch nor draws its id again. */
  predicate RunLeavesBatch(ts: seq<Transaction>, batch: string) {
    forall t :: t in ts ==> LeavesBatch(t, batch)
  }

  lemma RemarkedByOne(t: Transaction, id: int)
    ensures id in Remarked([t]) <==> t.MarkRead? && !t.undoable && id in t.ids
  {
    assert t in [t];
  }

  lemma SetReadKeepsItem(db: Db, ids: seq<int>, read: bool, undoable: bool, batch: string, k: ItemKey)
    requires undoable ==> batch != k.batch
    ensures var after := SetRead(db, ids, read, undoable, batch);
            && (k in after.items <==> k in db.items && (undoable || k.entry !in ids))
            && (k in after.items ==> after.items[k] == db.items[k])
  {
  }

  lemma PerformKeepsItem(db: Db, t: Transaction, k: ItemKey)
    requires LeavesBatch(t, k.batch)
    ensures k in Perform(db, t).items <==> k in db.items && k.entry !in Remarked([t])
    ensures k in Perform(db, t).items ==> Perform(db, t).items[k] == db.items[k]
  {
    RemarkedByOne(t, k.entry);
    match t {
      case MarkRead(ids, read, undoable, batch) => SetReadKeepsItem(db, ids, read, undoable, batch, k);
      case _ =>
    }
  }

  /** The items of a batch only leave a run by a manual mark of their entry. */
  lemma {:induction false} RunKeepsItem(db: Db, ts: seq<Transaction>, k: ItemKey)
    requires RunLeavesBatch(ts, k.batch)
    ensures k in Run(db, ts).items <==> k in db.items && k.entry !in Remarked(ts)
    ensures k in Run(db, ts).items ==> Run(db, ts).items[k] == db.items[k]
  {
    if ts == [] {
      assert Remarked(ts) == {};
    } else {
      var front, last := ts[..|ts| - 1], ts[|ts| - 1];
      assert ts == front + [last];
      assert last in ts && forall t :: t in front ==> t in ts;
      RunKeepsItem(db, front, k);
      PerformKeepsItem(Run(db, front), last, k);
      assert Remarked(ts) == Remarked(front) + Remarked([last]);
    }
  }

  /** Exactly the entries the batch changed and nobody re-marked are restored. */
  function Restored(db: Db, ids: seq<int>, read: bool, ts: seq<Transaction>): set<int> {
    Changed(db, ids, read) - Remarked(ts)
  }

  lemma MarkedItem(db: Db, ids: seq<int>, read: bool, batch: string, ts: seq<Transaction>, id: int)
    requires JournalSound(db) && batch !in db.batches && RunLeavesBatch(ts, batch) && id in db.entries
    ensures var items := Run(SetRead(db, ids, read, true, batch), ts).items;
            var key := ItemKey(batch, id);
            && (key in items <==> id in Restored(db, ids, read, ts))
            && (key in items ==> items[key] == (db.entries[id].status == Read))
  {
    var first := SetRead(db, ids, read, true, batch);
    var key := ItemKey(batch, id);
    assert key !in db.items;
    assert key in first.items <==> id in Changed(db, ids, read);
    RunKeepsItem(first, ts, key);
  }

  /** Undo writes exactly the recorded priors and queues each of them. */
  lemma UndoAt(db: Db, batch: string, id: int)
    requires id in db.entries
    ensures var undone := Undo(db, batch);
            var key := ItemKey(batch, id);
            && id in undone.entries
            && (if key in db.items then
                  && undone.entries[id] == db.entries[id].(status := Mark(db.items[key]))
                  && id in undone.readMarks
                  && undone.readMarks[id] == Pending(db.items[key], NextRevision(db.readMarks, id))
                else
                  && undone.entries[id] == db.entries[id]
                  && (id in undone.readMarks <==> id in db.readMarks)
                  && (id in db.readMarks ==> undone.readMarks[id] == db.readMarks[id]))
            && batch !in undone.batches && key !in undone.items
  {
    assert id in Priors(db.items, batch) <==> ItemKey(batch, id) in db.items;
  }

  /** An automatic mark, any run that leaves its batch alone, then its undo. */
  lemma UndoRestoresExactly(db: Db, ids: seq<int>, read: bool, batch: string, ts: seq<Transaction>, id: int)
    requires JournalSound(db) && batch !in db.batches && RunLeavesBatch(ts, batch)
    requires id in db.entries
    ensures var marked := Run(SetRead(db, ids, read, true, batch), ts);
            var undone := Undo(marked, batch);
            && id in marked.entries && id in undone.entries
            && (if id in Restored(db, ids, read, ts) then
                  && undone.entries[id].status == Mark(db.entries[id].status == Read)
                  && (undone.entries[id].status == db.entries[id].status <==> KnownStatus(db.entries[id].status))
                  && id in undone.readMarks
                  && undone.readMarks[id] ==
                     Pending(db.entries[id].status == Read, NextRevision(marked.readMarks, id))
                else
                  && undone.entries[id] == marked.entries[id]
                  && (id in undone.readMarks <==> id in marked.readMarks)
                  && (id in marked.readMarks ==> undone.readMarks[id] == marked.readMarks[id]))
            && batch !in undone.batches && ItemKey(batch, id) !in undone.items
  {
    var first := SetRead(db, ids, read, true, batch);
    MarkedItem(db, ids, read, batch, ts, id);
    RunKeepsEntry(first, ts, id);
    UndoAt(Run(first, ts), batch, id);
  }

  /** A status the client does not know comes back from an undo as unread. */
  lemma UndoForgetsUnknownStatus()
    ensures var archived := Row(1, 1, "", Other("archived"), false, Other("archived"), false);
            var db := EmptyDb().(entries := map[5 := archived]);
            var undone := Undo(SetRead(db, [5], true, true, "b"), "b");
            5 in undone.entries && undone.entries[5].status == Unread
  {
    var archived := Row(1, 1, "", Other("archived"), false, Other("archived"), false);
    var db := EmptyDb().(entries := map[5 := archived]);
    assert 5 in [5] && 5 in Changed(db, [5], true) && 5 in Restored(db, [5], true, []);
    assert Run(SetRead(db, [5], true, true, "b"), []) == SetRead(db, [5], true, true, "b");
    UndoRestoresExactly(db, [5], true, "b", [], 5);
  }

  lemma {:induction false} RunKeepsEntry(db: Db, ts: seq<Transaction>, id: int)
    requires id in db.entries
    ensures id in Run(db, ts).entries
  {
    if ts != [] {
      RunKeepsEntry(db, ts[..|ts| - 1], id);
      EntriesStay(Run(db, ts[..|ts| - 1]), ts[|ts| - 1]);
    }
  }
}
