/** Local values are the remote baseline overlaid with the outbox. */
module Overlay {
  import opened Domain
  import opened StoreSpec

  type Marks = map<int, Pending>

  predicate ReadOverlaid(marks: Marks, id: int, row: Row) {
    row.status == if id in marks then Mark(marks[id].desired) else row.remoteStatus
  }

  predicate StarOverlaid(marks: Marks, id: int, row: Row) {
    row.starred == if id in marks then marks[id].desired else row.remoteStarred
  }

  predicate RowsOverlaid(rows: map<int, Row>, readMarks: Marks, starMarks: Marks) {
    forall id :: id in rows ==> ReadOverlaid(readMarks, id, rows[id]) && StarOverlaid(starMarks, id, rows[id])
  }

  predicate KnownStatus(status: Status) {
    status == Read || status == Unread
  }

  predicate RowsKnown(rows: map<int, Row>) {
    forall id :: id in rows ==> KnownStatus(rows[id].remoteStatus)
  }

  /** Each local value is the queued value if one is queued, the baseline otherwise. */
  predicate Overlaid(db: Db) {
    RowsOverlaid(db.entries, db.readMarks, db.starMarks)
  }

  /** Every outbox row belongs to a stored entry. */
  predicate Referenced(db: Db) {
    db.readMarks.Keys <= db.entries.Keys && db.starMarks.Keys <= db.entries.Keys
  }

  predicate Known(db: Db) {
    RowsKnown(db.entries)
  }

  predicate Sound(db: Db) {
    Referenced(db) && Overlaid(db) && Known(db)
  }

  // ---- Local edits ----------------------------------------------------

  lemma EditReadsKeepsSound(db: Db, wanted: map<int, bool>)
    requires Overlaid(db)
    ensures Overlaid(EditReads(db, wanted))
    ensures Sound(db) && wanted.Keys <= db.entries.Keys ==> Sound(EditReads(db, wanted))
  {
  }

  /** A committed read edit touches the overlay tables like the plain edit does. */
  lemma SetReadTables(db: Db, ids: seq<int>, read: bool, undoable: bool, batch: string)
    ensures var after := SetRead(db, ids, read, undoable, batch);
            var edited := EditReads(db, Uniform(Changed(db, ids, read), read));
            if SetReadCommits(db, ids, read, undoable, batch)
            then after == edited.(items := after.items, batches := after.batches)
            else after == db
  {
  }

  lemma SetReadKeepsSound(db: Db, ids: seq<int>, read: bool, undoable: bool, batch: string)
    requires Sound(db)
    ensures Sound(SetRead(db, ids, read, undoable, batch))
  {
    SetReadTables(db, ids, read, undoable, batch);
    EditReadsKeepsSound(db, Uniform(Changed(db, ids, read), read));
  }

  /** An undo re-queues recorded entries, which the journal took from the table. */
  lemma UndoKeepsSound(db: Db, batch: string)
    requires Sound(db)
    requires forall k :: k in db.items ==> k.entry in db.entries
    ensures Sound(Undo(db, batch))
  {
    EditReadsKeepsSound(db, Priors(db.items, batch));
  }

  /** Starring keeps the outbox attached to the table exactly for stored entries. */
  lemma SetStarredKeepsSound(db: Db, id: int, starred: bool)
    requires Sound(db)
    ensures Overlaid(SetStarred(db, id, starred)) && Known(SetStarred(db, id, starred))
    ensures Sound(SetStarred(db, id, starred)) <==> id in db.entries
  {
    var after := SetStarred(db, id, starred);
    assert id in after.starMarks;
    assert Overlaid(after);
  }

  // ---- Acknowledging --------------------------------------------------

  predicate Holds(row: Row, field: Field, value: bool) {
    match field
    case ReadField => row.status == Mark(value)
    case StarredField => row.starred == value
  }

  predicate BaselineHolds(row: Row, field: Field, value: bool) {
    match field
    case ReadField => row.remoteStatus == Mark(value)
    case StarredField => row.remoteStarred == value
  }

  /** What a delivery may rely on: the row read from the outbox is still there,
      possibly re-queued with a higher revision and another value. */
  predicate Deliverable(db: Db, m: Mutation) {
    var outbox := Outbox(db, m.field);
    && m.id in outbox
    && m.revision <= outbox[m.id].revision
    && (m.revision == outbox[m.id].revision ==> outbox[m.id].desired == m.desired)
  }

  /** An acknowledgement is safe when the row it deletes carries the delivered
      value, or when nothing was queued and the baseline does not move. */
  predicate SafeToAcknowledge(db: Db, m: Mutation)
    requires m.id in db.entries
  {
    var outbox := Outbox(db, m.field);
    if m.id in outbox
    then outbox[m.id].revision == m.revision ==> outbox[m.id].desired == m.desired
    else BaselineHolds(db.entries[m.id], m.field, m.desired)
  }

  lemma AcknowledgeKeepsOverlay(db: Db, m: Mutation)
    requires Overlaid(db) && m.id in db.entries
    ensures Overlaid(Acknowledge(db, m).value) <==> SafeToAcknowledge(db, m)
  {
    match m.field {
      case ReadField => AcknowledgeReadOverlay(db, m);
      case StarredField => AcknowledgeStarOverlay(db, m);
    }
  }

  lemma AcknowledgeReadOverlay(db: Db, m: Mutation)
    requires Overlaid(db) && m.id in db.entries && m.field == ReadField
    ensures Overlaid(AcknowledgeRead(db, m)) <==> SafeToAcknowledge(db, m)
  {
    var rows, marks := AcknowledgeRead(db, m).entries, Settle(db.readMarks, m);
    assert ReadOverlaid(db.readMarks, m.id, db.entries[m.id]);
    assert ReadOverlaid(marks, m.id, rows[m.id]) <==> SafeToAcknowledge(db, m);
    forall id | id in rows && id != m.id ensures ReadOverlaid(marks, id, rows[id]) {
      assert ReadOverlaid(db.readMarks, id, db.entries[id]);
    }
    forall id | id in rows ensures StarOverlaid(db.starMarks, id, rows[id]) {
      assert StarOverlaid(db.starMarks, id, db.entries[id]);
    }
  }

  lemma AcknowledgeStarOverlay(db: Db, m: Mutation)
    requires Overlaid(db) && m.id in db.entries && m.field == StarredField
    ensures Overlaid(AcknowledgeStar(db, m)) <==> SafeToAcknowledge(db, m)
  {
    var rows, marks := AcknowledgeStar(db, m).entries, Settle(db.starMarks, m);
    assert StarOverlaid(db.starMarks, m.id, db.entries[m.id]);
    assert StarOverlaid(marks, m.id, rows[m.id]) <==> SafeToAcknowledge(db, m);
    forall id | id in rows && id != m.id ensures StarOverlaid(marks, id, rows[id]) {
      assert StarOverlaid(db.starMarks, id, db.entries[id]);
    }
    forall id | id in rows ensures ReadOverlaid(db.readMarks, id, rows[id]) {
      assert ReadOverlaid(db.readMarks, id, db.entries[id]);
    }
  }

  lemma AcknowledgeKeepsSound(db: Db, m: Mutation)
    requires Sound(db) && Deliverable(db, m)
    ensures Acknowledge(db, m).Success? && Sound(Acknowledge(db, m).value)
  {
    AcknowledgeKeepsOverlay(db, m);
  }

  // ---- Applying a refresh ---------------------------------------------

  predicate Agrees(db: Db, e: Entry) {
    && (e.id in db.readMarks ==> e.status == Mark(db.readMarks[e.id].desired))
    && (e.id in db.starMarks ==> e.starred == db.starMarks[e.id].desired)
  }

  /** An entry inserted for the first time takes the fetched values even when
      something is queued for it; nothing breaks when the two agree. */
  predicate InsertsAgree(db: Db, entries: seq<Entry>) {
    forall i :: 0 <= i < |entries| && entries[i].id !in db.entries && entries[i].id !in Ids(entries[..i]) ==>
      Agrees(db, entries[i])
  }

  lemma InsertsAgreeSnoc(db: Db, entries: seq<Entry>)
    requires entries != []
    ensures var front, e := entries[..|entries| - 1], entries[|entries| - 1];
            InsertsAgree(db, entries) <==>
            InsertsAgree(db, front) && (e.id !in db.entries && e.id !in Ids(front) ==> Agrees(db, e))
  {
    var last := |entries| - 1;
    forall i | 0 <= i < last ensures entries[..last][..i] == entries[..i] {
    }
  }

  lemma ReconcileKeepsOverlay(db: Db, selection: Selection, fetched: set<int>)
    requires Overlaid(db)
    ensures RowsOverlaid(ReconcileRows(db, selection, fetched), db.readMarks, db.starMarks)
  {
    forall id | id in db.entries
      ensures ReadOverlaid(db.readMarks, id, ReconcileRow(db, selection, fetched, id))
      ensures StarOverlaid(db.starMarks, id, ReconcileRow(db, selection, fetched, id))
    {
      assert ReadOverlaid(db.readMarks, id, db.entries[id]) && StarOverlaid(db.starMarks, id, db.entries[id]);
    }
  }

  lemma {:induction false} UpsertAllKeys(db: Db, rows: map<int, Row>, entries: seq<Entry>)
    ensures UpsertAll(db, rows, entries).Keys == rows.Keys + Ids(entries)
  {
    if entries != [] {
      var last := |entries| - 1;
      UpsertAllKeys(db, rows, entries[..last]);
      assert entries == entries[..last] + [entries[last]];
    }
  }

  /** While entries arrive, a row can only disagree with a queued value. */
  predicate OnlyQueuedDisagree(db: Db, rows: map<int, Row>) {
    forall id :: id in rows ==>
      (id in db.readMarks || ReadOverlaid(db.readMarks, id, rows[id]))
      && (id in db.starMarks || StarOverlaid(db.starMarks, id, rows[id]))
  }

  lemma UpsertOneOverlay(db: Db, before: map<int, Row>, e: Entry)
    requires OnlyQueuedDisagree(db, before)
    ensures var after := before[e.id := UpsertRow(db, before, e)];
            && OnlyQueuedDisagree(db, after)
            && (RowsOverlaid(after, db.readMarks, db.starMarks) <==>
                RowsOverlaid(before, db.readMarks, db.starMarks) && (e.id in before || Agrees(db, e)))
  {
    var row := UpsertRow(db, before, e);
    var after := before[e.id := row];
    if e.id in before {
      assert ReadOverlaid(db.readMarks, e.id, row) <==> ReadOverlaid(db.readMarks, e.id, before[e.id]);
      assert StarOverlaid(db.starMarks, e.id, row) <==> StarOverlaid(db.starMarks, e.id, before[e.id]);
    } else {
      assert ReadOverlaid(db.readMarks, e.id, row) && StarOverlaid(db.starMarks, e.id, row) <==> Agrees(db, e);
    }
    assert forall id :: id in before && id != e.id ==> after[id] == before[id];
  }

  lemma {:induction false} UpsertAllOverlay(db: Db, rows: map<int, Row>, entries: seq<Entry>)
    requires rows.Keys == db.entries.Keys && RowsOverlaid(rows, db.readMarks, db.starMarks)
    ensures OnlyQueuedDisagree(db, UpsertAll(db, rows, entries))
    ensures RowsOverlaid(UpsertAll(db, rows, entries), db.readMarks, db.starMarks) <==> InsertsAgree(db, entries)
  {
    if entries != [] {
      var last := |entries| - 1;
      var front, e := entries[..last], entries[last];
      UpsertAllOverlay(db, rows, front);
      UpsertAllKeys(db, rows, front);
      InsertsAgreeSnoc(db, entries);
      UpsertOneOverlay(db, UpsertAll(db, rows, front), e);
    }
  }

  /** A refresh keeps the overlay exactly when first-time inserts agree with the outbox. */
  lemma ApplyKeepsOverlay(db: Db, snapshot: Snapshot)
    requires Overlaid(db) && Apply(db, snapshot).Success?
    ensures Overlaid(Apply(db, snapshot).value) <==> InsertsAgree(db, snapshot.entries)
  {
    var selection := Normalize(snapshot.selection);
    if Reconciles(snapshot) {
      ReconcileKeepsOverlay(db, selection, Ids(snapshot.entries));
      UpsertAllOverlay(db, ReconcileRows(db, selection, Ids(snapshot.entries)), snapshot.entries);
    } else {
      UpsertAllOverlay(db, db.entries, snapshot.entries);
    }
  }

  /** With an attached outbox every refresh is safe. */
  lemma AttachedOutboxAgrees(db: Db, entries: seq<Entry>)
    requires Referenced(db)
    ensures InsertsAgree(db, entries)
  {
  }

  lemma {:induction false} UpsertAllKnown(db: Db, rows: map<int, Row>, entries: seq<Entry>)
    requires RowsKnown(rows) && forall e :: e in entries ==> KnownStatus(e.status)
    ensures RowsKnown(UpsertAll(db, rows, entries))
  {
    if entries != [] {
      UpsertAllKnown(db, rows, entries[..|entries| - 1]);
    }
  }

  lemma ApplyKeepsSound(db: Db, snapshot: Snapshot)
    requires Sound(db) && Apply(db, snapshot).Success?
    requires forall e :: e in snapshot.entries ==> KnownStatus(e.status)
    ensures Sound(Apply(db, snapshot).value)
  {
    AttachedOutboxAgrees(db, snapshot.entries);
    ApplyKeepsOverlay(db, snapshot);
    var rows := if Reconciles(snapshot)
                then ReconcileRows(db, Normalize(snapshot.selection), Ids(snapshot.entries)) else db.entries;
    UpsertAllKnown(db, rows, snapshot.entries);
    UpsertAllKeys(db, rows, snapshot.entries);
  }

  /** Starring an entry that was never stored, then refreshing it in, shows the
      fetched value although the opposite is queued. */
  lemma StarOfMissingEntryIsLost()
    ensures var queued := SetStarred(EmptyDb(), 7, true);
            var fetched := Entry(7, 1, 1, "", Unread, false);
            var applied := Apply(queued, Snapshot(AllEntries(0, true), [fetched], [], 1, 0));
            Overlaid(queued) && applied.Success?
            && applied.value.starMarks[7].desired && !applied.value.entries[7].starred
  {
    var queued := SetStarred(EmptyDb(), 7, true);
    var fetched := Entry(7, 1, 1, "", Unread, false);
    assert 7 in queued.starMarks;
    var snapshot := Snapshot(AllEntries(0, true), [fetched], [], 1, 0);
    var rows := ReconcileRows(queued, AllEntries(0, true), Ids([fetched]));
    assert [fetched][..0] == [];
    assert UpsertAll(queued, rows, []) == rows;
    assert UpsertAll(queued, rows, [fetched]) == rows[7 := UpsertRow(queued, rows, fetched)];
    assert InsertCategories([]) == Success(NavTables(map[], map[]));
    assert Apply(queued, snapshot).value.entries == UpsertAll(queued, rows, [fetched]);
  }
}
