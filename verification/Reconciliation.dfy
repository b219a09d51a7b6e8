/** What a refresh changes: fetched rows, and rows a complete fetch proves gone. */
module Reconciliation {
  import opened Domain
  import opened StoreSpec
  import opened Overlay

  /** The remote side of a selection: what a complete fetch returns. */
  predicate RemoteMatches(selection: Selection, feedId: int, categoryId: int, status: Status, starred: bool) {
    && Within(ScopeOf(selection), feedId, categoryId)
    && (UnreadOnly(selection) ==> status == Unread)
    && (selection.StarredEntries? ==> starred)
  }

  predicate BaselineMatches(selection: Selection, row: Row) {
    RemoteMatches(selection, row.feedId, row.categoryId, row.remoteStatus, row.remoteStarred)
  }

  predicate EntryMatches(selection: Selection, e: Entry) {
    RemoteMatches(selection, e.feedId, e.categoryId, e.status, e.starred)
  }

  /** The rows the fetched entries are written over. */
  function BaseRows(db: Db, snapshot: Snapshot): map<int, Row> {
    if Reconciles(snapshot)
    then ReconcileRows(db, Normalize(snapshot.selection), Ids(snapshot.entries)) else db.entries
  }

  lemma IdsSnoc(front: seq<Entry>, last: Entry)
    ensures Ids(front + [last]) == Ids(front) + {last.id}
  {
    forall id ensures id in Ids(front + [last]) <==> id in Ids(front) + {last.id} {
      assert last in front + [last];
      if id in Ids(front) {
        var e :| e in front && e.id == id;
        assert e in front + [last];
      }
    }
  }

  lemma {:induction false} UpsertAllRow(db: Db, rows: map<int, Row>, entries: seq<Entry>, id: int)
    requires DistinctIds(entries)
    ensures id in UpsertAll(db, rows, entries) <==> id in rows || id in Ids(entries)
    ensures id in rows && id !in Ids(entries) ==> UpsertAll(db, rows, entries)[id] == rows[id]
    ensures forall e :: e in entries && e.id == id ==>
      UpsertAll(db, rows, entries)[id] == UpsertRow(db, rows, e)
  {
    if entries != [] {
      var last := |entries| - 1;
      var front := entries[..last];
      UpsertAllRow(db, rows, front, id);
      UpsertAllRow(db, rows, front, entries[last].id);
      IdsSnoc(front, entries[last]);
      assert entries == front + [entries[last]];
      assert forall e :: e in front ==> e.id != entries[last].id;
      assert UpsertRow(db, UpsertAll(db, rows, front), entries[last]) == UpsertRow(db, rows, entries[last]);
    }
  }

  /** Fetched rows take the remote baseline and keep queued local values; every
      other stored row is the reconciled one. */
  lemma AppliedRow(db: Db, snapshot: Snapshot, id: int)
    requires Apply(db, snapshot).Success? && DistinctIds(snapshot.entries)
    ensures var rows := Apply(db, snapshot).value.entries;
            && (id in rows <==> id in db.entries || id in Ids(snapshot.entries))
            && (id in db.entries && id !in Ids(snapshot.entries) ==> rows[id] == BaseRows(db, snapshot)[id])
            && (forall e :: e in snapshot.entries && e.id == id ==>
                  rows[id] == UpsertRow(db, BaseRows(db, snapshot), e))
  {
    UpsertAllRow(db, BaseRows(db, snapshot), snapshot.entries, id);
  }

  /** A queued value survives any refresh of a stored entry. */
  lemma QueuedValuesSurvive(db: Db, snapshot: Snapshot, id: int)
    requires Apply(db, snapshot).Success? && DistinctIds(snapshot.entries) && id in db.entries
    ensures var rows := Apply(db, snapshot).value.entries;
            && id in rows
            && (id in db.readMarks ==> rows[id].status == db.entries[id].status)
            && (id in db.starMarks ==> rows[id].starred == db.entries[id].starred)
  {
    AppliedRow(db, snapshot, id);
    if id in Ids(snapshot.entries) {
      var e :| e in snapshot.entries && e.id == id;
    }
  }

  /** An incomplete fetch says nothing about the rows it does not contain. */
  lemma IncompleteReconcilesNothing(db: Db, snapshot: Snapshot, id: int)
    requires Apply(db, snapshot).Success? && DistinctIds(snapshot.entries)
    requires snapshot.total > |snapshot.entries|
    requires id in db.entries && id !in Ids(snapshot.entries)
    ensures var rows := Apply(db, snapshot).value.entries; id in rows && rows[id] == db.entries[id]
  {
    AppliedRow(db, snapshot, id);
  }

  /** An unread row that starred-and-unread reconciliation wrongly covers. */
  predicate Spilled(db: Db, snapshot: Snapshot, id: int) {
    && id in db.entries && id !in Ids(snapshot.entries)
    && db.entries[id].remoteStatus == Unread && !db.entries[id].remoteStarred
  }

  /** A stored row the complete fetch neither returned nor covers. */
  predicate Outside(db: Db, snapshot: Snapshot, id: int) {
    && id in db.entries && id !in Ids(snapshot.entries)
    && !BaselineMatches(Normalize(snapshot.selection), db.entries[id])
  }

  ghost predicate OutsideRowsKept(db: Db, snapshot: Snapshot)
    requires Apply(db, snapshot).Success?
  {
    var rows := Apply(db, snapshot).value.entries;
    forall id :: Outside(db, snapshot, id) ==> id in rows && rows[id] == db.entries[id]
  }

  /** The selection whose reconciliation ignores its own starred filter. */
  predicate IgnoresStars(selection: Selection) {
    selection.StarredEntries? && selection.unreadOnly
  }

  lemma OutsideRowKept(db: Db, snapshot: Snapshot, id: int)
    requires Apply(db, snapshot).Success? && Reconciles(snapshot) && Outside(db, snapshot, id)
    ensures var rows := Apply(db, snapshot).value.entries;
            && id in rows
            && (rows[id] == db.entries[id] <==>
                !(IgnoresStars(Normalize(snapshot.selection)) && Spilled(db, snapshot, id)))
  {
    AppliedRow(db, snapshot, id);
  }

  /** A complete fetch leaves rows outside the selection alone, except that the
      starred-and-unread selection also clears unread rows without a star. */
  lemma OutsideRowsKeptExactly(db: Db, snapshot: Snapshot)
    requires Apply(db, snapshot).Success? && Reconciles(snapshot)
    ensures OutsideRowsKept(db, snapshot) <==>
            (IgnoresStars(Normalize(snapshot.selection)) ==> forall id :: !Spilled(db, snapshot, id))
  {
    forall id | Outside(db, snapshot, id)
      ensures var rows := Apply(db, snapshot).value.entries;
              && id in rows
              && (rows[id] == db.entries[id] <==>
                  !(IgnoresStars(Normalize(snapshot.selection)) && Spilled(db, snapshot, id)))
    {
      OutsideRowKept(db, snapshot, id);
    }
    forall id | Spilled(db, snapshot, id) && IgnoresStars(Normalize(snapshot.selection))
      ensures Outside(db, snapshot, id)
    {
    }
  }

  /** After a complete fetch the baselines in the selection are exactly the
      fetched entries of the selection. */
  lemma ReconciledExactly(db: Db, snapshot: Snapshot, id: int)
    requires Apply(db, snapshot).Success? && Reconciles(snapshot)
    ensures var rows := Apply(db, snapshot).value.entries;
            var selection := Normalize(snapshot.selection);
            (id in rows && BaselineMatches(selection, rows[id])) <==>
            exists e :: e in snapshot.entries && e.id == id && EntryMatches(selection, e)
  {
    AppliedRow(db, snapshot, id);
    if id in Ids(snapshot.entries) {
      var e :| e in snapshot.entries && e.id == id;
    }
  }

  /** A row that left the selection keeps a queued local value and otherwise
      follows its new baseline. */
  lemma LeavingRowFollowsBaseline(db: Db, snapshot: Snapshot, id: int)
    requires Apply(db, snapshot).Success? && Reconciles(snapshot)
    requires id in db.entries && id !in Ids(snapshot.entries)
    requires BaselineMatches(Normalize(snapshot.selection), db.entries[id])
    ensures var before, rows := db.entries[id], Apply(db, snapshot).value.entries;
            id in rows && rows[id] ==
                     if UnreadOnly(Normalize(snapshot.selection))
                     then before.(remoteStatus := Read, status := if id in db.readMarks then before.status else Read)
                     else before.(
                             remoteStarred := false,
                             starred := if id in db.starMarks then before.starred else false)
  {
    AppliedRow(db, snapshot, id);
  }

  /** Refreshing the starred-and-unread list marks an unrelated unread article
      read although nobody touched it. */
  lemma StarredUnreadRefreshSpills()
    ensures var row := Row(1, 1, "", Unread, false, Unread, false);
            var db := EmptyDb().(entries := map[5 := row]);
            var applied := Apply(db, Snapshot(StarredEntries(true), [], [], 0, 0));
            Sound(db) && applied.Success?
            && !BaselineMatches(StarredEntries(true), row)
            && applied.value.entries[5].status == Read
  {
    var row := Row(1, 1, "", Unread, false, Unread, false);
    var db := EmptyDb().(entries := map[5 := row]);
    var snapshot := Snapshot(StarredEntries(true), [], [], 0, 0);
    assert InsertCategories([]) == Success(NavTables(map[], map[]));
    AppliedRow(db, snapshot, 5);
  }
}
