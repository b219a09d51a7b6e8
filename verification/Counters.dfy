/** Counts are patched, never recounted: when the patches agree with a recount. */
module Counters {
  import opened Collections
  import opened Domain
  import opened StoreSpec
  import opened Overlay
  import opened Reconciliation

  // ---- The divergence equals the difference of two recounts ------------

  function LocalUnread(db: Db, scope: Scope): set<int> {
    set id | id in db.entries && Within(scope, db.entries[id].feedId, db.entries[id].categoryId)
      && db.entries[id].status == Unread
  }

  function RemoteUnread(db: Db, scope: Scope): set<int> {
    set id | id in db.entries && Within(scope, db.entries[id].feedId, db.entries[id].categoryId)
      && db.entries[id].remoteStatus == Unread
  }

  function LocalStarred(db: Db): set<int> {
    set id | id in db.entries && db.entries[id].starred
  }

  function RemoteStarred(db: Db): set<int> {
    set id | id in db.entries && db.entries[id].remoteStarred
  }

  /** Membership in `local` is membership in `remote`, but for gains and losses. */
  predicate Swapped(remote: set<int>, local: set<int>, gained: set<int>, lost: set<int>, id: int) {
    && (id in local <==> (id in remote && id !in lost) || id in gained)
    && (id in lost ==> id in remote)
    && (id in gained ==> id !in remote)
  }

  lemma SwapCount(remote: set<int>, local: set<int>, gained: set<int>, lost: set<int>)
    requires forall id :: Swapped(remote, local, gained, lost, id)
    ensures |local| == |remote| + |gained| - |lost|
  {
    forall id ensures (id in local <==> id in remote - lost + gained) && (id in lost ==> id in remote) {
      assert Swapped(remote, local, gained, lost, id);
    }
    forall id | id in gained ensures id !in remote {
      assert Swapped(remote, local, gained, lost, id);
    }
    assert lost <= remote && gained !! remote - lost;
    assert local == remote - lost + gained;
  }

  lemma ReadDeltaIsRecount(db: Db, scope: Scope)
    requires Overlaid(db) && Known(db)
    ensures ReadDelta(db, scope) == |LocalUnread(db, scope)| - |RemoteUnread(db, scope)|
  {
    var remote, local := RemoteUnread(db, scope), LocalUnread(db, scope);
    var gained, lost := GainedReads(db, scope), LostReads(db, scope);
    forall id ensures Swapped(remote, local, gained, lost, id) {
      ReadDeltaAt(db, scope, id);
    }
    SwapCount(remote, local, gained, lost);
  }

  lemma ReadDeltaAt(db: Db, scope: Scope, id: int)
    requires Overlaid(db) && Known(db)
    ensures Swapped(RemoteUnread(db, scope), LocalUnread(db, scope), GainedReads(db, scope), LostReads(db, scope), id)
  {
    if id in db.entries {
      assert ReadOverlaid(db.readMarks, id, db.entries[id]);
    }
  }

  lemma StarDeltaIsRecount(db: Db)
    requires Overlaid(db)
    ensures StarDelta(db) == |LocalStarred(db)| - |RemoteStarred(db)|
  {
    var remote, local := RemoteStarred(db), LocalStarred(db);
    var gained, lost := GainedStars(db), LostStars(db);
    forall id ensures Swapped(remote, local, gained, lost, id) {
      if id in db.entries {
        assert StarOverlaid(db.starMarks, id, db.entries[id]);
      }
    }
    SwapCount(remote, local, gained, lost);
  }

  // ---- Delivery is invisible -------------------------------------------

  predicate CountersNonNegative(db: Db) {
    && db.starredTotal >= 0
    && (forall f :: f in db.feeds ==> db.feeds[f].unread >= 0)
    && (forall k :: k in db.totals ==> db.totals[k] >= 0)
  }

  function Delivered(db: Db, m: Mutation): Db
    requires m.id in db.entries
  {
    Acknowledge(db, m).value
  }

  /** The shift a delivery applies to the stored counters of its entry. */
  function Shift(db: Db, m: Mutation): int
    requires m.id in db.entries
  {
    match m.field
    case ReadField => ReadShift(db.entries[m.id].remoteStatus, m.desired)
    case StarredField => StarShift(db.entries[m.id].remoteStarred, m.desired)
  }

  lemma DeliveredReadRow(db: Db, m: Mutation)
    requires m.id in db.entries && m.field == ReadField
    ensures var after := Delivered(db, m);
            && after.entries == db.entries[m.id := db.entries[m.id].(remoteStatus := Mark(m.desired))]
            && after.readMarks == Settle(db.readMarks, m)
  {
  }

  lemma DeliveredStarRow(db: Db, m: Mutation)
    requires m.id in db.entries && m.field == StarredField
    ensures var after := Delivered(db, m);
            && after.entries == db.entries[m.id := db.entries[m.id].(remoteStarred := m.desired)]
            && after.starMarks == Settle(db.starMarks, m)
  {
  }

  lemma ReadDeltaMoves(db: Db, after: Db, scope: Scope, id: int)
    requires id in db.entries && after.entries.Keys == db.entries.Keys
    requires forall i :: i in db.entries && i != id ==> after.entries[i] == db.entries[i]
    requires after.readMarks.Keys - {id} == db.readMarks.Keys - {id}
    ensures ReadDelta(after, scope) - ReadDelta(db, scope) ==
              (if id in GainedReads(after, scope) then 1 else 0) - (if id in GainedReads(db, scope) then 1 else 0)
              - (if id in LostReads(after, scope) then 1 else 0) + (if id in LostReads(db, scope) then 1 else 0)
  {
    forall i | i != id
      ensures i in GainedReads(after, scope) <==> i in GainedReads(db, scope)
      ensures i in LostReads(after, scope) <==> i in LostReads(db, scope)
    {
      assert i in after.readMarks.Keys - {id} <==> i in db.readMarks.Keys - {id};
      assert i in after.entries.Keys <==> i in db.entries.Keys;
    }
    CountShift(GainedReads(db, scope), GainedReads(after, scope), id);
    CountShift(LostReads(db, scope), LostReads(after, scope), id);
  }

  lemma StarDeltaMoves(db: Db, after: Db, id: int)
    requires id in db.entries && after.entries.Keys == db.entries.Keys
    requires forall i :: i in db.entries && i != id ==> after.entries[i] == db.entries[i]
    requires after.starMarks.Keys - {id} == db.starMarks.Keys - {id}
    ensures StarDelta(after) - StarDelta(db) ==
              (if id in GainedStars(after) then 1 else 0) - (if id in GainedStars(db) then 1 else 0)
              - (if id in LostStars(after) then 1 else 0) + (if id in LostStars(db) then 1 else 0)
  {
    forall i | i != id
      ensures i in GainedStars(after) <==> i in GainedStars(db)
      ensures i in LostStars(after) <==> i in LostStars(db)
    {
      assert i in after.starMarks.Keys - {id} <==> i in db.starMarks.Keys - {id};
      assert i in after.entries.Keys <==> i in db.entries.Keys;
    }
    CountShift(GainedStars(db), GainedStars(after), id);
    CountShift(LostStars(db), LostStars(after), id);
  }

  /** Moving a baseline moves the pending divergence the other way. An unknown
      baseline moves no counter, so a superseded delivery over it shows. */
  lemma ReadDeltaShifts(db: Db, m: Mutation, scope: Scope)
    requires Overlaid(db) && Deliverable(db, m) && m.field == ReadField && m.id in db.entries
    requires Within(scope, db.entries[m.id].feedId, db.entries[m.id].categoryId)
    ensures ReadDelta(Delivered(db, m), scope) == ReadDelta(db, scope) - Shift(db, m) <==>
            KnownStatus(db.entries[m.id].remoteStatus) || db.readMarks[m.id].desired == m.desired
  {
    var row, after := db.entries[m.id], Delivered(db, m);
    assert ReadOverlaid(db.readMarks, m.id, row);
    DeliveredReadRow(db, m);
    ReadDeltaMoves(db, after, scope, m.id);
    assert m.id in GainedReads(db, scope) <==> row.status == Unread && row.remoteStatus == Read;
    assert m.id in LostReads(db, scope) <==> row.status == Read && row.remoteStatus == Unread;
    assert m.id in GainedReads(after, scope) <==> row.status == Unread && m.desired;
    assert m.id in LostReads(after, scope) <==> row.status == Read && !m.desired;
  }

  lemma ReadDeltaElsewhere(db: Db, m: Mutation, scope: Scope)
    requires m.id in db.entries
    requires m.field == StarredField || !Within(scope, db.entries[m.id].feedId, db.entries[m.id].categoryId)
    ensures ReadDelta(Delivered(db, m), scope) == ReadDelta(db, scope)
  {
    var after := Delivered(db, m);
    assert GainedReads(after, scope) == GainedReads(db, scope);
    assert LostReads(after, scope) == LostReads(db, scope);
  }

  lemma StarDeltaShifts(db: Db, m: Mutation)
    requires Overlaid(db) && Deliverable(db, m) && m.id in db.entries
    ensures StarDelta(Delivered(db, m)) == StarDelta(db) - (if m.field == StarredField then Shift(db, m) else 0)
  {
    var row, after := db.entries[m.id], Delivered(db, m);
    assert StarOverlaid(db.starMarks, m.id, row);
    if m.field == StarredField {
      DeliveredStarRow(db, m);
      StarDeltaMoves(db, after, m.id);
      assert m.id in GainedStars(db) <==> row.starred && !row.remoteStarred;
      assert m.id in LostStars(db) <==> !row.starred && row.remoteStarred;
      assert m.id in GainedStars(after) <==> row.starred && !m.desired;
      assert m.id in LostStars(after) <==> !row.starred && m.desired;
    } else {
      DeliveredReadRow(db, m);
      assert GainedStars(after) == GainedStars(db) && LostStars(after) == LostStars(db);
    }
  }

  /** The clamp at zero loses a decrement that the divergence still contains. */
  predicate ClampShows(count: int, delta: int, shift: int) {
    shift == -1 && count == 0 && delta >= 0
  }

  lemma ShownCountShifts(count: int, delta: int, shift: int)
    requires count >= 0 && -1 <= shift <= 1
    ensures Max(0, Shifted(count, shift) + delta - shift) ==
            Max(0, count + delta) + if ClampShows(count, delta, shift) then 1 else 0
  {
  }

  lemma SameShownRows(db: Db, after: Db, selection: Selection, retained: seq<int>)
    requires after.entries.Keys == db.entries.Keys
    requires forall id :: id in db.entries ==> ShownRow(after.entries[id]) == ShownRow(db.entries[id])
    ensures ShownRows(after, selection, retained) == ShownRows(db, selection, retained)
    ensures Matching(after, selection) == Matching(db, selection)
  {
    var before, shown := ShownRows(db, selection, retained), ShownRows(after, selection, retained);
    forall id
      ensures id in Matching(after, selection) <==> id in Matching(db, selection)
      ensures id in before <==> id in shown
      ensures id in before ==> before[id] == shown[id]
    {
      assert id in after.entries.Keys <==> id in db.entries.Keys;
      if id in db.entries {
        assert ShownRow(after.entries[id]) == ShownRow(db.entries[id]);
      }
    }
    assert before == shown;
  }

  /** The article list, with or without retained rows, hides a delivery. */
  lemma DeliveryKeepsRows(db: Db, m: Mutation, selection: Selection, retained: seq<int>)
    requires m.id in db.entries
    ensures ShownRows(Delivered(db, m), selection, retained) == ShownRows(db, selection, retained)
    ensures Matching(Delivered(db, m), selection) == Matching(db, selection)
  {
    match m.field {
      case ReadField => DeliveredReadRow(db, m);
      case StarredField => DeliveredStarRow(db, m);
    }
    SameShownRows(db, Delivered(db, m), selection, retained);
  }

  /** A delivered row can be acknowledged over a known baseline; the rest of the
      outbox may hold anything, orphans included. */
  predicate Acknowledgeable(db: Db, m: Mutation) {
    && Overlaid(db) && Deliverable(db, m)
    && m.id in db.entries && KnownStatus(db.entries[m.id].remoteStatus)
  }

  predicate FeedClamps(db: Db, m: Mutation, feed: int)
    requires m.id in db.entries && feed in db.feeds
  {
    && m.field == ReadField && feed == db.entries[m.id].feedId
    && ClampShows(db.feeds[feed].unread, ReadDelta(db, InFeed(feed)), Shift(db, m))
  }

  lemma DeliveryKeepsFeedCount(db: Db, m: Mutation, feed: int)
    requires Acknowledgeable(db, m) && CountersNonNegative(db) && feed in db.feeds
    ensures feed in Delivered(db, m).feeds
    ensures ShownUnread(Delivered(db, m), feed) ==
            ShownUnread(db, feed) + if FeedClamps(db, m, feed) then 1 else 0
  {
    if m.field == ReadField && feed == db.entries[m.id].feedId {
      ReadDeltaShifts(db, m, InFeed(feed));
      ShownCountShifts(db.feeds[feed].unread, ReadDelta(db, InFeed(feed)), Shift(db, m));
    } else {
      ReadDeltaElsewhere(db, m, InFeed(feed));
    }
  }

  function FeedRise(db: Db, m: Mutation, feed: int): int
    requires m.id in db.entries
  {
    if feed in db.feeds && FeedClamps(db, m, feed) then 1 else 0
  }

  /** What a delivery over an unknown baseline adds to a shown count. */
  function UnknownRise(db: Db, m: Mutation): int
    requires m.id in db.readMarks
  {
    if db.readMarks[m.id].desired == m.desired then 0 else if m.desired then 1 else -1
  }

  /** Over an unknown baseline no stored counter moves, so the count shown for the
      entry's feed moves by exactly what the delivery leaves superseded. */
  lemma UnknownBaselineShows(db: Db, m: Mutation)
    requires Overlaid(db) && Deliverable(db, m) && m.field == ReadField && m.id in db.entries
    requires !KnownStatus(db.entries[m.id].remoteStatus) && db.entries[m.id].feedId in db.feeds
    ensures var feed := db.entries[m.id].feedId;
            && feed in Delivered(db, m).feeds
            && ShownUnread(Delivered(db, m), feed) ==
               Max(0, db.feeds[feed].unread + ReadDelta(db, InFeed(feed)) + UnknownRise(db, m))
  {
    var row, after := db.entries[m.id], Delivered(db, m);
    var scope := InFeed(row.feedId);
    assert ReadOverlaid(db.readMarks, m.id, row);
    DeliveredReadRow(db, m);
    ReadDeltaMoves(db, after, scope, m.id);
    assert m.id !in GainedReads(db, scope) && m.id !in LostReads(db, scope);
    assert m.id in GainedReads(after, scope) <==> row.status == Unread && m.desired;
    assert m.id in LostReads(after, scope) <==> row.status == Read && !m.desired;
  }

  lemma DeliveryKeepsFeedTable(db: Db, m: Mutation)
    requires m.id in db.entries
    ensures var after := Delivered(db, m);
            && after.categories == db.categories && after.feeds.Keys == db.feeds.Keys
            && forall f :: f in db.feeds ==> after.feeds[f].categoryId == db.feeds[f].categoryId
  {
  }

  lemma DeliveryKeepsCategoryCount(db: Db, m: Mutation, category: int)
    requires Acknowledgeable(db, m) && CountersNonNegative(db)
    ensures var feed := db.entries[m.id].feedId;
            SumMap(FeedCounts(Delivered(db, m), category)) == SumMap(FeedCounts(db, category)) +
            if feed in db.feeds && db.feeds[feed].categoryId == category then FeedRise(db, m, feed) else 0
  {
    var feed := db.entries[m.id].feedId;
    var counts, counts' := FeedCounts(db, category), FeedCounts(Delivered(db, m), category);
    DeliveryKeepsFeedTable(db, m);
    forall f | f in counts ensures f in counts' && counts'[f] == counts[f] + FeedRise(db, m, f) {
      DeliveryKeepsFeedCount(db, m, f);
    }
    assert counts'.Keys == counts.Keys;
    SumMapShift(counts, counts', feed, FeedRise(db, m, feed));
  }

  /** The unread total moves exactly when the entry's own listed feed clamps. */
  lemma DeliveryKeepsUnreadTotal(db: Db, m: Mutation)
    requires Acknowledgeable(db, m) && CountersNonNegative(db)
    ensures var feed := db.entries[m.id].feedId;
            UnreadTotal(Delivered(db, m)) == UnreadTotal(db) +
            if feed in db.feeds && db.feeds[feed].categoryId in db.categories then FeedRise(db, m, feed) else 0
  {
    var feed := db.entries[m.id].feedId;
    var counts, counts' := CategoryCounts(db), CategoryCounts(Delivered(db, m));
    DeliveryKeepsFeedTable(db, m);
    forall c | c in counts
      ensures c in counts' && counts'[c] == counts[c] +
        if feed in db.feeds && db.feeds[feed].categoryId == c then FeedRise(db, m, feed) else 0
    {
      DeliveryKeepsCategoryCount(db, m, c);
    }
    if feed in db.feeds {
      SumMapShift(counts, counts', db.feeds[feed].categoryId, FeedRise(db, m, feed));
    } else {
      assert counts' == counts;
    }
  }

  lemma DeliveryKeepsStarred(db: Db, m: Mutation)
    requires Acknowledgeable(db, m) && CountersNonNegative(db)
    ensures ShownStarred(Delivered(db, m)) == ShownStarred(db) +
            if m.field == StarredField && ClampShows(db.starredTotal, StarDelta(db), Shift(db, m)) then 1 else 0
  {
    StarDeltaShifts(db, m);
    if m.field == StarredField {
      ShownCountShifts(db.starredTotal, StarDelta(db), Shift(db, m));
    }
  }

  /** Whether a delivery moves the stored total of a selection. */
  predicate MovesTotal(db: Db, m: Mutation, selection: Selection)
    requires m.id in db.entries
  {
    match m.field
    case ReadField =>
      !selection.StarredEntries? && UnreadOnly(selection)
      && Within(ScopeOf(selection), db.entries[m.id].feedId, db.entries[m.id].categoryId)
    case StarredField => selection.StarredEntries?
  }

  predicate TotalClamps(db: Db, m: Mutation, selection: Selection)
    requires m.id in db.entries && Key(selection) in db.totals
  {
    && MovesTotal(db, m, selection)
    && ClampShows(db.totals[Key(selection)], PendingDelta(db, selection), Shift(db, m))
    && |Matching(db, selection)| <= PendingDelta(db, selection)
  }

  lemma DeliveryMovesTotal(db: Db, m: Mutation, selection: Selection)
    requires m.id in db.entries && selection == Normalize(selection) && Key(selection) in db.totals
    ensures Key(selection) in Delivered(db, m).totals
    ensures Delivered(db, m).totals[Key(selection)] ==
            if MovesTotal(db, m, selection) then Shifted(db.totals[Key(selection)], Shift(db, m))
            else db.totals[Key(selection)]
  {
  }

  lemma DeliveryMovesDelta(db: Db, m: Mutation, selection: Selection)
    requires Acknowledgeable(db, m)
    ensures PendingDelta(Delivered(db, m), selection) ==
            PendingDelta(db, selection) - if MovesTotal(db, m, selection) then Shift(db, m) else 0
  {
    if selection.StarredEntries? {
      StarDeltaShifts(db, m);
    } else if MovesTotal(db, m, selection) {
      ReadDeltaShifts(db, m, ScopeOf(selection));
    } else if UnreadOnly(selection) {
      ReadDeltaElsewhere(db, m, ScopeOf(selection));
    }
  }

  /** Every selection's shown total stays, or rises by one where its stored
      total was clamped and the local rows do not already account for it. */
  lemma DeliveryKeepsTotal(db: Db, m: Mutation, selection: Selection)
    requires Acknowledgeable(db, m) && CountersNonNegative(db)
    requires selection == Normalize(selection)
    ensures ShownTotal(Delivered(db, m), selection) == ShownTotal(db, selection) +
            if Key(selection) in db.totals && TotalClamps(db, m, selection) then 1 else 0
  {
    DeliveryKeepsRows(db, m, selection, []);
    if Key(selection) in db.totals {
      DeliveryMovesTotal(db, m, selection);
      DeliveryMovesDelta(db, m, selection);
      if MovesTotal(db, m, selection) {
        ShownCountShifts(db.totals[Key(selection)], PendingDelta(db, selection), Shift(db, m));
      }
    }
  }

  // ---- Two deliveries that show ------------------------------------------

  function OneEntry(row: Row, unread: int): Db {
    EmptyDb().(
      entries := map[5 := row], readMarks := map[5 := Pending(false, 2)], feeds := map[1 := FeedRow(1, "", unread)])
  }

  /** A counter of zero cannot fall: acknowledging the superseded mark raises the
      shown count from zero to one. */
  lemma ClampedDeliveryShows()
    ensures var db := OneEntry(Row(1, 1, "", Unread, false, Unread, false), 0);
            var m := Mutation(5, ReadField, true, 1);
            ShownUnread(db, 1) == 0 && ShownUnread(Delivered(db, m), 1) == 1
  {
    var db := OneEntry(Row(1, 1, "", Unread, false, Unread, false), 0);
    NoDelta(db);
    DeliveryKeepsFeedCount(db, Mutation(5, ReadField, true, 1), 1);
  }

  /** An unknown baseline moves no counter: the same delivery over it raises the
      shown count from three to four. */
  lemma UnknownBaselineDeliveryShows()
    ensures var db := OneEntry(Row(1, 1, "", Other("archived"), false, Unread, false), 3);
            var m := Mutation(5, ReadField, true, 1);
            ShownUnread(db, 1) == 3 && ShownUnread(Delivered(db, m), 1) == 4
  {
    var db := OneEntry(Row(1, 1, "", Other("archived"), false, Unread, false), 3);
    var after := Delivered(db, Mutation(5, ReadField, true, 1));
    NoDelta(db);
    DeliveredReadRow(db, Mutation(5, ReadField, true, 1));
    assert 5 in after.entries && after.entries[5] == Row(1, 1, "", Read, false, Unread, false);
    assert 5 in after.readMarks && 1 in after.feeds;
    assert GainedReads(after, InFeed(1)) == {5} && LostReads(after, InFeed(1)) == {};
  }

  lemma NoDelta(db: Db)
    requires forall id :: id in db.entries ==> db.entries[id].status == Unread && db.entries[id].remoteStatus != Read
    ensures ReadDelta(db, InFeed(1)) == 0
  {
    forall id ensures id !in GainedReads(db, InFeed(1)) && id !in LostReads(db, InFeed(1)) {
      assert id in db.entries ==> db.entries[id].status == Unread && db.entries[id].remoteStatus != Read;
    }
    assert GainedReads(db, InFeed(1)) == {} && LostReads(db, InFeed(1)) == {};
  }

  // ---- Patched totals equal a recount ----------------------------------

  /** The selections whose complete refresh reconciles with their own filter. */
  predicate Recountable(selection: Selection) {
    (UnreadOnly(selection) || selection.StarredEntries?) && !IgnoresStars(selection)
  }

  function BaselineCount(db: Db, selection: Selection): int {
    if selection.StarredEntries? then |RemoteStarred(db)| else |RemoteUnread(db, ScopeOf(selection))|
  }

  /** The stored total counts the baselines of the selection. */
  predicate Counted(db: Db, selection: Selection) {
    Key(selection) in db.totals && db.totals[Key(selection)] == BaselineCount(db, selection)
  }

  lemma CountedMeansRecount(db: Db, selection: Selection)
    requires Overlaid(db) && Known(db) && Recountable(selection) && Counted(db, selection)
    ensures db.totals[Key(selection)] + PendingDelta(db, selection) == |Matching(db, selection)|
    ensures ShownTotal(db, selection) == |Matching(db, selection)|
  {
    if selection.StarredEntries? {
      StarDeltaIsRecount(db);
      forall id ensures id in Matching(db, selection) <==> id in LocalStarred(db) {
      }
      assert Matching(db, selection) == LocalStarred(db);
    } else {
      ReadDeltaIsRecount(db, ScopeOf(selection));
      forall id ensures id in Matching(db, selection) <==> id in LocalUnread(db, ScopeOf(selection)) {
      }
      assert Matching(db, selection) == LocalUnread(db, ScopeOf(selection));
    }
  }

  /** Edits and undo never touch baselines or stored totals. */
  predicate SameBaselines(db: Db, after: Db) {
    && after.totals == db.totals && after.entries.Keys == db.entries.Keys
    && forall id :: id in db.entries ==>
         after.entries[id] == db.entries[id].(status := after.entries[id].status, starred := after.entries[id].starred)
  }

  lemma EditsKeepCounted(db: Db, after: Db, selection: Selection)
    requires SameBaselines(db, after)
    ensures Counted(after, selection) <==> Counted(db, selection)
  {
    forall id
      ensures id in RemoteStarred(after) <==> id in RemoteStarred(db)
      ensures id in RemoteUnread(after, ScopeOf(selection)) <==> id in RemoteUnread(db, ScopeOf(selection))
    {
      assert id in after.entries.Keys <==> id in db.entries.Keys;
    }
    assert RemoteStarred(after) == RemoteStarred(db);
    assert RemoteUnread(after, ScopeOf(selection)) == RemoteUnread(db, ScopeOf(selection));
  }

  lemma SetReadKeepsBaselines(db: Db, ids: seq<int>, read: bool, undoable: bool, batch: string)
    ensures SameBaselines(db, SetRead(db, ids, read, undoable, batch))
  {
    SetReadTables(db, ids, read, undoable, batch);
  }

  lemma SetStarredKeepsBaselines(db: Db, id: int, starred: bool)
    ensures SameBaselines(db, SetStarred(db, id, starred))
  {
  }

  lemma UndoKeepsBaselines(db: Db, batch: string)
    ensures SameBaselines(db, Undo(db, batch))
  {
  }

  /** A delivery patches a counted total to the new count; the clamp never fires. */
  lemma DeliveryKeepsCounted(db: Db, m: Mutation, selection: Selection)
    requires Acknowledgeable(db, m)
    requires selection == Normalize(selection) && Recountable(selection) && Counted(db, selection)
    ensures Counted(Delivered(db, m), selection)
    ensures MovesTotal(db, m, selection) ==> db.totals[Key(selection)] + Shift(db, m) >= 0
  {
    var after := Delivered(db, m);
    DeliveryMovesTotal(db, m, selection);
    assert BaselineCount(after, selection) ==
           BaselineCount(db, selection) + (if MovesTotal(db, m, selection) then Shift(db, m) else 0) by {
      if selection.StarredEntries? {
        BaselineStarsMove(db, m);
      } else {
        BaselineReadsMove(db, m, ScopeOf(selection));
      }
    }
  }

  lemma BaselineReadsMove(db: Db, m: Mutation, scope: Scope)
    requires m.id in db.entries && KnownStatus(db.entries[m.id].remoteStatus)
    ensures |RemoteUnread(Delivered(db, m), scope)| == |RemoteUnread(db, scope)| +
            if m.field == ReadField && Within(scope, db.entries[m.id].feedId, db.entries[m.id].categoryId)
            then Shift(db, m) else 0
  {
    var before, after := RemoteUnread(db, scope), RemoteUnread(Delivered(db, m), scope);
    match m.field {
      case ReadField => DeliveredReadRow(db, m);
      case StarredField => DeliveredStarRow(db, m);
    }
    assert after - {m.id} == before - {m.id};
    CountShift(before, after, m.id);
  }

  lemma BaselineStarsMove(db: Db, m: Mutation)
    requires m.id in db.entries
    ensures |RemoteStarred(Delivered(db, m))| == |RemoteStarred(db)| +
            if m.field == StarredField then Shift(db, m) else 0
  {
    var before, after := RemoteStarred(db), RemoteStarred(Delivered(db, m));
    match m.field {
      case ReadField => DeliveredReadRow(db, m);
      case StarredField => DeliveredStarRow(db, m);
    }
    assert after - {m.id} == before - {m.id};
    CountShift(before, after, m.id);
  }

  lemma {:induction false} IdsCount(entries: seq<Entry>)
    requires DistinctIds(entries)
    ensures |Ids(entries)| == |entries|
  {
    if entries == [] {
      assert Ids(entries) == {};
    } else {
      var front, last := entries[..|entries| - 1], entries[|entries| - 1];
      IdsCount(front);
      assert entries == front + [last];
      assert Ids(entries) == Ids(front) + {last.id};
      assert last.id !in Ids(front);
    }
  }

  /** A complete refresh stores a total that counts the new baselines. */
  lemma CompleteRefreshCounts(db: Db, snapshot: Snapshot)
    requires Apply(db, snapshot).Success? && Recountable(Normalize(snapshot.selection))
    requires snapshot.total == |snapshot.entries|
    requires forall e :: e in snapshot.entries ==> EntryMatches(Normalize(snapshot.selection), e)
    ensures Counted(Apply(db, snapshot).value, Normalize(snapshot.selection))
  {
    var selection := Normalize(snapshot.selection);
    var after := Apply(db, snapshot).value;
    forall id
      ensures (id in after.entries && BaselineMatches(selection, after.entries[id])) <==> id in Ids(snapshot.entries)
    {
      ReconciledExactly(db, snapshot, id);
    }
    if selection.StarredEntries? {
      assert RemoteStarred(after) == Ids(snapshot.entries);
    } else {
      assert RemoteUnread(after, ScopeOf(selection)) == Ids(snapshot.entries);
    }
    IdsCount(snapshot.entries);
  }
}
