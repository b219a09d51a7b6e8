/** What each edit and each acknowledgement leaves in every table, row by row. */
module EditLaws {
  import opened Collections
  import opened Domain
  import opened StoreSpec
  import opened Overlay
  import opened Counters
  import opened UndoJournal

  /** Navigation and every stored count are untouched. */
  predicate SameCounters(db: Db, after: Db) {
    && after.feeds == db.feeds && after.categories == db.categories
    && after.totals == db.totals && after.starredTotal == db.starredTotal
  }

  predicate SameJournal(db: Db, after: Db) {
    after.batches == db.batches && after.items == db.items
  }

  predicate SameRow(before: map<int, Row>, after: map<int, Row>, id: int) {
    (id in after <==> id in before) && (id in before ==> after[id] == before[id])
  }

  predicate SameMark(before: map<int, Pending>, after: map<int, Pending>, id: int) {
    (id in after <==> id in before) && (id in before ==> after[id] == before[id])
  }

  /** The row of `id` asks for `desired`, one revision newer than before. */
  predicate Requeued(before: map<int, Pending>, after: map<int, Pending>, id: int, desired: bool) {
    id in after && after[id] == Pending(desired, if id in before then before[id].revision + 1 else 1)
  }

  function StatusOf(read: bool): Status {
    if read then Read else Unread
  }

  /** The listed row has a status other than the requested one. */
  predicate Moves(db: Db, ids: seq<int>, read: bool, id: int) {
    id in ids && id in db.entries && db.entries[id].status != StatusOf(read)
  }

  /** The drawn batch id is in use, as a batch or by an item that would be added. */
  ghost predicate Collides(db: Db, ids: seq<int>, read: bool, undoable: bool, batch: string) {
    undoable && (batch in db.batches || exists id :: Moves(db, ids, read, id) && ItemKey(batch, id) in db.items)
  }

  lemma CollidesExactly(db: Db, ids: seq<int>, read: bool, undoable: bool, batch: string)
    ensures Collides(db, ids, read, undoable, batch) <==> !SetReadCommits(db, ids, read, undoable, batch)
  {
    assert forall id :: Moves(db, ids, read, id) <==> id in Changed(db, ids, read);
  }

  /** A read edit writes the status and the outbox row of each moved entry, and
      nothing else outside the journal; a colliding batch id changes nothing. */
  lemma SetReadWrites(db: Db, ids: seq<int>, read: bool, undoable: bool, batch: string, id: int)
    ensures var after := SetRead(db, ids, read, undoable, batch);
            && SameCounters(db, after) && after.starMarks == db.starMarks
            && (if Moves(db, ids, read, id) && !Collides(db, ids, read, undoable, batch) then
                  && id in after.entries && after.entries[id] == db.entries[id].(status := StatusOf(read))
                  && Requeued(db.readMarks, after.readMarks, id, read)
                else SameRow(db.entries, after.entries, id) && SameMark(db.readMarks, after.readMarks, id))
            && (Collides(db, ids, read, undoable, batch) ==> after == db)
  {
    CollidesExactly(db, ids, read, undoable, batch);
    assert Moves(db, ids, read, id) <==> id in Changed(db, ids, read);
  }

  /** An automatic edit records each moved entry's prior value under its batch. */
  lemma AutomaticEditJournals(db: Db, ids: seq<int>, read: bool, batch: string, k: ItemKey)
    requires !Collides(db, ids, read, true, batch)
    ensures var after := SetRead(db, ids, read, true, batch);
            && (k in after.items <==> k in db.items || (k.batch == batch && Moves(db, ids, read, k.entry)))
            && (k in db.items ==> after.items[k] == db.items[k])
            && (k in after.items && k !in db.items ==> after.items[k] == (db.entries[k.entry].status == Read))
            && (forall b :: b in after.batches <==>
                  b in db.batches || (b == batch && exists id :: Moves(db, ids, read, id)))
  {
    CollidesExactly(db, ids, read, true, batch);
    var changed := Changed(db, ids, read);
    assert forall id :: Moves(db, ids, read, id) <==> id in changed;
    assert ItemKey(k.batch, k.entry) == k;
    if changed != {} {
      Inhabited(changed);
    }
  }

  /** A manual edit forgets every item of the listed entries, moved or not, and
      every batch that has no item left. */
  lemma ManualEditForgets(db: Db, ids: seq<int>, read: bool, batch: string, k: ItemKey)
    ensures var after := SetRead(db, ids, read, false, batch);
            && (k in after.items <==> k in db.items && k.entry !in ids)
            && (k in after.items ==> after.items[k] == db.items[k])
            && (forall b :: b in after.batches <==>
                  b in db.batches && exists j :: j in db.items && j.batch == b && j.entry !in ids)
  {
    var after := SetRead(db, ids, read, false, batch);
    assert forall j :: j in after.items <==> j in db.items && j.entry !in ids;
    forall b ensures b in after.batches <==>
                       b in db.batches && exists j :: j in db.items && j.batch == b && j.entry !in ids
    {
      if b in after.batches {
        var j :| j in after.items && j.batch == b;
        assert j in db.items && j.entry !in ids;
      }
      if b in db.batches && exists j :: j in db.items && j.batch == b && j.entry !in ids {
        var j :| j in db.items && j.batch == b && j.entry !in ids;
        assert j in after.items;
      }
    }
  }

  /** The receipt names the batch and the number of moved entries, if any. */
  lemma ReceiptTells(db: Db, ids: seq<int>, read: bool, undoable: bool, batch: string)
    ensures var moved := set id | id in ids && Moves(db, ids, read, id);
            SetReadReceipt(db, ids, read, undoable, batch) ==
            if Collides(db, ids, read, undoable, batch) then Failure
            else Success(if undoable && moved != {} then Some(Receipt(batch, |moved|)) else None)
  {
    CollidesExactly(db, ids, read, undoable, batch);
    assert (set id | id in ids && Moves(db, ids, read, id)) == Changed(db, ids, read);
  }

  /** Starring writes one star, if the entry is stored, and queues one row. */
  lemma SetStarredWrites(db: Db, id: int, starred: bool, other: int)
    ensures var after := SetStarred(db, id, starred);
            && SameCounters(db, after) && SameJournal(db, after) && after.readMarks == db.readMarks
            && Requeued(db.starMarks, after.starMarks, id, starred)
            && (id in after.entries <==> id in db.entries)
            && (id in db.entries ==> after.entries[id] == db.entries[id].(starred := starred))
            && (other != id ==>
                  && SameRow(db.entries, after.entries, other)
                  && SameMark(db.starMarks, after.starMarks, other))
  {
  }

  /** Undoing a batch writes and queues the recorded value of each of its entries
      that is stored, queues it for the others, and removes the batch alone. */
  lemma UndoWrites(db: Db, batch: string, id: int, k: ItemKey)
    ensures var after := Undo(db, batch);
            var item := ItemKey(batch, id);
            && SameCounters(db, after) && after.starMarks == db.starMarks
            && (if item in db.items then
                  && Requeued(db.readMarks, after.readMarks, id, db.items[item])
                  && (id in after.entries <==> id in db.entries)
                  && (id in db.entries ==> after.entries[id] == db.entries[id].(status := StatusOf(db.items[item])))
                else SameRow(db.entries, after.entries, id) && SameMark(db.readMarks, after.readMarks, id))
            && (k in after.items <==> k in db.items && k.batch != batch)
            && (k in after.items ==> after.items[k] == db.items[k])
            && (forall b :: b in after.batches <==> b in db.batches && b != batch)
  {
    assert id in Priors(db.items, batch) <==> ItemKey(batch, id) in db.items;
  }

  /** Discarding a batch removes it and its items, and nothing else. */
  lemma DiscardWrites(db: Db, batch: string, k: ItemKey)
    ensures var after := WithoutBatch(db, batch);
            && SameCounters(db, after) && after.entries == db.entries
            && after.readMarks == db.readMarks && after.starMarks == db.starMarks
            && (k in after.items <==> k in db.items && k.batch != batch)
            && (k in after.items ==> after.items[k] == db.items[k])
            && (forall b :: b in after.batches <==> b in db.batches && b != batch)
  {
  }

  // ---- Acknowledging ------------------------------------------------------

  function AtLeastZero(n: int): int {
    if n < 0 then 0 else n
  }

  /** A known baseline that the delivered mark turns over moves counts by one. */
  function Moved(count: int, was: Status, read: bool): int {
    if was == Unread && read then AtLeastZero(count - 1)
    else if was == Read && !read then AtLeastZero(count + 1)
    else count
  }

  function MovedStar(count: int, was: bool, starred: bool): int {
    if was && !starred then AtLeastZero(count - 1)
    else if !was && starred then AtLeastZero(count + 1)
    else count
  }

  /** Exactly the delivered revision leaves the outbox. */
  predicate Delivers(before: map<int, Pending>, after: map<int, Pending>, m: Mutation, id: int) {
    if id == m.id && id in before && before[id].revision == m.revision then id !in after
    else SameMark(before, after, id)
  }

  /** A delivered read mark moves one baseline, its feed's counter and the totals of
      the unread selections that contain the entry. */
  lemma ReadAcknowledged(db: Db, m: Mutation, id: int, feed: int, key: TotalKey)
    requires m.field == ReadField
    ensures Acknowledge(db, m).Success? <==> m.id in db.entries
    ensures m.id in db.entries ==>
              var row, after := db.entries[m.id], Acknowledge(db, m).value;
              && after.starMarks == db.starMarks && after.categories == db.categories
              && after.starredTotal == db.starredTotal && SameJournal(db, after)
              && (id != m.id ==> SameRow(db.entries, after.entries, id))
              && m.id in after.entries && after.entries[m.id] == row.(remoteStatus := StatusOf(m.desired))
              && Delivers(db.readMarks, after.readMarks, m, id)
              && (feed in after.feeds <==> feed in db.feeds)
              && (feed in db.feeds ==>
                    after.feeds[feed] == db.feeds[feed].(
                      unread := if feed == row.feedId then Moved(db.feeds[feed].unread, row.remoteStatus, m.desired)
                                else db.feeds[feed].unread))
              && (key in after.totals <==> key in db.totals)
              && (key in db.totals ==>
                    after.totals[key] ==
                    match key.kind
                    case KindUnread => Moved(db.totals[key], row.remoteStatus, m.desired)
                    case KindAll => if key.unreadOnly then Moved(db.totals[key], row.remoteStatus, m.desired)
                                    else db.totals[key]
                    case KindCategory => if key.unreadOnly && key.scope == row.categoryId
                                         then Moved(db.totals[key], row.remoteStatus, m.desired) else db.totals[key]
                    case KindFeed => if key.unreadOnly && key.scope == row.feedId
                                     then Moved(db.totals[key], row.remoteStatus, m.desired) else db.totals[key]
                    case KindStarred => db.totals[key])
  {
  }

  /** A delivered star moves one baseline, the starred total and the totals of the
      starred selections. */
  lemma StarAcknowledged(db: Db, m: Mutation, id: int, key: TotalKey)
    requires m.field == StarredField
    ensures Acknowledge(db, m).Success? <==> m.id in db.entries
    ensures m.id in db.entries ==>
              var row, after := db.entries[m.id], Acknowledge(db, m).value;
              && after.readMarks == db.readMarks && after.categories == db.categories
              && after.feeds == db.feeds && SameJournal(db, after)
              && (id != m.id ==> SameRow(db.entries, after.entries, id))
              && m.id in after.entries && after.entries[m.id] == row.(remoteStarred := m.desired)
              && Delivers(db.starMarks, after.starMarks, m, id)
              && after.starredTotal == MovedStar(db.starredTotal, row.remoteStarred, m.desired)
              && (key in after.totals <==> key in db.totals)
              && (key in db.totals ==>
                    after.totals[key] ==
                    if key.kind == KindStarred then MovedStar(db.totals[key], row.remoteStarred, m.desired)
                    else db.totals[key])
  {
  }

  // ---- Counts after an edit -------------------------------------------------

  function UnreadIn(db: Db, feed: int): set<int> {
    set id | id in db.entries && db.entries[id].feedId == feed && db.entries[id].status == Unread
  }

  function UnreadUnder(db: Db, feeds: set<int>): set<int> {
    set id | id in db.entries && db.entries[id].feedId in feeds && db.entries[id].status == Unread
  }

  function Starred(db: Db): set<int> {
    set id | id in db.entries && db.entries[id].starred
  }

  /** Only local values and the outbox differ, and both tables are overlaid. */
  predicate EditedLocally(db: Db, after: Db) {
    && SameCounters(db, after) && SameBaselines(db, after)
    && Overlaid(db) && Known(db) && Overlaid(after) && Known(after)
  }

  lemma EditMovesReadDelta(db: Db, after: Db, feed: int)
    requires EditedLocally(db, after)
    ensures ReadDelta(after, InFeed(feed)) - ReadDelta(db, InFeed(feed)) ==
            |UnreadIn(after, feed)| - |UnreadIn(db, feed)|
  {
    ReadDeltaIsRecount(db, InFeed(feed));
    ReadDeltaIsRecount(after, InFeed(feed));
    LocalUnreadIn(db, feed);
    LocalUnreadIn(after, feed);
    SameRemoteUnread(db, after, feed);
  }

  lemma LocalUnreadIn(db: Db, feed: int)
    ensures LocalUnread(db, InFeed(feed)) == UnreadIn(db, feed)
  {
    forall id ensures id in LocalUnread(db, InFeed(feed)) <==> id in UnreadIn(db, feed) {
    }
  }

  lemma SameRemoteUnread(db: Db, after: Db, feed: int)
    requires SameBaselines(db, after)
    ensures RemoteUnread(after, InFeed(feed)) == RemoteUnread(db, InFeed(feed))
  {
    forall id ensures id in RemoteUnread(after, InFeed(feed)) <==> id in RemoteUnread(db, InFeed(feed)) {
      assert id in after.entries.Keys <==> id in db.entries.Keys;
    }
  }

  /** An edit moves the count shown for a feed by the recount of its rows, up to
      the clamp at zero. */
  lemma EditMovesFeedCount(db: Db, after: Db, feed: int)
    requires EditedLocally(db, after) && feed in db.feeds
    ensures ShownUnread(after, feed) ==
            AtLeastZero(db.feeds[feed].unread + ReadDelta(db, InFeed(feed))
                        + |UnreadIn(after, feed)| - |UnreadIn(db, feed)|)
  {
    EditMovesReadDelta(db, after, feed);
  }

  /** The same for the starred total. */
  lemma EditMovesStarred(db: Db, after: Db)
    requires EditedLocally(db, after)
    ensures ShownStarred(after) == AtLeastZero(db.starredTotal + StarDelta(db) + |Starred(after)| - |Starred(db)|)
  {
    StarDeltaIsRecount(db);
    StarDeltaIsRecount(after);
    assert LocalStarred(db) == Starred(db) && LocalStarred(after) == Starred(after);
    forall id ensures id in RemoteStarred(after) <==> id in RemoteStarred(db) {
      assert id in after.entries.Keys <==> id in db.entries.Keys;
    }
    assert RemoteStarred(after) == RemoteStarred(db);
  }

  /** The feeds of a category, as stored. */
  function FeedsUnder(db: Db, category: int): set<int> {
    set f | f in db.feeds && db.feeds[f].categoryId == category
  }

  /** No feed of the category is owed more reads than its counter holds. */
  predicate Unclamped(db: Db, category: int) {
    forall f :: f in FeedsUnder(db, category) ==> db.feeds[f].unread + ReadDelta(db, InFeed(f)) >= 0
  }

  /** Counting rows feed by feed. */
  lemma {:induction false} CountByFeed(db: Db, counts: map<int, int>)
    requires forall f :: f in counts ==> counts[f] == |UnreadIn(db, f)|
    ensures SumMap(counts) == |UnreadUnder(db, counts.Keys)|
    decreases counts
  {
    if forall f :: f !in counts {
      assert UnreadUnder(db, counts.Keys) == {};
    } else {
      var f :| f in counts;
      SumMapSplit(counts, f);
      CountByFeed(db, counts - {f});
      assert (counts - {f}).Keys == counts.Keys - {f};
      assert UnreadUnder(db, counts.Keys) == UnreadUnder(db, counts.Keys - {f}) + UnreadIn(db, f);
    }
  }

  lemma {:induction false} SumDifference(a: map<int, int>, b: map<int, int>, c: map<int, int>, d: map<int, int>)
    requires a.Keys == b.Keys == c.Keys == d.Keys
    requires forall k :: k in a ==> a[k] - b[k] == c[k] - d[k]
    ensures SumMap(a) - SumMap(b) == SumMap(c) - SumMap(d)
    decreases a
  {
    if exists k :: k in a {
      var k :| k in a;
      SumMapSplit(a, k);
      SumMapSplit(b, k);
      SumMapSplit(c, k);
      SumMapSplit(d, k);
      assert (a - {k}).Keys == (b - {k}).Keys == (c - {k}).Keys == (d - {k}).Keys;
      SumDifference(a - {k}, b - {k}, c - {k}, d - {k});
    } else {
      assert forall k :: k !in a.Keys && k !in b.Keys && k !in c.Keys && k !in d.Keys;
    }
  }

  lemma UnclampedCategoryMoves(db: Db, after: Db, category: int)
    requires EditedLocally(db, after) && Unclamped(db, category) && Unclamped(after, category)
    ensures SumMap(FeedCounts(after, category)) - SumMap(FeedCounts(db, category)) ==
            |UnreadUnder(after, FeedsUnder(db, category))| - |UnreadUnder(db, FeedsUnder(db, category))|
  {
    var feeds := FeedsUnder(db, category);
    var was, now := (map f | f in feeds :: |UnreadIn(db, f)|), (map f | f in feeds :: |UnreadIn(after, f)|);
    CountByFeed(db, was);
    CountByFeed(after, now);
    assert was.Keys == feeds && now.Keys == feeds;
    assert FeedsUnder(after, category) == feeds;
    assert FeedCounts(after, category).Keys == feeds && FeedCounts(db, category).Keys == feeds;
    forall f | f in FeedCounts(after, category)
      ensures FeedCounts(after, category)[f] - FeedCounts(db, category)[f] == now[f] - was[f]
    {
      EditMovesReadDelta(db, after, f);
      assert f in feeds && f in FeedsUnder(after, category);
    }
    SumDifference(FeedCounts(after, category), FeedCounts(db, category), now, was);
  }

  function MovedCounts(db: Db, after: Db, category: int): map<int, int> {
    map f | f in FeedsUnder(db, category) ::
      AtLeastZero(db.feeds[f].unread + ReadDelta(db, InFeed(f)) + |UnreadIn(after, f)| - |UnreadIn(db, f)|)
  }

  lemma MovedFeedCounts(db: Db, after: Db, category: int)
    requires EditedLocally(db, after)
    ensures FeedCounts(after, category) == MovedCounts(db, after, category)
  {
    assert FeedsUnder(after, category) == FeedsUnder(db, category);
    forall f | f in FeedCounts(after, category)
      ensures f in FeedsUnder(db, category) && FeedCounts(after, category)[f] == MovedCounts(db, after, category)[f]
    {
      EditMovesFeedCount(db, after, f);
    }
    assert FeedCounts(after, category).Keys == FeedsUnder(after, category);
    assert MovedCounts(db, after, category).Keys == FeedsUnder(db, category);
  }

  /** After an edit a category shows the sum of what its feeds show; where no feed is
      clamped, its count has moved by the recount of the rows of its feeds. */
  lemma EditMovesCategoryCount(db: Db, after: Db, category: int)
    requires EditedLocally(db, after)
    ensures category in db.categories ==>
              && category in CategoryCounts(after)
              && CategoryCounts(after)[category] == SumMap(MovedCounts(db, after, category))
    ensures Unclamped(db, category) && Unclamped(after, category) ==>
              SumMap(FeedCounts(after, category)) - SumMap(FeedCounts(db, category)) ==
              |UnreadUnder(after, FeedsUnder(db, category))| - |UnreadUnder(db, FeedsUnder(db, category))|
  {
    MovedFeedCounts(db, after, category);
    if Unclamped(db, category) && Unclamped(after, category) {
      UnclampedCategoryMoves(db, after, category);
    }
  }

  /** A read edit is such an edit, so it moves the shown counts by the recount. */
  lemma SetReadIsLocal(db: Db, ids: seq<int>, read: bool, undoable: bool, batch: string)
    requires Overlaid(db) && Known(db)
    ensures EditedLocally(db, SetRead(db, ids, read, undoable, batch))
  {
    SetReadTables(db, ids, read, undoable, batch);
    EditReadsKeepsOverlaid(db, Uniform(Changed(db, ids, read), read));
    SetReadKeepsBaselines(db, ids, read, undoable, batch);
  }

  lemma SetStarredIsLocal(db: Db, id: int, starred: bool)
    requires Overlaid(db) && Known(db)
    ensures EditedLocally(db, SetStarred(db, id, starred))
  {
    SetStarredKeepsOverlaid(db, id, starred);
    SetStarredKeepsBaselines(db, id, starred);
  }

  lemma UndoIsLocal(db: Db, batch: string)
    requires Overlaid(db) && Known(db)
    ensures EditedLocally(db, Undo(db, batch))
  {
    EditReadsKeepsOverlaid(db, Priors(db.items, batch));
    UndoKeepsBaselines(db, batch);
  }

  lemma DiscardIsLocal(db: Db, batch: string)
    requires Overlaid(db) && Known(db)
    ensures EditedLocally(db, WithoutBatch(db, batch))
  {
  }

  lemma EditReadsKeepsOverlaid(db: Db, wanted: map<int, bool>)
    requires Overlaid(db) && Known(db)
    ensures Overlaid(EditReads(db, wanted)) && Known(EditReads(db, wanted))
  {
  }

  lemma SetStarredKeepsOverlaid(db: Db, id: int, starred: bool)
    requires Overlaid(db) && Known(db)
    ensures Overlaid(SetStarred(db, id, starred)) && Known(SetStarred(db, id, starred))
  {
  }
}
