/** What a refresh of each selection leaves in every table, row by row. */
module RefreshLaws {
  import opened Domain
  import opened StoreSpec
  import opened Reconciliation
  import Navigation

  /** The row of a fetched entry: everything is the entry's, but a queued value of a
      stored row stays. */
  predicate Fetched(db: Db, e: Entry, row: Row) {
    && row.feedId == e.feedId && row.categoryId == e.categoryId && row.text == e.text
    && row.remoteStatus == e.status && row.remoteStarred == e.starred
    && row.status == (if e.id in db.entries && e.id in db.readMarks then db.entries[e.id].status else e.status)
    && row.starred == (if e.id in db.entries && e.id in db.starMarks then db.entries[e.id].starred else e.starred)
  }

  /** The row of a stored entry that was not fetched. `gone` says whether the fetch
      proved it to be no longer unread, `unstarred` whether no longer starred. */
  predicate Unfetched(db: Db, id: int, row: Row, gone: bool, unstarred: bool)
    requires id in db.entries
  {
    var was := db.entries[id];
    var read, plain := gone && was.remoteStatus == Unread, unstarred && was.remoteStarred;
    && row.feedId == was.feedId && row.categoryId == was.categoryId && row.text == was.text
    && row.remoteStatus == (if read then Read else was.remoteStatus)
    && row.status == (if read && id !in db.readMarks then Read else was.status)
    && row.remoteStarred == (if plain then false else was.remoteStarred)
    && row.starred == (if plain && id !in db.starMarks then false else was.starred)
  }

  ghost predicate IsFetched(entries: seq<Entry>, id: int) {
    exists e :: e in entries && e.id == id
  }

  ghost predicate RowRefreshed(db: Db, after: Db, entries: seq<Entry>, id: int, gone: bool, unstarred: bool) {
    && (id in after.entries <==> id in db.entries || IsFetched(entries, id))
    && (forall e :: e in entries && e.id == id ==> id in after.entries && Fetched(db, e, after.entries[id]))
    && (id in db.entries && !IsFetched(entries, id) ==>
          id in after.entries && Unfetched(db, id, after.entries[id], gone, unstarred))
  }

  /** One stored total and the starred total are replaced; outbox and journal stay. */
  predicate TotalsRefreshed(db: Db, after: Db, snapshot: Snapshot, key: TotalKey) {
    && after.totals == db.totals[key := snapshot.total] && after.starredTotal == snapshot.starredTotal
    && after.readMarks == db.readMarks && after.starMarks == db.starMarks
    && after.batches == db.batches && after.items == db.items
  }

  /** The fetch returned at least as many entries as the server counted. */
  predicate Complete(snapshot: Snapshot) {
    snapshot.total <= |snapshot.entries|
  }

  ghost predicate Refreshes(db: Db, snapshot: Snapshot, id: int, key: TotalKey, gone: bool, unstarred: bool)
    requires Apply(db, snapshot).Success?
  {
    var after := Apply(db, snapshot).value;
    && TotalsRefreshed(db, after, snapshot, key)
    && RowRefreshed(db, after, snapshot.entries, id, gone, unstarred)
  }

  lemma RefreshedRow(db: Db, snapshot: Snapshot, id: int)
    requires Apply(db, snapshot).Success? && DistinctIds(snapshot.entries)
    ensures var selection := Normalize(snapshot.selection);
            var inside := id in db.entries
              && Within(ScopeOf(selection), db.entries[id].feedId, db.entries[id].categoryId);
            var gone := Reconciles(snapshot) && inside && UnreadOnly(selection);
            var unstarred := Reconciles(snapshot) && inside && !UnreadOnly(selection) && selection.StarredEntries?;
            Refreshes(db, snapshot, id, Key(selection), gone, unstarred)
  {
    AppliedRow(db, snapshot, id);
    assert IsFetched(snapshot.entries, id) <==> id in Ids(snapshot.entries);
  }

  /** Refreshing a category proves only rows of that category to be read. */
  lemma CategoryRefresh(db: Db, snapshot: Snapshot, category: int, unreadOnly: bool, id: int)
    requires snapshot.selection == CategoryEntries(category, unreadOnly) && category > 0
    requires Apply(db, snapshot).Success? && DistinctIds(snapshot.entries)
    ensures Refreshes(db, snapshot, id, TotalKey(KindCategory, category, unreadOnly),
              unreadOnly && Complete(snapshot) && id in db.entries && db.entries[id].categoryId == category, false)
  {
    RefreshedRow(db, snapshot, id);
  }

  /** Refreshing a feed proves only rows of that feed to be read. */
  lemma FeedRefresh(db: Db, snapshot: Snapshot, feed: int, unreadOnly: bool, id: int)
    requires snapshot.selection == FeedEntries(feed, unreadOnly) && feed > 0
    requires Apply(db, snapshot).Success? && DistinctIds(snapshot.entries)
    ensures Refreshes(db, snapshot, id, TotalKey(KindFeed, feed, unreadOnly),
              unreadOnly && Complete(snapshot) && id in db.entries && db.entries[id].feedId == feed, false)
  {
    RefreshedRow(db, snapshot, id);
  }

  /** The whole list; the id it carries is no scope. */
  lemma AllRefresh(db: Db, snapshot: Snapshot, echo: int, unreadOnly: bool, id: int)
    requires snapshot.selection == AllEntries(echo, unreadOnly)
    requires Apply(db, snapshot).Success? && DistinctIds(snapshot.entries)
    ensures Refreshes(db, snapshot, id, TotalKey(KindAll, 0, unreadOnly), unreadOnly && Complete(snapshot), false)
  {
    RefreshedRow(db, snapshot, id);
  }

  /** The unread list is restricted to unread entries whatever its flag says. */
  lemma UnreadRefresh(db: Db, snapshot: Snapshot, unreadOnly: bool, id: int)
    requires snapshot.selection == UnreadEntries(unreadOnly)
    requires Apply(db, snapshot).Success? && DistinctIds(snapshot.entries)
    ensures Refreshes(db, snapshot, id, TotalKey(KindUnread, 0, true), Complete(snapshot), false)
  {
    RefreshedRow(db, snapshot, id);
  }

  /** The starred list takes stars away, but restricted to unread entries it marks
      every unfetched unread row read, starred or not. */
  lemma StarredRefresh(db: Db, snapshot: Snapshot, unreadOnly: bool, id: int)
    requires snapshot.selection == StarredEntries(unreadOnly)
    requires Apply(db, snapshot).Success? && DistinctIds(snapshot.entries)
    ensures Refreshes(db, snapshot, id, TotalKey(KindStarred, 0, unreadOnly),
              unreadOnly && Complete(snapshot), !unreadOnly && Complete(snapshot))
  {
    RefreshedRow(db, snapshot, id);
  }

  /** A category or feed without a usable id is the whole unread list. */
  lemma UnusableScopeRefresh(db: Db, snapshot: Snapshot, scope: int, unreadOnly: bool, id: int)
    requires snapshot.selection == CategoryEntries(scope, unreadOnly)
             || snapshot.selection == FeedEntries(scope, unreadOnly)
    requires scope <= 0 && Apply(db, snapshot).Success? && DistinctIds(snapshot.entries)
    ensures Refreshes(db, snapshot, id, TotalKey(KindAll, 0, true), Complete(snapshot), false)
  {
    RefreshedRow(db, snapshot, id);
  }

  /** Whether a complete fetch of the selection is matched against the table. */
  predicate TakesStock(selection: Selection) {
    match selection
    case AllEntries(_, unreadOnly) => unreadOnly
    case UnreadEntries(_) => true
    case StarredEntries(_) => true
    case CategoryEntries(scope, unreadOnly) => unreadOnly || scope <= 0
    case FeedEntries(scope, unreadOnly) => unreadOnly || scope <= 0
  }

  /** A refresh commits exactly if no category or feed id repeats in its navigation
      and no entry id in a fetch that is matched; otherwise nothing changes. */
  lemma RefreshCommitsExactly(db: Db, snapshot: Snapshot)
    ensures Apply(db, snapshot).Success? <==>
            && Navigation.Storable(snapshot.categories)
            && (Complete(snapshot) && TakesStock(snapshot.selection) ==> DistinctIds(snapshot.entries))
  {
    Navigation.InsertCategoriesExactly(snapshot.categories);
  }

  /** The navigation tables after a refresh are the snapshot's, titles and counters
      included, and nothing of the old ones is left. */
  lemma RefreshedNavigation(db: Db, snapshot: Snapshot, id: int)
    requires Apply(db, snapshot).Success?
    ensures var nodes, after := snapshot.categories, Apply(db, snapshot).value;
            && (id in after.categories <==> exists i :: 0 <= i < |nodes| && nodes[i].id == id)
            && (forall i :: 0 <= i < |nodes| && nodes[i].id == id ==> after.categories[id] == nodes[i].title)
            && (id in after.feeds <==> exists i :: 0 <= i < |nodes| && exists f :: f in nodes[i].feeds && f.id == id)
            && (forall i :: 0 <= i < |nodes| ==> forall f :: f in nodes[i].feeds && f.id == id ==>
                  after.feeds[id] == FeedRow(nodes[i].id, f.title, f.unread))
  {
    var nodes, after := snapshot.categories, Apply(db, snapshot).value;
    Navigation.InsertCategoriesExactly(nodes);
    Navigation.AllFeedIdsMember(nodes, id);
    forall i | 0 <= i < |nodes|
      ensures Navigation.CategoryId(nodes[i]) in after.categories && after.categories[nodes[i].id] == nodes[i].title
    {
      assert Navigation.StoredAt(NavTables(after.categories, after.feeds), nodes[i]);
    }
    forall i: nat | i < |nodes|
      ensures id in Navigation.FeedIds(nodes[i].feeds) <==> exists f :: f in nodes[i].feeds && f.id == id
    {
      FeedIdsMember(nodes[i].feeds, id);
    }
    forall i, f | 0 <= i < |nodes| && f in nodes[i].feeds && f.id == id
      ensures id in after.feeds && after.feeds[id] == FeedRow(nodes[i].id, f.title, f.unread)
    {
      assert Navigation.StoredAt(NavTables(after.categories, after.feeds), nodes[i]);
      var k :| 0 <= k < |nodes[i].feeds| && nodes[i].feeds[k] == f;
      Navigation.FeedStored(after, nodes[i], k);
    }
  }

  lemma FeedIdsMember(feeds: seq<FeedNode>, id: int)
    ensures id in Navigation.FeedIds(feeds) <==> exists f :: f in feeds && f.id == id
  {
    if id in Navigation.FeedIds(feeds) {
      var k :| 0 <= k < |feeds| && Navigation.FeedId(feeds[k]) == id;
      assert feeds[k] in feeds;
    }
    if f :| f in feeds && f.id == id {
      var k :| 0 <= k < |feeds| && feeds[k] == f;
      assert Navigation.FeedId(feeds[k]) == id;
    }
  }
}
