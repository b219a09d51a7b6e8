/** The local database of one account: each method is one transaction. */
module Persistence {
  import opened Collections
  import opened Domain
  import opened StoreSpec

  predicate QueuedIn(outbox: map<int, Pending>, m: Mutation) {
    m.id in outbox && outbox[m.id] == Pending(m.desired, m.revision)
  }

  function Delivery(outbox: map<int, Pending>, field: Field, id: int): Mutation
    requires id in outbox
  {
    Mutation(id, field, outbox[id].desired, outbox[id].revision)
  }

  /** One field's outbox rows, each exactly once, in some order. */
  ghost predicate ListsField(outbox: map<int, Pending>, field: Field, list: seq<Mutation>) {
    && (forall m :: m in list ==> m.field == field && QueuedIn(outbox, m))
    && (forall i, j :: 0 <= i < j < |list| ==> list[i].id != list[j].id)
    && (forall id :: id in outbox ==> Delivery(outbox, field, id) in list)
  }

  /** The rows a flush works through: the whole outbox, each row exactly once. */
  ghost predicate Lists(db: Db, pending: seq<Mutation>) {
    && (forall m :: m in pending ==> QueuedIn(Outbox(db, m.field), m))
    && (forall i, j :: 0 <= i < j < |pending| ==>
          pending[i].id != pending[j].id || pending[i].field != pending[j].field)
    && (forall id, field :: id in Outbox(db, field) ==> Delivery(Outbox(db, field), field, id) in pending)
  }

  lemma MarkOneMore(rows: map<int, Row>, wanted: map<int, bool>, id: int, value: bool)
    requires id in rows && id !in wanted
    ensures MarkRows(rows, wanted)[id] == rows[id]
    ensures MarkRows(rows, wanted[id := value]) ==
            MarkRows(rows, wanted)[id := rows[id].(status := Mark(value))]
  {
  }

  lemma EnqueueOneMore(outbox: map<int, Pending>, wanted: map<int, bool>, id: int, value: bool)
    requires id !in wanted
    ensures var queued := Enqueue(outbox, wanted);
            Enqueue(outbox, wanted[id := value]) == queued[id := Pending(value, NextRevision(queued, id))]
  {
  }

  /** The tables a read edit rewrites, and its receipt count. */
  datatype Work = Work(rows: map<int, Row>, outbox: map<int, Pending>, journal: map<ItemKey, bool>, count: nat)

  ghost function WorkAfter(db: Db, ids: seq<int>, read: bool, undoable: bool, batch: string): Work {
    var changed := Changed(db, ids, read);
    Work(
      MarkRows(db.entries, Uniform(changed, read)),
      Enqueue(db.readMarks, Uniform(changed, read)),
      if undoable then RecordItems(db, batch, changed) else ForgetItems(db.items, ids),
      |changed|)
  }

  ghost predicate NewItems(db: Db, batch: string, changed: set<int>) {
    forall id :: id in changed ==> ItemKey(batch, id) !in db.items
  }

  lemma NewItemsOneMore(db: Db, batch: string, changed: set<int>, id: int)
    ensures NewItems(db, batch, changed + {id}) <==> NewItems(db, batch, changed) && ItemKey(batch, id) !in db.items
  {
  }

  function WithoutEntry(journal: map<ItemKey, bool>, id: int): map<ItemKey, bool> {
    map k | k in journal && k.entry != id :: journal[k]
  }

  lemma WorkAtStart(db: Db, read: bool, undoable: bool, batch: string)
    ensures WorkAfter(db, [], read, undoable, batch) == Work(db.entries, db.readMarks, db.items, 0)
  {
    assert Changed(db, [], read) == {};
    NothingMarked(db, read);
    if undoable {
      assert RecordItems(db, batch, {}) == db.items;
    } else {
      assert ForgetItems(db.items, []) == db.items;
    }
  }

  lemma NothingMarked(db: Db, read: bool)
    ensures MarkRows(db.entries, Uniform({}, read)) == db.entries
    ensures Enqueue(db.readMarks, Uniform({}, read)) == db.readMarks
  {
  }

  lemma WorkOneMore(db: Db, ids: seq<int>, id: int, read: bool, undoable: bool, batch: string)
    ensures var work := WorkAfter(db, ids, read, undoable, batch);
            var next := WorkAfter(db, ids + [id], read, undoable, batch);
            var kept := if undoable then work.journal
                        else WithoutEntry(work.journal, id);
            if id in work.rows && work.rows[id].status != Mark(read) then
              && id in Changed(db, ids + [id], read)
              && Changed(db, ids + [id], read) == Changed(db, ids, read) + {id}
              && (undoable ==> (ItemKey(batch, id) in work.journal <==> ItemKey(batch, id) in db.items))
              && next == Work(
                   work.rows[id := work.rows[id].(status := Mark(read))],
                   work.outbox[id := Pending(read, NextRevision(work.outbox, id))],
                   if undoable then kept[ItemKey(batch, id) := work.rows[id].status == Read] else kept,
                   work.count + 1)
            else
              Changed(db, ids + [id], read) == Changed(db, ids, read) && next == work.(journal := kept)
  {
    var changed := Changed(db, ids, read);
    if !undoable {
      ForgetOneMore(db.items, ids, id);
    }
    if id in db.entries && db.entries[id].status != Mark(read) && id !in changed {
      assert Changed(db, ids + [id], read) == changed + {id};
      assert Uniform(changed + {id}, read) == Uniform(changed, read)[id := read];
      MarkOneMore(db.entries, Uniform(changed, read), id, read);
      EnqueueOneMore(db.readMarks, Uniform(changed, read), id, read);
      if undoable {
        RecordOneMore(db, batch, changed, id);
      }
    } else {
      assert Changed(db, ids + [id], read) == changed;
    }
  }

  lemma ForgetOneMore(items: map<ItemKey, bool>, ids: seq<int>, id: int)
    ensures var kept := ForgetItems(items, ids);
            ForgetItems(items, ids + [id]) == WithoutEntry(kept, id)
  {
  }

  lemma RecordOneMore(db: Db, batch: string, changed: set<int>, id: int)
    requires changed <= db.entries.Keys && id in db.entries && id !in changed
    ensures RecordItems(db, batch, changed + {id}) ==
            RecordItems(db, batch, changed)[ItemKey(batch, id) := db.entries[id].status == Read]
    ensures ItemKey(batch, id) in RecordItems(db, batch, changed) <==> ItemKey(batch, id) in db.items
  {
    var prior := db.entries[id].status == Read;
    var priors := map i | i in changed :: db.entries[i].status == Read;
    var more := map i | i in changed + {id} :: db.entries[i].status == Read;
    assert more == priors[id := prior];
    ItemsOneMore(batch, priors, id, prior);
    JournalOneMore(db.items, Items(batch, priors), ItemKey(batch, id), prior);
  }

  lemma ItemsOneMore(batch: string, priors: map<int, bool>, id: int, prior: bool)
    requires id !in priors
    ensures Items(batch, priors[id := prior]) == Items(batch, priors)[ItemKey(batch, id) := prior]
    ensures ItemKey(batch, id) !in Items(batch, priors)
  {
  }

  lemma JournalOneMore(items: map<ItemKey, bool>, added: map<ItemKey, bool>, k: ItemKey, prior: bool)
    ensures items + added[k := prior] == (items + added)[k := prior]
  {
  }

  lemma ReadTotalsShift(totals: map<TotalKey, int>, row: Row, shift: int)
    ensures (map k | k in totals :: if CountsReadsOf(k, row) then Shifted(totals[k], shift) else totals[k]) ==
            if shift == 0 then totals
            else map k | k in totals :: if CountsReadsOf(k, row) then Max(0, totals[k] + shift) else totals[k]
  {
  }

  lemma StarTotalsShift(totals: map<TotalKey, int>, shift: int)
    ensures (map k | k in totals :: if k.kind == KindStarred then Shifted(totals[k], shift) else totals[k]) ==
            if shift == 0 then totals
            else map k | k in totals :: if k.kind == KindStarred then Max(0, totals[k] + shift) else totals[k]
  {
  }

  lemma ItemClash(db: Db, ids: seq<int>, i: nat, read: bool, batch: string)
    requires i < |ids| && ids[i] in Changed(db, ids[..i] + [ids[i]], read)
    requires ItemKey(batch, ids[i]) in db.items
    ensures !NewItems(db, batch, Changed(db, ids, read))
  {
    assert ids[i] in Changed(db, ids, read);
  }

  lemma RestoreOneMore(rows: map<int, Row>, outbox: map<int, Pending>, done: map<int, bool>, id: int, value: bool)
    requires id !in done
    ensures MarkRows(rows, done[id := value]) ==
            if id in rows then MarkRows(rows, done)[id := MarkRows(rows, done)[id].(status := Mark(value))]
            else MarkRows(rows, done)
    ensures var queued := Enqueue(outbox, done);
            Enqueue(outbox, done[id := value]) == queued[id := Pending(value, NextRevision(queued, id))]
  {
    EnqueueOneMore(outbox, done, id, value);
    if id in rows {
      MarkOneMore(rows, done, id, value);
    }
  }

  lemma ListsBoth(db: Db, marks: seq<Mutation>, starred: seq<Mutation>)
    requires ListsField(db.readMarks, ReadField, marks)
    requires ListsField(db.starMarks, StarredField, starred)
    ensures Lists(db, marks + starred)
  {
    var pending := marks + starred;
    forall i, j | 0 <= i < j < |pending|
      ensures pending[i].id != pending[j].id || pending[i].field != pending[j].field
    {
      if j < |marks| || |marks| <= i {
      } else {
        assert pending[i] in marks && pending[j] in starred;
      }
    }
    forall id, field | id in Outbox(db, field) ensures Delivery(Outbox(db, field), field, id) in pending {
      match field {
        case ReadField => assert Delivery(db.readMarks, ReadField, id) in marks;
        case StarredField => assert Delivery(db.starMarks, StarredField, id) in starred;
      }
    }
  }

  class Store {
    var entries: map<int, Row>
    var readMarks: map<int, Pending>
    var starMarks: map<int, Pending>
    var feeds: map<int, FeedRow>
    var categories: map<int, string>
    var totals: map<TotalKey, int>
    var starredTotal: int
    var batches: set<string>
    var items: map<ItemKey, bool>

    function Tables(): Db
      reads this
    {
      Db(entries, readMarks, starMarks, feeds, categories, totals, starredTotal, batches, items)
    }

    constructor ()
      ensures Tables() == EmptyDb()
    {
      entries, readMarks, starMarks, feeds, categories := map[], map[], map[], map[], map[];
      totals, starredTotal, batches, items := map[], 0, {}, map[];
    }

    method SetRead(ids: seq<int>, read: bool, undoable: bool, batch: string)
      returns (receipt: Result<Option<Receipt>>)
      modifies this
      ensures receipt == SetReadReceipt(old(Tables()), ids, read, undoable, batch)
      ensures Tables() == StoreSpec.SetRead(old(Tables()), ids, read, undoable, batch)
    {
      if undoable && batch in batches {
        return Failure;
      }
      var ok, work := MarkEach(ids, read, undoable, batch);
      if !ok {
        return Failure;
      }
      entries, readMarks, items := work.rows, work.outbox, work.journal;
      if undoable && work.count > 0 {
        batches := batches + {batch};
      }
      if !undoable {
        batches := NonEmptyBatches(batches, items);
      }
      receipt := Success(if undoable && work.count > 0 then Some(Receipt(batch, work.count)) else None);
    }

    /** The loop over the requested ids, on the tables it rewrites. */
    method MarkEach(ids: seq<int>, read: bool, undoable: bool, batch: string) returns (ok: bool, work: Work)
      ensures ok <==> undoable ==> NewItems(Tables(), batch, Changed(Tables(), ids, read))
      ensures ok ==> work == WorkAfter(Tables(), ids, read, undoable, batch)
    {
      ghost var db := Tables();
      work := Work(entries, readMarks, items, 0);
      WorkAtStart(db, read, undoable, batch);
      for i := 0 to |ids|
        invariant work == WorkAfter(db, ids[..i], read, undoable, batch)
        invariant undoable ==> NewItems(db, batch, Changed(db, ids[..i], read))
      {
        assert ids[..i + 1] == ids[..i] + [ids[i]];
        var marked;
        marked, work := MarkOne(db, ids[..i], ids[i], work, read, undoable, batch);
        if !marked {
          ItemClash(db, ids, i, read, batch);
          return false, work;
        }
      }
      assert ids[..|ids|] == ids;
      ok := true;
    }

    /** One turn of the loop; a batch id drawn twice can clash with an old item. */
    static method MarkOne(
        ghost db: Db, ghost before: seq<int>, id: int, work: Work, read: bool, undoable: bool, batch: string)
      returns (ok: bool, next: Work)
      requires work == WorkAfter(db, before, read, undoable, batch)
      requires undoable ==> NewItems(db, batch, Changed(db, before, read))
      ensures ok ==> next == WorkAfter(db, before + [id], read, undoable, batch)
      ensures ok && undoable ==> NewItems(db, batch, Changed(db, before + [id], read))
      ensures !ok ==> undoable && id in Changed(db, before + [id], read) && ItemKey(batch, id) in db.items
    {
      WorkOneMore(db, before, id, read, undoable, batch);
      NewItemsOneMore(db, batch, Changed(db, before, read), id);
      var journal := work.journal;
      if !undoable {
        journal := WithoutEntry(journal, id);
      }
      if id !in work.rows || work.rows[id].status == Mark(read) {
        return true, work.(journal := journal);
      }
      if undoable {
        if ItemKey(batch, id) in journal {
          return false, work;
        }
        journal := journal[ItemKey(batch, id) := work.rows[id].status == Read];
      }
      ok := true;
      next := Work(
        work.rows[id := work.rows[id].(status := Mark(read))],
        work.outbox[id := Pending(read, NextRevision(work.outbox, id))],
        journal,
        work.count + 1);
    }

    method SetStarred(id: int, starred: bool)
      modifies this
      ensures Tables() == StoreSpec.SetStarred(old(Tables()), id, starred)
    {
      if id in entries {
        entries := entries[id := entries[id].(starred := starred)];
      }
      starMarks := starMarks[id := Pending(starred, NextRevision(starMarks, id))];
      assert starMarks == Enqueue(old(starMarks), map[id := starred]);
    }

    method PendingList() returns (pending: seq<Mutation>)
      ensures Lists(Tables(), pending)
    {
      var marks := ListOutbox(readMarks, ReadField);
      var starred := ListOutbox(starMarks, StarredField);
      ListsBoth(Tables(), marks, starred);
      pending := marks + starred;
    }

    static method ListOutbox(outbox: map<int, Pending>, field: Field) returns (list: seq<Mutation>)
      ensures ListsField(outbox, field, list)
    {
      list := [];
      var todo := outbox.Keys;
      while todo != {}
        invariant todo <= outbox.Keys
        invariant forall m :: m in list ==> m.field == field && m.id !in todo && QueuedIn(outbox, m)
        invariant forall i, j :: 0 <= i < j < |list| ==> list[i].id != list[j].id
        invariant forall id :: id in outbox && id !in todo ==> Delivery(outbox, field, id) in list
      {
        Inhabited(todo);
        var id :| id in todo;
        todo := todo - {id};
        list := list + [Delivery(outbox, field, id)];
      }
    }

    method Acknowledge(m: Mutation) returns (committed: bool)
      modifies this
      ensures committed <==> StoreSpec.Acknowledge(old(Tables()), m).Success?
      ensures Tables() == if committed then StoreSpec.Acknowledge(old(Tables()), m).value else old(Tables())
    {
      committed := m.id in entries;
      if committed {
        match m.field {
          case ReadField => AdvanceReadBaseline(m);
          case StarredField => AdvanceStarBaseline(m);
        }
      }
    }

    method AdvanceReadBaseline(m: Mutation)
      requires m.id in entries
      modifies this
      ensures Tables() == AcknowledgeRead(old(Tables()), m)
    {
      var row := entries[m.id];
      var shift := ReadShift(row.remoteStatus, m.desired);
      if shift != 0 {
        if row.feedId in feeds {
          var feed := feeds[row.feedId];
          feeds := feeds[row.feedId := feed.(unread := Max(0, feed.unread + shift))];
        }
        totals := map k | k in totals ::
          if CountsReadsOf(k, row) then Max(0, totals[k] + shift) else totals[k];
      }
      entries := entries[m.id := row.(remoteStatus := Mark(m.desired))];
      if m.id in readMarks && readMarks[m.id].revision == m.revision {
        readMarks := readMarks - {m.id};
      }
      ReadTotalsShift(old(totals), row, shift);
    }

    method AdvanceStarBaseline(m: Mutation)
      requires m.id in entries
      modifies this
      ensures Tables() == AcknowledgeStar(old(Tables()), m)
    {
      var row := entries[m.id];
      var shift := StarShift(row.remoteStarred, m.desired);
      if shift != 0 {
        starredTotal := Max(0, starredTotal + shift);
        totals := map k | k in totals ::
          if k.kind == KindStarred then Max(0, totals[k] + shift) else totals[k];
      }
      entries := entries[m.id := row.(remoteStarred := m.desired)];
      if m.id in starMarks && starMarks[m.id].revision == m.revision {
        starMarks := starMarks - {m.id};
      }
      StarTotalsShift(old(totals), shift);
    }

    method Undo(batch: string) returns (restored: seq<int>)
      modifies this
      ensures Tables() == StoreSpec.Undo(old(Tables()), batch)
      ensures Elements(restored) == Priors(old(items), batch).Keys && Distinct(restored)
    {
      entries, readMarks, restored := RestoreEach(Priors(items, batch));
      DiscardUndo(batch);
    }

    /** The loop over a batch's items, on the tables it rewrites. */
    method RestoreEach(priors: map<int, bool>)
      returns (rows: map<int, Row>, outbox: map<int, Pending>, restored: seq<int>)
      ensures rows == MarkRows(entries, priors)
      ensures outbox == Enqueue(readMarks, priors)
      ensures Elements(restored) == priors.Keys && Distinct(restored)
    {
      rows, outbox, restored := entries, readMarks, [];
      ghost var done: map<int, bool> := map[];
      var todo := priors.Keys;
      while todo != {}
        invariant todo <= priors.Keys && done == priors - todo
        invariant Elements(restored) == done.Keys && Distinct(restored)
        invariant rows == MarkRows(entries, done)
        invariant outbox == Enqueue(readMarks, done)
      {
        Inhabited(todo);
        var id :| id in todo;
        VisitOneMore(priors, todo, id);
        todo := todo - {id};
        RestoreOneMore(entries, readMarks, done, id, priors[id]);
        if id in rows {
          rows := rows[id := rows[id].(status := Mark(priors[id]))];
        }
        outbox := outbox[id := Pending(priors[id], NextRevision(outbox, id))];
        restored := restored + [id];
        done := done[id := priors[id]];
      }
    }

    method DiscardUndo(batch: string)
      modifies this`items, this`batches
      ensures Tables() == WithoutBatch(old(Tables()), batch)
    {
      items := map k | k in items && k.batch != batch :: items[k];
      batches := batches - {batch};
    }

    method ApplySnapshot(snapshot: Snapshot) returns (committed: bool)
      modifies this
      ensures committed <==> Apply(old(Tables()), snapshot).Success?
      ensures Tables() == if committed then Apply(old(Tables()), snapshot).value else old(Tables())
    {
      var selection := Normalize(snapshot.selection);
      var rows := entries;
      if Reconciles(snapshot) {
        var distinct, fetched := FetchedIds(snapshot.entries);
        if !distinct {
          return false;
        }
        rows := ReconcileRows(Tables(), selection, fetched);
      }
      var rebuilt, nav := NavigationTables(snapshot.categories);
      if !rebuilt {
        return false;
      }
      rows := UpsertEach(rows, snapshot.entries);
      starredTotal := snapshot.starredTotal;
      totals := totals[Key(selection) := snapshot.total];
      categories, feeds, entries := nav.categories, nav.feeds, rows;
      committed := true;
    }

    /** Fills the temporary id table; its primary key rejects a repeated id. */
    static method FetchedIds(fetched: seq<Entry>) returns (distinct: bool, ids: set<int>)
      ensures distinct <==> DistinctIds(fetched)
      ensures distinct ==> ids == Ids(fetched)
    {
      ids := {};
      for i := 0 to |fetched|
        invariant ids == Ids(fetched[..i]) && DistinctIds(fetched[..i])
      {
        if fetched[i].id in ids {
          ghost var e :| e in fetched[..i] && e.id == fetched[i].id;
          return false, ids;
        }
        ids := ids + {fetched[i].id};
        assert fetched[..i + 1] == fetched[..i] + [fetched[i]];
      }
      assert fetched[..|fetched|] == fetched;
      distinct := true;
    }

    static method NavigationTables(nodes: seq<CategoryNode>) returns (ok: bool, nav: NavTables)
      ensures ok <==> InsertCategories(nodes).Success?
      ensures ok ==> nav == InsertCategories(nodes).value
    {
      nav := NavTables(map[], map[]);
      for i := 0 to |nodes|
        invariant InsertCategories(nodes[..i]) == Success(nav)
      {
        var category := nodes[i];
        assert nodes[..i + 1][..i] == nodes[..i];
        var inserted := category.id !in nav.categories;
        var rows := nav.feeds;
        if inserted {
          inserted, rows := FeedTable(nav.feeds, category);
        }
        if !inserted {
          InsertCategoriesFails(nodes, i + 1);
          return false, nav;
        }
        nav := NavTables(nav.categories[category.id := category.title], rows);
      }
      assert nodes[..|nodes|] == nodes;
      ok := true;
    }

    static method FeedTable(before: map<int, FeedRow>, category: CategoryNode)
      returns (ok: bool, rows: map<int, FeedRow>)
      ensures ok <==> InsertFeeds(before, category.id, category.feeds).Success?
      ensures ok ==> rows == InsertFeeds(before, category.id, category.feeds).value
    {
      var nodes := category.feeds;
      rows := before;
      for j := 0 to |nodes|
        invariant InsertFeeds(before, category.id, nodes[..j]) == Success(rows)
      {
        assert nodes[..j + 1][..j] == nodes[..j];
        if nodes[j].id in rows {
          InsertFeedsFails(before, category.id, nodes, j + 1);
          return false, rows;
        }
        rows := rows[nodes[j].id := FeedRow(category.id, nodes[j].title, nodes[j].unread)];
      }
      assert nodes[..|nodes|] == nodes;
      ok := true;
    }

    method UpsertEach(before: map<int, Row>, fetched: seq<Entry>) returns (rows: map<int, Row>)
      ensures rows == UpsertAll(Tables(), before, fetched)
    {
      rows := before;
      for i := 0 to |fetched|
        invariant rows == UpsertAll(Tables(), before, fetched[..i])
      {
        assert fetched[..i + 1][..i] == fetched[..i];
        rows := rows[fetched[i].id := UpsertRow(Tables(), rows, fetched[i])];
      }
      assert fetched[..|fetched|] == fetched;
    }

    /** Category counts and the unread total, feed by feed. */
    method Navigation() returns (counts: map<int, int>, unreadTotal: int)
      ensures counts == CategoryCounts(Tables())
      ensures unreadTotal == UnreadTotal(Tables())
    {
      ghost var all := CategoryCounts(Tables());
      counts, unreadTotal := map[], 0;
      var todo := categories.Keys;
      assert counts == all - todo;
      while todo != {}
        invariant todo <= categories.Keys
        invariant counts == all - todo
        invariant unreadTotal == SumMap(counts)
      {
        Inhabited(todo);
        var category :| category in todo;
        VisitOneMore(all, todo, category);
        todo := todo - {category};
        var sum := CategoryUnread(category);
        SumMapAdd(counts, category, sum);
        counts := counts[category := sum];
        unreadTotal := unreadTotal + sum;
      }
    }

    method CategoryUnread(category: int) returns (sum: int)
      ensures sum == SumMap(FeedCounts(Tables(), category))
    {
      ghost var all := FeedCounts(Tables(), category);
      ghost var seen: map<int, int> := map[];
      sum := 0;
      var todo := set f | f in feeds && feeds[f].categoryId == category;
      assert todo == all.Keys;
      while todo != {}
        invariant todo <= all.Keys && seen == all - todo
        invariant sum == SumMap(seen)
      {
        Inhabited(todo);
        var feed :| feed in todo;
        VisitOneMore(all, todo, feed);
        todo := todo - {feed};
        var unread := ShownUnread(Tables(), feed);
        SumMapAdd(seen, feed, unread);
        seen := seen[feed := unread];
        sum := sum + unread;
      }
      assert seen == all;
    }
  }

  lemma {:induction false} InsertFeedsFails(feeds: map<int, FeedRow>, category: int, nodes: seq<FeedNode>, n: nat)
    requires n <= |nodes| && InsertFeeds(feeds, category, nodes[..n]).Failure?
    ensures InsertFeeds(feeds, category, nodes).Failure?
    decreases |nodes| - n
  {
    if n == |nodes| {
      assert nodes[..n] == nodes;
    } else {
      assert nodes[..n + 1][..n] == nodes[..n];
      InsertFeedsFails(feeds, category, nodes, n + 1);
    }
  }

  lemma {:induction false} InsertCategoriesFails(nodes: seq<CategoryNode>, n: nat)
    requires n <= |nodes| && InsertCategories(nodes[..n]).Failure?
    ensures InsertCategories(nodes).Failure?
    decreases |nodes| - n
  {
    if n == |nodes| {
      assert nodes[..n] == nodes;
    } else {
      assert nodes[..n + 1][..n] == nodes[..n];
      InsertCategoriesFails(nodes, n + 1);
    }
  }
}
