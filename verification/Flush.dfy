/** Delivering the outbox one row at a time, with failures and retries. */
module Flush {
  import opened Domain
  import opened StoreSpec
  import opened Overlay
  import opened Persistence

  // ---- What a delivery sequence does ------------------------------------

  /** What a delivery that takes effect changes; an unknown article stays unknown. */
  function Deliver(articles: map<int, Article>, m: Mutation): map<int, Article> {
    if m.id !in articles then articles
    else match m.field
    case ReadField => articles[m.id := articles[m.id].(read := m.desired)]
    case StarredField => articles[m.id := articles[m.id].(starred := m.desired)]
  }

  /** Every star can be looked up on the server. */
  predicate Reachable(articles: map<int, Article>, ms: seq<Mutation>) {
    forall m :: m in ms && m.field == StarredField ==> m.id in articles
  }

  function DeliverAll(articles: map<int, Article>, ms: seq<Mutation>): (r: map<int, Article>)
    ensures r.Keys == articles.Keys
  {
    if ms == [] then articles
    else Deliver(DeliverAll(articles, ms[..|ms| - 1]), ms[|ms| - 1])
  }

  predicate Stored(db: Db, ms: seq<Mutation>) {
    forall m :: m in ms ==> m.id in db.entries
  }

  function ConfirmAll(db: Db, ms: seq<Mutation>): (r: Db)
    requires Stored(db, ms)
    ensures r.entries.Keys == db.entries.Keys
  {
    if ms == [] then db
    else Acknowledge(ConfirmAll(db, ms[..|ms| - 1]), ms[|ms| - 1]).value
  }

  // ---- Closed forms --------------------------------------------------------

  /** The last value a sequence delivers for one field of one entry. */
  function Target(ms: seq<Mutation>, id: int, field: Field): Option<bool> {
    if ms == [] then None
    else
      var last := ms[|ms| - 1];
      if last.id == id && last.field == field then Some(last.desired)
      else Target(ms[..|ms| - 1], id, field)
  }

  function Over(value: bool, written: Option<bool>): bool {
    if written.Some? then written.value else value
  }

  function Written(a: Article, marked: Option<bool>, starred: Option<bool>): Article {
    a.(read := Over(a.read, marked), starred := Over(a.starred, starred))
  }

  lemma {:induction false} DeliverAllAt(articles: map<int, Article>, ms: seq<Mutation>, id: int)
    requires id in articles
    ensures DeliverAll(articles, ms)[id] ==
            Written(articles[id], Target(ms, id, ReadField), Target(ms, id, StarredField))
  {
    if ms != [] {
      DeliverAllAt(articles, ms[..|ms| - 1], id);
    }
  }

  function Confirmed(row: Row, marked: Option<bool>, starred: Option<bool>): Row {
    row.(remoteStatus := if marked.Some? then Mark(marked.value) else row.remoteStatus,
         remoteStarred := if starred.Some? then starred.value else row.remoteStarred)
  }

  lemma {:induction false} ConfirmAllRow(db: Db, ms: seq<Mutation>, id: int)
    requires Stored(db, ms) && id in db.entries
    ensures ConfirmAll(db, ms).entries[id] ==
            Confirmed(db.entries[id], Target(ms, id, ReadField), Target(ms, id, StarredField))
  {
    if ms != [] {
      ConfirmAllRow(db, ms[..|ms| - 1], id);
    }
  }

  /** With current revisions, confirming removes exactly the confirmed rows. */
  lemma {:induction false} ConfirmAllOutbox(db: Db, ms: seq<Mutation>, id: int, field: Field)
    requires Stored(db, ms) && forall m :: m in ms ==> QueuedIn(Outbox(db, m.field), m)
    ensures var before, after := Outbox(db, field), Outbox(ConfirmAll(db, ms), field);
            && (id in after <==> id in before && Target(ms, id, field).None?)
            && (id in after ==> after[id] == before[id])
  {
    if ms != [] {
      var front, last := ms[..|ms| - 1], ms[|ms| - 1];
      ConfirmAllOutbox(db, front, id, field);
      ConfirmAllOutbox(db, front, last.id, last.field);
      assert last in ms && QueuedIn(Outbox(db, last.field), last);
    }
  }

  lemma {:induction false} TargetIsDelivered(ms: seq<Mutation>, id: int, field: Field)
    ensures Target(ms, id, field).Some? <==> exists m :: m in ms && m.id == id && m.field == field
    ensures Target(ms, id, field).Some? ==>
      exists m :: m in ms && m.id == id && m.field == field && m.desired == Target(ms, id, field).value
  {
    if ms != [] {
      var front, last := ms[..|ms| - 1], ms[|ms| - 1];
      TargetIsDelivered(front, id, field);
      assert ms == front + [last];
    }
  }

  /** Working through the whole outbox delivers every queued value. */
  lemma ListedTargets(db: Db, pending: seq<Mutation>, id: int, field: Field)
    requires Lists(db, pending)
    ensures Target(pending, id, field) == QueuedValue(db, id, field)
  {
    TargetIsDelivered(pending, id, field);
    if id in Outbox(db, field) {
      assert Delivery(Outbox(db, field), field, id) in pending;
    }
  }

  lemma ListedStored(db: Db, pending: seq<Mutation>)
    requires Lists(db, pending) && Referenced(db)
    ensures Stored(db, pending)
  {
    forall m | m in pending ensures m.id in db.entries {
      assert QueuedIn(Outbox(db, m.field), m);
    }
  }

  // ---- Convergence ---------------------------------------------------------

  /** The server after every queued value arrived. */
  function Merged(articles: map<int, Article>, db: Db): map<int, Article> {
    map id | id in articles :: Written(articles[id], QueuedValue(db, id, ReadField), QueuedValue(db, id, StarredField))
  }

  function QueuedValue(db: Db, id: int, field: Field): Option<bool> {
    if id in Outbox(db, field) then Some(Outbox(db, field)[id].desired) else None
  }

  /** The table after every queued value was acknowledged. */
  function Advanced(db: Db): map<int, Row> {
    map id | id in db.entries ::
      Confirmed(db.entries[id], QueuedValue(db, id, ReadField), QueuedValue(db, id, StarredField))
  }

  /** The table with every baseline equal to its local value. */
  function Synced(rows: map<int, Row>): map<int, Row> {
    map id | id in rows :: rows[id].(remoteStatus := rows[id].status, remoteStarred := rows[id].starred)
  }

  lemma AdvancedIsSynced(db: Db)
    ensures Advanced(db) == Synced(db.entries) <==> Overlaid(db)
  {
    if Advanced(db) == Synced(db.entries) {
      forall id | id in db.entries
        ensures ReadOverlaid(db.readMarks, id, db.entries[id]) && StarOverlaid(db.starMarks, id, db.entries[id])
      {
        assert Advanced(db)[id] == Synced(db.entries)[id];
      }
    }
    if Overlaid(db) {
      forall id | id in db.entries ensures Advanced(db)[id] == Synced(db.entries)[id] {
        assert ReadOverlaid(db.readMarks, id, db.entries[id]) && StarOverlaid(db.starMarks, id, db.entries[id]);
      }
    }
  }

  /** A complete flush of an outbox without orphans empties it, merges it into the
      server and advances every baseline to its queued value; no local value
      moves. Over an overlaid table that makes every baseline its local value. */
  lemma FullFlushConverges(db: Db, articles: map<int, Article>, pending: seq<Mutation>)
    requires Referenced(db) && Lists(db, pending)
    ensures Stored(db, pending)
    ensures DeliverAll(articles, pending) == Merged(articles, db)
    ensures var after := ConfirmAll(db, pending);
            && after.readMarks == map[] && after.starMarks == map[]
            && after.entries == Advanced(db)
            && (after.entries == Synced(db.entries) <==> Overlaid(db))
  {
    ListedStored(db, pending);
    FullFlushMerges(db, articles, pending);
    FullFlushEmpties(db, pending, ReadField);
    FullFlushEmpties(db, pending, StarredField);
    FullFlushAdvances(db, pending);
    AdvancedIsSynced(db);
  }

  lemma FullFlushMerges(db: Db, articles: map<int, Article>, pending: seq<Mutation>)
    requires Lists(db, pending)
    ensures DeliverAll(articles, pending) == Merged(articles, db)
  {
    forall id | id in articles ensures DeliverAll(articles, pending)[id] == Merged(articles, db)[id] {
      DeliverAllAt(articles, pending, id);
      ListedTargets(db, pending, id, ReadField);
      ListedTargets(db, pending, id, StarredField);
    }
  }

  lemma FullFlushAdvances(db: Db, pending: seq<Mutation>)
    requires Lists(db, pending) && Stored(db, pending)
    ensures ConfirmAll(db, pending).entries == Advanced(db)
  {
    forall id | id in db.entries ensures ConfirmAll(db, pending).entries[id] == Advanced(db)[id] {
      ConfirmAllRow(db, pending, id);
      ListedTargets(db, pending, id, ReadField);
      ListedTargets(db, pending, id, StarredField);
    }
  }

  lemma FullFlushEmpties(db: Db, pending: seq<Mutation>, field: Field)
    requires Lists(db, pending) && Stored(db, pending)
    ensures Outbox(ConfirmAll(db, pending), field) == map[]
  {
    forall id ensures id !in Outbox(ConfirmAll(db, pending), field) {
      ConfirmAllOutbox(db, pending, id, field);
      ListedTargets(db, pending, id, field);
    }
  }

  /** A flush that stops confirms a prefix, whatever the outbox holds: its rows are
      gone, every other row is untouched. */
  lemma PrefixLeavesSuffix(db: Db, pending: seq<Mutation>, k: nat, j: nat)
    requires Lists(db, pending) && k <= |pending| && j < |pending| && Stored(db, pending[..k])
    ensures var m := pending[j];
            var outbox := Outbox(ConfirmAll(db, pending[..k]), m.field);
            if j < k then m.id !in outbox else QueuedIn(outbox, m)
  {
    var m := pending[j];
    assert m in pending;
    forall n | n in pending[..k] ensures QueuedIn(Outbox(db, n.field), n) {
      assert n in pending;
    }
    ConfirmAllOutbox(db, pending[..k], m.id, m.field);
    PrefixTarget(db, pending, k, j);
  }

  lemma PrefixTarget(db: Db, pending: seq<Mutation>, k: nat, j: nat)
    requires Lists(db, pending) && k <= |pending| && j < |pending|
    ensures Target(pending[..k], pending[j].id, pending[j].field).Some? <==> j < k
  {
    var front, m := pending[..k], pending[j];
    TargetIsDelivered(front, m.id, m.field);
    if j < k {
      assert front[j] == m;
    }
    assert forall i :: 0 <= i < k ==> front[i] == pending[i];
  }

  /** After any interrupted attempt, with some deliveries applied but not
      acknowledged, flushing again in any order ends in the same place as one
      undisturbed flush, although stars are set by toggling. */
  lemma RetryConverges(
      db: Db, articles: map<int, Article>, pending: seq<Mutation>,
      confirmed: nat, delivered: nat, retry: seq<Mutation>)
    requires Referenced(db) && Lists(db, pending)
    requires confirmed <= delivered <= |pending| && Stored(db, pending[..confirmed])
    requires Lists(ConfirmAll(db, pending[..confirmed]), retry)
    ensures var half := DeliverAll(articles, pending[..delivered]);
            var left := ConfirmAll(db, pending[..confirmed]);
            && (Reachable(articles, pending) ==> Reachable(half, retry))
            && Stored(left, retry) && Stored(db, pending)
            && DeliverAll(half, retry) == DeliverAll(articles, pending)
            && ConfirmAll(left, retry).readMarks == map[] && ConfirmAll(left, retry).starMarks == map[]
            && ConfirmAll(left, retry).entries == ConfirmAll(db, pending).entries
            && (ConfirmAll(left, retry).entries == Synced(db.entries) <==> Overlaid(db))
  {
    var left := ConfirmAll(db, pending[..confirmed]);
    PrefixKeepsReferenced(db, pending, confirmed);
    FullFlushConverges(db, articles, pending);
    if Reachable(articles, pending) {
      ReachableRetry(db, articles, pending, confirmed, retry);
    }
    FullFlushConverges(left, DeliverAll(articles, pending[..delivered]), retry);
    RetriedTable(db, pending, confirmed);
    RetriedServer(db, articles, pending, confirmed, delivered);
  }

  lemma RetriedTable(db: Db, pending: seq<Mutation>, confirmed: nat)
    requires Lists(db, pending) && confirmed <= |pending| && Stored(db, pending[..confirmed])
    ensures Advanced(ConfirmAll(db, pending[..confirmed])) == Advanced(db)
  {
    var left := ConfirmAll(db, pending[..confirmed]);
    forall id | id in db.entries ensures Advanced(left)[id] == Advanced(db)[id] {
      ConfirmAllRow(db, pending[..confirmed], id);
      MergeAgain(db, pending, confirmed, confirmed, id, ReadField);
      MergeAgain(db, pending, confirmed, confirmed, id, StarredField);
    }
  }

  lemma RetriedServer(db: Db, articles: map<int, Article>, pending: seq<Mutation>, confirmed: nat, delivered: nat)
    requires Lists(db, pending)
    requires confirmed <= delivered <= |pending| && Stored(db, pending[..confirmed])
    ensures Merged(DeliverAll(articles, pending[..delivered]), ConfirmAll(db, pending[..confirmed])) ==
            Merged(articles, db)
  {
    var half, left := DeliverAll(articles, pending[..delivered]), ConfirmAll(db, pending[..confirmed]);
    forall id | id in articles ensures Merged(half, left)[id] == Merged(articles, db)[id] {
      RetriedArticle(db, articles, pending, confirmed, delivered, id);
    }
  }

  lemma RetriedArticle(
      db: Db, articles: map<int, Article>, pending: seq<Mutation>, confirmed: nat, delivered: nat, id: int)
    requires Lists(db, pending)
    requires confirmed <= delivered <= |pending| && Stored(db, pending[..confirmed]) && id in articles
    ensures Merged(DeliverAll(articles, pending[..delivered]), ConfirmAll(db, pending[..confirmed]))[id] ==
            Merged(articles, db)[id]
  {
    DeliverAllAt(articles, pending[..delivered], id);
    RetriedField(db, pending, confirmed, delivered, id, ReadField, articles[id].read);
    RetriedField(db, pending, confirmed, delivered, id, StarredField, articles[id].starred);
  }

  lemma RetriedField(
      db: Db, pending: seq<Mutation>, confirmed: nat, delivered: nat, id: int, field: Field, value: bool)
    requires Lists(db, pending) && confirmed <= delivered <= |pending|
    requires Stored(db, pending[..confirmed])
    ensures Over(Over(value, Target(pending[..delivered], id, field)),
                 QueuedValue(ConfirmAll(db, pending[..confirmed]), id, field)) ==
            Over(value, QueuedValue(db, id, field))
  {
    MergeAgain(db, pending, confirmed, delivered, id, field);
  }

  /** What was delivered but is no longer queued had its queued value. */
  lemma MergeAgain(db: Db, pending: seq<Mutation>, confirmed: nat, delivered: nat, id: int, field: Field)
    requires Lists(db, pending) && confirmed <= delivered <= |pending|
    requires Stored(db, pending[..confirmed])
    ensures var outbox, left := Outbox(db, field), Outbox(ConfirmAll(db, pending[..confirmed]), field);
            var target := Target(pending[..delivered], id, field);
            && (id in left ==> id in outbox && left[id] == outbox[id])
            && (target.Some? ==> id in outbox && target.value == outbox[id].desired)
            && (id in outbox && id !in left ==> target.Some?)
  {
    var front, sent := pending[..confirmed], pending[..delivered];
    forall m | m in sent ensures m in pending && QueuedIn(Outbox(db, m.field), m) {
    }
    forall m | m in front ensures m in sent {
      assert front == sent[..confirmed];
    }
    ConfirmAllOutbox(db, front, id, field);
    TargetIsDelivered(front, id, field);
    TargetIsDelivered(sent, id, field);
  }

  lemma PrefixKeepsReferenced(db: Db, pending: seq<Mutation>, k: nat)
    requires Referenced(db) && Lists(db, pending) && k <= |pending| && Stored(db, pending[..k])
    ensures Referenced(ConfirmAll(db, pending[..k]))
  {
    var after := ConfirmAll(db, pending[..k]);
    forall id
      ensures id in after.readMarks ==> id in db.readMarks
      ensures id in after.starMarks ==> id in db.starMarks
    {
      MergeAgain(db, pending, k, k, id, ReadField);
      MergeAgain(db, pending, k, k, id, StarredField);
    }
  }

  lemma ReachableRetry(
      db: Db, articles: map<int, Article>, pending: seq<Mutation>, confirmed: nat, retry: seq<Mutation>)
    requires Lists(db, pending) && Reachable(articles, pending)
    requires confirmed <= |pending| && Stored(db, pending[..confirmed])
    requires Lists(ConfirmAll(db, pending[..confirmed]), retry)
    ensures Reachable(articles, retry)
  {
    forall m | m in retry && m.field == StarredField ensures m.id in articles {
      assert QueuedIn(Outbox(ConfirmAll(db, pending[..confirmed]), m.field), m);
      MergeAgain(db, pending, confirmed, confirmed, m.id, m.field);
      assert Delivery(Outbox(db, m.field), m.field, m.id) in pending;
    }
  }

  /** A row without an entry stops every flush: it and all rows listed behind it
      stay queued, however many attempts confirm the rows before it. */
  lemma OrphanBlocks(db: Db, pending: seq<Mutation>, confirmed: nat, k: nat)
    requires Lists(db, pending) && confirmed <= |pending| && Stored(db, pending[..confirmed])
    requires k < |pending| && pending[k].id !in db.entries
    ensures confirmed <= k && pending[k].id !in ConfirmAll(db, pending[..confirmed]).entries
    ensures forall j :: k <= j < |pending| ==>
              QueuedIn(Outbox(ConfirmAll(db, pending[..confirmed]), pending[j].field), pending[j])
  {
    forall i | 0 <= i < confirmed ensures pending[i].id in db.entries {
      assert pending[..confirmed][i] == pending[i];
    }
    forall j | k <= j < |pending|
      ensures QueuedIn(Outbox(ConfirmAll(db, pending[..confirmed]), pending[j].field), pending[j])
    {
      PrefixLeavesSuffix(db, pending, confirmed, j);
    }
  }

  /** Starring an unknown article and then marking a known one: no flush that
      lists the star first confirms anything. */
  lemma StarOfMissingEntryBlocksFlush()
    ensures var row := Row(1, 1, "", Unread, false, Unread, false);
            var before := EmptyDb().(entries := map[7 := row]);
            var db := SetRead(SetStarred(before, 5, true), [7], true, false, "");
            var pending := [Mutation(5, StarredField, true, 1), Mutation(7, ReadField, true, 1)];
            && Lists(db, pending)
            && forall confirmed: nat :: confirmed <= |pending| && Stored(db, pending[..confirmed]) ==> confirmed == 0
  {
    var row := Row(1, 1, "", Unread, false, Unread, false);
    var db := SetRead(SetStarred(EmptyDb().(entries := map[7 := row]), 5, true), [7], true, false, "");
    var pending := [Mutation(5, StarredField, true, 1), Mutation(7, ReadField, true, 1)];
    assert Changed(SetStarred(EmptyDb().(entries := map[7 := row]), 5, true), [7], true) == {7};
    assert db.readMarks == map[7 := Pending(true, 1)] && db.starMarks == map[5 := Pending(true, 1)];
    assert pending[0] in pending && pending[1] in pending;
    forall confirmed: nat | confirmed <= |pending| && Stored(db, pending[..confirmed]) ensures confirmed == 0 {
      OrphanBlocks(db, pending, confirmed, 0);
    }
  }

  /** Every listed row can be acknowledged exactly when the outbox belongs to
      stored entries. */
  lemma FlushGetsThroughExactly(db: Db, pending: seq<Mutation>)
    requires Lists(db, pending)
    ensures Stored(db, pending) <==> Referenced(db)
  {
    if Stored(db, pending) {
      forall id | id in db.readMarks ensures id in db.entries {
        assert Delivery(Outbox(db, ReadField), ReadField, id) in pending;
      }
      forall id | id in db.starMarks ensures id in db.entries {
        assert Delivery(Outbox(db, StarredField), StarredField, id) in pending;
      }
    } else if Referenced(db) {
      ListedStored(db, pending);
    }
  }
}
