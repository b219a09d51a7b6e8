/** The flush loop of the account service over a remote that may fail any call. */
module SyncService {
  import opened Domain
  import opened StoreSpec
  import opened Overlay
  import opened Persistence
  import opened Flush

  /** How a remote call ends; a lost reply reports failure after taking effect. */
  datatype Reply = Works | Refused | Lost

  class RemoteInbox {
    var articles: map<int, Article>

    constructor (articles: map<int, Article>)
      ensures this.articles == articles
    {
      this.articles := articles;
    }

    /** A batch update answers for the call, not for the article. */
    method SetReadBatch(id: int, read: bool, reply: Reply) returns (ok: bool)
      modifies this
      ensures ok <==> reply == Works
      ensures articles == if id in old(articles) && reply != Refused
                          then old(articles)[id := old(articles)[id].(read := read)] else old(articles)
    {
      if id in articles && reply != Refused {
        articles := articles[id := articles[id].(read := read)];
      }
      ok := reply == Works;
    }

    /** An unknown article has no star to read. */
    method EntryStarred(id: int, reply: Reply) returns (ok: bool, current: bool)
      ensures ok <==> id in articles && reply == Works
      ensures ok ==> current == articles[id].starred
    {
      ok := id in articles && reply == Works;
      current := if id in articles then articles[id].starred else false;
    }

    method ToggleStarred(id: int, reply: Reply) returns (ok: bool)
      modifies this
      ensures ok <==> id in old(articles) && reply == Works
      ensures articles == if id in old(articles) && reply != Refused
                          then old(articles)[id := old(articles)[id].(starred := !old(articles)[id].starred)]
                          else old(articles)
    {
      if id in articles && reply != Refused {
        articles := articles[id := articles[id].(starred := !articles[id].starred)];
      }
      ok := id in articles && reply == Works;
    }
  }

  /** Everything outside the loop's control for one outbox row: the replies to
      its calls, whether the store was free in time, and the deadline after it. */
  datatype Luck = Luck(first: Reply, second: Reply, storeFree: bool, inTime: bool)

  predicate Perfect(luck: Luck) {
    luck == Luck(Works, Works, true, true)
  }

  /** Every call works, the store is always free and no deadline passes. */
  ghost predicate AllPerfect(luck: nat -> Luck, n: nat) {
    forall i: nat :: i < n ==> Perfect(luck(i))
  }

  /** A prefix is confirmed and at most one more row is delivered. */
  ghost predicate Progress(db: Db, list: seq<Mutation>, delivered: nat, confirmed: nat) {
    && confirmed <= delivered <= confirmed + 1 && delivered <= |list|
    && Stored(db, list[..confirmed])
  }

  /** The outbox is empty, the server holds what was queued, and every baseline is
      its queued value; over an overlaid table each equals its local value. */
  ghost predicate Converged(db: Db, articles: map<int, Article>, after: Db, after': map<int, Article>) {
    && after' == Merged(articles, db)
    && after.readMarks == map[] && after.starMarks == map[]
    && after.entries == Advanced(db) && (after.entries == Synced(db.entries) <==> Overlaid(db))
  }

  /** The first `confirmed` rows have left the outbox, all others are untouched. */
  ghost predicate Left(after: Db, list: seq<Mutation>, confirmed: nat) {
    forall j :: 0 <= j < |list| ==>
      if j < confirmed then list[j].id !in Outbox(after, list[j].field)
      else QueuedIn(Outbox(after, list[j].field), list[j])
  }

  /** Converged in plain terms: the server differs from before only by the queued
      values, nothing is queued, and each baseline is what the list shows. */
  lemma ConvergedMeans(db: Db, articles: map<int, Article>, after: Db, after': map<int, Article>, id: int)
    requires Converged(db, articles, after, after') && Overlaid(db)
    ensures id !in after.readMarks && id !in after.starMarks
    ensures id in after' <==> id in articles
    ensures id in articles ==>
              && after'[id].read == (if id in db.readMarks then db.readMarks[id].desired else articles[id].read)
              && after'[id].starred == (if id in db.starMarks then db.starMarks[id].desired else articles[id].starred)
              && after'[id].feedId == articles[id].feedId && after'[id].categoryId == articles[id].categoryId
              && after'[id].text == articles[id].text
    ensures id in after.entries <==> id in db.entries
    ensures id in db.entries ==>
              && after.entries[id].status == db.entries[id].status == after.entries[id].remoteStatus
              && after.entries[id].starred == db.entries[id].starred == after.entries[id].remoteStarred
              && after.entries[id].feedId == db.entries[id].feedId
              && after.entries[id].categoryId == db.entries[id].categoryId
              && after.entries[id].text == db.entries[id].text
  {
    assert id in Synced(db.entries) <==> id in db.entries;
  }

  lemma FlushOutcome(
      db: Db, articles: map<int, Article>, list: seq<Mutation>,
      ok: bool, delivered: nat, confirmed: nat, perfect: bool)
    requires Lists(db, list) && Progress(db, list, delivered, confirmed)
    requires ok ==> confirmed == |list|
    requires Reachable(articles, list) && Stored(db, list) && perfect ==> ok
    ensures Left(ConfirmAll(db, list[..confirmed]), list, confirmed)
    ensures forall k :: 0 <= k < |list| && list[k].id !in db.entries ==> confirmed <= k
    ensures Reachable(articles, list) && perfect ==> (ok <==> Referenced(db))
    ensures ok ==>
              Converged(db, articles, ConfirmAll(db, list[..confirmed]), DeliverAll(articles, list[..delivered]))
  {
    FlushGetsThroughExactly(db, list);
    forall k | 0 <= k < |list| && list[k].id !in db.entries ensures confirmed <= k {
      OrphanBlocks(db, list, confirmed, k);
    }
    forall j: nat | j < |list|
      ensures if j < confirmed then list[j].id !in Outbox(ConfirmAll(db, list[..confirmed]), list[j].field)
              else QueuedIn(Outbox(ConfirmAll(db, list[..confirmed]), list[j].field), list[j])
    {
      PrefixLeavesSuffix(db, list, confirmed, j);
    }
    if ok {
      assert list[..confirmed] == list && list[..delivered] == list;
      FullFlushConverges(db, articles, list);
    }
  }

  lemma OneMoreDelivery(db: Db, articles: map<int, Article>, list: seq<Mutation>, i: nat)
    requires i < |list| && Stored(db, list[..i])
    ensures DeliverAll(articles, list[..i + 1]) == Deliver(DeliverAll(articles, list[..i]), list[i])
    ensures list[i].id in db.entries ==>
              Stored(db, list[..i + 1])
              && StoreSpec.Acknowledge(ConfirmAll(db, list[..i]), list[i]) == Success(ConfirmAll(db, list[..i + 1]))
    ensures Reachable(articles, list) && list[i].field == StarredField ==> list[i].id in articles
    ensures Stored(db, list) ==> list[i].id in db.entries
  {
    assert list[..i + 1] == list[..i] + [list[i]] && list[..i + 1][..i] == list[..i];
  }

  class Service {
    const store: Store
    const remote: RemoteInbox

    constructor (store: Store, remote: RemoteInbox)
      ensures this.store == store && this.remote == remote
    {
      this.store, this.remote := store, remote;
    }

    /** Sends one row; a star is read first and toggled only if it differs. */
    method Send(m: Mutation, luck: Luck) returns (ok: bool, ghost applied: bool)
      modifies remote
      ensures remote.articles == if applied then Deliver(old(remote.articles), m) else old(remote.articles)
      ensures ok ==> applied
      ensures ok <==> luck.first == Works && (m.field == StarredField ==>
                        m.id in old(remote.articles)
                        && (luck.second == Works || old(remote.articles)[m.id].starred == m.desired))
    {
      match m.field {
        case ReadField =>
          applied := luck.first != Refused;
          ok := remote.SetReadBatch(m.id, m.desired, luck.first);
        case StarredField =>
          var current;
          ok, current := remote.EntryStarred(m.id, luck.first);
          applied := ok && current == m.desired;
          if applied {
            assert Deliver(remote.articles, m) == remote.articles;
          }
          if ok && current != m.desired {
            applied := luck.second != Refused;
            ok := remote.ToggleStarred(m.id, luck.second);
          }
      }
    }

    /** Delivers the outbox row by row and stops at the first failure. Whatever
        happens, a prefix is confirmed and at most one more row is delivered. */
    method FlushPending(luck: nat -> Luck)
      returns (ok: bool, ghost pending: seq<Mutation>, ghost delivered: nat, ghost confirmed: nat)
      modifies store, remote
      ensures Lists(old(store.Tables()), pending)
      ensures Progress(old(store.Tables()), pending, delivered, confirmed)
      ensures remote.articles == DeliverAll(old(remote.articles), pending[..delivered])
      ensures store.Tables() == ConfirmAll(old(store.Tables()), pending[..confirmed])
      ensures ok ==> confirmed == |pending|
      ensures Left(store.Tables(), pending, confirmed)
      ensures forall k :: 0 <= k < |pending| && pending[k].id !in old(store.entries) ==> confirmed <= k
      ensures Reachable(old(remote.articles), pending) && AllPerfect(luck, |pending|) ==>
                && (ok <==> Referenced(old(store.Tables())))
                && (ok || (confirmed < |pending| && pending[confirmed].id !in old(store.entries)))
      ensures ok ==>
                Converged(old(store.Tables()), old(remote.articles), store.Tables(), remote.articles)
    {
      ghost var db, articles := store.Tables(), remote.articles;
      var list := store.PendingList();
      pending := list;
      ok, delivered, confirmed := SendEach(list, luck);
      FlushOutcome(db, articles, list, ok, delivered, confirmed, AllPerfect(luck, |list|));
    }

    /** The loop over the rows that were read. */
    method SendEach(list: seq<Mutation>, luck: nat -> Luck)
      returns (ok: bool, ghost delivered: nat, ghost confirmed: nat)
      modifies store, remote
      ensures Progress(old(store.Tables()), list, delivered, confirmed)
      ensures remote.articles == DeliverAll(old(remote.articles), list[..delivered])
      ensures store.Tables() == ConfirmAll(old(store.Tables()), list[..confirmed])
      ensures ok ==> confirmed == |list|
      ensures Reachable(old(remote.articles), list) && AllPerfect(luck, |list|) ==>
                Stored(old(store.Tables()), list) ==> ok
      ensures Reachable(old(remote.articles), list) && AllPerfect(luck, |list|) ==>
                ok || (confirmed < |list| && list[confirmed].id !in old(store.entries))
    {
      ghost var db, articles := store.Tables(), remote.articles;
      delivered, confirmed := 0, 0;
      for i := 0 to |list|
        invariant confirmed == delivered == i
        invariant remote.articles == DeliverAll(articles, list[..i])
        invariant Stored(db, list[..i]) && store.Tables() == ConfirmAll(db, list[..i])
      {
        OneMoreDelivery(db, articles, list, i);
        var sent;
        ghost var applied;
        sent, applied := Send(list[i], luck(i));
        if applied {
          delivered := i + 1;
        }
        if !sent || !luck(i).storeFree {
          return false, delivered, confirmed;
        }
        var committed := store.Acknowledge(list[i]);
        if !committed {
          return false, delivered, confirmed;
        }
        confirmed := i + 1;
        if !luck(i).inTime {
          return false, delivered, confirmed;
        }
      }
      ok := true;
    }
  }
}
