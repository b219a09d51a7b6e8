/** From every reachable state the worker can still bring everything together. */
module EventualSync {
  import opened Collections
  import opened Domain
  import opened StoreSpec
  import opened Overlay
  import opened Reconciliation
  import opened Persistence
  import opened SyncProtocol

  ghost predicate FairRun(server: map<int, Article>, actions: seq<Action>) {
    Legal(server, actions) && forall a :: a in actions ==> Fair(a)
  }

  /** Steps of the worker alone: no edit, no new article on the server. */
  predicate WorkerSteps(actions: seq<Action>) {
    forall a :: a in actions ==> Fair(a) && !UserAction(a) && !a.Arrive?
  }

  predicate NothingQueued(db: Db) {
    db.readMarks == map[] && db.starMarks == map[]
  }

  lemma {:induction false} ListOf(outbox: map<int, Pending>, field: Field, ids: set<int>) returns (list: seq<Mutation>)
    requires ids <= outbox.Keys
    ensures forall m :: m in list <==> m.id in ids && m == Delivery(outbox, field, m.id)
    ensures forall i, j :: 0 <= i < j < |list| ==> list[i].id != list[j].id
  {
    list := [];
    if ids != {} {
      Inhabited(ids);
      var id :| id in ids;
      var rest := ListOf(outbox, field, ids - {id});
      list := rest + [Delivery(outbox, field, id)];
      assert ids == ids - {id} + {id};
    }
  }

  /** Every outbox can be read. */
  lemma OutboxCanBeRead(db: Db) returns (pending: seq<Mutation>)
    ensures Lists(db, pending)
  {
    var marks := ListOf(db.readMarks, ReadField, db.readMarks.Keys);
    var starred := ListOf(db.starMarks, StarredField, db.starMarks.Keys);
    forall id | id in db.readMarks ensures Delivery(db.readMarks, ReadField, id) in marks {
      assert Delivery(db.readMarks, ReadField, id).id == id;
    }
    forall id | id in db.starMarks ensures Delivery(db.starMarks, StarredField, id) in starred {
      assert Delivery(db.starMarks, StarredField, id).id == id;
    }
    ListsBoth(db, marks, starred);
    pending := marks + starred;
  }

  predicate Other(m: Mutation, id: int, field: Field) {
    id != m.id || field != m.field
  }

  /** An acknowledged row leaves the outbox, and only that one. */
  lemma AcknowledgedOutbox(db: Db, m: Mutation, id: int, field: Field)
    requires m.id in db.entries && QueuedIn(Outbox(db, m.field), m)
    ensures var before, after := Outbox(db, field), Outbox(Acknowledge(db, m).value, field);
            && (id in after <==> id in before && Other(m, id, field))
            && (id in after ==> after[id] == before[id])
  {
  }

  lemma RestIsOther(pending: seq<Mutation>, x: Mutation)
    requires pending != [] && DistinctTargets(pending)
    ensures x in pending[1..] <==> x in pending && Other(pending[0], x.id, x.field)
  {
    assert pending == [pending[0]] + pending[1..];
    if x in pending[1..] {
      var i :| 0 <= i < |pending[1..]| && pending[1..][i] == x;
      assert pending[i + 1] == x;
    }
  }

  /** Acknowledging the first listed row leaves the others listed. */
  lemma ConfirmKeepsListing(db: Db, pending: seq<Mutation>)
    requires Lists(db, pending) && pending != [] && pending[0].id in db.entries
    ensures Lists(Acknowledge(db, pending[0]).value, pending[1..])
  {
    var m, after := pending[0], Acknowledge(db, pending[0]).value;
    assert m in pending && QueuedIn(Outbox(db, m.field), m) && DistinctTargets(pending);
    forall x | x in pending[1..] ensures QueuedIn(Outbox(after, x.field), x) {
      RestIsOther(pending, x);
      AcknowledgedOutbox(db, m, x.id, x.field);
    }
    forall id, field | id in Outbox(after, field) ensures Delivery(Outbox(after, field), field, id) in pending[1..] {
      AcknowledgedOutbox(db, m, id, field);
      RestIsOther(pending, Delivery(Outbox(db, field), field, id));
    }
  }

  lemma StoredOnServer(server: map<int, Article>, actions: seq<Action>, id: int)
    requires FairRun(server, actions)
    requires var db := Reached(server, actions).db; id in db.readMarks || id in db.starMarks || id in db.entries
    ensures id in Reached(server, actions).db.entries && id in Reached(server, actions).server
  {
    RunKeepsInv(server, actions);
    var s := Reached(server, actions);
    assert s.db.entries.Keys == s.ideal.known <= s.server.Keys;
  }

  lemma ExtendFair(server: map<int, Article>, actions: seq<Action>, a: Action)
    requires FairRun(server, actions) && Enabled(Reached(server, actions), a) && Fair(a)
    ensures FairRun(server, actions + [a])
    ensures Reached(server, actions + [a]) == Next(Reached(server, actions), a)
  {
    Extend(server, actions, a);
  }

  /** The steps that deliver one row. */
  function Sending(field: Field): seq<Action> {
    match field
    case ReadField => [SendRead]
    case StarredField => [Probe, ToggleIfNeeded]
  }

  /** About to work through `todo`, with nothing of it sent. */
  predicate AtHead(s: Sys) {
    s.worker.Flushing? && s.worker.phase.Ready?
  }

  /** A call delivers the first listed row, whichever field it is for. */
  lemma SendFirst(server: map<int, Article>, actions: seq<Action>)
    requires FairRun(server, actions)
    requires var s := Reached(server, actions);
             AtHead(s) && s.worker.todo != [] && s.worker.todo[0].id in s.server
    ensures var s := Reached(server, actions);
            var more := actions + Sending(s.worker.todo[0].field);
            && FairRun(server, more)
            && var after := Reached(server, more);
               && after.worker == s.worker.(phase := Sent)
               && after.db == s.db && after.ideal == s.ideal && after.server.Keys == s.server.Keys
  {
    var s := Reached(server, actions);
    match s.worker.todo[0].field {
      case ReadField => ExtendFair(server, actions, SendRead);
      case StarredField =>
        ExtendFair(server, actions, Probe);
        ExtendFair(server, actions + [Probe], ToggleIfNeeded);
        assert actions + [Probe, ToggleIfNeeded] == actions + [Probe] + [ToggleIfNeeded];
    }
  }

  lemma NothingListed(db: Db)
    requires Lists(db, [])
    ensures NothingQueued(db)
  {
    assert forall id :: id !in Outbox(db, ReadField) && id !in Outbox(db, StarredField);
  }

  /** Nothing is queued any more; apart from that only deliveries happened. */
  predicate Drained(s: Sys, after: Sys) {
    && s.worker.Flushing? && after.worker.Flushing? && after.worker.next == s.worker.next
    && NothingQueued(after.db) && after.ideal == s.ideal && after.server.Keys == s.server.Keys
  }

  /** Reading, sending and acknowledging are left for the rows behind the first. */
  predicate FirstDelivered(s: Sys, after: Sys) {
    && AtHead(s) && s.worker.todo != []
    && s.worker.todo[0].id in s.db.entries
    && after.worker == Flushing(s.worker.todo[1..], Ready, s.worker.next)
    && after.db == Acknowledge(s.db, s.worker.todo[0]).value
    && after.ideal == s.ideal && after.server.Keys == s.server.Keys
  }

  lemma ConfirmFirst(s: Sys, sent: Sys)
    requires AtHead(s) && s.worker.todo != [] && s.worker.todo[0].id in s.db.entries
    requires sent.worker == s.worker.(phase := Sent) && sent.db == s.db
    requires sent.ideal == s.ideal && sent.server.Keys == s.server.Keys
    ensures Enabled(sent, Confirm) && FirstDelivered(s, Next(sent, Confirm))
  {
  }

  /** Delivering and acknowledging the first listed row. */
  lemma DeliverFirst(server: map<int, Article>, actions: seq<Action>, s: Sys) returns (more: seq<Action>, after: Sys)
    requires FairRun(server, actions) && s == Reached(server, actions)
    requires AtHead(s) && s.worker.todo != [] && Lists(s.db, s.worker.todo)
    ensures WorkerSteps(more) && FairRun(server, actions + more)
    ensures after == Reached(server, actions + more) && FirstDelivered(s, after)
  {
    var m := s.worker.todo[0];
    FirstIsStored(server, actions, s);
    SendFirst(server, actions);
    var sent := actions + Sending(m.field);
    ConfirmFirst(s, Reached(server, sent));
    ExtendFair(server, sent, Confirm);
    more := Sending(m.field) + [Confirm];
    assert actions + more == sent + [Confirm];
    after := Next(Reached(server, sent), Confirm);
  }

  lemma FirstIsStored(server: map<int, Article>, actions: seq<Action>, s: Sys)
    requires FairRun(server, actions) && s == Reached(server, actions)
    requires s.worker.Flushing? && s.worker.todo != [] && Lists(s.db, s.worker.todo)
    ensures s.worker.todo[0].id in s.db.entries && s.worker.todo[0].id in s.server
  {
    assert s.worker.todo[0] in s.worker.todo;
    StoredOnServer(server, actions, s.worker.todo[0].id);
  }

  /** A flush that meets no failure delivers and removes everything it read. */
  lemma {:induction false} FlushDrains(server: map<int, Article>, actions: seq<Action>, s: Sys)
    returns (more: seq<Action>)
    requires FairRun(server, actions) && s == Reached(server, actions)
    requires AtHead(s) && Lists(s.db, s.worker.todo)
    ensures WorkerSteps(more) && FairRun(server, actions + more)
    ensures Drained(s, Reached(server, actions + more))
    decreases |s.worker.todo|
  {
    if s.worker.todo == [] {
      more := [];
      NothingListed(s.db);
    } else {
      var first, behind := DeliverFirst(server, actions, s);
      ConfirmKeepsListing(s.db, s.worker.todo);
      var rest := FlushDrains(server, actions + first, behind);
      more := first + rest;
      Appended(actions, first, rest);
    }
    assert more == [] ==> actions + more == actions;
  }

  lemma Appended(actions: seq<Action>, first: seq<Action>, rest: seq<Action>)
    ensures actions + (first + rest) == actions + first + rest
    ensures WorkerSteps(first) && WorkerSteps(rest) ==> WorkerSteps(first + rest)
  {
  }

  /** Whatever happened before, a crash in the middle of a call included, one
      undisturbed flush leaves nothing queued; the server then holds every value the
      user asked for, and the user's values are still the same. */
  lemma EveryRunCanSync(server: map<int, Article>, actions: seq<Action>) returns (more: seq<Action>)
    requires FairRun(server, actions)
    ensures WorkerSteps(more) && FairRun(server, actions + more)
    ensures var s, after := Reached(server, actions), Reached(server, actions + more);
            && after.worker.Idle? && NothingQueued(after.db)
            && after.ideal == s.ideal && after.server.Keys == s.server.Keys
            && forall id :: id in after.server ==>
                 && id in after.ideal.read && after.server[id].read == after.ideal.read[id]
                 && id in after.ideal.starred && after.server[id].starred == after.ideal.starred[id]
  {
    var read := OutboxIsRead(server, actions);
    var drained := FlushDrains(server, actions + read, Reached(server, actions + read));
    ExtendFair(server, actions + read + drained, EndFlush);
    more := read + drained + [EndFlush];
    assert actions + more == actions + read + drained + [EndFlush];
    AllSynced(server, actions + more);
  }

  /** After a crash a new flush reads the outbox. */
  lemma OutboxIsRead(server: map<int, Article>, actions: seq<Action>) returns (more: seq<Action>)
    requires FairRun(server, actions)
    ensures WorkerSteps(more) && FairRun(server, actions + more)
    ensures var s, after := Reached(server, actions), Reached(server, actions + more);
            && AtHead(after) && Lists(after.db, after.worker.todo) && after.worker.next.Release?
            && after.ideal == s.ideal && after.server == s.server
  {
    var pending := OutboxCanBeRead(Reached(server, actions).db);
    ExtendFair(server, actions, Crash);
    ExtendFair(server, actions + [Crash], TakeGate(Release));
    ExtendFair(server, actions + [Crash] + [TakeGate(Release)], ReadOutbox(pending));
    more := [Crash, TakeGate(Release), ReadOutbox(pending)];
    assert actions + more == actions + [Crash] + [TakeGate(Release)] + [ReadOutbox(pending)];
  }

  lemma AllSynced(server: map<int, Article>, actions: seq<Action>)
    requires FairRun(server, actions) && NothingQueued(Reached(server, actions).db)
    ensures var s := Reached(server, actions);
            forall id :: id in s.server ==>
              && id in s.ideal.read && s.server[id].read == s.ideal.read[id]
              && id in s.ideal.starred && s.server[id].starred == s.ideal.starred[id]
  {
    var s := Reached(server, actions);
    forall id | id in s.server
      ensures id in s.ideal.read && s.server[id].read == s.ideal.read[id]
      ensures id in s.ideal.starred && s.server[id].starred == s.ideal.starred[id]
    {
      EmptyOutboxMeansSynced(server, actions, id);
    }
  }

  // ---- Catching up ---------------------------------------------------------------

  lemma {:induction false} EntriesOf(server: map<int, Article>, ids: set<int>) returns (entries: seq<Entry>)
    requires ids <= server.Keys
    ensures DistinctIds(entries)
    ensures forall e :: e in entries <==> e.id in ids && e == EntryOf(e.id, server[e.id])
  {
    entries := [];
    if ids != {} {
      Inhabited(ids);
      var id :| id in ids;
      var rest := EntriesOf(server, ids - {id});
      entries := rest + [EntryOf(id, server[id])];
      assert ids == ids - {id} + {id};
    }
  }

  /** Every selection can be browsed. */
  lemma SelectionCanBeBrowsed(server: map<int, Article>, selection: Selection) returns (snapshot: Snapshot)
    ensures Captures(server, selection, snapshot) && snapshot.categories == []
  {
    var ids := set id | id in server && EntryMatches(selection, EntryOf(id, server[id]));
    var entries := EntriesOf(server, ids);
    snapshot := Snapshot(selection, entries, [], |entries|, 0);
    forall id | id in server && EntryMatches(selection, EntryOf(id, server[id]))
      ensures EntryOf(id, server[id]) in entries
    {
      assert EntryOf(id, server[id]).id == id && id in ids;
    }
  }

  /** Refreshing the whole list stores every article of the server. */
  lemma WholeListRefreshed(server: map<int, Article>, actions: seq<Action>) returns (more: seq<Action>)
    requires FairRun(server, actions)
    requires Reached(server, actions).worker.Idle? && NothingQueued(Reached(server, actions).db)
    ensures WorkerSteps(more) && FairRun(server, actions + more)
    ensures var s, after := Reached(server, actions), Reached(server, actions + more);
            && NothingQueued(after.db) && after.server == s.server
            && after.ideal.read == s.ideal.read && after.ideal.starred == s.ideal.starred
            && forall id :: id in s.server ==> id in after.db.entries
  {
    var s := Reached(server, actions);
    var snapshot := SelectionCanBeBrowsed(s.server, AllEntries(0, false));
    RefreshRun(server, actions, snapshot);
    more := RefreshSteps(snapshot);
    forall id | id in s.server ensures id in Apply(s.db, snapshot).value.entries {
      ServerIsStored(s.db, s.server, snapshot, id);
    }
  }

  lemma ServerIsStored(db: Db, server: map<int, Article>, snapshot: Snapshot, id: int)
    requires snapshot.selection == AllEntries(0, false) && Captures(server, snapshot.selection, snapshot)
    requires Apply(db, snapshot).Success? && id in server
    ensures id in Apply(db, snapshot).value.entries
  {
    assert EntryMatches(snapshot.selection, EntryOf(id, server[id]));
    assert EntryOf(id, server[id]) in snapshot.entries;
    AppliedRow(db, snapshot, id);
  }

  /** Server, baseline and local value of each article are what the user asked for. */
  predicate CaughtUp(s: Sys, ideal: Ideal) {
    forall id :: id in s.server ==>
      && id in ideal.read && id in ideal.starred && id in s.db.entries
      && s.server[id].read == ideal.read[id] && s.server[id].starred == ideal.starred[id]
      && s.db.entries[id].status == s.db.entries[id].remoteStatus == Mark(ideal.read[id])
      && s.db.entries[id].starred == s.db.entries[id].remoteStarred == ideal.starred[id]
  }

  lemma AllCaughtUp(server: map<int, Article>, actions: seq<Action>)
    requires FairRun(server, actions) && NothingQueued(Reached(server, actions).db)
    requires forall id :: id in Reached(server, actions).server ==> id in Reached(server, actions).db.entries
    ensures CaughtUp(Reached(server, actions), Reached(server, actions).ideal)
  {
    forall id | id in Reached(server, actions).server
      ensures var s := Reached(server, actions);
              && id in s.ideal.read && s.server[id].read == s.ideal.read[id]
              && id in s.ideal.starred && s.server[id].starred == s.ideal.starred[id]
              && s.db.entries[id].status == s.db.entries[id].remoteStatus == Mark(s.ideal.read[id])
              && s.db.entries[id].starred == s.db.entries[id].remoteStarred == s.ideal.starred[id]
    {
      EmptyOutboxMeansSynced(server, actions, id);
    }
  }

  /** Whatever happened before, a flush and a refresh of the whole list bring every
      article of the server into the table, with nothing queued: server, baseline and
      local value are then what the user last asked for. */
  lemma EveryRunCanCatchUp(server: map<int, Article>, actions: seq<Action>) returns (more: seq<Action>)
    requires FairRun(server, actions)
    ensures WorkerSteps(more) && FairRun(server, actions + more)
    ensures var s, after := Reached(server, actions), Reached(server, actions + more);
            && NothingQueued(after.db) && after.server.Keys == s.server.Keys && CaughtUp(after, s.ideal)
  {
    var flush := EveryRunCanSync(server, actions);
    var refresh := WholeListRefreshed(server, actions + flush);
    more := flush + refresh;
    assert actions + more == actions + flush + refresh;
    AllCaughtUp(server, actions + more);
  }
}
