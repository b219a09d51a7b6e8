/** Users, the gated worker, crashes and the server, interleaved step by step. */
module SyncProtocol {
  import opened Domain
  import opened StoreSpec
  import opened Overlay
  import opened Reconciliation
  import opened Counters
  import opened UndoJournal
  import opened Persistence

  /** The client a user imagines: values change when asked to, and only then.
      It has no server, no outbox and no baseline. */
  datatype Ideal = Ideal(
    known: set<int>, read: map<int, bool>, starred: map<int, bool>, journal: map<ItemKey, bool>)

  datatype Phase = Ready | Probed(current: bool) | Sent
  datatype After = Release | Refresh(selection: Selection)

  /** The holder of the gate, if any. */
  datatype Worker =
    | Idle
    | Gated(next: After)
    | Flushing(todo: seq<Mutation>, phase: Phase, next: After)
    | Browsing(selection: Selection)
    | Applying(snapshot: Snapshot)

  /** `counted` remembers the last applied refresh whose total can be recounted. */
  datatype Sys = Sys(
    db: Db, server: map<int, Article>, worker: Worker, ideal: Ideal, counted: Option<Selection>)

  datatype Action =
    | UserMark(ids: seq<int>, read: bool, undoable: bool, batch: string)
    | UserStar(id: int, starred: bool)
    | UserUndo(batch: string)
    | UserDiscard(batch: string)
    | TakeGate(next: After)
    | ReadOutbox(pending: seq<Mutation>)
    | SendRead
    | Probe
    | ToggleIfNeeded
    | Confirm
    | EndFlush
    | Capture(snapshot: Snapshot)
    | BrowseFails
    | ApplyEnds
    | Crash
    | Arrive(id: int, article: Article)

  // ---- The imagined client ----------------------------------------------

  ghost predicate BatchUsed(journal: map<ItemKey, bool>, batch: string) {
    exists k :: k in journal && k.batch == batch
  }

  function Overwrite(values: map<int, bool>, wanted: map<int, bool>): map<int, bool> {
    map id | id in values :: if id in wanted then wanted[id] else values[id]
  }

  function ToMark(ideal: Ideal, ids: seq<int>, read: bool): set<int> {
    set id | id in ids && id in ideal.known && id in ideal.read && ideal.read[id] != read
  }

  ghost function IdealMark(ideal: Ideal, ids: seq<int>, read: bool, undoable: bool, batch: string): Ideal {
    var marked := ToMark(ideal, ids, read);
    if undoable && BatchUsed(ideal.journal, batch) then ideal
    else ideal.(
      read := Overwrite(ideal.read, Uniform(marked, read)),
      journal := if undoable
                 then ideal.journal + Items(batch, Uniform(marked, !read))
                 else map k | k in ideal.journal && k.entry !in ids :: ideal.journal[k])
  }

  function IdealStar(ideal: Ideal, id: int, starred: bool): Ideal {
    ideal.(starred := Overwrite(ideal.starred, map[id := starred]))
  }

  function IdealDiscard(ideal: Ideal, batch: string): Ideal {
    ideal.(journal := map k | k in ideal.journal && k.batch != batch :: ideal.journal[k])
  }

  function IdealUndo(ideal: Ideal, batch: string): Ideal {
    IdealDiscard(ideal.(read := Overwrite(ideal.read, Priors(ideal.journal, batch))), batch)
  }

  // ---- Steps --------------------------------------------------------------

  function EntryOf(id: int, a: Article): Entry {
    Entry(id, a.feedId, a.categoryId, a.text, Mark(a.read), a.starred)
  }

  /** A browse of a server that nobody else changes: the complete selection. */
  ghost predicate Captures(server: map<int, Article>, selection: Selection, snapshot: Snapshot) {
    && snapshot.selection == selection
    && DistinctIds(snapshot.entries)
    && snapshot.total == |snapshot.entries|
    && (forall e :: e in snapshot.entries ==>
          e.id in server && e == EntryOf(e.id, server[e.id]) && EntryMatches(selection, e))
    && (forall id :: id in server && EntryMatches(selection, EntryOf(id, server[id])) ==>
          EntryOf(id, server[id]) in snapshot.entries)
  }

  predicate ValidTarget(next: After) {
    next.Refresh? ==> Normalize(next.selection) == next.selection
  }

  ghost predicate Enabled(s: Sys, a: Action) {
    match a
    case UserMark(_, _, _, _) => true
    case UserStar(id, _) => id in s.db.entries
    case UserUndo(_) => true
    case UserDiscard(_) => true
    case TakeGate(next) => s.worker.Idle? && ValidTarget(next)
    case ReadOutbox(pending) => s.worker.Gated? && Lists(s.db, pending)
    case SendRead =>
      s.worker.Flushing? && s.worker.todo != [] && s.worker.phase.Ready?
      && s.worker.todo[0].field == ReadField && s.worker.todo[0].id in s.server
    case Probe =>
      s.worker.Flushing? && s.worker.todo != [] && s.worker.phase.Ready?
      && s.worker.todo[0].field == StarredField && s.worker.todo[0].id in s.server
    case ToggleIfNeeded =>
      s.worker.Flushing? && s.worker.todo != [] && s.worker.phase.Probed?
      && s.worker.todo[0].id in s.server
    case Confirm => s.worker.Flushing? && s.worker.todo != [] && s.worker.phase.Sent?
    case EndFlush => s.worker.Flushing?
    case Capture(snapshot) => s.worker.Browsing? && Captures(s.server, s.worker.selection, snapshot)
    case BrowseFails => s.worker.Browsing?
    case ApplyEnds => s.worker.Applying?
    case Crash => true
    case Arrive(id, _) => id !in s.server
  }

  function EndedFlush(next: After): Worker {
    match next
    case Release => Idle
    case Refresh(selection) => Browsing(selection)
  }

  /** `EndFlush` covers the emptied list and every failure: a call that was
      refused, one that was applied but reported failed, and a passed deadline.
      A crash forgets the worker and keeps the database. */
  ghost function Next(s: Sys, a: Action): Sys
    requires Enabled(s, a)
  {
    match a
    case UserMark(ids, read, undoable, batch) =>
      s.(db := SetRead(s.db, ids, read, undoable, batch),
         ideal := IdealMark(s.ideal, ids, read, undoable, batch))
    case UserStar(id, starred) =>
      s.(db := SetStarred(s.db, id, starred), ideal := IdealStar(s.ideal, id, starred))
    case UserUndo(batch) => s.(db := Undo(s.db, batch), ideal := IdealUndo(s.ideal, batch))
    case UserDiscard(batch) => s.(db := WithoutBatch(s.db, batch), ideal := IdealDiscard(s.ideal, batch))
    case TakeGate(next) => s.(worker := Gated(next))
    case ReadOutbox(pending) => s.(worker := Flushing(pending, Ready, s.worker.next))
    case SendRead =>
      var m := s.worker.todo[0];
      s.(server := s.server[m.id := s.server[m.id].(read := m.desired)], worker := s.worker.(phase := Sent))
    case Probe => s.(worker := s.worker.(phase := Probed(s.server[s.worker.todo[0].id].starred)))
    case ToggleIfNeeded =>
      var m := s.worker.todo[0];
      var article := s.server[m.id];
      s.(server := if s.worker.phase.current != m.desired
                   then s.server[m.id := article.(starred := !article.starred)] else s.server,
         worker := s.worker.(phase := Sent))
    case Confirm =>
      var acknowledged := Acknowledge(s.db, s.worker.todo[0]);
      if acknowledged.Failure? then s.(worker := EndedFlush(s.worker.next))
      else s.(db := acknowledged.value, worker := Flushing(s.worker.todo[1..], Ready, s.worker.next))
    case EndFlush => s.(worker := EndedFlush(s.worker.next))
    case Capture(snapshot) => s.(worker := Applying(snapshot))
    case BrowseFails => s.(worker := Idle)
    case ApplyEnds =>
      var selection, applied := s.worker.snapshot.selection, Apply(s.db, s.worker.snapshot);
      if applied.Failure? then s.(worker := Idle)
      else s.(
        db := applied.value, worker := Idle,
        ideal := s.ideal.(known := applied.value.entries.Keys),
        counted := if Recountable(selection) then Some(selection) else None)
    case Crash => s.(worker := Idle)
    case Arrive(id, article) =>
      s.(server := s.server[id := article],
         ideal := s.ideal.(read := s.ideal.read[id := article.read],
                           starred := s.ideal.starred[id := article.starred]))
  }

  function Initial(server: map<int, Article>): Sys {
    Sys(EmptyDb(), server, Idle,
        Ideal({}, map id | id in server :: server[id].read, map id | id in server :: server[id].starred, map[]),
        None)
  }

  // ---- Invariant ------------------------------------------------------------

  predicate SameKeys(s: Sys) {
    && s.ideal.read.Keys == s.server.Keys && s.ideal.starred.Keys == s.server.Keys
    && s.db.entries.Keys == s.ideal.known && s.ideal.known <= s.server.Keys
  }

  /** Local values are what the user last asked for. */
  predicate ReadsYourWrites(s: Sys) {
    forall id :: id in s.db.entries ==>
      && id in s.ideal.read && s.db.entries[id].status == Mark(s.ideal.read[id])
      && id in s.ideal.starred && s.db.entries[id].starred == s.ideal.starred[id]
  }

  predicate Placed(s: Sys) {
    forall id :: id in s.db.entries ==>
      && id in s.server
      && s.db.entries[id].feedId == s.server[id].feedId
      && s.db.entries[id].categoryId == s.server[id].categoryId
  }

  predicate ReadsSettled(server: map<int, Article>, marks: Marks, wanted: map<int, bool>) {
    forall id :: id in server && id !in marks ==> id in wanted && server[id].read == wanted[id]
  }

  predicate StarsSettled(server: map<int, Article>, marks: Marks, wanted: map<int, bool>) {
    forall id :: id in server && id !in marks ==> id in wanted && server[id].starred == wanted[id]
  }

  /** The server holds what the user wants wherever nothing is queued. */
  predicate Settled(s: Sys) {
    && ReadsSettled(s.server, s.db.readMarks, s.ideal.read)
    && StarsSettled(s.server, s.db.starMarks, s.ideal.starred)
  }

  predicate DistinctTargets(todo: seq<Mutation>) {
    forall i, j :: 0 <= i < j < |todo| ==> todo[i].id != todo[j].id || todo[i].field != todo[j].field
  }

  predicate AllDeliverable(db: Db, todo: seq<Mutation>) {
    forall i :: 0 <= i < |todo| ==> Deliverable(db, todo[i])
  }

  predicate ServerHolds(server: map<int, Article>, m: Mutation) {
    m.id in server &&
    match m.field
    case ReadField => server[m.id].read == m.desired
    case StarredField => server[m.id].starred == m.desired
  }

  /** While the gate is held the captured entries stay what the server says, and
      no stored article of the selection is missing from them. */
  ghost predicate CaptureHolds(s: Sys, snapshot: Snapshot) {
    && Normalize(snapshot.selection) == snapshot.selection
    && DistinctIds(snapshot.entries)
    && snapshot.total == |snapshot.entries|
    && (forall e :: e in snapshot.entries ==>
          e.id in s.server && e == EntryOf(e.id, s.server[e.id]) && EntryMatches(snapshot.selection, e))
    && (forall id :: id in s.db.entries && id in s.server ==>
          EntryMatches(snapshot.selection, EntryOf(id, s.server[id])) ==>
          EntryOf(id, s.server[id]) in snapshot.entries)
  }

  ghost predicate WorkerOk(s: Sys) {
    match s.worker
    case Idle => true
    case Gated(next) => ValidTarget(next)
    case Flushing(todo, phase, next) =>
      && ValidTarget(next) && DistinctTargets(todo) && AllDeliverable(s.db, todo)
      && (phase.Sent? ==> todo != [] && ServerHolds(s.server, todo[0]))
      && (phase.Probed? ==>
            && todo != [] && todo[0].field == StarredField
            && todo[0].id in s.server && s.server[todo[0].id].starred == phase.current)
    case Browsing(selection) => Normalize(selection) == selection
    case Applying(snapshot) => CaptureHolds(s, snapshot)
  }

  predicate FairTarget(next: After) {
    next.Refresh? ==> !IgnoresStars(next.selection)
  }

  /** The worker is not refreshing the starred-and-unread list, whose
      reconciliation ignores its own filter. */
  predicate FairWorker(worker: Worker) {
    match worker
    case Idle => true
    case Gated(next) => FairTarget(next)
    case Flushing(_, _, next) => FairTarget(next)
    case Browsing(selection) => !IgnoresStars(selection)
    case Applying(snapshot) => !IgnoresStars(snapshot.selection)
  }

  ghost predicate CountedOk(s: Sys) {
    s.counted.Some? ==>
      && Normalize(s.counted.value) == s.counted.value
      && Recountable(s.counted.value) && Counted(s.db, s.counted.value)
  }

  ghost predicate Inv(s: Sys) {
    && Sound(s.db) && JournalSound(s.db) && s.db.items == s.ideal.journal
    && SameKeys(s) && Placed(s) && ReadsYourWrites(s) && Settled(s)
    && WorkerOk(s) && CountedOk(s)
  }

  // ---- User steps -------------------------------------------------------------

  /** Re-queued rows only get newer. */
  predicate Newer(before: Marks, after: Marks) {
    forall id :: id in before ==>
      id in after && (after[id] == before[id] || after[id].revision > before[id].revision)
  }

  lemma EditsKeepWorker(s: Sys, after: Sys)
    requires WorkerOk(s) && after.server == s.server && after.worker == s.worker
    requires after.db.entries.Keys == s.db.entries.Keys
    requires Newer(s.db.readMarks, after.db.readMarks) && Newer(s.db.starMarks, after.db.starMarks)
    ensures WorkerOk(after)
  {
    if s.worker.Flushing? {
      forall i | 0 <= i < |s.worker.todo| ensures Deliverable(after.db, s.worker.todo[i]) {
        assert Deliverable(s.db, s.worker.todo[i]);
      }
    }
    if s.worker.Applying? {
      forall id ensures id in after.db.entries <==> id in s.db.entries {
        assert id in after.db.entries.Keys <==> id in s.db.entries.Keys;
      }
    }
  }

  lemma EditReadsFollowsIdeal(s: Sys, wanted: map<int, bool>, after: Sys)
    requires Sound(s.db) && SameKeys(s) && Placed(s) && ReadsYourWrites(s) && Settled(s)
    requires wanted.Keys <= s.db.entries.Keys
    requires after.db.entries == MarkRows(s.db.entries, wanted)
    requires after.db.readMarks == Enqueue(s.db.readMarks, wanted) && after.db.starMarks == s.db.starMarks
    requires after.ideal.read == Overwrite(s.ideal.read, wanted) && after.ideal.starred == s.ideal.starred
    requires after.ideal.known == s.ideal.known && after.server == s.server
    ensures SameKeys(after) && Placed(after) && ReadsYourWrites(after) && Settled(after)
    ensures Newer(s.db.readMarks, after.db.readMarks) && Newer(s.db.starMarks, after.db.starMarks)
  {
    EditKeepsSettled(s.server, s.db.readMarks, s.ideal.read, wanted);
    assert after.db.entries.Keys == s.db.entries.Keys;
  }

  /** A queued edit is free to differ from the server; every other value is not touched. */
  lemma EditKeepsSettled(server: map<int, Article>, marks: Marks, values: map<int, bool>, wanted: map<int, bool>)
    requires ReadsSettled(server, marks, values)
    ensures ReadsSettled(server, Enqueue(marks, wanted), Overwrite(values, wanted))
    ensures Newer(marks, Enqueue(marks, wanted))
  {
  }

  lemma IdealMarksTheSame(s: Sys, ids: seq<int>, read: bool)
    requires SameKeys(s) && ReadsYourWrites(s)
    ensures ToMark(s.ideal, ids, read) == Changed(s.db, ids, read)
  {
    forall id ensures id in ToMark(s.ideal, ids, read) <==> id in Changed(s.db, ids, read) {
      assert id in s.db.entries.Keys <==> id in s.ideal.known;
    }
  }

  lemma BatchUsedIsTaken(db: Db, ids: seq<int>, read: bool, batch: string)
    requires JournalSound(db)
    ensures BatchUsed(db.items, batch) <==> BatchTaken(db, ids, read, batch)
  {
    if batch in db.batches {
      assert HasItem(db.items, batch);
    }
  }

  lemma IdealRecordsTheSame(s: Sys, changed: set<int>, read: bool, batch: string)
    requires s.db.items == s.ideal.journal && changed <= s.db.entries.Keys
    requires forall id :: id in changed ==> s.db.entries[id].status == Mark(!read)
    ensures RecordItems(s.db, batch, changed) ==
            s.ideal.journal + Items(batch, Uniform(changed, !read))
  {
    var priors := map id | id in changed :: s.db.entries[id].status == Read;
    forall id | id in changed ensures priors[id] == !read {
      assert s.db.entries[id].status == Mark(!read);
    }
    assert priors == Uniform(changed, !read);
  }

  lemma IdealJournalsTheSame(s: Sys, ids: seq<int>, read: bool, undoable: bool, batch: string)
    requires JournalSound(s.db) && s.db.items == s.ideal.journal && SameKeys(s) && ReadsYourWrites(s)
    ensures SetRead(s.db, ids, read, undoable, batch).items ==
            IdealMark(s.ideal, ids, read, undoable, batch).journal
  {
    IdealMarksTheSame(s, ids, read);
    BatchUsedIsTaken(s.db, ids, read, batch);
    if undoable && SetReadCommits(s.db, ids, read, undoable, batch) {
      IdealRecordsTheSame(s, Changed(s.db, ids, read), read, batch);
    }
  }

  lemma UserMarkKeepsInv(s: Sys, ids: seq<int>, read: bool, undoable: bool, batch: string)
    requires Inv(s)
    ensures Inv(Next(s, UserMark(ids, read, undoable, batch)))
  {
    var after := Next(s, UserMark(ids, read, undoable, batch));
    SetReadKeepsSound(s.db, ids, read, undoable, batch);
    SetReadKeepsJournal(s.db, ids, read, undoable, batch);
    SetReadKeepsBaselines(s.db, ids, read, undoable, batch);
    if s.counted.Some? {
      EditsKeepCounted(s.db, after.db, s.counted.value);
    }
    IdealMarksTheSame(s, ids, read);
    BatchUsedIsTaken(s.db, ids, read, batch);
    IdealJournalsTheSame(s, ids, read, undoable, batch);
    SetReadTables(s.db, ids, read, undoable, batch);
    if SetReadCommits(s.db, ids, read, undoable, batch) {
      EditReadsFollowsIdeal(s, Uniform(Changed(s.db, ids, read), read), after);
    }
    EditsKeepWorker(s, after);
  }

  lemma StarFollowsIdeal(s: Sys, id: int, starred: bool)
    requires SameKeys(s) && Placed(s) && ReadsYourWrites(s) && Settled(s) && id in s.db.entries
    ensures var after := s.(db := SetStarred(s.db, id, starred), ideal := IdealStar(s.ideal, id, starred));
            && SameKeys(after) && Placed(after) && ReadsYourWrites(after) && Settled(after)
            && Newer(s.db.starMarks, after.db.starMarks)
  {
  }

  lemma UserStarKeepsInv(s: Sys, id: int, starred: bool)
    requires Inv(s) && id in s.db.entries
    ensures Inv(Next(s, UserStar(id, starred)))
  {
    var after := Next(s, UserStar(id, starred));
    SetStarredKeepsSound(s.db, id, starred);
    PerformKeepsJournal(s.db, MarkStarred(id, starred));
    SetStarredKeepsBaselines(s.db, id, starred);
    if s.counted.Some? {
      EditsKeepCounted(s.db, after.db, s.counted.value);
    }
    StarFollowsIdeal(s, id, starred);
    EditsKeepWorker(s, after);
  }

  lemma UserUndoKeepsInv(s: Sys, batch: string)
    requires Inv(s)
    ensures Inv(Next(s, UserUndo(batch)))
  {
    var after := Next(s, UserUndo(batch));
    UndoKeepsSound(s.db, batch);
    WithoutBatchKeepsJournal(EditReads(s.db, Priors(s.db.items, batch)), batch);
    UndoKeepsBaselines(s.db, batch);
    if s.counted.Some? {
      EditsKeepCounted(s.db, after.db, s.counted.value);
    }
    EditReadsFollowsIdeal(s, Priors(s.db.items, batch), after);
    EditsKeepWorker(s, after);
  }

  lemma UserDiscardKeepsInv(s: Sys, batch: string)
    requires Inv(s)
    ensures Inv(Next(s, UserDiscard(batch)))
  {
    var after := Next(s, UserDiscard(batch));
    WithoutBatchKeepsJournal(s.db, batch);
    if s.counted.Some? {
      EditsKeepCounted(s.db, after.db, s.counted.value);
    }
    EditsKeepWorker(s, after);
  }

  // ---- Worker steps -------------------------------------------------------------

  lemma ReadOutboxKeepsInv(s: Sys, pending: seq<Mutation>)
    requires Inv(s) && Enabled(s, ReadOutbox(pending))
    ensures Inv(Next(s, ReadOutbox(pending)))
  {
    forall i | 0 <= i < |pending| ensures Deliverable(s.db, pending[i]) {
      assert pending[i] in pending;
    }
  }

  lemma SendReadKeepsInv(s: Sys)
    requires Inv(s) && Enabled(s, SendRead)
    ensures Inv(Next(s, SendRead))
  {
    assert Deliverable(s.db, s.worker.todo[0]);
  }

  lemma ProbeKeepsInv(s: Sys)
    requires Inv(s) && Enabled(s, Probe)
    ensures Inv(Next(s, Probe))
  {
  }

  lemma ToggleKeepsInv(s: Sys)
    requires Inv(s) && Enabled(s, ToggleIfNeeded)
    ensures Inv(Next(s, ToggleIfNeeded))
  {
    assert Deliverable(s.db, s.worker.todo[0]);
  }

  /** A row that leaves the outbox leaves server, table and user agreed. */
  lemma ConfirmKeepsSettled(s: Sys, m: Mutation)
    requires Sound(s.db) && SameKeys(s) && Placed(s) && ReadsYourWrites(s) && Settled(s)
    requires Deliverable(s.db, m) && ServerHolds(s.server, m)
    ensures var after := s.(db := Delivered(s.db, m));
            SameKeys(after) && Placed(after) && ReadsYourWrites(after) && Settled(after)
  {
    match m.field {
      case ReadField => ConfirmReadSettles(s, m);
      case StarredField => ConfirmStarSettles(s, m);
    }
  }

  lemma ConfirmReadSettles(s: Sys, m: Mutation)
    requires Sound(s.db) && SameKeys(s) && Placed(s) && ReadsYourWrites(s) && Settled(s)
    requires Deliverable(s.db, m) && ServerHolds(s.server, m) && m.field == ReadField
    ensures var after := s.(db := Delivered(s.db, m));
            SameKeys(after) && Placed(after) && ReadsYourWrites(after) && Settled(after)
  {
    assert ReadOverlaid(s.db.readMarks, m.id, s.db.entries[m.id]);
    DeliveredReadRow(s.db, m);
  }

  lemma ConfirmStarSettles(s: Sys, m: Mutation)
    requires Sound(s.db) && SameKeys(s) && Placed(s) && ReadsYourWrites(s) && Settled(s)
    requires Deliverable(s.db, m) && ServerHolds(s.server, m) && m.field == StarredField
    ensures var after := s.(db := Delivered(s.db, m));
            SameKeys(after) && Placed(after) && ReadsYourWrites(after) && Settled(after)
  {
    assert StarOverlaid(s.db.starMarks, m.id, s.db.entries[m.id]);
    DeliveredStarRow(s.db, m);
  }

  lemma ConfirmKeepsInv(s: Sys)
    requires Inv(s) && Enabled(s, Confirm)
    ensures Inv(Next(s, Confirm))
  {
    var m := s.worker.todo[0];
    assert Deliverable(s.db, m);
    AcknowledgeKeepsSound(s.db, m);
    ConfirmKeepsDeliverable(s.db, s.worker.todo);
    ConfirmKeepsSettled(s, m);
    PerformKeepsJournal(s.db, AcknowledgeDelivery(m));
    if s.counted.Some? {
      DeliveryKeepsCounted(s.db, m, s.counted.value);
    }
    var after := Next(s, Confirm);
    assert after == s.(db := Delivered(s.db, m), worker := after.worker);
  }

  lemma ConfirmKeepsDeliverable(db: Db, todo: seq<Mutation>)
    requires todo != [] && DistinctTargets(todo) && AllDeliverable(db, todo) && todo[0].id in db.entries
    ensures DistinctTargets(todo[1..]) && AllDeliverable(Delivered(db, todo[0]), todo[1..])
  {
    forall i | 0 <= i < |todo[1..]| ensures Deliverable(Delivered(db, todo[0]), todo[1..][i]) {
      assert Deliverable(db, todo[i + 1]);
      assert todo[0].id != todo[i + 1].id || todo[0].field != todo[i + 1].field;
    }
  }

  lemma CaptureKeepsInv(s: Sys, snapshot: Snapshot)
    requires Inv(s) && Enabled(s, Capture(snapshot))
    ensures Inv(Next(s, Capture(snapshot)))
  {
  }

  lemma ArriveKeepsInv(s: Sys, id: int, article: Article)
    requires Inv(s) && id !in s.server
    ensures Inv(Next(s, Arrive(id, article)))
  {
  }

  /** A stored article that a starred-and-unread refresh takes for read. */
  predicate Forgotten(s: Sys, snapshot: Snapshot, id: int) {
    && IgnoresStars(snapshot.selection)
    && id in s.db.entries && id !in Ids(snapshot.entries) && id !in s.db.readMarks
    && s.db.entries[id].remoteStatus == Unread
  }

  lemma AppliedRowFollowsServer(s: Sys, snapshot: Snapshot, id: int)
    requires Inv(s) && s.worker == Applying(snapshot) && Apply(s.db, snapshot).Success?
    requires id in Apply(s.db, snapshot).value.entries
    ensures var row := Apply(s.db, snapshot).value.entries[id];
            && id in s.server && id in s.ideal.read && id in s.ideal.starred
            && row.feedId == s.server[id].feedId && row.categoryId == s.server[id].categoryId
            && row.starred == s.ideal.starred[id]
            && (row.status == Mark(s.ideal.read[id]) <==> !Forgotten(s, snapshot, id))
  {
    if id in Ids(snapshot.entries) {
      FetchedRowFollowsServer(s, snapshot, id);
    } else {
      AppliedRow(s.db, snapshot, id);
      MissingRowFollowsServer(s, snapshot, id);
    }
  }

  lemma FetchedRowFollowsServer(s: Sys, snapshot: Snapshot, id: int)
    requires Inv(s) && s.worker == Applying(snapshot) && Apply(s.db, snapshot).Success?
    requires id in Ids(snapshot.entries)
    ensures id in Apply(s.db, snapshot).value.entries
    ensures var row := Apply(s.db, snapshot).value.entries[id];
            && id in s.server && id in s.ideal.read && id in s.ideal.starred
            && row.feedId == s.server[id].feedId && row.categoryId == s.server[id].categoryId
            && row.status == Mark(s.ideal.read[id]) && row.starred == s.ideal.starred[id]
  {
    AppliedRow(s.db, snapshot, id);
    var e :| e in snapshot.entries && e.id == id;
    assert e == EntryOf(id, s.server[id]);
    assert id in s.server.Keys;
  }

  /** A stored row that the capture does not contain. */
  lemma MissingRowFollowsServer(s: Sys, snapshot: Snapshot, id: int)
    requires Inv(s) && s.worker == Applying(snapshot) && Apply(s.db, snapshot).Success?
    requires id in s.db.entries && id !in Ids(snapshot.entries)
    ensures id in BaseRows(s.db, snapshot)
    ensures var row := BaseRows(s.db, snapshot)[id];
            && id in s.server && id in s.ideal.read && id in s.ideal.starred
            && row.feedId == s.server[id].feedId && row.categoryId == s.server[id].categoryId
            && row.starred == s.ideal.starred[id]
            && (row.status == Mark(s.ideal.read[id]) <==> !Forgotten(s, snapshot, id))
  {
    assert !EntryMatches(snapshot.selection, EntryOf(id, s.server[id]));
    assert ReadOverlaid(s.db.readMarks, id, s.db.entries[id]);
    assert StarOverlaid(s.db.starMarks, id, s.db.entries[id]);
  }

  /** Applying a refresh keeps every local value exactly when no stored article
      is forgotten; only the starred-and-unread list can forget one. */
  lemma ApplyReadsYourWritesExactly(s: Sys)
    requires Inv(s) && Enabled(s, ApplyEnds) && Apply(s.db, s.worker.snapshot).Success?
    ensures SameKeys(Next(s, ApplyEnds)) && Placed(Next(s, ApplyEnds))
    ensures ReadsYourWrites(Next(s, ApplyEnds)) <==> forall id :: !Forgotten(s, s.worker.snapshot, id)
  {
    var snapshot := s.worker.snapshot;
    var rows := Apply(s.db, snapshot).value.entries;
    forall id | id in rows
      ensures id in s.server && id in s.ideal.read && id in s.ideal.starred
      ensures rows[id].feedId == s.server[id].feedId && rows[id].categoryId == s.server[id].categoryId
      ensures rows[id].starred == s.ideal.starred[id]
      ensures rows[id].status == Mark(s.ideal.read[id]) <==> !Forgotten(s, snapshot, id)
    {
      AppliedRowFollowsServer(s, snapshot, id);
    }
    forall id | id in rows.Keys ensures id in s.server.Keys {
      assert id in rows;
    }
    forall id | Forgotten(s, snapshot, id) ensures id in rows {
      AppliedRow(s.db, snapshot, id);
    }
  }

  lemma ApplyKeepsTables(s: Sys, snapshot: Snapshot)
    requires Inv(s) && s.worker == Applying(snapshot) && Apply(s.db, snapshot).Success?
    ensures Sound(Apply(s.db, snapshot).value) && JournalSound(Apply(s.db, snapshot).value)
    ensures Recountable(snapshot.selection) ==> Counted(Apply(s.db, snapshot).value, snapshot.selection)
  {
    forall e | e in snapshot.entries ensures KnownStatus(e.status) {
    }
    ApplyKeepsSound(s.db, snapshot);
    PerformKeepsJournal(s.db, ApplyRefresh(snapshot));
    if Recountable(snapshot.selection) {
      CompleteRefreshCounts(s.db, snapshot);
    }
  }

  lemma ApplyKeepsInv(s: Sys)
    requires Inv(s) && FairWorker(s.worker) && Enabled(s, ApplyEnds)
    ensures Inv(Next(s, ApplyEnds))
  {
    var snapshot, after := s.worker.snapshot, Next(s, ApplyEnds);
    if Apply(s.db, snapshot).Success? {
      ApplyKeepsTables(s, snapshot);
      ApplyReadsYourWritesExactly(s);
      assert after.db.readMarks == s.db.readMarks && after.db.starMarks == s.db.starMarks;
      assert Settled(after);
    }
  }

  // ---- Every run ------------------------------------------------------------------

  predicate Fair(a: Action) {
    a.TakeGate? ==> FairTarget(a.next)
  }

  lemma StepKeepsInv(s: Sys, a: Action)
    requires Inv(s) && FairWorker(s.worker) && Enabled(s, a) && Fair(a)
    ensures Inv(Next(s, a)) && FairWorker(Next(s, a).worker)
  {
    match a {
      case UserMark(ids, read, undoable, batch) => UserMarkKeepsInv(s, ids, read, undoable, batch);
      case UserStar(id, starred) => UserStarKeepsInv(s, id, starred);
      case UserUndo(batch) => UserUndoKeepsInv(s, batch);
      case UserDiscard(batch) => UserDiscardKeepsInv(s, batch);
      case ReadOutbox(pending) => ReadOutboxKeepsInv(s, pending);
      case SendRead => SendReadKeepsInv(s);
      case Probe => ProbeKeepsInv(s);
      case ToggleIfNeeded => ToggleKeepsInv(s);
      case Confirm => ConfirmKeepsInv(s);
      case Capture(snapshot) => CaptureKeepsInv(s, snapshot);
      case ApplyEnds => ApplyKeepsInv(s);
      case Arrive(id, article) => ArriveKeepsInv(s, id, article);
      case _ =>
    }
  }

  ghost predicate Legal(server: map<int, Article>, actions: seq<Action>)
    decreases |actions|, 0
  {
    actions != [] ==>
      var before := actions[..|actions| - 1];
      Legal(server, before) && Enabled(Reached(server, before), actions[|actions| - 1])
  }

  /** The state a legal run ends in. */
  ghost function Reached(server: map<int, Article>, actions: seq<Action>): Sys
    requires Legal(server, actions)
    decreases |actions|, 1
  {
    if actions == [] then Initial(server)
    else Next(Reached(server, actions[..|actions| - 1]), actions[|actions| - 1])
  }

  lemma {:induction false} RunKeepsInv(server: map<int, Article>, actions: seq<Action>)
    requires Legal(server, actions) && forall a :: a in actions ==> Fair(a)
    ensures Inv(Reached(server, actions)) && FairWorker(Reached(server, actions).worker)
  {
    if actions != [] {
      RunKeepsInv(server, actions[..|actions| - 1]);
      StepKeepsInv(Reached(server, actions[..|actions| - 1]), actions[|actions| - 1]);
    }
  }

  /** In every interleaving the list shows what the user last asked for. */
  lemma EveryRunReadsYourWrites(server: map<int, Article>, actions: seq<Action>)
    requires Legal(server, actions) && forall a :: a in actions ==> Fair(a)
    ensures ReadsYourWrites(Reached(server, actions))
    ensures Overlaid(Reached(server, actions).db)
  {
    RunKeepsInv(server, actions);
  }

  predicate UserAction(a: Action) {
    a.UserMark? || a.UserStar? || a.UserUndo? || a.UserDiscard?
  }

  lemma BackgroundStepKeepsRow(s: Sys, a: Action, id: int)
    requires Inv(s) && FairWorker(s.worker) && Enabled(s, a) && Fair(a) && !UserAction(a)
    requires id in s.db.entries
    ensures id in Next(s, a).db.entries
    ensures Next(s, a).db.entries[id].status == s.db.entries[id].status
    ensures Next(s, a).db.entries[id].starred == s.db.entries[id].starred
  {
    StepKeepsInv(s, a);
    if a.ApplyEnds? && Apply(s.db, s.worker.snapshot).Success? {
      EntriesStay(s.db, ApplyRefresh(s.worker.snapshot));
    }
  }

  /** Deliveries, refreshes, failures and crashes never change a shown value, in no
      state of any run, so no refresh reverts an acknowledged change. */
  lemma BackgroundKeepsLocalValues(server: map<int, Article>, actions: seq<Action>, a: Action, id: int)
    requires Legal(server, actions) && forall b :: b in actions ==> Fair(b)
    requires Enabled(Reached(server, actions), a) && Fair(a) && !UserAction(a)
    requires id in Reached(server, actions).db.entries
    ensures var s := Reached(server, actions);
            var after := Next(s, a).db.entries;
            && id in after
            && after[id].status == s.db.entries[id].status && after[id].starred == s.db.entries[id].starred
  {
    RunKeepsInv(server, actions);
    BackgroundStepKeepsRow(Reached(server, actions), a, id);
  }

  /** In every run an acknowledgement removes an outbox row only if it still asks
      for what the server now holds; a row edited during the call stays as the
      edit left it. */
  lemma ConfirmLosesNoEdit(server: map<int, Article>, actions: seq<Action>)
    requires Legal(server, actions) && forall a :: a in actions ==> Fair(a)
    requires Enabled(Reached(server, actions), Confirm)
    ensures var s := Reached(server, actions);
            var m := s.worker.todo[0];
            var before, after := Outbox(s.db, m.field), Outbox(Next(s, Confirm).db, m.field);
            && m.id in before
            && (m.id !in after ==> before[m.id].desired == m.desired && ServerHolds(s.server, m))
            && (before[m.id].revision != m.revision ==> m.id in after && after[m.id] == before[m.id])
            && (m.id in after <==> before[m.id].revision != m.revision)
  {
    RunKeepsInv(server, actions);
    var s := Reached(server, actions);
    assert Deliverable(s.db, s.worker.todo[0]);
  }

  // ---- Edits during a flush ------------------------------------------------------

  function QueuedRow(db: Db, m: Mutation): Option<Pending> {
    var outbox := Outbox(db, m.field);
    if m.id in outbox then Some(outbox[m.id]) else None
  }

  /** A user action that queues the row of `m` anew. */
  ghost predicate Requeues(s: Sys, a: Action, m: Mutation)
    requires Enabled(s, a)
  {
    UserAction(a) && QueuedRow(Next(s, a).db, m) != QueuedRow(s.db, m)
  }

  /** Some user action from position `from` on queued the row of `m` anew. */
  ghost predicate EditedSince(server: map<int, Article>, actions: seq<Action>, from: nat, m: Mutation)
    requires Legal(server, actions)
  {
    |actions| > from &&
    var before, last := actions[..|actions| - 1], actions[|actions| - 1];
    EditedSince(server, before, from, m) || Requeues(Reached(server, before), last, m)
  }

  /** The run reads the outbox right before position `from` and neither ends that
      flush nor crashes afterwards. */
  ghost predicate FlushesSince(server: map<int, Article>, actions: seq<Action>, from: nat) {
    && Legal(server, actions) && (forall a :: a in actions ==> Fair(a))
    && 0 < from <= |actions| && actions[from - 1].ReadOutbox?
    && forall k :: from <= k < |actions| ==> !actions[k].EndFlush? && !actions[k].Crash?
  }

  lemma UserStepNewer(s: Sys, a: Action)
    requires Enabled(s, a) && UserAction(a)
    ensures Newer(s.db.readMarks, Next(s, a).db.readMarks) && Newer(s.db.starMarks, Next(s, a).db.starMarks)
    ensures Next(s, a).worker == s.worker
  {
    if a.UserMark? {
      SetReadTables(s.db, a.ids, a.read, a.undoable, a.batch);
    }
  }

  /** Acknowledging the first row leaves every other listed row alone. */
  lemma ConfirmKeepsOthers(s: Sys, m: Mutation)
    requires Inv(s) && Enabled(s, Confirm)
    ensures var t := Next(s, Confirm);
            && t.worker.Flushing? && t.worker.todo == s.worker.todo[1..]
            && (m in t.worker.todo ==> QueuedRow(t.db, m) == QueuedRow(s.db, m))
  {
    var first := s.worker.todo[0];
    assert Deliverable(s.db, first);
    if m in s.worker.todo[1..] {
      assert first.id != m.id || first.field != m.field;
    }
  }

  /** No step of the flush itself touches a row that is still to be delivered. */
  lemma FlushStep(s: Sys, a: Action, m: Mutation)
    requires Inv(s) && Enabled(s, a) && s.worker.Flushing? && !a.EndFlush? && !a.Crash? && !UserAction(a)
    ensures var t := Next(s, a);
            && t.worker.Flushing?
            && (m in t.worker.todo ==> m in s.worker.todo && QueuedRow(t.db, m) == QueuedRow(s.db, m))
  {
    if a.Confirm? {
      ConfirmKeepsOthers(s, m);
    } else {
      assert Next(s, a).db == s.db;
    }
  }

  /** The row is as the flush read it, or newer because of an edit. */
  predicate Tracks(db: Db, m: Mutation, edited: bool) {
    && QueuedRow(db, m).Some?
    && (if edited then QueuedRow(db, m).value.revision > m.revision
        else QueuedRow(db, m).value == Pending(m.desired, m.revision))
  }

  lemma EditTracks(before: Db, after: Db, m: Mutation, edited: bool)
    requires Tracks(before, m, edited)
    requires Newer(before.readMarks, after.readMarks) && Newer(before.starMarks, after.starMarks)
    ensures Tracks(after, m, edited || QueuedRow(after, m) != QueuedRow(before, m))
  {
  }

  lemma TrackStep(s: Sys, a: Action, m: Mutation, edited: bool)
    requires Inv(s) && Enabled(s, a) && s.worker.Flushing? && !a.EndFlush? && !a.Crash?
    requires m in s.worker.todo ==> Tracks(s.db, m, edited)
    ensures Next(s, a).worker.Flushing?
    ensures m in Next(s, a).worker.todo ==> Tracks(Next(s, a).db, m, edited || Requeues(s, a, m))
  {
    if UserAction(a) {
      UserStepNewer(s, a);
      if m in s.worker.todo {
        EditTracks(s.db, Next(s, a).db, m, edited);
      }
    } else {
      FlushStep(s, a, m);
    }
  }

  lemma {:induction false} FlushTracksEdits(server: map<int, Article>, actions: seq<Action>, from: nat, m: Mutation)
    requires FlushesSince(server, actions, from)
    ensures var s := Reached(server, actions);
            s.worker.Flushing? && (m in s.worker.todo ==> Tracks(s.db, m, EditedSince(server, actions, from, m)))
  {
    var before, last := actions[..|actions| - 1], actions[|actions| - 1];
    assert forall a :: a in before ==> a in actions;
    RunKeepsInv(server, before);
    if |actions| > from {
      FlushTracksEdits(server, before, from, m);
      TrackStep(Reached(server, before), last, m, EditedSince(server, before, from, m));
    } else if m in last.pending {
      assert QueuedIn(Outbox(Reached(server, before).db, m.field), m);
    }
  }

  function IdealValue(ideal: Ideal, m: Mutation): Option<bool> {
    var values := match m.field case ReadField => ideal.read case StarredField => ideal.starred;
    if m.id in values then Some(values[m.id]) else None
  }

  lemma QueuedIsWanted(s: Sys, m: Mutation)
    requires Inv(s) && QueuedRow(s.db, m).Some?
    ensures IdealValue(s.ideal, m) == Some(QueuedRow(s.db, m).value.desired)
  {
    assert m.id in s.db.entries;
    assert ReadOverlaid(s.db.readMarks, m.id, s.db.entries[m.id]);
    assert StarOverlaid(s.db.starMarks, m.id, s.db.entries[m.id]);
  }

  /** An acknowledgement removes its row exactly when no user action queued it anew
      since the flush read the outbox, although revisions restart at one. A removed
      row is what the user wants and the server holds; a row that stays is
      untouched and asks for what the user wants now. */
  lemma ConfirmRemovesExactlyUnedited(server: map<int, Article>, actions: seq<Action>, from: nat)
    requires FlushesSince(server, actions, from) && Enabled(Reached(server, actions), Confirm)
    ensures var s := Reached(server, actions);
            var m := s.worker.todo[0];
            var before, after := QueuedRow(s.db, m), QueuedRow(Next(s, Confirm).db, m);
            && before.Some? && IdealValue(s.ideal, m) == Some(before.value.desired)
            && (if EditedSince(server, actions, from, m) then after == before
                else after.None? && before.value.desired == m.desired && ServerHolds(s.server, m))
  {
    RunKeepsInv(server, actions);
    var s := Reached(server, actions);
    var m := s.worker.todo[0];
    FlushTracksEdits(server, actions, from, m);
    assert Deliverable(s.db, m);
    QueuedIsWanted(s, m);
  }

  /** Whenever a run has nothing queued, the server holds every value the user
      asked for, and each stored baseline and local value equals it. */
  lemma EmptyOutboxMeansSynced(server: map<int, Article>, actions: seq<Action>, id: int)
    requires Legal(server, actions) && forall a :: a in actions ==> Fair(a)
    requires var s := Reached(server, actions);
             s.db.readMarks == map[] && s.db.starMarks == map[] && id in s.server
    ensures var s := Reached(server, actions);
            && id in s.ideal.read && s.server[id].read == s.ideal.read[id]
            && id in s.ideal.starred && s.server[id].starred == s.ideal.starred[id]
            && (id in s.db.entries ==>
                  && s.db.entries[id].status == s.db.entries[id].remoteStatus == Mark(s.server[id].read)
                  && s.db.entries[id].starred == s.db.entries[id].remoteStarred == s.server[id].starred)
  {
    RunKeepsInv(server, actions);
    var s := Reached(server, actions);
    if id in s.db.entries {
      assert ReadOverlaid(s.db.readMarks, id, s.db.entries[id]);
      assert StarOverlaid(s.db.starMarks, id, s.db.entries[id]);
    }
  }

  /** From a complete refresh until the next one, the patched total of its
      selection is the number of local rows, whatever happens in between. */
  lemma PatchedTotalIsRecount(server: map<int, Article>, actions: seq<Action>)
    requires Legal(server, actions) && forall a :: a in actions ==> Fair(a)
    ensures var s := Reached(server, actions);
            s.counted.Some? ==>
              && Key(s.counted.value) in s.db.totals
              && s.db.totals[Key(s.counted.value)] + PendingDelta(s.db, s.counted.value)
                 == |Matching(s.db, s.counted.value)|
              && ShownTotal(s.db, s.counted.value) == |Matching(s.db, s.counted.value)|
  {
    RunKeepsInv(server, actions);
    var s := Reached(server, actions);
    if s.counted.Some? {
      CountedMeansRecount(s.db, s.counted.value);
    }
  }

  // ---- The unfair refresh -----------------------------------------------------------

  lemma Extend(server: map<int, Article>, actions: seq<Action>, a: Action)
    requires Legal(server, actions) && Enabled(Reached(server, actions), a)
    ensures Legal(server, actions + [a])
    ensures Reached(server, actions + [a]) == Next(Reached(server, actions), a)
  {
    assert (actions + [a])[..|actions|] == actions;
  }

  function OpenSteps(selection: Selection): seq<Action> {
    [TakeGate(Refresh(selection)), ReadOutbox([]), EndFlush]
  }

  function RefreshSteps(snapshot: Snapshot): seq<Action> {
    OpenSteps(snapshot.selection) + [Capture(snapshot), ApplyEnds]
  }

  lemma OpenRun(server: map<int, Article>, actions: seq<Action>, selection: Selection)
    requires Legal(server, actions) && Normalize(selection) == selection
    requires var s := Reached(server, actions);
             s.worker == Idle && s.db.readMarks == map[] && s.db.starMarks == map[]
    ensures Legal(server, actions + OpenSteps(selection))
    ensures Reached(server, actions + OpenSteps(selection)) ==
            Reached(server, actions).(worker := Browsing(selection))
  {
    var steps := OpenSteps(selection);
    Extend(server, actions, steps[0]);
    Extend(server, actions + [steps[0]], steps[1]);
    Extend(server, actions + [steps[0]] + [steps[1]], steps[2]);
    assert actions + steps == actions + [steps[0]] + [steps[1]] + [steps[2]];
  }

  /** A whole refresh with an empty outbox. */
  lemma RefreshRun(server: map<int, Article>, actions: seq<Action>, snapshot: Snapshot)
    requires Legal(server, actions) && Normalize(snapshot.selection) == snapshot.selection
    requires var s := Reached(server, actions);
             && s.worker == Idle && s.db.readMarks == map[] && s.db.starMarks == map[]
             && Captures(s.server, snapshot.selection, snapshot) && Apply(s.db, snapshot).Success?
    ensures Legal(server, actions + RefreshSteps(snapshot))
    ensures var s := Reached(server, actions);
            Reached(server, actions + RefreshSteps(snapshot)) ==
            s.(db := Apply(s.db, snapshot).value,
               ideal := s.ideal.(known := Apply(s.db, snapshot).value.entries.Keys),
               counted := if Recountable(snapshot.selection) then Some(snapshot.selection) else None)
  {
    OpenRun(server, actions, snapshot.selection);
    var open := actions + OpenSteps(snapshot.selection);
    Extend(server, open, Capture(snapshot));
    Extend(server, open + [Capture(snapshot)], ApplyEnds);
    assert actions + RefreshSteps(snapshot) == open + [Capture(snapshot)] + [ApplyEnds];
  }

  /** Two refreshes and no edit: the second one shows an unread article as read. */
  lemma StarredUnreadRefreshForgets()
    ensures var server := map[5 := Article(1, 1, "", false, false)];
            var all := Snapshot(AllEntries(0, true), [EntryOf(5, server[5])], [], 1, 0);
            var starred := Snapshot(StarredEntries(true), [], [], 0, 0);
            var actions := RefreshSteps(all) + RefreshSteps(starred);
            Legal(server, actions) && !ReadsYourWrites(Reached(server, actions))
  {
    var server := map[5 := Article(1, 1, "", false, false)];
    var e := EntryOf(5, server[5]);
    var all := Snapshot(AllEntries(0, true), [e], [], 1, 0);
    var starred := Snapshot(StarredEntries(true), [], [], 0, 0);
    assert InsertCategories([]) == Success(NavTables(map[], map[]));
    assert e in all.entries;
    RefreshRun(server, [], all);
    assert [] + RefreshSteps(all) == RefreshSteps(all);
    AppliedRow(EmptyDb(), all, 5);
    SecondRefreshForgets(server, RefreshSteps(all), starred);
  }

  lemma SecondRefreshForgets(server: map<int, Article>, before: seq<Action>, starred: Snapshot)
    requires starred == Snapshot(StarredEntries(true), [], [], 0, 0)
    requires forall id :: id in server ==> !server[id].starred
    requires Legal(server, before)
    requires var s := Reached(server, before);
             && s.worker.Idle? && s.server == server && s.db.readMarks == map[] && s.db.starMarks == map[]
             && 5 in s.db.entries && s.db.entries[5].remoteStatus == Unread
             && 5 in s.ideal.read && !s.ideal.read[5]
    ensures Legal(server, before + RefreshSteps(starred))
    ensures !ReadsYourWrites(Reached(server, before + RefreshSteps(starred)))
  {
    RefreshRun(server, before, starred);
    AppliedRow(Reached(server, before).db, starred, 5);
  }

  ghost predicate Breaks(server: map<int, Article>, actions: seq<Action>, selection: Selection) {
    && Legal(server, actions) && !ReadsYourWrites(Reached(server, actions))
    && forall a :: a in actions && a.TakeGate? && a.next.Refresh? ==>
         a.next.selection == AllEntries(0, true) || a.next.selection == selection
  }

  /** Which refreshes are safe: refreshing with a selection can break
      read-your-writes in some run exactly when it is starred-and-unread. */
  lemma UnsafeSelectionsExactly(selection: Selection)
    ensures (exists server, actions :: Breaks(server, actions, selection)) <==> IgnoresStars(selection)
  {
    if IgnoresStars(selection) {
      assert selection == StarredEntries(true);
      StarredUnreadRefreshForgets();
      var server := map[5 := Article(1, 1, "", false, false)];
      var all := Snapshot(AllEntries(0, true), [EntryOf(5, server[5])], [], 1, 0);
      var starred := Snapshot(StarredEntries(true), [], [], 0, 0);
      assert Breaks(server, RefreshSteps(all) + RefreshSteps(starred), selection);
    } else {
      forall server, actions ensures !Breaks(server, actions, selection) {
        if Breaks(server, actions, selection) {
          forall a | a in actions ensures Fair(a) {
          }
          EveryRunReadsYourWrites(server, actions);
        }
      }
    }
  }
}
