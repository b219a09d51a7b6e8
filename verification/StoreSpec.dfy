/** What each store transaction does to the tables, stated on table values. */
module StoreSpec {
  import opened Collections
  import opened Domain

  // ---- Outbox ---------------------------------------------------------

  /** Re-queueing a row raises its revision; a new row starts at one. */
  function NextRevision(outbox: map<int, Pending>, id: int): int {
    if id in outbox then outbox[id].revision + 1 else 1
  }

  function Enqueue(outbox: map<int, Pending>, wanted: map<int, bool>): map<int, Pending> {
    map id | id in outbox.Keys + wanted.Keys ::
      if id in wanted then Pending(wanted[id], NextRevision(outbox, id)) else outbox[id]
  }

  // ---- Local edits ----------------------------------------------------

  function MarkRows(rows: map<int, Row>, wanted: map<int, bool>): map<int, Row> {
    map id | id in rows ::
      if id in wanted then rows[id].(status := Mark(wanted[id])) else rows[id]
  }

  /** Every local read edit: new local values plus one outbox row each. */
  function EditReads(db: Db, wanted: map<int, bool>): Db {
    db.(entries := MarkRows(db.entries, wanted), readMarks := Enqueue(db.readMarks, wanted))
  }

  /** The listed rows whose local status differs from the requested one. */
  function Changed(db: Db, ids: seq<int>, read: bool): set<int> {
    set id | id in ids && id in db.entries && db.entries[id].status != Mark(read)
  }

  function Uniform(ids: set<int>, value: bool): map<int, bool> {
    map id | id in ids :: value
  }

  /** One undo item per entry, with its prior value. */
  function Items(batch: string, priors: map<int, bool>): map<ItemKey, bool> {
    map id | id in priors :: ItemKey(batch, id) := priors[id]
  }

  function RecordItems(db: Db, batch: string, changed: set<int>): map<ItemKey, bool>
    requires changed <= db.entries.Keys
  {
    db.items + Items(batch, map id | id in changed :: db.entries[id].status == Read)
  }

  function ForgetItems(items: map<ItemKey, bool>, ids: seq<int>): map<ItemKey, bool> {
    map k | k in items && k.entry !in ids :: items[k]
  }

  function NonEmptyBatches(batches: set<string>, items: map<ItemKey, bool>): set<string> {
    set b | b in batches && exists k :: k in items && k.batch == b
  }

  /** A generated batch id that is already in use violates a primary key. */
  predicate BatchTaken(db: Db, ids: seq<int>, read: bool, batch: string) {
    batch in db.batches || exists id :: id in Changed(db, ids, read) && ItemKey(batch, id) in db.items
  }

  predicate SetReadCommits(db: Db, ids: seq<int>, read: bool, undoable: bool, batch: string) {
    undoable ==> !BatchTaken(db, ids, read, batch)
  }

  function SetRead(db: Db, ids: seq<int>, read: bool, undoable: bool, batch: string): Db {
    var changed := Changed(db, ids, read);
    if !SetReadCommits(db, ids, read, undoable, batch) then db
    else if undoable then
      EditReads(db, Uniform(changed, read)).(
        items := RecordItems(db, batch, changed),
        batches := if changed == {} then db.batches else db.batches + {batch})
    else
      var items := ForgetItems(db.items, ids);
      EditReads(db, Uniform(changed, read)).(
        items := items, batches := NonEmptyBatches(db.batches, items))
  }

  function SetReadReceipt(db: Db, ids: seq<int>, read: bool, undoable: bool, batch: string): Result<Option<Receipt>> {
    if !SetReadCommits(db, ids, read, undoable, batch) then Failure
    else if undoable && Changed(db, ids, read) != {} then
      Success(Some(Receipt(batch, |Changed(db, ids, read)|)))
    else Success(None)
  }

  /** The star row is queued even when the entry row is missing. */
  function SetStarred(db: Db, id: int, starred: bool): Db {
    db.(
      entries := if id in db.entries
                 then db.entries[id := db.entries[id].(starred := starred)] else db.entries,
      starMarks := Enqueue(db.starMarks, map[id := starred]))
  }

  // ---- Undo -----------------------------------------------------------

  /** What a batch would restore: the recorded prior value of each entry. */
  function Priors(items: map<ItemKey, bool>, batch: string): map<int, bool> {
    map id | id in (set k | k in items && k.batch == batch :: k.entry) :: items[ItemKey(batch, id)]
  }

  function WithoutBatch(db: Db, batch: string): Db {
    db.(
      items := map k | k in db.items && k.batch != batch :: db.items[k],
      batches := db.batches - {batch})
  }

  function Undo(db: Db, batch: string): Db {
    WithoutBatch(EditReads(db, Priors(db.items, batch)), batch)
  }

  // ---- Acknowledging a delivery ---------------------------------------

  /** The change of the remote unread count a delivered read mark causes. */
  function ReadShift(previous: Status, desired: bool): int {
    if previous == Unread && desired then -1
    else if previous == Read && !desired then 1
    else 0
  }

  function StarShift(previous: bool, desired: bool): int {
    if desired && !previous then 1 else if previous && !desired then -1 else 0
  }

  function Shifted(count: int, shift: int): int {
    if shift == 0 then count else Max(0, count + shift)
  }

  predicate CountsReadsOf(key: TotalKey, row: Row) {
    key.kind == KindUnread
    || (key.unreadOnly
        && (key.kind == KindAll
            || (key.kind == KindFeed && key.scope == row.feedId)
            || (key.kind == KindCategory && key.scope == row.categoryId)))
  }

  /** Only the revision that was delivered leaves the outbox. */
  function Settle(outbox: map<int, Pending>, m: Mutation): map<int, Pending> {
    if m.id in outbox && outbox[m.id].revision == m.revision then outbox - {m.id} else outbox
  }

  function AcknowledgeRead(db: Db, m: Mutation): Db
    requires m.id in db.entries
  {
    var row := db.entries[m.id];
    var shift := ReadShift(row.remoteStatus, m.desired);
    db.(
      entries := db.entries[m.id := row.(remoteStatus := Mark(m.desired))],
      readMarks := Settle(db.readMarks, m),
      feeds := if row.feedId in db.feeds
               then db.feeds[row.feedId := db.feeds[row.feedId].(unread := Shifted(db.feeds[row.feedId].unread, shift))]
               else db.feeds,
      totals := map k | k in db.totals ::
        if CountsReadsOf(k, row) then Shifted(db.totals[k], shift) else db.totals[k])
  }

  function AcknowledgeStar(db: Db, m: Mutation): Db
    requires m.id in db.entries
  {
    var row := db.entries[m.id];
    var shift := StarShift(row.remoteStarred, m.desired);
    db.(
      entries := db.entries[m.id := row.(remoteStarred := m.desired)],
      starMarks := Settle(db.starMarks, m),
      starredTotal := Shifted(db.starredTotal, shift),
      totals := map k | k in db.totals ::
        if k.kind == KindStarred then Shifted(db.totals[k], shift) else db.totals[k])
  }

  /** Without an entry row the baseline query fails and nothing commits. */
  function Acknowledge(db: Db, m: Mutation): Result<Db> {
    if m.id !in db.entries then Failure
    else match m.field
      case ReadField => Success(AcknowledgeRead(db, m))
      case StarredField => Success(AcknowledgeStar(db, m))
  }

  // ---- Applying a refresh ---------------------------------------------

  function Ids(entries: seq<Entry>): set<int> {
    set e | e in entries :: e.id
  }

  predicate DistinctIds(entries: seq<Entry>) {
    forall i, j :: 0 <= i < j < |entries| ==> entries[i].id != entries[j].id
  }

  /** A selection whose fetch was complete also says what is no longer in it. */
  predicate Reconciles(snapshot: Snapshot) {
    var selection := Normalize(snapshot.selection);
    snapshot.total <= |snapshot.entries| && (UnreadOnly(selection) || selection.StarredEntries?)
  }

  function ReconcileRow(db: Db, selection: Selection, fetched: set<int>, id: int): Row
    requires id in db.entries
  {
    var row := db.entries[id];
    if id in fetched || !Within(ScopeOf(selection), row.feedId, row.categoryId) then row
    else if UnreadOnly(selection) then
      if row.remoteStatus == Unread
      then row.(remoteStatus := Read, status := if id in db.readMarks then row.status else Read)
      else row
    else if selection.StarredEntries? && row.remoteStarred then
      row.(remoteStarred := false, starred := if id in db.starMarks then row.starred else false)
    else row
  }

  function ReconcileRows(db: Db, selection: Selection, fetched: set<int>): map<int, Row> {
    map id | id in db.entries :: ReconcileRow(db, selection, fetched, id)
  }

  /** The row after one fetched entry: baselines advance, queued values stay. */
  function UpsertRow(db: Db, rows: map<int, Row>, e: Entry): Row {
    if e.id in rows then
      Row(e.feedId, e.categoryId, e.text, e.status, e.starred,
          if e.id in db.readMarks then rows[e.id].status else e.status,
          if e.id in db.starMarks then rows[e.id].starred else e.starred)
    else
      Row(e.feedId, e.categoryId, e.text, e.status, e.starred, e.status, e.starred)
  }

  function UpsertAll(db: Db, rows: map<int, Row>, entries: seq<Entry>): map<int, Row> {
    if entries == [] then rows
    else
      var last := |entries| - 1;
      var before := UpsertAll(db, rows, entries[..last]);
      before[entries[last].id := UpsertRow(db, before, entries[last])]
  }

  datatype NavTables = NavTables(categories: map<int, string>, feeds: map<int, FeedRow>)

  function InsertFeeds(feeds: map<int, FeedRow>, category: int, nodes: seq<FeedNode>): Result<map<int, FeedRow>> {
    if nodes == [] then Success(feeds)
    else
      var last := nodes[|nodes| - 1];
      match InsertFeeds(feeds, category, nodes[..|nodes| - 1])
      case Failure => Failure
      case Success(before) =>
        if last.id in before then Failure
        else Success(before[last.id := FeedRow(category, last.title, last.unread)])
  }

  /** The navigation tables are rebuilt; a repeated id violates a primary key. */
  function InsertCategories(nodes: seq<CategoryNode>): Result<NavTables> {
    if nodes == [] then Success(NavTables(map[], map[]))
    else
      var last := nodes[|nodes| - 1];
      match InsertCategories(nodes[..|nodes| - 1])
      case Failure => Failure
      case Success(before) =>
        if last.id in before.categories then Failure
        else match InsertFeeds(before.feeds, last.id, last.feeds)
          case Failure => Failure
          case Success(feeds) => Success(NavTables(before.categories[last.id := last.title], feeds))
  }

  function Apply(db: Db, snapshot: Snapshot): Result<Db> {
    var selection := Normalize(snapshot.selection);
    if Reconciles(snapshot) && !DistinctIds(snapshot.entries) then Failure
    else match InsertCategories(snapshot.categories)
      case Failure => Failure
      case Success(nav) =>
        var rows := if Reconciles(snapshot)
                    then ReconcileRows(db, selection, Ids(snapshot.entries)) else db.entries;
        Success(db.(
          starredTotal := snapshot.starredTotal,
          totals := db.totals[Key(selection) := snapshot.total],
          categories := nav.categories,
          feeds := nav.feeds,
          entries := UpsertAll(db, rows, snapshot.entries)))
  }

  // ---- What a local snapshot shows ------------------------------------

  /** Queued read marks that turn a remotely read entry unread. */
  function GainedReads(db: Db, scope: Scope): set<int> {
    set id | id in db.entries && id in db.readMarks
      && Within(scope, db.entries[id].feedId, db.entries[id].categoryId)
      && db.entries[id].status == Unread && db.entries[id].remoteStatus == Read
  }

  /** Queued read marks that turn a remotely unread entry read. */
  function LostReads(db: Db, scope: Scope): set<int> {
    set id | id in db.entries && id in db.readMarks
      && Within(scope, db.entries[id].feedId, db.entries[id].categoryId)
      && db.entries[id].status == Read && db.entries[id].remoteStatus == Unread
  }

  function ReadDelta(db: Db, scope: Scope): int {
    |GainedReads(db, scope)| - |LostReads(db, scope)|
  }

  function GainedStars(db: Db): set<int> {
    set id | id in db.entries && id in db.starMarks
      && db.entries[id].starred && !db.entries[id].remoteStarred
  }

  function LostStars(db: Db): set<int> {
    set id | id in db.entries && id in db.starMarks
      && !db.entries[id].starred && db.entries[id].remoteStarred
  }

  function StarDelta(db: Db): int {
    |GainedStars(db)| - |LostStars(db)|
  }

  predicate Matches(selection: Selection, row: Row) {
    && Within(ScopeOf(selection), row.feedId, row.categoryId)
    && (UnreadOnly(selection) ==> row.status == Unread)
    && (selection.StarredEntries? ==> row.starred)
  }

  function Matching(db: Db, selection: Selection): set<int> {
    set id | id in db.entries && Matches(selection, db.entries[id])
  }

  function PendingDelta(db: Db, selection: Selection): int {
    if selection.StarredEntries? then StarDelta(db)
    else if UnreadOnly(selection) then ReadDelta(db, ScopeOf(selection))
    else 0
  }

  /** The shown size of a normalized selection. */
  function ShownTotal(db: Db, selection: Selection): int {
    var local := |Matching(db, selection)|;
    if Key(selection) in db.totals
    then Max(local, Max(0, db.totals[Key(selection)] + PendingDelta(db, selection)))
    else local
  }

  function ShownUnread(db: Db, feed: int): int
    requires feed in db.feeds
  {
    Max(0, db.feeds[feed].unread + ReadDelta(db, InFeed(feed)))
  }

  function FeedCounts(db: Db, category: int): map<int, int> {
    map f | f in db.feeds && db.feeds[f].categoryId == category :: ShownUnread(db, f)
  }

  ghost function CategoryCounts(db: Db): map<int, int> {
    map c | c in db.categories :: SumMap(FeedCounts(db, c))
  }

  ghost function UnreadTotal(db: Db): int {
    SumMap(CategoryCounts(db))
  }

  function ShownStarred(db: Db): int {
    Max(0, db.starredTotal + StarDelta(db))
  }

  /** An article as the list shows it; remote baselines stay hidden. */
  datatype Shown = Shown(feedId: int, categoryId: int, text: string, status: Status, starred: bool)

  function ShownRow(row: Row): Shown {
    Shown(row.feedId, row.categoryId, row.text, row.status, row.starred)
  }

  /** The rows a snapshot lists before sorting by date and cutting at 200. */
  function ShownRows(db: Db, selection: Selection, retained: seq<int>): map<int, Shown> {
    map id | id in db.entries && (Matches(selection, db.entries[id]) || id in retained) ::
      ShownRow(db.entries[id])
  }
}
