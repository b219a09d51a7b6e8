/** The rows and requests of the offline core, one account at a time. */
module Domain {

  datatype Option<+T> = None | Some(value: T)

  /** A transaction either commits with a value or rolls back. */
  datatype Result<+T> = Success(value: T) | Failure

  /** Read state; values other than the two known strings survive a round trip. */
  datatype Status = Read | Unread | Other(text: string)

  function Mark(read: bool): Status {
    if read then Read else Unread
  }

  datatype Selection =
    | AllEntries(id: int, unreadOnly: bool)
    | UnreadEntries(unreadOnly: bool)
    | StarredEntries(unreadOnly: bool)
    | CategoryEntries(id: int, unreadOnly: bool)
    | FeedEntries(id: int, unreadOnly: bool)

  /** An article as the remote service reports it. */
  datatype Entry = Entry(
    id: int, feedId: int, categoryId: int, text: string, status: Status, starred: bool)

  /** An article as the server holds it. */
  datatype Article = Article(feedId: int, categoryId: int, text: string, read: bool, starred: bool)

  /** A row of the entries table: the last remote baseline and the local value. */
  datatype Row = Row(
    feedId: int, categoryId: int, text: string,
    remoteStatus: Status, remoteStarred: bool,
    status: Status, starred: bool)

  datatype Field = ReadField | StarredField

  /** A row of the outbox, keyed by entry and field. */
  datatype Pending = Pending(desired: bool, revision: int)

  /** An outbox row as the flush loop read it. */
  datatype Mutation = Mutation(id: int, field: Field, desired: bool, revision: int)

  datatype FeedNode = FeedNode(id: int, title: string, categoryId: int, unread: int)
  datatype CategoryNode = CategoryNode(id: int, title: string, unread: int, feeds: seq<FeedNode>)

  /** One assembled remote browse result. */
  datatype Snapshot = Snapshot(
    selection: Selection, entries: seq<Entry>, categories: seq<CategoryNode>,
    total: int, starredTotal: int)

  datatype FeedRow = FeedRow(categoryId: int, title: string, unread: int)

  datatype Kind = KindAll | KindUnread | KindStarred | KindCategory | KindFeed
  datatype TotalKey = TotalKey(kind: Kind, scope: int, unreadOnly: bool)

  datatype ItemKey = ItemKey(batch: string, entry: int)
  datatype Receipt = Receipt(batch: string, count: int)

  /** All tables of one account. The outbox is split by field. */
  datatype Db = Db(
    entries: map<int, Row>,
    readMarks: map<int, Pending>,
    starMarks: map<int, Pending>,
    feeds: map<int, FeedRow>,
    categories: map<int, string>,
    totals: map<TotalKey, int>,
    starredTotal: int,
    batches: set<string>,
    items: map<ItemKey, bool>)

  function EmptyDb(): Db {
    Db(map[], map[], map[], map[], map[], map[], 0, {}, map[])
  }

  function Outbox(db: Db, field: Field): map<int, Pending> {
    match field
    case ReadField => db.readMarks
    case StarredField => db.starMarks
  }

  /** The part of the article list a selection ranges over. */
  datatype Scope = Everything | InCategory(id: int) | InFeed(id: int)

  predicate Within(scope: Scope, feedId: int, categoryId: int) {
    match scope
    case Everything => true
    case InCategory(id) => categoryId == id
    case InFeed(id) => feedId == id
  }

  function ScopeOf(selection: Selection): Scope {
    match selection
    case CategoryEntries(id, _) => InCategory(id)
    case FeedEntries(id, _) => InFeed(id)
    case _ => Everything
  }

  predicate UnreadOnly(selection: Selection) {
    selection.UnreadEntries? || selection.unreadOnly
  }

  /** A scoped selection without a usable id falls back to every unread entry. */
  function Normalize(selection: Selection): Selection {
    match selection
    case CategoryEntries(id, _) => if id > 0 then selection else AllEntries(0, true)
    case FeedEntries(id, _) => if id > 0 then selection else AllEntries(0, true)
    case _ => selection
  }

  function KindOf(selection: Selection): Kind {
    match selection
    case AllEntries(_, _) => KindAll
    case UnreadEntries(_) => KindUnread
    case StarredEntries(_) => KindStarred
    case CategoryEntries(_, _) => KindCategory
    case FeedEntries(_, _) => KindFeed
  }

  function Key(selection: Selection): TotalKey {
    var scope := match selection
      case CategoryEntries(id, _) => id
      case FeedEntries(id, _) => id
      case _ => 0;
    TotalKey(KindOf(selection), scope, UnreadOnly(selection))
  }
}
