/** Building the navigation tree from the remote lists, and its round trip
    through the navigation tables. */
module Navigation {
  import opened Collections
  import opened Domain
  import opened StoreSpec
  import opened TitleOrder

  datatype CategoryInput = CategoryInput(id: int, title: string)
  datatype FeedInput = FeedInput(id: int, title: string, categoryId: int)

  type Lower = string -> string

  // ---- The tree ---------------------------------------------------------------

  function FeedUnread(feed: FeedNode): int { feed.unread }
  function CategoryUnread(category: CategoryNode): int { category.unread }
  function FeedId(feed: FeedNode): int { feed.id }
  function CategoryId(category: CategoryNode): int { category.id }

  function Counter(counters: map<int, int>, feed: int): int {
    if feed in counters then counters[feed] else 0
  }

  function Node(feed: FeedInput, counters: map<int, int>): FeedNode {
    FeedNode(feed.id, feed.title, feed.categoryId, Counter(counters, feed.id))
  }

  /** The feeds of a category in input order. */
  function FeedsOf(feeds: seq<FeedInput>, counters: map<int, int>, category: int): seq<FeedNode> {
    if feeds == [] then []
    else
      var last := feeds[|feeds| - 1];
      FeedsOf(feeds[..|feeds| - 1], counters, category)
      + if last.categoryId == category then [Node(last, counters)] else []
  }

  /** Of several categories with one id only the last one receives feeds. */
  predicate Receives(categories: seq<CategoryInput>, i: nat)
    requires i < |categories|
  {
    forall j :: i < j < |categories| ==> categories[j].id != categories[i].id
  }

  function Filled(categories: seq<CategoryInput>, feeds: seq<FeedInput>, counters: map<int, int>, i: nat): CategoryNode
    requires i < |categories|
  {
    var own := if Receives(categories, i) then FeedsOf(feeds, counters, categories[i].id) else [];
    CategoryNode(categories[i].id, categories[i].title, Total(own, FeedUnread), own)
  }

  function Unsorted(categories: seq<CategoryInput>, feeds: seq<FeedInput>, counters: map<int, int>): seq<CategoryNode> {
    seq(|categories|, i requires 0 <= i < |categories| => Filled(categories, feeds, counters, i))
  }

  function CategoryKey(lower: Lower): CategoryNode -> string {
    (c: CategoryNode) => lower(c.title)
  }

  function FeedKey(lower: Lower): FeedNode -> string {
    (f: FeedNode) => lower(f.title)
  }

  function SortFeeds(category: CategoryNode, lower: Lower): CategoryNode {
    category.(feeds := StableSort(category.feeds, FeedKey(lower)))
  }

  function SortEach(categories: seq<CategoryNode>, lower: Lower): seq<CategoryNode> {
    seq(|categories|, i requires 0 <= i < |categories| => SortFeeds(categories[i], lower))
  }

  function Tree(categories: seq<CategoryInput>, feeds: seq<FeedInput>, counters: map<int, int>, lower: Lower)
    : seq<CategoryNode>
  {
    SortEach(StableSort(Unsorted(categories, feeds, counters), CategoryKey(lower)), lower)
  }

  lemma OneMoreOfOther(feeds: seq<FeedInput>, feed: FeedInput, counters: map<int, int>, category: int)
    requires feed.categoryId != category
    ensures FeedsOf(feeds + [feed], counters, category) == FeedsOf(feeds, counters, category)
  {
    assert (feeds + [feed])[..|feeds|] == feeds;
  }

  /** Appending one attached feed fills exactly the receiving category. */
  lemma OneMoreFeed(
      categories: seq<CategoryInput>, feeds: seq<FeedInput>, feed: FeedInput, counters: map<int, int>, at: nat)
    requires at < |categories| && Receives(categories, at) && categories[at].id == feed.categoryId
    ensures var before := Unsorted(categories, feeds, counters);
            Unsorted(categories, feeds + [feed], counters) ==
            before[at := WithFeed(before[at], feed, counters)]
  {
    var before, after := Unsorted(categories, feeds, counters), Unsorted(categories, feeds + [feed], counters);
    assert (feeds + [feed])[..|feeds|] == feeds;
    assert FeedsOf(feeds + [feed], counters, feed.categoryId) ==
           FeedsOf(feeds, counters, feed.categoryId) + [Node(feed, counters)];
    var own := FeedsOf(feeds, counters, feed.categoryId);
    assert (own + [Node(feed, counters)])[..|own|] == own;
    forall i | 0 <= i < |categories| && i != at ensures after[i] == before[i] {
      if Receives(categories, i) {
        assert categories[i].id != feed.categoryId;
        OneMoreOfOther(feeds, feed, counters, categories[i].id);
      }
    }
  }

  lemma OneMoreOrphan(categories: seq<CategoryInput>, feeds: seq<FeedInput>, feed: FeedInput, counters: map<int, int>)
    requires forall i :: 0 <= i < |categories| ==> categories[i].id != feed.categoryId
    ensures Unsorted(categories, feeds + [feed], counters) == Unsorted(categories, feeds, counters)
  {
    forall i | 0 <= i < |categories|
      ensures Filled(categories, feeds + [feed], counters, i) == Filled(categories, feeds, counters, i)
    {
      OneMoreOfOther(feeds, feed, counters, categories[i].id);
    }
  }

  predicate Indexes(categories: seq<CategoryInput>, indexes: map<int, nat>) {
    && (forall i :: 0 <= i < |categories| ==> categories[i].id in indexes)
    && (forall id :: id in indexes ==>
          indexes[id] < |categories| && categories[indexes[id]].id == id && Receives(categories, indexes[id]))
  }

  method IndexCategories(categories: seq<CategoryInput>) returns (indexes: map<int, nat>)
    ensures Indexes(categories, indexes)
  {
    indexes := map[];
    for index := 0 to |categories|
      invariant Indexes(categories[..index], indexes)
    {
      indexes := indexes[categories[index].id := index];
    }
    assert categories[..|categories|] == categories;
  }

  method FillFeeds(
      categories: seq<CategoryInput>, feeds: seq<FeedInput>, counters: map<int, int>, indexes: map<int, nat>)
    returns (result: seq<CategoryNode>, unreadTotal: int)
    requires Indexes(categories, indexes)
    ensures result == Unsorted(categories, feeds, counters)
    ensures unreadTotal == Total(result, CategoryUnread)
  {
    result := seq(|categories|, i requires 0 <= i < |categories| =>
      CategoryNode(categories[i].id, categories[i].title, 0, []));
    unreadTotal := 0;
    Unfilled(categories, counters);
    assert result == Unsorted(categories, [], counters) && feeds[..0] == [];
    for j := 0 to |feeds|
      invariant result == Unsorted(categories, feeds[..j], counters)
      invariant unreadTotal == Total(result, CategoryUnread)
    {
      var before := result;
      assert feeds[..j + 1] == feeds[..j] + [feeds[j]];
      result := FillOne(categories, feeds[..j], feeds[j], counters, indexes, before);
      unreadTotal := unreadTotal + if feeds[j].categoryId in indexes then Counter(counters, feeds[j].id) else 0;
    }
    assert feeds[..|feeds|] == feeds;
  }

  lemma Unfilled(categories: seq<CategoryInput>, counters: map<int, int>)
    ensures var empty := Unsorted(categories, [], counters);
            && Total(empty, CategoryUnread) == 0
            && forall i :: 0 <= i < |categories| ==>
                 empty[i] == CategoryNode(categories[i].id, categories[i].title, 0, [])
  {
    ZeroTotal(Unsorted(categories, [], counters));
  }

  function WithFeed(category: CategoryNode, feed: FeedInput, counters: map<int, int>): CategoryNode {
    category.(unread := category.unread + Counter(counters, feed.id), feeds := category.feeds + [Node(feed, counters)])
  }

  lemma FilledTotal(nodes: seq<CategoryNode>, index: nat, feed: FeedInput, counters: map<int, int>)
    requires index < |nodes|
    ensures Total(nodes[index := WithFeed(nodes[index], feed, counters)], CategoryUnread) ==
            Total(nodes, CategoryUnread) + Counter(counters, feed.id)
  {
    TotalChanges(nodes, index, WithFeed(nodes[index], feed, counters), CategoryUnread);
  }

  method FillOne(
      categories: seq<CategoryInput>, ghost feeds: seq<FeedInput>, feed: FeedInput,
      counters: map<int, int>, indexes: map<int, nat>, before: seq<CategoryNode>)
    returns (result: seq<CategoryNode>)
    requires Indexes(categories, indexes) && before == Unsorted(categories, feeds, counters)
    ensures result == Unsorted(categories, feeds + [feed], counters)
    ensures Total(result, CategoryUnread) == Total(before, CategoryUnread)
              + if feed.categoryId in indexes then Counter(counters, feed.id) else 0
  {
    if feed.categoryId in indexes {
      var index := indexes[feed.categoryId];
      OneMoreFeed(categories, feeds, feed, counters, index);
      FilledTotal(before, index, feed, counters);
      result := before[index := WithFeed(before[index], feed, counters)];
    } else {
      OneMoreOrphan(categories, feeds, feed, counters);
      result := before;
    }
  }

  method BuildNavigation(categories: seq<CategoryInput>, feeds: seq<FeedInput>, counters: map<int, int>, lower: Lower)
    returns (result: seq<CategoryNode>, unreadTotal: int)
    ensures result == Tree(categories, feeds, counters, lower)
    ensures unreadTotal == Total(result, CategoryUnread)
  {
    var indexes := IndexCategories(categories);
    result, unreadTotal := FillFeeds(categories, feeds, counters, indexes);
    SortTotal(result, CategoryKey(lower), CategoryUnread);
    result := StableSort(result, CategoryKey(lower));
    TotalSame(result, SortEach(result, lower), CategoryUnread, CategoryUnread);
    ghost var sorted := result;
    for i := 0 to |result|
      invariant |result| == |sorted|
      invariant forall k :: 0 <= k < |sorted| ==> result[k] == if k < i then SortFeeds(sorted[k], lower) else sorted[k]
    {
      result := result[i := result[i].(feeds := StableSort(result[i].feeds, FeedKey(lower)))];
    }
    assert result == SortEach(sorted, lower);
  }

  lemma {:induction false} ZeroTotal(nodes: seq<CategoryNode>)
    requires forall i :: 0 <= i < |nodes| ==> nodes[i].unread == 0
    ensures Total(nodes, CategoryUnread) == 0
  {
    if nodes != [] {
      ZeroTotal(nodes[..|nodes| - 1]);
    }
  }

  // ---- What the tree says -------------------------------------------------------

  predicate Attached(categories: seq<CategoryInput>, feed: FeedInput) {
    exists i :: 0 <= i < |categories| && categories[i].id == feed.categoryId
  }

  /** The counters of every feed that has a known category. */
  function AttachedSum(categories: seq<CategoryInput>, feeds: seq<FeedInput>, counters: map<int, int>): int {
    if feeds == [] then 0
    else
      var last := feeds[|feeds| - 1];
      AttachedSum(categories, feeds[..|feeds| - 1], counters)
      + if Attached(categories, last) then Counter(counters, last.id) else 0
  }

  lemma {:induction false} Receiver(categories: seq<CategoryInput>, i: nat) returns (at: nat)
    requires i < |categories|
    ensures at < |categories| && categories[at].id == categories[i].id && Receives(categories, at)
    decreases |categories| - i
  {
    at := i;
    if !Receives(categories, i) {
      var j :| i < j < |categories| && categories[j].id == categories[i].id;
      at := Receiver(categories, j);
    }
  }

  lemma {:induction false} UnsortedTotal(categories: seq<CategoryInput>, feeds: seq<FeedInput>, counters: map<int, int>)
    ensures Total(Unsorted(categories, feeds, counters), CategoryUnread) == AttachedSum(categories, feeds, counters)
  {
    if feeds == [] {
      ZeroTotal(Unsorted(categories, feeds, counters));
    } else {
      var front, last := feeds[..|feeds| - 1], feeds[|feeds| - 1];
      assert feeds == front + [last];
      UnsortedTotal(categories, front, counters);
      if Attached(categories, last) {
        var i: nat :| i < |categories| && categories[i].id == last.categoryId;
        var at := Receiver(categories, i);
        OneMoreFeed(categories, front, last, counters, at);
        var before := Unsorted(categories, front, counters);
        TotalChanges(before, at, Unsorted(categories, feeds, counters)[at], CategoryUnread);
      } else {
        OneMoreOrphan(categories, front, last, counters);
      }
    }
  }

  /** The tree's total counts every feed of a known category once, and no other. */
  lemma TreeTotal(categories: seq<CategoryInput>, feeds: seq<FeedInput>, counters: map<int, int>, lower: Lower)
    ensures Total(Tree(categories, feeds, counters, lower), CategoryUnread) == AttachedSum(categories, feeds, counters)
  {
    var unsorted := Unsorted(categories, feeds, counters);
    var sorted := StableSort(unsorted, CategoryKey(lower));
    UnsortedTotal(categories, feeds, counters);
    SortTotal(unsorted, CategoryKey(lower), CategoryUnread);
    TotalSame(sorted, SortEach(sorted, lower), CategoryUnread, CategoryUnread);
  }

  /** Every node of the tree is a category with its feeds, sorted. */
  lemma TreeNode(categories: seq<CategoryInput>, feeds: seq<FeedInput>, counters: map<int, int>, lower: Lower, k: nat)
    returns (i: nat)
    requires k < |Tree(categories, feeds, counters, lower)|
    ensures i < |categories|
    ensures var node := Tree(categories, feeds, counters, lower)[k];
            var own := Filled(categories, feeds, counters, i);
            && node.id == categories[i].id && node.title == categories[i].title
            && node.feeds == StableSort(own.feeds, FeedKey(lower))
            && node.unread == Total(node.feeds, FeedUnread)
            && Ordered(node.feeds, FeedKey(lower)) && multiset(node.feeds) == multiset(own.feeds)
  {
    var unsorted := Unsorted(categories, feeds, counters);
    var sorted := StableSort(unsorted, CategoryKey(lower));
    SortOrdered(unsorted, CategoryKey(lower));
    assert sorted[k] in multiset(sorted);
    i :| 0 <= i < |unsorted| && unsorted[i] == sorted[k];
    SortTotal(unsorted[i].feeds, FeedKey(lower), FeedUnread);
    SortOrdered(unsorted[i].feeds, FeedKey(lower));
  }

  /** Categories appear by title, ties in input order, none lost or doubled. */
  lemma TreeOrder(categories: seq<CategoryInput>, feeds: seq<FeedInput>, counters: map<int, int>, lower: Lower)
    ensures var tree := Tree(categories, feeds, counters, lower);
            && |tree| == |categories| && Ordered(tree, CategoryKey(lower))
            && forall sorted :: (Ordered(sorted, CategoryKey(lower))
                 && SameTies(Unsorted(categories, feeds, counters), sorted, CategoryKey(lower))) ==>
                 tree == SortEach(sorted, lower)
  {
    var unsorted := Unsorted(categories, feeds, counters);
    SortOrdered(unsorted, CategoryKey(lower));
    assert |multiset(StableSort(unsorted, CategoryKey(lower)))| == |multiset(unsorted)|;
    forall sorted | Ordered(sorted, CategoryKey(lower)) && SameTies(unsorted, sorted, CategoryKey(lower))
      ensures Tree(categories, feeds, counters, lower) == SortEach(sorted, lower)
    {
      StableSortExactly(unsorted, sorted, CategoryKey(lower));
    }
  }

  // ---- Storing a tree -------------------------------------------------------------

  function FeedIds(nodes: seq<FeedNode>): set<int> {
    IdsOf(nodes, FeedId)
  }

  predicate Disjoint(nodes: seq<CategoryNode>) {
    forall i, j :: 0 <= i < j < |nodes| ==> FeedIds(nodes[i].feeds) !! FeedIds(nodes[j].feeds)
  }

  /** No category id and no feed id occurs twice anywhere in the tree. */
  predicate Storable(nodes: seq<CategoryNode>) {
    && DistinctBy(nodes, CategoryId)
    && (forall i :: 0 <= i < |nodes| ==> DistinctBy(nodes[i].feeds, FeedId))
    && Disjoint(nodes)
  }

  function RowsOf(category: int, nodes: seq<FeedNode>): map<int, FeedRow> {
    if nodes == [] then map[]
    else
      var last := nodes[|nodes| - 1];
      RowsOf(category, nodes[..|nodes| - 1])[last.id := FeedRow(category, last.title, last.unread)]
  }

  lemma {:induction false} RowsOfKeys(category: int, nodes: seq<FeedNode>)
    ensures RowsOf(category, nodes).Keys == FeedIds(nodes)
    ensures forall f :: f in RowsOf(category, nodes) ==> RowsOf(category, nodes)[f].categoryId == category
  {
    if nodes != [] {
      var front, last := nodes[..|nodes| - 1], nodes[|nodes| - 1];
      RowsOfKeys(category, front);
      assert nodes == front + [last];
      IdsSnoc(front, last, FeedId);
    }
  }

  lemma DisjointSnoc(ids: set<int>, x: int, keys: set<int>)
    ensures ids + {x} !! keys <==> ids !! keys && x !in keys
  {
  }

  lemma AddThenPut(before: map<int, FeedRow>, rows: map<int, FeedRow>, x: int, row: FeedRow)
    ensures (before + rows)[x := row] == before + rows[x := row]
  {
  }

  lemma {:induction false} InsertFeedsExactly(before: map<int, FeedRow>, category: int, nodes: seq<FeedNode>)
    ensures InsertFeeds(before, category, nodes).Success? <==>
            DistinctBy(nodes, FeedId) && FeedIds(nodes) !! before.Keys
    ensures InsertFeeds(before, category, nodes).Success? ==>
            InsertFeeds(before, category, nodes).value == before + RowsOf(category, nodes)
  {
    if nodes == [] {
      assert FeedIds(nodes) == {};
    } else {
      var front, last := nodes[..|nodes| - 1], nodes[|nodes| - 1];
      InsertFeedsExactly(before, category, front);
      RowsOfKeys(category, front);
      assert nodes == front + [last];
      IdsSnoc(front, last, FeedId);
      DisjointSnoc(FeedIds(front), last.id, before.Keys);
      var row := FeedRow(category, last.title, last.unread);
      AddThenPut(before, RowsOf(category, front), last.id, row);
    }
  }

  /** Every feed id of the tree. */
  function AllFeedIds(nodes: seq<CategoryNode>): set<int> {
    if nodes == [] then {} else AllFeedIds(nodes[..|nodes| - 1]) + FeedIds(nodes[|nodes| - 1].feeds)
  }

  lemma {:induction false} AllFeedIdsDisjoint(nodes: seq<CategoryNode>, ids: set<int>)
    ensures ids !! AllFeedIds(nodes) <==> forall i :: 0 <= i < |nodes| ==> ids !! FeedIds(nodes[i].feeds)
  {
    if nodes != [] {
      AllFeedIdsDisjoint(nodes[..|nodes| - 1], ids);
    }
  }

  lemma StorableSnoc(front: seq<CategoryNode>, last: CategoryNode)
    ensures Storable(front + [last]) <==>
            && Storable(front) && last.id !in IdsOf(front, CategoryId)
            && DistinctBy(last.feeds, FeedId) && FeedIds(last.feeds) !! AllFeedIds(front)
  {
    var nodes := front + [last];
    IdsSnoc(front, last, CategoryId);
    AllFeedIdsDisjoint(front, FeedIds(last.feeds));
    assert nodes[|front|] == last && forall i :: 0 <= i < |front| ==> nodes[i] == front[i];
  }

  function Restricted(feeds: map<int, FeedRow>, category: int): map<int, FeedRow> {
    map f | f in feeds && feeds[f].categoryId == category :: feeds[f]
  }

  predicate StoredAt(nav: NavTables, node: CategoryNode) {
    && node.id in nav.categories && nav.categories[node.id] == node.title
    && Restricted(nav.feeds, node.id) == RowsOf(node.id, node.feeds)
  }

  /** The tables hold the tree: every category with exactly its own feeds. */
  predicate Stored(nav: NavTables, nodes: seq<CategoryNode>) {
    && nav.categories.Keys == IdsOf(nodes, CategoryId)
    && nav.feeds.Keys == AllFeedIds(nodes)
    && (forall f :: f in nav.feeds ==> nav.feeds[f].categoryId in nav.categories)
    && (forall i :: 0 <= i < |nodes| ==> StoredAt(nav, nodes[i]))
  }

  lemma StoredBeside(nav: NavTables, id: int, title: string, rows: map<int, FeedRow>, node: CategoryNode)
    requires StoredAt(nav, node) && node.id != id && rows.Keys !! nav.feeds.Keys
    requires forall f :: f in rows ==> rows[f].categoryId == id
    ensures StoredAt(NavTables(nav.categories[id := title], nav.feeds + rows), node)
  {
    var after, was := Restricted(nav.feeds + rows, node.id), Restricted(nav.feeds, node.id);
    forall f ensures (f in after <==> f in was) && (f in was ==> after[f] == was[f]) {
      assert f in rows ==> (nav.feeds + rows)[f] == rows[f];
    }
    assert after == was;
  }

  lemma StoredOwn(nav: NavTables, id: int, rows: map<int, FeedRow>)
    requires id !in nav.categories && (forall f :: f in nav.feeds ==> nav.feeds[f].categoryId in nav.categories)
    requires forall f :: f in rows ==> rows[f].categoryId == id
    ensures Restricted(nav.feeds + rows, id) == rows
  {
    var after := Restricted(nav.feeds + rows, id);
    forall f ensures (f in after <==> f in rows) && (f in rows ==> after[f] == rows[f]) {
      assert f in rows ==> (nav.feeds + rows)[f] == rows[f];
      assert f in nav.feeds && f !in rows ==> (nav.feeds + rows)[f] == nav.feeds[f];
    }
    assert after == rows;
  }

  lemma StoredEach(nav: NavTables, front: seq<CategoryNode>, last: CategoryNode)
    requires Stored(nav, front) && last.id !in nav.categories && FeedIds(last.feeds) !! nav.feeds.Keys
    ensures forall i :: 0 <= i < |front + [last]| ==>
              StoredAt(NavTables(nav.categories[last.id := last.title], nav.feeds + RowsOf(last.id, last.feeds)),
                       (front + [last])[i])
  {
    var nodes, rows := front + [last], RowsOf(last.id, last.feeds);
    RowsOfKeys(last.id, last.feeds);
    forall i | 0 <= i < |nodes|
      ensures StoredAt(NavTables(nav.categories[last.id := last.title], nav.feeds + rows), nodes[i])
    {
      if i < |front| {
        assert nodes[i] == front[i];
        StoredBeside(nav, last.id, last.title, rows, front[i]);
      } else {
        StoredOwn(nav, last.id, rows);
      }
    }
  }

  lemma ParentsStored(nav: NavTables, id: int, title: string, rows: map<int, FeedRow>)
    requires forall f :: f in nav.feeds ==> nav.feeds[f].categoryId in nav.categories
    requires forall f :: f in rows ==> rows[f].categoryId == id
    ensures forall f :: f in nav.feeds + rows ==> (nav.feeds + rows)[f].categoryId in nav.categories[id := title]
  {
  }

  lemma StoredSnoc(nav: NavTables, front: seq<CategoryNode>, last: CategoryNode)
    requires Stored(nav, front) && last.id !in nav.categories && FeedIds(last.feeds) !! nav.feeds.Keys
    ensures Stored(NavTables(nav.categories[last.id := last.title], nav.feeds + RowsOf(last.id, last.feeds)),
                   front + [last])
  {
    RowsOfKeys(last.id, last.feeds);
    StoredKeys(nav, front, last);
    StoredEach(nav, front, last);
    ParentsStored(nav, last.id, last.title, RowsOf(last.id, last.feeds));
  }

  lemma StoredKeys(nav: NavTables, front: seq<CategoryNode>, last: CategoryNode)
    requires nav.categories.Keys == IdsOf(front, CategoryId) && nav.feeds.Keys == AllFeedIds(front)
    ensures nav.categories[last.id := last.title].Keys == IdsOf(front + [last], CategoryId)
    ensures (nav.feeds + RowsOf(last.id, last.feeds)).Keys == AllFeedIds(front + [last])
  {
    var nodes := front + [last];
    IdsSnoc(front, last, CategoryId);
    RowsOfKeys(last.id, last.feeds);
    assert nodes[..|nodes| - 1] == front && nodes[|nodes| - 1] == last;
  }

  /** A tree can be stored exactly when no id repeats, and then the tables hold it. */
  lemma {:induction false} InsertCategoriesExactly(nodes: seq<CategoryNode>)
    ensures InsertCategories(nodes).Success? <==> Storable(nodes)
    ensures InsertCategories(nodes).Success? ==> Stored(InsertCategories(nodes).value, nodes)
  {
    if nodes != [] {
      var front, last := nodes[..|nodes| - 1], nodes[|nodes| - 1];
      assert nodes == front + [last];
      InsertCategoriesExactly(front);
      StorableSnoc(front, last);
      if InsertCategories(front).Success? {
        var before := InsertCategories(front).value;
        InsertFeedsExactly(before.feeds, last.id, last.feeds);
        if last.id !in before.categories && InsertFeeds(before.feeds, last.id, last.feeds).Success? {
          StoredSnoc(before, front, last);
        }
      }
    }
  }

  // ---- Reading a stored tree back ------------------------------------------------

  function Clamped(feed: FeedNode): int { Max(0, feed.unread) }
  function ClampedSum(category: CategoryNode): int { Total(category.feeds, Clamped) }

  function CountsOf<T>(s: seq<T>, id: T -> int, weight: T -> int): map<int, int> {
    if s == [] then map[]
    else CountsOf(s[..|s| - 1], id, weight)[id(s[|s| - 1]) := weight(s[|s| - 1])]
  }

  lemma {:induction false} CountsOfAt<T>(s: seq<T>, id: T -> int, weight: T -> int)
    requires DistinctBy(s, id)
    ensures CountsOf(s, id, weight).Keys == IdsOf(s, id)
    ensures forall i :: 0 <= i < |s| ==> CountsOf(s, id, weight)[id(s[i])] == weight(s[i])
    ensures SumMap(CountsOf(s, id, weight)) == Total(s, weight)
  {
    if s != [] {
      var front, last := s[..|s| - 1], s[|s| - 1];
      assert s == front + [last];
      IdsSnoc(front, last, id);
      CountsOfAt(front, id, weight);
      SumMapAdd(CountsOf(front, id, weight), id(last), weight(last));
    }
  }

  lemma NoMarksNoDelta(db: Db, scope: Scope)
    requires db.readMarks == map[]
    ensures ReadDelta(db, scope) == 0
  {
    assert GainedReads(db, scope) == {} && LostReads(db, scope) == {};
  }

  lemma {:induction false} RowAt(category: int, nodes: seq<FeedNode>, i: nat)
    requires DistinctBy(nodes, FeedId) && i < |nodes|
    ensures nodes[i].id in RowsOf(category, nodes)
    ensures RowsOf(category, nodes)[nodes[i].id] == FeedRow(category, nodes[i].title, nodes[i].unread)
  {
    var front, last := nodes[..|nodes| - 1], nodes[|nodes| - 1];
    assert DistinctBy(front, FeedId);
    if i < |front| {
      RowAt(category, front, i);
      assert FeedId(nodes[i]) != FeedId(last);
    }
  }

  /** A stored category's feed has its row. */
  lemma FeedStored(db: Db, node: CategoryNode, k: nat)
    requires StoredAt(NavTables(db.categories, db.feeds), node) && DistinctBy(node.feeds, FeedId)
    requires k < |node.feeds|
    ensures node.feeds[k].id in db.feeds
    ensures db.feeds[node.feeds[k].id] == FeedRow(node.id, node.feeds[k].title, node.feeds[k].unread)
  {
    var f := node.feeds[k].id;
    RowAt(node.id, node.feeds, k);
    assert f in Restricted(db.feeds, node.id) && db.feeds[f] == Restricted(db.feeds, node.id)[f];
  }

  /** One feed reads back with its own count, raised to zero at least. */
  lemma FeedReadsBack(db: Db, node: CategoryNode, k: nat)
    requires StoredAt(NavTables(db.categories, db.feeds), node) && DistinctBy(node.feeds, FeedId)
    requires db.readMarks == map[] && k < |node.feeds|
    ensures node.feeds[k].id in db.feeds && db.feeds[node.feeds[k].id].categoryId == node.id
    ensures ShownUnread(db, node.feeds[k].id) == Clamped(node.feeds[k])
  {
    FeedStored(db, node, k);
    NoMarksNoDelta(db, InFeed(node.feeds[k].id));
  }

  lemma FeedKeysReadBack(db: Db, node: CategoryNode)
    requires StoredAt(NavTables(db.categories, db.feeds), node)
    requires DistinctBy(node.feeds, FeedId)
    ensures FeedCounts(db, node.id).Keys == FeedIds(node.feeds)
    ensures CountsOf(node.feeds, FeedId, Clamped).Keys == FeedIds(node.feeds)
  {
    CountsOfAt(node.feeds, FeedId, Clamped);
    RowsOfKeys(node.id, node.feeds);
    assert FeedCounts(db, node.id).Keys == Restricted(db.feeds, node.id).Keys;
  }

  lemma FeedCountReadsBack(db: Db, node: CategoryNode, f: int)
    requires StoredAt(NavTables(db.categories, db.feeds), node) && DistinctBy(node.feeds, FeedId)
    requires db.readMarks == map[] && f in FeedIds(node.feeds)
    ensures var counts := CountsOf(node.feeds, FeedId, Clamped);
            f in counts && f in FeedCounts(db, node.id) && FeedCounts(db, node.id)[f] == counts[f]
  {
    CountsOfAt(node.feeds, FeedId, Clamped);
    var k :| 0 <= k < |node.feeds| && FeedId(node.feeds[k]) == f;
    FeedReadsBack(db, node, k);
  }

  lemma CategoryReadsBack(db: Db, node: CategoryNode)
    requires StoredAt(NavTables(db.categories, db.feeds), node) && DistinctBy(node.feeds, FeedId)
    requires db.readMarks == map[]
    ensures FeedCounts(db, node.id) == CountsOf(node.feeds, FeedId, Clamped)
  {
    var shown, counts := FeedCounts(db, node.id), CountsOf(node.feeds, FeedId, Clamped);
    FeedKeysReadBack(db, node);
    forall f | f in FeedIds(node.feeds) ensures shown[f] == counts[f] {
      FeedCountReadsBack(db, node, f);
    }
    assert shown == counts;
  }

  /** The whole tree reads back. */
  lemma TreeReadsBack(db: Db, nodes: seq<CategoryNode>)
    requires Storable(nodes) && Stored(NavTables(db.categories, db.feeds), nodes)
    requires db.readMarks == map[]
    ensures CategoryCounts(db) == CountsOf(nodes, CategoryId, ClampedSum)
    ensures UnreadTotal(db) == Total(nodes, ClampedSum)
  {
    var shown, counts := CategoryCounts(db), CountsOf(nodes, CategoryId, ClampedSum);
    CountsOfAt(nodes, CategoryId, ClampedSum);
    forall c | c in shown ensures shown[c] == counts[c] {
      assert c in IdsOf(nodes, CategoryId);
      var i :| 0 <= i < |nodes| && CategoryId(nodes[i]) == c;
      CategoryReadsBack(db, nodes[i]);
      CountsOfAt(nodes[i].feeds, FeedId, Clamped);
    }
    assert shown == counts;
  }

  lemma {:induction false} TotalExactly<T>(s: seq<T>, small: T -> int, large: T -> int)
    requires forall i :: 0 <= i < |s| ==> small(s[i]) <= large(s[i])
    ensures Total(s, small) <= Total(s, large)
    ensures Total(s, small) == Total(s, large) <==> forall i :: 0 <= i < |s| ==> small(s[i]) == large(s[i])
  {
    if s != [] {
      TotalExactly(s[..|s| - 1], small, large);
    }
  }

  // ---- The round trip ----------------------------------------------------------------

  predicate AttachedDistinct(categories: seq<CategoryInput>, feeds: seq<FeedInput>) {
    forall i, j :: 0 <= i < j < |feeds| && Attached(categories, feeds[i]) && Attached(categories, feeds[j]) ==>
      feeds[i].id != feeds[j].id
  }

  predicate Owned(feeds: seq<FeedInput>, category: int, i: int) {
    0 <= i < |feeds| && feeds[i].categoryId == category
  }

  ghost predicate OwnedIdsDistinct(feeds: seq<FeedInput>, category: int) {
    forall i, j :: Owned(feeds, category, i) && Owned(feeds, category, j) && i < j ==> feeds[i].id != feeds[j].id
  }

  ghost predicate OwnedId(feeds: seq<FeedInput>, category: int, id: int) {
    exists i :: Owned(feeds, category, i) && feeds[i].id == id
  }

  lemma OwnedIdSnoc(front: seq<FeedInput>, last: FeedInput, category: int, id: int)
    ensures OwnedId(front + [last], category, id) <==>
            OwnedId(front, category, id) || (last.categoryId == category && last.id == id)
  {
    var feeds := front + [last];
    if OwnedId(front, category, id) {
      var i :| Owned(front, category, i) && front[i].id == id;
      assert Owned(feeds, category, i) && feeds[i] == front[i];
    }
    if OwnedId(feeds, category, id) {
      var i :| Owned(feeds, category, i) && feeds[i].id == id;
      assert i < |front| ==> Owned(front, category, i) && front[i].id == id;
    }
    assert last.categoryId == category ==> Owned(feeds, category, |front|);
  }

  lemma OwnedIdsSnoc(front: seq<FeedInput>, last: FeedInput, category: int)
    ensures OwnedIdsDistinct(front + [last], category) <==>
            OwnedIdsDistinct(front, category) && (last.categoryId == category ==> !OwnedId(front, category, last.id))
  {
    var feeds := front + [last];
    assert forall i :: i < |front| ==> (Owned(feeds, category, i) <==> Owned(front, category, i));
    assert forall i :: 0 <= i < |front| ==> feeds[i] == front[i];
    assert last.categoryId == category ==> Owned(feeds, category, |front|);
  }

  lemma {:induction false} FeedsOfIds(feeds: seq<FeedInput>, counters: map<int, int>, category: int)
    ensures forall id :: id in FeedIds(FeedsOf(feeds, counters, category)) <==> OwnedId(feeds, category, id)
    ensures DistinctBy(FeedsOf(feeds, counters, category), FeedId) <==> OwnedIdsDistinct(feeds, category)
  {
    if feeds != [] {
      var front, last := feeds[..|feeds| - 1], feeds[|feeds| - 1];
      assert feeds == front + [last];
      FeedsOfIds(front, counters, category);
      OwnedIdsSnoc(front, last, category);
      var own := FeedsOf(front, counters, category);
      if last.categoryId == category {
        assert FeedsOf(feeds, counters, category) == own + [Node(last, counters)];
        IdsSnoc(own, Node(last, counters), FeedId);
      } else {
        assert FeedsOf(feeds, counters, category) == own;
      }
      forall id ensures id in FeedIds(FeedsOf(feeds, counters, category)) <==> OwnedId(feeds, category, id) {
        OwnedIdSnoc(front, last, category, id);
      }
    }
  }

  lemma IdsMultiset<T>(s: seq<T>, t: seq<T>, id: T -> int)
    requires multiset(s) == multiset(t)
    ensures IdsOf(s, id) == IdsOf(t, id)
    ensures DistinctBy(s, id) <==> DistinctBy(t, id)
  {
    forall x ensures x in IdsOf(s, id) <==> x in IdsOf(t, id) {
      if x in IdsOf(s, id) {
        var i :| 0 <= i < |s| && id(s[i]) == x;
        assert s[i] in multiset(t);
      }
      if x in IdsOf(t, id) {
        var i :| 0 <= i < |t| && id(t[i]) == x;
        assert t[i] in multiset(s);
      }
    }
    if DistinctBy(s, id) {
      DistinctMultiset(s, t, id);
    }
    if DistinctBy(t, id) {
      DistinctMultiset(t, s, id);
    }
  }

  function InputId(category: CategoryInput): int { category.id }

  lemma TreeIds(categories: seq<CategoryInput>, feeds: seq<FeedInput>, counters: map<int, int>, lower: Lower)
    ensures IdsOf(Tree(categories, feeds, counters, lower), CategoryId) == IdsOf(categories, InputId)
    ensures DistinctBy(Tree(categories, feeds, counters, lower), CategoryId) <==> DistinctBy(categories, InputId)
  {
    var unsorted := Unsorted(categories, feeds, counters);
    var sorted := StableSort(unsorted, CategoryKey(lower));
    SortedIds(unsorted, CategoryKey(lower));
    SortEachIds(sorted, lower);
    UnsortedIds(categories, feeds, counters);
  }

  lemma SortEachIds(sorted: seq<CategoryNode>, lower: Lower)
    ensures IdsOf(SortEach(sorted, lower), CategoryId) == IdsOf(sorted, CategoryId)
    ensures DistinctBy(SortEach(sorted, lower), CategoryId) <==> DistinctBy(sorted, CategoryId)
  {
    SameIds(sorted, SortEach(sorted, lower), CategoryId, CategoryId);
  }

  lemma UnsortedIds(categories: seq<CategoryInput>, feeds: seq<FeedInput>, counters: map<int, int>)
    ensures IdsOf(Unsorted(categories, feeds, counters), CategoryId) == IdsOf(categories, InputId)
    ensures DistinctBy(Unsorted(categories, feeds, counters), CategoryId) <==> DistinctBy(categories, InputId)
  {
    SameIds(categories, Unsorted(categories, feeds, counters), InputId, CategoryId);
  }

  lemma SortedIds(nodes: seq<CategoryNode>, key: CategoryNode -> string)
    ensures IdsOf(StableSort(nodes, key), CategoryId) == IdsOf(nodes, CategoryId)
    ensures DistinctBy(StableSort(nodes, key), CategoryId) <==> DistinctBy(nodes, CategoryId)
  {
    SortOrdered(nodes, key);
    IdsMultiset(nodes, StableSort(nodes, key), CategoryId);
  }

  lemma SameIds<S, T>(s: seq<S>, t: seq<T>, v: S -> int, w: T -> int)
    requires |s| == |t| && forall i :: 0 <= i < |s| ==> v(s[i]) == w(t[i])
    ensures IdsOf(s, v) == IdsOf(t, w) && (DistinctBy(s, v) <==> DistinctBy(t, w))
  {
    assert forall x :: x in IdsOf(s, v) ==> x in IdsOf(t, w);
    assert forall x :: x in IdsOf(t, w) ==> x in IdsOf(s, v);
  }

  /** The feeds of a node, by the identifiers that were given for its category. */
  lemma NodeFeeds(categories: seq<CategoryInput>, feeds: seq<FeedInput>, counters: map<int, int>, lower: Lower, k: nat)
    requires DistinctBy(categories, InputId) && k < |Tree(categories, feeds, counters, lower)|
    ensures var node := Tree(categories, feeds, counters, lower)[k];
            && (forall id :: id in FeedIds(node.feeds) <==> OwnedId(feeds, node.id, id))
            && (DistinctBy(node.feeds, FeedId) <==> OwnedIdsDistinct(feeds, node.id))
  {
    var i := TreeNode(categories, feeds, counters, lower, k);
    var node := Tree(categories, feeds, counters, lower)[k];
    assert Receives(categories, i) by {
      forall j | i < j < |categories| ensures categories[j].id != categories[i].id {
        assert InputId(categories[i]) != InputId(categories[j]);
      }
    }
    FeedsOfIds(feeds, counters, node.id);
    IdsMultiset(node.feeds, FeedsOf(feeds, counters, node.id), FeedId);
  }

  lemma TreeFeedsDistinct(categories: seq<CategoryInput>, feeds: seq<FeedInput>, counters: map<int, int>, lower: Lower)
    requires DistinctBy(categories, InputId) && AttachedDistinct(categories, feeds)
    ensures Storable(Tree(categories, feeds, counters, lower))
  {
    var tree := Tree(categories, feeds, counters, lower);
    TreeIds(categories, feeds, counters, lower);
    forall k | 0 <= k < |tree| ensures DistinctBy(tree[k].feeds, FeedId) {
      NodeFeeds(categories, feeds, counters, lower, k);
      NodeAttached(categories, feeds, counters, lower, k);
    }
    forall k, l | 0 <= k < l < |tree| ensures FeedIds(tree[k].feeds) !! FeedIds(tree[l].feeds) {
      NodeFeeds(categories, feeds, counters, lower, k);
      NodeFeeds(categories, feeds, counters, lower, l);
      NodeAttached(categories, feeds, counters, lower, k);
      NodeAttached(categories, feeds, counters, lower, l);
      assert CategoryId(tree[k]) != CategoryId(tree[l]);
      forall id | id in FeedIds(tree[k].feeds) ensures id !in FeedIds(tree[l].feeds) {
        var i :| Owned(feeds, tree[k].id, i) && feeds[i].id == id;
        assert forall j :: Owned(feeds, tree[l].id, j) ==> i != j && feeds[j].id != id;
      }
    }
  }

  lemma NodeAttached(
      categories: seq<CategoryInput>, feeds: seq<FeedInput>, counters: map<int, int>, lower: Lower, k: nat)
    requires k < |Tree(categories, feeds, counters, lower)|
    ensures var node := Tree(categories, feeds, counters, lower)[k];
            forall i :: Owned(feeds, node.id, i) ==> Attached(categories, feeds[i])
  {
    var i := TreeNode(categories, feeds, counters, lower, k);
  }

  lemma SameNode(nodes: seq<CategoryNode>, k: nat, l: nat, id: int)
    requires Storable(nodes) && k < |nodes| && l < |nodes|
    requires id in FeedIds(nodes[k].feeds) && id in FeedIds(nodes[l].feeds)
    ensures k == l
  {
  }

  lemma StorableFeeds(categories: seq<CategoryInput>, feeds: seq<FeedInput>, counters: map<int, int>, lower: Lower)
    requires Storable(Tree(categories, feeds, counters, lower))
    ensures DistinctBy(categories, InputId) && AttachedDistinct(categories, feeds)
  {
    var tree := Tree(categories, feeds, counters, lower);
    TreeIds(categories, feeds, counters, lower);
    forall i, j | 0 <= i < j < |feeds| && Attached(categories, feeds[i]) && Attached(categories, feeds[j])
      ensures feeds[i].id != feeds[j].id
    {
      if feeds[i].id == feeds[j].id {
        var k := NodeOf(categories, feeds, counters, lower, i);
        var l := NodeOf(categories, feeds, counters, lower, j);
        SameNode(tree, k, l, feeds[i].id);
        NodeFeeds(categories, feeds, counters, lower, k);
        assert Owned(feeds, tree[k].id, i) && Owned(feeds, tree[k].id, j);
      }
    }
  }

  lemma NodeOf(categories: seq<CategoryInput>, feeds: seq<FeedInput>, counters: map<int, int>, lower: Lower, i: nat)
    returns (k: nat)
    requires DistinctBy(categories, InputId) && i < |feeds| && Attached(categories, feeds[i])
    ensures k < |Tree(categories, feeds, counters, lower)|
    ensures var node := Tree(categories, feeds, counters, lower)[k];
            node.id == feeds[i].categoryId && feeds[i].id in FeedIds(node.feeds)
  {
    var tree := Tree(categories, feeds, counters, lower);
    TreeIds(categories, feeds, counters, lower);
    var a :| 0 <= a < |categories| && categories[a].id == feeds[i].categoryId;
    assert InputId(categories[a]) in IdsOf(categories, InputId);
    k :| 0 <= k < |tree| && CategoryId(tree[k]) == feeds[i].categoryId;
    NodeFeeds(categories, feeds, counters, lower, k);
    assert Owned(feeds, tree[k].id, i);
    assert OwnedId(feeds, tree[k].id, feeds[i].id);
  }

  /** A built tree can be stored exactly when no category id and no id of an
      attached feed repeats; orphan feeds do not matter. */
  lemma BuiltStoresExactly(categories: seq<CategoryInput>, feeds: seq<FeedInput>, counters: map<int, int>, lower: Lower)
    ensures InsertCategories(Tree(categories, feeds, counters, lower)).Success? <==>
            DistinctBy(categories, InputId) && AttachedDistinct(categories, feeds)
  {
    InsertCategoriesExactly(Tree(categories, feeds, counters, lower));
    if DistinctBy(categories, InputId) && AttachedDistinct(categories, feeds) {
      TreeFeedsDistinct(categories, feeds, counters, lower);
    }
    if Storable(Tree(categories, feeds, counters, lower)) {
      StorableFeeds(categories, feeds, counters, lower);
    }
  }

  /** Some feed of a known category has this id. */
  predicate AttachedId(categories: seq<CategoryInput>, feeds: seq<FeedInput>, f: int) {
    exists i :: 0 <= i < |feeds| && Attached(categories, feeds[i]) && feeds[i].id == f
  }

  predicate FeedsNonNegative(node: CategoryNode) {
    forall m :: 0 <= m < |node.feeds| ==> node.feeds[m].unread >= 0
  }

  lemma {:induction false} AllFeedIdsMember(nodes: seq<CategoryNode>, f: int)
    ensures f in AllFeedIds(nodes) <==> exists k :: 0 <= k < |nodes| && f in FeedIds(nodes[k].feeds)
  {
    if nodes != [] {
      var front := nodes[..|nodes| - 1];
      AllFeedIdsMember(front, f);
      assert forall k :: 0 <= k < |front| ==> front[k] == nodes[k];
    }
  }

  /** The tree holds the attached feeds and no orphan. */
  lemma StoredFeedsAttached(
      categories: seq<CategoryInput>, feeds: seq<FeedInput>, counters: map<int, int>, lower: Lower, f: int)
    requires DistinctBy(categories, InputId)
    ensures f in AllFeedIds(Tree(categories, feeds, counters, lower)) <==> AttachedId(categories, feeds, f)
  {
    var tree := Tree(categories, feeds, counters, lower);
    AllFeedIdsMember(tree, f);
    if f in AllFeedIds(tree) {
      var k :| 0 <= k < |tree| && f in FeedIds(tree[k].feeds);
      NodeFeeds(categories, feeds, counters, lower, k);
      NodeAttached(categories, feeds, counters, lower, k);
      var i :| Owned(feeds, tree[k].id, i) && feeds[i].id == f;
      assert AttachedId(categories, feeds, f);
    }
    if AttachedId(categories, feeds, f) {
      var i :| 0 <= i < |feeds| && Attached(categories, feeds[i]) && feeds[i].id == f;
      var k := NodeOf(categories, feeds, counters, lower, i);
    }
  }

  /** Without queued read marks the stored tree reads back with every count the
      server sent, negative counters shown as zero; orphans are not stored, and a
      category reads back the builder's own sum exactly without negative counters. */
  lemma NavigationRoundTrip(
      db: Db, snapshot: Snapshot,
      categories: seq<CategoryInput>, feeds: seq<FeedInput>, counters: map<int, int>, lower: Lower)
    requires snapshot.categories == Tree(categories, feeds, counters, lower)
    requires db.readMarks == map[] && Apply(db, snapshot).Success?
    ensures var after := Apply(db, snapshot).value;
            && after.categories.Keys == IdsOf(categories, InputId)
            && (forall i :: 0 <= i < |feeds| ==>
                  (Attached(categories, feeds[i]) ==>
                     && feeds[i].id in after.feeds && after.feeds[feeds[i].id].categoryId == feeds[i].categoryId
                     && ShownUnread(after, feeds[i].id) == Max(0, Counter(counters, feeds[i].id))))
            && (forall f :: f in after.feeds <==> AttachedId(categories, feeds, f))
            && (forall k :: 0 <= k < |snapshot.categories| ==>
                  var node := snapshot.categories[k];
                  && node.id in CategoryCounts(after)
                  && (CategoryCounts(after)[node.id] == node.unread <==> FeedsNonNegative(node)))
            && CategoryCounts(after) == CountsOf(snapshot.categories, CategoryId, ClampedSum)
            && UnreadTotal(after) == Total(snapshot.categories, ClampedSum)
  {
    var tree, after := snapshot.categories, Apply(db, snapshot).value;
    InsertCategoriesExactly(tree);
    StorableFeeds(categories, feeds, counters, lower);
    TreeReadsBack(after, tree);
    TreeIds(categories, feeds, counters, lower);
    forall i: nat | i < |feeds| && Attached(categories, feeds[i])
      ensures feeds[i].id in after.feeds && after.feeds[feeds[i].id].categoryId == feeds[i].categoryId
      ensures ShownUnread(after, feeds[i].id) == Max(0, Counter(counters, feeds[i].id))
    {
      AttachedReadsBack(after, categories, feeds, counters, lower, i);
    }
    forall f ensures f in after.feeds <==> AttachedId(categories, feeds, f) {
      StoredFeedsAttached(categories, feeds, counters, lower, f);
    }
    forall k: nat | k < |tree|
      ensures tree[k].id in CategoryCounts(after)
      ensures CategoryCounts(after)[tree[k].id] == tree[k].unread <==> FeedsNonNegative(tree[k])
    {
      SumReadsBack(categories, feeds, counters, lower, k);
    }
  }

  lemma AttachedReadsBack(
      after: Db, categories: seq<CategoryInput>, feeds: seq<FeedInput>, counters: map<int, int>, lower: Lower, i: nat)
    requires var tree := Tree(categories, feeds, counters, lower);
             Storable(tree) && Stored(NavTables(after.categories, after.feeds), tree)
    requires after.readMarks == map[] && DistinctBy(categories, InputId)
    requires i < |feeds| && Attached(categories, feeds[i])
    ensures feeds[i].id in after.feeds && after.feeds[feeds[i].id].categoryId == feeds[i].categoryId
    ensures ShownUnread(after, feeds[i].id) == Max(0, Counter(counters, feeds[i].id))
  {
    var tree := Tree(categories, feeds, counters, lower);
    var k := NodeOf(categories, feeds, counters, lower, i);
    var m :| 0 <= m < |tree[k].feeds| && FeedId(tree[k].feeds[m]) == feeds[i].id;
    FeedReadsBack(after, tree[k], m);
    NodeCounter(categories, feeds, counters, lower, k, m);
  }

  lemma SumReadsBack(
      categories: seq<CategoryInput>, feeds: seq<FeedInput>, counters: map<int, int>, lower: Lower, k: nat)
    requires var tree := Tree(categories, feeds, counters, lower); k < |tree| && DistinctBy(tree, CategoryId)
    ensures var tree := Tree(categories, feeds, counters, lower);
            var counts := CountsOf(tree, CategoryId, ClampedSum);
            && tree[k].id in counts
            && (counts[tree[k].id] == tree[k].unread <==> FeedsNonNegative(tree[k]))
  {
    var tree := Tree(categories, feeds, counters, lower);
    CountsOfAt(tree, CategoryId, ClampedSum);
    NodeClamps(categories, feeds, counters, lower, k);
    assert CountsOf(tree, CategoryId, ClampedSum)[CategoryId(tree[k])] == ClampedSum(tree[k]);
  }

  lemma {:induction false} FeedsOfCounter(feeds: seq<FeedInput>, counters: map<int, int>, category: int, m: nat)
    requires m < |FeedsOf(feeds, counters, category)|
    ensures var node := FeedsOf(feeds, counters, category)[m]; node.unread == Counter(counters, node.id)
  {
    var front := FeedsOf(feeds[..|feeds| - 1], counters, category);
    if m < |front| {
      FeedsOfCounter(feeds[..|feeds| - 1], counters, category, m);
    }
  }

  lemma NodeCounter(
      categories: seq<CategoryInput>, feeds: seq<FeedInput>, counters: map<int, int>, lower: Lower, k: nat, m: nat)
    requires k < |Tree(categories, feeds, counters, lower)|
    requires m < |Tree(categories, feeds, counters, lower)[k].feeds|
    ensures var feed := Tree(categories, feeds, counters, lower)[k].feeds[m]; feed.unread == Counter(counters, feed.id)
  {
    var i := TreeNode(categories, feeds, counters, lower, k);
    var node, own := Tree(categories, feeds, counters, lower)[k], Filled(categories, feeds, counters, i).feeds;
    assert node.feeds[m] in multiset(own);
    var j :| 0 <= j < |own| && own[j] == node.feeds[m];
    FeedsOfCounter(feeds, counters, categories[i].id, j);
  }

  lemma {:induction false} FeedsOfMember(feeds: seq<FeedInput>, counters: map<int, int>, category: int, node: FeedNode)
    ensures node in FeedsOf(feeds, counters, category) <==>
            exists i :: 0 <= i < |feeds| && Describes(feeds[i], counters, category, node)
  {
    if feeds != [] {
      var front := feeds[..|feeds| - 1];
      FeedsOfMember(front, counters, category, node);
      assert forall i :: 0 <= i < |front| ==> feeds[i] == front[i];
    }
  }

  function InCategory(feeds: seq<FeedInput>, category: int): set<int> {
    set i | 0 <= i < |feeds| && feeds[i].categoryId == category
  }

  lemma {:induction false} FeedsOfCount(feeds: seq<FeedInput>, counters: map<int, int>, category: int)
    ensures |FeedsOf(feeds, counters, category)| == |InCategory(feeds, category)|
  {
    if feeds == [] {
      assert InCategory(feeds, category) == {};
    } else {
      var front, last := feeds[..|feeds| - 1], feeds[|feeds| - 1];
      FeedsOfCount(front, counters, category);
      var own := InCategory(front, category);
      assert InCategory(feeds, category) == if last.categoryId == category then own + {|front|} else own;
    }
  }

  /** The node of an input feed: its id, title, category and counter, none missing. */
  predicate Describes(feed: FeedInput, counters: map<int, int>, category: int, node: FeedNode) {
    && feed.categoryId == category && node.categoryId == category
    && node.id == feed.id && node.title == feed.title
    && node.unread == (if feed.id in counters then counters[feed.id] else 0)
  }

  /** With distinct category ids, each category of the tree has exactly its input
      feeds as nodes, as many as were given. */
  lemma TreeHoldsInputs(
      categories: seq<CategoryInput>, feeds: seq<FeedInput>, counters: map<int, int>, lower: Lower,
      k: nat, node: FeedNode)
    requires DistinctBy(categories, InputId) && k < |Tree(categories, feeds, counters, lower)|
    ensures var category := Tree(categories, feeds, counters, lower)[k];
            && (node in category.feeds <==>
                  exists i :: 0 <= i < |feeds| && Describes(feeds[i], counters, category.id, node))
            && |category.feeds| == |InCategory(feeds, category.id)|
            && exists i :: 0 <= i < |categories| && categories[i] == CategoryInput(category.id, category.title)
  {
    var i := TreeNode(categories, feeds, counters, lower, k);
    var category := Tree(categories, feeds, counters, lower)[k];
    assert Receives(categories, i) by {
      forall j | i < j < |categories| ensures categories[j].id != categories[i].id {
        assert InputId(categories[i]) != InputId(categories[j]);
      }
    }
    FeedsOfMember(feeds, counters, category.id, node);
    FeedsOfCount(feeds, counters, category.id);
    var own := FeedsOf(feeds, counters, category.id);
    assert multiset(category.feeds) == multiset(own);
    assert node in category.feeds <==> node in multiset(category.feeds);
    assert node in own <==> node in multiset(own);
    assert |multiset(category.feeds)| == |multiset(own)|;
    assert categories[i] == CategoryInput(category.id, category.title);
  }

  predicate CountsNonNegative(nodes: seq<CategoryNode>) {
    forall k :: 0 <= k < |nodes| ==> FeedsNonNegative(nodes[k])
  }

  lemma NodeClamps(categories: seq<CategoryInput>, feeds: seq<FeedInput>, counters: map<int, int>, lower: Lower, k: nat)
    requires k < |Tree(categories, feeds, counters, lower)|
    ensures var node := Tree(categories, feeds, counters, lower)[k];
            && CategoryUnread(node) <= ClampedSum(node)
            && (CategoryUnread(node) == ClampedSum(node) <==> FeedsNonNegative(node))
  {
    var i := TreeNode(categories, feeds, counters, lower, k);
    TotalExactly(Tree(categories, feeds, counters, lower)[k].feeds, FeedUnread, Clamped);
  }

  /** The total read back is the builder's own exactly when no counter is negative. */
  lemma TotalReadsBackExactly(
      db: Db, snapshot: Snapshot,
      categories: seq<CategoryInput>, feeds: seq<FeedInput>, counters: map<int, int>, lower: Lower)
    requires snapshot.categories == Tree(categories, feeds, counters, lower)
    requires db.readMarks == map[] && Apply(db, snapshot).Success?
    ensures UnreadTotal(Apply(db, snapshot).value) == AttachedSum(categories, feeds, counters) <==>
            CountsNonNegative(snapshot.categories)
  {
    var tree := snapshot.categories;
    NavigationRoundTrip(db, snapshot, categories, feeds, counters, lower);
    TreeTotal(categories, feeds, counters, lower);
    forall k | 0 <= k < |tree|
      ensures CategoryUnread(tree[k]) <= ClampedSum(tree[k])
      ensures CategoryUnread(tree[k]) == ClampedSum(tree[k]) <==> FeedsNonNegative(tree[k])
    {
      NodeClamps(categories, feeds, counters, lower, k);
    }
    TotalExactly(tree, CategoryUnread, ClampedSum);
  }
}
