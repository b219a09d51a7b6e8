/** What the article list shows, row by row and in every run. */
module ListLaws {
  import opened Domain
  import opened StoreSpec
  import opened Overlay
  import opened Counters
  import opened SyncProtocol
  import opened RefreshLaws

  /** What a user who picks a selection asks for; a category or feed without a usable
      id means every unread article. */
  predicate Asked(selection: Selection, feedId: int, categoryId: int, unread: bool, starred: bool) {
    match selection
    case AllEntries(_, unreadOnly) => unreadOnly ==> unread
    case UnreadEntries(_) => unread
    case StarredEntries(unreadOnly) => starred && (unreadOnly ==> unread)
    case CategoryEntries(scope, unreadOnly) =>
      if scope > 0 then categoryId == scope && (unreadOnly ==> unread) else unread
    case FeedEntries(scope, unreadOnly) =>
      if scope > 0 then feedId == scope && (unreadOnly ==> unread) else unread
  }

  function LocalList(db: Db, selection: Selection, retained: seq<int>): map<int, Shown> {
    ShownRows(db, Normalize(selection), retained)
  }

  /** The list holds exactly the stored rows that are asked for or retained, and shows
      each as it is stored. */
  lemma ListShowsRows(db: Db, selection: Selection, retained: seq<int>, id: int)
    ensures var list := LocalList(db, selection, retained);
            && (id in list <==>
                  && id in db.entries
                  && (id in retained
                      || Asked(selection, db.entries[id].feedId, db.entries[id].categoryId,
                           db.entries[id].status == Unread, db.entries[id].starred)))
            && (id in list ==>
                  && list[id].feedId == db.entries[id].feedId && list[id].categoryId == db.entries[id].categoryId
                  && list[id].text == db.entries[id].text
                  && list[id].status == db.entries[id].status && list[id].starred == db.entries[id].starred)
  {
  }

  /** In every run the list holds exactly the stored articles that, with the values
      the user last asked for, belong to the selection or are retained, and shows
      them with those values. */
  lemma EveryRunListsYourWrites(
      server: map<int, Article>, actions: seq<Action>, selection: Selection, retained: seq<int>, id: int)
    requires Legal(server, actions) && forall a :: a in actions ==> Fair(a)
    ensures var s := Reached(server, actions);
            var list := LocalList(s.db, selection, retained);
            && (id in s.db.entries ==> id in s.ideal.read && id in s.ideal.starred && id in s.server)
            && (id in list <==>
                  && id in s.db.entries
                  && (id in retained
                      || Asked(selection, s.server[id].feedId, s.server[id].categoryId,
                           !s.ideal.read[id], s.ideal.starred[id])))
            && (id in list ==>
                  && list[id].status == (if s.ideal.read[id] then Read else Unread)
                  && list[id].starred == s.ideal.starred[id]
                  && list[id].feedId == s.server[id].feedId && list[id].categoryId == s.server[id].categoryId
                  && list[id].text == s.db.entries[id].text)
  {
    RunKeepsInv(server, actions);
    var s := Reached(server, actions);
    ListShowsRows(s.db, selection, retained, id);
    if id in s.db.entries {
      assert id in s.ideal.read && id in s.ideal.starred;
    }
  }

  function Matched(db: Db, selection: Selection): set<int> {
    set id | id in db.entries
      && Asked(selection, db.entries[id].feedId, db.entries[id].categoryId,
               db.entries[id].status == Unread, db.entries[id].starred)
  }

  /** The key a total of this selection is stored under. */
  function StoredUnder(selection: Selection): TotalKey {
    match selection
    case AllEntries(_, unreadOnly) => TotalKey(KindAll, 0, unreadOnly)
    case UnreadEntries(_) => TotalKey(KindUnread, 0, true)
    case StarredEntries(unreadOnly) => TotalKey(KindStarred, 0, unreadOnly)
    case CategoryEntries(scope, unreadOnly) =>
      if scope > 0 then TotalKey(KindCategory, scope, unreadOnly) else TotalKey(KindAll, 0, true)
    case FeedEntries(scope, unreadOnly) =>
      if scope > 0 then TotalKey(KindFeed, scope, unreadOnly) else TotalKey(KindAll, 0, true)
  }

  /** The shown size is never below the number of stored rows asked for, equals it
      without a stored total, and otherwise never exceeds the larger of the two. */
  lemma TotalCoversRows(db: Db, selection: Selection)
    ensures var shown, rows := ShownTotal(db, Normalize(selection)), |Matched(db, selection)|;
            var patched := if StoredUnder(selection) in db.totals
                           then db.totals[StoredUnder(selection)] + PendingDelta(db, Normalize(selection)) else 0;
            && shown >= rows && shown >= patched
            && (shown == rows || shown == patched)
            && (StoredUnder(selection) !in db.totals ==> shown == rows)
  {
    forall id ensures id in Matched(db, selection) <==> id in Matching(db, Normalize(selection)) {
    }
    assert Matched(db, selection) == Matching(db, Normalize(selection));
  }

  /** The part of the list a selection is restricted to, apart from its filters. */
  predicate Scoped(selection: Selection, feedId: int, categoryId: int) {
    match selection
    case CategoryEntries(scope, _) => scope > 0 ==> categoryId == scope
    case FeedEntries(scope, _) => scope > 0 ==> feedId == scope
    case _ => true
  }

  function UnreadHere(db: Db, selection: Selection): set<int> {
    set id | id in db.entries && Scoped(selection, db.entries[id].feedId, db.entries[id].categoryId)
      && db.entries[id].status == Unread
  }

  function UnreadThere(db: Db, selection: Selection): set<int> {
    set id | id in db.entries && Scoped(selection, db.entries[id].feedId, db.entries[id].categoryId)
      && db.entries[id].remoteStatus == Unread
  }

  function StarredHere(db: Db): set<int> {
    set id | id in db.entries && db.entries[id].starred
  }

  function StarredThere(db: Db): set<int> {
    set id | id in db.entries && db.entries[id].remoteStarred
  }

  /** What the outbox still owes a stored total: for the starred list the stars here
      minus the stars there, for a list of unread articles the unread ones here minus
      those there, and nothing for the other lists. */
  lemma DivergenceExactly(db: Db, selection: Selection)
    requires Overlaid(db) && Known(db)
    ensures PendingDelta(db, Normalize(selection)) ==
            match selection
            case StarredEntries(_) => |StarredHere(db)| - |StarredThere(db)|
            case AllEntries(_, unreadOnly) =>
              if unreadOnly then |UnreadHere(db, selection)| - |UnreadThere(db, selection)| else 0
            case UnreadEntries(_) => |UnreadHere(db, selection)| - |UnreadThere(db, selection)|
            case CategoryEntries(scope, unreadOnly) =>
              if unreadOnly || scope <= 0 then |UnreadHere(db, selection)| - |UnreadThere(db, selection)| else 0
            case FeedEntries(scope, unreadOnly) =>
              if unreadOnly || scope <= 0 then |UnreadHere(db, selection)| - |UnreadThere(db, selection)| else 0
  {
    var scope := ScopeOf(Normalize(selection));
    ReadDeltaIsRecount(db, scope);
    StarDeltaIsRecount(db);
    forall id
      ensures id in LocalUnread(db, scope) <==> id in UnreadHere(db, selection)
      ensures id in RemoteUnread(db, scope) <==> id in UnreadThere(db, selection)
      ensures id in LocalStarred(db) <==> id in StarredHere(db)
      ensures id in RemoteStarred(db) <==> id in StarredThere(db)
    {
    }
    assert LocalUnread(db, scope) == UnreadHere(db, selection) && RemoteUnread(db, scope) == UnreadThere(db, selection);
    assert LocalStarred(db) == StarredHere(db) && RemoteStarred(db) == StarredThere(db);
  }

  /** In every run and for every selection a refresh may use, the stored rows that
      are asked for are those the user's own values ask for. */
  lemma EveryRunCountsYourWrites(server: map<int, Article>, actions: seq<Action>, selection: Selection, id: int)
    requires Legal(server, actions) && forall a :: a in actions ==> Fair(a)
    ensures var s := Reached(server, actions);
            id in Matched(s.db, selection) <==>
            && id in s.db.entries && id in s.server && id in s.ideal.read && id in s.ideal.starred
            && Asked(selection, s.server[id].feedId, s.server[id].categoryId, !s.ideal.read[id], s.ideal.starred[id])
  {
    EveryRunListsYourWrites(server, actions, selection, [], id);
    ListShowsRows(Reached(server, actions).db, selection, [], id);
  }

  ghost predicate CommitsRefresh(s: Sys, a: Action)
    requires Enabled(s, a)
  {
    a.ApplyEnds? && Apply(s.db, s.worker.snapshot).Success?
  }

  /** The selection of the latest refresh that committed. */
  ghost function LastRefreshed(server: map<int, Article>, actions: seq<Action>): Option<Selection>
    requires Legal(server, actions)
  {
    if actions == [] then None
    else
      var before, last := actions[..|actions| - 1], actions[|actions| - 1];
      var s := Reached(server, before);
      if CommitsRefresh(s, last) then Some(s.worker.snapshot.selection) else LastRefreshed(server, before)
  }

  predicate CountsFor(counted: Option<Selection>, last: Option<Selection>) {
    if last.None? then counted.None?
    else
      && Normalize(last.value) == last.value && last.value != StarredEntries(true)
      && counted == if TakesStock(last.value) then last else None
  }

  lemma StepCounts(s: Sys, a: Action)
    requires WorkerOk(s) && FairWorker(s.worker) && Enabled(s, a)
    ensures !CommitsRefresh(s, a) ==> Next(s, a).counted == s.counted
    ensures CommitsRefresh(s, a) ==> CountsFor(Next(s, a).counted, Some(s.worker.snapshot.selection))
  {
  }

  lemma {:induction false} CountedIsLastRefreshed(server: map<int, Article>, actions: seq<Action>)
    requires Legal(server, actions) && forall a :: a in actions ==> Fair(a)
    ensures CountsFor(Reached(server, actions).counted, LastRefreshed(server, actions))
  {
    if actions != [] {
      var before, last := actions[..|actions| - 1], actions[|actions| - 1];
      CountedIsLastRefreshed(server, before);
      RunKeepsInv(server, before);
      StepCounts(Reached(server, before), last);
    }
  }

  /** In every run, from a refresh that takes stock of a selection until the next
      refresh, the size shown for it is the number of stored articles that the user's
      own values put into it, however many edits and deliveries happen meanwhile. */
  lemma EveryRunSizesYourWrites(server: map<int, Article>, actions: seq<Action>, selection: Selection)
    requires Legal(server, actions) && forall a :: a in actions ==> Fair(a)
    requires LastRefreshed(server, actions) == Some(selection) && TakesStock(selection)
    ensures var s := Reached(server, actions);
            var wanted := set id | id in s.db.entries && id in s.server && id in s.ideal.read && id in s.ideal.starred
              && Asked(selection, s.server[id].feedId, s.server[id].categoryId,
                       !s.ideal.read[id], s.ideal.starred[id]);
            ShownTotal(s.db, Normalize(selection)) == |wanted|
  {
    CountedIsLastRefreshed(server, actions);
    PatchedTotalIsRecount(server, actions);
    var s := Reached(server, actions);
    var wanted := set id | id in s.db.entries && id in s.server && id in s.ideal.read && id in s.ideal.starred
      && Asked(selection, s.server[id].feedId, s.server[id].categoryId, !s.ideal.read[id], s.ideal.starred[id]);
    forall id ensures id in wanted <==> id in Matching(s.db, selection) {
      EveryRunCountsYourWrites(server, actions, selection, id);
      MatchedIsMatching(s.db, selection, id);
    }
    assert wanted == Matching(s.db, selection);
  }

  lemma MatchedIsMatching(db: Db, selection: Selection, id: int)
    ensures id in Matched(db, selection) <==> id in Matching(db, Normalize(selection))
  {
  }
}
