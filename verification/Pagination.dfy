/** Cursor pagination against a server that may answer anything. */
module Pagination {

  const PAGE_SIZE: nat := 200

  datatype Item = Item(id: int, payload: string)
  datatype Page = Page(items: seq<Item>, total: int) | Unavailable

  datatype FetchError = Transport | UnstableOrder | Duplicate | TotalChanged | Incomplete
  datatype Outcome = Fetched(items: seq<Item>, total: int) | Failed(error: FetchError)

  /** The answers of a server: by request number and cursor, without any promise. */
  type Server = (nat, int) -> Page

  predicate Ascending(items: seq<Item>) {
    forall i, j :: 0 <= i < j < |items| ==> items[i].id < items[j].id
  }

  predicate AllAfter(items: seq<Item>, cursor: int) {
    forall i :: 0 <= i < |items| ==> cursor < items[i].id
  }

  function LastId(items: seq<Item>, cursor: int): int {
    if items == [] then cursor else items[|items| - 1].id
  }

  /** Enough requests for `total` items at the page size, and at least one. */
  function RequestBound(total: int): int {
    if total <= PAGE_SIZE then 1 else (total + PAGE_SIZE - 1) / PAGE_SIZE
  }

  /** The items after a cursor, in order. */
  function After(items: seq<Item>, cursor: int): seq<Item> {
    if items == [] then []
    else if items[0].id > cursor then [items[0]] + After(items[1..], cursor)
    else After(items[1..], cursor)
  }

  function Take(items: seq<Item>, n: nat): seq<Item> {
    if |items| <= n then items else items[..n]
  }

  /** A server whose selection does not change while it is paged through; only
      the first total is promised, later ones may count any way they like. */
  ghost predicate Stable(server: Server, all: seq<Item>) {
    && Ascending(all) && AllAfter(all, 0)
    && forall n: nat, cursor: int ::
         && server(n, cursor).Page?
         && server(n, cursor).items == Take(After(all, cursor), PAGE_SIZE)
         && (cursor == 0 ==> server(n, cursor).total == |all|)
  }

  // ---- What a conversation with any server amounts to -------------------------

  /** Everything the first `n` answers contained; each cursor is the last id so far. */
  function Collected(server: Server, n: nat): seq<Item>
    decreases n, 0
  {
    if n == 0 then []
    else Collected(server, n - 1) + if Answer(server, n - 1).Page? then Answer(server, n - 1).items else []
  }

  function Answer(server: Server, n: nat): Page
    decreases n, 1
  {
    server(n, LastId(Collected(server, n), 0))
  }

  predicate Orderly(server: Server, n: nat) {
    && Answer(server, n).Page?
    && Ascending(Answer(server, n).items) && AllAfter(Answer(server, n).items, LastId(Collected(server, n), 0))
  }

  /** A full page in order that does not reach the announced total. */
  predicate Continues(server: Server, n: nat) {
    && Orderly(server, n) && server(0, 0).Page?
    && |Collected(server, n + 1)| < server(0, 0).total && |Answer(server, n).items| >= PAGE_SIZE
  }

  /** What the first answer that does not continue means. */
  function Verdict(server: Server, n: nat): Outcome
    requires server(0, 0).Page? || n == 0
  {
    if Answer(server, n).Unavailable? then Failed(Transport)
    else if !Orderly(server, n) then Failed(UnstableOrder)
    else
      var items, total := Collected(server, n + 1), server(0, 0).total;
      if |items| == total then Fetched(items, total)
      else if |items| > total then Failed(TotalChanged)
      else Failed(Incomplete)
  }

  lemma {:induction false} AfterSplit(all: seq<Item>, k: nat, cursor: int)
    requires k <= |all| && Ascending(all)
    requires forall i :: 0 <= i < k ==> all[i].id <= cursor
    requires forall i :: k <= i < |all| ==> cursor < all[i].id
    ensures After(all, cursor) == all[k..]
  {
    if all != [] {
      if k == 0 {
        AfterSplit(all[1..], 0, cursor);
      } else {
        AfterSplit(all[1..], k - 1, cursor);
        assert all[1..][k - 1..] == all[k..];
      }
    }
  }

  /** A stable server extends what was collected by the next stretch of the selection. */
  lemma StablePage(server: Server, all: seq<Item>, items: seq<Item>, n: nat)
    requires Stable(server, all) && items <= all
    ensures var page := server(n, LastId(items, 0));
            && page.Page? && items + page.items <= all
            && (items == [] ==> page.total == |all|)
            && Ascending(page.items) && AllAfter(page.items, LastId(items, 0))
            && (items + page.items == all || |page.items| == PAGE_SIZE)
  {
    var start := |items|;
    assert items == all[..start];
    AfterSplit(all, start, LastId(items, 0));
    var stop := if |all| - start <= PAGE_SIZE then |all| else start + PAGE_SIZE;
    assert Take(all[start..], PAGE_SIZE) == all[start..stop];
    NextStretch(all, start, stop);
    assert all[..stop] <= all;
  }

  lemma NextStretch(all: seq<Item>, start: nat, stop: nat)
    requires Ascending(all) && AllAfter(all, 0) && start <= stop <= |all|
    ensures all[..start] + all[start..stop] == all[..stop]
    ensures Ascending(all[start..stop]) && AllAfter(all[start..stop], LastId(all[..start], 0))
  {
    var page := all[start..stop];
    assert forall i :: 0 <= i < |page| ==> page[i] == all[start + i];
    var last := LastId(all[..start], 0);
    forall i | 0 <= i < |page| ensures last < page[i].id {
      assert start > 0 ==> last == all[start - 1].id;
    }
  }

  lemma RequestsWithinBound(requests: nat, total: int)
    requires requests >= 1 && (requests > 1 ==> PAGE_SIZE * (requests - 1) < total)
    ensures requests <= RequestBound(total)
  {
  }

  /** The bound is the least number of full pages that hold `total` items, and one. */
  lemma RequestBoundIsLeast(total: int)
    ensures RequestBound(total) >= 1 && RequestBound(total) * 200 >= total
    ensures RequestBound(total) > 1 ==> (RequestBound(total) - 1) * 200 < total
  {
  }

  /** One page: every id must exceed the previous one and be new. */
  method AppendPage(collected: seq<Item>, seen: set<int>, cursor: int, page: seq<Item>)
    returns (error: bool, kind: FetchError, items: seq<Item>, seen': set<int>)
    requires Ascending(collected) && AllAfter(collected, 0) && cursor == LastId(collected, 0)
    requires forall id :: id in seen ==> id <= cursor
    ensures error ==> kind == UnstableOrder
    ensures error <==> !(Ascending(page) && AllAfter(page, cursor))
    ensures !error ==>
      && items == collected + page && Ascending(items) && AllAfter(items, 0)
      && forall id :: id in seen' ==> id <= LastId(items, 0)
  {
    items, seen', error, kind := collected, seen, false, Transport;
    var last := cursor;
    for i := 0 to |page|
      invariant items == collected + page[..i]
      invariant last == if i == 0 then cursor else page[i - 1].id
      invariant OrderedTo(page, i, cursor)
      invariant forall id :: id in seen' ==> id <= last
    {
      var unstable, known := page[i].id <= last, page[i].id in seen';
      if unstable || known {
        kind := if unstable then UnstableOrder else Duplicate;
        error := true;
        return;
      }
      OrderedOneMore(page, i, cursor);
      seen' := seen' + {page[i].id};
      last := page[i].id;
      items := items + [page[i]];
    }
    assert page[..|page|] == page;
    AppendOrdered(collected, page, cursor);
  }

  predicate OrderedTo(page: seq<Item>, n: nat, cursor: int)
    requires n <= |page|
  {
    && (forall i, j :: 0 <= i < j < n ==> page[i].id < page[j].id)
    && (forall i :: 0 <= i < n ==> cursor < page[i].id)
  }

  lemma OrderedOneMore(page: seq<Item>, i: nat, cursor: int)
    requires i < |page| && OrderedTo(page, i, cursor)
    requires (if i == 0 then cursor else page[i - 1].id) < page[i].id
    ensures OrderedTo(page, i + 1, cursor)
  {
  }

  lemma AppendOrdered(collected: seq<Item>, page: seq<Item>, cursor: int)
    requires Ascending(collected) && AllAfter(collected, 0) && cursor == LastId(collected, 0)
    requires OrderedTo(page, |page|, cursor)
    ensures Ascending(collected + page) && AllAfter(collected + page, 0)
    ensures LastId(collected + page, 0) == LastId(page, cursor)
  {
    var items := collected + page;
    forall i, j | 0 <= i < j < |items| ensures items[i].id < items[j].id {
      if i < |collected| <= j {
        assert items[i].id <= cursor < items[j].id;
      }
    }
    forall i | 0 <= i < |items| ensures 0 < items[i].id {
      if i >= |collected| {
        assert cursor < items[i].id;
      }
    }
  }

  /** Asks until an answer does not continue, and reports what that answer means. */
  method FetchCompleteSelection(server: Server) returns (outcome: Outcome, requests: nat)
    ensures Conversation(server, requests)
    ensures outcome == Verdict(server, requests - 1)
  {
    var items: seq<Item>, seen: set<int>, expected, cursor := [], {}, -1, 0;
    requests := 0;
    while true
      invariant Ascending(items) && AllAfter(items, 0) && cursor == LastId(items, 0)
      invariant forall id :: id in seen ==> id <= cursor
      invariant items == Collected(server, requests)
      invariant forall n: nat :: n < requests ==> Continues(server, n)
      invariant if requests == 0 then expected == -1
                else server(0, 0).Page? && expected == server(0, 0).total && |items| < expected
      decreases if requests == 0 then 1 else 0, expected - |items|
    {
      var page := server(requests, cursor);
      assert page == Answer(server, requests);
      requests := requests + 1;
      if page.Unavailable? {
        return Failed(Transport), requests;
      }
      if expected < 0 {
        expected := page.total;
      }
      var error, kind;
      error, kind, items, seen := AppendPage(items, seen, cursor, page.items);
      if error {
        return Failed(kind), requests;
      }
      if |items| == expected {
        return Fetched(items, expected), requests;
      }
      if |items| > expected {
        return Failed(TotalChanged), requests;
      }
      if |page.items| < PAGE_SIZE || LastId(items, 0) == cursor {
        return Failed(Incomplete), requests;
      }
      cursor := LastId(items, 0);
    }
  }

  // ---- What a success is worth -------------------------------------------------

  /** `requests` answers, of which only the last one does not continue. */
  ghost predicate Conversation(server: Server, requests: int) {
    && requests >= 1 && (requests > 1 ==> server(0, 0).Page?)
    && (forall n: nat :: n < requests - 1 ==> Continues(server, n))
    && !Continues(server, requests - 1)
  }

  lemma {:induction false} CollectedOrdered(server: Server, n: nat)
    requires forall k: nat :: k < n ==> Continues(server, k)
    ensures Ascending(Collected(server, n)) && AllAfter(Collected(server, n), 0)
    ensures |Collected(server, n)| >= PAGE_SIZE * n
    ensures n > 0 ==> server(0, 0).Page? && |Collected(server, n)| < server(0, 0).total
  {
    if n > 0 {
      CollectedOrdered(server, n - 1);
      assert Continues(server, n - 1);
      AppendOrdered(Collected(server, n - 1), Answer(server, n - 1).items, LastId(Collected(server, n - 1), 0));
    }
  }

  /** Against any server: the requests stay within the bound the first total sets,
      a success is strictly ascending, free of duplicates and as long as that
      total, and no answer is ever rejected for a duplicate. */
  lemma VerdictSound(server: Server, requests: int)
    requires Conversation(server, requests)
    ensures var outcome := Verdict(server, requests - 1);
            && (server(0, 0).Page? ==> requests <= RequestBound(server(0, 0).total))
            && (server(0, 0).Unavailable? ==> requests == 1 && outcome == Failed(Transport))
            && (outcome.Fetched? ==>
                  && server(0, 0).Page? && outcome.total == server(0, 0).total == |outcome.items|
                  && Ascending(outcome.items) && AllAfter(outcome.items, 0))
            && outcome != Failed(Duplicate)
  {
    var n := requests - 1;
    CollectedOrdered(server, n);
    if server(0, 0).Page? {
      RequestsWithinBound(requests, server(0, 0).total);
    }
    assert n == 0 ==> Answer(server, n) == server(0, 0);
    if Orderly(server, n) {
      AppendOrdered(Collected(server, n), Answer(server, n).items, LastId(Collected(server, n), 0));
    }
  }

  lemma {:induction false} StableCollected(server: Server, all: seq<Item>, n: nat)
    requires Stable(server, all) && forall k: nat :: k < n ==> Continues(server, k)
    ensures Collected(server, n) <= all
  {
    if n > 0 {
      StableCollected(server, all, n - 1);
      StablePage(server, all, Collected(server, n - 1), n - 1);
    }
  }

  /** Against a stable server the whole selection is fetched, exactly. */
  lemma StableFetchesAll(server: Server, all: seq<Item>, requests: int)
    requires Stable(server, all) && Conversation(server, requests)
    ensures Verdict(server, requests - 1) == Fetched(all, |all|)
  {
    var n := requests - 1;
    StableCollected(server, all, n);
    StablePage(server, all, Collected(server, n), n);
    assert Collected(server, n + 1) == Collected(server, n) + Answer(server, n).items;
  }

  /** The id at place `i` does not exceed the one before it. */
  predicate StepsBack(items: seq<Item>, cursor: int, i: int) {
    0 <= i < |items| && items[i].id <= (if i == 0 then cursor else items[i - 1].id)
  }

  /** What each failure says about the answers, and that nothing else succeeds: with
      the first total as the measure, the last answer is missing, out of order, too
      much, or too short. */
  lemma FailuresMean(server: Server, requests: int)
    requires Conversation(server, requests)
    ensures var outcome, last := Verdict(server, requests - 1), Answer(server, requests - 1);
            var cursor := LastId(Collected(server, requests - 1), 0);
            var before := |Collected(server, requests - 1)|;
            match outcome
            case Fetched(items, total) =>
              last.Page? && items == Collected(server, requests - 1) + last.items && server(0, 0).Page?
              && total == server(0, 0).total == before + |last.items|
            case Failed(Transport) => last.Unavailable?
            case Failed(UnstableOrder) =>
              last.Page? && exists i :: StepsBack(last.items, cursor, i)
            case Failed(TotalChanged) =>
              last.Page? && server(0, 0).Page? && before + |last.items| > server(0, 0).total
            case Failed(Incomplete) =>
              last.Page? && server(0, 0).Page? && before + |last.items| < server(0, 0).total && |last.items| < 200
            case Failed(Duplicate) => false
  {
    var n := requests - 1;
    var last := Answer(server, n);
    if last.Page? && !Orderly(server, n) {
      OutOfOrder(last.items, LastId(Collected(server, n), 0));
    }
    assert Collected(server, 0) == [] && LastId([], 0) == 0;
    assert n == 0 ==> Answer(server, n) == server(0, 0);
    assert last.Page? ==> server(0, 0).Page? && Collected(server, n + 1) == Collected(server, n) + last.items;
    assert requests == n + 1;
    assert !Continues(server, n);
    match Verdict(server, n) {
      case Fetched(items, total) => assert items == Collected(server, n) + last.items;
      case Failed(Transport) => assert last.Unavailable?;
      case Failed(UnstableOrder) => assert exists i :: StepsBack(last.items, LastId(Collected(server, n), 0), i);
      case Failed(TotalChanged) => assert |Collected(server, n + 1)| > server(0, 0).total;
      case Failed(Incomplete) => assert |last.items| < 200;
      case Failed(Duplicate) => assert false;
    }
  }

  lemma {:induction false} OrderedByStep(items: seq<Item>, cursor: int, n: nat)
    requires n <= |items| && forall i :: 0 <= i < n ==> !StepsBack(items, cursor, i)
    ensures OrderedTo(items, n, cursor)
  {
    if n > 0 {
      OrderedByStep(items, cursor, n - 1);
      assert !StepsBack(items, cursor, n - 1);
      OrderedOneMore(items, n - 1, cursor);
    }
  }

  /** A page that does not ascend beyond the cursor has a place where it steps back. */
  lemma OutOfOrder(items: seq<Item>, cursor: int)
    requires !(Ascending(items) && AllAfter(items, cursor))
    ensures exists i :: StepsBack(items, cursor, i)
  {
    if forall i :: 0 <= i < |items| ==> !StepsBack(items, cursor, i) {
      OrderedByStep(items, cursor, |items|);
    }
  }
}
