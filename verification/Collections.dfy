/** Facts about finite sets, sequences and sums that the table proofs share. */
module Collections {

  function Max(a: int, b: int): int {
    if a < b then b else a
  }

  /** The sum of a table column. */
  ghost function SumMap(m: map<int, int>): int {
    if forall k :: k !in m then 0 else
      var k :| k in m;
      m[k] + SumMap(m - {k})
  }

  lemma {:induction false} SumMapSplit(m: map<int, int>, k: int)
    requires k in m
    ensures SumMap(m) == m[k] + SumMap(m - {k})
    decreases m
  {
    var j :| j in m && SumMap(m) == m[j] + SumMap(m - {j});
    if j != k {
      SumMapSplit(m - {j}, k);
      SumMapSplit(m - {k}, j);
      assert m - {j} - {k} == m - {k} - {j};
    }
  }

  lemma SumMapAdd(m: map<int, int>, k: int, v: int)
    requires k !in m
    ensures SumMap(m[k := v]) == SumMap(m) + v
  {
    SumMapSplit(m[k := v], k);
    assert m[k := v] - {k} == m;
  }

  /** Changing one column value shifts the sum by as much. */
  lemma SumMapShift(m: map<int, int>, n: map<int, int>, k: int, shift: int)
    requires m.Keys == n.Keys
    requires forall i :: i in m && i != k ==> n[i] == m[i]
    requires k in m ==> n[k] == m[k] + shift
    ensures SumMap(n) == SumMap(m) + if k in m then shift else 0
  {
    if k in m {
      SumMapSplit(m, k);
      SumMapSplit(n, k);
      forall i | i in m - {k} ensures (m - {k})[i] == (n - {k})[i] {
        assert i in m && i != k;
      }
      assert m - {k} == n - {k};
    } else {
      forall i | i in m ensures m[i] == n[i] {
      }
      assert m == n;
    }
  }

  /** Sets that differ at most in one element differ in size by its membership. */
  lemma CountShift(s: set<int>, t: set<int>, x: int)
    requires s - {x} == t - {x}
    ensures |t| - |s| == (if x in t then 1 else 0) - (if x in s then 1 else 0)
  {
    assert |s| == |s - {x}| + if x in s then 1 else 0;
    assert |t| == |t - {x}| + if x in t then 1 else 0;
  }

  lemma Inhabited(s: set<int>)
    ensures s == {} || exists x :: x in s
  {
    if forall x :: x !in s {
      assert s == {};
    }
  }

  /** Visiting one more key of a map that is worked through key by key. */
  lemma VisitOneMore<V>(all: map<int, V>, todo: set<int>, k: int)
    requires k in todo && k in all
    ensures all - (todo - {k}) == (all - todo)[k := all[k]]
    ensures k !in all - todo
  {
  }

  predicate Distinct<T(==)>(s: seq<T>) {
    forall i, j :: 0 <= i < j < |s| ==> s[i] != s[j]
  }

  function Elements<T>(s: seq<T>): set<T> {
    set x | x in s
  }

  lemma {:induction false} DistinctCount<T>(s: seq<T>)
    requires Distinct(s)
    ensures |Elements(s)| == |s|
  {
    if s == [] {
      assert Elements(s) == {};
    } else {
      var front, last := s[..|s| - 1], s[|s| - 1];
      DistinctCount(front);
      assert s == front + [last];
      assert Elements(s) == Elements(front) + {last};
      assert last !in Elements(front);
    }
  }
}
