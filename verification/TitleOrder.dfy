/** Stable sorting by title, and what makes its result unique. */
module TitleOrder {

  /** Strings compare character by character; a prefix comes first. */
  predicate AtMost(a: string, b: string) {
    a == [] || (b != [] && (a[0] < b[0] || (a[0] == b[0] && AtMost(a[1..], b[1..]))))
  }

  /** The first differing character decides, the smaller one first; a text that
      runs out first comes first. */
  lemma {:induction false} FirstDifferenceDecides(a: string, b: string, k: nat)
    requires k <= |a| && k <= |b| && a[..k] == b[..k]
    ensures k < |a| && k < |b| && a[k] < b[k] ==> AtMost(a, b) && !AtMost(b, a)
    ensures k == |a| < |b| ==> AtMost(a, b) && !AtMost(b, a)
    ensures k == |a| == |b| ==> AtMost(a, b)
  {
    if k > 0 {
      assert a[0] == a[..k][0] == b[..k][0] == b[0];
      assert a[1..][..k - 1] == a[..k][1..] == b[..k][1..] == b[1..][..k - 1];
      FirstDifferenceDecides(a[1..], b[1..], k - 1);
    }
  }

  lemma {:induction false} AtMostTotal(a: string, b: string)
    ensures AtMost(a, b) || AtMost(b, a)
  {
    if a != [] && b != [] {
      AtMostTotal(a[1..], b[1..]);
    }
  }

  lemma {:induction false} AtMostAntisymmetric(a: string, b: string)
    requires AtMost(a, b) && AtMost(b, a)
    ensures a == b
  {
    if a != [] && b != [] {
      AtMostAntisymmetric(a[1..], b[1..]);
      assert a == [a[0]] + a[1..] && b == [b[0]] + b[1..];
    }
  }

  lemma {:induction false} AtMostTransitive(a: string, b: string, c: string)
    requires AtMost(a, b) && AtMost(b, c)
    ensures AtMost(a, c)
  {
    if a != [] && a[0] == b[0] == c[0] {
      AtMostTransitive(a[1..], b[1..], c[1..]);
    }
  }

  predicate Ordered<T>(s: seq<T>, key: T -> string) {
    forall i, j :: 0 <= i < j < |s| ==> AtMost(key(s[i]), key(s[j]))
  }

  /** The elements with one key, in their order. */
  function WithKey<T>(s: seq<T>, key: T -> string, k: string): seq<T> {
    if s == [] then []
    else WithKey(s[..|s| - 1], key, k) + if key(s[|s| - 1]) == k then [s[|s| - 1]] else []
  }

  /** Places `x` behind everything whose key is not larger. */
  function Place<T>(s: seq<T>, x: T, key: T -> string): seq<T> {
    if s == [] || AtMost(key(s[|s| - 1]), key(x)) then s + [x]
    else Place(s[..|s| - 1], x, key) + [s[|s| - 1]]
  }

  function StableSort<T>(s: seq<T>, key: T -> string): seq<T> {
    if s == [] then [] else Place(StableSort(s[..|s| - 1], key), s[|s| - 1], key)
  }

  lemma {:induction false} PlaceMembers<T>(s: seq<T>, x: T, key: T -> string)
    ensures multiset(Place(s, x, key)) == multiset(s) + multiset{x}
  {
    if s != [] && !AtMost(key(s[|s| - 1]), key(x)) {
      PlaceMembers(s[..|s| - 1], x, key);
      assert s == s[..|s| - 1] + [s[|s| - 1]];
    }
  }

  lemma {:induction false} PlaceOrdered<T>(s: seq<T>, x: T, key: T -> string)
    requires Ordered(s, key)
    ensures Ordered(Place(s, x, key), key)
  {
    if s == [] {
    } else {
      var front, last := s[..|s| - 1], s[|s| - 1];
      if AtMost(key(last), key(x)) {
        forall i | 0 <= i < |s| ensures AtMost(key(s[i]), key(x)) {
          if i < |s| - 1 {
            AtMostTransitive(key(s[i]), key(last), key(x));
          }
        }
      } else {
        PlaceOrdered(front, x, key);
        PlaceMembers(front, x, key);
        AtMostTotal(key(last), key(x));
        var placed := Place(front, x, key);
        forall i | 0 <= i < |placed| ensures AtMost(key(placed[i]), key(last)) {
          assert placed[i] in multiset(placed);
          if placed[i] != x {
            var j :| 0 <= j < |front| && front[j] == placed[i];
            assert s[j] == front[j];
          }
        }
      }
    }
  }

  lemma {:induction false} PlaceStable<T>(s: seq<T>, x: T, key: T -> string, k: string)
    ensures WithKey(Place(s, x, key), key, k) == WithKey(s, key, k) + if key(x) == k then [x] else []
  {
    if s == [] || AtMost(key(s[|s| - 1]), key(x)) {
      assert (s + [x])[..|s|] == s;
    } else {
      var front, last := s[..|s| - 1], s[|s| - 1];
      PlaceStable(front, x, key, k);
      var placed := Place(front, x, key);
      assert (placed + [last])[..|placed|] == placed;
      assert key(last) != key(x) by {
        if key(last) == key(x) {
          AtMostTotal(key(last), key(x));
        }
      }
    }
  }

  lemma {:induction false} SortOrdered<T>(s: seq<T>, key: T -> string)
    ensures Ordered(StableSort(s, key), key)
    ensures multiset(StableSort(s, key)) == multiset(s)
  {
    if s != [] {
      var front, last := s[..|s| - 1], s[|s| - 1];
      SortOrdered(front, key);
      PlaceOrdered(StableSort(front, key), last, key);
      PlaceMembers(StableSort(front, key), last, key);
      assert s == front + [last];
    }
  }

  lemma {:induction false} SortStable<T>(s: seq<T>, key: T -> string, k: string)
    ensures WithKey(StableSort(s, key), key, k) == WithKey(s, key, k)
  {
    if s != [] {
      SortStable(s[..|s| - 1], key, k);
      PlaceStable(StableSort(s[..|s| - 1], key), s[|s| - 1], key, k);
    }
  }

  lemma {:induction false} WithKeyMember<T>(s: seq<T>, key: T -> string, k: string) returns (i: nat)
    requires WithKey(s, key, k) != []
    ensures i < |s| && key(s[i]) == k
  {
    i := |s| - 1;
    if key(s[i]) != k {
      i := WithKeyMember(s[..i], key, k);
    }
  }

  lemma WithKeyLast<T>(s: seq<T>, key: T -> string)
    requires s != []
    ensures var last := s[|s| - 1];
            var same := WithKey(s, key, key(last));
            same != [] && same[|same| - 1] == last && WithKey(s[..|s| - 1], key, key(last)) == same[..|same| - 1]
  {
  }

  ghost predicate SameTies<T>(s: seq<T>, t: seq<T>, key: T -> string) {
    forall k :: WithKey(s, key, k) == WithKey(t, key, k)
  }

  /** Order and ties decide the last element. */
  lemma SameLast<T>(s: seq<T>, t: seq<T>, key: T -> string)
    requires Ordered(s, key) && Ordered(t, key) && SameTies(s, t, key) && s != []
    ensures t != [] && s[|s| - 1] == t[|t| - 1]
  {
    var k := key(s[|s| - 1]);
    assert WithKey(s, key, k) == WithKey(t, key, k);
    var i := WithKeyMember(t, key, k);
    var l := key(t[|t| - 1]);
    assert WithKey(s, key, l) == WithKey(t, key, l);
    var j := WithKeyMember(s, key, l);
    assert k == l by {
      if i != |t| - 1 && j != |s| - 1 {
        AtMostAntisymmetric(k, l);
      }
    }
    WithKeyLast(s, key);
    WithKeyLast(t, key);
  }

  lemma {:induction false} OrderedUnique<T>(s: seq<T>, t: seq<T>, key: T -> string)
    requires Ordered(s, key) && Ordered(t, key) && SameTies(s, t, key)
    ensures s == t
  {
    if s == [] {
      assert t == [];
    } else {
      SameLast(s, t, key);
      var s', t' := s[..|s| - 1], t[..|t| - 1];
      forall k ensures WithKey(s', key, k) == WithKey(t', key, k) {
        assert WithKey(s, key, k) == WithKey(t, key, k);
        if k == key(s[|s| - 1]) {
          WithKeyLast(s, key);
          WithKeyLast(t, key);
        } else {
          assert WithKey(s, key, k) == WithKey(s', key, k) && WithKey(t, key, k) == WithKey(t', key, k);
        }
      }
      OrderedUnique(s', t', key);
      assert s == s' + [s[|s| - 1]] && t == t' + [t[|t| - 1]];
    }
  }

  /** A stable sort by title is one thing only: ordered, ties in input order. */
  lemma StableSortExactly<T>(s: seq<T>, t: seq<T>, key: T -> string)
    ensures t == StableSort(s, key) <==> Ordered(t, key) && SameTies(s, t, key)
  {
    SortOrdered(s, key);
    forall k ensures WithKey(StableSort(s, key), key, k) == WithKey(s, key, k) {
      SortStable(s, key, k);
    }
    if Ordered(t, key) && SameTies(s, t, key) {
      forall k ensures WithKey(t, key, k) == WithKey(StableSort(s, key), key, k) {
        assert WithKey(s, key, k) == WithKey(t, key, k);
      }
      OrderedUnique(t, StableSort(s, key), key);
    }
  }

  // ---- Sums and identifiers ---------------------------------------------------

  function Total<T>(s: seq<T>, weight: T -> int): int {
    if s == [] then 0 else Total(s[..|s| - 1], weight) + weight(s[|s| - 1])
  }

  predicate DistinctBy<T>(s: seq<T>, id: T -> int) {
    forall i, j :: 0 <= i < j < |s| ==> id(s[i]) != id(s[j])
  }

  function IdsOf<T>(s: seq<T>, id: T -> int): set<int> {
    set i | 0 <= i < |s| :: id(s[i])
  }

  lemma IdsSnoc<T>(front: seq<T>, last: T, id: T -> int)
    ensures IdsOf(front + [last], id) == IdsOf(front, id) + {id(last)}
    ensures DistinctBy(front + [last], id) <==> DistinctBy(front, id) && id(last) !in IdsOf(front, id)
  {
    var s := front + [last];
    assert s[|front|] == last && forall i :: 0 <= i < |front| ==> s[i] == front[i];
    forall x ensures x in IdsOf(s, id) <==> x in IdsOf(front, id) + {id(last)} {
      if x in IdsOf(front, id) {
        var i :| 0 <= i < |front| && id(front[i]) == x;
        assert id(s[i]) == x;
      }
    }
    if DistinctBy(s, id) {
      forall i, j | 0 <= i < j < |front| ensures id(front[i]) != id(front[j]) {
        assert id(s[i]) != id(s[j]);
      }
      forall i | 0 <= i < |front| ensures id(front[i]) != id(last) {
        assert id(s[i]) != id(s[|front|]);
      }
    }
  }

  lemma {:induction false} PlaceTotal<T>(s: seq<T>, x: T, key: T -> string, weight: T -> int)
    ensures Total(Place(s, x, key), weight) == Total(s, weight) + weight(x)
  {
    if s == [] || AtMost(key(s[|s| - 1]), key(x)) {
      assert (s + [x])[..|s|] == s;
    } else {
      PlaceTotal(s[..|s| - 1], x, key, weight);
      var placed := Place(s[..|s| - 1], x, key);
      assert (placed + [s[|s| - 1]])[..|placed|] == placed;
    }
  }

  lemma {:induction false} SortTotal<T>(s: seq<T>, key: T -> string, weight: T -> int)
    ensures Total(StableSort(s, key), weight) == Total(s, weight)
  {
    if s != [] {
      SortTotal(s[..|s| - 1], key, weight);
      PlaceTotal(StableSort(s[..|s| - 1], key), s[|s| - 1], key, weight);
    }
  }

  lemma {:induction false} TotalChanges<T>(s: seq<T>, i: nat, x: T, weight: T -> int)
    requires i < |s|
    ensures Total(s[i := x], weight) == Total(s, weight) - weight(s[i]) + weight(x)
  {
    var front := s[..|s| - 1];
    if i < |s| - 1 {
      TotalChanges(front, i, x, weight);
      assert s[i := x][..|s| - 1] == front[i := x];
    } else {
      assert s[i := x][..|s| - 1] == front;
    }
  }

  lemma {:induction false} TotalSame<S, T>(s: seq<S>, t: seq<T>, v: S -> int, w: T -> int)
    requires |s| == |t| && forall i :: 0 <= i < |s| ==> v(s[i]) == w(t[i])
    ensures Total(s, v) == Total(t, w)
  {
    if s != [] {
      TotalSame(s[..|s| - 1], t[..|t| - 1], v, w);
    }
  }

  /** Distinctness survives any rearrangement. */
  lemma {:induction false} DistinctMultiset<T>(s: seq<T>, t: seq<T>, id: T -> int)
    requires multiset(s) == multiset(t) && DistinctBy(s, id)
    ensures DistinctBy(t, id)
  {
    forall i, j | 0 <= i < j < |t| ensures id(t[i]) != id(t[j]) {
      if id(t[i]) == id(t[j]) {
        assert t[i] in multiset(t) && t[j] in multiset(t);
        var p :| 0 <= p < |s| && s[p] == t[i];
        var q :| 0 <= q < |s| && s[q] == t[j];
        assert p == q;
        Twice(t, i, j);
        Once(s, p, id);
      }
    }
  }

  lemma Twice<T>(t: seq<T>, i: nat, j: nat)
    requires i < j < |t| && t[i] == t[j]
    ensures multiset(t)[t[i]] >= 2
  {
    assert t == t[..j] + [t[j]] + t[j + 1..];
    assert t[i] in t[..j];
  }

  lemma Once<T>(s: seq<T>, p: nat, id: T -> int)
    requires p < |s| && DistinctBy(s, id)
    ensures multiset(s)[s[p]] == 1
  {
    assert s == s[..p] + [s[p]] + s[p + 1..];
    assert s[p] !in s[..p] && s[p] !in s[p + 1..];
  }
}
