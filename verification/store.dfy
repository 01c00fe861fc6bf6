/**
 * What the handlers ask of an event collection: `Find` with a sort on the
 * timestamp and a limit (main.go:222-226). Only that contract is modelled;
 * the result is produced by sorting by insertion so that the contract has
 * a witness, not to mirror how the database sorts.
 */
module Store {

  const Ascending: int := 1
  const Descending: int := -1

  /** `a` may come before `b` in the order `sortOrder` (1 ascending, otherwise descending). */
  predicate Precedes(a: int, b: int, sortOrder: int) {
    if sortOrder == Ascending then a <= b else a >= b
  }

  ghost predicate SortedBy<T>(s: seq<T>, key: T -> int, sortOrder: int) {
    forall i, j :: 0 <= i < j < |s| ==> Precedes(key(s[i]), key(s[j]), sortOrder)
  }

  function Min(a: int, b: int): int {
    if a < b then a else b
  }

  /**
   * `r` is an answer the store may give to a find over `docs` with a sort on
   * `key` and a limit: as many documents as the limit allows, in order,
   * drawn from the collection, and no document left out comes before one
   * that was returned.
   */
  ghost predicate IsFindResult<T>(docs: seq<T>, r: seq<T>, key: T -> int, sortOrder: int, limit: nat) {
    && |r| == Min(limit, |docs|)
    && SortedBy(r, key, sortOrder)
    && multiset(r) <= multiset(docs)
    && forall x, y :: x in r && y in multiset(docs) - multiset(r) ==> Precedes(key(x), key(y), sortOrder)
  }

  /** Inserts `x` into `s` after every element that may precede it. */
  function InsertSorted<T>(s: seq<T>, x: T, key: T -> int, sortOrder: int): (r: seq<T>)
    ensures multiset(r) == multiset(s) + multiset{x}
    ensures |r| == |s| + 1
  {
    if s == [] then [x]
    else if Precedes(key(x), key(s[0]), sortOrder) then [x] + s
    else
      var rest := InsertSorted(s[1..], x, key, sortOrder);
      assert s == [s[0]] + s[1..];
      [s[0]] + rest
  }

  lemma {:induction false} InsertSortedKeepsOrder<T>(s: seq<T>, x: T, key: T -> int, sortOrder: int)
    requires SortedBy(s, key, sortOrder)
    ensures SortedBy(InsertSorted(s, x, key, sortOrder), key, sortOrder)
  {
    if s == [] {
      assert InsertSorted(s, x, key, sortOrder) == [x];
    } else if Precedes(key(x), key(s[0]), sortOrder) {
      var r := [x] + s;
      assert InsertSorted(s, x, key, sortOrder) == r;
      forall i, j | 0 <= i < j < |r|
        ensures Precedes(key(r[i]), key(r[j]), sortOrder)
      {
        if i == 0 {
          assert r[j] == s[j - 1];
          assert Precedes(key(s[0]), key(s[j - 1]), sortOrder) || j == 1;
        } else {
          assert r[i] == s[i - 1] && r[j] == s[j - 1];
        }
      }
    } else {
      var tail := s[1..];
      var rest := InsertSorted(tail, x, key, sortOrder);
      InsertSortedKeepsOrder(tail, x, key, sortOrder);
      forall y | y in rest
        ensures Precedes(key(s[0]), key(y), sortOrder)
      {
        assert y in multiset(rest);
        if y != x {
          assert y in multiset(tail);
          var k :| 0 <= k < |tail| && tail[k] == y;
          assert s[k + 1] == y;
        }
      }
      var r := [s[0]] + rest;
      assert InsertSorted(s, x, key, sortOrder) == r;
      forall i, j | 0 <= i < j < |r|
        ensures Precedes(key(r[i]), key(r[j]), sortOrder)
      {
        assert r[j] == rest[j - 1];
        assert r[j] in rest;
        if i > 0 {
          assert r[i] == rest[i - 1];
        }
      }
    }
  }

  /** Removing a prefix's elements from a sequence's multiset leaves the suffix's. */
  lemma MultisetSplit<T>(s: seq<T>, k: nat)
    requires k <= |s|
    ensures multiset(s) - multiset(s[..k]) == multiset(s[k..])
    ensures multiset(s[..k]) <= multiset(s)
  {
    assert s == s[..k] + s[k..];
  }

  /** The first `k` elements of a sorted sequence come before all the others. */
  lemma SortedPrefix<T>(s: seq<T>, k: nat, key: T -> int, sortOrder: int)
    requires SortedBy(s, key, sortOrder) && k <= |s|
    ensures SortedBy(s[..k], key, sortOrder)
    ensures multiset(s[..k]) <= multiset(s)
    ensures forall x, y :: x in s[..k] && y in multiset(s) - multiset(s[..k]) ==> Precedes(key(x), key(y), sortOrder)
  {
    MultisetSplit(s, k);
    forall x, y | x in s[..k] && y in s[k..]
      ensures Precedes(key(x), key(y), sortOrder)
    {
      var i :| 0 <= i < k && s[i] == x;
      var j :| k <= j < |s| && s[j] == y;
    }
  }

  /** A find over `docs`: sort on `key` in `sortOrder`, keep the first `limit`. */
  method Find<T>(docs: seq<T>, key: T -> int, sortOrder: int, limit: nat) returns (r: seq<T>)
    requires sortOrder == Ascending || sortOrder == Descending
    requires limit >= 1
    ensures IsFindResult(docs, r, key, sortOrder, limit)
  {
    var sorted: seq<T> := [];
    var i := 0;
    while i < |docs|
      invariant 0 <= i <= |docs|
      invariant SortedBy(sorted, key, sortOrder)
      invariant multiset(sorted) == multiset(docs[..i])
    {
      InsertSortedKeepsOrder(sorted, docs[i], key, sortOrder);
      sorted := InsertSorted(sorted, docs[i], key, sortOrder);
      assert docs[..i + 1] == docs[..i] + [docs[i]];
      i := i + 1;
    }
    assert docs[..i] == docs;
    assert |sorted| == |multiset(sorted)| == |docs|;
    var k := Min(limit, |sorted|);
    SortedPrefix(sorted, k, key, sortOrder);
    r := sorted[..k];
  }

  /** Every document a find returns is in the collection. */
  lemma FindResultDrawnFromDocs<T>(docs: seq<T>, r: seq<T>, key: T -> int, sortOrder: int, limit: nat)
    requires IsFindResult(docs, r, key, sortOrder, limit)
    ensures forall x :: x in r ==> x in docs
  {
    forall x | x in r
      ensures x in docs
    {
      assert x in multiset(r);
    }
  }

  /**
   * On a collection holding three events with increasing timestamps, an
   * ascending find limited to two returns the two oldest, in order.
   */
  lemma AscendingLimitTwoOfThree<T>(a: T, b: T, c: T, key: T -> int, r: seq<T>)
    requires key(a) < key(b) < key(c)
    requires IsFindResult([a, b, c], r, key, Ascending, 2)
    ensures r == [a, b]
  {
    var docs := multiset([a, b, c]);
    assert docs == multiset{a, b, c};
    assert a != b && b != c && a != c;
    assert docs[a] == 1 && docs[b] == 1 && docs[c] == 1;
    assert |r| == 2;
    var m, first, second := multiset(r), r[0], r[1];
    assert r == [first, second];
    assert m == multiset{first, second} by { assert r == [first] + [second]; }
    assert first in r && second in r;
    assert m <= docs;
    // No returned document may come after one that was left out.
    assert a !in m ==> a in docs - m;
    assert a !in m ==> key(first) <= key(a);
    assert a in m;
    assert b !in m ==> b in docs - m;
    assert b !in m ==> key(first) <= key(b) && key(second) <= key(b);
    assert b in m;
    assert key(first) <= key(second);
  }
}
