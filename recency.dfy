/** The ordering behind `getRecent` for both categories and items:
    `updatedAt` descending, ties broken by `id` ascending, then the first
    `limit` records. */
module Recency {
  import opened Inventory
  import opened Js

  /** The `limit` parameter's default value. */
  const DefaultLimit := 5

  /** The limit `getRecent` works with: the argument, or 5 when it is
      omitted. */
  function LimitOrDefault(limit: Option<int>): int {
    if limit.Some? then limit.value else DefaultLimit
  }

  /** The two fields the comparator reads. */
  datatype Stamp = Stamp(updatedAt: int, id: string)

  /** `a` sorts strictly before `b`: the comparator returns a negative number. */
  predicate Before(a: Stamp, b: Stamp) {
    a.updatedAt > b.updatedAt || (a.updatedAt == b.updatedAt && LexLess(a.id, b.id))
  }

  /** `a` may stand before `b` in a sorted list. */
  predicate NotAfter(a: Stamp, b: Stamp) {
    !Before(b, a)
  }

  lemma BeforeAsymmetric(a: Stamp, b: Stamp)
    requires Before(a, b)
    ensures !Before(b, a)
  {
    if a.updatedAt == b.updatedAt { LexLessAsymmetric(a.id, b.id); }
  }

  lemma NotAfterTotal(a: Stamp, b: Stamp)
    ensures NotAfter(a, b) || NotAfter(b, a)
  {
    if Before(a, b) { BeforeAsymmetric(a, b); }
  }

  lemma NotAfterTransitive(a: Stamp, b: Stamp, c: Stamp)
    requires NotAfter(a, b) && NotAfter(b, c)
    ensures NotAfter(a, c)
  {
    LexLessTotal(a.id, b.id);
    LexLessTotal(b.id, c.id);
    if a.updatedAt == b.updatedAt == c.updatedAt && LexLess(c.id, a.id) {
      if a.id == b.id {
      } else if LexLess(b.id, a.id) {
      } else {
        LexLessTransitive(a.id, b.id, c.id);
        LexLessTotal(a.id, c.id);
        LexLessAsymmetric(c.id, a.id);
      }
    }
  }

  /** Sorted by the comparator: no later element sorts before an earlier one. */
  predicate SortedBy<T>(s: seq<T>, key: T -> Stamp) {
    forall i, j | 0 <= i < j < |s| :: NotAfter(key(s[i]), key(s[j]))
  }

  function Insert<T>(x: T, s: seq<T>, key: T -> Stamp): seq<T> {
    if s == [] || !Before(key(s[0]), key(x)) then [x] + s
    else [s[0]] + Insert(x, s[1..], key)
  }

  lemma {:induction false} InsertSorted<T>(x: T, s: seq<T>, key: T -> Stamp)
    requires SortedBy(s, key)
    ensures multiset(Insert(x, s, key)) == multiset(s) + multiset{x}
    ensures SortedBy(Insert(x, s, key), key)
  {
    var r := Insert(x, s, key);
    if s == [] {
    } else if !Before(key(s[0]), key(x)) {
      forall j | 0 <= j < |s|
        ensures NotAfter(key(x), key(s[j]))
      {
        if j > 0 { NotAfterTransitive(key(x), key(s[0]), key(s[j])); }
      }
      assert r == [x] + s;
    } else {
      InsertSorted(x, s[1..], key);
      var t := Insert(x, s[1..], key);
      assert s == [s[0]] + s[1..];
      assert r == [s[0]] + t;
      BeforeAsymmetric(key(s[0]), key(x));
      forall j | 0 <= j < |t|
        ensures NotAfter(key(s[0]), key(t[j]))
      {
        assert t[j] in multiset(t);
        if t[j] != x {
          assert t[j] in multiset(s[1..]);
          var k :| 0 <= k < |s[1..]| && s[1..][k] == t[j];
          assert s[k + 1] == t[j];
        }
      }
    }
  }

  /** Sorting with the `getRecent` comparator. */
  function SortRecent<T>(s: seq<T>, key: T -> Stamp): (r: seq<T>)
    ensures multiset(r) == multiset(s)
    ensures SortedBy(r, key)
  {
    if s == [] then []
    else
      var rest := SortRecent(s[1..], key);
      InsertSorted(s[0], rest, key);
      assert s == [s[0]] + s[1..];
      Insert(s[0], rest, key)
  }

  /** `sorted.slice(0, limit)` on the sorted list: the `limit` most recently
      updated records, newest first (a negative `limit` drops that many from
      the end, as `slice` does). */
  function Recent<T(!new)>(s: seq<T>, key: T -> Stamp, limit: int): (r: seq<T>)
    ensures limit >= 0 ==> |r| == if limit < |s| then limit else |s|
    ensures multiset(r) <= multiset(s)
    ensures SortedBy(r, key)
    ensures forall x, y | x in r && y in s && y !in r :: NotAfter(key(x), key(y))
  {
    var sorted := SortRecent(s, key);
    var r := Slice(sorted, 0, limit);
    assert |sorted| == |s| by { assert |multiset(sorted)| == |multiset(s)|; }
    var a := ClampIndex(0, |sorted|);
    var b := ClampIndex(limit, |sorted|);
    assert r == sorted[..if a < b then b else 0];
    SortedPrefix(sorted, r, key, s);
    r
  }

  lemma SortedPrefix<T>(sorted: seq<T>, r: seq<T>, key: T -> Stamp, s: seq<T>)
    requires multiset(sorted) == multiset(s) && SortedBy(sorted, key)
    requires |r| <= |sorted| && r == sorted[..|r|]
    ensures multiset(r) <= multiset(s)
    ensures SortedBy(r, key)
    ensures forall x, y | x in r && y in s && y !in r :: NotAfter(key(x), key(y))
  {
    assert sorted == r + sorted[|r|..];
    forall x, y | x in r && y in s && y !in r
      ensures NotAfter(key(x), key(y))
    {
      var i :| 0 <= i < |r| && r[i] == x;
      assert y in multiset(sorted);
      var j :| 0 <= j < |sorted| && sorted[j] == y;
      if j < |r| { assert r[j] == y; }
    }
  }
}
