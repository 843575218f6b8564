/**
 * A stable sort driven by a comparator, as `Array.prototype.sort(compare)` is (stable since
 * ECMAScript 2019), and as used for SQL `ORDER BY` here. The comparator answers a real number
 * whose sign says which element comes first; the element being inserted goes in front of the
 * first element it does not compare greater than, which keeps equal elements in input order.
 */
module Sorting {

  function Insert<T>(x: T, s: seq<T>, cmp: (T, T) -> real): (r: seq<T>)
    ensures multiset(r) == multiset(s) + multiset{x}
    ensures |r| == |s| + 1
    ensures forall y :: y in r ==> y == x || y in s
  {
    if s == [] || cmp(x, s[0]) <= 0.0 then [x] + s
    else
      assert s == [s[0]] + s[1..];
      [s[0]] + Insert(x, s[1..], cmp)
  }

  function Sort<T>(s: seq<T>, cmp: (T, T) -> real): seq<T> {
    if s == [] then [] else Insert(s[0], Sort(s[1..], cmp), cmp)
  }

  /** The comparator orders elements by a real key, ascending. */
  ghost predicate ComparesByKey<T(!new)>(cmp: (T, T) -> real, key: T -> real) {
    forall a, b :: cmp(a, b) == key(a) - key(b)
  }

  ghost predicate AscendingBy<T>(s: seq<T>, key: T -> real) {
    forall i, j :: 0 <= i < j < |s| ==> key(s[i]) <= key(s[j])
  }

  /** Sorting only reorders: the result is a permutation of the input. */
  lemma {:induction false} SortPermutes<T>(s: seq<T>, cmp: (T, T) -> real)
    ensures multiset(Sort(s, cmp)) == multiset(s)
    ensures |Sort(s, cmp)| == |s|
  {
    if s != [] {
      SortPermutes(s[1..], cmp);
      assert s == [s[0]] + s[1..];
    }
  }

  /** An element keyed at most everything in an ascending sequence can go in front of it. */
  lemma PrependAscending<T>(x: T, s: seq<T>, key: T -> real)
    requires AscendingBy(s, key)
    requires forall y :: y in s ==> key(x) <= key(y)
    ensures AscendingBy([x] + s, key)
  {
    var r := [x] + s;
    forall i, j | 0 <= i < j < |r| ensures key(r[i]) <= key(r[j]) {
      if i == 0 {
        assert r[j] == s[j - 1] && r[j] in s;
      } else {
        assert r[i] == s[i - 1] && r[j] == s[j - 1];
      }
    }
  }

  lemma {:induction false} InsertSorted<T>(x: T, s: seq<T>, cmp: (T, T) -> real, key: T -> real)
    requires forall y :: y in s ==> (cmp(x, y) <= 0.0 <==> key(x) <= key(y))
    requires AscendingBy(s, key)
    ensures AscendingBy(Insert(x, s, cmp), key)
  {
    var r := Insert(x, s, cmp);
    if s == [] {
    } else if cmp(x, s[0]) <= 0.0 {
      assert key(x) <= key(s[0]);
      forall y | y in s ensures key(x) <= key(y) {
        var k :| 0 <= k < |s| && s[k] == y;
        assert key(s[0]) <= key(s[k]) || k == 0;
      }
      assert r == [x] + s;
      PrependAscending(x, s, key);
    } else {
      assert key(s[0]) < key(x);
      var rest := s[1..];
      assert AscendingBy(rest, key) by {
        forall i, j | 0 <= i < j < |rest| ensures key(rest[i]) <= key(rest[j]) {
          assert rest[i] == s[i + 1] && rest[j] == s[j + 1];
        }
      }
      forall y | y in rest ensures cmp(x, y) <= 0.0 <==> key(x) <= key(y) {
        assert y in s;
      }
      InsertSorted(x, rest, cmp, key);
      var t := Insert(x, rest, cmp);
      assert r == [s[0]] + t;
      forall y | y in t ensures key(s[0]) <= key(y) {
        if y != x {
          var k :| 0 <= k < |rest| && rest[k] == y;
          assert s[k + 1] == y;
        }
      }
      PrependAscending(s[0], t, key);
    }
  }

  /** With a key-based comparator the result is ordered by that key. */
  lemma {:induction false} SortSorts<T(!new)>(s: seq<T>, cmp: (T, T) -> real, key: T -> real)
    requires ComparesByKey(cmp, key)
    ensures AscendingBy(Sort(s, cmp), key)
  {
    if s != [] {
      SortSorts(s[1..], cmp, key);
      var x := s[0];
      assert forall y :: cmp(x, y) <= 0.0 <==> key(x) <= key(y);
      InsertSorted(x, Sort(s[1..], cmp), cmp, key);
    }
  }

  /** A comparator that answers 0 for every pair leaves the order untouched. */
  lemma {:induction false} SortNeutral<T>(s: seq<T>, cmp: (T, T) -> real)
    requires forall a, b :: cmp(a, b) == 0.0
    ensures Sort(s, cmp) == s
  {
    if s != [] {
      SortNeutral(s[1..], cmp);
      assert s == [s[0]] + s[1..];
    }
  }
}
