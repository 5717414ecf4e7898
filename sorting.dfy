/**
 * A stable sort by an integer-tuple key. The sources sort with
 * JavaScript's `Array.prototype.sort`, Python's `sorted` and Django's
 * `order_by`; every comparator they use compares a tuple of integers
 * lexicographically, so one insertion sort serves all of them.
 */
module Sorting {

  /** Lexicographic order on integer tuples; a shorter prefix comes first. */
  predicate LexLe(a: seq<int>, b: seq<int>)
    decreases |a|
  {
    if |a| == 0 then true
    else if |b| == 0 then false
    else a[0] < b[0] || (a[0] == b[0] && LexLe(a[1..], b[1..]))
  }

  /** On one-element keys the order is the order of the integers. */
  lemma LexLeSingleton(x: int, y: int)
    ensures LexLe([x], [y]) <==> x <= y
  {
    assert [x][1..] == [];
  }

  lemma {:induction false} LexLeTotal(a: seq<int>, b: seq<int>)
    ensures LexLe(a, b) || LexLe(b, a)
    decreases |a|
  {
    if |a| > 0 && |b| > 0 && a[0] == b[0] {
      LexLeTotal(a[1..], b[1..]);
    }
  }

  lemma {:induction false} LexLeTrans(a: seq<int>, b: seq<int>, c: seq<int>)
    requires LexLe(a, b) && LexLe(b, c)
    ensures LexLe(a, c)
    decreases |a|
  {
    if |a| > 0 && |b| > 0 && |c| > 0 && a[0] == b[0] && b[0] == c[0] {
      LexLeTrans(a[1..], b[1..], c[1..]);
    }
  }

  predicate SortedBy<T>(s: seq<T>, key: T -> seq<int>)
  {
    forall i, j :: 0 <= i < j < |s| ==> LexLe(key(s[i]), key(s[j]))
  }

  /** Inserts `x` before the first element whose key is not below it. */
  function Insert<T>(x: T, s: seq<T>, key: T -> seq<int>): (r: seq<T>)
    ensures multiset(r) == multiset(s) + multiset{x}
    ensures |r| == |s| + 1
  {
    if |s| == 0 then [x]
    else if LexLe(key(x), key(s[0])) then [x] + s
    else
      assert s == [s[0]] + s[1..];
      [s[0]] + Insert(x, s[1..], key)
  }

  lemma {:induction false} InsertSorted<T>(x: T, s: seq<T>, key: T -> seq<int>)
    requires SortedBy(s, key)
    ensures SortedBy(Insert(x, s, key), key)
  {
    if |s| > 0 {
      if LexLe(key(x), key(s[0])) {
        forall j | 1 <= j < |s| + 1
          ensures LexLe(key(x), key(([x] + s)[j]))
        {
          if j > 1 {
            LexLeTrans(key(x), key(s[0]), key(s[j - 1]));
          }
        }
      } else {
        LexLeTotal(key(x), key(s[0]));
        InsertSorted(x, s[1..], key);
        var t := Insert(x, s[1..], key);
        assert multiset(t) == multiset(s[1..]) + multiset{x};
        forall j | 0 <= j < |t|
          ensures LexLe(key(s[0]), key(t[j]))
        {
          assert t[j] in multiset(t);
          if t[j] != x {
            assert t[j] in multiset(s[1..]);
            var k :| 0 <= k < |s[1..]| && s[1..][k] == t[j];
            assert s[k + 1] == t[j];
          }
        }
      }
    }
  }

  /** Stable insertion sort on the key. */
  function SortBy<T>(s: seq<T>, key: T -> seq<int>): (r: seq<T>)
    ensures multiset(r) == multiset(s)
    ensures |r| == |s|
  {
    if |s| == 0 then []
    else
      assert s == [s[0]] + s[1..];
      Insert(s[0], SortBy(s[1..], key), key)
  }

  lemma {:induction false} SortBySorted<T>(s: seq<T>, key: T -> seq<int>)
    ensures SortedBy(SortBy(s, key), key)
  {
    if |s| > 0 {
      SortBySorted(s[1..], key);
      InsertSorted(s[0], SortBy(s[1..], key), key);
    }
  }

  lemma {:induction false} LexLeRefl(a: seq<int>)
    ensures LexLe(a, a)
    decreases |a|
  {
    if |a| > 0 {
      LexLeRefl(a[1..]);
    }
  }

  /** The elements of `s` whose key is `k`, in their order in `s`. */
  function KeyRun<T>(s: seq<T>, key: T -> seq<int>, k: seq<int>): (r: seq<T>)
    ensures |r| <= |s|
  {
    if |s| == 0 then []
    else (if key(s[0]) == k then [s[0]] else []) + KeyRun(s[1..], key, k)
  }

  /**
   * Inserting puts `x` ahead of every element with the same key, so among
   * the elements of one key it comes first.
   */
  lemma {:induction false} InsertKeyRun<T>(x: T, s: seq<T>, key: T -> seq<int>, k: seq<int>)
    ensures KeyRun(Insert(x, s, key), key, k) == (if key(x) == k then [x] else []) + KeyRun(s, key, k)
  {
    if |s| > 0 {
      LexLeRefl(key(s[0]));
      if LexLe(key(x), key(s[0])) {
        KeyRunCons(x, s, key, k);
      } else {
        var rest := Insert(x, s[1..], key);
        InsertKeyRun(x, s[1..], key, k);
        KeyRunBehind(x, s, rest, key, k);
      }
    }
  }

  /**
   * `x` placed behind the head of `s`, which has a different key when `x`
   * has key `k`, still comes first among the elements of key `k`.
   */
  lemma KeyRunBehind<T>(x: T, s: seq<T>, rest: seq<T>, key: T -> seq<int>, k: seq<int>)
    requires |s| > 0 && (key(x) == k ==> key(s[0]) != k)
    requires KeyRun(rest, key, k) == (if key(x) == k then [x] else []) + KeyRun(s[1..], key, k)
    ensures KeyRun([s[0]] + rest, key, k) == (if key(x) == k then [x] else []) + KeyRun(s, key, k)
  {
    KeyRunCons(s[0], rest, key, k);
    KeyRunCons(s[0], s[1..], key, k);
    assert [s[0]] + s[1..] == s;
  }

  lemma KeyRunCons<T>(x: T, s: seq<T>, key: T -> seq<int>, k: seq<int>)
    ensures KeyRun([x] + s, key, k) == (if key(x) == k then [x] else []) + KeyRun(s, key, k)
  {
    assert ([x] + s)[1..] == s;
  }

  /**
   * The sort is stable: the elements sharing any one key come out in the
   * order they went in.
   */
  lemma {:induction false} SortByStable<T>(s: seq<T>, key: T -> seq<int>, k: seq<int>)
    ensures KeyRun(SortBy(s, key), key, k) == KeyRun(s, key, k)
  {
    if |s| > 0 {
      SortByStable(s[1..], key, k);
      InsertKeyRun(s[0], SortBy(s[1..], key), key, k);
    }
  }

  /** Sorting keeps exactly the elements it was given. */
  lemma SortByMembers<T>(s: seq<T>, key: T -> seq<int>, x: T)
    ensures x in SortBy(s, key) <==> x in s
  {
    assert x in SortBy(s, key) <==> x in multiset(SortBy(s, key));
    assert x in s <==> x in multiset(s);
  }
}
