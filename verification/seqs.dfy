/** Sequence operations the stores are built from: JavaScript's `Array.prototype.filter`
    and a sort by a string key that, like `Array.prototype.sort`, is stable. */
module Seqs {
  import opened StringOrder

  /** `s` ordered by `key`: every element sorts at or before every later one. */
  ghost predicate SortedBy<T>(s: seq<T>, key: T -> string)
  {
    forall i, j :: 0 <= i < j < |s| ==> LexLe(key(s[i]), key(s[j]))
  }

  /** The elements of `s` that satisfy `p`, in their original order. */
  function Filter<T(!new)>(s: seq<T>, p: T -> bool): (r: seq<T>)
    ensures |r| <= |s|
    ensures forall x :: x in r <==> x in s && p(x)
    ensures forall x :: multiset(r)[x] == if p(x) then multiset(s)[x] else 0
  {
    if |s| == 0 then []
    else
      assert s == [s[0]] + s[1..];
      (if p(s[0]) then [s[0]] else []) + Filter(s[1..], p)
  }

  lemma {:induction false} FilterConcat<T(!new)>(a: seq<T>, b: seq<T>, p: T -> bool)
    ensures Filter(a + b, p) == Filter(a, p) + Filter(b, p)
  {
    if |a| > 0 {
      assert (a + b)[1..] == a[1..] + b;
      FilterConcat(a[1..], b, p);
    } else {
      assert a + b == b;
    }
  }

  /** A sequence whose head sorts before every element of a sorted tail is sorted. */
  lemma SortedCons<T>(x: T, t: seq<T>, key: T -> string)
    requires SortedBy(t, key)
    requires forall y :: y in t ==> LexLe(key(x), key(y))
    ensures SortedBy([x] + t, key)
  {
    var s := [x] + t;
    forall i, j | 0 <= i < j < |s|
      ensures LexLe(key(s[i]), key(s[j]))
    {
      if i == 0 {
        assert s[j] == t[j - 1];
      } else {
        assert s[i] == t[i - 1] && s[j] == t[j - 1];
      }
    }
  }

  /** Filtering keeps a sorted sequence sorted. */
  lemma {:induction false} FilterSorted<T(!new)>(s: seq<T>, p: T -> bool, key: T -> string)
    requires SortedBy(s, key)
    ensures SortedBy(Filter(s, p), key)
  {
    if |s| > 0 {
      var t := s[1..];
      assert SortedBy(t, key) by {
        forall i, j | 0 <= i < j < |t|
          ensures LexLe(key(t[i]), key(t[j]))
        {
          assert t[i] == s[i + 1] && t[j] == s[j + 1];
        }
      }
      FilterSorted(t, p, key);
      if p(s[0]) {
        forall y | y in Filter(t, p)
          ensures LexLe(key(s[0]), key(y))
        {
          var j :| 0 <= j < |t| && t[j] == y;
          assert s[j + 1] == y;
        }
        SortedCons(s[0], Filter(t, p), key);
      }
    }
  }

  /** The head of a sorted sequence sorts at or before each of its elements. */
  lemma HeadIsLeast<T>(s: seq<T>, key: T -> string)
    requires SortedBy(s, key)
    requires |s| > 0
    ensures forall y :: y in s ==> LexLe(key(s[0]), key(y))
  {
    forall y | y in s
      ensures LexLe(key(s[0]), key(y))
    {
      var j :| 0 <= j < |s| && s[j] == y;
      if j == 0 {
        LexLeReflexive(key(y));
      }
    }
  }

  /** Inserts `x` into sorted `s` before the first element it does not sort after,
      so that `x` precedes elements with an equal key. */
  function Insert<T>(x: T, s: seq<T>, key: T -> string): (r: seq<T>)
    requires SortedBy(s, key)
    ensures SortedBy(r, key)
    ensures multiset(r) == multiset(s) + multiset{x}
  {
    if |s| == 0 || LexLe(key(x), key(s[0])) then
      assert forall y :: y in s ==> LexLe(key(x), key(y)) by {
        if |s| > 0 {
          HeadIsLeast(s, key);
          forall y | y in s
            ensures LexLe(key(x), key(y))
          {
            LexLeTransitive(key(x), key(s[0]), key(y));
          }
        }
      }
      SortedCons(x, s, key);
      [x] + s
    else
      var t := s[1..];
      assert s == [s[0]] + t;
      assert SortedBy(t, key) by {
        forall i, j | 0 <= i < j < |t|
          ensures LexLe(key(t[i]), key(t[j]))
        {
          assert t[i] == s[i + 1] && t[j] == s[j + 1];
        }
      }
      var u := Insert(x, t, key);
      assert forall y :: y in u ==> LexLe(key(s[0]), key(y)) by {
        HeadIsLeast(s, key);
        LexLeTotal(key(x), key(s[0]));
        forall y | y in u
          ensures LexLe(key(s[0]), key(y))
        {
          assert y in multiset(u);
          assert y == x || y in t;
        }
      }
      SortedCons(s[0], u, key);
      [s[0]] + u
  }

  /** Insertion sort by `key`: each element is inserted ahead of the equal-keyed
      elements that followed it (see `SortByStable`). */
  function SortBy<T>(s: seq<T>, key: T -> string): (r: seq<T>)
    ensures SortedBy(r, key)
    ensures multiset(r) == multiset(s)
  {
    if |s| == 0 then []
    else
      assert s == [s[0]] + s[1..];
      Insert(s[0], SortBy(s[1..], key), key)
  }

  /** The elements of `s` whose key is `k`, in their original order. */
  function OfKey<T>(s: seq<T>, key: T -> string, k: string): seq<T>
  {
    if |s| == 0 then []
    else (if key(s[0]) == k then [s[0]] else []) + OfKey(s[1..], key, k)
  }

  /** Inserting `x` puts it ahead of every element with the same key. */
  lemma {:induction false} InsertStable<T>(x: T, s: seq<T>, key: T -> string, k: string)
    requires SortedBy(s, key)
    ensures OfKey(Insert(x, s, key), key, k) == (if key(x) == k then [x] else []) + OfKey(s, key, k)
  {
    if |s| == 0 || LexLe(key(x), key(s[0])) {
      var r := Insert(x, s, key);
      assert r == [x] + s;
      assert r[0] == x && r[1..] == s;
    } else {
      var t := s[1..];
      assert SortedBy(t, key) by {
        forall i, j | 0 <= i < j < |t|
          ensures LexLe(key(t[i]), key(t[j]))
        {
          assert t[i] == s[i + 1] && t[j] == s[j + 1];
        }
      }
      var u := Insert(x, t, key);
      var r := Insert(x, s, key);
      assert r == [s[0]] + u;
      assert r[0] == s[0] && r[1..] == u;
      InsertStable(x, t, key, k);
      LexLeReflexive(key(x));
      assert key(x) != key(s[0]);
    }
  }

  /** `SortBy` is stable: the elements with any one key come out in their input order. */
  lemma {:induction false} SortByStable<T>(s: seq<T>, key: T -> string, k: string)
    ensures OfKey(SortBy(s, key), key, k) == OfKey(s, key, k)
  {
    if |s| > 0 {
      InsertStable(s[0], SortBy(s[1..], key), key, k);
      SortByStable(s[1..], key, k);
    }
  }
}
