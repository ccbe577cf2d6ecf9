/** Python's `sorted(xs, key=..., reverse=...)` on string keys: a stable sort, modelled as an insertion sort. */
module Sorting {
  import opened Util
  import opened Strings

  /** `ka` may stand before `kb` in the output: ascending or, with `descending`, descending string order. */
  predicate Le(ka: string, kb: string, descending: bool)
  {
    if descending then LexLe(kb, ka) else LexLe(ka, kb)
  }

  predicate Sorted<T>(s: seq<T>, key: T -> string, descending: bool)
  {
    forall i, j :: 0 <= i < j < |s| ==> Le(key(s[i]), key(s[j]), descending)
  }

  /** Inserts `x` in front of the first element that does not come strictly before it. */
  function Insert<T>(x: T, s: seq<T>, key: T -> string, descending: bool): (r: seq<T>)
    ensures |r| == |s| + 1
  {
    if s == [] then [x]
    else if !Le(key(x), key(s[0]), descending) then [s[0]] + Insert(x, s[1..], key, descending)
    else [x] + s
  }

  function SortBy<T>(s: seq<T>, key: T -> string, descending: bool): (r: seq<T>)
    ensures |r| == |s|
  {
    if s == [] then [] else Insert(s[0], SortBy(s[1..], key, descending), key, descending)
  }

  function KeyIs<T>(key: T -> string, k: string): T -> bool
  {
    y => key(y) == k
  }

  lemma LeReflexive(a: string, descending: bool)
    ensures Le(a, a, descending)
  {
    LexLeTotal(a, a);
  }

  lemma LeTotal(a: string, b: string, descending: bool)
    ensures Le(a, b, descending) || Le(b, a, descending)
  {
    LexLeTotal(a, b);
  }

  lemma LeTransitive(a: string, b: string, c: string, descending: bool)
    requires Le(a, b, descending) && Le(b, c, descending)
    ensures Le(a, c, descending)
  {
    if descending { LexLeTransitive(c, b, a); } else { LexLeTransitive(a, b, c); }
  }

  lemma {:induction false} InsertElements<T>(x: T, s: seq<T>, key: T -> string, descending: bool)
    ensures multiset(Insert(x, s, key, descending)) == multiset(s) + multiset{x}
  {
    if s != [] && !Le(key(x), key(s[0]), descending) {
      var rest := Insert(x, s[1..], key, descending);
      InsertElements(x, s[1..], key, descending);
      assert Insert(x, s, key, descending) == [s[0]] + rest;
      assert multiset([s[0]] + rest) == multiset{s[0]} + multiset(rest);
      assert s == [s[0]] + s[1..];
      assert multiset(s) == multiset{s[0]} + multiset(s[1..]);
    }
  }

  /** A key that may stand before `x` and before every element of `s` may stand before every element
      of the insertion. */
  lemma InsertKeepsBound<T>(x: T, s: seq<T>, key: T -> string, descending: bool, b: string)
    requires Le(b, key(x), descending) && forall m :: 0 <= m < |s| ==> Le(b, key(s[m]), descending)
    ensures forall j :: 0 <= j < |Insert(x, s, key, descending)| ==> Le(b, key(Insert(x, s, key, descending)[j]), descending)
  {
    var r := Insert(x, s, key, descending);
    InsertElements(x, s, key, descending);
    forall j | 0 <= j < |r| ensures Le(b, key(r[j]), descending) {
      assert r[j] in multiset(r);
      if r[j] != x {
        assert r[j] in multiset(s);
        var m :| 0 <= m < |s| && s[m] == r[j];
      }
    }
  }

  lemma {:induction false} InsertSorted<T>(x: T, s: seq<T>, key: T -> string, descending: bool)
    requires Sorted(s, key, descending)
    ensures Sorted(Insert(x, s, key, descending), key, descending)
  {
    var r := Insert(x, s, key, descending);
    if s == [] {
    } else if !Le(key(x), key(s[0]), descending) {
      var t := s[1..];
      assert Sorted(t, key, descending) by {
        forall i, j | 0 <= i < j < |t| ensures Le(key(t[i]), key(t[j]), descending) {
          assert t[i] == s[i + 1] && t[j] == s[j + 1];
        }
      }
      InsertSorted(x, t, key, descending);
      var rest := Insert(x, t, key, descending);
      LeTotal(key(x), key(s[0]), descending);
      assert forall m :: 0 <= m < |t| ==> t[m] == s[m + 1];
      assert Le(key(s[0]), key(x), descending);
      InsertKeepsBound(x, t, key, descending, key(s[0]));
      assert forall m :: 0 <= m < |rest| ==> Le(key(s[0]), key(rest[m]), descending);
      assert r == [s[0]] + rest;
      forall i, j | 0 <= i < j < |r| ensures Le(key(r[i]), key(r[j]), descending) {
        assert r[j] == rest[j - 1];
        if i > 0 {
          assert r[i] == rest[i - 1];
          assert Le(key(rest[i - 1]), key(rest[j - 1]), descending);
        } else {
          assert r[i] == s[0];
          assert Le(key(s[0]), key(rest[j - 1]), descending);
        }
      }
    } else {
      forall j | 0 <= j < |s| ensures Le(key(x), key(s[j]), descending) {
        if j > 0 {
          LeTransitive(key(x), key(s[0]), key(s[j]), descending);
        }
      }
      assert r == [x] + s;
    }
  }

  /** The output is ordered by key. */
  lemma {:induction false} SortBySorted<T>(s: seq<T>, key: T -> string, descending: bool)
    ensures Sorted(SortBy(s, key, descending), key, descending)
  {
    if s != [] {
      SortBySorted(s[1..], key, descending);
      InsertSorted(s[0], SortBy(s[1..], key, descending), key, descending);
    }
  }

  /** The output is a permutation of the input. */
  lemma {:induction false} SortByPermutation<T>(s: seq<T>, key: T -> string, descending: bool)
    ensures multiset(SortBy(s, key, descending)) == multiset(s)
  {
    if s != [] {
      SortByPermutation(s[1..], key, descending);
      InsertElements(s[0], SortBy(s[1..], key, descending), key, descending);
      assert s == [s[0]] + s[1..];
    }
  }

  lemma {:induction false} InsertStable<T>(x: T, s: seq<T>, key: T -> string, descending: bool, k: string)
    ensures Filter(Insert(x, s, key, descending), KeyIs(key, k))
         == (if key(x) == k then [x] else []) + Filter(s, KeyIs(key, k))
  {
    var p := KeyIs(key, k);
    if s == [] {
    } else if !Le(key(x), key(s[0]), descending) {
      LeReflexive(key(x), descending);
      assert key(s[0]) != key(x);
      InsertStable(x, s[1..], key, descending, k);
      var rest := Insert(x, s[1..], key, descending);
      var r := Insert(x, s, key, descending);
      assert r == [s[0]] + rest;
      assert r[0] == s[0] && r[1..] == rest;
      if p(s[0]) {
        assert key(x) != k;
        assert Filter(r, p) == [s[0]] + Filter(rest, p);
      } else {
        assert Filter(r, p) == Filter(rest, p);
      }
    } else {
      FilterAppend([x], s, p);
    }
  }

  /** Stability: the elements sharing a key keep their original relative order. */
  lemma {:induction false} SortByStable<T>(s: seq<T>, key: T -> string, descending: bool, k: string)
    ensures Filter(SortBy(s, key, descending), KeyIs(key, k)) == Filter(s, KeyIs(key, k))
  {
    if s != [] {
      SortByStable(s[1..], key, descending, k);
      InsertStable(s[0], SortBy(s[1..], key, descending), key, descending, k);
      FilterAppend([s[0]], s[1..], KeyIs(key, k));
      assert s == [s[0]] + s[1..];
    }
  }

  lemma SortByStableAll<T>(s: seq<T>, key: T -> string, descending: bool)
    ensures forall k :: Filter(SortBy(s, key, descending), KeyIs(key, k)) == Filter(s, KeyIs(key, k))
  {
    forall k ensures Filter(SortBy(s, key, descending), KeyIs(key, k)) == Filter(s, KeyIs(key, k)) {
      SortByStable(s, key, descending, k);
    }
  }

  /** Sorting neither adds nor loses an element. */
  lemma SortByMembers<T>(s: seq<T>, key: T -> string, descending: bool)
    ensures forall x :: x in SortBy(s, key, descending) <==> x in s
  {
    SortByPermutation(s, key, descending);
    forall x ensures x in SortBy(s, key, descending) <==> x in s {
      assert x in SortBy(s, key, descending) <==> x in multiset(SortBy(s, key, descending));
      assert x in s <==> x in multiset(s);
    }
  }
}
