/**
  Stable sorting by a natural-number key, standing for Rust's
  `slice::sort_by_key` (a stable sort). The model sorts by insertion; the
  lemma StableSortUnique shows that a stable sort's output is determined by
  its input, so any stable sort, the library's included, returns the same
  sequence.
*/
module Sorting {

  predicate SortedBy<T>(s: seq<T>, key: T -> nat) {
    forall i, j :: 0 <= i < j < |s| ==> key(s[i]) <= key(s[j])
  }

  /** The elements of `s` whose key is `v`, in their order in `s`. */
  function KeyFilter<T>(s: seq<T>, key: T -> nat, v: nat): seq<T>
  {
    if s == [] then []
    else if key(s[0]) == v then [s[0]] + KeyFilter(s[1..], key, v)
    else KeyFilter(s[1..], key, v)
  }

  /** A sort is stable when it keeps, for every key value, the relative order
      of the elements that have that key. */
  ghost predicate SameTies<T>(r: seq<T>, s: seq<T>, key: T -> nat) {
    forall v :: KeyFilter(r, key, v) == KeyFilter(s, key, v)
  }

  /** Insert `x` before the first element whose key is not smaller. */
  function Insert<T>(x: T, s: seq<T>, key: T -> nat): (r: seq<T>)
    ensures |r| == |s| + 1
    ensures multiset(r) == multiset(s) + multiset{x}
  {
    if s == [] || key(x) <= key(s[0]) then [x] + s
    else
      assert s == [s[0]] + s[1..];
      [s[0]] + Insert(x, s[1..], key)
  }

  /** Every element of Insert(x, s) is x or an element of s, at a key no smaller
      than the least of them. */
  lemma {:induction false} InsertLowerBound<T>(x: T, s: seq<T>, key: T -> nat, lo: nat)
    requires lo <= key(x)
    requires forall i :: 0 <= i < |s| ==> lo <= key(s[i])
    ensures forall i :: 0 <= i < |Insert(x, s, key)| ==> lo <= key(Insert(x, s, key)[i])
  {
    var r := Insert(x, s, key);
    forall i | 0 <= i < |r| ensures lo <= key(r[i]) {
      assert r[i] in multiset(s) + multiset{x};
      if r[i] != x {
        assert r[i] in s;
      }
    }
  }

  /** Inserting into a sorted sequence keeps it sorted. */
  lemma {:induction false} InsertSorted<T>(x: T, s: seq<T>, key: T -> nat)
    requires SortedBy(s, key)
    ensures SortedBy(Insert(x, s, key), key)
  {
    if s != [] && key(x) > key(s[0]) {
      var t := Insert(x, s[1..], key);
      InsertSorted(x, s[1..], key);
      InsertLowerBound(x, s[1..], key, key(s[0]));
      assert Insert(x, s, key) == [s[0]] + t;
    }
  }

  /** Insertion sort: the result is sorted and a permutation of the input. */
  function SortBy<T>(s: seq<T>, key: T -> nat): (r: seq<T>)
    ensures |r| == |s|
    ensures multiset(r) == multiset(s)
    ensures SortedBy(r, key)
  {
    if s == [] then []
    else
      assert s == [s[0]] + s[1..];
      InsertSorted(s[0], SortBy(s[1..], key), key);
      Insert(s[0], SortBy(s[1..], key), key)
  }

  lemma {:induction false} InsertTies<T>(x: T, s: seq<T>, key: T -> nat, v: nat)
    ensures KeyFilter(Insert(x, s, key), key, v)
         == (if key(x) == v then [x] else []) + KeyFilter(s, key, v)
  {
    if s == [] || key(x) <= key(s[0]) {
      assert Insert(x, s, key) == [x] + s;
      assert ([x] + s)[1..] == s;
    } else {
      var t := Insert(x, s[1..], key);
      InsertTies(x, s[1..], key, v);
      assert Insert(x, s, key) == [s[0]] + t;
      assert ([s[0]] + t)[1..] == t;
    }
  }

  /** Insertion sort is stable: equal keys keep their input order. */
  lemma {:induction false} SortByStable<T>(s: seq<T>, key: T -> nat)
    ensures SameTies(SortBy(s, key), s, key)
  {
    if s != [] {
      SortByStable(s[1..], key);
      forall v
        ensures KeyFilter(SortBy(s, key), key, v) == KeyFilter(s, key, v)
      {
        InsertTies(s[0], SortBy(s[1..], key), key, v);
      }
    }
  }

  lemma {:induction false} KeyFilterEmpty<T>(s: seq<T>, key: T -> nat, i: nat)
    requires i < |s|
    ensures KeyFilter(s, key, key(s[i])) != []
  {
    if i > 0 && key(s[0]) != key(s[i]) {
      KeyFilterEmpty(s[1..], key, i - 1);
    }
  }

  lemma {:induction false} KeyFilterMember<T>(s: seq<T>, key: T -> nat, v: nat)
    requires KeyFilter(s, key, v) != []
    ensures exists i :: 0 <= i < |s| && key(s[i]) == v
  {
    if key(s[0]) != v {
      KeyFilterMember(s[1..], key, v);
      var i :| 0 <= i < |s[1..]| && key(s[1..][i]) == v;
      assert key(s[i + 1]) == v;
    }
  }

  /** Two sorted sequences with the same elements in the same tie order are
      equal: a stable sort has exactly one possible output. */
  lemma {:induction false} StableSortUnique<T>(r1: seq<T>, r2: seq<T>, key: T -> nat)
    requires SortedBy(r1, key) && SortedBy(r2, key)
    requires SameTies(r1, r2, key)
    ensures r1 == r2
    decreases |r1|
  {
    if r1 == [] {
      // r2 is empty too: the key of a first element of r2 would have an empty tie class in r1
    } else if r2 == [] {
      KeyFilterEmpty(r1, key, 0);
    } else {
      var a, b := key(r1[0]), key(r2[0]);
      KeyFilterEmpty(r1, key, 0);
      KeyFilterMember(r2, key, a);
      KeyFilterEmpty(r2, key, 0);
      KeyFilterMember(r1, key, b);
      assert a == b;
      assert KeyFilter(r1, key, a)[0] == r1[0];
      assert KeyFilter(r2, key, a)[0] == r2[0];
      forall v
        ensures KeyFilter(r1[1..], key, v) == KeyFilter(r2[1..], key, v)
      {
        if v == a {
          assert KeyFilter(r1[1..], key, v) == KeyFilter(r1, key, v)[1..];
          assert KeyFilter(r2[1..], key, v) == KeyFilter(r2, key, v)[1..];
        } else {
          assert KeyFilter(r1[1..], key, v) == KeyFilter(r1, key, v);
          assert KeyFilter(r2[1..], key, v) == KeyFilter(r2, key, v);
        }
      }
      assert SortedBy(r1[1..], key);
      assert SortedBy(r2[1..], key);
      StableSortUnique(r1[1..], r2[1..], key);
      assert r1 == [r1[0]] + r1[1..];
      assert r2 == [r2[0]] + r2[1..];
    }
  }

  /** Any stable sort of `s` returns exactly SortBy(s). */
  lemma StableSortIsSortBy<T>(s: seq<T>, r: seq<T>, key: T -> nat)
    requires SortedBy(r, key) && SameTies(r, s, key)
    ensures r == SortBy(s, key)
  {
    SortByStable(s, key);
    StableSortUnique(r, SortBy(s, key), key);
  }
}
