/** `sorted(xs, key=...)` and database ordering by two columns: a stable sort on a pair of integers. */
module Sorting {
  import opened Common

  type Key = (int, int)

  predicate Less(a: Key, b: Key) {
    a.0 < b.0 || (a.0 == b.0 && a.1 < b.1)
  }

  /** Puts x, which came before all of s, in front of the first element that is not smaller. */
  function Insert<T>(x: T, s: seq<T>, key: T -> Key): (r: seq<T>)
    ensures |r| == |s| + 1
  {
    if s == [] || !Less(key(s[0]), key(x)) then [x] + s else [s[0]] + Insert(x, s[1..], key)
  }

  function SortBy<T>(s: seq<T>, key: T -> Key): (r: seq<T>)
    ensures |r| == |s|
  {
    if s == [] then [] else Insert(s[0], SortBy(s[1..], key), key)
  }

  ghost predicate IsSorted<T>(s: seq<T>, key: T -> Key) {
    forall i, j :: 0 <= i < j < |s| ==> !Less(key(s[j]), key(s[i]))
  }

  lemma {:induction false} InsertMembers<T>(x: T, s: seq<T>, key: T -> Key)
    ensures multiset(Insert(x, s, key)) == multiset(s) + multiset{x}
  {
    if s != [] && Less(key(s[0]), key(x)) {
      InsertMembers(x, s[1..], key);
      assert s == [s[0]] + s[1..];
    }
  }

  lemma {:induction false} InsertSorted<T>(x: T, s: seq<T>, key: T -> Key)
    requires IsSorted(s, key)
    ensures IsSorted(Insert(x, s, key), key)
  {
    if s != [] && Less(key(s[0]), key(x)) {
      InsertSorted(x, s[1..], key);
      var r := Insert(x, s[1..], key);
      forall j | 0 <= j < |r|
        ensures !Less(key(r[j]), key(s[0]))
      {
        InsertMembers(x, s[1..], key);
        assert r[j] in multiset(r);
        assert r[j] in s[1..] || r[j] == x;
      }
    } else if s != [] {
      forall j | 0 <= j < |s|
        ensures !Less(key(s[j]), key(x))
      {
        assert j == 0 || !Less(key(s[j]), key(s[0]));
      }
    }
  }

  /** The result is in order and has the same elements, each as often as before. */
  lemma {:induction false} SortBySorts<T>(s: seq<T>, key: T -> Key)
    ensures IsSorted(SortBy(s, key), key)
    ensures multiset(SortBy(s, key)) == multiset(s)
  {
    if s != [] {
      SortBySorts(s[1..], key);
      InsertSorted(s[0], SortBy(s[1..], key), key);
      InsertMembers(s[0], SortBy(s[1..], key), key);
      assert s == [s[0]] + s[1..];
    }
  }

  lemma SortByMembers<T>(s: seq<T>, key: T -> Key)
    ensures forall x :: x in SortBy(s, key) <==> x in s
  {
    SortBySorts(s, key);
    forall x
      ensures x in SortBy(s, key) <==> x in s
    {
      assert x in SortBy(s, key) <==> x in multiset(SortBy(s, key));
      assert x in s <==> x in multiset(s);
    }
  }

  /** The first of the result is one of the elements, and no element is smaller. */
  lemma FirstOfSorted<T>(s: seq<T>, key: T -> Key, i: nat) returns (k: nat)
    requires i < |s|
    ensures k < |s| && SortBy(s, key)[0] == s[k] && !Less(key(s[i]), key(s[k]))
  {
    SortBySorts(s, key);
    var r := SortBy(s, key);
    assert r[0] in multiset(s) && s[i] in multiset(r);
    k :| 0 <= k < |s| && s[k] == r[0];
    var j :| 0 <= j < |r| && r[j] == s[i];
  }

  lemma TwicePresent<T>(s: seq<T>, i: nat, j: nat)
    requires i < j < |s| && s[i] == s[j]
    ensures multiset(s)[s[i]] >= 2
  {
    assert s == s[..i] + [s[i]] + s[i + 1..j] + [s[j]] + s[j + 1..];
  }

  lemma {:induction false} TwoPlaces<T>(s: seq<T>, x: T) returns (i: nat, j: nat)
    requires multiset(s)[x] >= 2
    ensures i < j < |s| && s[i] == s[j] == x
  {
    var n := |s| - 1;
    assert s == s[..n] + [s[n]];
    if s[n] == x {
      assert x in multiset(s[..n]);
      i :| 0 <= i < n && s[i] == x;
      j := n;
    } else {
      i, j := TwoPlaces(s[..n], x);
    }
  }

  function Filter<T(!new)>(s: seq<T>, p: T -> bool): (r: seq<T>)
    ensures |r| <= |s|
    ensures forall x :: x in r <==> x in s && p(x)
  {
    if s == [] then []
    else (if p(s[0]) then [s[0]] else []) + Filter(s[1..], p)
  }

  lemma FilterFirst<T(!new)>(x: T, s: seq<T>, p: T -> bool)
    ensures Filter([x] + s, p) == (if p(x) then [x] else []) + Filter(s, p)
  {
    assert ([x] + s)[1..] == s;
  }

  /** Filtering keeps the order of what it keeps. */
  lemma {:induction false} FilterAppend<T(!new)>(a: seq<T>, b: seq<T>, p: T -> bool)
    ensures Filter(a + b, p) == Filter(a, p) + Filter(b, p)
  {
    assert Filter([], p) == [];
    hide Filter;
    if a == [] {
      assert a + b == b;
      assert [] + Filter(b, p) == Filter(b, p);
    } else {
      var x, rest := a[0], a[1..];
      FilterAppend(rest, b, p);
      assert a == [x] + rest && a + b == [x] + (rest + b);
      FilterFirst(x, rest, p);
      FilterFirst(x, rest + b, p);
      Regroup(if p(x) then [x] else [], Filter(rest, p), Filter(b, p));
    }
  }

  /** The elements with key k, in the order they stand in. */
  function WithKey<T(!new)>(s: seq<T>, key: T -> Key, k: Key): seq<T> {
    Filter(s, x => key(x) == k)
  }

  /** Elements with equal keys keep the order they came in. */
  lemma {:induction false} SortByStable<T(!new)>(s: seq<T>, key: T -> Key, k: Key)
    ensures WithKey(SortBy(s, key), key, k) == WithKey(s, key, k)
  {
    if s != [] {
      SortByStable(s[1..], key, k);
      SortBySorts(s[1..], key);
      InsertStable(s[0], SortBy(s[1..], key), key, k);
    }
  }

  lemma {:induction false} InsertStable<T(!new)>(x: T, s: seq<T>, key: T -> Key, k: Key)
    ensures WithKey(Insert(x, s, key), key, k) == (if key(x) == k then [x] else []) + WithKey(s, key, k)
  {
    if s != [] && Less(key(s[0]), key(x)) {
      InsertStable(x, s[1..], key, k);
      var r := Insert(x, s, key);
      assert r[0] == s[0] && r[1..] == Insert(x, s[1..], key);
    } else {
      var r := Insert(x, s, key);
      assert r[0] == x && r[1..] == s;
    }
  }

  /** Elements with a key can be told in any other way. */
  lemma {:induction false} KeyTold<T(!new)>(s: seq<T>, key: T -> Key, k: Key, p: T -> bool)
    requires forall x :: p(x) <==> key(x) == k
    ensures Filter(s, p) == WithKey(s, key, k)
  {
    if s != [] {
      KeyTold(s[1..], key, k, p);
    }
  }
}
