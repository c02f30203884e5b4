/** Sequence operations of the JavaScript runtime that several components use:
    `filter`, the stable `sort`, and an insertion-ordered `Map`. */
module Sequences {

  datatype Option<+T> = None | Some(value: T)

  function Filter<T>(s: seq<T>, keep: T -> bool): (r: seq<T>)
    ensures |r| <= |s|
    ensures forall x | x in r :: x in s && keep(x)
    ensures forall x | x in s :: keep(x) ==> x in r
  {
    if s == [] then [] else (if keep(s[0]) then [s[0]] else []) + Filter(s[1..], keep)
  }

  lemma FilterCons<T>(x: T, s: seq<T>, keep: T -> bool)
    ensures Filter([x] + s, keep) == if keep(x) then [x] + Filter(s, keep) else Filter(s, keep)
  {
    assert ([x] + s)[1..] == s;
  }

  lemma {:induction false} FilterConcat<T>(a: seq<T>, b: seq<T>, keep: T -> bool)
    ensures Filter(a + b, keep) == Filter(a, keep) + Filter(b, keep)
  {
    if a == [] {
      assert a + b == b;
    } else {
      assert (a + b)[0] == a[0] && (a + b)[1..] == a[1..] + b;
      FilterConcat(a[1..], b, keep);
    }
  }

  /** Two predicates that agree on the elements of `s` filter it alike. */
  lemma {:induction false} FilterAgrees<T>(s: seq<T>, p: T -> bool, q: T -> bool)
    requires forall x :: x in s ==> p(x) == q(x)
    ensures Filter(s, p) == Filter(s, q)
  {
    if s != [] {
      FilterAgrees(s[1..], p, q);
    }
  }

  /** Filtering by a property every element has changes nothing. */
  lemma {:induction false} FilterAll<T>(s: seq<T>, keep: T -> bool)
    requires forall x :: x in s ==> keep(x)
    ensures Filter(s, keep) == s
  {
    if s != [] {
      FilterAll(s[1..], keep);
    }
  }

  /** `Array.prototype.find` */
  function Find<T>(s: seq<T>, want: T -> bool): (r: Option<T>)
    ensures r.None? <==> forall x | x in s :: !want(x)
    ensures r.Some? ==> r.value in s && want(r.value)
  {
    if s == [] then None else if want(s[0]) then Some(s[0]) else Find(s[1..], want)
  }

  /** What is found is the earliest element wanted. */
  lemma {:induction false} FindIsEarliest<T>(s: seq<T>, want: T -> bool) returns (k: nat)
    ensures k <= |s| && forall j :: 0 <= j < k ==> !want(s[j])
    ensures if k == |s| then Find(s, want) == None else want(s[k]) && Find(s, want) == Some(s[k])
  {
    k := 0;
    if s != [] && !want(s[0]) {
      var t := FindIsEarliest(s[1..], want);
      assert forall j :: 1 <= j < |s| ==> s[j] == s[1..][j - 1];
      k := t + 1;
    }
  }

  /** `flatMap`: the lists one after another. */
  function Flatten<T>(lists: seq<seq<T>>): seq<T> {
    if lists == [] then [] else Flatten(lists[..|lists| - 1]) + lists[|lists| - 1]
  }

  lemma FlattenGrows<T>(lists: seq<seq<T>>, list: seq<T>)
    ensures Flatten(lists + [list]) == Flatten(lists) + list
  {
    assert (lists + [list])[..|lists|] == lists;
  }

  lemma FlattenNext<T>(lists: seq<seq<T>>, longer: seq<seq<T>>, list: seq<T>)
    requires |longer| == |lists| + 1 && longer[|lists|] == list
    requires forall i :: 0 <= i < |lists| ==> longer[i] == lists[i]
    ensures Flatten(longer) == Flatten(lists) + list
  {
    assert longer == lists + [list];
    FlattenGrows(lists, list);
  }

  lemma {:induction false} FlattenMeans<T>(lists: seq<seq<T>>, x: T)
    ensures x in Flatten(lists) <==> exists i :: 0 <= i < |lists| && x in lists[i]
  {
    if lists != [] {
      FlattenMeans(lists[..|lists| - 1], x);
    }
  }

  lemma {:induction false} FlattenIsEmptyIff<T>(lists: seq<seq<T>>)
    ensures Flatten(lists) == [] <==> forall i :: 0 <= i < |lists| ==> lists[i] == []
  {
    if lists != [] {
      FlattenIsEmptyIff(lists[..|lists| - 1]);
    }
  }

  lemma Reassociate<T>(a: seq<T>, b: seq<T>, c: seq<T>)
    ensures (a + b) + c == a + (b + c)
  {
  }

  predicate Distinct<T(==)>(s: seq<T>) { forall i, j :: 0 <= i < j < |s| ==> s[i] != s[j] }

  /** No two elements share a key. */
  predicate DistinctBy<T, K(==)>(s: seq<T>, key: T -> K) { forall i, j :: 0 <= i < j < |s| ==> key(s[i]) != key(s[j]) }

  // ---------------------------------------------------------------- stable sort

  /** `less` orders the elements of `s` as a sort comparator must: irreflexive, and
      comparison of two elements is respected by every third one. */
  ghost predicate StrictWeakOrder<T>(s: seq<T>, less: (T, T) -> bool) {
    && (forall a :: a in s ==> !less(a, a))
    && (forall a, b, c {:trigger less(a, c), b in s} ::
          a in s && b in s && c in s && less(a, c) ==> less(a, b) || less(b, c))
    && (forall a, b, c {:trigger less(a, b), less(b, c)} ::
          a in s && b in s && c in s && less(a, b) && less(b, c) ==> less(a, c))
  }

  ghost predicate SortedBy<T>(s: seq<T>, less: (T, T) -> bool) {
    forall i, j :: 0 <= i < j < |s| ==> !less(s[j], s[i])
  }

  function Insert<T>(x: T, s: seq<T>, less: (T, T) -> bool): (r: seq<T>)
    ensures |r| == |s| + 1
    ensures x in r && forall y | y in r :: y == x || y in s
    ensures forall y | y in s :: y in r
  {
    if s == [] || !less(s[0], x) then [x] + s else [s[0]] + Insert(x, s[1..], less)
  }

  /** `Array.prototype.sort`, which is stable: equal elements keep their order. */
  function StableSort<T>(s: seq<T>, less: (T, T) -> bool): (r: seq<T>)
    ensures |r| == |s|
    ensures forall y | y in r :: y in s
    ensures forall y | y in s :: y in r
  {
    if s == [] then [] else Insert(s[0], StableSort(s[1..], less), less)
  }

  lemma {:induction false} InsertPermutes<T>(x: T, s: seq<T>, less: (T, T) -> bool)
    ensures multiset(Insert(x, s, less)) == multiset([x] + s)
  {
    if s != [] && less(s[0], x) {
      InsertPermutes(x, s[1..], less);
      assert s == [s[0]] + s[1..];
    }
  }

  lemma {:induction false} InsertSorted<T>(x: T, s: seq<T>, less: (T, T) -> bool)
    requires StrictWeakOrder([x] + s, less) && SortedBy(s, less)
    ensures SortedBy(Insert(x, s, less), less)
  {
    assert forall y :: y in s ==> y in [x] + s;
    assert x in [x] + s;
    if s != [] {
      var tail := Insert(x, s[1..], less);
      assert forall y :: y in [x] + s[1..] ==> y in [x] + s;
      InsertSorted(x, s[1..], less);
      if less(s[0], x) {
        forall j | 0 <= j < |tail| ensures !less(tail[j], s[0]) {
          assert tail[j] in tail;
          if tail[j] != x {
            var k :| 0 <= k < |s[1..]| && s[1..][k] == tail[j];
            assert s[k + 1] == tail[j];
          }
        }
      } else {
        forall j | 0 <= j < |s| ensures !less(s[j], x) {
          assert s[j] in [x] + s && s[0] in [x] + s;
          if j > 0 {
            assert !less(s[j], s[0]);
          }
        }
      }
    }
  }

  lemma {:induction false} SortPermutes<T>(s: seq<T>, less: (T, T) -> bool)
    ensures multiset(StableSort(s, less)) == multiset(s)
  {
    if s != [] {
      SortPermutes(s[1..], less);
      InsertPermutes(s[0], StableSort(s[1..], less), less);
      assert s == [s[0]] + s[1..];
    }
  }

  lemma {:induction false} SortSorts<T>(s: seq<T>, less: (T, T) -> bool)
    requires StrictWeakOrder(s, less)
    ensures SortedBy(StableSort(s, less), less)
  {
    if s != [] {
      assert forall y :: y in s[1..] ==> y in s;
      SortSorts(s[1..], less);
      var t := StableSort(s[1..], less);
      assert forall y :: y in [s[0]] + t ==> y in s;
      InsertSorted(s[0], t, less);
    }
  }

  /** Inserting does not move the elements of a class that `x` is not in, and puts `x`
      in front of the elements of its own class. */
  lemma {:induction false} InsertStable<T>(x: T, s: seq<T>, less: (T, T) -> bool, tied: T -> bool)
    requires forall y :: y in s && tied(x) && tied(y) ==> !less(y, x)
    ensures Filter(Insert(x, s, less), tied) == Filter([x] + s, tied)
  {
    if s != [] && less(s[0], x) {
      var h, rest := s[0], s[1..];
      var r := Insert(x, rest, less);
      assert s == [h] + rest && Insert(x, s, less) == [h] + r;
      InsertStable(x, rest, less, tied);
      FilterCons(h, r, tied);
      FilterCons(x, s, tied);
      FilterCons(x, rest, tied);
      FilterCons(h, rest, tied);
      assert tied(x) ==> !tied(h);
    }
  }

  /** Stability: within any class of tied elements the sort keeps the input order. */
  lemma {:induction false} SortStable<T>(s: seq<T>, less: (T, T) -> bool, tied: T -> bool)
    requires forall a, b :: a in s && b in s && tied(a) && tied(b) ==> !less(a, b)
    ensures Filter(StableSort(s, less), tied) == Filter(s, tied)
  {
    if s != [] {
      var t := StableSort(s[1..], less);
      SortStable(s[1..], less, tied);
      InsertStable(s[0], t, less, tied);
      assert ([s[0]] + t)[1..] == t;
    }
  }

  /** A comparator that subtracts a numeric key. */
  function By<T>(key: T -> real): (T, T) -> bool { (a: T, b: T) => key(a) < key(b) }

  /** `s[k]` is kept, no kept element has a greater key, and later kept ones have smaller keys. */
  ghost predicate LatestMax<T>(s: seq<T>, keep: T -> bool, key: T -> real, k: nat) {
    && k < |s| && keep(s[k])
    && (forall j :: 0 <= j < |s| && keep(s[j]) ==> key(s[j]) <= key(s[k]))
    && (forall j :: k < j < |s| && keep(s[j]) ==> key(s[j]) < key(s[k]))
  }

  /** The last element of the filtered and sorted list is the latest maximal kept element. */
  lemma {:induction false} SortedFilterLast<T>(s: seq<T>, keep: T -> bool, key: T -> real, k: nat)
    requires LatestMax(s, keep, key, k)
    ensures var r := StableSort(Filter(s, keep), By(key)); |r| > 0 && r[|r| - 1] == s[k]
  {
    if k == 0 {
      LastIsFirst(s, keep, key);
    } else {
      RestHasLatest(s, keep, key, k);
      SortedFilterLast(s[1..], keep, key, k - 1);
      LastIsOfRest(s, keep, By(key), s[k]);
    }
  }

  lemma RestHasLatest<T>(s: seq<T>, keep: T -> bool, key: T -> real, k: nat)
    requires LatestMax(s, keep, key, k) && k > 0
    ensures LatestMax(s[1..], keep, key, k - 1) && s[1..][k - 1] == s[k] && (keep(s[0]) ==> !By(key)(s[k], s[0]))
  {
  }

  lemma LastIsFirst<T>(s: seq<T>, keep: T -> bool, key: T -> real)
    requires LatestMax(s, keep, key, 0)
    ensures var r := StableSort(Filter(s, keep), By(key)); |r| > 0 && r[|r| - 1] == s[0]
  {
    SortFilterHead(s, keep, By(key));
    FirstIsGreater(s, keep, key);
    InsertAtEnd(s[0], StableSort(Filter(s[1..], keep), By(key)), By(key));
  }

  lemma LastIsOfRest<T>(s: seq<T>, keep: T -> bool, less: (T, T) -> bool, last: T)
    requires s != [] && (keep(s[0]) ==> !less(last, s[0]))
    requires var r := StableSort(Filter(s[1..], keep), less); |r| > 0 && r[|r| - 1] == last
    ensures var r := StableSort(Filter(s, keep), less); |r| > 0 && r[|r| - 1] == last
  {
    SortFilterHead(s, keep, less);
    LastStays(s[0], StableSort(Filter(s[1..], keep), less), less, keep(s[0]));
  }

  lemma FirstIsGreater<T>(s: seq<T>, keep: T -> bool, key: T -> real)
    requires LatestMax(s, keep, key, 0)
    ensures forall y :: y in s[1..] && keep(y) ==> By(key)(y, s[0])
  {
    forall y | y in s[1..] && keep(y) ensures By(key)(y, s[0]) {
      var j :| 0 <= j < |s[1..]| && s[1..][j] == y;
      assert s[j + 1] == y;
    }
  }

  lemma LastStays<T>(x: T, r: seq<T>, less: (T, T) -> bool, kept: bool)
    requires r != [] && (kept ==> !less(r[|r| - 1], x))
    ensures var q := if kept then Insert(x, r, less) else r; q != [] && q[|q| - 1] == r[|r| - 1]
  {
    if kept {
      InsertBeforeLast(x, r, less);
    }
  }

  /** Sorting what a filter keeps of a list, one element at a time. */
  lemma SortFilterHead<T>(s: seq<T>, keep: T -> bool, less: (T, T) -> bool)
    requires s != []
    ensures var r := StableSort(Filter(s[1..], keep), less);
      StableSort(Filter(s, keep), less) == if keep(s[0]) then Insert(s[0], r, less) else r
  {
    var f := Filter(s[1..], keep);
    assert Filter(s, keep) == if keep(s[0]) then [s[0]] + f else f;
    assert ([s[0]] + f)[0] == s[0] && ([s[0]] + f)[1..] == f;
  }

  lemma {:induction false} InsertAtEnd<T>(x: T, s: seq<T>, less: (T, T) -> bool)
    requires forall y :: y in s ==> less(y, x)
    ensures Insert(x, s, less) == s + [x]
  {
    if s != [] {
      InsertAtEnd(x, s[1..], less);
    }
  }

  lemma {:induction false} InsertBeforeLast<T>(x: T, s: seq<T>, less: (T, T) -> bool)
    requires s != [] && !less(s[|s| - 1], x)
    ensures Insert(x, s, less)[|s|] == s[|s| - 1]
  {
    if less(s[0], x) {
      InsertBeforeLast(x, s[1..], less);
    }
  }

  // ---------------------------------------------------------------- insertion-ordered Map

  /** JavaScript's `Map`: setting a new key appends it, setting a present key keeps its place. */
  datatype JsMap<V> = JsMap(keys: seq<string>, at: map<string, V>) {
    ghost predicate Valid() {
      && (forall i, j :: 0 <= i < j < |keys| ==> keys[i] != keys[j])
      && (forall k :: k in keys <==> k in at)
    }

    function Get(k: string): Option<V> { if k in at then Some(at[k]) else None }

    function Set(k: string, v: V): (r: JsMap<V>)
      requires Valid()
      ensures r.Valid() && r.at == at[k := v]
      ensures forall j :: r.Get(j) == if j == k then Some(v) else Get(j)
      ensures r.keys == if k in at then keys else keys + [k]
    {
      JsMap(if k in at then keys else keys + [k], at[k := v])
    }

    function Values(): (r: seq<V>)
      requires Valid()
      ensures |r| == |keys| && forall i :: 0 <= i < |keys| ==> r[i] == at[keys[i]]
    {
      seq(|keys|, i requires 0 <= i < |keys| => assert keys[i] in keys; at[keys[i]])
    }
  }
}
