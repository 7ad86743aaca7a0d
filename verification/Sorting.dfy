/** Go's sort package: a stable sort by a `less` comparison, as sort.SliceStable promises it. */
module Sorting {

  /** What the sort package demands of `less`. */
  ghost predicate StrictWeakOrder<T(!new)>(less: (T, T) -> bool) {
    && (forall a, b :: less(a, b) ==> !less(b, a))
    && (forall a, b, c :: less(a, c) ==> less(a, b) || less(b, c))
  }

  ghost predicate SortedBy<T>(s: seq<T>, less: (T, T) -> bool) {
    forall i, j :: 0 <= i < j < |s| ==> !less(s[j], s[i])
  }

  lemma SortedAt<T>(s: seq<T>, less: (T, T) -> bool, i: nat, j: nat)
    requires SortedBy(s, less) && i < j < |s|
    ensures !less(s[j], s[i])
  {
  }

  function Filter<T>(s: seq<T>, keep: T -> bool): (r: seq<T>)
    ensures forall x :: x in r ==> x in s && keep(x)
    ensures forall x :: x in s && keep(x) ==> x in r
    ensures |r| <= |s|
  {
    if s == [] then []
    else
      var rest := Filter(s[1..], keep);
      assert s == [s[0]] + s[1..];
      if keep(s[0]) then [s[0]] + rest else rest
  }

  function Map<S, T>(s: seq<S>, f: S -> T): (r: seq<T>)
    ensures |r| == |s| && forall i :: 0 <= i < |s| ==> r[i] == f(s[i])
  {
    seq(|s|, i requires 0 <= i < |s| => f(s[i]))
  }

  /** Puts `x` before the first element that is not less than it. */
  function Insert<T>(x: T, s: seq<T>, less: (T, T) -> bool): (r: seq<T>)
    ensures |r| == |s| + 1
    ensures multiset(r) == multiset(s) + multiset{x}
  {
    if s == [] then [x]
    else
      assert s == [s[0]] + s[1..];
      if less(s[0], x) then [s[0]] + Insert(x, s[1..], less) else [x] + s
  }

  function StableSort<T>(s: seq<T>, less: (T, T) -> bool): (r: seq<T>)
    ensures multiset(r) == multiset(s)
    ensures |r| == |s|
  {
    if s == [] then []
    else
      assert s == [s[0]] + s[1..];
      Insert(s[0], StableSort(s[1..], less), less)
  }

  lemma MultisetMembers<T>(s: seq<T>, t: seq<T>)
    requires multiset(s) == multiset(t)
    ensures forall x :: x in s <==> x in t
    ensures |s| == |t|
  {
    assert forall x :: x in s <==> x in multiset(s);
    assert |multiset(s)| == |s|;
  }

  lemma {:induction false} InsertSorts<T(!new)>(x: T, s: seq<T>, less: (T, T) -> bool)
    requires StrictWeakOrder(less) && SortedBy(s, less)
    ensures SortedBy(Insert(x, s, less), less)
  {
    if s != [] && less(s[0], x) {
      InsertSorts(x, s[1..], less);
      var rest := Insert(x, s[1..], less);
      forall y | y in rest
        ensures !less(y, s[0])
      {
        assert y in multiset(rest);
        assert y == x || y in s[1..];
      }
    } else if s != [] {
      forall k | 0 <= k < |s|
        ensures !less(s[k], x)
      {
        assert !less(s[0], x) && (k == 0 || !less(s[k], s[0]));
      }
    }
  }

  /** The result is ascending. */
  lemma {:induction false} StableSortSorts<T(!new)>(s: seq<T>, less: (T, T) -> bool)
    requires StrictWeakOrder(less)
    ensures SortedBy(StableSort(s, less), less)
  {
    if s != [] {
      StableSortSorts(s[1..], less);
      InsertSorts(s[0], StableSort(s[1..], less), less);
    }
  }

  ghost predicate Ties<T(!new)>(keep: T -> bool, less: (T, T) -> bool) {
    forall a, b :: keep(a) && keep(b) ==> !less(a, b)
  }

  lemma {:induction false} FilterAll<T>(s: seq<T>, keep: T -> bool)
    requires forall x :: x in s ==> keep(x)
    ensures Filter(s, keep) == s
  {
    if s != [] {
      FilterAll(s[1..], keep);
      assert s == [s[0]] + s[1..];
    }
  }

  lemma {:induction false} FilterSnoc<T>(s: seq<T>, x: T, keep: T -> bool)
    ensures Filter(s + [x], keep) == Filter(s, keep) + if keep(x) then [x] else []
  {
    if s == [] {
      assert s + [x] == [x] && [x][1..] == [];
    } else {
      FilterSnoc(s[1..], x, keep);
      assert (s + [x])[1..] == s[1..] + [x];
    }
  }

  lemma FilterCons<T>(x: T, s: seq<T>, keep: T -> bool)
    ensures Filter([x] + s, keep) == (if keep(x) then [x] else []) + Filter(s, keep)
  {
    assert ([x] + s)[1..] == s;
  }

  lemma {:induction false} FilterInsert<T(!new)>(x: T, s: seq<T>, less: (T, T) -> bool, keep: T -> bool)
    requires Ties(keep, less)
    ensures Filter(Insert(x, s, less), keep) == (if keep(x) then [x] else []) + Filter(s, keep)
  {
    if s != [] && less(s[0], x) {
      var head, rest := s[0], s[1..];
      FilterInsert(x, rest, less, keep);
      FilterCons(head, Insert(x, rest, less), keep);
      assert s == [head] + rest;
      FilterCons(head, rest, keep);
      var tail := Filter(rest, keep);
      if keep(x) {
        assert !keep(head);
        assert Filter(s, keep) == tail;
      } else {
        assert Filter(Insert(x, rest, less), keep) == tail;
      }
    } else {
      FilterCons(x, s, keep);
    }
  }

  /** Elements none of which is less than another keep their original relative order. */
  lemma {:induction false} StableSortKeepsTies<T(!new)>(s: seq<T>, less: (T, T) -> bool, keep: T -> bool)
    requires Ties(keep, less)
    ensures Filter(StableSort(s, less), keep) == Filter(s, keep)
  {
    if s != [] {
      StableSortKeepsTies(s[1..], less, keep);
      FilterInsert(s[0], StableSort(s[1..], less), less, keep);
    }
  }

  /** Sorting a sorted list changes nothing. */
  lemma {:induction false} StableSortFixpoint<T>(s: seq<T>, less: (T, T) -> bool)
    requires SortedBy(s, less)
    ensures StableSort(s, less) == s
  {
    if |s| > 1 {
      StableSortFixpoint(s[1..], less);
      assert !less(s[1], s[0]);
    }
  }

  /** Two ascending lists of the same elements agree if only equal elements tie. */
  lemma {:induction false} SortedUnique<T(!new)>(s: seq<T>, t: seq<T>, less: (T, T) -> bool)
    requires SortedBy(s, less) && SortedBy(t, less) && multiset(s) == multiset(t)
    requires forall a, b :: a == b || less(a, b) || less(b, a)
    ensures s == t
  {
    MultisetMembers(s, t);
    if s != [] {
      assert s[0] in t && t[0] in s;
      var i: nat :| i < |t| && t[i] == s[0];
      var j: nat :| j < |s| && s[j] == t[0];
      assert s[0] == t[0] by {
        assert i == 0 || !less(s[0], t[0]);
        assert j == 0 || !less(t[0], s[0]);
      }
      SameTails(s, t);
      SortedUnique(s[1..], t[1..], less);
    }
  }

  lemma SameTails<T>(s: seq<T>, t: seq<T>)
    requires s != [] && t != [] && s[0] == t[0] && multiset(s) == multiset(t)
    ensures multiset(s[1..]) == multiset(t[1..])
    ensures s[1..] == t[1..] ==> s == t
  {
    assert s == [s[0]] + s[1..] && t == [t[0]] + t[1..];
    assert multiset(s[1..]) == multiset(s) - multiset{s[0]};
  }

  lemma {:induction false} InsertFiltered<T(!new)>(x: T, s: seq<T>, less: (T, T) -> bool, keep: T -> bool)
    requires StrictWeakOrder(less) && SortedBy(s, less)
    ensures Filter(Insert(x, s, less), keep) == if keep(x) then Insert(x, Filter(s, keep), less) else Filter(s, keep)
  {
    var r := Insert(x, s, less);
    if s != [] && less(s[0], x) {
      InsertFiltered(x, s[1..], less, keep);
      assert r[1..] == Insert(x, s[1..], less);
    } else {
      assert r[0] == x && r[1..] == s;
      var f := Filter(s, keep);
      if s != [] && f != [] {
        assert f[0] in s;
        var i :| 0 <= i < |s| && s[i] == f[0];
        assert i == 0 || !less(s[i], s[0]);
        assert !less(f[0], x);
      }
    }
  }

  /** Sorting and then selecting is selecting and then sorting. */
  lemma {:induction false} StableSortFiltered<T(!new)>(s: seq<T>, less: (T, T) -> bool, keep: T -> bool)
    requires StrictWeakOrder(less)
    ensures Filter(StableSort(s, less), keep) == StableSort(Filter(s, keep), less)
  {
    if s != [] {
      StableSortFiltered(s[1..], less, keep);
      StableSortSorts(s[1..], less);
      InsertFiltered(s[0], StableSort(s[1..], less), less, keep);
    }
  }

  lemma {:induction false} FilterSorted<T>(s: seq<T>, less: (T, T) -> bool, keep: T -> bool)
    requires SortedBy(s, less)
    ensures SortedBy(Filter(s, keep), less)
  {
    if s != [] {
      FilterSorted(s[1..], less, keep);
      var rest := Filter(s[1..], keep);
      forall y | y in rest
        ensures !less(y, s[0])
      {
        assert y in s[1..];
        var i :| 0 <= i < |s[1..]| && s[1..][i] == y;
        assert s[i + 1] == y;
      }
    }
  }

  // ----- lists without repetitions -----

  ghost predicate Distinct<T>(s: seq<T>) {
    forall i, j :: 0 <= i < j < |s| ==> s[i] != s[j]
  }

  lemma {:induction false} DistinctSize<T>(s: seq<T>)
    requires Distinct(s)
    ensures |set x | x in s| == |s|
  {
    if s != [] {
      DistinctSize(s[1..]);
      assert s == [s[0]] + s[1..];
      assert (set x | x in s) == {s[0]} + set x | x in s[1..];
    }
  }

  lemma {:induction false} DistinctPermutation<T>(s: seq<T>, t: seq<T>)
    requires Distinct(s) && multiset(s) == multiset(t)
    ensures Distinct(t)
  {
    forall i, j | 0 <= i < j < |t|
      ensures t[i] != t[j]
    {
      if t[i] == t[j] {
        assert t == t[..i] + [t[i]] + t[i + 1..j] + [t[j]] + t[j + 1..];
        assert multiset(t)[t[i]] >= 2;
        OnceEach(s, t[i]);
      }
    }
  }

  lemma {:induction false} OnceEach<T>(s: seq<T>, x: T)
    requires Distinct(s)
    ensures multiset(s)[x] <= 1
  {
    if s != [] {
      assert s == [s[0]] + s[1..];
      OnceEach(s[1..], x);
    }
  }

  lemma {:induction false} SizeDistinct<T>(s: seq<T>)
    requires |set x | x in s| == |s|
    ensures Distinct(s)
  {
    if s != [] {
      assert s == [s[0]] + s[1..];
      assert (set x | x in s) == {s[0]} + set x | x in s[1..];
      SetSize(s[1..]);
      SizeDistinct(s[1..]);
    }
  }

  lemma {:induction false} SetSize<T>(s: seq<T>)
    ensures |set x | x in s| <= |s|
  {
    if s != [] {
      SetSize(s[1..]);
      assert s == [s[0]] + s[1..];
      assert (set x | x in s) == {s[0]} + set x | x in s[1..];
    }
  }

  /** As many elements, all of them and no others: a rearrangement. */
  lemma SameElements<T(!new)>(s: seq<T>, t: seq<T>)
    requires Distinct(t) && |s| == |t| && forall x :: x in s <==> x in t
    ensures multiset(s) == multiset(t)
  {
    assert (set x | x in s) == set x | x in t;
    DistinctSize(t);
    SizeDistinct(s);
    forall x
      ensures multiset(s)[x] == multiset(t)[x]
    {
      OnceEach(s, x);
      OnceEach(t, x);
      assert x in s <==> x in multiset(s);
      assert x in t <==> x in multiset(t);
    }
  }

  lemma MapCons<S, T>(x: S, s: seq<S>, f: S -> T)
    ensures Map([x] + s, f) == [f(x)] + Map(s, f)
  {
  }

  lemma {:induction false} MapInsert<S, T>(x: S, s: seq<S>, less: (S, S) -> bool, f: S -> T)
    ensures multiset(Map(Insert(x, s, less), f)) == multiset(Map(s, f)) + multiset{f(x)}
  {
    if s != [] && less(s[0], x) {
      MapInsert(x, s[1..], less, f);
      MapCons(s[0], Insert(x, s[1..], less), f);
      MapCons(s[0], s[1..], f);
      assert s == [s[0]] + s[1..];
    } else {
      MapCons(x, s, f);
      assert s == [] ==> [x] + s == [x];
    }
  }

  /** Sorting permutes what can be read off the elements. */
  lemma {:induction false} MapStableSort<S, T>(s: seq<S>, less: (S, S) -> bool, f: S -> T)
    ensures multiset(Map(StableSort(s, less), f)) == multiset(Map(s, f))
  {
    if s != [] {
      MapStableSort(s[1..], less, f);
      MapInsert(s[0], StableSort(s[1..], less), less, f);
      MapCons(s[0], s[1..], f);
      assert s == [s[0]] + s[1..];
    }
  }
}
