/** pulp/versions.go: which package versions to delete so that the newest minor versions remain. */
module Retention {
  import Sorting
  import opened Decimals
  import opened Semver

  const TWO_63 := 0x8000_0000_0000_0000
  type Uint = n: int | 0 <= n < 0x1_0000_0000_0000_0000

  predicate HasPrefix(s: string) {
    s != "" && s[0] == 'v'
  }

  function AddPrefix(s: string): string {
    if HasPrefix(s) then s else ['v'] + s
  }

  function RemovePrefix(s: string): string {
    if HasPrefix(s) then s[1..] else s
  }

  function Strip(s: string): (t: string)
    ensures AddPrefix(s) == ['v'] + t
  {
    RemovePrefix(AddPrefix(s))
  }

  method Transform(slice: seq<string>, fn: string -> string) returns (ret: seq<string>)
    ensures ret == Sorting.Map(slice, fn)
  {
    ret := [];
    for i := 0 to |slice|
      invariant ret == Sorting.Map(slice[..i], fn)
    {
      ret := ret + [fn(slice[i])];
    }
    assert slice[..|slice|] == slice;
  }

  /** The elements of a slice once each, in any order: Go iterates a map in any order. */
  method Unique(slice: seq<string>) returns (ret: seq<string>)
    ensures Sorting.Distinct(ret)
    ensures forall x :: x in ret <==> x in slice
  {
    var elements := {};
    for i := 0 to |slice|
      invariant forall x :: x in elements <==> x in slice[..i]
    {
      elements := elements + {slice[i]};
    }
    ret := [];
    ghost var all := elements;
    while elements != {}
      invariant Sorting.Distinct(ret)
      invariant forall x :: x in all <==> x in ret || x in elements
      invariant forall x :: x in ret ==> x !in elements
      decreases elements
    {
      var x :| x in elements;
      ret := ret + [x];
      elements := elements - {x};
    }
  }

  /** The conversion int(count) of an unsigned 64-bit number. */
  function ToInt(count: Uint): int {
    if count < TWO_63 then count else count - 2 * TWO_63
  }

  /** The last `count` elements; none at all once int(count) is negative. */
  method Last(slice: seq<string>, count: Uint) returns (ret: seq<string>)
    ensures count < TWO_63 ==>
            forall x :: x in ret <==> exists i :: 0 <= i < |slice| && |slice| - i <= count && slice[i] == x
    ensures count >= TWO_63 ==> ret == []
  {
    if |slice| == 0 || count == 0 {
      return [];
    }
    if ToInt(count) > |slice| {
      return slice;
    }
    ret := [];
    var i := 0;
    while i < ToInt(count)
      invariant 0 <= i && (ToInt(count) < 0 ==> i == 0) && (ToInt(count) >= 0 ==> i <= ToInt(count) <= |slice|)
      invariant |ret| == i && forall k :: 0 <= k < i ==> ret[k] == slice[|slice| - 1 - k]
    {
      ret := ret + [slice[|slice| - 1 - i]];
      i := i + 1;
    }
    if 0 <= ToInt(count) {
      forall x | exists j :: 0 <= j < |slice| && |slice| - j <= count && slice[j] == x
        ensures x in ret
      {
        var j :| 0 <= j < |slice| && |slice| - j <= count && slice[j] == x;
        assert ret[|slice| - 1 - j] == x;
      }
    }
  }

  /** internal/filter.go */
  method Filter(s: seq<string>, keep: string -> bool) returns (ss: seq<string>)
    ensures ss == Sorting.Filter(s, keep)
  {
    ss := [];
    for i := 0 to |s|
      invariant ss == Sorting.Filter(s[..i], keep)
    {
      Sorting.FilterSnoc(s[..i], s[i], keep);
      assert s[..i + 1] == s[..i] + [s[i]];
      if keep(s[i]) {
        ss := ss + [s[i]];
      }
    }
    assert s[..|s|] == s;
  }

  /** The distinct (major, minor) pairs of the valid versions in a list. */
  ghost function Pairs(versions: seq<string>, tailOk: string -> bool): set<Pair> {
    set s | s in versions && Valid(AddPrefix(s), tailOk) :: PairOf(AddPrefix(s), tailOk)
  }

  ghost function Newer(pairs: set<Pair>, p: Pair): set<Pair> {
    set q | q in pairs && After(q, p)
  }

  /** A valid version that names its minor number. */
  predicate NamesMinor(s: string, tailOk: string -> bool) {
    Valid(AddPrefix(s), tailOk) && !MajorOnly(AddPrefix(s), tailOk)
  }

  /** `x` is the MajorMinor name of one of the versions; invalid ones are all named "". */
  ghost predicate NameOf(x: string, versions: seq<string>, tailOk: string -> bool) {
    exists s :: s in versions && x == MajorMinor(AddPrefix(s), tailOk)
  }

  lemma NameShape(x: string, versions: seq<string>, tailOk: string -> bool)
    requires NameOf(x, versions, tailOk)
    ensures x == "" <==> !Valid(x, tailOk)
    ensures x != "" ==> x == MajorMinor(x, tailOk) && PairOf(x, tailOk) in Pairs(versions, tailOk)
    ensures x != "" ==> KeyOf(x, tailOk).patch == 0
  {
    var s :| s in versions && x == MajorMinor(AddPrefix(s), tailOk);
    if Valid(AddPrefix(s), tailOk) {
      ParseMajorMinor(AddPrefix(s), tailOk);
      assert PairOf(x, tailOk) == PairOf(AddPrefix(s), tailOk);
    }
  }

  function ByPair(tailOk: string -> bool): string -> Pair {
    x => PairOf(x, tailOk)
  }

  /** Names, oldest first: only the first may be "", and each pair is newer than those before. */
  ghost predicate Ladder(names: seq<string>, pair: string -> Pair) {
    forall i, j :: 0 <= i < j < |names| ==> Rung(names, pair, i, j)
  }

  ghost predicate Rung(names: seq<string>, pair: string -> Pair, i: nat, j: nat)
    requires i < j < |names|
  {
    names[j] != "" && (names[i] != "" ==> After(pair(names[j]), pair(names[i])))
  }

  ghost function NamedPairs(names: seq<string>, pair: string -> Pair): set<Pair> {
    set x | x in names && x != "" :: pair(x)
  }

  /** The number of newer minor versions is the number of names further up the list. */
  lemma LadderRank(names: seq<string>, pair: string -> Pair, j: nat)
    requires Ladder(names, pair) && j < |names| && names[j] != ""
    ensures |Newer(NamedPairs(names, pair), pair(names[j]))| == |names| - 1 - j
  {
    var above := Sorting.Map(names[j + 1..], pair);
    forall a, b | 0 <= a < b < |above|
      ensures above[a] != above[b]
    {
      assert Rung(names, pair, j, j + 1 + a) && Rung(names, pair, j + 1 + a, j + 1 + b);
    }
    Sorting.DistinctSize(above);
    var newer := Newer(NamedPairs(names, pair), pair(names[j]));
    forall q | q in above
      ensures q in newer
    {
      var a :| 0 <= a < |above| && above[a] == q;
      assert names[j + 1 + a] in names && Rung(names, pair, j, j + 1 + a);
    }
    forall q | q in newer
      ensures q in above
    {
      var x :| x in names && x != "" && pair(x) == q;
      var i :| 0 <= i < |names| && names[i] == x;
      assert i < j ==> Rung(names, pair, i, j);
      assert above[i - j - 1] == q;
    }
    assert newer == set q | q in above;
  }

  lemma Above(names: seq<string>, pair: string -> Pair, i: nat, j: nat)
    requires Ladder(names, pair) && i < j < |names|
    ensures Rung(names, pair, i, j)
  {
  }

  lemma NotAbove(names: seq<string>, pair: string -> Pair, i: nat, j: nat)
    requires Ladder(names, pair) && i < |names| && j < |names| && names[j] != ""
    requires names[i] == "" || names[i] == names[j] || After(pair(names[j]), pair(names[i]))
    ensures i <= j
  {
    if j < i {
      Above(names, pair, j, i);
    }
  }

  /** If a prefix is never newer than the name of `v`, the prefix test against the newest `count` names
      decides by the rank of that name. */
  lemma PrefixTestRanks(names: seq<string>, pair: string -> Pair, count: nat, toKeep: seq<string>, v: string, x: string)
    requires Ladder(names, pair) && x in names && x != "" && x <= v
    requires forall k :: k in names && k != "" && k <= v ==> k == x || After(pair(x), pair(k))
    requires forall k :: k in toKeep <==> exists i :: 0 <= i < |names| && |names| - i <= count && names[i] == k
    ensures (exists k :: k in toKeep && k <= v) <==> |Newer(NamedPairs(names, pair), pair(x))| < count
  {
    var j :| 0 <= j < |names| && names[j] == x;
    LadderRank(names, pair, j);
    if k :| k in toKeep && k <= v {
      var i :| 0 <= i < |names| && |names| - i <= count && names[i] == k;
      NotAbove(names, pair, i, j);
    }
    if |names| - j <= count {
      assert x in toKeep;
    }
  }

  /** `names` are the distinct MajorMinor names of the versions, oldest first. */
  ghost predicate NamesOf(names: seq<string>, versions: seq<string>, tailOk: string -> bool) {
    && Ladder(names, ByPair(tailOk))
    && (forall s :: s in versions ==> MajorMinor(AddPrefix(s), tailOk) in names)
    && (forall x :: x in names ==> NameOf(x, versions, tailOk))
  }

  lemma SamePairs(names: seq<string>, versions: seq<string>, tailOk: string -> bool)
    requires NamesOf(names, versions, tailOk)
    ensures NamedPairs(names, ByPair(tailOk)) == Pairs(versions, tailOk)
  {
    var named := NamedPairs(names, ByPair(tailOk));
    forall q | q in named
      ensures q in Pairs(versions, tailOk)
    {
      var x :| x in names && x != "" && PairOf(x, tailOk) == q;
      NameShape(x, versions, tailOk);
    }
    forall q | q in Pairs(versions, tailOk)
      ensures q in named
    {
      var s :| s in versions && Valid(AddPrefix(s), tailOk) && PairOf(AddPrefix(s), tailOk) == q;
      NamesPair(AddPrefix(s), tailOk);
    }
  }

  lemma NamesPair(v: string, tailOk: string -> bool)
    requires Valid(v, tailOk)
    ensures MajorMinor(v, tailOk) != "" && PairOf(MajorMinor(v, tailOk), tailOk) == PairOf(v, tailOk)
  {
    ParseMajorMinor(v, tailOk);
  }

  /** The string prefix test against the newest `count` names decides by the numeric rank of the minor
      version, although "v3.1" is a prefix of "v3.10.0". */
  lemma PrefixTestIsExact(versions: seq<string>, count: nat, tailOk: string -> bool, names: seq<string>,
                          toKeep: seq<string>, s: string)
    requires NamesOf(names, versions, tailOk) && s in versions && NamesMinor(s, tailOk)
    requires forall x :: x in toKeep <==> exists i :: 0 <= i < |names| && |names| - i <= count && names[i] == x
    ensures (exists k :: k in toKeep && k <= AddPrefix(s)) <==>
            |Newer(Pairs(versions, tailOk), PairOf(AddPrefix(s), tailOk))| < count
  {
    var v, pair := AddPrefix(s), ByPair(tailOk);
    var x := MajorMinor(v, tailOk);
    NamesPair(v, tailOk);
    MajorMinorIsPrefix(v, tailOk);
    SamePairs(names, versions, tailOk);
    forall k | k in names && k != "" && k <= v
      ensures k == x || After(pair(x), pair(k))
    {
      NameShape(k, versions, tailOk);
      PrefixNeverNewer(k, v, tailOk);
    }
    PrefixTestRanks(names, pair, count, toKeep, v, x);
  }

  lemma StepUp(v: string, w: string, versions: seq<string>, tailOk: string -> bool)
    requires NameOf(v, versions, tailOk) && NameOf(w, versions, tailOk)
    requires v != w && !Earlier(w, v, tailOk)
    ensures w != ""
    ensures v != "" ==> After(PairOf(w, tailOk), PairOf(v, tailOk))
  {
    NameShape(v, versions, tailOk);
    NameShape(w, versions, tailOk);
    if v != "" && w != "" && PairOf(v, tailOk) == PairOf(w, tailOk) {
      SamePairSameName(v, w, tailOk);
    }
  }

  lemma {:induction false} FilterCounts(s: seq<string>, keep: string -> bool, x: string)
    ensures multiset(Sorting.Filter(s, keep))[x] == if keep(x) then multiset(s)[x] else 0
  {
    if s != [] {
      assert s == [s[0]] + s[1..];
      FilterCounts(s[1..], keep, x);
    }
  }

  lemma {:induction false} MapCounts(s: seq<string>, f: string -> string, x: string)
    requires forall y :: y in s && f(y) == f(x) ==> y == x
    ensures multiset(Sorting.Map(s, f))[f(x)] == multiset(s)[x]
  {
    if s != [] {
      assert s == [s[0]] + s[1..];
      assert Sorting.Map(s, f) == [f(s[0])] + Sorting.Map(s[1..], f);
      MapCounts(s[1..], f, x);
    }
  }

  lemma MapMembers<S, T>(s: seq<S>, f: S -> T)
    ensures forall x :: x in s ==> f(x) in Sorting.Map(s, f)
    ensures forall y :: y in Sorting.Map(s, f) ==> exists x :: x in s && f(x) == y
  {
    forall x | x in s
      ensures f(x) in Sorting.Map(s, f)
    {
      var i :| 0 <= i < |s| && s[i] == x;
      assert Sorting.Map(s, f)[i] == f(x);
    }
    forall y | y in Sorting.Map(s, f)
      ensures exists x :: x in s && f(x) == y
    {
      var i :| 0 <= i < |s| && Sorting.Map(s, f)[i] == y;
      assert s[i] in s;
    }
  }

  /** Copies of a string share its fate. */
  lemma CopiesTogether(versions: seq<string>, vs: seq<string>, drop: string -> bool, s: string)
    requires multiset(vs) == multiset(Sorting.Map(versions, AddPrefix)) && s in versions
    ensures multiset(Sorting.Map(Sorting.Filter(vs, drop), RemovePrefix))[Strip(s)] ==
            if drop(AddPrefix(s)) then multiset(Sorting.Map(versions, Strip))[Strip(s)] else 0
    ensures Strip(s) in Sorting.Map(Sorting.Filter(vs, drop), RemovePrefix) <==> drop(AddPrefix(s))
  {
    var prefixed, toDelete := Sorting.Map(versions, AddPrefix), Sorting.Filter(vs, drop);
    Sorting.MultisetMembers(vs, prefixed);
    MapMembers(versions, AddPrefix);
    MapMembers(toDelete, RemovePrefix);
    forall v | v in prefixed && RemovePrefix(v) == Strip(s)
      ensures v == AddPrefix(s)
    {
      var t :| t in versions && AddPrefix(t) == v;
      assert RemovePrefix(v) == Strip(t);
    }
    MapCounts(toDelete, RemovePrefix, AddPrefix(s));
    FilterCounts(vs, drop, AddPrefix(s));
    MapCounts(prefixed, RemovePrefix, AddPrefix(s));
    assert Sorting.Map(prefixed, RemovePrefix) == Sorting.Map(versions, Strip);
  }

  /** Deduplicated and reordered, the names are still the names of exactly the given versions. */
  lemma NamesCovered(versions: seq<string>, vs: seq<string>, add: string -> string, name: string -> string,
                     names: seq<string>)
    requires multiset(vs) == multiset(Sorting.Map(versions, add))
    requires forall x :: x in names <==> x in Sorting.Map(vs, name)
    ensures forall s :: s in versions ==> name(add(s)) in names
    ensures forall x :: x in names ==> exists s :: s in versions && x == name(add(s))
  {
    Sorting.MultisetMembers(vs, Sorting.Map(versions, add));
    MapMembers(versions, add);
    MapMembers(vs, name);
    forall x | x in names
      ensures exists s :: s in versions && x == name(add(s))
    {
      var v :| v in vs && name(v) == x;
      var s :| s in versions && add(s) == v;
    }
  }

  lemma SortedNames(versions: seq<string>, unsorted: seq<string>, tailOk: string -> bool)
    requires Sorting.Distinct(unsorted) && forall x :: x in unsorted ==> NameOf(x, versions, tailOk)
    ensures Ladder(Sort(unsorted, tailOk), ByPair(tailOk))
  {
    var names := Sort(unsorted, tailOk);
    Sorting.MultisetMembers(names, unsorted);
    EarlierIsOrder(tailOk);
    Sorting.StableSortSorts(unsorted, ByAge(tailOk));
    Sorting.DistinctPermutation(unsorted, names);
    LadderOf(names, versions, tailOk);
  }

  /** Distinct names in order of age form a ladder. */
  lemma LadderOf(names: seq<string>, versions: seq<string>, tailOk: string -> bool)
    requires Sorting.Distinct(names) && Sorting.SortedBy(names, ByAge(tailOk))
    requires forall x :: x in names ==> NameOf(x, versions, tailOk)
    ensures Ladder(names, ByPair(tailOk))
  {
    forall i, j | 0 <= i < j < |names|
      ensures Rung(names, ByPair(tailOk), i, j)
    {
      Sorting.SortedAt(names, ByAge(tailOk), i, j);
      assert names[i] in names && names[j] in names;
      StepUp(names[i], names[j], versions, tailOk);
    }
  }

  function Dropped(toKeep: seq<string>): string -> bool {
    v => !exists k | k in toKeep :: k <= v
  }

  /** Some version is invalid, so that "" is among the names. */
  ghost predicate SomeInvalid(versions: seq<string>, tailOk: string -> bool) {
    exists s :: s in versions && !Valid(AddPrefix(s), tailOk)
  }

  /** No name is a prefix of a version that consists of its major number, but "" is one of every version: such a
      version stays only if "" is among the names and all names are kept. */
  ghost predicate MustGo(s: string, versions: seq<string>, count: Uint, tailOk: string -> bool) {
    || count >= TWO_63
    || if MajorOnly(AddPrefix(s), tailOk) then !SomeInvalid(versions, tailOk) || |Pairs(versions, tailOk)| >= count
       else |Newer(Pairs(versions, tailOk), PairOf(AddPrefix(s), tailOk))| >= count
  }

  /** Names that start with "" are one more than their pairs. */
  lemma LadderSize(names: seq<string>, pair: string -> Pair)
    requires Ladder(names, pair) && names != [] && names[0] == ""
    ensures |NamedPairs(names, pair)| == |names| - 1
  {
    var named, rest := NamedPairs(names, pair), Sorting.Map(names[1..], pair);
    forall a, b | 0 <= a < b < |rest|
      ensures rest[a] != rest[b]
    {
      assert Rung(names, pair, 0, 1 + a) && Rung(names, pair, 1 + a, 1 + b);
    }
    Sorting.DistinctSize(rest);
    forall q | q in rest
      ensures q in named
    {
      var a :| 0 <= a < |rest| && rest[a] == q;
      assert names[1 + a] in names && Rung(names, pair, 0, 1 + a);
    }
    forall q | q in named
      ensures q in rest
    {
      var x :| x in names && x != "" && pair(x) == q;
      var i :| 0 <= i < |names| && names[i] == x;
      assert rest[i - 1] == q;
    }
    assert named == set q | q in rest;
  }

  lemma EmptyNameKeptIff(versions: seq<string>, count: nat, tailOk: string -> bool, names: seq<string>,
                         toKeep: seq<string>)
    requires NamesOf(names, versions, tailOk)
    requires forall x :: x in toKeep <==> exists i :: 0 <= i < |names| && |names| - i <= count && names[i] == x
    ensures "" in toKeep <==> SomeInvalid(versions, tailOk) && |Pairs(versions, tailOk)| < count
  {
    SamePairs(names, versions, tailOk);
    EmptyNameIff(names, versions, tailOk);
    if "" in names {
      EmptyFirst(names, ByPair(tailOk));
      LadderSize(names, ByPair(tailOk));
    }
  }

  lemma EmptyFirst(names: seq<string>, pair: string -> Pair)
    requires Ladder(names, pair) && "" in names
    ensures names[0] == "" && forall n :: 0 < n < |names| ==> names[n] != ""
  {
    forall n | 0 < n < |names|
      ensures names[n] != ""
    {
      Above(names, pair, 0, n);
    }
  }

  lemma EmptyNameIff(names: seq<string>, versions: seq<string>, tailOk: string -> bool)
    requires NamesOf(names, versions, tailOk)
    ensures "" in names <==> SomeInvalid(versions, tailOk)
  {
    if SomeInvalid(versions, tailOk) {
      var s :| s in versions && !Valid(AddPrefix(s), tailOk);
      assert MajorMinor(AddPrefix(s), tailOk) == "";
    }
    if "" in names {
      NameOfInvalid(versions, tailOk);
    }
  }

  lemma NameOfInvalid(versions: seq<string>, tailOk: string -> bool)
    requires NameOf("", versions, tailOk)
    ensures SomeInvalid(versions, tailOk)
  {
    var s :| s in versions && "" == MajorMinor(AddPrefix(s), tailOk);
    if Valid(AddPrefix(s), tailOk) {
      NamesPair(AddPrefix(s), tailOk);
    }
  }

  /** For a version that consists of its major number only "" can pass the prefix test. */
  lemma MajorOnlyTest(versions: seq<string>, count: nat, tailOk: string -> bool, names: seq<string>,
                      toKeep: seq<string>, s: string)
    requires NamesOf(names, versions, tailOk) && s in versions && MajorOnly(AddPrefix(s), tailOk)
    requires forall x :: x in toKeep <==> exists i :: 0 <= i < |names| && |names| - i <= count && names[i] == x
    ensures (exists k :: k in toKeep && k <= AddPrefix(s)) <==>
            SomeInvalid(versions, tailOk) && |Pairs(versions, tailOk)| < count
  {
    var v := AddPrefix(s);
    EmptyNameKeptIff(versions, count, tailOk, names, toKeep);
    if "" in toKeep {
      assert "" <= v;
    }
    forall k | k in toKeep && k <= v
      ensures k == ""
    {
      assert k in names;
      NameShape(k, versions, tailOk);
      if k != "" {
        NoMinorNoPrefix(Parse(v, tailOk).major, Parse(k, tailOk).major, Parse(k, tailOk).minor);
      }
    }
  }

  lemma UniqueNames(versions: seq<string>, vs: seq<string>, unsorted: seq<string>, tailOk: string -> bool)
    requires multiset(vs) == multiset(Sorting.Map(versions, AddPrefix)) && Sorting.Distinct(unsorted)
    requires forall x :: x in unsorted <==> x in Sorting.Map(vs, v => MajorMinor(v, tailOk))
    ensures NamesOf(Sort(unsorted, tailOk), versions, tailOk)
  {
    var names := Sort(unsorted, tailOk);
    Sorting.MultisetMembers(names, unsorted);
    NamesCovered(versions, vs, AddPrefix, v => MajorMinor(v, tailOk), names);
    SortedNames(versions, unsorted, tailOk);
  }

  lemma DropsByRank(versions: seq<string>, vs: seq<string>, unsorted: seq<string>, toKeep: seq<string>, count: Uint,
                    tailOk: string -> bool)
    requires multiset(vs) == multiset(Sorting.Map(versions, AddPrefix))
    requires Sorting.Distinct(unsorted)
    requires forall x :: x in unsorted <==> x in Sorting.Map(vs, v => MajorMinor(v, tailOk))
    requires count >= TWO_63 ==> toKeep == []
    requires count < TWO_63 ==>
      forall k :: k in toKeep <==>
        var names := Sort(unsorted, tailOk); exists i :: 0 <= i < |names| && |names| - i <= count && names[i] == k
    ensures forall s :: s in versions && Valid(AddPrefix(s), tailOk) ==>
            (Dropped(toKeep)(AddPrefix(s)) <==> MustGo(s, versions, count, tailOk))
  {
    var names := Sort(unsorted, tailOk);
    UniqueNames(versions, vs, unsorted, tailOk);
    forall s | s in versions && Valid(AddPrefix(s), tailOk)
      ensures Dropped(toKeep)(AddPrefix(s)) <==> MustGo(s, versions, count, tailOk)
    {
      if count < TWO_63 {
        DroppedIff(versions, count, tailOk, names, toKeep, s);
      }
    }
  }

  lemma DroppedIff(versions: seq<string>, count: Uint, tailOk: string -> bool, names: seq<string>,
                   toKeep: seq<string>, s: string)
    requires NamesOf(names, versions, tailOk) && s in versions && Valid(AddPrefix(s), tailOk) && count < TWO_63
    requires forall x :: x in toKeep <==> exists i :: 0 <= i < |names| && |names| - i <= count && names[i] == x
    ensures Dropped(toKeep)(AddPrefix(s)) <==> MustGo(s, versions, count, tailOk)
  {
    if MajorOnly(AddPrefix(s), tailOk) {
      MajorOnlyTest(versions, count, tailOk, names, toKeep, s);
    } else {
      PrefixTestIsExact(versions, count, tailOk, names, toKeep, s);
    }
  }

  // ----- deletion by numbers -----

  /** Strip takes off one prefix, if there is one. */
  lemma StripIs(text: string)
    ensures Strip(['v'] + text) == text
    ensures (text == "" || text[0] != 'v') ==> Strip(text) == text
  {
  }

  /** The text is MAJOR, MAJOR.MINOR or MAJOR.MINOR.PATCH with a fit tail, and these are its first two numbers. */
  ghost predicate Numbered(text: string, p: Pair, tailOk: string -> bool) {
    || (Canonical(text) && p == (Value(text), 0))
    || exists major, minor :: WithMinor(text, major, minor, tailOk) && p == (Value(major), Value(minor))
  }

  ghost predicate Listed(p: Pair, versions: seq<string>, tailOk: string -> bool) {
    exists s :: s in versions && Numbered(Strip(s), p, tailOk)
  }

  /** The listed pairs of numbers that are greater than the given one. */
  ghost predicate AreNewer(newer: set<Pair>, p: Pair, versions: seq<string>, tailOk: string -> bool) {
    forall q: Pair :: q in newer <==> Listed(q, versions, tailOk) && (q.0 > p.0 || (q.0 == p.0 && q.1 > p.1))
  }

  ghost predicate AreAll(all: set<Pair>, versions: seq<string>, tailOk: string -> bool) {
    forall q :: q in all <==> Listed(q, versions, tailOk)
  }

  /** Every version has one of the three shapes. */
  ghost predicate AllNumbered(versions: seq<string>, tailOk: string -> bool) {
    forall s :: s in versions ==> exists p :: Numbered(Strip(s), p, tailOk)
  }

  /** MAJOR.MINOR is one of the newest `count` minor versions. */
  ghost predicate IsKept(major: string, minor: string, versions: seq<string>, count: nat, tailOk: string -> bool) {
    && Canonical(major) && Canonical(minor) && Listed((Value(major), Value(minor)), versions, tailOk)
    && exists newer :: AreNewer(newer, (Value(major), Value(minor)), versions, tailOk) && |newer| < count
  }

  lemma IsKeptIff(major: string, minor: string, versions: seq<string>, count: nat, tailOk: string -> bool)
    requires Canonical(major) && Canonical(minor)
    ensures var p := (Value(major), Value(minor));
            IsKept(major, minor, versions, count, tailOk) <==>
            p in Pairs(versions, tailOk) && |Newer(Pairs(versions, tailOk), p)| < count
  {
    var p := (Value(major), Value(minor));
    ListedIff(p, versions, tailOk);
    var newer := Newer(Pairs(versions, tailOk), p);
    assert AreNewer(newer, p, versions, tailOk) by {
      forall q: Pair
        ensures q in newer <==> Listed(q, versions, tailOk) && (q.0 > p.0 || (q.0 == p.0 && q.1 > p.1))
      {
        ListedIff(q, versions, tailOk);
      }
    }
    if other :| AreNewer(other, p, versions, tailOk) && |other| < count {
      NewerUnique(other, p, versions, tailOk);
    }
  }

  /** The names that are kept, "" aside, are those of the newest `count` minor versions. */
  lemma KeptName(versions: seq<string>, count: nat, tailOk: string -> bool, names: seq<string>, toKeep: seq<string>,
                 major: string, minor: string)
    requires NamesOf(names, versions, tailOk) && Canonical(major) && Canonical(minor)
    requires forall x :: x in toKeep <==> exists i :: 0 <= i < |names| && |names| - i <= count && names[i] == x
    ensures ['v'] + Dotted(major, minor) in toKeep <==> IsKept(major, minor, versions, count, tailOk)
  {
    var k, p := ['v'] + Dotted(major, minor), (Value(major), Value(minor));
    ParseShort(major, minor, tailOk);
    IsKeptIff(major, minor, versions, count, tailOk);
    SamePairs(names, versions, tailOk);
    if k in names {
      var i :| 0 <= i < |names| && names[i] == k;
      LadderRank(names, ByPair(tailOk), i);
      NameShape(k, versions, tailOk);
      if j :| 0 <= j < |names| && |names| - j <= count && names[j] == k {
        NotAbove(names, ByPair(tailOk), j, i);
      }
    } else if p in Pairs(versions, tailOk) {
      var s :| s in versions && Valid(AddPrefix(s), tailOk) && PairOf(AddPrefix(s), tailOk) == p;
      SamePairSameName(AddPrefix(s), k, tailOk);
      assert false;
    }
  }

  lemma PrefixBoth(a: string, b: string)
    ensures ['v'] + a <= ['v'] + b <==> a <= b
  {
    assert (['v'] + a)[1..] == a && (['v'] + b)[1..] == b;
    assert a <= b ==> ['v'] + b == ['v'] + a + b[|a|..];
  }

  lemma KeptIsName(versions: seq<string>, count: nat, tailOk: string -> bool, names: seq<string>, toKeep: seq<string>,
                   k: string, text: string)
    requires NamesOf(names, versions, tailOk) && k in toKeep && k != "" && k <= ['v'] + text
    requires forall x :: x in toKeep <==> exists i :: 0 <= i < |names| && |names| - i <= count && names[i] == x
    ensures KeepsPrefixOf(text, versions, count, tailOk)
  {
    assert k in names;
    NameShape(k, versions, tailOk);
    var p := Parse(k, tailOk);
    KeptName(versions, count, tailOk, names, toKeep, p.major, p.minor);
    PrefixBoth(Dotted(p.major, p.minor), text);
  }

  lemma KeptPrefixIff(versions: seq<string>, count: nat, tailOk: string -> bool, names: seq<string>,
                      toKeep: seq<string>, text: string)
    requires NamesOf(names, versions, tailOk)
    requires forall x :: x in toKeep <==> exists i :: 0 <= i < |names| && |names| - i <= count && names[i] == x
    ensures (exists k :: k in toKeep && k <= ['v'] + text) <==>
            "" in toKeep || KeepsPrefixOf(text, versions, count, tailOk)
  {
    var v := ['v'] + text;
    assert "" <= v;
    if k :| k in toKeep && k != "" && k <= v {
      KeptIsName(versions, count, tailOk, names, toKeep, k, text);
    }
    if KeepsPrefixOf(text, versions, count, tailOk) {
      var major, minor :| IsKept(major, minor, versions, count, tailOk) && Dotted(major, minor) <= text;
      KeptName(versions, count, tailOk, names, toKeep, major, minor);
      PrefixBoth(Dotted(major, minor), text);
    }
  }

  ghost predicate KeepsPrefixOf(text: string, versions: seq<string>, count: nat, tailOk: string -> bool) {
    exists major, minor :: IsKept(major, minor, versions, count, tailOk) && Dotted(major, minor) <= text
  }

  lemma MalformedTest(versions: seq<string>, count: nat, tailOk: string -> bool, names: seq<string>,
                      toKeep: seq<string>, s: string)
    requires NamesOf(names, versions, tailOk) && s in versions && !Valid(AddPrefix(s), tailOk)
    requires forall x :: x in toKeep <==> exists i :: 0 <= i < |names| && |names| - i <= count && names[i] == x
    ensures (exists k :: k in toKeep && k <= AddPrefix(s)) <==>
            |Pairs(versions, tailOk)| < count || KeepsPrefixOf(Strip(s), versions, count, tailOk)
  {
    KeptPrefixIff(versions, count, tailOk, names, toKeep, Strip(s));
    EmptyNameKeptIff(versions, count, tailOk, names, toKeep);
  }

  lemma DropsMalformed(versions: seq<string>, vs: seq<string>, unsorted: seq<string>, toKeep: seq<string>, count: Uint,
                       tailOk: string -> bool)
    requires multiset(vs) == multiset(Sorting.Map(versions, AddPrefix))
    requires Sorting.Distinct(unsorted)
    requires forall x :: x in unsorted <==> x in Sorting.Map(vs, v => MajorMinor(v, tailOk))
    requires count >= TWO_63 ==> toKeep == []
    requires count < TWO_63 ==>
      forall k :: k in toKeep <==>
        var names := Sort(unsorted, tailOk); exists i :: 0 <= i < |names| && |names| - i <= count && names[i] == k
    ensures forall s :: s in versions && !Valid(AddPrefix(s), tailOk) ==>
            (Dropped(toKeep)(AddPrefix(s)) <==> MalformedGoes(s, versions, count, tailOk))
  {
    UniqueNames(versions, vs, unsorted, tailOk);
    forall s | s in versions && !Valid(AddPrefix(s), tailOk)
      ensures Dropped(toKeep)(AddPrefix(s)) <==> MalformedGoes(s, versions, count, tailOk)
    {
      if count < TWO_63 {
        MalformedTest(versions, count, tailOk, Sort(unsorted, tailOk), toKeep, s);
      }
    }
  }

  ghost predicate MalformedGoes(s: string, versions: seq<string>, count: Uint, tailOk: string -> bool) {
    || count >= TWO_63
    || (|Pairs(versions, tailOk)| >= count && !KeepsPrefixOf(Strip(s), versions, count, tailOk))
  }

  lemma NumberedIff(s: string, p: Pair, tailOk: string -> bool)
    ensures Numbered(Strip(s), p, tailOk) <==> Valid(AddPrefix(s), tailOk) && PairOf(AddPrefix(s), tailOk) == p
  {
    var text := Strip(s);
    if Canonical(text) && p == (Value(text), 0) {
      ParseMajor(text, tailOk);
    }
    if major, minor :| WithMinor(text, major, minor, tailOk) && p == (Value(major), Value(minor)) {
      ParseWithMinor(text, major, minor, tailOk);
    }
    if Valid(['v'] + text, tailOk) && PairOf(['v'] + text, tailOk) == p {
      ValidShape(text, tailOk);
    }
  }

  lemma ListedIff(p: Pair, versions: seq<string>, tailOk: string -> bool)
    ensures Listed(p, versions, tailOk) <==> p in Pairs(versions, tailOk)
  {
    if p in Pairs(versions, tailOk) {
      var s :| s in versions && Valid(AddPrefix(s), tailOk) && PairOf(AddPrefix(s), tailOk) == p;
      NumberedIff(s, p, tailOk);
    }
    if s :| s in versions && Numbered(Strip(s), p, tailOk) {
      NumberedIff(s, p, tailOk);
    }
  }

  lemma NewerUnique(newer: set<Pair>, p: Pair, versions: seq<string>, tailOk: string -> bool)
    requires AreNewer(newer, p, versions, tailOk)
    ensures newer == Newer(Pairs(versions, tailOk), p)
  {
    forall q: Pair
      ensures q in newer <==> q in Newer(Pairs(versions, tailOk), p)
    {
      ListedIff(q, versions, tailOk);
    }
  }

  lemma AllUnique(all: set<Pair>, versions: seq<string>, tailOk: string -> bool)
    requires AreAll(all, versions, tailOk)
    ensures all == Pairs(versions, tailOk)
  {
    forall q
      ensures q in all <==> q in Pairs(versions, tailOk)
    {
      ListedIff(q, versions, tailOk);
    }
  }

  lemma AllNumberedIff(versions: seq<string>, tailOk: string -> bool)
    ensures AllNumbered(versions, tailOk) <==> !SomeInvalid(versions, tailOk)
  {
    forall s | s in versions
      ensures Valid(AddPrefix(s), tailOk) <==> exists p :: Numbered(Strip(s), p, tailOk)
    {
      NumberedIff(s, PairOf(AddPrefix(s), tailOk), tailOk);
      if p :| Numbered(Strip(s), p, tailOk) {
        NumberedIff(s, p, tailOk);
      }
    }
  }

  /** For a version with a minor number, MustGo counts the greater pairs of numbers. */
  lemma MustGoByNumbers(s: string, major: string, minor: string, newer: set<Pair>, versions: seq<string>, count: Uint,
                        tailOk: string -> bool)
    requires WithMinor(Strip(s), major, minor, tailOk)
    requires AreNewer(newer, (Value(major), Value(minor)), versions, tailOk)
    ensures Valid(AddPrefix(s), tailOk)
    ensures MustGo(s, versions, count, tailOk) <==> count >= TWO_63 || |newer| >= count
  {
    ParseWithMinor(Strip(s), major, minor, tailOk);
    NewerUnique(newer, (Value(major), Value(minor)), versions, tailOk);
  }

  lemma MustGoMajor(s: string, all: set<Pair>, versions: seq<string>, count: Uint, tailOk: string -> bool)
    requires Canonical(Strip(s)) && AreAll(all, versions, tailOk)
    ensures Valid(AddPrefix(s), tailOk)
    ensures MustGo(s, versions, count, tailOk) <==>
            count >= TWO_63 || AllNumbered(versions, tailOk) || |all| >= count
  {
    ParseMajor(Strip(s), tailOk);
    AllUnique(all, versions, tailOk);
    AllNumberedIff(versions, tailOk);
  }

  /** What is deleted: of the versions with a minor number exactly those that have at least `count` greater pairs of
      major and minor numbers in the list; of those without one all, unless the list has malformed ones and fewer than
      `count` pairs; of the malformed ones, if there are that many pairs, those that start with none of the newest
      `count` minor versions; and from 2^63 on, where int(count) is negative, everything.  All copies of a string are
      deleted or none, and nothing else is returned. */
  ghost predicate DeletedByNumbers(deleted: seq<string>, versions: seq<string>, count: Uint, tailOk: string -> bool) {
    && (forall s, major, minor, newer ::
          s in versions && WithMinor(Strip(s), major, minor, tailOk) &&
          AreNewer(newer, (Value(major), Value(minor)), versions, tailOk) ==>
            (Strip(s) in deleted <==> count >= TWO_63 || |newer| >= count))
    && (forall s, all ::
          s in versions && Canonical(Strip(s)) && AreAll(all, versions, tailOk) ==>
            (Strip(s) in deleted <==> count >= TWO_63 || AllNumbered(versions, tailOk) || |all| >= count))
    && (forall s, all ::
          s in versions && (forall p :: !Numbered(Strip(s), p, tailOk)) && AreAll(all, versions, tailOk) ==>
            (Strip(s) in deleted <==>
             count >= TWO_63 || (|all| >= count && !KeepsPrefixOf(Strip(s), versions, count, tailOk))))
    && (forall d :: d in deleted ==> multiset(deleted)[d] == multiset(Sorting.Map(versions, Strip))[d])
  }

  method DeleteFrom(versions: seq<string>, count: Uint, tailOk: string -> bool) returns (deleted: seq<string>)
    ensures DeletedByNumbers(deleted, versions, count, tailOk)
    ensures forall s :: s in versions && Valid(AddPrefix(s), tailOk) ==>
            (Strip(s) in deleted <==> MustGo(s, versions, count, tailOk))
  {
    var prefixed := Transform(versions, AddPrefix);
    var vs := Sort(prefixed, tailOk);
    var names := Transform(vs, v => MajorMinor(v, tailOk));
    var unsorted := Unique(names);
    var uniq := Sort(unsorted, tailOk);
    var toKeep := Last(uniq, count);
    var toDelete := Filter(vs, Dropped(toKeep));
    deleted := Transform(toDelete, RemovePrefix);

    DropsByRank(versions, vs, unsorted, toKeep, count, tailOk);
    DropsMalformed(versions, vs, unsorted, toKeep, count, tailOk);
    DeletesDropped(versions, vs, Dropped(toKeep));
    ByNumbers(deleted, versions, count, tailOk);
  }

  lemma ByNumbers(deleted: seq<string>, versions: seq<string>, count: Uint, tailOk: string -> bool)
    requires forall s :: s in versions && Valid(AddPrefix(s), tailOk) ==>
             (Strip(s) in deleted <==> MustGo(s, versions, count, tailOk))
    requires forall s :: s in versions && !Valid(AddPrefix(s), tailOk) ==>
             (Strip(s) in deleted <==> MalformedGoes(s, versions, count, tailOk))
    requires forall d :: d in deleted ==> multiset(deleted)[d] == multiset(Sorting.Map(versions, Strip))[d]
    ensures DeletedByNumbers(deleted, versions, count, tailOk)
  {
    forall s, major, minor, newer |
        s in versions && WithMinor(Strip(s), major, minor, tailOk) &&
        AreNewer(newer, (Value(major), Value(minor)), versions, tailOk)
      ensures Strip(s) in deleted <==> count >= TWO_63 || |newer| >= count
    {
      MustGoByNumbers(s, major, minor, newer, versions, count, tailOk);
    }
    forall s, all | s in versions && Canonical(Strip(s)) && AreAll(all, versions, tailOk)
      ensures Strip(s) in deleted <==> count >= TWO_63 || AllNumbered(versions, tailOk) || |all| >= count
    {
      MustGoMajor(s, all, versions, count, tailOk);
    }
    forall s, all | s in versions && (forall p :: !Numbered(Strip(s), p, tailOk)) && AreAll(all, versions, tailOk)
      ensures Strip(s) in deleted <==>
              count >= TWO_63 || (|all| >= count && !KeepsPrefixOf(Strip(s), versions, count, tailOk))
    {
      NumberedIff(s, PairOf(AddPrefix(s), tailOk), tailOk);
      AllUnique(all, versions, tailOk);
    }
  }

  /** So the only version there is goes, although none is newer. */
  lemma LoneMajorGoes(tailOk: string -> bool)
    ensures Valid(AddPrefix("3"), tailOk) && MustGo("3", ["3"], 1, tailOk)
    ensures Newer(Pairs(["3"], tailOk), PairOf(AddPrefix("3"), tailOk)) == {}
  {
    NumeralOf("3", "");
    assert ("v" + "3")[1..] == "3" + "";
    assert MajorOnly("v3", tailOk);
  }

  lemma DeletesDropped(versions: seq<string>, vs: seq<string>, drop: string -> bool)
    requires multiset(vs) == multiset(Sorting.Map(versions, AddPrefix))
    ensures var deleted := Sorting.Map(Sorting.Filter(vs, drop), RemovePrefix);
            && (forall s :: s in versions ==> (Strip(s) in deleted <==> drop(AddPrefix(s))))
            && (forall d :: d in deleted ==> multiset(deleted)[d] == multiset(Sorting.Map(versions, Strip))[d])
  {
    var deleted := Sorting.Map(Sorting.Filter(vs, drop), RemovePrefix);
    forall s | s in versions
      ensures Strip(s) in deleted <==> drop(AddPrefix(s))
    {
      CopiesTogether(versions, vs, drop, s);
    }
    forall d | d in deleted
      ensures multiset(deleted)[d] == multiset(Sorting.Map(versions, Strip))[d]
    {
      var s := OriginOf(versions, vs, drop, d);
      CopiesTogether(versions, vs, drop, s);
    }
  }

  lemma OriginOf(versions: seq<string>, vs: seq<string>, drop: string -> bool, d: string) returns (s: string)
    requires multiset(vs) == multiset(Sorting.Map(versions, AddPrefix))
    requires d in Sorting.Map(Sorting.Filter(vs, drop), RemovePrefix)
    ensures s in versions && d == Strip(s)
  {
    MapMembers(Sorting.Filter(vs, drop), RemovePrefix);
    var v :| v in Sorting.Filter(vs, drop) && RemovePrefix(v) == d;
    Sorting.MultisetMembers(vs, Sorting.Map(versions, AddPrefix));
    MapMembers(versions, AddPrefix);
    s :| s in versions && AddPrefix(s) == v;
  }
}
