/** golang.org/x/mod/semver as pulp/versions.go uses it: the `vMAJOR[.MINOR[.PATCH[tail]]]` grammar,
    MajorMinor and Sort.  Which pre-release and build tails are well-formed is the parameter `tailOk`. */
module Semver {
  import opened Decimals
  import Sorting
  import Text

  datatype Parsed =
    | Invalid
    | Version(major: string, minor: string, patch: string, tail: string, short: bool)

  type Pair = (nat, nat)

  function DigitCount(s: string): (n: nat)
    ensures n <= |s| && AllDigits(s[..n])
    ensures n < |s| ==> !IsDigit(s[n])
  {
    if s != "" && IsDigit(s[0]) then 1 + DigitCount(s[1..]) else 0
  }

  /** Splits off the longest run of leading digits. */
  function Numeral(s: string): (string, string) {
    (s[..DigitCount(s)], s[DigitCount(s)..])
  }

  /** Two texts joined by a dot. */
  function Dotted(front: string, back: string): string {
    front + ['.'] + back
  }

  /** Empty, or well-formed and not taken for more digits. */
  predicate IsTail(tail: string, tailOk: string -> bool) {
    tail == "" || (tailOk(tail) && !IsDigit(tail[0]))
  }

  function Parse(v: string, tailOk: string -> bool): (p: Parsed)
    ensures p.Version? ==> Canonical(p.major) && Canonical(p.minor) && Canonical(p.patch)
    ensures p.Version? && !p.short ==> v == ['v'] + Dotted(p.major, Dotted(p.minor, p.patch + p.tail))
    ensures p.Version? ==> IsTail(p.tail, tailOk)
  {
    if v == "" || v[0] != 'v' then Invalid
    else
      var (major, rest) := Numeral(v[1..]);
      if !Canonical(major) then Invalid
      else if rest == "" then Version(major, "0", "0", "", true)
      else if rest[0] != '.' then Invalid
      else
        AfterMajor(v);
        ParseMinor(major, rest[1..], tailOk)
  }

  lemma AfterMajor(v: string)
    requires v != "" && v[0] == 'v' && Numeral(v[1..]).1 != "" && Numeral(v[1..]).1[0] == '.'
    ensures v == ['v'] + Dotted(Numeral(v[1..]).0, Numeral(v[1..]).1[1..])
  {
    NumeralSplits(v[1..]);
    JoinedByDot(v, Numeral(v[1..]).0, Numeral(v[1..]).1);
  }

  lemma NumeralSplits(s: string)
    ensures s == Numeral(s).0 + Numeral(s).1
  {
  }

  lemma JoinedByDot(v: string, major: string, rest: string)
    requires v != "" && v[0] == 'v' && v[1..] == major + rest && rest != "" && rest[0] == '.'
    ensures v == ['v'] + Dotted(major, rest[1..])
  {
    assert v == ['v'] + v[1..] && rest == ['.'] + rest[1..];
  }

  function ParseMinor(major: string, s: string, tailOk: string -> bool): (p: Parsed)
    requires Canonical(major)
    ensures p.Version? ==> p.major == major && Canonical(p.minor) && Canonical(p.patch)
    ensures p.Version? && !p.short ==> s == Dotted(p.minor, p.patch + p.tail)
    ensures p.Version? && p.short ==> s == p.minor
    ensures p.Version? ==> IsTail(p.tail, tailOk)
  {
    var (minor, rest) := Numeral(s);
    if !Canonical(minor) then Invalid
    else if rest == "" then Version(major, minor, "0", "", true)
    else if rest[0] != '.' then Invalid
    else
      var (patch, tail) := Numeral(rest[1..]);
      assert s == Dotted(minor, rest[1..]) && rest[1..] == patch + tail;
      if !Canonical(patch) || (tail != "" && !tailOk(tail)) then Invalid
      else Version(major, minor, patch, tail, false)
  }

  function MajorMinor(v: string, tailOk: string -> bool): string {
    match Parse(v, tailOk)
    case Invalid => ""
    case Version(major, minor, _, _, _) => ['v'] + Dotted(major, minor)
  }

  predicate Valid(v: string, tailOk: string -> bool) {
    Parse(v, tailOk).Version?
  }

  /** A version that consists of its major number. */
  predicate MajorOnly(v: string, tailOk: string -> bool) {
    Valid(v, tailOk) && v == ['v'] + Parse(v, tailOk).major
  }

  /** The numeric (major, minor) of a valid version. */
  function PairOf(v: string, tailOk: string -> bool): Pair {
    match Parse(v, tailOk)
    case Invalid => (0, 0)
    case Version(major, minor, _, _, _) => (Value(major), Value(minor))
  }

  predicate After(p: Pair, q: Pair) {
    p.0 > q.0 || (p.0 == q.0 && p.1 > q.1)
  }

  /** What the order looks at; invalid versions come first and are all alike. */
  datatype Key = Key(valid: bool, pair: Pair, patch: nat)

  function KeyOf(v: string, tailOk: string -> bool): Key {
    var p := Parse(v, tailOk);
    Key(p.Version?, PairOf(v, tailOk), if p.Version? then Value(p.patch) else 0)
  }

  predicate KeyLess(k: Key, l: Key) {
    || (!k.valid && l.valid)
    || (k.valid && l.valid && (After(l.pair, k.pair) || (k.pair == l.pair && k.patch < l.patch)))
  }

  /** Sort order: by precedence, ties by byte order. */
  predicate Earlier(v: string, w: string, tailOk: string -> bool) {
    var k, l := KeyOf(v, tailOk), KeyOf(w, tailOk);
    KeyLess(k, l) || (k == l && Text.Less(v, w))
  }

  function ByAge(tailOk: string -> bool): (string, string) -> bool {
    (v, w) => Earlier(v, w, tailOk)
  }

  lemma EarlierIsOrder(tailOk: string -> bool)
    ensures Sorting.StrictWeakOrder(ByAge(tailOk))
  {
    var less := ByAge(tailOk);
    forall a, b | less(a, b)
      ensures !less(b, a)
    {
      EarlierOrder(a, b, a, tailOk);
    }
    forall a, b, c | less(a, c)
      ensures less(a, b) || less(b, c)
    {
      EarlierOrder(a, b, c, tailOk);
    }
  }

  lemma EarlierOrder(a: string, b: string, c: string, tailOk: string -> bool)
    ensures Earlier(a, b, tailOk) ==> !Earlier(b, a, tailOk)
    ensures Earlier(a, c, tailOk) ==> Earlier(a, b, tailOk) || Earlier(b, c, tailOk)
  {
    Text.LessOrder(a, b, c);
    var k, l, m := KeyOf(a, tailOk), KeyOf(b, tailOk), KeyOf(c, tailOk);
    KeyOrder(k, l, m);
  }

  lemma KeyOrder(k: Key, l: Key, m: Key)
    ensures KeyLess(k, l) ==> !KeyLess(l, k) && k != l
    ensures KeyLess(k, m) ==> KeyLess(k, l) || KeyLess(l, m)
    ensures !KeyLess(k, l) && !KeyLess(l, k) && (!k.valid ==> k == Key(false, (0, 0), 0)) &&
            (!l.valid ==> l == Key(false, (0, 0), 0))
            ==> k == l
  {
  }

  function Sort(vs: seq<string>, tailOk: string -> bool): (r: seq<string>)
    ensures multiset(r) == multiset(vs)
  {
    Sorting.StableSort(vs, ByAge(tailOk))
  }

  lemma {:induction false} DigitCountOf(m: string, rest: string)
    requires AllDigits(m) && (rest == "" || !IsDigit(rest[0]))
    ensures DigitCount(m + rest) == |m|
  {
    if m != "" {
      assert (m + rest)[1..] == m[1..] + rest;
      DigitCountOf(m[1..], rest);
    } else {
      assert m + rest == rest;
    }
  }

  lemma NumeralOf(m: string, rest: string)
    requires AllDigits(m) && (rest == "" || !IsDigit(rest[0]))
    ensures Numeral(m + rest) == (m, rest)
  {
    DigitCountOf(m, rest);
  }

  /** MajorMinor yields a short version with the same pair. */
  lemma ParseMajorMinor(v: string, tailOk: string -> bool)
    requires Parse(v, tailOk).Version?
    ensures var p := Parse(v, tailOk);
            Parse(MajorMinor(v, tailOk), tailOk) == Version(p.major, p.minor, "0", "", true)
  {
    var p := Parse(v, tailOk);
    ParseShort(p.major, p.minor, tailOk);
  }

  lemma ParseShort(major: string, minor: string, tailOk: string -> bool)
    requires Canonical(major) && Canonical(minor)
    ensures Parse(['v'] + Dotted(major, minor), tailOk) == Version(major, minor, "0", "", true)
  {
    ParseDotted(major, minor, tailOk);
    assert minor + "" == minor;
    NumeralOf(minor, "");
  }

  lemma ParseMajor(major: string, tailOk: string -> bool)
    requires Canonical(major)
    ensures Parse(['v'] + major, tailOk) == Version(major, "0", "0", "", true)
  {
    assert (['v'] + major)[1..] == major + "";
    NumeralOf(major, "");
  }

  lemma NumeralBeforeDot(m: string, rest: string)
    requires AllDigits(m)
    ensures Numeral(Dotted(m, rest)) == (m, ['.'] + rest)
    ensures (['.'] + rest)[1..] == rest
  {
    assert Dotted(m, rest) == m + (['.'] + rest);
    NumeralOf(m, ['.'] + rest);
  }

  lemma ParseMinorFull(major: string, minor: string, patch: string, tail: string, tailOk: string -> bool)
    requires Canonical(major) && Canonical(minor) && Canonical(patch) && IsTail(tail, tailOk)
    ensures ParseMinor(major, Dotted(minor, patch + tail), tailOk) == Version(major, minor, patch, tail, false)
  {
    NumeralBeforeDot(minor, patch + tail);
    NumeralOf(patch, tail);
  }

  /** Every MAJOR.MINOR.PATCH string with a fit tail is read as these numbers and this tail. */
  lemma ParseFull(major: string, minor: string, patch: string, tail: string, tailOk: string -> bool)
    requires Canonical(major) && Canonical(minor) && Canonical(patch) && IsTail(tail, tailOk)
    ensures Parse(['v'] + Dotted(major, Dotted(minor, patch + tail)), tailOk) ==
            Version(major, minor, patch, tail, false)
  {
    ParseMinorFull(major, minor, patch, tail, tailOk);
    ParseDotted(major, Dotted(minor, patch + tail), tailOk);
  }

  lemma ParseDotted(major: string, after: string, tailOk: string -> bool)
    requires Canonical(major)
    ensures Parse(['v'] + Dotted(major, after), tailOk) == ParseMinor(major, after, tailOk)
  {
    NumeralBeforeDot(major, after);
    assert (['v'] + Dotted(major, after))[1..] == Dotted(major, after);
  }

  /** The text is MAJOR.MINOR or MAJOR.MINOR.PATCH with a fit tail. */
  ghost predicate WithMinor(text: string, major: string, minor: string, tailOk: string -> bool) {
    && Canonical(major) && Canonical(minor)
    && (text == Dotted(major, minor) ||
        exists patch, tail ::
          Canonical(patch) && IsTail(tail, tailOk) && text == Dotted(major, Dotted(minor, patch + tail)))
  }

  lemma ParseWithMinor(text: string, major: string, minor: string, tailOk: string -> bool)
    requires WithMinor(text, major, minor, tailOk)
    ensures var p := Parse(['v'] + text, tailOk); p.Version? && p.major == major && p.minor == minor
    ensures !MajorOnly(['v'] + text, tailOk)
  {
    if text == Dotted(major, minor) {
      ParseShort(major, minor, tailOk);
    } else {
      var patch, tail :| Canonical(patch) && IsTail(tail, tailOk) && text == Dotted(major, Dotted(minor, patch + tail));
      ParseFull(major, minor, patch, tail, tailOk);
    }
    assert (['v'] + text)[1..] == text && (['v'] + major)[1..] == major;
    assert |text| > |major|;
  }

  /** Valid are exactly the strings of three shapes: MAJOR, MAJOR.MINOR and MAJOR.MINOR.PATCH with a fit tail. */
  lemma ValidIff(text: string, tailOk: string -> bool)
    ensures Valid(['v'] + text, tailOk) <==>
            Canonical(text) || exists major, minor :: WithMinor(text, major, minor, tailOk)
  {
    var v := ['v'] + text;
    assert v[1..] == text;
    if Valid(v, tailOk) {
      ValidShape(text, tailOk);
    }
    if Canonical(text) {
      ParseMajor(text, tailOk);
    }
    if major, minor :| WithMinor(text, major, minor, tailOk) {
      ParseWithMinor(text, major, minor, tailOk);
    }
  }

  lemma ValidShape(text: string, tailOk: string -> bool)
    requires Valid(['v'] + text, tailOk)
    ensures var p := Parse(['v'] + text, tailOk);
            WithMinor(text, p.major, p.minor, tailOk) || (text == p.major && p.minor == "0")
  {
    var v := ['v'] + text;
    var p := Parse(v, tailOk);
    assert v[1..] == text;
    if p.short {
      ShortShape(v, tailOk);
      assert (['v'] + p.major)[1..] == p.major && (['v'] + Dotted(p.major, p.minor))[1..] == Dotted(p.major, p.minor);
      if text == p.major {
        ParseMajor(text, tailOk);
      }
    } else {
      var full := Dotted(p.major, Dotted(p.minor, p.patch + p.tail));
      assert (['v'] + full)[1..] == full;
    }
  }

  /** A numeral before a dot is determined by any prefix that includes the dot. */
  lemma DottedPrefix(m: string, n: string, x: string, y: string)
    requires AllDigits(m) && AllDigits(n)
    ensures Dotted(m, x) <= Dotted(n, y) <==> m == n && x <= y
  {
    var s, t := Dotted(m, x), Dotted(n, y);
    assert |m| < |n| ==> s[|m|] == '.' && t[|m|] == n[|m|];
    assert |n| < |m| ==> s[|n|] == m[|n|] && t[|n|] == '.';
    assert m == s[..|m|] && n == t[..|n|];
    assert x == s[|m| + 1..] && y == t[|n| + 1..];
  }

  lemma NumeralPrefix(m: string, n: string, rest: string)
    requires AllDigits(m)
    ensures m <= Dotted(n, rest) <==> m <= n
  {
    var t := Dotted(n, rest);
    assert t[|n|] == '.' && n == t[..|n|];
    if |m| <= |n| {
      assert t[..|m|] == n[..|m|];
    }
  }

  /** The string prefix test: a "vM.m" prefix of a version has its major number and a minor that is a prefix
      of its minor, hence never a newer pair. */
  lemma PrefixNeverNewer(k: string, v: string, tailOk: string -> bool)
    requires Parse(k, tailOk).Version? && k == MajorMinor(k, tailOk)
    requires Parse(v, tailOk).Version? && k <= v
    ensures k == MajorMinor(v, tailOk) || After(PairOf(v, tailOk), PairOf(k, tailOk))
  {
    var p, q := Parse(v, tailOk), Parse(k, tailOk);
    MinorPrefix(k, v, tailOk);
    if |q.minor| < |p.minor| {
      LongerIsGreater(q.minor, p.minor);
    } else {
      assert q.minor == p.minor;
    }
  }

  lemma MinorPrefix(k: string, v: string, tailOk: string -> bool)
    requires Parse(k, tailOk).Version? && k == MajorMinor(k, tailOk)
    requires Parse(v, tailOk).Version? && k <= v
    ensures var p, q := Parse(v, tailOk), Parse(k, tailOk); q.major == p.major && q.minor <= p.minor
  {
    var p, q := Parse(v, tailOk), Parse(k, tailOk);
    if MajorOnly(v, tailOk) {
      NoMinorNoPrefix(p.major, q.major, q.minor);
    }
    if p.short {
      ShortShape(v, tailOk);
    }
    var after := if p.short then p.minor else Dotted(p.minor, p.patch + p.tail);
    assert v[1..] == Dotted(p.major, after) && k[1..] == Dotted(q.major, q.minor);
    DottedPrefix(q.major, p.major, q.minor, after);
    if !p.short {
      NumeralPrefix(q.minor, p.minor, p.patch + p.tail);
    }
  }

  lemma NoMinorNoPrefix(m: string, major: string, minor: string)
    requires AllDigits(m)
    ensures !(['v'] + Dotted(major, minor) <= ['v'] + m)
  {
    var k, v := ['v'] + Dotted(major, minor), ['v'] + m;
    assert k[1 + |major|] == '.' && '.' in k;
    assert '.' !in v;
    PrefixMembers(k, v, '.');
  }

  lemma PrefixMembers(k: string, v: string, c: char)
    requires c in k && c !in v
    ensures !(k <= v)
  {
  }

  lemma ShortShape(v: string, tailOk: string -> bool)
    requires Parse(v, tailOk).Version? && Parse(v, tailOk).short
    ensures var p := Parse(v, tailOk); v == ['v'] + p.major || v == ['v'] + Dotted(p.major, p.minor)
  {
    var (major, rest) := Numeral(v[1..]);
    if rest == "" {
      assert v[1..] == major + rest && v == ['v'] + v[1..];
    } else {
      AfterMajor(v);
    }
  }

  lemma MajorMinorIsPrefix(v: string, tailOk: string -> bool)
    requires Parse(v, tailOk).Version?
    ensures MajorMinor(v, tailOk) <= v <==> !MajorOnly(v, tailOk)
  {
    var p := Parse(v, tailOk);
    if MajorOnly(v, tailOk) {
      NoMinorNoPrefix(p.major, p.major, p.minor);
    } else if !p.short {
      DottedExtends(p.major, p.minor, p.patch + p.tail);
    } else {
      ShortShape(v, tailOk);
    }
  }

  lemma DottedExtends(a: string, b: string, c: string)
    ensures ['v'] + Dotted(a, b) <= ['v'] + Dotted(a, Dotted(b, c))
  {
    assert ['v'] + Dotted(a, Dotted(b, c)) == ['v'] + Dotted(a, b) + (['.'] + c);
  }

  lemma SamePairSameName(v: string, w: string, tailOk: string -> bool)
    requires Parse(v, tailOk).Version? && Parse(w, tailOk).Version? && PairOf(v, tailOk) == PairOf(w, tailOk)
    ensures MajorMinor(v, tailOk) == MajorMinor(w, tailOk)
  {
    var p, q := Parse(v, tailOk), Parse(w, tailOk);
    CanonicalUnique(p.major, q.major);
    CanonicalUnique(p.minor, q.minor);
  }
}
