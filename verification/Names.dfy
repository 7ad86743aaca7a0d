/** internal/string.go: the printed and the compared form of location and group names. */
module Names {
  import opened Text
  import Sorting

  /** The characters that survive RemoveNonAlphanumeric. */
  predicate Kept(c: char) {
    '0' <= c <= '9' || 'a' <= c <= 'z' || 'A' <= c <= 'Z' || c == ' ' || c == '-' || c == '_'
  }

  predicate Plain(s: string) {
    forall c :: c in s ==> Kept(c)
  }

  function RemoveNonAlphanumeric(s: string): (r: string)
    ensures Plain(r)
  {
    Sorting.Filter(s, Kept)
  }

  /** The parts that are not empty. */
  function Words(parts: seq<string>): (ws: seq<string>)
    ensures forall w :: w in ws ==> w in parts && w != ""
  {
    if parts == [] then []
    else
      var last := parts[|parts| - 1];
      Words(parts[..|parts| - 1]) + if last == "" then [] else [last]
  }

  /** strings.Fields, where the only white space is a space. */
  function Fields(s: string): seq<string> {
    Words(Split(s, ' '))
  }

  function Join(ws: seq<string>, sep: char): string {
    if ws == [] then ""
    else if |ws| == 1 then ws[0]
    else Join(ws[..|ws| - 1], sep) + [sep] + ws[|ws| - 1]
  }

  function Underscore(s: string): (r: string)
    ensures |r| == |s|
    ensures forall i :: 0 <= i < |s| ==> r[i] == if s[i] == ' ' then '_' else s[i]
  {
    seq(|s|, i requires 0 <= i < |s| => if s[i] == ' ' then '_' else s[i])
  }

  /** Title-casing changes nothing but the case of letters (it is only applied to plain text). */
  ghost predicate CaseOnly(titleCase: string -> string) {
    forall s :: Plain(s) ==> Lower(titleCase(s)) == Lower(s)
  }

  function Title(name: string, titleCase: string -> string): string {
    Underscore(titleCase(Join(Fields(RemoveNonAlphanumeric(name)), ' ')))
  }

  function TrimRight(s: string): string {
    if s != "" && s[|s| - 1] == '_' then TrimRight(s[..|s| - 1]) else s
  }

  /** What the loop of SnakeCase accumulates. */
  function Snaked(parts: seq<string>): string {
    if parts == [] then ""
    else
      var last := parts[|parts| - 1];
      Snaked(parts[..|parts| - 1]) + if last == "" then "" else Lower(last) + "_"
  }

  function Snake(name: string): string {
    TrimRight(Snaked(Split(RemoveNonAlphanumeric(name), ' ')))
  }

  method SnakeCase(name: string) returns (r: string)
    ensures r == Snake(name)
  {
    var splits := Split(RemoveNonAlphanumeric(name), ' ');
    var lower := "";
    for i := 0 to |splits|
      invariant lower == Snaked(splits[..i])
    {
      assert splits[..i + 1][..i] == splits[..i];
      if |splits[i]| != 0 {
        lower := lower + (Lower(splits[i]) + "_");
      }
    }
    assert splits[..|splits|] == splits;
    r := TrimRight(lower);
  }

  // ----- both forms in terms of the words joined by underscores -----

  /** What both forms are made of. */
  function Underscored(name: string): string {
    Join(Fields(RemoveNonAlphanumeric(name)), '_')
  }

  lemma {:induction false} SplitParts(s: string, sep: char, p: string)
    requires p in Split(s, sep)
    ensures sep !in p && forall c :: c in p ==> c in s
  {
    if s != "" {
      var rest := Split(s[1..], sep);
      if s[0] == sep {
        if p in rest {
          SplitParts(s[1..], sep, p);
        }
      } else if p in rest[1..] {
        SplitParts(s[1..], sep, p);
      } else {
        SplitParts(s[1..], sep, rest[0]);
      }
    }
  }

  /** Plain text without spaces. */
  predicate Solid(s: string) {
    Plain(s) && ' ' !in s
  }

  lemma FieldsSolid(name: string)
    ensures forall w :: w in Fields(RemoveNonAlphanumeric(name)) ==> Solid(w) && w != ""
  {
    var s := RemoveNonAlphanumeric(name);
    forall w | w in Fields(s)
      ensures Solid(w) && w != ""
    {
      SplitParts(s, ' ', w);
    }
  }

  lemma {:induction false} SnakedIs(parts: seq<string>)
    ensures Snaked(parts) == if Words(parts) == [] then "" else Lower(Join(Words(parts), '_')) + "_"
  {
    if parts != [] {
      var before, last := parts[..|parts| - 1], parts[|parts| - 1];
      SnakedIs(before);
      if last == "" {
        assert Words(parts) == Words(before) && Snaked(parts) == Snaked(before);
      } else {
        var ws := Words(before);
        assert Words(parts) == ws + [last];
        JoinLast(ws, last);
        if ws != [] {
          calc {
            Snaked(parts);
            Lower(Join(ws, '_')) + "_" + (Lower(last) + "_");
            { assert Lower("_") == "_"; LowerConcat(Join(ws, '_'), "_"); }
            Lower(Join(ws, '_') + "_") + Lower(last) + "_";
            { LowerConcat(Join(ws, '_') + "_", last); }
            Lower(Join(ws + [last], '_')) + "_";
          }
        }
      }
    }
  }

  lemma JoinLast(ws: seq<string>, last: string)
    ensures Join(ws + [last], '_') == if ws == [] then last else Join(ws, '_') + "_" + last
  {
    assert (ws + [last])[..|ws|] == ws;
  }

  lemma SnakeIs(name: string)
    ensures Snake(name) == TrimRight(Lower(Underscored(name)))
  {
    var parts := Split(RemoveNonAlphanumeric(name), ' ');
    SnakedIs(parts);
    if Words(parts) != [] {
      var t := Lower(Join(Words(parts), '_'));
      assert (t + "_")[..|t + "_"| - 1] == t;
    }
  }

  lemma {:induction false} JoinPlain(ws: seq<string>, sep: char)
    requires Kept(sep) && forall w :: w in ws ==> Solid(w)
    ensures Plain(Join(ws, sep)) && (sep != ' ' ==> Solid(Join(ws, sep)))
  {
    if |ws| == 1 {
      assert Solid(ws[0]);
    } else if |ws| > 1 {
      JoinPlain(ws[..|ws| - 1], sep);
      assert Solid(ws[|ws| - 1]);
    }
  }

  lemma {:induction false} UnderscoreJoin(ws: seq<string>)
    requires forall w :: w in ws ==> Solid(w)
    ensures Underscore(Join(ws, ' ')) == Join(ws, '_')
  {
    if |ws| == 1 {
      assert Solid(ws[0]);
    } else if |ws| > 1 {
      UnderscoreJoin(ws[..|ws| - 1]);
      assert Solid(ws[|ws| - 1]);
    }
  }

  lemma SameLower(s: string, t: string, i: nat)
    requires Lower(s) == Lower(t) && i < |s|
    ensures |s| == |t| && (s[i] == t[i] || (Kept(s[i]) && Kept(t[i])))
    ensures (s[i] == ' ' <==> t[i] == ' ') && (s[i] == '_' <==> t[i] == '_')
  {
    assert |s| == |Lower(s)| && |t| == |Lower(t)|;
    assert Lower(s)[i] == LowerChar(s[i]) && Lower(t)[i] == LowerChar(t[i]);
  }

  lemma SameLowerSolid(s: string, t: string)
    requires Lower(s) == Lower(t) && Solid(t)
    ensures Solid(s)
  {
    forall i | 0 <= i < |s|
      ensures Kept(s[i]) && s[i] != ' '
    {
      SameLower(s, t, i);
      assert t[i] in t;
    }
  }

  lemma LowerUnderscore(s: string, t: string)
    requires Lower(s) == Lower(t)
    ensures Lower(Underscore(s)) == Lower(Underscore(t))
  {
    assert |s| == |Lower(s)| && |t| == |Lower(t)|;
    forall i | 0 <= i < |s|
      ensures Lower(Underscore(s))[i] == Lower(Underscore(t))[i]
    {
      SameLower(s, t, i);
      assert Lower(s)[i] == Lower(t)[i];
    }
  }

  lemma TitleIs(name: string, titleCase: string -> string)
    requires CaseOnly(titleCase)
    ensures Lower(Title(name, titleCase)) == Lower(Underscored(name))
    ensures Solid(Title(name, titleCase)) && Solid(Underscored(name))
  {
    FieldsSolid(name);
    var ws := Fields(RemoveNonAlphanumeric(name));
    JoinPlain(ws, ' ');
    JoinPlain(ws, '_');
    UnderscoreJoin(ws);
    LowerUnderscore(titleCase(Join(ws, ' ')), Join(ws, ' '));
    SameLowerSolid(Title(name, titleCase), Underscored(name));
  }

  lemma SolidSnake(s: string)
    requires Solid(s)
    ensures Underscored(s) == s && Snake(s) == TrimRight(Lower(s))
  {
    Sorting.FilterAll(s, Kept);
    SplitNone(s, ' ');
    assert Words([s]) == Words([]) + if s == "" then [] else [s];
    SnakeIs(s);
  }

  lemma {:induction false} TrimRightPrefix(s: string)
    ensures TrimRight(s) <= s && TrimRight(TrimRight(s)) == TrimRight(s)
    ensures TrimRight(s) == s <==> !EndsInUnderscore(s)
    ensures !EndsInUnderscore(TrimRight(s))
  {
    if EndsInUnderscore(s) {
      TrimRightPrefix(s[..|s| - 1]);
    }
  }

  predicate EndsInUnderscore(s: string) {
    s != "" && s[|s| - 1] == '_'
  }

  // ----- the laws of the two forms -----

  /** The compared form does not see the printing. */
  lemma SnakeOfTitle(name: string, titleCase: string -> string)
    requires CaseOnly(titleCase)
    ensures Snake(Title(name, titleCase)) == Snake(name)
  {
    TitleIs(name, titleCase);
    SolidSnake(Title(name, titleCase));
    SnakeIs(name);
  }

  lemma SolidPrefixLower(s: string, t: string)
    requires Solid(s) && t <= Lower(s)
    ensures Solid(t) && Lower(t) == t
  {
    forall i | 0 <= i < |t|
      ensures Kept(t[i]) && t[i] != ' ' && LowerChar(t[i]) == t[i]
    {
      assert t[i] == LowerChar(s[i]) && s[i] in s;
    }
  }

  /** A compared form is its own compared form: lower case, plain, without spaces or trailing underscore. */
  lemma SnakeIdempotent(name: string)
    ensures Snake(Snake(name)) == Snake(name)
    ensures Solid(Snake(name)) && Lower(Snake(name)) == Snake(name) && !EndsInUnderscore(Snake(name))
  {
    FieldsSolid(name);
    JoinPlain(Fields(RemoveNonAlphanumeric(name)), '_');
    SnakeIs(name);
    TrimRightPrefix(Lower(Underscored(name)));
    SolidPrefixLower(Underscored(name), Snake(name));
    SolidSnake(Snake(name));
  }

  lemma FoldSolid(s: string)
    requires Solid(s)
    ensures Fold(s) == Lower(s)
  {
    forall i | 0 <= i < |s|
      ensures FoldChar(s[i]) == LowerChar(s[i])
    {
      assert s[i] in s;
    }
  }

  /** A printed name equals the compared form up to case, exactly when it does not end in an underscore. */
  lemma TitleMatchesIff(name: string, titleCase: string -> string)
    requires CaseOnly(titleCase)
    ensures EqualFold(Title(name, titleCase), Snake(name)) <==> !EndsInUnderscore(Title(name, titleCase))
  {
    var title := Title(name, titleCase);
    TitleIs(name, titleCase);
    SnakeIs(name);
    SnakeIdempotent(name);
    FoldSolid(title);
    FoldSolid(Snake(name));
    TrimRightPrefix(Lower(title));
    if title != "" {
      assert Lower(title)[|title| - 1] == LowerChar(title[|title| - 1]);
    }
  }

  /** Exactly letters, digits, spaces, hyphens and underscores survive. */
  lemma SurvivesIff(name: string, c: char)
    ensures c in RemoveNonAlphanumeric(name) <==>
            c in name && ('0' <= c <= '9' || 'a' <= LowerChar(c) <= 'z' || c == ' ' || c == '-' || c == '_')
  {
  }

  lemma TwoWords(a: string, b: string)
    requires a != "" && b != ""
    ensures Words([a, b]) == [a, b]
  {
    assert [a, b][..1] == [a] && [a][..0] == [];
    assert Words([a]) == Words([]) + [a];
  }

  lemma JoinTwo(a: string, b: string)
    ensures Join([a, b], '_') == a + "_" + b
  {
    assert [a, b][..1] == [a];
  }

  lemma TwoFields(a: string, b: string)
    requires Solid(a) && a != "" && Solid(b) && b != ""
    ensures Fields(RemoveNonAlphanumeric(a + " " + b)) == [a, b]
  {
    var name := a + [' '] + b;
    assert a + " " + b == name;
    assert RemoveNonAlphanumeric(name) == name by {
      assert forall c :: c in name ==> c in a || c == ' ' || c in b;
      Sorting.FilterAll(name, Kept);
    }
    SplitFirst(a, ' ', b);
    SplitNone(b, ' ');
    assert [a] + [b] == [a, b];
    TwoWords(a, b);
  }

  /** Two words are compared in lower case and joined by an underscore. */
  lemma SnakeOfWords(a: string, b: string)
    requires Solid(a) && a != "" && Solid(b) && b != "" && !EndsInUnderscore(b)
    ensures Snake(a + " " + b) == Lower(a) + "_" + Lower(b)
  {
    TwoFields(a, b);
    JoinTwo(a, b);
    SnakeIs(a + " " + b);
    LowerConcat(a + "_", b);
    LowerConcat(a, "_");
    assert Lower("_") == "_";
    var t := Lower(a) + "_" + Lower(b);
    assert t[|t| - 1] == LowerChar(b[|b| - 1]);
  }
}
