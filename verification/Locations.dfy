/** daemon/servers.go and daemon/job_servers.go: finding countries and cities by name, online and offline. */
module Locations {
  import opened Options
  import opened Text
  import opened Names
  import opened Catalogue

  datatype City = City(id: int, name: string)
  datatype Country = Country(id: int, name: string, code: string, cities: seq<City>)

  predicate CountryMatches(name: string, c: Country) {
    EqualFold(name, Snake(c.name)) || EqualFold(name, Snake(c.code))
  }

  predicate CityMatches(name: string, c: Country, city: City) {
    NamesCity(name, Snake(c.name), Snake(c.code), Snake(city.name))
  }

  predicate NamesCity(name: string, country: string, code: string, city: string) {
    EqualFold(name, city) || EqualFold(name, country + " " + city) || EqualFold(name, code + " " + city)
  }

  /** The name is that of the country or of one of its cities. */
  predicate Mentions(name: string, c: Country) {
    CountryMatches(name, c) || exists j :: 0 <= j < |c.cities| && CityMatches(name, c, c.cities[j])
  }

  /** The first match in list order: a country before its cities, cities in their order; -1 stands for none. */
  ghost predicate IsLocation(name: string, countries: seq<Country>, ci: int, cj: int) {
    if ci == -1 then
      cj == -1 && forall i :: 0 <= i < |countries| ==> !Mentions(name, countries[i])
    else
      && 0 <= ci < |countries|
      && (forall i :: 0 <= i < ci ==> !Mentions(name, countries[i]))
      && IsCity(name, countries[ci], cj)
  }

  ghost predicate IsCity(name: string, c: Country, cj: int) {
    if CountryMatches(name, c) then cj == -1
    else
      && 0 <= cj < |c.cities|
      && CityMatches(name, c, c.cities[cj])
      && forall j :: 0 <= j < cj ==> !CityMatches(name, c, c.cities[j])
  }

  lemma LocationUnique(name: string, countries: seq<Country>, i: int, j: int, k: int, l: int)
    requires IsLocation(name, countries, i, j) && IsLocation(name, countries, k, l)
    ensures i == k && j == l
  {
    if i != -1 {
      assert Mentions(name, countries[i]);
    }
    if k != -1 {
      assert Mentions(name, countries[k]);
    }
  }

  lemma {:induction false} CityExists(name: string, c: Country, n: nat) returns (j: int)
    requires n < |c.cities| && CityMatches(name, c, c.cities[n])
    ensures 0 <= j <= n && CityMatches(name, c, c.cities[j])
    ensures forall k :: 0 <= k < j ==> !CityMatches(name, c, c.cities[k])
  {
    j := n;
    if k :| 0 <= k < n && CityMatches(name, c, c.cities[k]) {
      j := CityExists(name, c, k);
    }
  }

  lemma {:induction false} FirstMention(name: string, countries: seq<Country>, n: nat) returns (i: nat)
    requires n < |countries| && Mentions(name, countries[n])
    ensures i <= n && Mentions(name, countries[i]) && forall k :: 0 <= k < i ==> !Mentions(name, countries[k])
  {
    i := n;
    if k :| 0 <= k < n && Mentions(name, countries[k]) {
      i := FirstMention(name, countries, k);
    }
  }

  lemma LocationExists(name: string, countries: seq<Country>) returns (ci: int, cj: int)
    ensures IsLocation(name, countries, ci, cj)
  {
    ci, cj := -1, -1;
    if n :| 0 <= n < |countries| && Mentions(name, countries[n]) {
      ci := FirstMention(name, countries, n);
      if !CountryMatches(name, countries[ci]) {
        var j :| 0 <= j < |countries[ci].cities| && CityMatches(name, countries[ci], countries[ci].cities[j]);
        cj := CityExists(name, countries[ci], j);
      }
    }
  }

  lemma HasLocation(name: string, countries: seq<Country>)
    ensures exists ci, cj :: IsLocation(name, countries, ci, cj)
  {
    var ci, cj := LocationExists(name, countries);
  }

  method LocationByName(name: string, countries: seq<Country>) returns (ci: int, cj: int)
    ensures IsLocation(name, countries, ci, cj)
  {
    for i := 0 to |countries|
      invariant forall k :: 0 <= k < i ==> !Mentions(name, countries[k])
    {
      var countryName := SnakeCase(countries[i].name);
      var countryCode := SnakeCase(countries[i].code);
      if EqualFold(name, countryName) || EqualFold(name, countryCode) {
        return i, -1;
      }
      var j := CityByName(name, countries[i], countryName, countryCode);
      if j < |countries[i].cities| {
        return i, j;
      }
    }
    return -1, -1;
  }

  /** The inner loop: the first city that fits, or the number of cities. */
  method CityByName(name: string, c: Country, countryName: string, countryCode: string) returns (j: nat)
    requires countryName == Snake(c.name) && countryCode == Snake(c.code)
    ensures j <= |c.cities| && (j < |c.cities| ==> CityMatches(name, c, c.cities[j]))
    ensures forall k :: 0 <= k < j ==> !CityMatches(name, c, c.cities[k])
  {
    j := 0;
    while j < |c.cities|
      invariant j <= |c.cities| && NoneBefore(name, c, j)
    {
      var fits := CityFits(name, c.cities[j], countryName, countryCode);
      assert CityMatches(name, c, c.cities[j]) == fits;
      if fits {
        return;
      }
      NoneNext(name, c, j);
      j := j + 1;
    }
  }

  method CityFits(name: string, city: City, countryName: string, countryCode: string) returns (fits: bool)
    ensures fits == NamesCity(name, countryName, countryCode, Snake(city.name))
  {
    var cityName := SnakeCase(city.name);
    fits := EqualFold(name, cityName) || EqualFold(name, countryName + " " + cityName)
            || EqualFold(name, countryCode + " " + cityName);
  }

  ghost predicate NoneBefore(name: string, c: Country, j: nat)
    requires j <= |c.cities|
  {
    forall k :: 0 <= k < j ==> !CityMatches(name, c, c.cities[k])
  }

  lemma NoneNext(name: string, c: Country, j: nat)
    requires j < |c.cities| && NoneBefore(name, c, j) && !CityMatches(name, c, c.cities[j])
    ensures NoneBefore(name, c, j + 1)
  {
  }

  /** The printed name of a listed country is found, at that country or at an earlier one that the
      name also fits, unless it ends in an underscore. */
  lemma PrintedNameFound(countries: seq<Country>, k: nat, titleCase: string -> string, ci: int, cj: int)
    requires CaseOnly(titleCase) && k < |countries|
    requires IsLocation(Title(countries[k].name, titleCase), countries, ci, cj)
    requires !EndsInUnderscore(Title(countries[k].name, titleCase))
    ensures 0 <= ci <= k && (ci == k ==> cj == -1)
    ensures ci == k <==> forall i :: 0 <= i < k ==> !Mentions(Title(countries[k].name, titleCase), countries[i])
  {
    var name := Title(countries[k].name, titleCase);
    TitleMatchesIff(countries[k].name, titleCase);
    assert Mentions(name, countries[k]);
    assert ci != -1;
    assert Mentions(name, countries[ci]);
  }

  // ----- the keys of the cached servers -----

  function GroupKeys(groups: seq<Group>): (r: seq<string>)
    ensures |r| == |groups| && forall i :: 0 <= i < |groups| ==> r[i] == Snake(groups[i].title)
  {
    seq(|groups|, i requires 0 <= i < |groups| => Snake(groups[i].title))
  }

  function HostId(s: Server): string {
    Split(s.hostname, '.')[0]
  }

  function CodeKey(code: string): string {
    if Snake(code) == "gb" then "uk" else Snake(code)
  }

  /** The names under which a cached server is found. */
  function Keys(s: Server): seq<string> {
    var home := Home(s);
    var country, code, city := Snake(home.countryName), CodeKey(home.countryCode), Snake(home.cityName);
    [country, code, country + " " + city, code + " " + city, city, Lower(HostId(s))] + GroupKeys(s.groups)
  }

  method GenerateKeys(s: Server) returns (keys: seq<string>)
    requires s.location.Some?
    ensures keys == Keys(s)
  {
    var host := Lower(Split(s.hostname, '.')[0]);
    var country := SnakeCase(s.location.value.countryName);
    var code := SnakeCase(s.location.value.countryCode);
    var city := SnakeCase(s.location.value.cityName);
    var titles := LowerTitles(s.groups);
    if code == "gb" {
      code := "uk";
    }
    keys := [country, code, country + " " + city, code + " " + city, city, host] + titles;
  }

  method LowerTitles(groups: seq<Group>) returns (titles: seq<string>)
    ensures titles == GroupKeys(groups)
  {
    titles := [];
    for i := 0 to |groups|
      invariant |titles| == i && forall j :: 0 <= j < i ==> titles[j] == Snake(groups[j].title)
    {
      var title := SnakeCase(groups[i].title);
      titles := titles + [title];
    }
  }

  /** What serverTagFromString looks for in place of the tag. */
  function Aliased(tag: string): string {
    if EqualFold(tag, "uk") then "gb" else tag
  }

  predicate InCountry(s: Server, c: Country) {
    s.location.Some? && s.location.value.countryName == c.name && s.location.value.countryCode == c.code
  }

  predicate InCity(s: Server, c: Country, city: City) {
    InCountry(s, c) && s.location.value.cityName == city.name
  }

  lemma SnakeFold(name: string)
    ensures Fold(Snake(name)) == Snake(name)
  {
    SnakeIdempotent(name);
    FoldSolid(Snake(name));
  }

  lemma FoldConcat(s: string, t: string)
    ensures Fold(s + t) == Fold(s) + Fold(t)
  {
  }

  lemma PairFold(s: string, t: string)
    requires Fold(s) == s && Fold(t) == t
    ensures Fold(s + " " + t) == s + " " + t
  {
    FoldConcat(s + " ", t);
    FoldConcat(s, " ");
  }

  lemma AliasedLower(tag: string)
    requires Fold(tag) == tag
    ensures Aliased(tag) == if tag == "uk" then "gb" else tag
  {
    assert Fold("uk") == "uk";
  }

  lemma FoldMatch(tag: string, name: string)
    requires Fold(tag) == tag && EqualFold(tag, Snake(name))
    ensures tag == Snake(name) && ' ' !in tag
  {
    SnakeFold(name);
    SnakeIdempotent(name);
  }

  lemma MatchIsKey(tag: string, c: Country)
    requires Fold(tag) == tag && CountryMatches(Aliased(tag), c)
    ensures tag != "uk" ==> tag == Snake(c.name) || tag == Snake(c.code)
    ensures ' ' !in tag
  {
    AliasedLower(tag);
    if tag != "uk" {
      if EqualFold(tag, Snake(c.name)) {
        FoldMatch(tag, c.name);
      } else {
        FoldMatch(tag, c.code);
      }
    }
  }

  /** The keys that are neither the country code nor a pair with the city. */
  predicate OtherKey(tag: string, s: Server) {
    || tag == Snake(Home(s).countryName)
    || tag == Snake(Home(s).cityName)
    || tag == Lower(HostId(s))
    || tag in GroupKeys(s.groups)
  }

  lemma KeysWithoutSpace(tag: string, s: Server)
    requires ' ' !in tag
    ensures tag in Keys(s) <==> tag == CodeKey(Home(s).countryCode) || OtherKey(tag, s)
  {
    var home := Home(s);
    var country, code, city := Snake(home.countryName), CodeKey(home.countryCode), Snake(home.cityName);
    assert (country + " " + city)[|country|] == ' ' && (code + " " + city)[|code|] == ' ';
    KeyIs(tag, s);
  }

  /** Cached servers are found under lower-case keys only, but for the name of the host. */
  lemma KeysAreLower(tag: string, s: Server)
    requires Fold(tag) != tag
    ensures tag in Keys(s) <==> tag == Lower(HostId(s))
  {
    var home := Home(s);
    KeyIs(tag, s);
    SnakeFold(home.countryName);
    SnakeFold(home.cityName);
    CodeFold(home.countryCode);
    PairFold(Snake(home.countryName), Snake(home.cityName));
    PairFold(CodeKey(home.countryCode), Snake(home.cityName));
    GroupsFold(tag, s.groups);
  }

  lemma CodeFold(code: string)
    ensures Fold(CodeKey(code)) == CodeKey(code)
  {
    SnakeFold(code);
    assert Fold("uk") == "uk";
  }

  lemma GroupsFold(tag: string, groups: seq<Group>)
    requires Fold(tag) != tag
    ensures tag !in GroupKeys(groups)
  {
    forall i | 0 <= i < |groups|
      ensures tag != GroupKeys(groups)[i]
    {
      SnakeFold(groups[i].title);
    }
  }

  /** When a tag that names a country online finds a cached server of that country too: in lower case always, except
      that "gb" and "uk" find only servers cached under exactly that name; otherwise only by the name of the host. */
  predicate FindsCountry(tag: string, c: Country, s: Server) {
    if Fold(tag) != tag then tag == Lower(HostId(s))
    else (tag != "gb" && tag != "uk") || tag == CodeKey(c.code) || OtherKey(tag, s)
  }

  lemma OfflineFindsCountry(tag: string, c: Country, s: Server)
    requires CountryMatches(Aliased(tag), c) && InCountry(s, c)
    ensures tag in Keys(s) <==> FindsCountry(tag, c, s)
  {
    if Fold(tag) != tag {
      KeysAreLower(tag, s);
    } else {
      MatchIsKey(tag, c);
      KeysWithoutSpace(tag, s);
    }
  }

  /** So the country code "gb" is known online but not offline. */
  lemma OfflineMissesGb(c: Country, s: Server)
    requires Snake(c.code) == "gb" && InCountry(s, c)
    ensures CountryMatches("gb", c) && ("gb" in Keys(s) <==> OtherKey("gb", s))
  {
    KeysWithoutSpace("gb", s);
  }

  lemma CityMatchIsKey(tag: string, c: Country, city: City)
    requires Fold(tag) == tag
    ensures CityMatches(tag, c, city) <==>
            tag in [Snake(city.name), Snake(c.name) + " " + Snake(city.name), Snake(c.code) + " " + Snake(city.name)]
  {
    SnakeFold(city.name);
    SnakeFold(c.name);
    SnakeFold(c.code);
    PairFold(Snake(c.name), Snake(city.name));
    PairFold(Snake(c.code), Snake(city.name));
  }

  lemma KeyIs(tag: string, s: Server)
    ensures var name, code, town := Snake(Home(s).countryName), CodeKey(Home(s).countryCode), Snake(Home(s).cityName);
            tag in Keys(s) <==>
              || tag == name || tag == code || tag == town || tag == name + " " + town || tag == code + " " + town
              || tag == Lower(HostId(s)) || tag in GroupKeys(s.groups)
  {
    var home := Home(s);
    var name, code, town := Snake(home.countryName), CodeKey(home.countryCode), Snake(home.cityName);
    InSix(name, code, name + " " + town, code + " " + town, town, Lower(HostId(s)), GroupKeys(s.groups), tag);
  }

  lemma InSix(a: string, b: string, c: string, d: string, e: string, f: string, rest: seq<string>, x: string)
    ensures x in [a, b, c, d, e, f] + rest <==> x == a || x == b || x == c || x == d || x == e || x == f || x in rest
  {
    var first := [a, b, c, d, e, f];
    assert first[0] == a && first[1] == b && first[2] == c && first[3] == d && first[4] == e && first[5] == f;
  }

  lemma PairIsNoName(s: string, t: string, name: string)
    ensures s + " " + t != Snake(name) && s + " " + t != CodeKey(name)
  {
    SnakeIdempotent(name);
    assert (s + " " + t)[|s|] == ' ';
  }

  /** The key "gb" and a city would be, where the servers are cached under "uk". */
  lemma GbPairIsKey(c: Country, city: City, s: Server)
    requires InCity(s, c, city) && Snake(c.code) == "gb"
    ensures var tag := "gb" + " " + Snake(city.name);
            tag in Keys(s) <==> Snake(c.name) == "gb" || tag == Lower(HostId(s))
  {
    var town := Snake(city.name);
    var tag := "gb" + " " + town;
    KeyIs(tag, s);
    PairIsNoName("gb", town, c.name);
    PairIsNoName("gb", town, c.code);
    PairIsNoName("gb", town, city.name);
    PairsEqual(Snake(c.name), "gb", town);
    PairsEqual("uk", "gb", town);
    PairIsNoGroup("gb", town, s.groups);
  }

  lemma PairIsNoGroup(s: string, t: string, groups: seq<Group>)
    ensures s + " " + t !in GroupKeys(groups)
  {
    forall i | 0 <= i < |groups|
      ensures s + " " + t != GroupKeys(groups)[i]
    {
      PairIsNoName(s, t, groups[i].title);
    }
  }

  lemma CityIsKey(tag: string, c: Country, city: City, s: Server)
    requires InCity(s, c, city)
    requires tag == Snake(city.name) || tag == Snake(c.name) + " " + Snake(city.name) ||
             (tag == Snake(c.code) + " " + Snake(city.name) && Snake(c.code) != "gb")
    ensures tag in Keys(s)
  {
    var keys := Keys(s);
    assert keys[4] == Snake(city.name) && keys[2] == Snake(c.name) + " " + Snake(city.name);
    assert keys[3] == CodeKey(c.code) + " " + Snake(city.name);
  }

  /** The same for a city: in lower case with exactly two exceptions, "uk" for a city named "gb", and "gb" with the
      city's name where "gb" is the country's code. */
  predicate FindsCity(tag: string, c: Country, city: City, s: Server) {
    if Fold(tag) != tag then tag == Lower(HostId(s))
    else if tag == "uk" then CodeKey(c.code) == "uk" || OtherKey(tag, s)
    else
      || Snake(c.code) != "gb" || tag != "gb" + " " + Snake(city.name)
      || Snake(c.name) == "gb" || tag == Lower(HostId(s))
  }

  lemma OfflineFindsCity(tag: string, c: Country, city: City, s: Server)
    requires CityMatches(Aliased(tag), c, city) && InCity(s, c, city)
    ensures tag in Keys(s) <==> FindsCity(tag, c, city, s)
  {
    if Fold(tag) != tag {
      KeysAreLower(tag, s);
    } else {
      LowerFindsCity(tag, c, city, s);
    }
  }

  lemma LowerFindsCity(tag: string, c: Country, city: City, s: Server)
    requires Fold(tag) == tag && CityMatches(Aliased(tag), c, city) && InCity(s, c, city)
    ensures tag in Keys(s) <==> FindsCity(tag, c, city, s)
  {
    if tag == "uk" {
      KeysWithoutSpace(tag, s);
    } else {
      AliasedLower(tag);
      NamedFindsCity(tag, c, city, s);
    }
  }

  lemma NamedFindsCity(tag: string, c: Country, city: City, s: Server)
    requires Fold(tag) == tag && tag != "uk" && CityMatches(tag, c, city) && InCity(s, c, city)
    ensures tag in Keys(s) <==> FindsCity(tag, c, city, s)
  {
    if Snake(c.code) == "gb" && tag == "gb" + " " + Snake(city.name) {
      GbPairIsKey(c, city, s);
    } else {
      CityMatchIsKey(tag, c, city);
      CityIsKey(tag, c, city, s);
    }
  }

  /** So "gb" and the city's name is known online but not offline, unless "gb" is the country's name too or the
      server's host is called so. */
  lemma OfflineMissesGbCity(c: Country, city: City, s: Server)
    requires Snake(c.code) == "gb" && InCity(s, c, city)
    ensures var tag := "gb" + " " + Snake(city.name);
            && CityMatches(Aliased(tag), c, city)
            && (tag in Keys(s) <==> Snake(c.name) == "gb" || tag == Lower(HostId(s)))
  {
    var tag := "gb" + " " + Snake(city.name);
    assert Fold("gb") == "gb";
    SnakeFold(city.name);
    PairFold("gb", Snake(city.name));
    AliasedLower(tag);
    assert |tag| > 2;
    CityMatchIsKey(tag, c, city);
    GbPairIsKey(c, city, s);
  }

  /** Where it is "gb", "uk" and the city's name is known offline only, unless "uk" is the country's name. */
  lemma OnlineMissesUkCity(c: Country, city: City, s: Server)
    requires Snake(c.code) == "gb" && InCity(s, c, city)
    ensures var tag := "uk" + " " + Snake(city.name);
            tag in Keys(s) && (CityMatches(Aliased(tag), c, city) <==> Snake(c.name) == "uk")
  {
    var tag := "uk" + " " + Snake(city.name);
    assert Keys(s)[3] == tag;
    assert Fold("uk") == "uk";
    SnakeFold(city.name);
    PairFold("uk", Snake(city.name));
    AliasedLower(tag);
    CityMatchIsKey(tag, c, city);
    UkPairIs(c.name, city.name);
  }

  lemma UkPairIs(country: string, city: string)
    ensures var tag := "uk" + " " + Snake(city);
            tag != Snake(city) && tag != "gb" + " " + Snake(city) && tag != "uk" &&
            (tag == Snake(country) + " " + Snake(city) <==> Snake(country) == "uk")
  {
    var tag := "uk" + " " + Snake(city);
    assert |tag| == 3 + |Snake(city)| && tag[0] == 'u' && ("gb" + " " + Snake(city))[0] == 'g';
    PairsEqual(Snake(country), "uk", Snake(city));
  }

  lemma PairsEqual(s: string, t: string, u: string)
    ensures s + " " + u == t + " " + u <==> s == t
  {
    if s + " " + u == t + " " + u {
      assert |s + " " + u| == |t + " " + u|;
      assert (s + " " + u)[..|s|] == s && (t + " " + u)[..|t|] == t;
    }
  }
}
