/** What the ranking answers: the score of every server as a formula over the fetched list, what updates do to it, and
    the countries that are listed. */
module RankingAnswers {
  import opened Options
  import opened Penalties
  import opened Catalogue
  import opened Ranking
  import Eligibility
  import Locations
  import Names
  import Sorting

  // ----- the score -----

  /** The least and the greatest distance in the list. */
  ghost predicate DistanceRange(servers: seq<Server>, g: Setting, lo: real, hi: real) {
    && (forall s :: s in servers ==> lo <= g.distanceTo(Home(s)) <= hi)
    && (exists s :: s in servers && g.distanceTo(Home(s)) == lo)
    && (exists s :: s in servers && g.distanceTo(Home(s)) == hi)
  }

  /** The first and the last time of creation in the list. */
  ghost predicate AgeRange(servers: seq<Server>, g: Setting, lo: int, hi: int) {
    && (forall s :: s in servers && CreatedAt(s, g).Some? ==> lo <= CreatedAt(s, g).value <= hi)
    && (exists s :: s in servers && CreatedAt(s, g) == Some(lo))
    && (exists s :: s in servers && CreatedAt(s, g) == Some(hi))
  }

  /** The hub score counts abroad only. */
  lemma HubTermIs(s: Server, g: Setting)
    requires s.location.Some?
    ensures HubTerm(s, g) ==
            if s.location.value.countryCode == g.country || s.location.value.hubScore.None? then 0.0
            else s.location.value.hubScore.value
  {
  }

  /** The part of the distance, 0 for the nearest server and 1 for the farthest, and that of the age. */
  function Part(x: real, lo: real, hi: real): real
    requires lo < hi
  {
    (x - lo) / (hi - lo)
  }

  function Seventh(x: real): real {
    x * x * x * x * x * x * x
  }

  /** The penalty without the load: up to 0.7 for the distance, the shared random component, from 0.85 to 1 for an
      obfuscated server, less for a younger one, and the hub score abroad as a bonus. */
  function Price(s: Server, g: Setting, lo: real, hi: real, first: int, last: int): real
    requires lo < hi && (IsObfuscated(s) ==> first < last) && s.location.Some?
  {
    var home := s.location.value;
    0.7 * g.pow.root(Part(s.distance, lo, hi)) + g.random
    + (if IsObfuscated(s) then 1.0 - 0.15 * Seventh(Part(s.timestamp as real, first as real, last as real)) else 0.0)
    - if home.countryCode == g.country || home.hubScore.None? then 0.0 else home.hubScore.value
  }

  /** `t` is the record `s` of the fetched list, with its distance, its age and its keys. */
  ghost predicate IsRecord(t: Server, s: Server, g: Setting) {
    && CreatedAt(s, g).Some?
    && t == s.(distance := g.distanceTo(Home(s)), timestamp := CreatedAt(s, g).value, keys := Locations.Keys(s),
               penalty := t.penalty, partialPenalty := t.partialPenalty)
  }

  lemma FourthIs(x: real)
    ensures Power(x, 4) == x * x * x * x
  {
    assert Power(x, 1) == x * Power(x, 0);
    assert Power(x, 2) == x * Power(x, 1);
    assert Power(x, 3) == x * Power(x, 2);
    assert Power(x, 4) == x * Power(x, 3);
  }

  lemma SeventhIs(x: real)
    ensures Power(x, FI) == Seventh(x)
  {
    FourthIs(x);
    assert Power(x, 5) == x * Power(x, 4);
    assert Power(x, 6) == x * Power(x, 5);
    assert Power(x, 7) == x * Power(x, 6);
  }

  lemma ScoredPrice(s: Server, b: Bounds, g: Setting)
    requires Scorable(s, b) && s.location.Some?
    ensures var t := Scored(s, b, g);
            && t.partialPenalty == Price(s, g, b.distanceMin, b.distanceMax, b.timestampMin, b.timestampMax)
            && t.penalty == t.partialPenalty + g.pow.load(s.load)
  {
    HubTermIs(s, g);
    if IsObfuscated(s) {
      SeventhIs(Part(s.timestamp as real, b.timestampMin as real, b.timestampMax as real));
    }
  }

  /** The bounds of the placed servers are the ranges of the list. */
  lemma BoundsAreRanges(b: Bounds, placed: seq<Server>, servers: seq<Server>, g: Setting, lo: real, hi: real,
                        first: int, last: int)
    requires ArePlaced(placed, servers, g) && AreBounds(b, placed)
    requires DistanceRange(servers, g, lo, hi) && AgeRange(servers, g, first, last)
    ensures b == Bounds(lo, hi, first, last)
  {
    DistancesAre(b, placed, servers, g, lo, hi);
    AgesAre(b, placed, servers, g, first, last);
  }

  lemma DistancesAre(b: Bounds, placed: seq<Server>, servers: seq<Server>, g: Setting, lo: real, hi: real)
    requires ArePlaced(placed, servers, g) && AreBounds(b, placed) && DistanceRange(servers, g, lo, hi)
    ensures b.distanceMin == lo && b.distanceMax == hi
  {
    forall s | s in servers
      ensures b.distanceMin <= g.distanceTo(Home(s)) <= b.distanceMax
    {
      var k :| 0 <= k < |servers| && servers[k] == s;
      PlacedAt(placed, servers, g, k);
    }
    NearestAttained(b, placed, servers, g);
  }

  lemma NearestAttained(b: Bounds, placed: seq<Server>, servers: seq<Server>, g: Setting)
    requires ArePlaced(placed, servers, g) && AreBounds(b, placed)
    ensures exists s :: s in servers && g.distanceTo(Home(s)) == b.distanceMin
    ensures exists s :: s in servers && g.distanceTo(Home(s)) == b.distanceMax
  {
    var i :| 0 <= i < |placed| && placed[i].distance == b.distanceMin;
    var j :| 0 <= j < |placed| && placed[j].distance == b.distanceMax;
    PlacedAt(placed, servers, g, i);
    PlacedAt(placed, servers, g, j);
    assert servers[i] in servers && servers[j] in servers;
  }

  lemma AgesAre(b: Bounds, placed: seq<Server>, servers: seq<Server>, g: Setting, first: int, last: int)
    requires ArePlaced(placed, servers, g) && AreBounds(b, placed) && AgeRange(servers, g, first, last)
    ensures b.timestampMin == first && b.timestampMax == last
  {
    forall s | s in servers
      ensures CreatedAt(s, g).Some? && b.timestampMin <= CreatedAt(s, g).value <= b.timestampMax
    {
      var k :| 0 <= k < |servers| && servers[k] == s;
      PlacedAt(placed, servers, g, k);
    }
    OldestAttained(b, placed, servers, g);
  }

  lemma OldestAttained(b: Bounds, placed: seq<Server>, servers: seq<Server>, g: Setting)
    requires ArePlaced(placed, servers, g) && AreBounds(b, placed)
    ensures exists s :: s in servers && CreatedAt(s, g) == Some(b.timestampMin)
    ensures exists s :: s in servers && CreatedAt(s, g) == Some(b.timestampMax)
  {
    var i :| 0 <= i < |placed| && placed[i].timestamp == b.timestampMin;
    var j :| 0 <= j < |placed| && placed[j].timestamp == b.timestampMax;
    PlacedAt(placed, servers, g, i);
    PlacedAt(placed, servers, g, j);
    assert servers[i] in servers && servers[j] in servers;
  }

  /** The same price, since it looks at nothing that ranking changes. */
  lemma SamePrice(s: Server, t: Server, g: Setting, lo: real, hi: real, first: int, last: int)
    requires lo < hi && (IsObfuscated(s) ==> first < last) && s.location.Some?
    requires t == s.(keys := t.keys, penalty := t.penalty, partialPenalty := t.partialPenalty)
    ensures IsObfuscated(t) == IsObfuscated(s) && Price(t, g, lo, hi, first, last) == Price(s, g, lo, hi, first, last)
  {
  }

  /** Every ranked server is a record of the list; its partial penalty is the price between the ranges of the list, and
      its penalty is that and what its load costs. */
  lemma RankedScore(r: seq<Server>, servers: seq<Server>, g: Setting, i: nat, lo: real, hi: real, first: int, last: int)
    requires IsRanked(r, servers, g) && i < |r| && Located(servers)
    requires DistanceRange(servers, g, lo, hi) && AgeRange(servers, g, first, last)
    ensures exists s :: s in servers && IsRecord(r[i], s, g)
    ensures lo < hi && (IsObfuscated(r[i]) ==> first < last) && r[i].location.Some?
    ensures r[i].partialPenalty == Price(r[i], g, lo, hi, first, last)
    ensures r[i].penalty == r[i].partialPenalty + g.pow.load(r[i].load)
  {
    var placed, keyed, b :| ArePlaced(placed, servers, g) && AreKeyed(keyed, placed) && RankedFrom(r, keyed, b, g);
    UnkeyedBounds(b, keyed, placed);
    BoundsAreRanges(b, placed, servers, g, lo, hi, first, last);
    var n := RankedOrigin(r, keyed, placed, servers, b, g, i);
    RecordScore(servers[n], b, g);
  }

  lemma RankedOrigin(r: seq<Server>, keyed: seq<Server>, placed: seq<Server>, servers: seq<Server>, b: Bounds,
                     g: Setting, i: nat)
    returns (n: nat)
    requires ArePlaced(placed, servers, g) && AreKeyed(keyed, placed) && RankedFrom(r, keyed, b, g) && i < |r|
    ensures n < |servers| && servers[n] in servers && CreatedAt(servers[n], g).Some?
    ensures Scorable(Keyed(Placed(servers[n], g)), b) && r[i] == Scored(Keyed(Placed(servers[n], g)), b, g)
  {
    var s := RankedMember(r, keyed, b, g, i);
    n :| 0 <= n < |keyed| && keyed[n] == s;
    assert s == Keyed(placed[n]) && placed[n] == Placed(servers[n], g);
  }

  lemma RecordScore(s: Server, b: Bounds, g: Setting)
    requires CreatedAt(s, g).Some? && s.location.Some? && Scorable(Keyed(Placed(s, g)), b)
    ensures var t := Scored(Keyed(Placed(s, g)), b, g);
            && IsRecord(t, s, g) && t.location.Some? && (IsObfuscated(t) ==> b.timestampMin < b.timestampMax)
            && t.partialPenalty == Price(t, g, b.distanceMin, b.distanceMax, b.timestampMin, b.timestampMax)
            && t.penalty == t.partialPenalty + g.pow.load(t.load)
  {
    var u := Keyed(Placed(s, g));
    ScoredIsRecord(s, b, g);
    ScoredPrice(u, b, g);
    SamePrice(u, Scored(u, b, g), g, b.distanceMin, b.distanceMax, b.timestampMin, b.timestampMax);
  }

  lemma UnkeyedBounds(b: Bounds, keyed: seq<Server>, placed: seq<Server>)
    requires AreKeyed(keyed, placed) && AreBounds(b, keyed)
    ensures AreBounds(b, placed)
  {
    forall i | 0 <= i < |keyed|
      ensures keyed[i].distance == placed[i].distance && keyed[i].timestamp == placed[i].timestamp
    {
      KeyedSame(placed[i], b);
    }
    SameBounds(b, keyed, placed);
  }

  lemma ScoredIsRecord(s: Server, b: Bounds, g: Setting)
    requires CreatedAt(s, g).Some? && Scorable(Keyed(Placed(s, g)), b)
    ensures IsRecord(Scored(Keyed(Placed(s, g)), b, g), s, g)
  {
    SameKeys(s, Placed(s, g));
  }

  lemma ScoredAt(scored: seq<Server>, keyed: seq<Server>, placed: seq<Server>, servers: seq<Server>, b: Bounds,
                 g: Setting, k: nat)
    requires ArePlaced(placed, servers, g) && AreKeyed(keyed, placed) && AllScorable(keyed, b)
    requires scored == ScoreAll(keyed, b, g) && k < |servers|
    ensures k < |scored| && IsRecord(scored[k], servers[k], g)
  {
    assert keyed[k] == Keyed(placed[k]) && placed[k] == Placed(servers[k], g);
    ScoredIsRecord(servers[k], b, g);
  }

  /** Nothing is lost: every server of the list is ranked, and nothing is added. */
  lemma RankedComplete(r: seq<Server>, servers: seq<Server>, g: Setting, k: nat)
    requires IsRanked(r, servers, g) && k < |servers|
    ensures |r| == |servers| && exists t :: t in r && IsRecord(t, servers[k], g)
  {
    var placed, keyed, b :| ArePlaced(placed, servers, g) && AreKeyed(keyed, placed) && RankedFrom(r, keyed, b, g);
    var scored := ScoreAll(keyed, b, g);
    ScoredAt(scored, keyed, placed, servers, b, g, k);
    Sorting.MultisetMembers(r, scored);
    assert scored[k] in scored;
  }

  // ----- updates -----

  ghost predicate IsFirstWith(ss: seq<Server>, id: int, i: nat) {
    i < |ss| && ss[i].id == id && forall j :: 0 <= j < i ==> ss[j].id != id
  }

  /** An update stores the status of the first server with the id and adds what the new load costs to its partial
      penalty. */
  lemma UpdatePrices(ss: seq<Server>, i: nat, status: string, load: int, pow: Powers)
    requires i < |ss| && IsFirstWith(ss, ss[i].id, i)
    ensures var s := ss[i].(status := status, penalty := ss[i].partialPenalty + pow.load(load));
            multiset(Apply(ss, Penalty(ss[i].id, status, load), pow)) == multiset(ss[i := s])
  {
    var f := Repriced(status, load, pow);
    ReplaceFirstIs(ss, ss[i].id, f, i);
    assert ReplaceFirst(ss, ss[i].id, f) == ss[i := f(ss[i])];
  }

  lemma UpdateRestates(ss: seq<Server>, i: nat, status: string, pow: Powers)
    requires i < |ss| && IsFirstWith(ss, ss[i].id, i)
    ensures Apply(ss, Status(ss[i].id, status), pow) == ss[i := ss[i].(status := status)]
  {
    ReplaceFirstIs(ss, ss[i].id, Restated(status), i);
  }

  /** An update for an id that is not there leaves a ranked list as it is. */
  lemma UnknownChangesNothing(ss: seq<Server>, u: Update, pow: Powers)
    requires Ranked(ss) && forall s :: s in ss ==> s.id != u.id
    ensures Apply(ss, u, pow) == ss
  {
    match u
    case Penalty(id, status, load) =>
      ReplaceFirstIs(ss, id, Repriced(status, load, pow), |ss|);
      Sorting.StableSortFixpoint(ss, Cheaper);
    case Status(id, status) => ReplaceFirstIs(ss, id, Restated(status), |ss|);
  }

  lemma OwnPriceFixed(ss: seq<Server>, i: nat, pow: Powers)
    requires Ranked(ss) && i < |ss| && IsFirstWith(ss, ss[i].id, i)
    requires ss[i].penalty == ss[i].partialPenalty + pow.load(ss[i].load)
    ensures Apply(ss, Penalty(ss[i].id, ss[i].status, ss[i].load), pow) == ss
  {
    var f := Repriced(ss[i].status, ss[i].load, pow);
    ReplaceFirstIs(ss, ss[i].id, f, i);
    assert f(ss[i]) == ss[i] && ss[i := ss[i]] == ss;
    Sorting.StableSortFixpoint(ss, Cheaper);
  }

  lemma LoadPriced(r: seq<Server>, servers: seq<Server>, g: Setting, i: nat)
    requires IsRanked(r, servers, g) && i < |r|
    ensures Ranked(r) && r[i].penalty == r[i].partialPenalty + g.pow.load(r[i].load)
  {
    var placed, keyed, b :| ArePlaced(placed, servers, g) && AreKeyed(keyed, placed) && RankedFrom(r, keyed, b, g);
    var s := RankedMember(r, keyed, b, g, i);
    RankedSorted(r, keyed, b, g);
  }

  /** In a freshly ranked list an update with a server's own status and load changes nothing. */
  lemma OwnLoadChangesNothing(r: seq<Server>, servers: seq<Server>, g: Setting, i: nat)
    requires IsRanked(r, servers, g) && i < |r| && IsFirstWith(r, r[i].id, i)
    ensures Apply(r, Penalty(r[i].id, r[i].status, r[i].load), g.pow) == r
  {
    LoadPriced(r, servers, g, i);
    OwnPriceFixed(r, i, g.pow);
  }

  // ----- the listed countries -----

  /** The server offers the technology with the id, and is not virtual unless these are wanted. */
  ghost predicate Shown(s: Server, id: int, virtualLocation: bool) {
    && s.status == "online" && Eligibility.Offers(s, id) && s.location.Some?
    && (Eligibility.Virtual(s) ==> virtualLocation)
  }

  /** The first such server with its country code. */
  ghost predicate FirstShown(ss: seq<Server>, i: nat, id: int, virtualLocation: bool) {
    && i < |ss| && Shown(ss[i], id, virtualLocation)
    && forall j :: 0 <= j < i && Shown(ss[j], id, virtualLocation) ==>
         ss[j].location.value.countryCode != ss[i].location.value.countryCode
  }

  lemma ShownIff(s: Server, w: Wanted, id: int)
    requires ToServerTechnology(w.technology, w.protocol, w.obfuscated) == Some(id)
    ensures Listed(s, w) <==> Shown(s, id, w.virtualLocation)
  {
    Eligibility.OffersIff(s, id);
    Eligibility.VirtualIff(s);
  }

  lemma FirstShownIff(ss: seq<Server>, i: nat, w: Wanted, id: int)
    requires ToServerTechnology(w.technology, w.protocol, w.obfuscated) == Some(id) && i < |ss|
    ensures Introduces(ss, i, w) <==> FirstShown(ss, i, id, w.virtualLocation)
  {
    forall j | 0 <= j < |ss|
      ensures IsListed(w)(ss[j]) <==> Shown(ss[j], id, w.virtualLocation)
    {
      ShownIff(ss[j], w, id);
    }
  }

  /** The listing has exactly one entry for each code of a server that is shown: the printed name of its country and
      whether it is virtual, as the first such server has them. */
  lemma CountriesAnswer(ss: seq<Server>, w: Wanted, titleCase: string -> string, id: int, e: Entry)
    requires ToServerTechnology(w.technology, w.protocol, w.obfuscated) == Some(id)
    ensures e in Sorting.StableSort(Entries(ss, w, titleCase), Ranking.ByName) <==>
            exists i :: 0 <= i < |ss| && FirstShown(ss, i, id, w.virtualLocation) &&
              e == Entry(Names.Title(ss[i].location.value.countryName, titleCase), Eligibility.Virtual(ss[i]))
  {
    CountriesListed(ss, w, titleCase, Sorting.StableSort(Entries(ss, w, titleCase), Ranking.ByName));
    forall i | 0 <= i < |ss|
      ensures Introduces(ss, i, w) <==> FirstShown(ss, i, id, w.virtualLocation)
      ensures FirstShown(ss, i, id, w.virtualLocation) ==>
                EntryOf(ss[i], titleCase) ==
                Entry(Names.Title(ss[i].location.value.countryName, titleCase), Eligibility.Virtual(ss[i]))
    {
      FirstShownIff(ss, i, w, id);
      Eligibility.VirtualIff(ss[i]);
    }
  }
}
