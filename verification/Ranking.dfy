/** daemon/job_servers.go and daemon/data_manager.go: ranking servers and keeping them ranked. */
module Ranking {
  import opened Options
  import opened Penalties
  import opened Catalogue
  import Config
  import Locations
  import Names
  import Text
  import Firsts
  import Sorting

  /** What the job learns elsewhere: creation times (None cannot be parsed), distances, the user's
      country, the powers and the random component shared by all servers. */
  datatype Setting = Setting(
    parseTime: string -> Option<int>,
    distanceTo: Location -> real,
    country: string,
    pow: Powers,
    random: real)

  datatype Bounds = Bounds(distanceMin: real, distanceMax: real, timestampMin: int, timestampMax: int)

  /** The least and greatest values that occur. */
  ghost predicate AreBounds(b: Bounds, ss: seq<Server>) {
    && (forall i :: 0 <= i < |ss| ==>
          b.distanceMin <= ss[i].distance <= b.distanceMax && b.timestampMin <= ss[i].timestamp <= b.timestampMax)
    && (exists i :: 0 <= i < |ss| && ss[i].distance == b.distanceMin)
    && (exists i :: 0 <= i < |ss| && ss[i].distance == b.distanceMax)
    && (exists i :: 0 <= i < |ss| && ss[i].timestamp == b.timestampMin)
    && (exists i :: 0 <= i < |ss| && ss[i].timestamp == b.timestampMax)
  }

  function CreatedAt(s: Server, g: Setting): Option<int> {
    g.parseTime(s.createdAt)
  }

  function Placed(s: Server, g: Setting): Server
    requires CreatedAt(s, g).Some?
  {
    s.(timestamp := CreatedAt(s, g).value, distance := g.distanceTo(Home(s)))
  }

  /** What differs between servers of equal load besides distance and obfuscation. */
  function HubTerm(s: Server, g: Setting): real {
    CountryPenalty(g.country, Home(s).countryCode) * HubPenalty(Home(s).hubScore)
  }

  /** The score of the server is a number. */
  predicate Scorable(s: Server, b: Bounds) {
    b.distanceMin < b.distanceMax && (IsObfuscated(s) ==> b.timestampMin < b.timestampMax)
  }

  predicate AllScorable(ss: seq<Server>, b: Bounds) {
    forall i :: 0 <= i < |ss| ==> Scorable(ss[i], b)
  }

  function Scored(s: Server, b: Bounds, g: Setting): Server
    requires Scorable(s, b)
  {
    var partial := DistancePenalty(s.distance, b.distanceMin, b.distanceMax, g.pow) + g.random
                   + ObfuscationPenalty(IsObfuscated(s), s.timestamp, b.timestampMin, b.timestampMax) - HubTerm(s, g);
    s.(penalty := partial + g.pow.load(s.load), partialPenalty := partial)
  }

  predicate Cheaper(s: Server, t: Server) {
    s.penalty < t.penalty
  }

  lemma CheaperIsOrder()
    ensures Sorting.StrictWeakOrder(Cheaper)
  {
  }

  /** The job takes the location of every server for granted. */
  predicate Located(servers: seq<Server>) {
    forall s :: s in servers ==> s.location.Some?
  }

  /** Stores with every server the names under which it is found. */
  method SetKeys(servers: seq<Server>) returns (keyed: seq<Server>)
    requires Located(servers)
    ensures AreKeyed(keyed, servers)
  {
    keyed := [];
    for i := 0 to |servers|
      invariant |keyed| == i && forall j :: 0 <= j < i ==> keyed[j] == Keyed(servers[j])
    {
      assert servers[i] in servers;
      var keys := Locations.GenerateKeys(servers[i]);
      keyed := keyed + [servers[i].(keys := keys)];
    }
  }

  function Keyed(s: Server): Server {
    s.(keys := Locations.Keys(s))
  }

  ghost predicate AreKeyed(keyed: seq<Server>, servers: seq<Server>) {
    |keyed| == |servers| && forall i :: 0 <= i < |servers| ==> keyed[i] == Keyed(servers[i])
  }

  ghost predicate Unreadable(servers: seq<Server>, g: Setting) {
    exists s :: s in servers && CreatedAt(s, g).None?
  }

  /** First pass: places every server and finds the extremes; fails on the first unreadable date. */
  method PlaceServers(servers: seq<Server>, g: Setting) returns (r: Option<(seq<Server>, Bounds)>)
    requires servers != []
    ensures r.None? <==> Unreadable(servers, g)
    ensures r.Some? ==> ArePlaced(r.value.0, servers, g) && AreBounds(r.value.1, r.value.0)
  {
    if CreatedAt(servers[0], g).None? {
      return None;
    }
    var first := Placed(servers[0], g);
    var b := Bounds(first.distance, first.distance, first.timestamp, first.timestamp);
    var placed := [];
    for i := 0 to |servers|
      invariant PlacedSoFar(placed, b, servers, g, i, first)
    {
      if CreatedAt(servers[i], g).None? {
        return None;
      }
      var s := Placed(servers[i], g);
      PlacedNext(placed, b, servers, g, i, first, s);
      b := Widened(b, s);
      placed := placed + [s];
    }
    AllPlaced(placed, b, servers, g, first);
    return Some((placed, b));
  }

  /** The loop's invariant: the first i servers are placed and b are their extremes. */
  ghost predicate PlacedSoFar(placed: seq<Server>, b: Bounds, servers: seq<Server>, g: Setting, i: nat, first: Server) {
    i <= |servers| && ArePlaced(placed, servers[..i], g) && BoundsSoFar(b, placed, first)
  }

  lemma PlacedNext(placed: seq<Server>, b: Bounds, servers: seq<Server>, g: Setting, i: nat, first: Server, s: Server)
    requires PlacedSoFar(placed, b, servers, g, i, first) && i < |servers|
    requires CreatedAt(servers[i], g).Some? && s == Placed(servers[i], g) && (i == 0 ==> s == first)
    ensures PlacedSoFar(placed + [s], Widened(b, s), servers, g, i + 1, first)
  {
    assert ArePlaced(placed + [s], servers[..i + 1], g) by {
      OnePlaced(placed, servers[..i], g, servers[i]);
      assert servers[..i + 1] == servers[..i] + [servers[i]];
    }
    assert |placed| == i;
    WiderBounds(b, placed, first, s);
  }

  lemma OnePlaced(placed: seq<Server>, servers: seq<Server>, g: Setting, s: Server)
    requires ArePlaced(placed, servers, g) && CreatedAt(s, g).Some?
    ensures ArePlaced(placed + [Placed(s, g)], servers + [s], g)
  {
  }

  lemma AllPlaced(placed: seq<Server>, b: Bounds, servers: seq<Server>, g: Setting, first: Server)
    requires PlacedSoFar(placed, b, servers, g, |servers|, first) && servers != []
    ensures ArePlaced(placed, servers, g) && AreBounds(b, placed) && !Unreadable(servers, g)
  {
    assert servers[..|servers|] == servers;
  }

  /** One step of the min/max pass. */
  function Widened(b: Bounds, s: Server): Bounds {
    Bounds(if s.distance < b.distanceMin then s.distance else b.distanceMin,
           if s.distance > b.distanceMax then s.distance else b.distanceMax,
           if s.timestamp < b.timestampMin then s.timestamp else b.timestampMin,
           if s.timestamp > b.timestampMax then s.timestamp else b.timestampMax)
  }

  /** Before the first server the extremes are those of the first server. */
  ghost predicate BoundsSoFar(b: Bounds, ss: seq<Server>, first: Server) {
    if ss == [] then b == Bounds(first.distance, first.distance, first.timestamp, first.timestamp) else AreBounds(b, ss)
  }

  lemma WiderBounds(b: Bounds, ss: seq<Server>, first: Server, s: Server)
    requires BoundsSoFar(b, ss, first) && (ss == [] ==> s == first)
    ensures AreBounds(Widened(b, s), ss + [s])
  {
    var all := ss + [s];
    assert all[|ss|] == s;
    if ss != [] {
      var i1 :| 0 <= i1 < |ss| && ss[i1].distance == b.distanceMin;
      var i2 :| 0 <= i2 < |ss| && ss[i2].distance == b.distanceMax;
      var i3 :| 0 <= i3 < |ss| && ss[i3].timestamp == b.timestampMin;
      var i4 :| 0 <= i4 < |ss| && ss[i4].timestamp == b.timestampMax;
      assert all[i1] == ss[i1] && all[i2] == ss[i2] && all[i3] == ss[i3] && all[i4] == ss[i4];
    }
  }

  /** Not all servers are equally far nor, if any is obfuscated, equally old; otherwise scores are not numbers. */
  ghost predicate Spread(servers: seq<Server>, g: Setting) {
    && (exists i, j :: 0 <= i < j < |servers| && g.distanceTo(Home(servers[i])) != g.distanceTo(Home(servers[j])))
    && ((exists s :: s in servers && IsObfuscated(s)) ==>
          exists i, j :: 0 <= i < j < |servers| && CreatedAt(servers[i], g) != CreatedAt(servers[j], g))
  }

  ghost predicate StrictBounds(b: Bounds, ss: seq<Server>) {
    AreBounds(b, ss) && AllScorable(ss, b)
  }

  ghost predicate ArePlaced(placed: seq<Server>, servers: seq<Server>, g: Setting) {
    |placed| == |servers| && forall i :: 0 <= i < |servers| ==>
        CreatedAt(servers[i], g).Some? && placed[i] == Placed(servers[i], g)
  }

  ghost predicate RankedFrom(r: seq<Server>, placed: seq<Server>, b: Bounds, g: Setting) {
    StrictBounds(b, placed) && r == Sorting.StableSort(ScoreAll(placed, b, g), Cheaper)
  }

  /** The list that ranking produces: the servers placed, given keys and scored between the true extremes, sorted
      stably. */
  ghost predicate IsRanked(r: seq<Server>, servers: seq<Server>, g: Setting) {
    exists placed, keyed, b :: ArePlaced(placed, servers, g) && AreKeyed(keyed, placed) && RankedFrom(r, keyed, b, g)
  }

  function ScoreAll(ss: seq<Server>, b: Bounds, g: Setting): (r: seq<Server>)
    requires AllScorable(ss, b)
    ensures |r| == |ss| && forall i :: 0 <= i < |ss| ==> r[i] == Scored(ss[i], b, g)
  {
    seq(|ss|, i requires 0 <= i < |ss| => Scored(ss[i], b, g))
  }

  lemma PlacedAt(placed: seq<Server>, servers: seq<Server>, g: Setting, i: nat)
    requires ArePlaced(placed, servers, g) && i < |servers|
    ensures i < |placed| && placed[i].distance == g.distanceTo(Home(servers[i]))
    ensures CreatedAt(servers[i], g) == Some(placed[i].timestamp)
  {
  }

  lemma SpreadIsStrict(servers: seq<Server>, g: Setting, placed: seq<Server>, b: Bounds)
    requires Spread(servers, g) && ArePlaced(placed, servers, g) && AreBounds(b, placed)
    ensures AllScorable(placed, b)
  {
    var i, j :| 0 <= i < j < |servers| && g.distanceTo(Home(servers[i])) != g.distanceTo(Home(servers[j]));
    PlacedAt(placed, servers, g, i);
    PlacedAt(placed, servers, g, j);
    BoundsApart(b, placed, i, j);
    forall n | 0 <= n < |placed|
      ensures Scorable(placed[n], b)
    {
      assert placed[n] == Placed(servers[n], g) && servers[n] in servers;
      if IsObfuscated(placed[n]) {
        assert IsObfuscated(servers[n]);
        AgesApart(servers, g, placed, b);
      }
    }
  }

  lemma AgesApart(servers: seq<Server>, g: Setting, placed: seq<Server>, b: Bounds)
    requires ArePlaced(placed, servers, g) && AreBounds(b, placed)
    requires exists i, j :: 0 <= i < j < |servers| && CreatedAt(servers[i], g) != CreatedAt(servers[j], g)
    ensures b.timestampMin < b.timestampMax
  {
    var k, l :| 0 <= k < l < |servers| && CreatedAt(servers[k], g) != CreatedAt(servers[l], g);
    PlacedAt(placed, servers, g, k);
    PlacedAt(placed, servers, g, l);
    BoundsApart(b, placed, k, l);
  }

  lemma BoundsApart(b: Bounds, placed: seq<Server>, i: nat, j: nat)
    requires AreBounds(b, placed) && i < |placed| && j < |placed|
    ensures placed[i].distance != placed[j].distance ==> b.distanceMin < b.distanceMax
    ensures placed[i].timestamp != placed[j].timestamp ==> b.timestampMin < b.timestampMax
  {
  }

  lemma PlacedLocated(placed: seq<Server>, servers: seq<Server>, g: Setting)
    requires ArePlaced(placed, servers, g) && Located(servers)
    ensures Located(placed)
  {
    forall i | 0 <= i < |placed|
      ensures placed[i].location.Some?
    {
      assert servers[i] in servers;
    }
  }

  lemma SameBounds(b: Bounds, ss: seq<Server>, tt: seq<Server>)
    requires AreBounds(b, ss) && |ss| == |tt|
    requires forall i :: 0 <= i < |ss| ==> tt[i].distance == ss[i].distance && tt[i].timestamp == ss[i].timestamp
    ensures AreBounds(b, tt)
  {
    var i1 :| 0 <= i1 < |ss| && ss[i1].distance == b.distanceMin;
    var i2 :| 0 <= i2 < |ss| && ss[i2].distance == b.distanceMax;
    var i3 :| 0 <= i3 < |ss| && ss[i3].timestamp == b.timestampMin;
    var i4 :| 0 <= i4 < |ss| && ss[i4].timestamp == b.timestampMax;
    assert tt[i1].distance == b.distanceMin && tt[i2].distance == b.distanceMax;
    assert tt[i3].timestamp == b.timestampMin && tt[i4].timestamp == b.timestampMax;
  }

  lemma KeyedSame(s: Server, b: Bounds)
    ensures Keyed(s).distance == s.distance && Keyed(s).timestamp == s.timestamp
    ensures Scorable(Keyed(s), b) <==> Scorable(s, b)
  {
  }

  lemma KeyedBounds(keyed: seq<Server>, placed: seq<Server>, b: Bounds)
    requires AreKeyed(keyed, placed) && AreBounds(b, placed) && AllScorable(placed, b)
    ensures AreBounds(b, keyed) && AllScorable(keyed, b)
  {
    forall i | 0 <= i < |placed|
      ensures keyed[i].distance == placed[i].distance && keyed[i].timestamp == placed[i].timestamp &&
              Scorable(keyed[i], b)
    {
      assert keyed[i] == Keyed(placed[i]) && Scorable(placed[i], b);
      KeyedSame(placed[i], b);
    }
    SameBounds(b, placed, keyed);
  }

  /** JobServers on a fetched list: place, score, sort stably; an empty list is refused. */
  method RankServers(servers: seq<Server>, g: Setting) returns (r: Option<seq<Server>>)
    requires servers != [] ==> Spread(servers, g) && Located(servers)
    ensures r.None? <==> servers == [] || Unreadable(servers, g)
    ensures r.Some? ==> IsRanked(r.value, servers, g)
  {
    if |servers| == 0 {
      return None;
    }
    var found := PlaceServers(servers, g);
    if found.None? {
      return None;
    }
    var (placed, b) := found.value;
    SpreadIsStrict(servers, g, placed, b);
    PlacedLocated(placed, servers, g);
    var keyed := SetKeys(placed);
    KeyedBounds(keyed, placed, b);
    var ss := ScoreServers(keyed, b, g);
    var ranked := Sorting.StableSort(ss, Cheaper);
    assert RankedFrom(ranked, keyed, b, g);
    return Some(ranked);
  }

  /** Second pass: the penalty of every server. */
  method ScoreServers(placed: seq<Server>, b: Bounds, g: Setting) returns (ss: seq<Server>)
    requires AllScorable(placed, b)
    ensures ss == ScoreAll(placed, b, g)
  {
    ss := [];
    for i := 0 to |placed|
      invariant |ss| == i && forall j :: 0 <= j < i ==> ss[j] == Scored(placed[j], b, g)
    {
      ss := ss + [Scored(placed[i], b, g)];
    }
  }

  // ----- the order of a freshly ranked list -----

  lemma RankedMember(r: seq<Server>, placed: seq<Server>, b: Bounds, g: Setting, k: nat) returns (s: Server)
    requires RankedFrom(r, placed, b, g) && k < |r|
    ensures s in placed && Within(b, s) && Scorable(s, b) && r[k] == Scored(s, b, g)
  {
    Sorting.MultisetMembers(r, ScoreAll(placed, b, g));
    assert r[k] in ScoreAll(placed, b, g);
    var i :| 0 <= i < |placed| && ScoreAll(placed, b, g)[i] == r[k];
    s := placed[i];
  }

  lemma RankedSorted(r: seq<Server>, placed: seq<Server>, b: Bounds, g: Setting)
    requires RankedFrom(r, placed, b, g)
    ensures Sorting.SortedBy(r, Cheaper)
  {
    CheaperIsOrder();
    Sorting.StableSortSorts(ScoreAll(placed, b, g), Cheaper);
  }

  /** Of two servers, one that is not obfuscated comes first before one that is, if its load costs no more and its hub
      term is no smaller, however far it is: distance costs at most 0.7, obfuscation at least 0.85. */
  lemma PlainBeforeObfuscated(r: seq<Server>, servers: seq<Server>, g: Setting, i: nat, j: nat)
    requires IsRanked(r, servers, g) && GoodRoot(g.pow) && i < |r| && j < |r|
    requires !IsObfuscated(r[i]) && IsObfuscated(r[j])
    requires g.pow.load(r[i].load) <= g.pow.load(r[j].load) && HubTerm(r[i], g) >= HubTerm(r[j], g)
    ensures i < j && r[i].penalty + 0.15 <= r[j].penalty
  {
    var placed, keyed, b :| ArePlaced(placed, servers, g) && AreKeyed(keyed, placed) && RankedFrom(r, keyed, b, g);
    PlainFirst(r, keyed, b, g, i, j);
  }

  /** Every ranked server is found under the names that its own record gives it. */
  lemma RankedKeys(r: seq<Server>, servers: seq<Server>, g: Setting, i: nat)
    requires IsRanked(r, servers, g) && i < |r|
    ensures r[i].keys == Locations.Keys(r[i])
  {
    var placed, keyed, b :| ArePlaced(placed, servers, g) && AreKeyed(keyed, placed) && RankedFrom(r, keyed, b, g);
    var s := RankedMember(r, keyed, b, g, i);
    var k :| 0 <= k < |keyed| && keyed[k] == s;
    assert s == Keyed(placed[k]);
    SameKeys(placed[k], s);
    SameKeys(s, r[i]);
  }

  lemma SameKeys(s: Server, t: Server)
    requires s.hostname == t.hostname && s.location == t.location && s.groups == t.groups
    ensures Locations.Keys(s) == Locations.Keys(t)
  {
  }

  lemma PlainFirst(r: seq<Server>, placed: seq<Server>, b: Bounds, g: Setting, i: nat, j: nat)
    requires RankedFrom(r, placed, b, g) && GoodRoot(g.pow) && i < |r| && j < |r|
    requires !IsObfuscated(r[i]) && IsObfuscated(r[j])
    requires g.pow.load(r[i].load) <= g.pow.load(r[j].load) && HubTerm(r[i], g) >= HubTerm(r[j], g)
    ensures i < j && r[i].penalty + 0.15 <= r[j].penalty
  {
    PenaltiesApart(r, placed, b, g, i, j);
    RankedSorted(r, placed, b, g);
    CheaperFirst(r, i, j);
  }

  lemma CheaperFirst(r: seq<Server>, i: nat, j: nat)
    requires Sorting.SortedBy(r, Cheaper) && i < |r| && j < |r| && r[i].penalty < r[j].penalty
    ensures i < j
  {
    assert Cheaper(r[i], r[j]);
  }

  /** Of the same kind and worse in no respect: not farther, not older if obfuscated, no smaller hub term, no costlier
      load. */
  ghost predicate NotWorse(s: Server, t: Server, g: Setting) {
    && IsObfuscated(s) == IsObfuscated(t) && g.pow.load(s.load) <= g.pow.load(t.load)
    && s.distance <= t.distance && HubTerm(s, g) >= HubTerm(t, g)
    && (IsObfuscated(s) ==> s.timestamp >= t.timestamp)
  }

  ghost predicate Better(s: Server, t: Server, g: Setting) {
    || s.distance < t.distance || HubTerm(s, g) > HubTerm(t, g) || (IsObfuscated(s) && s.timestamp > t.timestamp)
    || g.pow.load(s.load) < g.pow.load(t.load)
  }

  /** Of two servers of one kind, one that is better in some respect and worse in none ranks first. */
  lemma BetterFirst(r: seq<Server>, servers: seq<Server>, g: Setting, i: nat, j: nat)
    requires IsRanked(r, servers, g) && RisingRoot(g.pow) && i < |r| && j < |r|
    requires NotWorse(r[i], r[j], g) && Better(r[i], r[j], g)
    ensures i < j && r[i].penalty < r[j].penalty
  {
    var placed, keyed, b :| ArePlaced(placed, servers, g) && AreKeyed(keyed, placed) && RankedFrom(r, keyed, b, g);
    var s := RankedMember(r, keyed, b, g, i);
    var t := RankedMember(r, keyed, b, g, j);
    ScoredKeeps(s, b, g);
    ScoredKeeps(t, b, g);
    BetterIsCheaper(s, t, b, g);
    RankedSorted(r, keyed, b, g);
    CheaperFirst(r, i, j);
  }

  lemma BetterIsCheaper(s: Server, t: Server, b: Bounds, g: Setting)
    requires Scorable(s, b) && Scorable(t, b)
    requires RisingRoot(g.pow) && Within(b, s) && Within(b, t) && NotWorse(s, t, g) && Better(s, t, g)
    ensures Scored(s, b, g).penalty < Scored(t, b, g).penalty
  {
    if s.distance < t.distance {
      DistancePenaltyRises(s.distance, t.distance, b.distanceMin, b.distanceMax, g.pow);
    }
    if IsObfuscated(s) && s.timestamp > t.timestamp {
      ObfuscationPenaltyFalls(t.timestamp, s.timestamp, b.timestampMin, b.timestampMax);
    }
  }

  lemma PenaltiesApart(r: seq<Server>, placed: seq<Server>, b: Bounds, g: Setting, i: nat, j: nat)
    requires RankedFrom(r, placed, b, g) && GoodRoot(g.pow) && i < |r| && j < |r|
    requires !IsObfuscated(r[i]) && IsObfuscated(r[j])
    requires g.pow.load(r[i].load) <= g.pow.load(r[j].load) && HubTerm(r[i], g) >= HubTerm(r[j], g)
    ensures r[i].penalty + 0.15 <= r[j].penalty
  {
    var s := RankedMember(r, placed, b, g, i);
    var t := RankedMember(r, placed, b, g, j);
    ScoredKeeps(s, b, g);
    ScoredKeeps(t, b, g);
    ScoresApart(s, t, b, g);
  }

  lemma ScoredKeeps(s: Server, b: Bounds, g: Setting)
    requires Scorable(s, b)
    ensures var r := Scored(s, b, g);
            && IsObfuscated(r) == IsObfuscated(s) && r.load == s.load && HubTerm(r, g) == HubTerm(s, g)
            && r.distance == s.distance && r.timestamp == s.timestamp
  {
  }

  ghost predicate Within(b: Bounds, s: Server) {
    b.distanceMin <= s.distance <= b.distanceMax && b.timestampMin <= s.timestamp <= b.timestampMax
  }

  lemma ScoresApart(s: Server, t: Server, b: Bounds, g: Setting)
    requires Scorable(s, b) && Scorable(t, b)
    requires GoodRoot(g.pow) && Within(b, s) && Within(b, t)
    requires !IsObfuscated(s) && IsObfuscated(t)
    requires g.pow.load(s.load) <= g.pow.load(t.load) && HubTerm(s, g) >= HubTerm(t, g)
    ensures Scored(s, b, g).penalty + 0.15 <= Scored(t, b, g).penalty
  {
    var ds := DistancePenalty(s.distance, b.distanceMin, b.distanceMax, g.pow);
    var dt := DistancePenalty(t.distance, b.distanceMin, b.distanceMax, g.pow);
    var ot := ObfuscationPenalty(true, t.timestamp, b.timestampMin, b.timestampMax);
    assert ds <= 0.7 && dt >= 0.0 && ot >= 0.85;
  }

  // ----- later updates -----

  function ReplaceFirst(ss: seq<Server>, id: int, f: Server -> Server): (r: seq<Server>)
    ensures |r| == |ss|
  {
    if ss == [] then [] else if ss[0].id == id then [f(ss[0])] + ss[1..] else [ss[0]] + ReplaceFirst(ss[1..], id, f)
  }

  /** Only the first server with the id changes. */
  lemma {:induction false} ReplaceFirstAt(ss: seq<Server>, id: int, f: Server -> Server, i: nat)
    requires i < |ss|
    ensures ReplaceFirst(ss, id, f)[i] ==
            if ss[i].id == id && (forall j :: 0 <= j < i ==> ss[j].id != id) then f(ss[i]) else ss[i]
  {
    if i > 0 {
      ReplaceFirstAt(ss[1..], id, f, i - 1);
      assert forall j :: 0 <= j < i - 1 ==> ss[1..][j] == ss[j + 1];
      if ss[0].id != id && ss[i].id == id && (forall j :: 0 <= j < i - 1 ==> ss[1..][j].id != id) {
        forall j | 0 <= j < i
          ensures ss[j].id != id
        {
          assert j > 0 ==> ss[1..][j - 1] == ss[j];
        }
      }
    }
  }

  function Repriced(status: string, load: int, pow: Powers): Server -> Server {
    (t: Server) => t.(status := status, penalty := t.partialPenalty + pow.load(load))
  }

  function Restated(status: string): Server -> Server {
    (t: Server) => t.(status := status)
  }

  datatype Update =
    | Penalty(id: int, status: string, load: int)
    | Status(id: int, status: string)

  function Apply(ss: seq<Server>, u: Update, pow: Powers): seq<Server> {
    match u
    case Penalty(id, status, load) => Sorting.StableSort(ReplaceFirst(ss, id, Repriced(status, load, pow)), Cheaper)
    case Status(id, status) => ReplaceFirst(ss, id, Restated(status))
  }

  /** What the listing of countries is asked for. */
  datatype Wanted = Wanted(technology: Config.Technology, protocol: Config.Protocol, obfuscated: bool,
                           virtualLocation: bool)

  datatype Entry = Entry(name: string, virtualLocation: bool)

  predicate Listed(s: Server, w: Wanted) {
    var tech := ToServerTechnology(w.technology, w.protocol, w.obfuscated);
    tech.Some? && IsConnectableVia(s, tech.value) && (w.virtualLocation || !IsVirtualLocation(s)) && s.location.Some?
  }

  function Code(s: Server): string {
    Home(s).countryCode
  }

  function EntryOf(s: Server, titleCase: string -> string): Entry {
    Entry(Names.Title(Home(s).countryName, titleCase), IsVirtualLocation(s))
  }

  function IsListed(w: Wanted): Server -> bool {
    (s: Server) => Listed(s, w)
  }

  function EntryBy(titleCase: string -> string): Server -> Entry {
    (s: Server) => EntryOf(s, titleCase)
  }

  /** The first listed server with its country code. */
  predicate Introduces(ss: seq<Server>, i: nat, w: Wanted)
    requires i < |ss|
  {
    Firsts.IsFirst(ss, IsListed(w), Code, i)
  }

  function Codes(ss: seq<Server>, w: Wanted): set<string> {
    Firsts.KeysOf(ss, IsListed(w), Code)
  }

  function Entries(ss: seq<Server>, w: Wanted, titleCase: string -> string): seq<Entry> {
    Firsts.ValuesOf(ss, IsListed(w), Code, EntryBy(titleCase))
  }

  predicate ByName(a: Entry, b: Entry) {
    Text.Less(a.name, b.name)
  }

  class DataManager {
    var servers: seq<Server>
    const pow: Powers

    constructor (pow: Powers)
      ensures servers == [] && this.pow == pow
    {
      servers, this.pow := [], pow;
    }

    method UpdateServerPenalty(id: int, status: string, load: int)
      modifies this
      ensures servers == Apply(old(servers), Penalty(id, status, load), pow)
    {
      var i := IndexOf(id);
      if i < |servers| {
        servers := servers[i := servers[i].(status := status, penalty := servers[i].partialPenalty + pow.load(load))];
      }
      ReplaceFirstIs(old(servers), id, Repriced(status, load, pow), i);
      servers := Sorting.StableSort(servers, Cheaper);
    }

    method SetServerStatus(id: int, status: string)
      modifies this
      ensures servers == Apply(old(servers), Status(id, status), pow)
    {
      var i := IndexOf(id);
      if i < |servers| {
        servers := servers[i := servers[i].(status := status)];
      }
      ReplaceFirstIs(old(servers), id, Restated(status), i);
    }

    /** The loop with its early exit: the first server with the id, or the length. */
    method IndexOf(id: int) returns (i: nat)
      ensures i <= |servers| && (i < |servers| ==> servers[i].id == id)
      ensures forall j :: 0 <= j < i ==> servers[j].id != id
    {
      i := 0;
      while i < |servers|
        invariant i <= |servers| && forall j :: 0 <= j < i ==> servers[j].id != id
      {
        if servers[i].id == id {
          break;
        }
        i := i + 1;
      }
    }

    /** One entry for each country code that a listed server has, under the printed name, sorted by name. */
    method Countries(w: Wanted, titleCase: string -> string) returns (r: Option<seq<Entry>>)
      ensures r.None? <==> ToServerTechnology(w.technology, w.protocol, w.obfuscated).None?
      ensures r.Some? ==> r.value == Sorting.StableSort(Entries(servers, w, titleCase), ByName)
    {
      if ToServerTechnology(w.technology, w.protocol, w.obfuscated).None? {
        return None;
      }
      var codes, entries := {}, [];
      for i := 0 to |servers|
        invariant entries == Entries(servers[..i], w, titleCase) && codes == Codes(servers[..i], w)
      {
        var s := servers[i];
        assert servers[..i + 1][..i] == servers[..i];
        if Listed(s, w) && Code(s) !in codes {
          codes := codes + {Code(s)};
          entries := entries + [EntryOf(s, titleCase)];
        }
      }
      assert servers[..|servers|] == servers;
      return Some(Sorting.StableSort(entries, ByName));
    }
  }

  lemma {:induction false} ReplaceFirstIs(ss: seq<Server>, id: int, f: Server -> Server, i: nat)
    requires i <= |ss| && (forall j :: 0 <= j < i ==> ss[j].id != id) && (i < |ss| ==> ss[i].id == id)
    ensures ReplaceFirst(ss, id, f) == if i < |ss| then ss[i := f(ss[i])] else ss
  {
    var r := if i < |ss| then ss[i := f(ss[i])] else ss;
    forall k | 0 <= k < |ss|
      ensures ReplaceFirst(ss, id, f)[k] == r[k]
    {
      ReplaceFirstAt(ss, id, f, k);
    }
  }

  /** What updates never change. */
  function Identity(s: Server): (int, real) {
    (s.id, s.partialPenalty)
  }

  function Identities(ss: seq<Server>): seq<(int, real)> {
    Sorting.Map(ss, Identity)
  }

  function ApplyAll(ss: seq<Server>, us: seq<Update>, pow: Powers): seq<Server> {
    if us == [] then ss else Apply(ApplyAll(ss, us[..|us| - 1], pow), us[|us| - 1], pow)
  }

  /** Sorted by penalty. */
  ghost predicate Ranked(ss: seq<Server>) {
    Sorting.SortedBy(ss, Cheaper)
  }

  lemma StatusKeepsRanked(ss: seq<Server>, id: int, status: string)
    requires Ranked(ss)
    ensures Ranked(ReplaceFirst(ss, id, Restated(status)))
  {
    forall i | 0 <= i < |ss|
      ensures ReplaceFirst(ss, id, Restated(status))[i].penalty == ss[i].penalty
    {
      ReplaceFirstAt(ss, id, Restated(status), i);
    }
  }

  lemma ReplaceKeepsIdentities(ss: seq<Server>, id: int, f: Server -> Server)
    requires forall s :: Identity(f(s)) == Identity(s)
    ensures Identities(ReplaceFirst(ss, id, f)) == Identities(ss)
  {
    forall i | 0 <= i < |ss|
      ensures Identities(ReplaceFirst(ss, id, f))[i] == Identities(ss)[i]
    {
      ReplaceFirstAt(ss, id, f, i);
    }
  }

  lemma ApplyKeepsRanked(ss: seq<Server>, u: Update, pow: Powers)
    requires Ranked(ss)
    ensures Ranked(Apply(ss, u, pow))
    ensures multiset(Identities(Apply(ss, u, pow))) == multiset(Identities(ss))
  {
    match u
    case Status(id, status) =>
      StatusKeepsRanked(ss, id, status);
      ReplaceKeepsIdentities(ss, id, Restated(status));
    case Penalty(id, status, load) =>
      var replaced := ReplaceFirst(ss, id, Repriced(status, load, pow));
      CheaperIsOrder();
      Sorting.StableSortSorts(replaced, Cheaper);
      ReplaceKeepsIdentities(ss, id, Repriced(status, load, pow));
      Sorting.MapStableSort(replaced, Cheaper, Identity);
  }

  /** After any number of updates a ranked list is ranked, and it still lists the same servers with the
      same partial penalties. */
  lemma {:induction false} UpdatesKeepRanked(ss: seq<Server>, us: seq<Update>, pow: Powers)
    requires Ranked(ss)
    ensures Ranked(ApplyAll(ss, us, pow))
    ensures multiset(Identities(ApplyAll(ss, us, pow))) == multiset(Identities(ss))
  {
    if us != [] {
      UpdatesKeepRanked(ss, us[..|us| - 1], pow);
      ApplyKeepsRanked(ApplyAll(ss, us[..|us| - 1], pow), us[|us| - 1], pow);
    }
  }

  function NotId(id: int): Server -> bool {
    (s: Server) => s.id != id
  }

  lemma {:induction false} ReplaceFiltered(ss: seq<Server>, id: int, f: Server -> Server)
    requires forall s :: f(s).id == s.id
    ensures Sorting.Filter(ReplaceFirst(ss, id, f), NotId(id)) == Sorting.Filter(ss, NotId(id))
  {
    if ss != [] {
      ReplaceFiltered(ss[1..], id, f);
      var r := ReplaceFirst(ss, id, f);
      assert r[1..] == if ss[0].id == id then ss[1..] else ReplaceFirst(ss[1..], id, f);
    }
  }

  /** An update moves only the server it names: all others, unchanged, stay in the order they had. */
  lemma OthersKeepOrder(ss: seq<Server>, u: Update, pow: Powers)
    requires Ranked(ss)
    ensures Sorting.Filter(Apply(ss, u, pow), NotId(u.id)) == Sorting.Filter(ss, NotId(u.id))
  {
    match u
    case Status(id, status) => ReplaceFiltered(ss, id, Restated(status));
    case Penalty(id, status, load) =>
      var f := Repriced(status, load, pow);
      CheaperIsOrder();
      Sorting.StableSortFiltered(ReplaceFirst(ss, id, f), Cheaper, NotId(id));
      ReplaceFiltered(ss, id, f);
      Sorting.FilterSorted(ss, Cheaper, NotId(id));
      Sorting.StableSortFixpoint(Sorting.Filter(ss, NotId(id)), Cheaper);
  }

  function Costs(penalty: real): Server -> bool {
    (s: Server) => s.penalty == penalty
  }

  /** Servers of equal penalty come in the order in which they stood when the update was sorted. */
  lemma EqualPenaltiesStable(ss: seq<Server>, id: int, status: string, load: int, pow: Powers, penalty: real)
    ensures Sorting.Filter(Apply(ss, Penalty(id, status, load), pow), Costs(penalty)) ==
            Sorting.Filter(ReplaceFirst(ss, id, Repriced(status, load, pow)), Costs(penalty))
  {
    Sorting.StableSortKeepsTies(ReplaceFirst(ss, id, Repriced(status, load, pow)), Cheaper, Costs(penalty));
  }

  // ----- the listed countries -----

  /** One entry for each code. */
  lemma EntriesCount(ss: seq<Server>, w: Wanted, titleCase: string -> string)
    ensures |Entries(ss, w, titleCase)| == |Codes(ss, w)|
  {
    Firsts.ValuesCount(ss, IsListed(w), Code, EntryBy(titleCase));
  }

  /** The entry of a server that introduces a code. */
  ghost predicate IsEntry(ss: seq<Server>, w: Wanted, titleCase: string -> string, e: Entry) {
    exists i :: 0 <= i < |ss| && Introduces(ss, i, w) && e == EntryOf(ss[i], titleCase)
  }

  lemma ByNameIsOrder()
    ensures Sorting.StrictWeakOrder(ByName)
  {
    forall a: Entry, b: Entry, c: Entry
      ensures (ByName(a, b) ==> !ByName(b, a)) && (ByName(a, c) ==> ByName(a, b) || ByName(b, c))
    {
      Text.LessOrder(a.name, b.name, c.name);
    }
  }

  /** The listing is sorted and holds exactly the entries of the servers that introduce a country code;
      every listed server's code is introduced. */
  lemma CountriesListed(ss: seq<Server>, w: Wanted, titleCase: string -> string, r: seq<Entry>)
    requires r == Sorting.StableSort(Entries(ss, w, titleCase), ByName)
    ensures Sorting.SortedBy(r, ByName)
    ensures forall e :: e in r <==> IsEntry(ss, w, titleCase, e)
    ensures forall k :: 0 <= k < |ss| && Listed(ss[k], w) ==>
              exists i ::
                0 <= i <= k && Introduces(ss, i, w) && Code(ss[i]) == Code(ss[k]) && EntryOf(ss[i], titleCase) in r
  {
    ByNameIsOrder();
    Sorting.StableSortSorts(Entries(ss, w, titleCase), ByName);
    Sorting.MultisetMembers(r, Entries(ss, w, titleCase));
    EntriesAre(ss, w, titleCase);
    forall k | 0 <= k < |ss| && Listed(ss[k], w)
      ensures exists i ::
                0 <= i <= k && Introduces(ss, i, w) && Code(ss[i]) == Code(ss[k]) && EntryOf(ss[i], titleCase) in r
    {
      var i := Firsts.FirstExists(ss, IsListed(w), Code, k);
      assert EntryOf(ss[i], titleCase) in Entries(ss, w, titleCase);
    }
  }

  lemma EntriesAre(ss: seq<Server>, w: Wanted, titleCase: string -> string)
    ensures forall e :: e in Entries(ss, w, titleCase) <==> IsEntry(ss, w, titleCase, e)
  {
    forall e
      ensures e in Entries(ss, w, titleCase) <==> IsEntry(ss, w, titleCase, e)
    {
      assert ss[..|ss|] == ss;
      Firsts.ValuesFrom(ss, IsListed(w), Code, EntryBy(titleCase), e, |ss|);
      assert forall i :: 0 <= i < |ss| ==> EntryBy(titleCase)(ss[i]) == EntryOf(ss[i], titleCase);
    }
  }

  /** Every name that the listing prints leads back to a location, as long as the country data knows the
      countries of the servers and the name does not end in an underscore. */
  lemma ListedNameFound(ss: seq<Server>, w: Wanted, titleCase: string -> string, e: Entry,
                        countries: seq<Locations.Country>)
    returns (ci: int, cj: int)
    requires Names.CaseOnly(titleCase) && e in Sorting.StableSort(Entries(ss, w, titleCase), ByName)
    requires !Names.EndsInUnderscore(e.name)
    requires forall s :: s in ss && Listed(s, w) ==>
             exists k :: 0 <= k < |countries| && countries[k].name == Home(s).countryName
    ensures Locations.IsLocation(e.name, countries, ci, cj) && 0 <= ci < |countries|
  {
    CountriesListed(ss, w, titleCase, Sorting.StableSort(Entries(ss, w, titleCase), ByName));
    var i :| 0 <= i < |ss| && Introduces(ss, i, w) && e == EntryOf(ss[i], titleCase);
    assert ss[i] in ss;
    var k :| 0 <= k < |countries| && countries[k].name == Home(ss[i]).countryName;
    ci, cj := Locations.LocationExists(e.name, countries);
    Locations.PrintedNameFound(countries, k, titleCase, ci, cj);
  }
}
