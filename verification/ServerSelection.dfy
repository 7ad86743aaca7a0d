/** daemon/servers.go: choosing servers for a tag and a group, through the API or from the cached servers. */
module ServerSelection {
  import opened Options
  import opened Text
  import opened Config
  import opened Catalogue
  import opened Locations
  import Names
  import Sorting

  const UNDEFINED := 0
  const DEDICATED_IP := 9
  const STANDARD_VPN_SERVERS := 11
  const OBFUSCATED := 17

  const GROUPS := map[
    "double_vpn" := 1,
    "onion_over_vpn" := 3,
    "dedicated_ip" := DEDICATED_IP,
    "standard_vpn_servers" := STANDARD_VPN_SERVERS,
    "p2p" := 15,
    "europe" := 19,
    "the_americas" := 21,
    "asia_pacific" := 23,
    "africa_the_middle_east_and_india" := 25,
    "obfuscated_servers" := OBFUSCATED]

  datatype Error =
    | DoubleGroup
    | GroupDoesNotExist
    | DedicatedIPServer
    | TagDoesNotExist
    | TagUndetermined
    | NoSuchTechnology
    | EmptyList
    | ServerIsUnavailable
    | VirtualServerSelected
    | Request(code: int)

  datatype Result<+T> = Ok(value: T) | Err(error: Error)

  datatype Action = ByUnknown | BySpeed | ByCountry | ByCity | ByName
  datatype ServerTag = ServerTag(action: Action, id: int)

  const NO_TAG := ServerTag(ByUnknown, 0)

  datatype ServersFilter = ServersFilter(limit: int, tech: int, group: int, tag: ServerTag)

  /** What the API would answer; any error is possible. */
  datatype Api = Api(
    countries: Result<seq<Country>>,
    server: int -> Result<Server>,
    recommended: ServersFilter -> Result<seq<Server>>)

  datatype Query = Query(
    technology: Technology,
    protocol: Protocol,
    obfuscated: bool,
    tag: string,
    groupFlag: string,
    count: int,
    allowVirtual: bool)

  /** A random index below a positive length. */
  ghost predicate Picks(pick: nat -> nat) {
    forall n :: n > 0 ==> pick(n) < n
  }

  // ----- tags and groups -----

  function GroupConvert(name: string): int {
    var key := Names.Snake(name);
    if key in GROUPS then GROUPS[key] else UNDEFINED
  }

  function ResolveServerGroup(flag: string, tag: string): Result<int> {
    var byTag, byFlag := GroupConvert(tag), GroupConvert(flag);
    if byTag != UNDEFINED && byFlag != UNDEFINED then Err(DoubleGroup)
    else if flag != "" then if byFlag == UNDEFINED then Err(GroupDoesNotExist) else Ok(byFlag)
    else Ok(byTag)
  }

  /** `^[a-z]{2}[0-9]{2,4}$` */
  predicate ServerNameShaped(tag: string) {
    && 4 <= |tag| <= 6
    && (forall i :: 0 <= i < 2 ==> 'a' <= tag[i] <= 'z')
    && (forall i :: 2 <= i < |tag| ==> '0' <= tag[i] <= '9')
  }

  predicate HasName(s: Server, tag: string) {
    EqualFold(tag, HostId(s))
  }

  function TagOfLocation(countries: seq<Country>, ci: int, cj: int): ServerTag
    requires 0 <= ci < |countries| && -1 <= cj < |countries[ci].cities|
  {
    if cj == -1 then ServerTag(ByCountry, countries[ci].id) else ServerTag(ByCity, countries[ci].cities[cj].id)
  }

  /** What is left when the tag is no location: the first server of that name. */
  function TagOfServer(tag: string, servers: seq<Server>): Result<ServerTag> {
    if servers == [] then Err(if ServerNameShaped(tag) then TagUndetermined else TagDoesNotExist)
    else if HasName(servers[0], tag) then Ok(ServerTag(ByName, servers[0].id))
    else TagOfServer(tag, servers[1..])
  }

  ghost function Locate(tag: string, countries: seq<Country>): (r: (int, int))
    ensures IsLocation(tag, countries, r.0, r.1)
  {
    HasLocation(tag, countries);
    var ci, cj :| IsLocation(tag, countries, ci, cj);
    (ci, cj)
  }

  /** Everything the selection looks at besides the query. */
  datatype World = World(api: Api, countries: seq<Country>, servers: seq<Server>)

  function KnownCountries(w: World): Result<seq<Country>> {
    if w.countries == [] then w.api.countries else Ok(w.countries)
  }

  ghost function TagOf(q: Query, group: int, w: World): Result<ServerTag> {
    if q.tag == "" then Ok(NO_TAG)
    else if group != UNDEFINED && q.groupFlag == "" then Ok(ServerTag(BySpeed, group))
    else if KnownCountries(w).Err? then Err(KnownCountries(w).error)
    else
      var countries := KnownCountries(w).value;
      var (ci, cj) := Locate(Aliased(q.tag), countries);
      if ci == -1 then TagOfServer(Aliased(q.tag), w.servers) else Ok(TagOfLocation(countries, ci, cj))
  }

  method ServerTagFromString(q: Query, group: int, w: World) returns (r: Result<ServerTag>)
    ensures r == TagOf(q, group, w)
  {
    if |q.tag| == 0 {
      return Ok(NO_TAG);
    }
    if group != UNDEFINED && q.groupFlag == "" {
      return Ok(ServerTag(BySpeed, group));
    }
    var tag := Aliased(q.tag);
    var countries := w.countries;
    if |countries| == 0 {
      if w.api.countries.Err? {
        return Err(w.api.countries.error);
      }
      countries := w.api.countries.value;
    }
    var ci, cj := LocationByName(tag, countries);
    LocationUnique(tag, countries, ci, cj, Locate(tag, countries).0, Locate(tag, countries).1);
    if ci != -1 {
      return Ok(TagOfLocation(countries, ci, cj));
    }
    r := FindServer(tag, w.servers);
  }

  /** The loop over the cached servers. */
  method FindServer(tag: string, servers: seq<Server>) returns (r: Result<ServerTag>)
    ensures r == TagOfServer(tag, servers)
  {
    for i := 0 to |servers|
      invariant TagOfServer(tag, servers) == TagOfServer(tag, servers[i..])
    {
      if HasName(servers[i], tag) {
        return Ok(ServerTag(ByName, servers[i].id));
      }
      assert servers[i..][1..] == servers[i + 1..];
    }
    return Err(if ServerNameShaped(tag) then TagUndetermined else TagDoesNotExist);
  }

  // ----- candidates -----

  predicate Fits(s: Server, q: Query) {
    IsConnectableWithProtocol(s, q.technology, q.protocol) && IsObfuscated(s) == q.obfuscated
  }

  function SpecificServerRemote(q: Query, tag: ServerTag, api: Api): (r: Result<seq<Server>>)
    ensures r.Ok? ==> |r.value| == 1 && Fits(r.value[0], q)
  {
    match api.server(tag.id)
    case Err(e) => Err(e)
    case Ok(s) => if Fits(s, q) then Ok([s]) else Err(ServerIsUnavailable)
  }

  function ServersRemote(q: Query, group: int, tag: ServerTag, api: Api): (r: Result<seq<Server>>)
    ensures r.Ok? ==> r.value != []
  {
    var tech := ToServerTechnology(q.technology, q.protocol, q.obfuscated);
    if tech.None? then Err(NoSuchTechnology)
    else
      var limit := if q.count != 1 then q.count else 20;
      var group := if group == UNDEFINED && q.obfuscated then OBFUSCATED else group;
      match api.recommended(ServersFilter(limit, tech.value, group, tag))
      case Err(e) => Err(e)
      case Ok(servers) => if servers == [] then Err(EmptyList) else Ok(servers)
  }

  predicate SelectFilter(s: Server, q: Query, group: int) {
    if group == UNDEFINED && q.tag == "" then InGroup(s, if q.obfuscated then OBFUSCATED else STANDARD_VPN_SERVERS)
    else (group != UNDEFINED ==> InGroup(s, group)) && (q.tag != "" ==> q.tag in s.keys)
  }

  predicate CanConnect(s: Server, q: Query, group: int) {
    Fits(s, q) && SelectFilter(s, q, group)
  }

  function Matching(servers: seq<Server>, q: Query, group: int): seq<Server> {
    Sorting.Filter(servers, (s: Server) => CanConnect(s, q, group))
  }

  predicate IsDedicatedIP(s: Server) {
    InGroup(s, DEDICATED_IP)
  }

  predicate Shared(s: Server) {
    !IsDedicatedIP(s)
  }

  predicate Physical(s: Server) {
    !IsVirtualLocation(s)
  }

  // ----- the whole selection -----

  datatype Chosen = Chosen(servers: seq<Server>, remote: bool)

  /** What the API offers for the tag. */
  ghost function Remote(q: Query, group: int, w: World): Result<seq<Server>> {
    match TagOf(q, group, w)
    case Err(e) => Err(e)
    case Ok(tag) =>
      if tag.action == ByName then SpecificServerRemote(q, tag, w.api) else ServersRemote(q, group, tag, w.api)
  }

  ghost predicate ResolvedByName(q: Query, group: int, w: World) {
    TagOf(q, group, w).Ok? && TagOf(q, group, w).value.action == ByName
  }

  /** The selection before virtual servers are dropped: the API's answer, else the cached servers. */
  ghost function Candidates(q: Query, w: World): Result<Chosen> {
    match ResolveServerGroup(q.groupFlag, q.tag)
    case Err(e) => Err(e)
    case Ok(group) =>
      if group == DEDICATED_IP then Err(DedicatedIPServer)
      else if TagOf(q, group, w) == Err(TagDoesNotExist) then Err(TagDoesNotExist)
      else if Remote(q, group, w).Ok? then Ok(Chosen(Remote(q, group, w).value, true))
      else
        match Cached(q, group, w)
        case Err(e) => Err(e)
        case Ok(servers) => Ok(Chosen(servers, false))
  }

  ghost function Cached(q: Query, group: int, w: World): Result<seq<Server>> {
    var matching := Matching(w.servers, q, group);
    if matching == [] then Err(ServerIsUnavailable)
    else if !ResolvedByName(q, group, w) && |matching| > 1 then Ok(Sorting.Filter(matching, Shared))
    else Ok(matching)
  }

  /** The last steps: drop virtual servers unless allowed, and draw one if one is asked for. */
  function Selected(q: Query, c: Chosen, pick: nat -> nat): Result<Chosen>
    requires Picks(pick)
  {
    var allowed := if q.allowVirtual then c.servers else Sorting.Filter(c.servers, Physical);
    if c.servers != [] && allowed == [] then Err(VirtualServerSelected)
    else if q.count == 1 && allowed != [] then Ok(Chosen([allowed[pick(|allowed|)]], c.remote))
    else Ok(Chosen(allowed, c.remote))
  }

  ghost function Select(q: Query, w: World, pick: nat -> nat): Result<Chosen>
    requires Picks(pick)
  {
    match Candidates(q, w)
    case Err(e) => Err(e)
    case Ok(c) => Selected(q, c, pick)
  }

  method GetServers(q: Query, w: World, pick: nat -> nat) returns (r: Result<Chosen>)
    requires Picks(pick)
    ensures r == Select(q, w, pick)
  {
    var group := ResolveServerGroup(q.groupFlag, q.tag);
    if group.Err? {
      return Err(group.error);
    }
    if group.value == DEDICATED_IP {
      return Err(DedicatedIPServer);
    }
    var tag := ServerTagFromString(q, group.value, w);
    if tag == Err(TagDoesNotExist) {
      return Err(TagDoesNotExist);
    }
    var ret := AskRemote(q, group.value, w, tag);
    var remote := true;
    if ret.Err? {
      remote := false;
      ret := AskCache(q, group.value, w, tag);
    }
    if ret.Err? {
      return Err(ret.error);
    }
    r := Finish(q, ret.value, remote, pick);
  }

  method Finish(q: Query, found: seq<Server>, remote: bool, pick: nat -> nat) returns (r: Result<Chosen>)
    requires Picks(pick)
    ensures r == Selected(q, Chosen(found, remote), pick)
  {
    var servers := found;
    if !q.allowVirtual && |servers| > 0 {
      servers := Sorting.Filter(servers, Physical);
      if |servers| == 0 {
        return Err(VirtualServerSelected);
      }
    }
    if q.count == 1 && |servers| > 0 {
      servers := [servers[pick(|servers|)]];
    }
    return Ok(Chosen(servers, remote));
  }

  method AskCache(q: Query, group: int, w: World, tag: Result<ServerTag>) returns (r: Result<seq<Server>>)
    requires tag == TagOf(q, group, w)
    ensures r == Cached(q, group, w)
  {
    r := FilterServers(q, group, w.servers);
    var byName := tag.Ok? && tag.value.action == ByName;
    if r.Ok? && !byName && |r.value| > 1 {
      r := Ok(Sorting.Filter(r.value, Shared));
    }
  }

  method AskRemote(q: Query, group: int, w: World, tag: Result<ServerTag>) returns (r: Result<seq<Server>>)
    requires tag == TagOf(q, group, w)
    ensures r == Remote(q, group, w)
  {
    if tag.Err? {
      return Err(tag.error);
    }
    if tag.value.action == ByName {
      return SpecificServerRemote(q, tag.value, w.api);
    }
    return ServersRemote(q, group, tag.value, w.api);
  }

  function FilterServers(q: Query, group: int, servers: seq<Server>): (r: Result<seq<Server>>)
    ensures r.Ok? ==> r.value != []
  {
    var matching := Matching(servers, q, group);
    if matching == [] then Err(ServerIsUnavailable) else Ok(matching)
  }

  datatype Pick = Picked(server: Server, remote: bool) | Failed(error: Error) | Crashed

  /** One server at random; a random index below zero does not exist. */
  ghost function PickOne(q: Query, w: World, pick: nat -> nat): Pick
    requires Picks(pick)
  {
    match Select(q.(count := 1), w, pick)
    case Err(e) => Failed(e)
    case Ok(c) => if c.servers == [] then Crashed else Picked(c.servers[pick(|c.servers|)], c.remote)
  }

  method PickServer(q: Query, w: World, pick: nat -> nat) returns (p: Pick)
    requires Picks(pick)
    ensures p == PickOne(q, w, pick)
  {
    var found := GetServers(q.(count := 1), w, pick);
    if found.Err? {
      return Failed(found.error);
    }
    var servers := found.value.servers;
    if |servers| == 0 {
      return Crashed;
    }
    return Picked(servers[pick(|servers|)], found.value.remote);
  }

  // ----- what is chosen -----

  /** The selection falls back on the cached servers. */
  ghost predicate FallsBack(q: Query, group: int, w: World) {
    && ResolveServerGroup(q.groupFlag, q.tag) == Ok(group) && group != DEDICATED_IP
    && TagOf(q, group, w) != Err(TagDoesNotExist)
    && Remote(q, group, w).Err?
  }

  /** Two or more cached servers fit, every one has a dedicated IP, and the tag is not a server's name. */
  ghost predicate OnlyDedicated(q: Query, group: int, w: World) {
    && !ResolvedByName(q, group, w)
    && |Matching(w.servers, q, group)| > 1
    && forall s :: s in Matching(w.servers, q, group) ==> IsDedicatedIP(s)
  }

  ghost predicate Stranded(q: Query, w: World) {
    exists group :: FallsBack(q, group, w) && OnlyDedicated(q, group, w)
  }

  lemma FilterEmpty(servers: seq<Server>, keep: Server -> bool)
    ensures Sorting.Filter(servers, keep) == [] <==> forall s :: s in servers ==> !keep(s)
  {
    var r := Sorting.Filter(servers, keep);
    if r != [] {
      assert r[0] in r;
    }
  }

  lemma RemoteNotEmpty(q: Query, group: int, w: World)
    ensures Remote(q, group, w).Ok? ==> Remote(q, group, w).value != []
  {
  }

  lemma CachedEmptyIff(q: Query, group: int, w: World)
    ensures Cached(q, group, w) == Ok([]) <==> OnlyDedicated(q, group, w)
  {
    FilterEmpty(Matching(w.servers, q, group), Shared);
  }

  lemma CandidatesEmptyIff(q: Query, w: World)
    ensures (Candidates(q, w).Ok? && Candidates(q, w).value.servers == []) <==> Stranded(q, w)
  {
    var resolved := ResolveServerGroup(q.groupFlag, q.tag);
    if resolved.Ok? {
      var group := resolved.value;
      RemoteNotEmpty(q, group, w);
      CachedEmptyIff(q, group, w);
      assert FallsBack(q, group, w) && OnlyDedicated(q, group, w) ==> Stranded(q, w);
    }
  }

  /** The list is empty without an error exactly when only dedicated-IP servers were cached for the query;
      otherwise a query for one server gets one. */
  lemma EmptyIffStranded(q: Query, w: World, pick: nat -> nat)
    requires Picks(pick)
    ensures (Select(q, w, pick).Ok? && Select(q, w, pick).value.servers == []) <==> Stranded(q, w)
    ensures Select(q, w, pick).Ok? && q.count == 1 && !Stranded(q, w) ==> |Select(q, w, pick).value.servers| == 1
  {
    CandidatesEmptyIff(q, w);
    if Candidates(q, w).Ok? {
      var servers := Candidates(q, w).value.servers;
      FilterEmpty(servers, Physical);
    }
  }

  /** So picking a server crashes exactly for such queries. */
  lemma PickCrashesIff(q: Query, w: World, pick: nat -> nat)
    requires Picks(pick)
    ensures PickOne(q, w, pick).Crashed? <==> Stranded(q.(count := 1), w)
  {
    EmptyIffStranded(q.(count := 1), w, pick);
  }

  /** One of two dedicated-IP servers in a cache of nothing else. */
  function DedicatedServer(id: int): Server {
    Server(id, "", "", 0, ONLINE, None, [ServerTechnology(WIREGUARD, ONLINE)],
           [Group(STANDARD_VPN_SERVERS, ""), Group(DEDICATED_IP, "")], [], [], 0, 0.0, 0.0, 0.0)
  }

  const QUICK_CONNECT := Query(NordLynx, Udp, false, "", "", 1, true)

  function Unreachable(error: Error): Api {
    Api(Err(error), id => Err(error), filter => Err(error))
  }

  lemma DedicatedFits(id: int)
    ensures CanConnect(DedicatedServer(id), QUICK_CONNECT, UNDEFINED) && IsDedicatedIP(DedicatedServer(id))
  {
    var s := DedicatedServer(id);
    assert s.technologies[0] == ServerTechnology(WIREGUARD, ONLINE) && |s.technologies| == 1;
    assert s.groups[0].id == STANDARD_VPN_SERVERS && s.groups[1].id == DEDICATED_IP;
  }

  lemma NoGroup()
    ensures ResolveServerGroup("", "") == Ok(UNDEFINED)
  {
    assert Names.Snake("") == "" by {
      Names.SolidSnake("");
      assert |Lower("")| == 0;
    }
    assert "" !in GROUPS;
  }

  /** It happens: a quick connect over NordLynx without an API and with such a cache. */
  lemma QuickConnectCrashes(countries: seq<Country>, error: Error, pick: nat -> nat)
    requires Picks(pick)
    ensures var w := World(Unreachable(error), countries, [DedicatedServer(1), DedicatedServer(2)]);
            PickOne(QUICK_CONNECT, w, pick).Crashed?
  {
    var w := World(Unreachable(error), countries, [DedicatedServer(1), DedicatedServer(2)]);
    NoGroup();
    assert FallsBack(QUICK_CONNECT, UNDEFINED, w);
    assert OnlyDedicated(QUICK_CONNECT, UNDEFINED, w) by {
      DedicatedFits(1);
      DedicatedFits(2);
      BothKept(DedicatedServer(1), DedicatedServer(2), (s: Server) => CanConnect(s, QUICK_CONNECT, UNDEFINED));
    }
    PickCrashesIff(QUICK_CONNECT, w, pick);
  }

  lemma BothKept(s: Server, t: Server, keep: Server -> bool)
    requires keep(s) && keep(t)
    ensures Sorting.Filter([s, t], keep) == [s, t]
  {
    assert [s, t][1..] == [t] && [t][1..] == [];
  }

  /** The server is one of the candidates; virtual ones only if they are allowed. */
  lemma ChosenFrom(q: Query, w: World, pick: nat -> nat, s: Server)
    requires Picks(pick)
    requires Select(q, w, pick).Ok? && s in Select(q, w, pick).value.servers
    ensures Candidates(q, w).Ok? && Candidates(q, w).value.remote == Select(q, w, pick).value.remote
    ensures s in Candidates(q, w).value.servers && (q.allowVirtual || !IsVirtualLocation(s))
  {
  }

  /** A server from the cache passes every test of the query; among several it has no dedicated IP. */
  lemma CachedCanConnect(q: Query, w: World, pick: nat -> nat, s: Server)
    requires Picks(pick)
    requires Select(q, w, pick).Ok? && !Select(q, w, pick).value.remote && s in Select(q, w, pick).value.servers
    ensures exists group :: FallsBack(q, group, w) && s in w.servers && CanConnect(s, q, group) &&
              (ResolvedByName(q, group, w) || |Matching(w.servers, q, group)| == 1 || !IsDedicatedIP(s))
  {
    ChosenFrom(q, w, pick, s);
    var group := ResolveServerGroup(q.groupFlag, q.tag).value;
    assert FallsBack(q, group, w);
    assert s in Matching(w.servers, q, group);
  }

  /** The refusal of virtual servers is given exactly when there are candidates and all are virtual. */
  lemma VirtualRefusedIff(q: Query, w: World, pick: nat -> nat)
    requires Picks(pick)
    ensures Select(q, w, pick) == Err(VirtualServerSelected) <==>
            !q.allowVirtual && Candidates(q, w).Ok? && Candidates(q, w).value.servers != [] &&
            (forall s :: s in Candidates(q, w).value.servers ==> IsVirtualLocation(s))
  {
    if Candidates(q, w).Ok? {
      FilterEmpty(Candidates(q, w).value.servers, Physical);
    }
  }

  // ----- names and groups lead where they were printed -----

  /** A printed group title selects the same group as the title itself. */
  lemma GroupOfTitle(title: string, titleCase: string -> string)
    requires Names.CaseOnly(titleCase)
    ensures GroupConvert(Names.Title(title, titleCase)) == GroupConvert(title)
  {
    Names.SnakeOfTitle(title, titleCase);
  }

  /** The tag resolves to a country or a city. */
  ghost predicate ResolvesToPlace(q: Query, group: int, w: World) {
    TagOf(q, group, w).Ok? && TagOf(q, group, w).value.action in {ByCountry, ByCity}
  }

  lemma PlaceIffMentioned(q: Query, group: int, w: World)
    requires q.tag != "" && w.countries != [] && (group == UNDEFINED || q.groupFlag != "")
    ensures ResolvesToPlace(q, group, w) <==>
            exists i :: 0 <= i < |w.countries| && Mentions(Aliased(q.tag), w.countries[i])
  {
    var (ci, cj) := Locate(Aliased(q.tag), w.countries);
    if ci == -1 {
      ServerTagOnlyByName(Aliased(q.tag), w.servers);
    } else {
      assert Mentions(Aliased(q.tag), w.countries[ci]);
    }
  }

  lemma {:induction false} ServerTagOnlyByName(tag: string, servers: seq<Server>)
    ensures TagOfServer(tag, servers).Ok? ==> TagOfServer(tag, servers).value.action == ByName
  {
    if servers != [] {
      ServerTagOnlyByName(tag, servers[1..]);
    }
  }

  /** The printed name of a known country resolves to a location: that country, unless an earlier one in
      the list has the name too.  A name that reads "uk" is looked for as "gb", and resolves iff that is known. */
  lemma PrintedNameResolves(q: Query, group: int, w: World, k: nat, titleCase: string -> string)
    requires Names.CaseOnly(titleCase) && k < |w.countries| && q.tag == Names.Title(w.countries[k].name, titleCase)
    requires q.tag != "" && !Names.EndsInUnderscore(q.tag)
    requires group == UNDEFINED || q.groupFlag != ""
    ensures ResolvesToPlace(q, group, w) <==>
            EqualFold(q.tag, "uk") ==> exists i :: 0 <= i < |w.countries| && Mentions("gb", w.countries[i])
    ensures !EqualFold(q.tag, "uk") && (forall i :: 0 <= i < k ==> !Mentions(q.tag, w.countries[i])) ==>
              TagOf(q, group, w) == Ok(ServerTag(ByCountry, w.countries[k].id))
  {
    PlaceIffMentioned(q, group, w);
    if !EqualFold(q.tag, "uk") {
      var (ci, cj) := Locate(q.tag, w.countries);
      PrintedNameFound(w.countries, k, titleCase, ci, cj);
      assert Mentions(q.tag, w.countries[ci]);
    }
  }

  /** A cached server whose keys are fresh is a candidate for a tag that names its country online exactly as
      FindsCountry says. */
  lemma OfflineCandidates(q: Query, w: World, c: Country, s: Server)
    requires s in w.servers && s.keys == Keys(s) && InCountry(s, c) && Fits(s, q)
    requires q.tag != "" && CountryMatches(Aliased(q.tag), c)
    ensures s in Matching(w.servers, q, UNDEFINED) <==> FindsCountry(q.tag, c, s)
  {
    OfflineFindsCountry(q.tag, c, s);
  }
}
