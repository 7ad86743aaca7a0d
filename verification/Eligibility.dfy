/** Which cached servers a query may get, and what it asks the API, over the records of the servers alone. */
module Eligibility {
  import opened Options
  import opened Config
  import opened Catalogue
  import opened ServerSelection
  import Locations
  import Names
  import Sorting
  import Text

  // ----- servers -----

  /** The server offers the technology with the id. */
  ghost predicate Offers(s: Server, id: int) {
    exists i :: 0 <= i < |s.technologies| && s.technologies[i].id == id && s.technologies[i].status == "online"
  }

  ghost predicate HasGroup(s: Server, id: int) {
    exists i :: 0 <= i < |s.groups| && s.groups[i].id == id
  }

  /** The first specification of that name has a value that reads as true. */
  ghost predicate Virtual(s: Server) {
    exists i :: 0 <= i < |s.specifications| && SaysVirtual(s.specifications, i)
  }

  ghost predicate SaysVirtual(specs: seq<Specification>, i: nat)
    requires i < |specs|
  {
    && specs[i].identifier == "virtual_location" && specs[i].values != []
    && Text.Lower(specs[i].values[0]) in ["1", "true", "enable", "enabled", "on"]
    && forall j :: 0 <= j < i ==> specs[j].identifier != "virtual_location"
  }

  lemma OffersIff(s: Server, id: int)
    ensures IsConnectableVia(s, id) <==> s.status == "online" && Offers(s, id)
  {
    if IsConnectableVia(s, id) {
      var i :| 0 <= i < |s.technologies| && s.technologies[i] == ServerTechnology(id, ONLINE);
    }
    if Offers(s, id) {
      var i :| 0 <= i < |s.technologies| && s.technologies[i].id == id && s.technologies[i].status == "online";
      assert s.technologies[i] == ServerTechnology(id, ONLINE);
    }
  }

  lemma HasGroupIff(s: Server, id: int)
    ensures InGroup(s, id) <==> HasGroup(s, id)
  {
    if InGroup(s, id) {
      var g :| g in s.groups && g.id == id;
      var i :| 0 <= i < |s.groups| && s.groups[i] == g;
    }
    if HasGroup(s, id) {
      var i :| 0 <= i < |s.groups| && s.groups[i].id == id;
      assert s.groups[i] in s.groups;
    }
  }

  lemma {:induction false} FirstSpecification(specs: seq<Specification>)
    ensures var values := SpecificationValues(specs, "virtual_location");
            values != [] && ReadsTrue(values[0]) <==> exists i :: 0 <= i < |specs| && SaysVirtual(specs, i)
  {
    if specs != [] {
      var rest := specs[1..];
      FirstSpecification(rest);
      if specs[0].identifier == "virtual_location" {
        assert forall i :: 0 < i < |specs| ==> !SaysVirtual(specs, i);
        assert SaysVirtual(specs, 0) <==> specs[0].values != [] && ReadsTrue(specs[0].values[0]);
      } else {
        assert forall i :: 0 <= i < |rest| ==> rest[i] == specs[i + 1];
        if i :| 0 <= i < |rest| && SaysVirtual(rest, i) {
          assert SaysVirtual(specs, i + 1);
        }
        if i :| 0 <= i < |specs| && SaysVirtual(specs, i) {
          assert SaysVirtual(rest, i - 1);
        }
      }
    }
  }

  /** A location is virtual iff the first specification of that name says so. */
  lemma VirtualIff(s: Server)
    ensures IsVirtualLocation(s) <==> Virtual(s)
  {
    FirstSpecification(s.specifications);
  }

  // ----- groups -----

  /** The group that the query names by its flag or, without a flag, by its tag; 0 is no group. */
  ghost predicate AsksForGroup(q: Query, group: int) {
    var byFlag, byTag := Names.Snake(q.groupFlag), Names.Snake(q.tag);
    if q.groupFlag != "" then byFlag in GROUPS && group == GROUPS[byFlag] && byTag !in GROUPS
    else if byTag in GROUPS then group == GROUPS[byTag]
    else group == 0
  }

  /** The id of every group that has a name. */
  lemma GroupIdIff(name: string)
    ensures var id, key := GroupConvert(name), Names.Snake(name);
            && (id == 1 <==> key == "double_vpn") && (id == 3 <==> key == "onion_over_vpn")
            && (id == 9 <==> key == "dedicated_ip") && (id == 11 <==> key == "standard_vpn_servers")
            && (id == 15 <==> key == "p2p") && (id == 17 <==> key == "obfuscated_servers")
            && (id == 19 <==> key == "europe") && (id == 21 <==> key == "the_americas")
            && (id == 23 <==> key == "asia_pacific") && (id == 25 <==> key == "africa_the_middle_east_and_india")
            && (id == 0 <==> key !in GROUPS)
  {
    assert |"double_vpn"| == 10 && |"onion_over_vpn"| == 14 && |"dedicated_ip"| == 12 && |"p2p"| == 3;
    assert |"standard_vpn_servers"| == 20 && |"obfuscated_servers"| == 18 && |"europe"| == 6;
    assert |"the_americas"| == 12 && |"asia_pacific"| == 12 && |"africa_the_middle_east_and_india"| == 32;
    assert "the_americas"[0] == 't' && "asia_pacific"[0] == 'a' && "dedicated_ip"[0] == 'd';
  }

  /** A group named twice and a flag that names none are the only errors. */
  lemma GroupResolvedIff(q: Query, group: int)
    ensures var r := ResolveServerGroup(q.groupFlag, q.tag);
            && (r == Ok(group) <==> AsksForGroup(q, group))
            && (r == Err(DoubleGroup) <==>
                Names.Snake(q.groupFlag) in GROUPS && Names.Snake(q.tag) in GROUPS)
            && (r == Err(GroupDoesNotExist) <==> q.groupFlag != "" && Names.Snake(q.groupFlag) !in GROUPS)
            && (r.Ok? || r == Err(DoubleGroup) || r == Err(GroupDoesNotExist))
  {
    assert forall key :: key in GROUPS ==> GROUPS[key] != 0;
    if q.groupFlag == "" {
      NoGroup();
      assert GroupConvert("") == UNDEFINED;
    }
  }

  // ----- the cached servers -----

  ghost predicate OffersProtocol(s: Server, q: Query) {
    || (q.technology == NordLynx && Offers(s, 35))
    || (q.technology == OpenVpn && q.protocol == Udp && (Offers(s, 3) || Offers(s, 15)))
    || (q.technology == OpenVpn && q.protocol == Tcp && (Offers(s, 5) || Offers(s, 17)))
  }

  /** The server is online, speaks the protocol, is obfuscated iff that is wanted, has the tag among its keys and is in
      the group; if neither is given, it is in group 17 or 11, obfuscated or standard. */
  ghost predicate Eligible(s: Server, q: Query, group: int) {
    && s.status == "online" && OffersProtocol(s, q)
    && (q.obfuscated <==> Offers(s, 15) && Offers(s, 17))
    && (q.tag != "" ==> q.tag in s.keys)
    && (group != 0 ==> HasGroup(s, group))
    && (group == 0 && q.tag == "" ==> HasGroup(s, if q.obfuscated then 17 else 11))
  }

  lemma FitsIff(s: Server, q: Query)
    ensures Fits(s, q) <==>
            s.status == "online" && OffersProtocol(s, q) && (q.obfuscated <==> Offers(s, 15) && Offers(s, 17))
  {
    OffersIff(s, 35);
    OffersIff(s, 3);
    OffersIff(s, 15);
    OffersIff(s, 5);
    OffersIff(s, 17);
  }

  lemma EligibleIff(s: Server, q: Query, group: int)
    ensures CanConnect(s, q, group) <==> Eligible(s, q, group)
  {
    FitsIff(s, q);
    HasGroupIff(s, group);
    HasGroupIff(s, 17);
    HasGroupIff(s, 11);
  }

  /** Two cached servers are eligible, and the tag is not a server's name. */
  ghost predicate Several(q: Query, group: int, w: World) {
    && !ResolvedByName(q, group, w)
    && exists i, j :: 0 <= i < j < |w.servers| && Eligible(w.servers[i], q, group) && Eligible(w.servers[j], q, group)
  }

  /** The server is cached and eligible; one of several has no dedicated IP. */
  ghost predicate Candidate(s: Server, q: Query, group: int, w: World) {
    s in w.servers && Eligible(s, q, group) && (Several(q, group, w) ==> !HasGroup(s, 9))
  }

  ghost predicate TwoKept(servers: seq<Server>, keep: Server -> bool) {
    exists i, j :: 0 <= i < j < |servers| && keep(servers[i]) && keep(servers[j])
  }

  lemma TwoKeptFront(servers: seq<Server>, keep: Server -> bool)
    requires servers != []
    ensures TwoKept(servers, keep) <==>
            TwoKept(servers[1..], keep) || (keep(servers[0]) && exists s :: s in servers[1..] && keep(s))
  {
    var rest := servers[1..];
    if i, j :| 0 <= i < j < |servers| && keep(servers[i]) && keep(servers[j]) {
      assert rest[j - 1] == servers[j] && servers[j] in rest;
      assert i > 0 ==> rest[i - 1] == servers[i];
    }
    if i, j :| 0 <= i < j < |rest| && keep(rest[i]) && keep(rest[j]) {
      assert servers[i + 1] == rest[i] && servers[j + 1] == rest[j];
    }
    if keep(servers[0]) && exists s :: s in rest && keep(s) {
      var s :| s in rest && keep(s);
      var j :| 0 <= j < |rest| && rest[j] == s;
      assert servers[j + 1] == s;
    }
  }

  lemma {:induction false} FilterTwo(servers: seq<Server>, keep: Server -> bool)
    ensures |Sorting.Filter(servers, keep)| > 1 <==> TwoKept(servers, keep)
  {
    if servers != [] {
      FilterTwo(servers[1..], keep);
      FilterEmpty(servers[1..], keep);
      TwoKeptFront(servers, keep);
    }
  }

  lemma SeveralIff(q: Query, group: int, w: World)
    ensures Several(q, group, w) <==> !ResolvedByName(q, group, w) && |Matching(w.servers, q, group)| > 1
  {
    var keep := (s: Server) => CanConnect(s, q, group);
    FilterTwo(w.servers, keep);
    forall i | 0 <= i < |w.servers|
      ensures keep(w.servers[i]) <==> Eligible(w.servers[i], q, group)
    {
      EligibleIff(w.servers[i], q, group);
    }
  }

  lemma CandidateIff(s: Server, q: Query, group: int, w: World)
    ensures Candidate(s, q, group, w) <==> Cached(q, group, w).Ok? && s in Cached(q, group, w).value
  {
    EligibleIff(s, q, group);
    HasGroupIff(s, 9);
    SeveralIff(q, group, w);
  }

  /** When the API gives no answer, the candidates are exactly the cached servers that are eligible, without those with
      a dedicated IP if there are several; and the query fails exactly when none is eligible. */
  lemma CachedCandidatesIff(q: Query, group: int, w: World, s: Server)
    requires FallsBack(q, group, w)
    ensures AsksForGroup(q, group)
    ensures Candidates(q, w).Err? <==> forall t :: t in w.servers ==> !Eligible(t, q, group)
    ensures Candidates(q, w).Ok? ==>
              !Candidates(q, w).value.remote && (s in Candidates(q, w).value.servers <==> Candidate(s, q, group, w))
  {
    GroupResolvedIff(q, group);
    CandidateIff(s, q, group, w);
    FilterEmpty(w.servers, (t: Server) => CanConnect(t, q, group));
    forall t | t in w.servers
      ensures CanConnect(t, q, group) <==> Eligible(t, q, group)
    {
      EligibleIff(t, q, group);
    }
  }

  /** A server that is chosen from the cache is eligible for the group that the query names. */
  lemma ChosenEligible(q: Query, w: World, pick: nat -> nat, s: Server)
    requires Picks(pick)
    requires Select(q, w, pick).Ok? && !Select(q, w, pick).value.remote && s in Select(q, w, pick).value.servers
    ensures exists group :: AsksForGroup(q, group) && Candidate(s, q, group, w)
    ensures q.allowVirtual || !Virtual(s)
  {
    ChosenFrom(q, w, pick, s);
    VirtualIff(s);
    var group := ResolveServerGroup(q.groupFlag, q.tag).value;
    CachedCandidatesIff(q, group, w, s);
  }

  /** Asked for any number but one, the selection from the cache is all candidates but the virtual ones, unless these
      are allowed. */
  lemma AllChosen(q: Query, group: int, w: World, pick: nat -> nat, s: Server)
    requires Picks(pick) && FallsBack(q, group, w) && q.count != 1 && Select(q, w, pick).Ok?
    ensures s in Select(q, w, pick).value.servers <==> Candidate(s, q, group, w) && (q.allowVirtual || !Virtual(s))
  {
    CachedCandidatesIff(q, group, w, s);
    VirtualIff(s);
  }

  // ----- the API -----

  /** The id of the technology that a server must offer. */
  lemma TechnologyIdIff(tech: Technology, protocol: Protocol, obfuscated: bool, id: int)
    ensures ToServerTechnology(tech, protocol, obfuscated) == Some(id) <==>
            || (id == 35 && tech == NordLynx)
            || (id == 3 && tech == OpenVpn && protocol == Udp && !obfuscated)
            || (id == 15 && tech == OpenVpn && protocol == Udp && obfuscated)
            || (id == 5 && tech == OpenVpn && protocol == Tcp && !obfuscated)
            || (id == 17 && tech == OpenVpn && protocol == Tcp && obfuscated)
  {
  }

  /** A server that offers the technology can be connected to with the settings, and settings that name none fit no
      server. */
  lemma TechnologyConnects(s: Server, tech: Technology, protocol: Protocol, obfuscated: bool)
    ensures var id := ToServerTechnology(tech, protocol, obfuscated);
            if id.None? then !IsConnectableWithProtocol(s, tech, protocol)
            else s.status == "online" && Offers(s, id.value) ==> IsConnectableWithProtocol(s, tech, protocol)
  {
    var id := ToServerTechnology(tech, protocol, obfuscated);
    if id.Some? {
      OffersIff(s, id.value);
    }
  }

  /** The API is asked for 20 servers to draw one from, or for the wanted number, and for group 17 if obfuscation is on
      and no group is named; the answer is the API's, unless it is empty. */
  lemma RemoteQuery(q: Query, group: int, tag: ServerTag, api: Api, id: int)
    requires ToServerTechnology(q.technology, q.protocol, q.obfuscated) == Some(id)
    ensures var asked := ServersFilter(if q.count == 1 then 20 else q.count, id,
                                       if group == 0 && q.obfuscated then 17 else group, tag);
            ServersRemote(q, group, tag, api) ==
              if api.recommended(asked) == Ok([]) then Err(EmptyList) else api.recommended(asked)
  {
  }

  /** A tag that is no location is the first server of that name, and without one it is only told apart by its shape. */
  lemma {:induction false} ServerTagIs(tag: string, servers: seq<Server>)
    ensures var r := TagOfServer(tag, servers);
            if r.Ok? then
              exists i :: 0 <= i < |servers| && r.value == ServerTag(ByName, servers[i].id) &&
                Text.EqualFold(tag, Locations.HostId(servers[i])) &&
                forall j :: 0 <= j < i ==> !Text.EqualFold(tag, Locations.HostId(servers[j]))
            else
              && (forall j :: 0 <= j < |servers| ==> !Text.EqualFold(tag, Locations.HostId(servers[j])))
              && r.error == if ServerNameShaped(tag) then TagUndetermined else TagDoesNotExist
  {
    if servers != [] && !HasName(servers[0], tag) {
      var rest := servers[1..];
      ServerTagIs(tag, rest);
      assert forall j :: 0 <= j < |rest| ==> rest[j] == servers[j + 1];
      if TagOfServer(tag, rest).Ok? {
        var i :| 0 <= i < |rest| && TagOfServer(tag, rest).value == ServerTag(ByName, rest[i].id) &&
          Text.EqualFold(tag, Locations.HostId(rest[i])) &&
          forall j :: 0 <= j < i ==> !Text.EqualFold(tag, Locations.HostId(rest[j]));
        assert servers[i + 1] == rest[i];
        assert forall j :: 0 < j < i + 1 ==> servers[j] == rest[j - 1];
      }
    }
  }

  /** A tag that is a location means that country or that city; one that names a group means the group. */
  lemma TagResolved(q: Query, group: int, w: World, ci: int, cj: int)
    requires q.tag != "" && w.countries != []
    requires Locations.IsLocation(Locations.Aliased(q.tag), w.countries, ci, cj)
    ensures group != 0 && q.groupFlag == "" ==> TagOf(q, group, w) == Ok(ServerTag(BySpeed, group))
    ensures (group == 0 || q.groupFlag != "") && ci >= 0 ==>
              TagOf(q, group, w) == Ok(if cj < 0 then ServerTag(ByCountry, w.countries[ci].id)
                                       else ServerTag(ByCity, w.countries[ci].cities[cj].id))
    ensures (group == 0 || q.groupFlag != "") && ci < 0 ==>
              TagOf(q, group, w) == TagOfServer(Locations.Aliased(q.tag), w.servers)
  {
    var (i, j) := Locate(Locations.Aliased(q.tag), w.countries);
    Locations.LocationUnique(Locations.Aliased(q.tag), w.countries, ci, cj, i, j);
  }

  /** A server that was named is asked for by its id, and it is the answer iff it is online and fits the settings. */
  lemma NamedServerIff(q: Query, group: int, w: World, id: int, s: Server)
    requires TagOf(q, group, w) == Ok(ServerTag(ByName, id))
    ensures Remote(q, group, w) == Ok([s]) <==>
            && w.api.server(id) == Ok(s) && s.status == "online" && OffersProtocol(s, q)
            && (q.obfuscated <==> Offers(s, 15) && Offers(s, 17))
    ensures Remote(q, group, w).Ok? ==> |Remote(q, group, w).value| == 1
  {
    FitsIff(s, q);
    if Remote(q, group, w) == Ok([s]) {
      assert [s][0] == s;
    }
  }

  /** The API's answer is taken whenever there is one. */
  lemma RemoteTaken(q: Query, group: int, w: World)
    requires AsksForGroup(q, group) && group != 9 && Remote(q, group, w).Ok?
    ensures Candidates(q, w) == Ok(Chosen(Remote(q, group, w).value, true))
  {
    GroupResolvedIff(q, group);
  }

  /** Dedicated servers are never chosen by their group, and a tag that cannot be anything is refused without asking. */
  lemma RefusedAtOnceIff(q: Query, w: World)
    ensures Candidates(q, w) == Err(DedicatedIPServer) <==> AsksForGroup(q, 9)
    ensures Candidates(q, w) == Err(TagDoesNotExist) <==>
            exists group :: AsksForGroup(q, group) && group != 9 && TagOf(q, group, w) == Err(TagDoesNotExist)
  {
    var r := ResolveServerGroup(q.groupFlag, q.tag);
    GroupResolvedIff(q, 9);
    if r.Ok? {
      GroupResolvedIff(q, r.value);
    }
    if group :| AsksForGroup(q, group) && group != 9 && TagOf(q, group, w) == Err(TagDoesNotExist) {
      GroupResolvedIff(q, group);
    }
  }
}
