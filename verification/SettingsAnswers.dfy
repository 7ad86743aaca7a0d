/** What the settings requests promise: which are granted, what a granted one stores and what every answer means, read
    off the stored config, the request and the answers of the outside world. */
module SettingsAnswers {
  import opened Options
  import opened Config
  import opened Settings
  import opened SettingsInvariants
  import Sorting
  import Text

  // ----- parts of a request -----

  function Asked(dns: Option<seq<string>>): seq<string> {
    if dns.None? then [] else dns.value
  }

  /** LAN discovery covers the subnet. */
  predicate Covered(c: Config, subnet: string, lib: NetLib) {
    c.lanDiscovery && lib.parsePrefix(subnet) == Private
  }

  /** Where the two name a port or a range; the end is not held against the limit. */
  predicate InRange(startPort: int, endPort: int) {
    1 <= startPort <= 65535 && (endPort == 0 || startPort <= endPort)
  }

  /** There is something to do in the list: a single port to add is not there yet, and ports to remove are all there. */
  ghost predicate Changes(current: set<int>, startPort: int, endPort: int, remove: bool) {
    if remove then startPort in current && forall p :: startPort <= p <= endPort ==> p in current
    else endPort == 0 ==> startPort !in current
  }

  /** There is something to do in every list that is meant. */
  ghost predicate PortsChange(l: Allowlist, r: AllowlistRequest, remove: bool)
    requires r.PortsRequest?
  {
    && (r.isUdp ==> Changes(l.udp, r.startPort, r.endPort, remove))
    && (r.isTcp ==> Changes(l.tcp, r.startPort, r.endPort, remove))
  }

  ghost predicate AllowlistFits(c: Config, r: AllowlistRequest, remove: bool, lib: NetLib) {
    match r
    case SubnetRequest(s) =>
      !Covered(c, s, lib) && lib.parseCIDR(s) && (s in c.auto.allowlist.subnets <==> remove)
    case PortsRequest(isUdp, isTcp, startPort, endPort) =>
      (isUdp || isTcp ==> InRange(startPort, endPort)) && PortsChange(c.auto.allowlist, r, remove)
  }

  ghost predicate DnsFits(c: Config, asked: seq<string>, lib: NetLib) {
    && |asked| <= 3 && multiset(asked) != multiset(c.auto.dns)
    && forall x :: x in asked ==> lib.parseIP(x)
  }

  // ----- granted requests -----

  /** The request is granted, provided that the config can be written. */
  ghost predicate Ready(c: Config, r: Request, a: Answers, lib: NetLib) {
    match r
    case SetFirewall(enabled) => c.firewall != enabled && (c.killSwitch ==> enabled) && a.network
    case SetKillSwitch(enabled) => c.killSwitch != enabled && c.firewall && a.network
    case SetTechnology(technology) =>
      c.technology != technology && a.factory && (c.auto.postquantumVpn ==> technology == NordLynx)
    case SetProtocol(protocol) => c.auto.protocol != protocol && c.technology != NordLynx
    case SetPostQuantum(enabled) =>
      c.auto.postquantumVpn != enabled && (enabled ==> !c.mesh) && c.technology == NordLynx
    case SetThreatProtectionLite(enabled) => c.auto.threatProtectionLite != enabled && a.network
    case SetDns(dns) => DnsFits(c, Asked(dns), lib) && a.network
    case SetLanDiscovery(enabled) => c.lanDiscovery != enabled && a.network
    case SetAllowlist(request) => AllowlistFits(c, request, false, lib) && a.network
    case UnsetAllowlist(request) => AllowlistFits(c, request, true, lib) && a.network
    case UnsetAllAllowlist => a.network
    case SetAutoConnect(enabled, _, _, _, _) => a.loggedIn && if enabled then a.guard else c.autoConnect
    case SetObfuscate(enabled) => c.auto.obfuscate != enabled && (c.autoConnect ==> a.guard)
    case SetRouting(enabled) => c.routing != enabled && (c.mesh ==> enabled)
    case EnableMeshnet =>
      a.loggedIn && a.registered && !c.mesh && !c.auto.postquantumVpn && a.meshMap == MapOk && a.network
    case DisableMeshnet => c.mesh
    case Login(_) => !a.loggedIn && a.tokenWorks
    case Logout => a.loggedIn && a.network && c.auto.id in c.tokens && a.tokenWorks
    case SetDefaults => a.network && a.factory
  }

  ghost predicate Granted(c: Config, r: Request, a: Answers, lib: NetLib) {
    a.save && Ready(c, r, a, lib)
  }

  /** The ports of a list after a request for the list. */
  ghost predicate PortsDone(before: set<int>, after: set<int>, meant: bool, startPort: int, endPort: int, remove: bool)
  {
    forall p :: p in after <==>
                if meant && (p == startPort || startPort <= p <= endPort) then !remove else p in before
  }

  ghost predicate AllowlistDone(before: Allowlist, after: Allowlist, r: AllowlistRequest, remove: bool) {
    match r
    case SubnetRequest(s) =>
      after == before.(subnets := if remove then before.subnets - {s} else before.subnets + {s})
    case PortsRequest(isUdp, isTcp, startPort, endPort) =>
      && after.subnets == before.subnets
      && PortsDone(before.udp, after.udp, isUdp, startPort, endPort, remove)
      && PortsDone(before.tcp, after.tcp, isTcp, startPort, endPort, remove)
  }

  /** The config with the requested switches; the other requests are about lists. */
  function Wanted(c: Config, r: Request): Config {
    match r
    case SetFirewall(enabled) => c.(firewall := enabled)
    case SetKillSwitch(enabled) => c.(killSwitch := enabled)
    case SetTechnology(technology) =>
      if technology == NordLynx
      then c.(technology := NordLynx, auto := c.auto.(protocol := Udp, obfuscate := false))
      else c.(technology := technology)
    case SetProtocol(protocol) => c.(auto := c.auto.(protocol := protocol))
    case SetPostQuantum(enabled) => c.(auto := c.auto.(postquantumVpn := enabled))
    case SetThreatProtectionLite(enabled) => c.(auto := c.auto.(threatProtectionLite := enabled, dns := []))
    case SetAutoConnect(enabled, serverTag, country, city, group) =>
      if enabled
      then c.(autoConnect := true,
              auto := c.auto.(serverTag := serverTag, country := country, city := city, group := group))
      else c.(autoConnect := false)
    case SetObfuscate(enabled) => c.(auto := c.auto.(obfuscate := enabled))
    case SetRouting(enabled) => c.(routing := enabled)
    case EnableMeshnet => c.(mesh := true)
    case DisableMeshnet => c.(mesh := false)
    case Login(id) => c.(tokens := c.tokens + {id}, auto := c.auto.(id := id))
    case Logout => c.(tokens := c.tokens - {c.auto.id}, mesh := false, auto := c.auto.(id := 0))
    case UnsetAllAllowlist => c.(auto := c.auto.(allowlist := Allowlist({}, {}, {})))
    case SetDefaults => DEFAULT
    case _ => c
  }

  /** The name servers are stored sorted, and ThreatProtectionLite outlives only the request for none. */
  ghost predicate DnsStored(c: Config, d: Config, dns: Option<seq<string>>) {
    && d == c.(auto := c.auto.(threatProtectionLite := c.auto.threatProtectionLite && dns.None?, dns := d.auto.dns))
    && multiset(d.auto.dns) == multiset(Asked(dns)) && Sorting.SortedBy(d.auto.dns, Text.Less)
  }

  /** LAN discovery leaves only subnets that are certainly public. */
  ghost predicate DiscoveryStored(c: Config, d: Config, enabled: bool, lib: NetLib) {
    var before, after := c.auto.allowlist, d.auto.allowlist;
    && d == c.(lanDiscovery := enabled, auto := c.auto.(allowlist := before.(subnets := after.subnets)))
    && forall s :: s in after.subnets <==> s in before.subnets && (enabled ==> lib.parsePrefix(s) == Public)
  }

  ghost predicate AllowlistStored(c: Config, d: Config, r: AllowlistRequest, remove: bool) {
    && d == c.(auto := c.auto.(allowlist := d.auto.allowlist))
    && AllowlistDone(c.auto.allowlist, d.auto.allowlist, r, remove)
  }

  /** `d` is the config with exactly the requested change. */
  ghost predicate Done(c: Config, d: Config, r: Request, lib: NetLib) {
    match r
    case SetDns(dns) => DnsStored(c, d, dns)
    case SetLanDiscovery(enabled) => DiscoveryStored(c, d, enabled, lib)
    case SetAllowlist(request) => AllowlistStored(c, d, request, false)
    case UnsetAllowlist(request) => AllowlistStored(c, d, request, true)
    case _ => d == Wanted(c, r)
  }

  ghost predicate SucceedsIff(c: Config, r: Request, a: Answers, lib: NetLib) {
    Succeeds(Serve(c, r, a, lib).code) <==> Granted(c, r, a, lib)
  }

  /** A request succeeds iff it is granted. */
  lemma GrantedIff(c: Config, r: Request, a: Answers, lib: NetLib)
    ensures SucceedsIff(c, r, a, lib)
  {
    match r
    case SetDns(dns) => DnsGranted(c, dns, a, lib);
    case SetLanDiscovery(enabled) => DiscoveryGranted(c, enabled, a, lib);
    case SetAllowlist(request) => AllowlistGranted(c, request, false, a, lib);
    case UnsetAllowlist(request) => AllowlistGranted(c, request, true, a, lib);
    case SetTechnology(_) => VpnGranted(c, r, a, lib);
    case SetProtocol(_) => VpnGranted(c, r, a, lib);
    case SetPostQuantum(_) => FeatureGranted(c, r, a, lib);
    case SetThreatProtectionLite(_) => FeatureGranted(c, r, a, lib);
    case SetAutoConnect(_, _, _, _, _) => TargetGranted(c, r, a, lib);
    case SetObfuscate(_) => TargetGranted(c, r, a, lib);
    case EnableMeshnet => MeshGranted(c, r, a, lib);
    case DisableMeshnet => MeshGranted(c, r, a, lib);
    case SetRouting(_) => MeshGranted(c, r, a, lib);
    case Login(_) => AccountGranted(c, r, a, lib);
    case Logout => AccountGranted(c, r, a, lib);
    case SetDefaults => AccountGranted(c, r, a, lib);
    case _ => SwitchGranted(c, r, a, lib);
  }

  lemma SwitchGranted(c: Config, r: Request, a: Answers, lib: NetLib)
    requires r.SetFirewall? || r.SetKillSwitch? || r.UnsetAllAllowlist?
    ensures SucceedsIff(c, r, a, lib)
  {
  }

  lemma VpnGranted(c: Config, r: Request, a: Answers, lib: NetLib)
    requires r.SetTechnology? || r.SetProtocol?
    ensures SucceedsIff(c, r, a, lib)
  {
  }

  lemma FeatureGranted(c: Config, r: Request, a: Answers, lib: NetLib)
    requires r.SetPostQuantum? || r.SetThreatProtectionLite?
    ensures SucceedsIff(c, r, a, lib)
  {
  }

  lemma TargetGranted(c: Config, r: Request, a: Answers, lib: NetLib)
    requires r.SetAutoConnect? || r.SetObfuscate?
    ensures SucceedsIff(c, r, a, lib)
  {
  }

  lemma MeshGranted(c: Config, r: Request, a: Answers, lib: NetLib)
    requires r.EnableMeshnet? || r.DisableMeshnet? || r.SetRouting?
    ensures SucceedsIff(c, r, a, lib)
  {
  }

  lemma AccountGranted(c: Config, r: Request, a: Answers, lib: NetLib)
    requires r.Login? || r.Logout? || r.SetDefaults?
    ensures SucceedsIff(c, r, a, lib)
  {
  }

  lemma DnsGranted(c: Config, dns: Option<seq<string>>, a: Answers, lib: NetLib)
    ensures SucceedsIff(c, SetDns(dns), a, lib)
  {
    DnsSucceedsIff(c, dns, a, lib);
    DnsFitsIff(c, Asked(dns), lib);
  }

  lemma DiscoveryGranted(c: Config, enabled: bool, a: Answers, lib: NetLib)
    ensures SucceedsIff(c, SetLanDiscovery(enabled), a, lib)
  {
  }

  lemma AllowlistGranted(c: Config, request: AllowlistRequest, remove: bool, a: Answers, lib: NetLib)
    ensures SucceedsIff(c, if remove then UnsetAllowlist(request) else SetAllowlist(request), a, lib)
  {
    AllowlistAnswer(c, request, remove, lib);
  }

  ghost predicate Stores(c: Config, r: Request, a: Answers, lib: NetLib) {
    Succeeds(Serve(c, r, a, lib).code) ==> Done(c, Serve(c, r, a, lib).config, r, lib)
  }

  /** A request that succeeds is carried out. */
  lemma SuccessStores(c: Config, r: Request, a: Answers, lib: NetLib)
    ensures Stores(c, r, a, lib)
  {
    match r
    case SetDns(dns) => DnsStores(c, dns, a, lib);
    case SetLanDiscovery(enabled) => DiscoveryStores(c, enabled, a, lib);
    case SetAllowlist(request) => AllowlistStores(c, request, false, a, lib);
    case UnsetAllowlist(request) => AllowlistStores(c, request, true, a, lib);
    case SetTechnology(technology) => TechnologyStores(c, technology, a);
    case SetProtocol(_) => ProtocolStores(c, r, a, lib);
    case SetPostQuantum(_) => FeatureStores(c, r, a, lib);
    case SetThreatProtectionLite(_) => FeatureStores(c, r, a, lib);
    case SetAutoConnect(_, _, _, _, _) => AutoConnectStores(c, r, a, lib);
    case SetObfuscate(_) => ObfuscateStores(c, r, a, lib);
    case EnableMeshnet => MeshStores(c, r, a, lib);
    case DisableMeshnet => MeshStores(c, r, a, lib);
    case SetRouting(_) => MeshStores(c, r, a, lib);
    case Login(_) => AccountStores(c, r, a, lib);
    case Logout => AccountStores(c, r, a, lib);
    case SetDefaults => AccountStores(c, r, a, lib);
    case UnsetAllAllowlist => UnsetAllStores(c, a, lib);
    case _ => SwitchStores(c, r, a, lib);
  }

  lemma UnsetAllStores(c: Config, a: Answers, lib: NetLib)
    ensures Succeeds(Serve(c, UnsetAllAllowlist, a, lib).code) ==>
            Serve(c, UnsetAllAllowlist, a, lib).config == Wanted(c, UnsetAllAllowlist)
  {
  }

  lemma SwitchStores(c: Config, r: Request, a: Answers, lib: NetLib)
    requires r.SetFirewall? || r.SetKillSwitch?
    ensures Succeeds(Serve(c, r, a, lib).code) ==> Serve(c, r, a, lib).config == Wanted(c, r)
  {
  }

  lemma TechnologyStores(c: Config, technology: Technology, a: Answers)
    ensures var o := OnSetTechnology(c, technology, a);
            Succeeds(o.code) ==> o.config == Wanted(c, SetTechnology(technology))
  {
  }

  lemma ProtocolStores(c: Config, r: Request, a: Answers, lib: NetLib)
    requires r.SetProtocol?
    ensures Succeeds(Serve(c, r, a, lib).code) ==> Serve(c, r, a, lib).config == Wanted(c, r)
  {
  }

  lemma FeatureStores(c: Config, r: Request, a: Answers, lib: NetLib)
    requires r.SetPostQuantum? || r.SetThreatProtectionLite?
    ensures Succeeds(Serve(c, r, a, lib).code) ==> Serve(c, r, a, lib).config == Wanted(c, r)
  {
  }

  lemma AutoConnectStores(c: Config, r: Request, a: Answers, lib: NetLib)
    requires r.SetAutoConnect?
    ensures Succeeds(Serve(c, r, a, lib).code) ==> Serve(c, r, a, lib).config == Wanted(c, r)
  {
  }

  lemma ObfuscateStores(c: Config, r: Request, a: Answers, lib: NetLib)
    requires r.SetObfuscate?
    ensures Succeeds(Serve(c, r, a, lib).code) ==> Serve(c, r, a, lib).config == Wanted(c, r)
  {
  }

  lemma MeshStores(c: Config, r: Request, a: Answers, lib: NetLib)
    requires r.EnableMeshnet? || r.DisableMeshnet? || r.SetRouting?
    ensures Succeeds(Serve(c, r, a, lib).code) ==> Serve(c, r, a, lib).config == Wanted(c, r)
  {
  }

  lemma AccountStores(c: Config, r: Request, a: Answers, lib: NetLib)
    requires r.Login? || r.Logout? || r.SetDefaults?
    ensures Succeeds(Serve(c, r, a, lib).code) ==> Serve(c, r, a, lib).config == Wanted(c, r)
  {
  }

  lemma DnsStores(c: Config, dns: Option<seq<string>>, a: Answers, lib: NetLib)
    ensures Stores(c, SetDns(dns), a, lib)
  {
    if Succeeds(OnSetDns(c, dns, a, lib).code) {
      DnsOnly(c, dns, a, lib);
      DnsConfiguredCodes(c, dns, a, lib);
      DnsAlreadySetIff(c, dns, a, lib);
      DnsStoredIf(c, OnSetDns(c, dns, a, lib).config, dns);
    }
  }

  lemma DnsStoredIf(c: Config, d: Config, dns: Option<seq<string>>)
    requires SameButDns(c, d) && d.auto.threatProtectionLite == (c.auto.threatProtectionLite && dns.None?)
    requires multiset(d.auto.dns) == multiset(Asked(dns)) && Sorting.SortedBy(d.auto.dns, Text.Less)
    ensures DnsStored(c, d, dns)
  {
  }

  lemma DiscoveryStores(c: Config, enabled: bool, a: Answers, lib: NetLib)
    ensures var o := OnSetLanDiscovery(c, enabled, a, lib);
            Succeeds(o.code) ==> DiscoveryStored(c, o.config, enabled, lib)
  {
  }

  lemma AllowlistStores(c: Config, request: AllowlistRequest, remove: bool, a: Answers, lib: NetLib)
    ensures var o := OnAllowlist(c, request, remove, a, lib);
            Succeeds(o.code) ==> AllowlistStored(c, o.config, request, remove)
  {
    AllowlistAnswer(c, request, remove, lib);
  }

  lemma DnsFitsIff(c: Config, asked: seq<string>, lib: NetLib)
    ensures DnsFits(c, asked, lib) <==>
            && |asked| <= 3 && SortStrings(asked) != SortStrings(c.auto.dns)
            && AllAddresses(SortStrings(asked), lib)
  {
    SortStringsCanonical(asked, c.auto.dns);
    SameElements(SortStrings(asked), asked);
  }

  lemma DnsSucceedsIff(c: Config, dns: Option<seq<string>>, a: Answers, lib: NetLib)
    ensures Succeeds(OnSetDns(c, dns, a, lib).code) <==>
            && |Asked(dns)| <= 3 && SortStrings(Asked(dns)) != SortStrings(c.auto.dns)
            && AllAddresses(SortStrings(Asked(dns)), lib) && a.network && a.save
  {
  }

  lemma SameElements(a: seq<string>, b: seq<string>)
    requires multiset(a) == multiset(b)
    ensures forall x :: x in a <==> x in b
  {
    forall x
      ensures x in a <==> x in b
    {
      assert x in a <==> x in multiset(a);
      assert x in b <==> x in multiset(b);
    }
  }

  /** The new allowlist, or why there is none. */
  lemma AllowlistAnswer(c: Config, request: AllowlistRequest, remove: bool, lib: NetLib)
    ensures var n := AllowlistAfter(c, request, remove, lib);
            && (n.NewAllowlist? <==> AllowlistFits(c, request, remove, lib))
            && (n.NewAllowlist? ==> AllowlistDone(c.auto.allowlist, n.allowlist, request, remove))
            && (n.Rejected? ==> AllowlistRefusal(c, request, remove, lib, n.code))
  {
    match request
    case SubnetRequest(_) =>
    case PortsRequest(isUdp, isTcp, startPort, endPort) =>
      PortsErrorIs(startPort, endPort, c.auto.allowlist.udp, remove);
      PortsErrorIs(startPort, endPort, c.auto.allowlist.tcp, remove);
  }

  lemma PortsErrorIs(startPort: int, endPort: int, current: set<int>, remove: bool)
    ensures var e := PortsError(startPort, endPort, current, remove);
            && (e == Some(AllowlistPortOutOfRange) <==> !InRange(startPort, endPort))
            && (e == Some(AllowlistPortNoop) <==>
                InRange(startPort, endPort) && !Changes(current, startPort, endPort, remove))
            && (e == None || e == Some(AllowlistPortOutOfRange) || e == Some(AllowlistPortNoop))
  {
  }

  // ----- what the other answers mean -----

  ghost predicate AllowlistRefusal(c: Config, r: AllowlistRequest, remove: bool, lib: NetLib, code: Code) {
    match code
    case PrivateSubnetLanDiscovery => r.SubnetRequest? && Covered(c, r.subnet, lib)
    case AllowlistInvalidSubnet => r.SubnetRequest? && !Covered(c, r.subnet, lib) && !lib.parseCIDR(r.subnet)
    case AllowlistSubnetNoop =>
      && r.SubnetRequest? && !Covered(c, r.subnet, lib) && lib.parseCIDR(r.subnet)
      && (r.subnet in c.auto.allowlist.subnets <==> !remove)
    case AllowlistPortOutOfRange => r.PortsRequest? && (r.isUdp || r.isTcp) && !InRange(r.startPort, r.endPort)
    case AllowlistPortNoop =>
      r.PortsRequest? && InRange(r.startPort, r.endPort) && !PortsChange(c.auto.allowlist, r, remove)
    case _ => false
  }

  /** An allowlist request that is no success meets the reason it is given, or the network or the store failed. */
  lemma AllowlistRefused(c: Config, request: AllowlistRequest, remove: bool, a: Answers, lib: NetLib)
    ensures var code := OnAllowlist(c, request, remove, a, lib).code;
            if !AllowlistFits(c, request, remove, lib) then AllowlistRefusal(c, request, remove, lib, code)
            else code == if !a.network then Failure else if !a.save then ConfigError else Success
  {
    AllowlistAnswer(c, request, remove, lib);
  }

  /** The kill switch holds the firewall on and needs it, and the mesh holds routing on. */
  lemma DependencyIff(c: Config, enabled: bool, a: Answers, lib: NetLib)
    ensures Serve(c, SetFirewall(enabled), a, lib).code == DependencyError <==> c.firewall && !enabled && c.killSwitch
    ensures Serve(c, SetKillSwitch(enabled), a, lib).code == DependencyError <==> !c.firewall
    ensures Serve(c, SetRouting(enabled), a, lib).code == DependencyError <==> c.routing && !enabled && c.mesh
  {
  }

  /** Post-quantum encryption and the mesh exclude each other, and as long as it is on it needs NordLynx. */
  lemma PostQuantumRefusedIff(c: Config, enabled: bool, technology: Technology, a: Answers, lib: NetLib)
    ensures Serve(c, SetPostQuantum(enabled), a, lib).code == PqAndMeshnetSimultaneously <==>
            enabled && !c.auto.postquantumVpn && c.mesh
    ensures Serve(c, SetPostQuantum(enabled), a, lib).code == PqWithoutNordlynx <==>
            c.auto.postquantumVpn != enabled && !(c.mesh && enabled) && c.technology != NordLynx
    ensures Serve(c, SetTechnology(technology), a, lib).code == PqWithoutNordlynx <==>
            technology != NordLynx && c.technology != technology && a.factory && c.auto.postquantumVpn
  {
  }

  /** A switch or option is left alone for this reason exactly when it is as requested. */
  lemma NothingToDoIff(c: Config, enabled: bool, a: Answers, lib: NetLib)
    ensures Serve(c, SetFirewall(enabled), a, lib).code == NothingToDo <==> c.firewall == enabled
    ensures Serve(c, SetKillSwitch(enabled), a, lib).code == NothingToDo <==> c.firewall && c.killSwitch == enabled
    ensures Serve(c, SetRouting(enabled), a, lib).code == NothingToDo <==> c.routing == enabled
  {
  }

  lemma NothingToDoVpnIff(c: Config, enabled: bool, technology: Technology, a: Answers, lib: NetLib)
    ensures Serve(c, SetTechnology(technology), a, lib).code == NothingToDo <==> c.technology == technology
    ensures Serve(c, SetPostQuantum(enabled), a, lib).code == NothingToDo <==> c.auto.postquantumVpn == enabled
    ensures Serve(c, SetObfuscate(enabled), a, lib).code == NothingToDo <==> c.auto.obfuscate == enabled
  {
  }

  lemma ProtocolSetIff(c: Config, protocol: Protocol, a: Answers, lib: NetLib)
    ensures Serve(c, SetProtocol(protocol), a, lib).code == AlreadySet <==> c.auto.protocol == protocol
    ensures Serve(c, SetProtocol(protocol), a, lib).code == InvalidTechnology <==>
            c.auto.protocol != protocol && c.technology == NordLynx
  {
  }

  lemma FeatureSetIff(c: Config, enabled: bool, a: Answers, lib: NetLib)
    ensures Serve(c, SetThreatProtectionLite(enabled), a, lib).code == AlreadySet <==>
            c.auto.threatProtectionLite == enabled
    ensures Serve(c, SetLanDiscovery(enabled), a, lib).code == AlreadySet <==> c.lanDiscovery == enabled
  {
  }

  /** Of a success, the answer tells exactly whether ThreatProtectionLite was reset by name servers. */
  lemma TplResetIff(c: Config, dns: Option<seq<string>>, a: Answers, lib: NetLib)
    requires Succeeds(OnSetDns(c, dns, a, lib).code)
    ensures OnSetDns(c, dns, a, lib).code == DnsConfiguredTplReset <==> c.auto.threatProtectionLite && dns.Some?
  {
  }

  /** Of a success, the answer tells exactly whether name servers were reset. */
  lemma DnsResetIff(c: Config, enabled: bool, a: Answers)
    requires Succeeds(OnSetThreatProtectionLite(c, enabled, a).code)
    ensures OnSetThreatProtectionLite(c, enabled, a).code == TplConfiguredDnsReset <==> enabled && c.auto.dns != []
  {
  }

  /** Of a success, the answer tells exactly whether there were private subnets to drop. */
  lemma AllowlistResetIff(c: Config, enabled: bool, a: Answers, lib: NetLib)
    requires Succeeds(OnSetLanDiscovery(c, enabled, a, lib).code)
    ensures OnSetLanDiscovery(c, enabled, a, lib).code == DiscoveryConfiguredAllowlistReset <==>
            enabled && exists s :: s in c.auto.allowlist.subnets && lib.parsePrefix(s) == Private
  {
  }

  /** Enabling the mesh fails for the mesh or for the service, and the order of the checks decides which is told. */
  lemma MeshRefusedIff(c: Config, a: Answers, lib: NetLib)
    ensures Serve(c, EnableMeshnet, a, lib).code == MeshnetError <==>
            a.loggedIn && (!a.registered || c.mesh || c.auto.postquantumVpn || (a.meshMap == MapOk && !a.network))
    ensures Serve(c, EnableMeshnet, a, lib).code == ServiceError <==>
            || !a.loggedIn
            || (a.registered && !c.mesh && !c.auto.postquantumVpn && (a.meshMap != MapOk || (a.network && !a.save)))
    ensures Serve(c, DisableMeshnet, a, lib).code == MeshnetError <==> !c.mesh
  {
  }

  /** A fresh installation: every switch that is off can be turned on and every one that is on turned off, but for the
      protocol under NordLynx. */
  lemma DefaultAnswers(lib: NetLib)
    ensures Granted(DEFAULT, SetFirewall(false), WORKING, lib) && Granted(DEFAULT, SetKillSwitch(true), WORKING, lib)
    ensures Granted(DEFAULT, SetRouting(false), WORKING, lib) && Granted(DEFAULT, EnableMeshnet, WORKING, lib)
    ensures Granted(DEFAULT, SetPostQuantum(true), WORKING, lib) && Granted(DEFAULT, SetObfuscate(true), WORKING, lib)
    ensures Granted(DEFAULT, SetThreatProtectionLite(true), WORKING, lib)
    ensures Granted(DEFAULT, SetLanDiscovery(true), WORKING, lib)
    ensures forall p :: !Granted(DEFAULT, SetProtocol(p), WORKING, lib)
    ensures !DEFAULT.autoConnect && DEFAULT.auto.protocol == Udp && DEFAULT.auto.id == 0 && DEFAULT.tokens == {}
    ensures DEFAULT.auto.dns == [] && DEFAULT.auto.allowlist == NO_ALLOWLIST
  {
  }
}
