/** The daemon's settings requests on values: what each does to the stored config and what it answers.
    A request is one step: load, check, call the network, save. */
module Settings {
  import opened Options
  import opened Config
  import Sorting
  import Text

  datatype Code =
    | Success | NothingToDo | Failure | ConfigError | DependencyError | KillSwitchError | NotLoggedIn
    | PqAndMeshnetSimultaneously | PqWithoutNordlynx
    | PrivateSubnetLanDiscovery | AllowlistInvalidSubnet | AllowlistSubnetNoop
    | AllowlistPortOutOfRange | AllowlistPortNoop
    | AlreadySet | TooManyValues | InvalidDnsAddress | DnsConfigured | DnsConfiguredTplReset
    | TplConfigured | TplConfiguredDnsReset
    | DiscoveryConfigured | DiscoveryConfiguredAllowlistReset
    | InvalidTechnology | ProtocolConfigured | ProtocolConfiguredVpnOn
    | MeshnetError | ServiceError
    | AutoConnectRefused | AlreadyLoggedIn

  datatype Outcome = Outcome(config: Config, code: Code)

  datatype MapAnswer = MapOk | MapUnauthorized | MapFailed

  /** How the outside world answers during one request. */
  datatype Answers = Answers(
    loggedIn: bool,      // an account is logged in
    network: bool,       // the networker carries out what it is asked
    factory: bool,       // a VPN implementation exists for the technology
    vpnActive: bool,
    registered: bool,    // the mesh registration succeeds
    meshMap: MapAnswer,  // the mesh API's answer
    tokenWorks: bool,    // the token API lets the session begin or end
    guard: bool,         // no obfuscation mismatch, and a server is found for the tag
    save: bool)          // the config can be written

  datatype AllowlistRequest =
    | SubnetRequest(subnet: string)
    | PortsRequest(isUdp: bool, isTcp: bool, startPort: int, endPort: int)

  datatype Request =
    | SetFirewall(enabled: bool)
    | SetKillSwitch(enabled: bool)
    | SetTechnology(technology: Technology)
    | SetProtocol(protocol: Protocol)
    | SetPostQuantum(enabled: bool)
    | SetThreatProtectionLite(enabled: bool)
    | SetDns(dns: Option<seq<string>>)
    | SetLanDiscovery(enabled: bool)
    | SetAllowlist(request: AllowlistRequest)
    | UnsetAllowlist(request: AllowlistRequest)
    | UnsetAllAllowlist
    | SetAutoConnect(enabled: bool, serverTag: string, country: string, city: string, group: int)
    | SetObfuscate(enabled: bool)
    | SetRouting(enabled: bool)
    | EnableMeshnet
    | DisableMeshnet
    | Login(id: int)
    | Logout
    | SetDefaults

  function Saved(before: Config, after: Config, a: Answers, code: Code): Outcome {
    if a.save then Outcome(after, code) else Outcome(before, ConfigError)
  }

  // ----- the rules of a stored config -----

  /** Rules between switches. */
  predicate FlagRules(c: Config) {
    && (c.killSwitch ==> c.firewall)
    && (c.auto.postquantumVpn ==> c.technology == NordLynx && !c.mesh)
    && (c.technology == NordLynx ==> c.auto.protocol == Udp)
    && (c.auto.threatProtectionLite ==> c.auto.dns == [])
  }

  /** Rules for the name servers. */
  ghost predicate DnsRules(dns: seq<string>, lib: NetLib) {
    |dns| <= 3 && Sorting.SortedBy(dns, Text.Less) && forall x :: x in dns ==> lib.parseIP(x)
  }

  /** Rules for the allowlist. */
  ghost predicate AllowlistRules(l: Allowlist, lanDiscovery: bool, lib: NetLib) {
    && (lanDiscovery ==> forall s :: s in l.subnets ==> !ContainsPrivateNetwork(s, lib))
    && (forall p :: p in l.udp || p in l.tcp ==> p >= 1)
  }

  ghost predicate Consistent(c: Config, lib: NetLib) {
    FlagRules(c) && DnsRules(c.auto.dns, lib) && AllowlistRules(c.auto.allowlist, c.lanDiscovery, lib)
  }

  /** A request that keeps the rules between switches and leaves the lists alone, or empties them. */
  predicate KeepsRules(c: Config, c': Config) {
    && (FlagRules(c) ==> FlagRules(c'))
    && (c'.auto.dns == c.auto.dns || c'.auto.dns == [])
    && ((c'.auto.allowlist == c.auto.allowlist && c'.lanDiscovery == c.lanDiscovery) ||
        c'.auto.allowlist == NO_ALLOWLIST)
  }

  // ----- one function per request -----

  function OnSetFirewall(c: Config, enabled: bool, a: Answers): (o: Outcome)
    ensures KeepsRules(c, o.config)
  {
    if c.firewall == enabled then Outcome(c, NothingToDo)
    else if c.killSwitch && !enabled then Outcome(c, DependencyError)
    else if !a.network then Outcome(c, Failure)
    else Saved(c, c.(firewall := enabled), a, Success)
  }

  function OnSetKillSwitch(c: Config, enabled: bool, a: Answers): (o: Outcome)
    ensures KeepsRules(c, o.config)
  {
    if !c.firewall then Outcome(c, DependencyError)
    else if c.killSwitch == enabled then Outcome(c, NothingToDo)
    else if !a.network then Outcome(c, KillSwitchError)
    else Saved(c, c.(killSwitch := enabled), a, Success)
  }

  function OnSetTechnology(c: Config, technology: Technology, a: Answers): (o: Outcome)
    ensures KeepsRules(c, o.config)
  {
    if c.technology == technology then Outcome(c, NothingToDo)
    else if !a.factory then Outcome(c, ConfigError)
    else if technology == NordLynx then
      Saved(c, c.(technology := NordLynx, auto := c.auto.(protocol := Udp, obfuscate := false)), a, Success)
    else if c.auto.postquantumVpn then Outcome(c, PqWithoutNordlynx)
    else Saved(c, c.(technology := technology), a, Success)
  }

  function OnSetProtocol(c: Config, protocol: Protocol, a: Answers): (o: Outcome)
    ensures KeepsRules(c, o.config)
  {
    if c.auto.protocol == protocol then Outcome(c, AlreadySet)
    else if c.technology == NordLynx then Outcome(c, InvalidTechnology)
    else Saved(c, c.(auto := c.auto.(protocol := protocol)), a,
               if a.vpnActive then ProtocolConfiguredVpnOn else ProtocolConfigured)
  }

  function OnSetPostQuantum(c: Config, enabled: bool, a: Answers): (o: Outcome)
    ensures KeepsRules(c, o.config)
  {
    if c.auto.postquantumVpn == enabled then Outcome(c, NothingToDo)
    else if c.mesh && enabled then Outcome(c, PqAndMeshnetSimultaneously)
    else if c.technology != NordLynx then Outcome(c, PqWithoutNordlynx)
    else Saved(c, c.(auto := c.auto.(postquantumVpn := enabled)), a, Success)
  }

  function OnSetThreatProtectionLite(c: Config, enabled: bool, a: Answers): (o: Outcome)
    ensures KeepsRules(c, o.config)
  {
    if c.auto.threatProtectionLite == enabled then Outcome(c, AlreadySet)
    else if !a.network then Outcome(c, ConfigError)
    else
      var next := c.(auto := c.auto.(threatProtectionLite := enabled, dns := []));
      assert KeepsRules(c, next);
      Saved(c, next, a, if c.auto.dns != [] && enabled then TplConfiguredDnsReset else TplConfigured)
  }

  /** None is the absent list, which asks for the default name servers. */
  function OnSetDns(c: Config, dns: Option<seq<string>>, a: Answers, lib: NetLib): (o: Outcome)
    ensures FlagRules(c) ==> FlagRules(o.config)
    ensures o.code == DnsConfigured || o.code == DnsConfiguredTplReset ==>
              o.config.auto.threatProtectionLite == (c.auto.threatProtectionLite && dns.None?)
  {
    var asked := if dns.None? then [] else dns.value;
    var sorted := SortStrings(asked);
    if |asked| > 3 then Outcome(c, TooManyValues)
    else if sorted == SortStrings(c.auto.dns) then Outcome(c, AlreadySet)
    else if !AllAddresses(sorted, lib) then Outcome(c, InvalidDnsAddress)
    else if !a.network then Outcome(c, Failure)
    else StoreDns(c, sorted, c.auto.threatProtectionLite && dns.None?, a)
  }

  predicate AllAddresses(dns: seq<string>, lib: NetLib) {
    forall x | x in dns :: lib.parseIP(x)
  }

  function StoreDns(c: Config, dns: seq<string>, tpl: bool, a: Answers): (o: Outcome)
    ensures SameButDns(c, o.config)
  {
    Saved(c, c.(auto := c.auto.(threatProtectionLite := tpl, dns := dns)), a,
          if tpl != c.auto.threatProtectionLite then DnsConfiguredTplReset else DnsConfigured)
  }

  /** The configs differ at most in the name servers and ThreatProtectionLite. */
  predicate SameButDns(c: Config, d: Config) {
    d == c.(auto := c.auto.(threatProtectionLite := d.auto.threatProtectionLite, dns := d.auto.dns))
  }

  function OnSetLanDiscovery(c: Config, enabled: bool, a: Answers, lib: NetLib): (o: Outcome)
    ensures (FlagRules(c) ==> FlagRules(o.config)) && o.config.auto.dns == c.auto.dns
  {
    if c.lanDiscovery == enabled then Outcome(c, AlreadySet)
    else if !a.network then Outcome(c, Failure)
    else
      var reset := enabled && exists s | s in c.auto.allowlist.subnets :: lib.parsePrefix(s) == Private;
      var list := Discoverable(c.auto.allowlist, enabled, lib);
      Saved(c, c.(lanDiscovery := enabled, auto := c.auto.(allowlist := list)), a,
            if reset then DiscoveryConfiguredAllowlistReset else DiscoveryConfigured)
  }

  function Discoverable(list: Allowlist, enabled: bool, lib: NetLib): (r: Allowlist)
    ensures AllowlistRules(list, !enabled, lib) ==> AllowlistRules(r, enabled, lib)
  {
    if enabled then list.(subnets := PublicSubnets(list.subnets, lib)) else list
  }

  /** Subnets that LAN discovery does not cover; texts that are no prefixes are dropped as well. */
  function PublicSubnets(subnets: set<string>, lib: NetLib): (r: set<string>)
    ensures forall s :: s in r ==> s in subnets && !ContainsPrivateNetwork(s, lib)
  {
    set s | s in subnets && lib.parsePrefix(s) == Public
  }

  // ----- the allowlist -----

  /** The ports a request names: the start alone, or the whole range. */
  function Range(startPort: int, endPort: int): (r: set<int>)
    ensures forall p :: p in r <==> p == startPort || startPort <= p <= endPort
  {
    {startPort} + set p | startPort <= p <= endPort && Within(p, startPort, endPort)
  }

  predicate Within(p: int, startPort: int, endPort: int) {
    startPort <= p <= endPort
  }

  /** arePortsValid: None if the ports can be added to (or removed from) the current ones. */
  function PortsError(startPort: int, endPort: int, current: set<int>, remove: bool): Option<Code> {
    if startPort < 1 || startPort > 65535 then Some(AllowlistPortOutOfRange)
    else if endPort != 0 && endPort < startPort then Some(AllowlistPortOutOfRange)
    else if remove && exists p | startPort <= p <= endPort :: p !in current then Some(AllowlistPortNoop)
    else if endPort == 0 && (startPort in current) != remove then Some(AllowlistPortNoop)
    else None
  }

  function Changed<T(==)>(current: set<T>, items: set<T>, remove: bool): set<T> {
    if remove then current - items else current + items
  }

  datatype NewAllowlist = NewAllowlist(allowlist: Allowlist) | Rejected(code: Code)

  /** getNewAllowlist */
  function AllowlistAfter(c: Config, request: AllowlistRequest, remove: bool, lib: NetLib): (n: NewAllowlist)
    ensures n.NewAllowlist? && AllowlistRules(c.auto.allowlist, c.lanDiscovery, lib) ==>
            AllowlistRules(n.allowlist, c.lanDiscovery, lib)
  {
    var l := c.auto.allowlist;
    match request
    case SubnetRequest(subnet) =>
      if c.lanDiscovery && ContainsPrivateNetwork(subnet, lib) then Rejected(PrivateSubnetLanDiscovery)
      else if !lib.parseCIDR(subnet) then Rejected(AllowlistInvalidSubnet)
      else if (subnet in l.subnets) != remove then Rejected(AllowlistSubnetNoop)
      else NewAllowlist(l.(subnets := Changed(l.subnets, {subnet}, remove)))
    case PortsRequest(isUdp, isTcp, startPort, endPort) =>
      var udpError := if isUdp then PortsError(startPort, endPort, l.udp, remove) else None;
      var tcpError := if isTcp then PortsError(startPort, endPort, l.tcp, remove) else None;
      if udpError.Some? then Rejected(udpError.value)
      else if tcpError.Some? then Rejected(tcpError.value)
      else NewAllowlist(l.(udp := if isUdp then Changed(l.udp, Range(startPort, endPort), remove) else l.udp,
                           tcp := if isTcp then Changed(l.tcp, Range(startPort, endPort), remove) else l.tcp))
  }

  /** handleNewAllowlist */
  function StoreAllowlist(c: Config, allowlist: Allowlist, a: Answers): Outcome {
    if !a.network then Outcome(c, Failure)
    else Saved(c, c.(auto := c.auto.(allowlist := allowlist)), a, Success)
  }

  function OnAllowlist(c: Config, request: AllowlistRequest, remove: bool, a: Answers, lib: NetLib): (o: Outcome)
    ensures Consistent(c, lib) ==> Consistent(o.config, lib)
  {
    match AllowlistAfter(c, request, remove, lib)
    case Rejected(code) => Outcome(c, code)
    case NewAllowlist(l) => StoreAllowlist(c, l, a)
  }

  // ----- autoconnect, obfuscation, routing, mesh, logout, defaults -----

  /** SetAutoConnect writes the autoconnect record anew, from the loaded one. */
  function OnSetAutoConnect(c: Config, r: Request, a: Answers): (o: Outcome)
    requires r.SetAutoConnect?
    ensures KeepsRules(c, o.config)
  {
    if !a.loggedIn then Outcome(c, NotLoggedIn)
    else if !c.autoConnect && !r.enabled then Outcome(c, NothingToDo)
    else if !r.enabled then Saved(c, c.(autoConnect := false), a, Success)
    else if !a.guard then Outcome(c, AutoConnectRefused)
    else
      var d := AutoConnectData(c.auto.id, r.serverTag, r.country, r.city, r.group, c.auto.protocol,
                               c.auto.threatProtectionLite, c.auto.obfuscate, c.auto.dns, c.auto.allowlist,
                               c.auto.postquantumVpn);
      Saved(c, c.(autoConnect := true, auto := d), a, Success)
  }

  function OnSetObfuscate(c: Config, enabled: bool, a: Answers): (o: Outcome)
    ensures KeepsRules(c, o.config)
  {
    if c.auto.obfuscate == enabled then Outcome(c, NothingToDo)
    else if c.autoConnect && !a.guard then Outcome(c, AutoConnectRefused)
    else Saved(c, c.(auto := c.auto.(obfuscate := enabled)), a, Success)
  }

  function OnSetRouting(c: Config, enabled: bool, a: Answers): (o: Outcome)
    ensures KeepsRules(c, o.config)
  {
    if c.routing == enabled then Outcome(c, NothingToDo)
    else if c.mesh && !enabled then Outcome(c, DependencyError)
    else Saved(c, c.(routing := enabled), a, Success)
  }

  function OnEnableMeshnet(c: Config, a: Answers): (o: Outcome)
    ensures KeepsRules(c, o.config)
  {
    if !a.loggedIn then Outcome(c, ServiceError)
    else if !a.registered || c.mesh || c.auto.postquantumVpn then Outcome(c, MeshnetError)
    else if a.meshMap == MapUnauthorized then
      Outcome(if a.save then c.(tokens := c.tokens - {c.auto.id}) else c, ServiceError)
    else if a.meshMap == MapFailed then Outcome(c, ServiceError)
    else if !a.network then Outcome(c, MeshnetError)
    else if !a.save then Outcome(c, ServiceError)
    else Outcome(c.(mesh := true), Success)
  }

  function OnDisableMeshnet(c: Config, a: Answers): (o: Outcome)
    ensures KeepsRules(c, o.config)
  {
    if !c.mesh then Outcome(c, MeshnetError)
    else if !a.save then Outcome(c, ServiceError)
    else Outcome(c.(mesh := false), Success)
  }

  /** Both ways to log in store the token of the account and make it the current one. */
  function OnLogin(c: Config, id: int, a: Answers): (o: Outcome)
    ensures KeepsRules(c, o.config)
  {
    if a.loggedIn then Outcome(c, AlreadyLoggedIn)
    else if !a.tokenWorks then Outcome(c, Failure)
    else Saved(c, c.(tokens := c.tokens + {id}, auto := c.auto.(id := id)), a, Success)
  }

  function OnLogout(c: Config, a: Answers): (o: Outcome)
    ensures KeepsRules(c, o.config)
  {
    if !a.loggedIn then Outcome(c, NotLoggedIn)
    else if !a.network || c.auto.id !in c.tokens || !a.tokenWorks then Outcome(c, Failure)
    else Saved(c, c.(tokens := c.tokens - {c.auto.id}, mesh := false, auto := c.auto.(id := 0)), a, Success)
  }

  /** The config is reset before the VPN for the default technology is looked up. */
  function OnSetDefaults(c: Config, a: Answers): (o: Outcome)
    ensures KeepsRules(c, o.config)
  {
    if !a.network then Outcome(c, Failure)
    else if !a.save then Outcome(c, ConfigError)
    else Outcome(DEFAULT, if a.factory then Success else ConfigError)
  }

  function Serve(c: Config, r: Request, a: Answers, lib: NetLib): Outcome {
    match r
    case SetFirewall(enabled) => OnSetFirewall(c, enabled, a)
    case SetKillSwitch(enabled) => OnSetKillSwitch(c, enabled, a)
    case SetTechnology(technology) => OnSetTechnology(c, technology, a)
    case SetProtocol(protocol) => OnSetProtocol(c, protocol, a)
    case SetPostQuantum(enabled) => OnSetPostQuantum(c, enabled, a)
    case SetThreatProtectionLite(enabled) => OnSetThreatProtectionLite(c, enabled, a)
    case SetDns(dns) => OnSetDns(c, dns, a, lib)
    case SetLanDiscovery(enabled) => OnSetLanDiscovery(c, enabled, a, lib)
    case SetAllowlist(request) => OnAllowlist(c, request, false, a, lib)
    case UnsetAllowlist(request) => OnAllowlist(c, request, true, a, lib)
    case UnsetAllAllowlist => StoreAllowlist(c, NO_ALLOWLIST, a)
    case SetAutoConnect(_, _, _, _, _) => OnSetAutoConnect(c, r, a)
    case SetObfuscate(enabled) => OnSetObfuscate(c, enabled, a)
    case SetRouting(enabled) => OnSetRouting(c, enabled, a)
    case EnableMeshnet => OnEnableMeshnet(c, a)
    case DisableMeshnet => OnDisableMeshnet(c, a)
    case Login(id) => OnLogin(c, id, a)
    case Logout => OnLogout(c, a)
    case SetDefaults => OnSetDefaults(c, a)
  }
}
