/** What the guards, spread over the handlers, protect together. */
module SettingsInvariants {
  import opened Options
  import opened Config
  import opened Settings
  import Sorting
  import Text

  lemma RulesSuffice(c: Config, c': Config, lib: NetLib)
    requires KeepsRules(c, c') && Consistent(c, lib)
    ensures Consistent(c', lib)
  {
  }

  lemma DnsKeepsConsistent(c: Config, dns: Option<seq<string>>, a: Answers, lib: NetLib)
    requires Consistent(c, lib)
    ensures Consistent(OnSetDns(c, dns, a, lib).config, lib)
  {
    SortStringsSorts(if dns.None? then [] else dns.value);
  }

  lemma DiscoveryKeepsConsistent(c: Config, enabled: bool, a: Answers, lib: NetLib)
    requires Consistent(c, lib)
    ensures Consistent(OnSetLanDiscovery(c, enabled, a, lib).config, lib)
  {
  }

  lemma AllowlistKeepsConsistent(c: Config, request: AllowlistRequest, remove: bool, a: Answers, lib: NetLib)
    requires Consistent(c, lib)
    ensures Consistent(OnAllowlist(c, request, remove, a, lib).config, lib)
  {
  }

  lemma OthersKeepRules(c: Config, r: Request, a: Answers, lib: NetLib)
    requires !r.SetDns? && !r.SetLanDiscovery? && !r.SetAllowlist? && !r.UnsetAllowlist?
    ensures KeepsRules(c, Serve(c, r, a, lib).config)
  {
  }

  /** Every request, with every outcome of the calls it makes, keeps the rules. */
  lemma ServeKeepsConsistent(c: Config, r: Request, a: Answers, lib: NetLib)
    requires Consistent(c, lib)
    ensures Consistent(Serve(c, r, a, lib).config, lib)
  {
    match r
    case SetDns(dns) => DnsKeepsConsistent(c, dns, a, lib);
    case SetLanDiscovery(enabled) => DiscoveryKeepsConsistent(c, enabled, a, lib);
    case SetAllowlist(request) => AllowlistKeepsConsistent(c, request, false, a, lib);
    case UnsetAllowlist(request) => AllowlistKeepsConsistent(c, request, true, a, lib);
    case _ =>
      OthersKeepRules(c, r, a, lib);
      RulesSuffice(c, Serve(c, r, a, lib).config, lib);
  }

  datatype Exchange = Exchange(request: Request, answers: Answers)

  function Run(c: Config, exchanges: seq<Exchange>, lib: NetLib): Config {
    if exchanges == [] then c
    else
      var last := exchanges[|exchanges| - 1];
      Serve(Run(c, exchanges[..|exchanges| - 1], lib), last.request, last.answers, lib).config
  }

  /** Requests keep the rules for ever, from any config that has them. */
  lemma {:induction false} RunKeepsConsistent(c: Config, exchanges: seq<Exchange>, lib: NetLib)
    requires Consistent(c, lib)
    ensures Consistent(Run(c, exchanges, lib), lib)
  {
    if exchanges != [] {
      var front, last := exchanges[..|exchanges| - 1], exchanges[|exchanges| - 1];
      RunKeepsConsistent(c, front, lib);
      ServeKeepsConsistent(Run(c, front, lib), last.request, last.answers, lib);
    }
  }

  /** So every config reachable from the default one satisfies them. */
  lemma ReachableConsistent(exchanges: seq<Exchange>, lib: NetLib)
    ensures Consistent(Run(DEFAULT, exchanges, lib), lib)
  {
    RunKeepsConsistent(DEFAULT, exchanges, lib);
  }

  // ----- what one setting holds until it is released -----

  /** Settings that hold another one in place. */
  datatype Lock = KillSwitchOn | PostQuantumOn | MeshOn | NordLynxChosen | ThreatProtectionOn | DiscoveryOn

  predicate Locked(l: Lock, c: Config) {
    match l
    case KillSwitchOn => c.killSwitch
    case PostQuantumOn => c.auto.postquantumVpn
    case MeshOn => c.mesh
    case NordLynxChosen => c.technology == NordLynx
    case ThreatProtectionOn => c.auto.threatProtectionLite
    case DiscoveryOn => c.lanDiscovery
  }

  /** The requests that are meant to release it. */
  predicate Releases(l: Lock, r: Request) {
    match l
    case KillSwitchOn => r == SetKillSwitch(false) || r.SetDefaults?
    case PostQuantumOn => r == SetPostQuantum(false) || r.SetDefaults?
    case MeshOn => r.DisableMeshnet? || r.Logout? || r.SetDefaults?
    case NordLynxChosen => r.SetTechnology?
    case ThreatProtectionOn => r == SetThreatProtectionLite(false) || (r.SetDns? && r.dns.Some?) || r.SetDefaults?
    case DiscoveryOn => r == SetLanDiscovery(false) || r.SetDefaults?
  }

  lemma LockStep(l: Lock, c: Config, r: Request, a: Answers, lib: NetLib)
    requires Locked(l, c) && !Releases(l, r)
    ensures Locked(l, Serve(c, r, a, lib).config)
  {
    match r
    case SetDns(dns) => LockDns(l, c, dns, a, lib);
    case SetLanDiscovery(enabled) => LockDiscovery(l, c, enabled, a, lib);
    case SetAllowlist(request) => LockAllowlist(l, c, request, false, a, lib);
    case UnsetAllowlist(request) => LockAllowlist(l, c, request, true, a, lib);
    case SetTechnology(_) => LockVpn(l, c, r, a, lib);
    case SetProtocol(_) => LockVpn(l, c, r, a, lib);
    case SetPostQuantum(_) => LockVpn(l, c, r, a, lib);
    case SetThreatProtectionLite(_) => LockVpn(l, c, r, a, lib);
    case SetObfuscate(_) => LockTarget(l, c, r, a, lib);
    case SetAutoConnect(_, _, _, _, _) => LockTarget(l, c, r, a, lib);
    case _ => LockSwitch(l, c, r, a, lib);
  }

  lemma LockDns(l: Lock, c: Config, dns: Option<seq<string>>, a: Answers, lib: NetLib)
    requires Locked(l, c) && !Releases(l, SetDns(dns))
    ensures Locked(l, OnSetDns(c, dns, a, lib).config)
  {
  }

  lemma LockDiscovery(l: Lock, c: Config, enabled: bool, a: Answers, lib: NetLib)
    requires Locked(l, c) && !Releases(l, SetLanDiscovery(enabled))
    ensures Locked(l, OnSetLanDiscovery(c, enabled, a, lib).config)
  {
  }

  lemma LockAllowlist(l: Lock, c: Config, request: AllowlistRequest, remove: bool, a: Answers, lib: NetLib)
    requires Locked(l, c)
    ensures Locked(l, OnAllowlist(c, request, remove, a, lib).config)
  {
  }

  lemma LockVpn(l: Lock, c: Config, r: Request, a: Answers, lib: NetLib)
    requires Locked(l, c) && !Releases(l, r)
    requires r.SetTechnology? || r.SetProtocol? || r.SetPostQuantum? || r.SetThreatProtectionLite?
    ensures Locked(l, Serve(c, r, a, lib).config)
  {
  }

  lemma LockTarget(l: Lock, c: Config, r: Request, a: Answers, lib: NetLib)
    requires Locked(l, c) && (r.SetObfuscate? || r.SetAutoConnect?)
    ensures Locked(l, Serve(c, r, a, lib).config)
  {
  }

  lemma LockSwitch(l: Lock, c: Config, r: Request, a: Answers, lib: NetLib)
    requires Locked(l, c) && !Releases(l, r)
    requires r.SetFirewall? || r.SetKillSwitch? || r.SetRouting? || r.EnableMeshnet? || r.DisableMeshnet? || r.Login? ||
             r.Logout? || r.SetDefaults? || r.UnsetAllAllowlist?
    ensures Locked(l, Serve(c, r, a, lib).config)
  {
  }

  ghost predicate NeverReleases(l: Lock, exchanges: seq<Exchange>) {
    forall i :: 0 <= i < |exchanges| ==> !Releases(l, exchanges[i].request)
  }

  lemma {:induction false} LocksHold(l: Lock, c: Config, exchanges: seq<Exchange>, lib: NetLib)
    requires Consistent(c, lib) && Locked(l, c) && NeverReleases(l, exchanges)
    ensures Locked(l, Run(c, exchanges, lib)) && Consistent(Run(c, exchanges, lib), lib)
  {
    RunKeepsConsistent(c, exchanges, lib);
    if exchanges != [] {
      var front, last := exchanges[..|exchanges| - 1], exchanges[|exchanges| - 1];
      LocksHold(l, c, front, lib);
      LockStep(l, Run(c, front, lib), last.request, last.answers, lib);
    }
  }

  /** While nobody turns the kill switch off, no requests turn the firewall off. */
  lemma FirewallHeld(c: Config, exchanges: seq<Exchange>, lib: NetLib)
    requires Consistent(c, lib) && c.killSwitch && NeverReleases(KillSwitchOn, exchanges)
    ensures Run(c, exchanges, lib).killSwitch && Run(c, exchanges, lib).firewall
  {
    LocksHold(KillSwitchOn, c, exchanges, lib);
  }

  /** While nobody turns it off, post-quantum encryption holds the technology and the protocol and keeps the mesh
      off. */
  lemma TechnologyHeld(c: Config, exchanges: seq<Exchange>, lib: NetLib)
    requires Consistent(c, lib) && c.auto.postquantumVpn && NeverReleases(PostQuantumOn, exchanges)
    ensures var d := Run(c, exchanges, lib);
            d.auto.postquantumVpn && d.technology == NordLynx && d.auto.protocol == Udp && !d.mesh
  {
    LocksHold(PostQuantumOn, c, exchanges, lib);
  }

  /** While nobody turns the mesh off or logs out, post-quantum encryption stays off. */
  lemma PostQuantumHeldOff(c: Config, exchanges: seq<Exchange>, lib: NetLib)
    requires Consistent(c, lib) && c.mesh && NeverReleases(MeshOn, exchanges)
    ensures Run(c, exchanges, lib).mesh && !Run(c, exchanges, lib).auto.postquantumVpn
  {
    LocksHold(MeshOn, c, exchanges, lib);
  }

  /** While nobody chooses another technology, NordLynx keeps to UDP. */
  lemma ProtocolHeld(c: Config, exchanges: seq<Exchange>, lib: NetLib)
    requires Consistent(c, lib) && c.technology == NordLynx && NeverReleases(NordLynxChosen, exchanges)
    ensures Run(c, exchanges, lib).technology == NordLynx && Run(c, exchanges, lib).auto.protocol == Udp
  {
    LocksHold(NordLynxChosen, c, exchanges, lib);
  }

  /** While nobody turns it off or asks for name servers, ThreatProtectionLite keeps the list of them empty. */
  lemma NameServersHeldOff(c: Config, exchanges: seq<Exchange>, lib: NetLib)
    requires Consistent(c, lib) && c.auto.threatProtectionLite && NeverReleases(ThreatProtectionOn, exchanges)
    ensures Run(c, exchanges, lib).auto.threatProtectionLite && Run(c, exchanges, lib).auto.dns == []
  {
    LocksHold(ThreatProtectionOn, c, exchanges, lib);
  }

  /** While nobody turns LAN discovery off, no private subnet gets into the allowlist. */
  lemma PrivateSubnetsHeldOff(c: Config, exchanges: seq<Exchange>, lib: NetLib, subnet: string)
    requires Consistent(c, lib) && c.lanDiscovery && NeverReleases(DiscoveryOn, exchanges)
    ensures subnet in Run(c, exchanges, lib).auto.allowlist.subnets ==> !ContainsPrivateNetwork(subnet, lib)
  {
    LocksHold(DiscoveryOn, c, exchanges, lib);
  }

  // ----- the account and the autoconnect target -----

  /** Logging in and out again leaves the config as it was, where nobody was logged in, no token of the account
      was stored and the mesh was off. */
  lemma LoginThenLogout(c: Config, id: int, a: Answers, b: Answers, lib: NetLib)
    requires c.auto.id == 0 && id !in c.tokens && !c.mesh
    requires OnLogin(c, id, a).code == Success && b.loggedIn && b.network && b.tokenWorks && b.save
    ensures Run(c, [Exchange(Login(id), a), Exchange(Logout, b)], lib) == c
    ensures OnLogout(OnLogin(c, id, a).config, b) == Outcome(c, Success)
  {
    var exchanges := [Exchange(Login(id), a), Exchange(Logout, b)];
    assert exchanges[..1] == [Exchange(Login(id), a)] && exchanges[..1][..0] == [];
    assert c.tokens + {id} - {id} == c.tokens;
    assert Run(c, exchanges[..1], lib) == OnLogin(c, id, a).config;
  }

  /** The autoconnect record is written anew, field by field; still nothing but the target changes. */
  lemma AutoConnectOnlyRetargets(c: Config, r: Request, a: Answers)
    requires r.SetAutoConnect?
    ensures var o := OnSetAutoConnect(c, r, a);
            var target := c.auto.(serverTag := r.serverTag, country := r.country, city := r.city, group := r.group);
            if o.code != Success then o.config == c
            else o.config == c.(autoConnect := r.enabled, auto := if r.enabled then target else c.auto)
  {
  }

  // ----- the allowlist -----

  /** A ports request that succeeds changes exactly the named ports of exactly the chosen protocols;
      any other answer leaves the stored config untouched, even if only the TCP half was refused. */
  lemma PortsExactly(c: Config, isUdp: bool, isTcp: bool, startPort: int, endPort: int, remove: bool, a: Answers,
                     lib: NetLib)
    ensures var o := OnAllowlist(c, PortsRequest(isUdp, isTcp, startPort, endPort), remove, a, lib);
            && (o.code != Success ==> o.config == c)
            && (o.code == Success ==>
                  && o.config == c.(auto := c.auto.(allowlist := o.config.auto.allowlist))
                  && o.config.auto.allowlist.subnets == c.auto.allowlist.subnets
                  && forall p ::
                       var named := startPort <= p <= if endPort > startPort then endPort else startPort;
                       && (p in o.config.auto.allowlist.udp <==>
                           if isUdp && named then !remove else p in c.auto.allowlist.udp)
                       && (p in o.config.auto.allowlist.tcp <==>
                           if isTcp && named then !remove else p in c.auto.allowlist.tcp))
  {
    PortsOutcome(c, isUdp, isTcp, startPort, endPort, remove, a, lib);
    var l, named := c.auto.allowlist, Range(startPort, endPort);
    assert forall p :: p in named <==> startPort <= p <= if endPort > startPort then endPort else startPort;
  }

  lemma PortsOutcome(c: Config, isUdp: bool, isTcp: bool, startPort: int, endPort: int, remove: bool, a: Answers,
                     lib: NetLib)
    ensures var o := OnAllowlist(c, PortsRequest(isUdp, isTcp, startPort, endPort), remove, a, lib);
            var l, named := c.auto.allowlist, Range(startPort, endPort);
            if o.code != Success then o.config == c
            else
              var udp := if isUdp then Changed(l.udp, named, remove) else l.udp;
              var tcp := if isTcp then Changed(l.tcp, named, remove) else l.tcp;
              o.config == c.(auto := c.auto.(allowlist := l.(udp := udp, tcp := tcp)))
  {
    PortsErrorIsNoSuccess(startPort, endPort, c.auto.allowlist.udp, remove);
    PortsErrorIsNoSuccess(startPort, endPort, c.auto.allowlist.tcp, remove);
  }

  lemma PortsErrorIsNoSuccess(startPort: int, endPort: int, current: set<int>, remove: bool)
    ensures PortsError(startPort, endPort, current, remove) != Some(Success)
  {
  }

  /** Whatever could be set can be unset by the same request, and then none of it is left. */
  lemma SetIsUndoable(c: Config, request: AllowlistRequest, a: Answers, lib: NetLib)
    requires OnAllowlist(c, request, false, a, lib).code == Success
    ensures var c1 := OnAllowlist(c, request, false, a, lib).config;
            var o := OnAllowlist(c1, request, true, a, lib);
            && o.code == Success
            && (request.SubnetRequest? ==> o.config == c)
            && (request.PortsRequest? ==>
                  var named := Range(request.startPort, request.endPort);
                  && o.config.auto.allowlist.udp ==
                      (if request.isUdp then c.auto.allowlist.udp - named else c.auto.allowlist.udp)
                  && o.config.auto.allowlist.tcp ==
                      (if request.isTcp then c.auto.allowlist.tcp - named else c.auto.allowlist.tcp))
  {
    match request
    case SubnetRequest(subnet) => UndoSubnet(c, subnet, a, lib);
    case PortsRequest(isUdp, isTcp, startPort, endPort) =>
        UndoPortsRequest(c, isUdp, isTcp, startPort, endPort, a, lib);
  }

  lemma UndoPortsRequest(c: Config, isUdp: bool, isTcp: bool, startPort: int, endPort: int, a: Answers, lib: NetLib)
    requires OnAllowlist(c, PortsRequest(isUdp, isTcp, startPort, endPort), false, a, lib).code == Success
    ensures var request, named := PortsRequest(isUdp, isTcp, startPort, endPort), Range(startPort, endPort);
            var o := OnAllowlist(OnAllowlist(c, request, false, a, lib).config, request, true, a, lib);
            && o.code == Success
            && o.config.auto.allowlist.udp == (if isUdp then c.auto.allowlist.udp - named else c.auto.allowlist.udp)
            && o.config.auto.allowlist.tcp == (if isTcp then c.auto.allowlist.tcp - named else c.auto.allowlist.tcp)
  {
    if isUdp {
      UndoPorts(c.auto.allowlist.udp, startPort, endPort);
    }
    if isTcp {
      UndoPorts(c.auto.allowlist.tcp, startPort, endPort);
    }
  }

  lemma UndoSubnet(c: Config, subnet: string, a: Answers, lib: NetLib)
    requires OnAllowlist(c, SubnetRequest(subnet), false, a, lib).code == Success
    ensures var c1 := OnAllowlist(c, SubnetRequest(subnet), false, a, lib).config;
            OnAllowlist(c1, SubnetRequest(subnet), true, a, lib) ==
            Outcome(c, Success)
  {
    assert c.auto.allowlist.subnets + {subnet} - {subnet} == c.auto.allowlist.subnets;
  }

  lemma UndoPorts(current: set<int>, startPort: int, endPort: int)
    requires PortsError(startPort, endPort, current, false) == None
    ensures PortsError(startPort, endPort, current + Range(startPort, endPort), true) == None
    ensures current + Range(startPort, endPort) - Range(startPort, endPort) == current - Range(startPort, endPort)
  {
  }

  ghost predicate BelowLimit(c: Config) {
    forall p :: p in c.auto.allowlist.udp || p in c.auto.allowlist.tcp ==> p <= 65535
  }

  /** The end of a range is not checked against the port limit: a successful request keeps all ports
      within it exactly when the request's own end does. */
  lemma LimitKeptIff(c: Config, isUdp: bool, isTcp: bool, startPort: int, endPort: int, a: Answers, lib: NetLib)
    requires BelowLimit(c) && (isUdp || isTcp)
    requires OnAllowlist(c, PortsRequest(isUdp, isTcp, startPort, endPort), false, a, lib).code == Success
    ensures BelowLimit(OnAllowlist(c, PortsRequest(isUdp, isTcp, startPort, endPort), false, a, lib).config) <==>
            endPort <= 65535
  {
    PortsExactly(c, isUdp, isTcp, startPort, endPort, false, a, lib);
    var l := OnAllowlist(c, PortsRequest(isUdp, isTcp, startPort, endPort), false, a, lib).config.auto.allowlist;
    if endPort > 65535 {
      assert endPort in l.udp || endPort in l.tcp;
    }
  }

  // ----- name servers -----

  /** Requests of at most three addresses are "already set" exactly when they are the stored ones in any
      order; what is stored is the request, sorted. */
  lemma DnsAlreadySetIff(c: Config, dns: Option<seq<string>>, a: Answers, lib: NetLib)
    ensures var asked := if dns.None? then [] else dns.value; var o := OnSetDns(c, dns, a, lib);
            && (o.code == TooManyValues <==> |asked| > 3)
            && (o.code == AlreadySet <==> |asked| <= 3 && multiset(asked) == multiset(c.auto.dns))
            && (o.code == DnsConfigured || o.code == DnsConfiguredTplReset ==>
                  multiset(o.config.auto.dns) == multiset(asked) && Sorting.SortedBy(o.config.auto.dns, Text.Less))
            && (o.code != DnsConfigured && o.code != DnsConfiguredTplReset ==> o.config == c)
  {
    var asked := if dns.None? then [] else dns.value;
    DnsStores(c, dns, a, lib);
    SortStringsCanonical(asked, c.auto.dns);
    SortStringsSorts(asked);
  }

  lemma DnsStores(c: Config, dns: Option<seq<string>>, a: Answers, lib: NetLib)
    ensures var sorted := SortStrings(if dns.None? then [] else dns.value); var o := OnSetDns(c, dns, a, lib);
            && (o.code == TooManyValues <==> |sorted| > 3)
            && (o.code == AlreadySet <==> |sorted| <= 3 && sorted == SortStrings(c.auto.dns))
            && (if o.code == DnsConfigured || o.code == DnsConfiguredTplReset then o.config.auto.dns == sorted
                else o.config == c)
  {
  }

  // ----- rules that do not hold -----

  const WORKING := Answers(true, true, true, false, true, MapOk, true, true, true)

  /** Mesh does not imply routing: routing can be off before the mesh is enabled. */
  lemma MeshWithoutRouting(lib: NetLib)
    ensures var c := Run(DEFAULT, [Exchange(SetRouting(false), WORKING), Exchange(EnableMeshnet, WORKING)], lib);
            c.mesh && !c.routing
  {
    var exchanges := [Exchange(SetRouting(false), WORKING), Exchange(EnableMeshnet, WORKING)];
    assert exchanges[..1] == [Exchange(SetRouting(false), WORKING)] && exchanges[..1][..0] == [];
    assert Run(DEFAULT, exchanges[..1], lib) == DEFAULT.(routing := false);
  }

  /** NordLynx does not exclude obfuscation: the request itself has no technology check. */
  lemma NordLynxObfuscated(lib: NetLib)
    ensures var c := Run(DEFAULT, [Exchange(SetObfuscate(true), WORKING)], lib);
            c.technology == NordLynx && c.auto.obfuscate
  {
    var exchanges := [Exchange(SetObfuscate(true), WORKING)];
    assert exchanges[..0] == [];
  }

  /** A port beyond the limit is reachable. */
  lemma PortBeyondLimit(lib: NetLib)
    ensures var exchanges := [Exchange(SetAllowlist(PortsRequest(true, false, 1, 70000)), WORKING)];
            70000 in Run(DEFAULT, exchanges, lib).auto.allowlist.udp
  {
    var exchanges := [Exchange(SetAllowlist(PortsRequest(true, false, 1, 70000)), WORKING)];
    assert exchanges[..0] == [];
  }

  // ----- runs in which callers check what the handlers do not -----

  /** The three rules that no handler enforces. */
  ghost predicate Tidy(c: Config) {
    (c.mesh ==> c.routing) && (c.technology == NordLynx ==> !c.auto.obfuscate) && BelowLimit(c)
  }

  /** A request that succeeds although its caller should not have made it. */
  ghost predicate Careless(c: Config, r: Request, a: Answers, lib: NetLib) {
    && Serve(c, r, a, lib).code == Success
    && match r
       case EnableMeshnet => !c.routing
       case SetObfuscate(enabled) => enabled && c.technology == NordLynx
       case SetAllowlist(PortsRequest(isUdp, isTcp, _, endPort)) => (isUdp || isTcp) && endPort > 65535
       case _ => false
  }

  lemma AllowlistTidyIff(c: Config, request: AllowlistRequest, remove: bool, a: Answers, lib: NetLib)
    requires Tidy(c)
    ensures Tidy(OnAllowlist(c, request, remove, a, lib).config) <==>
            remove || !Careless(c, SetAllowlist(request), a, lib)
  {
    AllowlistOnly(c, request, remove, a, lib);
    match request
    case SubnetRequest(_) =>
    case PortsRequest(isUdp, isTcp, startPort, endPort) =>
      PortsBelowLimitIff(c, isUdp, isTcp, startPort, endPort, remove, a, lib);
  }

  /** Allowlist requests change nothing but the allowlist, and subnet requests no port. */
  lemma AllowlistOnly(c: Config, request: AllowlistRequest, remove: bool, a: Answers, lib: NetLib)
    ensures var d := OnAllowlist(c, request, remove, a, lib).config;
            && d.mesh == c.mesh && d.routing == c.routing && d.technology == c.technology
            && d.auto.obfuscate == c.auto.obfuscate
            && (request.SubnetRequest? ==>
                  d.auto.allowlist.udp == c.auto.allowlist.udp && d.auto.allowlist.tcp == c.auto.allowlist.tcp)
  {
  }

  lemma PortsBelowLimitIff(c: Config, isUdp: bool, isTcp: bool, startPort: int, endPort: int, remove: bool, a: Answers,
                           lib: NetLib)
    requires BelowLimit(c)
    ensures var o := OnAllowlist(c, PortsRequest(isUdp, isTcp, startPort, endPort), remove, a, lib);
            BelowLimit(o.config) <==> remove || o.code != Success || (!isUdp && !isTcp) || endPort <= 65535
  {
    var o := OnAllowlist(c, PortsRequest(isUdp, isTcp, startPort, endPort), remove, a, lib);
    if o.code != Success || remove || (!isUdp && !isTcp) {
      PortsExactly(c, isUdp, isTcp, startPort, endPort, remove, a, lib);
    } else {
      LimitKeptIff(c, isUdp, isTcp, startPort, endPort, a, lib);
    }
  }

  lemma DnsKeepsTidy(c: Config, dns: Option<seq<string>>, a: Answers, lib: NetLib)
    requires Tidy(c)
    ensures Tidy(OnSetDns(c, dns, a, lib).config)
  {
    DnsOnly(c, dns, a, lib);
  }

  lemma DnsOnly(c: Config, dns: Option<seq<string>>, a: Answers, lib: NetLib)
    ensures SameButDns(c, OnSetDns(c, dns, a, lib).config)
  {
    var o := OnSetDns(c, dns, a, lib);
    if o.config != c {
      var asked := if dns.None? then [] else dns.value;
      assert o == StoreDns(c, SortStrings(asked), c.auto.threatProtectionLite && dns.None?, a);
    }
  }

  lemma DiscoveryKeepsTidy(c: Config, enabled: bool, a: Answers, lib: NetLib)
    requires Tidy(c)
    ensures Tidy(OnSetLanDiscovery(c, enabled, a, lib).config)
  {
  }

  lemma MeshTidyIff(c: Config, r: Request, a: Answers, lib: NetLib)
    requires Tidy(c) && (r.EnableMeshnet? || r.DisableMeshnet? || r.SetRouting?)
    ensures Tidy(Serve(c, r, a, lib).config) <==> !Careless(c, r, a, lib)
  {
  }

  lemma AccountKeepsTidy(c: Config, r: Request, a: Answers, lib: NetLib)
    requires Tidy(c) && (r.Login? || r.Logout? || r.SetDefaults? || r.UnsetAllAllowlist?)
    ensures Tidy(Serve(c, r, a, lib).config)
  {
  }

  lemma TechnologyKeepsTidy(c: Config, technology: Technology, a: Answers)
    requires Tidy(c)
    ensures Tidy(OnSetTechnology(c, technology, a).config)
  {
  }

  lemma VpnTidyIff(c: Config, r: Request, a: Answers, lib: NetLib)
    requires Tidy(c) && (r.SetProtocol? || r.SetObfuscate? || r.SetAutoConnect?)
    ensures Tidy(Serve(c, r, a, lib).config) <==> !Careless(c, r, a, lib)
  {
  }

  lemma SwitchKeepsTidy(c: Config, r: Request, a: Answers, lib: NetLib)
    requires Tidy(c) && (r.SetFirewall? || r.SetKillSwitch?)
    ensures Tidy(Serve(c, r, a, lib).config)
  {
  }

  lemma FeatureKeepsTidy(c: Config, r: Request, a: Answers, lib: NetLib)
    requires Tidy(c) && (r.SetPostQuantum? || r.SetThreatProtectionLite?)
    ensures Tidy(Serve(c, r, a, lib).config)
  {
  }

  /** A request breaks one of the three rules iff it succeeds and is one of the three that its caller had to check. */
  lemma TidyStepIff(c: Config, r: Request, a: Answers, lib: NetLib)
    requires Tidy(c)
    ensures Tidy(Serve(c, r, a, lib).config) <==> !Careless(c, r, a, lib)
  {
    match r
    case SetAllowlist(request) => AllowlistTidyIff(c, request, false, a, lib);
    case UnsetAllowlist(request) => AllowlistTidyIff(c, request, true, a, lib);
    case SetDns(dns) => DnsKeepsTidy(c, dns, a, lib);
    case SetLanDiscovery(enabled) => DiscoveryKeepsTidy(c, enabled, a, lib);
    case EnableMeshnet => MeshTidyIff(c, r, a, lib);
    case DisableMeshnet => MeshTidyIff(c, r, a, lib);
    case SetRouting(_) => MeshTidyIff(c, r, a, lib);
    case Login(_) => AccountKeepsTidy(c, r, a, lib);
    case Logout => AccountKeepsTidy(c, r, a, lib);
    case SetDefaults => AccountKeepsTidy(c, r, a, lib);
    case UnsetAllAllowlist => AccountKeepsTidy(c, r, a, lib);
    case SetTechnology(technology) => TechnologyKeepsTidy(c, technology, a);
    case SetProtocol(_) => VpnTidyIff(c, r, a, lib);
    case SetObfuscate(_) => VpnTidyIff(c, r, a, lib);
    case SetAutoConnect(_, _, _, _, _) => VpnTidyIff(c, r, a, lib);
    case SetPostQuantum(_) => FeatureKeepsTidy(c, r, a, lib);
    case SetThreatProtectionLite(_) => FeatureKeepsTidy(c, r, a, lib);
    case _ => SwitchKeepsTidy(c, r, a, lib);
  }

  /** Every config on the way satisfies the three rules. */
  ghost predicate TidyThroughout(c: Config, exchanges: seq<Exchange>, lib: NetLib) {
    && Tidy(Run(c, exchanges, lib))
    && (exchanges != [] ==> TidyThroughout(c, exchanges[..|exchanges| - 1], lib))
  }

  ghost predicate NeverCareless(c: Config, exchanges: seq<Exchange>, lib: NetLib) {
    exchanges != [] ==>
      var front, last := exchanges[..|exchanges| - 1], exchanges[|exchanges| - 1];
      NeverCareless(c, front, lib) && !Careless(Run(c, front, lib), last.request, last.answers, lib)
  }

  /** A run keeps the three rules throughout iff no careless request in it succeeds. */
  lemma {:induction false} TidyRunsIff(c: Config, exchanges: seq<Exchange>, lib: NetLib)
    requires Tidy(c)
    ensures TidyThroughout(c, exchanges, lib) <==> NeverCareless(c, exchanges, lib)
  {
    if exchanges != [] {
      var front, last := exchanges[..|exchanges| - 1], exchanges[|exchanges| - 1];
      TidyRunsIff(c, front, lib);
      if TidyThroughout(c, front, lib) {
        assert Tidy(Run(c, front, lib));
        TidyStepIff(Run(c, front, lib), last.request, last.answers, lib);
      }
    }
  }

  // ----- answers -----

  /** The answers that promise a change. */
  predicate Succeeds(code: Code) {
    || code == Success
    || code == DnsConfigured || code == DnsConfiguredTplReset
    || code == TplConfigured || code == TplConfiguredDnsReset
    || code == DiscoveryConfigured || code == DiscoveryConfiguredAllowlistReset
    || code == ProtocolConfigured || code == ProtocolConfiguredVpnOn
  }

  /** A refused request that changes the stored config: enabling the mesh with a token that the mesh API rejects drops
      the token, and resetting when the default technology is not built in has already reset. */
  predicate RefusalException(c: Config, r: Request, a: Answers, c': Config) {
    || (r.EnableMeshnet? && a.meshMap == MapUnauthorized && c' == c.(tokens := c.tokens - {c.auto.id}))
    || (r.SetDefaults? && !a.factory && c' == DEFAULT)
  }

  /** Every other answer means that the stored config is untouched, but for these two exceptions. */
  lemma RefusalChangesNothing(c: Config, r: Request, a: Answers, lib: NetLib)
    requires !Succeeds(Serve(c, r, a, lib).code) && Serve(c, r, a, lib).config != c
    ensures RefusalException(c, r, a, Serve(c, r, a, lib).config)
  {
    match r
    case SetAllowlist(request) => RejectedChangesNothing(c, request, false, a, lib);
    case UnsetAllowlist(request) => RejectedChangesNothing(c, request, true, a, lib);
    case SetDns(dns) => DnsRefused(c, dns, a, lib);
    case SetLanDiscovery(enabled) => DiscoveryRefused(c, enabled, a, lib);
    case SetTechnology(_) => VpnRefused(c, r, a, lib);
    case SetProtocol(_) => VpnRefused(c, r, a, lib);
    case SetPostQuantum(_) => VpnRefused(c, r, a, lib);
    case SetThreatProtectionLite(_) => VpnRefused(c, r, a, lib);
    case _ => OtherRefused(c, r, a, lib);
  }

  lemma DnsRefused(c: Config, dns: Option<seq<string>>, a: Answers, lib: NetLib)
    ensures !Succeeds(OnSetDns(c, dns, a, lib).code) ==> OnSetDns(c, dns, a, lib).config == c
  {
  }

  lemma DiscoveryRefused(c: Config, enabled: bool, a: Answers, lib: NetLib)
    ensures !Succeeds(OnSetLanDiscovery(c, enabled, a, lib).code) ==> OnSetLanDiscovery(c, enabled, a, lib).config == c
  {
  }

  lemma VpnRefused(c: Config, r: Request, a: Answers, lib: NetLib)
    requires r.SetTechnology? || r.SetProtocol? || r.SetPostQuantum? || r.SetThreatProtectionLite?
    ensures !Succeeds(Serve(c, r, a, lib).code) ==> Serve(c, r, a, lib).config == c
  {
  }

  lemma OtherRefused(c: Config, r: Request, a: Answers, lib: NetLib)
    requires !r.SetDns? && !r.SetLanDiscovery? && !r.SetAllowlist? && !r.UnsetAllowlist?
    requires !r.SetTechnology? && !r.SetProtocol? && !r.SetPostQuantum? && !r.SetThreatProtectionLite?
    ensures !Succeeds(Serve(c, r, a, lib).code) ==>
              || Serve(c, r, a, lib).config == c
              || RefusalException(c, r, a, Serve(c, r, a, lib).config)
  {
  }

  lemma RejectedChangesNothing(c: Config, request: AllowlistRequest, remove: bool, a: Answers, lib: NetLib)
    ensures OnAllowlist(c, request, remove, a, lib).code != Success ==>
            OnAllowlist(c, request, remove, a, lib).config == c
  {
  }

  /** A request that succeeded changes nothing when it is made again, whatever the answers are then; for
      Logout, as long as no token is stored under the id of nobody. */
  lemma RepeatChangesNothing(c: Config, r: Request, a: Answers, again: Answers, lib: NetLib)
    requires Succeeds(Serve(c, r, a, lib).code) && (r.Logout? ==> 0 !in c.tokens)
    ensures Serve(Serve(c, r, a, lib).config, r, again, lib).config == Serve(c, r, a, lib).config
  {
    match r
    case SetDns(dns) => RepeatDns(c, dns, a, again, lib);
    case SetAllowlist(request) =>
      AllowlistCodes(c, request, false, a, lib);
      RepeatAllowlist(c, request, false, a, again, lib);
    case UnsetAllowlist(request) =>
      AllowlistCodes(c, request, true, a, lib);
      RepeatAllowlist(c, request, true, a, again, lib);
    case SetTechnology(_) => RepeatTechnology(c, r, a, again, lib);
    case SetProtocol(_) => RepeatProtocol(c, r, a, again, lib);
    case SetPostQuantum(_) => RepeatPostQuantum(c, r, a, again, lib);
    case SetThreatProtectionLite(_) => RepeatThreatProtection(c, r, a, again, lib);
    case EnableMeshnet => RepeatAccount(c, r, a, again, lib);
    case DisableMeshnet => RepeatAccount(c, r, a, again, lib);
    case Login(_) => RepeatAccount(c, r, a, again, lib);
    case Logout => RepeatAccount(c, r, a, again, lib);
    case SetDefaults => RepeatAccount(c, r, a, again, lib);
    case SetObfuscate(_) => RepeatTarget(c, r, a, again, lib);
    case SetLanDiscovery(_) => RepeatDiscovery(c, r, a, again, lib);
    case SetAutoConnect(_, _, _, _, _) => RepeatTarget(c, r, a, again, lib);
    case _ => RepeatSwitch(c, r, a, again, lib);
  }

  ghost predicate Settles(c: Config, r: Request, a: Answers, again: Answers, lib: NetLib) {
    Succeeds(Serve(c, r, a, lib).code) ==>
      Serve(Serve(c, r, a, lib).config, r, again, lib).config == Serve(c, r, a, lib).config
  }

  lemma RepeatTechnology(c: Config, r: Request, a: Answers, again: Answers, lib: NetLib)
    requires r.SetTechnology?
    ensures Settles(c, r, a, again, lib)
  {
    TechnologySet(c, r.technology, a);
  }

  lemma TechnologySet(c: Config, technology: Technology, a: Answers)
    ensures var o := OnSetTechnology(c, technology, a); Succeeds(o.code) ==> o.config.technology == technology
  {
  }

  lemma RepeatProtocol(c: Config, r: Request, a: Answers, again: Answers, lib: NetLib)
    requires r.SetProtocol?
    ensures Settles(c, r, a, again, lib)
  {
  }

  lemma RepeatPostQuantum(c: Config, r: Request, a: Answers, again: Answers, lib: NetLib)
    requires r.SetPostQuantum?
    ensures Settles(c, r, a, again, lib)
  {
  }

  lemma RepeatThreatProtection(c: Config, r: Request, a: Answers, again: Answers, lib: NetLib)
    requires r.SetThreatProtectionLite?
    ensures Settles(c, r, a, again, lib)
  {
  }

  lemma RepeatAccount(c: Config, r: Request, a: Answers, again: Answers, lib: NetLib)
    requires r.EnableMeshnet? || r.DisableMeshnet? || r.SetDefaults? || r.Login? || (r.Logout? && 0 !in c.tokens)
    ensures Settles(c, r, a, again, lib)
  {
  }

  lemma RepeatSwitch(c: Config, r: Request, a: Answers, again: Answers, lib: NetLib)
    requires r.SetFirewall? || r.SetKillSwitch? || r.SetRouting? || r.UnsetAllAllowlist?
    ensures Settles(c, r, a, again, lib)
  {
  }

  lemma RepeatDiscovery(c: Config, r: Request, a: Answers, again: Answers, lib: NetLib)
    requires r.SetLanDiscovery?
    ensures Settles(c, r, a, again, lib)
  {
  }

  lemma RepeatTarget(c: Config, r: Request, a: Answers, again: Answers, lib: NetLib)
    requires r.SetObfuscate? || r.SetAutoConnect?
    ensures Settles(c, r, a, again, lib)
  {
  }

  lemma RepeatDns(c: Config, dns: Option<seq<string>>, a: Answers, again: Answers, lib: NetLib)
    requires Succeeds(OnSetDns(c, dns, a, lib).code)
    ensures OnSetDns(OnSetDns(c, dns, a, lib).config, dns, again, lib).config == OnSetDns(c, dns, a, lib).config
  {
    DnsAlreadySetIff(c, dns, a, lib);
    DnsConfiguredCodes(c, dns, a, lib);
    DnsAlreadySetIff(OnSetDns(c, dns, a, lib).config, dns, again, lib);
  }

  lemma DnsConfiguredCodes(c: Config, dns: Option<seq<string>>, a: Answers, lib: NetLib)
    ensures var code := OnSetDns(c, dns, a, lib).code;
            Succeeds(code) ==>
              (code == DnsConfigured || code == DnsConfiguredTplReset) && (dns.Some? ==> |dns.value| <= 3)
  {
  }

  lemma RepeatAllowlist(c: Config, request: AllowlistRequest, remove: bool, a: Answers, again: Answers, lib: NetLib)
    requires OnAllowlist(c, request, remove, a, lib).code == Success
    ensures OnAllowlist(OnAllowlist(c, request, remove, a, lib).config, request, remove, again, lib).config ==
            OnAllowlist(c, request, remove, a, lib).config
  {
    var l := c.auto.allowlist;
    if request.PortsRequest? {
      var named := Range(request.startPort, request.endPort);
      assert Changed(Changed(l.udp, named, remove), named, remove) == Changed(l.udp, named, remove);
      assert Changed(Changed(l.tcp, named, remove), named, remove) == Changed(l.tcp, named, remove);
    }
  }

  lemma AllowlistCodes(c: Config, request: AllowlistRequest, remove: bool, a: Answers, lib: NetLib)
    ensures Succeeds(OnAllowlist(c, request, remove, a, lib).code) ==>
            OnAllowlist(c, request, remove, a, lib).code == Success
  {
  }
}
