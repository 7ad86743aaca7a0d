/** daemon/rpc_set_*.go, daemon/rpc_logout.go and meshnet/server.go: the request handlers as they run,
    proved against the account in Settings. */
module Rpc {
  import opened Options
  import opened Config
  import opened Settings
  import SettingsAnswers
  import SettingsInvariants

  /** slices.Sort: sorts the slice in place. */
  method Sort(a: array<string>)
    modifies a
    ensures a[..] == SortStrings(old(a[..]))
  {
    var sorted := SortStrings(a[..]);
    for i := 0 to a.Length
      invariant forall j :: 0 <= j < i ==> a[j] == sorted[j]
    {
      a[i] := sorted[i];
    }
    assert a[..] == sorted;
  }

  method AllParse(addresses: seq<string>, lib: NetLib) returns (valid: bool)
    ensures valid <==> forall x :: x in addresses ==> lib.parseIP(x)
  {
    for i := 0 to |addresses|
      invariant forall j :: 0 <= j < i ==> lib.parseIP(addresses[j])
    {
      if !lib.parseIP(addresses[i]) {
        assert addresses[i] in addresses;
        return false;
      }
    }
    return true;
  }

  /** getPortsInARange */
  method GetPortsInARange(start: int, stop: int) returns (ports: seq<int>)
    ensures forall p :: p in ports <==> p in Range(start, stop)
  {
    ports := [start];
    var port := start + 1;
    while port <= stop
      invariant start < port && (port <= stop + 1 || port == start + 1)
      invariant forall p :: p in ports <==> p == start || start < p < port
    {
      ports := ports + [port];
      port := port + 1;
    }
  }

  /** arePortsValid */
  method ArePortsValid(startPort: int, endPort: int, current: set<int>, remove: bool) returns (error: Option<Code>)
    ensures error == PortsError(startPort, endPort, current, remove)
  {
    if startPort < 1 || startPort > 65535 {
      return Some(AllowlistPortOutOfRange);
    }
    if endPort != 0 && ((startPort < 1 || startPort > 65535) || endPort < startPort) {
      return Some(AllowlistPortOutOfRange);
    }
    if remove {
      var port := startPort;
      while port <= endPort
        invariant startPort <= port && (port <= endPort + 1 || port == startPort)
        invariant forall p :: startPort <= p < port ==> p in current
      {
        if port !in current {
          return Some(AllowlistPortNoop);
        }
        port := port + 1;
      }
    }
    if endPort == 0 {
      if (startPort in current) != remove {
        return Some(AllowlistPortNoop);
      }
    }
    return None;
  }

  class RPC {
    const cm: Manager
    const lib: NetLib

    constructor (cm: Manager, lib: NetLib)
      ensures this.cm == cm && this.lib == lib
    {
      this.cm, this.lib := cm, lib;
    }

    method SetFirewall(enabled: bool, a: Answers) returns (code: Code)
      modifies cm
      ensures Outcome(cm.stored, code) == OnSetFirewall(old(cm.stored), enabled, a)
    {
      var cfg := cm.stored;
      if cfg.firewall == enabled {
        return NothingToDo;
      }
      if cfg.killSwitch && !enabled {
        return DependencyError;
      }
      if !a.network {
        return Failure;
      }
      var saved := cm.SaveWith((c: Config) => c.(firewall := enabled), a.save);
      return if saved then Success else ConfigError;
    }

    method SetKillSwitch(enabled: bool, a: Answers) returns (code: Code)
      modifies cm
      ensures Outcome(cm.stored, code) == OnSetKillSwitch(old(cm.stored), enabled, a)
    {
      var cfg := cm.stored;
      if !cfg.firewall {
        return DependencyError;
      }
      if cfg.killSwitch == enabled {
        return NothingToDo;
      }
      if !a.network {
        return KillSwitchError;
      }
      var saved := cm.SaveWith((c: Config) => c.(killSwitch := enabled), a.save);
      return if saved then Success else ConfigError;
    }

    method SetTechnology(technology: Technology, a: Answers) returns (code: Code)
      modifies cm
      ensures Outcome(cm.stored, code) == OnSetTechnology(old(cm.stored), technology, a)
    {
      var cfg := cm.stored;
      if cfg.technology == technology {
        return NothingToDo;
      }
      if !a.factory {
        return ConfigError;
      }
      var protocol, obfuscate := cfg.auto.protocol, cfg.auto.obfuscate;
      if technology == NordLynx {
        protocol, obfuscate := Udp, false;
      }
      if technology != NordLynx && cfg.auto.postquantumVpn {
        return PqWithoutNordlynx;
      }
      var saved := cm.SaveWith(
        (c: Config) => c.(technology := technology, auto := c.auto.(protocol := protocol, obfuscate := obfuscate)),
        a.save);
      return if saved then Success else ConfigError;
    }

    method SetProtocol(protocol: Protocol, a: Answers) returns (code: Code)
      modifies cm
      ensures Outcome(cm.stored, code) == OnSetProtocol(old(cm.stored), protocol, a)
    {
      var cfg := cm.stored;
      if cfg.auto.protocol == protocol {
        return AlreadySet;
      }
      if cfg.technology == NordLynx {
        return InvalidTechnology;
      }
      var saved := cm.SaveWith((c: Config) => c.(auto := c.auto.(protocol := protocol)), a.save);
      if !saved {
        return ConfigError;
      }
      return if a.vpnActive then ProtocolConfiguredVpnOn else ProtocolConfigured;
    }

    method SetPostQuantum(enabled: bool, a: Answers) returns (code: Code)
      modifies cm
      ensures Outcome(cm.stored, code) == OnSetPostQuantum(old(cm.stored), enabled, a)
    {
      var cfg := cm.stored;
      if cfg.auto.postquantumVpn == enabled {
        return NothingToDo;
      }
      if cfg.mesh && enabled {
        return PqAndMeshnetSimultaneously;
      }
      if cfg.technology != NordLynx {
        return PqWithoutNordlynx;
      }
      var saved := cm.SaveWith((c: Config) => c.(auto := c.auto.(postquantumVpn := enabled)), a.save);
      return if saved then Success else ConfigError;
    }

    method SetThreatProtectionLite(enabled: bool, a: Answers) returns (code: Code)
      modifies cm
      ensures Outcome(cm.stored, code) == OnSetThreatProtectionLite(old(cm.stored), enabled, a)
    {
      var cfg := cm.stored;
      if cfg.auto.threatProtectionLite == enabled {
        return AlreadySet;
      }
      if !a.network {
        return ConfigError;
      }
      var saved := cm.SaveWith((c: Config) => c.(auto := c.auto.(threatProtectionLite := enabled, dns := [])), a.save);
      if !saved {
        return ConfigError;
      }
      return if cfg.auto.dns != [] && enabled then TplConfiguredDnsReset else TplConfigured;
    }

    /** The request's own slice is sorted in place and, through it, stored; null is the absent list. */
    method SetDNS(nameservers: array?<string>, a: Answers) returns (code: Code)
      modifies cm, nameservers
      ensures var dns := if nameservers == null then None else Some(old(nameservers[..]));
              Outcome(cm.stored, code) == OnSetDns(old(cm.stored), dns, a, lib)
      ensures nameservers != null && nameservers.Length <= 3 ==> nameservers[..] == SortStrings(old(nameservers[..]))
    {
      var cfg := cm.stored;
      if nameservers != null && nameservers.Length > 3 {
        return TooManyValues;
      }
      var current := SortStrings(cfg.auto.dns);
      if nameservers != null {
        Sort(nameservers);
      }
      var asked := if nameservers == null then [] else nameservers[..];
      if asked == current {
        return AlreadySet;
      }
      var valid := AllParse(asked, lib);
      if !valid {
        return InvalidDnsAddress;
      }
      var newTpl := cfg.auto.threatProtectionLite;
      if newTpl && nameservers != null {
        newTpl := false;
      }
      if !a.network {
        return Failure;
      }
      var saved := cm.SaveWith(
        (c: Config) => c.(auto := c.auto.(threatProtectionLite := newTpl, dns := asked)), a.save);
      if !saved {
        return ConfigError;
      }
      return if newTpl != cfg.auto.threatProtectionLite then DnsConfiguredTplReset else DnsConfigured;
    }

    method SetLANDiscovery(enabled: bool, a: Answers) returns (code: Code)
      modifies cm
      ensures Outcome(cm.stored, code) == OnSetLanDiscovery(old(cm.stored), enabled, a, lib)
    {
      var cfg := cm.stored;
      if cfg.lanDiscovery == enabled {
        return AlreadySet;
      }
      var subnets, reset := cfg.auto.allowlist.subnets, false;
      if enabled {
        subnets, reset := FilterSubnets(cfg.auto.allowlist.subnets, lib);
      }
      if !a.network {
        return Failure;
      }
      var saved := cm.SaveWith(
        (c: Config) => c.(lanDiscovery := enabled,
                          auto := c.auto.(allowlist := c.auto.allowlist.(subnets := subnets))), a.save);
      if !saved {
        return ConfigError;
      }
      return if reset then DiscoveryConfiguredAllowlistReset else DiscoveryConfigured;
    }

    method GetNewAllowlist(request: AllowlistRequest, remove: bool) returns (n: NewAllowlist)
      ensures n == AllowlistAfter(cm.stored, request, remove, lib)
    {
      var cfg := cm.stored;
      var allowlist := new LoadedAllowlist(cfg.auto.allowlist);
      match request {
        case SubnetRequest(subnet) =>
          if cfg.lanDiscovery && ContainsPrivateNetwork(subnet, lib) {
            return Rejected(PrivateSubnetLanDiscovery);
          }
          if !lib.parseCIDR(subnet) {
            return Rejected(AllowlistInvalidSubnet);
          }
          if (subnet in allowlist.subnets) != remove {
            return Rejected(AllowlistSubnetNoop);
          }
          allowlist.UpdateSubnets(subnet, remove);
        case PortsRequest(isUdp, isTcp, startPort, endPort) =>
          var ports := GetPortsInARange(startPort, endPort);
          assert (set p | p in ports) == Range(startPort, endPort);
          if isUdp {
            var error := ArePortsValid(startPort, endPort, allowlist.udp, remove);
            if error.Some? {
              return Rejected(error.value);
            }
            allowlist.UpdateUDPPorts(ports, remove);
          }
          if isTcp {
            var error := ArePortsValid(startPort, endPort, allowlist.tcp, remove);
            if error.Some? {
              return Rejected(error.value);
            }
            allowlist.UpdateTCPPorts(ports, remove);
          }
      }
      return NewAllowlist(Allowlist(allowlist.udp, allowlist.tcp, allowlist.subnets));
    }

    method HandleNewAllowlist(allowlist: Allowlist, a: Answers) returns (code: Code)
      modifies cm
      ensures Outcome(cm.stored, code) == StoreAllowlist(old(cm.stored), allowlist, a)
    {
      if !a.network {
        return Failure;
      }
      var saved := cm.SaveWith((c: Config) => c.(auto := c.auto.(allowlist := allowlist)), a.save);
      return if saved then Success else ConfigError;
    }

    /** SetAllowlist and, with `remove`, UnsetAllowlist. */
    method SetAllowlist(request: AllowlistRequest, remove: bool, a: Answers) returns (code: Code)
      modifies cm
      ensures Outcome(cm.stored, code) == OnAllowlist(old(cm.stored), request, remove, a, lib)
    {
      var n := GetNewAllowlist(request, remove);
      if n.Rejected? {
        return n.code;
      }
      code := HandleNewAllowlist(n.allowlist, a);
    }

    /** SetAutoConnect: the autoconnect record is written anew, field by field. */
    method SetAutoConnect(enabled: bool, serverTag: string, country: string, city: string, group: int, a: Answers)
      returns (code: Code)
      modifies cm
      ensures Outcome(cm.stored, code) ==
              OnSetAutoConnect(old(cm.stored), Request.SetAutoConnect(enabled, serverTag, country, city, group), a)
    {
      if !a.loggedIn {
        return NotLoggedIn;
      }
      var cfg := cm.stored;
      if !cfg.autoConnect && !enabled {
        return NothingToDo;
      }
      var saved;
      if enabled {
        if !a.guard {
          return AutoConnectRefused;
        }
        saved := cm.SaveWith(
          (c: Config) => c.(autoConnect := enabled, auto := AutoConnectData(
            cfg.auto.id, serverTag, country, city, group, cfg.auto.protocol, cfg.auto.threatProtectionLite,
            cfg.auto.obfuscate, cfg.auto.dns, cfg.auto.allowlist, cfg.auto.postquantumVpn)), a.save);
      } else {
        saved := cm.SaveWith((c: Config) => c.(autoConnect := enabled), a.save);
      }
      return if saved then Success else ConfigError;
    }

    method SetObfuscate(enabled: bool, a: Answers) returns (code: Code)
      modifies cm
      ensures Outcome(cm.stored, code) == OnSetObfuscate(old(cm.stored), enabled, a)
    {
      var cfg := cm.stored;
      if cfg.auto.obfuscate == enabled {
        return NothingToDo;
      }
      if cfg.autoConnect && !a.guard {
        return AutoConnectRefused;
      }
      var saved := cm.SaveWith((c: Config) => c.(auto := c.auto.(obfuscate := enabled)), a.save);
      return if saved then Success else ConfigError;
    }

    method SetRouting(enabled: bool, a: Answers) returns (code: Code)
      modifies cm
      ensures Outcome(cm.stored, code) == OnSetRouting(old(cm.stored), enabled, a)
    {
      var cfg := cm.stored;
      if cfg.routing == enabled {
        return NothingToDo;
      }
      if cfg.mesh && !enabled {
        return DependencyError;
      }
      var saved := cm.SaveWith((c: Config) => c.(routing := enabled), a.save);
      return if saved then Success else ConfigError;
    }

    method EnableMeshnet(a: Answers) returns (code: Code)
      modifies cm
      ensures Outcome(cm.stored, code) == OnEnableMeshnet(old(cm.stored), a)
    {
      if !a.loggedIn {
        return ServiceError;
      }
      if !a.registered {
        return MeshnetError;
      }
      var cfg := cm.stored;
      if cfg.mesh {
        return MeshnetError;
      }
      if cfg.auto.postquantumVpn {
        return MeshnetError;
      }
      var saved;
      if a.meshMap == MapUnauthorized {
        saved := cm.SaveWith((c: Config) => c.(tokens := c.tokens - {cfg.auto.id}), a.save);
        return ServiceError;
      }
      if a.meshMap == MapFailed {
        return ServiceError;
      }
      if !a.network {
        return MeshnetError;
      }
      saved := cm.SaveWith((c: Config) => c.(mesh := true), a.save);
      return if saved then Success else ServiceError;
    }

    method DisableMeshnet(a: Answers) returns (code: Code)
      modifies cm
      ensures Outcome(cm.stored, code) == OnDisableMeshnet(old(cm.stored), a)
    {
      if !cm.stored.mesh {
        return MeshnetError;
      }
      var saved := cm.SaveWith((c: Config) => c.(mesh := false), a.save);
      return if saved then Success else ServiceError;
    }

    /** The common part of logging in with a token and through the browser. */
    method Login(id: int, a: Answers) returns (code: Code)
      modifies cm
      ensures Outcome(cm.stored, code) == OnLogin(old(cm.stored), id, a)
    {
      if a.loggedIn {
        return AlreadyLoggedIn;
      }
      if !a.tokenWorks {
        return Failure;
      }
      var saved := cm.SaveWith((c: Config) => c.(tokens := c.tokens + {id}, auto := c.auto.(id := id)), a.save);
      return if saved then Success else ConfigError;
    }

    method Logout(a: Answers) returns (code: Code)
      modifies cm
      ensures Outcome(cm.stored, code) == OnLogout(old(cm.stored), a)
    {
      if !a.loggedIn {
        return NotLoggedIn;
      }
      if !a.network || cm.stored.auto.id !in cm.stored.tokens || !a.tokenWorks {
        return Failure;
      }
      var saved := cm.SaveWith(
        (c: Config) => c.(tokens := c.tokens - {c.auto.id}, mesh := false, auto := c.auto.(id := 0)), a.save);
      return if saved then Success else ConfigError;
    }

    method SetDefaults(a: Answers) returns (code: Code)
      modifies cm
      ensures Outcome(cm.stored, code) == OnSetDefaults(old(cm.stored), a)
    {
      if !a.network {
        return Failure;
      }
      var saved := cm.Reset(a.save);
      return if saved && a.factory then Success else ConfigError;
    }

    /** Any request: it succeeds iff it is granted, and then the stored config is the old one with exactly the requested
        change; any other answer leaves the config alone, but for the two exceptions of RefusalChangesNothing; and the
        rules for stored configs are kept. */
    method Handle(r: Request, a: Answers) returns (code: Code)
      modifies cm
      ensures Outcome(cm.stored, code) == Serve(old(cm.stored), r, a, lib)
      ensures SettingsInvariants.Succeeds(code) <==> SettingsAnswers.Granted(old(cm.stored), r, a, lib)
      ensures SettingsInvariants.Succeeds(code) ==> SettingsAnswers.Done(old(cm.stored), cm.stored, r, lib)
      ensures Consistent(old(cm.stored), lib) ==> Consistent(cm.stored, lib)
      ensures !SettingsInvariants.Succeeds(code) ==>
        || cm.stored == old(cm.stored)
        || SettingsInvariants.RefusalException(old(cm.stored), r, a, cm.stored)
    {
      code := Dispatch(r, a);
      ghost var was := old(cm.stored);
      SettingsAnswers.GrantedIff(was, r, a, lib);
      SettingsAnswers.SuccessStores(was, r, a, lib);
      if Consistent(was, lib) {
        SettingsInvariants.ServeKeepsConsistent(was, r, a, lib);
      }
      if !SettingsInvariants.Succeeds(code) && cm.stored != was {
        SettingsInvariants.RefusalChangesNothing(was, r, a, lib);
      }
    }

    method Dispatch(r: Request, a: Answers) returns (code: Code)
      modifies cm
      ensures Outcome(cm.stored, code) == Serve(old(cm.stored), r, a, lib)
    {
      match r {
        case SetDns(dns) => code := SetDNSValues(dns, a);
        case SetLanDiscovery(enabled) => code := SetLANDiscovery(enabled, a);
        case SetAllowlist(request) => code := SetAllowlist(request, false, a);
        case UnsetAllowlist(request) => code := SetAllowlist(request, true, a);
        case UnsetAllAllowlist => code := HandleNewAllowlist(NO_ALLOWLIST, a);
        case EnableMeshnet => code := EnableMeshnet(a);
        case DisableMeshnet => code := DisableMeshnet(a);
        case Login(id) => code := Login(id, a);
        case Logout => code := Logout(a);
        case SetDefaults => code := SetDefaults(a);
        case _ => code := DispatchSwitch(r, a);
      }
    }

    method DispatchSwitch(r: Request, a: Answers) returns (code: Code)
      requires r.SetFirewall? || r.SetKillSwitch? || r.SetTechnology? || r.SetProtocol? || r.SetPostQuantum? ||
               r.SetThreatProtectionLite? || r.SetAutoConnect? || r.SetObfuscate? || r.SetRouting?
      modifies cm
      ensures Outcome(cm.stored, code) == Serve(old(cm.stored), r, a, lib)
    {
      match r {
        case SetFirewall(enabled) => code := SetFirewall(enabled, a);
        case SetKillSwitch(enabled) => code := SetKillSwitch(enabled, a);
        case SetTechnology(technology) => code := SetTechnology(technology, a);
        case SetProtocol(protocol) => code := SetProtocol(protocol, a);
        case SetPostQuantum(enabled) => code := SetPostQuantum(enabled, a);
        case SetThreatProtectionLite(enabled) => code := SetThreatProtectionLite(enabled, a);
        case SetAutoConnect(enabled, serverTag, country, city, group) =>
          code := SetAutoConnect(enabled, serverTag, country, city, group, a);
        case SetObfuscate(enabled) => code := SetObfuscate(enabled, a);
        case SetRouting(enabled) => code := SetRouting(enabled, a);
      }
    }

    /** A request's list arrives as a slice of its own. */
    method SetDNSValues(dns: Option<seq<string>>, a: Answers) returns (code: Code)
      modifies cm
      ensures Outcome(cm.stored, code) == OnSetDns(old(cm.stored), dns, a, lib)
    {
      var nameservers: array?<string> := null;
      if dns.Some? {
        var values := dns.value;
        nameservers := new string[|values|](i requires 0 <= i < |values| => values[i]);
        assert nameservers[..] == values;
      }
      code := SetDNS(nameservers, a);
    }
  }

  /** The loop of SetLANDiscovery over the subnets, in any order. */
  method FilterSubnets(before: set<string>, lib: NetLib) returns (subnets: set<string>, reset: bool)
    ensures subnets == PublicSubnets(before, lib)
    ensures reset <==> exists s :: s in before && lib.parsePrefix(s) == Private
  {
    subnets, reset := {}, false;
    var rest := before;
    while rest != {}
      invariant rest <= before
      invariant forall s :: s in subnets <==> s in before - rest && lib.parsePrefix(s) == Public
      invariant reset <==> exists s :: s in before - rest && lib.parsePrefix(s) == Private
      decreases rest
    {
      var s :| s in rest;
      rest := rest - {s};
      match lib.parsePrefix(s)
      case Unparsable =>
      case Public => subnets := subnets + {s};
      case Private => reset := true;
    }
    assert before - rest == before;
  }
}
