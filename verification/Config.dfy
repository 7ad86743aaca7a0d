/** config/: the stored settings, the allowlist with its in-place updates, and the store. */
module Config {
  import opened Options
  import Sorting
  import Text

  datatype Technology = UnknownTechnology | OpenVpn | NordLynx
  datatype Protocol = UnknownProtocol | Udp | Tcp

  datatype Allowlist = Allowlist(udp: set<int>, tcp: set<int>, subnets: set<string>)

  const NO_ALLOWLIST := Allowlist({}, {}, {})

  datatype AutoConnectData = AutoConnectData(
    id: int,
    serverTag: string,
    country: string,
    city: string,
    group: int,
    protocol: Protocol,
    threatProtectionLite: bool,
    obfuscate: bool,
    dns: seq<string>,
    allowlist: Allowlist,
    postquantumVpn: bool)

  datatype Config = Config(
    technology: Technology,
    firewall: bool,
    routing: bool,
    mesh: bool,
    killSwitch: bool,
    autoConnect: bool,
    lanDiscovery: bool,
    tokens: set<int>,
    auto: AutoConnectData)

  /** newConfig */
  const DEFAULT := Config(NordLynx, true, true, false, false, false, false, {},
                          AutoConnectData(0, "", "", "", 0, Udp, false, false, [], NO_ALLOWLIST, false))

  /** What the daemon asks the net packages about a text. */
  datatype PrefixKind = Unparsable | Private | Public
  datatype NetLib = NetLib(parseIP: string -> bool, parseCIDR: string -> bool, parsePrefix: string -> PrefixKind)

  predicate ContainsPrivateNetwork(subnet: string, lib: NetLib) {
    lib.parsePrefix(subnet) == Private
  }

  function SortStrings(s: seq<string>): (r: seq<string>)
    ensures multiset(r) == multiset(s) && |r| == |s|
  {
    Sorting.StableSort(s, Text.Less)
  }

  lemma LessIsOrder()
    ensures Sorting.StrictWeakOrder(Text.Less)
    ensures forall a, b :: a == b || Text.Less(a, b) || Text.Less(b, a)
  {
    forall a, b, c
      ensures (Text.Less(a, b) ==> !Text.Less(b, a)) && (Text.Less(a, c) ==> Text.Less(a, b) || Text.Less(b, c))
    {
      Text.LessOrder(a, b, c);
    }
    forall a, b
      ensures a == b || Text.Less(a, b) || Text.Less(b, a)
    {
      Text.LessTotal(a, b);
    }
  }

  lemma SortStringsSorts(s: seq<string>)
    ensures Sorting.SortedBy(SortStrings(s), Text.Less)
  {
    LessIsOrder();
    Sorting.StableSortSorts(s, Text.Less);
  }

  /** Sorting compares lists as multisets. */
  lemma SortStringsCanonical(s: seq<string>, t: seq<string>)
    ensures SortStrings(s) == SortStrings(t) <==> multiset(s) == multiset(t)
  {
    if multiset(s) == multiset(t) {
      SortStringsSorts(s);
      SortStringsSorts(t);
      LessIsOrder();
      Sorting.SortedUnique(SortStrings(s), SortStrings(t), Text.Less);
    }
  }

  /** An allowlist as loaded into memory: maps that are updated in place. */
  class LoadedAllowlist {
    var udp: set<int>
    var tcp: set<int>
    var subnets: set<string>

    constructor (a: Allowlist)
      ensures View() == a
    {
      udp, tcp, subnets := a.udp, a.tcp, a.subnets;
    }

    ghost function View(): Allowlist
      reads this
    {
      Allowlist(udp, tcp, subnets)
    }

    method UpdateUDPPorts(ports: seq<int>, remove: bool)
      modifies this`udp
      ensures udp == if remove then old(udp) - (set p | p in ports) else old(udp) + set p | p in ports
    {
      for i := 0 to |ports|
        invariant udp == if remove then old(udp) - (set p | p in ports[..i]) else old(udp) + set p | p in ports[..i]
      {
        if remove {
          udp := udp - {ports[i]};
        } else {
          udp := udp + {ports[i]};
        }
      }
      assert ports[..|ports|] == ports;
    }

    method UpdateTCPPorts(ports: seq<int>, remove: bool)
      modifies this`tcp
      ensures tcp == if remove then old(tcp) - (set p | p in ports) else old(tcp) + set p | p in ports
    {
      for i := 0 to |ports|
        invariant tcp == if remove then old(tcp) - (set p | p in ports[..i]) else old(tcp) + set p | p in ports[..i]
      {
        if remove {
          tcp := tcp - {ports[i]};
        } else {
          tcp := tcp + {ports[i]};
        }
      }
      assert ports[..|ports|] == ports;
    }

    method UpdateSubnets(subnet: string, remove: bool)
      modifies this`subnets
      ensures subnets == if remove then old(subnets) - {subnet} else old(subnets) + {subnet}
    {
      if remove {
        subnets := subnets - {subnet};
      } else {
        subnets := subnets + {subnet};
      }
    }
  }

  /** config.Manager as a fallible store: a failed save leaves what was stored. */
  class Manager {
    var stored: Config

    constructor ()
      ensures stored == DEFAULT
    {
      stored := DEFAULT;
    }

    method SaveWith(update: Config -> Config, works: bool) returns (saved: bool)
      modifies this
      ensures saved == works && stored == if works then update(old(stored)) else old(stored)
    {
      if works {
        stored := update(stored);
      }
      saved := works;
    }

    method Reset(works: bool) returns (saved: bool)
      modifies this
      ensures saved == works && stored == if works then DEFAULT else old(stored)
    {
      if works {
        stored := DEFAULT;
      }
      saved := works;
    }
  }
}
