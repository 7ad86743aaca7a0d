/** core/models.go: servers as the API describes them and the daemon keeps them. */
module Catalogue {
  import opened Options
  import opened Config
  import Text

  const OPENVPN_UDP := 3
  const OPENVPN_TCP := 5
  const OPENVPN_UDP_OBFUSCATED := 15
  const OPENVPN_TCP_OBFUSCATED := 17
  const WIREGUARD := 35

  const ONLINE := "online"

  datatype ServerTechnology = ServerTechnology(id: int, status: string)
  datatype Group = Group(id: int, title: string)
  datatype Specification = Specification(identifier: string, values: seq<string>)

  /** The first entry of a server's locations: country and city. */
  datatype Location = Location(countryName: string, countryCode: string, cityName: string, hubScore: Option<real>)

  datatype Server = Server(
    id: int,
    hostname: string,
    createdAt: string,
    load: int,
    status: string,
    location: Option<Location>,
    technologies: seq<ServerTechnology>,
    groups: seq<Group>,
    specifications: seq<Specification>,
    keys: seq<string>,
    timestamp: int,
    distance: real,
    penalty: real,
    partialPenalty: real)

  const NOWHERE := Location("", "", "", None)

  /** The location, where the source takes its presence for granted. */
  function Home(s: Server): Location {
    if s.location.Some? then s.location.value else NOWHERE
  }

  predicate IsConnectableVia(s: Server, tech: int) {
    ServerTechnology(tech, ONLINE) in s.technologies && s.status == ONLINE
  }

  predicate IsObfuscated(s: Server) {
    IsConnectableVia(s, OPENVPN_UDP_OBFUSCATED) && IsConnectableVia(s, OPENVPN_TCP_OBFUSCATED)
  }

  predicate IsConnectableWithProtocol(s: Server, tech: Technology, protocol: Protocol) {
    match (tech, protocol)
    case (NordLynx, _) => IsConnectableVia(s, WIREGUARD)
    case (OpenVpn, Udp) => IsConnectableVia(s, OPENVPN_UDP) || IsConnectableVia(s, OPENVPN_UDP_OBFUSCATED)
    case (OpenVpn, Tcp) => IsConnectableVia(s, OPENVPN_TCP) || IsConnectableVia(s, OPENVPN_TCP_OBFUSCATED)
    case _ => false
  }

  /** The technology that a server must offer; None for settings that name none. */
  function ToServerTechnology(tech: Technology, protocol: Protocol, obfuscated: bool): Option<int> {
    match (tech, protocol)
    case (NordLynx, _) => Some(WIREGUARD)
    case (OpenVpn, Tcp) => Some(if obfuscated then OPENVPN_TCP_OBFUSCATED else OPENVPN_TCP)
    case (OpenVpn, Udp) => Some(if obfuscated then OPENVPN_UDP_OBFUSCATED else OPENVPN_UDP)
    case _ => None
  }

  /** The values of the first specification with the identifier. */
  function SpecificationValues(specs: seq<Specification>, identifier: string): seq<string> {
    if specs == [] then []
    else if specs[0].identifier == identifier then specs[0].values
    else SpecificationValues(specs[1..], identifier)
  }

  /** The texts that nstrings.BoolFromString reads as true. */
  predicate ReadsTrue(text: string) {
    Text.Lower(text) in ["1", "true", "enable", "enabled", "on"]
  }

  predicate IsVirtualLocation(s: Server) {
    var values := SpecificationValues(s.specifications, "virtual_location");
    values != [] && ReadsTrue(values[0])
  }

  predicate InGroup(s: Server, group: int) {
    exists g :: g in s.groups && g.id == group
  }
}
