/** cli/cli_settings.go: allowlisted ports shown as ranges. */
module PortRanges {
  import Sorting

  datatype PortRange = PortRange(start: int, end: int, protocols: seq<string>)

  function Protocols(port: int, udp: seq<int>, tcp: seq<int>): seq<string> {
    (if port in udp then ["UDP"] else []) + (if port in tcp then ["TCP"] else [])
  }

  ghost predicate Covers(r: PortRange, port: int) {
    r.start <= port <= r.end
  }

  ghost predicate Ascending(ports: seq<int>) {
    forall i, j :: 0 <= i < j < |ports| ==> ports[i] <= ports[j]
  }

  /** Ranges do not overlap and ascend; neighbours differ in protocols or leave a gap. */
  ghost predicate Maximal(ranges: seq<PortRange>) {
    && (forall i :: 0 <= i < |ranges| ==> ranges[i].start <= ranges[i].end)
    && (forall i, j :: 0 <= i < j < |ranges| ==> ranges[i].end < ranges[j].start)
    && (forall i :: 0 < i < |ranges| ==>
        ranges[i - 1].protocols != ranges[i].protocols || ranges[i].start > ranges[i - 1].end + 1)
  }

  /** Expanding the ranges gives back exactly the ports, each with exactly its protocols. */
  ghost predicate Exact(ranges: seq<PortRange>, ports: set<int>, protocolsOf: int -> seq<string>) {
    && (forall p :: p in ports ==> exists i :: 0 <= i < |ranges| && Covers(ranges[i], p))
    && (forall i, p :: 0 <= i < |ranges| && Covers(ranges[i], p) ==>
        p in ports && ranges[i].protocols == protocolsOf(p))
  }

  function ProtocolsIn(udp: seq<int>, tcp: seq<int>): int -> seq<string> {
    p => Protocols(p, udp, tcp)
  }

  ghost function Elements(ports: seq<int>): set<int> {
    set p | p in ports
  }

  lemma StartRange(ranges: seq<PortRange>, ports: set<int>, protocolsOf: int -> seq<string>, port: int)
    requires Exact(ranges, ports, protocolsOf)
    ensures Exact(ranges + [PortRange(port, port, protocolsOf(port))], ports + {port}, protocolsOf)
  {
    var after := ranges + [PortRange(port, port, protocolsOf(port))];
    forall p | p in ports + {port}
      ensures exists i :: 0 <= i < |after| && Covers(after[i], p)
    {
      if p == port {
        assert Covers(after[|ranges|], p);
      } else {
        var i :| 0 <= i < |ranges| && Covers(ranges[i], p);
        assert Covers(after[i], p);
      }
    }
    forall i, p | 0 <= i < |after| && Covers(after[i], p)
      ensures p in ports + {port} && after[i].protocols == protocolsOf(p)
    {
      assert i < |ranges| ==> Covers(ranges[i], p);
    }
  }

  lemma ExtendRange(ranges: seq<PortRange>, ports: set<int>, protocolsOf: int -> seq<string>, port: int)
    requires Exact(ranges, ports, protocolsOf) && ranges != []
    requires var last := ranges[|ranges| - 1];
             last.protocols == protocolsOf(port) && last.start <= last.end <= port <= last.end + 1
    ensures Exact(ranges[|ranges| - 1 := ranges[|ranges| - 1].(end := port)], ports + {port}, protocolsOf)
  {
    var n := |ranges| - 1;
    var after := ranges[n := ranges[n].(end := port)];
    forall p | p in ports + {port}
      ensures exists i :: 0 <= i < |after| && Covers(after[i], p)
    {
      if p == port {
        assert Covers(after[n], p);
      } else {
        var i :| 0 <= i < |ranges| && Covers(ranges[i], p);
        assert Covers(after[i], p);
      }
    }
    forall i, p | 0 <= i < |after| && Covers(after[i], p)
      ensures p in ports + {port} && after[i].protocols == protocolsOf(p)
    {
      assert p != port ==> Covers(ranges[i], p);
    }
  }

  lemma StartMaximal(ranges: seq<PortRange>, r: PortRange)
    requires Maximal(ranges) && r.start <= r.end
    requires ranges != [] ==>
      var last := ranges[|ranges| - 1]; last.end < r.start && (last.protocols != r.protocols || r.start > last.end + 1)
    ensures Maximal(ranges + [r])
  {
  }

  lemma ExtendMaximal(ranges: seq<PortRange>, port: int)
    requires Maximal(ranges) && ranges != [] && ranges[|ranges| - 1].end <= port
    ensures Maximal(ranges[|ranges| - 1 := ranges[|ranges| - 1].(end := port)])
  {
  }

  /** One port: continue the last range or start a new one. */
  method AddPort(ranges: seq<PortRange>, port: int, protos: seq<string>, ghost ports: set<int>,
                 ghost protocolsOf: int -> seq<string>)
    returns (after: seq<PortRange>)
    requires Maximal(ranges) && Exact(ranges, ports, protocolsOf) && protos == protocolsOf(port)
    requires if ranges == [] then protos != [] else ranges[|ranges| - 1].end <= port
    ensures Maximal(after) && Exact(after, ports + {port}, protocolsOf)
    ensures after != [] && after[|after| - 1].end == port
  {
    var lastProtos, lastEndPort := [], 0;
    if |ranges| > 0 {
      lastProtos, lastEndPort := ranges[|ranges| - 1].protocols, ranges[|ranges| - 1].end;
    }
    if protos != lastProtos || port - lastEndPort > 1 {
      assert ranges != [] ==> lastEndPort < port by {
        assert ranges != [] ==> Covers(ranges[|ranges| - 1], lastEndPort);
      }
      StartRange(ranges, ports, protocolsOf, port);
      StartMaximal(ranges, PortRange(port, port, protos));
      after := ranges + [PortRange(port, port, protos)];
    } else {
      ExtendRange(ranges, ports, protocolsOf, port);
      ExtendMaximal(ranges, port);
      after := ranges[|ranges| - 1 := ranges[|ranges| - 1].(end := port)];
    }
  }

  lemma ElementsNext(ports: seq<int>, n: nat)
    requires n < |ports|
    ensures Elements(ports[..n + 1]) == Elements(ports[..n]) + {ports[n]}
  {
  }

  /** The loop over the sorted ports. */
  method BuildRanges(allPorts: seq<int>, udp: seq<int>, tcp: seq<int>) returns (ranges: seq<PortRange>)
    requires Ascending(allPorts)
    requires allPorts != [] ==> Protocols(allPorts[0], udp, tcp) != []
    ensures Maximal(ranges) && Exact(ranges, Elements(allPorts), ProtocolsIn(udp, tcp))
  {
    ranges := [];
    for n := 0 to |allPorts|
      invariant n == 0 <==> ranges == []
      invariant n > 0 ==> ranges[|ranges| - 1].end == allPorts[n - 1]
      invariant Maximal(ranges) && Exact(ranges, Elements(allPorts[..n]), ProtocolsIn(udp, tcp))
    {
      var port := allPorts[n];
      ElementsNext(allPorts, n);
      ranges := AddPort(ranges, port, Protocols(port, udp, tcp), Elements(allPorts[..n]), ProtocolsIn(udp, tcp));
    }
    assert allPorts[..|allPorts|] == allPorts;
  }

  predicate Below(a: int, b: int) {
    a < b
  }

  function SortPorts(ports: seq<int>): (r: seq<int>)
    ensures multiset(r) == multiset(ports) && |r| == |ports| && Ascending(r)
  {
    Sorting.StableSortSorts(ports, Below);
    var r := Sorting.StableSort(ports, Below);
    assert forall i, j :: 0 <= i < j < |r| ==> !Below(r[j], r[i]);
    r
  }

  // ----- append, which may reuse the memory of the UDP list -----

  /** What the UDP list holds after `append(udp, tcp...)` was sorted: if the slice had room for the TCP
      ports, both lists share memory and the UDP list now holds the smallest ports of both. */
  function UdpAfterSort(udp: seq<int>, tcp: seq<int>, capacity: nat): seq<int> {
    if |udp| + |tcp| <= capacity then SortPorts(udp + tcp)[..|udp|] else udp
  }

  /** displayAllowlist up to the printed ranges; `buffer[..length]` is the UDP list. */
  method DisplayAllowlist(buffer: array<int>, length: nat, tcp: seq<int>) returns (ranges: seq<PortRange>)
    requires length <= buffer.Length
    modifies buffer
    ensures var udp := old(buffer[..length]);
            && buffer[..length] == UdpAfterSort(udp, tcp, buffer.Length)
            && Maximal(ranges)
            && Exact(ranges, Elements(udp + tcp), ProtocolsIn(UdpAfterSort(udp, tcp, buffer.Length), tcp))
  {
    ghost var udp := buffer[..length];
    var sorted := SortPorts(buffer[..length] + tcp);
    if length + |tcp| <= buffer.Length {
      for i := 0 to |sorted|
        invariant forall j :: 0 <= j < i ==> buffer[j] == sorted[j]
      {
        buffer[i] := sorted[i];
      }
      assert buffer[..length] == sorted[..length];
    }
    FirstHasProtocol(udp, tcp, buffer.Length);
    SortedElements(udp + tcp);
    ranges := BuildRanges(sorted, buffer[..length], tcp);
  }

  lemma SortedElements(ports: seq<int>)
    ensures Elements(SortPorts(ports)) == Elements(ports)
    ensures forall p :: p in SortPorts(ports) <==> p in ports
  {
    Sorting.MultisetMembers(SortPorts(ports), ports);
  }

  lemma FirstHasProtocol(udp: seq<int>, tcp: seq<int>, capacity: nat)
    ensures var sorted := SortPorts(udp + tcp);
            sorted != [] ==> Protocols(sorted[0], UdpAfterSort(udp, tcp, capacity), tcp) != []
  {
    var sorted := SortPorts(udp + tcp);
    SortedElements(udp + tcp);
    if sorted != [] {
      assert sorted[0] in sorted;
      assert sorted[0] in udp || sorted[0] in tcp;
      if |udp| > 0 && |udp| + |tcp| <= capacity {
        assert sorted[..|udp|][0] == sorted[0];
      }
    }
  }

  ghost predicate Shown(ranges: seq<PortRange>, udp: seq<int>, tcp: seq<int>) {
    Exact(ranges, Elements(udp + tcp), ProtocolsIn(udp, tcp))
  }

  /** The shown ranges are exact for the real lists exactly when the slice had no spare room, or no TCP
      port is smaller than a UDP port. */
  lemma ShownExactlyIff(ranges: seq<PortRange>, udp: seq<int>, tcp: seq<int>, capacity: nat)
    requires Sorting.Distinct(udp)
    requires Exact(ranges, Elements(udp + tcp), ProtocolsIn(UdpAfterSort(udp, tcp, capacity), tcp))
    ensures Shown(ranges, udp, tcp) <==> capacity < |udp| + |tcp| || forall u, t :: u in udp && t in tcp ==> u <= t
  {
    var udp' := UdpAfterSort(udp, tcp, capacity);
    SortedElements(udp + tcp);
    ShownIffSameUdp(ranges, udp, udp', tcp);
    if |udp| + |tcp| <= capacity {
      PrefixIsUdp(udp, tcp);
      PrefixIsUdpOnlyIf(udp, tcp);
    }
  }

  /** UDP port 9 and TCP port 1 in a slice with room for both: whatever is shown is wrong. */
  lemma SharedMemoryMisshows(ranges: seq<PortRange>)
    requires Exact(ranges, Elements([9] + [1]), ProtocolsIn(UdpAfterSort([9], [1], 2), [1]))
    ensures !Shown(ranges, [9], [1])
  {
    ShownExactlyIff(ranges, [9], [1], 2);
    assert 9 in [9] && 1 in [1];
  }

  lemma ShownIffSameUdp(ranges: seq<PortRange>, udp: seq<int>, udp': seq<int>, tcp: seq<int>)
    requires Exact(ranges, Elements(udp + tcp), ProtocolsIn(udp', tcp))
    requires forall p :: p in udp' ==> p in udp + tcp
    ensures Shown(ranges, udp, tcp) <==> forall p :: p in udp' <==> p in udp
  {
    if Shown(ranges, udp, tcp) {
      forall p
        ensures p in udp' <==> p in udp
      {
        if p in udp || p in udp' {
          assert p in Elements(udp + tcp);
          var i :| 0 <= i < |ranges| && Covers(ranges[i], p);
          assert ranges[i].protocols == ProtocolsIn(udp', tcp)(p) == ProtocolsIn(udp, tcp)(p);
          SameProtocols(p, udp, udp', tcp);
        }
      }
    }
    if forall p :: p in udp' <==> p in udp {
      forall p
        ensures ProtocolsIn(udp', tcp)(p) == ProtocolsIn(udp, tcp)(p)
      {
      }
    }
  }

  lemma SameProtocols(p: int, udp: seq<int>, udp': seq<int>, tcp: seq<int>)
    requires Protocols(p, udp, tcp) == Protocols(p, udp', tcp)
    ensures p in udp <==> p in udp'
  {
    assert |Protocols(p, udp, tcp)| == |Protocols(p, udp', tcp)|;
  }

  lemma PrefixIsUdpOnlyIf(udp: seq<int>, tcp: seq<int>)
    requires Sorting.Distinct(udp)
    ensures (forall p :: p in SortPorts(udp + tcp)[..|udp|] <==> p in udp) ==>
            forall u, t :: u in udp && t in tcp ==> u <= t
  {
    var sorted, n := SortPorts(udp + tcp), |udp|;
    var front, back := sorted[..n], sorted[n..];
    if forall p :: p in front <==> p in udp {
      Sorting.SameElements(front, udp);
      RestOf(sorted, n, udp, tcp);
      forall u, t | u in udp && t in tcp
        ensures u <= t
      {
        assert u in front && t in back;
        var i :| 0 <= i < n && front[i] == u;
        var j :| 0 <= j < |back| && back[j] == t;
        assert sorted[i] == u && sorted[n + j] == t;
      }
    }
  }

  lemma RestOf(sorted: seq<int>, n: nat, udp: seq<int>, tcp: seq<int>)
    requires n <= |sorted| && multiset(sorted) == multiset(udp + tcp) && multiset(sorted[..n]) == multiset(udp)
    ensures forall t :: t in tcp ==> t in sorted[n..]
  {
    assert sorted == sorted[..n] + sorted[n..];
    assert multiset(sorted[n..]) == multiset(sorted) - multiset(udp) == multiset(tcp);
    Sorting.MultisetMembers(sorted[n..], tcp);
  }

  lemma PrefixIsUdp(udp: seq<int>, tcp: seq<int>)
    ensures (forall u, t :: u in udp && t in tcp ==> u <= t) ==>
            forall p :: p in SortPorts(udp + tcp)[..|udp|] <==> p in udp
  {
    if forall u, t :: u in udp && t in tcp ==> u <= t {
      var first, second := SortPorts(udp), SortPorts(tcp);
      SortedElements(udp);
      SortedElements(tcp);
      forall i | 0 <= i < |first|
        ensures first[i] in udp
      {
        assert first[i] in first;
      }
      forall i | 0 <= i < |second|
        ensures second[i] in tcp
      {
        assert second[i] in second;
      }
      assert Ascending(first + second);
      AscendingUnique(first + second, SortPorts(udp + tcp));
      assert (first + second)[..|udp|] == first;
    }
  }

  lemma AscendingUnique(s: seq<int>, t: seq<int>)
    requires Ascending(s) && Ascending(t) && multiset(s) == multiset(t)
    ensures s == t
  {
    Sorting.SortedUnique(s, t, Below);
  }

  /** Each label stands for its list, and UDP comes first. */
  lemma ProtocolsIs(port: int, udp: seq<int>, tcp: seq<int>)
    ensures "UDP" in Protocols(port, udp, tcp) <==> port in udp
    ensures "TCP" in Protocols(port, udp, tcp) <==> port in tcp
    ensures port in udp && port in tcp ==> Protocols(port, udp, tcp) == ["UDP", "TCP"]
    ensures |Protocols(port, udp, tcp)| == (if port in udp then 1 else 0) + (if port in tcp then 1 else 0)
  {
    assert "UDP"[0] != "TCP"[0];
  }
}
