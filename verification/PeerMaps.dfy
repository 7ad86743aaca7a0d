/** meshnet/server.go: the index of mesh peers by name and by public key. */
module PeerMaps {
  import opened Options
  import opened Text

  datatype Peer = Peer(ip: string, hostname: string, nickname: string, pubkey: string)

  const DOMAIN := ".nord"

  function TrimSuffix(s: string, suffix: string): string {
    if |suffix| <= |s| && s[|s| - |suffix|..] == suffix then s[..|s| - |suffix|] else s
  }

  /** The names that a peer answers to. */
  predicate HasName(p: Peer, name: string) {
    || name == Lower(p.ip)
    || name == Lower(p.hostname)
    || name == Lower(TrimSuffix(p.hostname, DOMAIN))
    || (p.nickname != "" && (name == Lower(p.nickname) || name == Lower(p.nickname) + DOMAIN))
  }

  predicate HasKey(p: Peer, key: string) {
    key == p.pubkey
  }

  /** A linear scan: the last peer that has it. */
  function Scan(peers: seq<Peer>, has: (Peer, string) -> bool, x: string): Option<Peer> {
    if peers == [] then None
    else if has(peers[|peers| - 1], x) then Some(peers[|peers| - 1])
    else Scan(peers[..|peers| - 1], has, x)
  }

  function Lookup(m: map<string, Peer>, x: string): Option<Peer> {
    if x in m then Some(m[x]) else None
  }

  /** The map answers like the scan. */
  ghost predicate Indexes(m: map<string, Peer>, peers: seq<Peer>, has: (Peer, string) -> bool) {
    forall x :: Lookup(m, x) == Scan(peers, has, x)
  }

  lemma IndexesNext(m: map<string, Peer>, peers: seq<Peer>, has: (Peer, string) -> bool, p: Peer, m': map<string, Peer>)
    requires Indexes(m, peers, has)
    requires forall x :: Lookup(m', x) == if has(p, x) then Some(p) else Lookup(m, x)
    ensures Indexes(m', peers + [p], has)
  {
    assert (peers + [p])[..|peers|] == peers;
  }

  method MakePeerMaps(external: seq<Peer>, local: seq<Peer>)
    returns (byKey: map<string, Peer>, byName: map<string, Peer>)
    ensures Indexes(byKey, external + local, HasKey)
    ensures Indexes(byName, external + local, HasName)
  {
    var peers := external + local;
    byKey, byName := map[], map[];
    for i := 0 to |peers|
      invariant Indexes(byKey, peers[..i], HasKey) && Indexes(byName, peers[..i], HasName)
    {
      var peer := peers[i];
      assert peers[..i + 1] == peers[..i] + [peer];
      IndexesNext(byKey, peers[..i], HasKey, peer, byKey[peer.pubkey := peer]);
      byKey := byKey[peer.pubkey := peer];
      var named := AddNames(byName, peer);
      IndexesNext(byName, peers[..i], HasName, peer, named);
      byName := named;
    }
    assert peers[..|peers|] == peers;
  }

  method AddNames(m: map<string, Peer>, peer: Peer) returns (named: map<string, Peer>)
    ensures forall x :: Lookup(named, x) == if HasName(peer, x) then Some(peer) else Lookup(m, x)
  {
    named := m[Lower(peer.ip) := peer];
    named := named[Lower(peer.hostname) := peer];
    named := named[Lower(TrimSuffix(peer.hostname, DOMAIN)) := peer];
    if peer.nickname != "" {
      named := named[Lower(peer.nickname) := peer];
      named := named[Lower(peer.nickname) + DOMAIN := peer];
    }
  }

  ghost predicate IsLast(peers: seq<Peer>, has: (Peer, string) -> bool, x: string, i: nat) {
    i < |peers| && has(peers[i], x) && forall j :: i < j < |peers| ==> !has(peers[j], x)
  }

  lemma {:induction false} ScanIsLast(peers: seq<Peer>, has: (Peer, string) -> bool, x: string, i: nat)
    requires IsLast(peers, has, x, i)
    ensures Scan(peers, has, x) == Some(peers[i])
  {
    var n := |peers| - 1;
    if i < n {
      assert !has(peers[n], x) && peers[..n][i] == peers[i];
      ScanIsLast(peers[..n], has, x, i);
    }
  }

  lemma {:induction false} LastExists(peers: seq<Peer>, has: (Peer, string) -> bool, x: string, k: nat) returns (i: nat)
    requires k < |peers| && has(peers[k], x)
    ensures k <= i && IsLast(peers, has, x, i)
    decreases |peers| - k
  {
    i := k;
    if j :| k < j < |peers| && has(peers[j], x) {
      i := LastExists(peers, has, x, j);
    }
  }

  lemma {:induction false} ScanNone(peers: seq<Peer>, has: (Peer, string) -> bool, x: string)
    requires forall i :: 0 <= i < |peers| ==> !has(peers[i], x)
    ensures Scan(peers, has, x) == None
  {
    if peers != [] {
      ScanNone(peers[..|peers| - 1], has, x);
    }
  }

  /** What a map that answers like the scan knows: a name is present iff some peer has it, and then it
      leads to the last peer that has it. */
  lemma IndexFinds(m: map<string, Peer>, peers: seq<Peer>, has: (Peer, string) -> bool, x: string)
    requires Indexes(m, peers, has)
    ensures x in m <==> exists i :: 0 <= i < |peers| && has(peers[i], x)
    ensures x in m ==> exists i: nat :: IsLast(peers, has, x, i) && m[x] == peers[i]
  {
    assert Lookup(m, x) == Scan(peers, has, x);
    if k :| 0 <= k < |peers| && has(peers[k], x) {
      var i := LastExists(peers, has, x, k);
      ScanIsLast(peers, has, x, i);
    } else {
      ScanNone(peers, has, x);
    }
  }

  /** Local peers hide external ones: an external peer is found under a name only if no local peer has it. */
  lemma {:induction false} LocalFirst(external: seq<Peer>, local: seq<Peer>, has: (Peer, string) -> bool, x: string)
    ensures Scan(external + local, has, x) ==
            if Scan(local, has, x).Some? then Scan(local, has, x) else Scan(external, has, x)
  {
    if local == [] {
      assert external + local == external;
    } else {
      LocalFirst(external, local[..|local| - 1], has, x);
      assert (external + local)[..|external + local| - 1] == external + local[..|local| - 1];
    }
  }

  /** Only lower-case names are known, so a caller has to ask for the lower-case form. */
  lemma NamesAreLower(p: Peer, name: string)
    requires HasName(p, name)
    ensures Lower(name) == name
  {
    LowerTwice(p.ip);
    LowerTwice(p.hostname);
    LowerTwice(TrimSuffix(p.hostname, DOMAIN));
    LowerTwice(p.nickname);
    LowerConcat(Lower(p.nickname), DOMAIN);
  }

  /** Exactly the names that lead to a peer of the domain. */
  lemma PeerNamesIff(p: Peer, base: string, name: string)
    requires p.hostname == base + ".nord"
    ensures HasName(p, name) <==>
            || name in {Lower(p.ip), Lower(base), Lower(base) + ".nord"}
            || (p.nickname != "" && name in {Lower(p.nickname), Lower(p.nickname + ".nord")})
  {
    assert p.hostname[|base|..] == ".nord" && p.hostname[..|base|] == base;
    LowerConcat(base, ".nord");
    LowerConcat(p.nickname, ".nord");
    assert Lower(".nord") == ".nord";
  }
}
