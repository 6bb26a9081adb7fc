/**
 * Who dials whom: the initial peers of each network layout, the peer counts the
 * readiness probe expects, and the rewriting of peer addresses for remote hosts.
 */
module PeerGraph {
  import opened Wrappers
  import opened Counting
  import opened Graphs

  datatype Layout = Star | Chain | Full

  const LOCALHOST: nat := 0x7F00_0001

  /** A UDP multiaddress, with the peer id that rewritten addresses end in. */
  datatype Multiaddr = Multiaddr(ip: nat, port: nat) | PeerAddr(ip: nat, port: nat, peer: nat)

  function LocalAddress(port: nat): (a: Multiaddr) {
    Multiaddr(LOCALHOST, port)
  }

  /** `position`: the first index holding `port`. */
  function FindPort(ports: seq<nat>, port: nat): (r: Option<nat>)
    ensures r.Some? ==> r.value < |ports| && ports[r.value] == port && port !in ports[..r.value]
    ensures r.None? ==> port !in ports
  {
    if ports == [] then None
    else if ports[0] == port then Some(0)
    else match FindPort(ports[1..], port)
      case None => None
      case Some(i) =>
        assert ports[..i + 1] == [ports[0]] + ports[1..][..i];
        Some(i + 1)
  }

  ghost predicate DistinctPorts(ports: seq<nat>) {
    forall i, j :: 0 <= i < j < |ports| ==> ports[i] != ports[j]
  }

  lemma {:induction false} FindFirst(ports: seq<nat>, port: nat, j: nat)
    requires j < |ports| && ports[j] == port && port !in ports[..j]
    ensures FindPort(ports, port) == Some(j)
  {
    if j > 0 {
      assert ports[..j][0] == ports[0];
      assert ports[..j] == [ports[0]] + ports[1..][..j - 1];
      FindFirst(ports[1..], port, j - 1);
    }
  }

  lemma FindDistinct(ports: seq<nat>, j: nat)
    requires DistinctPorts(ports) && j < |ports|
    ensures FindPort(ports, ports[j]) == Some(j)
  {
    FindFirst(ports, ports[j], j);
  }

  // ------------------------------------------------------------- the layouts

  /** Whether node `i` starts out knowing node `j`. */
  predicate Knows(layout: Layout, i: nat, j: nat) {
    match layout
    case Star => i > 0 && j == 0
    case Chain => i == j + 1
    case Full => j < i
  }

  /** Another layout of three nodes or more tells itself from the star: there node 2 knows node 1. */
  lemma OnlyStarIsStar(layout: Layout, n: nat)
    ensures (forall i: nat, j: nat :: i < n && j < n ==> (Knows(Star, i, j) <==> Knows(layout, i, j)))
      <==> layout.Star? || n <= 2
  {
    if n > 2 {
      assert Knows(layout, 2, 1) <==> !layout.Star?;
    }
  }

  function InitialPeersOf(layout: Layout, ports: seq<nat>, i: nat): (peers: seq<Multiaddr>)
    requires i < |ports|
  {
    match layout
    case Star => if i == 0 then [] else [LocalAddress(ports[0])]
    case Chain => if i == 0 then [] else [LocalAddress(ports[i - 1])]
    case Full => seq(i, j requires 0 <= j < i => LocalAddress(ports[j]))
  }

  function InitialPeers(layout: Layout, ports: seq<nat>): (all: seq<seq<Multiaddr>>)
    ensures |all| == |ports|
  {
    seq(|ports|, i requires 0 <= i < |ports| => InitialPeersOf(layout, ports, i))
  }

  /** `initial_peers_by_network_layout`; a topology has at least one node. */
  method BuildInitialPeers(layout: Layout, ports: seq<nat>) returns (all: seq<seq<Multiaddr>>)
    requires ports != []
    ensures all == InitialPeers(layout, ports)
  {
    all := [];
    match layout {
      case Star =>
        all := all + [[]];
        var first := LocalAddress(ports[0]);
        for i := 1 to |ports|
          invariant all == InitialPeers(layout, ports)[..i]
        {
          all := all + [[first]];
        }
      case Chain =>
        all := all + [[]];
        for i := 1 to |ports|
          invariant all == InitialPeers(layout, ports)[..i]
        {
          all := all + [[LocalAddress(ports[i - 1])]];
        }
      case Full =>
        for i := 0 to |ports|
          invariant all == InitialPeers(layout, ports)[..i]
        {
          var peers := [];
          for j := 0 to i
            invariant peers == InitialPeersOf(layout, ports, i)[..j]
          {
            peers := peers + [LocalAddress(ports[j])];
          }
          assert peers == InitialPeersOf(layout, ports, i);
          all := all + [peers];
        }
    }
  }

  /** Node `i`'s peer list names node `j`'s port. */
  ghost predicate Names(peers: seq<Multiaddr>, port: nat) {
    exists k :: 0 <= k < |peers| && peers[k].port == port
  }

  lemma LayoutNames(layout: Layout, ports: seq<nat>, i: nat, j: nat)
    requires DistinctPorts(ports) && i < |ports| && j < |ports|
    ensures Names(InitialPeers(layout, ports)[i], ports[j]) <==> Knows(layout, i, j)
  {
    var peers := InitialPeersOf(layout, ports, i);
    if Knows(layout, i, j) {
      var k := if layout.Full? then j else 0;
      assert peers[k].port == ports[j];
    }
    if Names(peers, ports[j]) {
      var k :| 0 <= k < |peers| && peers[k].port == ports[j];
      var named := if layout.Star? then 0 else if layout.Chain? then i - 1 else k;
      assert ports[named] == ports[j];
    }
  }

  lemma LayoutAddresses(layout: Layout, ports: seq<nat>, i: nat, j: nat)
    requires DistinctPorts(ports) && i < |ports| && j < |ports|
    ensures Multiaddr(0x7F00_0001, ports[j]) in InitialPeers(layout, ports)[i] <==> Knows(layout, i, j)
  {
    LayoutNames(layout, ports, i, j);
    var peers := InitialPeersOf(layout, ports, i);
    if Names(peers, ports[j]) {
      var k :| 0 <= k < |peers| && peers[k].port == ports[j];
      assert peers[k] == Multiaddr(0x7F00_0001, ports[j]);
    }
  }

  // ----------------------------------------------------- expected peer counts

  /** Node `i` dials node `j` first among those listening on that port. */
  predicate Dials(listen: seq<nat>, initial: seq<set<nat>>, i: nat, j: nat) {
    i < |initial| && j < |listen| && listen[j] in initial[i] && listen[j] !in listen[..j]
  }

  /** The undirected graph the probe expects to see. */
  predicate Linked(listen: seq<nat>, initial: seq<set<nat>>, i: nat, j: nat) {
    i != j && (Dials(listen, initial, i, j) || Dials(listen, initial, j, i))
  }

  ghost function LinkRelation(listen: seq<nat>, initial: seq<set<nat>>): (a: Relation) {
    (i: nat, j: nat) => Linked(listen, initial, i, j)
  }

  /** The set at `i` holds exactly the nodes linked to `i` through the dials of `done`. */
  ghost predicate Recorded(listen: seq<nat>, done: seq<set<nat>>, expected: seq<set<nat>>) {
    forall i: nat, j: nat :: i < |expected| ==> (j in expected[i] <==> Linked(listen, done, i, j))
  }

  /** One node's ports, still to be dialled. */
  method RecordDials(listen: seq<nat>, ghost done: seq<set<nat>>, idx: nat, ports: set<nat>, before: seq<set<nat>>)
    returns (expected: seq<set<nat>>)
    requires idx == |done| < |before| == |listen|
    requires Recorded(listen, done, before)
    ensures |expected| == |before|
    ensures Recorded(listen, done + [ports], expected)
  {
    expected := before;
    var todo := ports;
    assert Recorded(listen, done + [{}], expected) by { EmptyDials(listen, done); }
    assert ports - todo == {};
    while todo != {}
      invariant todo <= ports
      invariant |expected| == |before|
      invariant Recorded(listen, done + [ports - todo], expected)
      decreases |todo|
    {
      var port :| port in todo;
      ghost var was := ports - todo;
      todo := todo - {port};
      assert ports - todo == was + {port};
      MoreDials(listen, done, was, port);
      var position := FindPort(listen, port);
      if position.Some? && position.value != idx {
        var peer := position.value;
        expected := expected[idx := expected[idx] + {peer}];
        expected := expected[peer := expected[peer] + {idx}];
      }
    }
    assert ports - todo == ports;
  }

  lemma EmptyDials(listen: seq<nat>, done: seq<set<nat>>)
    ensures forall i: nat, j: nat :: Linked(listen, done + [{}], i, j) <==> Linked(listen, done, i, j)
  {
  }

  lemma MoreDials(listen: seq<nat>, done: seq<set<nat>>, was: set<nat>, port: nat)
    ensures forall i: nat, j: nat ::
      Linked(listen, done + [was + {port}], i, j) <==>
        || Linked(listen, done + [was], i, j)
        || (i != j && i == |done| && FindPort(listen, port) == Some(j))
        || (i != j && j == |done| && FindPort(listen, port) == Some(i))
  {
    forall i: nat, j: nat
      ensures Dials(listen, done + [was + {port}], i, j) <==>
        Dials(listen, done + [was], i, j) || (i == |done| && FindPort(listen, port) == Some(j))
    {
      OneMoreDial(listen, done, was, port, i, j);
    }
  }

  lemma OneMoreDial(listen: seq<nat>, done: seq<set<nat>>, was: set<nat>, port: nat, i: nat, j: nat)
    ensures Dials(listen, done + [was + {port}], i, j) <==>
      Dials(listen, done + [was], i, j) || (i == |done| && FindPort(listen, port) == Some(j))
  {
    if j < |listen| && listen[j] == port && port !in listen[..j] {
      FindFirst(listen, port, j);
    }
  }

  /** `find_expected_peer_counts`, for as many peer sets as listening ports. */
  method ExpectedPeerCounts(listen: seq<nat>, initial: seq<set<nat>>) returns (counts: seq<nat>)
    requires |listen| == |initial|
    ensures |counts| == |listen|
    ensures forall i :: 0 <= i < |listen| ==> counts[i] == Degree(LinkRelation(listen, initial), i, |listen|)
  {
    var expected: seq<set<nat>> := seq(|initial|, _ => {});
    for idx := 0 to |initial|
      invariant |expected| == |initial|
      invariant Recorded(listen, initial[..idx], expected)
    {
      assert initial[..idx + 1] == initial[..idx] + [initial[idx]];
      expected := RecordDials(listen, initial[..idx], idx, initial[idx], expected);
    }
    assert initial[..|initial|] == initial;
    counts := seq(|expected|, i requires 0 <= i < |expected| => |expected[i]|);
    ghost var a := LinkRelation(listen, initial);
    forall i | 0 <= i < |listen| ensures counts[i] == Degree(a, i, |listen|) {
      DegreeCounts(a, i, |listen|);
      assert expected[i] == Neighbours(a, i, |listen|);
    }
  }

  function Total(counts: seq<nat>): (t: nat) {
    if counts == [] then 0 else Total(counts[..|counts| - 1]) + counts[|counts| - 1]
  }

  /** The expected counts form a degree sequence: they add up to twice the number of links. */
  lemma CountsAddUp(listen: seq<nat>, initial: seq<set<nat>>, counts: seq<nat>)
    requires |counts| == |listen| == |initial|
    requires forall i :: 0 <= i < |listen| ==> counts[i] == Degree(LinkRelation(listen, initial), i, |listen|)
    ensures Total(counts) == 2 * Edges(LinkRelation(listen, initial), |listen|)
  {
    var a := LinkRelation(listen, initial);
    TotalIsDegreeSum(a, |listen|, counts);
    Handshake(a, |listen|);
  }

  lemma {:induction false} TotalIsDegreeSum(a: Relation, m: nat, counts: seq<nat>)
    requires forall i :: 0 <= i < |counts| ==> counts[i] == Degree(a, i, m)
    ensures Total(counts) == DegreeSum(a, |counts|, m)
  {
    if counts != [] { TotalIsDegreeSum(a, m, counts[..|counts| - 1]); }
  }

  // ------------------------------------------------- the graph of each layout

  /** The ports named by each node's initial peers. */
  function PortSets(all: seq<seq<Multiaddr>>): (sets: seq<set<nat>>)
    ensures |sets| == |all|
  {
    seq(|all|, i requires 0 <= i < |all| => set k | 0 <= k < |all[i]| :: all[i][k].port)
  }

  ghost function LayoutGraph(layout: Layout, ports: seq<nat>): (a: Relation) {
    LinkRelation(ports, PortSets(InitialPeers(layout, ports)))
  }

  lemma LayoutLinks(layout: Layout, ports: seq<nat>, i: nat, j: nat)
    requires DistinctPorts(ports) && i < |ports| && j < |ports|
    ensures LayoutGraph(layout, ports)(i, j) <==> i != j && (Knows(layout, i, j) || Knows(layout, j, i))
  {
    LayoutNames(layout, ports, i, j);
    LayoutNames(layout, ports, j, i);
    assert ports[j] !in ports[..j] && ports[i] !in ports[..i];
    assert Names(InitialPeers(layout, ports)[i], ports[j]) <==> ports[j] in PortSets(InitialPeers(layout, ports))[i];
    assert Names(InitialPeers(layout, ports)[j], ports[i]) <==> ports[i] in PortSets(InitialPeers(layout, ports))[j];
  }

  /** The number of peers each node of a layout ends up with. */
  function LayoutDegree(layout: Layout, n: nat, i: nat): (d: nat)
    requires i < n
  {
    match layout
    case Star => if i == 0 then n - 1 else 1
    case Chain => (if i > 0 then 1 else 0) + if i + 1 < n then 1 else 0
    case Full => n - 1
  }

  lemma {:induction false} DegreeUpTo(layout: Layout, ports: seq<nat>, i: nat, m: nat)
    requires DistinctPorts(ports) && i < |ports| && m <= |ports|
    ensures Degree(LayoutGraph(layout, ports), i, m) ==
      match layout
      case Star => if i == 0 then (if m == 0 then 0 else m - 1) else if m == 0 then 0 else 1
      case Chain => (if 0 < i <= m then 1 else 0) + if i + 1 < m then 1 else 0
      case Full => if i < m then m - 1 else m
  {
    if m > 0 {
      DegreeUpTo(layout, ports, i, m - 1);
      LayoutLinks(layout, ports, i, m - 1);
    }
  }

  function WalkTo(i: nat, j: nat): (p: seq<nat>)
    decreases if i < j then j - i else i - j
  {
    if i == j then [i] else if i < j then [i] + WalkTo(i + 1, j) else [i] + WalkTo(i - 1, j)
  }

  ghost predicate Adjacent(a: Relation, k: nat) {
    a(k, k + 1) && a(k + 1, k)
  }

  lemma {:induction false} WalkConnects(a: Relation, n: nat, i: nat, j: nat)
    requires i < n && j < n
    requires forall k: nat :: k + 1 < n ==> Adjacent(a, k)
    ensures Connects(a, n, WalkTo(i, j), i, j)
    decreases if i < j then j - i else i - j
  {
    if i != j {
      var next := if i < j then i + 1 else i - 1;
      WalkConnects(a, n, next, j);
      assert Adjacent(a, if i < j then i else next);
      assert WalkTo(i, j)[1..] == WalkTo(next, j);
    }
  }

  lemma NodesJoined(layout: Layout, ports: seq<nat>, i: nat, j: nat)
    requires DistinctPorts(ports) && i < |ports| && j < |ports|
    ensures Joined(LayoutGraph(layout, ports), |ports|, i, j)
  {
    var a, n := LayoutGraph(layout, ports), |ports|;
    if i == j {
      assert Connects(a, n, [i], i, j);
    } else if layout.Chain? {
      forall k: nat | k + 1 < n ensures Adjacent(a, k) {
        LayoutLinks(layout, ports, k, k + 1);
        LayoutLinks(layout, ports, k + 1, k);
      }
      WalkConnects(a, n, i, j);
    } else {
      LayoutLinks(layout, ports, i, j);
      LayoutLinks(layout, ports, i, 0);
      LayoutLinks(layout, ports, 0, j);
      assert [i, j][1..] == [j] && [i, 0, j][1..] == [0, j] && [0, j][1..] == [j];
      assert Connects(a, n, if a(i, j) then [i, j] else [i, 0, j], i, j);
    }
  }

  /**
   * With distinct ports every layout yields a connected graph with the degrees
   * of that layout, and these are what the probe waits for.
   */
  lemma LayoutIsConnected(layout: Layout, ports: seq<nat>)
    requires DistinctPorts(ports)
    ensures Connected(LayoutGraph(layout, ports), |ports|)
    ensures forall i :: 0 <= i < |ports| ==>
      Degree(LayoutGraph(layout, ports), i, |ports|) == LayoutDegree(layout, |ports|, i)
  {
    var a, n := LayoutGraph(layout, ports), |ports|;
    forall i | 0 <= i < n ensures Degree(a, i, n) == LayoutDegree(layout, n, i) {
      DegreeUpTo(layout, ports, i, n);
    }
    forall i: nat, j: nat | i < n && j < n ensures Joined(a, n, i, j) {
      NodesJoined(layout, ports, i, j);
    }
  }

  // ------------------------------------------------- rewriting for real hosts

  /** Where a host is reached. */
  datatype Endpoint = Endpoint(ip: nat, networkPort: nat)

  function RewritePeers(peers: seq<Multiaddr>, node: nat, ports: seq<nat>, hosts: seq<Endpoint>, peerIds: seq<nat>)
    : (r: seq<Multiaddr>)
    requires |hosts| == |peerIds| == |ports|
  {
    if peers == [] then []
    else
      var rest := RewritePeers(peers[1..], node, ports, hosts, peerIds);
      match FindPort(ports, peers[0].port)
      case None => rest
      case Some(j) =>
        if j == node then rest else [PeerAddr(hosts[j].ip, hosts[j].networkPort, peerIds[j])] + rest
  }

  /** `rewrite_initial_peers`. */
  function RewriteInitialPeers(templates: seq<seq<Multiaddr>>, ports: seq<nat>, hosts: seq<Endpoint>, peerIds: seq<nat>)
    : (r: seq<seq<Multiaddr>>)
    requires |hosts| == |peerIds| == |ports|
    ensures |r| == |templates|
  {
    seq(|templates|, i requires 0 <= i < |templates| => RewritePeers(templates[i], i, ports, hosts, peerIds))
  }

  lemma {:induction false} RewrittenNames(peers: seq<Multiaddr>, node: nat, ports: seq<nat>,
                                          hosts: seq<Endpoint>, peerIds: seq<nat>, j: nat)
    requires |hosts| == |peerIds| == |ports| && j < |ports|
    requires DistinctPorts(ports) && DistinctPorts(peerIds)
    ensures PeerAddr(hosts[j].ip, hosts[j].networkPort, peerIds[j]) in RewritePeers(peers, node, ports, hosts, peerIds)
      <==> j != node && Names(peers, ports[j])
  {
    if peers != [] {
      RewrittenNames(peers[1..], node, ports, hosts, peerIds, j);
      FindDistinct(ports, j);
      if Names(peers[1..], ports[j]) {
        var k :| 0 <= k < |peers[1..]| && peers[1..][k].port == ports[j];
        assert peers[k + 1].port == ports[j];
      }
      if Names(peers, ports[j]) && peers[0].port != ports[j] {
        var k :| 0 <= k < |peers| && peers[k].port == ports[j];
        assert peers[1..][k - 1].port == ports[j];
      }
    }
  }

  lemma {:induction false} RewrittenOnlyHosts(peers: seq<Multiaddr>, node: nat, ports: seq<nat>,
                                              hosts: seq<Endpoint>, peerIds: seq<nat>, k: nat)
    requires |hosts| == |peerIds| == |ports| && k < |RewritePeers(peers, node, ports, hosts, peerIds)|
    ensures var a := RewritePeers(peers, node, ports, hosts, peerIds)[k];
      exists j :: 0 <= j < |ports| && a == PeerAddr(hosts[j].ip, hosts[j].networkPort, peerIds[j])
  {
    var rest := RewritePeers(peers[1..], node, ports, hosts, peerIds);
    var all := RewritePeers(peers, node, ports, hosts, peerIds);
    if |all| == |rest| {
      RewrittenOnlyHosts(peers[1..], node, ports, hosts, peerIds, k);
    } else if k > 0 {
      RewrittenOnlyHosts(peers[1..], node, ports, hosts, peerIds, k - 1);
    }
  }

  /**
   * Rewriting keeps the dial relation: host `i` is told to dial host `j` exactly
   * when the layout has node `i` know node `j`, and is told nothing else.
   */
  lemma RewriteKeepsEdges(layout: Layout, ports: seq<nat>, hosts: seq<Endpoint>, peerIds: seq<nat>, i: nat)
    requires |hosts| == |peerIds| == |ports| && i < |ports|
    requires DistinctPorts(ports) && DistinctPorts(peerIds)
    ensures var told := RewriteInitialPeers(InitialPeers(layout, ports), ports, hosts, peerIds)[i];
      && (forall j :: 0 <= j < |ports| ==>
            (PeerAddr(hosts[j].ip, hosts[j].networkPort, peerIds[j]) in told <==> Knows(layout, i, j)))
      && (forall k :: 0 <= k < |told| ==>
            exists j :: 0 <= j < |ports| && told[k] == PeerAddr(hosts[j].ip, hosts[j].networkPort, peerIds[j]))
  {
    var peers := InitialPeers(layout, ports)[i];
    var told := RewritePeers(peers, i, ports, hosts, peerIds);
    forall j | 0 <= j < |ports|
      ensures PeerAddr(hosts[j].ip, hosts[j].networkPort, peerIds[j]) in told <==> Knows(layout, i, j)
    {
      RewrittenNames(peers, i, ports, hosts, peerIds, j);
      LayoutNames(layout, ports, i, j);
    }
    forall k | 0 <= k < |told|
      ensures exists j :: 0 <= j < |ports| && told[k] == PeerAddr(hosts[j].ip, hosts[j].networkPort, peerIds[j])
    {
      RewrittenOnlyHosts(peers, i, ports, hosts, peerIds, k);
    }
  }

  /** A rewritten star has everybody but the first dial the first. */
  lemma RewrittenStar(ports: seq<nat>, hosts: seq<Endpoint>, peerIds: seq<nat>, i: nat)
    requires |hosts| == |peerIds| == |ports| && i < |ports|
    ensures RewriteInitialPeers(InitialPeers(Star, ports), ports, hosts, peerIds)[i] ==
      if i == 0 then [] else [PeerAddr(hosts[0].ip, hosts[0].networkPort, peerIds[0])]
  {
    var peers := InitialPeers(Star, ports)[i];
    if i > 0 {
      FindFirst(ports, ports[0], 0);
      assert peers == [LocalAddress(ports[0])] && peers[1..] == [];
      assert RewritePeers(peers[1..], i, ports, hosts, peerIds) == [];
    }
  }
}
