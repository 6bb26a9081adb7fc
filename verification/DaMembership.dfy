/**
 * Assignment of peers to data-availability subnetworks: the sorted peers are
 * dealt out cyclically, `dispersal` of them to each subnetwork in turn.
 */
module DaMembership {
  import opened Integers
  import opened Sorting
  import opened Counting
  import opened Mantle

  datatype DaParams = DaParams(
    subnetworkSize: nat, dispersalFactor: nat, numSubnets: nat, minDispersalPeers: nat, minReplicationPeers: nat)

  function PeerKey(p: PeerId): (k: Key) {
    Key(0, p)
  }

  /** The subnetwork count tracks the number of participants. */
  function SubnetCount(params: DaParams, n: nat): (size: nat)
    ensures size >= 1 && size >= params.subnetworkSize && size >= n
    ensures size == 1 || size == params.subnetworkSize || size == n
  {
    Max(params.subnetworkSize, Max(n, 1))
  }

  function Dispersal(params: DaParams): (d: nat)
    ensures d == if params.dispersalFactor == 0 then 1 else params.dispersalFactor
  {
    Max(params.dispersalFactor, 1)
  }

  /** The number of draws made in all. */
  function Deals(params: DaParams, n: nat): (t: nat) {
    Times(SubnetCount(params, n), Dispersal(params))
  }

  /** `u16::try_from(id).unwrap_or_default()`: an id that does not fit becomes 0. */
  function SubnetId(id: nat): (k: nat) {
    if id < U16_LIMIT then id else 0
  }

  /** The `t`-th peer drawn from the cycle. */
  function Draw(sorted: seq<PeerId>, t: nat): (p: PeerId)
    requires sorted != []
  {
    sorted[Position(t, |sorted|)]
  }

  /** Draw `t` is element `t mod n` of the sorted peers. */
  lemma DrawIsModular(sorted: seq<PeerId>, t: nat)
    requires sorted != []
    ensures t % |sorted| < |sorted| && Draw(sorted, t) == sorted[t % |sorted|]
  {
    PositionIsRemainder(t, |sorted|);
  }

  /** The peers drawn at times `start .. start + d`. */
  function Window(sorted: seq<PeerId>, start: nat, d: nat): (r: set<PeerId>)
    requires sorted != []
  {
    if d == 0 then {} else Window(sorted, start, d - 1) + {Draw(sorted, start + d - 1)}
  }

  lemma {:induction false} WindowMember(sorted: seq<PeerId>, start: nat, d: nat, p: PeerId)
    requires sorted != []
    ensures p in Window(sorted, start, d) <==> exists t :: start <= t < start + d && Draw(sorted, t) == p
  {
    if d > 0 {
      WindowMember(sorted, start, d - 1, p);
      assert start <= start + d - 1 < start + d;
    }
  }

  /** The subnetwork whose members end up under key `k`. */
  function LastWriter(k: nat, size: nat): (id: nat) {
    if k == 0 && size > U16_LIMIT then size - 1 else k
  }

  /** The members drawn for each subnetwork in turn. */
  function Dealer(peers: seq<PeerId>, params: DaParams): (w: nat -> set<PeerId>) {
    if peers == [] then (id: nat) => {}
    else
      var sorted, d := SortBy(PeerKey, peers), Dispersal(params);
      SortPermutes(PeerKey, peers);
      (id: nat) => Window(sorted, Times(id, d), d)
  }

  /** The map left behind by inserting `w(0), w(1), .., w(size - 1)` under their 16-bit ids. */
  function Table(w: nat -> set<PeerId>, size: nat): (m: Membership) {
    map k: nat | k in Below(Min(size, U16_LIMIT)) :: w(LastWriter(k, size))
  }

  /** The assignment `create_da_configs` arrives at. */
  function Assigned(peers: seq<PeerId>, params: DaParams): (m: Membership) {
    Table(Dealer(peers, params), SubnetCount(params, |peers|))
  }

  // ------------------------------------------------------------ the coded loop

  /** Draws `d` peers from the cycle for one subnetwork, moving the cycle's position on. */
  method DrawMembers(sorted: seq<PeerId>, pos: nat, start: nat, d: nat) returns (members: set<PeerId>, pos': nat)
    requires sorted != [] && pos == Position(start, |sorted|)
    ensures members == Window(sorted, start, d)
    ensures pos' == Position(start + d, |sorted|)
  {
    members, pos' := {}, pos;
    for j := 0 to d
      invariant members == Window(sorted, start, j)
      invariant pos' == Position(start + j, |sorted|)
    {
      members := members + {sorted[pos']};
      pos' := if pos' + 1 == |sorted| then 0 else pos' + 1;
    }
  }

  lemma TableStep(w: nat -> set<PeerId>, id: nat)
    ensures Table(w, id + 1) == Table(w, id)[SubnetId(id) := w(id)]
  {
  }

  /** The nested loops over a non-empty list of sorted peers. */
  method DealOut(sorted: seq<PeerId>, d: nat, size: nat, ghost w: nat -> set<PeerId>) returns (m: Membership)
    requires sorted != []
    requires forall id: nat {:trigger w(id)} :: w(id) == Window(sorted, Times(id, d), d)
    ensures m == Table(w, size)
  {
    m := map[];
    var pos := 0;
    for id := 0 to size
      invariant pos == Position(Times(id, d), |sorted|)
      invariant m == Table(w, id)
    {
      var members;
      members, pos := DrawMembers(sorted, pos, Times(id, d), d);
      TableStep(w, id);
      m := m[SubnetId(id) := members];
    }
  }

  method BuildAssignations(peers: seq<PeerId>, params: DaParams) returns (m: Membership)
    ensures m == Assigned(peers, params)
  {
    ghost var w := Dealer(peers, params);
    var size := SubnetCount(params, |peers|);
    if peers == [] {
      m := map[];
      for id := 0 to size
        invariant m == Table(w, id)
      {
        TableStep(w, id);
        m := m[SubnetId(id) := {}];
      }
    } else {
      SortPermutes(PeerKey, peers);
      m := DealOut(SortBy(PeerKey, peers), Dispersal(params), size, w);
    }
  }

  // --------------------------------------------------------------- fairness

  ghost predicate Distinct(s: seq<PeerId>) {
    forall i, j :: 0 <= i < j < |s| ==> s[i] != s[j]
  }

  function Members(s: seq<PeerId>): (r: set<PeerId>) {
    set i | 0 <= i < |s| :: s[i]
  }

  lemma {:induction false} DistinctCardinality(s: seq<PeerId>)
    ensures |Members(s)| <= |s|
    ensures |Members(s)| == |s| <==> Distinct(s)
  {
    if s != [] {
      var k := |s| - 1;
      DistinctCardinality(s[..k]);
      assert Members(s) == Members(s[..k]) + {s[k]};
      if s[k] in Members(s[..k]) {
        var i :| 0 <= i < k && s[..k][i] == s[k];
        assert s[i] == s[k];
      } else if Distinct(s[..k]) {
        forall i, j | 0 <= i < j < |s| ensures s[i] != s[j] {
          assert s[i] == s[..k][i] && s[i] in Members(s[..k]);
          if j < k { assert s[j] == s[..k][j]; }
        }
      }
    }
  }

  /** Sorting distinct peers keeps them distinct, and loses none. */
  lemma SortedPeers(peers: seq<PeerId>)
    ensures |SortBy(PeerKey, peers)| == |peers|
    ensures Members(SortBy(PeerKey, peers)) == Members(peers)
    ensures Distinct(peers) ==> Distinct(SortBy(PeerKey, peers))
  {
    var sorted := SortBy(PeerKey, peers);
    SortPermutes(PeerKey, peers);
    forall p ensures p in Members(sorted) <==> p in Members(peers) {
      assert p in Members(sorted) <==> p in multiset(sorted);
      assert p in Members(peers) <==> p in multiset(peers);
    }
    DistinctCardinality(peers);
    DistinctCardinality(sorted);
  }

  lemma DrawApart(sorted: seq<PeerId>, t: nat, u: nat)
    requires Distinct(sorted) && t < u < t + |sorted|
    ensures Draw(sorted, t) != Draw(sorted, u)
  {
    PositionApart(t, u, |sorted|);
  }

  lemma NextIsNew(sorted: seq<PeerId>, start: nat, d: nat)
    requires Distinct(sorted) && d < |sorted|
    ensures Draw(sorted, start + d) !in Window(sorted, start, d)
  {
    WindowMember(sorted, start, d, Draw(sorted, start + d));
    forall t | start <= t < start + d ensures Draw(sorted, t) != Draw(sorted, start + d) {
      DrawApart(sorted, t, start + d);
    }
  }

  lemma {:induction false} SmallWindowSize(sorted: seq<PeerId>, start: nat, d: nat)
    requires sorted != [] && Distinct(sorted) && d <= |sorted|
    ensures |Window(sorted, start, d)| == d
  {
    if d > 0 {
      SmallWindowSize(sorted, start, d - 1);
      NextIsNew(sorted, start, d - 1);
    }
  }

  lemma {:induction false} LargeWindow(sorted: seq<PeerId>, start: nat, d: nat)
    requires sorted != [] && Distinct(sorted)
    ensures Window(sorted, start, d) <= Members(sorted)
    ensures d >= |sorted| ==> Window(sorted, start, d) == Members(sorted)
  {
    if d > 0 {
      LargeWindow(sorted, start, d - 1);
      if d == |sorted| {
        SmallWindowSize(sorted, start, d);
        DistinctCardinality(sorted);
        SubsetCardinality(Window(sorted, start, d), Members(sorted));
      }
    }
  }

  lemma WindowSize(sorted: seq<PeerId>, start: nat, d: nat)
    requires sorted != [] && Distinct(sorted)
    ensures |Window(sorted, start, d)| == Min(d, |sorted|)
    ensures Window(sorted, start, d) <= Members(sorted)
    ensures d >= |sorted| ==> Window(sorted, start, d) == Members(sorted)
  {
    LargeWindow(sorted, start, d);
    if d <= |sorted| {
      SmallWindowSize(sorted, start, d);
    } else {
      DistinctCardinality(sorted);
    }
  }

  /** Every subnetwork gets exactly `min(dispersal, n)` members, whatever the number of subnetworks. */
  lemma EverySubnetFull(peers: seq<PeerId>, params: DaParams, k: nat)
    requires peers != [] && Distinct(peers) && k in Assigned(peers, params)
    ensures var d := if params.dispersalFactor == 0 then 1 else params.dispersalFactor;
      |Assigned(peers, params)[k]| == if d <= |peers| then d else |peers|
    ensures Assigned(peers, params)[k] <= Members(peers)
  {
    var sorted := SortBy(PeerKey, peers);
    SortedPeers(peers);
    WindowSize(sorted, Times(LastWriter(k, SubnetCount(params, |peers|)), Dispersal(params)), Dispersal(params));
  }

  /** Where `sorted[r]` is drawn. */
  lemma InWindow(sorted: seq<PeerId>, r: nat, start: nat, d: nat)
    requires Distinct(sorted) && r < |sorted|
    ensures sorted[r] in Window(sorted, start, d) <==> Strikes(start, d, |sorted|, r)
  {
    WindowMember(sorted, start, d, sorted[r]);
    if sorted[r] in Window(sorted, start, d) {
      var t :| start <= t < start + d && Draw(sorted, t) == sorted[r];
      assert Position(t, |sorted|) == r;
    }
    if Strikes(start, d, |sorted|, r) {
      var t :| start <= t < start + d && Position(t, |sorted|) == r;
      assert Draw(sorted, t) == sorted[r];
    }
  }

  /** The subnetworks a peer belongs to. */
  function SubnetsOf(m: Membership, p: PeerId): (r: set<nat>)
    ensures forall k :: k in r <==> k in m && p in m[k]
  {
    set k | k in m && p in m[k]
  }

  ghost function DealtTo(w: nat -> set<PeerId>, size: nat, p: PeerId): (r: set<nat>) {
    set k | k in Below(size) && p in w(k)
  }

  lemma SubnetsOfTable(w: nat -> set<PeerId>, size: nat, p: PeerId)
    requires size <= U16_LIMIT
    ensures SubnetsOf(Table(w, size), p) == DealtTo(w, size, p)
  {
  }

  lemma DealtStep(w: nat -> set<PeerId>, k: nat, p: PeerId)
    ensures |DealtTo(w, k + 1, p)| == |DealtTo(w, k, p)| + if p in w(k) then 1 else 0
  {
    assert DealtTo(w, k + 1, p) == DealtTo(w, k, p) + if p in w(k) then {k} else {};
  }

  lemma {:induction false} DealtCount(w: nat -> set<PeerId>, p: PeerId, n: nat, d: nat, r: nat, size: nat)
    requires r < n && d <= n
    requires forall k: nat {:trigger w(k)} :: p in w(k) <==> Strikes(Times(k, d), d, n, r)
    ensures |DealtTo(w, size, p)| == Hits(Times(size, d), n, r)
  {
    if size > 0 {
      var k := size - 1;
      DealtCount(w, p, n, d, r, k);
      HitsInStretch(Times(k, d), d, n, r);
      DealtStep(w, k, p);
    }
  }

  lemma DealerStrikes(peers: seq<PeerId>, params: DaParams, r: nat, k: nat)
    requires Distinct(SortBy(PeerKey, peers)) && |SortBy(PeerKey, peers)| == |peers| && r < |peers|
    ensures SortBy(PeerKey, peers)[r] in Dealer(peers, params)(k)
      <==> Strikes(Times(k, Dispersal(params)), Dispersal(params), |peers|, r)
  {
    InWindow(SortBy(PeerKey, peers), r, Times(k, Dispersal(params)), Dispersal(params));
  }

  lemma SomeRank(peers: seq<PeerId>, p: PeerId) returns (r: nat)
    requires Distinct(peers) && p in peers
    ensures var sorted := SortBy(PeerKey, peers);
      |sorted| == |peers| && r < |sorted| && sorted[r] == p && Distinct(sorted)
  {
    var sorted := SortBy(PeerKey, peers);
    SortedPeers(peers);
    assert p in Members(peers);
    r :| 0 <= r < |sorted| && sorted[r] == p;
  }

  lemma ShareOfDeal(peers: seq<PeerId>, params: DaParams, p: PeerId)
    requires Distinct(peers) && p in peers && Dispersal(params) <= |peers|
    requires SubnetCount(params, |peers|) <= U16_LIMIT
    ensures var n := |peers|;
      FloorDiv(Deals(params, n), n) <= |SubnetsOf(Assigned(peers, params), p)| <= CeilDiv(Deals(params, n), n)
  {
    var d, size := Dispersal(params), SubnetCount(params, |peers|);
    var r := SomeRank(peers, p);
    var w := Dealer(peers, params);
    SubnetsOfTable(w, size, p);
    forall k: nat ensures p in w(k) <==> Strikes(Times(k, d), d, |peers|, r) {
      DealerStrikes(peers, params, r, k);
    }
    DealtCount(w, p, |peers|, d, r, size);
    HitsBalanced(Deals(params, |peers|), |peers|, r);
  }

  lemma ShareOfAll(peers: seq<PeerId>, params: DaParams, p: PeerId)
    requires Distinct(peers) && p in peers && Dispersal(params) >= |peers|
    requires SubnetCount(params, |peers|) <= U16_LIMIT
    ensures |SubnetsOf(Assigned(peers, params), p)| == SubnetCount(params, |peers|)
  {
    var w, size := Dealer(peers, params), SubnetCount(params, |peers|);
    forall k: nat ensures p in w(k) {
      EveryoneDealt(peers, params, p, k);
    }
    SubnetsOfTable(w, size, p);
    assert DealtTo(w, size, p) == Below(size);
    BelowCardinality(size);
  }

  lemma EveryoneDealt(peers: seq<PeerId>, params: DaParams, p: PeerId, k: nat)
    requires Distinct(peers) && p in peers && Dispersal(params) >= |peers|
    ensures p in Dealer(peers, params)(k)
  {
    var r := SomeRank(peers, p);
    WindowSize(SortBy(PeerKey, peers), Times(k, Dispersal(params)), Dispersal(params));
  }

  /**
   * Round-robin fairness: with at most 65536 subnetworks and a dispersal no
   * larger than the number of peers, each peer sits in the floor or the ceiling
   * of size*d/n subnetworks; with a larger dispersal it sits in all of them.
   */
  lemma FairShare(peers: seq<PeerId>, params: DaParams, p: PeerId)
    requires Distinct(peers) && p in peers
    requires params.subnetworkSize <= 65536 && |peers| <= 65536
    ensures var n, share := |peers|, |SubnetsOf(Assigned(peers, params), p)|;
      var size := if params.subnetworkSize <= n then n else params.subnetworkSize;
      var d := if params.dispersalFactor == 0 then 1 else params.dispersalFactor;
      if d <= n then FloorDiv(Times(size, d), n) <= share <= CeilDiv(Times(size, d), n)
      else share == size
  {
    if Dispersal(params) <= |peers| {
      ShareOfDeal(peers, params, p);
    } else {
      ShareOfAll(peers, params, p);
    }
  }

  /** Which subnetworks there are: as many as asked for, but one for each peer, and at most 65536. */
  lemma AssignedSubnets(peers: seq<PeerId>, params: DaParams, k: nat)
    ensures k in Assigned(peers, params) <==> k < 65536 && (k < params.subnetworkSize || k < |peers| || k == 0)
    ensures k in Assigned(peers, params) && peers == [] ==> Assigned(peers, params)[k] == {}
  {
    assert k in Assigned(peers, params) <==> k in Below(Min(SubnetCount(params, |peers|), U16_LIMIT));
  }

  /** The number of peers that come before `p` in ascending order. */
  function Rank(peers: seq<PeerId>, p: PeerId): (r: nat) {
    |set q | q in Members(peers) && q < p|
  }

  lemma RankIsPlace(peers: seq<PeerId>, p: PeerId)
    requires Distinct(peers) && p in peers
    ensures var sorted := SortBy(PeerKey, peers);
      |sorted| == |peers| && Distinct(sorted) && Rank(peers, p) < |sorted| && sorted[Rank(peers, p)] == p
  {
    var sorted := SortBy(PeerKey, peers);
    var r := SomeRank(peers, p);
    SortedPeers(peers);
    SortSorted(PeerKey, peers);
    assert Distinct(sorted[..r]);
    DistinctCardinality(sorted[..r]);
    var smaller := set q | q in Members(peers) && q < p;
    forall i | r <= i < |sorted| ensures sorted[i] >= p {
      assert i == r || KeyLe(PeerKey(sorted[r]), PeerKey(sorted[i]));
    }
    forall q ensures q in smaller <==> q in Members(sorted[..r]) {
      if q in smaller {
        var i :| 0 <= i < |sorted| && sorted[i] == q;
        assert sorted[..r][i] == q;
      }
      if q in Members(sorted[..r]) {
        var i :| 0 <= i < r && sorted[..r][i] == q;
        assert sorted[i] == q && KeyLe(PeerKey(sorted[i]), PeerKey(sorted[r])) && sorted[i] != sorted[r];
        assert sorted[i] in Members(sorted);
      }
    }
    assert smaller == Members(sorted[..r]);
  }

  /**
   * The whole assignment, without sorting anything: a peer serves subnetwork
   * `k` exactly when one of the `d` draws from `k * d` on hits its rank in the
   * cycle of peers. Beyond 65536 subnetworks id 0 holds the last one.
   */
  lemma AssignedByRank(peers: seq<PeerId>, params: DaParams, k: nat, p: PeerId, d: nat, size: nat, id: nat)
    requires Distinct(peers) && p in peers && k in Assigned(peers, params)
    requires d == if params.dispersalFactor == 0 then 1 else params.dispersalFactor
    requires size == if params.subnetworkSize <= |peers| then |peers| else params.subnetworkSize
    requires id == if k == 0 && size > 65536 then size - 1 else k
    ensures p in Assigned(peers, params)[k] <==> Strikes(Times(id, d), d, |peers|, Rank(peers, p))
  {
    RankIsPlace(peers, p);
    DealerStrikes(peers, params, Rank(peers, p), id);
    assert Assigned(peers, params)[k] == Dealer(peers, params)(id);
  }

  /** No peer is left without a subnetwork. */
  lemma EveryPeerServes(peers: seq<PeerId>, params: DaParams, p: PeerId)
    requires Distinct(peers) && p in peers
    requires params.subnetworkSize <= 65536 && |peers| <= 65536
    ensures exists k :: k in Assigned(peers, params) && p in Assigned(peers, params)[k]
  {
    var d := Dispersal(params);
    var r := SomeRank(peers, p);
    var k := r / d;
    Euclid(r, d);
    assert k <= r by { if k > 0 { MulAtLeast(d, k); } }
    TimesIsProduct(k, d);
    PositionIsRemainder(r, |peers|);
    DivModUnique(r, |peers|, 0, r);
    assert Strikes(Times(k, d), d, |peers|, r);
    DealerStrikes(peers, params, r, k);
    assert k in SubnetsOf(Assigned(peers, params), p);
  }

  /** The assignment depends on the set of peers only, not on the order of the node ids. */
  lemma OrderIrrelevant(peers: seq<PeerId>, other: seq<PeerId>, params: DaParams)
    requires multiset(peers) == multiset(other)
    ensures Assigned(peers, params) == Assigned(other, params)
  {
    SortPermutes(PeerKey, other);
    SortSorted(PeerKey, other);
    assert peers == [] <==> other == [] by { assert |multiset(peers)| == |multiset(other)|; }
    SortRecovers(PeerKey, peers, SortBy(PeerKey, other));
    assert |peers| == |multiset(peers)| == |other|;
  }

  /** Beyond 65536 subnetworks the ids collapse: exactly then some subnetwork's members are lost. */
  lemma IdsCollapse(peers: seq<PeerId>, params: DaParams)
    ensures var size := if params.subnetworkSize <= |peers| then |peers| else params.subnetworkSize;
      |Assigned(peers, params)| == (if size == 0 then 1 else size) <==> size <= 65536
  {
    var size := SubnetCount(params, |peers|);
    BelowCardinality(Min(size, U16_LIMIT));
    assert Assigned(peers, params).Keys == Below(Min(size, U16_LIMIT));
  }

  // ------------------------------------------------- topologies built by node count

  const DEFAULT_PARAMS := DaParams(2, 1, 2, 1, 1)

  /** `TopologyConfig::with_node_numbers`; at least one node is asserted by the source. */
  function ParamsForNodes(nodes: nat): (params: DaParams)
    requires nodes > 0
  {
    if nodes <= 1 then DaParams(1, 1, 1, 0, 0)
    else
      var dispersal := Min(nodes, Max(DEFAULT_PARAMS.dispersalFactor, 2));
      var size := Max(DEFAULT_PARAMS.subnetworkSize, dispersal);
      var minPeers := Max(dispersal - 1, 1);
      DaParams(size, dispersal, size, minPeers, minPeers)
  }

  lemma NodeCountParams(n: nat)
    requires n > 0
    ensures ParamsForNodes(n) == if n == 1 then DaParams(1, 1, 1, 0, 0) else DaParams(2, 2, 2, 1, 1)
    ensures Dispersal(ParamsForNodes(n)) == Min(2, n) && SubnetCount(ParamsForNodes(n), n) == n
    ensures Deals(ParamsForNodes(n), n) == Min(2, n) * n
  {
    TimesIsProduct(n, Min(2, n));
  }

  /** With those parameters every subnetwork has min(2, n) members and every peer serves exactly min(2, n) of them. */
  lemma NodeCountTopologyIsRegular(peers: seq<PeerId>, k: nat, p: PeerId)
    requires 0 < |peers| <= U16_LIMIT && Distinct(peers) && p in peers
    requires k in Assigned(peers, ParamsForNodes(|peers|))
    ensures var m := Assigned(peers, ParamsForNodes(|peers|));
      var each := if |peers| == 1 then 1 else 2;
      |m[k]| == each && |SubnetsOf(m, p)| == each
  {
    var n := |peers|;
    var params := ParamsForNodes(n);
    NodeCountParams(n);
    EverySubnetFull(peers, params, k);
    if n == 1 {
      ShareOfAll(peers, params, p);
    } else {
      ShareOfDeal(peers, params, p);
      TwiceOver(n);
    }
  }
}
