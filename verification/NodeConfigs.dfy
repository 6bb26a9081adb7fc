/**
 * Node configurations, derived twice from the same ids: once by the topology
 * builder that the workloads look at, once by the cfgsync server that the nodes
 * are configured from. The main result is that the second refines the first.
 */
module NodeConfigs {
  import opened Wrappers
  import opened Keys
  import opened Mantle
  import opened Wallet
  import opened Genesis
  import opened DaMembership
  import opened Hosts
  import opened HostMaps
  import PeerGraph
  import Sorting
  import Sequences

  datatype DaConfig = DaConfig(
    signer: NodeId, peerId: nat, zkSecret: nat, membership: Membership, verifierIndex: set<nat>,
    listening: Address, minDispersalPeers: nat)

  datatype BlendConfig = BlendConfig(signer: NodeId, zkSecret: nat, listening: Address)

  /** The external address is absent when address translation is to be discovered. */
  datatype NetworkConfig = NetworkConfig(
    nodeKey: NodeId, port: nat, initialPeers: seq<PeerGraph.Multiaddr>, external: Option<Address>)

  datatype ApiConfig = ApiConfig(address: Address, testing: Address)

  datatype KmsKey = Ed25519(id: NodeId) | Zk(secret: nat)

  datatype NodeConfig = NodeConfig(
    leaderKey: (nat, nat), genesis: GenesisTx, da: DaConfig, blend: BlendConfig, network: NetworkConfig,
    api: ApiConfig, kms: set<KmsKey>)

  const UNSPECIFIED: nat := 0

  // ------------------------------------------------ parts both builds share

  function PeerIds(c: Suite, ids: seq<NodeId>): (peers: seq<nat>)
    ensures |peers| == |ids|
  {
    seq<nat>(|ids|, i requires 0 <= i < |ids| => c.peerOf(ids[i]))
  }

  /** What is computed once for the whole cluster. */
  datatype Base = Base(
    leaderKeys: seq<(nat, nat)>, genesis: GenesisTx, membership: Membership, peers: seq<seq<PeerGraph.Multiaddr>>)

  predicate BaseFits(base: Base, n: nat) {
    |base.leaderKeys| == n && |base.peers| == n
  }

  /** `create_da_configs`, for one node. */
  function DaConfigFor(c: Suite, params: DaParams, m: Membership, id: NodeId, port: nat): (d: DaConfig) {
    DaConfig(id, c.peerOf(id), ServiceZkSecret(c, id), m, SubnetsOf(m, c.peerOf(id)),
      Address(PeerGraph.LOCALHOST, port), params.minDispersalPeers)
  }

  /** `create_blend_configs`, for one node. */
  function BlendConfigFor(c: Suite, id: NodeId, port: nat): (b: BlendConfig) {
    BlendConfig(id, ServiceZkSecret(c, id), Address(PeerGraph.LOCALHOST, port))
  }

  function ApiOn(ip: nat, ports: ApiPorts): (a: ApiConfig) {
    ApiConfig(Address(ip, ports.api), Address(ip, ports.testing))
  }

  function ServiceKeys(da: DaConfig, blend: BlendConfig): (keys: set<KmsKey>) {
    {Ed25519(blend.signer), Zk(blend.zkSecret), Ed25519(da.signer), Zk(da.zkSecret)}
  }

  function WalletKeys(accounts: seq<WalletAccount>): (keys: set<KmsKey>) {
    set i | 0 <= i < |accounts| :: Zk(accounts[i].secretKey)
  }

  function LocalAddresses(ports: seq<nat>): (r: seq<Address>)
    ensures |r| == |ports|
  {
    seq(|ports|, i requires 0 <= i < |ports| => Address(PeerGraph.LOCALHOST, ports[i]))
  }

  // -------------------------------------------------------- topology builder

  /** `autonat` is set through the environment. */
  datatype TopologyConfig = TopologyConfig(
    validators: nat, executors: nat, daParams: DaParams, layout: PeerGraph.Layout, accounts: seq<WalletAccount>,
    autonat: bool)

  /** The port of a node's API, and that of its testing API. */
  datatype ApiPorts = ApiPorts(api: nat, testing: nat)

  /** The resolved ids and ports; a topology's network and API ports come from the operating system. */
  datatype Inputs = Inputs(
    ids: seq<NodeId>, daPorts: seq<nat>, blendPorts: seq<nat>, networkPorts: seq<nat>, apiPorts: seq<ApiPorts>)

  datatype NodeRole = ValidatorRole | ExecutorRole

  datatype GeneratedNode =
    GeneratedNode(role: NodeRole, index: nat, id: NodeId, config: NodeConfig, daPort: nat, blendPort: nat)

  datatype GeneratedTopology = GeneratedTopology(validators: seq<GeneratedNode>, executors: seq<GeneratedNode>)

  datatype BuildError = EmptyTopology | CountMismatch

  predicate Aligned(n: nat, inputs: Inputs) {
    |inputs.ids| == |inputs.daPorts| == |inputs.blendPorts| == |inputs.networkPorts| == |inputs.apiPorts| == n
  }

  function TopologyGenesis(c: Suite, cfg: TopologyConfig, inputs: Inputs): (tx: GenesisTx)
    requires Aligned(|inputs.ids|, inputs)
  {
    GenesisTxFor(c, Outputs(c, inputs.ids, cfg.accounts),
      Providers(c, inputs.ids, LocalAddresses(inputs.daPorts), LocalAddresses(inputs.blendPorts)))
  }

  function TopologyBase(c: Suite, cfg: TopologyConfig, inputs: Inputs): (base: Base)
    requires Aligned(|inputs.ids|, inputs)
    ensures BaseFits(base, |inputs.ids|)
  {
    Base(LeaderKeys(c, inputs.ids), TopologyGenesis(c, cfg, inputs),
      Assigned(PeerIds(c, inputs.ids), cfg.daParams), PeerGraph.InitialPeers(cfg.layout, inputs.networkPorts))
  }

  function TopologyNode(c: Suite, cfg: TopologyConfig, inputs: Inputs, base: Base, i: nat): (node: GeneratedNode)
    requires i < |inputs.ids| && Aligned(|inputs.ids|, inputs) && BaseFits(base, |inputs.ids|)
  {
    var da := DaConfigFor(c, cfg.daParams, base.membership, inputs.ids[i], inputs.daPorts[i]);
    var blend := BlendConfigFor(c, inputs.ids[i], inputs.blendPorts[i]);
    var network := NetworkConfig(inputs.ids[i], inputs.networkPorts[i], base.peers[i],
      if cfg.autonat then None else Some(Address(PeerGraph.LOCALHOST, inputs.networkPorts[i])));
    var config := NodeConfig(base.leaderKeys[i], base.genesis, da, blend, network,
      ApiOn(PeerGraph.LOCALHOST, inputs.apiPorts[i]),
      ServiceKeys(da, blend) + WalletKeys(cfg.accounts));
    GeneratedNode(
      if i < cfg.validators then ValidatorRole else ExecutorRole,
      if i < cfg.validators then i else i - cfg.validators,
      inputs.ids[i], config, inputs.daPorts[i], inputs.blendPorts[i])
  }

  function TopologyNodes(c: Suite, cfg: TopologyConfig, inputs: Inputs, base: Base): (r: seq<GeneratedNode>)
    requires Aligned(|inputs.ids|, inputs) && BaseFits(base, |inputs.ids|)
    ensures |r| == |inputs.ids|
  {
    seq(|inputs.ids|, i requires 0 <= i < |inputs.ids| => TopologyNode(c, cfg, inputs, base, i))
  }

  function TopologyFor(c: Suite, cfg: TopologyConfig, inputs: Inputs): (r: Result<GeneratedTopology, BuildError>) {
    var n := cfg.validators + cfg.executors;
    if n == 0 then Err(EmptyTopology)
    else if !Aligned(n, inputs) then Err(CountMismatch)
    else
      var nodes := TopologyNodes(c, cfg, inputs, TopologyBase(c, cfg, inputs));
      Ok(GeneratedTopology(nodes[..cfg.validators], nodes[cfg.validators..]))
  }

  method BuildTopologyBase(c: Suite, cfg: TopologyConfig, inputs: Inputs) returns (base: Base)
    requires Aligned(|inputs.ids|, inputs) && inputs.ids != []
    ensures base == TopologyBase(c, cfg, inputs)
  {
    var utxos, leaderKeys, daNotes, blendNotes := CreateUtxos(c, inputs.ids);
    var outputs := AppendWalletUtxos(c, utxos, cfg.accounts);
    var membership := BuildAssignations(PeerIds(c, inputs.ids), cfg.daParams);
    var peers := PeerGraph.BuildInitialPeers(cfg.layout, inputs.networkPorts);
    var genesis := CreateGenesisTx(c, outputs,
      Providers(c, inputs.ids, LocalAddresses(inputs.daPorts), LocalAddresses(inputs.blendPorts)));
    base := Base(leaderKeys, genesis, membership, peers);
  }

  /** `TopologyBuilder::build`: one pass over all participants, split by role on the way. */
  method BuildTopology(c: Suite, cfg: TopologyConfig, inputs: Inputs)
    returns (r: Result<GeneratedTopology, BuildError>)
    ensures r == TopologyFor(c, cfg, inputs)
  {
    var n := cfg.validators + cfg.executors;
    if n == 0 {
      return Err(EmptyTopology);
    }
    if !Aligned(n, inputs) {
      return Err(CountMismatch);
    }
    var base := BuildTopologyBase(c, cfg, inputs);
    var validators, executors := SplitByRole(c, cfg, inputs, base);
    return Ok(GeneratedTopology(validators, executors));
  }

  method SplitByRole(c: Suite, cfg: TopologyConfig, inputs: Inputs, base: Base)
    returns (validators: seq<GeneratedNode>, executors: seq<GeneratedNode>)
    requires Aligned(cfg.validators + cfg.executors, inputs) && BaseFits(base, |inputs.ids|)
    ensures validators == TopologyNodes(c, cfg, inputs, base)[..cfg.validators]
    ensures executors == TopologyNodes(c, cfg, inputs, base)[cfg.validators..]
  {
    ghost var nodes := TopologyNodes(c, cfg, inputs, base);
    validators, executors := [], [];
    for i := 0 to cfg.validators + cfg.executors
      invariant if i <= cfg.validators then validators == nodes[..i] && executors == []
        else validators == nodes[..cfg.validators] && executors == nodes[cfg.validators..i]
    {
      var node := TopologyNode(c, cfg, inputs, base, i);
      assert node == nodes[i];
      if node.role.ValidatorRole? {
        validators := validators + [node];
      } else {
        executors := executors + [node];
      }
    }
  }

  // ---------------------------------------------------------- cfgsync server

  datatype CfgsyncError =
    | HostCountMismatch(actual: nat, expected: nat)
    | IdCountMismatch(actual: nat, expected: nat)
    | DaPortCountMismatch(actual: nat, expected: nat)
    | BlendPortCountMismatch(actual: nat, expected: nat)
    | NoParticipants

  /** What the server was configured with. Absent ids and ports are drawn afresh. */
  datatype CfgsyncInputs = CfgsyncInputs(
    participants: nat, daParams: DaParams, accounts: seq<WalletAccount>,
    ids: Option<seq<NodeId>>, daPorts: Option<seq<nat>>, blendPorts: Option<seq<nat>>)

  /** Random ids and free ports, as many as there are participants. */
  datatype Drawn = Drawn(ids: seq<NodeId>, daPorts: seq<nat>, networkPorts: seq<nat>)

  predicate DrawnFor(s: CfgsyncInputs, drawn: Drawn) {
    |drawn.ids| == |drawn.daPorts| == |drawn.networkPorts| == s.participants
  }

  /** Whatever lists the server was given have one entry for each participant. */
  predicate ListsSized(s: CfgsyncInputs) {
    && (s.ids.Some? ==> |s.ids.value| == s.participants)
    && (s.daPorts.Some? ==> |s.daPorts.value| == s.participants)
    && (s.blendPorts.Some? ==> |s.blendPorts.value| == s.participants)
  }

  /** `validate_inputs`, checks in order. */
  function ValidateInputs(s: CfgsyncInputs, hosts: seq<Host>): (r: Result<(), CfgsyncError>) {
    var n := s.participants;
    if |hosts| != n then Err(HostCountMismatch(|hosts|, n))
    else if s.ids.Some? && |s.ids.value| != n then Err(IdCountMismatch(|s.ids.value|, n))
    else if s.daPorts.Some? && |s.daPorts.value| != n then Err(DaPortCountMismatch(|s.daPorts.value|, n))
    else if s.blendPorts.Some? && |s.blendPorts.value| != n then Err(BlendPortCountMismatch(|s.blendPorts.value|, n))
    else Ok(())
  }

  function HostBlendPorts(hosts: seq<Host>): (r: seq<nat>)
    ensures |r| == |hosts|
  {
    seq(|hosts|, i requires 0 <= i < |hosts| => hosts[i].blendPort)
  }

  function HostApiPorts(hosts: seq<Host>): (r: seq<ApiPorts>)
    ensures |r| == |hosts|
  {
    seq(|hosts|, i requires 0 <= i < |hosts| => ApiPorts(hosts[i].apiPort, hosts[i].testingPort))
  }

  function Resolve(s: CfgsyncInputs, drawn: Drawn, hosts: seq<Host>): (inputs: Inputs) {
    Inputs(
      if s.ids.Some? then s.ids.value else drawn.ids,
      if s.daPorts.Some? then s.daPorts.value else drawn.daPorts,
      if s.blendPorts.Some? then s.blendPorts.value else HostBlendPorts(hosts),
      drawn.networkPorts,
      HostApiPorts(hosts))
  }

  function DaLocators(hosts: seq<Host>): (r: seq<Address>)
    ensures |r| == |hosts|
  {
    seq(|hosts|, i requires 0 <= i < |hosts| => Address(hosts[i].ip, hosts[i].daPort))
  }

  function BlendLocators(hosts: seq<Host>): (r: seq<Address>)
    ensures |r| == |hosts|
  {
    seq(|hosts|, i requires 0 <= i < |hosts| => Address(hosts[i].ip, hosts[i].blendPort))
  }

  function Endpoints(hosts: seq<Host>): (r: seq<PeerGraph.Endpoint>)
    ensures |r| == |hosts|
  {
    seq(|hosts|, i requires 0 <= i < |hosts| => PeerGraph.Endpoint(hosts[i].ip, hosts[i].networkPort))
  }

  function CfgsyncGenesis(c: Suite, s: CfgsyncInputs, inputs: Inputs, hosts: seq<Host>): (tx: GenesisTx)
    requires Aligned(|hosts|, inputs)
  {
    GenesisTxFor(c, Outputs(c, inputs.ids, s.accounts),
      Providers(c, inputs.ids, DaLocators(hosts), BlendLocators(hosts)))
  }

  /** The shared part of the server's configurations; the layout is always the default star. */
  function CfgsyncBase(c: Suite, s: CfgsyncInputs, inputs: Inputs, hosts: seq<Host>): (base: Base)
    requires Aligned(|hosts|, inputs)
    ensures BaseFits(base, |hosts|)
  {
    Base(LeaderKeys(c, inputs.ids), CfgsyncGenesis(c, s, inputs, hosts),
      Assigned(PeerIds(c, inputs.ids), s.daParams),
      PeerGraph.RewriteInitialPeers(PeerGraph.InitialPeers(PeerGraph.Star, inputs.networkPorts),
        inputs.networkPorts, Endpoints(hosts), PeerIds(c, inputs.ids)))
  }

  /** The configuration of the host in place `i` of the sorted hosts. */
  function HostConfig(c: Suite, s: CfgsyncInputs, inputs: Inputs, base: Base, hosts: seq<Host>, i: nat)
    : (config: NodeConfig)
    requires i < |hosts| && Aligned(|hosts|, inputs) && BaseFits(base, |hosts|)
  {
    var da := DaConfigFor(c, s.daParams, base.membership, inputs.ids[i], inputs.daPorts[i]);
    var blend := BlendConfigFor(c, inputs.ids[i], inputs.blendPorts[i]);
    NodeConfig(base.leaderKeys[i], base.genesis,
      da.(listening := Address(UNSPECIFIED, hosts[i].daPort),
          minDispersalPeers := if hosts[i].kind.Validator? then 0 else da.minDispersalPeers),
      blend.(listening := Address(UNSPECIFIED, hosts[i].blendPort)),
      NetworkConfig(inputs.ids[i], hosts[i].networkPort, base.peers[i],
        Some(Address(hosts[i].ip, hosts[i].networkPort))),
      ApiOn(UNSPECIFIED, inputs.apiPorts[i]),
      ServiceKeys(da, blend))
  }

  function HostConfigs(c: Suite, s: CfgsyncInputs, inputs: Inputs, base: Base, hosts: seq<Host>)
    : (configs: seq<NodeConfig>)
    requires Aligned(|hosts|, inputs) && BaseFits(base, |hosts|)
    ensures |configs| == |hosts|
  {
    seq(|hosts|, i requires 0 <= i < |hosts| => HostConfig(c, s, inputs, base, hosts, i))
  }

  function NodeConfigsFor(c: Suite, s: CfgsyncInputs, drawn: Drawn, arrived: seq<Host>)
    : (r: Result<map<Host, NodeConfig>, CfgsyncError>)
    requires DrawnFor(s, drawn)
  {
    var hosts := SortHosts(arrived);
    var inputs := Resolve(s, drawn, hosts);
    match ValidateInputs(s, hosts)
    case Err(e) => Err(e)
    case Ok(_) =>
      if s.participants == 0 then Err(NoParticipants)
      else Ok(Keyed(hosts, HostConfigs(c, s, inputs, CfgsyncBase(c, s, inputs, hosts), hosts)))
  }

  method BuildCfgsyncBase(c: Suite, s: CfgsyncInputs, inputs: Inputs, hosts: seq<Host>) returns (base: Base)
    requires Aligned(|hosts|, inputs) && hosts != []
    ensures base == CfgsyncBase(c, s, inputs, hosts)
  {
    var utxos, leaderKeys, daNotes, blendNotes := CreateUtxos(c, inputs.ids);
    var outputs := AppendWalletUtxos(c, utxos, s.accounts);
    var membership := BuildAssignations(PeerIds(c, inputs.ids), s.daParams);
    var templates := PeerGraph.BuildInitialPeers(PeerGraph.Star, inputs.networkPorts);
    var told := PeerGraph.RewriteInitialPeers(templates, inputs.networkPorts, Endpoints(hosts), PeerIds(c, inputs.ids));
    var genesis := CreateGenesisTx(c, outputs, Providers(c, inputs.ids, DaLocators(hosts), BlendLocators(hosts)));
    base := Base(leaderKeys, genesis, membership, told);
  }

  /** `create_node_configs`; a failed validation or an empty cluster makes the source panic. */
  method CreateNodeConfigs(c: Suite, s: CfgsyncInputs, drawn: Drawn, arrived: seq<Host>)
    returns (r: Result<map<Host, NodeConfig>, CfgsyncError>)
    requires DrawnFor(s, drawn)
    ensures r == NodeConfigsFor(c, s, drawn, arrived)
  {
    var hosts := SortHosts(arrived);
    var valid := ValidateInputs(s, hosts);
    if valid.Err? {
      return Err(valid.error);
    }
    if s.participants == 0 {
      return Err(NoParticipants);
    }
    var inputs := Resolve(s, drawn, hosts);
    var base := BuildCfgsyncBase(c, s, inputs, hosts);
    var configured := ConfigureHosts(c, s, inputs, base, hosts);
    return Ok(configured);
  }

  /** The loop over the hosts. */
  method ConfigureHosts(c: Suite, s: CfgsyncInputs, inputs: Inputs, base: Base, hosts: seq<Host>)
    returns (configured: map<Host, NodeConfig>)
    requires Aligned(|hosts|, inputs) && BaseFits(base, |hosts|)
    ensures configured == Keyed(hosts, HostConfigs(c, s, inputs, base, hosts))
  {
    ghost var configs := HostConfigs(c, s, inputs, base, hosts);
    configured := map[];
    for i := 0 to |hosts|
      invariant configured == Keyed(hosts[..i], configs[..i])
    {
      Sequences.TakeTake(hosts, i, i + 1);
      Sequences.TakeTake(configs, i, i + 1);
      configured := configured[hosts[i] := HostConfig(c, s, inputs, base, hosts, i)];
    }
    Sequences.TakeAll(hosts);
    Sequences.TakeAll(configs);
  }

  // --------------------------------------------------------------- refinement

  /** The two configurations give a node the same keys, identity and place in the membership. */
  ghost predicate SameIdentity(a: NodeConfig, b: NodeConfig) {
    && a.leaderKey == b.leaderKey
    && a.da.signer == b.da.signer && a.da.peerId == b.da.peerId && a.da.zkSecret == b.da.zkSecret
    && a.da.membership == b.da.membership && a.da.verifierIndex == b.da.verifierIndex
    && a.blend.signer == b.blend.signer && a.blend.zkSecret == b.blend.zkSecret
    && a.network.nodeKey == b.network.nodeKey
  }

  /** The genesis transactions agree on everything but the locators. */
  ghost predicate SameGenesis(a: GenesisTx, b: GenesisTx) {
    && a.outputs == b.outputs
    && |a.ops| == |b.ops|
    && forall k :: 0 <= k < |a.ops| ==>
      match (a.ops[k], b.ops[k])
      case (GenesisInscription, GenesisInscription) => true
      case (SDPDeclare(d), SDPDeclare(e)) => d == e.(locator := d.locator)
      case _ => false
  }

  /** Declaration `k` names the host whose configuration holds the key it declares. */
  ghost predicate LocatesHolder(c: Suite, d: Declaration, host: Host, config: NodeConfig) {
    match d.service
    case DataAvailability =>
      d.locator == Address(host.ip, host.daPort) && d.providerId == c.edPublic(config.da.signer)
        && d.zkId == c.zkPublic(config.da.zkSecret) && config.da.listening.udpPort == host.daPort
    case BlendNetwork =>
      d.locator == Address(host.ip, host.blendPort) && d.providerId == c.edPublic(config.blend.signer)
        && d.zkId == c.zkPublic(config.blend.zkSecret) && config.blend.listening.udpPort == host.blendPort
  }

  lemma GenesisAgrees(c: Suite, cfg: TopologyConfig, s: CfgsyncInputs, inputs: Inputs, other: Inputs, hosts: seq<Host>)
    requires Aligned(|hosts|, inputs) && Aligned(|hosts|, other)
    requires inputs.ids == other.ids && cfg.accounts == s.accounts
    ensures SameGenesis(CfgsyncGenesis(c, s, inputs, hosts), TopologyGenesis(c, cfg, other))
  {
    LocatorsAside(c, Outputs(c, inputs.ids, s.accounts), inputs.ids, DaLocators(hosts), BlendLocators(hosts),
      LocalAddresses(other.daPorts), LocalAddresses(other.blendPorts));
  }

  /** The providers' locators end up in the locators of the declarations, and nowhere else. */
  lemma LocatorsAside(c: Suite, outputs: seq<Note>, ids: seq<NodeId>, da: seq<Address>, blend: seq<Address>,
                      da': seq<Address>, blend': seq<Address>)
    requires |da| == |blend| == |da'| == |blend'| == |ids|
    ensures SameGenesis(GenesisTxFor(c, outputs, Providers(c, ids, da, blend)),
      GenesisTxFor(c, outputs, Providers(c, ids, da', blend')))
  {
    var a, b := Providers(c, ids, da, blend), Providers(c, ids, da', blend');
    forall k | 0 <= k < |a| ensures Declare(c, outputs, a[k]) == Declare(c, outputs, b[k]).(locator := a[k].locator) {
      assert a[k] == b[k].(locator := a[k].locator);
    }
  }

  /** Declaration `k`, counting all data-availability ones first, belongs to the host in place `k` modulo the count. */
  ghost predicate LocatesItsHost(c: Suite, tx: GenesisTx, hosts: seq<Host>, configs: seq<NodeConfig>, k: nat)
    requires |hosts| == |configs| && k < 2 * |hosts|
  {
    var i := if k < |hosts| then k else k - |hosts|;
    && |tx.ops| == 2 * |hosts| + 1
    && tx.ops[k + 1].SDPDeclare?
    && tx.ops[k + 1].declaration.service == (if k < |hosts| then DataAvailability else BlendNetwork)
    && LocatesHolder(c, tx.ops[k + 1].declaration, hosts[i], configs[i])
  }

  lemma DeclarationsLocateHolders(c: Suite, s: CfgsyncInputs, inputs: Inputs, base: Base, hosts: seq<Host>, k: nat)
    requires Aligned(|hosts|, inputs) && BaseFits(base, |hosts|) && k < 2 * |hosts|
    ensures LocatesItsHost(c, CfgsyncGenesis(c, s, inputs, hosts), hosts, HostConfigs(c, s, inputs, base, hosts), k)
  {
  }

  /** The server inputs that the runner writes for a topology: its counts, ids, ports, wallet and DA parameters. */
  function OverridesFor(cfg: TopologyConfig, inputs: Inputs): (s: CfgsyncInputs) {
    CfgsyncInputs(cfg.validators + cfg.executors, cfg.daParams, cfg.accounts,
      Some(inputs.ids), Some(inputs.daPorts), Some(inputs.blendPorts))
  }

  /** The host is the deployment of the topology node: same role and index, same identity, same genesis. */
  ghost predicate Deploys(cfg: TopologyConfig, host: Host, config: NodeConfig, node: GeneratedNode) {
    && (node.role == ValidatorRole <==> host.kind == Validator)
    && host.identifier == Identifier(host.kind, node.index)
    && SameIdentity(config, node.config)
    && config.da.signer == node.id
    && SameGenesis(config.genesis, node.config.genesis)
    && config.kms == ServiceKeys(config.da, config.blend)
    && node.config.kms == config.kms + WalletKeys(cfg.accounts)
  }

  lemma NodeDeployed(c: Suite, cfg: TopologyConfig, inputs: Inputs, resolved: Inputs, hosts: seq<Host>, i: nat)
    requires RoleOrdered(hosts, cfg.validators, cfg.executors) && i < |hosts|
    requires Aligned(|hosts|, inputs) && Aligned(|hosts|, resolved)
    requires resolved.ids == inputs.ids
    ensures var s := OverridesFor(cfg, inputs);
      Deploys(cfg, hosts[i], HostConfig(c, s, resolved, CfgsyncBase(c, s, resolved, hosts), hosts, i),
        TopologyNode(c, cfg, inputs, TopologyBase(c, cfg, inputs), i))
  {
    GenesisAgrees(c, cfg, OverridesFor(cfg, inputs), resolved, inputs, hosts);
  }

  ghost predicate AllDeploy(cfg: TopologyConfig, hosts: seq<Host>, configs: seq<NodeConfig>, nodes: seq<GeneratedNode>) {
    && |configs| == |nodes| == |hosts|
    && forall i :: 0 <= i < |hosts| ==> Deploys(cfg, hosts[i], configs[i], nodes[i])
  }

  ghost predicate AllLocated(c: Suite, hosts: seq<Host>, configs: seq<NodeConfig>) {
    && |configs| == |hosts|
    && forall i, k: nat :: 0 <= i < |hosts| && k < 2 * |hosts| ==>
      LocatesItsHost(c, configs[i].genesis, hosts, configs, k)
  }

  /** The configurations handed to `hosts` deploy the nodes of the topology, place by place, and locate each other. */
  ghost predicate RefinesTopology(c: Suite, cfg: TopologyConfig, topology: GeneratedTopology,
                                  hosts: seq<Host>, handed: map<Host, NodeConfig>) {
    && |topology.validators| == cfg.validators && |topology.executors| == cfg.executors
    && (forall h :: h in handed <==> h in hosts)
    && AllDeploy(cfg, hosts, InOrder(hosts, handed), topology.validators + topology.executors)
    && AllLocated(c, hosts, InOrder(hosts, handed))
  }

  /**
   * cfgsync refines the topology: for every node count, ids, wallet and order
   * of arrival, both builds succeed; the host named after a role and an index
   * gets the identity of the topology node with that role and index; the
   * genesis transactions agree up to locators; and every declaration's locator
   * is the address of the host that holds the declared key.
   */
  lemma CfgsyncRefinesTopology(c: Suite, cfg: TopologyConfig, inputs: Inputs, drawn: Drawn,
                               arrived: seq<Host>, hosts: seq<Host>)
    requires cfg.validators + cfg.executors > 0
    requires Aligned(cfg.validators + cfg.executors, inputs)
    requires DrawnFor(OverridesFor(cfg, inputs), drawn)
    requires RoleOrdered(hosts, cfg.validators, cfg.executors)
    requires multiset(arrived) == multiset(hosts)
    ensures var topology := TopologyFor(c, cfg, inputs);
      var handed := NodeConfigsFor(c, OverridesFor(cfg, inputs), drawn, arrived);
      topology.Ok? && handed.Ok? && RefinesTopology(c, cfg, topology.value, hosts, handed.value)
  {
    var s := OverridesFor(cfg, inputs);
    ArrivalOrderIrrelevant(arrived, hosts, cfg.validators, cfg.executors);
    RefinesInOrder(c, cfg, inputs, Resolve(s, drawn, hosts), hosts);
  }

  lemma AllHostsLocated(c: Suite, s: CfgsyncInputs, inputs: Inputs, hosts: seq<Host>)
    requires Aligned(|hosts|, inputs)
    ensures AllLocated(c, hosts, HostConfigs(c, s, inputs, CfgsyncBase(c, s, inputs, hosts), hosts))
  {
    var base := CfgsyncBase(c, s, inputs, hosts);
    forall k: nat | k < 2 * |hosts|
      ensures LocatesItsHost(c, base.genesis, hosts, HostConfigs(c, s, inputs, base, hosts), k)
    {
      DeclarationsLocateHolders(c, s, inputs, base, hosts, k);
    }
  }

  lemma AllNodesDeployed(c: Suite, cfg: TopologyConfig, inputs: Inputs, resolved: Inputs, hosts: seq<Host>)
    requires RoleOrdered(hosts, cfg.validators, cfg.executors)
    requires Aligned(|hosts|, inputs) && Aligned(|hosts|, resolved) && resolved.ids == inputs.ids
    ensures var s := OverridesFor(cfg, inputs);
      AllDeploy(cfg, hosts, HostConfigs(c, s, resolved, CfgsyncBase(c, s, resolved, hosts), hosts),
        TopologyNodes(c, cfg, inputs, TopologyBase(c, cfg, inputs)))
  {
    var s := OverridesFor(cfg, inputs);
    var configs := HostConfigs(c, s, resolved, CfgsyncBase(c, s, resolved, hosts), hosts);
    var nodes := TopologyNodes(c, cfg, inputs, TopologyBase(c, cfg, inputs));
    forall i | 0 <= i < |hosts| ensures Deploys(cfg, hosts[i], configs[i], nodes[i]) {
      NodeDeployed(c, cfg, inputs, resolved, hosts, i);
    }
  }

  lemma RefinesInOrder(c: Suite, cfg: TopologyConfig, inputs: Inputs, resolved: Inputs, hosts: seq<Host>)
    requires RoleOrdered(hosts, cfg.validators, cfg.executors) && hosts != []
    requires Aligned(|hosts|, inputs) && Aligned(|hosts|, resolved) && resolved.ids == inputs.ids
    ensures var s := OverridesFor(cfg, inputs);
      var topology := TopologyFor(c, cfg, inputs);
      topology.Ok? &&
      RefinesTopology(c, cfg, topology.value, hosts,
        Keyed(hosts, HostConfigs(c, s, resolved, CfgsyncBase(c, s, resolved, hosts), hosts)))
  {
    var s := OverridesFor(cfg, inputs);
    TopologyIsItsNodes(c, cfg, inputs);
    RoleOrderedHostsDistinct(hosts, cfg.validators, cfg.executors);
    AllNodesDeployed(c, cfg, inputs, resolved, hosts);
    AllHostsLocated(c, s, resolved, hosts);
    Combine(c, cfg, TopologyFor(c, cfg, inputs).value, TopologyNodes(c, cfg, inputs, TopologyBase(c, cfg, inputs)),
      hosts, HostConfigs(c, s, resolved, CfgsyncBase(c, s, resolved, hosts), hosts));
  }

  lemma TopologyIsItsNodes(c: Suite, cfg: TopologyConfig, inputs: Inputs)
    requires cfg.validators + cfg.executors > 0 && Aligned(cfg.validators + cfg.executors, inputs)
    ensures var topology := TopologyFor(c, cfg, inputs);
      && topology.Ok?
      && |topology.value.validators| == cfg.validators && |topology.value.executors| == cfg.executors
      && topology.value.validators + topology.value.executors
          == TopologyNodes(c, cfg, inputs, TopologyBase(c, cfg, inputs))
  {
    Sequences.SplitAt(TopologyNodes(c, cfg, inputs, TopologyBase(c, cfg, inputs)), cfg.validators);
  }

  lemma Combine(c: Suite, cfg: TopologyConfig, topology: GeneratedTopology, nodes: seq<GeneratedNode>,
                hosts: seq<Host>, configs: seq<NodeConfig>)
    requires topology.validators + topology.executors == nodes
    requires |topology.validators| == cfg.validators && |topology.executors| == cfg.executors
    requires DistinctHosts(hosts)
    requires AllDeploy(cfg, hosts, configs, nodes) && AllLocated(c, hosts, configs)
    ensures RefinesTopology(c, cfg, topology, hosts, Keyed(hosts, configs))
  {
    InOrderOfKeyed(hosts, configs);
  }

  lemma RefinedAt(c: Suite, cfg: TopologyConfig, topology: GeneratedTopology, hosts: seq<Host>,
                  handed: map<Host, NodeConfig>, i: nat)
    requires RefinesTopology(c, cfg, topology, hosts, handed) && i < |hosts|
    ensures |topology.validators + topology.executors| == |hosts| && hosts[i] in handed
    ensures Deploys(cfg, hosts[i], handed[hosts[i]], (topology.validators + topology.executors)[i])
  {
    InOrderAt(hosts, handed, i);
  }

  /** The refinement, read off for one host. */
  lemma HostDeploysNode(c: Suite, cfg: TopologyConfig, inputs: Inputs, drawn: Drawn,
                        arrived: seq<Host>, hosts: seq<Host>, i: nat)
    requires cfg.validators + cfg.executors > 0
    requires Aligned(cfg.validators + cfg.executors, inputs)
    requires DrawnFor(OverridesFor(cfg, inputs), drawn)
    requires RoleOrdered(hosts, cfg.validators, cfg.executors) && i < |hosts|
    requires multiset(arrived) == multiset(hosts)
    ensures var topology := TopologyFor(c, cfg, inputs);
      var handed := NodeConfigsFor(c, OverridesFor(cfg, inputs), drawn, arrived);
      && topology.Ok? && handed.Ok? && hosts[i] in handed.value
      && |topology.value.validators + topology.value.executors| == |hosts|
      && Deploys(cfg, hosts[i], handed.value[hosts[i]], (topology.value.validators + topology.value.executors)[i])
  {
    CfgsyncRefinesTopology(c, cfg, inputs, drawn, arrived, hosts);
    RefinedAt(c, cfg, TopologyFor(c, cfg, inputs).value, hosts,
      NodeConfigsFor(c, OverridesFor(cfg, inputs), drawn, arrived).value, i);
  }

  // ------------------------------------------- where the deployment differs

  /** Where others reach host `j`, as its own configuration announces it. */
  function DialAddress(c: Suite, s: CfgsyncInputs, inputs: Inputs, hosts: seq<Host>, j: nat): (a: PeerGraph.Multiaddr)
    requires j < |hosts| && Aligned(|hosts|, inputs)
  {
    var external := HostConfig(c, s, inputs, CfgsyncBase(c, s, inputs, hosts), hosts, j).network.external.value;
    PeerGraph.PeerAddr(external.ip, external.udpPort, c.peerOf(inputs.ids[j]))
  }

  function Told(c: Suite, s: CfgsyncInputs, inputs: Inputs, hosts: seq<Host>, i: nat): (peers: seq<PeerGraph.Multiaddr>)
    requires i < |hosts| && Aligned(|hosts|, inputs)
  {
    HostConfig(c, s, inputs, CfgsyncBase(c, s, inputs, hosts), hosts, i).network.initialPeers
  }

  /** Whatever layout the topology has, the first host dials nobody and every other host exactly the first. */
  lemma HostsDialTheFirst(c: Suite, s: CfgsyncInputs, inputs: Inputs, hosts: seq<Host>, i: nat)
    requires Aligned(|hosts|, inputs) && i < |hosts|
    ensures Told(c, s, inputs, hosts, i) == if i == 0 then [] else [DialAddress(c, s, inputs, hosts, 0)]
  {
    PeerGraph.RewrittenStar(inputs.networkPorts, Endpoints(hosts), PeerIds(c, inputs.ids), i);
  }

  predicate IsTold(c: Suite, s: CfgsyncInputs, inputs: Inputs, hosts: seq<Host>, i: nat, j: nat)
    requires i < |hosts| && j < |hosts| && Aligned(|hosts|, inputs)
  {
    DialAddress(c, s, inputs, hosts, j) in Told(c, s, inputs, hosts, i)
  }

  /** With distinct peer ids only the first host's address is the first host's address. */
  lemma ToldIffFirst(c: Suite, s: CfgsyncInputs, inputs: Inputs, hosts: seq<Host>, i: nat, j: nat)
    requires Aligned(|hosts|, inputs) && PeerGraph.DistinctPorts(PeerIds(c, inputs.ids))
    requires i < |hosts| && j < |hosts|
    ensures IsTold(c, s, inputs, hosts, i, j) <==> PeerGraph.Knows(PeerGraph.Star, i, j)
  {
    HostsDialTheFirst(c, s, inputs, hosts, i);
    assert PeerIds(c, inputs.ids)[j] == c.peerOf(inputs.ids[j]) && PeerIds(c, inputs.ids)[0] == c.peerOf(inputs.ids[0]);
  }

  /** Dials as the layout has them: host `i` is told host `j`'s address exactly when node `i` knows node `j`. */
  ghost predicate DialsAsLaidOut(c: Suite, s: CfgsyncInputs, inputs: Inputs, hosts: seq<Host>, layout: PeerGraph.Layout)
    requires Aligned(|hosts|, inputs)
  {
    forall i: nat, j: nat :: i < |hosts| && j < |hosts| ==>
      (IsTold(c, s, inputs, hosts, i, j) <==> PeerGraph.Knows(layout, i, j))
  }

  /** With distinct peer ids the deployed dials are those of a layout exactly when it is a star, or has at most two nodes. */
  lemma OnlyStarIsDeployed(c: Suite, s: CfgsyncInputs, inputs: Inputs, hosts: seq<Host>, layout: PeerGraph.Layout)
    requires Aligned(|hosts|, inputs) && PeerGraph.DistinctPorts(PeerIds(c, inputs.ids))
    ensures DialsAsLaidOut(c, s, inputs, hosts, layout) <==> layout.Star? || |hosts| <= 2
  {
    forall i: nat, j: nat | i < |hosts| && j < |hosts|
      ensures IsTold(c, s, inputs, hosts, i, j) <==> PeerGraph.Knows(PeerGraph.Star, i, j)
    {
      ToldIffFirst(c, s, inputs, hosts, i, j);
    }
    PeerGraph.OnlyStarIsStar(layout, |hosts|);
  }

  /** In a chain of three the last node knows the middle one; the deployed host is told of the first instead. */
  lemma ChainOfThreeDiffers(c: Suite, s: CfgsyncInputs, inputs: Inputs, hosts: seq<Host>)
    requires |hosts| == 3 && Aligned(3, inputs) && PeerGraph.DistinctPorts(PeerIds(c, inputs.ids))
    ensures PeerGraph.Knows(PeerGraph.Chain, 2, 1)
    ensures DialAddress(c, s, inputs, hosts, 1) !in Told(c, s, inputs, hosts, 2)
    ensures Told(c, s, inputs, hosts, 2) == [DialAddress(c, s, inputs, hosts, 0)] && !PeerGraph.Knows(PeerGraph.Chain, 2, 0)
  {
    HostsDialTheFirst(c, s, inputs, hosts, 2);
    assert PeerIds(c, inputs.ids)[0] != PeerIds(c, inputs.ids)[1];
  }

  /** A host's key store is that of its topology node exactly when no account brings a key of its own. */
  lemma KeyStoresAgree(c: Suite, cfg: TopologyConfig, inputs: Inputs, drawn: Drawn,
                       arrived: seq<Host>, hosts: seq<Host>, i: nat)
    requires cfg.validators + cfg.executors > 0
    requires Aligned(cfg.validators + cfg.executors, inputs)
    requires DrawnFor(OverridesFor(cfg, inputs), drawn)
    requires RoleOrdered(hosts, cfg.validators, cfg.executors) && i < |hosts|
    requires multiset(arrived) == multiset(hosts)
    ensures var topology := TopologyFor(c, cfg, inputs);
      var handed := NodeConfigsFor(c, OverridesFor(cfg, inputs), drawn, arrived);
      && topology.Ok? && handed.Ok? && hosts[i] in handed.value
      && |topology.value.validators + topology.value.executors| == |hosts|
      && (handed.value[hosts[i]].kms == (topology.value.validators + topology.value.executors)[i].config.kms
          <==> forall k :: 0 <= k < |cfg.accounts| ==> cfg.accounts[k].secretKey == ServiceZkSecret(c, inputs.ids[i]))
  {
    HostDeploysNode(c, cfg, inputs, drawn, arrived, hosts, i);
    TopologyIsItsNodes(c, cfg, inputs);
    var config := NodeConfigsFor(c, OverridesFor(cfg, inputs), drawn, arrived).value[hosts[i]];
    WalletKeysAdd(cfg.accounts, config.da, config.blend);
  }

  lemma WalletKeysAdd(accounts: seq<WalletAccount>, da: DaConfig, blend: BlendConfig)
    requires da.zkSecret == blend.zkSecret
    ensures ServiceKeys(da, blend) + WalletKeys(accounts) == ServiceKeys(da, blend)
      <==> forall k :: 0 <= k < |accounts| ==> accounts[k].secretKey == da.zkSecret
  {
    if ServiceKeys(da, blend) + WalletKeys(accounts) == ServiceKeys(da, blend) {
      forall k | 0 <= k < |accounts| ensures accounts[k].secretKey == da.zkSecret {
        assert Zk(accounts[k].secretKey) in WalletKeys(accounts);
      }
    }
  }

  /** One account with any other key makes every topology node's store differ from its host's. */
  lemma OneAccountDiffers(da: DaConfig, blend: BlendConfig, funds: nat)
    requires da.zkSecret == blend.zkSecret
    ensures ServiceKeys(da, blend) + WalletKeys([WalletAccount("foreign", da.zkSecret + 1, funds)]) != ServiceKeys(da, blend)
  {
    var accounts := [WalletAccount("foreign", da.zkSecret + 1, funds)];
    WalletKeysAdd(accounts, da, blend);
    assert accounts[0].secretKey != da.zkSecret;
  }

  /** Configurations are handed out exactly when as many hosts have arrived as the server was set up for. */
  lemma OnlyExactHostCount(c: Suite, s: CfgsyncInputs, drawn: Drawn, arrived: seq<Host>)
    requires DrawnFor(s, drawn)
    ensures NodeConfigsFor(c, s, drawn, arrived).Ok? <==>
      |arrived| == s.participants && s.participants > 0 && ListsSized(s)
    ensures NodeConfigsFor(c, s, drawn, arrived).Ok? ==>
      forall h :: h in NodeConfigsFor(c, s, drawn, arrived).value <==> h in arrived
  {
    Sorting.SortPermutes(HostKey, arrived);
    var hosts := SortHosts(arrived);
    forall h ensures h in arrived <==> h in hosts {
      assert h in multiset(arrived) <==> h in multiset(hosts);
    }
    if NodeConfigsFor(c, s, drawn, arrived).Ok? {
      var inputs := Resolve(s, drawn, hosts);
      KeyedKeys(hosts, HostConfigs(c, s, inputs, CfgsyncBase(c, s, inputs, hosts), hosts));
    }
  }

  // --------------------------------------------- each configuration by itself

  /** The ids a server works with: those it was given, or freshly drawn ones. */
  function IdsFor(s: CfgsyncInputs, drawn: Drawn): (ids: seq<NodeId>) {
    if s.ids.Some? then s.ids.value else drawn.ids
  }

  /** Every service of the node listens where this host is reached, under the identities that come from `id`. */
  ghost predicate ServesHost(c: Suite, config: NodeConfig, host: Host, id: NodeId, params: DaParams) {
    && config.network.nodeKey == config.da.signer == config.blend.signer == id
    && config.da.zkSecret == config.blend.zkSecret == c.seedOf(c.edPublic(id))
    && config.da.peerId == c.peerOf(id)
    && config.kms == {Ed25519(id), Zk(c.seedOf(c.edPublic(id)))}
    && config.network.port == host.networkPort
    && config.network.external == Some(Address(host.ip, host.networkPort))
    && config.da.listening == Address(0, host.daPort)
    && config.blend.listening == Address(0, host.blendPort)
    && config.api == ApiConfig(Address(0, host.apiPort), Address(0, host.testingPort))
    && config.da.minDispersalPeers == (if host.kind.Executor? then params.minDispersalPeers else 0)
    && forall k :: k in config.da.verifierIndex <==> k in config.da.membership && c.peerOf(id) in config.da.membership[k]
  }

  /** The leader key is the one the node's stake in its own genesis is paid to. */
  ghost predicate OwnsStake(c: Suite, config: NodeConfig, ids: seq<NodeId>, i: nat) {
    && i < |ids| && 3 * |ids| <= |config.genesis.outputs|
    && config.genesis.outputs[3 * i] == Note(1000, config.leaderKey.0)
    && config.leaderKey.0 == c.zkPublic(config.leaderKey.1)
    && config.leaderKey.1 == Secret(ids, Leader(i))
  }

  /** The place of a host in what is handed out. */
  lemma HandedAt(c: Suite, s: CfgsyncInputs, drawn: Drawn, arrived: seq<Host>, i: nat)
    requires DrawnFor(s, drawn) && DistinctHosts(arrived)
    requires NodeConfigsFor(c, s, drawn, arrived).Ok? && i < |arrived|
    ensures var hosts := SortHosts(arrived);
      var inputs, handed := Resolve(s, drawn, hosts), NodeConfigsFor(c, s, drawn, arrived).value;
      && |hosts| == |arrived| && Aligned(|hosts|, inputs) && inputs.ids == IdsFor(s, drawn)
      && hosts[i] in handed
      && handed[hosts[i]] == HostConfig(c, s, inputs, CfgsyncBase(c, s, inputs, hosts), hosts, i)
  {
    var hosts := SortHosts(arrived);
    var inputs := Resolve(s, drawn, hosts);
    SortKeepsDistinct(arrived);
    KeyedAt(hosts, HostConfigs(c, s, inputs, CfgsyncBase(c, s, inputs, hosts), hosts), i);
  }

  /** Whatever a server was set up with, the `i`-th host in order is served under the `i`-th id, and owns its stake. */
  lemma HandedServes(c: Suite, s: CfgsyncInputs, drawn: Drawn, arrived: seq<Host>, i: nat)
    requires DrawnFor(s, drawn) && DistinctHosts(arrived)
    requires NodeConfigsFor(c, s, drawn, arrived).Ok? && i < |arrived|
    ensures var hosts, handed, ids := SortHosts(arrived), NodeConfigsFor(c, s, drawn, arrived).value, IdsFor(s, drawn);
      && |hosts| == |arrived| == |ids| && hosts[i] in handed
      && ServesHost(c, handed[hosts[i]], hosts[i], ids[i], s.daParams)
      && OwnsStake(c, handed[hosts[i]], ids, i)
      && handed[hosts[i]].da.membership == Assigned(PeerIds(c, ids), s.daParams)
  {
    HandedAt(c, s, drawn, arrived, i);
    KeysOwnNotes(c, IdsFor(s, drawn), s.accounts, i);
  }

  /** Where a configuration is reached: its host's address, the port it listens on, and the peer of its key. */
  function ReachedAt(c: Suite, host: Host, config: NodeConfig): (a: PeerGraph.Multiaddr) {
    PeerGraph.PeerAddr(host.ip, config.network.port, c.peerOf(config.network.nodeKey))
  }

  /** Among the configurations handed out, the first host dials nobody and the others exactly where the first is reached. */
  lemma HandedDialsReach(c: Suite, s: CfgsyncInputs, drawn: Drawn, arrived: seq<Host>, i: nat)
    requires DrawnFor(s, drawn) && DistinctHosts(arrived)
    requires NodeConfigsFor(c, s, drawn, arrived).Ok? && i < |arrived|
    ensures var hosts, handed := SortHosts(arrived), NodeConfigsFor(c, s, drawn, arrived).value;
      && |hosts| == |arrived| && hosts[0] in handed && hosts[i] in handed
      && handed[hosts[i]].network.initialPeers ==
        if i == 0 then [] else [ReachedAt(c, hosts[0], handed[hosts[0]])]
  {
    var hosts := SortHosts(arrived);
    HandedAt(c, s, drawn, arrived, 0);
    HandedAt(c, s, drawn, arrived, i);
    HostsDialTheFirst(c, s, Resolve(s, drawn, hosts), hosts, i);
  }

  /** Which check fails, in this order: hosts, ids, DA ports, blend ports, and last an empty cluster. */
  lemma CreationFailsExactly(c: Suite, s: CfgsyncInputs, drawn: Drawn, arrived: seq<Host>)
    requires DrawnFor(s, drawn)
    ensures var n, r := s.participants, NodeConfigsFor(c, s, drawn, arrived);
      var idsFit := s.ids.Some? ==> |s.ids.value| == n;
      var daFit := s.daPorts.Some? ==> |s.daPorts.value| == n;
      var blendFit := s.blendPorts.Some? ==> |s.blendPorts.value| == n;
      && (|arrived| != n ==> r == Err(HostCountMismatch(|arrived|, n)))
      && (|arrived| == n && !idsFit ==> r == Err(IdCountMismatch(|s.ids.value|, n)))
      && (|arrived| == n && idsFit && !daFit ==> r == Err(DaPortCountMismatch(|s.daPorts.value|, n)))
      && (|arrived| == n && idsFit && daFit && !blendFit ==> r == Err(BlendPortCountMismatch(|s.blendPorts.value|, n)))
      && (|arrived| == n && idsFit && daFit && blendFit ==> (r == Err(NoParticipants) <==> n == 0) && (r.Ok? <==> n > 0))
  {
    Sorting.SortPermutes(HostKey, arrived);
  }

  /** Where node `i` of a topology is reached: its own host, the port it listens on. */
  function LocalReach(config: NodeConfig): (a: PeerGraph.Multiaddr) {
    PeerGraph.Multiaddr(0x7F00_0001, config.network.port)
  }

  ghost predicate NodeServes(c: Suite, cfg: TopologyConfig, inputs: Inputs, node: GeneratedNode, i: nat)
    requires Aligned(|inputs.ids|, inputs) && i < |inputs.ids|
  {
    var config, id, local := node.config, inputs.ids[i], 0x7F00_0001;
    && node.id == config.network.nodeKey == config.da.signer == config.blend.signer == id
    && config.da.zkSecret == config.blend.zkSecret == c.seedOf(c.edPublic(id))
    && config.da.peerId == c.peerOf(id)
    && node.daPort == inputs.daPorts[i] && config.da.listening == Address(local, node.daPort)
    && node.blendPort == inputs.blendPorts[i] && config.blend.listening == Address(local, node.blendPort)
    && config.network.port == inputs.networkPorts[i]
    && config.network.external == (if cfg.autonat then None else Some(Address(local, config.network.port)))
    && config.api == ApiConfig(Address(local, inputs.apiPorts[i].api), Address(local, inputs.apiPorts[i].testing))
    && config.da.minDispersalPeers == cfg.daParams.minDispersalPeers
    && (forall k :: k in config.da.verifierIndex <==> k in config.da.membership && c.peerOf(id) in config.da.membership[k])
    && config.da.membership == Assigned(PeerIds(c, inputs.ids), cfg.daParams)
    && forall key :: key in config.kms <==>
      || key == Ed25519(id) || key == Zk(c.seedOf(c.edPublic(id)))
      || exists k :: 0 <= k < |cfg.accounts| && key == Zk(cfg.accounts[k].secretKey)
  }

  /** The topology's own configurations: every node listens where its neighbours and its declarations say, and owns its stake. */
  lemma TopologyNodeServes(c: Suite, cfg: TopologyConfig, inputs: Inputs, i: nat)
    requires cfg.validators + cfg.executors > 0 && Aligned(cfg.validators + cfg.executors, inputs)
    requires i < cfg.validators + cfg.executors
    ensures var topology := TopologyFor(c, cfg, inputs);
      && topology.Ok? && i < |topology.value.validators + topology.value.executors|
      && var node := (topology.value.validators + topology.value.executors)[i];
      && NodeServes(c, cfg, inputs, node, i)
      && OwnsStake(c, node.config, inputs.ids, i)
  {
    TopologyIsItsNodes(c, cfg, inputs);
    KeysOwnNotes(c, inputs.ids, cfg.accounts, i);
  }

  /** With distinct ports, node `i` of a topology dials where node `j` is reached exactly when the layout has it know `j`. */
  lemma TopologyDialsAsLaidOut(c: Suite, cfg: TopologyConfig, inputs: Inputs, i: nat, j: nat)
    requires cfg.validators + cfg.executors > 0 && Aligned(cfg.validators + cfg.executors, inputs)
    requires i < cfg.validators + cfg.executors && j < cfg.validators + cfg.executors
    requires PeerGraph.DistinctPorts(inputs.networkPorts)
    ensures var topology := TopologyFor(c, cfg, inputs);
      && topology.Ok? && |topology.value.validators + topology.value.executors| == cfg.validators + cfg.executors
      && var nodes := topology.value.validators + topology.value.executors;
      LocalReach(nodes[j].config) in nodes[i].config.network.initialPeers <==> PeerGraph.Knows(cfg.layout, i, j)
  {
    TopologyIsItsNodes(c, cfg, inputs);
    PeerGraph.LayoutAddresses(cfg.layout, inputs.networkPorts, i, j);
  }

  /** The locator of each declaration in a topology is where the declaring node's service listens. */
  lemma TopologyLocators(c: Suite, cfg: TopologyConfig, inputs: Inputs, i: nat)
    requires cfg.validators + cfg.executors > 0 && Aligned(cfg.validators + cfg.executors, inputs)
    requires i < cfg.validators + cfg.executors
    ensures var topology, n := TopologyFor(c, cfg, inputs), cfg.validators + cfg.executors;
      && topology.Ok? && i < |topology.value.validators + topology.value.executors|
      && var config := (topology.value.validators + topology.value.executors)[i].config;
      && |config.genesis.ops| == 2 * n + 1
      && config.genesis.ops[i + 1].SDPDeclare? && config.genesis.ops[i + 1].declaration.locator == config.da.listening
      && config.genesis.ops[n + i + 1].SDPDeclare?
      && config.genesis.ops[n + i + 1].declaration.locator == config.blend.listening
  {
    TopologyIsItsNodes(c, cfg, inputs);
    var da, blend := LocalAddresses(inputs.daPorts), LocalAddresses(inputs.blendPorts);
    DeclarationsNameTheirNodes(c, inputs.ids, cfg.accounts, da, blend, i);
    DeclarationsNameTheirNodes(c, inputs.ids, cfg.accounts, da, blend, |inputs.ids| + i);
  }

  /** Building a topology fails only on an empty one, or on lists that do not fit it. */
  lemma TopologyFailsExactly(c: Suite, cfg: TopologyConfig, inputs: Inputs)
    ensures var n, r := cfg.validators + cfg.executors, TopologyFor(c, cfg, inputs);
      && (r == Err(EmptyTopology) <==> n == 0)
      && (r.Ok? <==> (
            && n > 0 && |inputs.ids| == |inputs.daPorts| == |inputs.blendPorts| == n
            && |inputs.networkPorts| == |inputs.apiPorts| == n))
      && (r.Err? ==> r == Err(EmptyTopology) || r == Err(CountMismatch))
  {
  }
}
