/**
 * The subnetwork assignations all the way: from the ids of a topology, through
 * the rendezvous and the edited JSON, into the client on each host.
 */
module Assignations {
  import opened Wrappers
  import opened Integers
  import opened Counting
  import opened Mantle
  import opened Genesis
  import opened DaMembership
  import opened Hosts
  import opened NodeConfigs
  import opened CfgsyncServer
  import Json
  import JsonConfig
  import Repo = ConfigRepo

  lemma DeployedMembership(c: Suite, cfg: TopologyConfig, inputs: Inputs, host: Host, config: NodeConfig, i: nat)
    requires cfg.validators + cfg.executors > 0 && Aligned(cfg.validators + cfg.executors, inputs)
    requires i < cfg.validators + cfg.executors
    requires var topology := TopologyFor(c, cfg, inputs);
      && topology.Ok? && i < |topology.value.validators + topology.value.executors|
      && Deploys(cfg, host, config, (topology.value.validators + topology.value.executors)[i])
    ensures config.da.membership == Assigned(PeerIds(c, inputs.ids), cfg.daParams)
    ensures forall id :: id in config.da.membership ==> id < U16_LIMIT
  {
    TopologyIsItsNodes(c, cfg, inputs);
  }

  /**
   * Over every run of the rendezvous, for every JSON form with a membership
   * object: from what the host `i` of a topology is sent, its client recovers
   * exactly the round-robin assignment of the topology's peers.
   */
  lemma ClientRecoversAssignment(
      c: Suite, cfg: TopologyConfig, inputs: Inputs, drawn: Drawn, hosts: seq<Host>, i: nat,
      states: seq<Repo.State<NodeConfig>>, events: seq<Repo.Event>, k: nat, config: NodeConfig,
      codec: JsonConfig.PeerCodec, v: Json.Json, api: Option<nat>, testing: Option<nat>,
      fields: map<string, Json.Json>, r: Option<Membership>)
    requires cfg.validators + cfg.executors > 0
    requires Aligned(cfg.validators + cfg.executors, inputs)
    requires DrawnFor(OverridesFor(cfg, inputs), drawn)
    requires RoleOrdered(hosts, cfg.validators, cfg.executors) && i < |hosts|
    requires var setup := ServerSetup(c, OverridesFor(cfg, inputs), drawn);
      Repo.ValidSetup(setup) && Repo.Run(setup, states, events)
    requires k < |events| && events[k].Release? && Repo.Enumerates(hosts, states[k].waiting.Keys)
    requires hosts[i] in states[k].waiting
    requires (states[k].waiting[hosts[i]], Repo.Config(config)) in states[k + 1].replies
    requires JsonConfig.Faithful(codec) && JsonConfig.Encodes(codec, fields, config.da.membership)
    requires match JsonConfig.AssignationFields(JsonConfig.Served(v, api, testing, Json.JObject(fields)))
      case None => r == None
      case Some(found) => JsonConfig.ParsesTo(codec, found, r)
    ensures r == if JsonConfig.HasMembership(v) then Some(Assigned(PeerIds(c, inputs.ids), cfg.daParams)) else None
  {
    ReplyDeploysNode(c, cfg, inputs, drawn, hosts, i, states, events, k, config);
    DeployedMembership(c, cfg, inputs, hosts[i], config, i);
    JsonConfig.ServedRoundTrip(codec, v, api, testing, config.da.membership, fields, r);
  }
}
