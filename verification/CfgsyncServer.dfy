/** The rendezvous of `ConfigRepo` serving the configurations of `NodeConfigs`. */
module CfgsyncServer {
  import opened Wrappers
  import opened Hosts
  import opened Genesis
  import opened NodeConfigs
  import HostMaps
  import Repo = ConfigRepo

  function ServerSetup(c: Suite, s: CfgsyncInputs, drawn: Drawn): (setup: Repo.Setup<NodeConfig>)
    requires DrawnFor(s, drawn)
  {
    Repo.Setup(s.participants, (arrived: seq<Host>) =>
      match NodeConfigsFor(c, s, drawn, arrived)
      case Ok(configs) => Some(configs)
      case Err(_) => None)
  }

  lemma ServerSetupIsValid(c: Suite, s: CfgsyncInputs, drawn: Drawn)
    requires DrawnFor(s, drawn)
    ensures Repo.ValidSetup(ServerSetup(c, s, drawn))
  {
    forall arrived | ServerSetup(c, s, drawn).build(arrived).Some?
      ensures |arrived| == s.participants
      ensures forall h :: h in ServerSetup(c, s, drawn).build(arrived).value <==> h in arrived
    {
      OnlyExactHostCount(c, s, drawn, arrived);
    }
  }

  /**
   * The release goes through exactly when precisely the expected number of
   * hosts waits; one host more, registered after the last poll, makes it panic.
   */
  lemma ReleaseNeedsExactCount(c: Suite, s: CfgsyncInputs, drawn: Drawn, waiting: map<Host, Repo.Sender>, arrived: seq<Host>)
    requires DrawnFor(s, drawn) && ListsSized(s) && s.participants > 0
    requires Repo.Enumerates(arrived, waiting.Keys)
    ensures ServerSetup(c, s, drawn).build(arrived).Some? <==> |waiting| == s.participants
  {
    Repo.EnumeratesLength(arrived, waiting.Keys);
    OnlyExactHostCount(c, s, drawn, arrived);
  }

  /**
   * In every run a release panics exactly when more hosts wait than the server
   * was set up for: one that registers after the last poll is enough.
   */
  lemma ReleasePanicsIffOvertaken(c: Suite, s: CfgsyncInputs, drawn: Drawn,
                                  states: seq<Repo.State<NodeConfig>>, events: seq<Repo.Event>, k: nat)
    requires DrawnFor(s, drawn) && ListsSized(s) && s.participants > 0
    requires Repo.ValidSetup(ServerSetup(c, s, drawn)) && Repo.Run(ServerSetup(c, s, drawn), states, events)
    requires k < |events| && events[k].Release?
    ensures states[k + 1].phase == Repo.Poisoned <==> |states[k].waiting| > s.participants
    ensures states[k + 1].phase == Repo.Released <==> |states[k].waiting| == s.participants
  {
    var setup := ServerSetup(c, s, drawn);
    Repo.RunKeepsInv(setup, states, events, k);
    Repo.RunSteps(setup, states, events, k);
    ReleaseNeedsExactCount(c, s, drawn, states[k].waiting, events[k].arrived);
  }

  /** `n` validators, told apart by their first port. */
  function SomeHosts(n: nat): (hosts: seq<Host>)
    ensures |hosts| == n && HostMaps.DistinctHosts(hosts)
  {
    seq(n, i requires 0 <= i < n => Host(Validator, 0, Identifier(Validator, i), i, 0, 0, 0, 0))
  }

  /** Whatever a server is set up with, some run ends in that panic, with everybody waiting for ever. */
  lemma PanicIsReachable(c: Suite, s: CfgsyncInputs, drawn: Drawn)
      returns (states: seq<Repo.State<NodeConfig>>, events: seq<Repo.Event>)
    requires DrawnFor(s, drawn)
    ensures Repo.ValidSetup(ServerSetup(c, s, drawn)) && Repo.Run(ServerSetup(c, s, drawn), states, events)
    ensures states[|events|].phase == Repo.Poisoned && |states[|events|].waiting| == s.participants + 1
  {
    ServerSetupIsValid(c, s, drawn);
    var hosts := SomeHosts(s.participants + 1);
    Repo.QueueHolds(hosts);
    states, events := Repo.OvertakenRelease(ServerSetup(c, s, drawn), hosts);
  }

  lemma {:induction false} SameElements(a: seq<Host>, b: seq<Host>, keys: set<Host>)
    requires Repo.Enumerates(a, keys) && Repo.Enumerates(b, keys)
    ensures multiset(a) == multiset(b)
    decreases |a|
  {
    Repo.EnumeratesLength(a, keys);
    Repo.EnumeratesLength(b, keys);
    forall h ensures multiset(a)[h] == multiset(b)[h] {
      CountsOnce(a, keys, h);
      CountsOnce(b, keys, h);
    }
  }

  lemma {:induction false} CountsOnce(order: seq<Host>, keys: set<Host>, h: Host)
    requires Repo.Enumerates(order, keys)
    ensures multiset(order)[h] == if h in keys then 1 else 0
    decreases |order|
  {
    if order != [] {
      var k := |order| - 1;
      assert order == order[..k] + [order[k]];
      assert Repo.Enumerates(order[..k], keys - {order[k]});
      CountsOnce(order[..k], keys - {order[k]}, h);
    }
  }

  /**
   * End to end: when exactly the hosts of a topology wait, in whatever order
   * they came, the release answers every one of them with the configuration
   * that deploys the topology node of its role and index.
   */
  lemma ReleaseDeploysTopology(c: Suite, cfg: TopologyConfig, inputs: Inputs, drawn: Drawn,
                               hosts: seq<Host>, s: Repo.State<NodeConfig>, e: Repo.Event, i: nat)
    requires cfg.validators + cfg.executors > 0
    requires Aligned(cfg.validators + cfg.executors, inputs)
    requires DrawnFor(OverridesFor(cfg, inputs), drawn)
    requires RoleOrdered(hosts, cfg.validators, cfg.executors) && i < |hosts|
    requires Repo.Enumerates(hosts, s.waiting.Keys) && e.Release? && Repo.Enabled(s, e)
    ensures Repo.ValidSetup(ServerSetup(c, OverridesFor(cfg, inputs), drawn)) && hosts[i] in s.waiting
    ensures var topology := TopologyFor(c, cfg, inputs);
      var handed := NodeConfigsFor(c, OverridesFor(cfg, inputs), drawn, e.arrived);
      var after := Repo.Apply(ServerSetup(c, OverridesFor(cfg, inputs), drawn), s, e);
      && topology.Ok? && handed.Ok? && hosts[i] in handed.value
      && |topology.value.validators + topology.value.executors| == |hosts|
      && Deploys(cfg, hosts[i], handed.value[hosts[i]], (topology.value.validators + topology.value.executors)[i])
      && after.phase == Repo.Released && after.waiting == map[]
      && (s.waiting[hosts[i]], Repo.Config(handed.value[hosts[i]])) in after.replies
  {
    var server := OverridesFor(cfg, inputs);
    var setup := ServerSetup(c, server, drawn);
    ServerSetupIsValid(c, server, drawn);
    SameElements(e.arrived, hosts, s.waiting.Keys);
    HostDeploysNode(c, cfg, inputs, drawn, e.arrived, hosts, i);
    assert hosts[i] in hosts;
    Repo.WaitersAnswered(setup, s, e, hosts[i]);
  }

  /**
   * Over every run: if at the release exactly the hosts of a topology wait, then
   * whatever configuration the current sender of host `i` is answered with
   * deploys the topology node of its role and index.
   */
  lemma ReplyDeploysNode(c: Suite, cfg: TopologyConfig, inputs: Inputs, drawn: Drawn, hosts: seq<Host>, i: nat,
                         states: seq<Repo.State<NodeConfig>>, events: seq<Repo.Event>, k: nat, config: NodeConfig)
    requires cfg.validators + cfg.executors > 0
    requires Aligned(cfg.validators + cfg.executors, inputs)
    requires DrawnFor(OverridesFor(cfg, inputs), drawn)
    requires RoleOrdered(hosts, cfg.validators, cfg.executors) && i < |hosts|
    requires var setup := ServerSetup(c, OverridesFor(cfg, inputs), drawn);
      Repo.ValidSetup(setup) && Repo.Run(setup, states, events)
    requires k < |events| && events[k].Release? && Repo.Enumerates(hosts, states[k].waiting.Keys)
    requires hosts[i] in states[k].waiting
    requires (states[k].waiting[hosts[i]], Repo.Config(config)) in states[k + 1].replies
    ensures var topology := TopologyFor(c, cfg, inputs);
      && topology.Ok? && |topology.value.validators + topology.value.executors| == |hosts|
      && Deploys(cfg, hosts[i], config, (topology.value.validators + topology.value.executors)[i])
  {
    var setup := ServerSetup(c, OverridesFor(cfg, inputs), drawn);
    Repo.RunSteps(setup, states, events, k);
    ReleaseDeploysTopology(c, cfg, inputs, drawn, hosts, states[k], events[k], i);
    Repo.RunSafe(setup, states, events, k + 1);
    var handed := NodeConfigsFor(c, OverridesFor(cfg, inputs), drawn, events[k].arrived);
    OneAnswer(states[k + 1], states[k].waiting[hosts[i]], Repo.Config(config), Repo.Config(handed.value[hosts[i]]));
  }

  lemma OneAnswer(s: Repo.State<NodeConfig>, sender: Repo.Sender, a: Repo.Reply<NodeConfig>, b: Repo.Reply<NodeConfig>)
    requires Repo.AnsweredOnce(s) && (sender, a) in s.replies && (sender, b) in s.replies
    ensures a == b
  {
    var i :| 0 <= i < |s.replies| && s.replies[i] == (sender, a);
    var j :| 0 <= j < |s.replies| && s.replies[j] == (sender, b);
    assert i == j;
  }
}
