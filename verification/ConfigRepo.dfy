/**
 * The cfgsync rendezvous. Hosts register, each with a one-shot reply channel;
 * a background task polls until enough hosts wait and then answers them all, or
 * gives up after a timeout. Registrations run concurrently with it and may
 * fall between its last poll and the release, so every interleaving of the four
 * kinds of step is a run.
 */
module ConfigRepo {
  import opened Wrappers
  import opened Hosts
  import opened HostMaps
  import Counting

  /** A reply channel, identified by when it was created. */
  type Sender = nat

  datatype Reply<C> = Config(config: C) | Timeout

  /** `Poisoned`: the release panicked while holding the lock. */
  datatype Phase = Polling | Ready | Released | TimedOut | Poisoned

  /** The number of hosts to wait for, and what building their configurations yields; `None` is a panic. */
  datatype Setup<C> = Setup(participants: nat, build: seq<Host> -> Option<map<Host, C>>)

  datatype State<C> =
    State(waiting: map<Host, Sender>, phase: Phase, replies: seq<(Sender, Reply<C>)>, issued: set<Sender>)

  function Init<C>(): (s: State<C>) {
    State(map[], Polling, [], {})
  }

  /** The order in which the map hands out its keys and is drained is up to the map. */
  datatype Event =
    | Register(host: Host, sender: Sender)
    | Check
    | Release(arrived: seq<Host>, drained: seq<Host>)
    | Expire(drained: seq<Host>)

  ghost predicate Enumerates(order: seq<Host>, keys: set<Host>) {
    && (forall h :: h in order <==> h in keys)
    && (forall i, j :: 0 <= i < j < |order| ==> order[i] != order[j])
  }

  /** Building succeeds only for the expected number of hosts, and then covers exactly those hosts. */
  ghost predicate ValidSetup<C(!new)>(setup: Setup<C>) {
    forall arrived :: setup.build(arrived).Some? ==>
      && |arrived| == setup.participants
      && forall h :: h in setup.build(arrived).value <==> h in arrived
  }

  ghost predicate Enabled<C>(s: State<C>, e: Event) {
    match e
    case Register(_, sender) => sender !in s.issued
    case Check => s.phase == Polling
    case Release(arrived, drained) =>
      s.phase == Ready && Enumerates(arrived, s.waiting.Keys) && Enumerates(drained, s.waiting.Keys)
    case Expire(drained) => s.phase == Polling && Enumerates(drained, s.waiting.Keys)
  }

  function Answers<C>(waiting: map<Host, Sender>, drained: seq<Host>, reply: map<Host, Reply<C>>): (r: seq<(Sender, Reply<C>)>)
    requires forall i :: 0 <= i < |drained| ==> drained[i] in waiting && drained[i] in reply
    ensures |r| == |drained|
  {
    seq(|drained|, i requires 0 <= i < |drained| => (waiting[drained[i]], reply[drained[i]]))
  }

  function TimeoutReplies<C>(keys: set<Host>): (m: map<Host, Reply<C>>)
    ensures m.Keys == keys
  {
    map h | h in keys :: Timeout
  }

  function ConfigReplies<C>(configs: map<Host, C>): (m: map<Host, Reply<C>>)
    ensures m.Keys == configs.Keys
  {
    map h | h in configs :: Config(configs[h])
  }

  /** What a step does. A panicking release leaves the waiting hosts where they are. */
  ghost function Apply<C(!new)>(setup: Setup<C>, s: State<C>, e: Event): (r: State<C>)
    requires ValidSetup(setup) && Enabled(s, e)
  {
    match e
    case Register(host, sender) =>
      if s.phase == Poisoned then s.(issued := s.issued + {sender})
      else s.(waiting := s.waiting[host := sender], issued := s.issued + {sender})
    case Check =>
      if |s.waiting| >= setup.participants then s.(phase := Ready) else s
    case Release(arrived, drained) => (
      match setup.build(arrived)
      case None => s.(phase := Poisoned)
      case Some(configs) =>
        State(map[], Released, s.replies + Answers(s.waiting, drained, ConfigReplies(configs)), s.issued))
    case Expire(drained) =>
      State(map[], TimedOut, s.replies + Answers(s.waiting, drained, TimeoutReplies(s.waiting.Keys)), s.issued)
  }

  // --------------------------------------------------------- the repository

  method Enumerate(keys: set<Host>) returns (order: seq<Host>)
    ensures Enumerates(order, keys)
  {
    order := [];
    var todo := keys;
    while todo != {}
      invariant todo <= keys && Enumerates(order, keys - todo)
      decreases |todo|
    {
      var h :| h in todo;
      todo := todo - {h};
      order := order + [h];
    }
  }

  class Repo<C(!new)> {
    const setup: Setup<C>
    var waiting: map<Host, Sender>
    var phase: Phase
    var replies: seq<(Sender, Reply<C>)>
    ghost var issued: set<Sender>

    constructor (setup: Setup<C>)
      requires ValidSetup(setup)
      ensures this.setup == setup && View() == Init()
    {
      this.setup := setup;
      waiting, phase, replies, issued := map[], Polling, [], {};
    }

    ghost function View(): (s: State<C>)
      reads this
    {
      State(waiting, phase, replies, issued)
    }

    /** A registering handler; on a poisoned lock it panics and leaves no trace. */
    method Register(host: Host, sender: Sender)
      requires ValidSetup(setup) && Enabled(View(), Event.Register(host, sender))
      modifies this
      ensures View() == Apply(setup, old(View()), Event.Register(host, sender))
    {
      if phase != Poisoned {
        waiting := waiting[host := sender];
      }
      issued := issued + {sender};
    }

    /** One round of `wait_for_hosts`. */
    method Poll() returns (ready: bool)
      requires ValidSetup(setup) && Enabled(View(), Check)
      modifies this
      ensures View() == Apply(setup, old(View()), Check)
      ensures ready == (|old(waiting)| >= setup.participants)
      ensures phase == (if ready then Ready else Polling) && waiting == old(waiting) && replies == old(replies)
    {
      ready := |waiting| >= setup.participants;
      if ready {
        phase := Ready;
      }
    }

    /** The success branch of `run`. */
    method Release() returns (ghost e: Event)
      requires ValidSetup(setup) && phase == Ready
      modifies this
      ensures e.Release? && Enabled(old(View()), e) && View() == Apply(setup, old(View()), e)
    {
      var arrived := Enumerate(waiting.Keys);
      var drained := Enumerate(waiting.Keys);
      e := Event.Release(arrived, drained);
      match setup.build(arrived) {
        case None =>
          phase := Poisoned;
        case Some(configs) =>
          Drain(drained, ConfigReplies(configs));
          phase := Released;
      }
    }

    /** The timeout branch of `run`. */
    method Expire() returns (ghost e: Event)
      requires ValidSetup(setup) && phase == Polling
      modifies this
      ensures e.Expire? && Enabled(old(View()), e) && View() == Apply(setup, old(View()), e)
    {
      var drained := Enumerate(waiting.Keys);
      e := Event.Expire(drained);
      Drain(drained, TimeoutReplies(waiting.Keys));
      phase := TimedOut;
    }

    /** Takes every waiting host out of the map and answers its channel. */
    method Drain(drained: seq<Host>, reply: map<Host, Reply<C>>)
      requires Enumerates(drained, waiting.Keys)
      requires forall i :: 0 <= i < |drained| ==> drained[i] in waiting && drained[i] in reply
      modifies `waiting, `replies
      ensures waiting == map[]
      ensures replies == old(replies) + Answers(old(waiting), drained, reply)
    {
      var taken := waiting;
      waiting := map[];
      ghost var all := Answers(taken, drained, reply);
      for i := 0 to |drained|
        invariant waiting == map[]
        invariant replies == old(replies) + all[..i]
      {
        replies := replies + [(taken[drained[i]], reply[drained[i]])];
      }
      assert all[..|drained|] == all;
    }
  }

  // ------------------------------------------------------------------- safety

  ghost predicate Answered<C(!new)>(s: State<C>, sender: Sender) {
    exists i :: 0 <= i < |s.replies| && s.replies[i].0 == sender
  }

  ghost predicate AnsweredOnce<C(!new)>(s: State<C>) {
    forall i, j :: 0 <= i < j < |s.replies| ==> s.replies[i].0 != s.replies[j].0
  }

  ghost predicate WaitingApart<C(!new)>(s: State<C>) {
    && (forall h :: h in s.waiting ==> s.waiting[h] in s.issued && !Answered(s, s.waiting[h]))
    && (forall h, k :: h in s.waiting && k in s.waiting && h != k ==> s.waiting[h] != s.waiting[k])
  }

  /** Replies of a run are all configurations, exactly as many as hosts were expected, or all timeouts. */
  ghost predicate RepliesFit<C(!new)>(setup: Setup<C>, s: State<C>) {
    match s.phase
    case Released =>
      && |s.replies| == setup.participants
      && forall i :: 0 <= i < |s.replies| ==> s.replies[i].1.Config?
    case TimedOut => forall i :: 0 <= i < |s.replies| ==> s.replies[i].1 == Timeout
    case _ => s.replies == []
  }

  ghost predicate Inv<C(!new)>(setup: Setup<C>, s: State<C>) {
    && AnsweredOnce(s)
    && (forall i :: 0 <= i < |s.replies| ==> s.replies[i].0 in s.issued)
    && WaitingApart(s)
    && RepliesFit(setup, s)
    && (s.phase == Ready ==> |s.waiting| >= setup.participants)
  }

  lemma {:induction false} EnumeratesLength(order: seq<Host>, keys: set<Host>)
    requires Enumerates(order, keys)
    ensures |order| == |keys|
    decreases |order|
  {
    if order == [] {
      if h :| h in keys { assert h in order; }
    } else {
      var k := |order| - 1;
      assert order == order[..k] + [order[k]];
      assert Enumerates(order[..k], keys - {order[k]});
      EnumeratesLength(order[..k], keys - {order[k]});
      assert order[k] in keys;
    }
  }

  /** Draining answers the current sender of every waiting host, each exactly once. */
  lemma DrainAnswersAll<C(!new)>(waiting: map<Host, Sender>, drained: seq<Host>, reply: map<Host, Reply<C>>, h: Host)
    requires Enumerates(drained, waiting.Keys) && h in waiting
    requires forall i :: 0 <= i < |drained| ==> drained[i] in waiting && drained[i] in reply
    ensures exists i :: 0 <= i < |drained| && Answers(waiting, drained, reply)[i] == (waiting[h], reply[h])
  {
    assert h in drained;
    var i :| 0 <= i < |drained| && drained[i] == h;
    assert Answers(waiting, drained, reply)[i] == (waiting[h], reply[h]);
  }

  lemma DrainKeepsOnce<C(!new)>(s: State<C>, drained: seq<Host>, reply: map<Host, Reply<C>>)
    requires AnsweredOnce(s) && WaitingApart(s) && Enumerates(drained, s.waiting.Keys)
    requires forall i :: 0 <= i < |s.replies| ==> s.replies[i].0 in s.issued
    requires forall i :: 0 <= i < |drained| ==> drained[i] in s.waiting && drained[i] in reply
    ensures var all := s.replies + Answers(s.waiting, drained, reply);
      && (forall i, j :: 0 <= i < j < |all| ==> all[i].0 != all[j].0)
      && (forall i :: 0 <= i < |all| ==> all[i].0 in s.issued)
  {
    var out := Answers(s.waiting, drained, reply);
    var all := s.replies + out;
    forall i, j | 0 <= i < j < |all| ensures all[i].0 != all[j].0 {
      if j >= |s.replies| {
        var h := drained[j - |s.replies|];
        assert all[j].0 == s.waiting[h];
        if i < |s.replies| {
          assert !Answered(s, s.waiting[h]);
        } else {
          assert drained[i - |s.replies|] != h;
        }
      }
    }
    forall i | |s.replies| <= i < |all| ensures all[i].0 in s.issued {
      assert all[i].0 == s.waiting[drained[i - |s.replies|]];
    }
  }

  /** Every step of every interleaving keeps the invariant. */
  lemma StepKeepsInv<C(!new)>(setup: Setup<C>, s: State<C>, e: Event)
    requires ValidSetup(setup) && Inv(setup, s) && Enabled(s, e)
    ensures Inv(setup, Apply(setup, s, e))
  {
    match e
    case Register(host, sender) =>
      RegisterKeepsInv(setup, s, host, sender);
    case Check =>
    case Release(arrived, drained) =>
      match setup.build(arrived) {
        case None =>
        case Some(configs) =>
          EnumeratesLength(arrived, s.waiting.Keys);
          EnumeratesLength(drained, s.waiting.Keys);
          DrainKeepsOnce(s, drained, ConfigReplies(configs));
      }
    case Expire(drained) =>
      DrainKeepsOnce(s, drained, TimeoutReplies(s.waiting.Keys));
  }

  lemma RegisterKeepsInv<C(!new)>(setup: Setup<C>, s: State<C>, host: Host, sender: Sender)
    requires ValidSetup(setup) && Inv(setup, s) && sender !in s.issued
    ensures Inv(setup, Apply(setup, s, Event.Register(host, sender)))
  {
    var r := Apply(setup, s, Event.Register(host, sender));
    assert r.waiting.Keys >= s.waiting.Keys;
    Counting.SubsetCardinality(s.waiting.Keys, r.waiting.Keys);
    assert |s.waiting| == |s.waiting.Keys| && |r.waiting| == |r.waiting.Keys|;
    forall h | h in r.waiting ensures r.waiting[h] in r.issued && !Answered(r, r.waiting[h]) {
      if r.waiting[h] != sender {
        assert h in s.waiting && r.waiting[h] == s.waiting[h];
        assert !Answered(s, s.waiting[h]);
      }
    }
  }

  // -------------------------------------------------------------- whole runs

  ghost predicate Run<C(!new)>(setup: Setup<C>, states: seq<State<C>>, events: seq<Event>)
    requires ValidSetup(setup)
  {
    && |states| == |events| + 1
    && states[0] == Init()
    && forall i {:trigger StepsAt(setup, states, events, i)} :: 0 <= i < |events| ==> StepsAt(setup, states, events, i)
  }

  ghost predicate StepsAt<C(!new)>(setup: Setup<C>, states: seq<State<C>>, events: seq<Event>, i: int)
    requires ValidSetup(setup) && |states| == |events| + 1 && 0 <= i < |events|
  {
    Steps(setup, states[i], events[i], states[i + 1])
  }

  ghost predicate Steps<C(!new)>(setup: Setup<C>, s: State<C>, e: Event, r: State<C>)
    requires ValidSetup(setup)
  {
    Enabled(s, e) && r == Apply(setup, s, e)
  }

  lemma RunSteps<C(!new)>(setup: Setup<C>, states: seq<State<C>>, events: seq<Event>, k: nat)
    requires ValidSetup(setup) && Run(setup, states, events) && k < |events|
    ensures Steps(setup, states[k], events[k], states[k + 1])
  {
    assert StepsAt(setup, states, events, k);
  }

  lemma StepsKeepInv<C(!new)>(setup: Setup<C>, s: State<C>, e: Event, r: State<C>)
    requires ValidSetup(setup) && Inv(setup, s) && Steps(setup, s, e, r)
    ensures Inv(setup, r)
  {
    StepKeepsInv(setup, s, e);
  }

  lemma {:induction false} RunKeepsInv<C(!new)>(setup: Setup<C>, states: seq<State<C>>, events: seq<Event>, k: nat)
    requires ValidSetup(setup) && Run(setup, states, events) && k < |states|
    ensures Inv(setup, states[k])
  {
    if k > 0 {
      RunKeepsInv(setup, states, events, k - 1);
      RunSteps(setup, states, events, k - 1);
      StepsKeepInv(setup, states[k - 1], events[k - 1], states[k]);
    }
  }

  /**
   * Safety of every run: no channel is answered twice, all replies are of one
   * kind, and configurations go out only to exactly the expected number of hosts.
   */
  lemma RunSafe<C(!new)>(setup: Setup<C>, states: seq<State<C>>, events: seq<Event>, k: nat)
    requires ValidSetup(setup) && Run(setup, states, events) && k < |states|
    ensures var s := states[k];
      && AnsweredOnce(s)
      && (forall i, j :: 0 <= i < |s.replies| && 0 <= j < |s.replies| ==>
            (s.replies[i].1.Config? <==> s.replies[j].1.Config?))
      && ((exists i :: 0 <= i < |s.replies| && s.replies[i].1.Config?) ==>
            s.phase == Released && |s.replies| == setup.participants)
  {
    RunKeepsInv(setup, states, events, k);
  }

  lemma DrainedReply<C(!new)>(s: State<C>, r: State<C>, drained: seq<Host>, reply: map<Host, Reply<C>>, h: Host)
    requires Enumerates(drained, s.waiting.Keys) && h in s.waiting && s.waiting.Keys <= reply.Keys
    requires r.replies == s.replies + Answers(s.waiting, drained, reply)
    ensures (s.waiting[h], reply[h]) in r.replies && Answered(r, s.waiting[h])
  {
    DrainAnswersAll(s.waiting, drained, reply, h);
    var i :| 0 <= i < |drained| && Answers(s.waiting, drained, reply)[i] == (s.waiting[h], reply[h]);
    assert r.replies[|s.replies| + i] == (s.waiting[h], reply[h]);
  }

  /** A release or a timeout empties the map and answers the current sender of every waiting host. */
  lemma WaitersAnswered<C(!new)>(setup: Setup<C>, s: State<C>, e: Event, h: Host)
    requires ValidSetup(setup) && Enabled(s, e) && h in s.waiting
    requires e.Expire? || (e.Release? && setup.build(e.arrived).Some?)
    ensures var r := Apply(setup, s, e);
      && r.waiting == map[]
      && Answered(r, s.waiting[h])
      && (e.Release? ==>
            h in setup.build(e.arrived).value && (s.waiting[h], Config(setup.build(e.arrived).value[h])) in r.replies)
  {
    var r := Apply(setup, s, e);
    if e.Release? {
      assert h in e.arrived;
      DrainedReply(s, r, e.drained, ConfigReplies(setup.build(e.arrived).value), h);
    } else {
      DrainedReply(s, r, e.drained, TimeoutReplies(s.waiting.Keys), h);
    }
  }

  /** The channel was handed in, but is neither waiting nor answered. */
  ghost predicate Dropped<C(!new)>(s: State<C>, sender: Sender) {
    && sender in s.issued
    && (forall h :: h in s.waiting ==> s.waiting[h] != sender)
    && !Answered(s, sender)
  }

  /** Registering a host again drops the channel it had been waiting on. */
  lemma ReplacedIsDropped<C(!new)>(setup: Setup<C>, s: State<C>, host: Host, sender: Sender)
    requires ValidSetup(setup) && Inv(setup, s) && Enabled(s, Event.Register(host, sender))
    requires host in s.waiting && s.phase != Poisoned
    ensures Dropped(Apply(setup, s, Event.Register(host, sender)), s.waiting[host])
  {
    var r := Apply(setup, s, Event.Register(host, sender));
    var former := s.waiting[host];
    assert former in s.issued && !Answered(s, former);
    forall h | h in r.waiting ensures r.waiting[h] != former {
      if h != host {
        assert r.waiting[h] == s.waiting[h];
      }
    }
    forall i | 0 <= i < |r.replies| ensures r.replies[i].0 != former {
      assert r.replies[i] == s.replies[i];
    }
  }

  /** A dropped channel stays unanswered for the rest of the run. */
  lemma {:induction false} DroppedStaysUnanswered<C(!new)>(setup: Setup<C>, states: seq<State<C>>, events: seq<Event>,
                                                  sender: Sender, from: nat, k: nat)
    requires ValidSetup(setup) && Run(setup, states, events) && from <= k < |states|
    requires Dropped(states[from], sender)
    ensures Dropped(states[k], sender)
    decreases k - from
  {
    if from < k {
      DroppedStaysUnanswered(setup, states, events, sender, from, k - 1);
      RunSteps(setup, states, events, k - 1);
      StepKeepsDropped(setup, states[k - 1], events[k - 1], states[k], sender);
    }
  }

  lemma StepKeepsDropped<C(!new)>(setup: Setup<C>, s: State<C>, e: Event, r: State<C>, sender: Sender)
    requires ValidSetup(setup) && Steps(setup, s, e, r) && Dropped(s, sender)
    ensures Dropped(r, sender)
  {
    match e
    case Register(host, other) =>
      forall h | h in r.waiting ensures r.waiting[h] != sender {
        assert h == host || (h in s.waiting && r.waiting[h] == s.waiting[h]);
      }
      NothingNew(s, r, sender);
    case Check =>
      NothingNew(s, r, sender);
    case Release(arrived, drained) =>
      match setup.build(arrived) {
        case None => NothingNew(s, r, sender);
        case Some(configs) => DrainSkipsDropped(s, r, drained, ConfigReplies(configs), sender);
      }
    case Expire(drained) =>
      DrainSkipsDropped(s, r, drained, TimeoutReplies(s.waiting.Keys), sender);
  }

  lemma NothingNew<C(!new)>(s: State<C>, r: State<C>, sender: Sender)
    requires !Answered(s, sender) && r.replies == s.replies
    ensures !Answered(r, sender)
  {
    forall i | 0 <= i < |r.replies| ensures r.replies[i].0 != sender {
      assert r.replies[i] == s.replies[i];
    }
  }

  lemma DrainSkipsDropped<C(!new)>(s: State<C>, r: State<C>, drained: seq<Host>, reply: map<Host, Reply<C>>, sender: Sender)
    requires Dropped(s, sender) && forall i :: 0 <= i < |drained| ==> drained[i] in s.waiting && drained[i] in reply
    requires r.replies == s.replies + Answers(s.waiting, drained, reply)
    ensures !Answered(r, sender)
  {
    forall i | 0 <= i < |r.replies| ensures r.replies[i].0 != sender {
      if i < |s.replies| {
        assert r.replies[i] == s.replies[i];
      } else {
        assert r.replies[i].0 == s.waiting[drained[i - |s.replies|]];
      }
    }
  }

  /** Once the release has panicked nobody is ever answered. */
  lemma {:induction false} PoisonedIsSilent<C(!new)>(setup: Setup<C>, states: seq<State<C>>, events: seq<Event>, from: nat, k: nat)
    requires ValidSetup(setup) && Run(setup, states, events) && from <= k < |states|
    requires states[from].phase == Poisoned
    ensures states[k].phase == Poisoned && states[k].replies == []
  {
    RunKeepsInv(setup, states, events, k);
    if from < k {
      PoisonedIsSilent(setup, states, events, from, k - 1);
      RunSteps(setup, states, events, k - 1);
    }
  }

  // ------------------------------------------- a release overtaken by a host

  /** The hosts wait with their places as senders. */
  function Queue(hosts: seq<Host>): (waiting: map<Host, Sender>) {
    if hosts == [] then map[]
    else var k := |hosts| - 1; Queue(hosts[..k])[hosts[k] := k]
  }

  lemma {:induction false} QueueKeys(hosts: seq<Host>)
    ensures forall h :: h in Queue(hosts) <==> h in hosts
  {
    if hosts != [] {
      var k := |hosts| - 1;
      QueueKeys(hosts[..k]);
      assert hosts == hosts[..k] + [hosts[k]];
    }
  }

  lemma QueueHolds(hosts: seq<Host>)
    requires DistinctHosts(hosts)
    ensures Enumerates(hosts, Queue(hosts).Keys) && |Queue(hosts)| == |hosts|
  {
    QueueKeys(hosts);
    EnumeratesLength(hosts, Queue(hosts).Keys);
    assert |Queue(hosts)| == |Queue(hosts).Keys|;
  }

  /** Any enabled step carries a run on. */
  lemma OneMoreStep<C(!new)>(setup: Setup<C>, states: seq<State<C>>, events: seq<Event>, e: Event)
      returns (states': seq<State<C>>, events': seq<Event>)
    requires ValidSetup(setup) && Run(setup, states, events)
    requires Enabled(states[|events|], e)
    ensures Run(setup, states', events') && events' == events + [e]
    ensures states'[|events'|] == Apply(setup, states[|events|], e)
  {
    states', events' := states + [Apply(setup, states[|events|], e)], events + [e];
    forall i | 0 <= i < |events'| ensures StepsAt(setup, states', events', i) {
      if i < |events| {
        assert StepsAt(setup, states, events, i);
      }
    }
  }

  /** Registering the hosts one after the other is a run. */
  lemma {:induction false} RegisterAll<C(!new)>(setup: Setup<C>, hosts: seq<Host>)
      returns (states: seq<State<C>>, events: seq<Event>)
    requires ValidSetup(setup)
    ensures Run(setup, states, events) && |events| == |hosts|
    ensures states[|hosts|] == State(Queue(hosts), Polling, [], Counting.Below(|hosts|))
  {
    if hosts == [] {
      states, events := [Init()], [];
    } else {
      var k := |hosts| - 1;
      states, events := RegisterAll(setup, hosts[..k]);
      states, events := OneMoreStep(setup, states, events, Event.Register(hosts[k], k));
    }
  }

  /** The poll finds all of them waiting. */
  lemma ReadyForAll<C(!new)>(setup: Setup<C>, hosts: seq<Host>) returns (states: seq<State<C>>, events: seq<Event>)
    requires ValidSetup(setup) && DistinctHosts(hosts) && |hosts| == setup.participants
    ensures Run(setup, states, events) && |events| == |hosts| + 1
    ensures states[|events|] == State(Queue(hosts), Ready, [], Counting.Below(|hosts|))
  {
    QueueHolds(hosts);
    states, events := RegisterAll(setup, hosts);
    states, events := OneMoreStep(setup, states, events, Check);
  }

  /**
   * For every expected number of hosts there is a run in which as many register,
   * the poll finds them, one more registers, and the release panics.
   */
  lemma OvertakenRelease<C(!new)>(setup: Setup<C>, hosts: seq<Host>) returns (states: seq<State<C>>, events: seq<Event>)
    requires ValidSetup(setup) && DistinctHosts(hosts) && |hosts| == setup.participants + 1
    ensures Run(setup, states, events) && |events| == setup.participants + 3
    ensures states[|events|].phase == Poisoned && states[|events|].waiting == Queue(hosts)
  {
    var n := setup.participants;
    states, events := ReadyForAll(setup, hosts[..n]);
    states, events := OneMoreStep(setup, states, events, Event.Register(hosts[n], n));
    QueueHolds(hosts);
    states, events := OneMoreStep(setup, states, events, Release(hosts, hosts));
  }
}
