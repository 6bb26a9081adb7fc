/**
 * The chaos workload: restarts randomly chosen nodes, waiting for cooldowns in
 * between. Time is a natural number that never runs backwards; how long things
 * take and which target is chosen is left open.
 */
module Chaos {
  import opened Wrappers
  import opened Counting
  import opened Clocks

  datatype Target = Validator(index: nat) | Executor(index: nat)

  datatype Settings = Settings(
    minDelay: nat, maxDelay: nat, targetCooldown: nat, includeValidators: bool, includeExecutors: bool)

  /** One completed restart: whom, when it was picked, when the restart was over. */
  datatype Restart = Restart(target: Target, picked: nat, done: nat)

  // ---------------------------------------------------------------- targets

  /** A sole validator is left alone; executors are always fair game. */
  predicate Eligible(s: Settings, validators: nat, executors: nat, t: Target) {
    match t
    case Validator(i) => s.includeValidators && validators > 1 && i < validators
    case Executor(i) => s.includeExecutors && i < executors
  }

  method Targets(s: Settings, validators: nat, executors: nat) returns (targets: seq<Target>)
    ensures forall t :: t in targets <==> Eligible(s, validators, executors, t)
    ensures |targets| == (if s.includeValidators && validators > 1 then validators else 0)
      + (if s.includeExecutors then executors else 0)
    ensures forall i, j :: 0 <= i < j < |targets| ==> targets[i] != targets[j]
  {
    targets := [];
    if s.includeValidators && validators > 1 {
      for i := 0 to validators
        invariant |targets| == i
        invariant forall t :: t in targets <==> t.Validator? && t.index < i
        invariant forall a, b :: 0 <= a < b < |targets| ==> targets[a] != targets[b]
      {
        targets := targets + [Validator(i)];
      }
    }
    ghost var first := targets;
    if s.includeExecutors {
      for i := 0 to executors
        invariant |targets| == |first| + i
        invariant forall t :: t in targets <==> t in first || (t.Executor? && t.index < i)
        invariant forall a, b :: 0 <= a < b < |targets| ==> targets[a] != targets[b]
      {
        targets := targets + [Executor(i)];
      }
    }
  }

  /** Every target is ready at once, whether or not the clock reaches back a whole cooldown. */
  function InitialCooldowns(s: Settings, now: nat, targets: seq<Target>): (m: map<Target, nat>)
    ensures forall t :: t in m <==> t in targets
    ensures forall t :: t in m ==> m[t] <= now
  {
    var ready := if s.targetCooldown <= now then now - s.targetCooldown else now;
    map t | t in targets :: ready
  }

  // ---------------------------------------------------------------- picking

  /** The targets whose cooldown still lies ahead. */
  function Cooling(cooldowns: map<Target, nat>, now: nat): (r: set<Target>) {
    set t | t in cooldowns && cooldowns[t] > now
  }

  /** The earliest cooldown that lies ahead, if any. */
  method NextReady(cooldowns: map<Target, nat>, now: nat) returns (r: Option<nat>)
    ensures r.None? <==> Cooling(cooldowns, now) == {}
    ensures r.Some? ==>
      && (exists t :: t in Cooling(cooldowns, now) && cooldowns[t] == r.value)
      && (forall t :: t in Cooling(cooldowns, now) ==> r.value <= cooldowns[t])
  {
    r := None;
    ghost var seen: set<Target> := {};
    var todo := Cooling(cooldowns, now);
    while todo != {}
      invariant Cooling(cooldowns, now) == seen + todo
      invariant r.None? <==> seen == {}
      invariant r.Some? ==>
        (exists t :: t in seen && cooldowns[t] == r.value) && (forall t :: t in seen ==> r.value <= cooldowns[t])
      decreases |todo|
    {
      var t :| t in todo;
      todo := todo - {t};
      seen := seen + {t};
      if r.None? || cooldowns[t] < r.value {
        r := Some(cooldowns[t]);
      }
      assert t in seen;
    }
  }

  method Available(targets: seq<Target>, cooldowns: map<Target, nat>, now: nat) returns (r: seq<Target>)
    ensures forall t :: t in r <==> t in targets && (t in cooldowns ==> cooldowns[t] <= now)
  {
    r := [];
    for i := 0 to |targets|
      invariant forall t :: t in r <==> t in targets[..i] && (t in cooldowns ==> cooldowns[t] <= now)
    {
      assert targets[..i + 1] == targets[..i] + [targets[i]];
      if targets[i] !in cooldowns || cooldowns[targets[i]] <= now {
        r := r + [targets[i]];
      }
    }
    assert targets[..|targets|] == targets;
  }

  /**
   * `pick_target`: sleeps as long as any target is cooling, so the choice is
   * always among all targets and the source's last-resort arm is never taken.
   */
  method PickTarget(targets: seq<Target>, cooldowns: map<Target, nat>, clock: Clock) returns (t: Target, at: nat)
    requires targets != []
    modifies clock
    ensures t in targets
    ensures old(clock.now) <= at == clock.now
    ensures Cooling(cooldowns, at) == {}
  {
    while true
      invariant old(clock.now) <= clock.now
      decreases |Cooling(cooldowns, clock.now)|
    {
      ghost var before := Cooling(cooldowns, clock.now);
      var now := clock.Read();
      var next := NextReady(cooldowns, now);
      if next.Some? {
        var wait := next.value - now;
        clock.Sleep(wait);
        ghost var woken :| woken in Cooling(cooldowns, now) && cooldowns[woken] == next.value;
        assert woken in before && woken !in Cooling(cooldowns, clock.now);
        SubsetCardinality(Cooling(cooldowns, clock.now), before - {woken});
        continue;
      }
      var available := Available(targets, cooldowns, now);
      assert forall x :: x in cooldowns ==> x !in Cooling(cooldowns, now);
      assert targets[0] in available;
      var k :| 0 <= k < |available|;
      return available[k], now;
    }
  }

  // ------------------------------------------------------------------- runs

  /** An eligible target, picked at least a cooldown and a minimal delay after the last restart was over. */
  ghost predicate Follows(s: Settings, validators: nat, executors: nat, history: seq<Restart>, target: Target, picked: nat) {
    && Eligible(s, validators, executors, target)
    && (history != [] ==> history[|history| - 1].done + Max(s.targetCooldown, s.minDelay) <= picked)
  }

  /** Every restart follows those before it. */
  ghost predicate WellSpaced(s: Settings, validators: nat, executors: nat, history: seq<Restart>) {
    history != [] ==>
      var before, last := history[..|history| - 1], history[|history| - 1];
      && WellSpaced(s, validators, executors, before)
      && Follows(s, validators, executors, before, last.target, last.picked)
      && last.picked <= last.done
  }

  /** A failed restart carries whom it was to hit and when that was picked. */
  datatype ChaosError = NoEligibleTargets | RestartFailed(target: Target, picked: nat)

  /** The random delay and the pick that follows it. */
  method PickAfterDelay(s: Settings, ghost validators: nat, ghost executors: nat, targets: seq<Target>,
                        cooldowns: map<Target, nat>, ghost history: seq<Restart>, clock: Clock)
    returns (target: Target, picked: nat)
    requires targets != [] && forall t :: t in targets ==> Eligible(s, validators, executors, t)
    requires Pending(s, cooldowns, history, clock.now)
    modifies clock
    ensures picked == clock.now
    ensures Follows(s, validators, executors, history, target, picked)
  {
    var delay :| s.minDelay <= delay && (delay <= s.maxDelay || delay == s.minDelay);
    clock.Sleep(delay);
    ghost var slept := clock.now;
    target, picked := PickTarget(targets, cooldowns, clock);
    PickFollows(s, validators, executors, history, cooldowns, slept, target, picked);
  }

  /**
   * `start`, observed for as many restarts as there are outcomes, each saying
   * whether the restart goes through; without a failure the source goes on for ever.
   */
  method Start(s: Settings, validators: nat, executors: nat, clock: Clock, outcomes: seq<bool>)
    returns (error: Option<ChaosError>, history: seq<Restart>)
    modifies clock
    ensures WellSpaced(s, validators, executors, history)
    ensures error == Some(NoEligibleTargets) <==>
      !(s.includeValidators && validators >= 2) && !(s.includeExecutors && executors >= 1)
    ensures error.None? ==> |history| == |outcomes|
    ensures error.Some? && error.value.RestartFailed? ==>
      && |history| < |outcomes| && !outcomes[|history|]
      && Follows(s, validators, executors, history, error.value.target, error.value.picked)
    ensures |history| <= |outcomes| && forall i :: 0 <= i < |history| ==> outcomes[i]
  {
    history := [];
    var targets := Targets(s, validators, executors);
    if targets == [] {
      return Some(NoEligibleTargets), [];
    }
    var start := clock.Read();
    var cooldowns: map<Target, nat> := InitialCooldowns(s, start, targets);
    for round := 0 to |outcomes|
      invariant |history| == round
      invariant WellSpaced(s, validators, executors, history)
      invariant forall i :: 0 <= i < round ==> outcomes[i]
      invariant Pending(s, cooldowns, history, clock.now)
    {
      var target, picked := PickAfterDelay(s, validators, executors, targets, cooldowns, history, clock);
      if !outcomes[round] {
        return Some(RestartFailed(target, picked)), history;
      }
      var done := clock.Read();
      var restart := Restart(target, picked, done);
      RestartKeepsSpacing(s, validators, executors, history, cooldowns, restart);
      history := history + [restart];
      cooldowns := cooldowns[target := done + s.targetCooldown];
    }
    return None, history;
  }

  /** The last restart is over by `now`, and its cooldown is on record. */
  ghost predicate Pending(s: Settings, cooldowns: map<Target, nat>, history: seq<Restart>, now: nat) {
    history != [] ==>
      var last := history[|history| - 1];
      last.done <= now && last.target in cooldowns && cooldowns[last.target] == last.done + s.targetCooldown
  }

  /** A pick made once nothing is cooling, and after the delay slept until `slept`. */
  lemma PickFollows(s: Settings, validators: nat, executors: nat, history: seq<Restart>,
                    cooldowns: map<Target, nat>, slept: nat, target: Target, picked: nat)
    requires slept >= s.minDelay && Pending(s, cooldowns, history, slept - s.minDelay)
    requires slept <= picked && Cooling(cooldowns, picked) == {}
    requires Eligible(s, validators, executors, target)
    ensures Follows(s, validators, executors, history, target, picked)
  {
    if history != [] {
      assert history[|history| - 1].target !in Cooling(cooldowns, picked);
    }
  }

  lemma RestartKeepsSpacing(s: Settings, validators: nat, executors: nat, history: seq<Restart>,
                            cooldowns: map<Target, nat>, r: Restart)
    requires WellSpaced(s, validators, executors, history)
    requires Follows(s, validators, executors, history, r.target, r.picked) && r.picked <= r.done
    ensures WellSpaced(s, validators, executors, history + [r])
    ensures Pending(s, cooldowns[r.target := r.done + s.targetCooldown], history + [r], r.done)
  {
    assert (history + [r])[..|history|] == history;
  }

  /** Restarts `n` apart in the history are at least `n` cooldowns, and `n` minimal delays, apart in time, whatever their targets. */
  lemma {:induction false} CooldownsAddUp(s: Settings, validators: nat, executors: nat, history: seq<Restart>, i: nat, j: nat)
    requires WellSpaced(s, validators, executors, history) && i < j < |history|
    ensures history[i].done + Times(j - i, s.targetCooldown) <= history[j].picked
    ensures history[i].done + Times(j - i, s.minDelay) <= history[j].picked
    decreases |history|
  {
    var before := history[..|history| - 1];
    if j < |before| {
      CooldownsAddUp(s, validators, executors, before, i, j);
    } else if i < j - 1 {
      CooldownsAddUp(s, validators, executors, before, i, j - 1);
    }
  }

  /** In particular, the same node is never restarted twice within its cooldown. */
  lemma PerNodeCooldown(s: Settings, validators: nat, executors: nat, history: seq<Restart>, i: nat, j: nat)
    requires WellSpaced(s, validators, executors, history) && i < j < |history|
    requires history[i].target == history[j].target
    ensures history[j].picked - history[i].done >= s.targetCooldown
  {
    CooldownsAddUp(s, validators, executors, history, i, j);
    TimesAtLeast(j - i, s.targetCooldown);
  }

  lemma {:induction false} TimesAtLeast(k: nat, n: nat)
    requires k >= 1
    ensures Times(k, n) >= n
  {
    if k > 1 { TimesAtLeast(k - 1, n); }
  }

  /** Every restart hits a node there is, of a kind that is included, and validators only if there are at least two. */
  lemma {:induction false} TargetsExist(s: Settings, validators: nat, executors: nat, history: seq<Restart>, i: nat)
    requires WellSpaced(s, validators, executors, history) && i < |history|
    ensures match history[i].target
      case Validator(k) => s.includeValidators && validators >= 2 && k < validators
      case Executor(k) => s.includeExecutors && k < executors
  {
    if i < |history| - 1 {
      TargetsExist(s, validators, executors, history[..|history| - 1], i);
    }
  }

  /** A cluster with a single validator never sees it restarted. */
  lemma {:induction false} SoleValidatorSafe(s: Settings, executors: nat, history: seq<Restart>, i: nat)
    requires WellSpaced(s, 1, executors, history) && i < |history|
    ensures history[i].target.Executor?
  {
    if i < |history| - 1 {
      SoleValidatorSafe(s, executors, history[..|history| - 1], i);
    }
  }
}
