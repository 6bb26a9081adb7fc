/**
 * The life of a scenario run: captures are started, workloads driven, drained
 * and joined, expectations evaluated, and the environment's cleanup guard is
 * used up, by whichever of runner and run handle holds it last.
 */
module Runner {
  import opened Wrappers
  import opened Counting
  import opened Clocks

  // ------------------------------------------------------------ workload tasks

  /** How a joined task ended; `TaskPanicked` is a join error other than cancellation. */
  datatype JoinResult = Finished(ok: bool) | Cancelled | TaskPanicked

  /** `map_join_result`: cancellation is tolerated. */
  predicate Tolerated(r: JoinResult) {
    match r
    case Finished(ok) => ok
    case Cancelled => true
    case TaskPanicked => false
  }

  /** Task `t` left the pending ones with result `r`. */
  ghost predicate TookOut(pending: set<nat>, joined: seq<(nat, JoinResult)>, t: nat, r: JoinResult,
                          pending': set<nat>, joined': seq<(nat, JoinResult)>) {
    t in pending && pending' == pending - {t} && joined' == joined + [(t, r)]
  }

  class JoinSet {
    var pending: set<nat>
    var aborted: bool
    ghost var joined: seq<(nat, JoinResult)>
    ghost var abortedAt: nat

    constructor (tasks: nat)
      ensures pending == Below(tasks) && !aborted && joined == []
    {
      pending, aborted, joined := Below(tasks), false, [];
    }

    /** Some pending task ends, in whatever way; only an abort cancels. */
    method JoinNext() returns (r: Option<JoinResult>)
      modifies this
      ensures aborted == old(aborted) && abortedAt == old(abortedAt)
      ensures r.None? <==> old(pending) == {}
      ensures r.None? ==> pending == old(pending) && joined == old(joined)
      ensures r.Some? ==> exists t :: TookOut(old(pending), old(joined), t, r.value, pending, joined)
      ensures r == Some(Cancelled) ==> aborted
    {
      if pending == {} {
        return None;
      }
      var t :| t in pending;
      var result: JoinResult;
      if * {
        result := Finished(true);
      } else if * {
        result := Finished(false);
      } else if * {
        result := TaskPanicked;
      } else {
        result := if aborted then Cancelled else TaskPanicked;
      }
      pending := pending - {t};
      joined := joined + [(t, result)];
      assert TookOut(old(pending), old(joined), t, result, pending, joined);
      return Some(result);
    }

    method AbortAll(clock: Clock)
      modifies this
      ensures aborted && abortedAt == clock.now && pending == old(pending) && joined == old(joined)
    {
      aborted, abortedAt := true, clock.now;
    }
  }

  /** Every task is accounted for exactly once: still pending, or joined. */
  ghost predicate Accounted(n: nat, pending: set<nat>, joined: seq<(nat, JoinResult)>) {
    && (forall t: nat :: t < n <==> t in pending || exists i :: 0 <= i < |joined| && joined[i].0 == t)
    && (forall i :: 0 <= i < |joined| ==> joined[i].0 !in pending)
    && (forall i, j :: 0 <= i < j < |joined| ==> joined[i].0 != joined[j].0)
  }

  /** Every join so far was tolerated. */
  ghost predicate AllTolerated(joined: seq<(nat, JoinResult)>) {
    forall i :: 0 <= i < |joined| ==> Tolerated(joined[i].1)
  }

  /** All joins tolerated; before the abort that means finished without error. */
  ghost predicate Ran(n: nat, set_: JoinSet)
    reads set_
  {
    && Accounted(n, set_.pending, set_.joined)
    && AllTolerated(set_.joined)
    && (!set_.aborted ==> forall i :: 0 <= i < |set_.joined| ==> set_.joined[i].1 == Finished(true))
  }

  /** The phase ended early on a task that failed. */
  ghost predicate Failed(n: nat, set_: JoinSet)
    reads set_
  {
    && Accounted(n, set_.pending, set_.joined)
    && set_.joined != []
    && !Tolerated(set_.joined[|set_.joined| - 1].1)
  }

  lemma JoinKeepsAccount(n: nat, pending: set<nat>, joined: seq<(nat, JoinResult)>, t: nat, r: JoinResult)
    requires Accounted(n, pending, joined) && t in pending
    ensures Accounted(n, pending - {t}, joined + [(t, r)])
  {
    var all := joined + [(t, r)];
    forall x: nat ensures x < n <==> x in pending - {t} || exists i :: 0 <= i < |all| && all[i].0 == x {
      if x == t {
        assert all[|joined|].0 == x;
      } else if i :| 0 <= i < |joined| && joined[i].0 == x {
        assert all[i].0 == x;
      }
    }
  }

  /** `drive_until_timer`: joins tasks until none is left, one fails, or the timer fires. */
  method DriveUntilTimer(tasks: JoinSet, ghost n: nat, duration: nat, clock: Clock) returns (timedOut: bool, ok: bool)
    requires Ran(n, tasks)
    modifies tasks, clock
    ensures tasks.aborted == old(tasks.aborted)
    ensures clock.now >= old(clock.now)
    ensures timedOut ==> ok && clock.now >= old(clock.now) + duration
    ensures !tasks.aborted ==> Cancelled !in Results(tasks.joined)
    ensures if ok then Ran(n, tasks) else Failed(n, tasks)
    ensures ok && !timedOut ==> tasks.pending == {}
  {
    var deadline := clock.now + duration;
    while true
      invariant Ran(n, tasks) && tasks.aborted == old(tasks.aborted)
      invariant clock.now >= old(clock.now)
      decreases |tasks.pending|
    {
      var now := clock.Read();
      if * {
        clock.Sleep(if now < deadline then deadline - now else 0);
        return true, true;
      }
      label before:
      var r := tasks.JoinNext();
      if r.None? {
        return false, true;
      }
      ghost var t :| TookOut(old@before(tasks.pending), old@before(tasks.joined), t, r.value, tasks.pending, tasks.joined);
      JoinKeepsAccount(n, old@before(tasks.pending), old@before(tasks.joined), t, r.value);
      if !Tolerated(r.value) {
        assert tasks.joined[..|tasks.joined| - 1] == old@before(tasks.joined);
        assert !tasks.aborted ==> forall i :: 0 <= i < |tasks.joined| - 1 ==> old@before(tasks.joined)[i].1 == Finished(true);
        return false, false;
      }
    }
  }

  /** `drain_workloads`: aborts what is left and joins it. */
  method DrainWorkloads(tasks: JoinSet, ghost n: nat, clock: Clock) returns (ok: bool)
    requires Ran(n, tasks)
    modifies tasks
    ensures if ok then Ran(n, tasks) && tasks.pending == {} else Failed(n, tasks)
    ensures tasks.aborted && tasks.abortedAt == clock.now
    ensures old(tasks.pending) == {} ==> tasks.joined == old(tasks.joined)
  {
    tasks.AbortAll(clock);
    while true
      invariant Ran(n, tasks) && tasks.aborted && tasks.abortedAt == clock.now
      invariant old(tasks.pending) == {} ==> tasks.pending == {} && tasks.joined == old(tasks.joined)
      decreases |tasks.pending|
    {
      label before:
      var r := tasks.JoinNext();
      if r.None? {
        return true;
      }
      ghost var t :| TookOut(old@before(tasks.pending), old@before(tasks.joined), t, r.value, tasks.pending, tasks.joined);
      JoinKeepsAccount(n, old@before(tasks.pending), old@before(tasks.joined), t, r.value);
      if !Tolerated(r.value) {
        return false;
      }
    }
  }

  /** What the length of a run depends on, in nanoseconds; the security parameter counts blocks. */
  datatype Timing = Timing(duration: nat, blockInterval: Option<nat>, securityParam: nat, nodeControl: bool)

  const STABILIZATION: nat := 30_000_000_000

  /**
   * `cooldown_duration`: five blocks, or the security parameter's if these are
   * more, and half a minute at least when nodes may be restarted.
   */
  function CooldownFor(t: Timing): (wait: Option<nat>)
    ensures wait.None? <==> t.blockInterval == Some(0) || (t.blockInterval.None? && !t.nodeControl)
    ensures wait.Some? && t.blockInterval.None? ==> wait.value == 30 * 1_000_000_000
    ensures wait.Some? && t.blockInterval.Some? ==>
      var i := t.blockInterval.value;
      && wait.value >= 5 * i && wait.value >= t.securityParam * i
      && (t.nodeControl ==> wait.value >= 30 * 1_000_000_000)
      && (wait.value == 5 * i || wait.value == t.securityParam * i || (t.nodeControl && wait.value == 30 * 1_000_000_000))
  {
    match t.blockInterval
    case None => if t.nodeControl then Some(STABILIZATION) else None
    case Some(i) =>
      if i == 0 then None
      else
        var wait := Max(5 * i, t.securityParam * i);
        Some(if t.nodeControl then Max(wait, STABILIZATION) else wait)
  }

  /**
   * `run_workloads`: succeeds exactly when every spawned task was joined and
   * tolerated; then nothing is left running. No task is cancelled before the
   * duration of the run and the cooldown after it are over.
   */
  method RunWorkloads(n: nat, timing: Timing, clock: Clock) returns (ok: bool, tasks: JoinSet)
    modifies clock
    ensures fresh(tasks)
    ensures Cancelled in Results(tasks.joined) ==>
      tasks.abortedAt >= old(clock.now) + timing.duration + (
        match CooldownFor(timing) case None => 0 case Some(wait) => wait)
    ensures ok <==> tasks.pending == {} && Ran(n, tasks)
    ensures !ok ==> Failed(n, tasks)
    ensures ok ==> forall i :: 0 <= i < |tasks.joined| ==> tasks.joined[i].1 in {Finished(true), Cancelled}
    ensures !ok ==> tasks.joined != [] && tasks.joined[|tasks.joined| - 1].1 in {Finished(false), TaskPanicked}
  {
    tasks := new JoinSet(n);
    var timedOut;
    timedOut, ok := DriveUntilTimer(tasks, n, timing.duration, clock);
    if !ok {
      return false, tasks;
    }
    var cooldown := CooldownFor(timing);
    if cooldown.Some? && cooldown.value > 0 {
      if tasks.pending == {} {
        clock.Sleep(cooldown.value);
      } else {
        timedOut, ok := DriveUntilTimer(tasks, n, cooldown.value, clock);
        if !ok {
          return false, tasks;
        }
      }
    }
    ok := DrainWorkloads(tasks, n, clock);
  }

  function Results(joined: seq<(nat, JoinResult)>): (r: set<JoinResult>) {
    set i | 0 <= i < |joined| :: joined[i].1
  }

  // ------------------------------------------------------------- the lifecycle

  /** What a capture or an evaluation does; a panic unwinds through the runner. */
  datatype CallResult = Succeeds | Fails | Panics

  datatype Event = Captured(index: nat) | WorkloadsRun | Evaluated(index: nat) | CleanedUp

  datatype Ending = HandedOver | CaptureError | WorkloadError | ExpectationError | Panicked

  /** The first call that does not succeed, or the length. */
  function FirstFailure(calls: seq<CallResult>): (k: nat)
    ensures k <= |calls|
    ensures forall i :: 0 <= i < k ==> calls[i] == Succeeds
    ensures k < |calls| ==> calls[k] != Succeeds
  {
    if calls == [] || calls[0] != Succeeds then 0 else 1 + FirstFailure(calls[1..])
  }

  function FirstPanic(calls: seq<CallResult>): (k: nat)
    ensures k <= |calls|
    ensures forall i :: 0 <= i < k ==> calls[i] != Panics
    ensures k < |calls| ==> calls[k] == Panics
  {
    if calls == [] || calls[0] == Panics then 0 else 1 + FirstPanic(calls[1..])
  }

  function Captures(n: nat): (events: seq<Event>)
    ensures |events| == n
  {
    seq(n, (i: nat) => Captured(i))
  }

  function Evaluations(n: nat): (events: seq<Event>)
    ensures |events| == n
  {
    seq(n, (i: nat) => Evaluated(i))
  }

  function AllSucceed(calls: seq<CallResult>): (b: bool) {
    FirstFailure(calls) == |calls|
  }

  /** How a run ends and what happens on the way, given what its calls do and whether its workloads succeed. */
  function Lifecycle(captures: seq<CallResult>, workloadsOk: bool, evaluations: seq<CallResult>): (r: (Ending, seq<Event>)) {
    var k := FirstFailure(captures);
    if k < |captures| then
      (if captures[k] == Panics then Panicked else CaptureError, Captures(k + 1) + [CleanedUp])
    else if !workloadsOk then
      (WorkloadError, Captures(k) + [WorkloadsRun, CleanedUp])
    else
      var p := FirstPanic(evaluations);
      var before := Captures(k) + [WorkloadsRun];
      if p < |evaluations| then (Panicked, before + Evaluations(p + 1) + [CleanedUp])
      else if !AllSucceed(evaluations) then (ExpectationError, before + Evaluations(p) + [CleanedUp])
      else (HandedOver, before + Evaluations(p))
  }

  class Guard {
    var runs: nat

    constructor ()
      ensures runs == 0
    {
      runs := 0;
    }

    method Cleanup()
      modifies this
      ensures runs == old(runs) + 1
    {
      runs := runs + 1;
    }
  }

  /** The handle a successful run returns; it now owns the guard. */
  class RunHandle {
    var guard: Guard?

    constructor (guard: Guard?)
      ensures this.guard == guard
    {
      this.guard := guard;
    }

    method Drop()
      modifies this, guard
      ensures guard == null
      ensures old(guard) != null ==> old(guard).runs == old(guard.runs) + 1
    {
      var g := guard;
      guard := null;
      if g != null {
        g.Cleanup();
      }
    }
  }

  class ScenarioRunner {
    var guard: Guard?

    constructor (guard: Guard?)
      ensures this.guard == guard
    {
      this.guard := guard;
    }

    /** Takes the guard, so that it cannot run again. */
    method Cleanup()
      modifies this, guard
      ensures guard == null
      ensures old(guard) != null ==> old(guard).runs == old(guard.runs) + 1
    {
      var g := guard;
      guard := null;
      if g != null {
        g.Cleanup();
      }
    }

    /** `Drop`. */
    method Drop()
      modifies this, guard
      ensures guard == null
      ensures old(guard) != null ==> old(guard).runs == old(guard.runs) + 1
    {
      Cleanup();
    }

    method IntoRunHandle() returns (handle: RunHandle)
      modifies this
      ensures fresh(handle) && handle.guard == old(guard) && guard == null
      ensures old(guard) != null ==> old(guard).runs == old(guard.runs)
    {
      handle := new RunHandle(guard);
      guard := null;
    }

    /** `prepare_expectations`: stops at the first capture that does not start. */
    method Prepare(captures: seq<CallResult>) returns (k: nat, events: seq<Event>)
      ensures k == FirstFailure(captures)
      ensures events == Captures(if k < |captures| then k + 1 else k)
    {
      events, k := [], 0;
      while k < |captures|
        invariant k <= |captures|
        invariant events == Captures(k)
        invariant k + FirstFailure(captures[k..]) == FirstFailure(captures)
      {
        events := events + [Captured(k)];
        if captures[k] != Succeeds {
          return k, events;
        }
        assert captures[k..][1..] == captures[k + 1..];
        k := k + 1;
      }
    }

    /** `run_expectations`: evaluates all of them, gathering failures; only a panic cuts it short. */
    method Evaluate(evaluations: seq<CallResult>) returns (panicked: bool, failures: seq<nat>, events: seq<Event>)
      ensures panicked <==> FirstPanic(evaluations) < |evaluations|
      ensures events == Evaluations(if panicked then FirstPanic(evaluations) + 1 else |evaluations|)
      ensures !panicked ==> (failures == [] <==> AllSucceed(evaluations))
      ensures !panicked ==> forall i: nat :: i in failures <==> i < |evaluations| && evaluations[i] == Fails
    {
      events, failures := [], [];
      var k := 0;
      while k < |evaluations|
        invariant k <= |evaluations|
        invariant events == Evaluations(k)
        invariant k + FirstPanic(evaluations[k..]) == FirstPanic(evaluations)
        invariant forall i: nat :: i in failures <==> i < k && evaluations[i] == Fails
        invariant forall i :: 0 <= i < k ==> evaluations[i] != Panics
      {
        events := events + [Evaluated(k)];
        assert evaluations[k..][1..] == evaluations[k + 1..];
        match evaluations[k] {
          case Succeeds =>
          case Fails => failures := failures + [k];
          case Panics => return true, failures, events;
        }
        k := k + 1;
      }
      panicked := false;
      if failures == [] {
        assert forall i :: 0 <= i < |evaluations| && evaluations[i] != Succeeds ==> i in failures;
      } else {
        assert failures[0] in failures;
      }
    }

    /**
     * `run`, which consumes the runner: on return, or when unwinding, the
     * runner is dropped. Only a successful run keeps the guard, in the handle.
     */
    method Run(captures: seq<CallResult>, tasks: nat, timing: Timing, clock: Clock, evaluations: seq<CallResult>)
      returns (ending: Ending, handle: RunHandle?, events: seq<Event>, ghost workloadsOk: bool)
      modifies this, guard, clock
      ensures guard == null
      ensures (ending, events) == Lifecycle(captures, workloadsOk, evaluations)
      ensures ending == HandedOver <==> handle != null
      ensures handle != null ==> fresh(handle) && handle.guard == old(guard)
      ensures old(guard) != null ==>
        old(guard).runs == old(guard.runs) + if ending == HandedOver then 0 else 1
    {
      handle, workloadsOk := null, false;
      var k;
      k, events := Prepare(captures);
      if k < |captures| {
        Cleanup();
        events := events + [CleanedUp];
        ending := if captures[k] == Panics then Panicked else CaptureError;
        return;
      }
      var ok, joinSet := RunWorkloads(tasks, timing, clock);
      workloadsOk := ok;
      if !ok {
        Cleanup();
        events := events + [WorkloadsRun, CleanedUp];
        ending := WorkloadError;
        return;
      }
      events := events + [WorkloadsRun];
      var panicked, failures, evaluated := Evaluate(evaluations);
      events := events + evaluated;
      if panicked || failures != [] {
        Cleanup();
        events := events + [CleanedUp];
        ending := if panicked then Panicked else ExpectationError;
        return;
      }
      handle := IntoRunHandle();
      ending := HandedOver;
    }
  }

  /**
   * Whatever becomes of a runner, run to any end or dropped unused, once it and
   * the handle it may have returned are gone its guard has run exactly once.
   */
  method LiveAndDie(guard: Guard, runIt: bool, captures: seq<CallResult>, tasks: nat, timing: Timing, clock: Clock,
                    evaluations: seq<CallResult>)
    requires guard.runs == 0
    modifies guard, clock
    ensures guard.runs == 1
  {
    var runner := new ScenarioRunner(guard);
    if !runIt {
      runner.Drop();
      return;
    }
    var ending, handle, events, workloadsOk := runner.Run(captures, tasks, timing, clock, evaluations);
    runner.Drop();
    if handle != null {
      handle.Drop();
    }
  }

  // ----------------------------------------------------------- order of events

  /** Expectations are evaluated only after every capture started and the workloads succeeded, and then in order. */
  lemma EvaluatedOnlyAfterSuccess(captures: seq<CallResult>, workloadsOk: bool, evaluations: seq<CallResult>, i: nat, at: nat)
    requires var events := Lifecycle(captures, workloadsOk, evaluations).1;
      at < |events| && events[at] == Evaluated(i)
    ensures AllSucceed(captures) && workloadsOk
    ensures at == |captures| + 1 + i
  {
    var events := Lifecycle(captures, workloadsOk, evaluations).1;
    var k := FirstFailure(captures);
    assert at >= k;
    if k == |captures| && workloadsOk {
      assert at > k;
    }
  }

  /** A run is handed over exactly when everything succeeded; and unless something panicked, all expectations were heard. */
  lemma HandedOverIffAllSucceed(captures: seq<CallResult>, workloadsOk: bool, evaluations: seq<CallResult>)
    ensures Lifecycle(captures, workloadsOk, evaluations).0 == HandedOver
      <==> AllSucceed(captures) && workloadsOk && AllSucceed(evaluations)
    ensures var (ending, events) := Lifecycle(captures, workloadsOk, evaluations);
      ending in {HandedOver, ExpectationError} ==>
        forall i :: 0 <= i < |evaluations| ==> Evaluated(i) in events
    ensures var (ending, events) := Lifecycle(captures, workloadsOk, evaluations);
      CleanedUp in events <==> ending != HandedOver
  {
    var (ending, events) := Lifecycle(captures, workloadsOk, evaluations);
    var p := FirstPanic(evaluations);
    if ending in {HandedOver, ExpectationError} {
      forall i | 0 <= i < |evaluations| ensures Evaluated(i) in events {
        assert events[|captures| + 1 + i] == Evaluated(i);
      }
    }
    if ending != HandedOver {
      assert events[|events| - 1] == CleanedUp;
    }
  }

  /** The runner itself cleans up at most once, and never before the end. */
  lemma CleanupIsLast(captures: seq<CallResult>, workloadsOk: bool, evaluations: seq<CallResult>, at: nat)
    requires var events := Lifecycle(captures, workloadsOk, evaluations).1;
      at < |events| && events[at] == CleanedUp
    ensures at == |Lifecycle(captures, workloadsOk, evaluations).1| - 1
  {
  }

  ghost predicate AllGood(calls: seq<CallResult>) {
    forall i :: 0 <= i < |calls| ==> calls[i] == Succeeds
  }

  lemma AllGoodIffAllSucceed(calls: seq<CallResult>)
    ensures AllSucceed(calls) <==> AllGood(calls)
  {
  }

  /** How a run ends, from what its calls do. */
  lemma EndingIsExact(captures: seq<CallResult>, workloadsOk: bool, evaluations: seq<CallResult>)
    ensures var ending := Lifecycle(captures, workloadsOk, evaluations).0;
      && (ending == HandedOver <==> AllGood(captures) && workloadsOk && AllGood(evaluations))
      && (ending == CaptureError <==> StoppedBy(captures, Fails))
      && (ending == WorkloadError <==> AllGood(captures) && !workloadsOk)
      && (ending == ExpectationError <==>
            AllGood(captures) && workloadsOk && Panics !in evaluations && Fails in evaluations)
      && (ending == Panicked <==>
            StoppedBy(captures, Panics) || (AllGood(captures) && workloadsOk && Panics in evaluations))
  {
    AllGoodIffAllSucceed(captures);
    AllGoodIffAllSucceed(evaluations);
    var k := FirstFailure(captures);
    if k < |captures| {
      assert captures[k] == Fails || captures[k] == Panics;
    }
    var f := FirstFailure(evaluations);
    if Panics !in evaluations && f < |evaluations| {
      assert evaluations[f] == Fails;
    }
  }

  /** The first call that does not succeed ends in this way. */
  ghost predicate StoppedBy(calls: seq<CallResult>, how: CallResult) {
    exists k :: 0 <= k < |calls| && calls[k] == how && forall j :: 0 <= j < k ==> calls[j] == Succeeds
  }

  /**
   * What happens in a run: captures up to the first that does not succeed, the
   * workloads if all did, and evaluations up to the first panic if those did.
   */
  lemma EventsAreExact(captures: seq<CallResult>, workloadsOk: bool, evaluations: seq<CallResult>, i: nat)
    ensures var events := Lifecycle(captures, workloadsOk, evaluations).1;
      && (Captured(i) in events <==> i < |captures| && forall j :: 0 <= j < i ==> captures[j] == Succeeds)
      && (WorkloadsRun in events <==> AllGood(captures))
      && (Evaluated(i) in events <==>
            AllGood(captures) && workloadsOk && i < |evaluations| && forall j :: 0 <= j < i ==> evaluations[j] != Panics)
  {
    var events := Lifecycle(captures, workloadsOk, evaluations).1;
    AllGoodIffAllSucceed(captures);
    var k, p := FirstFailure(captures), FirstPanic(evaluations);
    if i < |captures| && forall j :: 0 <= j < i ==> captures[j] == Succeeds {
      assert events[i] == Captured(i);
    }
    if AllGood(captures) {
      assert events[k] == WorkloadsRun;
      if workloadsOk && i < |evaluations| && forall j :: 0 <= j < i ==> evaluations[j] != Panics {
        assert i <= p;
        assert events[k + 1 + i] == Evaluated(i);
      }
    }
  }
}
