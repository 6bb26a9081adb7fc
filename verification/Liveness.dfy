/** The consensus liveness expectation: sample every node's height, then judge how far behind anyone is. */
module Liveness {
  import opened Wrappers
  import opened Counting

  const MIN_PROGRESS_BLOCKS: nat := 5
  const REQUEST_RETRIES: nat := 5
  const MAX_LAG_ALLOWANCE: nat := 5

  datatype Sample = Sample(client: nat, height: nat)

  datatype Issue = HeightBelowTarget(node: Option<nat>, height: nat, target: nat) | RequestFailed(client: nat)

  datatype Verdict = Alive | MissingParticipants | Violations(target: nat, issues: seq<Issue>)

  /** What each client answers at each attempt. */
  type Answers = (nat, nat) -> Option<nat>

  /** The first answer among attempts `from ..`, if one comes in time. */
  function FirstAnswer(answers: Answers, client: nat, from: nat): (r: Option<nat>)
    requires from <= REQUEST_RETRIES
    decreases REQUEST_RETRIES - from
  {
    if from == REQUEST_RETRIES then None
    else if answers(client, from).Some? then answers(client, from)
    else FirstAnswer(answers, client, from + 1)
  }

  /** The answer that counts is the earliest of the five. */
  lemma FirstOfFive(answers: Answers, client: nat, h: nat)
    ensures FirstAnswer(answers, client, 0) == Some(h) <==>
      exists a :: 0 <= a < 5 && answers(client, a) == Some(h) && forall b :: 0 <= b < a ==> answers(client, b).None?
    ensures FirstAnswer(answers, client, 0).None? <==> forall a :: 0 <= a < 5 ==> answers(client, a).None?
  {
    FirstFrom(answers, client, 0);
    if FirstAnswer(answers, client, 0).None? {
      assert forall a :: 0 <= a < 5 ==> answers(client, a).None?;
    }
  }

  lemma {:induction false} FirstFrom(answers: Answers, client: nat, from: nat)
    requires from <= REQUEST_RETRIES
    ensures match FirstAnswer(answers, client, from)
      case None => forall a :: from <= a < 5 ==> answers(client, a).None?
      case Some(h) =>
        exists a :: from <= a < 5 && answers(client, a) == Some(h) && forall b :: from <= b < a ==> answers(client, b).None?
    decreases REQUEST_RETRIES - from
  {
    if from < REQUEST_RETRIES && answers(client, from).None? {
      FirstFrom(answers, client, from + 1);
    }
  }

  /** The samples and failures due for the first `n` clients. */
  function SamplesFor(answers: Answers, n: nat): (s: seq<Sample>) {
    if n == 0 then []
    else
      var answer := FirstAnswer(answers, n - 1, 0);
      SamplesFor(answers, n - 1) + if answer.Some? then [Sample(n - 1, answer.value)] else []
  }

  function FailuresFor(answers: Answers, n: nat): (s: seq<Issue>) {
    if n == 0 then []
    else
      var answer := FirstAnswer(answers, n - 1, 0);
      FailuresFor(answers, n - 1) + if answer.Some? then [] else [RequestFailed(n - 1)]
  }

  /** `collect_results`: up to five attempts for each client. */
  method CollectResults(clients: nat, answers: Answers) returns (samples: seq<Sample>, issues: seq<Issue>)
    ensures samples == SamplesFor(answers, clients) && issues == FailuresFor(answers, clients)
  {
    samples, issues := [], [];
    for idx := 0 to clients
      invariant samples == SamplesFor(answers, idx) && issues == FailuresFor(answers, idx)
    {
      var attempt := 0;
      while attempt < REQUEST_RETRIES
        invariant attempt <= REQUEST_RETRIES
        invariant attempt < REQUEST_RETRIES ==> samples == SamplesFor(answers, idx) && issues == FailuresFor(answers, idx)
        invariant attempt < REQUEST_RETRIES ==> FirstAnswer(answers, idx, attempt) == FirstAnswer(answers, idx, 0)
        invariant attempt == REQUEST_RETRIES ==>
          samples == SamplesFor(answers, idx + 1) && issues == FailuresFor(answers, idx + 1)
      {
        var answer := answers(idx, attempt);
        if answer.Some? {
          samples := samples + [Sample(idx, answer.value)];
          assert issues == FailuresFor(answers, idx) + [];
          break;
        } else if attempt + 1 == REQUEST_RETRIES {
          issues := issues + [RequestFailed(idx)];
          assert samples == SamplesFor(answers, idx) + [];
        }
        attempt := attempt + 1;
      }
    }
  }

  /** Every client gets one sample or one failure, never both: the two lists split the clients. */
  lemma {:induction false} EveryClientOnce(answers: Answers, n: nat, client: nat)
    requires client < n
    ensures |SamplesFor(answers, n)| + |FailuresFor(answers, n)| == n
    ensures FirstAnswer(answers, client, 0).Some? <==> Sample(client, FirstHeight(answers, client)) in SamplesFor(answers, n)
    ensures FirstAnswer(answers, client, 0).None? <==> RequestFailed(client) in FailuresFor(answers, n)
    decreases n
  {
    LaterClientsAbsent(answers, n - 1);
    if client < n - 1 {
      EveryClientOnce(answers, n - 1, client);
    } else if n > 1 {
      EveryClientOnce(answers, n - 1, 0);
    }
  }

  function FirstHeight(answers: Answers, client: nat): (h: nat) {
    match FirstAnswer(answers, client, 0)
    case Some(h) => h
    case None => 0
  }

  lemma {:induction false} LaterClientsAbsent(answers: Answers, n: nat)
    ensures forall s :: s in SamplesFor(answers, n) ==> s.client < n
    ensures forall i :: i in FailuresFor(answers, n) ==> i.RequestFailed? && i.client < n
  {
    if n > 0 { LaterClientsAbsent(answers, n - 1); }
  }

  // ----------------------------------------------------------------- verdict

  /** `clamp(target / 10, lag, 5)`; the bounds must not cross. */
  function Allowance(lag: nat, target: nat): (a: nat)
    requires lag <= MAX_LAG_ALLOWANCE
    ensures lag <= a <= MAX_LAG_ALLOWANCE
    ensures a > lag ==> 10 * a <= target
    ensures a < MAX_LAG_ALLOWANCE ==> target < 10 * (a + 1)
  {
    Max(lag, Min(target / 10, MAX_LAG_ALLOWANCE))
  }

  /** The greatest sampled height. */
  ghost predicate IsHighest(samples: seq<Sample>, h: nat) {
    && (exists i :: 0 <= i < |samples| && samples[i].height == h)
    && (forall i :: 0 <= i < |samples| ==> samples[i].height <= h)
  }

  function TargetFor(hint: nat, highest: nat): (t: nat)
    ensures t == if 0 < hint <= highest then hint else highest
  {
    if hint == 0 || hint > highest then highest else hint
  }

  /** What the expectation asks for. */
  ghost predicate Live(lag: nat, hint: nat, samples: seq<Sample>, highest: nat)
    requires lag <= MAX_LAG_ALLOWANCE
  {
    var target := TargetFor(hint, highest);
    && highest >= MIN_PROGRESS_BLOCKS
    && forall i :: 0 <= i < |samples| ==> samples[i].height + Allowance(lag, target) >= target
  }

  method FindHighest(samples: seq<Sample>) returns (h: nat)
    requires samples != []
    ensures IsHighest(samples, h)
  {
    h := samples[0].height;
    for i := 0 to |samples|
      invariant exists j :: 0 <= j < |samples| && samples[j].height == h
      invariant forall j :: 0 <= j < i ==> samples[j].height <= h
    {
      if samples[i].height > h {
        h := samples[i].height;
      }
    }
  }

  /**
   * `report`: gathers every issue. The verdict is good exactly when everybody
   * answered, the chain made progress, and nobody is further behind the target
   * than allowed; every laggard is named.
   */
  method Report(lag: nat, hint: nat, samples: seq<Sample>, failures: seq<Issue>) returns (v: Verdict)
    requires lag <= MAX_LAG_ALLOWANCE
    ensures samples == [] <==> v == MissingParticipants
    ensures forall highest :: IsHighest(samples, highest) ==>
      (v == Alive <==> failures == [] && Live(lag, hint, samples, highest))
    ensures v.Violations? ==> failures <= v.issues
    ensures v.Violations? ==> forall highest :: IsHighest(samples, highest) ==>
      && v.target == TargetFor(hint, highest)
      && (highest < 5 ==> HeightBelowTarget(None, highest, 5) in v.issues)
    ensures v.Violations? ==> forall i :: 0 <= i < |samples| && samples[i].height + Allowance(lag, v.target) < v.target ==>
      HeightBelowTarget(Some(samples[i].client), samples[i].height, v.target) in v.issues
  {
    if samples == [] {
      return MissingParticipants;
    }
    var highest := FindHighest(samples);
    var target := TargetFor(hint, highest);
    var allowance := Allowance(lag, target);
    var issues := failures;
    if highest < MIN_PROGRESS_BLOCKS {
      issues := issues + [HeightBelowTarget(None, highest, MIN_PROGRESS_BLOCKS)];
    }
    ghost var start := issues;
    assert highest < MIN_PROGRESS_BLOCKS ==>
      start[|failures|] == HeightBelowTarget(None, highest, MIN_PROGRESS_BLOCKS);
    for i := 0 to |samples|
      invariant start <= issues
      invariant issues == start <==> forall j :: 0 <= j < i ==> samples[j].height + allowance >= target
      invariant forall j :: 0 <= j < i && samples[j].height + allowance < target ==>
        HeightBelowTarget(Some(samples[j].client), samples[j].height, target) in issues
    {
      if samples[i].height + allowance < target {
        issues := issues + [HeightBelowTarget(Some(samples[i].client), samples[i].height, target)];
      }
    }
    assert highest < MIN_PROGRESS_BLOCKS ==>
      issues[|failures|] == HeightBelowTarget(None, highest, MIN_PROGRESS_BLOCKS);
    if issues == [] {
      v := Alive;
    } else {
      v := Violations(target, issues);
    }
    forall h | IsHighest(samples, h) ensures h == highest {
    }
    assert v == Alive <==> failures == [] && Live(lag, hint, samples, highest);
  }

  /**
   * `evaluate`: nobody to ask is reported before anything is collected. The
   * target is the hint, unless that is 0 or beyond the highest first answer.
   */
  method Evaluate(lag: nat, hint: nat, clients: nat, answers: Answers) returns (v: Verdict)
    requires lag <= MAX_LAG_ALLOWANCE
    ensures v == Alive <==>
      clients > 0 && AllAnswered(answers, clients) && CaughtUp(lag, hint, clients, answers, Highest(answers, clients))
    ensures v == Alive <==> (
      && clients > 0 && Highest(answers, clients) >= 5
      && AllReach(lag, clients, answers,
          if 0 < hint <= Highest(answers, clients) then hint else Highest(answers, clients)))
    ensures v.Violations? ==>
      v.target == if 0 < hint <= Highest(answers, clients) then hint else Highest(answers, clients)
    ensures v == MissingParticipants <==> forall c: nat :: c < clients ==> FirstAnswer(answers, c, 0).None?
  {
    if clients == 0 {
      return MissingParticipants;
    }
    var samples, issues := CollectResults(clients, answers);
    v := Report(lag, hint, samples, issues);
    NoSamplesIffNoAnswers(answers, clients);
    CaughtUpIsReached(lag, hint, clients, answers, Highest(answers, clients));
    if samples != [] {
      HighestIsSampled(answers, clients);
      LiveFromAnswers(lag, hint, clients, answers, Highest(answers, clients));
    }
  }

  /** Every client answered, and its first answer is within the allowance of the target. */
  ghost predicate AllReach(lag: nat, clients: nat, answers: Answers, target: nat)
    requires lag <= MAX_LAG_ALLOWANCE
  {
    forall c: nat :: c < clients ==>
      FirstAnswer(answers, c, 0).Some? && FirstHeight(answers, c) + Allowance(lag, target) >= target
  }

  lemma CaughtUpIsReached(lag: nat, hint: nat, clients: nat, answers: Answers, highest: nat)
    requires lag <= MAX_LAG_ALLOWANCE
    ensures AllAnswered(answers, clients) && CaughtUp(lag, hint, clients, answers, highest) <==>
      highest >= 5 && AllReach(lag, clients, answers, if 0 < hint <= highest then hint else highest)
  {
  }

  /** The greatest first answer, 0 if nobody answered. */
  function Highest(answers: Answers, clients: nat): (h: nat)
    ensures forall c: nat :: c < clients ==> FirstHeight(answers, c) <= h
    ensures h == 0 || exists c: nat :: c < clients && FirstHeight(answers, c) == h
  {
    if clients == 0 then 0 else Max(Highest(answers, clients - 1), FirstHeight(answers, clients - 1))
  }

  /** The chain made progress, and every client's first answer is within the allowance of the target. */
  ghost predicate CaughtUp(lag: nat, hint: nat, clients: nat, answers: Answers, highest: nat)
    requires lag <= MAX_LAG_ALLOWANCE
  {
    var target := TargetFor(hint, highest);
    && highest >= MIN_PROGRESS_BLOCKS
    && forall c: nat :: c < clients ==> FirstHeight(answers, c) + Allowance(lag, target) >= target
  }

  lemma NoSamplesIffNoAnswers(answers: Answers, clients: nat)
    ensures SamplesFor(answers, clients) == [] <==> forall c: nat :: c < clients ==> FirstAnswer(answers, c, 0).None?
  {
    var samples := SamplesFor(answers, clients);
    SamplesAreFirstAnswers(answers, clients);
    if samples != [] {
      assert samples[0] in samples;
      assert FirstAnswer(answers, samples[0].client, 0).Some?;
    }
    forall c: nat | c < clients && FirstAnswer(answers, c, 0).Some? ensures samples != [] {
      EveryClientOnce(answers, clients, c);
    }
  }

  lemma HighestIsSampled(answers: Answers, clients: nat)
    requires SamplesFor(answers, clients) != []
    ensures IsHighest(SamplesFor(answers, clients), Highest(answers, clients))
  {
    var samples, h := SamplesFor(answers, clients), Highest(answers, clients);
    SamplesAreFirstAnswers(answers, clients);
    forall i | 0 <= i < |samples| ensures samples[i].height <= h {
      assert samples[i] in samples;
      assert samples[i].height == FirstHeight(answers, samples[i].client);
    }
    if h == 0 {
      assert samples[0].height == h;
    } else {
      var c: nat :| c < clients && FirstHeight(answers, c) == h;
      EveryClientOnce(answers, clients, c);
      var i :| 0 <= i < |samples| && samples[i] == Sample(c, h);
    }
  }

  ghost predicate AllAnswered(answers: Answers, clients: nat) {
    forall c: nat :: c < clients ==> FirstAnswer(answers, c, 0).Some?
  }

  lemma NoFailuresIffAllAnswered(answers: Answers, clients: nat)
    ensures FailuresFor(answers, clients) == [] <==> AllAnswered(answers, clients)
  {
    var failures := FailuresFor(answers, clients);
    LaterClientsAbsent(answers, clients);
    if failures != [] {
      assert failures[0] in failures;
      EveryClientOnce(answers, clients, failures[0].client);
    } else {
      forall c: nat | c < clients ensures FirstAnswer(answers, c, 0).Some? {
        EveryClientOnce(answers, clients, c);
      }
    }
  }

  /** What `Report` asks of the samples, in terms of the answers they come from. */
  lemma LiveFromAnswers(lag: nat, hint: nat, clients: nat, answers: Answers, highest: nat)
    requires lag <= MAX_LAG_ALLOWANCE
    requires IsHighest(SamplesFor(answers, clients), highest)
    ensures (FailuresFor(answers, clients) == [] && Live(lag, hint, SamplesFor(answers, clients), highest)) <==>
      AllAnswered(answers, clients) && CaughtUp(lag, hint, clients, answers, highest)
  {
    var samples := SamplesFor(answers, clients);
    var target := TargetFor(hint, highest);
    NoFailuresIffAllAnswered(answers, clients);
    SamplesAreFirstAnswers(answers, clients);
    if AllAnswered(answers, clients) && Live(lag, hint, samples, highest) {
      forall c: nat | c < clients ensures FirstHeight(answers, c) + Allowance(lag, target) >= target {
        EveryClientOnce(answers, clients, c);
        var i :| 0 <= i < |samples| && samples[i] == Sample(c, FirstHeight(answers, c));
      }
    }
    if forall c: nat :: c < clients ==> FirstHeight(answers, c) + Allowance(lag, target) >= target {
      forall i | 0 <= i < |samples| ensures samples[i].height + Allowance(lag, target) >= target {
        assert samples[i] in samples;
        assert FirstHeight(answers, samples[i].client) == samples[i].height;
      }
    }
  }

  lemma {:induction false} SamplesAreFirstAnswers(answers: Answers, n: nat)
    ensures forall s :: s in SamplesFor(answers, n) ==> s.client < n && FirstAnswer(answers, s.client, 0) == Some(s.height)
  {
    if n > 0 { SamplesAreFirstAnswers(answers, n - 1); }
  }
}
