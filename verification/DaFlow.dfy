/**
 * One channel's flow through the block feed: submit an inscription, wait for it,
 * then publish blobs one at a time, each naming the previous message as its
 * parent and each awaited before the next. The main result is that flows that
 * complete are bound to satisfy the expectation's check.
 */
module DaFlow {
  import opened Integers
  import opened Wrappers
  import opened Counting
  import opened Mantle
  import opened DaPlan
  import opened DaCapture

  /** What a subscriber's receiver yields next: a record of the feed, or a notice that it lagged behind. */
  datatype Delivery = Record(pos: nat) | Lagged

  /** Records are delivered in feed order; lagging skips some of them. */
  ghost predicate InFeedOrder(log: seq<BlockRecord>, deliveries: seq<Delivery>) {
    && (forall i :: 0 <= i < |deliveries| && deliveries[i].Record? ==> deliveries[i].pos < |log|)
    && (forall i, j :: 0 <= i < j < |deliveries| && deliveries[i].Record? && deliveries[j].Record? ==>
          deliveries[i].pos < deliveries[j].pos)
  }

  /** What a flow waits for. */
  datatype Awaited = Inscription(channel: ChannelId) | BlobAfter(channel: ChannelId, parent: MsgId)

  predicate Matches(w: Awaited, op: Op) {
    match w
    case Inscription(channel) => IsInscriptionOf(op, channel)
    case BlobAfter(channel, parent) => IsBlobOn(op, channel) && op.parent == parent
  }

  /** An operation found in the feed, and the receiver's place after it. */
  datatype Sighting = Sighting(op: Op, pos: nat, next: nat)

  ghost predicate Sights(log: seq<BlockRecord>, deliveries: seq<Delivery>, from: nat, w: Awaited, s: Sighting) {
    && from < s.next <= |deliveries|
    && deliveries[s.next - 1] == Record(s.pos) && s.pos < |log|
    && Matches(w, s.op)
    && s.op in OpsOf(log[s.pos].block.transactions)
  }

  /** The first matching operation. */
  function FirstMatch(ops: seq<Op>, w: Awaited): (r: Option<Op>)
    ensures r.Some? ==> r.value in ops && Matches(w, r.value)
    ensures r.None? ==> forall k :: 0 <= k < |ops| ==> !Matches(w, ops[k])
  {
    if ops == [] then None
    else if Matches(w, ops[0]) then Some(ops[0])
    else FirstMatch(ops[1..], w)
  }

  lemma {:induction false} FirstMatchAppend(a: seq<Op>, b: seq<Op>, w: Awaited)
    ensures FirstMatch(a + b, w) == if FirstMatch(a, w).Some? then FirstMatch(a, w) else FirstMatch(b, w)
  {
    if a == [] {
      assert a + b == b;
    } else {
      assert (a + b)[1..] == a[1..] + b;
      FirstMatchAppend(a[1..], b, w);
    }
  }

  lemma {:induction false} FirstMatchEarly(txs: seq<Transaction>, i: nat, w: Awaited)
    requires i <= |txs| && FirstMatch(OpsOf(txs[..i]), w).Some?
    ensures FirstMatch(OpsOf(txs), w) == FirstMatch(OpsOf(txs[..i]), w)
  {
    if i < |txs| {
      var k := |txs| - 1;
      assert txs[..k][..i] == txs[..i];
      FirstMatchEarly(txs[..k], i, w);
      FirstMatchAppend(OpsOf(txs[..k]), txs[k].ops, w);
    } else {
      assert txs[..i] == txs;
    }
  }

  /** Looks through one block for the first matching operation. */
  method FindOp(block: Block, w: Awaited) returns (r: Option<Op>)
    ensures r == FirstMatch(OpsOf(block.transactions), w)
  {
    var txs := block.transactions;
    for i := 0 to |txs|
      invariant FirstMatch(OpsOf(txs[..i]), w).None?
    {
      assert txs[..i + 1][..i] == txs[..i];
      FirstMatchAppend(OpsOf(txs[..i]), txs[i].ops, w);
      r := FindInTransaction(txs[i].ops, w);
      if r.Some? {
        FirstMatchEarly(txs, i + 1, w);
        return;
      }
    }
    assert txs[..|txs|] == txs;
    return None;
  }

  /** The inner loop, over the operations of one transaction. */
  method FindInTransaction(ops: seq<Op>, w: Awaited) returns (r: Option<Op>)
    ensures r == FirstMatch(ops, w)
  {
    for k := 0 to |ops|
      invariant FirstMatch(ops, w) == FirstMatch(ops[k..], w)
    {
      assert ops[k..][1..] == ops[k + 1..];
      if Matches(w, ops[k]) {
        return Some(ops[k]);
      }
    }
    return None;
  }

  /** What a delivery shows to someone waiting. */
  function Seen(log: seq<BlockRecord>, d: Delivery, w: Awaited): (r: Option<Op>) {
    if d.Record? && d.pos < |log| then FirstMatch(OpsOf(log[d.pos].block.transactions), w) else None
  }

  /** The first sighting among the deliveries still to come; none if the feed closes before one. */
  function Await(log: seq<BlockRecord>, deliveries: seq<Delivery>, from: nat, w: Awaited): (r: Option<Sighting>)
    requires from <= |deliveries|
    ensures r.Some? ==> from < r.value.next <= |deliveries|
    decreases |deliveries| - from
  {
    if from == |deliveries| then None
    else match Seen(log, deliveries[from], w)
      case Some(op) => Some(Sighting(op, deliveries[from].pos, from + 1))
      case None => Await(log, deliveries, from + 1, w)
  }

  /** Waiting finds the earliest delivery that shows a match, and gives up only if none does. */
  lemma {:induction false} AwaitIsFirst(log: seq<BlockRecord>, deliveries: seq<Delivery>, from: nat, w: Awaited, i: nat)
    requires from <= i < |deliveries|
    requires var r := Await(log, deliveries, from, w); r.Some? ==> i < r.value.next - 1
    ensures Seen(log, deliveries[i], w) == None
    decreases |deliveries| - from
  {
    if from < i { AwaitIsFirst(log, deliveries, from + 1, w, i); }
  }

  lemma {:induction false} AwaitSights(log: seq<BlockRecord>, deliveries: seq<Delivery>, from: nat, w: Awaited)
    requires from <= |deliveries| && Await(log, deliveries, from, w).Some?
    ensures Sights(log, deliveries, from, w, Await(log, deliveries, from, w).value)
    decreases |deliveries| - from
  {
    if Seen(log, deliveries[from], w).None? { AwaitSights(log, deliveries, from + 1, w); }
  }

  /** Consumes deliveries until a block holds a match; the feed closing first is a failure. */
  method WaitFor(log: seq<BlockRecord>, deliveries: seq<Delivery>, from: nat, w: Awaited) returns (r: Option<Sighting>)
    requires from <= |deliveries| && InFeedOrder(log, deliveries)
    ensures r == Await(log, deliveries, from, w)
  {
    var next := from;
    while next < |deliveries|
      invariant from <= next <= |deliveries|
      invariant Await(log, deliveries, from, w) == Await(log, deliveries, next, w)
    {
      var delivery := deliveries[next];
      if delivery.Record? {
        var found := FindOp(log[delivery.pos].block, w);
        if found.Some? {
          return Some(Sighting(found.value, delivery.pos, next + 1));
        }
      }
      next := next + 1;
    }
    return None;
  }

  function OpId(op: Op): (id: MsgId) {
    match op
    case ChannelInscribe(_, id) => id
    case ChannelBlob(_, _, id, _) => id
    case OtherOp => 0
  }

  function Last(chain: seq<Sighting>): (s: Sighting)
    requires chain != []
  {
    chain[|chain| - 1]
  }

  /** The inscription first, then each blob after the message before it, each looked for where the last was found. */
  ghost predicate IsChain(log: seq<BlockRecord>, deliveries: seq<Delivery>, channel: ChannelId, chain: seq<Sighting>) {
    && chain != []
    && if |chain| == 1 then Sights(log, deliveries, 0, Inscription(channel), Last(chain))
       else
         var before := chain[..|chain| - 1];
         && IsChain(log, deliveries, channel, before)
         && Sights(log, deliveries, Last(before).next, BlobAfter(channel, OpId(Last(before).op)), Last(chain))
  }

  /** The sightings of a flow after `blobs` blobs, if it gets that far. */
  function Flow(log: seq<BlockRecord>, deliveries: seq<Delivery>, channel: ChannelId, publishes: nat -> bool, blobs: nat)
    : (r: Option<seq<Sighting>>)
    ensures r.Some? ==> |r.value| == blobs + 1 && Last(r.value).next <= |deliveries|
  {
    if blobs == 0 then
      match Await(log, deliveries, 0, Inscription(channel))
      case None => None
      case Some(s) => Some([s])
    else match Flow(log, deliveries, channel, publishes, blobs - 1)
      case None => None
      case Some(chain) =>
        if !publishes(blobs - 1) then None
        else match Await(log, deliveries, Last(chain).next, BlobAfter(channel, OpId(Last(chain).op)))
          case None => None
          case Some(s) => Some(chain + [s])
  }

  lemma {:induction false} FlowStops(log: seq<BlockRecord>, deliveries: seq<Delivery>, channel: ChannelId,
                                     publishes: nat -> bool, k: nat, n: nat)
    requires k <= n && Flow(log, deliveries, channel, publishes, k).None?
    ensures Flow(log, deliveries, channel, publishes, n).None?
  {
    if k < n { FlowStops(log, deliveries, channel, publishes, k, n - 1); }
  }

  /**
   * A flow completes exactly when every blob is published and every wait is
   * over before the feed closes: first for the inscription, then for the child
   * of each message from where that message was found.
   */
  lemma {:induction false} FlowCompletes(log: seq<BlockRecord>, deliveries: seq<Delivery>, channel: ChannelId,
                                         publishes: nat -> bool, blobs: nat)
    ensures blobs == 0 ==>
      (Flow(log, deliveries, channel, publishes, 0).Some? <==> Await(log, deliveries, 0, Inscription(channel)).Some?)
    ensures blobs > 0 ==> var before := Flow(log, deliveries, channel, publishes, blobs - 1);
      Flow(log, deliveries, channel, publishes, blobs).Some? <==>
        && before.Some? && publishes(blobs - 1)
        && Await(log, deliveries, Last(before.value).next, BlobAfter(channel, OpId(Last(before.value).op))).Some?
    ensures Flow(log, deliveries, channel, publishes, blobs).Some? ==> forall k: nat :: k < blobs ==> publishes(k)
  {
    if blobs > 0 { FlowCompletes(log, deliveries, channel, publishes, blobs - 1); }
  }

  /**
   * `run_channel_flow`. `submits` and `publishes` say whether the cluster takes
   * the inscription and the k-th blob.
   */
  method RunChannelFlow(log: seq<BlockRecord>, deliveries: seq<Delivery>, channel: ChannelId, targetBlobs: nat,
                        submits: bool, publishes: nat -> bool) returns (r: Option<seq<Sighting>>)
    requires InFeedOrder(log, deliveries)
    ensures r == if submits then Flow(log, deliveries, channel, publishes, targetBlobs) else None
  {
    if !submits {
      return None;
    }
    var inscription := WaitFor(log, deliveries, 0, Inscription(channel));
    if inscription.None? {
      FlowStops(log, deliveries, channel, publishes, 0, targetBlobs);
      return None;
    }
    var chain := [inscription.value];
    var parent, next := OpId(inscription.value.op), inscription.value.next;
    for idx := 0 to targetBlobs
      invariant Flow(log, deliveries, channel, publishes, idx) == Some(chain)
      invariant parent == OpId(Last(chain).op) && next == Last(chain).next
    {
      if !publishes(idx) {
        FlowStops(log, deliveries, channel, publishes, idx + 1, targetBlobs);
        return None;
      }
      var blob := WaitFor(log, deliveries, next, BlobAfter(channel, parent));
      if blob.None? {
        FlowStops(log, deliveries, channel, publishes, idx + 1, targetBlobs);
        return None;
      }
      chain := chain + [blob.value];
      parent, next := OpId(blob.value.op), blob.value.next;
    }
    return Some(chain);
  }

  /** What a completed flow has seen is a chain. */
  lemma {:induction false} FlowIsChain(log: seq<BlockRecord>, deliveries: seq<Delivery>, channel: ChannelId,
                                       publishes: nat -> bool, blobs: nat)
    requires Flow(log, deliveries, channel, publishes, blobs).Some?
    ensures IsChain(log, deliveries, channel, Flow(log, deliveries, channel, publishes, blobs).value)
  {
    var chain := Flow(log, deliveries, channel, publishes, blobs).value;
    if blobs == 0 {
      AwaitSights(log, deliveries, 0, Inscription(channel));
    } else {
      var before := Flow(log, deliveries, channel, publishes, blobs - 1).value;
      FlowIsChain(log, deliveries, channel, publishes, blobs - 1);
      AwaitSights(log, deliveries, Last(before).next, BlobAfter(channel, OpId(Last(before).op)));
      assert chain[..|chain| - 1] == before;
    }
  }

  lemma LastPlaced(log: seq<BlockRecord>, deliveries: seq<Delivery>, channel: ChannelId, chain: seq<Sighting>)
    requires IsChain(log, deliveries, channel, chain)
    ensures var s := Last(chain);
      && 0 < s.next <= |deliveries| && deliveries[s.next - 1] == Record(s.pos)
      && s.pos < |log| && s.op in OpsOf(log[s.pos].block.transactions)
      && if |chain| == 1 then IsInscriptionOf(s.op, channel) else IsBlobOn(s.op, channel)
  {
  }

  lemma StepAdvances(log: seq<BlockRecord>, deliveries: seq<Delivery>, channel: ChannelId, chain: seq<Sighting>)
    requires InFeedOrder(log, deliveries) && IsChain(log, deliveries, channel, chain) && |chain| > 1
    ensures Last(chain[..|chain| - 1]).pos < Last(chain).pos
  {
    var before := chain[..|chain| - 1];
    LastPlaced(log, deliveries, channel, before);
    LastPlaced(log, deliveries, channel, chain);
    var a, b := Last(before).next - 1, Last(chain).next - 1;
    assert a < b && deliveries[a].Record? && deliveries[b].Record?;
  }

  /**
   * The messages of a completed flow are linked by their parents, and each sits
   * in a strictly later block record than all before it.
   */
  lemma {:induction false} ChainIsLinked(log: seq<BlockRecord>, deliveries: seq<Delivery>, channel: ChannelId,
                                         chain: seq<Sighting>, j: nat, k: nat)
    requires InFeedOrder(log, deliveries) && IsChain(log, deliveries, channel, chain) && j < k < |chain|
    ensures chain[j].pos < chain[k].pos
    ensures IsBlobOn(chain[k].op, channel)
    ensures if j == 0 then IsInscriptionOf(chain[j].op, channel) else IsBlobOn(chain[j].op, channel)
    ensures j + 1 == k ==> chain[k].op.parent == chain[j].op.id
    decreases |chain|
  {
    var before := chain[..|chain| - 1];
    if k < |chain| - 1 {
      ChainIsLinked(log, deliveries, channel, before, j, k);
    } else {
      LastPlaced(log, deliveries, channel, chain);
      StepAdvances(log, deliveries, channel, chain);
      if j < k - 1 { ChainIsLinked(log, deliveries, channel, before, j, k - 1); }
    }
  }

  // ------------------------------------------------- flows against the capture

  lemma {:induction false} SomeBlobCounts(ops: seq<Op>, op: Op, channel: ChannelId)
    requires op in ops && IsBlobOn(op, channel)
    ensures BlobCount(ops, channel) >= 1
  {
    var k := |ops| - 1;
    if ops[k] != op { SomeBlobCounts(ops[..k], op, channel); }
  }

  lemma {:induction false} CountGrows(log: seq<BlockRecord>, a: nat, b: nat, channel: ChannelId)
    requires a <= b <= |log|
    ensures BlobCount(AllOps(log[..a]), channel) <= BlobCount(AllOps(log[..b]), channel)
    decreases b - a
  {
    if a < b {
      CountGrows(log, a, b - 1, channel);
      assert log[..b][..b - 1] == log[..b - 1];
      BlobCountAppend(AllOps(log[..b - 1]), OpsOf(log[b - 1].block.transactions), channel);
    }
  }

  /** Up to the record of a flow's last message the feed holds at least as many blobs as the flow confirmed. */
  lemma {:induction false} FlowBlobsCounted(log: seq<BlockRecord>, deliveries: seq<Delivery>, channel: ChannelId,
                                            chain: seq<Sighting>)
    requires InFeedOrder(log, deliveries) && IsChain(log, deliveries, channel, chain)
    ensures Last(chain).pos < |log| && BlobCount(AllOps(log[..Last(chain).pos + 1]), channel) >= |chain| - 1
  {
    LastPlaced(log, deliveries, channel, chain);
    if |chain| > 1 {
      var before, p := chain[..|chain| - 1], Last(chain).pos;
      FlowBlobsCounted(log, deliveries, channel, before);
      StepAdvances(log, deliveries, channel, chain);
      CountGrows(log, Last(before).pos + 1, p, channel);
      OneMoreBlob(log, p, Last(chain).op, channel);
    }
  }

  lemma OneMoreBlob(log: seq<BlockRecord>, p: nat, op: Op, channel: ChannelId)
    requires p < |log| && op in OpsOf(log[p].block.transactions) && IsBlobOn(op, channel)
    ensures BlobCount(AllOps(log[..p + 1]), channel) >= BlobCount(AllOps(log[..p]), channel) + 1
  {
    assert log[..p + 1][..p] == log[..p];
    BlobCountAppend(AllOps(log[..p]), OpsOf(log[p].block.transactions), channel);
    SomeBlobCounts(OpsOf(log[p].block.transactions), op, channel);
  }

  lemma {:induction false} OpsIncluded(log: seq<BlockRecord>, p: nat, op: Op)
    requires p < |log| && op in OpsOf(log[p].block.transactions)
    ensures op in AllOps(log)
  {
    if p < |log| - 1 { OpsIncluded(log[..|log| - 1], p, op); }
  }

  // ------------------------------------------------------------- the verdict

  datatype DaError = MissingInscriptions(observed: nat, required: nat) | MissingBlobs(observed: nat, required: nat)

  /** `evaluate`, given what was captured and how many blocks were seen during the run. */
  ghost function Evaluate(planned: set<ChannelId>, s: Captured, runBlocks: nat, blobRate: nat): (r: Result<(), DaError>) {
    var missing := planned - s.inscriptions;
    var observed := if |planned| >= |missing| then |planned| - |missing| else 0;
    var required := MinimumRequired(|planned|);
    var requiredBlobs := MinimumRequired(SaturatingMul(blobRate, Max(runBlocks, 1)));
    if observed < required then Err(MissingInscriptions(observed, required))
    else if SumValues(s.blobs) < requiredBlobs then Err(MissingBlobs(SumValues(s.blobs), requiredBlobs))
    else Ok(())
  }

  /**
   * The verdict in full: too few planned channels inscribed is reported first,
   * then too few blobs; four fifths of each are enough. The expected blobs are
   * the rate for each block seen, but for one block at least.
   */
  lemma EvaluateIsExact(planned: set<ChannelId>, s: Captured, runBlocks: nat, blobRate: nat, blocks: nat)
    requires blocks == if runBlocks == 0 then 1 else runBlocks
    requires blobRate * blocks < U64_LIMIT
    ensures var r := Evaluate(planned, s, runBlocks, blobRate);
      var inscribed, blobs := |planned * s.inscriptions|, SumValues(s.blobs);
      && (r == Ok(()) <==> 5 * inscribed >= 4 * |planned| && 5 * blobs >= 4 * (blobRate * blocks))
      && (r.Err? && r.error.MissingInscriptions? <==> 5 * inscribed < 4 * |planned|)
      && (r.Err? && r.error.MissingInscriptions? ==> r.error.observed == inscribed)
      && (r.Err? && r.error.MissingBlobs? ==> r.error.observed == blobs)
    ensures var r := Evaluate(planned, s, runBlocks, blobRate);
      r.Err? ==>
        var all := if r.error.MissingInscriptions? then |planned| else blobRate * blocks;
        r.error.observed < r.error.required && 4 * all <= 5 * r.error.required < 4 * all + 5
  {
    assert planned == (planned - s.inscriptions) + planned * s.inscriptions;
    assert |planned| == |planned - s.inscriptions| + |planned * s.inscriptions|;
    assert SaturatingMul(blobRate, Max(runBlocks, 1)) == blobRate * blocks;
  }

  /** Every planned channel's flow completed against the feed, whatever its receiver missed. */
  ghost predicate FlowsComplete(log: seq<BlockRecord>, ids: seq<ChannelId>, target: nat,
                                deliveries: seq<seq<Delivery>>, publishes: seq<nat -> bool>) {
    && |deliveries| == |publishes| == |ids|
    && forall i :: 0 <= i < |ids| ==>
      InFeedOrder(log, deliveries[i]) && Flow(log, deliveries[i], ids[i], publishes[i], target).Some?
  }

  lemma CompletedFlowCounts(log: seq<BlockRecord>, ds: seq<Delivery>, channel: ChannelId, chain: seq<Sighting>)
    requires InFeedOrder(log, ds) && IsChain(log, ds, channel, chain)
    ensures BlobCount(AllOps(log), channel) >= |chain| - 1
    ensures HasInscription(AllOps(log), channel)
  {
    FlowBlobsCounted(log, ds, channel, chain);
    CountGrows(log, Last(chain).pos + 1, |log|, channel);
    assert log[..|log|] == log;
    FirstIsInscription(log, ds, channel, chain);
    var op := chain[0].op;
    OpsIncluded(log, chain[0].pos, op);
    var k :| 0 <= k < |AllOps(log)| && AllOps(log)[k] == op;
    assert IsInscriptionOf(AllOps(log)[k], channel);
  }

  lemma {:induction false} FirstIsInscription(log: seq<BlockRecord>, ds: seq<Delivery>, channel: ChannelId,
                                              chain: seq<Sighting>)
    requires IsChain(log, ds, channel, chain)
    ensures chain[0].pos < |log| && chain[0].op in OpsOf(log[chain[0].pos].block.transactions)
    ensures IsInscriptionOf(chain[0].op, channel)
  {
    if |chain| > 1 { FirstIsInscription(log, ds, channel, chain[..|chain| - 1]); }
  }

  lemma {:induction false} CountAllChannels(ids: seq<ChannelId>, ops: seq<Op>, target: nat)
    requires forall i :: 0 <= i < |ids| ==> BlobCount(ops, ids[i]) >= target
    ensures CountOver(ids, ops) >= Times(|ids|, target)
  {
    if ids != [] {
      CountAllChannels(ids[..|ids| - 1], ops, target);
    }
  }

  /** The capture of the whole feed holds every inscription, and at least as many blobs as the flows confirmed. */
  lemma FlowsAreCaptured(log: seq<BlockRecord>, ids: seq<ChannelId>, target: nat,
                         deliveries: seq<seq<Delivery>>, publishes: seq<nat -> bool>)
    requires DistinctIds(ids) && FlowsComplete(log, ids, target, deliveries, publishes)
    ensures var s := CaptureAll(Elements(ids), log);
      Elements(ids) <= s.inscriptions && SumValues(s.blobs) >= Times(|ids|, target)
  {
    var planned := Elements(ids);
    forall i | 0 <= i < |ids| ensures BlobCount(AllOps(log), ids[i]) >= target && HasInscription(AllOps(log), ids[i]) {
      FlowIsChain(log, deliveries[i], ids[i], publishes[i], target);
      CompletedFlowCounts(log, deliveries[i], ids[i], Flow(log, deliveries[i], ids[i], publishes[i], target).value);
    }
    forall c | c in planned ensures c in CaptureAll(planned, log).inscriptions {
      var i :| 0 <= i < |ids| && ids[i] == c;
      CaptureIsExact(planned, log, c);
    }
    CaptureIsExact(planned, log, []);
    TotalByChannel(ids, planned, AllOps(log));
    CountAllChannels(ids, AllOps(log), target);
  }

  /**
   * Flow implies check: if every planned channel's flow completes, the capture
   * misses no record, and no more blocks are seen than the plan counted on,
   * then the evaluation succeeds.
   */
  lemma CompletedFlowsPassCheck(log: seq<BlockRecord>, blobRate: nat, channelRate: nat, headroom: nat,
                                expectedBlocks: nat, runBlocks: nat,
                                deliveries: seq<seq<Delivery>>, publishes: seq<nat -> bool>)
    requires channelRate * headroom + 99 < U64_LIMIT
    requires PlannedBlobCount(blobRate, expectedBlocks) + PlannedChannelCount(channelRate, headroom) < U64_LIMIT
    requires var channels := PlannedChannelCount(channelRate, headroom);
      FlowsComplete(log, PlannedChannelIds(channels),
        PerChannelTarget(PlannedBlobCount(blobRate, expectedBlocks), channels), deliveries, publishes)
    requires runBlocks <= Max(expectedBlocks, 1)
    ensures var planned := Elements(PlannedChannelIds(PlannedChannelCount(channelRate, headroom)));
      Evaluate(planned, CaptureAll(planned, log), runBlocks, blobRate) == Ok(())
  {
    var channels := PlannedChannelCount(channelRate, headroom);
    var total := PlannedBlobCount(blobRate, expectedBlocks);
    var target := PerChannelTarget(total, channels);
    var ids := PlannedChannelIds(channels);
    var planned := Elements(ids);
    forall i, j | 0 <= i < j < |ids| ensures ids[i] != ids[j] {
      ChannelIdsApart(channels, i, j);
    }
    FlowsAreCaptured(log, ids, target, deliveries, publishes);
    TargetCoversPlan(total, channels);
    TimesIsProduct(channels, target);
    SaturatingMulMonotone(blobRate, Max(runBlocks, 1), Max(expectedBlocks, 1));
    assert planned - CaptureAll(planned, log).inscriptions == {};
  }
}
