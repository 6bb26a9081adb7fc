/**
 * What the data-availability expectation records of each block: the planned
 * channels inscribed, and how many blobs each planned channel has received.
 */
module DaCapture {
  import opened Mantle

  // --------------------------------------------------- operations of a feed

  /** All operations of a list of transactions, in order. */
  function OpsOf(txs: seq<Transaction>): (ops: seq<Op>) {
    if txs == [] then [] else OpsOf(txs[..|txs| - 1]) + txs[|txs| - 1].ops
  }

  function AllOps(records: seq<BlockRecord>): (ops: seq<Op>) {
    if records == [] then []
    else AllOps(records[..|records| - 1]) + OpsOf(records[|records| - 1].block.transactions)
  }

  predicate IsBlobOn(op: Op, channel: ChannelId) {
    op.ChannelBlob? && op.channel == channel
  }

  predicate IsInscriptionOf(op: Op, channel: ChannelId) {
    op.ChannelInscribe? && op.channel == channel
  }

  function BlobCount(ops: seq<Op>, channel: ChannelId): (n: nat) {
    if ops == [] then 0
    else BlobCount(ops[..|ops| - 1], channel) + if IsBlobOn(ops[|ops| - 1], channel) then 1 else 0
  }

  lemma {:induction false} BlobCountAppend(a: seq<Op>, b: seq<Op>, channel: ChannelId)
    ensures BlobCount(a + b, channel) == BlobCount(a, channel) + BlobCount(b, channel)
    decreases |b|
  {
    if b == [] {
      assert a + b == a;
    } else {
      assert (a + b)[..|a + b| - 1] == a + b[..|b| - 1];
      BlobCountAppend(a, b[..|b| - 1], channel);
    }
  }

  // ------------------------------------------------------------- capturing

  /** The planned channels that `ops` inscribes, with repetitions. */
  function Inscribed(planned: set<ChannelId>, ops: seq<Op>): (cs: seq<ChannelId>) {
    if ops == [] then []
    else
      var op := ops[|ops| - 1];
      Inscribed(planned, ops[..|ops| - 1]) + if op.ChannelInscribe? && op.channel in planned then [op.channel] else []
  }

  /** The planned channels that `ops` adds blobs to, once for each blob. */
  function Blobbed(planned: set<ChannelId>, ops: seq<Op>): (cs: seq<ChannelId>) {
    if ops == [] then []
    else
      var op := ops[|ops| - 1];
      Blobbed(planned, ops[..|ops| - 1]) + if op.ChannelBlob? && op.channel in planned then [op.channel] else []
  }

  function Elements(cs: seq<ChannelId>): (r: set<ChannelId>) {
    set i | 0 <= i < |cs| :: cs[i]
  }

  function Bump(m: map<ChannelId, nat>, c: ChannelId): (r: map<ChannelId, nat>) {
    m[c := (if c in m then m[c] else 0) + 1]
  }

  function BumpAll(m: map<ChannelId, nat>, cs: seq<ChannelId>): (r: map<ChannelId, nat>) {
    if cs == [] then m else Bump(BumpAll(m, cs[..|cs| - 1]), cs[|cs| - 1])
  }

  datatype Captured = Captured(inscriptions: set<ChannelId>, blobs: map<ChannelId, nat>)

  /** The capture after one block. */
  function CaptureBlock(planned: set<ChannelId>, s: Captured, record: BlockRecord): (r: Captured) {
    var ops := OpsOf(record.block.transactions);
    Captured(s.inscriptions + Elements(Inscribed(planned, ops)), BumpAll(s.blobs, Blobbed(planned, ops)))
  }

  function CaptureAll(planned: set<ChannelId>, records: seq<BlockRecord>): (s: Captured) {
    if records == [] then Captured({}, map[])
    else CaptureBlock(planned, CaptureAll(planned, records[..|records| - 1]), records[|records| - 1])
  }

  lemma {:induction false} InscribedAppend(planned: set<ChannelId>, a: seq<Op>, b: seq<Op>)
    ensures Inscribed(planned, a + b) == Inscribed(planned, a) + Inscribed(planned, b)
    ensures Blobbed(planned, a + b) == Blobbed(planned, a) + Blobbed(planned, b)
    decreases |b|
  {
    if b == [] {
      assert a + b == a;
    } else {
      assert (a + b)[..|a + b| - 1] == a + b[..|b| - 1];
      InscribedAppend(planned, a, b[..|b| - 1]);
    }
  }

  class Capture {
    const planned: set<ChannelId>
    var inscriptions: set<ChannelId>
    var blobs: map<ChannelId, nat>

    constructor (planned: set<ChannelId>)
      ensures this.planned == planned && View() == CaptureAll(planned, [])
    {
      this.planned, inscriptions, blobs := planned, {}, map[];
    }

    ghost function View(): (s: Captured)
      reads this
    {
      Captured(inscriptions, blobs)
    }

    /** `capture_block`: collects first, then updates the two shared collections. */
    method Receive(record: BlockRecord)
      modifies this
      ensures View() == CaptureBlock(planned, old(View()), record)
    {
      var txs := record.block.transactions;
      var newInscriptions: seq<ChannelId>, newBlobs: seq<ChannelId> := [], [];
      for i := 0 to |txs|
        invariant newInscriptions == Inscribed(planned, OpsOf(txs[..i]))
        invariant newBlobs == Blobbed(planned, OpsOf(txs[..i]))
        invariant View() == old(View())
      {
        var ins, bls := Scan(txs[i].ops);
        assert txs[..i + 1][..i] == txs[..i];
        InscribedAppend(planned, OpsOf(txs[..i]), txs[i].ops);
        newInscriptions, newBlobs := newInscriptions + ins, newBlobs + bls;
      }
      assert txs[..|txs|] == txs;
      inscriptions := inscriptions + Elements(newInscriptions);
      for k := 0 to |newBlobs|
        invariant blobs == BumpAll(old(blobs), newBlobs[..k])
        invariant inscriptions == old(inscriptions) + Elements(newInscriptions)
      {
        assert newBlobs[..k + 1][..k] == newBlobs[..k];
        var channel := newBlobs[k];
        blobs := blobs[channel := (if channel in blobs then blobs[channel] else 0) + 1];
      }
      assert newBlobs[..|newBlobs|] == newBlobs;
    }

    method Scan(ops: seq<Op>) returns (newInscriptions: seq<ChannelId>, newBlobs: seq<ChannelId>)
      ensures newInscriptions == Inscribed(planned, ops) && newBlobs == Blobbed(planned, ops)
    {
      newInscriptions, newBlobs := [], [];
      for i := 0 to |ops|
        invariant newInscriptions == Inscribed(planned, ops[..i])
        invariant newBlobs == Blobbed(planned, ops[..i])
      {
        assert ops[..i + 1][..i] == ops[..i];
        match ops[i] {
          case ChannelInscribe(channel, _) =>
            if channel in planned { newInscriptions := newInscriptions + [channel]; }
          case ChannelBlob(channel, _, _, _) =>
            if channel in planned { newBlobs := newBlobs + [channel]; }
          case OtherOp =>
        }
      }
      assert ops[..|ops|] == ops;
    }
  }

  // ------------------------------------------------------ sums over a map

  /** `values().sum()`. */
  ghost function SumValues(m: map<ChannelId, nat>): (total: nat)
    decreases |m|
  {
    if m == map[] then 0
    else
      var c :| c in m;
      assert |m - {c}| < |m| by { assert (m - {c}).Keys == m.Keys - {c}; }
      m[c] + SumValues(m - {c})
  }

  lemma {:induction false} SumWithout(m: map<ChannelId, nat>, c: ChannelId)
    requires c in m
    ensures SumValues(m) == m[c] + SumValues(m - {c})
    decreases |m|
  {
    var d :| d in m && SumValues(m) == m[d] + SumValues(m - {d});
    if c != d {
      assert |m - {d}| < |m| && |m - {c}| < |m| by {
        assert (m - {d}).Keys == m.Keys - {d} && (m - {c}).Keys == m.Keys - {c};
      }
      SumWithout(m - {d}, c);
      SumWithout(m - {c}, d);
      assert m - {d} - {c} == m - {c} - {d};
    }
  }

  lemma SumBump(m: map<ChannelId, nat>, c: ChannelId)
    ensures SumValues(Bump(m, c)) == SumValues(m) + 1
  {
    var r := Bump(m, c);
    SumWithout(r, c);
    if c in m {
      SumWithout(m, c);
      assert r - {c} == m - {c};
    } else {
      assert r - {c} == m;
    }
  }

  lemma {:induction false} SumBumpAll(m: map<ChannelId, nat>, cs: seq<ChannelId>)
    ensures SumValues(BumpAll(m, cs)) == SumValues(m) + |cs|
  {
    if cs != [] {
      SumBumpAll(m, cs[..|cs| - 1]);
      SumBump(BumpAll(m, cs[..|cs| - 1]), cs[|cs| - 1]);
    }
  }

  // ------------------------------------------------------------- exactness

  lemma {:induction false} BumpAllAppend(m: map<ChannelId, nat>, a: seq<ChannelId>, b: seq<ChannelId>)
    ensures BumpAll(m, a + b) == BumpAll(BumpAll(m, a), b)
    decreases |b|
  {
    if b == [] {
      assert a + b == a;
    } else {
      assert (a + b)[..|a + b| - 1] == a + b[..|b| - 1];
      BumpAllAppend(m, a, b[..|b| - 1]);
    }
  }

  /** Capturing block by block is capturing the whole stream of operations at once. */
  lemma {:induction false} CaptureIsFold(planned: set<ChannelId>, records: seq<BlockRecord>)
    ensures CaptureAll(planned, records)
      == Captured(Elements(Inscribed(planned, AllOps(records))), BumpAll(map[], Blobbed(planned, AllOps(records))))
  {
    if records != [] {
      var k := |records| - 1;
      var a, b := AllOps(records[..k]), OpsOf(records[k].block.transactions);
      CaptureIsFold(planned, records[..k]);
      InscribedAppend(planned, a, b);
      BumpAllAppend(map[], Blobbed(planned, a), Blobbed(planned, b));
      var x, y := Inscribed(planned, a), Inscribed(planned, b);
      ElementsAppend(x, y);
    }
  }

  lemma ElementsAppend(x: seq<ChannelId>, y: seq<ChannelId>)
    ensures Elements(x + y) == Elements(x) + Elements(y)
  {
    forall c | c in Elements(x) + Elements(y) ensures c in Elements(x + y) {
      if c in Elements(x) {
        var i :| 0 <= i < |x| && x[i] == c;
        assert (x + y)[i] == c;
      } else {
        var i :| 0 <= i < |y| && y[i] == c;
        assert (x + y)[|x| + i] == c;
      }
    }
  }

  lemma {:induction false} BumpCounts(planned: set<ChannelId>, ops: seq<Op>, c: ChannelId)
    ensures var m := BumpAll(map[], Blobbed(planned, ops));
      && (c in m <==> c in planned && BlobCount(ops, c) > 0)
      && (c in m ==> m[c] == BlobCount(ops, c))
  {
    if ops != [] {
      var k := |ops| - 1;
      BumpCounts(planned, ops[..k], c);
      var op := ops[k];
      var before := Blobbed(planned, ops[..k]);
      if op.ChannelBlob? && op.channel in planned {
        assert Blobbed(planned, ops) == before + [op.channel];
        BumpStep(map[], before, op.channel);
      } else {
        assert Blobbed(planned, ops) == before;
      }
    }
  }

  lemma BumpStep(m: map<ChannelId, nat>, cs: seq<ChannelId>, c: ChannelId)
    ensures BumpAll(m, cs + [c]) == Bump(BumpAll(m, cs), c)
  {
    assert (cs + [c])[..|cs|] == cs;
  }

  ghost predicate HasInscription(ops: seq<Op>, c: ChannelId) {
    exists k :: 0 <= k < |ops| && IsInscriptionOf(ops[k], c)
  }

  lemma HasInscriptionStep(ops: seq<Op>, op: Op, c: ChannelId)
    ensures HasInscription(ops + [op], c) <==> HasInscription(ops, c) || IsInscriptionOf(op, c)
  {
    if HasInscription(ops, c) {
      var k :| 0 <= k < |ops| && IsInscriptionOf(ops[k], c);
      assert IsInscriptionOf((ops + [op])[k], c);
    }
    if IsInscriptionOf(op, c) {
      assert IsInscriptionOf((ops + [op])[|ops|], c);
    }
  }

  lemma {:induction false} InscribedMembers(planned: set<ChannelId>, ops: seq<Op>, c: ChannelId)
    ensures c in Elements(Inscribed(planned, ops)) <==> c in planned && HasInscription(ops, c)
  {
    if ops != [] {
      var k := |ops| - 1;
      var op := ops[k];
      InscribedMembers(planned, ops[..k], c);
      HasInscriptionStep(ops[..k], op, c);
      assert ops[..k] + [op] == ops;
      if op.ChannelInscribe? && op.channel in planned {
        ElementsAppend(Inscribed(planned, ops[..k]), [op.channel]);
        assert [op.channel][0] == op.channel;
        assert Elements([op.channel]) == {op.channel};
      } else {
        assert Inscribed(planned, ops[..k]) + [] == Inscribed(planned, ops[..k]);
      }
    }
  }

  /**
   * After any sequence of received blocks the capture is exact: a planned
   * channel is in the set when it was inscribed, the map holds the number of
   * its blobs, and the map's values add up to all blobs on planned channels.
   */
  lemma CaptureIsExact(planned: set<ChannelId>, records: seq<BlockRecord>, c: ChannelId)
    ensures var s := CaptureAll(planned, records);
      && (c in s.inscriptions <==> c in planned && HasInscription(AllOps(records), c))
      && (c in s.blobs <==> c in planned && BlobCount(AllOps(records), c) > 0)
      && (c in s.blobs ==> s.blobs[c] == BlobCount(AllOps(records), c))
      && SumValues(s.blobs) == |Blobbed(planned, AllOps(records))|
  {
    CaptureIsFold(planned, records);
    InscribedMembers(planned, AllOps(records), c);
    BumpCounts(planned, AllOps(records), c);
    SumBumpAll(map[], Blobbed(planned, AllOps(records)));
    assert SumValues(map[]) == 0;
  }

  /** Blobs on planned channels, channel by channel. */
  function CountOver(ids: seq<ChannelId>, ops: seq<Op>): (n: nat) {
    if ids == [] then 0 else CountOver(ids[..|ids| - 1], ops) + BlobCount(ops, ids[|ids| - 1])
  }

  ghost predicate DistinctIds(ids: seq<ChannelId>) {
    forall i, j :: 0 <= i < j < |ids| ==> ids[i] != ids[j]
  }

  lemma {:induction false} CountOverStep(ids: seq<ChannelId>, ops: seq<Op>, op: Op)
    requires DistinctIds(ids)
    ensures CountOver(ids, ops + [op]) == CountOver(ids, ops) +
      if op.ChannelBlob? && op.channel in ids then 1 else 0
  {
    assert (ops + [op])[..|ops|] == ops;
    if ids != [] {
      var k := |ids| - 1;
      CountOverStep(ids[..k], ops, op);
      assert ids == ids[..k] + [ids[k]];
    }
  }

  /** The total of the map is the sum over the planned channels. */
  lemma {:induction false} TotalByChannel(ids: seq<ChannelId>, planned: set<ChannelId>, ops: seq<Op>)
    requires DistinctIds(ids) && forall c :: c in planned <==> c in ids
    ensures |Blobbed(planned, ops)| == CountOver(ids, ops)
  {
    if ops == [] {
      ZeroOver(ids);
    } else {
      var k := |ops| - 1;
      TotalByChannel(ids, planned, ops[..k]);
      CountOverStep(ids, ops[..k], ops[k]);
      assert ops[..k] + [ops[k]] == ops;
    }
  }

  lemma {:induction false} ZeroOver(ids: seq<ChannelId>)
    ensures CountOver(ids, []) == 0
  {
    if ids != [] { ZeroOver(ids[..|ids| - 1]); }
  }
}
