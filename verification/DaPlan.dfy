/** How many channels and blobs the data-availability workload plans, and the channel ids it uses. */
module DaPlan {
  import opened Integers
  import opened Bytes
  import opened Counting
  import opened Mantle

  const CHANNEL_PREFIX: seq<Byte> := [99, 104, 110, 95, 119, 114, 107, 100] // "chn_wrkd"

  function SaturatingMul(a: nat, b: nat): (r: nat) {
    Min(a * b, U64_LIMIT - 1)
  }

  function SaturatingAdd(a: nat, b: nat): (r: nat) {
    Min(a + b, U64_LIMIT - 1)
  }

  /** `planned_channel_count`; adding 99 must not overflow. */
  function PlannedChannelCount(rate: nat, headroomPercent: nat): (n: nat)
    requires rate * headroomPercent + 99 < U64_LIMIT
    ensures n >= 1
  {
    Max(SaturatingAdd(rate, (SaturatingMul(rate, headroomPercent) + 99) / 100), 1)
  }

  /** `planned_blob_count`. */
  function PlannedBlobCount(rate: nat, expectedBlocks: nat): (n: nat) {
    SaturatingMul(rate, Max(expectedBlocks, 1))
  }

  /** `per_channel_blob_target`; the rounding must not overflow. */
  function PerChannelTarget(total: nat, channels: nat): (n: nat)
    requires total + channels < U64_LIMIT
    ensures n >= 1
  {
    if channels == 0 then Max(total, 1) else Max(CeilDiv(total, channels), 1)
  }

  function ChannelIdAt(index: nat): (id: ChannelId) {
    CHANNEL_PREFIX + Zeros(16) + ToBE(index, 8)
  }

  function PlannedChannelIds(count: nat): (ids: seq<ChannelId>)
    ensures |ids| == count
  {
    seq(count, i requires 0 <= i < count => ChannelIdAt(i))
  }

  /** Planned channels never share an id. */
  lemma ChannelIdsApart(count: nat, i: nat, j: nat)
    requires count <= U64_LIMIT && i < j < count
    ensures PlannedChannelIds(count)[i] != PlannedChannelIds(count)[j]
  {
    if ChannelIdAt(i) == ChannelIdAt(j) {
      assert ToBE(i, 8) == ChannelIdAt(i)[24..] && ToBE(j, 8) == ChannelIdAt(j)[24..];
      Pow256Values();
      ToBEInjective(i, j, 8);
    }
  }

  /** Filling every channel up to its target covers the planned blobs. */
  lemma TargetCoversPlan(total: nat, channels: nat)
    requires channels > 0 && total + channels < U64_LIMIT
    ensures channels * PerChannelTarget(total, channels) >= total
  {
    var q := CeilDiv(total, channels);
    Euclid(total + channels - 1, channels);
    assert q * channels + (total + channels - 1) % channels == total + channels - 1;
    var t := PerChannelTarget(total, channels);
    assert t >= q;
    if t > q { MulSplit(t, q, channels); }
    assert channels * t == t * channels;
  }

  /** 80 percent, rounded up, in exact arithmetic. */
  function MinimumRequired(total: nat): (n: nat)
    ensures n <= total
    ensures 5 * n >= 4 * total
    ensures n > 0 ==> 5 * (n - 1) < 4 * total
  {
    (4 * total + 4) / 5
  }

  lemma {:induction false} SaturatingMulMonotone(rate: nat, a: nat, b: nat)
    requires a <= b
    ensures SaturatingMul(rate, a) <= SaturatingMul(rate, b)
    decreases b
  {
    if a < b {
      assert rate * b == rate * (b - 1) + rate;
      SaturatingMulMonotone(rate, a, b - 1);
    }
  }

  // --------------------------------------------------------- what is planned

  /** As many channels as the rate, and a headroom in percent on top, rounded up. */
  lemma ChannelCountHasHeadroom(rate: nat, headroomPercent: nat)
    requires rate > 0 && rate * headroomPercent + 99 < U64_LIMIT
    ensures var n := PlannedChannelCount(rate, headroomPercent);
      && n < U64_LIMIT
      && (n == U64_LIMIT - 1 ||
          (n >= rate && rate * headroomPercent <= 100 * (n - rate) < rate * headroomPercent + 100))
    ensures rate + rate * headroomPercent < U64_LIMIT ==>
      rate * headroomPercent <= 100 * (PlannedChannelCount(rate, headroomPercent) - rate) < rate * headroomPercent + 100
  {
    var extra := (rate * headroomPercent + 99) / 100;
    assert rate * headroomPercent <= 100 * extra < rate * headroomPercent + 100;
    assert PlannedChannelCount(rate, headroomPercent) == Min(rate + extra, U64_LIMIT - 1);
  }

  /** The rate for each expected block, but for one block at least, cut off to 64 bits. */
  lemma BlobCountIsRate(rate: nat, expectedBlocks: nat)
    ensures var exact := if expectedBlocks == 0 then rate else rate * expectedBlocks;
      PlannedBlobCount(rate, expectedBlocks) == if exact < U64_LIMIT then exact else U64_LIMIT - 1
  {
  }

  /** The target is the least positive number that covers the planned blobs. */
  lemma TargetIsLeast(total: nat, channels: nat, t: nat)
    requires channels > 0 && total + channels < U64_LIMIT && t > 0
    ensures PerChannelTarget(total, channels) <= t <==> Times(t, channels) >= total
  {
    var q := CeilDiv(total, channels);
    Rounding(total, channels);
    TimesMonotone(q, t, channels);
    TimesMonotone(t + 1, q, channels);
  }

  /** A planned id: eight letters, sixteen zeros, and the index with its highest byte first. */
  lemma ChannelIdLayout(index: nat, i: nat)
    requires index < U64_LIMIT && i < 32
    ensures |ChannelIdAt(index)| == 32
    ensures i < 8 ==> ChannelIdAt(index)[i] == "chn_wrkd"[i] as int
    ensures 8 <= i < 24 ==> ChannelIdAt(index)[i] == 0
    ensures FromLE(Reverse(ChannelIdAt(index)[24..])) == index
  {
    assert ChannelIdAt(index)[24..] == ToBE(index, 8);
    BigEndianRoundTrip(index, 8);
    Pow256Values();
    if i < 8 {
      assert ChannelIdAt(index)[i] == CHANNEL_PREFIX[i];
    }
  }
}
