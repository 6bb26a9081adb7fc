/**
 * The transaction workload and the expectation that checks it. Each wallet
 * account spends its genesis output back to itself; the workload and the
 * expectation work out separately how many transactions that makes and whose.
 */
module TxWorkload {
  import opened Integers
  import opened Wrappers
  import opened Counting
  import opened Mantle
  import opened Wallet
  import opened Genesis
  import Keys

  datatype Utxo = Utxo(txHash: nat, outputIndex: nat, note: Note)

  datatype WalletInput = WalletInput(account: WalletAccount, utxo: Utxo)

  datatype TxError = NoSeededAccounts | NoNodes | NoMatchingAccounts | ZeroTransactions | SubmissionFailed

  /** Durations in nanoseconds; the block interval is unknown without validators. */
  datatype RunMetrics = RunMetrics(runDuration: nat, expectedBlocks: nat, blockInterval: Option<nat>)

  function AccountKey(c: Suite, a: WalletAccount): (pk: PublicKey) {
    c.zkPublic(a.secretKey)
  }

  // ------------------------------------------------------------------- init

  /** `wallet_utxo_map`: outputs by owner; a later output replaces an earlier one. */
  function UtxoMap(txHash: nat, outputs: seq<Note>): (m: map<PublicKey, Utxo>) {
    if outputs == [] then map[]
    else
      var k := |outputs| - 1;
      UtxoMap(txHash, outputs[..k])[outputs[k].pk := Utxo(txHash, k, outputs[k])]
  }

  /** The accounts that own some output, each with the output found for it. */
  function MatchAccounts(c: Suite, accounts: seq<WalletAccount>, m: map<PublicKey, Utxo>): (inputs: seq<WalletInput>) {
    if accounts == [] then []
    else
      var k := |accounts| - 1;
      var rest := MatchAccounts(c, accounts[..k], m);
      if AccountKey(c, accounts[k]) in m
      then rest + [WalletInput(accounts[k], m[AccountKey(c, accounts[k])])]
      else rest
  }

  /** A user limit is non-zero by type. */
  function ApplyUserLimit<T>(items: seq<T>, limit: Option<nat>): (r: seq<T>) {
    match limit
    case None => items
    case Some(l) => items[..Min(l, |items|)]
  }

  function LimitedUserCount(limit: Option<nat>, available: nat): (n: nat) {
    match limit
    case None => available
    case Some(l) => Min(l, available)
  }

  function PrepareAccounts(c: Suite, ids: seq<Keys.NodeId>, accounts: seq<WalletAccount>, limit: Option<nat>)
    : (r: Result<seq<WalletInput>, TxError>)
  {
    if accounts == [] then Err(NoSeededAccounts)
    else if ids == [] then Err(NoNodes)
    else
      var outputs := Outputs(c, ids, accounts);
      var inputs := ApplyUserLimit(MatchAccounts(c, accounts, UtxoMap(c.ledgerHash(outputs), outputs)), limit);
      if inputs == [] then Err(NoMatchingAccounts) else Ok(inputs)
  }

  // -------------------------------------------------------------- the plan

  /**
   * Transactions asked for over the run: expected blocks times rate, rounded
   * down. Dividing by a zero block time gives infinity, or nothing at all when
   * the run is empty too; either is cut off to 64 bits.
   */
  function Requested(txsPerBlock: nat, metrics: RunMetrics): (n: nat) {
    var block := if metrics.blockInterval.Some? then metrics.blockInterval.value else metrics.runDuration;
    if block == 0 then (if metrics.runDuration == 0 then 0 else U64_LIMIT - 1)
    else Min((metrics.runDuration * txsPerBlock) / block, U64_LIMIT - 1)
  }

  /** `submission_plan`. */
  function SubmissionPlan(txsPerBlock: nat, metrics: RunMetrics, available: nat): (r: Result<nat, TxError>)
    ensures r.Ok? ==> 0 < r.value <= available
  {
    if available == 0 then Err(ZeroTransactions)
    else
      var planned := Min(Requested(txsPerBlock, metrics), available);
      if planned == 0 then Err(ZeroTransactions) else Ok(planned)
  }

  /** The inputs the workload goes on to submit. */
  function WorkloadPlan(c: Suite, ids: seq<Keys.NodeId>, accounts: seq<WalletAccount>, limit: Option<nat>,
                        txsPerBlock: nat, metrics: RunMetrics): (r: Result<seq<WalletInput>, TxError>)
  {
    match PrepareAccounts(c, ids, accounts, limit)
    case Err(e) => Err(e)
    case Ok(inputs) =>
      match SubmissionPlan(txsPerBlock, metrics, |inputs|)
      case Err(e) => Err(e)
      case Ok(planned) => Ok(inputs[..planned])
  }

  datatype Capture = Capture(expected: nat, tracked: set<PublicKey>)

  function TrackedKeys(c: Suite, accounts: seq<WalletAccount>): (keys: set<PublicKey>) {
    set i | 0 <= i < |accounts| :: AccountKey(c, accounts[i])
  }

  /** What `start_capture` works out from the wallet alone. */
  function ExpectationPlan(c: Suite, accounts: seq<WalletAccount>, limit: Option<nat>,
                           txsPerBlock: nat, metrics: RunMetrics): (r: Result<Capture, TxError>)
  {
    if accounts == [] then Err(NoSeededAccounts)
    else
      match SubmissionPlan(txsPerBlock, metrics, LimitedUserCount(limit, |accounts|))
      case Err(e) => Err(e)
      case Ok(planned) => Ok(Capture(planned, TrackedKeys(c, accounts[..planned])))
  }

  // ------------------------------------------------- the workload as an object

  /** `build_wallet_transaction`: one input spent back to its owner. */
  datatype Transfer = Transfer(input: Utxo, output: Note)

  function TransferOf(c: Suite, w: WalletInput): (t: Transfer) {
    Transfer(w.utxo, Note(w.utxo.note.value, AccountKey(c, w.account)))
  }

  function Transfers(c: Suite, plan: seq<WalletInput>): (ts: seq<Transfer>)
    ensures |ts| == |plan|
  {
    seq(|plan|, i requires 0 <= i < |plan| => TransferOf(c, plan[i]))
  }

  class Workload {
    const txsPerBlock: nat
    const userLimit: Option<nat>
    var accounts: seq<WalletInput>

    constructor (txsPerBlock: nat, userLimit: Option<nat>)
      ensures this.txsPerBlock == txsPerBlock && this.userLimit == userLimit && accounts == []
    {
      this.txsPerBlock, this.userLimit, accounts := txsPerBlock, userLimit, [];
    }

    /** `init`: on failure the accounts stay as they were. */
    method Init(c: Suite, ids: seq<Keys.NodeId>, wallet: seq<WalletAccount>) returns (r: Result<(), TxError>)
      modifies this
      ensures match PrepareAccounts(c, ids, wallet, userLimit)
        case Ok(inputs) => r == Ok(()) && accounts == inputs
        case Err(e) => r == Err(e) && accounts == old(accounts)
    {
      var prepared := PrepareAccounts(c, ids, wallet, userLimit);
      match prepared {
        case Err(e) => return Err(e);
        case Ok(inputs) => accounts := inputs;
      }
      return Ok(());
    }

    /**
     * `start`: pops the plan from the front, submitting until one submission
     * fails. `accepts` says whether the cluster takes the i-th submission.
     */
    method Start(c: Suite, metrics: RunMetrics, accepts: nat -> bool)
      returns (r: Result<(), TxError>, submitted: seq<Transfer>)
      ensures match SubmissionPlan(txsPerBlock, metrics, |accounts|)
        case Err(e) => r == Err(ZeroTransactions) && submitted == []
        case Ok(planned) =>
          && submitted <= Transfers(c, accounts[..planned])
          && (r.Ok? ==> submitted == Transfers(c, accounts[..planned]))
          && (r.Err? ==> |submitted| < planned && !accepts(|submitted|))
          && (forall i :: 0 <= i < |submitted| ==> accepts(i))
    {
      submitted := [];
      var plan := SubmissionPlan(txsPerBlock, metrics, |accounts|);
      if plan.Err? {
        return Err(ZeroTransactions), [];
      }
      var queue := accounts[..plan.value];
      ghost var all := Transfers(c, queue);
      while queue != []
        invariant |submitted| + |queue| == plan.value
        invariant submitted == all[..|submitted|]
        invariant queue == accounts[..plan.value][|submitted|..]
        invariant forall i :: 0 <= i < |submitted| ==> accepts(i)
        decreases |queue|
      {
        var input := queue[0];
        queue := queue[1..];
        if !accepts(|submitted|) {
          return Err(SubmissionFailed), submitted;
        }
        submitted := submitted + [TransferOf(c, input)];
      }
      return Ok(()), submitted;
    }
  }

  // ------------------------------------------------------------ plans agree

  ghost predicate DistinctOwners(c: Suite, accounts: seq<WalletAccount>) {
    forall i, j :: 0 <= i < j < |accounts| ==> AccountKey(c, accounts[i]) != AccountKey(c, accounts[j])
  }

  lemma {:induction false} UtxoMapFinds(txHash: nat, outputs: seq<Note>, i: nat)
    requires i < |outputs|
    ensures outputs[i].pk in UtxoMap(txHash, outputs)
    ensures var u := UtxoMap(txHash, outputs)[outputs[i].pk];
      i <= u.outputIndex < |outputs| && outputs[u.outputIndex].pk == outputs[i].pk
        && u == Utxo(txHash, u.outputIndex, outputs[u.outputIndex])
    ensures (forall j :: i < j < |outputs| ==> outputs[j].pk != outputs[i].pk) ==>
      UtxoMap(txHash, outputs)[outputs[i].pk] == Utxo(txHash, i, outputs[i])
  {
    var k := |outputs| - 1;
    if i < k { UtxoMapFinds(txHash, outputs[..k], i); }
  }

  lemma {:induction false} MatchAll(c: Suite, accounts: seq<WalletAccount>, m: map<PublicKey, Utxo>)
    requires forall i :: 0 <= i < |accounts| ==> AccountKey(c, accounts[i]) in m
    ensures |MatchAccounts(c, accounts, m)| == |accounts|
    ensures forall i :: 0 <= i < |accounts| ==>
      MatchAccounts(c, accounts, m)[i] == WalletInput(accounts[i], m[AccountKey(c, accounts[i])])
  {
    if accounts != [] { MatchAll(c, accounts[..|accounts| - 1], m); }
  }

  /** The genesis output that funds account `i`. */
  function OwnUtxo(c: Suite, ids: seq<Keys.NodeId>, accounts: seq<WalletAccount>, i: nat): (u: Utxo)
    requires i < |accounts|
  {
    Utxo(c.ledgerHash(Outputs(c, ids, accounts)), 3 * |ids| + i,
      Note(accounts[i].value, AccountKey(c, accounts[i])))
  }

  function Matched(c: Suite, ids: seq<Keys.NodeId>, accounts: seq<WalletAccount>): (inputs: seq<WalletInput>) {
    var outputs := Outputs(c, ids, accounts);
    MatchAccounts(c, accounts, UtxoMap(c.ledgerHash(outputs), outputs))
  }

  lemma OutputOfAccount(c: Suite, ids: seq<Keys.NodeId>, accounts: seq<WalletAccount>, i: nat)
    requires i < |accounts|
    ensures Outputs(c, ids, accounts)[3 * |ids| + i] == OwnUtxo(c, ids, accounts, i).note
  {
  }

  /** No account is dropped, and each is given an output it owns. */
  lemma NoAccountDropped(c: Suite, ids: seq<Keys.NodeId>, accounts: seq<WalletAccount>)
    ensures |Matched(c, ids, accounts)| == |accounts|
    ensures forall i :: 0 <= i < |accounts| ==>
      var w := Matched(c, ids, accounts)[i];
      w.account == accounts[i] && w.utxo.note.pk == AccountKey(c, accounts[i])
  {
    var outputs := Outputs(c, ids, accounts);
    var m := UtxoMap(c.ledgerHash(outputs), outputs);
    forall i | 0 <= i < |accounts|
      ensures AccountKey(c, accounts[i]) in m && m[AccountKey(c, accounts[i])].note.pk == AccountKey(c, accounts[i])
    {
      OutputOfAccount(c, ids, accounts, i);
      UtxoMapFinds(c.ledgerHash(outputs), outputs, 3 * |ids| + i);
    }
    MatchAll(c, accounts, m);
  }

  /**
   * Account `i` is given its own output exactly when no later account has the
   * same key; a clash with a node's key does no harm, since wallets come last.
   */
  lemma MatchesOwnOutput(c: Suite, ids: seq<Keys.NodeId>, accounts: seq<WalletAccount>, i: nat)
    requires i < |accounts|
    ensures |Matched(c, ids, accounts)| == |accounts|
    ensures Matched(c, ids, accounts)[i].utxo == OwnUtxo(c, ids, accounts, i) <==>
      forall j :: i < j < |accounts| ==> AccountKey(c, accounts[j]) != AccountKey(c, accounts[i])
  {
    NoAccountDropped(c, ids, accounts);
    if forall j :: i < j < |accounts| ==> AccountKey(c, accounts[j]) != AccountKey(c, accounts[i]) {
      LastOwnerMatches(c, ids, accounts, i);
    } else {
      var j :| i < j < |accounts| && AccountKey(c, accounts[j]) == AccountKey(c, accounts[i]);
      EarlierOwnerMisses(c, ids, accounts, i, j);
    }
  }

  lemma LastOwnerMatches(c: Suite, ids: seq<Keys.NodeId>, accounts: seq<WalletAccount>, i: nat)
    requires i < |accounts| && |Matched(c, ids, accounts)| == |accounts|
    requires forall j :: i < j < |accounts| ==> AccountKey(c, accounts[j]) != AccountKey(c, accounts[i])
    ensures Matched(c, ids, accounts)[i].utxo == OwnUtxo(c, ids, accounts, i)
  {
    var outputs := Outputs(c, ids, accounts);
    var n := 3 * |ids|;
    OutputOfAccount(c, ids, accounts, i);
    forall j | n + i < j < |outputs| ensures outputs[j].pk != outputs[n + i].pk {
      OutputOfAccount(c, ids, accounts, j - n);
    }
    UtxoMapFinds(c.ledgerHash(outputs), outputs, n + i);
    MatchedUtxo(c, ids, accounts, i);
  }

  lemma EarlierOwnerMisses(c: Suite, ids: seq<Keys.NodeId>, accounts: seq<WalletAccount>, i: nat, j: nat)
    requires i < j < |accounts| && |Matched(c, ids, accounts)| == |accounts|
    requires AccountKey(c, accounts[j]) == AccountKey(c, accounts[i])
    ensures Matched(c, ids, accounts)[i].utxo.outputIndex > 3 * |ids| + i
  {
    var outputs := Outputs(c, ids, accounts);
    OutputOfAccount(c, ids, accounts, j);
    UtxoMapFinds(c.ledgerHash(outputs), outputs, 3 * |ids| + j);
    MatchedUtxo(c, ids, accounts, i);
  }

  lemma MatchedUtxo(c: Suite, ids: seq<Keys.NodeId>, accounts: seq<WalletAccount>, i: nat)
    requires i < |accounts| && |Matched(c, ids, accounts)| == |accounts|
    ensures var outputs := Outputs(c, ids, accounts);
      var m := UtxoMap(c.ledgerHash(outputs), outputs);
      AccountKey(c, accounts[i]) in m && Matched(c, ids, accounts)[i].utxo == m[AccountKey(c, accounts[i])]
  {
    var outputs := Outputs(c, ids, accounts);
    var m := UtxoMap(c.ledgerHash(outputs), outputs);
    forall j | 0 <= j < |accounts| ensures AccountKey(c, accounts[j]) in m {
      OutputOfAccount(c, ids, accounts, j);
      UtxoMapFinds(c.ledgerHash(outputs), outputs, 3 * |ids| + j);
    }
    MatchAll(c, accounts, m);
  }

  /**
   * The two plans agree for every wallet, limit, rate and run: both fail or
   * both succeed, with the same count, and the expectation tracks exactly the
   * owners of the outputs the workload spends.
   */
  lemma PlansAgree(c: Suite, ids: seq<Keys.NodeId>, accounts: seq<WalletAccount>, limit: Option<nat>,
                   txsPerBlock: nat, metrics: RunMetrics)
    requires ids != []
    ensures var plan := WorkloadPlan(c, ids, accounts, limit, txsPerBlock, metrics);
      var capture := ExpectationPlan(c, accounts, limit, txsPerBlock, metrics);
      && (plan.Ok? <==> capture.Ok?)
      && (plan.Ok? ==>
            && |plan.value| == capture.value.expected <= |accounts|
            && (forall i :: 0 <= i < |plan.value| ==> plan.value[i].account == accounts[i])
            && capture.value.tracked == set i | 0 <= i < |plan.value| :: TransferOf(c, plan.value[i]).output.pk)
  {
    if accounts != [] {
      NoAccountDropped(c, ids, accounts);
      var plan := WorkloadPlan(c, ids, accounts, limit, txsPerBlock, metrics);
      var capture := ExpectationPlan(c, accounts, limit, txsPerBlock, metrics);
      assert |ApplyUserLimit(Matched(c, ids, accounts), limit)| == LimitedUserCount(limit, |accounts|);
      if plan.Ok? {
        var spent := set i | 0 <= i < |plan.value| :: TransferOf(c, plan.value[i]).output.pk;
        forall pk ensures pk in capture.value.tracked <==> pk in spent {
          if pk in capture.value.tracked {
            var i :| 0 <= i < |plan.value| && AccountKey(c, accounts[..|plan.value|][i]) == pk;
            assert TransferOf(c, plan.value[i]).output.pk == pk;
          }
          if pk in spent {
            var i :| 0 <= i < |plan.value| && TransferOf(c, plan.value[i]).output.pk == pk;
            assert AccountKey(c, accounts[..|plan.value|][i]) == pk;
          }
        }
      }
    }
  }

  // ------------------------------------------------------------ conservation

  /**
   * The run asks for the greatest number of transactions whose block time fits
   * into the run times the rate, cut off to 64 bits. Without a known interval
   * the whole run counts as one block.
   */
  lemma RequestedIsRate(txsPerBlock: nat, metrics: RunMetrics, block: nat)
    requires block == if metrics.blockInterval.Some? then metrics.blockInterval.value else metrics.runDuration
    ensures var n := Requested(txsPerBlock, metrics);
      if block == 0 then n == if metrics.runDuration == 0 then 0 else U64_LIMIT - 1
      else
        && n < U64_LIMIT && Times(n, block) <= metrics.runDuration * txsPerBlock
        && (n < U64_LIMIT - 1 ==> metrics.runDuration * txsPerBlock < Times(n + 1, block))
  {
    if block > 0 {
      var n, q := Requested(txsPerBlock, metrics), FloorDiv(metrics.runDuration * txsPerBlock, block);
      Rounding(metrics.runDuration * txsPerBlock, block);
      TimesMonotone(n, q, block);
    }
  }

  /** The number of planned transactions is the least of those asked for, the limit and the accounts; and why there is none. */
  lemma PlanIsExact(c: Suite, ids: seq<Keys.NodeId>, accounts: seq<WalletAccount>, limit: Option<nat>,
                    txsPerBlock: nat, metrics: RunMetrics)
    requires limit.Some? ==> limit.value > 0
    ensures var requested := Requested(txsPerBlock, metrics);
      var available := if limit.Some? && limit.value < |accounts| then limit.value else |accounts|;
      match WorkloadPlan(c, ids, accounts, limit, txsPerBlock, metrics)
      case Ok(plan) => |plan| == (if requested < available then requested else available) && |plan| > 0
      case Err(e) => e == (if accounts == [] then NoSeededAccounts else if ids == [] then NoNodes else ZeroTransactions)
    ensures WorkloadPlan(c, ids, accounts, limit, txsPerBlock, metrics).Ok? <==>
      accounts != [] && ids != [] && Requested(txsPerBlock, metrics) > 0
  {
    NoAccountDropped(c, ids, accounts);
  }

  function Inflow(ts: seq<Transfer>): (v: nat) {
    if ts == [] then 0 else Inflow(ts[..|ts| - 1]) + ts[|ts| - 1].input.note.value
  }

  function Outflow(ts: seq<Transfer>): (v: nat) {
    if ts == [] then 0 else Outflow(ts[..|ts| - 1]) + ts[|ts| - 1].output.value
  }

  /** Whatever part of a plan gets submitted, it pays out exactly what it spends. */
  lemma {:induction false} ValueConserved(c: Suite, plan: seq<WalletInput>, submitted: seq<Transfer>)
    requires submitted <= Transfers(c, plan)
    ensures Inflow(submitted) == Outflow(submitted)
  {
    if submitted != [] {
      var k := |submitted| - 1;
      ValueConserved(c, plan, submitted[..k]);
      assert submitted[k] == TransferOf(c, plan[k]);
    }
  }

  ghost predicate NoDoubleSpend(ts: seq<Transfer>) {
    forall i, j :: 0 <= i < j < |ts| ==> ts[i].input != ts[j].input
  }

  /** A plan never spends an output twice exactly when its accounts have distinct keys. */
  lemma DoubleSpendIffSharedKey(c: Suite, ids: seq<Keys.NodeId>, accounts: seq<WalletAccount>, limit: Option<nat>,
                                txsPerBlock: nat, metrics: RunMetrics)
    requires WorkloadPlan(c, ids, accounts, limit, txsPerBlock, metrics).Ok?
    ensures var plan := WorkloadPlan(c, ids, accounts, limit, txsPerBlock, metrics).value;
      |plan| <= |accounts| && (NoDoubleSpend(Transfers(c, plan)) <==> DistinctOwners(c, accounts[..|plan|]))
  {
    var plan := WorkloadPlan(c, ids, accounts, limit, txsPerBlock, metrics).value;
    NoAccountDropped(c, ids, accounts);
    forall i, j | 0 <= i < j < |plan|
      ensures plan[i].utxo == plan[j].utxo <==> AccountKey(c, accounts[i]) == AccountKey(c, accounts[j])
    {
      MatchedUtxo(c, ids, accounts, i);
      MatchedUtxo(c, ids, accounts, j);
      assert plan[i] == Matched(c, ids, accounts)[i] && plan[j] == Matched(c, ids, accounts)[j];
    }
    var owners := accounts[..|plan|];
    var ts := Transfers(c, plan);
    if DistinctOwners(c, owners) {
      forall i, j | 0 <= i < j < |ts| ensures ts[i].input != ts[j].input {
        assert AccountKey(c, owners[i]) != AccountKey(c, owners[j]);
      }
    }
    if NoDoubleSpend(ts) {
      forall i, j | 0 <= i < j < |owners| ensures AccountKey(c, owners[i]) != AccountKey(c, owners[j]) {
        assert ts[i].input != ts[j].input;
      }
    }
  }

  /** For a uniform wallet and injective key derivation every output is spent at most once. */
  lemma UniformWalletNeverDoubleSpends(c: Suite, accounts: seq<WalletAccount>)
    requires |accounts| <= U64_LIMIT
    requires forall i :: 0 <= i < |accounts| ==> accounts[i].secretKey == Keys.WalletSecret(i)
    requires forall x, y :: c.zkPublic(x) == c.zkPublic(y) ==> x == y
    ensures DistinctOwners(c, accounts)
  {
    DeterministicKeysApart(accounts);
  }

  // -------------------------------------------------------------- inclusion

  /** Blocks whose parent is the zero header are skipped. */
  const ZERO_HEADER: HeaderId := 0

  predicate Pays(tracked: set<PublicKey>, tx: Transaction) {
    exists k :: 0 <= k < |tx.outputs| && tx.outputs[k].pk in tracked
  }

  function PaysTest(tracked: set<PublicKey>): (p: Transaction -> bool)
    ensures forall tx :: p(tx) <==> Pays(tracked, tx)
  {
    (tx: Transaction) => Pays(tracked, tx)
  }

  /** The transactions the capture task looks at. */
  function Watched(records: seq<BlockRecord>): (txs: seq<Transaction>) {
    if records == [] then []
    else
      var last := records[|records| - 1];
      Watched(records[..|records| - 1]) + if last.block.parent == ZERO_HEADER then [] else last.block.transactions
  }

  function PayingCount(tracked: set<PublicKey>, txs: seq<Transaction>): (n: nat) {
    CountIf(txs, PaysTest(tracked))
  }

  function Observed(tracked: set<PublicKey>, records: seq<BlockRecord>): (n: nat) {
    PayingCount(tracked, Watched(records))
  }

  lemma ObservedStep(tracked: set<PublicKey>, records: seq<BlockRecord>, record: BlockRecord)
    ensures Observed(tracked, records + [record]) == Observed(tracked, records) +
      if record.block.parent == ZERO_HEADER then 0 else PayingCount(tracked, record.block.transactions)
  {
    assert (records + [record])[..|records|] == records;
    var txs := if record.block.parent == ZERO_HEADER then [] else record.block.transactions;
    assert Watched(records + [record]) == Watched(records) + txs;
    CountIfAppend(Watched(records), txs, PaysTest(tracked));
  }

  class InclusionCapture {
    const tracked: set<PublicKey>
    var observed: nat
    ghost var received: seq<BlockRecord>

    constructor (tracked: set<PublicKey>)
      ensures this.tracked == tracked && received == [] && Valid()
    {
      this.tracked, observed, received := tracked, 0, [];
    }

    ghost predicate Valid()
      reads this
    {
      observed == Observed(tracked, received)
    }

    /** The capture loop's body: a transaction counts once, at its first tracked output. */
    method Receive(record: BlockRecord)
      requires Valid()
      modifies this
      ensures Valid() && received == old(received) + [record]
    {
      ObservedStep(tracked, received, record);
      received := received + [record];
      if record.block.parent == ZERO_HEADER {
        return;
      }
      var txs := record.block.transactions;
      for i := 0 to |txs|
        invariant received == old(received) + [record]
        invariant observed == old(observed) + PayingCount(tracked, txs[..i])
      {
        assert txs[..i + 1][..i] == txs[..i];
        Inspect(txs[i]);
      }
      assert txs[..|txs|] == txs;
    }

    /** Looks through the outputs of one transaction, stopping at the first tracked one. */
    method Inspect(tx: Transaction)
      modifies `observed
      ensures observed == old(observed) + if Pays(tracked, tx) then 1 else 0
    {
      for k := 0 to |tx.outputs|
        invariant observed == old(observed)
        invariant forall j :: 0 <= j < k ==> tx.outputs[j].pk !in tracked
      {
        if tx.outputs[k].pk in tracked {
          observed := observed + 1;
          return;
        }
      }
    }
  }

  /** Half of the plan, rounded up, has to be seen. */
  function RequiredInclusions(expected: nat): (n: nat) {
    (expected + 1) / 2
  }

  predicate InclusionHolds(expected: nat, observed: nat) {
    observed >= RequiredInclusions(expected)
  }

  /** Planned transfer `i` was seen as the `seen[i]`-th transaction watched, no two of them as the same one. */
  ghost predicate SeenApart(c: Suite, plan: seq<WalletInput>, records: seq<BlockRecord>, seen: map<nat, nat>) {
    && (forall i :: i in seen ==>
          i < |plan| && seen[i] < |Watched(records)| &&
          TransferOf(c, plan[i]).output in Watched(records)[seen[i]].outputs)
    && (forall i, j :: i in seen && j in seen && i != j ==> seen[i] != seen[j])
  }

  lemma {:induction false} ImageSize(m: map<nat, nat>)
    requires forall i, j :: i in m && j in m && i != j ==> m[i] != m[j]
    ensures |m.Values| == |m|
    decreases |m|
  {
    if m != map[] {
      var i :| i in m;
      var rest := m - {i};
      ImageSize(rest);
      forall k | k in m.Values ensures k in rest.Values + {m[i]} {
        var j :| j in m && m[j] == k;
        assert j == i || (j in rest && rest[j] == k);
      }
      assert m.Values == rest.Values + {m[i]};
      assert |m| == |m.Keys| && |rest| == |rest.Keys| && m.Keys == rest.Keys + {i};
    }
  }

  /**
   * Plan implies check: if at least half of the transfers the workload plans
   * are seen in transactions of their own, the expectation has a plan too, and
   * holds.
   */
  lemma HalfOfThePlanSuffices(c: Suite, ids: seq<Keys.NodeId>, accounts: seq<WalletAccount>, limit: Option<nat>,
                              txsPerBlock: nat, metrics: RunMetrics, records: seq<BlockRecord>, seen: map<nat, nat>)
    requires var plan := WorkloadPlan(c, ids, accounts, limit, txsPerBlock, metrics);
      plan.Ok? && SeenApart(c, plan.value, records, seen) && 2 * |seen| >= |plan.value|
    ensures var capture := ExpectationPlan(c, accounts, limit, txsPerBlock, metrics);
      capture.Ok? && InclusionHolds(capture.value.expected, Observed(capture.value.tracked, records))
  {
    PlansAgree(c, ids, accounts, limit, txsPerBlock, metrics);
    var plan := WorkloadPlan(c, ids, accounts, limit, txsPerBlock, metrics).value;
    var tracked := ExpectationPlan(c, accounts, limit, txsPerBlock, metrics).value.tracked;
    var txs := Watched(records);
    forall k | k in seen.Values ensures k < |txs| && Pays(tracked, txs[k]) {
      var i :| i in seen && seen[i] == k;
      var n :| 0 <= n < |txs[k].outputs| && txs[k].outputs[n] == TransferOf(c, plan[i]).output;
      assert txs[k].outputs[n].pk in tracked;
    }
    ImageSize(seen);
    CountAtLeast(txs, PaysTest(tracked), seen.Values);
  }

  /** Some output of the transaction goes to the owner of a planned input. */
  predicate PaysPlanned(c: Suite, plan: seq<WalletInput>, tx: Transaction) {
    exists n, i :: 0 <= n < |tx.outputs| && 0 <= i < |plan| && tx.outputs[n].pk == AccountKey(c, plan[i].account)
  }

  /**
   * The verdict in full: the expectation of a plan holds exactly when the
   * watched transactions that pay some owner in the plan are at least half as
   * many as the plan has inputs.
   */
  lemma InclusionVerdict(c: Suite, ids: seq<Keys.NodeId>, accounts: seq<WalletAccount>, limit: Option<nat>,
                         txsPerBlock: nat, metrics: RunMetrics, records: seq<BlockRecord>)
    requires WorkloadPlan(c, ids, accounts, limit, txsPerBlock, metrics).Ok?
    ensures var plan := WorkloadPlan(c, ids, accounts, limit, txsPerBlock, metrics).value;
      var capture := ExpectationPlan(c, accounts, limit, txsPerBlock, metrics);
      var paying := set k: nat | k < |Watched(records)| && PaysPlanned(c, plan, Watched(records)[k]);
      && capture.Ok?
      && (InclusionHolds(capture.value.expected, Observed(capture.value.tracked, records)) <==> 2 * |paying| >= |plan|)
  {
    PlansAgree(c, ids, accounts, limit, txsPerBlock, metrics);
    var plan := WorkloadPlan(c, ids, accounts, limit, txsPerBlock, metrics).value;
    var tracked := ExpectationPlan(c, accounts, limit, txsPerBlock, metrics).value.tracked;
    var txs := Watched(records);
    CountIsCardinality(txs, PaysTest(tracked));
    PlacesPlanned(c, plan, tracked, txs);
  }

  lemma PlacesPlanned(c: Suite, plan: seq<WalletInput>, tracked: set<PublicKey>, txs: seq<Transaction>)
    requires tracked == set i | 0 <= i < |plan| :: TransferOf(c, plan[i]).output.pk
    ensures Places(txs, PaysTest(tracked)) == set k: nat | k < |txs| && PaysPlanned(c, plan, txs[k])
  {
    forall tx: Transaction ensures Pays(tracked, tx) <==> PaysPlanned(c, plan, tx) {
      TrackedIffPlanned(c, plan, tracked, tx);
    }
  }

  lemma TrackedIffPlanned(c: Suite, plan: seq<WalletInput>, tracked: set<PublicKey>, tx: Transaction)
    requires tracked == set i | 0 <= i < |plan| :: TransferOf(c, plan[i]).output.pk
    ensures Pays(tracked, tx) <==> PaysPlanned(c, plan, tx)
  {
    if Pays(tracked, tx) {
      var n :| 0 <= n < |tx.outputs| && tx.outputs[n].pk in tracked;
      var i :| 0 <= i < |plan| && TransferOf(c, plan[i]).output.pk == tx.outputs[n].pk;
      assert tx.outputs[n].pk == AccountKey(c, plan[i].account);
    }
    if PaysPlanned(c, plan, tx) {
      var n, i :| 0 <= n < |tx.outputs| && 0 <= i < |plan| && tx.outputs[n].pk == AccountKey(c, plan[i].account);
      assert TransferOf(c, plan[i]).output.pk in tracked;
    }
  }
}
