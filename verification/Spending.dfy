/**
 * The transaction workload plans its spending from the topology's genesis, while
 * the nodes start from the one cfgsync hands out. What is planned against the
 * one is spendable on the other.
 */
module Spending {
  import opened Wrappers
  import opened Mantle
  import opened Wallet
  import opened Genesis
  import opened NodeConfigs
  import opened TxWorkload
  import Hosts
  import Keys

  /** The output exists in this genesis, under this genesis's hash, and no declaration locks it. */
  ghost predicate Spendable(c: Suite, genesis: GenesisTx, u: Utxo) {
    && u.txHash == c.ledgerHash(genesis.outputs)
    && u.outputIndex < |genesis.outputs| && genesis.outputs[u.outputIndex] == u.note
    && forall k :: 0 <= k < |genesis.ops| && genesis.ops[k].SDPDeclare? ==>
      genesis.ops[k].declaration.lockedNote != NoteId(u.txHash, u.outputIndex, u.note)
  }

  /** Planned inputs are wallet outputs: they lie behind all the outputs of the nodes. */
  lemma PlannedUtxo(c: Suite, ids: seq<Keys.NodeId>, accounts: seq<WalletAccount>, limit: Option<nat>,
                    txsPerBlock: nat, metrics: RunMetrics, k: nat)
    requires var plan := WorkloadPlan(c, ids, accounts, limit, txsPerBlock, metrics); plan.Ok? && k < |plan.value|
    ensures var outputs := Outputs(c, ids, accounts);
      var u := WorkloadPlan(c, ids, accounts, limit, txsPerBlock, metrics).value[k].utxo;
      && 3 * |ids| <= u.outputIndex < |outputs|
      && u == Utxo(c.ledgerHash(outputs), u.outputIndex, outputs[u.outputIndex])
  {
    var outputs := Outputs(c, ids, accounts);
    NoAccountDropped(c, ids, accounts);
    assert WorkloadPlan(c, ids, accounts, limit, txsPerBlock, metrics).value[k] == Matched(c, ids, accounts)[k];
    MatchedUtxo(c, ids, accounts, k);
    OutputOfAccount(c, ids, accounts, k);
    UtxoMapFinds(c.ledgerHash(outputs), outputs, 3 * |ids| + k);
  }

  /** Declarations lock outputs of nodes only. */
  lemma LocksNodeOutput(c: Suite, cfg: TopologyConfig, inputs: Inputs, k: nat)
    requires Aligned(|inputs.ids|, inputs)
    requires var ops := TopologyGenesis(c, cfg, inputs).ops; k < |ops| && ops[k].SDPDeclare?
    ensures TopologyGenesis(c, cfg, inputs).ops[k].declaration.lockedNote.outputIndex < 3 * |inputs.ids|
  {
    LockedNotesExist(c, inputs.ids, cfg.accounts, LocalAddresses(inputs.daPorts), LocalAddresses(inputs.blendPorts), k - 1);
  }

  lemma SpendableOnTopology(c: Suite, cfg: TopologyConfig, inputs: Inputs, limit: Option<nat>,
                            txsPerBlock: nat, metrics: RunMetrics, k: nat)
    requires Aligned(|inputs.ids|, inputs)
    requires var plan := WorkloadPlan(c, inputs.ids, cfg.accounts, limit, txsPerBlock, metrics);
      plan.Ok? && k < |plan.value|
    ensures Spendable(c, TopologyGenesis(c, cfg, inputs),
      WorkloadPlan(c, inputs.ids, cfg.accounts, limit, txsPerBlock, metrics).value[k].utxo)
  {
    PlannedUtxo(c, inputs.ids, cfg.accounts, limit, txsPerBlock, metrics, k);
    var genesis := TopologyGenesis(c, cfg, inputs);
    forall j | 0 <= j < |genesis.ops| && genesis.ops[j].SDPDeclare?
      ensures genesis.ops[j].declaration.lockedNote.outputIndex < 3 * |inputs.ids|
    {
      LocksNodeOutput(c, cfg, inputs, j);
    }
  }

  /** Spendability does not depend on the locators. */
  lemma SpendableOnSameGenesis(c: Suite, a: GenesisTx, b: GenesisTx, u: Utxo)
    requires SameGenesis(a, b) && Spendable(c, b, u)
    ensures Spendable(c, a, u)
  {
    forall k | 0 <= k < |a.ops| && a.ops[k].SDPDeclare?
      ensures a.ops[k].declaration.lockedNote != NoteId(u.txHash, u.outputIndex, u.note)
    {
      assert a.ops[k].declaration == b.ops[k].declaration.(locator := a.ops[k].declaration.locator);
    }
  }

  /**
   * Every transaction the workload plans from the topology spends an unlocked
   * output of the genesis that each deployed host starts from.
   */
  lemma PlanIsSpendableOnEveryHost(c: Suite, cfg: TopologyConfig, inputs: Inputs, drawn: Drawn,
                                   arrived: seq<Hosts.Host>, hosts: seq<Hosts.Host>, i: nat,
                                   limit: Option<nat>, txsPerBlock: nat, metrics: RunMetrics, k: nat)
    requires cfg.validators + cfg.executors > 0
    requires Aligned(cfg.validators + cfg.executors, inputs)
    requires DrawnFor(OverridesFor(cfg, inputs), drawn)
    requires Hosts.RoleOrdered(hosts, cfg.validators, cfg.executors) && i < |hosts|
    requires multiset(arrived) == multiset(hosts)
    requires var plan := WorkloadPlan(c, inputs.ids, cfg.accounts, limit, txsPerBlock, metrics);
      plan.Ok? && k < |plan.value|
    ensures var handed := NodeConfigsFor(c, OverridesFor(cfg, inputs), drawn, arrived);
      handed.Ok? && hosts[i] in handed.value &&
      Spendable(c, handed.value[hosts[i]].genesis,
        WorkloadPlan(c, inputs.ids, cfg.accounts, limit, txsPerBlock, metrics).value[k].utxo)
  {
    HostDeploysNode(c, cfg, inputs, drawn, arrived, hosts, i);
    var handed := NodeConfigsFor(c, OverridesFor(cfg, inputs), drawn, arrived).value;
    TopologyIsItsNodes(c, cfg, inputs);
    var u := WorkloadPlan(c, inputs.ids, cfg.accounts, limit, txsPerBlock, metrics).value[k].utxo;
    SpendableOnTopology(c, cfg, inputs, limit, txsPerBlock, metrics, k);
    SpendableOnSameGenesis(c, handed[hosts[i]].genesis, TopologyGenesis(c, cfg, inputs), u);
  }
}
