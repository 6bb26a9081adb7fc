/**
 * The genesis transaction: three notes for each node (leader stake, data
 * availability, blend), one for each wallet account, and one service
 * declaration for each provider, locking the provider's note.
 */
module Genesis {
  import opened Integers
  import opened Bytes
  import opened Keys
  import opened Wallet
  import opened Mantle

  /**
   * The cryptography the framework calls into. `seedOf` turns an Ed25519 public
   * key into a ZK secret; the hashes cover the whole value they are given.
   */
  datatype Suite = Suite(
    zkPublic: nat -> PublicKey,
    edPublic: NodeId -> nat,
    seedOf: nat -> nat,
    peerOf: NodeId -> nat,
    ledgerHash: seq<Note> -> nat,
    mantleHash: (seq<GenesisOp>, seq<Note>) -> nat)

  datatype Service = DataAvailability | BlendNetwork

  /** The part of a multiaddress the framework fills in: `/ip4/<ip>/udp/<port>/quic-v1`. */
  datatype Address = Address(ip: nat, udpPort: nat)

  datatype ServiceNote = ServiceNote(pk: PublicKey, sk: nat, note: Note, outputIndex: nat)

  /** The identifier of an output; distinct triples have distinct identifiers. */
  datatype NoteId = NoteId(txHash: nat, outputIndex: nat, note: Note)

  datatype ProviderInfo =
    ProviderInfo(service: Service, providerSk: NodeId, zkSk: nat, locator: Address, note: ServiceNote)

  datatype Declaration =
    Declaration(service: Service, locator: Address, providerId: nat, zkId: PublicKey, lockedNote: NoteId)

  datatype GenesisOp = GenesisInscription | SDPDeclare(declaration: Declaration)

  /** A proof records who signed what. */
  datatype OpProof = NoProof | ZkAndEd25519Sigs(zkSigners: seq<nat>, edSigner: NodeId, payload: nat)

  datatype GenesisTx = GenesisTx(ops: seq<GenesisOp>, outputs: seq<Note>, proofs: seq<OpProof>)

  const LEADER_STAKE: nat := 1000
  const SERVICE_STAKE: nat := 1

  // ----------------------------------------------------------- genesis notes

  function LeaderNote(c: Suite, id: NodeId): (n: Note) {
    Note(LEADER_STAKE, c.zkPublic(NodeSecret(LEADER_PREFIX, id)))
  }

  function ServiceNoteFor(c: Suite, prefix: seq<Byte>, id: NodeId, index: nat): (s: ServiceNote)
    requires |prefix| <= 16
    ensures s.note == Note(SERVICE_STAKE, s.pk) && s.pk == c.zkPublic(s.sk) && s.outputIndex == index
  {
    var sk := NodeSecret(prefix, id);
    ServiceNote(c.zkPublic(sk), sk, Note(SERVICE_STAKE, c.zkPublic(sk)), index)
  }

  /** The notes of all nodes, three each. */
  function NodeOutputs(c: Suite, ids: seq<NodeId>): (outputs: seq<Note>)
    ensures |outputs| == 3 * |ids|
  {
    if ids == [] then []
    else
      var k := |ids| - 1;
      NodeOutputs(c, ids[..k]) +
        [LeaderNote(c, ids[k]),
         ServiceNoteFor(c, DA_PREFIX, ids[k], 3 * k + 1).note,
         ServiceNoteFor(c, BLEND_PREFIX, ids[k], 3 * k + 2).note]
  }

  function LeaderKeys(c: Suite, ids: seq<NodeId>): (keys: seq<(PublicKey, nat)>)
    ensures |keys| == |ids|
  {
    seq(|ids|, i requires 0 <= i < |ids| =>
      (c.zkPublic(NodeSecret(LEADER_PREFIX, ids[i])), NodeSecret(LEADER_PREFIX, ids[i])))
  }

  function DaNotes(c: Suite, ids: seq<NodeId>): (notes: seq<ServiceNote>)
    ensures |notes| == |ids|
  {
    seq(|ids|, i requires 0 <= i < |ids| => ServiceNoteFor(c, DA_PREFIX, ids[i], 3 * i + 1))
  }

  function BlendNotes(c: Suite, ids: seq<NodeId>): (notes: seq<ServiceNote>)
    ensures |notes| == |ids|
  {
    seq(|ids|, i requires 0 <= i < |ids| => ServiceNoteFor(c, BLEND_PREFIX, ids[i], 3 * i + 2))
  }

  function WalletOutputs(c: Suite, accounts: seq<WalletAccount>): (outputs: seq<Note>)
    ensures |outputs| == |accounts|
  {
    seq(|accounts|, i requires 0 <= i < |accounts| =>
      Note(accounts[i].value, c.zkPublic(accounts[i].secretKey)))
  }

  /** The ledger outputs of the genesis transaction. */
  function Outputs(c: Suite, ids: seq<NodeId>, accounts: seq<WalletAccount>): (outputs: seq<Note>)
    ensures |outputs| == 3 * |ids| + |accounts|
  {
    NodeOutputs(c, ids) + WalletOutputs(c, accounts)
  }

  /** `create_utxos_for_leader_and_services`: one running index over everything pushed. */
  method CreateUtxos(c: Suite, ids: seq<NodeId>)
    returns (utxos: seq<Note>, leaderKeys: seq<(PublicKey, nat)>, daNotes: seq<ServiceNote>, blendNotes: seq<ServiceNote>)
    ensures utxos == NodeOutputs(c, ids)
    ensures leaderKeys == LeaderKeys(c, ids)
    ensures daNotes == DaNotes(c, ids)
    ensures blendNotes == BlendNotes(c, ids)
  {
    utxos, leaderKeys, daNotes, blendNotes := [], [], [], [];
    var outputIndex := 0;
    for k := 0 to |ids|
      invariant outputIndex == 3 * k
      invariant utxos == NodeOutputs(c, ids[..k])
      invariant leaderKeys == LeaderKeys(c, ids)[..k]
      invariant daNotes == DaNotes(c, ids)[..k]
      invariant blendNotes == BlendNotes(c, ids)[..k]
    {
      var id := ids[k];
      assert ids[..k + 1][..k] == ids[..k];

      var skLeader := NodeSecret(LEADER_PREFIX, id);
      var pkLeader := c.zkPublic(skLeader);
      leaderKeys := leaderKeys + [(pkLeader, skLeader)];
      var leader := Note(LEADER_STAKE, pkLeader);
      outputIndex := outputIndex + 1;

      var da := ServiceNoteFor(c, DA_PREFIX, id, outputIndex);
      daNotes := daNotes + [da];
      outputIndex := outputIndex + 1;

      var blend := ServiceNoteFor(c, BLEND_PREFIX, id, outputIndex);
      blendNotes := blendNotes + [blend];
      outputIndex := outputIndex + 1;

      utxos := utxos + [leader, da.note, blend.note];
    }
    assert ids[..|ids|] == ids;
  }

  /** `append_wallet_utxos`. */
  method AppendWalletUtxos(c: Suite, utxos: seq<Note>, accounts: seq<WalletAccount>) returns (all: seq<Note>)
    ensures all == utxos + WalletOutputs(c, accounts)
  {
    all := utxos;
    for i := 0 to |accounts|
      invariant all == utxos + WalletOutputs(c, accounts)[..i]
    {
      all := all + [Note(accounts[i].value, c.zkPublic(accounts[i].secretKey))];
    }
  }

  // ------------------------------------------------------------ declarations

  function Declare(c: Suite, outputs: seq<Note>, p: ProviderInfo): (d: Declaration) {
    Declaration(p.service, p.locator, c.edPublic(p.providerSk), c.zkPublic(p.zkSk),
      NoteId(c.ledgerHash(outputs), p.note.outputIndex, p.note.note))
  }

  function Declarations(c: Suite, outputs: seq<Note>, providers: seq<ProviderInfo>): (ds: seq<Declaration>)
    ensures |ds| == |providers|
  {
    seq(|providers|, k requires 0 <= k < |providers| => Declare(c, outputs, providers[k]))
  }

  function GenesisOps(ds: seq<Declaration>): (ops: seq<GenesisOp>)
    ensures |ops| == |ds| + 1
  {
    [GenesisInscription] + seq(|ds|, k requires 0 <= k < |ds| => SDPDeclare(ds[k]))
  }

  function Prove(p: ProviderInfo, payload: nat): (r: OpProof) {
    ZkAndEd25519Sigs([p.note.sk, p.zkSk], p.providerSk, payload)
  }

  function GenesisProofs(providers: seq<ProviderInfo>, payload: nat): (proofs: seq<OpProof>)
    ensures |proofs| == |providers| + 1
  {
    [NoProof] + seq(|providers|, k requires 0 <= k < |providers| => Prove(providers[k], payload))
  }

  function GenesisTxFor(c: Suite, outputs: seq<Note>, providers: seq<ProviderInfo>): (tx: GenesisTx) {
    var ops := GenesisOps(Declarations(c, outputs, providers));
    GenesisTx(ops, outputs, GenesisProofs(providers, c.mantleHash(ops, outputs)))
  }

  /** `create_genesis_tx_with_declarations`: operations first, then proofs over the finished transaction. */
  method CreateGenesisTx(c: Suite, outputs: seq<Note>, providers: seq<ProviderInfo>) returns (tx: GenesisTx)
    ensures tx == GenesisTxFor(c, outputs, providers)
  {
    var txHash := c.ledgerHash(outputs);
    var ops := [GenesisInscription];
    ghost var allOps := GenesisOps(Declarations(c, outputs, providers));
    for k := 0 to |providers|
      invariant ops == allOps[..k + 1]
    {
      var p := providers[k];
      var locked := NoteId(txHash, p.note.outputIndex, p.note.note);
      ops := ops + [SDPDeclare(Declaration(p.service, p.locator, c.edPublic(p.providerSk), c.zkPublic(p.zkSk), locked))];
    }
    assert ops == allOps;
    var payload := c.mantleHash(ops, outputs);
    var proofs := [NoProof];
    ghost var allProofs := GenesisProofs(providers, payload);
    for k := 0 to |providers|
      invariant proofs == allProofs[..k + 1]
    {
      proofs := proofs + [ZkAndEd25519Sigs([providers[k].note.sk, providers[k].zkSk], providers[k].providerSk, payload)];
    }
    assert proofs == allProofs;
    tx := GenesisTx(ops, outputs, proofs);
  }

  // --------------------------------------------------------------- providers

  /** The ZK secret of a node's service identity, derived from its Ed25519 public key. */
  function ServiceZkSecret(c: Suite, id: NodeId): (sk: nat) {
    c.seedOf(c.edPublic(id))
  }

  /** All data-availability providers in node order, then all blend providers. */
  function Providers(c: Suite, ids: seq<NodeId>, daLocators: seq<Address>, blendLocators: seq<Address>)
    : (providers: seq<ProviderInfo>)
    requires |daLocators| == |blendLocators| == |ids|
    ensures |providers| == 2 * |ids|
  {
    seq(|ids|, i requires 0 <= i < |ids| =>
      ProviderInfo(DataAvailability, ids[i], ServiceZkSecret(c, ids[i]), daLocators[i], DaNotes(c, ids)[i])) +
    seq(|ids|, i requires 0 <= i < |ids| =>
      ProviderInfo(BlendNetwork, ids[i], ServiceZkSecret(c, ids[i]), blendLocators[i], BlendNotes(c, ids)[i]))
  }

  // ---------------------------------------------------------------- theorems

  lemma {:induction false} NodeOutputsAt(c: Suite, ids: seq<NodeId>, i: nat)
    requires i < |ids|
    ensures var outputs := NodeOutputs(c, ids);
      && outputs[3 * i] == LeaderNote(c, ids[i])
      && outputs[3 * i + 1] == DaNotes(c, ids)[i].note
      && outputs[3 * i + 2] == BlendNotes(c, ids)[i].note
  {
    var k := |ids| - 1;
    if i < k {
      NodeOutputsAt(c, ids[..k], i);
      assert DaNotes(c, ids[..k])[i] == DaNotes(c, ids)[i] && BlendNotes(c, ids[..k])[i] == BlendNotes(c, ids)[i];
      assert ids[..k][i] == ids[i];
    }
  }

  /** Each service note's index points at that very note in the final outputs, wallets included. */
  lemma LockedNotesExist(c: Suite, ids: seq<NodeId>, accounts: seq<WalletAccount>,
                         daLocators: seq<Address>, blendLocators: seq<Address>, k: nat)
    requires |daLocators| == |blendLocators| == |ids| && k < 2 * |ids|
    ensures var outputs := Outputs(c, ids, accounts);
      var note := Providers(c, ids, daLocators, blendLocators)[k].note;
      && note.outputIndex < |outputs|
      && outputs[note.outputIndex] == note.note
      && note.outputIndex == if k < |ids| then 3 * k + 1 else 3 * (k - |ids|) + 2
  {
    NodeOutputsAt(c, ids, if k < |ids| then k else k - |ids|);
  }

  /** No two declarations lock the same output. */
  lemma LocksAreDistinct(c: Suite, ids: seq<NodeId>, accounts: seq<WalletAccount>,
                         daLocators: seq<Address>, blendLocators: seq<Address>, j: nat, k: nat)
    requires |daLocators| == |blendLocators| == |ids| && j < k < 2 * |ids|
    ensures var ds := Declarations(c, Outputs(c, ids, accounts), Providers(c, ids, daLocators, blendLocators));
      ds[j].lockedNote != ds[k].lockedNote
  {
    LockedNotesExist(c, ids, accounts, daLocators, blendLocators, j);
    LockedNotesExist(c, ids, accounts, daLocators, blendLocators, k);
  }

  /** The proof carries the signatures that the declaration it belongs to calls for. */
  ghost predicate ProofFits(c: Suite, payload: nat, op: GenesisOp, proof: OpProof) {
    match op
    case GenesisInscription => proof == NoProof
    case SDPDeclare(d) =>
      && proof.ZkAndEd25519Sigs?
      && proof.payload == payload
      && c.edPublic(proof.edSigner) == d.providerId
      && |proof.zkSigners| == 2
      && c.zkPublic(proof.zkSigners[0]) == d.lockedNote.note.pk
      && c.zkPublic(proof.zkSigners[1]) == d.zkId
  }

  /** Operations and proofs line up one to one, and every proof fits its operation. */
  lemma ProofsLineUp(c: Suite, ids: seq<NodeId>, accounts: seq<WalletAccount>,
                     daLocators: seq<Address>, blendLocators: seq<Address>, k: nat)
    requires |daLocators| == |blendLocators| == |ids|
    ensures var tx := GenesisTxFor(c, Outputs(c, ids, accounts), Providers(c, ids, daLocators, blendLocators));
      && |tx.ops| == |tx.proofs| == 2 * |ids| + 1
      && (k < |tx.ops| ==> ProofFits(c, c.mantleHash(tx.ops, tx.outputs), tx.ops[k], tx.proofs[k]))
  {
    var providers := Providers(c, ids, daLocators, blendLocators);
    if 0 < k <= |providers| {
      var p := providers[k - 1];
      assert p.note.note.pk == c.zkPublic(p.note.sk);
    }
  }

  function Supply(outputs: seq<Note>): (total: nat) {
    if outputs == [] then 0 else Supply(outputs[..|outputs| - 1]) + outputs[|outputs| - 1].value
  }

  lemma {:induction false} SupplyAppend(a: seq<Note>, b: seq<Note>)
    ensures Supply(a + b) == Supply(a) + Supply(b)
    decreases |b|
  {
    if b == [] {
      assert a + b == a;
    } else {
      assert (a + b)[..|a + b| - 1] == a + b[..|b| - 1];
      SupplyAppend(a, b[..|b| - 1]);
    }
  }

  lemma {:induction false} NodeSupply(c: Suite, ids: seq<NodeId>)
    ensures Supply(NodeOutputs(c, ids)) == 1002 * |ids|
  {
    if ids != [] {
      var k := |ids| - 1;
      var l := LeaderNote(c, ids[k]);
      var d := ServiceNoteFor(c, DA_PREFIX, ids[k], 3 * k + 1).note;
      var b := ServiceNoteFor(c, BLEND_PREFIX, ids[k], 3 * k + 2).note;
      NodeSupply(c, ids[..k]);
      SupplyAppend(NodeOutputs(c, ids[..k]), [l, d, b]);
      assert [l, d, b][..2] == [l, d] && [l, d][..1] == [l] && [l][..0] == [];
      assert Supply([l]) == 1000 && Supply([l, d]) == 1001;
    }
  }

  lemma {:induction false} WalletSupply(c: Suite, accounts: seq<WalletAccount>)
    ensures Supply(WalletOutputs(c, accounts)) == Sum(accounts)
  {
    if accounts != [] {
      var k := |accounts| - 1;
      WalletSupply(c, accounts[..k]);
      assert WalletOutputs(c, accounts)[..k] == WalletOutputs(c, accounts[..k]);
    }
  }

  /** Nothing but the node stakes and the wallet funds is minted. */
  lemma TotalSupply(c: Suite, ids: seq<NodeId>, accounts: seq<WalletAccount>)
    ensures Supply(Outputs(c, ids, accounts)) == 1002 * |ids| + Sum(accounts)
  {
    SupplyAppend(NodeOutputs(c, ids), WalletOutputs(c, accounts));
    NodeSupply(c, ids);
    WalletSupply(c, accounts);
  }

  // --------------------------------------------------- whose note is whose

  /** Each key pair derived for a node is the owner of the note it is derived for. */
  lemma KeysOwnNotes(c: Suite, ids: seq<NodeId>, accounts: seq<WalletAccount>, i: nat)
    requires i < |ids|
    ensures var outputs := Outputs(c, ids, accounts);
      var (pk, sk) := LeaderKeys(c, ids)[i];
      && outputs[3 * i] == Note(1000, pk) && pk == c.zkPublic(sk) && sk == Secret(ids, Leader(i))
    ensures var outputs := Outputs(c, ids, accounts);
      var da, blend := DaNotes(c, ids)[i], BlendNotes(c, ids)[i];
      && outputs[3 * i + 1] == Note(1, da.pk) && da.pk == c.zkPublic(da.sk) && da.sk == Secret(ids, DaNote(i))
      && outputs[3 * i + 2] == Note(1, blend.pk) && blend.pk == c.zkPublic(blend.sk) && blend.sk == Secret(ids, BlendNote(i))
  {
    NodeOutputsAt(c, ids, i);
  }

  /** The slot whose secret owns output `k`; wallet slots are those of accounts made by index. */
  function SlotOf(n: nat, k: nat): (s: Slot) {
    if k >= 3 * n then Slot.Wallet(k - 3 * n)
    else if k % 3 == 0 then Leader(k / 3)
    else if k % 3 == 1 then DaNote(k / 3)
    else BlendNote(k / 3)
  }

  lemma OwnerOfOutput(c: Suite, ids: seq<NodeId>, accounts: seq<WalletAccount>, k: nat)
    requires k < 3 * |ids| + |accounts| && |accounts| <= U64_LIMIT
    requires forall j :: 0 <= j < |accounts| ==> accounts[j].secretKey == WalletSecret(j)
    ensures ValidSlot(ids, SlotOf(|ids|, k))
    ensures Outputs(c, ids, accounts)[k].pk == c.zkPublic(Secret(ids, SlotOf(|ids|, k)))
  {
    if k < 3 * |ids| {
      KeysOwnNotes(c, ids, accounts, k / 3);
    }
  }

  /**
   * With ids that differ in their first 14 bytes, accounts made by index and an
   * injective key derivation, no two genesis outputs have the same owner.
   */
  lemma OwnersApart(c: Suite, ids: seq<NodeId>, accounts: seq<WalletAccount>, j: nat, k: nat)
    requires ApartIn14Bytes(ids) && j < k < 3 * |ids| + |accounts| && |accounts| <= U64_LIMIT
    requires forall i :: 0 <= i < |accounts| ==> accounts[i].secretKey == WalletSecret(i)
    requires forall x, y :: c.zkPublic(x) == c.zkPublic(y) ==> x == y
    ensures Outputs(c, ids, accounts)[j].pk != Outputs(c, ids, accounts)[k].pk
  {
    OwnerOfOutput(c, ids, accounts, j);
    OwnerOfOutput(c, ids, accounts, k);
    KeySeparation(ids);
    assert SlotOf(|ids|, j) != SlotOf(|ids|, k);
  }

  /**
   * What declaration `k` says: data availability for the first half, blend for
   * the second; the identities of its node; the node's locator; and the node's
   * own note among this transaction's outputs.
   */
  lemma DeclarationsNameTheirNodes(c: Suite, ids: seq<NodeId>, accounts: seq<WalletAccount>,
                                   daLocators: seq<Address>, blendLocators: seq<Address>, k: nat)
    requires |daLocators| == |blendLocators| == |ids| && k < 2 * |ids|
    ensures var tx := GenesisTxFor(c, Outputs(c, ids, accounts), Providers(c, ids, daLocators, blendLocators));
      var i, at := if k < |ids| then k else k - |ids|, if k < |ids| then 3 * k + 1 else 3 * (k - |ids|) + 2;
      && tx.outputs == Outputs(c, ids, accounts) && |tx.ops| == 2 * |ids| + 1 && tx.ops[0] == GenesisInscription
      && tx.ops[k + 1] == SDPDeclare(Declaration(
          if k < |ids| then DataAvailability else BlendNetwork,
          if k < |ids| then daLocators[i] else blendLocators[i],
          c.edPublic(ids[i]), c.zkPublic(c.seedOf(c.edPublic(ids[i]))),
          NoteId(c.ledgerHash(tx.outputs), at, tx.outputs[at])))
  {
    LockedNotesExist(c, ids, accounts, daLocators, blendLocators, k);
  }
}
