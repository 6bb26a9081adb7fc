/**
 * Secret key material of the genesis notes: how it is laid out in bytes, and why
 * no two notes ever share a key unless two node ids agree on their first 14 bytes.
 */
module Keys {
  import opened Integers
  import opened Bytes

  type NodeId = s: seq<Byte> | |s| == 32 witness Zeros(32)

  const LEADER_PREFIX: seq<Byte> := [108, 100] // "ld"
  const DA_PREFIX: seq<Byte> := [100, 97] // "da"
  const BLEND_PREFIX: seq<Byte> := [98, 110] // "bn"
  const WALLET_PREFIX: seq<Byte> := [119, 108] // "wl"

  /** `derive_key_material`: the prefix, then as much of the id as fits into 16 bytes. */
  function KeyMaterial(prefix: seq<Byte>, id: NodeId): (s: seq<Byte>)
    requires |prefix| <= 16
    ensures |s| == 16
  {
    prefix + id[..16 - |prefix|]
  }

  /** The 32-byte seed of wallet account `index`. */
  function WalletSeed(index: nat): (s: seq<Byte>)
    ensures |s| == 32
  {
    WALLET_PREFIX + ToLE(index, 8) + Zeros(22)
  }

  function NodeSecret(prefix: seq<Byte>, id: NodeId): (sk: nat)
    requires |prefix| <= 16
  {
    FromLE(KeyMaterial(prefix, id))
  }

  function WalletSecret(index: nat): (sk: nat) {
    FromLE(WalletSeed(index))
  }

  /** The holders of a genesis note. */
  datatype Slot = Leader(node: nat) | DaNote(node: nat) | BlendNote(node: nat) | Wallet(index: nat)

  predicate ValidSlot(ids: seq<NodeId>, s: Slot) {
    if s.Wallet? then s.index < U64_LIMIT else s.node < |ids|
  }

  function Secret(ids: seq<NodeId>, s: Slot): (sk: nat)
    requires ValidSlot(ids, s)
  {
    match s
    case Leader(i) => NodeSecret(LEADER_PREFIX, ids[i])
    case DaNote(i) => NodeSecret(DA_PREFIX, ids[i])
    case BlendNote(i) => NodeSecret(BLEND_PREFIX, ids[i])
    case Wallet(k) => WalletSecret(k)
  }

  /** The secret's bytes, filled up with zeros to 32. */
  ghost function Padded(ids: seq<NodeId>, s: Slot): (r: seq<Byte>)
    requires ValidSlot(ids, s)
    ensures |r| == 32
  {
    match s
    case Leader(i) => KeyMaterial(LEADER_PREFIX, ids[i]) + Zeros(16)
    case DaNote(i) => KeyMaterial(DA_PREFIX, ids[i]) + Zeros(16)
    case BlendNote(i) => KeyMaterial(BLEND_PREFIX, ids[i]) + Zeros(16)
    case Wallet(k) => WalletSeed(k)
  }

  lemma SecretOfPadded(ids: seq<NodeId>, s: Slot)
    requires ValidSlot(ids, s)
    ensures Secret(ids, s) == FromLE(Padded(ids, s))
  {
    match s
    case Leader(i) => FromLEConcatZeros(KeyMaterial(LEADER_PREFIX, ids[i]), 16);
    case DaNote(i) => FromLEConcatZeros(KeyMaterial(DA_PREFIX, ids[i]), 16);
    case BlendNote(i) => FromLEConcatZeros(KeyMaterial(BLEND_PREFIX, ids[i]), 16);
    case Wallet(k) =>
  }

  /** Every secret fits into 128 bits, so no reduction in the scalar field takes place. */
  lemma SecretBound(ids: seq<NodeId>, s: Slot)
    requires ValidSlot(ids, s)
    ensures Secret(ids, s) < 0x1_0000_0000_0000_0000_0000_0000_0000_0000
  {
    Pow256Values();
    match s
    case Leader(i) => FromLEBound(KeyMaterial(LEADER_PREFIX, ids[i]));
    case DaNote(i) => FromLEBound(KeyMaterial(DA_PREFIX, ids[i]));
    case BlendNote(i) => FromLEBound(KeyMaterial(BLEND_PREFIX, ids[i]));
    case Wallet(k) =>
      var head := WALLET_PREFIX + ToLE(k, 8) + Zeros(6);
      assert WalletSeed(k) == head + Zeros(16);
      FromLEConcatZeros(head, 16);
      FromLEBound(head);
  }

  /** Two slots of the same kind whose node ids agree as far as the key material looks. */
  ghost predicate Clash(ids: seq<NodeId>, s: Slot, t: Slot)
    requires ValidSlot(ids, s) && ValidSlot(ids, t)
  {
    && !s.Wallet? && !t.Wallet?
    && s.Leader? == t.Leader? && s.DaNote? == t.DaNote?
    && ids[s.node][..14] == ids[t.node][..14]
  }

  function Prefix(s: Slot): (p: seq<Byte>)
    ensures |p| == 2
  {
    match s
    case Leader(_) => LEADER_PREFIX
    case DaNote(_) => DA_PREFIX
    case BlendNote(_) => BLEND_PREFIX
    case Wallet(_) => WALLET_PREFIX
  }

  lemma PaddedPrefix(ids: seq<NodeId>, s: Slot)
    requires ValidSlot(ids, s)
    ensures Padded(ids, s)[0] == Prefix(s)[0] && Padded(ids, s)[1] == Prefix(s)[1]
  {
  }

  lemma PaddedTellsSlot(ids: seq<NodeId>, s: Slot, t: Slot)
    requires ValidSlot(ids, s) && ValidSlot(ids, t)
    requires Padded(ids, s) == Padded(ids, t)
    ensures s == t || Clash(ids, s, t)
  {
    var a, b := Padded(ids, s), Padded(ids, t);
    PaddedPrefix(ids, s);
    PaddedPrefix(ids, t);
    if s.Wallet? {
      assert a[2..10] == ToLE(s.index, 8) && b[2..10] == ToLE(t.index, 8);
      Pow256Values();
      ToLEInjective(s.index, t.index, 8);
    } else {
      assert a[2..16] == ids[s.node][..14] && b[2..16] == ids[t.node][..14];
    }
  }

  /** Two slots share a secret exactly when they are the same or clash. */
  lemma SecretsCoincide(ids: seq<NodeId>, s: Slot, t: Slot)
    requires ValidSlot(ids, s) && ValidSlot(ids, t)
    ensures Secret(ids, s) == Secret(ids, t) <==> s == t || Clash(ids, s, t)
  {
    SecretOfPadded(ids, s);
    SecretOfPadded(ids, t);
    if Secret(ids, s) == Secret(ids, t) {
      FromLEInjective(Padded(ids, s), Padded(ids, t));
      PaddedTellsSlot(ids, s, t);
    }
  }

  ghost predicate ApartIn14Bytes(ids: seq<NodeId>) {
    forall i, j :: 0 <= i < j < |ids| ==> ids[i][..14] != ids[j][..14]
  }

  ghost predicate AllSecretsApart(ids: seq<NodeId>) {
    forall s, t :: ValidSlot(ids, s) && ValidSlot(ids, t) && s != t ==> Secret(ids, s) != Secret(ids, t)
  }

  /** All genesis secrets are pairwise distinct exactly when the ids differ in their first 14 bytes. */
  lemma KeySeparation(ids: seq<NodeId>)
    ensures AllSecretsApart(ids) <==> ApartIn14Bytes(ids)
  {
    if ApartIn14Bytes(ids) {
      forall s, t | ValidSlot(ids, s) && ValidSlot(ids, t) && s != t ensures Secret(ids, s) != Secret(ids, t) {
        SecretsCoincide(ids, s, t);
      }
    } else {
      var i, j :| 0 <= i < j < |ids| && ids[i][..14] == ids[j][..14];
      SecretsCoincide(ids, Leader(i), Leader(j));
      assert ValidSlot(ids, Leader(i)) && ValidSlot(ids, Leader(j));
    }
  }

  // ------------------------------------------------------------ the numbers

  lemma PrefixedSecret(prefix: seq<Byte>, id: NodeId)
    requires |prefix| == 2
    ensures NodeSecret(prefix, id) == prefix[0] + 256 * prefix[1] + 65536 * FromLE(id[..14])
  {
    var s := KeyMaterial(prefix, id);
    assert s[1..][0] == prefix[1] && s[1..][1..] == id[..14];
    assert FromLE(s) == s[0] + 256 * FromLE(s[1..]);
    assert FromLE(s[1..]) == prefix[1] + 256 * FromLE(id[..14]);
  }

  /**
   * Every secret as a number: two letters for the kind of note in the lowest
   * bytes, and above them 14 bytes of the node's id or the account's index.
   */
  lemma SecretLayout(ids: seq<NodeId>, s: Slot)
    requires ValidSlot(ids, s)
    ensures match s
      case Leader(i) => Secret(ids, s) == 'l' as int + 256 * ('d' as int) + 65536 * FromLE(ids[i][..14])
      case DaNote(i) => Secret(ids, s) == 'd' as int + 256 * ('a' as int) + 65536 * FromLE(ids[i][..14])
      case BlendNote(i) => Secret(ids, s) == 'b' as int + 256 * ('n' as int) + 65536 * FromLE(ids[i][..14])
      case Wallet(k) => Secret(ids, s) == 'w' as int + 256 * ('l' as int) + 65536 * k
  {
    match s
    case Leader(i) => PrefixedSecret(LEADER_PREFIX, ids[i]);
    case DaNote(i) => PrefixedSecret(DA_PREFIX, ids[i]);
    case BlendNote(i) => PrefixedSecret(BLEND_PREFIX, ids[i]);
    case Wallet(k) =>
      var rest := ToLE(k, 8) + Zeros(22);
      assert WalletSeed(k)[1..][1..] == rest;
      assert FromLE(WalletSeed(k)) == WalletSeed(k)[0] + 256 * FromLE(WalletSeed(k)[1..]);
      assert FromLE(WalletSeed(k)[1..]) == WalletSeed(k)[1] + 256 * FromLE(rest);
      FromLEConcatZeros(ToLE(k, 8), 22);
      Pow256Values();
      FromLEOfToLE(k, 8);
  }
}
