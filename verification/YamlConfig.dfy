/**
 * In-place edits of a node's YAML configuration before it is written: Ed25519
 * signatures given as byte sequences become hexadecimal strings, and missing
 * defaults are filled in.
 */
module YamlConfig {
  import opened Wrappers
  import opened Bytes

  datatype Number = Int(value: int) | Float(r: real)

  datatype Entry = Entry(key: Yaml, value: Yaml)

  datatype Yaml =
    | Null
    | Bool(b: bool)
    | Num(n: Number)
    | Str(s: string)
    | Sequence(items: seq<Yaml>)
    | Mapping(entries: seq<Entry>)
    | Tagged(tag: string, value: Yaml)

  const SIG_KEY := Str("ed25519_sig")

  // ----------------------------------------------------------- normalisation

  /** `as_i64` followed by `u8::try_from`. */
  function AsByte(v: Yaml): (r: Option<Byte>) {
    if v.Num? && v.n.Int? && 0 <= v.n.value < 256 then Some(v.n.value) else None
  }

  /** The bytes of a sequence that holds nothing else. */
  function AsBytes(items: seq<Yaml>): (r: Option<seq<Byte>>)
    ensures r.Some? ==> |r.value| == |items|
  {
    if items == [] then Some([])
    else
      var k := |items| - 1;
      match (AsBytes(items[..k]), AsByte(items[k]))
      case (Some(bytes), Some(b)) => Some(bytes + [b])
      case _ => None
  }

  /** The entry binds a signature in the form that needs rewriting. */
  predicate IsRawSig(e: Entry) {
    e.key == SIG_KEY && e.value.Sequence? && AsBytes(e.value.items).Some?
  }

  function SigBytes(e: Entry): (bytes: seq<Byte>)
    requires IsRawSig(e)
  {
    AsBytes(e.value.items).value
  }

  /** `normalize_ed25519_sigs`; mapping keys are left alone. */
  function Normalize(v: Yaml): (r: Yaml)
    decreases v, 1
  {
    match v
    case Sequence(items) => Sequence(NormalizeItems(items))
    case Mapping(entries) => Mapping(NormalizeEntries(entries))
    case Tagged(tag, value) => Tagged(tag, Normalize(value))
    case _ => v
  }

  function NormalizeItems(items: seq<Yaml>): (r: seq<Yaml>)
    ensures |r| == |items|
    ensures forall i :: 0 <= i < |items| ==> r[i] == Normalize(items[i])
    decreases items, 0
  {
    if items == [] then []
    else NormalizeItems(items[..|items| - 1]) + [Normalize(items[|items| - 1])]
  }

  function NormalizeEntries(entries: seq<Entry>): (r: seq<Entry>)
    ensures |r| == |entries|
    ensures forall i :: 0 <= i < |entries| ==> r[i] == NormalizeEntry(entries[i])
    decreases entries, 0
  {
    if entries == [] then []
    else NormalizeEntries(entries[..|entries| - 1]) + [NormalizeEntry(entries[|entries| - 1])]
  }

  function NormalizeEntry(e: Entry): (r: Entry)
    decreases e, 2
  {
    if IsRawSig(e) then Entry(e.key, Str(HexEncode(SigBytes(e)))) else Entry(e.key, Normalize(e.value))
  }

  /** The same, as the source's loops do it. */
  method NormalizeSigs(v: Yaml) returns (r: Yaml)
    ensures r == Normalize(v)
    decreases v
  {
    match v {
      case Mapping(entries) =>
        var done: seq<Entry> := [];
        for i := 0 to |entries|
          invariant |done| == i
          invariant forall j :: 0 <= j < i ==> done[j] == NormalizeEntry(entries[j])
        {
          var e := entries[i];
          if e.key == SIG_KEY && e.value.Sequence? && AsBytes(e.value.items).Some? {
            done := done + [Entry(e.key, Str(HexEncode(AsBytes(e.value.items).value)))];
          } else {
            var value := NormalizeSigs(e.value);
            done := done + [Entry(e.key, value)];
          }
        }
        assert done == NormalizeEntries(entries);
        r := Mapping(done);
      case Sequence(items) =>
        var done: seq<Yaml> := [];
        for i := 0 to |items|
          invariant |done| == i
          invariant forall j :: 0 <= j < i ==> done[j] == Normalize(items[j])
        {
          var item := NormalizeSigs(items[i]);
          done := done + [item];
        }
        assert done == NormalizeItems(items);
        r := Sequence(done);
      case Tagged(tag, value) =>
        var inner := NormalizeSigs(value);
        r := Tagged(tag, inner);
      case _ =>
        r := v;
    }
  }

  // ------------------------------------------------- what normalisation means

  /** No signature is bound to a byte sequence at any depth. */
  predicate Clean(v: Yaml) {
    match v
    case Sequence(items) => forall i :: 0 <= i < |items| ==> Clean(items[i])
    case Mapping(entries) => forall i :: 0 <= i < |entries| ==> !IsRawSig(entries[i]) && Clean(entries[i].value)
    case Tagged(_, value) => Clean(value)
    case _ => true
  }

  lemma {:induction false} BytesSurvive(items: seq<Yaml>)
    ensures AsBytes(NormalizeItems(items)) == AsBytes(items)
  {
    if items != [] {
      var k := |items| - 1;
      BytesSurvive(items[..k]);
      assert NormalizeItems(items)[..k] == NormalizeItems(items[..k]);
    }
  }

  lemma {:induction false} NormalizedIsClean(v: Yaml)
    ensures Clean(Normalize(v))
    decreases v
  {
    match v
    case Sequence(items) =>
      forall i | 0 <= i < |items| ensures Clean(NormalizeItems(items)[i]) {
        NormalizedIsClean(items[i]);
      }
    case Mapping(entries) =>
      forall i | 0 <= i < |entries|
        ensures !IsRawSig(NormalizeEntries(entries)[i]) && Clean(NormalizeEntries(entries)[i].value)
      {
        var e := entries[i];
        if !IsRawSig(e) {
          NormalizedIsClean(e.value);
          if e.value.Sequence? { BytesSurvive(e.value.items); }
        }
      }
    case Tagged(_, value) => NormalizedIsClean(value);
    case _ =>
  }

  /** Exactly the clean values are left as they are. */
  lemma {:induction false} CleanIffFixed(v: Yaml)
    ensures Clean(v) <==> Normalize(v) == v
    decreases v
  {
    match v
    case Sequence(items) =>
      forall i | 0 <= i < |items| ensures Clean(items[i]) <==> NormalizeItems(items)[i] == items[i] {
        CleanIffFixed(items[i]);
      }
      if Clean(v) { assert NormalizeItems(items) == items; }
      if Normalize(v) == v { assert NormalizeItems(items) == items; }
    case Mapping(entries) =>
      forall i | 0 <= i < |entries|
        ensures !IsRawSig(entries[i]) && Clean(entries[i].value) <==> NormalizeEntries(entries)[i] == entries[i]
      {
        CleanIffFixed(entries[i].value);
      }
      if Clean(v) { assert NormalizeEntries(entries) == entries; }
      if Normalize(v) == v { assert NormalizeEntries(entries) == entries; }
    case Tagged(_, value) => CleanIffFixed(value);
    case _ =>
  }

  /** Normalising twice is normalising once. */
  lemma Idempotent(v: Yaml)
    ensures Normalize(Normalize(v)) == Normalize(v)
  {
    NormalizedIsClean(v);
    CleanIffFixed(Normalize(v));
  }

  // -------------------------------------------------------- nothing else changes

  /** What is to be seen of a value without looking at its children. */
  datatype Head =
    | HScalar(v: Yaml)
    | HSequence(length: nat)
    | HMapping(keys: seq<Yaml>)
    | HTagged(tag: string)

  function HeadOf(v: Yaml): (h: Head) {
    match v
    case Sequence(items) => HSequence(|items|)
    case Mapping(entries) => HMapping(seq(|entries|, i requires 0 <= i < |entries| => entries[i].key))
    case Tagged(tag, _) => HTagged(tag)
    case _ => HScalar(v)
  }

  function Width(v: Yaml): (n: nat) {
    match v
    case Sequence(items) => |items|
    case Mapping(entries) => |entries|
    case Tagged(_, _) => 1
    case _ => 0
  }

  function Child(v: Yaml, i: nat): (c: Yaml)
    requires i < Width(v)
    ensures c < v
  {
    match v
    case Sequence(items) => items[i]
    case Mapping(entries) => entries[i].value
    case Tagged(_, value) => value
  }

  predicate IsSigSlot(v: Yaml, i: nat) {
    v.Mapping? && i < |v.entries| && IsRawSig(v.entries[i])
  }

  /** What is to be seen at the end of a path, if it leads anywhere. */
  function HeadAt(v: Yaml, path: seq<nat>): (h: Option<Head>)
    decreases |path|
  {
    if path == [] then Some(HeadOf(v))
    else if path[0] >= Width(v) then None
    else HeadAt(Child(v, path[0]), path[1..])
  }

  /** How a path meets the signatures to be rewritten. */
  datatype Touch = Untouched | AtSig(bytes: seq<Byte>) | InsideSig

  function TouchOf(v: Yaml, path: seq<nat>): (t: Touch)
    decreases |path|
  {
    if path == [] || path[0] >= Width(v) then Untouched
    else if IsSigSlot(v, path[0]) then
      if |path| == 1 then AtSig(SigBytes(v.entries[path[0]])) else InsideSig
    else TouchOf(Child(v, path[0]), path[1..])
  }

  predicate IsLowerHex(text: string) {
    forall i :: 0 <= i < |text| ==> text[i] in "0123456789abcdef"
  }

  lemma HexTextIsLower(bytes: seq<Byte>)
    ensures IsLowerHex(HexEncode(bytes))
  {
    forall i | 0 <= i < |HexEncode(bytes)| ensures HexEncode(bytes)[i] in "0123456789abcdef" {
      HexIsLowerCase(bytes, i);
    }
  }

  /** What counts as a signature to be rewritten: a sequence of integers from 0 to 255 under this one key. */
  lemma RawSigIsBytes(e: Entry)
    ensures IsRawSig(e) <==>
      e.key == Str("ed25519_sig") && e.value.Sequence? && forall i :: 0 <= i < |e.value.items| ==> IsByte(e.value.items[i])
    ensures IsRawSig(e) ==>
      && |SigBytes(e)| == |e.value.items|
      && forall i :: 0 <= i < |SigBytes(e)| ==> e.value.items[i] == Num(Int(SigBytes(e)[i]))
  {
    if e.value.Sequence? { BytesInFull(e.value.items); }
  }

  predicate IsByte(v: Yaml) {
    v.Num? && v.n.Int? && 0 <= v.n.value <= 255
  }

  lemma {:induction false} BytesInFull(items: seq<Yaml>)
    ensures AsBytes(items).Some? <==> forall i :: 0 <= i < |items| ==> IsByte(items[i])
    ensures AsBytes(items).Some? ==> forall i :: 0 <= i < |items| ==> items[i] == Num(Int(AsBytes(items).value[i]))
  {
    if items != [] {
      var k := |items| - 1;
      BytesInFull(items[..k]);
      assert items == items[..k] + [items[k]];
      forall i | 0 <= i < k ensures IsByte(items[..k][i]) <==> IsByte(items[i]) { }
      if AsBytes(items).Some? {
        assert AsBytes(items).value == AsBytes(items[..k]).value + [AsByte(items[k]).value];
      }
    }
  }

  lemma SigRewritten(v: Yaml, path: seq<nat>)
    requires path != [] && IsSigSlot(v, path[0])
    ensures var text := HexEncode(SigBytes(v.entries[path[0]]));
      && HexDecode(text) == Some(SigBytes(v.entries[path[0]])) && IsLowerHex(text)
      && HeadAt(Normalize(v), path) == if |path| == 1 then Some(HScalar(Str(text))) else None
  {
    var bytes := SigBytes(v.entries[path[0]]);
    HexRoundTrip(bytes);
    HexTextIsLower(bytes);
    assert Child(Normalize(v), path[0]) == Str(HexEncode(bytes));
    if |path| == 1 {
      assert path[1..] == [];
    }
  }

  /**
   * Path by path: a rewritten signature shows a string whose hexadecimal
   * digits decode to its bytes, nothing lies below it, and every other place
   * shows what it showed before.
   */
  lemma {:induction false} ChangesOnlySigs(v: Yaml, path: seq<nat>)
    ensures match TouchOf(v, path)
      case Untouched => HeadAt(Normalize(v), path) == HeadAt(v, path)
      case AtSig(bytes) =>
        exists text :: HeadAt(Normalize(v), path) == Some(HScalar(Str(text))) && HexDecode(text) == Some(bytes)
          && IsLowerHex(text)
      case InsideSig => HeadAt(Normalize(v), path) == None
    decreases |path|
  {
    if path == [] {
      SameHead(v);
    } else if path[0] < Width(v) {
      var i := path[0];
      if IsSigSlot(v, i) {
        SigRewritten(v, path);
      } else {
        assert Child(Normalize(v), i) == Normalize(Child(v, i));
        ChangesOnlySigs(Child(v, i), path[1..]);
      }
    }
  }

  lemma SameHead(v: Yaml)
    ensures HeadOf(Normalize(v)) == HeadOf(v) && Width(Normalize(v)) == Width(v)
  {
    if v.Mapping? {
      assert HeadOf(Normalize(v)).keys == HeadOf(v).keys;
    }
  }

  // --------------------------------------------------------------- defaults

  const CRYPTARCHIA := Str("cryptarchia")
  const NETWORK_ADAPTER := Str("network_adapter_settings")
  const SYNC := Str("sync")
  const BOOTSTRAP := Str("bootstrap")
  const IBD := Str("ibd")

  const DEFAULT_ADAPTER := Mapping([Entry(Str("topic"), Str("/cryptarchia/proto"))])
  const DEFAULT_SYNC := Mapping([Entry(Str("orphan"), Mapping([Entry(Str("max_orphan_cache_size"), Num(Int(5)))]))])
  const DEFAULT_IBD := Mapping([Entry(Str("peers"), Sequence([]))])

  /** The place of a key in a mapping, the first if there were several. */
  function Find(entries: seq<Entry>, key: Yaml): (r: Option<nat>)
    ensures r.Some? ==> r.value < |entries| && entries[r.value].key == key
    ensures r.Some? ==> forall j :: 0 <= j < r.value ==> entries[j].key != key
    ensures r.None? ==> forall j :: 0 <= j < |entries| ==> entries[j].key != key
  {
    if entries == [] then None
    else if entries[0].key == key then Some(0)
    else match Find(entries[1..], key)
      case None => None
      case Some(i) => Some(i + 1)
  }

  /** Adds a key unless it is there. */
  function Ensure(entries: seq<Entry>, key: Yaml, value: Yaml): (r: seq<Entry>) {
    if Find(entries, key).Some? then entries else entries + [Entry(key, value)]
  }

  /** `ensure_ibd_bootstrap`: only inside a bootstrap section that is there and is a mapping. */
  function EnsureIbd(entries: seq<Entry>): (r: seq<Entry>) {
    match Find(entries, BOOTSTRAP)
    case None => entries
    case Some(i) =>
      if entries[i].value.Mapping?
      then entries[i := Entry(entries[i].key, Mapping(Ensure(entries[i].value.entries, IBD, DEFAULT_IBD)))]
      else entries
  }

  function FillSection(entries: seq<Entry>): (r: seq<Entry>) {
    EnsureIbd(Ensure(Ensure(entries, NETWORK_ADAPTER, DEFAULT_ADAPTER), SYNC, DEFAULT_SYNC))
  }

  /** The place of the cryptarchia section, when it is a mapping. */
  function SectionAt(v: Yaml): (r: Option<nat>)
    ensures r.Some? ==> v.Mapping? && r.value < |v.entries| && v.entries[r.value].value.Mapping?
    ensures r.Some? ==> v.entries[r.value].key == CRYPTARCHIA
  {
    if !v.Mapping? then None
    else match Find(v.entries, CRYPTARCHIA)
      case None => None
      case Some(i) => if v.entries[i].value.Mapping? then Some(i) else None
  }

  function WithDefaults(v: Yaml): (r: Yaml) {
    match SectionAt(v)
    case None => v
    case Some(i) => Mapping(v.entries[i := Entry(v.entries[i].key, Mapping(FillSection(v.entries[i].value.entries)))])
  }

  /** `inject_ibd_into_cryptarchia`: without the section nothing is done, not even normalisation. */
  function Inject(v: Yaml): (r: Yaml) {
    if SectionAt(v).None? then v else Normalize(WithDefaults(v))
  }

  /** `write_config_with_injection`, up to writing the file. */
  function Written(v: Yaml): (r: Yaml) {
    Normalize(Inject(v))
  }

  lemma FindIs(entries: seq<Entry>, key: Yaml, i: nat)
    requires i < |entries| && entries[i].key == key && forall j :: 0 <= j < i ==> entries[j].key != key
    ensures Find(entries, key) == Some(i)
  {
  }

  /** Lookups look at keys only. */
  lemma FindByKeys(a: seq<Entry>, b: seq<Entry>, key: Yaml)
    requires |a| == |b| && forall i :: 0 <= i < |a| ==> a[i].key == b[i].key
    ensures Find(a, key) == Find(b, key)
  {
    match Find(a, key)
    case Some(i) => FindIs(b, key, i);
    case None =>
  }

  lemma EnsureFinds(entries: seq<Entry>, key: Yaml, value: Yaml, other: Yaml)
    ensures Find(Ensure(entries, key, value), key).Some?
    ensures Find(entries, other).Some? ==> Find(Ensure(entries, key, value), other) == Find(entries, other)
    ensures other != key ==> Find(Ensure(entries, key, value), other) == Find(entries, other)
  {
    var r := Ensure(entries, key, value);
    if Find(entries, key).None? {
      FindIs(r, key, |entries|);
    }
    match Find(entries, other)
    case Some(i) => FindIs(r, other, i);
    case None =>
  }

  /** The section needs no defaults. */
  ghost predicate Filled(entries: seq<Entry>) {
    && Find(entries, NETWORK_ADAPTER).Some?
    && Find(entries, SYNC).Some?
    && (Find(entries, BOOTSTRAP).Some? && entries[Find(entries, BOOTSTRAP).value].value.Mapping? ==>
          Find(entries[Find(entries, BOOTSTRAP).value].value.entries, IBD).Some?)
  }

  lemma FilledIsFixed(entries: seq<Entry>)
    requires Filled(entries)
    ensures FillSection(entries) == entries
  {
    if i :| Find(entries, BOOTSTRAP) == Some(i) && entries[i].value.Mapping? {
      assert Entry(entries[i].key, Mapping(entries[i].value.entries)) == entries[i];
    }
  }

  lemma FillFills(entries: seq<Entry>)
    ensures Filled(FillSection(entries))
  {
    var a := Ensure(entries, NETWORK_ADAPTER, DEFAULT_ADAPTER);
    var b := Ensure(a, SYNC, DEFAULT_SYNC);
    var r := FillSection(entries);
    EnsureFinds(entries, NETWORK_ADAPTER, DEFAULT_ADAPTER, SYNC);
    EnsureFinds(a, SYNC, DEFAULT_SYNC, NETWORK_ADAPTER);
    FindByKeys(b, r, NETWORK_ADAPTER);
    FindByKeys(b, r, SYNC);
    FindByKeys(b, r, BOOTSTRAP);
    if i :| Find(b, BOOTSTRAP) == Some(i) && b[i].value.Mapping? {
      EnsureFinds(b[i].value.entries, IBD, DEFAULT_IBD, IBD);
    }
  }

  /** A key other than `ed25519_sig` keeps its place, and its mapping stays a mapping. */
  lemma NormalizeKeepsFinds(entries: seq<Entry>, key: Yaml)
    requires key != SIG_KEY
    ensures Find(NormalizeEntries(entries), key) == Find(entries, key)
    ensures Find(entries, key).Some? ==>
      NormalizeEntries(entries)[Find(entries, key).value].value == Normalize(entries[Find(entries, key).value].value)
  {
    FindByKeys(NormalizeEntries(entries), entries, key);
  }

  lemma NormalizeKeepsFilled(entries: seq<Entry>)
    requires Filled(entries)
    ensures Filled(NormalizeEntries(entries))
  {
    NormalizeKeepsFinds(entries, NETWORK_ADAPTER);
    NormalizeKeepsFinds(entries, SYNC);
    NormalizeKeepsFinds(entries, BOOTSTRAP);
    if i :| Find(entries, BOOTSTRAP) == Some(i) && entries[i].value.Mapping? {
      NormalizeKeepsFinds(entries[i].value.entries, IBD);
    }
  }

  ghost predicate Complete(v: Yaml) {
    SectionAt(v).Some? && Filled(v.entries[SectionAt(v).value].value.entries)
  }

  lemma InjectCompletes(v: Yaml)
    requires SectionAt(v).Some?
    ensures Complete(WithDefaults(v)) && Complete(Inject(v))
  {
    var i := SectionAt(v).value;
    var d := WithDefaults(v);
    FindByKeys(v.entries, d.entries, CRYPTARCHIA);
    FillFills(v.entries[i].value.entries);
    NormalizeKeepsFinds(d.entries, CRYPTARCHIA);
    NormalizeKeepsFilled(d.entries[i].value.entries);
  }

  /** Injecting twice is injecting once. */
  lemma InjectIdempotent(v: Yaml)
    ensures Inject(Inject(v)) == Inject(v)
  {
    if SectionAt(v).Some? {
      var x := Inject(v);
      InjectCompletes(v);
      var i := SectionAt(x).value;
      FilledIsFixed(x.entries[i].value.entries);
      assert x.entries[i := Entry(x.entries[i].key, Mapping(x.entries[i].value.entries))] == x.entries;
      assert WithDefaults(x) == x;
      Idempotent(WithDefaults(v));
    }
  }

  /** The second normalisation on writing is harmless: what is written is the normalised completed value. */
  lemma WrittenIsNormalizedOnce(v: Yaml)
    ensures Written(v) == Normalize(WithDefaults(v))
    ensures Clean(Written(v))
    ensures SectionAt(v).Some? ==> Written(v) == Inject(v)
  {
    Idempotent(WithDefaults(v));
    NormalizedIsClean(WithDefaults(v));
  }

  /** Injecting alone leaves a clean value exactly when there is a section to fill or nothing to clean. */
  lemma InjectCleans(v: Yaml)
    ensures Clean(Inject(v)) <==> SectionAt(v).Some? || Clean(v)
  {
    NormalizedIsClean(WithDefaults(v));
  }

  /** A signature of no bytes, in a file without the section, survives injection; only writing rewrites it. */
  lemma InjectMissesSignature()
    ensures var v := Mapping([Entry(SIG_KEY, Sequence([]))]);
      !Clean(Inject(v)) && Written(v) == Mapping([Entry(SIG_KEY, Str(""))])
  {
    var v := Mapping([Entry(SIG_KEY, Sequence([]))]);
    assert Find(v.entries, CRYPTARCHIA).None?;
    assert IsRawSig(v.entries[0]);
    assert Written(v).entries == [Entry(SIG_KEY, Str(""))];
  }

  /**
   * Defaults never overwrite: every key of the section keeps its place and its
   * value, except that a bootstrap mapping may have the missing key appended.
   */
  lemma DefaultsNeverOverwrite(entries: seq<Entry>, i: nat)
    requires i < |entries|
    ensures |FillSection(entries)| >= |entries|
    ensures var after := FillSection(entries)[i];
      && after.key == entries[i].key
      && (after.value == entries[i].value
          || (entries[i].key == BOOTSTRAP && entries[i].value.Mapping? && after.value.Mapping?
              && Find(entries[i].value.entries, IBD).None?
              && after.value.entries == entries[i].value.entries + [Entry(IBD, DEFAULT_IBD)]))
  {
  }

  /** Which defaults are appended to the section. */
  lemma DefaultsAppended(entries: seq<Entry>)
    ensures |FillSection(entries)| >= |entries|
    ensures var network := Entry(Str("network_adapter_settings"), Mapping([Entry(Str("topic"), Str("/cryptarchia/proto"))]));
      var sync := Entry(Str("sync"),
        Mapping([Entry(Str("orphan"), Mapping([Entry(Str("max_orphan_cache_size"), Num(Int(5)))]))]));
      FillSection(entries)[|entries|..] ==
        (if Has(entries, network.key) then [] else [network]) + (if Has(entries, sync.key) then [] else [sync])
  {
    var a := Ensure(entries, NETWORK_ADAPTER, DEFAULT_ADAPTER);
    var b := Ensure(a, SYNC, DEFAULT_SYNC);
    var tail := (if Has(entries, NETWORK_ADAPTER) then [] else [Entry(NETWORK_ADAPTER, DEFAULT_ADAPTER)])
      + (if Has(entries, SYNC) then [] else [Entry(SYNC, DEFAULT_SYNC)]);
    EnsureAppends(entries, NETWORK_ADAPTER, DEFAULT_ADAPTER);
    EnsureAppends(a, SYNC, DEFAULT_SYNC);
    assert Has(a, SYNC) <==> Has(entries, SYNC) by { HasAfterEnsure(entries, NETWORK_ADAPTER, DEFAULT_ADAPTER, SYNC); }
    assert b == entries + tail;
    IbdKeepsTail(entries, tail);
  }

  lemma EnsureAppends(entries: seq<Entry>, key: Yaml, value: Yaml)
    ensures Ensure(entries, key, value) == entries + if Has(entries, key) then [] else [Entry(key, value)]
  {
    if Find(entries, key).Some? {
      assert entries[Find(entries, key).value].key == key;
    }
  }

  lemma HasAfterEnsure(entries: seq<Entry>, key: Yaml, value: Yaml, other: Yaml)
    requires other != key
    ensures Has(Ensure(entries, key, value), other) <==> Has(entries, other)
  {
    var r := Ensure(entries, key, value);
    if Has(entries, other) {
      var i :| 0 <= i < |entries| && entries[i].key == other;
      assert r[i].key == other;
    }
  }

  lemma IbdKeepsTail(entries: seq<Entry>, tail: seq<Entry>)
    requires forall i :: 0 <= i < |tail| ==> tail[i].key != BOOTSTRAP
    ensures |EnsureIbd(entries + tail)| == |entries + tail|
    ensures EnsureIbd(entries + tail)[|entries|..] == tail
  {
    match Find(entries + tail, BOOTSTRAP)
    case None => assert (entries + tail)[|entries|..] == tail;
    case Some(i) =>
      assert i < |entries|;
      assert EnsureIbd(entries + tail)[|entries|..] == tail;
  }

  /** A bootstrap mapping without an `ibd` gets an empty list of peers. */
  lemma IbdFilledIn(entries: seq<Entry>, i: nat)
    requires i < |entries| && entries[i].key == Str("bootstrap") && entries[i].value.Mapping?
    requires forall j :: 0 <= j < i ==> entries[j].key != Str("bootstrap")
    requires !Has(entries[i].value.entries, Str("ibd"))
    ensures |FillSection(entries)| > i && FillSection(entries)[i].value ==
      Mapping(entries[i].value.entries + [Entry(Str("ibd"), Mapping([Entry(Str("peers"), Sequence([]))]))])
  {
    var a := Ensure(entries, NETWORK_ADAPTER, DEFAULT_ADAPTER);
    FindIs(entries, BOOTSTRAP, i);
    EnsureFinds(entries, NETWORK_ADAPTER, DEFAULT_ADAPTER, BOOTSTRAP);
    EnsureFinds(a, SYNC, DEFAULT_SYNC, BOOTSTRAP);
    EnsureAppends(entries[i].value.entries, IBD, DEFAULT_IBD);
  }

  predicate Has(entries: seq<Entry>, key: Yaml) {
    exists i :: 0 <= i < |entries| && entries[i].key == key
  }

  /** Defaults go into the first entry named cryptarchia, if it is a mapping, and nowhere else. */
  lemma OnlyTheSectionChanges(v: Yaml, i: nat)
    requires v.Mapping? && i < |v.entries|
    requires v.entries[i].key == Str("cryptarchia") && forall j :: 0 <= j < i ==> v.entries[j].key != Str("cryptarchia")
    ensures WithDefaults(v) == if v.entries[i].value.Mapping?
      then Mapping(v.entries[i := Entry(Str("cryptarchia"), Mapping(FillSection(v.entries[i].value.entries)))])
      else v
  {
    FindIs(v.entries, CRYPTARCHIA, i);
  }

  lemma WithoutSectionNothingChanges(v: Yaml)
    requires v.Mapping? ==> !Has(v.entries, Str("cryptarchia"))
    ensures Inject(v) == v
  {
  }
}
