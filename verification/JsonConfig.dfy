/**
 * The cfgsync server edits the JSON form of a node's configuration before
 * sending it; the client reads the subnetwork assignations back out of it.
 */
module JsonConfig {
  import opened Integers
  import opened Wrappers
  import opened Decimal
  import opened Json
  import opened Mantle

  /** The textual form of peer ids. */
  datatype PeerCodec = PeerCodec(render: PeerId -> string, parse: string -> Option<PeerId>)

  ghost predicate Faithful(codec: PeerCodec) {
    forall p: PeerId :: codec.parse(codec.render(p)) == Some(p)
  }

  const MEMBERSHIP: Path := ["da_network", "membership"]
  const ASSIGNATIONS: Path := ["da_network", "membership", "assignations"]
  const MIN_SESSION: Path := ["da_network", "min_session_members"]
  const API_ADDRESS: Path := ["http", "backend_settings", "address"]
  const TESTING_ADDRESS: Path := ["testing_http", "backend_settings", "address"]
  const SECTION: Path := ["cryptarchia"]

  // ----------------------------------------------------------- server edits

  function EntryOr(fields: map<string, Json>, key: string, default: Json): (r: map<string, Json>) {
    if key in fields then fields else fields[key := default]
  }

  const DEFAULT_IBD := JObject(map["peers" := JArray([]),
    "delay_before_new_download" := JObject(map["secs" := JNum(10), "nanos" := JNum(0)])])
  const DEFAULT_ADAPTER := JObject(map["topic" := JStr("/cryptarchia/proto")])
  const DEFAULT_SYNC := JObject(map["orphan" := JObject(map["max_orphan_cache_size" := JNum(5)])])

  /** Missing entries of the cryptarchia section, the bootstrap subsection included. */
  function FillSection(v: Json): (r: Json) {
    match v
    case JObject(fields) =>
      var a := EntryOr(fields, "bootstrap", JObject(map[]));
      var b := if a["bootstrap"].JObject?
        then a["bootstrap" := JObject(EntryOr(a["bootstrap"].fields, "ibd", DEFAULT_IBD))] else a;
      JObject(EntryOr(EntryOr(b, "network_adapter_settings", DEFAULT_ADAPTER), "sync", DEFAULT_SYNC))
    case _ => v
  }

  function InjectDefaults(v: Json): (r: Json) {
    Update(v, SECTION, FillSection)
  }

  function PortText(port: nat): (x: Json) {
    JStr("0.0.0.0:" + Print(port))
  }

  function OverridePort(v: Json, path: Path, port: Option<nat>): (r: Json) {
    match port
    case None => v
    case Some(p) => Update(v, path, (_: Json) => PortText(p))
  }

  function OverrideApiPorts(v: Json, api: Option<nat>, testing: Option<nat>): (r: Json) {
    OverridePort(OverridePort(v, API_ADDRESS, api), TESTING_ADDRESS, testing)
  }

  function PutAssignations(assignations: Json): (f: Json -> Json) {
    (x: Json) => match x
      case JObject(fields) => JObject(fields["assignations" := assignations])
      case _ => x
  }

  function InjectAssignations(v: Json, assignations: Json): (r: Json) {
    Update(v, MEMBERSHIP, PutAssignations(assignations))
  }

  function OverrideMinSession(v: Json): (r: Json) {
    Update(v, MIN_SESSION, (_: Json) => JNum(1))
  }

  /** What the server sends: defaults, ports, assignations and session minimum, in that order. */
  function Served(v: Json, api: Option<nat>, testing: Option<nat>, assignations: Json): (r: Json) {
    OverrideMinSession(InjectAssignations(OverrideApiPorts(InjectDefaults(v), api, testing), assignations))
  }

  /** Subnetwork ids become decimal keys, members become arrays of strings in some order. */
  ghost predicate Encodes(codec: PeerCodec, fields: map<string, Json>, m: Membership) {
    && (forall key :: key in fields ==> exists k :: k in m && key == Print(k))
    && (forall k :: k in m ==> Print(k) in fields && EncodesMembers(codec, fields[Print(k)], m[k]))
  }

  ghost predicate EncodesMembers(codec: PeerCodec, v: Json, members: set<PeerId>) {
    && v.JArray?
    && (forall i :: 0 <= i < |v.items| ==> exists p :: p in members && v.items[i] == JStr(codec.render(p)))
    && (forall p :: p in members ==> JStr(codec.render(p)) in v.items)
  }

  method EncodeMembers(codec: PeerCodec, members: set<PeerId>) returns (v: Json)
    ensures EncodesMembers(codec, v, members)
  {
    var items: seq<Json> := [];
    var todo := members;
    while todo != {}
      invariant todo <= members
      invariant forall i :: 0 <= i < |items| ==> exists p :: p in members && items[i] == JStr(codec.render(p))
      invariant forall p :: p in members && p !in todo ==> JStr(codec.render(p)) in items
      decreases |todo|
    {
      var p :| p in todo;
      todo := todo - {p};
      items := items + [JStr(codec.render(p))];
    }
    v := JArray(items);
  }

  /** The server's rendering of the membership, in whatever order the map yields it. */
  method EncodeAssignations(codec: PeerCodec, m: Membership) returns (fields: map<string, Json>)
    ensures Encodes(codec, fields, m)
  {
    fields := map[];
    var todo := m.Keys;
    while todo != {}
      invariant todo <= m.Keys
      invariant forall key :: key in fields ==> exists k :: k in m && key == Print(k)
      invariant forall k :: k in m && k !in todo ==>
        Print(k) in fields && EncodesMembers(codec, fields[Print(k)], m[k])
      decreases |todo|
    {
      var k :| k in todo;
      todo := todo - {k};
      var members := EncodeMembers(codec, m[k]);
      forall j | j in m && j !in todo && Print(j) == Print(k) ensures j == k {
        PrintInjective(j, k);
      }
      fields := fields[Print(k) := members];
    }
  }

  // ----------------------------------------------------------- client parsing

  function ParsePeer(codec: PeerCodec, v: Json): (r: Option<PeerId>) {
    if v.JStr? then codec.parse(v.s) else None
  }

  /** Entries that do not parse are skipped. */
  function ParseMembers(codec: PeerCodec, items: seq<Json>): (r: set<PeerId>) {
    if items == [] then {}
    else
      var rest := ParseMembers(codec, items[..|items| - 1]);
      match ParsePeer(codec, items[|items| - 1])
      case Some(p) => rest + {p}
      case None => rest
  }

  /** One entry of the object is acceptable. */
  predicate Acceptable(key: string, v: Json) {
    Parse(key, U16_LIMIT).Some? && v.JArray?
  }

  /**
   * A possible result of parsing `fields`: nothing as soon as one entry is not
   * acceptable; otherwise one set for each id, taken from a key that reads as it.
   */
  ghost predicate ParsesTo(codec: PeerCodec, fields: map<string, Json>, r: Option<Membership>) {
    match r
    case None => exists key :: key in fields && !Acceptable(key, fields[key])
    case Some(m) =>
      && (forall key :: key in fields ==> Acceptable(key, fields[key]) && Parse(key, U16_LIMIT).value in m)
      && (forall k :: k in m ==> ReadFrom(codec, fields, k, m[k]))
  }

  ghost predicate ReadFrom(codec: PeerCodec, fields: map<string, Json>, k: nat, members: set<PeerId>) {
    exists key :: key in fields && Parse(key, U16_LIMIT) == Some(k) && fields[key].JArray?
      && members == ParseMembers(codec, fields[key].items)
  }

  /** The object holding the assignations, when there is one. */
  function AssignationFields(raw: Json): (r: Option<map<string, Json>>) {
    match Get(raw, ASSIGNATIONS)
    case Some(JObject(fields)) => Some(fields)
    case _ => None
  }

  /** `parse_assignations`, going through the object in whatever order it yields its entries. */
  method ParseAssignations(codec: PeerCodec, raw: Json) returns (r: Option<Membership>)
    ensures match AssignationFields(raw)
      case None => r == None
      case Some(fields) => ParsesTo(codec, fields, r)
  {
    var found := AssignationFields(raw);
    if found.None? {
      return None;
    }
    var fields := found.value;
    var result: Membership := map[];
    var todo := fields.Keys;
    while todo != {}
      invariant todo <= fields.Keys
      invariant forall key :: key in fields && key !in todo ==>
        Acceptable(key, fields[key]) && Parse(key, U16_LIMIT).value in result
      invariant forall k :: k in result ==> ReadFrom(codec, fields, k, result[k])
      decreases |todo|
    {
      var key :| key in todo;
      todo := todo - {key};
      var id := Parse(key, U16_LIMIT);
      if id.None? {
        assert !Acceptable(key, fields[key]);
        return None;
      }
      if !fields[key].JArray? {
        assert !Acceptable(key, fields[key]);
        return None;
      }
      var members := CollectMembers(codec, fields[key].items);
      assert ReadFrom(codec, fields, id.value, members);
      result := result[id.value := members];
    }
    return Some(result);
  }

  method CollectMembers(codec: PeerCodec, items: seq<Json>) returns (members: set<PeerId>)
    ensures members == ParseMembers(codec, items)
  {
    members := {};
    for i := 0 to |items|
      invariant members == ParseMembers(codec, items[..i])
    {
      assert items[..i + 1][..i] == items[..i];
      var peer := ParsePeer(codec, items[i]);
      if peer.Some? {
        members := members + {peer.value};
      }
    }
    assert items[..|items|] == items;
  }

  // --------------------------------------------------------------- round trip

  lemma {:induction false} ParsedMember(codec: PeerCodec, items: seq<Json>, p: PeerId)
    ensures p in ParseMembers(codec, items) <==>
      exists i :: 0 <= i < |items| && ParsePeer(codec, items[i]) == Some(p)
  {
    if items != [] {
      var k := |items| - 1;
      ParsedMember(codec, items[..k], p);
      if p in ParseMembers(codec, items[..k]) {
        var i :| 0 <= i < k && ParsePeer(codec, items[..k][i]) == Some(p);
        assert ParsePeer(codec, items[i]) == Some(p);
      }
      if i :| 0 <= i < |items| && ParsePeer(codec, items[i]) == Some(p) {
        if i < k { assert ParsePeer(codec, items[..k][i]) == Some(p); }
      }
    }
  }

  lemma MembersRoundTrip(codec: PeerCodec, v: Json, members: set<PeerId>)
    requires Faithful(codec) && EncodesMembers(codec, v, members)
    ensures ParseMembers(codec, v.items) == members
  {
    forall p ensures p in ParseMembers(codec, v.items) <==> p in members {
      ParsedMember(codec, v.items, p);
      if p in members {
        var i :| 0 <= i < |v.items| && v.items[i] == JStr(codec.render(p));
        assert ParsePeer(codec, v.items[i]) == Some(p);
      }
    }
  }

  lemma EncodingAcceptable(codec: PeerCodec, fields: map<string, Json>, m: Membership, key: string)
    requires (forall k :: k in m ==> k < U16_LIMIT) && Encodes(codec, fields, m) && key in fields
    ensures Acceptable(key, fields[key])
  {
    var k :| k in m && key == Print(k);
    ParseOfPrint(k, U16_LIMIT);
  }

  lemma EncodingParses(codec: PeerCodec, fields: map<string, Json>, m: Membership, r: Option<Membership>)
    requires (forall k :: k in m ==> k < U16_LIMIT) && Encodes(codec, fields, m) && ParsesTo(codec, fields, r)
    ensures r.Some? && m.Keys <= r.value.Keys
  {
    forall key | key in fields ensures Acceptable(key, fields[key]) {
      EncodingAcceptable(codec, fields, m, key);
    }
    forall k | k in m ensures k in r.value {
      ParseOfPrint(k, U16_LIMIT);
      assert Print(k) in fields;
    }
  }

  /** Whatever order anything is visited in, parsing an encoding gives the membership back. */
  lemma AssignationsRoundTrip(codec: PeerCodec, fields: map<string, Json>, m: Membership, r: Option<Membership>)
    requires Faithful(codec) && (forall k :: k in m ==> k < U16_LIMIT)
    requires Encodes(codec, fields, m) && ParsesTo(codec, fields, r)
    ensures r == Some(m)
  {
    EncodingParses(codec, fields, m, r);
    AllReadBack(codec, fields, m, r.value);
    SameMap(r.value, m);
  }

  lemma AllReadBack(codec: PeerCodec, fields: map<string, Json>, m: Membership, got: Membership)
    requires Faithful(codec) && (forall k :: k in m ==> k < U16_LIMIT) && Encodes(codec, fields, m)
    requires forall k :: k in got ==> ReadFrom(codec, fields, k, got[k])
    ensures forall k :: k in got ==> k in m && got[k] == m[k]
  {
    forall k | k in got ensures k in m && got[k] == m[k] {
      ReadBack(codec, fields, m, k, got[k]);
    }
  }

  lemma SameMap(a: Membership, b: Membership)
    requires b.Keys <= a.Keys && forall k :: k in a ==> k in b && a[k] == b[k]
    ensures a == b
  {
  }

  lemma ReadBack(codec: PeerCodec, fields: map<string, Json>, m: Membership, k: nat, members: set<PeerId>)
    requires Faithful(codec) && (forall j :: j in m ==> j < U16_LIMIT)
    requires Encodes(codec, fields, m) && ReadFrom(codec, fields, k, members)
    ensures k in m && members == m[k]
  {
    var key :| key in fields && Parse(key, U16_LIMIT) == Some(k) && fields[key].JArray?
      && members == ParseMembers(codec, fields[key].items);
    var j :| j in m && key == Print(j);
    ParseOfPrint(j, U16_LIMIT);
    MembersRoundTrip(codec, fields[key], m[j]);
  }

  /** The configuration has a membership object to put assignations into. */
  ghost predicate HasMembership(v: Json) {
    match Get(v, MEMBERSHIP)
    case Some(JObject(_)) => true
    case _ => false
  }

  lemma PathsDiverge()
    ensures Diverge(SECTION, MEMBERSHIP)
    ensures Diverge(API_ADDRESS, MEMBERSHIP) && Diverge(TESTING_ADDRESS, MEMBERSHIP)
    ensures Diverge(MIN_SESSION, ASSIGNATIONS) && Diverge(MIN_SESSION, MEMBERSHIP)
    ensures ASSIGNATIONS == MEMBERSHIP + ["assignations"]
  {
    assert "cryptarchia"[0] != "da_network"[0];
    assert "http"[0] != "da_network"[0] && "testing_http"[0] != "da_network"[0];
    assert MIN_SESSION[1..][0] == "min_session_members" && ASSIGNATIONS[1..][0] == "membership";
    assert MEMBERSHIP[1..][0] == "membership";
    assert "min_session_members"[1] != "membership"[1];
    assert Diverge(MIN_SESSION[1..], ASSIGNATIONS[1..]) && Diverge(MIN_SESSION[1..], MEMBERSHIP[1..]);
  }

  /** The other edits act elsewhere: the client finds exactly the object the server put in, or none. */
  lemma EditsKeepAssignations(v: Json, api: Option<nat>, testing: Option<nat>, fields: map<string, Json>)
    ensures AssignationFields(Served(v, api, testing, JObject(fields))) ==
      if HasMembership(v) then Some(fields) else None
  {
    PathsDiverge();
    var a := InjectDefaults(v);
    var b := OverridePort(a, API_ADDRESS, api);
    var c := OverridePort(b, TESTING_ADDRESS, testing);
    var d := InjectAssignations(c, JObject(fields));
    UpdateElsewhere(v, SECTION, FillSection, MEMBERSHIP);
    if api.Some? { UpdateElsewhere(a, API_ADDRESS, (_: Json) => PortText(api.value), MEMBERSHIP); }
    if testing.Some? { UpdateElsewhere(b, TESTING_ADDRESS, (_: Json) => PortText(testing.value), MEMBERSHIP); }
    assert Get(c, MEMBERSHIP) == Get(v, MEMBERSHIP);
    InjectedAt(c, fields);
    UpdateElsewhere(d, MIN_SESSION, (_: Json) => JNum(1), ASSIGNATIONS);
  }

  lemma InjectedAt(c: Json, fields: map<string, Json>)
    ensures AssignationFields(InjectAssignations(c, JObject(fields))) == if HasMembership(c) then Some(fields) else None
  {
    var f := PutAssignations(JObject(fields));
    var d := Update(c, MEMBERSHIP, f);
    PathsDiverge();
    GetOfUpdate(c, MEMBERSHIP, f);
    GetAppend(d, MEMBERSHIP, ["assignations"]);
    assert ["assignations"][1..] == [];
    if !HasMembership(c) && Get(c, MEMBERSHIP).Some? {
      NotAnIndex();
    }
  }

  lemma NotAnIndex()
    ensures ArrayIndex("assignations").None?
  {
    var s := "assignations";
    assert !IsDigit(s[|s| - 1]);
  }

  /**
   * End to end, for every configuration, port override and membership: the
   * client recovers exactly the membership if the configuration has a
   * membership object, and nothing otherwise.
   */
  lemma ServedRoundTrip(codec: PeerCodec, v: Json, api: Option<nat>, testing: Option<nat>,
                        m: Membership, fields: map<string, Json>, r: Option<Membership>)
    requires Faithful(codec) && (forall k :: k in m ==> k < U16_LIMIT) && Encodes(codec, fields, m)
    requires match AssignationFields(Served(v, api, testing, JObject(fields)))
      case None => r == None
      case Some(found) => ParsesTo(codec, found, r)
    ensures r == if HasMembership(v) then Some(m) else None
  {
    EditsKeepAssignations(v, api, testing, fields);
    if HasMembership(v) {
      AssignationsRoundTrip(codec, fields, m, r);
    }
  }

  /** Filling in defaults keeps every field that was there, but for an `ibd` added to the bootstrap object. */
  lemma DefaultsKeepFields(fields: map<string, Json>, key: string)
    requires key in fields
    ensures FillSection(JObject(fields)).JObject?
    ensures var after := FillSection(JObject(fields)).fields;
      && key in after
      && (after[key] == fields[key]
          || (key == "bootstrap" && fields[key].JObject? && "ibd" !in fields[key].fields
              && after[key] == JObject(fields[key].fields["ibd" := DEFAULT_IBD])))
  {
  }

  /** All defaults are in place. */
  predicate Filled(fields: map<string, Json>) {
    && "bootstrap" in fields && (fields["bootstrap"].JObject? ==> "ibd" in fields["bootstrap"].fields)
    && "network_adapter_settings" in fields && "sync" in fields
  }

  /** Filling in defaults twice is filling them in once. */
  lemma DefaultsIdempotent(v: Json)
    ensures FillSection(FillSection(v)) == FillSection(v)
  {
    if v.JObject? {
      var after := FillSection(v).fields;
      assert Filled(after);
      FilledIsFixed(after);
    }
  }

  lemma FilledIsFixed(fields: map<string, Json>)
    requires Filled(fields)
    ensures FillSection(JObject(fields)) == JObject(fields)
  {
    if fields["bootstrap"].JObject? {
      assert fields["bootstrap" := JObject(fields["bootstrap"].fields)] == fields;
    }
  }

  // ----------------------------------------------------- what is sent, spelled out

  /** Each edit is seen at its own address, if that exists, and at no other edit's. */
  lemma EditsReadBack(v: Json, api: Option<nat>, testing: Option<nat>, assignations: Json)
    ensures var sent := Served(v, api, testing, assignations);
      var http, test := ["http", "backend_settings", "address"], ["testing_http", "backend_settings", "address"];
      && Get(sent, http) == (
        if api.Some? && Get(v, http).Some? then Some(JStr("0.0.0.0:" + Print(api.value))) else Get(v, http))
      && Get(sent, test) == (
        if testing.Some? && Get(v, test).Some? then Some(JStr("0.0.0.0:" + Print(testing.value))) else Get(v, test))
    ensures var sent, min := Served(v, api, testing, assignations), ["da_network", "min_session_members"];
      Get(sent, min) == if Get(v, min).Some? then Some(JNum(1)) else None
    ensures Get(Served(v, api, testing, assignations), ["cryptarchia"]) ==
      match Get(v, ["cryptarchia"]) case None => None case Some(x) => Some(FillSection(x))
  {
    var a := InjectDefaults(v);
    var b := OverridePort(a, API_ADDRESS, api);
    var d := OverridePort(b, TESTING_ADDRESS, testing);
    var e := InjectAssignations(d, assignations);
    EditsPart();
    SeenAfterDefaults(v);
    SeenAfterPort(a, API_ADDRESS, api);
    SeenAfterPort(b, TESTING_ADDRESS, testing);
    SeenAfterAssignations(d, assignations);
    SeenAfterSession(e);
  }

  lemma EditsPart()
    ensures Diverge(SECTION, API_ADDRESS) && Diverge(SECTION, TESTING_ADDRESS) && Diverge(SECTION, MIN_SESSION)
    ensures Diverge(API_ADDRESS, SECTION) && Diverge(API_ADDRESS, TESTING_ADDRESS) && Diverge(API_ADDRESS, MIN_SESSION)
    ensures Diverge(TESTING_ADDRESS, SECTION) && Diverge(TESTING_ADDRESS, API_ADDRESS)
    ensures Diverge(TESTING_ADDRESS, MIN_SESSION)
    ensures Diverge(MEMBERSHIP, SECTION) && Diverge(MEMBERSHIP, API_ADDRESS) && Diverge(MEMBERSHIP, TESTING_ADDRESS)
    ensures Diverge(MEMBERSHIP, MIN_SESSION)
    ensures Diverge(MIN_SESSION, SECTION) && Diverge(MIN_SESSION, API_ADDRESS) && Diverge(MIN_SESSION, TESTING_ADDRESS)
  {
    assert MEMBERSHIP[1..] == ["membership"] && MIN_SESSION[1..] == ["min_session_members"];
    assert Diverge(MEMBERSHIP[1..], MIN_SESSION[1..]);
  }

  lemma SeenAfterDefaults(v: Json)
    requires Diverge(SECTION, API_ADDRESS) && Diverge(SECTION, TESTING_ADDRESS) && Diverge(SECTION, MIN_SESSION)
    ensures var r := InjectDefaults(v);
      && Get(r, API_ADDRESS) == Get(v, API_ADDRESS) && Get(r, TESTING_ADDRESS) == Get(v, TESTING_ADDRESS)
      && Get(r, MIN_SESSION) == Get(v, MIN_SESSION)
      && Get(r, SECTION) == match Get(v, SECTION) case None => None case Some(x) => Some(FillSection(x))
  {
    GetOfUpdate(v, SECTION, FillSection);
    UpdateElsewhere(v, SECTION, FillSection, API_ADDRESS);
    UpdateElsewhere(v, SECTION, FillSection, TESTING_ADDRESS);
    UpdateElsewhere(v, SECTION, FillSection, MIN_SESSION);
  }

  lemma SeenAfterPort(v: Json, path: Path, port: Option<nat>)
    ensures var r := OverridePort(v, path, port);
      && Get(r, path) == (if port.Some? && Get(v, path).Some? then Some(JStr("0.0.0.0:" + Print(port.value))) else Get(v, path))
      && forall q :: Diverge(path, q) ==> Get(r, q) == Get(v, q)
  {
    if port.Some? {
      var put := (_: Json) => PortText(port.value);
      GetOfUpdate(v, path, put);
      forall q | Diverge(path, q) ensures Get(OverridePort(v, path, port), q) == Get(v, q) {
        UpdateElsewhere(v, path, put, q);
      }
    }
  }

  lemma SeenAfterAssignations(v: Json, assignations: Json)
    ensures forall q :: Diverge(MEMBERSHIP, q) ==> Get(InjectAssignations(v, assignations), q) == Get(v, q)
  {
    forall q | Diverge(MEMBERSHIP, q) ensures Get(InjectAssignations(v, assignations), q) == Get(v, q) {
      UpdateElsewhere(v, MEMBERSHIP, PutAssignations(assignations), q);
    }
  }

  lemma SeenAfterSession(v: Json)
    ensures Get(OverrideMinSession(v), MIN_SESSION) == if Get(v, MIN_SESSION).Some? then Some(JNum(1)) else None
    ensures forall q :: Diverge(MIN_SESSION, q) ==> Get(OverrideMinSession(v), q) == Get(v, q)
  {
    var one := (_: Json) => JNum(1);
    GetOfUpdate(v, MIN_SESSION, one);
    forall q | Diverge(MIN_SESSION, q) ensures Get(OverrideMinSession(v), q) == Get(v, q) {
      UpdateElsewhere(v, MIN_SESSION, one, q);
    }
  }

  /** Which defaults end up where, and that nothing else is added. */
  lemma DefaultsFilledIn(fields: map<string, Json>)
    ensures FillSection(JObject(fields)).JObject?
    ensures var after := FillSection(JObject(fields)).fields;
      && after.Keys == fields.Keys + {"bootstrap", "network_adapter_settings", "sync"}
      && ("network_adapter_settings" !in fields ==>
            after["network_adapter_settings"] == JObject(map["topic" := JStr("/cryptarchia/proto")]))
      && ("sync" !in fields ==> after["sync"] == JObject(map["orphan" := JObject(map["max_orphan_cache_size" := JNum(5)])]))
  {
  }

  /** A bootstrap object that is missing, or lacks an `ibd`, gets one. */
  lemma BootstrapFilledIn(fields: map<string, Json>)
    ensures FillSection(JObject(fields)).JObject? && "bootstrap" in FillSection(JObject(fields)).fields
    ensures var after := FillSection(JObject(fields)).fields["bootstrap"];
      var ibd := JObject(map["peers" := JArray([]),
        "delay_before_new_download" := JObject(map["secs" := JNum(10), "nanos" := JNum(0)])]);
      && ("bootstrap" !in fields ==> after == JObject(map["ibd" := ibd]))
      && ("bootstrap" in fields && fields["bootstrap"].JObject? && "ibd" !in fields["bootstrap"].fields ==>
            after == JObject(fields["bootstrap"].fields["ibd" := ibd]))
  {
  }

  /**
   * Parsing succeeds exactly when every key is a 16-bit number and every value
   * an array; then the ids are those numbers, and each has the readable peers of
   * an array under it, the unreadable ones skipped.
   */
  lemma ParsedInFull(codec: PeerCodec, fields: map<string, Json>, r: Option<Membership>)
    requires ParsesTo(codec, fields, r)
    ensures r.Some? <==> forall key :: key in fields ==> Parse(key, 65536).Some? && fields[key].JArray?
    ensures r.Some? ==> forall k :: k in r.value <==> exists key :: key in fields && Parse(key, 65536) == Some(k)
    ensures r.Some? ==> forall k :: k in r.value ==>
      exists key :: key in fields && Parse(key, 65536) == Some(k) && Lists(codec, fields[key], r.value[k])
  {
    if r.Some? {
      forall k | k in r.value
        ensures exists key :: key in fields && Parse(key, 65536) == Some(k) && Lists(codec, fields[key], r.value[k])
      {
        assert ReadFrom(codec, fields, k, r.value[k]);
        var key :| key in fields && Parse(key, U16_LIMIT) == Some(k) && fields[key].JArray?
          && r.value[k] == ParseMembers(codec, fields[key].items);
        forall p ensures p in r.value[k] <==> IsListed(codec, fields[key].items, p) {
          ParsedMember(codec, fields[key].items, p);
        }
      }
    }
  }

  /** The value is an array, and the peers that some string in it reads as are exactly these. */
  ghost predicate Lists(codec: PeerCodec, v: Json, members: set<PeerId>) {
    v.JArray? && forall p :: p in members <==> IsListed(codec, v.items, p)
  }

  ghost predicate IsListed(codec: PeerCodec, items: seq<Json>, p: PeerId) {
    exists i :: 0 <= i < |items| && items[i].JStr? && codec.parse(items[i].s) == Some(p)
  }
}
