/**
 * JSON values and JSON Pointer access to them, as described in section 4 of
 * RFC 6901 and implemented by `pointer` and `pointer_mut`.
 */
module Json {
  import opened Integers
  import opened Wrappers
  import opened Decimal

  datatype Json =
    | JNull
    | JBool(b: bool)
    | JNum(n: int)
    | JStr(s: string)
    | JArray(items: seq<Json>)
    | JObject(fields: map<string, Json>)

  type Path = seq<string>

  /** Array tokens are plain decimal: no sign, no leading zeros. */
  function ArrayIndex(token: string): (r: Option<nat>) {
    if token == [] || token[0] == '+' || (token[0] == '0' && |token| != 1) then None
    else Parse(token, USIZE_LIMIT)
  }

  /** Different tokens never address the same element. */
  lemma ArrayIndexInjective(a: string, b: string)
    requires ArrayIndex(a).Some? && ArrayIndex(a) == ArrayIndex(b)
    ensures a == b
  {
    PrintOfDigits(a, ArrayIndex(a).value);
    PrintOfDigits(b, ArrayIndex(b).value);
  }

  /** The value one reference token leads to. */
  function Member(v: Json, token: string): (r: Option<Json>) {
    match v
    case JObject(fields) => if token in fields then Some(fields[token]) else None
    case JArray(items) => (
      match ArrayIndex(token)
      case Some(i) => if i < |items| then Some(items[i]) else None
      case None => None)
    case _ => None
  }

  function WithMember(v: Json, token: string, x: Json): (r: Json)
    requires Member(v, token).Some?
  {
    match v
    case JObject(fields) => JObject(fields[token := x])
    case JArray(items) => JArray(items[ArrayIndex(token).value := x])
  }

  function Get(v: Json, path: Path): (r: Option<Json>) {
    if path == [] then Some(v)
    else match Member(v, path[0])
      case None => None
      case Some(x) => Get(x, path[1..])
  }

  /** Applies `f` to the value at `path`, if there is one. */
  function Update(v: Json, path: Path, f: Json -> Json): (r: Json) {
    if path == [] then f(v)
    else match Member(v, path[0])
      case None => v
      case Some(x) => WithMember(v, path[0], Update(x, path[1..], f))
  }

  lemma MemberOfWithMember(v: Json, token: string, x: Json, other: string)
    requires Member(v, token).Some?
    ensures Member(WithMember(v, token, x), token) == Some(x)
    ensures other != token ==> Member(WithMember(v, token, x), other) == Member(v, other)
  {
    if v.JArray? && other != token && ArrayIndex(other) == ArrayIndex(token) {
      ArrayIndexInjective(other, token);
    }
  }

  /** An update is seen at its own path. */
  lemma {:induction false} GetOfUpdate(v: Json, path: Path, f: Json -> Json)
    ensures Get(Update(v, path, f), path) ==
      match Get(v, path) case None => None case Some(x) => Some(f(x))
  {
    if path != [] && Member(v, path[0]).Some? {
      GetOfUpdate(Member(v, path[0]).value, path[1..], f);
      MemberOfWithMember(v, path[0], Update(Member(v, path[0]).value, path[1..], f), path[0]);
    }
  }

  /** Reading on below an update. */
  lemma {:induction false} GetAppend(v: Json, a: Path, b: Path)
    ensures Get(v, a + b) == match Get(v, a) case None => None case Some(x) => Get(x, b)
  {
    if a == [] {
      assert a + b == b;
    } else {
      assert (a + b)[1..] == a[1..] + b;
      if Member(v, a[0]).Some? { GetAppend(Member(v, a[0]).value, a[1..], b); }
    }
  }

  /** The paths part ways: neither leads through the other. */
  predicate Diverge(p: Path, q: Path) {
    p != [] && q != [] && (p[0] != q[0] || Diverge(p[1..], q[1..]))
  }

  /** An update is not seen at any path that parts from it. */
  lemma {:induction false} UpdateElsewhere(v: Json, p: Path, f: Json -> Json, q: Path)
    requires Diverge(p, q)
    ensures Get(Update(v, p, f), q) == Get(v, q)
  {
    if Member(v, p[0]).Some? {
      var x := Member(v, p[0]).value;
      MemberOfWithMember(v, p[0], Update(x, p[1..], f), q[0]);
      if p[0] == q[0] { UpdateElsewhere(x, p[1..], f, q[1..]); }
    }
  }

  /** A token addresses element `i` exactly when it is the number `i` in plain decimal. */
  lemma ArrayIndexIsDecimal(token: string, i: nat)
    requires i < USIZE_LIMIT
    ensures ArrayIndex(token) == Some(i) <==> token == Print(i)
  {
    if ArrayIndex(token) == Some(i) {
      PrintOfDigits(token, i);
    }
    if token == Print(i) {
      assert IsDigit(token[0]);
      ParseOfPrint(i, USIZE_LIMIT);
      if |token| != 1 { NoLeadingZero(i); }
    }
  }
}
