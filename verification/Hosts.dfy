/** Remote hosts as they register with cfgsync, and the order that ties them to node ids. */
module Hosts {
  import opened Integers
  import opened Wrappers
  import opened Decimal
  import opened Sorting

  datatype HostKind = Validator | Executor

  datatype Host = Host(
    kind: HostKind, ip: nat, identifier: string,
    networkPort: nat, daPort: nat, blendPort: nat, apiPort: nat, testingPort: nat)

  /** `rsplit('-').next()`: what follows the last hyphen, or everything. */
  function LastSegment(s: string): (r: string) {
    if s == [] || s[|s| - 1] == '-' then []
    else LastSegment(s[..|s| - 1]) + [s[|s| - 1]]
  }

  /** The number at the end of the identifier, 0 when there is none. */
  function HostIndex(h: Host): (i: nat) {
    match Parse(LastSegment(h.identifier), USIZE_LIMIT)
    case Some(i) => i
    case None => 0
  }

  /** Validators before executors, then by index. */
  function HostKey(h: Host): (k: Key) {
    Key(if h.kind.Validator? then 0 else 1, HostIndex(h))
  }

  function SortHosts(hosts: seq<Host>): (r: seq<Host>) {
    SortBy(HostKey, hosts)
  }

  /** How the runners name their hosts. */
  function Identifier(kind: HostKind, i: nat): (s: string) {
    (if kind.Validator? then "validator-" else "executor-") + Print(i)
  }

  lemma {:induction false} LastSegmentAfterHyphen(a: string, b: string)
    requires forall i :: 0 <= i < |b| ==> b[i] != '-'
    ensures LastSegment(a + "-" + b) == b
    decreases |b|
  {
    var s := a + "-" + b;
    if b != [] {
      LastSegmentAfterHyphen(a, b[..|b| - 1]);
      assert s[..|s| - 1] == a + "-" + b[..|b| - 1];
    } else {
      assert s[|s| - 1] == '-';
    }
  }

  lemma IndexOfNamedHost(h: Host, i: nat)
    requires h.identifier == Identifier(h.kind, i) && i < USIZE_LIMIT
    ensures HostKey(h) == Key(if h.kind.Validator? then 0 else 1, i)
  {
    var a := if h.kind.Validator? then "validator" else "executor";
    forall k | 0 <= k < |Print(i)| ensures Print(i)[k] != '-' {
      assert IsDigit(Print(i)[k]);
    }
    LastSegmentAfterHyphen(a, Print(i));
    assert h.identifier == a + "-" + Print(i);
    ParseOfPrint(i, USIZE_LIMIT);
  }

  /** Validators `0 .. v` followed by executors `0 .. e`, named the way the runners name them. */
  ghost predicate RoleOrdered(hosts: seq<Host>, v: nat, e: nat) {
    && |hosts| == v + e
    && v <= USIZE_LIMIT && e <= USIZE_LIMIT
    && (forall i :: 0 <= i < v ==> hosts[i].kind == Validator && hosts[i].identifier == Identifier(Validator, i))
    && (forall i :: v <= i < v + e ==> hosts[i].kind == Executor && hosts[i].identifier == Identifier(Executor, i - v))
  }

  lemma RoleOrderedKey(hosts: seq<Host>, v: nat, e: nat, i: nat)
    requires RoleOrdered(hosts, v, e) && i < v + e
    ensures HostKey(hosts[i]) == if i < v then Key(0, i) else Key(1, i - v)
  {
    IndexOfNamedHost(hosts[i], if i < v then i else i - v);
  }

  lemma RoleOrderedDistinct(hosts: seq<Host>, v: nat, e: nat, i: nat, j: nat)
    requires RoleOrdered(hosts, v, e) && i < j < v + e
    ensures hosts[i] != hosts[j]
  {
    RoleOrderedKey(hosts, v, e, i);
    RoleOrderedKey(hosts, v, e, j);
  }

  /** Whatever the order of arrival, sorting puts validator `i` at place `i` and executor `j` at place `v + j`. */
  lemma ArrivalOrderIrrelevant(arrived: seq<Host>, expected: seq<Host>, v: nat, e: nat)
    requires RoleOrdered(expected, v, e)
    requires multiset(arrived) == multiset(expected)
    ensures SortHosts(arrived) == expected
  {
    forall i, j | 0 <= i < j < |expected|
      ensures KeyLe(HostKey(expected[i]), HostKey(expected[j])) && HostKey(expected[i]) != HostKey(expected[j])
    {
      RoleOrderedKey(expected, v, e, i);
      RoleOrderedKey(expected, v, e, j);
    }
    forall i, j | 0 <= i < |expected| && 0 <= j < |expected| && HostKey(expected[i]) == HostKey(expected[j])
      ensures expected[i] == expected[j]
    {
      RoleOrderedKey(expected, v, e, i);
      RoleOrderedKey(expected, v, e, j);
    }
    SortRecovers(HostKey, arrived, expected);
  }

  /** A host whose name does not end in a digit counts as number 0 of its kind. */
  lemma UnnumberedIsZero(h: Host)
    requires h.identifier == [] || !IsDigit(h.identifier[|h.identifier| - 1])
    ensures HostKey(h) == Key(if h.kind.Validator? then 0 else 1, 0)
  {
    var last := LastSegment(h.identifier);
    if last != [] {
      assert last[|last| - 1] == h.identifier[|h.identifier| - 1];
      if last == "+" {
        ParsePlus(0, USIZE_LIMIT);
      } else if |last| == 1 {
        ParseDigitsOnly(last, USIZE_LIMIT, 0);
      } else {
        ParseDigitsOnly(last, USIZE_LIMIT, |last| - 1);
      }
    }
  }

  /** Hosts of the same kind and number keep the order they came in. */
  lemma TiesKeepOrder(hosts: seq<Host>, k: Key)
    ensures WithKey(HostKey, SortHosts(hosts), k) == WithKey(HostKey, hosts, k)
  {
    SortKeepsTies(HostKey, hosts, k);
  }

  lemma {:induction false} LastSegmentWithoutHyphen(s: string)
    requires forall i :: 0 <= i < |s| ==> s[i] != '-'
    ensures LastSegment(s) == s
  {
    if s != [] { LastSegmentWithoutHyphen(s[..|s| - 1]); }
  }

  /** What counts is the number after the last hyphen, or the whole name if it is a number. */
  lemma IndexOfNumberedHost(h: Host, a: string, i: nat)
    requires h.identifier == a + "-" + Print(i) || h.identifier == Print(i)
    ensures HostIndex(h) == if i < USIZE_LIMIT then i else 0
  {
    forall k | 0 <= k < |Print(i)| ensures Print(i)[k] != '-' {
      assert IsDigit(Print(i)[k]);
    }
    if h.identifier == Print(i) {
      LastSegmentWithoutHyphen(Print(i));
    } else {
      LastSegmentAfterHyphen(a, Print(i));
    }
    ParseOfPrint(i, USIZE_LIMIT);
  }
}
