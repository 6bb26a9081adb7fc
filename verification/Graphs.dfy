/** Degrees, the handshake identity and connectivity of finite undirected graphs. */
module Graphs {
  import opened Counting

  type Relation = (nat, nat) -> bool

  ghost predicate Undirected(a: Relation) {
    (forall i, j :: a(i, j) == a(j, i)) && (forall i :: !a(i, i))
  }

  /** The neighbours of `i` among the first `m` nodes. */
  function Neighbours(a: Relation, i: nat, m: nat): (r: set<nat>)
    ensures forall j: nat :: j in r <==> j < m && a(i, j)
  {
    if m == 0 then {} else Neighbours(a, i, m - 1) + if a(i, m - 1) then {m - 1} else {}
  }

  function Degree(a: Relation, i: nat, m: nat): (d: nat) {
    if m == 0 then 0 else Degree(a, i, m - 1) + if a(i, m - 1) then 1 else 0
  }

  lemma {:induction false} DegreeCounts(a: Relation, i: nat, m: nat)
    ensures |Neighbours(a, i, m)| == Degree(a, i, m)
  {
    if m > 0 { DegreeCounts(a, i, m - 1); }
  }

  /** Degrees of the first `n` nodes, counting neighbours among the first `m`, added up. */
  function DegreeSum(a: Relation, n: nat, m: nat): (d: nat) {
    if n == 0 then 0 else DegreeSum(a, n - 1, m) + Degree(a, n - 1, m)
  }

  lemma {:induction false} AddColumn(a: Relation, n: nat, m: nat)
    requires Undirected(a)
    ensures DegreeSum(a, n, m + 1) == DegreeSum(a, n, m) + Degree(a, m, n)
  {
    if n > 0 {
      AddColumn(a, n - 1, m);
      assert a(n - 1, m) == a(m, n - 1);
    }
  }

  function Edges(a: Relation, n: nat): (e: nat) {
    if n == 0 then 0 else Edges(a, n - 1) + Degree(a, n - 1, n - 1)
  }

  /** Handshake: every edge is counted at both of its ends. */
  lemma {:induction false} Handshake(a: Relation, n: nat)
    requires Undirected(a)
    ensures DegreeSum(a, n, n) == 2 * Edges(a, n)
  {
    if n > 0 {
      Handshake(a, n - 1);
      AddColumn(a, n - 1, n - 1);
      assert !a(n - 1, n - 1);
    }
  }

  ghost predicate IsPath(a: Relation, n: nat, p: seq<nat>) {
    && p != []
    && p[0] < n
    && (|p| > 1 ==> a(p[0], p[1]) && IsPath(a, n, p[1..]))
  }

  ghost predicate Connects(a: Relation, n: nat, p: seq<nat>, i: nat, j: nat) {
    IsPath(a, n, p) && p[0] == i && p[|p| - 1] == j
  }

  /** Some path leads from `i` to `j`. */
  ghost predicate Joined(a: Relation, n: nat, i: nat, j: nat) {
    exists p :: Connects(a, n, p, i, j)
  }

  ghost predicate Connected(a: Relation, n: nat) {
    forall i: nat, j: nat :: i < n && j < n ==> Joined(a, n, i, j)
  }
}
