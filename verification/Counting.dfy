/** Division with remainder and the counting facts that the round-robin argument rests on. */
module Counting {
  function Max(a: nat, b: nat): (r: nat) {
    if a < b then b else a
  }

  function Min(a: nat, b: nat): (r: nat) {
    if a < b then a else b
  }

  lemma Euclid(x: nat, n: nat)
    requires n > 0
    ensures x == (x / n) * n + x % n && 0 <= x % n < n
  {
  }

  lemma {:induction false} MulAtLeast(k: nat, n: nat)
    requires k >= 1
    ensures k * n >= n
  {
    if k > 1 {
      MulAtLeast(k - 1, n);
      assert k * n == (k - 1) * n + n;
    }
  }

  lemma MulSplit(q: nat, k: nat, n: nat)
    requires k < q
    ensures q * n == k * n + (q - k) * n >= k * n + n
  {
    MulAtLeast(q - k, n);
  }

  /** Multiplication as repeated addition. */
  function Times(k: nat, n: nat): (r: nat) {
    if k == 0 then 0 else Times(k - 1, n) + n
  }

  lemma {:induction false} TimesIsProduct(k: nat, n: nat)
    ensures Times(k, n) == k * n
  {
    if k > 0 {
      TimesIsProduct(k - 1, n);
      MulSplit(k, k - 1, n);
    }
  }

  /** Rounded down. */
  function FloorDiv(a: nat, n: nat): (q: nat)
    requires n > 0
  {
    a / n
  }

  /** Rounded up. */
  function CeilDiv(a: nat, n: nat): (q: nat)
    requires n > 0
  {
    (a + n - 1) / n
  }

  /** The greatest `q` with `q * n <= a`, and the least with `q * n >= a`. */
  lemma Rounding(a: nat, n: nat)
    requires n > 0
    ensures Times(FloorDiv(a, n), n) <= a < Times(FloorDiv(a, n), n) + n
    ensures a <= Times(CeilDiv(a, n), n) < a + n
  {
    Euclid(a, n);
    TimesIsProduct(a / n, n);
    Euclid(a + n - 1, n);
    TimesIsProduct((a + n - 1) / n, n);
  }

  lemma {:induction false} TimesMonotone(j: nat, k: nat, n: nat)
    requires n > 0
    ensures j <= k ==> Times(j, n) <= Times(k, n)
    decreases k
  {
    if j < k { TimesMonotone(j, k - 1, n); }
  }

  /** Quotient and remainder are unique. */
  lemma DivModUnique(x: nat, n: nat, q: nat, rem: nat)
    requires n > 0 && rem < n && x == q * n + rem
    ensures x / n == q && x % n == rem
  {
    Euclid(x, n);
    var k := x / n;
    if k < q {
      MulSplit(q, k, n);
    } else if q < k {
      MulSplit(k, q, n);
    }
  }

  lemma TwiceOver(n: nat)
    requires n > 0
    ensures FloorDiv(2 * n, n) == 2 && CeilDiv(2 * n, n) == 2
  {
    DivModUnique(2 * n, n, 2, 0);
    DivModUnique(2 * n + n - 1, n, 2, n - 1);
  }

  /** Where a cycling iterator over `n` elements stands after `t` draws. */
  function Position(t: nat, n: nat): (pos: nat)
    requires n > 0
    ensures pos < n
  {
    if t == 0 then 0
    else if Position(t - 1, n) + 1 == n then 0
    else Position(t - 1, n) + 1
  }

  /** How often it has started over. */
  function Laps(t: nat, n: nat): (q: nat)
    requires n > 0
  {
    if t == 0 then 0 else Laps(t - 1, n) + if Position(t - 1, n) + 1 == n then 1 else 0
  }

  lemma {:induction false} LapsAndPosition(t: nat, n: nat)
    requires n > 0
    ensures t == Laps(t, n) * n + Position(t, n)
  {
    if t > 0 {
      LapsAndPosition(t - 1, n);
      MulSplit(Laps(t - 1, n) + 1, Laps(t - 1, n), n);
    }
  }

  lemma PositionIsRemainder(t: nat, n: nat)
    requires n > 0
    ensures Position(t, n) == t % n && Laps(t, n) == t / n
  {
    LapsAndPosition(t, n);
    DivModUnique(t, n, Laps(t, n), Position(t, n));
  }

  /** Draws less than `n` apart are at different positions. */
  lemma PositionApart(a: nat, b: nat, n: nat)
    requires n > 0 && a < b < a + n
    ensures Position(a, n) != Position(b, n)
  {
    LapsAndPosition(a, n);
    LapsAndPosition(b, n);
    var qa, qb := Laps(a, n), Laps(b, n);
    if qa < qb {
      MulSplit(qb, qa, n);
    } else if qb < qa {
      MulSplit(qa, qb, n);
    }
  }

  /** How many of the first `bound` draws are at position `r`. */
  function Hits(bound: nat, n: nat, r: nat): (h: nat)
    requires n > 0
  {
    if bound == 0 then 0 else Hits(bound - 1, n, r) + if Position(bound - 1, n) == r then 1 else 0
  }

  lemma {:induction false} HitsClosedForm(bound: nat, n: nat, r: nat)
    requires r < n
    ensures Hits(bound, n, r) == Laps(bound, n) + if r < Position(bound, n) then 1 else 0
  {
    if bound > 0 { HitsClosedForm(bound - 1, n, r); }
  }

  /** The hit count is the floor or the ceiling of `bound / n`. */
  lemma HitsBalanced(bound: nat, n: nat, r: nat)
    requires r < n
    ensures FloorDiv(bound, n) <= Hits(bound, n, r) <= CeilDiv(bound, n)
  {
    HitsClosedForm(bound, n, r);
    LapsAndPosition(bound, n);
    var q, pos := Laps(bound, n), Position(bound, n);
    DivModUnique(bound, n, q, pos);
    MulSplit(q + 1, q, n);
    if pos == 0 {
      DivModUnique(bound + n - 1, n, q, n - 1);
    } else {
      DivModUnique(bound + n - 1, n, q + 1, pos - 1);
    }
  }

  /** One of the `d` draws from `start` on is at position `r`. */
  ghost predicate Strikes(start: nat, d: nat, n: nat, r: nat)
    requires n > 0
  {
    exists t :: start <= t < start + d && Position(t, n) == r
  }

  /** A stretch of at most `n` consecutive draws holds at most one hit. */
  lemma {:induction false} HitsInStretch(start: nat, d: nat, n: nat, r: nat)
    requires r < n && d <= n
    ensures Hits(start + d, n, r) == Hits(start, n, r) +
      if Strikes(start, d, n, r) then 1 else 0
  {
    if d > 0 {
      HitsInStretch(start, d - 1, n, r);
      var last := start + d - 1;
      if Position(last, n) == r {
        forall t | start <= t < last ensures Position(t, n) != r { PositionApart(t, last, n); }
        assert start <= last < start + d;
      } else if Strikes(start, d, n, r) {
        var t :| start <= t < start + d && Position(t, n) == r;
        assert start <= t < start + (d - 1);
      }
    }
  }

  lemma {:induction false} SubsetCardinality<T>(a: set<T>, b: set<T>)
    requires a <= b
    ensures |a| <= |b|
    ensures |a| == |b| ==> a == b
  {
    if a != {} {
      var x :| x in a;
      SubsetCardinality(a - {x}, b - {x});
      assert |a| == |a - {x}| + 1 && |b| == |b - {x}| + 1;
    } else if b != {} {
      var y :| y in b;
      assert |b| == |b - {y}| + 1;
    }
  }

  function Below(n: nat): (r: set<nat>)
    ensures forall k: nat :: k in r <==> k < n
  {
    if n == 0 then {} else Below(n - 1) + {n - 1}
  }

  lemma {:induction false} BelowCardinality(n: nat)
    ensures |Below(n)| == n
  {
    if n > 0 { BelowCardinality(n - 1); }
  }

  /** How many elements satisfy `p`. */
  function CountIf<T>(s: seq<T>, p: T -> bool): (n: nat)
    ensures n <= |s|
  {
    if s == [] then 0 else CountIf(s[..|s| - 1], p) + if p(s[|s| - 1]) then 1 else 0
  }

  lemma {:induction false} CountIfAppend<T>(a: seq<T>, b: seq<T>, p: T -> bool)
    ensures CountIf(a + b, p) == CountIf(a, p) + CountIf(b, p)
    decreases |b|
  {
    if b == [] {
      assert a + b == a;
    } else {
      assert (a + b)[..|a + b| - 1] == a + b[..|b| - 1];
      CountIfAppend(a, b[..|b| - 1], p);
    }
  }

  /** Any set of places that satisfy `p` is no larger than the count. */
  lemma {:induction false} CountAtLeast<T>(s: seq<T>, p: T -> bool, places: set<nat>)
    requires forall k :: k in places ==> k < |s| && p(s[k])
    ensures |places| <= CountIf(s, p)
    decreases |s|
  {
    if s == [] {
      if k :| k in places { assert false; }
      assert places == {};
    } else {
      var last := |s| - 1;
      CountAtLeast(s[..last], p, places - {last});
      if last in places { assert |places| == |places - {last}| + 1; } else { assert places - {last} == places; }
    }
  }

  /** Where `p` holds. */
  function Places<T>(s: seq<T>, p: T -> bool): (r: set<nat>)
    ensures forall k: nat :: k in r <==> k < |s| && p(s[k])
  {
    if s == [] then {}
    else
      var k := |s| - 1;
      Places(s[..k], p) + if p(s[k]) then {k} else {}
  }

  lemma {:induction false} CountIsCardinality<T>(s: seq<T>, p: T -> bool)
    ensures CountIf(s, p) == |Places(s, p)|
  {
    if s != [] {
      var before := Places(s[..|s| - 1], p);
      CountIsCardinality(s[..|s| - 1], p);
      assert |s| - 1 !in before;
    }
  }
}
