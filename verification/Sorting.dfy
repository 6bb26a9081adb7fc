/**
 * Stable sorting by a key, as Rust's `sort_by_key` and `sort_unstable` are used
 * by the configuration builders, and the reason the result does not depend on
 * the order in which the elements arrived.
 */
module Sorting {
  /** Keys are compared lexicographically. */
  datatype Key = Key(major: nat, minor: nat)

  predicate KeyLe(a: Key, b: Key) {
    a.major < b.major || (a.major == b.major && a.minor <= b.minor)
  }

  ghost predicate Sorted<T(!new)>(key: T -> Key, s: seq<T>) {
    forall i, j :: 0 <= i < j < |s| ==> KeyLe(key(s[i]), key(s[j]))
  }

  /** Elements with equal keys are equal. */
  ghost predicate KeyedApart<T(!new)>(key: T -> Key, s: seq<T>) {
    forall i, j :: 0 <= i < |s| && 0 <= j < |s| && key(s[i]) == key(s[j]) ==> s[i] == s[j]
  }

  /** Inserts `x` in front of the first element whose key is not smaller. */
  function Insert<T>(key: T -> Key, x: T, s: seq<T>): (r: seq<T>) {
    if s == [] then [x]
    else if KeyLe(key(x), key(s[0])) then [x] + s
    else [s[0]] + Insert(key, x, s[1..])
  }

  /** Stable insertion sort: elements with equal keys keep their order. */
  function SortBy<T>(key: T -> Key, s: seq<T>): (r: seq<T>) {
    if s == [] then [] else Insert(key, s[0], SortBy(key, s[1..]))
  }

  lemma {:induction false} InsertPermutes<T>(key: T -> Key, x: T, s: seq<T>)
    ensures multiset(Insert(key, x, s)) == multiset(s) + multiset{x}
  {
    if s != [] {
      assert s == [s[0]] + s[1..];
      if !KeyLe(key(x), key(s[0])) {
        InsertPermutes(key, x, s[1..]);
      }
    }
  }

  lemma {:induction false} InsertSorted<T(!new)>(key: T -> Key, x: T, s: seq<T>)
    requires Sorted(key, s)
    ensures Sorted(key, Insert(key, x, s))
  {
    if s != [] && !KeyLe(key(x), key(s[0])) {
      var tail := Insert(key, x, s[1..]);
      InsertSorted(key, x, s[1..]);
      InsertPermutes(key, x, s[1..]);
      forall j | 0 <= j < |tail| ensures KeyLe(key(s[0]), key(tail[j])) {
        assert tail[j] in multiset(tail);
        assert tail[j] == x || tail[j] in s[1..];
      }
    }
  }

  lemma {:induction false} SortPermutes<T>(key: T -> Key, s: seq<T>)
    ensures multiset(SortBy(key, s)) == multiset(s)
    ensures |SortBy(key, s)| == |s|
  {
    if s != [] {
      SortPermutes(key, s[1..]);
      InsertPermutes(key, s[0], SortBy(key, s[1..]));
      assert s == [s[0]] + s[1..];
    }
    assert |multiset(SortBy(key, s))| == |multiset(s)|;
  }

  lemma {:induction false} SortSorted<T(!new)>(key: T -> Key, s: seq<T>)
    ensures Sorted(key, SortBy(key, s))
  {
    if s != [] {
      SortSorted(key, s[1..]);
      InsertSorted(key, s[0], SortBy(key, s[1..]));
    }
  }

  lemma TailMultiset<T>(s: seq<T>)
    requires s != []
    ensures multiset(s[1..]) == multiset(s) - multiset{s[0]}
  {
    assert s == [s[0]] + s[1..];
  }

  lemma SameFirst<T(!new)>(key: T -> Key, a: seq<T>, b: seq<T>)
    requires Sorted(key, a) && Sorted(key, b) && KeyedApart(key, b)
    requires multiset(a) == multiset(b) && a != [] && b != []
    ensures a[0] == b[0]
  {
    assert a[0] in multiset(b) && b[0] in multiset(a);
    var i :| 0 <= i < |b| && b[i] == a[0];
    var j :| 0 <= j < |a| && a[j] == b[0];
    assert KeyLe(key(a[0]), key(a[j]));
    assert KeyLe(key(b[0]), key(b[i]));
  }

  /** Two sorted arrangements of the same elements coincide when keys tell elements apart. */
  lemma {:induction false} SortedUnique<T(!new)>(key: T -> Key, a: seq<T>, b: seq<T>)
    requires Sorted(key, a) && Sorted(key, b) && KeyedApart(key, b)
    requires multiset(a) == multiset(b)
    ensures a == b
    decreases |a|
  {
    assert |a| == |multiset(a)| == |multiset(b)| == |b|;
    if a != [] {
      SameFirst(key, a, b);
      TailMultiset(a);
      TailMultiset(b);
      SortedUnique(key, a[1..], b[1..]);
      assert a == [a[0]] + a[1..] && b == [b[0]] + b[1..];
    }
  }

  /** Sorting recovers the unique sorted arrangement from any arrival order. */
  lemma SortRecovers<T(!new)>(key: T -> Key, arrived: seq<T>, expected: seq<T>)
    requires Sorted(key, expected) && KeyedApart(key, expected)
    requires multiset(arrived) == multiset(expected)
    ensures SortBy(key, arrived) == expected
  {
    SortPermutes(key, arrived);
    SortSorted(key, arrived);
    SortedUnique(key, SortBy(key, arrived), expected);
  }

  /** The elements with key `k`, in order. */
  function WithKey<T>(key: T -> Key, s: seq<T>, k: Key): (r: seq<T>) {
    if s == [] then [] else (if key(s[0]) == k then [s[0]] else []) + WithKey(key, s[1..], k)
  }

  lemma {:induction false} InsertKeepsTies<T>(key: T -> Key, x: T, s: seq<T>, k: Key)
    ensures WithKey(key, Insert(key, x, s), k) == (if key(x) == k then [x] else []) + WithKey(key, s, k)
  {
    if s == [] {
      assert [x][1..] == [];
    } else if KeyLe(key(x), key(s[0])) {
      assert ([x] + s)[1..] == s;
    } else {
      InsertKeepsTies(key, x, s[1..], k);
      assert ([s[0]] + Insert(key, x, s[1..]))[1..] == Insert(key, x, s[1..]);
    }
  }

  /** Sorting is stable. */
  lemma {:induction false} SortKeepsTies<T>(key: T -> Key, s: seq<T>, k: Key)
    ensures WithKey(key, SortBy(key, s), k) == WithKey(key, s, k)
  {
    if s != [] {
      SortKeepsTies(key, s[1..], k);
      InsertKeepsTies(key, s[0], SortBy(key, s[1..]), k);
    }
  }
}
