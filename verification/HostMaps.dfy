/** Maps keyed by host, built up entry by entry, and read back in host order. */
module HostMaps {
  import opened Hosts
  import opened Sorting

  ghost predicate DistinctHosts(hosts: seq<Host>) {
    forall i, j :: 0 <= i < j < |hosts| ==> hosts[i] != hosts[j]
  }

  /** Inserting each host with its value, in order. */
  function Keyed<V>(hosts: seq<Host>, values: seq<V>): (m: map<Host, V>)
    requires |hosts| == |values|
  {
    if hosts == [] then map[]
    else
      var k := |hosts| - 1;
      Keyed(hosts[..k], values[..k])[hosts[k] := values[k]]
  }

  /** The values in the order of the hosts. */
  function InOrder<V>(hosts: seq<Host>, handed: map<Host, V>): (values: seq<V>)
    requires forall i :: 0 <= i < |hosts| ==> hosts[i] in handed
    ensures |values| == |hosts|
  {
    seq(|hosts|, i requires 0 <= i < |hosts| => handed[hosts[i]])
  }

  lemma {:induction false} KeyedKeys<V>(hosts: seq<Host>, values: seq<V>)
    requires |hosts| == |values|
    ensures forall h :: h in Keyed(hosts, values) <==> h in hosts
  {
    if hosts != [] {
      var k := |hosts| - 1;
      KeyedKeys(hosts[..k], values[..k]);
      assert hosts == hosts[..k] + [hosts[k]];
    }
  }

  lemma {:induction false} KeyedAt<V>(hosts: seq<Host>, values: seq<V>, i: nat)
    requires |hosts| == |values| && i < |hosts| && DistinctHosts(hosts)
    ensures hosts[i] in Keyed(hosts, values) && Keyed(hosts, values)[hosts[i]] == values[i]
  {
    var k := |hosts| - 1;
    if i < k {
      KeyedAt(hosts[..k], values[..k], i);
      assert hosts[i] != hosts[k];
    }
  }

  lemma InOrderOfKeyed<V>(hosts: seq<Host>, values: seq<V>)
    requires |hosts| == |values| && DistinctHosts(hosts)
    ensures forall h :: h in Keyed(hosts, values) <==> h in hosts
    ensures InOrder(hosts, Keyed(hosts, values)) == values
  {
    KeyedKeys(hosts, values);
    forall i | 0 <= i < |hosts| ensures Keyed(hosts, values)[hosts[i]] == values[i] {
      KeyedAt(hosts, values, i);
    }
  }

  lemma InOrderAt<V>(hosts: seq<Host>, handed: map<Host, V>, i: nat)
    requires (forall h :: h in handed <==> h in hosts) && i < |hosts|
    ensures hosts[i] in handed && InOrder(hosts, handed)[i] == handed[hosts[i]]
  {
    assert hosts[i] in hosts;
  }

  lemma RoleOrderedHostsDistinct(hosts: seq<Host>, v: nat, e: nat)
    requires RoleOrdered(hosts, v, e)
    ensures DistinctHosts(hosts)
  {
    forall i, j | 0 <= i < j < |hosts| ensures hosts[i] != hosts[j] {
      RoleOrderedDistinct(hosts, v, e, i, j);
    }
  }

  lemma {:induction false} DistinctByCount(hosts: seq<Host>)
    ensures DistinctHosts(hosts) <==> forall h :: multiset(hosts)[h] <= 1
  {
    if hosts != [] {
      var k := |hosts| - 1;
      DistinctByCount(hosts[..k]);
      assert hosts == hosts[..k] + [hosts[k]];
      assert multiset(hosts) == multiset(hosts[..k]) + multiset{hosts[k]};
      if forall h :: multiset(hosts)[h] <= 1 {
        assert multiset(hosts)[hosts[k]] == multiset(hosts[..k])[hosts[k]] + 1;
        assert multiset(hosts)[hosts[k]] <= 1;
        assert hosts[k] !in multiset(hosts[..k]);
        forall i | 0 <= i < k ensures hosts[i] != hosts[k] {
          assert hosts[..k][i] == hosts[i] && hosts[i] in multiset(hosts[..k]);
        }
        forall h ensures multiset(hosts[..k])[h] <= 1 {
          assert multiset(hosts)[h] <= 1;
        }
      }
      if DistinctHosts(hosts) {
        assert hosts[k] !in hosts[..k];
      }
    }
  }

  /** Sorting distinct hosts keeps them distinct. */
  lemma SortKeepsDistinct(arrived: seq<Host>)
    requires DistinctHosts(arrived)
    ensures DistinctHosts(SortHosts(arrived)) && |SortHosts(arrived)| == |arrived|
    ensures forall h :: h in SortHosts(arrived) <==> h in arrived
  {
    SortPermutes(HostKey, arrived);
    DistinctByCount(arrived);
    DistinctByCount(SortHosts(arrived));
    forall h ensures h in SortHosts(arrived) <==> h in arrived {
      assert h in SortHosts(arrived) <==> h in multiset(SortHosts(arrived));
      assert h in arrived <==> h in multiset(arrived);
    }
  }
}
