/** Grouping the names of a table by network, as they are displayed. */
module Display {
  import opened Types
  import opened AddrMap
  import opened Names
  import opened Sorting

  /** The network of a set's name. */
  function Network(x: NamedAddressSet): string
  {
    GroupName(x.fqdn)
  }

  /** First by network, then by label. */
  predicate Precedes(x: NamedAddressSet, y: NamedAddressSet)
  {
    var p, q := GroupAndLabel(x.fqdn), GroupAndLabel(y.fqdn);
    Below(p.0, q.0) || (p.0 == q.0 && Below(p.1, q.1))
  }

  lemma PairsAreWeaklyOrdered(p: (string, string), q: (string, string), r: (string, string))
    ensures var below := (a: (string, string), b: (string, string)) =>
              Below(a.0, b.0) || (a.0 == b.0 && Below(a.1, b.1));
            !(below(p, q) && below(q, p)) && (!below(q, p) && !below(r, q) ==> !below(r, p))
  {
    BelowFacts(p.0, q.0, r.0);
    BelowFacts(p.1, q.1, r.1);
  }

  lemma PrecedesIsAnOrder()
    ensures WeakOrder(Precedes) && KeyFirst(Network, Precedes)
  {
    forall x, y
      ensures !(Precedes(x, y) && Precedes(y, x))
    {
      PairsAreWeaklyOrdered(GroupAndLabel(x.fqdn), GroupAndLabel(y.fqdn), GroupAndLabel(x.fqdn));
    }
    forall x, y, z
      ensures !Precedes(y, x) && !Precedes(z, y) ==> !Precedes(z, x)
    {
      PairsAreWeaklyOrdered(GroupAndLabel(x.fqdn), GroupAndLabel(y.fqdn), GroupAndLabel(z.fqdn));
    }
  }

  /** What a set's name is on its network. */
  function Label(x: NamedAddressSet): string
  {
    GroupAndLabel(x.fqdn).1
  }

  ghost predicate NotAfter(s: string, t: string)
  {
    s == t || Before(s, t)
  }

  /** Networks ascend, and on one network labels do. */
  ghost predicate Ascending(s: seq<NamedAddressSet>)
  {
    forall i, j :: 0 <= i < j < |s| ==>
      Before(Network(s[i]), Network(s[j])) || (Network(s[i]) == Network(s[j]) && NotAfter(Label(s[i]), Label(s[j])))
  }

  lemma OrderedMeansAscending(s: seq<NamedAddressSet>)
    ensures InOrder(s, Precedes) <==> Ascending(s)
  {
    forall i, j | 0 <= i < j < |s|
      ensures !Precedes(s[j], s[i]) <==>
              Before(Network(s[i]), Network(s[j]))
              || (Network(s[i]) == Network(s[j]) && NotAfter(Label(s[i]), Label(s[j])))
    {
      NoneBelowMeans(Network(s[i]), Network(s[j]));
      NoneBelowMeans(Label(s[i]), Label(s[j]));
    }
  }

  lemma NoneBelowMeans(s: string, t: string)
    ensures Below(s, t) <==> Before(s, t)
    ensures !Below(t, s) <==> NotAfter(s, t)
    ensures !Before(s, s)
  {
    BelowMeans(s, t);
    BelowMeans(s, s);
    BelowIsTotal(s, t);
    BelowIsTotal(s, s);
  }

  method SortFQDNs(addrs: array<NamedAddressSet>)
    modifies addrs
    ensures Ascending(addrs[..]) && InOrder(addrs[..], Precedes)
    ensures multiset(addrs[..]) == multiset(old(addrs[..]))
  {
    PrecedesIsAnOrder();
    SortSlice(addrs, Precedes);
    OrderedMeansAscending(addrs[..]);
  }

  // ---------------------------------------------------------------- the addresses of one name

  /** By the numeric value of the parsed address; parsing is the library's business. */
  function ByIp(ip: string -> nat): (QualifiedAddressValue, QualifiedAddressValue) -> bool
  {
    (x: QualifiedAddressValue, y: QualifiedAddressValue) => ip(x.addr) < ip(y.addr)
  }

  /** A set with its addresses sorted. */
  function Tidy(x: NamedAddressSet, ip: string -> nat): NamedAddressSet
  {
    NamedAddressSet(x.fqdn, Sorted(x.addresses, ByIp(ip)))
  }

  function TidyAll(s: seq<NamedAddressSet>, ip: string -> nat): (r: seq<NamedAddressSet>)
    ensures |r| == |s| && forall i :: 0 <= i < |r| ==> r[i] == Tidy(s[i], ip)
  {
    seq(|s|, i requires 0 <= i < |s| => Tidy(s[i], ip))
  }

  /** Tidying up keeps a set's name and, up to their order, its addresses, whose values then ascend. */
  lemma TidyPermutesAddresses(x: NamedAddressSet, ip: string -> nat)
    ensures Tidy(x, ip).fqdn == x.fqdn
    ensures multiset(Tidy(x, ip).addresses) == multiset(x.addresses)
    ensures forall i, j :: 0 <= i < j < |Tidy(x, ip).addresses| ==>
              ip(Tidy(x, ip).addresses[i].addr) <= ip(Tidy(x, ip).addresses[j].addr)
  {
    assert WeakOrder(ByIp(ip));
    SortedIsSorted(x.addresses, ByIp(ip));
  }

  lemma NothingToTidy(x: NamedAddressSet, ip: string -> nat)
    requires x.addresses == []
    ensures TidyAll([x], ip) == [x]
  {
  }

  lemma WithoutOne<T>(t: seq<T>, k: nat)
    requires k < |t|
    ensures multiset(t[..k] + t[k + 1..]) == multiset(t) - multiset{t[k]}
    ensures t[k] in multiset(t)
  {
    assert t == t[..k] + [t[k]] + t[k + 1..];
    assert multiset(t) == multiset(t[..k]) + multiset{t[k]} + multiset(t[k + 1..]);
  }

  lemma {:induction false} MapPermutes<T, U>(f: T -> U, s: seq<T>, t: seq<T>, s': seq<U>, t': seq<U>)
    requires multiset(s) == multiset(t)
    requires |s'| == |s| && forall i :: 0 <= i < |s| ==> s'[i] == f(s[i])
    requires |t'| == |t| && forall i :: 0 <= i < |t| ==> t'[i] == f(t[i])
    ensures multiset(s') == multiset(t')
  {
    if s == [] {
      assert |multiset(t)| == 0;
    } else {
      var n := |s| - 1;
      assert s[n] in multiset(s);
      var k :| 0 <= k < |t| && t[k] == s[n];
      var rest, rest' := t[..k] + t[k + 1..], t'[..k] + t'[k + 1..];
      assert s[..n] + s[n + 1..] == s[..n] && s'[..n] + s'[n + 1..] == s'[..n];
      WithoutOne(s, n);
      WithoutOne(t, k);
      MapPermutes(f, s[..n], rest, s'[..n], rest');
      WithoutOne(s', n);
      WithoutOne(t', k);
      AddBack(multiset(s'), multiset(t'), s'[n]);
    }
  }

  lemma AddBack<T>(s: multiset<T>, t: multiset<T>, x: T)
    requires x in s && x in t && s - multiset{x} == t - multiset{x}
    ensures s == t
  {
    assert s == s - multiset{x} + multiset{x};
    assert t == t - multiset{x} + multiset{x};
  }

  lemma TidyPermutes(s: seq<NamedAddressSet>, t: seq<NamedAddressSet>, ip: string -> nat)
    requires multiset(s) == multiset(t)
    ensures multiset(TidyAll(s, ip)) == multiset(TidyAll(t, ip))
  {
    MapPermutes((x: NamedAddressSet) => Tidy(x, ip), s, t, TidyAll(s, ip), TidyAll(t, ip));
  }

  lemma TidyKeepsOrder(s: seq<NamedAddressSet>, ip: string -> nat)
    requires InOrder(s, Precedes)
    ensures InOrder(TidyAll(s, ip), Precedes)
  {
    forall i, j | 0 <= i < j < |s|
      ensures !Precedes(TidyAll(s, ip)[j], TidyAll(s, ip)[i])
    {
      SameNames(s[i], s[j], ip);
    }
  }

  lemma SameNames(x: NamedAddressSet, y: NamedAddressSet, ip: string -> nat)
    ensures Precedes(Tidy(y, ip), Tidy(x, ip)) == Precedes(y, x)
  {
  }

  // ---------------------------------------------------------------- groups

  /** Sorts the sets in place and groups them by network, tidying up each set on the way. */
  method GroupNames(addrs: array<NamedAddressSet>, ip: string -> nat) returns (groups: seq<seq<NamedAddressSet>>)
    modifies addrs
    ensures Partitioned(groups, Network, Precedes) && GroupsInOrder(groups)
    ensures multiset(Concat(groups)) == multiset(TidyAll(old(addrs[..]), ip))
    ensures InOrder(addrs[..], Precedes) && multiset(addrs[..]) == multiset(old(addrs[..]))
  {
    ghost var was := addrs[..];
    SortFQDNs(addrs);
    TidyPermutes(addrs[..], was, ip);
    TidyKeepsOrder(addrs[..], ip);
    PrecedesIsAnOrder();
    groups := Cut(TidyAll(addrs[..], ip), Network, Precedes);
    groups := SortGroups(groups, Network, Precedes);
    GroupsAscend(groups);
  }

  /** Networks strictly ascend from group to group, and within each group there is one network and labels ascend. */
  ghost predicate GroupsInOrder(groups: seq<seq<NamedAddressSet>>)
  {
    && (forall i :: 0 <= i < |groups| ==> groups[i] != [])
    && (forall i, j :: 0 <= i < j < |groups| ==> Before(Network(groups[i][0]), Network(groups[j][0])))
    && (forall i :: 0 <= i < |groups| ==> OneNetwork(groups[i]))
  }

  ghost predicate OneNetwork(group: seq<NamedAddressSet>)
  {
    forall k, m :: 0 <= k < m < |group| ==>
      Network(group[k]) == Network(group[m]) && NotAfter(Label(group[k]), Label(group[m]))
  }

  lemma GroupsAscend(groups: seq<seq<NamedAddressSet>>)
    requires Partitioned(groups, Network, Precedes)
    ensures GroupsInOrder(groups)
  {
    forall i, j | 0 <= i < j < |groups|
      ensures Before(Network(groups[i][0]), Network(groups[j][0]))
    {
      NoneBelowMeans(Network(groups[i][0]), Network(groups[j][0]));
    }
    forall i | 0 <= i < |groups|
      ensures groups[i] != [] && OneNetwork(groups[i])
    {
      assert Uniform(groups[i], Network);
      OrderedMeansAscending(groups[i]);
      GroupAscends(groups[i]);
    }
  }

  lemma GroupAscends(group: seq<NamedAddressSet>)
    requires Uniform(group, Network) && Ascending(group)
    ensures OneNetwork(group)
  {
    forall k, m | 0 <= k < m < |group|
      ensures Network(group[k]) == Network(group[m]) && NotAfter(Label(group[k]), Label(group[m]))
    {
      NoneBelowMeans(Network(group[k]), Network(group[k]));
    }
  }

  ghost predicate GroupsOf(groups: seq<seq<NamedAddressSet>>, sets: seq<NamedAddressSet>, ip: string -> nat)
  {
    Partitioned(groups, Network, Precedes) && multiset(Concat(groups)) == multiset(TidyAll(sets, ip))
  }

  ghost predicate OnNetwork(sets: seq<NamedAddressSet>, network: string)
  {
    exists k :: 0 <= k < |sets| && Network(sets[k]) == network
  }

  /** The groups put together are sorted by network and label. */
  lemma GroupsAreSorted(groups: seq<seq<NamedAddressSet>>, sets: seq<NamedAddressSet>, ip: string -> nat)
    requires GroupsOf(groups, sets, ip)
    ensures InOrder(Concat(groups), Precedes) && Ascending(Concat(groups))
  {
    PrecedesIsAnOrder();
    PartitionIsSorted(groups, Network, Precedes);
    OrderedMeansAscending(Concat(groups));
  }

  lemma SameNetworks(groups: seq<seq<NamedAddressSet>>, sets: seq<NamedAddressSet>, ip: string -> nat, network: string)
    requires multiset(Concat(groups)) == multiset(TidyAll(sets, ip))
    ensures (exists x :: x in Concat(groups) && Network(x) == network) <==> OnNetwork(sets, network)
  {
    if x :| x in Concat(groups) && Network(x) == network {
      assert x in multiset(TidyAll(sets, ip));
      var k :| 0 <= k < |sets| && TidyAll(sets, ip)[k] == x;
      assert Network(sets[k]) == network;
    }
    if k :| 0 <= k < |sets| && Network(sets[k]) == network {
      var x := TidyAll(sets, ip)[k];
      assert x in multiset(Concat(groups));
      assert Network(x) == network;
    }
  }

  /** There is exactly one group for every network some name is on, and no other. */
  lemma OneGroupPerNetwork(groups: seq<seq<NamedAddressSet>>, sets: seq<NamedAddressSet>, ip: string -> nat,
                           network: string)
    requires GroupsOf(groups, sets, ip)
    ensures (exists i :: 0 <= i < |groups| && Network(groups[i][0]) == network) <==> OnNetwork(sets, network)
    ensures forall i, j :: 0 <= i < |groups| && 0 <= j < |groups| && Network(groups[i][0]) == Network(groups[j][0]) ==>
            i == j
  {
    OneGroupPerKey(groups, Network, Precedes, network);
    SameNetworks(groups, sets, ip, network);
  }

  /**
   The first group, which the renderer's list of networks skips, is the unnamed one exactly if some name is on no
   network.
   */
  lemma UnnamedGroupComesFirst(groups: seq<seq<NamedAddressSet>>, sets: seq<NamedAddressSet>, ip: string -> nat)
    requires GroupsOf(groups, sets, ip)
    ensures groups != [] && Network(groups[0][0]) == "" <==> OnNetwork(sets, "")
  {
    OneGroupPerNetwork(groups, sets, ip, "");
    assert forall i :: 0 < i < |groups| ==> Below(Network(groups[0][0]), Network(groups[i][0]));
    assert forall s :: !Below(s, "");
  }

  /** The name is shown in the group of the network. */
  ghost predicate InGroup(groups: seq<seq<NamedAddressSet>>, network: string, fqdn: string)
  {
    exists i, k :: 0 <= i < |groups| && 0 <= k < |groups[i]|
                   && Network(groups[i][0]) == network && groups[i][k].fqdn == fqdn
  }

  lemma ShownAndTidy(groups: seq<seq<NamedAddressSet>>, sets: seq<NamedAddressSet>, ip: string -> nat,
                     x: NamedAddressSet)
    requires GroupsOf(groups, sets, ip)
    ensures (exists i :: 0 <= i < |groups| && x in groups[i]) <==> exists m :: 0 <= m < |sets| && x == Tidy(sets[m], ip)
  {
    ConcatMeans(groups, x);
    assert x in Concat(groups) <==> x in multiset(Concat(groups));
    assert x in TidyAll(sets, ip) <==> x in multiset(TidyAll(sets, ip));
    if m :| 0 <= m < |sets| && x == Tidy(sets[m], ip) {
      assert TidyAll(sets, ip)[m] == x;
    }
  }

  /** A group shows exactly the names on its network. */
  lemma GroupMembers(groups: seq<seq<NamedAddressSet>>, sets: seq<NamedAddressSet>, ip: string -> nat,
                     network: string, fqdn: string)
    requires GroupsOf(groups, sets, ip)
    ensures InGroup(groups, network, fqdn) <==>
            GroupName(fqdn) == network && exists m :: 0 <= m < |sets| && sets[m].fqdn == fqdn
  {
    if i, k :|
      0 <= i < |groups| && 0 <= k < |groups[i]| && Network(groups[i][0]) == network && groups[i][k].fqdn == fqdn
    {
      var x := groups[i][k];
      assert Uniform(groups[i], Network) && x in groups[i];
      ShownAndTidy(groups, sets, ip, x);
      assert Network(x) == network;
    }
    if m :| 0 <= m < |sets| && sets[m].fqdn == fqdn && GroupName(fqdn) == network {
      var x := Tidy(sets[m], ip);
      ShownAndTidy(groups, sets, ip, x);
      var i :| 0 <= i < |groups| && x in groups[i];
      var k :| 0 <= k < |groups[i]| && groups[i][k] == x;
      assert Uniform(groups[i], Network);
      assert Network(x) == network;
    }
  }

  /** And for each name the addresses of its set, in the order of their values. */
  lemma ShownAddresses(groups: seq<seq<NamedAddressSet>>, sets: seq<NamedAddressSet>, ip: string -> nat,
                       i: nat, k: nat) returns (m: nat)
    requires GroupsOf(groups, sets, ip) && i < |groups| && k < |groups[i]|
    ensures m < |sets| && sets[m].fqdn == groups[i][k].fqdn
    ensures multiset(sets[m].addresses) == multiset(groups[i][k].addresses)
    ensures var shown := groups[i][k].addresses;
            forall n, o :: 0 <= n < o < |shown| ==> ip(shown[n].addr) <= ip(shown[o].addr)
  {
    var x := groups[i][k];
    assert x in groups[i];
    ShownAndTidy(groups, sets, ip, x);
    m :| 0 <= m < |sets| && x == Tidy(sets[m], ip);
    TidyPermutesAddresses(sets[m], ip);
  }
}
