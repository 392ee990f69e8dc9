/** Sorting a slice by a less-function, and cutting a sorted slice into runs of equal keys. */
module Sorting {
  import opened Types

  /** What a sort may rely on: nothing precedes both ways, and not preceding is transitive. */
  ghost predicate WeakOrder<T(!new)>(lt: (T, T) -> bool)
  {
    && (forall x, y :: !(lt(x, y) && lt(y, x)))
    && (forall x, y, z :: !lt(y, x) && !lt(z, y) ==> !lt(z, x))
  }

  ghost predicate InOrder<T>(s: seq<T>, lt: (T, T) -> bool)
  {
    forall i, j :: 0 <= i < j < |s| ==> !lt(s[j], s[i])
  }

  /** Puts an element behind all those it does not precede. */
  function Insert<T>(s: seq<T>, x: T, lt: (T, T) -> bool): seq<T>
  {
    if s == [] || !lt(x, s[|s| - 1]) then s + [x]
    else Insert(s[..|s| - 1], x, lt) + [s[|s| - 1]]
  }

  function Sorted<T>(s: seq<T>, lt: (T, T) -> bool): seq<T>
  {
    if s == [] then [] else Insert(Sorted(s[..|s| - 1], lt), s[|s| - 1], lt)
  }

  lemma {:induction false} InsertPermutes<T>(s: seq<T>, x: T, lt: (T, T) -> bool)
    ensures multiset(Insert(s, x, lt)) == multiset(s) + multiset{x}
  {
    if !(s == [] || !lt(x, s[|s| - 1])) {
      assert s == s[..|s| - 1] + [s[|s| - 1]];
      InsertPermutes(s[..|s| - 1], x, lt);
    }
  }

  lemma InOrderAppend<T>(s: seq<T>, x: T, lt: (T, T) -> bool)
    requires InOrder(s, lt) && forall i :: 0 <= i < |s| ==> !lt(x, s[i])
    ensures InOrder(s + [x], lt)
  {
  }

  lemma {:induction false} InsertKeepsOrder<T(!new)>(s: seq<T>, x: T, lt: (T, T) -> bool)
    requires WeakOrder(lt) && InOrder(s, lt)
    ensures InOrder(Insert(s, x, lt), lt)
  {
    var n := |s| - 1;
    if s == [] || !lt(x, s[n]) {
      InOrderAppend(s, x, lt);
    } else {
      var r := Insert(s[..n], x, lt);
      InsertKeepsOrder(s[..n], x, lt);
      InsertPermutes(s[..n], x, lt);
      forall i | 0 <= i < |r|
        ensures !lt(s[n], r[i])
      {
        assert r[i] in multiset(s[..n]) + multiset{x};
      }
      InOrderAppend(r, s[n], lt);
    }
  }

  lemma {:induction false} SortedIsSorted<T(!new)>(s: seq<T>, lt: (T, T) -> bool)
    requires WeakOrder(lt)
    ensures InOrder(Sorted(s, lt), lt) && multiset(Sorted(s, lt)) == multiset(s)
  {
    if s != [] {
      var n := |s| - 1;
      assert s == s[..n] + [s[n]];
      SortedIsSorted(s[..n], lt);
      InsertKeepsOrder(Sorted(s[..n], lt), s[n], lt);
      InsertPermutes(Sorted(s[..n], lt), s[n], lt);
    }
  }

  method InsertionSort<T(!new)>(s: seq<T>, lt: (T, T) -> bool) returns (sorted: seq<T>)
    ensures sorted == Sorted(s, lt)
  {
    sorted := [];
    for i := 0 to |s|
      invariant sorted == Sorted(s[..i], lt)
    {
      assert s[..i + 1][..i] == s[..i];
      sorted := Insert(sorted, s[i], lt);
    }
    assert s[..|s|] == s;
  }

  /** Sorts in place; like the library's sort, it promises nothing about the order of equals. */
  method SortSlice<T(!new)>(a: array<T>, lt: (T, T) -> bool)
    requires WeakOrder(lt)
    modifies a
    ensures InOrder(a[..], lt) && multiset(a[..]) == multiset(old(a[..]))
  {
    var sorted := InsertionSort(a[..], lt);
    SortedIsSorted(a[..], lt);
    assert |sorted| == |multiset(sorted)| == |multiset(a[..])| == a.Length;
    forall k | 0 <= k < a.Length {
      a[k] := sorted[k];
    }
    assert a[..] == sorted;
  }

  // ---------------------------------------------------------------- strings

  /** Go's `<` on strings. */
  predicate Below(s: string, t: string)
  {
    t != "" && (s == "" || s[0] < t[0] || (s[0] == t[0] && Below(s[1..], t[1..])))
  }

  /** What the order of strings is: a proper beginning comes first, and otherwise the first difference decides. */
  ghost predicate Before(s: string, t: string)
  {
    exists k :: 0 <= k <= |s| && k < |t| && s[..k] == t[..k] && (k == |s| || s[k] < t[k])
  }

  lemma BeforeTails(s: string, t: string)
    requires s != "" && t != "" && s[0] == t[0]
    ensures Before(s, t) <==> Before(s[1..], t[1..])
  {
    if k :| 0 <= k <= |s| && k < |t| && s[..k] == t[..k] && (k == |s| || s[k] < t[k]) {
      assert s[1..][..k - 1] == s[..k][1..] && t[1..][..k - 1] == t[..k][1..];
    }
    if k :|
      0 <= k <= |s[1..]| && k < |t[1..]| && s[1..][..k] == t[1..][..k] && (k == |s[1..]| || s[1..][k] < t[1..][k])
    {
      assert s[..k + 1] == [s[0]] + s[1..][..k] && t[..k + 1] == [t[0]] + t[1..][..k];
    }
  }

  lemma SameStart(s: string, t: string, k: nat)
    requires k <= |s| && k <= |t| && s[..k] == t[..k]
    ensures k > 0 ==> s[0] == t[0]
  {
    assert k > 0 ==> s[..k][0] == t[..k][0];
  }

  lemma BeforeHeads(s: string, t: string)
    requires s == "" || t == "" || s[0] != t[0]
    ensures Before(s, t) <==> t != "" && (s == "" || s[0] < t[0])
  {
    if k :| 0 <= k <= |s| && k < |t| && s[..k] == t[..k] && (k == |s| || s[k] < t[k]) {
      SameStart(s, t, k);
    }
    if t != "" && (s == "" || s[0] < t[0]) {
      assert s[..0] == t[..0];
    }
  }

  /** One string is below another exactly if it is a proper beginning of it or less where they first differ. */
  lemma {:induction false} BelowMeans(s: string, t: string)
    ensures Below(s, t) <==>
            exists k :: 0 <= k <= |s| && k < |t| && s[..k] == t[..k] && (k == |s| || s[k] < t[k])
  {
    if s != "" && t != "" && s[0] == t[0] {
      BelowMeans(s[1..], t[1..]);
      BeforeTails(s, t);
      assert Before(s, t) <==> Below(s, t);
    } else {
      BeforeHeads(s, t);
      assert Before(s, t) <==> Below(s, t);
    }
  }

  lemma {:induction false} BelowIsTotal(s: string, t: string)
    ensures !Below(s, s)
    ensures Below(s, t) || Below(t, s) || s == t
    ensures !(Below(s, t) && Below(t, s))
  {
    if s != "" {
      if t != "" && s[0] == t[0] {
        BelowIsTotal(s[1..], t[1..]);
        assert s == [s[0]] + s[1..] && t == [t[0]] + t[1..];
      } else {
        BelowIsTotal(s[1..], s[1..]);
      }
    }
  }

  lemma {:induction false} BelowIsTransitive(s: string, t: string, u: string)
    requires Below(s, t) && Below(t, u)
    ensures Below(s, u)
  {
    if s != "" && s[0] == t[0] == u[0] {
      BelowIsTransitive(s[1..], t[1..], u[1..]);
    }
  }

  /** Not being below is transitive, and two strings neither of which is below the other are equal. */
  lemma BelowFacts(s: string, t: string, u: string)
    ensures !(Below(s, t) && Below(t, s))
    ensures !Below(t, s) && !Below(u, t) ==> !Below(u, s)
    ensures !Below(t, s) && !Below(u, t) && s == u ==> s == t
    ensures !Below(t, s) ==> Below(s, t) || s == t
  {
    BelowIsTotal(s, t);
    BelowIsTotal(t, u);
    BelowIsTotal(s, u);
    if Below(s, t) && Below(t, u) {
      BelowIsTransitive(s, t, u);
    }
  }

  // ---------------------------------------------------------------- groups

  function Concat<T>(groups: seq<seq<T>>): seq<T>
  {
    if groups == [] then [] else Concat(groups[..|groups| - 1]) + groups[|groups| - 1]
  }

  lemma ConcatMore<T>(groups: seq<seq<T>>, group: seq<T>)
    ensures Concat(groups + [group]) == Concat(groups) + group
  {
    assert (groups + [group])[..|groups|] == groups;
  }

  /** A group has members, all with the key of the first. */
  ghost predicate Uniform<T>(group: seq<T>, key: T -> string)
  {
    group != [] && forall i :: 0 <= i < |group| ==> key(group[i]) == key(group[0])
  }

  /** Groups are uniform and in order inside, and their keys strictly increase. */
  ghost predicate Partitioned<T>(groups: seq<seq<T>>, key: T -> string, lt: (T, T) -> bool)
  {
    && (forall i :: 0 <= i < |groups| ==> Uniform(groups[i], key) && InOrder(groups[i], lt))
    && (forall i, j :: 0 <= i < j < |groups| ==> Below(key(groups[i][0]), key(groups[j][0])))
  }

  /** A group that can follow the given ones. */
  ghost predicate Follows<T>(groups: seq<seq<T>>, group: seq<T>, key: T -> string, lt: (T, T) -> bool)
  {
    && Uniform(group, key) && InOrder(group, lt)
    && forall i :: 0 <= i < |groups| ==> groups[i] != [] && Below(key(groups[i][0]), key(group[0]))
  }

  /** The order looks at the key first. */
  ghost predicate KeyFirst<T(!new)>(key: T -> string, lt: (T, T) -> bool)
  {
    forall x, y :: Below(key(x), key(y)) ==> lt(x, y)
  }

  lemma AppendGroup<T>(groups: seq<seq<T>>, group: seq<T>, key: T -> string, lt: (T, T) -> bool)
    requires Partitioned(groups, key, lt) && Follows(groups, group, key, lt)
    ensures Partitioned(groups + [group], key, lt)
  {
  }

  lemma JoinGroup<T>(groups: seq<seq<T>>, recent: seq<T>, x: T, key: T -> string, lt: (T, T) -> bool)
    requires Follows(groups, recent, key, lt) && key(x) == key(recent[0])
    requires forall i :: 0 <= i < |recent| ==> !lt(x, recent[i])
    ensures Follows(groups, recent + [x], key, lt)
  {
    InOrderAppend(recent, x, lt);
  }

  lemma OpenGroup<T(!new)>(groups: seq<seq<T>>, recent: seq<T>, x: T, key: T -> string, lt: (T, T) -> bool)
    requires KeyFirst(key, lt) && Follows(groups, recent, key, lt) && key(x) != key(recent[0])
    requires !lt(x, recent[0])
    ensures Follows(groups + [recent], [x], key, lt)
  {
    var all := groups + [recent];
    BelowIsTotal(key(recent[0]), key(x));
    forall i | 0 <= i < |all|
      ensures all[i] != [] && Below(key(all[i][0]), key(x))
    {
      if i < |groups| {
        BelowIsTransitive(key(all[i][0]), key(recent[0]), key(x));
      }
    }
  }

  /** Completes the recent group. */
  method Close<T(!new)>(groups: seq<seq<T>>, recent: seq<T>, key: T -> string, lt: (T, T) -> bool)
    returns (more: seq<seq<T>>)
    requires Partitioned(groups, key, lt) && Follows(groups, recent, key, lt)
    ensures more == groups + [recent] && Partitioned(more, key, lt) && Concat(more) == Concat(groups) + recent
  {
    AppendGroup(groups, recent, key, lt);
    ConcatMore(groups, recent);
    more := groups + [recent];
  }

  lemma FirstGroup<T>(x: T, key: T -> string, lt: (T, T) -> bool)
    ensures Follows([], [x], key, lt)
  {
  }

  lemma NextFollowsRecent<T>(s: seq<T>, i: nat, before: seq<T>, recent: seq<T>, lt: (T, T) -> bool)
    requires i < |s| && InOrder(s, lt) && before + recent == s[..i]
    ensures forall k :: 0 <= k < |recent| ==> !lt(s[i], recent[k])
    ensures before + recent + [s[i]] == s[..i + 1]
    ensures before + (recent + [s[i]]) == s[..i + 1]
  {
    forall k | 0 <= k < |recent|
      ensures !lt(s[i], recent[k])
    {
      assert recent[k] == (before + recent)[|before| + k];
    }
  }

  /** Cuts a sorted slice wherever the key changes. */
  method Cut<T(!new)>(s: seq<T>, key: T -> string, lt: (T, T) -> bool) returns (groups: seq<seq<T>>)
    requires KeyFirst(key, lt) && InOrder(s, lt)
    ensures Partitioned(groups, key, lt) && Concat(groups) == s
  {
    groups := [];
    var recent: seq<T> := [];
    for i := 0 to |s|
      invariant Partitioned(groups, key, lt)
      invariant if recent == [] then groups == [] else Follows(groups, recent, key, lt)
      invariant Concat(groups) + recent == s[..i]
    {
      NextFollowsRecent(s, i, Concat(groups), recent, lt);
      if recent == [] {
        FirstGroup(s[i], key, lt);
        recent := [s[i]];
      } else if key(s[i]) != key(recent[0]) {
        OpenGroup(groups, recent, s[i], key, lt);
        groups := Close(groups, recent, key, lt);
        recent := [s[i]];
      } else {
        JoinGroup(groups, recent, s[i], key, lt);
        recent := recent + [s[i]];
      }
    }
    assert s[..|s|] == s;
    if recent != [] {
      groups := Close(groups, recent, key, lt);
    }
  }

  lemma {:induction false} ConcatReplaced<T>(groups: seq<seq<T>>, i: nat, group: seq<T>)
    requires i < |groups| && multiset(group) == multiset(groups[i])
    ensures multiset(Concat(groups[i := group])) == multiset(Concat(groups))
  {
    var n := |groups| - 1;
    if i == n {
      assert groups[i := group][..n] == groups[..n];
    } else {
      assert groups[i := group][..n] == groups[..n][i := group];
      ConcatReplaced(groups[..n], i, group);
    }
  }

  lemma PermutedGroup<T>(group: seq<T>, group': seq<T>, key: T -> string)
    requires Uniform(group, key) && multiset(group') == multiset(group)
    ensures Uniform(group', key) && key(group'[0]) == key(group[0])
  {
    assert |multiset(group')| == |group'|;
    forall k | 0 <= k < |group'|
      ensures key(group'[k]) == key(group[0])
    {
      assert group'[k] in multiset(group);
    }
  }

  lemma ReplaceGroup<T>(groups: seq<seq<T>>, i: nat, group: seq<T>, key: T -> string, lt: (T, T) -> bool)
    requires Partitioned(groups, key, lt) && i < |groups|
    requires InOrder(group, lt) && multiset(group) == multiset(groups[i])
    ensures Partitioned(groups[i := group], key, lt)
    ensures multiset(Concat(groups[i := group])) == multiset(Concat(groups))
  {
    ConcatReplaced(groups, i, group);
    PermutedGroup(groups[i], group, key);
  }

  method SortGroup<T(!new)>(members: seq<T>, lt: (T, T) -> bool) returns (sorted: seq<T>)
    requires WeakOrder(lt)
    ensures InOrder(sorted, lt) && multiset(sorted) == multiset(members)
  {
    var group := new T[|members|](k requires 0 <= k < |members| => members[k]);
    assert group[..] == members;
    SortSlice(group, lt);
    sorted := group[..];
  }

  /** Sorts each group once more, which may only swap equals. */
  method SortGroups<T(!new)>(groups: seq<seq<T>>, key: T -> string, lt: (T, T) -> bool) returns (sorted: seq<seq<T>>)
    requires WeakOrder(lt) && Partitioned(groups, key, lt)
    ensures Partitioned(sorted, key, lt) && multiset(Concat(sorted)) == multiset(Concat(groups))
    ensures |sorted| == |groups| && forall i :: 0 <= i < |groups| ==> multiset(sorted[i]) == multiset(groups[i])
  {
    sorted := groups;
    for i := 0 to |groups|
      invariant Partitioned(sorted, key, lt) && multiset(Concat(sorted)) == multiset(Concat(groups))
      invariant |sorted| == |groups| && forall k :: 0 <= k < |groups| ==> multiset(sorted[k]) == multiset(groups[k])
    {
      var group := SortGroup(sorted[i], lt);
      ReplaceGroup(sorted, i, group, key, lt);
      sorted := sorted[i := group];
    }
  }

  // ---------------------------------------------------------------- what a partition is like

  lemma SingleGroup<T>(x: T, key: T -> string, lt: (T, T) -> bool)
    ensures Partitioned([[x]], key, lt) && Concat([[x]]) == [x]
  {
    ConcatMore([], [x]);
    assert [] + [[x]] == [[x]];
  }

  lemma {:induction false} ConcatMeans<T>(groups: seq<seq<T>>, x: T)
    ensures x in Concat(groups) <==> exists i :: 0 <= i < |groups| && x in groups[i]
  {
    if groups != [] {
      var n := |groups| - 1;
      ConcatMeans(groups[..n], x);
      if i :| 0 <= i < |groups| && x in groups[i] {
        assert i < n ==> x in groups[..n][i];
      }
    }
  }

  lemma MembersAreApart<T>(groups: seq<seq<T>>, i: nat, j: nat, x: T, y: T, key: T -> string, lt: (T, T) -> bool)
    requires Partitioned(groups, key, lt) && i < j < |groups| && x in groups[i] && y in groups[j]
    ensures Below(key(x), key(y))
  {
    assert Uniform(groups[i], key) && Uniform(groups[j], key);
    var k :| 0 <= k < |groups[i]| && groups[i][k] == x;
    var m :| 0 <= m < |groups[j]| && groups[j][m] == y;
  }

  lemma InOrderConcat<T>(s: seq<T>, t: seq<T>, lt: (T, T) -> bool)
    requires InOrder(s, lt) && InOrder(t, lt) && forall x, y :: x in s && y in t ==> !lt(y, x)
    ensures InOrder(s + t, lt)
  {
  }

  /** The concatenation of a partition is sorted as a whole. */
  lemma {:induction false} PartitionIsSorted<T(!new)>(groups: seq<seq<T>>, key: T -> string, lt: (T, T) -> bool)
    requires WeakOrder(lt) && KeyFirst(key, lt) && Partitioned(groups, key, lt)
    ensures InOrder(Concat(groups), lt)
  {
    if groups != [] {
      var n := |groups| - 1;
      PartitionIsSorted(groups[..n], key, lt);
      forall x, y | x in Concat(groups[..n]) && y in groups[n]
        ensures !lt(y, x)
      {
        ConcatMeans(groups[..n], x);
        var i :| 0 <= i < n && x in groups[..n][i];
        MembersAreApart(groups, i, n, x, y, key, lt);
      }
      InOrderConcat(Concat(groups[..n]), groups[n], lt);
    }
  }

  /** There is a group for every key some member has, and only one. */
  lemma OneGroupPerKey<T(!new)>(groups: seq<seq<T>>, key: T -> string, lt: (T, T) -> bool, k: string)
    requires Partitioned(groups, key, lt)
    ensures (exists i :: 0 <= i < |groups| && key(groups[i][0]) == k) <==>
            exists x :: x in Concat(groups) && key(x) == k
    ensures forall i, j :: 0 <= i < |groups| && 0 <= j < |groups| && key(groups[i][0]) == key(groups[j][0]) ==> i == j
  {
    if i :| 0 <= i < |groups| && key(groups[i][0]) == k {
      ConcatMeans(groups, groups[i][0]);
      assert groups[i][0] in groups[i];
    }
    if x :| x in Concat(groups) && key(x) == k {
      ConcatMeans(groups, x);
      var i :| 0 <= i < |groups| && x in groups[i];
      assert Uniform(groups[i], key);
    }
    forall i, j | 0 <= i < j < |groups|
      ensures key(groups[i][0]) != key(groups[j][0])
    {
      BelowIsTotal(key(groups[i][0]), key(groups[j][0]));
    }
  }
}
