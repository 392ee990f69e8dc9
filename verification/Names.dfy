/** Building FQDNs from networks and taking them apart again. */
module Names {
  import opened Types

  datatype DockerNetwork = DockerNetwork(network: string, labels: seq<string>)

  function Dotted(labels: seq<string>, net: string): (r: seq<string>)
    ensures |r| == |labels| && forall i :: 0 <= i < |r| ==> r[i] == labels[i] + "." + net
  {
    seq(|labels|, i requires 0 <= i < |labels| => labels[i] + "." + net)
  }

  /** All labels with their network's name, network by network. */
  function Qualified(nets: seq<DockerNetwork>): seq<string>
  {
    if nets == [] then []
    else Qualified(nets[..|nets| - 1]) + Dotted(nets[|nets| - 1].labels, nets[|nets| - 1].network)
  }

  ghost predicate OnSomeNetwork(nets: seq<DockerNetwork>, host: string)
  {
    exists i :: 0 <= i < |nets| && host in nets[i].labels
  }

  /** A possible result of the name construction: the map of flat names is ranged over in any order. */
  ghost predicate BuiltFrom(names: seq<string>, nets: seq<DockerNetwork>)
  {
    var dotted := Qualified(nets);
    && dotted <= names
    && NoDuplicates(names[|dotted|..])
    && forall host :: host in names[|dotted|..] <==> OnSomeNetwork(nets, host)
  }

  method AllFQDNsOnAttachedNetworks(nets: seq<DockerNetwork>) returns (names: seq<string>)
    ensures BuiltFrom(names, nets)
  {
    names := [];
    var flatnames: set<string> := {};
    for i := 0 to |nets|
      invariant names == Qualified(nets[..i])
      invariant forall host :: host in flatnames <==> OnSomeNetwork(nets[..i], host)
    {
      var net := nets[i];
      ghost var seen := flatnames;
      for j := 0 to |net.labels|
        invariant names == Qualified(nets[..i]) + Dotted(net.labels, net.network)[..j]
        invariant forall host :: host in flatnames <==> host in seen || host in net.labels[..j]
      {
        names := names + [net.labels[j] + "." + net.network];
        flatnames := flatnames + {net.labels[j]};
        assert Dotted(net.labels, net.network)[..j + 1] ==
               Dotted(net.labels, net.network)[..j] + [Dotted(net.labels, net.network)[j]];
        assert net.labels[..j + 1] == net.labels[..j] + [net.labels[j]];
      }
      assert net.labels[..|net.labels|] == net.labels;
      assert Dotted(net.labels, net.network)[..|net.labels|] == Dotted(net.labels, net.network);
      NextNetwork(nets, i);
    }
    assert nets[..|nets|] == nets;
    ghost var dotted, all := names, flatnames;
    var flat: seq<string> := [];
    while flatnames != {}
      invariant flatnames <= all
      invariant names == dotted + flat && NoDuplicates(flat)
      invariant forall host :: host in flat <==> host in all && host !in flatnames
    {
      var flatname :| flatname in flatnames;
      names := names + [flatname];
      flat := flat + [flatname];
      flatnames := flatnames - {flatname};
    }
    assert names[|dotted|..] == flat;
  }

  lemma NextNetwork(nets: seq<DockerNetwork>, i: nat)
    requires i < |nets|
    ensures Qualified(nets[..i + 1]) == Qualified(nets[..i]) + Dotted(nets[i].labels, nets[i].network)
    ensures forall host :: OnSomeNetwork(nets[..i + 1], host) <==>
            OnSomeNetwork(nets[..i], host) || host in nets[i].labels
  {
    assert nets[..i + 1][..i] == nets[..i];
    forall host
      ensures OnSomeNetwork(nets[..i + 1], host) <==> OnSomeNetwork(nets[..i], host) || host in nets[i].labels
    {
      if OnSomeNetwork(nets[..i], host) {
        var k :| 0 <= k < |nets[..i]| && host in nets[..i][k].labels;
        assert host in nets[..i + 1][k].labels;
      }
      if host in nets[i].labels {
        assert host in nets[..i + 1][i].labels;
      }
    }
  }

  // ---------------------------------------------------------------- the trailing root dot

  function TrailingBackslashes(s: string): nat
  {
    if s == "" || s[|s| - 1] != '\\' then 0 else 1 + TrailingBackslashes(s[..|s| - 1])
  }

  /** A name is fully qualified if it ends in a dot that is not escaped. */
  predicate IsFqdn(s: string)
  {
    s != "" && s[|s| - 1] == '.' && TrailingBackslashes(s[..|s| - 1]) % 2 == 0
  }

  function Fqdn(s: string): string
  {
    if IsFqdn(s) then s else s + "."
  }

  /** Removes one trailing dot, if there is one. */
  function TrimDot(s: string): string
  {
    if s != "" && s[|s| - 1] == '.' then s[..|s| - 1] else s
  }

  function UpToDot(s: string): (i: nat)
    ensures i <= |s| && '.' !in s[..i]
    ensures i < |s| ==> s[i] == '.'
    ensures i == |s| <==> '.' !in s
  {
    if s == "" || s[0] == '.' then 0 else
      var i := 1 + UpToDot(s[1..]);
      assert s[..i] == [s[0]] + s[1..][..i - 1];
      assert s == [s[0]] + s[1..];
      i
  }

  /** The parts between the dots. */
  function Split(s: string): (parts: seq<string>)
    ensures |parts| >= 1
    ensures forall i :: 0 <= i < |parts| ==> '.' !in parts[i]
    decreases |s|
  {
    var i := UpToDot(s);
    if i == |s| then [s] else [s[..i]] + Split(s[i + 1..])
  }

  /** The network and the label of an FQDN. */
  function GroupAndLabel(fqdn: string): (string, string)
  {
    var f := Split(TrimDot(fqdn));
    if |f| > 1 then (f[1], f[0]) else ("", f[0])
  }

  function GroupName(fqdn: string): string
  {
    GroupAndLabel(fqdn).0
  }

  lemma PartsAreDotFree(fqdn: string)
    ensures '.' !in GroupAndLabel(fqdn).0 && '.' !in GroupAndLabel(fqdn).1
  {
  }

  lemma SplitWhole(s: string)
    requires '.' !in s
    ensures Split(s) == [s]
  {
  }

  lemma {:induction false} FirstDotAt(s: string, k: nat)
    requires k < |s| && s[k] == '.' && '.' !in s[..k]
    ensures UpToDot(s) == k
  {
    if k > 0 {
      assert s[0] == s[..k][0];
      assert s[1..][..k - 1] == s[..k][1..];
      FirstDotAt(s[1..], k - 1);
    }
  }

  lemma SplitAtDot(l: string, rest: string)
    requires '.' !in l
    ensures Split(l + "." + rest) == [l] + Split(rest)
  {
    var s := l + "." + rest;
    assert s[..|l|] == l && s[|l| + 1..] == rest;
    FirstDotAt(s, |l|);
  }

  /** Just the `n` characters before the last one are backslashes. */
  predicate EscapesBeforeLast(s: string, n: nat)
    requires n < |s|
  {
    (forall j :: |s| - 1 - n <= j < |s| - 1 ==> s[j] == '\\') && (n + 1 < |s| ==> s[|s| - 2 - n] != '\\')
  }

  lemma {:induction false} TrailingRun(s: string)
    ensures TrailingBackslashes(s) <= |s|
    ensures forall j :: |s| - TrailingBackslashes(s) <= j < |s| ==> s[j] == '\\'
    ensures TrailingBackslashes(s) < |s| ==> s[|s| - 1 - TrailingBackslashes(s)] != '\\'
  {
    if s != "" && s[|s| - 1] == '\\' {
      TrailingRun(s[..|s| - 1]);
    }
  }

  lemma {:induction false} RunIsTrailing(s: string, n: nat)
    requires n <= |s| && (forall j :: |s| - n <= j < |s| ==> s[j] == '\\')
    requires n < |s| ==> s[|s| - 1 - n] != '\\'
    ensures n == TrailingBackslashes(s)
  {
    if n > 0 {
      RunIsTrailing(s[..|s| - 1], n - 1);
    }
  }

  lemma EscapesAreCounted(s: string, n: nat)
    requires n < |s|
    ensures EscapesBeforeLast(s, n) <==> n == TrailingBackslashes(s[..|s| - 1])
  {
    var front := s[..|s| - 1];
    TrailingRun(front);
    if EscapesBeforeLast(s, n) {
      RunIsTrailing(front, n);
    }
  }

  /**
   A qualified name ends in a dot, which was there before exactly if the name ended in a dot that an even
   number of backslashes precedes.
   */
  lemma FqdnMeans(s: string)
    ensures Fqdn(s) == s || Fqdn(s) == s + "."
    ensures Fqdn(s) != "" && Fqdn(s)[|Fqdn(s)| - 1] == '.'
    ensures Fqdn(s) == s <==>
            exists n :: 0 <= n < |s| && EscapesBeforeLast(s, n) && n % 2 == 0 && s[|s| - 1] == '.'
  {
    if s != "" {
      TrailingRun(s[..|s| - 1]);
      EscapesAreCounted(s, TrailingBackslashes(s[..|s| - 1]));
      forall n | 0 <= n < |s|
        ensures EscapesBeforeLast(s, n) <==> n == TrailingBackslashes(s[..|s| - 1])
      {
        EscapesAreCounted(s, n);
      }
    }
  }

  /**
   Of a name without its root dot, the label is what precedes the first dot and the network what lies between
   the first and the second, or follows the first if there is no second; without a dot all of it is the label.
   */
  lemma GroupAndLabelMeans(fqdn: string, t: string, host: string, network: string, rest: string)
    requires fqdn == t + "." || (fqdn == t && (t == "" || t[|t| - 1] != '.'))
    requires '.' !in host && '.' !in network
    ensures t == host ==> GroupAndLabel(fqdn) == ("", host)
    ensures t == host + "." + network || t == host + "." + (network + "." + rest) ==>
            GroupAndLabel(fqdn) == (network, host)
  {
    TrimmedIs(fqdn, t);
    SplitWhole(host);
    SplitIntoTwo(host, network);
    SplitTwice(host, network, rest);
  }

  lemma TrimmedIs(fqdn: string, t: string)
    requires fqdn == t + "." || (fqdn == t && (t == "" || t[|t| - 1] != '.'))
    ensures TrimDot(fqdn) == t
  {
    assert (t + ".")[..|t|] == t;
  }

  lemma SplitIntoTwo(host: string, network: string)
    requires '.' !in host && '.' !in network
    ensures Split(host + "." + network) == [host, network]
  {
    SplitAtDot(host, network);
    SplitWhole(network);
  }

  lemma SplitTwice(host: string, network: string, rest: string)
    requires '.' !in host && '.' !in network
    ensures |Split(host + "." + (network + "." + rest))| > 1
    ensures Split(host + "." + (network + "." + rest))[0] == host
    ensures Split(host + "." + (network + "." + rest))[1] == network
  {
    SplitAtDot(host, network + "." + rest);
    SplitAtDot(network, rest);
  }

  /** Qualifying a name and trimming it again changes nothing, except that a final dot may go. */
  lemma TrimOfFqdn(s: string)
    ensures TrimDot(Fqdn(s)) == s || (s != "" && s[|s| - 1] == '.' && TrimDot(Fqdn(s)) == s[..|s| - 1])
  {
    assert (s + ".")[..|s|] == s;
  }

  /**
   Qualifying twice, as digging and then resolving a name does, is harmless unless a final backslash escapes the new
   dot.
   */
  lemma QualifyingTwice(s: string)
    ensures Fqdn(Fqdn(s)) == Fqdn(s) <==> TrailingBackslashes(s) % 2 == 0
  {
    assert (s + ".")[..|s|] == s;
    assert |Fqdn(s + ".")| == |s| + (if IsFqdn(s + ".") then 1 else 2);
  }

  lemma DotFreeRoundTrip(host: string, net: string)
    requires '.' !in host && '.' !in net
    ensures GroupAndLabel(Fqdn(host + "." + net)) == (net, host)
  {
    var s := host + "." + net;
    TrimOfFqdn(s);
    SplitAtDot(host, net);
    SplitWhole(net);
    SplitWhole(host);
    if net == "" {
      assert s[..|s| - 1] == host;
    } else {
      assert s[|s| - 1] == net[|net| - 1] && net[|net| - 1] in net;
    }
  }

  /**
   Parsing what was built from a label and a network, with its root dot, recovers them exactly if neither has a dot.
   */
  lemma NetworkNameRoundTrip(host: string, net: string)
    ensures GroupAndLabel(Fqdn(host + "." + net)) == (net, host) <==> '.' !in host && '.' !in net
  {
    PartsAreDotFree(Fqdn(host + "." + net));
    if '.' !in host && '.' !in net {
      DotFreeRoundTrip(host, net);
    }
  }

  /** The same for a label on its own, which belongs to the unnamed group. */
  lemma FlatNameRoundTrip(host: string)
    ensures GroupAndLabel(Fqdn(host)) == ("", host) <==> '.' !in host
  {
    PartsAreDotFree(Fqdn(host));
    if '.' !in host {
      TrimOfFqdn(host);
      SplitWhole(host);
    }
  }

  // ---------------------------------------------------------------- all built names

  ghost predicate DotFree(nets: seq<DockerNetwork>)
  {
    forall i :: 0 <= i < |nets| ==>
      '.' !in nets[i].network && forall j :: 0 <= j < |nets[i].labels| ==> '.' !in nets[i].labels[j]
  }

  lemma {:induction false} QualifiedMeans(nets: seq<DockerNetwork>, name: string)
    ensures name in Qualified(nets) <==>
            exists i, j :: 0 <= i < |nets| && 0 <= j < |nets[i].labels|
                && name == nets[i].labels[j] + "." + nets[i].network
  {
    if nets != [] {
      var n := |nets| - 1;
      QualifiedMeans(nets[..n], name);
      if i, j :| 0 <= i < |nets| && 0 <= j < |nets[i].labels| && name == nets[i].labels[j] + "." + nets[i].network {
        if i < n {
          assert nets[..n][i] == nets[i];
        } else {
          assert Dotted(nets[n].labels, nets[n].network)[j] == name;
        }
      }
      if name in Dotted(nets[n].labels, nets[n].network) {
        var j :| 0 <= j < |nets[n].labels| && Dotted(nets[n].labels, nets[n].network)[j] == name;
      }
    }
  }

  /** How many names are built before those of network `i`. */
  function NamesBefore(nets: seq<DockerNetwork>, i: nat): nat
    requires i <= |nets|
  {
    if i == 0 then 0 else NamesBefore(nets, i - 1) + |nets[i - 1].labels|
  }

  lemma {:induction false} QualifiedUpTo(nets: seq<DockerNetwork>, i: nat)
    requires i <= |nets|
    ensures |Qualified(nets[..i])| == NamesBefore(nets, i)
  {
    if i > 0 {
      assert nets[..i][..i - 1] == nets[..i - 1];
      QualifiedUpTo(nets, i - 1);
    }
  }

  lemma {:induction false} QualifiedGrows(nets: seq<DockerNetwork>, i: nat)
    requires i <= |nets|
    ensures Qualified(nets[..i]) <= Qualified(nets)
    decreases |nets| - i
  {
    if i == |nets| {
      assert nets[..i] == nets;
    } else {
      QualifiedGrows(nets, i + 1);
      assert nets[..i + 1][..i] == nets[..i];
    }
  }

  /** Network by network and label by label: the names stand where their labels do. */
  lemma QualifiedInOrder(nets: seq<DockerNetwork>, i: nat, j: nat)
    requires i < |nets| && j < |nets[i].labels|
    ensures |Qualified(nets)| == NamesBefore(nets, |nets|)
    ensures var k := NamesBefore(nets, i) + j;
            k < |Qualified(nets)| && Qualified(nets)[k] == nets[i].labels[j] + "." + nets[i].network
  {
    QualifiedUpTo(nets, |nets|);
    assert nets[..|nets|] == nets;
    QualifiedUpTo(nets, i);
    QualifiedGrows(nets, i + 1);
    NextNetwork(nets, i);
    assert Qualified(nets[..i + 1])[NamesBefore(nets, i) + j] == Dotted(nets[i].labels, nets[i].network)[j];
  }

  /** The FQDN is that of a label on the network. */
  ghost predicate BuiltOn(nets: seq<DockerNetwork>, network: string, fqdn: string)
  {
    exists i, j :: 0 <= i < |nets| && 0 <= j < |nets[i].labels| && nets[i].network == network
                   && fqdn == Fqdn(nets[i].labels[j] + "." + network)
  }

  /** The FQDN is that of a label on its own. */
  ghost predicate BuiltFlat(nets: seq<DockerNetwork>, fqdn: string)
  {
    exists host :: OnSomeNetwork(nets, host) && fqdn == Fqdn(host)
  }

  ghost predicate HasName(names: seq<string>, fqdn: string)
  {
    exists k :: 0 <= k < |names| && Fqdn(names[k]) == fqdn
  }

  lemma DottedNamesOf(nets: seq<DockerNetwork>, network: string, fqdn: string)
    requires DotFree(nets)
    ensures HasName(Qualified(nets), fqdn) && GroupName(fqdn) == network <==> BuiltOn(nets, network, fqdn)
  {
    var dotted := Qualified(nets);
    if k :| 0 <= k < |dotted| && Fqdn(dotted[k]) == fqdn {
      QualifiedMeans(nets, dotted[k]);
      var i, j :| 0 <= i < |nets| && 0 <= j < |nets[i].labels|
          && dotted[k] == nets[i].labels[j] + "." + nets[i].network;
      DotFreeRoundTrip(nets[i].labels[j], nets[i].network);
    }
    if i, j :| 0 <= i < |nets| && 0 <= j < |nets[i].labels| && nets[i].network == network
               && fqdn == Fqdn(nets[i].labels[j] + "." + network) {
      var name := nets[i].labels[j] + "." + network;
      QualifiedMeans(nets, name);
      var k :| 0 <= k < |dotted| && dotted[k] == name;
      DotFreeRoundTrip(nets[i].labels[j], network);
    }
  }

  lemma FlatNamesOf(flat: seq<string>, nets: seq<DockerNetwork>, fqdn: string)
    requires DotFree(nets) && forall host :: host in flat <==> OnSomeNetwork(nets, host)
    ensures HasName(flat, fqdn) <==> BuiltFlat(nets, fqdn)
    ensures BuiltFlat(nets, fqdn) ==> GroupName(fqdn) == ""
  {
    if k :| 0 <= k < |flat| && Fqdn(flat[k]) == fqdn {
      assert OnSomeNetwork(nets, flat[k]);
    }
    if host :| OnSomeNetwork(nets, host) && fqdn == Fqdn(host) {
      var k :| 0 <= k < |flat| && flat[k] == host;
      FlatNameRoundTrip(host);
    }
  }

  lemma HasNameSplits(names: seq<string>, n: nat, fqdn: string)
    requires n <= |names|
    ensures HasName(names, fqdn) <==> HasName(names[..n], fqdn) || HasName(names[n..], fqdn)
  {
    if k :| 0 <= k < |names| && Fqdn(names[k]) == fqdn {
      if k < n {
        assert names[..n][k] == names[k];
      } else {
        assert names[n..][k - n] == names[k];
      }
    }
    if k :| 0 <= k < |names[n..]| && Fqdn(names[n..][k]) == fqdn {
      assert names[n + k] == names[n..][k];
    }
  }

  /** The built names on a network are its labels qualified by it; on no network, moreover all labels on their own. */
  lemma NamesOfNetwork(names: seq<string>, nets: seq<DockerNetwork>, network: string, fqdn: string)
    requires BuiltFrom(names, nets) && DotFree(nets)
    ensures HasName(names, fqdn) && GroupName(fqdn) == network <==>
            BuiltOn(nets, network, fqdn) || (network == "" && BuiltFlat(nets, fqdn))
  {
    var n := |Qualified(nets)|;
    HasNameSplits(names, n, fqdn);
    DottedNamesOf(nets, network, fqdn);
    FlatNamesOf(names[n..], nets, fqdn);
  }

  ghost predicate HasGroup(names: seq<string>, group: string)
  {
    exists k :: 0 <= k < |names| && GroupName(Fqdn(names[k])) == group
  }

  ghost predicate HasLabels(nets: seq<DockerNetwork>, group: string)
  {
    exists i :: 0 <= i < |nets| && nets[i].labels != [] && (group == "" || group == nets[i].network)
  }

  lemma BuiltHasLabels(nets: seq<DockerNetwork>, group: string, fqdn: string)
    requires BuiltOn(nets, group, fqdn) || (group == "" && BuiltFlat(nets, fqdn))
    ensures HasLabels(nets, group)
  {
    if !BuiltOn(nets, group, fqdn) {
      var host :| OnSomeNetwork(nets, host) && fqdn == Fqdn(host);
      var i :| 0 <= i < |nets| && host in nets[i].labels;
      assert nets[i].labels != [];
    }
  }

  lemma LabelsAreBuilt(nets: seq<DockerNetwork>, group: string) returns (fqdn: string)
    requires HasLabels(nets, group)
    ensures BuiltOn(nets, group, fqdn) || (group == "" && BuiltFlat(nets, fqdn))
  {
    var i :| 0 <= i < |nets| && nets[i].labels != [] && (group == "" || group == nets[i].network);
    var host := nets[i].labels[0];
    if group == "" {
      fqdn := Fqdn(host);
      assert OnSomeNetwork(nets, host);
    } else {
      fqdn := Fqdn(host + "." + group);
    }
  }

  /** The networks of all built names: none without labels, otherwise the unnamed one and those with labels. */
  lemma GroupsOfBuiltNames(names: seq<string>, nets: seq<DockerNetwork>, group: string)
    requires BuiltFrom(names, nets) && DotFree(nets)
    ensures HasGroup(names, group) <==> HasLabels(nets, group)
  {
    if HasGroup(names, group) {
      var k :| 0 <= k < |names| && GroupName(Fqdn(names[k])) == group;
      NamesOfNetwork(names, nets, group, Fqdn(names[k]));
      BuiltHasLabels(nets, group, Fqdn(names[k]));
    }
    if HasLabels(nets, group) {
      var f := LabelsAreBuilt(nets, group);
      NamesOfNetwork(names, nets, group, f);
    }
  }
}
