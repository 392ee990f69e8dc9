/** The table of named addresses that is kept up to date from a stream of named addresses. */
module AddrMap {
  import opened Types

  /** Each FQDN with its addresses in the order they became known. */
  type Table = map<string, seq<QualifiedAddressValue>>

  datatype NamedAddressSet = NamedAddressSet(fqdn: string, addresses: seq<QualifiedAddressValue>)

  /** The position of an address in a list, or the list's length if it is missing. */
  function IndexOf(s: seq<QualifiedAddressValue>, addr: string): (i: nat)
    ensures i <= |s|
    ensures i < |s| ==> s[i].addr == addr
    ensures forall j :: 0 <= j < i ==> s[j].addr != addr
  {
    if s == [] || s[0].addr == addr then 0 else 1 + IndexOf(s[1..], addr)
  }

  /** A known address is only ever raised in quality; an unknown one goes to the end. */
  function MergedInto(s: seq<QualifiedAddressValue>, addr: string, q: Quality): seq<QualifiedAddressValue>
  {
    var i := IndexOf(s, addr);
    if i == |s| then s + [QA(addr, q)]
    else if q.Rank() > s[i].qual.Rank() then s[i := QA(addr, q)]
    else s
  }

  /** The table after one more named address. */
  function Merged(t: Table, na: NamedAddress): Table
  {
    if na.name == "" then t
    else if na.Bare() then (if na.name in t then t else t[na.name := []])
    else t[na.name := MergedInto(if na.name in t then t[na.name] else [], na.addr, na.qual)]
  }

  function Folded(t: Table, log: seq<NamedAddress>): Table
  {
    if log == [] then t else Merged(Folded(t, log[..|log| - 1]), log[|log| - 1])
  }

  /** The table made from a whole stream. */
  function Tracked(log: seq<NamedAddress>): Table
  {
    Folded(map[], log)
  }

  lemma TrackedMore(log: seq<NamedAddress>, na: NamedAddress)
    ensures Tracked(log + [na]) == Merged(Tracked(log), na)
  {
    assert (log + [na])[..|log|] == log;
  }

  class NamedAddressesMap {
    var m: Table

    constructor ()
      ensures m == map[]
    {
      m := map[];
    }

    method Update(namaddr: Option<NamedAddress>)
      modifies this
      ensures m == if namaddr.None? then old(m) else Merged(old(m), namaddr.value)
    {
      if namaddr.None? {
        return;
      }
      var na := namaddr.value;
      if na.name == "" {
        return;
      }
      if na.name in m {
        var qualaddr := m[na.name];
        if na.addr == "" {
          return;
        }
        for idx := 0 to |qualaddr|
          invariant m == old(m)
          invariant forall j :: 0 <= j < idx ==> qualaddr[j].addr != na.addr
        {
          if qualaddr[idx].addr == na.addr {
            if na.qual.Rank() > qualaddr[idx].qual.Rank() {
              m := m[na.name := qualaddr[idx := QA(na.addr, na.qual)]];
            }
            return;
          }
        }
        m := m[na.name := qualaddr + [QA(na.addr, na.qual)]];
        return;
      }
      if na.addr == "" {
        m := m[na.name := []];
      } else {
        m := m[na.name := [QA(na.addr, na.qual)]];
        assert MergedInto([], na.addr, na.qual) == [QA(na.addr, na.qual)];
      }
    }

    /**
     Consumes a stream until it ends or, if the context is done, possibly earlier; `n` counts what
     was consumed.
     */
    method Track(news: seq<NamedAddress>, contextDone: bool) returns (interrupted: bool, ghost n: nat)
      modifies this
      ensures n <= |news| && m == Folded(old(m), news[..n])
      ensures interrupted ==> contextDone
      ensures !interrupted ==> n == |news| && m == Folded(old(m), news)
    {
      n := 0;
      var i := 0;
      while i < |news|
        invariant n == i <= |news|
        invariant m == Folded(old(m), news[..i])
      {
        var doneWins: bool := *;
        if contextDone && doneWins {
          return true, n;
        }
        Update(Some(news[i]));
        assert news[..i + 1][..i] == news[..i];
        i, n := i + 1, n + 1;
      }
      assert news[..|news|] == news;
      return false, n;
    }

    /** A snapshot with one set per name, in whatever order the map is ranged over. */
    method Get() returns (sets: seq<NamedAddressSet>)
      ensures |sets| == |m|
      ensures NoDuplicates(seq(|sets|, i requires 0 <= i < |sets| => sets[i].fqdn))
      ensures forall s :: s in sets <==> s.fqdn in m && s.addresses == m[s.fqdn]
    {
      sets := [];
      var names := m.Keys;
      while names != {}
        invariant names <= m.Keys
        invariant |sets| == |m.Keys - names|
        invariant forall s :: s in sets <==> s.fqdn in m && s.fqdn !in names && s.addresses == m[s.fqdn]
        invariant forall i, j :: 0 <= i < j < |sets| ==> sets[i].fqdn != sets[j].fqdn
      {
        var name :| name in names;
        assert m.Keys - (names - {name}) == (m.Keys - names) + {name};
        sets := sets + [NamedAddressSet(name, m[name])];
        names := names - {name};
      }
      assert m.Keys - names == m.Keys;
    }
  }

  // ---------------------------------------------------------------- what a stream amounts to

  /** The addresses of a name in the order the stream mentions them first. */
  function FirstSeen(log: seq<NamedAddress>, f: string): seq<string>
  {
    if log == [] then []
    else
      var before, last := FirstSeen(log[..|log| - 1], f), log[|log| - 1];
      if last.name == f && !last.Bare() && last.addr !in before then before + [last.addr] else before
  }

  /** The strongest quality a stream mentions for a pair. */
  ghost predicate Strongest(log: seq<NamedAddress>, f: string, a: string, q: Quality)
  {
    NA(f, a, q) in log && forall p :: NA(f, a, p) in log ==> p.Rank() <= q.Rank()
  }

  function Addresses(s: seq<QualifiedAddressValue>): (r: seq<string>)
    ensures |r| == |s| && forall i :: 0 <= i < |s| ==> r[i] == s[i].addr
  {
    seq(|s|, i requires 0 <= i < |s| => s[i].addr)
  }

  lemma MergeKeepsOrder(s: seq<QualifiedAddressValue>, addr: string, q: Quality)
    requires NoDuplicates(Addresses(s))
    ensures NoDuplicates(Addresses(MergedInto(s, addr, q)))
    ensures Addresses(MergedInto(s, addr, q)) == if addr in Addresses(s) then Addresses(s) else Addresses(s) + [addr]
  {
    var i := IndexOf(s, addr);
    if i < |s| {
      assert Addresses(s)[i] == addr;
      assert Addresses(MergedInto(s, addr, q)) == Addresses(s);
    }
  }

  /** A name has an entry exactly if the stream mentions it; its addresses are distinct and in first-mention order. */
  lemma {:induction false} TableOrder(log: seq<NamedAddress>, f: string)
    ensures f in Tracked(log) <==> f != "" && exists k :: 0 <= k < |log| && log[k].name == f
    ensures f in Tracked(log) ==>
              Addresses(Tracked(log)[f]) == FirstSeen(log, f) && NoDuplicates(Addresses(Tracked(log)[f]))
    ensures f !in Tracked(log) && f != "" ==> FirstSeen(log, f) == []
  {
    if log != [] {
      var front, na := log[..|log| - 1], log[|log| - 1];
      TableOrder(front, f);
      if f in Tracked(front) {
        var k :| 0 <= k < |front| && front[k].name == f;
        assert log[k].name == f;
      }
      if na.name == f && f != "" {
        assert log[|log| - 1].name == f;
        if !na.Bare() {
          MergeKeepsOrder(if f in Tracked(front) then Tracked(front)[f] else [], na.addr, na.qual);
        }
      } else if k :| 0 <= k < |log| && log[k].name == f {
        assert f != "" ==> front[k].name == f;
      }
    }
  }

  lemma {:induction false} FirstSeenIsMentioned(log: seq<NamedAddress>, f: string, a: string)
    ensures a in FirstSeen(log, f) <==>
            a != "" && exists k :: 0 <= k < |log| && log[k].name == f && log[k].addr == a
  {
    if log != [] {
      var n := |log| - 1;
      FirstSeenIsMentioned(log[..n], f, a);
      if k :| 0 <= k < |log| && log[k].name == f && log[k].addr == a {
        assert k < n ==> log[..n][k] == log[k];
      }
    }
  }

  lemma {:induction false} FirstSeenGrows(log: seq<NamedAddress>, n: nat, f: string)
    requires n <= |log|
    ensures FirstSeen(log[..n], f) <= FirstSeen(log, f)
    ensures NoDuplicates(FirstSeen(log, f))
    decreases |log|
  {
    if n < |log| {
      assert log[..|log| - 1][..n] == log[..n];
      FirstSeenGrows(log[..|log| - 1], n, f);
    } else {
      assert log[..n] == log;
      if log != [] {
        FirstSeenGrows(log[..|log| - 1], |log| - 1, f);
      }
    }
  }

  /** Addresses come in first-mention order: before any mention of a later one there is one of each earlier one. */
  lemma FirstSeenInOrder(log: seq<NamedAddress>, f: string, i: nat, j: nat, n: nat) returns (m: nat)
    requires i < j < |FirstSeen(log, f)| && n < |log| && log[n].name == f && log[n].addr == FirstSeen(log, f)[j]
    ensures m < n && log[m].name == f && log[m].addr == FirstSeen(log, f)[i]
  {
    var all, front := FirstSeen(log, f), log[..n + 1];
    FirstSeenGrows(log, n + 1, f);
    FirstSeenIsMentioned(log, f, all[j]);
    assert front[n] == log[n];
    FirstSeenIsMentioned(front, f, all[j]);
    assert exists k :: 0 <= k < |FirstSeen(front, f)| && FirstSeen(front, f)[k] == all[k] == all[j];
    assert j < |FirstSeen(front, f)|;
    FirstSeenIsMentioned(front, f, all[i]);
    assert all[i] == FirstSeen(front, f)[i];
    m :| 0 <= m < |front| && front[m].name == f && front[m].addr == all[i];
  }

  lemma MergeRaises(s: seq<QualifiedAddressValue>, addr: string, q: Quality, e: QualifiedAddressValue)
    requires NoDuplicates(Addresses(s))
    ensures e in MergedInto(s, addr, q) <==>
            if e.addr != addr then e in s
            else if addr in Addresses(s) then
              exists p :: QA(addr, p) in s && e.qual == if q.Rank() > p.Rank() then q else p
            else e.qual == q
  {
    var i, r := IndexOf(s, addr), MergedInto(s, addr, q);
    if i < |s| {
      assert Addresses(s)[i] == addr;
      assert s[i] == QA(addr, s[i].qual);
      forall j | 0 <= j < |s| && s[j].addr == addr
        ensures j == i
      {
        assert Addresses(s)[j] == addr;
      }
      if e in s && e.addr != addr {
        var j :| 0 <= j < |s| && s[j] == e;
        assert r[j] == e;
      }
      assert r[i] in r;
      assert forall j :: 0 <= j < |r| && j != i ==> r[j] == s[j];
    }
  }

  /** An entry stands in the table exactly if it is the strongest the stream has to say about that name and address. */
  lemma {:induction false} TableIsStrongest(log: seq<NamedAddress>, f: string, e: QualifiedAddressValue)
    requires f != ""
    ensures f in Tracked(log) && e in Tracked(log)[f] <==> e.addr != "" && Strongest(log, f, e.addr, e.qual)
  {
    if log != [] {
      var front, na := log[..|log| - 1], log[|log| - 1];
      assert log == front + [na];
      TableOrder(front, f);
      TableIsStrongest(front, f, e);
      if na.name == f && na.addr == e.addr && !na.Bare() {
        var s := if f in Tracked(front) then Tracked(front)[f] else [];
        MergeRaises(s, na.addr, na.qual, e);
        forall p
          ensures QA(na.addr, p) in s <==> Strongest(front, f, na.addr, p)
        {
          TableIsStrongest(front, f, QA(na.addr, p));
        }
        StrongestStep(front, s, na, e);
      } else {
        if na.name == f && !na.Bare() {
          MergeRaises(if f in Tracked(front) then Tracked(front)[f] else [], na.addr, na.qual, e);
        }
        assert forall p :: NA(f, e.addr, p) in log <==>
               NA(f, e.addr, p) in front || (na.Bare() && NA(f, e.addr, p) == na);
      }
    }
  }

  lemma StrongestStep(front: seq<NamedAddress>, s: seq<QualifiedAddressValue>, na: NamedAddress,
                      e: QualifiedAddressValue)
    requires na.addr == e.addr && !na.Bare() && na.name != ""
    requires forall p :: QA(na.addr, p) in s <==> Strongest(front, na.name, na.addr, p)
    ensures (if na.addr in Addresses(s) then
               exists p :: QA(na.addr, p) in s && e.qual == if na.qual.Rank() > p.Rank() then na.qual else p
             else e.qual == na.qual) <==> Strongest(front + [na], na.name, e.addr, e.qual)
  {
    var f, log := na.name, front + [na];
    if na.addr in Addresses(s) {
      var i :| 0 <= i < |s| && Addresses(s)[i] == na.addr;
      assert s[i] == QA(na.addr, s[i].qual);
      assert Strongest(front, f, na.addr, s[i].qual);
    } else {
      forall i | 0 <= i < |s|
        ensures s[i].addr != na.addr
      {
        assert Addresses(s)[i] in Addresses(s);
      }
      NoneStrongest(front, f, na.addr);
    }
  }

  lemma NoneStrongest(log: seq<NamedAddress>, f: string, a: string)
    requires forall p :: !Strongest(log, f, a, p)
    ensures forall p :: NA(f, a, p) !in log
  {
    assert !Strongest(log, f, a, Verified);
    assert NA(f, a, Verified) !in log;
    assert !Strongest(log, f, a, Invalid);
    assert NA(f, a, Invalid) !in log;
    assert !Strongest(log, f, a, Verifying);
    assert NA(f, a, Verifying) !in log;
    assert !Strongest(log, f, a, Unverified);
    forall p
      ensures NA(f, a, p) !in log
    {
      match p
      case Unverified =>
      case Verifying =>
      case Invalid =>
      case Verified =>
    }
  }

  /** The table seen as a set of entries per name. */
  function View(t: Table): map<string, set<QualifiedAddressValue>>
  {
    map f | f in t :: set e | e in t[f]
  }

  ghost predicate Mentions(log: seq<NamedAddress>, f: string)
  {
    exists k :: 0 <= k < |log| && log[k].name == f
  }

  /** Streams that mention the same names and agree on the strongest qualities make the same table. */
  lemma SameStrongestSameView(log: seq<NamedAddress>, log': seq<NamedAddress>)
    requires forall f :: f != "" ==> (Mentions(log, f) <==> Mentions(log', f))
    requires forall f, a, q :: f != "" && a != "" ==> (Strongest(log, f, a, q) <==> Strongest(log', f, a, q))
    ensures View(Tracked(log)) == View(Tracked(log'))
  {
    var t, t' := Tracked(log), Tracked(log');
    forall f
      ensures f in t <==> f in t'
      ensures f in t ==> f != ""
    {
      TableOrder(log, f);
      TableOrder(log', f);
      assert f in t <==> f != "" && Mentions(log, f);
      assert f in t' <==> f != "" && Mentions(log', f);
    }
    forall f | f in t
      ensures View(t)[f] == View(t')[f]
    {
      forall e
        ensures e in t[f] <==> e in t'[f]
      {
        TableIsStrongest(log, f, e);
        TableIsStrongest(log', f, e);
      }
    }
  }

  /** The order and the repetition of messages do not matter: streams with the same messages make the same table. */
  lemma SameMessagesSameView(log: seq<NamedAddress>, log': seq<NamedAddress>)
    requires forall na :: na in log <==> na in log'
    ensures View(Tracked(log)) == View(Tracked(log'))
  {
    forall f | f != ""
      ensures Mentions(log, f) <==> Mentions(log', f)
    {
      if k :| 0 <= k < |log| && log[k].name == f {
        assert log[k] in log';
      }
      if k :| 0 <= k < |log'| && log'[k].name == f {
        assert log'[k] in log;
      }
    }
    SameStrongestSameView(log, log');
  }

  lemma PermutedStreamsAgree(log: seq<NamedAddress>, log': seq<NamedAddress>)
    requires multiset(log) == multiset(log')
    ensures View(Tracked(log)) == View(Tracked(log'))
  {
    forall na
      ensures na in log <==> na in log'
    {
      assert na in log <==> na in multiset(log);
      assert na in log' <==> na in multiset(log');
    }
    SameMessagesSameView(log, log');
  }
}
