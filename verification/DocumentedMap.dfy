/**
 The update rule that the table's documentation gives. The code has a simpler one, which raises any lower
 quality to any higher one; here is exactly when the difference shows.
 */
module DocumentedMap {
  import opened Types
  import opened AddrMap

  /** The quality changes the documentation of the table lists. */
  predicate DocumentedChange(p: Quality, q: Quality)
  {
    (p == Unverified && q == Verifying) || (p == Verifying && q.Terminal())
  }

  /** The list of addresses after a merge that makes only the documented changes. */
  function DocumentedInto(s: seq<QualifiedAddressValue>, addr: string, q: Quality): seq<QualifiedAddressValue>
  {
    var i := IndexOf(s, addr);
    if i == |s| then s + [QA(addr, q)]
    else if DocumentedChange(s[i].qual, q) then s[i := QA(addr, q)]
    else s
  }

  function DocumentedMerged(t: Table, na: NamedAddress): Table
  {
    if na.name == "" then t
    else if na.Bare() then (if na.name in t then t else t[na.name := []])
    else t[na.name := DocumentedInto(if na.name in t then t[na.name] else [], na.addr, na.qual)]
  }

  function DocumentedTracked(log: seq<NamedAddress>): Table
  {
    if log == [] then map[] else DocumentedMerged(DocumentedTracked(log[..|log| - 1]), log[|log| - 1])
  }

  /** A raise the documentation does not mention. */
  predicate Skips(p: Quality, q: Quality)
  {
    (p == Unverified && q.Terminal()) || (p == Invalid && q == Verified)
  }

  /** The table departs from its documentation exactly when a known address skips Verifying or its verdict improves. */
  lemma DepartsExactlyWhenSkipping(s: seq<QualifiedAddressValue>, addr: string, q: Quality)
    ensures MergedInto(s, addr, q) != DocumentedInto(s, addr, q) <==>
            IndexOf(s, addr) < |s| && Skips(s[IndexOf(s, addr)].qual, q)
  {
    var i := IndexOf(s, addr);
    if i < |s| {
      assert s[i := QA(addr, q)][i] == QA(addr, q);
      assert q.Rank() > s[i].qual.Rank() <==> DocumentedChange(s[i].qual, q) || Skips(s[i].qual, q);
    }
  }

  // ---------------------------------------------------------------- whole streams

  /** The message does not skip Verifying, nor improve a verdict, against what the stream said before about its pair. */
  ghost predicate Unskipped(before: seq<NamedAddress>, na: NamedAddress)
  {
    na.name != "" && !na.Bare() ==> forall p :: Strongest(before, na.name, na.addr, p) ==> !Skips(p, na.qual)
  }

  ghost predicate NothingSkipped(log: seq<NamedAddress>)
  {
    forall k :: 0 <= k < |log| ==> Unskipped(log[..k], log[k])
  }

  ghost predicate AsDocumented(log: seq<NamedAddress>)
  {
    DocumentedTracked(log) == Tracked(log)
  }

  /** The table was at all times the one the documented rule makes. */
  ghost predicate AlwaysAsDocumented(log: seq<NamedAddress>)
  {
    forall n :: 0 <= n <= |log| ==> AsDocumented(log[..n])
  }

  lemma OneMoreAsDocumented(log: seq<NamedAddress>, na: NamedAddress)
    requires AsDocumented(log)
    ensures AsDocumented(log + [na]) <==> Unskipped(log, na)
  {
    assert (log + [na])[..|log|] == log;
    var t := Tracked(log);
    if na.name != "" && !na.Bare() {
      var s := if na.name in t then t[na.name] else [];
      var i := IndexOf(s, na.addr);
      assert Merged(t, na)[na.name] == MergedInto(s, na.addr, na.qual);
      assert DocumentedMerged(t, na)[na.name] == DocumentedInto(s, na.addr, na.qual);
      DepartsExactlyWhenSkipping(s, na.addr, na.qual);
      forall p
        ensures Strongest(log, na.name, na.addr, p) <==> i < |s| && p == s[i].qual
      {
        EntryIsStrongest(log, na.name, na.addr, p);
      }
    }
  }

  lemma EntryIsStrongest(log: seq<NamedAddress>, f: string, a: string, p: Quality)
    requires f != "" && a != ""
    ensures var s := if f in Tracked(log) then Tracked(log)[f] else [];
            Strongest(log, f, a, p) <==> IndexOf(s, a) < |s| && p == s[IndexOf(s, a)].qual
  {
    var s := if f in Tracked(log) then Tracked(log)[f] else [];
    var i := IndexOf(s, a);
    TableIsStrongest(log, f, QA(a, p));
    if i < |s| {
      TableIsStrongest(log, f, s[i]);
    }
  }

  lemma Prefixes(log: seq<NamedAddress>, na: NamedAddress)
    ensures forall k :: 0 <= k <= |log| ==> (log + [na])[..k] == log[..k]
    ensures (log + [na])[..|log| + 1] == log + [na]
  {
  }

  lemma SkipsExtend(log: seq<NamedAddress>, na: NamedAddress)
    ensures NothingSkipped(log + [na]) <==> NothingSkipped(log) && Unskipped(log, na)
  {
    var more := log + [na];
    Prefixes(log, na);
    assert more[..|log|] == log && more[|log|] == na;
    forall k | 0 <= k < |log|
      ensures Unskipped(more[..k], more[k]) <==> Unskipped(log[..k], log[k])
    {
      assert more[k] == log[k];
    }
  }

  lemma AgreementExtends(log: seq<NamedAddress>, na: NamedAddress)
    ensures AlwaysAsDocumented(log + [na]) <==> AlwaysAsDocumented(log) && AsDocumented(log + [na])
  {
    var more := log + [na];
    Prefixes(log, na);
    assert AlwaysAsDocumented(more) ==> AsDocumented(more[..|log| + 1]);
    forall n | 0 <= n <= |log|
      ensures AsDocumented(more[..n]) <==> AsDocumented(log[..n])
    {
    }
  }

  /** For any stream: the table is at all times as documented exactly if no message skips. */
  lemma {:induction false} DocumentedExactlyWithoutSkips(log: seq<NamedAddress>)
    ensures AlwaysAsDocumented(log) <==> NothingSkipped(log)
  {
    if log == [] {
      assert log[..0] == [];
    } else {
      var front, na := log[..|log| - 1], log[|log| - 1];
      assert log == front + [na];
      DocumentedExactlyWithoutSkips(front);
      SkipsExtend(front, na);
      AgreementExtends(front, na);
      assert front[..|front|] == front;
      if AlwaysAsDocumented(front) {
        OneMoreAsDocumented(front, na);
      }
    }
  }

  /** For instance when an address known to be invalid turns out to be reachable. */
  lemma InvalidIsRaised(f: string, a: string)
    requires f != "" && a != ""
    ensures var log := [NA(f, a, Invalid), NA(f, a, Verified)];
            Tracked(log)[f] == [QA(a, Verified)] && DocumentedTracked(log)[f] == [QA(a, Invalid)]
  {
    var first, second := NA(f, a, Invalid), NA(f, a, Verified);
    OnlyOne(first);
    OneMore([first], second);
    assert [first] + [second] == [first, second];
  }

  lemma OnlyOne(na: NamedAddress)
    requires na.name != "" && !na.Bare()
    ensures Tracked([na]) == DocumentedTracked([na]) == map[na.name := [QA(na.addr, na.qual)]]
  {
    OneMore([], na);
    assert [] + [na] == [na];
    assert MergedInto([], na.addr, na.qual) == [QA(na.addr, na.qual)] == DocumentedInto([], na.addr, na.qual);
  }

  lemma OneMore(log: seq<NamedAddress>, na: NamedAddress)
    ensures Tracked(log + [na]) == Merged(Tracked(log), na)
    ensures DocumentedTracked(log + [na]) == DocumentedMerged(DocumentedTracked(log), na)
  {
    TrackedMore(log, na);
    assert (log + [na])[..|log|] == log;
  }
}
