/**
 Whether everybody knows: exactly which updates, and which histories of updates, leave every presented
 pair last told the cached quality.
 */
module CacheInformed {
  import opened Types
  import opened AddrCache
  import opened CacheHistory

  /** What the pair should have been told last: the cached quality if it was ever presented, nothing otherwise. */
  function Expected(calls: seq<NamedAddress>, f: string, a: string): Option<Quality>
  {
    if (f, a) in Pairs(calls) && a in CacheAfter(calls) then Some(CacheAfter(calls)[a].q) else None
  }

  ghost predicate PairInformed(calls: seq<NamedAddress>, f: string, a: string)
  {
    LastAbout(Stream(calls), f, a) == Expected(calls, f, a)
  }

  /** Every presented pair was last told the cached quality, and no other pair was told anything. */
  ghost predicate Informed(calls: seq<NamedAddress>)
  {
    forall f, a :: PairInformed(calls, f, a)
  }

  // ---------------------------------------------------------------- one update

  /** The update is a verdict that improves the quality of a known address. */
  predicate Raising(c: Cache, na: NamedAddress)
  {
    na.addr in c && na.qual.Terminal() && na.qual.Rank() > c[na.addr].q.Rank()
  }

  ghost predicate Waits(calls: seq<NamedAddress>, f: string, a: string)
  {
    a in CacheAfter(calls) && f in CacheAfter(calls)[a].consumers
  }

  lemma ExpectedAfter(calls: seq<NamedAddress>, na: NamedAddress, f: string, a: string)
    ensures Expected(calls + [na], f, a) ==
            if a != na.addr then Expected(calls, f, a)
            else if f == na.name || (f, a) in Pairs(calls) then Some(Updated(CacheAfter(calls), na).cache[a].q)
            else None
  {
    Unfold(calls, na);
  }

  lemma LastToldAfter(calls: seq<NamedAddress>, na: NamedAddress, f: string, a: string)
    ensures LastAbout(Stream(calls + [na]), f, a) ==
            if a == na.addr && Told(CacheAfter(calls), na, f) then Some(Updated(CacheAfter(calls), na).cache[a].q)
            else LastAbout(Stream(calls), f, a)
  {
    Unfold(calls, na);
    LastAboutAppend(Stream(calls), Updated(CacheAfter(calls), na).out, f, a);
    ToldByUpdate(CacheAfter(calls), na, f, a);
  }

  /** Who may do without a message: names that were never presented, and those who know already. */
  lemma UntoldKnow(c: Cache, na: NamedAddress, f: string, presented: bool)
    requires na.addr in c && !Told(c, na, f)
    requires f in c[na.addr].consumers ==> presented
    requires !c[na.addr].q.Terminal() && presented ==> f in c[na.addr].consumers
    ensures !Raising(c, na) && (presented || f == na.name) ==>
            presented && Updated(c, na).cache[na.addr].q == c[na.addr].q
  {
  }

  lemma PairStaysInformed(calls: seq<NamedAddress>, na: NamedAddress, f: string, a: string)
    requires PairInformed(calls, f, a)
    ensures PairInformed(calls + [na], f, a) <==>
            (Raising(CacheAfter(calls), na) && a == na.addr && (f, a) in Pairs(calls + [na]) ==> Waits(calls, f, a))
  {
    var c := CacheAfter(calls);
    ExpectedAfter(calls, na, f, a);
    LastToldAfter(calls, na, f, a);
    OnePairMore(calls, na);
    if a == na.addr && a in c {
      WaitingNames(calls, a);
      if !Told(c, na, f) {
        UntoldKnow(c, na, f, (f, a) in Pairs(calls));
      }
    } else if a == na.addr {
      TerminalMeansDecided(calls, a);
      assert (f, a) !in Pairs(calls);
    }
  }

  /** Every name presented for the address, the sender's included, is on the waiting list. */
  ghost predicate AllWait(calls: seq<NamedAddress>, na: NamedAddress)
  {
    forall f :: (f, na.addr) in Pairs(calls + [na]) ==> Waits(calls, f, na.addr)
  }

  /** Any update keeps everybody informed, except a raising verdict that somebody does not wait for. */
  lemma UpdateInformsExactly(calls: seq<NamedAddress>, na: NamedAddress)
    requires Informed(calls)
    ensures Informed(calls + [na]) <==> (Raising(CacheAfter(calls), na) ==> AllWait(calls, na))
  {
    forall f, a
      ensures PairInformed(calls + [na], f, a) <==>
              (Raising(CacheAfter(calls), na) && a == na.addr && (f, a) in Pairs(calls + [na]) ==> Waits(calls, f, a))
    {
      PairStaysInformed(calls, na, f, a);
    }
    if Informed(calls + [na]) && Raising(CacheAfter(calls), na) {
      forall f | (f, na.addr) in Pairs(calls + [na])
        ensures Waits(calls, f, na.addr)
      {
        assert PairInformed(calls + [na], f, na.addr);
      }
    }
  }

  // ---------------------------------------------------------------- in terms of what was presented

  /** The address was presented before, and always with a lower quality. */
  ghost predicate RaisesVerdict(before: seq<NamedAddress>, na: NamedAddress)
  {
    && na.qual.Terminal()
    && (exists j :: 0 <= j < |before| && before[j].addr == na.addr)
    && (forall j :: 0 <= j < |before| && before[j].addr == na.addr ==> before[j].qual.Rank() < na.qual.Rank())
  }

  lemma RaisingMeans(calls: seq<NamedAddress>, na: NamedAddress)
    ensures RaisesVerdict(calls, na) <==> Raising(CacheAfter(calls), na)
  {
    CachedQualityIsMaximum(calls);
    if na.addr in CacheAfter(calls) {
      var k :| 0 <= k < |calls| && calls[k].addr == na.addr && calls[k].qual == CacheAfter(calls)[na.addr].q;
    }
  }

  /** No verdict raised the address from the j-th update on. */
  ghost predicate QuietSince(calls: seq<NamedAddress>, j: nat, a: string)
  {
    forall k :: j <= k < |calls| && calls[k].addr == a ==> !RaisesVerdict(calls[..k], calls[k])
  }

  /** The pair was presented since the last verdict that raised its address. */
  ghost predicate PresentedSince(calls: seq<NamedAddress>, f: string, a: string)
  {
    exists j :: 0 <= j < |calls| && calls[j].name == f && calls[j].addr == a && QuietSince(calls, j, a)
  }

  lemma QuietExtends(calls: seq<NamedAddress>, na: NamedAddress, j: nat, a: string)
    requires j <= |calls|
    ensures QuietSince(calls + [na], j, a) <==> QuietSince(calls, j, a) && (na.addr == a ==> !RaisesVerdict(calls, na))
  {
    var more := calls + [na];
    assert more[..|calls|] == calls && more[|calls|] == na;
    forall k | 0 <= k < |calls|
      ensures more[..k] == calls[..k] && more[k] == calls[k]
    {
    }
  }

  lemma PresentedExtends(calls: seq<NamedAddress>, na: NamedAddress, f: string, a: string)
    ensures PresentedSince(calls + [na], f, a) <==>
            && (PresentedSince(calls, f, a) || (na.name == f && na.addr == a))
            && (na.addr == a ==> !RaisesVerdict(calls, na))
  {
    var more := calls + [na];
    forall j: nat | j <= |calls|
      ensures QuietSince(more, j, a) <==> QuietSince(calls, j, a) && (na.addr == a ==> !RaisesVerdict(calls, na))
    {
      QuietExtends(calls, na, j, a);
    }
    if PresentedSince(calls, f, a) {
      var j :| 0 <= j < |calls| && calls[j].name == f && calls[j].addr == a && QuietSince(calls, j, a);
      assert more[j] == calls[j];
    }
    if na.name == f && na.addr == a {
      assert QuietSince(calls, |calls|, a);
      assert more[|calls|] == na;
    }
    if j :| 0 <= j < |more| && more[j].name == f && more[j].addr == a && QuietSince(more, j, a) {
      assert j < |calls| ==> more[j] == calls[j];
    }
  }

  lemma ConsumersAfter(c: Cache, na: NamedAddress, f: string)
    ensures f in Updated(c, na).cache[na.addr].consumers <==>
            !Raising(c, na) && (f == na.name || (na.addr in c && f in c[na.addr].consumers))
  {
  }

  lemma WaitsAfter(calls: seq<NamedAddress>, na: NamedAddress, f: string, a: string)
    ensures Waits(calls + [na], f, a) <==>
            && (Waits(calls, f, a) || (na.name == f && na.addr == a))
            && (na.addr == a ==> !Raising(CacheAfter(calls), na))
  {
    Unfold(calls, na);
    ConsumersAfter(CacheAfter(calls), na, f);
  }

  /** A name waits for news about an address exactly if it was presented for it since the last raising verdict. */
  lemma {:induction false} WaitsExactly(calls: seq<NamedAddress>, f: string, a: string)
    ensures Waits(calls, f, a) <==> PresentedSince(calls, f, a)
  {
    if calls != [] {
      var front, na := calls[..|calls| - 1], calls[|calls| - 1];
      assert calls == front + [na];
      WaitsExactly(front, f, a);
      WaitsAfter(front, na, f, a);
      PresentedExtends(front, na, f, a);
      RaisingMeans(front, na);
    }
  }

  lemma ConsumersGrow(c: Cache, na: NamedAddress)
    requires !Raising(c, na)
    ensures na.addr !in c ==> Updated(c, na).cache[na.addr].consumers == [na.name]
    ensures na.addr in c ==>
            var was := c[na.addr].consumers;
            Updated(c, na).cache[na.addr].consumers == if na.name in was then was else was + [na.name]
  {
  }

  lemma WaitingFrom(calls: seq<NamedAddress>, f: string, a: string) returns (j: nat)
    requires Waits(calls, f, a)
    ensures j < |calls| && calls[j].name == f && calls[j].addr == a && QuietSince(calls, j, a)
  {
    WaitsExactly(calls, f, a);
    j :| 0 <= j < |calls| && calls[j].name == f && calls[j].addr == a && QuietSince(calls, j, a);
  }

  /**
   Names wait in the order in which they were first presented since the last raising verdict: whenever since
   then a later one of them was presented, each earlier one had been presented since then before.
   */
  lemma {:induction false} WaitingOrder(calls: seq<NamedAddress>, a: string, i: nat, j: nat, n: nat) returns (m: nat)
    requires a in CacheAfter(calls) && i < j < |CacheAfter(calls)[a].consumers| && n < |calls|
    requires calls[n].name == CacheAfter(calls)[a].consumers[j] && calls[n].addr == a && QuietSince(calls, n, a)
    ensures m < n && calls[m].name == CacheAfter(calls)[a].consumers[i] && calls[m].addr == a
    ensures QuietSince(calls, m, a)
  {
    var front, na := calls[..|calls| - 1], calls[|calls| - 1];
    assert calls == front + [na];
    Unfold(front, na);
    RaisingMeans(front, na);
    QuietExtends(front, na, n, a);
    if a == na.addr {
      ConsumersGrow(CacheAfter(front), na);
      WaitsExactly(front, na.name, a);
    }
    if n == |front| {
      m := WaitingFrom(front, CacheAfter(calls)[a].consumers[i], a);
    } else {
      m := WaitingOrder(front, a, i, j, n);
    }
    QuietExtends(front, na, m, a);
  }

  /** A raising verdict is told to the waiting names in that order. */
  lemma VerdictTellsInOrder(calls: seq<NamedAddress>, na: NamedAddress, i: nat, j: nat, n: nat) returns (m: nat)
    requires Raising(CacheAfter(calls), na) && i < j < |Updated(CacheAfter(calls), na).out| && n < |calls|
    requires calls[n].name == Updated(CacheAfter(calls), na).out[j].name && calls[n].addr == na.addr
    requires QuietSince(calls, n, na.addr)
    ensures m < n && calls[m].name == Updated(CacheAfter(calls), na).out[i].name && calls[m].addr == na.addr
    ensures QuietSince(calls, m, na.addr)
  {
    m := WaitingOrder(calls, na.addr, i, j, n);
  }

  // ---------------------------------------------------------------- whole histories

  /** Everybody was informed at all times. */
  ghost predicate AlwaysInformed(calls: seq<NamedAddress>)
  {
    forall n :: 0 <= n <= |calls| ==> Informed(calls[..n])
  }

  /** If the update is a raising verdict, everybody concerned was presented since the last one, the sender included. */
  ghost predicate ReachesAll(before: seq<NamedAddress>, na: NamedAddress)
  {
    RaisesVerdict(before, na) ==>
      forall f :: f == na.name || (f, na.addr) in Pairs(before) ==> PresentedSince(before, f, na.addr)
  }

  ghost predicate EveryVerdictReachesAll(calls: seq<NamedAddress>)
  {
    forall k :: 0 <= k < |calls| ==> ReachesAll(calls[..k], calls[k])
  }

  lemma ReachesAllMeans(calls: seq<NamedAddress>, na: NamedAddress)
    ensures ReachesAll(calls, na) <==> (Raising(CacheAfter(calls), na) ==> AllWait(calls, na))
  {
    RaisingMeans(calls, na);
    OnePairMore(calls, na);
    forall f
      ensures (f, na.addr) in Pairs(calls + [na]) <==> f == na.name || (f, na.addr) in Pairs(calls)
      ensures Waits(calls, f, na.addr) <==> PresentedSince(calls, f, na.addr)
    {
      WaitsExactly(calls, f, na.addr);
    }
  }

  lemma HistoryExtends(calls: seq<NamedAddress>, na: NamedAddress)
    ensures AlwaysInformed(calls + [na]) <==> AlwaysInformed(calls) && Informed(calls + [na])
    ensures EveryVerdictReachesAll(calls + [na]) <==> EveryVerdictReachesAll(calls) && ReachesAll(calls, na)
  {
    var more := calls + [na];
    assert more[..|calls|] == calls && more[|calls|] == na && more[..|more|] == more;
    forall k | 0 <= k <= |calls|
      ensures more[..k] == calls[..k]
    {
    }
    assert forall k :: 0 <= k < |calls| ==> more[k] == calls[k];
  }

  /**
   For any sequence of updates: everybody is informed at all times exactly if each verdict that raises a known
   address comes from a name presented for it before, and after all names ever presented for the address were
   presented once more since the last such verdict.
   */
  lemma {:induction false} AlwaysInformedExactly(calls: seq<NamedAddress>)
    ensures AlwaysInformed(calls) <==> EveryVerdictReachesAll(calls)
  {
    if calls == [] {
      assert calls[..0] == [];
      assert forall f, a :: PairInformed([], f, a);
    } else {
      var front, na := calls[..|calls| - 1], calls[|calls| - 1];
      assert calls == front + [na];
      AlwaysInformedExactly(front);
      HistoryExtends(front, na);
      ReachesAllMeans(front, na);
      assert front[..|front|] == front;
      if AlwaysInformed(front) {
        assert Informed(front);
        UpdateInformsExactly(front, na);
      }
    }
  }

  // ---------------------------------------------------------------- who is left uninformed

  /** A raising verdict did not find the name, although it was presented, and the name was not presented again. */
  ghost predicate MissedAt(calls: seq<NamedAddress>, r: nat, f: string, a: string)
  {
    && r < |calls| && calls[r].addr == a && RaisesVerdict(calls[..r], calls[r])
    && (f == calls[r].name || (f, a) in Pairs(calls[..r])) && !PresentedSince(calls[..r], f, a)
    && forall j :: r < j < |calls| ==> calls[j].name != f || calls[j].addr != a
  }

  ghost predicate Missed(calls: seq<NamedAddress>, f: string, a: string)
  {
    exists r :: MissedAt(calls, r, f, a)
  }

  ghost predicate NobodyMissed(calls: seq<NamedAddress>)
  {
    forall f, a :: !Missed(calls, f, a)
  }

  /** The update is a raising verdict that does not find the name. */
  ghost predicate Overlooks(calls: seq<NamedAddress>, na: NamedAddress, f: string, a: string)
  {
    && na.addr == a && RaisesVerdict(calls, na)
    && (f == na.name || (f, a) in Pairs(calls)) && !PresentedSince(calls, f, a)
  }

  lemma MissedExtends(calls: seq<NamedAddress>, na: NamedAddress, f: string, a: string)
    ensures Missed(calls + [na], f, a) <==>
            Overlooks(calls, na, f, a) || (Missed(calls, f, a) && !(na.name == f && na.addr == a))
  {
    var more := calls + [na];
    assert more[..|calls|] == calls && more[|calls|] == na;
    forall r: nat | r < |calls|
      ensures MissedAt(more, r, f, a) <==> MissedAt(calls, r, f, a) && !(na.name == f && na.addr == a)
    {
      assert more[..r] == calls[..r];
      assert forall j :: 0 <= j < |calls| ==> more[j] == calls[j];
    }
    assert MissedAt(more, |calls|, f, a) <==> Overlooks(calls, na, f, a);
  }

  /** Who was presented since the last raising verdict has missed nothing. */
  lemma {:induction false} WaitingMissesNothing(calls: seq<NamedAddress>, f: string, a: string)
    requires PresentedSince(calls, f, a)
    ensures !Missed(calls, f, a)
  {
    var front, na := calls[..|calls| - 1], calls[|calls| - 1];
    assert calls == front + [na];
    PresentedExtends(front, na, f, a);
    MissedExtends(front, na, f, a);
    if !(na.name == f && na.addr == a) {
      WaitingMissesNothing(front, f, a);
    }
  }

  lemma OverlookedIsUninformed(calls: seq<NamedAddress>, na: NamedAddress, f: string, a: string)
    requires Overlooks(calls, na, f, a)
    ensures !PairInformed(calls + [na], f, a)
  {
    var c := CacheAfter(calls);
    ExpectedAfter(calls, na, f, a);
    LastToldAfter(calls, na, f, a);
    RaisingMeans(calls, na);
    WaitsExactly(calls, f, a);
    LastAboutIsMessage(Stream(calls), f, a);
    if LastAbout(Stream(calls), f, a).Some? {
      StreamIsMonotone(calls, a);
      assert LastAbout(Stream(calls), f, a).value.Rank() <= c[a].q.Rank();
    }
  }

  /** Updates that do not overlook the name inform it if they present it, and otherwise leave it as it was. */
  lemma OthersInform(calls: seq<NamedAddress>, na: NamedAddress, f: string, a: string)
    requires !Overlooks(calls, na, f, a)
    requires PresentedSince(calls, f, a) ==> PairInformed(calls, f, a)
    ensures PairInformed(calls + [na], f, a) <==> (na.name == f && na.addr == a) || PairInformed(calls, f, a)
  {
    var c := CacheAfter(calls);
    ExpectedAfter(calls, na, f, a);
    LastToldAfter(calls, na, f, a);
    RaisingMeans(calls, na);
    WaitsExactly(calls, f, a);
    if a == na.addr && a in c {
      WaitingNames(calls, a);
      CaseByCase(c, na, f, (f, a) in Pairs(calls));
      NeverToldUnpresented(calls, f, a);
    } else if a == na.addr {
      TerminalMeansDecided(calls, a);
      assert (f, a) !in Pairs(calls);
      NeverToldUnpresented(calls, f, a);
    }
  }

  lemma NeverToldUnpresented(calls: seq<NamedAddress>, f: string, a: string)
    ensures (f, a) !in Pairs(calls) ==> PairInformed(calls, f, a)
  {
    LastAboutIsMessage(Stream(calls), f, a);
    StreamAboutPairs(calls);
  }

  /** If the name is told of a raise it waited or is the sender; if it is told of no raise, the quality stays. */
  lemma CaseByCase(c: Cache, na: NamedAddress, f: string, presented: bool)
    requires na.addr in c
    requires f in c[na.addr].consumers ==> presented
    requires !c[na.addr].q.Terminal() && presented ==> f in c[na.addr].consumers
    requires Raising(c, na) ==> f in c[na.addr].consumers || (f != na.name && !presented)
    ensures Told(c, na, f) ==> f == na.name || f in c[na.addr].consumers
    ensures !Told(c, na, f) && f == na.name ==> f in c[na.addr].consumers
    ensures !Told(c, na, f) && presented ==> Updated(c, na).cache[na.addr].q == c[na.addr].q
  {
  }

  /** For any sequence of updates a pair ends up informed exactly if it is not among the missed ones. */
  lemma {:induction false} PairInformedExactly(calls: seq<NamedAddress>, f: string, a: string)
    ensures PairInformed(calls, f, a) <==> !Missed(calls, f, a)
  {
    if calls != [] {
      var front, na := calls[..|calls| - 1], calls[|calls| - 1];
      assert calls == front + [na];
      PairInformedExactly(front, f, a);
      MissedExtends(front, na, f, a);
      if PresentedSince(front, f, a) {
        WaitingMissesNothing(front, f, a);
      }
      if Overlooks(front, na, f, a) {
        OverlookedIsUninformed(front, na, f, a);
      } else {
        OthersInform(front, na, f, a);
      }
    }
  }

  /** If every raising verdict reaches all, nobody is missed. */
  lemma ReachingMissesNobody(calls: seq<NamedAddress>)
    requires EveryVerdictReachesAll(calls)
    ensures NobodyMissed(calls)
  {
    forall f, a
      ensures !Missed(calls, f, a)
    {
      PairIsInformed(calls, f, a);
      PairInformedExactly(calls, f, a);
    }
  }

  // ---------------------------------------------------------------- admissible histories

  /** Admissible verdicts reach everybody: there is no earlier one that could have released a name. */
  lemma AdmissibleReachesAll(calls: seq<NamedAddress>, na: NamedAddress)
    requires Admissible(calls + [na])
    ensures ReachesAll(calls, na)
  {
    AdmissibleExtends(calls, na);
    if RaisesVerdict(calls, na) {
      forall j: nat
        ensures QuietSince(calls, j, na.addr)
      {
        forall k | j <= k < |calls| && calls[k].addr == na.addr
          ensures !RaisesVerdict(calls[..k], calls[k])
        {
          assert !calls[k].qual.Terminal();
        }
      }
      forall f | f == na.name || (f, na.addr) in Pairs(calls)
        ensures PresentedSince(calls, f, na.addr)
      {
        var j :| 0 <= j < |calls| && (calls[j].name, calls[j].addr) == (f, na.addr);
      }
    }
  }

  lemma {:induction false} AdmissibleHistory(calls: seq<NamedAddress>)
    requires Admissible(calls)
    ensures EveryVerdictReachesAll(calls)
  {
    if calls != [] {
      var front, na := calls[..|calls| - 1], calls[|calls| - 1];
      assert calls == front + [na];
      AdmissibleExtends(front, na);
      AdmissibleHistory(front);
      AdmissibleReachesAll(front, na);
      HistoryExtends(front, na);
    }
  }

  lemma PairIsInformed(calls: seq<NamedAddress>, f: string, a: string)
    requires EveryVerdictReachesAll(calls)
    ensures LastAbout(Stream(calls), f, a) == Expected(calls, f, a)
  {
    AlwaysInformedExactly(calls);
    assert calls[..|calls|] == calls;
    assert Informed(calls);
    assert PairInformed(calls, f, a);
  }

  /** If verdicts are admissible, the last message about every presented pair carries the cached quality. */
  lemma EveryPairIsInformed(calls: seq<NamedAddress>, f: string, a: string)
    requires Admissible(calls)
    ensures LastAbout(Stream(calls), f, a) == Expected(calls, f, a)
  {
    AdmissibleHistory(calls);
    PairIsInformed(calls, f, a);
  }

  /** A second, different verdict about an address goes unnoticed by the names the first one released. */
  lemma SecondVerdictIsMissed(f: string, a: string)
    ensures var calls := [NA(f, a, Unverified), NA(f, a, Invalid), NA(f, a, Verified)];
            CacheAfter(calls)[a].q == Verified && LastAbout(Stream(calls), f, a) == Some(Invalid)
  {
    var first, second, third := NA(f, a, Unverified), NA(f, a, Invalid), NA(f, a, Verified);
    Unfold([], first);
    Unfold([first], second);
    Unfold([first, second], third);
    assert [] + [first] == [first];
    assert [first] + [second] == [first, second];
    assert [first, second] + [third] == [first, second, third];
    assert Stream([first, second, third]) == [first, second];
    assert [first, second][..1] == [first];
  }
}
