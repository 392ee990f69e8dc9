/** The table made from an uncancelled pipeline's news: what it holds, and that the cache is transparent. */
module PipelineTable {
  import opened Types
  import opened AddrCache
  import opened CacheHistory
  import opened CacheInformed
  import opened AddrMap
  import opened DocumentedMap
  import opened Pipeline
  import opened PipelineBase
  import opened PipelineSync
  import opened PipelineTheorems

  // ---------------------------------------------------------------- what the cache knows in the end

  /** An uncancelled run in which `Verify` has returned. */
  ghost predicate Ended(c: Config, acts: seq<Action>)
  {
    Run(c, Init(), acts) && !After(c, Init(), acts).cancelled && After(c, Init(), acts).inPc.Returned?
  }

  /** After the return the verdict on a cached address was presented to the cache. */
  lemma VerdictWasPresented(c: Config, acts: seq<Action>, a: string)
    requires Ended(c, acts) && a in After(c, Init(), acts).cache
    ensures exists na :: na in After(c, Init(), acts).calls && na.addr == a && na.qual == c.oracle(a)
  {
    var s := After(c, Init(), acts);
    Reached(c, acts);
    ReturnedSettles(c, s);
    var i :| 0 <= i < |Subjects(s)| && Subjects(s)[i].Addr() == a;
    assert s.jobs[i].stage.Finished?;
    var na := s.court.sent[s.jobs[i].stage.reportedAt.value].na;
    assert Named(na) in s.court.sent[..Handled(s)];
    assert na in s.calls;
  }

  /** The quality is the best of the ping's verdict on the address and of what the input says about it. */
  ghost predicate IsBest(c: Config, a: string, q: Quality)
  {
    && c.oracle(a).Rank() <= q.Rank()
    && (forall f, p :: NA(f, a, p) in c.input ==> p.Rank() <= q.Rank())
    && (q == c.oracle(a) || exists f :: NA(f, a, q) in c.input)
  }

  lemma ItemsWerePresented(c: Config, acts: seq<Action>, na: NamedAddress)
    requires Ended(c, acts) && na in c.input && !na.Bare()
    ensures na in After(c, Init(), acts).calls
  {
    Reached(c, acts);
    ReturnedSettles(c, After(c, Init(), acts));
  }

  lemma PresentedIsCached(c: Config, acts: seq<Action>, na: NamedAddress)
    requires Ended(c, acts) && na in After(c, Init(), acts).calls
    ensures var cache := After(c, Init(), acts).cache; na.addr in cache && na.qual.Rank() <= cache[na.addr].q.Rank()
  {
    var calls := After(c, Init(), acts).calls;
    Reached(c, acts);
    CachedQualityIsMaximum(calls);
    var k :| 0 <= k < |calls| && calls[k] == na;
  }

  lemma NothingBeatsTheCache(c: Config, acts: seq<Action>, a: string)
    requires Ended(c, acts) && a in After(c, Init(), acts).cache && a != ""
    ensures c.oracle(a).Rank() <= After(c, Init(), acts).cache[a].q.Rank()
    ensures forall f, p :: NA(f, a, p) in c.input ==> p.Rank() <= After(c, Init(), acts).cache[a].q.Rank()
  {
    VerdictWasPresented(c, acts, a);
    var na :| na in After(c, Init(), acts).calls && na.addr == a && na.qual == c.oracle(a);
    PresentedIsCached(c, acts, na);
    forall f, p | NA(f, a, p) in c.input
      ensures p.Rank() <= After(c, Init(), acts).cache[a].q.Rank()
    {
      ItemsWerePresented(c, acts, NA(f, a, p));
      PresentedIsCached(c, acts, NA(f, a, p));
    }
  }

  lemma CallsCameFrom(c: Config, acts: seq<Action>, na: NamedAddress)
    requires Ended(c, acts) && na in After(c, Init(), acts).calls
    ensures na in c.input || na.qual == Verifying || na.qual == c.oracle(na.addr)
  {
    var s := After(c, Init(), acts);
    Reached(c, acts);
    ReturnedSettles(c, s);
    if na !in c.input {
      assert Named(na) in s.court.sent;
      var j :| 0 <= j < |s.court.sent| && s.court.sent[j] == Named(na);
      CourtMessage(c, s, j);
    }
  }

  /** After the return the cache holds the best quality of each address, whatever the input. */
  lemma BestIsCached(c: Config, acts: seq<Action>, a: string)
    requires Ended(c, acts) && a in After(c, Init(), acts).cache && a != "" && c.oracle(a).Terminal()
    ensures IsBest(c, a, After(c, Init(), acts).cache[a].q)
  {
    var s := After(c, Init(), acts);
    Reached(c, acts);
    NothingBeatsTheCache(c, acts, a);
    CachedQualityIsMaximum(s.calls);
    var k :| 0 <= k < |s.calls| && s.calls[k].addr == a && s.calls[k].qual == s.cache[a].q;
    CallsCameFrom(c, acts, s.calls[k]);
    if s.calls[k] in c.input {
      assert NA(s.calls[k].name, a, s.cache[a].q) in c.input;
    }
  }

  // ---------------------------------------------------------------- what the news says most strongly

  /** What was said most strongly about a pair is what was said last. */
  lemma StrongestIsLast(calls: seq<NamedAddress>, f: string, a: string, q: Quality)
    ensures Strongest(Stream(calls), f, a, q) <==> LastAbout(Stream(calls), f, a) == Some(q)
  {
    var log := Stream(calls);
    LastAboutIsMessage(log, f, a);
    if LastAbout(log, f, a).Some? {
      StreamIsMonotone(calls, a);
      LastIsStrongest(log, f, a);
      StrongestIsOne(log, f, a, q, LastAbout(log, f, a).value);
    }
  }

  lemma {:induction false} LastIsStrongest(log: seq<NamedAddress>, f: string, a: string)
    requires Monotone(log, a) && LastAbout(log, f, a).Some?
    ensures forall p :: NA(f, a, p) in log ==> p.Rank() <= LastAbout(log, f, a).value.Rank()
  {
    var n := |log| - 1;
    if !(log[n].name == f && log[n].addr == a) {
      LastIsStrongest(log[..n], f, a);
      assert log == log[..n] + [log[n]];
    }
  }

  /** The stream says most strongly what the cache knows exactly about the presented pairs that were not missed. */
  lemma StrongestOfCalls(calls: seq<NamedAddress>, f: string, a: string, q: Quality)
    requires (f, a) in Pairs(calls) && a in CacheAfter(calls) && q == CacheAfter(calls)[a].q
    ensures Strongest(Stream(calls), f, a, q) <==> !Missed(calls, f, a)
  {
    PairInformedExactly(calls, f, a);
    StrongestIsLast(calls, f, a, q);
  }

  lemma StrongestIsPresented(calls: seq<NamedAddress>, f: string, a: string, q: Quality)
    requires Strongest(Stream(calls), f, a, q)
    ensures (f, a) in Pairs(calls)
  {
    StreamAboutPairs(calls);
    assert NA(f, a, q) in Stream(calls);
  }

  lemma StrongestAddressed(log: seq<NamedAddress>, f: string, a: string, q: Quality)
    requires a != ""
    ensures Strongest(log, f, a, q) <==> Strongest(Addressed(log), f, a, q)
  {
    forall p
      ensures NA(f, a, p) in log <==> NA(f, a, p) in Addressed(log)
    {
      AddressedMeans(log, NA(f, a, p));
    }
  }

  /**
   For any input and any interleaving: the strongest message about an input pair is the best quality of its
   address exactly if the pair was not missed by a raising verdict, and no other pair is mentioned.
   */
  lemma StrongestIsBest(c: Config, acts: seq<Action>, f: string, a: string, q: Quality)
    requires Ended(c, acts) && PingsDecide(c) && a != "" && IsBest(c, a, q)
    ensures Strongest(After(c, Init(), acts).news.sent, f, a, q) <==>
            (f, a) in AddressedPairs(c.input) && !Missed(After(c, Init(), acts).calls, f, a)
  {
    var s := After(c, Init(), acts);
    Reached(c, acts);
    ReturnedSettles(c, s);
    ProcessedIsPresented(c, s);
    StrongestAddressed(s.news.sent, f, a, q);
    if (f, a) in AddressedPairs(c.input) {
      InputIsCached(c, s, f, a);
      BestIsCached(c, acts, a);
      BestIsOne(c, a, q, s.cache[a].q);
      StrongestOfCalls(s.calls, f, a, q);
    } else if Strongest(Stream(s.calls), f, a, q) {
      StrongestIsPresented(s.calls, f, a, q);
    }
  }

  /** Only input pairs are mentioned. */
  lemma MentionedIsInput(c: Config, acts: seq<Action>, f: string, a: string, q: Quality)
    requires Ended(c, acts) && a != "" && NA(f, a, q) in After(c, Init(), acts).news.sent
    ensures (f, a) in AddressedPairs(c.input)
  {
    var s := After(c, Init(), acts);
    Reached(c, acts);
    ReturnedSettles(c, s);
    ProcessedIsPresented(c, s);
    AddressedMeans(s.news.sent, NA(f, a, q));
    StreamAboutPairs(s.calls);
    assert NA(f, a, q) in Stream(s.calls);
  }

  /** No pair with a name was missed. */
  ghost predicate NoNameMissed(calls: seq<NamedAddress>)
  {
    forall f, a :: f != "" ==> !Missed(calls, f, a)
  }

  /** That is so if inputs come with verdicts at most for new addresses, or if every raising verdict reached all. */
  lemma NoNameIsMissed(c: Config, acts: seq<Action>)
    requires Run(c, Init(), acts) && !After(c, Init(), acts).cancelled
    requires VerdictsFirst(c.input) || EveryVerdictReachesAll(After(c, Init(), acts).calls)
    ensures NoNameMissed(After(c, Init(), acts).calls)
  {
    if VerdictsFirst(c.input) {
      AlwaysReaching(c, acts);
    }
    ReachingMissesNobody(After(c, Init(), acts).calls);
  }

  lemma BestIsOne(c: Config, a: string, q: Quality, p: Quality)
    ensures IsBest(c, a, q) && IsBest(c, a, p) ==> q == p
  {
    if IsBest(c, a, q) && IsBest(c, a, p) {
      assert q.Rank() == p.Rank();
    }
  }

  /** The news mentions the names of the input and no others. */
  lemma NamesMentioned(c: Config, acts: seq<Action>, f: string)
    requires Ended(c, acts) && PingsDecide(c) && NoNameMissed(After(c, Init(), acts).calls) && f != ""
    ensures Mentions(After(c, Init(), acts).news.sent, f) <==> Mentions(c.input, f)
  {
    if k :| 0 <= k < |c.input| && c.input[k].name == f {
      InputIsMentioned(c, acts, k);
    }
    if k :| 0 <= k < |After(c, Init(), acts).news.sent| && After(c, Init(), acts).news.sent[k].name == f {
      NewsWasInput(c, acts, k);
    }
  }

  lemma InputIsMentioned(c: Config, acts: seq<Action>, k: nat)
    requires Ended(c, acts) && PingsDecide(c) && NoNameMissed(After(c, Init(), acts).calls)
    requires k < |c.input| && c.input[k].name != ""
    ensures Mentions(After(c, Init(), acts).news.sent, c.input[k].name)
  {
    var s, na := After(c, Init(), acts), c.input[k];
    if na.Bare() {
      Reached(c, acts);
      ReturnedSettles(c, s);
      AddressedMeans(c.input, na);
      AddressedMeans(s.news.sent, na);
      assert na in s.news.sent;
    } else {
      assert (na.name, na.addr) in AddressedPairs(c.input);
      var q := BestExists(c, na.addr);
      StrongestIsBest(c, acts, na.name, na.addr, q);
      assert NA(na.name, na.addr, q) in s.news.sent;
    }
  }

  lemma NewsWasInput(c: Config, acts: seq<Action>, k: nat)
    requires Ended(c, acts) && k < |After(c, Init(), acts).news.sent|
    ensures Mentions(c.input, After(c, Init(), acts).news.sent[k].name)
  {
    var s := After(c, Init(), acts);
    var na := s.news.sent[k];
    Reached(c, acts);
    ReturnedSettles(c, s);
    if na.Bare() {
      AddressedMeans(s.news.sent, na);
      AddressedMeans(c.input, na);
      assert na in c.input;
    } else {
      MentionedIsInput(c, acts, na.name, na.addr, na.qual);
    }
  }

  /** The stream mentions the input's names and says most strongly the best quality of each input pair's address. */
  ghost predicate SaysBest(c: Config, log: seq<NamedAddress>)
  {
    && (forall f :: f != "" ==> (Mentions(log, f) <==> Mentions(c.input, f)))
    && (forall f, a, q :: f != "" && a != "" ==>
          (Strongest(log, f, a, q) <==> (f, a) in AddressedPairs(c.input) && IsBest(c, a, q)))
  }

  lemma NewsSaysBest(c: Config, acts: seq<Action>)
    requires Ended(c, acts) && PingsDecide(c) && NoNameMissed(After(c, Init(), acts).calls)
    ensures SaysBest(c, After(c, Init(), acts).news.sent)
  {
    var log := After(c, Init(), acts).news.sent;
    forall f | f != ""
      ensures Mentions(log, f) <==> Mentions(c.input, f)
    {
      NamesMentioned(c, acts, f);
    }
    forall f, a, q | f != "" && a != ""
      ensures Strongest(log, f, a, q) <==> (f, a) in AddressedPairs(c.input) && IsBest(c, a, q)
    {
      var best := BestExists(c, a);
      StrongestIsBest(c, acts, f, a, best);
      BestIsOne(c, a, q, best);
      if Strongest(log, f, a, q) {
        MentionedIsInput(c, acts, f, a, q);
        StrongestIsOne(log, f, a, q, best);
      }
    }
  }

  lemma StrongestIsOne(log: seq<NamedAddress>, f: string, a: string, q: Quality, p: Quality)
    ensures Strongest(log, f, a, q) && Strongest(log, f, a, p) ==> q == p
  {
    RankIsInjective(q, p);
  }

  // ---------------------------------------------------------------- the pipeline without a cache

  /** A pipeline without a cache: every addressed item is announced and pinged on its own. */
  function Uncached(c: Config, items: seq<NamedAddress>): seq<NamedAddress>
  {
    if items == [] then []
    else
      var last := items[|items| - 1];
      Uncached(c, items[..|items| - 1]) +
      if last.Bare() then [last] else [last, last.WithQuality(Verifying), last.WithQuality(c.oracle(last.addr))]
  }

  ghost predicate FromItem(c: Config, na: NamedAddress, item: NamedAddress)
  {
    na == item ||
    (!item.Bare() && (na == item.WithQuality(Verifying) || na == item.WithQuality(c.oracle(item.addr))))
  }

  lemma {:induction false} UncachedMessages(c: Config, items: seq<NamedAddress>, na: NamedAddress)
    ensures na in Uncached(c, items) <==> exists k :: 0 <= k < |items| && FromItem(c, na, items[k])
  {
    if items != [] {
      var n := |items| - 1;
      UncachedMessages(c, items[..n], na);
      if k :| 0 <= k < |items| && FromItem(c, na, items[k]) {
        assert k < n ==> items[..n][k] == items[k];
      }
    }
  }

  /** The best of the ping's verdict on the address and of what the input says about it for this name. */
  ghost predicate IsOwnBest(c: Config, f: string, a: string, q: Quality)
  {
    && c.oracle(a).Rank() <= q.Rank()
    && (forall p :: NA(f, a, p) in c.input ==> p.Rank() <= q.Rank())
    && (q == c.oracle(a) || NA(f, a, q) in c.input)
  }

  lemma UncachedMentionsPair(c: Config, f: string, a: string, p: Quality)
    requires a != ""
    ensures NA(f, a, p) in Uncached(c, c.input) <==>
            NA(f, a, p) in c.input || ((f, a) in AddressedPairs(c.input) && (p == Verifying || p == c.oracle(a)))
  {
    UncachedMessages(c, c.input, NA(f, a, p));
    if NA(f, a, p) in c.input {
      var k :| 0 <= k < |c.input| && c.input[k] == NA(f, a, p);
      assert FromItem(c, NA(f, a, p), c.input[k]);
    }
    if (f, a) in AddressedPairs(c.input) && (p == Verifying || p == c.oracle(a)) {
      var i :| 0 <= i < |c.input| && !c.input[i].Bare() && (f, a) == (c.input[i].name, c.input[i].addr);
      assert FromItem(c, NA(f, a, p), c.input[i]);
    }
  }

  lemma InputIsPair(items: seq<NamedAddress>, f: string, a: string, p: Quality)
    requires NA(f, a, p) in items && a != ""
    ensures (f, a) in AddressedPairs(items)
  {
    var k :| 0 <= k < |items| && items[k] == NA(f, a, p);
    assert (items[k].name, items[k].addr) in AddressedPairs(items);
  }

  lemma UncachedStrongest(c: Config, f: string, a: string, q: Quality)
    requires PingsDecide(c) && a != ""
    ensures Strongest(Uncached(c, c.input), f, a, q) <==> (f, a) in AddressedPairs(c.input) && IsOwnBest(c, f, a, q)
  {
    var log := Uncached(c, c.input);
    forall p
      ensures NA(f, a, p) in log <==>
              NA(f, a, p) in c.input || ((f, a) in AddressedPairs(c.input) && (p == Verifying || p == c.oracle(a)))
      ensures NA(f, a, p) in log ==> (f, a) in AddressedPairs(c.input)
    {
      UncachedMentionsPair(c, f, a, p);
      if NA(f, a, p) in c.input {
        InputIsPair(c.input, f, a, p);
      }
    }
  }

  lemma UncachedMentions(c: Config, f: string)
    ensures Mentions(Uncached(c, c.input), f) <==> Mentions(c.input, f)
  {
    var log := Uncached(c, c.input);
    if k :| 0 <= k < |log| && log[k].name == f {
      UncachedMessages(c, c.input, log[k]);
    }
    if k :| 0 <= k < |c.input| && c.input[k].name == f {
      UncachedMessages(c, c.input, c.input[k]);
      assert FromItem(c, c.input[k], c.input[k]);
      assert c.input[k] in log;
    }
  }

  // ---------------------------------------------------------------- refinement

  /** What the input says about an address is no better than its ping's verdict, or is said for every name of it. */
  ghost predicate NoForeignVerdicts(c: Config)
  {
    forall f, g, a, p :: f != "" && a != "" && (f, a) in AddressedPairs(c.input)
                         && NA(g, a, p) in c.input && p.Rank() > c.oracle(a).Rank() ==>
      SaidFor(c.input, f, a, p)
  }

  /** The input says at least this about the pair. */
  ghost predicate SaidFor(items: seq<NamedAddress>, f: string, a: string, p: Quality)
  {
    exists r :: NA(f, a, r) in items && r.Rank() >= p.Rank()
  }

  /** The best of an address is the best of each of its pairs. */
  lemma NoForeignMeans(c: Config)
    ensures NoForeignVerdicts(c) <==>
            forall f, a, q :: f != "" && a != "" && (f, a) in AddressedPairs(c.input) && IsBest(c, a, q) ==>
                IsOwnBest(c, f, a, q)
  {
    forall f, a, q | NoForeignVerdicts(c) && f != "" && a != "" && (f, a) in AddressedPairs(c.input) && IsBest(c, a, q)
      ensures IsOwnBest(c, f, a, q)
    {
      if q != c.oracle(a) {
        var g :| NA(g, a, q) in c.input;
        RankIsInjective(q, c.oracle(a));
        assert SaidFor(c.input, f, a, q);
        var r :| NA(f, a, r) in c.input && r.Rank() >= q.Rank();
        RankIsInjective(r, q);
      }
    }
    if forall f, a, q :: f != "" && a != "" && (f, a) in AddressedPairs(c.input) && IsBest(c, a, q) ==>
        IsOwnBest(c, f, a, q) {
      forall f, g, a, p | f != "" && a != "" && (f, a) in AddressedPairs(c.input) && NA(g, a, p) in c.input
                          && p.Rank() > c.oracle(a).Rank()
        ensures SaidFor(c.input, f, a, p)
      {
        var q := BestExists(c, a);
        assert IsOwnBest(c, f, a, q);
        assert NA(f, a, q) in c.input;
      }
    }
  }

  lemma RankIsInjective(p: Quality, q: Quality)
    ensures p.Rank() == q.Rank() ==> p == q
  {
  }

  ghost predicate OneOf(c: Config, a: string, q: Quality)
  {
    q == c.oracle(a) || exists f :: NA(f, a, q) in c.input
  }

  lemma BestExists(c: Config, a: string) returns (q: Quality)
    ensures IsBest(c, a, q)
  {
    q := if OneOf(c, a, Verified) then Verified
         else if OneOf(c, a, Invalid) then Invalid
         else if OneOf(c, a, Verifying) then Verifying
         else Unverified;
    assert OneOf(c, a, c.oracle(a));
    forall f, p | NA(f, a, p) in c.input
      ensures p.Rank() <= q.Rank()
    {
      assert OneOf(c, a, p);
    }
  }

  /**
   For any input and any complete uncancelled run in which no name was missed - all runs, if verdicts come only
   with new addresses: the table made from the news is the table made from pinging every (name, address) pair
   on its own, in any order, exactly if no name shares an address whose verdict on the input is better than its
   ping's and not its own.
   */
  lemma CacheIsTransparentExactly(c: Config, acts: seq<Action>, uncached: seq<NamedAddress>)
    requires Ended(c, acts) && PingsDecide(c)
    requires VerdictsFirst(c.input) || NoNameMissed(After(c, Init(), acts).calls)
    requires multiset(uncached) == multiset(Uncached(c, c.input))
    ensures View(Tracked(After(c, Init(), acts).news.sent)) == View(Tracked(uncached)) <==> NoForeignVerdicts(c)
  {
    if VerdictsFirst(c.input) {
      NoNameIsMissed(c, acts);
    }
    NewsSaysBest(c, acts);
    NoForeignMeans(c);
    PermutedStreamsAgree(uncached, Uncached(c, c.input));
    if NoForeignVerdicts(c) {
      TransparentWithout(c, After(c, Init(), acts).news.sent);
    } else {
      var f, a, q :| f != "" && a != "" && (f, a) in AddressedPairs(c.input) && IsBest(c, a, q)
          && !IsOwnBest(c, f, a, q);
      DiffersWith(c, After(c, Init(), acts).news.sent, f, a, q);
    }
  }

  /**
   For any input without such foreign verdicts, and any run, the two tables are equal exactly if no name was missed.
   */
  lemma TransparentExactlyUnmissed(c: Config, acts: seq<Action>, uncached: seq<NamedAddress>)
    requires Ended(c, acts) && PingsDecide(c) && NoForeignVerdicts(c)
    requires multiset(uncached) == multiset(Uncached(c, c.input))
    ensures View(Tracked(After(c, Init(), acts).news.sent)) == View(Tracked(uncached)) <==>
            NoNameMissed(After(c, Init(), acts).calls)
  {
    if NoNameMissed(After(c, Init(), acts).calls) {
      CacheIsTransparentExactly(c, acts, uncached);
    } else {
      var f, a :| f != "" && Missed(After(c, Init(), acts).calls, f, a);
      PermutedStreamsAgree(uncached, Uncached(c, c.input));
      MissedDiffers(c, acts, f, a);
    }
  }

  lemma MissedIsInput(c: Config, acts: seq<Action>, f: string, a: string)
    requires Ended(c, acts) && Missed(After(c, Init(), acts).calls, f, a)
    ensures a != "" && (f, a) in AddressedPairs(c.input)
  {
    var s := After(c, Init(), acts);
    Reached(c, acts);
    ReturnedSettles(c, s);
    ProcessedIsPresented(c, s);
    var r :| MissedAt(s.calls, r, f, a);
    MissedIsPresented(s.calls, r, f, a);
  }

  lemma MissedIsPresented(calls: seq<NamedAddress>, r: nat, f: string, a: string)
    requires MissedAt(calls, r, f, a)
    ensures (f, a) in Pairs(calls)
  {
    if f == calls[r].name {
      assert (calls[r].name, calls[r].addr) == (f, a);
    } else {
      var k :| 0 <= k < |calls[..r]| && (calls[..r][k].name, calls[..r][k].addr) == (f, a);
      assert (calls[k].name, calls[k].addr) == (f, a);
    }
  }

  lemma MissedDiffers(c: Config, acts: seq<Action>, f: string, a: string)
    requires Ended(c, acts) && PingsDecide(c) && NoForeignVerdicts(c)
    requires f != "" && Missed(After(c, Init(), acts).calls, f, a)
    ensures View(Tracked(After(c, Init(), acts).news.sent)) != View(Tracked(Uncached(c, c.input)))
  {
    var log := After(c, Init(), acts).news.sent;
    var t, u := Tracked(log), Tracked(Uncached(c, c.input));
    MissedIsInput(c, acts, f, a);
    var q := BestExists(c, a);
    StrongestIsBest(c, acts, f, a, q);
    NoForeignMeans(c);
    UncachedStrongest(c, f, a, q);
    TableIsStrongest(log, f, QA(a, q));
    TableIsStrongest(Uncached(c, c.input), f, QA(a, q));
    assert QA(a, q) in View(u)[f];
    if f in t {
      assert QA(a, q) !in View(t)[f];
    }
  }

  lemma TransparentWithout(c: Config, log: seq<NamedAddress>)
    requires SaysBest(c, log) && PingsDecide(c)
    requires forall f, a, q :: f != "" && a != "" && (f, a) in AddressedPairs(c.input) && IsBest(c, a, q) ==>
             IsOwnBest(c, f, a, q)
    ensures View(Tracked(log)) == View(Tracked(Uncached(c, c.input)))
  {
    forall f | f != ""
      ensures Mentions(log, f) <==> Mentions(Uncached(c, c.input), f)
    {
      UncachedMentions(c, f);
    }
    forall f, a, q | f != "" && a != ""
      ensures Strongest(log, f, a, q) <==> Strongest(Uncached(c, c.input), f, a, q)
    {
      UncachedStrongest(c, f, a, q);
      var best := BestExists(c, a);
      BestIsOne(c, a, q, best);
      OwnBestIsOne(c, f, a, q, best);
    }
    SameStrongestSameView(log, Uncached(c, c.input));
  }

  lemma OwnBestIsOne(c: Config, f: string, a: string, q: Quality, p: Quality)
    ensures IsOwnBest(c, f, a, q) && IsOwnBest(c, f, a, p) ==> q == p
  {
    RankIsInjective(q, p);
  }

  lemma DiffersWith(c: Config, log: seq<NamedAddress>, f: string, a: string, q: Quality)
    requires SaysBest(c, log) && PingsDecide(c) && f != "" && a != "" && (f, a) in AddressedPairs(c.input)
    requires IsBest(c, a, q) && !IsOwnBest(c, f, a, q)
    ensures View(Tracked(log)) != View(Tracked(Uncached(c, c.input)))
  {
    var t, u := Tracked(log), Tracked(Uncached(c, c.input));
    UncachedStrongest(c, f, a, q);
    TableIsStrongest(log, f, QA(a, q));
    TableIsStrongest(Uncached(c, c.input), f, QA(a, q));
    assert QA(a, q) in View(t)[f];
    if f in u {
      assert QA(a, q) !in View(u)[f];
    }
  }

  lemma ValidInput(c: Config)
    requires ValidConfig(c)
    ensures PingsDecide(c) && VerdictsFirst(c.input) && NoForeignVerdicts(c)
    ensures forall a, q :: a != "" ==> (IsBest(c, a, q) <==> q == c.oracle(a))
  {
    forall f, a, p | NA(f, a, p) in c.input && a != ""
      ensures p.Rank() < c.oracle(a).Rank()
    {
      assert !p.Terminal() && c.oracle(a).Terminal();
    }
  }

  /**
   The cache changes nothing: whatever the interleaving, and whatever the pings decide, the table made from
   the complete news is the table made from pinging every (name, address) pair on its own, in any order.
   */
  lemma CacheIsTransparent(c: Config, acts: seq<Action>, uncached: seq<NamedAddress>)
    requires Ended(c, acts) && ValidConfig(c)
    requires multiset(uncached) == multiset(Uncached(c, c.input))
    ensures View(Tracked(After(c, Init(), acts).news.sent)) == View(Tracked(uncached))
  {
    ValidInput(c);
    CacheIsTransparentExactly(c, acts, uncached);
  }

  /** The final table spelt out: each named input name with exactly its addresses, each with its best quality. */
  lemma BestTable(c: Config, acts: seq<Action>, f: string, e: QualifiedAddressValue)
    requires Ended(c, acts) && PingsDecide(c) && f != ""
    requires VerdictsFirst(c.input) || NoNameMissed(After(c, Init(), acts).calls)
    ensures var t := View(Tracked(After(c, Init(), acts).news.sent));
            && (f in t <==> Mentions(c.input, f))
            && (f in t && e in t[f] <==> (f, e.addr) in AddressedPairs(c.input) && IsBest(c, e.addr, e.qual))
  {
    var log := After(c, Init(), acts).news.sent;
    if VerdictsFirst(c.input) {
      NoNameIsMissed(c, acts);
    }
    NewsSaysBest(c, acts);
    TableOrder(log, f);
    TableIsStrongest(log, f, e);
    assert Mentions(log, f) <==> f in Tracked(log);
  }

  /**
   For any input and any run: a pair stands in the table with the best quality of its address exactly if it was not
   missed.
   */
  lemma BestExactlyUnmissed(c: Config, acts: seq<Action>, f: string, a: string, q: Quality)
    requires Ended(c, acts) && PingsDecide(c) && f != "" && a != "" && IsBest(c, a, q)
    ensures var t := Tracked(After(c, Init(), acts).news.sent);
            f in t && QA(a, q) in t[f] <==>
            (f, a) in AddressedPairs(c.input) && !Missed(After(c, Init(), acts).calls, f, a)
  {
    StrongestIsBest(c, acts, f, a, q);
    TableIsStrongest(After(c, Init(), acts).news.sent, f, QA(a, q));
  }

  /** Without verdicts on the input, the best quality is the ping's verdict. */
  lemma FinalTable(c: Config, acts: seq<Action>, f: string, e: QualifiedAddressValue)
    requires Ended(c, acts) && ValidConfig(c) && f != ""
    ensures var t := View(Tracked(After(c, Init(), acts).news.sent));
            && (f in t <==> Mentions(c.input, f))
            && (f in t && e in t[f] <==> (f, e.addr) in AddressedPairs(c.input) && e.qual == c.oracle(e.addr))
  {
    ValidInput(c);
    BestTable(c, acts, f, e);
  }

  // ---------------------------------------------------------------- the documented table

  lemma VerdictsDoNotSkip(calls: seq<NamedAddress>, na: NamedAddress)
    requires Admissible(calls + [na]) && Gradual(calls + [na])
    ensures na.addr in CacheAfter(calls) ==>
            !Skips(CacheAfter(calls)[na.addr].q, Updated(CacheAfter(calls), na).cache[na.addr].q)
  {
    AdmissibleExtends(calls, na);
    GradualExtends(calls, na);
    TerminalMeansDecided(calls, na.addr);
    CachedQualityIsMaximum(calls);
  }

  lemma {:induction false} StreamSkipsNothing(calls: seq<NamedAddress>)
    requires Admissible(calls) && Gradual(calls)
    ensures NothingSkipped(Stream(calls))
  {
    if calls != [] {
      var front, na := calls[..|calls| - 1], calls[|calls| - 1];
      assert calls == front + [na];
      AdmissibleExtends(front, na);
      GradualExtends(front, na);
      StreamSkipsNothing(front);
      Unfold(front, na);
      UpdateSkipsNothing(front, na, |Updated(CacheAfter(front), na).out|);
      var out := Updated(CacheAfter(front), na).out;
      assert out[..|out|] == out;
    }
  }

  /** The first n messages of an update, one after the other. */
  lemma {:induction false} UpdateSkipsNothing(calls: seq<NamedAddress>, na: NamedAddress, n: nat)
    requires Admissible(calls + [na]) && Gradual(calls + [na]) && NothingSkipped(Stream(calls))
    requires n <= |Updated(CacheAfter(calls), na).out|
    ensures NothingSkipped(Stream(calls) + Updated(CacheAfter(calls), na).out[..n])
  {
    var out := Updated(CacheAfter(calls), na).out;
    if n == 0 {
      assert Stream(calls) + out[..0] == Stream(calls);
    } else {
      UpdateSkipsNothing(calls, na, n - 1);
      var log, m := Stream(calls) + out[..n - 1], out[n - 1];
      assert Stream(calls) + out[..n] == log + [m];
      NextDoesNotSkip(calls, na, n - 1);
      SkipsExtend(log, m);
    }
  }

  lemma NextDoesNotSkip(calls: seq<NamedAddress>, na: NamedAddress, n: nat)
    requires Admissible(calls + [na]) && Gradual(calls + [na])
    requires n < |Updated(CacheAfter(calls), na).out|
    ensures var out := Updated(CacheAfter(calls), na).out; Unskipped(Stream(calls) + out[..n], out[n])
  {
    var m := Updated(CacheAfter(calls), na).out[n];
    MessagesCarryCachedQuality(CacheAfter(calls), na);
    forall p | Strongest(Stream(calls) + Updated(CacheAfter(calls), na).out[..n], m.name, m.addr, p)
      ensures !Skips(p, m.qual)
    {
      StrongestSoFar(calls, na, n, m.name, p);
    }
  }

  /**
   Names told by one update are distinct, so the strongest word on the next one's pair is the quality cached before.
   */
  lemma StrongestSoFar(calls: seq<NamedAddress>, na: NamedAddress, n: nat, f: string, p: Quality)
    requires Admissible(calls + [na]) && Gradual(calls + [na])
    requires n < |Updated(CacheAfter(calls), na).out| && f == Updated(CacheAfter(calls), na).out[n].name
    requires Strongest(Stream(calls) + Updated(CacheAfter(calls), na).out[..n], f, na.addr, p)
    ensures !Skips(p, Updated(CacheAfter(calls), na).cache[na.addr].q)
  {
    var out, log := Updated(CacheAfter(calls), na).out, Stream(calls);
    OneMessagePerName(calls, na);
    forall q
      ensures NA(f, na.addr, q) in log + out[..n] <==> NA(f, na.addr, q) in log
    {
      assert NA(f, na.addr, q) !in out[..n];
    }
    assert Strongest(log, f, na.addr, p);
    AdmissibleExtends(calls, na);
    EveryPairIsInformed(calls, f, na.addr);
    StrongestIsLast(calls, f, na.addr, p);
    VerdictsDoNotSkip(calls, na);
  }

  lemma {:induction false} AddressedSkipsNothing(log: seq<NamedAddress>)
    requires NothingSkipped(Addressed(log))
    ensures NothingSkipped(log)
  {
    if log != [] {
      var front, last := log[..|log| - 1], log[|log| - 1];
      assert log == front + [last];
      OneMessageMore(front, last);
      if last.Bare() {
        assert Addressed(log) == Addressed(front);
      } else {
        SkipsExtend(Addressed(front), last);
        forall p
          ensures Strongest(front, last.name, last.addr, p) <==> Strongest(Addressed(front), last.name, last.addr, p)
        {
          StrongestAddressed(front, last.name, last.addr, p);
        }
      }
      AddressedSkipsNothing(front);
      SkipsExtend(front, last);
    }
  }

  lemma {:induction false} PrefixSkipsNothing(log: seq<NamedAddress>, more: seq<NamedAddress>)
    requires NothingSkipped(log + more)
    ensures NothingSkipped(log)
  {
    if more == [] {
      assert log + more == log;
    } else {
      var n := |more| - 1;
      assert log + more == (log + more[..n]) + [more[n]];
      SkipsExtend(log + more[..n], more[n]);
      PrefixSkipsNothing(log, more[..n]);
    }
  }

  /**
   In every state of an uncancelled run: no pair goes from Unverified to a verdict without a Verifying, or from
   one verdict to the other, so that the table of the news is at all times the one the documented rule makes.
   */
  lemma NewsMakesDocumentedTable(c: Config, acts: seq<Action>)
    requires ValidConfig(c) && Run(c, Init(), acts) && !After(c, Init(), acts).cancelled
    ensures NothingSkipped(After(c, Init(), acts).news.sent) && AlwaysAsDocumented(After(c, Init(), acts).news.sent)
  {
    var s := After(c, Init(), acts);
    Reached(c, acts);
    ReachedOrderly(c, acts);
    StreamSkipsNothing(s.calls);
    PrefixSkipsNothing(Addressed(s.news.sent), Pending(s));
    AddressedSkipsNothing(s.news.sent);
    DocumentedExactlyWithoutSkips(s.news.sent);
  }
}
