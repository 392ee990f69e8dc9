/**
 What the cache does over whole sequences of updates. Updates hold the cache's mutex from start to end,
 so a sequence of updates in lock order is all that any number of callers can make of it.
 */
module CacheHistory {
  import opened Types
  import opened AddrCache

  /** The cache after the given updates. */
  function CacheAfter(calls: seq<NamedAddress>): Cache
  {
    if calls == [] then map[]
    else Updated(CacheAfter(calls[..|calls| - 1]), calls[|calls| - 1]).cache
  }

  /** What the last of the given updates does. */
  function LastOutcome(calls: seq<NamedAddress>): Outcome
    requires calls != []
  {
    Updated(CacheAfter(calls[..|calls| - 1]), calls[|calls| - 1])
  }

  /** All messages the given updates send while the context is not done. */
  function Stream(calls: seq<NamedAddress>): seq<NamedAddress>
  {
    if calls == [] then [] else Stream(calls[..|calls| - 1]) + LastOutcome(calls).out
  }

  /** The messages that get through when update i sends only its first `kept[i]` messages. */
  function Delivered(calls: seq<NamedAddress>, kept: seq<nat>): seq<NamedAddress>
    requires |kept| == |calls|
  {
    if calls == [] then []
    else
      var n := |calls| - 1;
      var out := LastOutcome(calls).out;
      Delivered(calls[..n], kept[..n]) + if kept[n] < |out| then out[..kept[n]] else out
  }

  /** The (name, address) pairs presented so far. */
  function Pairs(calls: seq<NamedAddress>): set<(string, string)>
  {
    set k | 0 <= k < |calls| :: (calls[k].name, calls[k].addr)
  }

  ghost predicate Decided(calls: seq<NamedAddress>, addr: string)
  {
    exists k :: 0 <= k < |calls| && calls[k].addr == addr && calls[k].qual.Terminal()
  }

  /** Every verdict is the only one about its address and names a pair presented before. */
  ghost predicate Admissible(calls: seq<NamedAddress>)
  {
    forall k :: 0 <= k < |calls| && calls[k].qual.Terminal() ==>
      (calls[k].name, calls[k].addr) in Pairs(calls[..k]) && !Decided(calls[..k], calls[k].addr)
  }

  /** The address was presented as being verified. */
  ghost predicate SeenVerifying(calls: seq<NamedAddress>, addr: string)
  {
    exists k :: 0 <= k < |calls| && calls[k].addr == addr && calls[k].qual == Verifying
  }

  /** No verdict comes before its address was presented as being verified. */
  ghost predicate Gradual(calls: seq<NamedAddress>)
  {
    forall k :: 0 <= k < |calls| && calls[k].qual.Terminal() ==> SeenVerifying(calls[..k], calls[k].addr)
  }

  // ---------------------------------------------------------------- one more update

  lemma OnePairMore(calls: seq<NamedAddress>, na: NamedAddress)
    ensures Pairs(calls + [na]) == Pairs(calls) + {(na.name, na.addr)}
  {
    var more := calls + [na];
    forall p | p in Pairs(calls) + {(na.name, na.addr)}
      ensures p in Pairs(more)
    {
      if p in Pairs(calls) {
        var k :| 0 <= k < |calls| && p == (calls[k].name, calls[k].addr);
        assert more[k] == calls[k];
      } else {
        assert more[|calls|] == na;
      }
    }
  }

  lemma Unfold(calls: seq<NamedAddress>, na: NamedAddress)
    ensures CacheAfter(calls + [na]) == Updated(CacheAfter(calls), na).cache
    ensures Stream(calls + [na]) == Stream(calls) + Updated(CacheAfter(calls), na).out
    ensures Pairs(calls + [na]) == Pairs(calls) + {(na.name, na.addr)}
    ensures forall a :: Decided(calls + [na], a) <==> Decided(calls, a) || (na.addr == a && na.qual.Terminal())
  {
    var more := calls + [na];
    assert more[..|calls|] == calls;
    OnePairMore(calls, na);
    forall a
      ensures Decided(more, a) <==> Decided(calls, a) || (na.addr == a && na.qual.Terminal())
    {
      if Decided(calls, a) {
        var k :| 0 <= k < |calls| && calls[k].addr == a && calls[k].qual.Terminal();
        assert more[k] == calls[k];
      }
      if na.addr == a && na.qual.Terminal() {
        assert more[|calls|] == na;
      }
    }
  }

  lemma AdmissibleExtends(calls: seq<NamedAddress>, na: NamedAddress)
    ensures Admissible(calls + [na]) <==>
            Admissible(calls) && (na.qual.Terminal() ==> (na.name, na.addr) in Pairs(calls) && !Decided(calls, na.addr))
  {
    var more := calls + [na];
    assert more[..|calls|] == calls;
    forall k | 0 <= k < |calls|
      ensures more[..k] == calls[..k] && more[k] == calls[k]
    {
    }
    assert more[|calls|] == na;
  }

  lemma GradualExtends(calls: seq<NamedAddress>, na: NamedAddress)
    ensures Gradual(calls + [na]) <==> Gradual(calls) && (na.qual.Terminal() ==> SeenVerifying(calls, na.addr))
  {
    var more := calls + [na];
    assert more[..|calls|] == calls;
    forall k | 0 <= k < |calls|
      ensures more[..k] == calls[..k] && more[k] == calls[k]
    {
    }
    assert more[|calls|] == na;
  }

  // ---------------------------------------------------------------- the cached quality

  /** The cache knows exactly the presented addresses, each with the maximum quality ever presented for it. */
  lemma {:induction false} CachedQualityIsMaximum(calls: seq<NamedAddress>)
    ensures forall k :: 0 <= k < |calls| ==>
              calls[k].addr in CacheAfter(calls) && calls[k].qual.Rank() <= CacheAfter(calls)[calls[k].addr].q.Rank()
    ensures forall a :: a in CacheAfter(calls) ==>
              exists k :: 0 <= k < |calls| && calls[k].addr == a && calls[k].qual == CacheAfter(calls)[a].q
  {
    if calls != [] {
      var front, na := calls[..|calls| - 1], calls[|calls| - 1];
      CachedQualityIsMaximum(front);
      var before, after := CacheAfter(front), CacheAfter(calls);
      forall a | a in after
        ensures exists k :: 0 <= k < |calls| && calls[k].addr == a && calls[k].qual == after[a].q
      {
        if a in before && after[a].q == before[a].q {
          var k :| 0 <= k < |front| && front[k].addr == a && front[k].qual == before[a].q;
          assert calls[k] == front[k];
        } else {
          assert calls[|calls| - 1] == na && na.addr == a;
        }
      }
      forall k | 0 <= k < |calls|
        ensures calls[k].addr in after && calls[k].qual.Rank() <= after[calls[k].addr].q.Rank()
      {
        if k < |front| {
          assert calls[k] == front[k];
        }
      }
    }
  }

  lemma TerminalMeansDecided(calls: seq<NamedAddress>, a: string)
    ensures (exists k :: 0 <= k < |calls| && calls[k].addr == a) <==> a in CacheAfter(calls)
    ensures a in CacheAfter(calls) ==> (CacheAfter(calls)[a].q.Terminal() <==> Decided(calls, a))
    ensures Decided(calls, a) ==> a in CacheAfter(calls)
  {
    CachedQualityIsMaximum(calls);
  }

  /** Every message of an update carries the address presented and the quality cached once the update holds. */
  lemma MessagesCarryCachedQuality(c: Cache, na: NamedAddress)
    ensures na.addr in Updated(c, na).cache
    ensures forall i :: 0 <= i < |Updated(c, na).out| ==>
              Updated(c, na).out[i].addr == na.addr && Updated(c, na).out[i].qual == Updated(c, na).cache[na.addr].q
  {
  }

  lemma QualityNeverFalls(c: Cache, na: NamedAddress, a: string)
    requires a in c
    ensures a in Updated(c, na).cache && c[a].q.Rank() <= Updated(c, na).cache[a].q.Rank()
  {
  }

  /** The qualities in the messages about an address never decrease. */
  ghost predicate Monotone(log: seq<NamedAddress>, a: string)
  {
    forall i, j :: 0 <= i < j < |log| && log[i].addr == a && log[j].addr == a ==>
        log[i].qual.Rank() <= log[j].qual.Rank()
  }

  /** No message about the address claims more than the cache knows. */
  ghost predicate Covered(log: seq<NamedAddress>, c: Cache, a: string)
  {
    forall i :: 0 <= i < |log| && log[i].addr == a ==> a in c && log[i].qual.Rank() <= c[a].q.Rank()
  }

  /** The messages about the address carry exactly what the cache knows. */
  ghost predicate Current(out: seq<NamedAddress>, c: Cache, a: string)
  {
    forall i :: 0 <= i < |out| && out[i].addr == a ==> a in c && out[i].qual == c[a].q
  }

  lemma CoveredAppend(log: seq<NamedAddress>, out: seq<NamedAddress>, c: Cache, a: string)
    requires Monotone(log, a) && Covered(log, c, a) && Current(out, c, a)
    ensures Monotone(log + out, a) && Covered(log + out, c, a)
  {
  }

  lemma UpdateCovers(log: seq<NamedAddress>, c: Cache, na: NamedAddress, a: string)
    requires Covered(log, c, a)
    ensures Covered(log, Updated(c, na).cache, a) && Current(Updated(c, na).out, Updated(c, na).cache, a)
  {
    MessagesCarryCachedQuality(c, na);
    if a in c {
      QualityNeverFalls(c, na, a);
    }
  }

  /**
   For any sequence of updates and any messages lost to a done context: no message claims more than the
   cache knows, and the qualities emitted about an address never decrease.
   */
  lemma {:induction false} DeliveredIsMonotone(calls: seq<NamedAddress>, kept: seq<nat>, a: string)
    requires |kept| == |calls|
    ensures Monotone(Delivered(calls, kept), a) && Covered(Delivered(calls, kept), CacheAfter(calls), a)
  {
    if calls != [] {
      var n := |calls| - 1;
      var front, before := Delivered(calls[..n], kept[..n]), CacheAfter(calls[..n]);
      DeliveredIsMonotone(calls[..n], kept[..n], a);
      UpdateCovers(front, before, calls[n], a);
      var out := Updated(before, calls[n]).out;
      CoveredAppend(front, if kept[n] < |out| then out[..kept[n]] else out, CacheAfter(calls), a);
    }
  }

  /** No update loses a message. */
  ghost predicate NothingLost(calls: seq<NamedAddress>, kept: seq<nat>)
    requires |kept| == |calls|
  {
    calls == [] ||
    var n := |calls| - 1;
    kept[n] >= |LastOutcome(calls).out| && NothingLost(calls[..n], kept[..n])
  }

  lemma {:induction false} StreamIsDeliveredInFull(calls: seq<NamedAddress>, kept: seq<nat>)
    requires |kept| == |calls| && NothingLost(calls, kept)
    ensures Delivered(calls, kept) == Stream(calls)
  {
    if calls != [] {
      StreamIsDeliveredInFull(calls[..|calls| - 1], kept[..|calls| - 1]);
    }
  }

  /** Without losses too, qualities never decrease and never exceed what the cache knows. */
  lemma {:induction false} StreamIsMonotone(calls: seq<NamedAddress>, a: string)
    ensures Monotone(Stream(calls), a) && Covered(Stream(calls), CacheAfter(calls), a)
  {
    if calls != [] {
      var n := |calls| - 1;
      StreamIsMonotone(calls[..n], a);
      UpdateCovers(Stream(calls[..n]), CacheAfter(calls[..n]), calls[n], a);
      CoveredAppend(Stream(calls[..n]), LastOutcome(calls).out, CacheAfter(calls), a);
    }
  }

  // ---------------------------------------------------------------- who is asked to validate

  /** An update reports a new address exactly when no earlier update presented that address. */
  lemma NewExactlyOncePerAddress(calls: seq<NamedAddress>, i: nat)
    requires i < |calls|
    ensures LastOutcome(calls[..i + 1]).isNew <==> forall j :: 0 <= j < i ==> calls[j].addr != calls[i].addr
  {
    assert calls[..i + 1][..i] == calls[..i];
    CachedQualityIsMaximum(calls[..i]);
    if j :| 0 <= j < i && calls[j].addr == calls[i].addr {
      assert calls[..i][j] == calls[j];
    }
  }

  // ---------------------------------------------------------------- who waits

  /** Waiting names are distinct and presented, and while undecided every presented name waits. */
  ghost predicate WaitsProperly(e: Entry, a: string, pairs: set<(string, string)>)
  {
    && NoDuplicates(e.consumers)
    && (forall f :: f in e.consumers ==> (f, a) in pairs)
    && (!e.q.Terminal() ==> forall f :: (f, a) in pairs ==> f in e.consumers)
  }

  lemma WaitsAfterUpdate(c: Cache, na: NamedAddress, a: string, pairs: set<(string, string)>)
    requires a in Updated(c, na).cache
    requires if a in c then WaitsProperly(c[a], a, pairs) else forall f :: (f, a) !in pairs
    ensures WaitsProperly(Updated(c, na).cache[a], a, pairs + {(na.name, na.addr)})
  {
  }

  /** True of any sequence of updates. */
  lemma {:induction false} WaitingNames(calls: seq<NamedAddress>, a: string)
    requires a in CacheAfter(calls)
    ensures WaitsProperly(CacheAfter(calls)[a], a, Pairs(calls))
  {
    var front, na := calls[..|calls| - 1], calls[|calls| - 1];
    assert calls == front + [na];
    Unfold(front, na);
    if a in CacheAfter(front) {
      WaitingNames(front, a);
    } else {
      CachedQualityIsMaximum(front);
    }
    WaitsAfterUpdate(CacheAfter(front), na, a, Pairs(front));
  }

  // ---------------------------------------------------------------- what a pair was told last

  /** The quality in the last message about a pair. */
  function LastAbout(log: seq<NamedAddress>, f: string, a: string): Option<Quality>
  {
    if log == [] then None
    else
      var last := log[|log| - 1];
      if last.name == f && last.addr == a then Some(last.qual) else LastAbout(log[..|log| - 1], f, a)
  }

  lemma {:induction false} LastAboutAppend(log: seq<NamedAddress>, out: seq<NamedAddress>, f: string, a: string)
    ensures LastAbout(log + out, f, a) ==
            if LastAbout(out, f, a).Some? then LastAbout(out, f, a) else LastAbout(log, f, a)
  {
    if out == [] {
      assert log + out == log;
    } else {
      var n := |out| - 1;
      assert (log + out)[..|log + out| - 1] == log + out[..n];
      LastAboutAppend(log, out[..n], f, a);
    }
  }

  lemma {:induction false} LastAboutUniform(out: seq<NamedAddress>, f: string, a: string, q: Quality)
    requires forall i :: 0 <= i < |out| ==> out[i].qual == q
    ensures LastAbout(out, f, a) ==
            if exists i :: 0 <= i < |out| && out[i].name == f && out[i].addr == a then Some(q) else None
  {
    if out != [] {
      var n := |out| - 1;
      LastAboutUniform(out[..n], f, a, q);
      if i :| 0 <= i < |out| && out[i].name == f && out[i].addr == a {
        assert i < n ==> out[..n][i] == out[i];
      }
    }
  }

  lemma {:induction false} LastAboutIsMessage(log: seq<NamedAddress>, f: string, a: string)
    ensures LastAbout(log, f, a).Some? ==> NA(f, a, LastAbout(log, f, a).value) in log
    ensures LastAbout(log, f, a).None? ==> forall q :: NA(f, a, q) !in log
  {
    if log != [] {
      assert log == log[..|log| - 1] + [log[|log| - 1]];
      LastAboutIsMessage(log[..|log| - 1], f, a);
    }
  }

  /** Whether an update sends a message to the name. */
  predicate Told(c: Cache, na: NamedAddress, f: string)
  {
    if na.addr !in c then f == na.name
    else if na.qual.Rank() <= c[na.addr].q.Rank() then f == na.name && f !in c[na.addr].consumers
    else f in c[na.addr].consumers || (f == na.name && !na.qual.Terminal())
  }

  lemma ToldMeansMessage(c: Cache, na: NamedAddress, f: string)
    ensures Told(c, na, f) <==> exists i :: 0 <= i < |Updated(c, na).out| && Updated(c, na).out[i].name == f
  {
    var out := Updated(c, na).out;
    if na.addr !in c {
      assert out[0].name == na.name;
    } else if na.qual.Rank() <= c[na.addr].q.Rank() {
      if na.name !in c[na.addr].consumers {
        assert out[0].name == na.name;
      }
    } else {
      var e := c[na.addr];
      var consumers := if na.qual.Terminal() || na.name in e.consumers then e.consumers else e.consumers + [na.name];
      assert out == FanOut(consumers, na.addr, na.qual);
      if f in consumers {
        var i :| 0 <= i < |consumers| && consumers[i] == f;
        assert out[i].name == f;
      }
    }
  }

  lemma ToldByUpdate(c: Cache, na: NamedAddress, f: string, a: string)
    ensures LastAbout(Updated(c, na).out, f, a) ==
            if Told(c, na, f) && a == na.addr then Some(Updated(c, na).cache[a].q) else None
    ensures forall q :: NA(f, a, q) in Updated(c, na).out <==>
                        Told(c, na, f) && a == na.addr && q == Updated(c, na).cache[a].q
  {
    var out := Updated(c, na).out;
    MessagesCarryCachedQuality(c, na);
    LastAboutUniform(out, f, a, Updated(c, na).cache[na.addr].q);
    ToldMeansMessage(c, na, f);
    if Told(c, na, f) {
      var i :| 0 <= i < |out| && out[i].name == f;
      assert out[i] == NA(f, na.addr, Updated(c, na).cache[na.addr].q);
    }
  }

  // ---------------------------------------------------------------- how much is said

  /** How many messages about the pair carry the quality. */
  function Count(log: seq<NamedAddress>, f: string, a: string, q: Quality): nat
  {
    if log == [] then 0
    else Count(log[..|log| - 1], f, a, q) + if log[|log| - 1] == NA(f, a, q) then 1 else 0
  }

  lemma {:induction false} CountAppend(log: seq<NamedAddress>, out: seq<NamedAddress>, f: string, a: string, q: Quality)
    ensures Count(log + out, f, a, q) == Count(log, f, a, q) + Count(out, f, a, q)
  {
    if out == [] {
      assert log + out == log;
    } else {
      var n := |out| - 1;
      assert (log + out)[..|log + out| - 1] == log + out[..n];
      CountAppend(log, out[..n], f, a, q);
    }
  }

  lemma {:induction false} CountDistinct(log: seq<NamedAddress>, f: string, a: string, q: Quality)
    requires forall i, j :: 0 <= i < j < |log| ==> log[i].name != log[j].name
    ensures Count(log, f, a, q) == if NA(f, a, q) in log then 1 else 0
  {
    if log != [] {
      var n := |log| - 1;
      CountDistinct(log[..n], f, a, q);
      assert log == log[..n] + [log[n]];
    }
  }

  /** The names in the messages of one update are distinct. */
  lemma OneMessagePerName(calls: seq<NamedAddress>, na: NamedAddress)
    ensures var out := Updated(CacheAfter(calls), na).out;
            forall i, j :: 0 <= i < j < |out| ==> out[i].name != out[j].name
  {
    if na.addr in CacheAfter(calls) {
      WaitingNames(calls, na.addr);
    }
  }

  function Verdicts(log: seq<NamedAddress>, f: string, a: string): nat
  {
    Count(log, f, a, Invalid) + Count(log, f, a, Verified)
  }

  /** The bound on what a pair hears, as an invariant over updates; `e` is the cached entry, if any. */
  ghost predicate HeardLittle(s: seq<NamedAddress>, f: string, a: string, c: Cache)
  {
    && Count(s, f, a, Unverified) <= 1
    && Count(s, f, a, Verifying) <= 1
    && Verdicts(s, f, a) <= 2
    && (a !in c ==> AllAbout(s, f, a) == 0)
    && (a in c ==>
          && (!c[a].q.Terminal() && f !in c[a].consumers ==> AllAbout(s, f, a) == 0)
          && (c[a].q == Unverified ==> Count(s, f, a, Verifying) == 0)
          && (!c[a].q.Terminal() ==> Verdicts(s, f, a) == 0)
          && (f !in c[a].consumers ==> Verdicts(s, f, a) <= 1))
  }

  lemma HeardLittleStep(s: seq<NamedAddress>, f: string, a: string, c: Cache, na: NamedAddress)
    requires HeardLittle(s, f, a, c)
    requires forall i, j :: 0 <= i < j < |Updated(c, na).out| ==>
             Updated(c, na).out[i].name != Updated(c, na).out[j].name
    requires na.qual.Terminal() ==> na.addr in c && !c[na.addr].q.Terminal()
    ensures HeardLittle(s + Updated(c, na).out, f, a, Updated(c, na).cache)
  {
    var out := Updated(c, na).out;
    ToldByUpdate(c, na, f, a);
    forall q
      ensures Count(s + out, f, a, q) ==
              Count(s, f, a, q) + if Told(c, na, f) && a == na.addr && q == Updated(c, na).cache[a].q then 1 else 0
    {
      CountUpdate(s, out, f, a, q);
    }
    if na.addr == a {
      HeardLittleCase(s, out, f, a, c, na);
    } else {
      HeardNothing(s, out, f, a, c, Updated(c, na).cache);
    }
  }

  lemma HeardNothing(s: seq<NamedAddress>, out: seq<NamedAddress>, f: string, a: string, c: Cache, c': Cache)
    requires HeardLittle(s, f, a, c) && (a in c <==> a in c') && (a in c ==> c'[a] == c[a])
    requires forall q :: Count(s + out, f, a, q) == Count(s, f, a, q)
    ensures HeardLittle(s + out, f, a, c')
  {
  }

  lemma HeardLittleCase(s: seq<NamedAddress>, out: seq<NamedAddress>, f: string, a: string, c: Cache, na: NamedAddress)
    requires HeardLittle(s, f, a, c) && na.addr == a
    requires na.qual.Terminal() ==> na.addr in c && !c[na.addr].q.Terminal()
    requires forall q :: Count(s + out, f, a, q) ==
                         Count(s, f, a, q) + if Told(c, na, f) && q == Updated(c, na).cache[a].q then 1 else 0
    ensures HeardLittle(s + out, f, a, Updated(c, na).cache)
  {
    var q := Updated(c, na).cache[a].q;
    assert q.Terminal() <==> q == Invalid || q == Verified;
  }

  lemma CountUpdate(s: seq<NamedAddress>, out: seq<NamedAddress>, f: string, a: string, q: Quality)
    requires forall i, j :: 0 <= i < j < |out| ==> out[i].name != out[j].name
    ensures Count(s + out, f, a, q) == Count(s, f, a, q) + if NA(f, a, q) in out then 1 else 0
  {
    CountAppend(s, out, f, a, q);
    CountDistinct(out, f, a, q);
  }

  /**
   If verdicts are admissible, a pair hears each non-final quality at most once and a verdict at most twice:
   once by fan-out and once more by replay, after which it is registered again.
   */
  lemma {:induction false} FewMessagesPerPair(calls: seq<NamedAddress>, f: string, a: string)
    requires Admissible(calls)
    ensures HeardLittle(Stream(calls), f, a, CacheAfter(calls))
  {
    if calls != [] {
      var front, na := calls[..|calls| - 1], calls[|calls| - 1];
      assert calls == front + [na];
      AdmissibleExtends(front, na);
      FewMessagesPerPair(front, f, a);
      Unfold(front, na);
      OneMessagePerName(front, na);
      TerminalMeansDecided(front, na.addr);
      if na.qual.Terminal() {
        var k :| 0 <= k < |front| && (front[k].name, front[k].addr) == (na.name, na.addr);
      }
      HeardLittleStep(Stream(front), f, a, CacheAfter(front), na);
    }
  }

  /** How often a pair can hear one quality: by fan-out or replay, and a verdict by both. */
  function Most(q: Quality): nat
  {
    if q.Terminal() then 2 else 1
  }

  /** The same bound for each quality on its own, as an invariant over any updates. */
  ghost predicate HeardInTurn(s: seq<NamedAddress>, f: string, a: string, c: Cache)
  {
    forall q: Quality :: Count(s, f, a, q) <= Allowed(c, f, a, q)
  }

  /** Nothing beyond the cached quality, and of that one message less while the name does not wait. */
  function Allowed(c: Cache, f: string, a: string, q: Quality): int
  {
    if a !in c || q.Rank() > c[a].q.Rank() then 0
    else if q == c[a].q && f !in c[a].consumers then Most(q) - 1
    else Most(q)
  }

  lemma HeardInTurnStep(s: seq<NamedAddress>, f: string, a: string, c: Cache, na: NamedAddress)
    requires HeardInTurn(s, f, a, c)
    requires forall i, j :: 0 <= i < j < |Updated(c, na).out| ==>
             Updated(c, na).out[i].name != Updated(c, na).out[j].name
    ensures HeardInTurn(s + Updated(c, na).out, f, a, Updated(c, na).cache)
  {
    var out, c' := Updated(c, na).out, Updated(c, na).cache;
    ToldByUpdate(c, na, f, a);
    forall q: Quality
      ensures Count(s + out, f, a, q) <= Allowed(c', f, a, q)
    {
      CountUpdate(s, out, f, a, q);
      AllowedMore(c, na, f, a, q);
    }
  }

  lemma AllowedMore(c: Cache, na: NamedAddress, f: string, a: string, q: Quality)
    ensures Allowed(c, f, a, q) + (if Told(c, na, f) && a == na.addr && q == Updated(c, na).cache[a].q then 1 else 0) <=
            Allowed(Updated(c, na).cache, f, a, q)
  {
  }

  /**
   Whatever is presented in whatever order, a pair hears each non-final quality once and each verdict twice at most.
   */
  lemma {:induction false} MessagesPerQuality(calls: seq<NamedAddress>, f: string, a: string)
    ensures forall q: Quality :: Count(Stream(calls), f, a, q) <= Most(q)
    ensures HeardInTurn(Stream(calls), f, a, CacheAfter(calls))
  {
    if calls != [] {
      var front, na := calls[..|calls| - 1], calls[|calls| - 1];
      assert calls == front + [na];
      MessagesPerQuality(front, f, a);
      Unfold(front, na);
      OneMessagePerName(front, na);
      HeardInTurnStep(Stream(front), f, a, CacheAfter(front), na);
    }
  }

  function Without(log: seq<NamedAddress>, f: string, a: string): seq<NamedAddress>
  {
    if log == [] then []
    else
      var last := log[|log| - 1];
      Without(log[..|log| - 1], f, a) + if last.name == f && last.addr == a then [] else [last]
  }

  function AllAbout(log: seq<NamedAddress>, f: string, a: string): nat
  {
    Count(log, f, a, Unverified) + Count(log, f, a, Verifying) + Verdicts(log, f, a)
  }

  lemma OneMore(log: seq<NamedAddress>, last: NamedAddress, f: string, a: string)
    ensures AllAbout(log + [last], f, a) == AllAbout(log, f, a) + if (last.name, last.addr) == (f, a) then 1 else 0
  {
    CountUpdate(log, [last], f, a, Unverified);
    CountUpdate(log, [last], f, a, Verifying);
    CountUpdate(log, [last], f, a, Invalid);
    CountUpdate(log, [last], f, a, Verified);
    match last.qual
    case Unverified =>
    case Verifying =>
    case Invalid =>
    case Verified =>
  }

  lemma {:induction false} WithoutSplits(log: seq<NamedAddress>, f: string, a: string)
    ensures |log| == |Without(log, f, a)| + AllAbout(log, f, a)
    ensures forall na :: na in Without(log, f, a) <==> na in log && (na.name, na.addr) != (f, a)
  {
    if log != [] {
      var front, last := log[..|log| - 1], log[|log| - 1];
      assert log == front + [last];
      WithoutSplits(front, f, a);
      OneMore(front, last, f, a);
    }
  }

  lemma {:induction false} WithoutKeepsOthers(log: seq<NamedAddress>, f: string, a: string, g: string, b: string)
    requires (g, b) != (f, a)
    ensures AllAbout(Without(log, f, a), g, b) == AllAbout(log, g, b)
  {
    if log != [] {
      var front, last := log[..|log| - 1], log[|log| - 1];
      assert log == front + [last];
      WithoutKeepsOthers(front, f, a, g, b);
      OneMore(front, last, g, b);
      if last.name == f && last.addr == a {
        assert Without(log, f, a) == Without(front, f, a);
      } else {
        assert Without(log, f, a) == Without(front, f, a) + [last];
        OneMore(Without(front, f, a), last, g, b);
      }
    }
  }

  function Times(n: nat, most: nat): nat
  {
    if n == 0 then 0 else Times(n - 1, most) + most
  }

  lemma {:induction false} LengthFromPairs(log: seq<NamedAddress>, pairs: set<(string, string)>, most: nat)
    requires forall na :: na in log ==> (na.name, na.addr) in pairs
    requires forall f, a :: (f, a) in pairs ==> AllAbout(log, f, a) <= most
    ensures |log| <= Times(|pairs|, most)
    decreases |pairs|
  {
    if log != [] {
      var f, a := log[0].name, log[0].addr;
      assert log[0] in log;
      WithoutSplits(log, f, a);
      forall g, b | (g, b) in pairs - {(f, a)}
        ensures AllAbout(Without(log, f, a), g, b) <= most
      {
        WithoutKeepsOthers(log, f, a, g, b);
      }
      LengthFromPairs(Without(log, f, a), pairs - {(f, a)}, most);
    }
  }

  lemma {:induction false} FourAndSix(n: nat)
    ensures Times(n, 4) == 4 * n && Times(n, 6) == 6 * n
  {
    if n > 0 {
      FourAndSix(n - 1);
    }
  }

  lemma {:induction false} StreamAboutPairs(calls: seq<NamedAddress>)
    ensures forall na :: na in Stream(calls) ==> (na.name, na.addr) in Pairs(calls)
  {
    if calls != [] {
      var front, na := calls[..|calls| - 1], calls[|calls| - 1];
      assert calls == front + [na];
      StreamAboutPairs(front);
      Unfold(front, na);
      MessagesAboutPairs(front, na);
    }
  }

  lemma MessagesAboutPairs(calls: seq<NamedAddress>, na: NamedAddress)
    ensures forall m :: m in Updated(CacheAfter(calls), na).out ==>
            (m.name, m.addr) in Pairs(calls) + {(na.name, na.addr)}
  {
    if na.addr in CacheAfter(calls) {
      WaitingNames(calls, na.addr);
    }
  }

  /**
   However often pairs are presented again: at most six messages per distinct pair, or four if verdicts are
   admissible.
   */
  lemma StreamIsBounded(calls: seq<NamedAddress>)
    ensures |Stream(calls)| <= 6 * |Pairs(calls)|
    ensures Admissible(calls) ==> |Stream(calls)| <= 4 * |Pairs(calls)|
  {
    StreamAboutPairs(calls);
    FourAndSix(|Pairs(calls)|);
    forall f, a | (f, a) in Pairs(calls)
      ensures AllAbout(Stream(calls), f, a) <= 6
    {
      MessagesPerQuality(calls, f, a);
    }
    LengthFromPairs(Stream(calls), Pairs(calls), 6);
    if Admissible(calls) {
      forall f, a | (f, a) in Pairs(calls)
        ensures AllAbout(Stream(calls), f, a) <= 4
      {
        FewMessagesPerPair(calls, f, a);
      }
      LengthFromPairs(Stream(calls), Pairs(calls), 4);
    }
  }
}
