/** What an uncancelled pipeline does for the reader of its news. */
module PipelineTheorems {
  import opened Types
  import opened AddrCache
  import opened CacheHistory
  import opened CacheInformed
  import opened Pipeline
  import opened PipelineBase
  import opened PipelineSync

  lemma NextPair(items: seq<NamedAddress>, p: nat)
    requires p < |items|
    ensures AddressedPairs(items[..p]) <= AddressedPairs(items[..p + 1])
    ensures !items[p].Bare() ==> (items[p].name, items[p].addr) in AddressedPairs(items[..p + 1])
  {
    assert forall i :: 0 <= i < p ==> items[..p][i] == items[..p + 1][i];
    assert items[..p + 1][p] == items[p];
  }

  // ---------------------------------------------------------------- synchronisation

  /** Only pairs from the processed input have been presented. */
  ghost predicate PresentedOnly(c: Config, s: State)
    requires Position(c, s)
  {
    Pairs(s.calls) <= AddressedPairs(c.input[..Processed(s)])
  }

  lemma PresentedLock(c: Config, s: State)
    requires Position(c, s) && PresentedOnly(c, s) && InputEnabled(c, s, Lock)
    requires Position(c, InputStep(c, s, Lock))
    ensures PresentedOnly(c, InputStep(c, s, Lock))
  {
    NextPair(c.input, Processed(s));
    OnePairMore(s.calls, s.inPc.na);
  }

  lemma PresentedForward(c: Config, s: State)
    requires Position(c, s) && PresentedOnly(c, s) && InputEnabled(c, s, Forward) && !s.news.closed
    requires Position(c, InputStep(c, s, Forward))
    ensures PresentedOnly(c, InputStep(c, s, Forward))
  {
    NextPair(c.input, Processed(s));
  }

  lemma PresentedVLock(c: Config, s: State)
    requires Position(c, s) && PresentedOnly(c, s) && VerdictEnabled(c, s, VLock)
    requires (s.vPc.na.name, s.vPc.na.addr) in Pairs(s.calls)
    requires Position(c, VerdictStep(c, s, VLock))
    ensures PresentedOnly(c, VerdictStep(c, s, VLock))
  {
    OnePairMore(s.calls, s.vPc.na);
  }

  /** All other steps leave the calls and the processed input as they are. */
  lemma OthersPresentNothing(c: Config, s: State, a: Action)
    requires Enabled(c, s, a) && !s.cancelled && !a.Lock? && !a.Forward? && !a.VLock?
    ensures Apply(c, s, a).calls == s.calls && Processed(Apply(c, s, a)) == Processed(s)
  {
    OnlyLocksCall(c, s, a);
    if InputEnabled(c, s, a) {
      ApplyInput(c, s, a);
    } else if VerdictEnabled(c, s, a) {
      ApplyVerdict(c, s, a);
    } else if WorkerEnabled(c, s, a) {
      ApplyWorker(c, s, a);
      WorkerFrame(c, s, a);
    }
  }

  lemma PresentedStep(c: Config, s: State, a: Action)
    requires Synced(c, s) && Enabled(c, s, a) && PresentedOnly(c, s)
    requires Position(c, Apply(c, s, a))
    ensures PresentedOnly(c, Apply(c, s, a))
  {
    if a.Lock? {
      ApplyInput(c, s, a);
      PresentedLock(c, s);
    } else if a.Forward? {
      ApplyInput(c, s, a);
      PresentedForward(c, s);
    } else if a.VLock? {
      ApplyVerdict(c, s, a);
      NextVerdictIsPresented(c, s);
      PresentedVLock(c, s);
    } else {
      OthersPresentNothing(c, s, a);
    }
  }

  lemma {:induction false} PresentedHolds(c: Config, s: State, acts: seq<Action>)
    requires Synced(c, s) && PresentedOnly(c, s)
    requires Run(c, s, acts) && !After(c, s, acts).cancelled
    ensures Synced(c, After(c, s, acts)) && PresentedOnly(c, After(c, s, acts))
    decreases |acts|
  {
    if acts != [] {
      StartsUncancelled(c, s, acts);
      SyncedStep(c, s, acts[0]);
      PresentedStep(c, s, acts[0]);
      PresentedHolds(c, Apply(c, s, acts[0]), acts[1..]);
    }
  }

  /** The invariant in every state an uncancelled run reaches, whatever the input. */
  lemma Reached(c: Config, acts: seq<Action>)
    requires Run(c, Init(), acts) && !After(c, Init(), acts).cancelled
    ensures Synced(c, After(c, Init(), acts)) && PresentedOnly(c, After(c, Init(), acts))
  {
    SyncedInit(c);
    PresentedHolds(c, Init(), acts);
  }

  /** If no input comes with a verdict, the cache is called in an orderly way. */
  lemma ReachedOrderly(c: Config, acts: seq<Action>)
    requires ValidConfig(c) && Run(c, Init(), acts) && !After(c, Init(), acts).cancelled
    ensures Orderly(After(c, Init(), acts))
  {
    SyncedInit(c);
    OrderlyHolds(c, Init(), acts);
  }

  // ---------------------------------------------------------------- whom verdicts reach

  /** Raising verdicts are pings' verdicts, and they reach all. */
  ghost predicate Reaching(s: State)
  {
    && EveryVerdictReachesAll(s.calls)
    && RaisedByCourt(s.calls, s.court.sent, Handled(s))
  }

  ghost predicate RaisedByCourt(calls: seq<NamedAddress>, court: seq<QualifiedAddress>, handled: int)
  {
    forall k :: 0 <= k < |calls| && RaisesVerdict(calls[..k], calls[k]) ==>
      exists r :: 0 <= r < handled && r < |court| && court[r] == Named(calls[k])
  }

  lemma RaisedExtends(calls: seq<NamedAddress>, na: NamedAddress, court: seq<QualifiedAddress>, handled: int,
                      handled': int)
    requires RaisedByCourt(calls, court, handled) && handled <= handled'
    requires RaisesVerdict(calls, na) ==> exists r :: 0 <= r < handled' && r < |court| && court[r] == Named(na)
    ensures RaisedByCourt(calls + [na], court, handled')
  {
    var more := calls + [na];
    assert more[..|calls|] == calls && more[|calls|] == na;
    forall k | 0 <= k < |calls|
      ensures more[..k] == calls[..k] && more[k] == calls[k]
    {
    }
  }

  /** A verdict on the input does not raise: its address is new. */
  lemma InputDoesNotRaise(c: Config, s: State)
    requires VerdictsFirst(c.input) && s.inPc.Locking? && Position(c, s) && PresentedOnly(c, s)
    ensures !RaisesVerdict(s.calls, s.inPc.na)
  {
    forall j | 0 <= j < |s.calls|
      ensures s.calls[j].addr == s.inPc.na.addr ==> !s.inPc.na.qual.Terminal()
    {
      var i := CalledFrom(c, s, j);
    }
  }

  lemma CalledFrom(c: Config, s: State, j: nat) returns (i: nat)
    requires Position(c, s) && PresentedOnly(c, s) && j < |s.calls|
    ensures i < Processed(s) && !c.input[i].Bare() && c.input[i].addr == s.calls[j].addr
  {
    var items := c.input[..Processed(s)];
    assert (s.calls[j].name, s.calls[j].addr) in AddressedPairs(items);
    i :| 0 <= i < |items| && !items[i].Bare() && items[i].addr == s.calls[j].addr;
  }

  lemma ReachingLock(c: Config, s: State)
    requires VerdictsFirst(c.input) && Position(c, s) && PresentedOnly(c, s) && Reaching(s) && InputEnabled(c, s, Lock)
    ensures Reaching(InputStep(c, s, Lock))
  {
    InputDoesNotRaise(c, s);
    HistoryExtends(s.calls, s.inPc.na);
    RaisedExtends(s.calls, s.inPc.na, s.court.sent, Handled(s), Handled(s));
  }

  /** A ping's verdict reaches all: no other verdict raised its address before. */
  lemma VerdictReachesAll(c: Config, s: State)
    requires s.vPc.VLocking? && Position(c, s) && Reaching(s) && OneSubjectEach(s) && CourtAccounted(c, s)
    ensures ReachesAll(s.calls, s.vPc.na)
  {
    var na, calls := s.vPc.na, s.calls;
    NextVerdictIsPresented(c, s);
    if RaisesVerdict(calls, na) {
      forall k | 0 <= k < |calls| && calls[k].addr == na.addr
        ensures !RaisesVerdict(calls[..k], calls[k])
      {
        if RaisesVerdict(calls[..k], calls[k]) {
          var r :| 0 <= r < Handled(s) && s.court.sent[r] == Named(calls[k]);
          VerdictsAreUnique(c, s, r, Handled(s));
        }
      }
      forall f | f == na.name || (f, na.addr) in Pairs(calls)
        ensures PresentedSince(calls, f, na.addr)
      {
        var j :| 0 <= j < |calls| && (calls[j].name, calls[j].addr) == (f, na.addr);
        assert QuietSince(calls, j, na.addr);
      }
    }
  }

  lemma ReachingVLock(c: Config, s: State)
    requires Position(c, s) && Reaching(s) && OneSubjectEach(s) && CourtAccounted(c, s) && VerdictEnabled(c, s, VLock)
    ensures Reaching(VerdictStep(c, s, VLock))
  {
    VerdictReachesAll(c, s);
    HistoryExtends(s.calls, s.vPc.na);
    assert s.court.sent[Handled(s)] == Named(s.vPc.na);
    RaisedExtends(s.calls, s.vPc.na, s.court.sent, Handled(s), Handled(s) + 1);
  }

  lemma InputHandlesNothing(c: Config, s: State, a: Action)
    requires InputEnabled(c, s, a)
    ensures var s' := InputStep(c, s, a);
            s'.vPc == s.vPc && s'.court.taken == s.court.taken && s.court.sent <= s'.court.sent
  {
  }

  lemma VerdictHandlesNothing(c: Config, s: State, a: Action)
    requires VerdictEnabled(c, s, a) && !a.VLock? && !s.cancelled
    requires !s.court.Drained() ==> s.court.sent[s.court.taken].Named?
    ensures Handled(VerdictStep(c, s, a)) == Handled(s)
  {
  }

  /** All other steps call nothing, handle nothing and only add to the verdict channel. */
  lemma OthersHandleNothing(c: Config, s: State, a: Action)
    requires Synced(c, s) && Enabled(c, s, a) && !a.Lock? && !a.VLock?
    ensures var s' := Apply(c, s, a);
            s'.calls == s.calls && Handled(s') == Handled(s) && s.court.sent <= s'.court.sent
  {
    OnlyLocksCall(c, s, a);
    if InputEnabled(c, s, a) {
      ApplyInput(c, s, a);
      InputHandlesNothing(c, s, a);
    } else if VerdictEnabled(c, s, a) {
      ApplyVerdict(c, s, a);
      VerdictOrigin(c, s);
      VerdictHandlesNothing(c, s, a);
      VerdictFrame(c, s, a);
    } else if WorkerEnabled(c, s, a) {
      ApplyWorker(c, s, a);
      WorkerFrame(c, s, a);
    }
  }

  lemma ReachingStep(c: Config, s: State, a: Action)
    requires VerdictsFirst(c.input) && Synced(c, s) && PresentedOnly(c, s) && Reaching(s) && Enabled(c, s, a)
    ensures Reaching(Apply(c, s, a))
  {
    if a.Lock? {
      ApplyInput(c, s, a);
      ReachingLock(c, s);
    } else if a.VLock? {
      ApplyVerdict(c, s, a);
      ReachingVLock(c, s);
    } else {
      OthersHandleNothing(c, s, a);
    }
  }

  lemma {:induction false} ReachingHolds(c: Config, s: State, acts: seq<Action>)
    requires VerdictsFirst(c.input) && Synced(c, s) && PresentedOnly(c, s) && Reaching(s)
    requires Run(c, s, acts) && !After(c, s, acts).cancelled
    ensures Reaching(After(c, s, acts))
    decreases |acts|
  {
    if acts != [] {
      StartsUncancelled(c, s, acts);
      SyncedStep(c, s, acts[0]);
      PresentedStep(c, s, acts[0]);
      ReachingStep(c, s, acts[0]);
      ReachingHolds(c, Apply(c, s, acts[0]), acts[1..]);
    }
  }

  /** If inputs come with verdicts at most for new addresses, every raising verdict reaches all. */
  lemma AlwaysReaching(c: Config, acts: seq<Action>)
    requires VerdictsFirst(c.input) && Run(c, Init(), acts) && !After(c, Init(), acts).cancelled
    ensures EveryVerdictReachesAll(After(c, Init(), acts).calls)
  {
    SyncedInit(c);
    ReachingHolds(c, Init(), acts);
  }

  // ---------------------------------------------------------------- in every state

  lemma ProcessedIsPresented(c: Config, s: State)
    requires Position(c, s) && CallsAccounted(c, s) && PresentedOnly(c, s)
    ensures Pairs(s.calls) == AddressedPairs(c.input[..Processed(s)])
  {
    var items := c.input[..Processed(s)];
    forall p | p in AddressedPairs(items)
      ensures p in Pairs(s.calls)
    {
      var i :| 0 <= i < |items| && !items[i].Bare() && p == (items[i].name, items[i].addr);
      assert items[i] in items;
      var k :| 0 <= k < |s.calls| && s.calls[k] == items[i];
      assert p == (s.calls[k].name, s.calls[k].addr);
    }
  }

  lemma {:induction false} LastAboutAddressed(log: seq<NamedAddress>, f: string, a: string)
    requires a != ""
    ensures LastAbout(Addressed(log), f, a) == LastAbout(log, f, a)
  {
    if log != [] {
      var front, last := log[..|log| - 1], log[|log| - 1];
      LastAboutAddressed(front, f, a);
      if !last.Bare() {
        assert (Addressed(front) + [last])[..|Addressed(front)|] == Addressed(front);
      } else {
        assert Addressed(front) + [] == Addressed(front);
      }
    }
  }

  /**
   In every state, whatever the input: an undecided address has all names presented for it waiting, once each,
   and nobody else, and no other pair is mentioned. The last message sent or about to be sent about a presented
   pair carries the cached quality exactly if no raising verdict missed the pair, and none does if inputs come with
   verdicts at most for new addresses.
   */
  lemma AlwaysSynchronised(c: Config, acts: seq<Action>, f: string, a: string)
    requires Run(c, Init(), acts) && !After(c, Init(), acts).cancelled && a != ""
    ensures var s := After(c, Init(), acts);
            && 0 <= Processed(s) <= |c.input|
            && var presented := AddressedPairs(c.input[..Processed(s)]);
            && ((f, a) in presented ==> a in s.cache)
            && ((f, a) in presented ==>
                  (LastAbout(s.news.sent + Pending(s), f, a) == Some(s.cache[a].q) <==> !Missed(s.calls, f, a)))
            && (VerdictsFirst(c.input) ==> !Missed(s.calls, f, a))
            && ((f, a) !in presented ==> LastAbout(s.news.sent + Pending(s), f, a) == None)
            && (a in s.cache ==> NoDuplicates(s.cache[a].consumers))
            && (a in s.cache && !s.cache[a].q.Terminal() ==> (f in s.cache[a].consumers <==> (f, a) in presented))
  {
    var s := After(c, Init(), acts);
    Reached(c, acts);
    ProcessedIsPresented(c, s);
    LastAboutStream(s, f, a);
    PairInformedExactly(s.calls, f, a);
    if VerdictsFirst(c.input) {
      AlwaysReaching(c, acts);
      ReachingMissesNobody(s.calls);
    }
    LastAboutIsPresented(s.calls, f, a);
    if a in s.cache {
      WaitingNames(s.calls, a);
    }
    if (f, a) in Pairs(s.calls) {
      CachedQualityIsMaximum(s.calls);
      assert a in s.cache;
    }
  }

  lemma LastAboutIsPresented(calls: seq<NamedAddress>, f: string, a: string)
    ensures LastAbout(Stream(calls), f, a).Some? ==> (f, a) in Pairs(calls)
  {
    LastAboutIsMessage(Stream(calls), f, a);
    StreamAboutPairs(calls);
  }

  /** What was sent and is about to be sent says about a pair what the stream of the cache's updates says. */
  lemma LastAboutStream(s: State, f: string, a: string)
    requires Addressed(s.news.sent) + Pending(s) == Stream(s.calls) && a != ""
    ensures LastAbout(s.news.sent + Pending(s), f, a) == LastAbout(Stream(s.calls), f, a)
  {
    LastAboutAppend(Addressed(s.news.sent), Pending(s), f, a);
    LastAboutAppend(s.news.sent, Pending(s), f, a);
    LastAboutAddressed(s.news.sent, f, a);
  }

  // ---------------------------------------------------------------- bounded output

  lemma {:induction false} CountAddressed(log: seq<NamedAddress>, f: string, a: string, q: Quality)
    requires a != ""
    ensures Count(Addressed(log), f, a, q) == Count(log, f, a, q)
  {
    if log != [] {
      var front, last := log[..|log| - 1], log[|log| - 1];
      CountAddressed(front, f, a, q);
      if last.Bare() {
        assert Addressed(log) == Addressed(front);
        assert last != NA(f, a, q);
      } else {
        assert Addressed(log) == Addressed(front) + [last];
        assert (Addressed(front) + [last])[..|Addressed(front)|] == Addressed(front);
      }
    }
  }

  /**
   However often pairs are presented, with whatever qualities: each non-final quality once at most, each
   verdict twice; and if no input comes with a verdict, both verdicts together twice.
   */
  lemma OutputPerPairIsBounded(c: Config, acts: seq<Action>, f: string, a: string, q: Quality)
    requires Run(c, Init(), acts) && !After(c, Init(), acts).cancelled && a != ""
    ensures var log := After(c, Init(), acts).news.sent;
            && Count(log, f, a, q) <= (if q.Terminal() then 2 else 1)
            && (ValidConfig(c) ==> Count(log, f, a, Invalid) + Count(log, f, a, Verified) <= 2)
  {
    var s := After(c, Init(), acts);
    Reached(c, acts);
    MessagesPerQuality(s.calls, f, a);
    SentIsStreamed(s, f, a, q);
    if ValidConfig(c) {
      ReachedOrderly(c, acts);
      FewMessagesPerPair(s.calls, f, a);
      SentIsStreamed(s, f, a, Invalid);
      SentIsStreamed(s, f, a, Verified);
    }
  }

  lemma SentIsStreamed(s: State, f: string, a: string, q: Quality)
    requires Addressed(s.news.sent) + Pending(s) == Stream(s.calls) && a != ""
    ensures Count(s.news.sent, f, a, q) <= Count(Stream(s.calls), f, a, q)
  {
    CountAppend(Addressed(s.news.sent), Pending(s), f, a, q);
    CountAddressed(s.news.sent, f, a, q);
  }

  lemma {:induction false} LogSplits(log: seq<NamedAddress>)
    ensures |log| == |Addressed(log)| + |Announcements(log)|
  {
    if log != [] {
      LogSplits(log[..|log| - 1]);
    }
  }

  /**
   In total: the announcements of the processed input and at most six messages per distinct pair, or four if no
   input comes with a verdict.
   */
  lemma OutputIsBounded(c: Config, acts: seq<Action>)
    requires Run(c, Init(), acts) && !After(c, Init(), acts).cancelled
    ensures var s := After(c, Init(), acts);
            && 0 <= Processed(s) <= |c.input|
            && var items := c.input[..Processed(s)];
            && |s.news.sent| <= |Announcements(items)| + 6 * |AddressedPairs(items)|
            && (ValidConfig(c) ==> |s.news.sent| <= |Announcements(items)| + 4 * |AddressedPairs(items)|)
  {
    var s := After(c, Init(), acts);
    Reached(c, acts);
    ProcessedIsPresented(c, s);
    StreamIsBounded(s.calls);
    LogSplits(s.news.sent);
    if ValidConfig(c) {
      ReachedOrderly(c, acts);
    }
  }

  // ---------------------------------------------------------------- validation jobs and verdicts

  /** What is settled once `Verify` has returned. */
  lemma ReturnedSettles(c: Config, s: State)
    requires Synced(c, s) && s.inPc.Returned?
    ensures Processed(s) == |c.input| && c.input[..Processed(s)] == c.input
    ensures Handled(s) == |s.court.sent| && s.court.sent[..Handled(s)] == s.court.sent
    ensures AllFinished(s.jobs) && |Subjects(s)| == |s.jobs| && Pending(s) == []
    ensures Addressed(s.news.sent) == Stream(s.calls)
  {
    assert Addressed(s.news.sent) + [] == Addressed(s.news.sent);
  }

  /**
   Nothing is ever sent on a closed channel and no verdict fails its type assertion; and once the news is
   closed, every verdict of every job has been presented to the cache and all that follows from it was sent.
   */
  lemma ShutdownOrder(c: Config, acts: seq<Action>)
    requires Run(c, Init(), acts) && !After(c, Init(), acts).cancelled
    ensures !After(c, Init(), acts).panicked
    ensures var s := After(c, Init(), acts);
            s.news.closed ==>
              && AllFinished(s.jobs)
              && (forall k :: 0 <= k < |s.court.sent| ==> s.court.sent[k].Named? && s.court.sent[k].na in s.calls)
              && Addressed(s.news.sent) == Stream(s.calls)
  {
    var s := After(c, Init(), acts);
    Reached(c, acts);
    if s.news.closed {
      ReturnedSettles(c, s);
      forall k | 0 <= k < |s.court.sent|
        ensures s.court.sent[k].Named? && s.court.sent[k].na in s.calls
      {
        CourtIsPresented(c, s, k);
        assert Named(s.court.sent[k].na) in s.court.sent[..Handled(s)];
      }
    }
  }

  ghost predicate JobFor(s: State, i: nat, a: string)
  {
    i < |s.jobs| && s.jobs[i].subject.Addr() == a
  }

  lemma JobsDiffer(c: Config, s: State, a: string, i: nat, j: nat)
    requires Synced(c, s) && JobFor(s, i, a) && JobFor(s, j, a)
    ensures i == j && exists f :: (f, a) in AddressedPairs(c.input)
  {
    SubjectsDiffer(Subjects(s), s.cache.Keys, Pairs(s.calls), i, j);
    assert NamedFromInput(c, s.jobs[i].subject);
  }

  /** At no time are there two validation jobs for one address, or one for an address not in the input. */
  lemma ValidatedAtMostOnce(c: Config, acts: seq<Action>, a: string, i: nat, j: nat)
    requires Run(c, Init(), acts) && !After(c, Init(), acts).cancelled
    requires JobFor(After(c, Init(), acts), i, a) && JobFor(After(c, Init(), acts), j, a)
    ensures i == j && exists f :: (f, a) in AddressedPairs(c.input)
  {
    Reached(c, acts);
    JobsDiffer(c, After(c, Init(), acts), a, i, j);
  }

  /** Once `Verify` has returned, there was a job for every address of the input. */
  lemma ValidatedExactlyOnce(c: Config, acts: seq<Action>, a: string)
    requires Run(c, Init(), acts) && !After(c, Init(), acts).cancelled
    requires After(c, Init(), acts).inPc.Returned?
    ensures (exists f :: (f, a) in AddressedPairs(c.input)) <==> exists i :: JobFor(After(c, Init(), acts), i, a)
  {
    var s := After(c, Init(), acts);
    Reached(c, acts);
    if i :| JobFor(s, i, a) {
      JobsDiffer(c, s, a, i, i);
    }
    if f :| (f, a) in AddressedPairs(c.input) {
      InputHasJob(c, s, f, a);
    }
  }

  lemma InputHasJob(c: Config, s: State, f: string, a: string)
    requires Synced(c, s) && s.inPc.Returned? && (f, a) in AddressedPairs(c.input)
    ensures exists i :: JobFor(s, i, a)
  {
    ReturnedSettles(c, s);
    InputIsCached(c, s, f, a);
    var i :| 0 <= i < |Subjects(s)| && Subjects(s)[i].Addr() == a;
    assert JobFor(s, i, a);
  }

  lemma InputIsCached(c: Config, s: State, f: string, a: string)
    requires Synced(c, s) && Processed(s) == |c.input| && (f, a) in AddressedPairs(c.input)
    ensures a in s.cache && (f, a) in Pairs(s.calls)
  {
    var i :| 0 <= i < |c.input| && !c.input[i].Bare() && (c.input[i].name, c.input[i].addr) == (f, a);
    assert c.input[i] in c.input[..Processed(s)];
    var k :| 0 <= k < |s.calls| && s.calls[k] == c.input[i];
    assert (f, a) == (s.calls[k].name, s.calls[k].addr);
    CachedQualityIsMaximum(s.calls);
  }

  /**
   Each job's share of the verdict channel: one announcement, later one verdict about the same name and
   address, and nothing else about that address.
   */
  lemma TwoPhases(c: Config, acts: seq<Action>, i: nat)
    requires Run(c, Init(), acts) && !After(c, Init(), acts).cancelled
    requires i < |After(c, Init(), acts).jobs|
    ensures var s := After(c, Init(), acts);
            var job := s.jobs[i];
            && job.subject.Named? && job.subject.Qual() == Verifying
            && job.announcedAt < |s.court.sent| && s.court.sent[job.announcedAt] == job.subject
            && (forall k :: 0 <= k < |s.court.sent| && s.court.sent[k].Addr() == job.subject.Addr() ==>
                  k == job.announcedAt || job.stage == Finished(Some(k)))
            && (job.stage.Finished? ==>
                  && job.stage.reportedAt.Some?
                  && job.announcedAt < job.stage.reportedAt.value < |s.court.sent|
                  && s.court.sent[job.stage.reportedAt.value] == Verdict(c, job.subject))
  {
    var s := After(c, Init(), acts);
    Reached(c, acts);
    var job := s.jobs[i];
    assert AnnouncedAt(s, i) == Some(job.announcedAt) && Subjects(s)[i] == job.subject;
    forall k | 0 <= k < |s.court.sent| && s.court.sent[k].Addr() == job.subject.Addr()
      ensures k == job.announcedAt || job.stage == Finished(Some(k))
    {
      CourtMessage(c, s, k);
      SubjectsDiffer(Subjects(s), s.cache.Keys, Pairs(s.calls), i, s.senders[k]);
    }
  }
}
