/**
 What holds in every run because channels and pool are bounded and updates keep their order: how full the
 channels get, who blocks without a reader, and how much of each update was sent.
 */
module PipelineFlow {
  import opened Types
  import opened AddrCache
  import opened CacheHistory
  import opened Pipeline
  import opened PipelineBase
  import opened PipelineSync
  import opened PipelineStream
  import opened PipelineTheorems

  // ---------------------------------------------------------------- bounded channels and a bounded pool

  ghost predicate Bounded(c: Config, s: State)
  {
    && |s.news.sent| <= s.news.taken + c.size
    && |s.court.sent| <= s.court.taken + c.size
    && Running(s.jobs) <= c.size
  }

  lemma {:induction false} RunningUpdate(jobs: seq<Job>, i: nat, j: Job)
    requires i < |jobs|
    ensures Running(jobs[i := j]) + (if Busy(jobs[i]) then 1 else 0) == Running(jobs) + if Busy(j) then 1 else 0
  {
    var n := |jobs| - 1;
    if i == n {
      assert jobs[i := j][..n] == jobs[..n];
    } else {
      assert jobs[i := j][..n] == jobs[..n][i := j];
      RunningUpdate(jobs[..n], i, j);
    }
  }

  lemma RunningAppend(jobs: seq<Job>, j: Job)
    ensures Running(jobs + [j]) == Running(jobs) + if Busy(j) then 1 else 0
  {
    assert (jobs + [j])[..|jobs|] == jobs;
  }

  lemma BoundedSubmit(c: Config, s: State)
    requires Bounded(c, s) && InputEnabled(c, s, Submit)
    ensures Bounded(c, InputStep(c, s, Submit))
  {
    RunningAppend(s.jobs, Job(s.inPc.subject, s.inPc.announcedAt, Queued));
  }

  lemma BoundedInput(c: Config, s: State, a: Action)
    requires Bounded(c, s) && InputEnabled(c, s, a) && a != Submit
    ensures Bounded(c, InputStep(c, s, a))
  {
    assert InputStep(c, s, a).jobs == s.jobs;
  }

  lemma BoundedVerdict(c: Config, s: State, a: Action)
    requires Bounded(c, s) && VerdictEnabled(c, s, a)
    ensures Bounded(c, VerdictStep(c, s, a))
  {
  }

  lemma BoundedWorker(c: Config, s: State, a: Action)
    requires Bounded(c, s) && WorkerEnabled(c, s, a)
    ensures Bounded(c, WorkerStep(c, s, a))
  {
    match a
    case Start(i) => RunningUpdate(s.jobs, i, s.jobs[i].(stage := Pinging));
    case Judge(i, v) => RunningUpdate(s.jobs, i, s.jobs[i].(stage := Judged(v)));
    case Report(i) => RunningUpdate(s.jobs, i, s.jobs[i].(stage := Finished(Some(|s.court.sent|))));
    case DropReport(i) => RunningUpdate(s.jobs, i, s.jobs[i].(stage := Finished(None)));
  }

  lemma BoundedStep(c: Config, s: State, a: Action)
    requires Bounded(c, s) && Enabled(c, s, a)
    ensures Bounded(c, Apply(c, s, a))
  {
    if a == Submit {
      BoundedSubmit(c, s);
    } else if InputEnabled(c, s, a) {
      BoundedInput(c, s, a);
    } else if VerdictEnabled(c, s, a) {
      BoundedVerdict(c, s, a);
    } else if WorkerEnabled(c, s, a) {
      BoundedWorker(c, s, a);
    }
  }

  lemma {:induction false} BoundedHolds(c: Config, s: State, acts: seq<Action>)
    requires Bounded(c, s) && Run(c, s, acts)
    ensures Bounded(c, After(c, s, acts))
    decreases |acts|
  {
    if acts != [] {
      BoundedStep(c, s, acts[0]);
      BoundedHolds(c, Apply(c, s, acts[0]), acts[1..]);
    }
  }

  /** The jobs some worker is occupied with: those that were started and have not reported. */
  function AtWork(jobs: seq<Job>): set<nat>
  {
    set i: nat | i < |jobs| && (jobs[i].stage.Pinging? || jobs[i].stage.Judged?)
  }

  lemma {:induction false} RunningCounts(jobs: seq<Job>)
    ensures Running(jobs) == |AtWork(jobs)|
  {
    if jobs != [] {
      var n := |jobs| - 1;
      RunningCounts(jobs[..n]);
      assert AtWork(jobs) == AtWork(jobs[..n]) + if Busy(jobs[n]) then {n} else {};
    }
  }

  /** In every run no channel ever holds more than its buffer does, and no more jobs run than there are workers. */
  lemma ChannelsAreBounded(c: Config, acts: seq<Action>)
    requires Run(c, Init(), acts)
    ensures var s := After(c, Init(), acts);
            && s.news.taken <= |s.news.sent| <= s.news.taken + c.size
            && s.court.taken <= |s.court.sent| <= s.court.taken + c.size
            && |AtWork(s.jobs)| <= c.size
  {
    RunningCounts(After(c, Init(), acts).jobs);
    BaseInit(c);
    BaseHolds(c, Init(), acts);
    BoundedHolds(c, Init(), acts);
  }

  // ---------------------------------------------------------------- nobody reading

  /** Nothing can happen except that the reader reads or the context is cancelled. */
  ghost predicate WaitsForReader(c: Config, s: State)
  {
    forall a :: Enabled(c, s, a) ==> a == Read || a == Cancel
  }

  /** An uncancelled pipeline waits for its reader only with its news channel full and a sender blocked on it. */
  lemma WaitingMeansFull(c: Config, acts: seq<Action>)
    requires c.size >= 1 && Run(c, Init(), acts) && !After(c, Init(), acts).cancelled
    requires WaitsForReader(c, After(c, Init(), acts))
    ensures var s := After(c, Init(), acts);
            || (s.inPc.Returned? && s.vPc.VDone?)
            || (|s.news.sent| == s.news.taken + c.size && (s.inPc.Forwarding? || Pending(s) != []))
  {
    var s := After(c, Init(), acts);
    BaseInit(c);
    BaseHolds(c, Init(), acts);
    ChannelsAreBounded(c, acts);
    if !(s.inPc.Returned? && s.vPc.VDone?) && Flowing(c, s) {
      var a := MovesOnUnread(c, s);
    }
  }

  lemma {:induction false} UnreadStays(c: Config, s: State, acts: seq<Action>)
    requires Run(c, s, acts) && Read !in acts
    ensures After(c, s, acts).news.taken == s.news.taken
    decreases |acts|
  {
    if acts != [] {
      assert acts[0] in acts;
      OnlyReadReads(c, s, acts[0]);
      UnreadStays(c, Apply(c, s, acts[0]), acts[1..]);
    }
  }

  lemma OnlyReadReads(c: Config, s: State, a: Action)
    requires Enabled(c, s, a) && a != Read
    ensures Apply(c, s, a).news.taken == s.news.taken
  {
    if InputEnabled(c, s, a) {
      InputReadsNothing(c, s, a);
    } else if VerdictEnabled(c, s, a) {
      VerdictReadsNothing(c, s, a);
    } else if WorkerEnabled(c, s, a) {
      WorkerFrame(c, s, a);
    }
  }

  lemma InputReadsNothing(c: Config, s: State, a: Action)
    requires InputEnabled(c, s, a)
    ensures InputStep(c, s, a).news.taken == s.news.taken
  {
  }

  lemma VerdictReadsNothing(c: Config, s: State, a: Action)
    requires VerdictEnabled(c, s, a)
    ensures VerdictStep(c, s, a).news.taken == s.news.taken
  {
  }

  predicate OnlyNames(items: seq<NamedAddress>)
  {
    forall i :: 0 <= i < |items| ==> items[i].Bare()
  }

  lemma {:induction false} NamesAnnounceThemselves(log: seq<NamedAddress>)
    ensures OnlyNames(log) ==> Announcements(log) == log && Addressed(log) == []
    ensures Addressed(log) == [] ==> OnlyNames(log)
  {
    if log != [] {
      var front, na := log[..|log| - 1], log[|log| - 1];
      assert log == front + [na];
      assert OnlyNames(log) <==> OnlyNames(front) && na.Bare();
      NamesAnnounceThemselves(front);
    }
  }

  lemma NamesAreNotCached(c: Config, s: State)
    requires Base(c, s) && OnlyNames(c.input)
    ensures s.calls == []
  {
    assert s.calls != [] ==> FromInput(c, s.calls[0]);
  }

  /** On names alone the news are the names dealt with so far, and nothing is pending. */
  lemma NamesOnly(c: Config, s: State)
    requires Synced(c, s) && OnlyNames(c.input)
    ensures s.calls == [] && Pending(s) == []
    ensures s.news.sent == c.input[..Processed(s)]
  {
    NamesAreNotCached(c, s);
    NamesAnnounceThemselves(s.news.sent);
    NamesAnnounceThemselves(c.input[..Processed(s)]);
  }

  /**
   Without a reader, and with more names than the channel can buffer, the input loop forwards just as many as
   it can buffer and then waits in the send of the next.
   */
  lemma UnreadNamesBlock(c: Config, acts: seq<Action>)
    requires OnlyNames(c.input) && 1 <= c.size < |c.input|
    requires Run(c, Init(), acts) && !After(c, Init(), acts).cancelled && Read !in acts
    ensures |After(c, Init(), acts).news.sent| <= c.size
    ensures WaitsForReader(c, After(c, Init(), acts)) ==>
            After(c, Init(), acts).news.sent == c.input[..c.size]
            && After(c, Init(), acts).inPc == Forwarding(c.input[c.size])
  {
    var s := After(c, Init(), acts);
    UnreadStays(c, Init(), acts);
    ChannelsAreBounded(c, acts);
    Reached(c, acts);
    NamesOnly(c, s);
    if WaitsForReader(c, s) {
      WaitingMeansFull(c, acts);
    }
  }

  // ---------------------------------------------------------------- how much of each update was sent

  /** What the last update still has to send is the end of its messages. */
  ghost predicate RestOfLast(pending: seq<NamedAddress>, calls: seq<NamedAddress>, kept: seq<nat>)
    requires |kept| == |calls| && calls != []
  {
    var out := LastOutcome(calls).out;
    kept[|calls| - 1] >= |out| && |pending| <= |out| && pending == out[|out| - |pending|..]
  }

  /** What was sent about addresses is, update by update, as much of its messages as `kept` says. */
  ghost predicate SentAsKept(log: seq<NamedAddress>, pending: seq<NamedAddress>, calls: seq<NamedAddress>,
                             kept: seq<nat>)
  {
    && |kept| == |calls|
    && Addressed(log) + pending == Delivered(calls, kept)
    && (pending != [] ==> calls != [] && RestOfLast(pending, calls, kept))
  }

  lemma UpdateAsKept(log: seq<NamedAddress>, calls: seq<NamedAddress>, kept: seq<nat>, na: NamedAddress)
    returns (kept': seq<nat>)
    requires SentAsKept(log, [], calls, kept)
    ensures SentAsKept(log, Updated(CacheAfter(calls), na).out, calls + [na], kept')
  {
    var more, out := calls + [na], Updated(CacheAfter(calls), na).out;
    var n: nat := |out|;
    kept' := kept + [n];
    assert more[..|calls|] == calls && kept'[..|calls|] == kept;
    assert Addressed(log) + [] == Addressed(log);
    DeliveredMore(calls, kept, na, n);
    assert out[0..] == out;
  }

  lemma DeliveredMore(calls: seq<NamedAddress>, kept: seq<nat>, na: NamedAddress, n: nat)
    requires |kept| == |calls| && n == |Updated(CacheAfter(calls), na).out|
    ensures Delivered(calls + [na], kept + [n]) == Delivered(calls, kept) + Updated(CacheAfter(calls), na).out
  {
    assert (calls + [na])[..|calls|] == calls && (kept + [n])[..|calls|] == kept;
  }

  lemma SendAsKept(log: seq<NamedAddress>, pending: seq<NamedAddress>, calls: seq<NamedAddress>, kept: seq<nat>)
    requires SentAsKept(log, pending, calls, kept) && pending != [] && !pending[0].Bare()
    ensures SentAsKept(log + [pending[0]], pending[1..], calls, kept)
  {
    OneMessageMore(log, pending[0]);
    MoveOver(Addressed(log), pending);
    RestShrinks(pending, calls, kept);
  }

  lemma MoveOver<T>(s: seq<T>, pending: seq<T>)
    requires pending != []
    ensures s + [pending[0]] + pending[1..] == s + pending
  {
  }

  lemma RestShrinks(pending: seq<NamedAddress>, calls: seq<NamedAddress>, kept: seq<nat>)
    requires |kept| == |calls| && calls != [] && pending != [] && RestOfLast(pending, calls, kept)
    ensures RestOfLast(pending[1..], calls, kept)
  {
  }

  /** Bailing out keeps the messages sent so far. */
  lemma DropAsKept(log: seq<NamedAddress>, pending: seq<NamedAddress>, calls: seq<NamedAddress>, kept: seq<nat>)
    returns (kept': seq<nat>)
    requires SentAsKept(log, pending, calls, kept) && pending != []
    ensures SentAsKept(log, [], calls, kept')
  {
    var n, out := |calls| - 1, LastOutcome(calls).out;
    var k := |out| - |pending|;
    var front := Delivered(calls[..n], kept[..n]);
    kept' := kept[..n] + [k];
    assert kept'[..n] == kept[..n];
    assert out == out[..k] + pending;
    assert Addressed(log) + pending == front + out;
    assert front + out == (front + out[..k]) + pending;
    SameFront(Addressed(log), front + out[..k], pending);
    assert Addressed(log) + [] == Addressed(log);
  }

  lemma SameFront<T>(s: seq<T>, t: seq<T>, rest: seq<T>)
    requires s + rest == t + rest
    ensures s == t
  {
    assert |s| == |t|;
    assert forall i :: 0 <= i < |s| ==> s[i] == (s + rest)[i] == (t + rest)[i] == t[i];
  }

  lemma ForwardAsKept(log: seq<NamedAddress>, pending: seq<NamedAddress>, calls: seq<NamedAddress>, kept: seq<nat>,
                      na: NamedAddress)
    requires SentAsKept(log, pending, calls, kept) && na.Bare()
    ensures SentAsKept(log + [na], pending, calls, kept)
  {
    OneMessageMore(log, na);
    assert Addressed(log) + [] == Addressed(log);
  }

  /** As many messages of each update as this say were sent, the rest of the running one counted in. */
  ghost predicate Keeps(s: State, kept: seq<nat>)
  {
    && SentAsKept(s.news.sent, Pending(s), s.calls, kept)
    && forall i :: 0 <= i < |Pending(s)| ==> !Pending(s)[i].Bare()
  }

  lemma KeepsUpdate(c: Config, s: State, s': State, kept: seq<nat>, na: NamedAddress) returns (kept': seq<nat>)
    requires Base(c, s) && Keeps(s, kept) && Pending(s) == [] && FromInput(c, na)
    requires s'.news.sent == s.news.sent && s'.calls == s.calls + [na] && Pending(s') == Updated(s.cache, na).out
    ensures Keeps(s', kept')
  {
    kept' := UpdateAsKept(s.news.sent, s.calls, kept, na);
    PairsAreAddressed(c, na);
    MessagesCarryCachedQuality(s.cache, na);
  }

  lemma KeepsSend(s: State, s': State, kept: seq<nat>)
    requires Keeps(s, kept) && Pending(s) != []
    requires s'.news.sent == s.news.sent + [Pending(s)[0]] && s'.calls == s.calls && Pending(s') == Pending(s)[1..]
    ensures Keeps(s', kept)
  {
    SendAsKept(s.news.sent, Pending(s), s.calls, kept);
  }

  lemma KeepsInput(c: Config, s: State, a: Action, kept: seq<nat>) returns (kept': seq<nat>)
    requires Base(c, s) && Keeps(s, kept) && ForwardsBare(s) && InputEnabled(c, s, a)
    ensures Keeps(InputStep(c, s, a), kept')
  {
    var s' := InputStep(c, s, a);
    kept' := kept;
    if a.Lock? {
      kept' := KeepsUpdate(c, s, s', kept, s.inPc.na);
    } else if a.Emit? {
      KeepsSend(s, s', kept);
    } else if a.DropOut? {
      kept' := DropAsKept(s.news.sent, s.inPc.out, s.calls, kept);
    } else if a.Forward? {
      ForwardAsKept(s.news.sent, Pending(s), s.calls, kept, s.inPc.na);
    } else {
      InputLeavesNews(c, s, a);
    }
  }

  lemma InputLeavesNews(c: Config, s: State, a: Action)
    requires Structure(c, s) && InputEnabled(c, s, a) && !a.Lock? && !a.Emit? && !a.DropOut? && !a.Forward?
    ensures var s' := InputStep(c, s, a);
            Pending(s') == Pending(s) && s'.news.sent == s.news.sent && s'.calls == s.calls
  {
  }

  lemma KeepsVerdict(c: Config, s: State, a: Action, kept: seq<nat>) returns (kept': seq<nat>)
    requires Base(c, s) && Keeps(s, kept) && VerdictEnabled(c, s, a) && !VerdictStep(c, s, a).panicked
    ensures Keeps(VerdictStep(c, s, a), kept')
  {
    var s' := VerdictStep(c, s, a);
    kept' := kept;
    if a.VLock? {
      kept' := KeepsUpdate(c, s, s', kept, s.vPc.na);
    } else if a.VEmit? {
      KeepsSend(s, s', kept);
    } else if a.VDrop? {
      kept' := DropAsKept(s.news.sent, s.vPc.out, s.calls, kept);
    } else {
      assert Pending(s') == Pending(s) && s'.news.sent == s.news.sent && s'.calls == s.calls;
    }
  }

  lemma KeepsStep(c: Config, s: State, a: Action, kept: seq<nat>) returns (kept': seq<nat>)
    requires Base(c, s) && Keeps(s, kept) && ForwardsBare(s) && Enabled(c, s, a) && !Apply(c, s, a).panicked
    ensures Keeps(Apply(c, s, a), kept')
  {
    if InputEnabled(c, s, a) {
      kept' := KeepsInput(c, s, a, kept);
    } else if VerdictEnabled(c, s, a) {
      kept' := KeepsVerdict(c, s, a, kept);
    } else {
      OthersLeaveNews(c, s, a);
      assert Pending(Apply(c, s, a)) == Pending(s);
      kept' := kept;
    }
  }

  lemma {:induction false} KeepsHolds(c: Config, s: State, acts: seq<Action>, kept: seq<nat>) returns (kept': seq<nat>)
    requires Base(c, s) && Keeps(s, kept) && ForwardsBare(s) && Run(c, s, acts) && !After(c, s, acts).panicked
    ensures Keeps(After(c, s, acts), kept')
    decreases |acts|
  {
    kept' := kept;
    if acts != [] {
      StructureStep(c, s, acts[0]);
      OriginStep(c, s, acts[0]);
      ForwardsBareStep(c, s, acts[0]);
      PanicEnds(c, s, acts);
      kept' := KeepsStep(c, s, acts[0], kept');
      kept' := KeepsHolds(c, Apply(c, s, acts[0]), acts[1..], kept');
    }
  }

  lemma PanicEnds(c: Config, s: State, acts: seq<Action>)
    requires acts != [] && Run(c, s, acts) && !After(c, s, acts).panicked
    ensures !Apply(c, s, acts[0]).panicked
  {
    if acts[1..] != [] {
      assert Enabled(c, Apply(c, s, acts[0]), acts[1..][0]);
    }
  }

  /**
   In every run, cancelled or not, short of a panic: what was sent about addresses is, update by update in the
   order in which they took the mutex, a first part of the messages of each, all of them unless the context was done.
   */
  lemma NewsIsDelivered(c: Config, acts: seq<Action>) returns (kept: seq<nat>)
    requires Run(c, Init(), acts) && !After(c, Init(), acts).panicked
    ensures var s := After(c, Init(), acts);
            && |kept| == |s.calls|
            && Addressed(s.news.sent) + Pending(s) == Delivered(s.calls, kept)
            && (!s.cancelled ==> Delivered(s.calls, kept) == Stream(s.calls))
  {
    BaseInit(c);
    kept := KeepsHolds(c, Init(), acts, []);
    if !After(c, Init(), acts).cancelled {
      Reached(c, acts);
    }
  }
}
