/** What holds in every reachable state of the pipeline, cancelled or not, and what bounds every run. */
module PipelineBase {
  import opened Types
  import opened AddrCache
  import opened CacheHistory
  import opened Pipeline

  // ---------------------------------------------------------------- the structural invariant

  predicate CourtClosing(pc: InputPc)
  {
    pc.Deciding? || pc.WaitingDone? || pc.Closing? || pc.Returned?
  }

  /** One holder of the mutex, channels closed in order, and the cache is what the recorded updates make it. */
  ghost predicate Structure(c: Config, s: State)
  {
    && s.taken <= |c.input|
    && s.court.taken <= |s.court.sent|
    && s.news.taken <= |s.news.sent|
    && !(s.inPc.Updating? && s.vPc.VUpdating?)
    && (s.news.closed <==> s.inPc.Returned?)
    && (s.court.closed <==> CourtClosing(s.inPc))
    && (s.court.closed ==> AllFinished(s.jobs))
    && s.cache == CacheAfter(s.calls)
    && (s.inPc.Closing? || s.inPc.Returned? ==> s.cancelled || s.vPc.VDone?)
    && (s.vPc.VDone? ==> s.cancelled || (s.court.closed && s.court.Drained()))
    && (s.inPc.Stopping? || CourtClosing(s.inPc) ==> s.cancelled || s.taken == |c.input|)
    && (s.panicked ==> s.cancelled && s.inPc.Returned?)
  }

  predicate FromInput(c: Config, na: NamedAddress)
  {
    (na.name, na.addr) in AddressedPairs(c.input)
  }

  predicate NamedFromInput(c: Config, qa: QualifiedAddress)
  {
    qa.Named? && FromInput(c, qa.na)
  }

  /** Whatever travels through the pipeline is named and goes back to an addressed input item. */
  ghost predicate Origin(c: Config, s: State)
  {
    && (s.inPc.Locking? ==> FromInput(c, s.inPc.na))
    && (s.inPc.Updating? ==> FromInput(c, s.inPc.na))
    && (s.inPc.Announcing? ==> NamedFromInput(c, s.inPc.subject))
    && (s.inPc.Submitting? ==> NamedFromInput(c, s.inPc.subject))
    && (s.vPc.VLocking? ==> FromInput(c, s.vPc.na))
    && (forall i :: 0 <= i < |s.jobs| ==> NamedFromInput(c, s.jobs[i].subject))
    && (forall k :: 0 <= k < |s.court.sent| ==> NamedFromInput(c, s.court.sent[k]))
    && (forall k :: 0 <= k < |s.calls| ==> FromInput(c, s.calls[k]))
  }

  ghost predicate Base(c: Config, s: State)
  {
    Structure(c, s) && Origin(c, s)
  }

  lemma BaseInit(c: Config)
    ensures Base(c, Init())
  {
  }

  lemma CallRecorded(s: State, na: NamedAddress)
    requires s.cache == CacheAfter(s.calls)
    ensures Call(s, na).cache == CacheAfter(Call(s, na).calls)
    ensures Call(s, na).calls == s.calls + [na]
  {
    Unfold(s.calls, na);
  }

  lemma StructureLock(c: Config, s: State)
    requires Structure(c, s) && !s.panicked && InputEnabled(c, s, Lock)
    ensures Structure(c, InputStep(c, s, Lock))
  {
    CallRecorded(s, s.inPc.na);
  }

  lemma StructureSend(c: Config, s: State, a: Action)
    requires Structure(c, s) && !s.panicked && InputEnabled(c, s, a) && (a.Forward? || a.Emit? || a.Announce?)
    ensures Structure(c, InputStep(c, s, a))
  {
  }

  lemma StructureClose(c: Config, s: State, a: Action)
    requires Structure(c, s) && !s.panicked && InputEnabled(c, s, a)
    requires a.CloseCourt? || a.CheckContext? || a.SeeDone? || a.CloseNews?
    ensures Structure(c, InputStep(c, s, a))
  {
  }

  lemma StructureInput(c: Config, s: State, a: Action)
    requires Structure(c, s) && !s.panicked && InputEnabled(c, s, a) && !a.Lock?
    ensures Structure(c, InputStep(c, s, a))
  {
    if a.Forward? || a.Emit? || a.Announce? {
      StructureSend(c, s, a);
    } else if a.CloseCourt? || a.CheckContext? || a.SeeDone? || a.CloseNews? {
      StructureClose(c, s, a);
    }
  }

  lemma StructureVerdict(c: Config, s: State, a: Action)
    requires Structure(c, s) && Origin(c, s) && !s.panicked && VerdictEnabled(c, s, a)
    ensures Structure(c, VerdictStep(c, s, a))
  {
    if a.VLock? {
      CallRecorded(s, s.vPc.na);
    }
  }

  lemma StructureWorker(c: Config, s: State, a: Action)
    requires Structure(c, s) && !s.panicked && WorkerEnabled(c, s, a)
    ensures Structure(c, WorkerStep(c, s, a))
  {
  }

  lemma StructureStep(c: Config, s: State, a: Action)
    requires Base(c, s) && Enabled(c, s, a)
    ensures Structure(c, Apply(c, s, a))
  {
    if a.Lock? {
      StructureLock(c, s);
    } else if InputEnabled(c, s, a) {
      StructureInput(c, s, a);
    } else if VerdictEnabled(c, s, a) {
      StructureVerdict(c, s, a);
    } else if WorkerEnabled(c, s, a) {
      StructureWorker(c, s, a);
    }
  }

  lemma OriginTake(c: Config, s: State)
    requires Origin(c, s) && InputEnabled(c, s, Take)
    ensures Origin(c, InputStep(c, s, Take))
  {
    if !c.input[s.taken].Bare() {
      assert FromInput(c, c.input[s.taken]);
    }
  }

  lemma OriginLock(c: Config, s: State)
    requires Origin(c, s) && InputEnabled(c, s, Lock)
    ensures Origin(c, InputStep(c, s, Lock))
  {
  }

  lemma OriginAnnounce(c: Config, s: State)
    requires Origin(c, s) && InputEnabled(c, s, Announce)
    ensures Origin(c, InputStep(c, s, Announce))
  {
  }

  lemma OriginSubmit(c: Config, s: State)
    requires Origin(c, s) && InputEnabled(c, s, Submit)
    ensures Origin(c, InputStep(c, s, Submit))
  {
  }

  /** The steps that take nothing in and hand nothing over. */
  lemma OriginMove(c: Config, s: State, a: Action)
    requires Origin(c, s) && InputEnabled(c, s, a) && !a.Take? && !a.Lock? && !a.Announce? && !a.Submit?
    ensures Origin(c, InputStep(c, s, a))
  {
    var s' := InputStep(c, s, a);
    assert s'.jobs == s.jobs && s'.court.sent == s.court.sent && s'.calls == s.calls && s'.vPc == s.vPc;
  }

  lemma OriginInput(c: Config, s: State, a: Action)
    requires Origin(c, s) && InputEnabled(c, s, a)
    ensures Origin(c, InputStep(c, s, a))
  {
    if a.Take? {
      OriginTake(c, s);
    } else if a.Lock? {
      OriginLock(c, s);
    } else if a.Announce? {
      OriginAnnounce(c, s);
    } else if a.Submit? {
      OriginSubmit(c, s);
    } else {
      OriginMove(c, s, a);
    }
  }

  lemma OriginVerdict(c: Config, s: State, a: Action)
    requires Structure(c, s) && Origin(c, s) && VerdictEnabled(c, s, a)
    ensures Origin(c, VerdictStep(c, s, a))
  {
  }

  lemma OriginWorker(c: Config, s: State, a: Action)
    requires Origin(c, s) && WorkerEnabled(c, s, a)
    ensures Origin(c, WorkerStep(c, s, a))
  {
  }

  lemma OriginStep(c: Config, s: State, a: Action)
    requires Base(c, s) && Enabled(c, s, a)
    ensures Origin(c, Apply(c, s, a))
  {
    if InputEnabled(c, s, a) {
      OriginInput(c, s, a);
    } else if VerdictEnabled(c, s, a) {
      OriginVerdict(c, s, a);
    } else if WorkerEnabled(c, s, a) {
      OriginWorker(c, s, a);
    }
  }

  lemma {:induction false} BaseHolds(c: Config, s: State, acts: seq<Action>)
    requires Base(c, s) && Run(c, s, acts)
    ensures Base(c, After(c, s, acts))
    decreases |acts|
  {
    if acts != [] {
      StructureStep(c, s, acts[0]);
      OriginStep(c, s, acts[0]);
      BaseHolds(c, Apply(c, s, acts[0]), acts[1..]);
    }
  }

  // ---------------------------------------------------------------- the measure

  lemma {:induction false} DistinctFitInto<T>(s: seq<T>, bound: set<T>)
    requires NoDuplicates(s)
    requires forall i :: 0 <= i < |s| ==> s[i] in bound
    ensures |s| <= |bound|
  {
    if s != [] {
      var n := |s| - 1;
      forall i | 0 <= i < n
        ensures s[..n][i] in bound - {s[n]}
      {
      }
      DistinctFitInto(s[..n], bound - {s[n]});
    }
  }

  lemma {:induction false} PairsAreFew(items: seq<NamedAddress>)
    ensures |AddressedPairs(items)| <= |items|
  {
    if items != [] {
      var n := |items| - 1;
      PairsAreFew(items[..n]);
      var fewer, pairs := AddressedPairs(items[..n]), AddressedPairs(items);
      assert pairs <= fewer + {(items[n].name, items[n].addr)} by {
        forall p | p in pairs
          ensures p in fewer || p == (items[n].name, items[n].addr)
        {
          var i :| 0 <= i < |items| && !items[i].Bare() && p == (items[i].name, items[i].addr);
          assert i < n ==> items[..n][i] == items[i];
        }
      }
      SmallerSet(pairs, fewer + {(items[n].name, items[n].addr)});
    }
  }

  lemma {:induction false} SmallerSet<T>(s: set<T>, t: set<T>)
    requires s <= t
    ensures |s| <= |t|
  {
    if s != {} {
      var x :| x in s;
      SmallerSet(s - {x}, t - {x});
    }
  }

  /** One update never has more messages to send than there are addressed input pairs. */
  lemma FanOutIsBounded(c: Config, s: State, na: NamedAddress)
    requires Base(c, s) && FromInput(c, na)
    ensures |Updated(s.cache, na).out| <= |c.input|
  {
    var out := Updated(s.cache, na).out;
    var pairs := seq(|out|, i requires 0 <= i < |out| => (out[i].name, out[i].addr));
    OneMessagePerName(s.calls, na);
    StreamAboutPairs(s.calls + [na]);
    Unfold(s.calls, na);
    forall i | 0 <= i < |out|
      ensures pairs[i] in AddressedPairs(c.input)
    {
      assert out[i] in Stream(s.calls + [na]);
      assert pairs[i] in Pairs(s.calls + [na]);
    }
    DistinctFitInto(pairs, AddressedPairs(c.input));
    PairsAreFew(c.input);
  }

  function JobWork(j: Job): nat
  {
    match j.stage
    case Queued => 6
    case Pinging => 5
    case Judged(_) => 4
    case Finished(_) => 0
  }

  function AllWork(jobs: seq<Job>): nat
  {
    if jobs == [] then 0 else AllWork(jobs[..|jobs| - 1]) + JobWork(jobs[|jobs| - 1])
  }

  lemma {:induction false} WorkUpdate(jobs: seq<Job>, i: nat, j: Job)
    requires i < |jobs|
    ensures AllWork(jobs[i := j]) == AllWork(jobs) - JobWork(jobs[i]) + JobWork(j)
  {
    var n := |jobs| - 1;
    if i == n {
      assert jobs[i := j][..n] == jobs[..n];
    } else {
      assert jobs[i := j][..n] == jobs[..n][i := j];
      WorkUpdate(jobs[..n], i, j);
    }
  }

  function InputWork(pc: InputPc): nat
  {
    match pc
    case Locking(_) => 18
    case Updating(_, _, _) => 17
    case Announcing(_) => 16
    case Submitting(_, _) => 12
    case Forwarding(_) => 6
    case Reading => 5
    case Stopping => 4
    case Deciding => 3
    case WaitingDone => 2
    case Closing => 1
    case Returned => 0
  }

  function VerdictWork(pc: VerdictPc): nat
  {
    match pc
    case VLocking(_) => 3
    case VUpdating(_) => 2
    case Receiving => 1
    case VDone => 0
  }

  /** Steps left, not counting the messages of the running update and those waiting for the reader. */
  function StepsLeft(c: Config, s: State): int
  {
    14 * (|c.input| - s.taken) + InputWork(s.inPc) + VerdictWork(s.vPc) + AllWork(s.jobs)
    + 3 * (|s.court.sent| - s.court.taken) + if s.cancelled then 0 else 1
  }

  /** Every step that can start a fan-out pays for the sends of that fan-out and for their being read. */
  function Measure(c: Config, s: State): int
  {
    StepsLeft(c, s) * (2 * |c.input| + 2) + Traffic(s)
  }

  lemma WorkAppend(jobs: seq<Job>, j: Job)
    ensures AllWork(jobs + [j]) == AllWork(jobs) + JobWork(j)
  {
    assert (jobs + [j])[..|jobs|] == jobs;
  }

  function Traffic(s: State): int
  {
    2 * |Pending(s)| + |s.news.sent| - s.news.taken
  }

  /** What one step may do to the two parts of the measure. */
  ghost predicate Cheaper(c: Config, s: State, s': State)
  {
    || (StepsLeft(c, s') == StepsLeft(c, s) && Traffic(s') < Traffic(s))
    || (StepsLeft(c, s') < StepsLeft(c, s) && Traffic(s') <= Traffic(s) + 2 * |c.input| + 1)
  }

  lemma Weigh(less: int, more: int, k: nat)
    requires less < more
    ensures less * k + k <= more * k
  {
    assert more * k == less * k + (more - less) * k;
    assert (more - less) * k == k + (more - less - 1) * k;
    assert (more - less - 1) * k >= 0;
  }

  lemma CheaperMeasure(c: Config, s: State, s': State)
    requires Cheaper(c, s, s')
    ensures Measure(c, s') < Measure(c, s)
  {
    if StepsLeft(c, s') < StepsLeft(c, s) {
      Weigh(StepsLeft(c, s'), StepsLeft(c, s), 2 * |c.input| + 2);
    }
  }

  lemma SubmitCheaper(c: Config, s: State)
    requires Structure(c, s) && InputEnabled(c, s, Submit)
    ensures Cheaper(c, s, InputStep(c, s, Submit))
  {
    WorkAppend(s.jobs, Job(s.inPc.subject, s.inPc.announcedAt, Queued));
  }

  lemma InputSendCheaper(c: Config, s: State, a: Action)
    requires Structure(c, s) && InputEnabled(c, s, a) && (a.Forward? || a.Emit? || a.Announce? || a.DropOut?)
    ensures Cheaper(c, s, InputStep(c, s, a))
  {
  }

  lemma InputMoveCheaper(c: Config, s: State, a: Action)
    requires Structure(c, s) && InputEnabled(c, s, a) && !a.Lock? && !a.Submit?
    requires !a.Forward? && !a.Emit? && !a.Announce? && !a.DropOut?
    ensures Cheaper(c, s, InputStep(c, s, a))
  {
  }

  lemma VerdictStepCheaper(c: Config, s: State, a: Action)
    requires Structure(c, s) && VerdictEnabled(c, s, a) && !a.VLock?
    ensures Cheaper(c, s, VerdictStep(c, s, a))
  {
  }

  lemma LockCheaper(c: Config, s: State)
    requires Base(c, s) && InputEnabled(c, s, Lock)
    ensures Cheaper(c, s, InputStep(c, s, Lock))
  {
    FanOutIsBounded(c, s, s.inPc.na);
  }

  lemma VLockCheaper(c: Config, s: State)
    requires Base(c, s) && VerdictEnabled(c, s, VLock)
    ensures Cheaper(c, s, VerdictStep(c, s, VLock))
  {
    FanOutIsBounded(c, s, s.vPc.na);
  }

  lemma WorkerStepCheaper(c: Config, s: State, a: Action)
    requires Structure(c, s) && WorkerEnabled(c, s, a)
    ensures Cheaper(c, s, WorkerStep(c, s, a))
  {
    match a
    case Start(i) => WorkUpdate(s.jobs, i, s.jobs[i].(stage := Pinging));
    case Judge(i, v) => WorkUpdate(s.jobs, i, s.jobs[i].(stage := Judged(v)));
    case Report(i) => WorkUpdate(s.jobs, i, s.jobs[i].(stage := Finished(Some(|s.court.sent|))));
    case DropReport(i) => WorkUpdate(s.jobs, i, s.jobs[i].(stage := Finished(None)));
  }

  lemma StepDecreasesMeasure(c: Config, s: State, a: Action)
    requires Base(c, s) && Enabled(c, s, a)
    ensures Measure(c, Apply(c, s, a)) < Measure(c, s)
  {
    if InputEnabled(c, s, a) {
      if a.Lock? {
        LockCheaper(c, s);
      } else if a.Submit? {
        SubmitCheaper(c, s);
      } else if a.Forward? || a.Emit? || a.Announce? || a.DropOut? {
        InputSendCheaper(c, s, a);
      } else {
        InputMoveCheaper(c, s, a);
      }
      CheaperMeasure(c, s, InputStep(c, s, a));
    } else if VerdictEnabled(c, s, a) {
      if a.VLock? {
        VLockCheaper(c, s);
      } else {
        VerdictStepCheaper(c, s, a);
      }
      CheaperMeasure(c, s, VerdictStep(c, s, a));
    } else if WorkerEnabled(c, s, a) {
      WorkerStepCheaper(c, s, a);
      CheaperMeasure(c, s, WorkerStep(c, s, a));
    } else {
      CheaperMeasure(c, s, Apply(c, s, a));
    }
  }

  lemma {:induction false} RunCostsMeasure(c: Config, s: State, acts: seq<Action>)
    requires Base(c, s) && Run(c, s, acts)
    ensures |acts| + Measure(c, After(c, s, acts)) <= Measure(c, s)
    decreases |acts|
  {
    if acts != [] {
      StructureStep(c, s, acts[0]);
      OriginStep(c, s, acts[0]);
      StepDecreasesMeasure(c, s, acts[0]);
      RunCostsMeasure(c, Apply(c, s, acts[0]), acts[1..]);
    }
  }

  lemma ProductIsNat(x: nat, k: nat)
    ensures x * k >= 0
  {
  }

  lemma MeasureIsNat(c: Config, s: State)
    requires Base(c, s)
    ensures Measure(c, s) >= 0
  {
    ProductIsNat(StepsLeft(c, s), 2 * |c.input| + 2);
  }

  /** The number of steps no run on an input of length n exceeds. */
  function StepBound(n: nat): nat
  {
    (14 * n + 7) * (2 * n + 2)
  }

  lemma InitialMeasure(c: Config)
    ensures Measure(c, Init()) == StepBound(|c.input|)
  {
    assert StepsLeft(c, Init()) == 14 * |c.input| + 7;
    assert Traffic(Init()) == 0;
  }

  /** No run, cancelled or not, goes on for ever: its length is bounded by a polynomial in the input's length. */
  lemma EveryRunIsFinite(c: Config, acts: seq<Action>)
    requires Run(c, Init(), acts)
    ensures |acts| <= StepBound(|c.input|)
  {
    BaseInit(c);
    BaseHolds(c, Init(), acts);
    RunCostsMeasure(c, Init(), acts);
    MeasureIsNat(c, After(c, Init(), acts));
    InitialMeasure(c);
  }

  // ---------------------------------------------------------------- cancellation

  lemma {:induction false} NobodyRunning(jobs: seq<Job>)
    requires forall i :: 0 <= i < |jobs| ==> !Busy(jobs[i])
    ensures Running(jobs) == 0
  {
    if jobs != [] {
      NobodyRunning(jobs[..|jobs| - 1]);
    }
  }

  /** Once the context is done, a verdict loop inside an update can always get out of it. */
  lemma CancelledVerdictLoopLetsGo(c: Config, s: State) returns (a: Action)
    requires Base(c, s) && s.cancelled && !s.panicked && s.vPc.VUpdating?
    ensures Enabled(c, s, a) && a != Read && a != Cancel
  {
    a := if s.vPc.out == [] then VUnlock else VDrop;
    assert VerdictEnabled(c, s, a);
  }

  lemma CancelledVerdictLoopEnds(c: Config, s: State) returns (a: Action)
    requires Base(c, s) && s.cancelled && !s.panicked && (s.inPc.WaitingDone? || (s.inPc.Returned? && !s.vPc.VDone?))
    ensures Enabled(c, s, a) && a != Read && a != Cancel
  {
    if s.vPc.VUpdating? {
      a := CancelledVerdictLoopLetsGo(c, s);
    } else {
      a := if s.vPc.Receiving? then VQuit else if s.vPc.VLocking? then VLock else SeeDone;
      assert VerdictEnabled(c, s, a) || InputEnabled(c, s, a);
    }
  }

  /** What the input loop does next under a done context when it needs nobody else. */
  function InputAlone(pc: InputPc): Action
  {
    match pc
    case Reading => QuitInput
    case Forwarding(_) => QuitInput
    case Locking(_) => Lock
    case Updating(_, out, _) => if out == [] then Unlock else DropOut
    case Announcing(_) => DropAnnounce
    case Submitting(_, _) => Submit
    case Stopping => CloseCourt
    case Deciding => CheckContext
    case WaitingDone => SeeDone
    case Closing => CloseNews
    case Returned => CloseNews
  }

  /** Once the context is done, something other than the reader can always go on until both loops have ended. */
  lemma CancelledMovesOn(c: Config, s: State) returns (a: Action)
    requires c.size >= 1 && Base(c, s) && s.cancelled && !s.panicked && !(s.inPc.Returned? && s.vPc.VDone?)
    ensures Enabled(c, s, a) && a != Read && a != Cancel
  {
    if s.inPc.Returned? {
      a := CancelledVerdictLoopEnds(c, s);
    } else if s.inPc.Locking? && s.vPc.VUpdating? {
      a := CancelledVerdictLoopLetsGo(c, s);
    } else if s.inPc.WaitingDone? {
      a := CancelledVerdictLoopEnds(c, s);
    } else if s.inPc.Stopping? {
      a := CancelledPoolMovesOn(c, s);
    } else {
      a := InputAlone(s.inPc);
      assert InputEnabled(c, s, a);
    }
  }

  lemma CancelledPoolMovesOn(c: Config, s: State) returns (a: Action)
    requires c.size >= 1 && Base(c, s) && s.cancelled && s.inPc.Stopping?
    ensures Enabled(c, s, a) && a != Read && a != Cancel
    ensures !AllFinished(s.jobs) ==> WorkerEnabled(c, s, a)
  {
    if AllFinished(s.jobs) {
      a := CloseCourt;
      assert InputEnabled(c, s, a);
    } else if i :| 0 <= i < |s.jobs| && Busy(s.jobs[i]) {
      a := if s.jobs[i].stage.Pinging? then Judge(i, Invalid) else DropReport(i);
      assert WorkerEnabled(c, s, a);
    } else {
      NobodyRunning(s.jobs);
      var i :| 0 <= i < |s.jobs| && !s.jobs[i].stage.Finished?;
      a := Start(i);
      assert WorkerEnabled(c, s, a);
    }
  }

  /**
   From any reachable cancelled state and without anybody reading the news: every continuation is bounded,
   and one that cannot go on has returned from `Verify` and, unless a send hit the closed news, leaves
   neither the verdict loop nor a job behind.
   */
  lemma CancelledVerifyReturns(c: Config, before: seq<Action>, acts: seq<Action>)
    requires c.size >= 1 && Run(c, Init(), before) && After(c, Init(), before).cancelled
    requires Run(c, After(c, Init(), before), acts)
    requires forall a :: Enabled(c, After(c, After(c, Init(), before), acts), a) ==> a == Read
    ensures var s := After(c, After(c, Init(), before), acts);
            s.inPc.Returned? && (s.panicked || (s.vPc.VDone? && AllFinished(s.jobs)))
    ensures |before| + |acts| <= StepBound(|c.input|)
  {
    var s := After(c, Init(), before);
    BaseInit(c);
    BaseHolds(c, Init(), before);
    RunCostsMeasure(c, Init(), before);
    BaseHolds(c, s, acts);
    CancelledStays(c, s, acts);
    RunCostsMeasure(c, s, acts);
    MeasureIsNat(c, After(c, s, acts));
    InitialMeasure(c);
    var s' := After(c, s, acts);
    if !s'.inPc.Returned? || (!s'.panicked && !s'.vPc.VDone?) {
      var a := CancelledMovesOn(c, After(c, s, acts));
    }
  }

  // ---------------------------------------------------------------- deadlock freedom

  /** The run is over: `Verify` has returned and the reader has seen everything, up to the closed channel. */
  predicate Over(s: State)
  {
    s.inPc.Returned? && s.vPc.VDone? && s.news.Drained()
  }

  /** Something other than the cancellation of the context can happen. */
  ghost predicate Lively(c: Config, s: State)
  {
    exists a :: Enabled(c, s, a) && a != Cancel
  }

  /** Nobody is held up by a full news channel. */
  predicate Flowing(c: Config, s: State)
  {
    s.news.Ready(c.size) || (!s.inPc.Forwarding? && Pending(s) == [])
  }

  /** Then a verdict loop that has something to do can do it. */
  lemma VerdictLoopMovesOn(c: Config, s: State) returns (a: Action)
    requires c.size >= 1 && Base(c, s) && !s.cancelled && Flowing(c, s)
    requires s.vPc.VUpdating? || (s.vPc.VLocking? && !s.inPc.Updating?) ||
             (s.vPc.Receiving? && (!s.court.Drained() || s.court.closed))
    ensures VerdictEnabled(c, s, a) && Enabled(c, s, a)
  {
    a :=
      if s.vPc.Receiving? then (if s.court.Drained() then SeeClosed else Receive)
      else if s.vPc.VLocking? then VLock
      else if s.vPc == VUpdating([]) then VUnlock
      else VEmit;
    assert VerdictEnabled(c, s, a);
  }

  /** A sender blocked on a full verdict channel waits for a verdict loop that can move. */
  lemma FullCourtMovesOn(c: Config, s: State) returns (a: Action)
    requires c.size >= 1 && Base(c, s) && !s.cancelled && Flowing(c, s)
    requires !s.court.Ready(c.size) && !s.inPc.Updating?
    ensures VerdictEnabled(c, s, a) && Enabled(c, s, a)
  {
    a := VerdictLoopMovesOn(c, s);
  }

  lemma PoolMovesOn(c: Config, s: State) returns (a: Action)
    requires c.size >= 1 && Base(c, s) && !s.cancelled && Flowing(c, s) && s.inPc.Stopping?
    ensures Enabled(c, s, a) && a != Read && a != Cancel
  {
    if AllFinished(s.jobs) {
      a := CloseCourt;
      assert InputEnabled(c, s, a);
    } else if i :| 0 <= i < |s.jobs| && Busy(s.jobs[i]) {
      if s.jobs[i].stage.Judged? && !s.court.Ready(c.size) {
        a := FullCourtMovesOn(c, s);
      } else {
        a := if s.jobs[i].stage.Pinging? then Judge(i, c.oracle(s.jobs[i].subject.Addr())) else Report(i);
        assert WorkerEnabled(c, s, a);
      }
    } else {
      NobodyRunning(s.jobs);
      var i :| 0 <= i < |s.jobs| && !s.jobs[i].stage.Finished?;
      a := Start(i);
      assert WorkerEnabled(c, s, a);
    }
  }

  /** What the input loop does next when nothing stands in its way. */
  function InputNext(c: Config, s: State): Action
  {
    match s.inPc
    case Reading => if s.taken < |c.input| then Take else EndOfInput
    case Forwarding(_) => Forward
    case Locking(_) => Lock
    case Updating(_, out, _) => if out == [] then Unlock else Emit
    case Announcing(_) => Announce
    case Submitting(_, _) => Submit
    case Stopping => CloseCourt
    case Deciding => CheckContext
    case WaitingDone => SeeDone
    case Closing => CloseNews
    case Returned => CloseNews
  }

  /** Until both loops have ended and unless the news is full, some goroutine can move without the reader. */
  lemma MovesOnUnread(c: Config, s: State) returns (a: Action)
    requires c.size >= 1 && Base(c, s) && !s.cancelled && Flowing(c, s) && !(s.inPc.Returned? && s.vPc.VDone?)
    ensures Enabled(c, s, a) && a != Read && a != Cancel
  {
    if s.inPc.Stopping? {
      a := PoolMovesOn(c, s);
    } else if s.inPc.Locking? && s.vPc.VUpdating? {
      a := VerdictLoopMovesOn(c, s);
    } else if s.inPc.Announcing? && !s.court.Ready(c.size) {
      a := FullCourtMovesOn(c, s);
    } else if s.inPc.WaitingDone? && !s.vPc.VDone? {
      a := VerdictLoopMovesOn(c, s);
    } else {
      a := InputNext(c, s);
      assert InputEnabled(c, s, a);
    }
  }

  /** No deadlock: although an update keeps the mutex while its sends block, some goroutine can always move. */
  lemma UncancelledMovesOn(c: Config, s: State)
    requires c.size >= 1 && Base(c, s) && !s.cancelled && !Over(s)
    ensures Lively(c, s)
  {
    if !s.news.Drained() {
      assert OutsideEnabled(c, s, Read);
      assert Enabled(c, s, Read);
    } else {
      var a := MovesOnUnread(c, s);
    }
  }

  /** An uncancelled run that cannot go on is over; together with `EveryRunIsFinite`, every run gets there. */
  lemma StuckMeansOver(c: Config, acts: seq<Action>)
    requires c.size >= 1 && Run(c, Init(), acts) && !After(c, Init(), acts).cancelled
    ensures Over(After(c, Init(), acts)) <==> !Lively(c, After(c, Init(), acts))
  {
    var s := After(c, Init(), acts);
    BaseInit(c);
    BaseHolds(c, Init(), acts);
    if !Over(s) {
      UncancelledMovesOn(c, s);
    }
  }

  lemma OnlyCancelCancels(c: Config, s: State, a: Action)
    requires Enabled(c, s, a) && a != Cancel
    ensures Apply(c, s, a).cancelled == s.cancelled
  {
  }

  lemma OneStepMore(c: Config, acts: seq<Action>, a: Action)
    requires Run(c, Init(), acts) && Enabled(c, After(c, Init(), acts), a)
    ensures Run(c, Init(), acts + [a]) && After(c, Init(), acts + [a]) == Apply(c, After(c, Init(), acts), a)
  {
    var s := After(c, Init(), acts);
    assert [a][1..] == [];
    assert Run(c, Apply(c, s, a), []);
    assert Run(c, s, [a]);
    RunAppend(c, Init(), acts, [a]);
  }

  /** Whatever an uncancelled run has done so far, it can be completed without a cancellation. */
  lemma {:induction false} Completed(c: Config, acts: seq<Action>) returns (all: seq<Action>)
    requires c.size >= 1 && Run(c, Init(), acts) && !After(c, Init(), acts).cancelled
    ensures acts <= all && Run(c, Init(), all)
    ensures Over(After(c, Init(), all)) && !After(c, Init(), all).cancelled
    decreases StepBound(|c.input|) - |acts|
  {
    StuckMeansOver(c, acts);
    var s := After(c, Init(), acts);
    if Over(s) {
      all := acts;
    } else {
      var a :| Enabled(c, s, a) && a != Cancel;
      OneStepMore(c, acts, a);
      OnlyCancelCancels(c, s, a);
      EveryRunIsFinite(c, acts + [a]);
      all := Completed(c, acts + [a]);
    }
  }
}
