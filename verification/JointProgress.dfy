/** Joint runs end, do not get stuck, and leave the digger behind only after a cancellation. */
module JointProgress {
  import opened Types
  import Digger
  import DiggerProgress
  import Pipeline
  import PipelineBase
  import opened Joint

  // ---------------------------------------------------------------- the invariant

  /** Both sides count the same items, and the verifier only stops reading at the end or when cancelled. */
  ghost predicate Linked(s: State)
  {
    && s.v.taken == s.d.news.taken
    && !s.d.cancelled
    && (PastInput(s.v) ==> s.v.cancelled || s.d.news.closed)
  }

  predicate PastInput(s: Pipeline.State)
  {
    s.inPc.Stopping? || PipelineBase.CourtClosing(s.inPc)
  }

  lemma InputLinks(c: Pipeline.Config, s: Pipeline.State, a: Pipeline.Action)
    requires Pipeline.InputEnabled(c, s, a) && !a.Take? && !a.EndOfInput?
    ensures var s' := Pipeline.InputStep(c, s, a);
            s'.taken == s.taken && s'.cancelled == s.cancelled && (PastInput(s') ==> s.cancelled || PastInput(s))
  {
  }

  lemma VerdictLinks(c: Pipeline.Config, s: Pipeline.State, a: Pipeline.Action)
    requires Pipeline.VerdictEnabled(c, s, a)
    ensures var s' := Pipeline.VerdictStep(c, s, a);
            s'.taken == s.taken && s'.cancelled == s.cancelled && s'.inPc == s.inPc
  {
  }

  lemma WorkerLinks(c: Pipeline.Config, s: Pipeline.State, a: Pipeline.Action)
    requires Pipeline.WorkerEnabled(c, s, a)
    ensures var s' := Pipeline.WorkerStep(c, s, a);
            s'.taken == s.taken && s'.cancelled == s.cancelled && s'.inPc == s.inPc
  {
  }

  lemma VerifierLinks(c: Pipeline.Config, s: Pipeline.State, a: Pipeline.Action)
    requires Pipeline.Enabled(c, s, a) && !a.Take? && !a.EndOfInput?
    ensures var s' := Pipeline.Apply(c, s, a);
            s'.taken == s.taken && (s.cancelled ==> s'.cancelled) && (PastInput(s') ==> s'.cancelled || PastInput(s))
  {
    if Pipeline.InputEnabled(c, s, a) {
      InputLinks(c, s, a);
    } else if Pipeline.VerdictEnabled(c, s, a) {
      VerdictLinks(c, s, a);
    } else if Pipeline.WorkerEnabled(c, s, a) {
      WorkerLinks(c, s, a);
    }
  }

  lemma LinkedStep(c: Config, s: State, a: Action)
    requires ValidConfig(c) && Linked(s) && Enabled(c, s, a)
    ensures Linked(Apply(c, s, a))
  {
    if a.Verify? {
      VerifierLinks(Input(c, s), s.v, a.v);
    }
  }

  lemma {:induction false} LinkedHolds(c: Config, s: State, acts: seq<Action>)
    requires ValidConfig(c) && Linked(s) && Run(c, s, acts)
    ensures Linked(After(c, s, acts))
    decreases |acts|
  {
    if acts != [] {
      LinkedStep(c, s, acts[0]);
      LinkedHolds(c, Apply(c, s, acts[0]), acts[1..]);
    }
  }

  ghost predicate Sound(c: Config, s: State)
    requires ValidConfig(c)
  {
    && Linked(s)
    && Digger.Inv(c.dig, s.d)
    && multiset(s.d.news.sent) == multiset(Digger.Flat(Digger.Shares(c.dig, s.d)))
    && s.d.news.taken <= |s.d.news.sent| <= s.d.news.taken + c.dig.size
    && PipelineBase.Base(Input(c, s), s.v)
  }

  lemma Reached(c: Config, acts: seq<Action>)
    requires ValidConfig(c) && Run(c, Init(), acts)
    ensures Sound(c, After(c, Init(), acts))
  {
    LinkedHolds(c, Init(), acts);
    DiggerRuns(c, Init(), acts);
    Digger.Reached(c.dig, Digs(acts));
    DiggerProgress.BufferHolds(c.dig, Digger.Init(), Digs(acts));
    VerifierRuns(c, Init(), acts);
    var input := Input(c, After(c, Init(), acts));
    PipelineBase.BaseInit(input);
    PipelineBase.BaseHolds(input, Pipeline.Init(), Verifies(acts));
  }

  // ---------------------------------------------------------------- every joint run ends

  /** The number of steps no joint run exceeds. */
  function JointBound(c: Config): nat
    requires ValidConfig(c)
  {
    5 * |c.dig.names| + 2 * DiggerProgress.AllAnswers(c.dig.answers) + 3
    + PipelineBase.StepBound(DiggerProgress.Total(c.dig))
  }

  lemma StepBoundGrows(n: nat, m: nat)
    requires n <= m
    ensures PipelineBase.StepBound(n) <= PipelineBase.StepBound(m)
  {
    assert (14 * n + 7) * (2 * n + 2) <= (14 * m + 7) * (2 * n + 2);
    assert (14 * m + 7) * (2 * n + 2) <= (14 * m + 7) * (2 * m + 2);
  }

  /** However digger and verifier interleave, cancelled or not: a joint run has an end. */
  lemma EveryJointRunIsFinite(c: Config, acts: seq<Action>)
    requires ValidConfig(c) && Run(c, Init(), acts)
    ensures |acts| <= JointBound(c)
  {
    var s := After(c, Init(), acts);
    Reached(c, acts);
    PartsAddUp(acts);
    DiggerRuns(c, Init(), acts);
    DiggerProgress.EveryDigIsFinite(c.dig, Digs(acts));
    VerifierRuns(c, Init(), acts);
    PipelineBase.EveryRunIsFinite(Input(c, s), Verifies(acts));
    DiggerProgress.SentIsBounded(c.dig, s.d);
    StepBoundGrows(|s.d.news.sent|, DiggerProgress.Total(c.dig));
  }

  // ---------------------------------------------------------------- no deadlock

  /** Something other than the cancellation can happen. */
  ghost predicate Lively(c: Config, s: State)
    requires ValidConfig(c)
  {
    exists a :: Enabled(c, s, a) && a != Verify(Pipeline.Cancel)
  }

  /** Both have come to their end, and all news was read. */
  predicate Done(s: State)
  {
    s.d.pc.Closed? && PipelineBase.Over(s.v)
  }

  lemma DiggerMovesOn(c: Config, s: State)
    requires ValidConfig(c) && Sound(c, s) && s.d.news.Drained() && !s.d.pc.Closed?
    ensures Lively(c, s)
  {
    var d := DiggerProgress.MovesOnAlone(c.dig, s.d);
    assert Enabled(c, s, Dig(d));
  }

  /** If the verifier can go on with the input so far, so can the two of them. */
  lemma VerifierMovesOn(c: Config, s: State, v: Pipeline.Action)
    requires ValidConfig(c) && Sound(c, s) && Pipeline.Enabled(Input(c, s), s.v, v) && v != Pipeline.Cancel
    ensures Lively(c, s)
  {
    if v.Take? {
      assert Enabled(c, s, Hand);
    } else if v.EndOfInput? {
      if s.d.pc.Closed? {
        assert Enabled(c, s, HandEnd);
      } else {
        DiggerMovesOn(c, s);
      }
    } else {
      assert Enabled(c, s, Verify(v));
    }
  }

  lemma MovesOn(c: Config, s: State)
    requires ValidConfig(c) && Sound(c, s) && !s.v.cancelled && !Done(s)
    ensures Lively(c, s)
  {
    if PipelineBase.Over(s.v) {
      DiggerMovesOn(c, s);
    } else {
      PipelineBase.UncancelledMovesOn(Input(c, s), s.v);
      var v :| Pipeline.Enabled(Input(c, s), s.v, v) && v != Pipeline.Cancel;
      VerifierMovesOn(c, s, v);
    }
  }

  lemma DoneMeansStill(c: Config, s: State, a: Action)
    requires ValidConfig(c) && Sound(c, s) && !s.v.cancelled && Done(s) && Enabled(c, s, a)
    requires forall v :: Pipeline.Enabled(Input(c, s), s.v, v) ==> v == Pipeline.Cancel
    ensures a == Verify(Pipeline.Cancel)
  {
    if a.Dig? {
      DiggerProgress.NothingLeft(c.dig, s.d, a.d);
    }
  }

  /** Uncancelled, digger and verifier together can go on exactly until both are done and everything is read. */
  lemma StuckMeansDone(c: Config, acts: seq<Action>)
    requires ValidConfig(c) && Run(c, Init(), acts) && !After(c, Init(), acts).v.cancelled
    ensures Lively(c, After(c, Init(), acts)) <==> !Done(After(c, Init(), acts))
  {
    var s := After(c, Init(), acts);
    Reached(c, acts);
    if Done(s) {
      VerifierRuns(c, Init(), acts);
      PipelineBase.StuckMeansOver(Input(c, s), Verifies(acts));
      forall v | Pipeline.Enabled(Input(c, s), s.v, v)
        ensures v == Pipeline.Cancel
      {
      }
      forall a | Enabled(c, s, a)
        ensures a == Verify(Pipeline.Cancel)
      {
        DoneMeansStill(c, s, a);
      }
    } else {
      MovesOn(c, s);
    }
  }

  /** Whatever an uncancelled joint run has done so far, it can be completed without a cancellation. */
  lemma {:induction false} Completed(c: Config, acts: seq<Action>) returns (all: seq<Action>)
    requires ValidConfig(c) && Run(c, Init(), acts) && !After(c, Init(), acts).v.cancelled
    ensures acts <= all && Run(c, Init(), all)
    ensures Done(After(c, Init(), all)) && !After(c, Init(), all).v.cancelled
    decreases JointBound(c) - |acts|
  {
    StuckMeansDone(c, acts);
    var s := After(c, Init(), acts);
    if Done(s) {
      all := acts;
    } else {
      var a :| Enabled(c, s, a) && a != Verify(Pipeline.Cancel);
      OneStepMore(c, Init(), acts, a);
      StaysUncancelled(c, s, a);
      EveryJointRunIsFinite(c, acts + [a]);
      all := Completed(c, acts + [a]);
    }
  }

  lemma StaysUncancelled(c: Config, s: State, a: Action)
    requires ValidConfig(c) && Enabled(c, s, a) && a != Verify(Pipeline.Cancel)
    ensures Apply(c, s, a).v.cancelled == s.v.cancelled
  {
    if VerifierPart(a) != [] {
      PipelineBase.OnlyCancelCancels(Input(c, s), s.v, VerifierPart(a)[0]);
    }
  }

  /**
   When the verifier of an uncancelled joint run has returned, the digger is done and its complete stream was taken.
   */
  lemma ReturnedMeansDug(c: Config, acts: seq<Action>)
    requires ValidConfig(c) && Run(c, Init(), acts)
    requires var s := After(c, Init(), acts); !s.v.cancelled && s.v.inPc.Returned?
    ensures var s := After(c, Init(), acts); s.d.pc.Closed? && s.d.news.Drained()
  {
    Reached(c, acts);
  }

  // ---------------------------------------------------------------- the digger left behind

  /** Nothing at all can happen any more, although the digger is not done. */
  ghost predicate LeftBehind(c: Config, s: State)
    requires ValidConfig(c)
  {
    (forall a :: !Enabled(c, s, a)) && !s.d.pc.Closed?
  }

  /** Any run goes on until nothing can happen any more. */
  lemma {:induction false} RunOut(c: Config, acts: seq<Action>) returns (all: seq<Action>)
    requires ValidConfig(c) && Run(c, Init(), acts)
    ensures acts <= all && Run(c, Init(), all) && forall a :: !Enabled(c, After(c, Init(), all), a)
    decreases JointBound(c) - |acts|
  {
    var s := After(c, Init(), acts);
    if a :| Enabled(c, s, a) {
      OneStepMore(c, Init(), acts, a);
      EveryJointRunIsFinite(c, acts + [a]);
      all := RunOut(c, acts + [a]);
    } else {
      all := acts;
    }
  }

  /** A verifier that is cancelled at once takes nothing. */
  predicate Gone(s: State)
  {
    s.v.taken == 0 && s.v.cancelled && s.v.inPc.Returned?
  }

  lemma GoneStays(c: Config, s: State, a: Action)
    requires ValidConfig(c) && Gone(s) && Enabled(c, s, a)
    ensures Gone(Apply(c, s, a))
  {
  }

  lemma {:induction false} GoneHolds(c: Config, s: State, before: seq<Action>, more: seq<Action>)
    requires ValidConfig(c) && Run(c, s, before + more) && Run(c, s, before) && Gone(After(c, s, before))
    ensures Gone(After(c, s, before + more))
    decreases |before| + |more|
  {
    if before != [] {
      assert (before + more)[1..] == before[1..] + more;
      GoneHolds(c, Apply(c, s, before[0]), before[1..], more);
    } else {
      assert before + more == more;
      if more != [] {
        GoneStays(c, s, more[0]);
        assert [] + more[1..] == more[1..];
        GoneHolds(c, Apply(c, s, more[0]), [], more[1..]);
      }
    }
  }

  lemma Do(c: Config, acts: seq<Action>, v: Pipeline.Action) returns (more: seq<Action>)
    requires ValidConfig(c) && Run(c, Init(), acts) && Enabled(c, After(c, Init(), acts), Verify(v))
    ensures Run(c, Init(), more) && After(c, Init(), more) == Apply(c, After(c, Init(), acts), Verify(v))
  {
    OneStepMore(c, Init(), acts, Verify(v));
    more := acts + [Verify(v)];
  }

  lemma CancelledAtOnce(c: Config) returns (acts: seq<Action>)
    requires ValidConfig(c)
    ensures Run(c, Init(), acts)
    ensures After(c, Init(), acts).v == Pipeline.Init().(cancelled := true, inPc := Pipeline.Stopping)
  {
    acts := Do(c, [], Pipeline.Cancel);
    acts := Do(c, acts, Pipeline.QuitInput);
  }

  lemma ReturnedAtOnce(c: Config) returns (acts: seq<Action>)
    requires ValidConfig(c)
    ensures Run(c, Init(), acts) && Gone(After(c, Init(), acts))
  {
    acts := CancelledAtOnce(c);
    acts := Do(c, acts, Pipeline.CloseCourt);
    acts := Do(c, acts, Pipeline.CheckContext);
    acts := Do(c, acts, Pipeline.CloseNews);
  }

  lemma ClosedMeansAllSent(c: Config, acts: seq<Action>)
    requires ValidConfig(c) && Run(c, Init(), acts) && After(c, Init(), acts).d.pc.Closed?
    ensures |After(c, Init(), acts).d.news.sent| == DiggerProgress.Total(c.dig)
  {
    var sent := After(c, Init(), acts).d.news.sent;
    Reached(c, acts);
    DiggerRuns(c, Init(), acts);
    Digger.EverythingIsSent(c.dig, Digs(acts));
    DiggerProgress.TotalIsComplete(c.dig);
    assert |sent| == |multiset(sent)| == |multiset(Digger.Flat(Digger.Complete(c.dig)))|;
  }

  /** With more to send than the buffer holds, a digger whose verifier is gone blocks for ever. */
  lemma BlockedForEver(c: Config) returns (acts: seq<Action>)
    requires ValidConfig(c) && DiggerProgress.Total(c.dig) > c.dig.size
    ensures Run(c, Init(), acts) && LeftBehind(c, After(c, Init(), acts))
  {
    var before := ReturnedAtOnce(c);
    acts := RunOut(c, before);
    assert acts == before + acts[|before|..];
    GoneHolds(c, Init(), before, acts[|before|..]);
    Reached(c, acts);
    if After(c, Init(), acts).d.pc.Closed? {
      ClosedMeansAllSent(c, acts);
    }
  }

  /** With a buffer for everything, a digger needs nobody. */
  lemma NeverBlocked(c: Config, acts: seq<Action>)
    requires ValidConfig(c) && DiggerProgress.Total(c.dig) <= c.dig.size && Run(c, Init(), acts)
    ensures !LeftBehind(c, After(c, Init(), acts))
  {
    var s := After(c, Init(), acts);
    Reached(c, acts);
    if !s.d.pc.Closed? {
      DiggerProgress.SentIsBounded(c.dig, s.d);
      var d := DiggerProgress.MovesOnAlone(c.dig, s.d);
      assert Enabled(c, s, Dig(d));
    }
  }

  /** A run after which the digger is left behind. */
  ghost predicate Strands(c: Config, acts: seq<Action>)
    requires ValidConfig(c)
  {
    Run(c, Init(), acts) && LeftBehind(c, After(c, Init(), acts))
  }

  lemma StrandedMeans(c: Config, acts: seq<Action>)
    requires ValidConfig(c) && Strands(c, acts)
    ensures After(c, Init(), acts).v.cancelled && DiggerProgress.Total(c.dig) > c.dig.size
  {
    if !After(c, Init(), acts).v.cancelled {
      StuckMeansDone(c, acts);
    }
    if DiggerProgress.Total(c.dig) <= c.dig.size {
      NeverBlocked(c, acts);
    }
  }

  /**
   The digger does not share the verifier's context: a cancellation can leave it blocked for ever exactly if
   its names and the addresses found are more than its channel can buffer. Without a cancellation it never is.
   */
  lemma LeftBehindExactly(c: Config)
    requires ValidConfig(c)
    ensures (exists acts :: Strands(c, acts)) <==> DiggerProgress.Total(c.dig) > c.dig.size
    ensures forall acts :: Strands(c, acts) ==> After(c, Init(), acts).v.cancelled
  {
    if DiggerProgress.Total(c.dig) > c.dig.size {
      var acts := BlockedForEver(c);
      assert Strands(c, acts);
    }
    forall acts | Strands(c, acts)
      ensures After(c, Init(), acts).v.cancelled && DiggerProgress.Total(c.dig) > c.dig.size
    {
      StrandedMeans(c, acts);
    }
  }
}
