/**
 Driving a run to where one wants it: up to any input item with no ping begun, and from there into the closed news.
 */
module PipelineDrive {
  import opened Types
  import opened AddrCache
  import opened CacheHistory
  import opened Pipeline
  import opened PipelineBase

  /** The run leads to the state. */
  ghost predicate Reaches(c: Config, acts: seq<Action>, s: State)
  {
    Run(c, Init(), acts) && After(c, Init(), acts) == s
  }

  lemma Do(c: Config, acts: seq<Action>, s: State, a: Action) returns (more: seq<Action>)
    requires Reaches(c, acts, s) && Enabled(c, s, a)
    ensures Reaches(c, more, Apply(c, s, a))
  {
    OneStepMore(c, acts, a);
    more := acts + [a];
  }

  lemma BaseOf(c: Config, acts: seq<Action>, s: State)
    requires Reaches(c, acts, s)
    ensures Base(c, s)
  {
    BaseInit(c);
    BaseHolds(c, Init(), acts);
  }

  // ---------------------------------------------------------------- up to an input item

  /** The input loop is still reading, and no worker has begun a ping. */
  predicate Fresh(s: State)
  {
    && !s.cancelled && !s.panicked
    && !s.inPc.Stopping? && !CourtClosing(s.inPc)
    && forall i :: 0 <= i < |s.jobs| ==> s.jobs[i].stage.Queued?
  }

  /** The first n items are dealt with, and everything sent was received. */
  predicate Idle(s: State, n: nat)
  {
    Fresh(s) && s.inPc.Reading? && s.taken == n && s.vPc.Receiving? && s.court.Drained() && s.news.Drained()
  }

  lemma FreshInput(c: Config, s: State, a: Action)
    requires Structure(c, s) && Fresh(s) && InputEnabled(c, s, a) && a != EndOfInput
    ensures Fresh(InputStep(c, s, a))
  {
  }

  lemma FreshVerdict(c: Config, s: State, a: Action)
    requires Structure(c, s) && Origin(c, s) && Fresh(s) && VerdictEnabled(c, s, a)
    ensures Fresh(VerdictStep(c, s, a)) && VerdictStep(c, s, a).taken == s.taken
  {
  }

  /** Short of that, some step gets nearer to it without a worker. */
  lemma NearerMove(c: Config, s: State, n: nat) returns (a: Action)
    requires c.size >= 1 && Base(c, s) && Fresh(s) && s.taken <= n <= |c.input| && s.news.Drained() && !Idle(s, n)
    ensures Enabled(c, s, a) && (VerdictEnabled(c, s, a)
            || (InputEnabled(c, s, a) && a != EndOfInput && (a == Take ==> s.taken < n)))
  {
    if s.inPc.Reading? {
      if s.taken < n {
        a := Take;
      } else {
        a := VerdictLoopMovesOn(c, s);
      }
    } else if s.inPc.Locking? && s.vPc.VUpdating? {
      a := VerdictLoopMovesOn(c, s);
    } else if s.inPc.Announcing? && !s.court.Ready(c.size) {
      a := FullCourtMovesOn(c, s);
    } else {
      a := InputNext(c, s);
      assert InputEnabled(c, s, a);
    }
  }

  lemma OnlyTakeTakes(c: Config, s: State, a: Action)
    requires InputEnabled(c, s, a) && a != Take
    ensures InputStep(c, s, a).taken == s.taken
  {
  }

  lemma Nearer(c: Config, s: State, n: nat) returns (a: Action)
    requires c.size >= 1 && Base(c, s) && Fresh(s) && s.taken <= n <= |c.input| && !Idle(s, n)
    ensures Enabled(c, s, a) && Fresh(Apply(c, s, a)) && Apply(c, s, a).taken <= n
  {
    if !s.news.Drained() {
      a := Read;
      assert OutsideEnabled(c, s, Read);
    } else {
      a := NearerMove(c, s, n);
      if InputEnabled(c, s, a) {
        FreshInput(c, s, a);
        if a != Take {
          OnlyTakeTakes(c, s, a);
        }
      } else {
        FreshVerdict(c, s, a);
      }
    }
  }

  lemma {:induction false} DriveFrom(c: Config, acts: seq<Action>, n: nat) returns (all: seq<Action>)
    requires c.size >= 1 && Run(c, Init(), acts) && Fresh(After(c, Init(), acts))
    requires After(c, Init(), acts).taken <= n <= |c.input|
    ensures acts <= all && Run(c, Init(), all) && Idle(After(c, Init(), all), n)
    decreases StepBound(|c.input|) - |acts|
  {
    var s := After(c, Init(), acts);
    if Idle(s, n) {
      all := acts;
    } else {
      BaseOf(c, acts, s);
      var a := Nearer(c, s, n);
      OneStepMore(c, acts, a);
      EveryRunIsFinite(c, acts + [a]);
      all := DriveFrom(c, acts + [a], n);
    }
  }

  /** Some run deals with the first n items and nothing else. */
  lemma Drive(c: Config, n: nat) returns (acts: seq<Action>)
    requires c.size >= 1 && n <= |c.input|
    ensures Run(c, Init(), acts) && Idle(After(c, Init(), acts), n)
  {
    acts := DriveFrom(c, [], n);
  }

  // ---------------------------------------------------------------- into the closed news

  /** The verdict loop is about to send. */
  predicate Armed(s: State)
  {
    !s.cancelled && !s.panicked && s.inPc.Reading? && s.vPc.VUpdating? && s.vPc.out != []
  }

  /** The context is done, the input loop waits for the pool, and the verdict loop is still about to send. */
  predicate Held(s: State)
  {
    s.cancelled && !s.panicked && s.inPc.Stopping? && s.vPc.VUpdating? && s.vPc.out != []
  }

  lemma HeldWorker(c: Config, s: State, a: Action)
    requires Structure(c, s) && Held(s) && WorkerEnabled(c, s, a)
    ensures Held(WorkerStep(c, s, a))
  {
  }

  lemma {:induction false} FinishJobs(c: Config, acts: seq<Action>) returns (all: seq<Action>)
    requires c.size >= 1 && Run(c, Init(), acts) && Held(After(c, Init(), acts))
    ensures Run(c, Init(), all) && Held(After(c, Init(), all)) && AllFinished(After(c, Init(), all).jobs)
    decreases StepBound(|c.input|) - |acts|
  {
    var s := After(c, Init(), acts);
    if AllFinished(s.jobs) {
      all := acts;
    } else {
      BaseOf(c, acts, s);
      var a := CancelledPoolMovesOn(c, s);
      HeldWorker(c, s, a);
      OneStepMore(c, acts, a);
      EveryRunIsFinite(c, acts + [a]);
      all := FinishJobs(c, acts + [a]);
    }
  }

  /** Cancelled at this moment, `Verify` closes the news under the verdict loop's hands. */
  lemma ArmedPanics(c: Config, before: seq<Action>) returns (acts: seq<Action>)
    requires c.size >= 1 && Run(c, Init(), before) && Armed(After(c, Init(), before))
    ensures Run(c, Init(), acts) && After(c, Init(), acts).panicked
  {
    var s := After(c, Init(), before);
    acts := Do(c, before, s, Cancel);
    s := Apply(c, s, Cancel);
    acts := Do(c, acts, s, QuitInput);
    acts := FinishJobs(c, acts);
    acts := CloseUnderSend(c, acts);
  }

  lemma CloseUnderSend(c: Config, before: seq<Action>) returns (acts: seq<Action>)
    requires Run(c, Init(), before) && Held(After(c, Init(), before)) && AllFinished(After(c, Init(), before).jobs)
    ensures Run(c, Init(), acts) && After(c, Init(), acts).panicked
  {
    var s := After(c, Init(), before);
    acts := Do(c, before, s, CloseCourt);
    s := Apply(c, s, CloseCourt);
    acts := Do(c, acts, s, CheckContext);
    s := Apply(c, s, CheckContext);
    acts := Do(c, acts, s, CloseNews);
    s := Apply(c, s, CloseNews);
    acts := Do(c, acts, s, VEmit);
  }
}
