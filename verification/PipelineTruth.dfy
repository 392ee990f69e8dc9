/** Where verdicts come from, in every run: nobody makes one up, and only a cancellation can turn one. */
module PipelineTruth {
  import opened Types
  import opened AddrCache
  import opened CacheHistory
  import opened Pipeline
  import opened PipelineBase
  import opened PipelineDrive
  import opened PipelinePanic

  /** If the quality is a verdict, the ping came to it, or the cancellation, or the input brought it. */
  ghost predicate Founded(c: Config, cancelled: bool, a: string, q: Quality)
  {
    q.Terminal() ==> q == c.oracle(a) || (cancelled && q == Invalid) || exists f :: NA(f, a, q) in c.input
  }

  ghost predicate MessagesFounded(c: Config, cancelled: bool, log: seq<NamedAddress>)
  {
    forall i :: 0 <= i < |log| && !log[i].Bare() ==> Founded(c, cancelled, log[i].addr, log[i].qual)
  }

  ghost predicate CacheFounded(c: Config, cancelled: bool, cache: Cache)
  {
    forall a :: a in cache ==> Founded(c, cancelled, a, cache[a].q)
  }

  /** The verdicts under way to the cache. */
  ghost predicate CourtFounded(c: Config, s: State)
  {
    && (forall i :: 0 <= i < |s.jobs| && s.jobs[i].stage.Judged? ==>
          Founded(c, s.cancelled, s.jobs[i].subject.Addr(), s.jobs[i].stage.verdict))
    && (forall k :: 0 <= k < |s.court.sent| ==> Founded(c, s.cancelled, s.court.sent[k].Addr(), s.court.sent[k].Qual()))
    && (s.vPc.VLocking? ==> Founded(c, s.cancelled, s.vPc.na.addr, s.vPc.na.qual))
    && (s.inPc.Announcing? ==> s.inPc.subject.Qual() == Verifying)
  }

  ghost predicate AllFounded(c: Config, s: State)
  {
    && CacheFounded(c, s.cancelled, s.cache) && CourtFounded(c, s)
    && MessagesFounded(c, s.cancelled, s.news.sent) && MessagesFounded(c, s.cancelled, Pending(s))
    && (s.inPc.Forwarding? ==> s.inPc.na.Bare()) && (s.inPc.Locking? ==> s.inPc.na in c.input)
  }

  lemma UpdateFounded(c: Config, cancelled: bool, cache: Cache, na: NamedAddress)
    requires CacheFounded(c, cancelled, cache) && Founded(c, cancelled, na.addr, na.qual)
    ensures CacheFounded(c, cancelled, Updated(cache, na).cache)
            && MessagesFounded(c, cancelled, Updated(cache, na).out)
  {
    MessagesCarryCachedQuality(cache, na);
  }

  lemma FoundedLock(c: Config, s: State)
    requires Structure(c, s) && AllFounded(c, s) && InputEnabled(c, s, Lock)
    ensures AllFounded(c, InputStep(c, s, Lock))
  {
    assert NA(s.inPc.na.name, s.inPc.na.addr, s.inPc.na.qual) in c.input;
    UpdateFounded(c, s.cancelled, s.cache, s.inPc.na);
    var s' := InputStep(c, s, Lock);
    assert Pending(s') == Updated(s.cache, s.inPc.na).out && s'.news == s.news && s'.vPc == s.vPc;
  }

  lemma FoundedAnnounce(c: Config, s: State)
    requires AllFounded(c, s) && InputEnabled(c, s, Announce)
    ensures AllFounded(c, InputStep(c, s, Announce))
  {
    var s' := InputStep(c, s, Announce);
    assert Pending(s') == Pending(s) && s'.news == s.news;
  }

  lemma FoundedSubmit(c: Config, s: State)
    requires AllFounded(c, s) && InputEnabled(c, s, Submit)
    ensures AllFounded(c, InputStep(c, s, Submit))
  {
    var s' := InputStep(c, s, Submit);
    assert Pending(s') == Pending(s) && s'.news == s.news;
  }

  lemma FoundedMove(c: Config, s: State, a: Action)
    requires Structure(c, s) && AllFounded(c, s) && InputEnabled(c, s, a) && !a.Lock? && !a.Announce? && !a.Submit?
    ensures AllFounded(c, InputStep(c, s, a))
  {
    var s' := InputStep(c, s, a);
    assert s'.jobs == s.jobs && s'.court.sent == s.court.sent && s'.vPc == s.vPc && s'.cache == s.cache;
    assert Pending(s') == Pending(s) || Pending(s') == [] || Pending(s') == Pending(s)[1..];
  }

  lemma FoundedVLock(c: Config, s: State)
    requires Structure(c, s) && AllFounded(c, s) && VerdictEnabled(c, s, VLock)
    ensures AllFounded(c, VerdictStep(c, s, VLock))
  {
    UpdateFounded(c, s.cancelled, s.cache, s.vPc.na);
    var s' := VerdictStep(c, s, VLock);
    assert Pending(s') == Updated(s.cache, s.vPc.na).out && s'.news == s.news && s'.inPc == s.inPc;
  }

  lemma FoundedVerdictMove(c: Config, s: State, a: Action)
    requires Structure(c, s) && AllFounded(c, s) && VerdictEnabled(c, s, a) && !a.VLock?
    ensures AllFounded(c, VerdictStep(c, s, a))
  {
    var s' := VerdictStep(c, s, a);
    assert s'.jobs == s.jobs && s'.court.sent == s.court.sent && s'.inPc == s.inPc && s'.cache == s.cache;
    assert Pending(s') == Pending(s) || Pending(s') == [] || Pending(s') == Pending(s)[1..];
  }

  lemma FoundedWorker(c: Config, s: State, a: Action)
    requires AllFounded(c, s) && WorkerEnabled(c, s, a)
    ensures AllFounded(c, WorkerStep(c, s, a))
  {
    var s' := WorkerStep(c, s, a);
    assert Pending(s') == Pending(s) && s'.news == s.news && s'.cache == s.cache && s'.inPc == s.inPc
           && s'.vPc == s.vPc;
  }

  lemma FoundedCancel(c: Config, s: State)
    requires AllFounded(c, s)
    ensures AllFounded(c, s.(cancelled := true))
  {
    assert Pending(s.(cancelled := true)) == Pending(s);
  }

  lemma FoundedStep(c: Config, s: State, a: Action)
    requires Structure(c, s) && AllFounded(c, s) && Enabled(c, s, a)
    ensures AllFounded(c, Apply(c, s, a))
  {
    if InputEnabled(c, s, a) {
      if a.Lock? {
        FoundedLock(c, s);
      } else if a.Announce? {
        FoundedAnnounce(c, s);
      } else if a.Submit? {
        FoundedSubmit(c, s);
      } else {
        FoundedMove(c, s, a);
      }
    } else if VerdictEnabled(c, s, a) {
      if a.VLock? {
        FoundedVLock(c, s);
      } else {
        FoundedVerdictMove(c, s, a);
      }
    } else if WorkerEnabled(c, s, a) {
      FoundedWorker(c, s, a);
    } else if a.Cancel? {
      FoundedCancel(c, s);
    } else {
      assert Pending(Apply(c, s, a)) == Pending(s);
    }
  }

  lemma {:induction false} FoundedHolds(c: Config, s: State, acts: seq<Action>)
    requires Base(c, s) && AllFounded(c, s) && Run(c, s, acts)
    ensures AllFounded(c, After(c, s, acts))
    decreases |acts|
  {
    if acts != [] {
      StructureStep(c, s, acts[0]);
      OriginStep(c, s, acts[0]);
      FoundedStep(c, s, acts[0]);
      FoundedHolds(c, Apply(c, s, acts[0]), acts[1..]);
    }
  }

  /**
   In every run on any input, cancelled or not: a verdict on the news is the ping's, or brought by the input,
   or Invalid after a cancellation.
   */
  lemma VerdictsAreFounded(c: Config, acts: seq<Action>, na: NamedAddress)
    requires Run(c, Init(), acts) && na in After(c, Init(), acts).news.sent && !na.Bare() && na.qual.Terminal()
    ensures || na.qual == c.oracle(na.addr)
            || (After(c, Init(), acts).cancelled && na.qual == Invalid)
            || exists f :: NA(f, na.addr, na.qual) in c.input
  {
    var log := After(c, Init(), acts).news.sent;
    BaseInit(c);
    FoundedHolds(c, Init(), acts);
    var i :| 0 <= i < |log| && log[i] == na;
    assert Founded(c, After(c, Init(), acts).cancelled, log[i].addr, log[i].qual);
  }

  /** Without verdicts on the input, Verified is always true, and Invalid is unless the context was cancelled. */
  lemma VerdictsAreTrue(c: Config, acts: seq<Action>, na: NamedAddress)
    requires ValidConfig(c) && Run(c, Init(), acts) && na in After(c, Init(), acts).news.sent && !na.Bare()
    ensures na.qual == Verified ==> c.oracle(na.addr) == Verified
    ensures na.qual == Invalid ==> c.oracle(na.addr) == Invalid || After(c, Init(), acts).cancelled
  {
    if na.qual.Terminal() {
      VerdictsAreFounded(c, acts, na);
    }
  }

  // ---------------------------------------------------------------- what a cancellation can do

  /** The context is done while job `i` pings. */
  function CutShort(s: State, i: nat): State
    requires i < |s.jobs|
  {
    s.(cancelled := true, jobs := s.jobs[i := s.jobs[i].(stage := Pinging)])
  }

  lemma CutPing(c: Config, before: seq<Action>, s: State, i: nat) returns (acts: seq<Action>)
    requires c.size >= 1 && Reaches(c, before, s) && Fresh(s) && i < |s.jobs|
    ensures Reaches(c, acts, CutShort(s, i))
  {
    NobodyRunning(s.jobs);
    acts := Do(c, before, s, Cancel);
    var t := s.(cancelled := true);
    acts := Do(c, acts, t, Start(i));
  }

  lemma CutPingFails(c: Config, before: seq<Action>, s: State, i: nat) returns (acts: seq<Action>)
    requires c.size >= 1 && i < |s.jobs| && Reaches(c, before, CutShort(s, i))
    requires !s.panicked && !s.court.closed && s.court.Drained()
    ensures Run(c, Init(), acts) && After(c, Init(), acts).cancelled
    ensures s.jobs[i].subject.WithNewQuality(Invalid) in After(c, Init(), acts).court.sent
  {
    var t := CutShort(s, i);
    acts := Do(c, before, t, Judge(i, Invalid));
    t := t.(jobs := s.jobs[i := s.jobs[i].(stage := Judged(Invalid))]);
    assert t == Apply(c, CutShort(s, i), Judge(i, Invalid));
    acts := Do(c, acts, t, Report(i));
    assert Apply(c, t, Report(i)).court.sent[|s.court.sent|] == s.jobs[i].subject.WithNewQuality(Invalid);
  }

  /** Whatever an address's ping would come to: some cancelled run reports the address invalid. */
  lemma CancelledPingMayFail(c: Config, k: nat) returns (acts: seq<Action>)
    requires c.size >= 1 && FirstOn(c.input, k)
    ensures Run(c, Init(), acts) && After(c, Init(), acts).cancelled
    ensures Named(c.input[k].WithQuality(Invalid)) in After(c, Init(), acts).court.sent
  {
    var na := c.input[k];
    acts := Drive(c, k);
    var s := After(c, Init(), acts);
    StillUnknown(c, acts, k);
    BaseOf(c, acts, s);
    acts := ReceiveAnnouncement(c, acts, s, na);
    var t := After(c, Init(), acts);
    BaseOf(c, acts, t);
    assert t.jobs[|s.jobs|] == Job(PipelinePanic.Announcement(na), |s.court.sent|, Queued);
    acts := CutPing(c, acts, t, |s.jobs|);
    acts := CutPingFails(c, acts, t, |s.jobs|);
  }
}
