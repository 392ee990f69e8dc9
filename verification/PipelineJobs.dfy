/**
 What becomes of each address in every run, cancelled or not: where its job was announced, and that none gets lost.
 */
module PipelineJobs {
  import opened Types
  import opened AddrCache
  import opened CacheHistory
  import opened Pipeline
  import opened PipelineBase
  import opened PipelineDrive
  import opened PipelineSync

  // ---------------------------------------------------------------- where a job was announced

  /** The job's announcement stands on the verdict channel at the position it remembers. */
  predicate StandsAt(s: State, subject: QualifiedAddress, k: nat)
  {
    k < |s.court.sent| && s.court.sent[k] == subject
  }

  /** If the job has reported, its report stands behind that and is about the same name and address. */
  predicate ReportStands(s: State, j: Job)
  {
    j.stage.Finished? && j.stage.reportedAt.Some? ==>
      var r := j.stage.reportedAt.value;
      j.announcedAt < r < |s.court.sent| && s.court.sent[r] == j.subject.WithNewQuality(s.court.sent[r].Qual())
  }

  ghost predicate JobsStand(s: State)
  {
    && (s.inPc.Submitting? ==> StandsAt(s, s.inPc.subject, s.inPc.announcedAt))
    && forall i :: 0 <= i < |s.jobs| ==>
         StandsAt(s, s.jobs[i].subject, s.jobs[i].announcedAt) && ReportStands(s, s.jobs[i])
  }

  lemma StandInput(c: Config, s: State, a: Action)
    requires Structure(c, s) && JobsStand(s) && InputEnabled(c, s, a)
    ensures JobsStand(InputStep(c, s, a))
  {
    var s' := InputStep(c, s, a);
    assert s.court.sent <= s'.court.sent;
  }

  lemma StandVerdict(c: Config, s: State, a: Action)
    requires JobsStand(s) && VerdictEnabled(c, s, a)
    ensures JobsStand(VerdictStep(c, s, a))
  {
    VerdictFrame(c, s, a);
  }

  lemma StandWorker(c: Config, s: State, a: Action)
    requires Structure(c, s) && JobsStand(s) && WorkerEnabled(c, s, a)
    ensures JobsStand(WorkerStep(c, s, a))
  {
    var s' := WorkerStep(c, s, a);
    assert s.court.sent <= s'.court.sent && s'.inPc == s.inPc;
    forall i | 0 <= i < |s'.jobs|
      ensures StandsAt(s', s'.jobs[i].subject, s'.jobs[i].announcedAt) && ReportStands(s', s'.jobs[i])
    {
      assert s'.jobs[i].subject == s.jobs[i].subject && s'.jobs[i].announcedAt == s.jobs[i].announcedAt;
      if a == Report(i) {
        ReportIsSent(c, s, i);
      } else {
        assert s'.jobs[i].stage == s.jobs[i].stage || !s'.jobs[i].stage.Finished? || s'.jobs[i].stage.reportedAt.None?;
      }
    }
  }

  lemma ReportIsSent(c: Config, s: State, i: nat)
    requires Structure(c, s) && WorkerEnabled(c, s, Report(i))
    ensures var s', verdict := WorkerStep(c, s, Report(i)), s.jobs[i].stage.verdict;
            && s'.court.sent == s.court.sent + [s.jobs[i].subject.WithNewQuality(verdict)]
            && s'.jobs[i] == s.jobs[i].(stage := Finished(Some(|s.court.sent|)))
  {
  }

  lemma {:induction false} StandHolds(c: Config, s: State, acts: seq<Action>)
    requires Base(c, s) && JobsStand(s) && Run(c, s, acts)
    ensures JobsStand(After(c, s, acts))
    decreases |acts|
  {
    if acts != [] {
      var a := acts[0];
      StructureStep(c, s, a);
      OriginStep(c, s, a);
      if InputEnabled(c, s, a) {
        StandInput(c, s, a);
      } else if VerdictEnabled(c, s, a) {
        StandVerdict(c, s, a);
      } else if WorkerEnabled(c, s, a) {
        StandWorker(c, s, a);
      }
      StandHolds(c, Apply(c, s, a), acts[1..]);
    }
  }

  /**
   In every run, cancelled or not: no ping is submitted that was not announced on the verdict channel before, and
   what it reports there comes later and is about the same name and address.
   */
  lemma JobsWereAnnounced(c: Config, acts: seq<Action>, i: nat)
    requires Run(c, Init(), acts) && i < |After(c, Init(), acts).jobs|
    ensures var s := After(c, Init(), acts);
            && s.jobs[i].announcedAt < |s.court.sent| && s.court.sent[s.jobs[i].announcedAt] == s.jobs[i].subject
            && s.jobs[i].subject.Qual() == Verifying && ReportStands(s, s.jobs[i])
  {
    BaseInit(c);
    StandHolds(c, Init(), acts);
    VerifyingHolds(c, Init(), acts);
    assert StandsAt(After(c, Init(), acts), After(c, Init(), acts).jobs[i].subject,
           After(c, Init(), acts).jobs[i].announcedAt);
  }

  predicate SubjectsVerifying(s: State)
  {
    && (s.inPc.Announcing? ==> s.inPc.subject.Qual() == Verifying)
    && (s.inPc.Submitting? ==> s.inPc.subject.Qual() == Verifying)
    && forall i :: 0 <= i < |s.jobs| ==> s.jobs[i].subject.Qual() == Verifying
  }

  lemma {:induction false} VerifyingHolds(c: Config, s: State, acts: seq<Action>)
    requires SubjectsVerifying(s) && Run(c, s, acts)
    ensures SubjectsVerifying(After(c, s, acts))
    decreases |acts|
  {
    if acts != [] {
      VerifyingStep(c, s, acts[0]);
      VerifyingHolds(c, Apply(c, s, acts[0]), acts[1..]);
    }
  }

  lemma VerifyingInput(c: Config, s: State, a: Action)
    requires SubjectsVerifying(s) && InputEnabled(c, s, a)
    ensures SubjectsVerifying(InputStep(c, s, a))
  {
  }

  lemma VerifyingWorker(c: Config, s: State, a: Action)
    requires SubjectsVerifying(s) && WorkerEnabled(c, s, a)
    ensures SubjectsVerifying(WorkerStep(c, s, a))
  {
  }

  lemma VerifyingStep(c: Config, s: State, a: Action)
    requires SubjectsVerifying(s) && Enabled(c, s, a)
    ensures SubjectsVerifying(Apply(c, s, a))
  {
    if InputEnabled(c, s, a) {
      VerifyingInput(c, s, a);
    } else if VerdictEnabled(c, s, a) {
      VerdictFrame(c, s, a);
    } else if WorkerEnabled(c, s, a) {
      VerifyingWorker(c, s, a);
    }
  }

  // ---------------------------------------------------------------- every address is handled once

  function Addrs(subjects: seq<QualifiedAddress>): (r: seq<string>)
    ensures |r| == |subjects| && forall i :: 0 <= i < |r| ==> r[i] == subjects[i].Addr()
  {
    seq(|subjects|, i requires 0 <= i < |subjects| => subjects[i].Addr())
  }

  lemma OneAddrMore(subjects: seq<QualifiedAddress>, x: QualifiedAddress)
    ensures Addrs(subjects + [x]) == Addrs(subjects) + [x.Addr()]
  {
  }

  /** Subjects and dropped addresses together are the known addresses, each once. */
  ghost predicate Tally(subjects: seq<QualifiedAddress>, dropped: seq<string>, known: set<string>)
  {
    multiset(Addrs(subjects)) + multiset(dropped) == multiset(known)
  }

  lemma TallyMore(subjects: seq<QualifiedAddress>, dropped: seq<string>, known: set<string>, x: QualifiedAddress)
    requires Tally(subjects, dropped, known) && x.Addr() !in known
    ensures Tally(subjects + [x], dropped, known + {x.Addr()})
  {
    OneAddrMore(subjects, x);
    assert multiset(known + {x.Addr()}) == multiset(known) + multiset{x.Addr()};
  }

  lemma TallyDrop(subjects: seq<QualifiedAddress>, dropped: seq<string>, known: set<string>, x: QualifiedAddress)
    requires Tally(subjects + [x], dropped, known)
    ensures Tally(subjects, dropped + [x.Addr()], known)
  {
    OneAddrMore(subjects, x);
  }

  lemma SubjectsAreKnown(subjects: seq<QualifiedAddress>, dropped: seq<string>, known: set<string>, i: nat)
    requires Tally(subjects, dropped, known) && i < |subjects|
    ensures subjects[i].Addr() in known
  {
    assert Addrs(subjects)[i] in multiset(Addrs(subjects));
    assert subjects[i].Addr() in multiset(known);
  }

  /** What the verdict loop gets to see is about known addresses. */
  ghost predicate CourtKnown(s: State)
  {
    && (s.vPc.VLocking? ==> s.vPc.na.addr in s.cache)
    && forall k :: 0 <= k < |s.court.sent| ==> s.court.sent[k].Addr() in s.cache
  }

  ghost predicate Handled(s: State, dropped: seq<string>)
  {
    Tally(Subjects(s), dropped, s.cache.Keys) && CourtKnown(s)
  }

  lemma HandledLock(c: Config, s: State, dropped: seq<string>)
    requires Handled(s, dropped) && InputEnabled(c, s, Lock)
    ensures Handled(InputStep(c, s, Lock), dropped)
  {
    var na := s.inPc.na;
    SubjectsAfterLock(c, s);
    UpdatedKeys(s.cache, na);
    if na.addr in s.cache {
      assert s.cache.Keys + {na.addr} == s.cache.Keys;
      assert Subjects(s) + [] == Subjects(s);
    } else {
      TallyMore(Subjects(s), dropped, s.cache.Keys, Named(na).WithNewQuality(Verifying));
    }
  }

  lemma HandledDrop(c: Config, s: State, dropped: seq<string>)
    requires Handled(s, dropped) && InputEnabled(c, s, DropAnnounce)
    ensures Handled(InputStep(c, s, DropAnnounce), dropped + [s.inPc.subject.Addr()])
  {
    var s' := InputStep(c, s, DropAnnounce);
    assert Subjects(s) == Subjects(s') + [s.inPc.subject];
    TallyDrop(Subjects(s'), dropped, s.cache.Keys, s.inPc.subject);
  }

  lemma InputLeavesCache(c: Config, s: State, a: Action)
    requires InputEnabled(c, s, a) && !a.Lock? && !a.Announce?
    ensures var s' := InputStep(c, s, a);
            s'.cache == s.cache && s'.court.sent == s.court.sent && s'.vPc == s.vPc
  {
  }

  lemma HandledAnnounce(c: Config, s: State, dropped: seq<string>)
    requires Handled(s, dropped) && InputEnabled(c, s, Announce)
    ensures Handled(InputStep(c, s, Announce), dropped)
  {
    SubjectsStay(c, s, Announce);
    assert Subjects(s)[|s.jobs|] == s.inPc.subject;
    SubjectsAreKnown(Subjects(s), dropped, s.cache.Keys, |s.jobs|);
  }

  lemma HandledInput(c: Config, s: State, a: Action, dropped: seq<string>) returns (dropped': seq<string>)
    requires Handled(s, dropped) && InputEnabled(c, s, a)
    ensures Handled(InputStep(c, s, a), dropped')
    ensures |dropped'| == |dropped| + if a == DropAnnounce then 1 else 0
  {
    dropped' := dropped;
    if a.Lock? {
      HandledLock(c, s, dropped);
    } else if a.Announce? {
      HandledAnnounce(c, s, dropped);
    } else {
      InputLeavesCache(c, s, a);
      if a.DropAnnounce? {
        dropped' := dropped + [s.inPc.subject.Addr()];
        HandledDrop(c, s, dropped);
      } else {
        SubjectsStay(c, s, a);
      }
    }
  }

  lemma HandledVerdict(c: Config, s: State, a: Action, dropped: seq<string>)
    requires Structure(c, s) && Handled(s, dropped) && VerdictEnabled(c, s, a)
    ensures Handled(VerdictStep(c, s, a), dropped)
  {
    var s' := VerdictStep(c, s, a);
    VerdictFrame(c, s, a);
    if a.VLock? {
      UpdatedKeys(s.cache, s.vPc.na);
      assert s'.cache.Keys == s.cache.Keys;
      SubjectsAfterVLock(c, s);
      assert Subjects(s) + [] == Subjects(s);
    } else {
      assert Subjects(s') == Subjects(s);
    }
  }

  lemma HandledWorker(c: Config, s: State, a: Action, dropped: seq<string>)
    requires Handled(s, dropped) && WorkerEnabled(c, s, a)
    ensures Handled(WorkerStep(c, s, a), dropped)
  {
    var s' := WorkerStep(c, s, a);
    SubjectsWorker(c, s, a);
    WorkerFrame(c, s, a);
    SubjectsAreKnown(Subjects(s), dropped, s.cache.Keys, a.i);
    WorkerSends(c, s, a);
  }

  lemma WorkerSends(c: Config, s: State, a: Action)
    requires WorkerEnabled(c, s, a)
    ensures forall k :: |s.court.sent| <= k < |WorkerStep(c, s, a).court.sent| ==>
              WorkerStep(c, s, a).court.sent[k].Addr() == s.jobs[a.i].subject.Addr()
  {
  }

  lemma HandledStep(c: Config, s: State, a: Action, dropped: seq<string>) returns (dropped': seq<string>)
    requires Structure(c, s) && Handled(s, dropped) && Enabled(c, s, a)
    ensures Handled(Apply(c, s, a), dropped')
    ensures |dropped'| == |dropped| + if a == DropAnnounce then 1 else 0
  {
    dropped' := dropped;
    if InputEnabled(c, s, a) {
      dropped' := HandledInput(c, s, a, dropped);
    } else if VerdictEnabled(c, s, a) {
      HandledVerdict(c, s, a, dropped);
    } else if WorkerEnabled(c, s, a) {
      HandledWorker(c, s, a, dropped);
    } else {
      assert Subjects(Apply(c, s, a)) == Subjects(s);
    }
  }

  lemma OneActionLess(acts: seq<Action>, a: Action)
    requires acts != []
    ensures multiset(acts)[a] == multiset(acts[1..])[a] + if acts[0] == a then 1 else 0
  {
    assert acts == [acts[0]] + acts[1..];
  }

  lemma {:induction false} HandledHolds(c: Config, s: State, acts: seq<Action>, dropped: seq<string>)
    returns (dropped': seq<string>)
    requires Base(c, s) && Handled(s, dropped) && Run(c, s, acts)
    ensures Handled(After(c, s, acts), dropped')
    ensures |dropped'| == |dropped| + multiset(acts)[DropAnnounce]
    decreases |acts|
  {
    dropped' := dropped;
    if acts != [] {
      StructureStep(c, s, acts[0]);
      OriginStep(c, s, acts[0]);
      OneActionLess(acts, DropAnnounce);
      dropped' := HandledStep(c, s, acts[0], dropped');
      dropped' := HandledHolds(c, Apply(c, s, acts[0]), acts[1..], dropped');
    }
  }

  lemma KnownArePresented(calls: seq<NamedAddress>)
    ensures CacheAfter(calls).Keys == set na | na in calls :: na.addr
  {
    CachedQualityIsMaximum(calls);
    forall a
      ensures a in CacheAfter(calls) <==> exists na :: na in calls && na.addr == a
    {
      if k :| 0 <= k < |calls| && calls[k].addr == a {
        assert calls[k] in calls;
      }
    }
  }

  /**
   In every run, cancelled or not: the addresses presented so far are, each exactly once, those of the jobs,
   of the one on its way to becoming a job, and of the announcements that were dropped under a done context.
   */
  lemma EveryAddressIsHandledOnce(c: Config, acts: seq<Action>) returns (dropped: seq<string>)
    requires Run(c, Init(), acts)
    ensures var s := After(c, Init(), acts);
            && multiset(Addrs(Subjects(s))) + multiset(dropped) == multiset(set na | na in s.calls :: na.addr)
            && |dropped| == multiset(acts)[DropAnnounce]
            && (!s.cancelled ==> dropped == [])
  {
    BaseInit(c);
    dropped := HandledHolds(c, Init(), acts, []);
    var s := After(c, Init(), acts);
    BaseHolds(c, Init(), acts);
    KnownArePresented(s.calls);
    if !s.cancelled {
      NothingDropped(c, Init(), acts);
    }
  }

  lemma {:induction false} NothingDropped(c: Config, s: State, acts: seq<Action>)
    requires Run(c, s, acts) && !After(c, s, acts).cancelled
    ensures multiset(acts)[DropAnnounce] == 0
    decreases |acts|
  {
    if acts != [] {
      if s.cancelled {
        CancelledStays(c, s, acts);
      }
      OneActionLess(acts, DropAnnounce);
      NothingDropped(c, Apply(c, s, acts[0]), acts[1..]);
    }
  }

  /** So there is at most one job for each address, also in cancelled runs. */
  lemma OneJobForEach(c: Config, acts: seq<Action>, i: nat, j: nat)
    requires Run(c, Init(), acts) && i < j < |After(c, Init(), acts).jobs|
    ensures After(c, Init(), acts).jobs[i].subject.Addr() != After(c, Init(), acts).jobs[j].subject.Addr()
  {
    var s := After(c, Init(), acts);
    var dropped := EveryAddressIsHandledOnce(c, acts);
    var all := Addrs(Subjects(s));
    assert multiset(set na | na in s.calls :: na.addr)[all[i]] <= 1;
    if all[i] == all[j] {
      TwiceCounts(all, i, j);
    }
  }

  lemma TwiceCounts(s: seq<string>, i: nat, j: nat)
    requires i < j < |s| && s[i] == s[j]
    ensures multiset(s)[s[i]] >= 2
  {
    assert s == s[..j] + [s[j]] + s[j + 1..];
    assert s[..j][i] in multiset(s[..j]);
  }

  // ---------------------------------------------------------------- what a cancelled run may still do

  ghost predicate HasJob(s: State, a: string)
  {
    exists i :: 0 <= i < |s.jobs| && s.jobs[i].subject.Addr() == a
  }

  /** The context is done, nothing is under way, and all channels are read. */
  ghost predicate Resting(s: State)
  {
    && s.cancelled && !s.panicked && s.inPc.Reading? && s.vPc.Receiving?
    && s.news.taken == |s.news.sent| && !s.news.closed && s.court.taken == |s.court.sent| && !s.court.closed
  }

  /** The first n items were taken under a done context, and just the chosen addresses have got a job. */
  ghost predicate Served(c: Config, s: State, n: nat, serve: string -> bool)
  {
    && Resting(s) && s.taken == n <= |c.input|
    && (forall i :: 0 <= i < n && !c.input[i].Bare() ==> c.input[i].addr in s.cache)
    && (forall a :: HasJob(s, a) <==> a in s.cache && serve(a))
  }

  lemma PassName(c: Config, before: seq<Action>, s: State, serve: string -> bool) returns (acts: seq<Action>)
    requires c.size >= 1 && Reaches(c, before, s) && Served(c, s, s.taken, serve)
    requires s.taken < |c.input| && c.input[s.taken].Bare()
    ensures Run(c, Init(), acts) && Served(c, After(c, Init(), acts), s.taken + 1, serve)
  {
    acts := Do(c, before, s, Take);
    var t := Apply(c, s, Take);
    acts := Do(c, acts, t, Forward);
    t := Apply(c, t, Forward);
    acts := Do(c, acts, t, Read);
    t := Apply(c, t, Read);
    assert forall a :: HasJob(t, a) <==> HasJob(s, a);
  }

  /** The address is in the cache, and the messages about it were dropped. */
  function Silent(s: State, na: NamedAddress): State
  {
    s.(taken := s.taken + 1, cache := Updated(s.cache, na).cache, calls := s.calls + [na],
       inPc := Updating(na, [], Updated(s.cache, na).isNew))
  }

  lemma PresentSilently(c: Config, before: seq<Action>, s: State) returns (acts: seq<Action>)
    requires Reaches(c, before, s) && Resting(s) && s.taken < |c.input| && !c.input[s.taken].Bare()
    ensures Reaches(c, acts, Silent(s, c.input[s.taken]))
  {
    acts := Do(c, before, s, Take);
    var t := Apply(c, s, Take);
    acts := Do(c, acts, t, Lock);
    t := Apply(c, t, Lock);
    if t.inPc.out != [] {
      acts := Do(c, acts, t, DropOut);
    }
  }

  /** After that, and with a job if the state has one more. */
  lemma NextServed(c: Config, s: State, s': State, serve: string -> bool)
    requires Served(c, s, s.taken, serve) && s.taken < |c.input| && !c.input[s.taken].Bare()
    requires Resting(s') && s'.taken == s.taken + 1 && s'.cache.Keys == s.cache.Keys + {c.input[s.taken].addr}
    requires if s'.jobs == s.jobs then c.input[s.taken].addr in s.cache || !serve(c.input[s.taken].addr)
             else |s'.jobs| == |s.jobs| + 1 && s'.jobs[..|s.jobs|] == s.jobs && serve(c.input[s.taken].addr)
                  && s'.jobs[|s.jobs|].subject.Addr() == c.input[s.taken].addr
    ensures Served(c, s', s.taken + 1, serve)
  {
    assert forall i :: 0 <= i < |s.jobs| ==> s'.jobs[i] == s.jobs[i];
    forall a
      ensures HasJob(s', a) <==> HasJob(s, a) || (s'.jobs != s.jobs && a == c.input[s.taken].addr)
    {
    }
  }

  /** A new address's announcement is sent, its ping submitted, and the announcement taken by the verdict loop. */
  lemma Announced(c: Config, before: seq<Action>, s: State) returns (acts: seq<Action>)
    requires c.size >= 1 && Reaches(c, before, s) && s.inPc.Announcing? && s.inPc.subject.Named?
    requires Resting(s.(inPc := Reading))
    ensures Reaches(c, acts, AwaitingLock(s))
  {
    acts := Do(c, before, s, Announce);
    var t := Apply(c, s, Announce);
    acts := Do(c, acts, t, Submit);
    t := Apply(c, t, Submit);
    acts := Do(c, acts, t, Receive);
  }

  function AwaitingLock(s: State): State
    requires s.inPc.Announcing? && s.inPc.subject.Named?
  {
    s.(jobs := s.jobs + [Job(s.inPc.subject, |s.court.sent|, Queued)],
       court := s.court.(sent := s.court.sent + [s.inPc.subject], taken := s.court.taken + 1),
       senders := s.senders + [|s.jobs|], inPc := Reading, vPc := VLocking(s.inPc.subject.na))
  }

  /** The verdict loop drops whatever the announcement gives rise to. */
  lemma LockSilently(c: Config, before: seq<Action>, s: State) returns (acts: seq<Action>)
    requires Reaches(c, before, s) && s.vPc.VLocking? && Resting(s.(vPc := Receiving))
    ensures Reaches(c, acts, s.(cache := Updated(s.cache, s.vPc.na).cache, calls := s.calls + [s.vPc.na],
                                vPc := VUpdating([])))
  {
    acts := Do(c, before, s, VLock);
    var t := Apply(c, s, VLock);
    if t.vPc.out != [] {
      acts := Do(c, acts, t, VDrop);
    }
  }

  lemma TakenSilently(c: Config, before: seq<Action>, s: State) returns (acts: seq<Action>)
    requires Reaches(c, before, s) && s.vPc.VLocking? && Resting(s.(vPc := Receiving)) && s.vPc.na.addr in s.cache
    ensures Run(c, Init(), acts)
    ensures var s' := After(c, Init(), acts);
            Resting(s') && s'.taken == s.taken && s'.jobs == s.jobs && s'.cache.Keys == s.cache.Keys
  {
    acts := LockSilently(c, before, s);
    UpdatedKeys(s.cache, s.vPc.na);
    var t := s.(cache := Updated(s.cache, s.vPc.na).cache, calls := s.calls + [s.vPc.na], vPc := VUpdating([]));
    acts := Do(c, acts, t, VUnlock);
  }

  lemma PresentAddress(c: Config, before: seq<Action>, s: State, serve: string -> bool) returns (acts: seq<Action>)
    requires c.size >= 1 && Reaches(c, before, s) && Served(c, s, s.taken, serve)
    requires s.taken < |c.input| && !c.input[s.taken].Bare()
    ensures Run(c, Init(), acts) && Served(c, After(c, Init(), acts), s.taken + 1, serve)
  {
    var na := c.input[s.taken];
    acts := PresentSilently(c, before, s);
    UpdatedKeys(s.cache, na);
    var t := Silent(s, na);
    acts := Do(c, acts, t, Unlock);
    t := Apply(c, t, Unlock);
    if t.inPc.Announcing? && serve(na.addr) {
      acts := Announced(c, acts, t);
      acts := TakenSilently(c, acts, AwaitingLock(t));
    } else if t.inPc.Announcing? {
      acts := Do(c, acts, t, DropAnnounce);
    }
    NextServed(c, s, After(c, Init(), acts), serve);
  }

  lemma {:induction false} ServeUpTo(c: Config, n: nat, serve: string -> bool) returns (acts: seq<Action>)
    requires c.size >= 1 && n <= |c.input|
    ensures Run(c, Init(), acts) && Served(c, After(c, Init(), acts), n, serve)
  {
    if n == 0 {
      assert Reaches(c, [], Init());
      acts := Do(c, [], Init(), Cancel);
    } else {
      acts := ServeUpTo(c, n - 1, serve);
      var s := After(c, Init(), acts);
      if c.input[n - 1].Bare() {
        acts := PassName(c, acts, s, serve);
      } else {
        acts := PresentAddress(c, acts, s, serve);
      }
    }
  }

  /**
   A done context ends nothing by itself, and anything may get lost: for every input and every choice of
   addresses some cancelled run takes all of the input, presents its addresses and submits pings for just the
   chosen ones, dropping the announcements of the others.
   */
  lemma CancelledMayDropAny(c: Config, serve: string -> bool) returns (acts: seq<Action>)
    requires c.size >= 1
    ensures Run(c, Init(), acts)
    ensures var s := After(c, Init(), acts);
            && s.cancelled && s.taken == |c.input|
            && (forall i :: 0 <= i < |c.input| && !c.input[i].Bare() ==> c.input[i].addr in s.cache)
            && forall a :: (exists i :: 0 <= i < |s.jobs| && s.jobs[i].subject.Addr() == a) <==>
                           a in s.cache && serve(a)
  {
    acts := ServeUpTo(c, |c.input|, serve);
    var s := After(c, Init(), acts);
    assert forall a :: HasJob(s, a) <==> a in s.cache && serve(a);
  }
}
