/**
 When a send can hit the closed news channel. `ShutdownOrder` excludes it for uncancelled runs; under a
 cancelled context `Verify` closes the news without waiting for its verdict loop, and everything turns on
 whether the verdict loop ever has anything to send.
 */
module PipelinePanic {
  import opened Types
  import opened AddrCache
  import opened CacheHistory
  import opened Pipeline
  import opened PipelineBase
  import opened PipelineSync
  import opened PipelineTheorems
  import opened PipelineDrive

  /** The item brings its address for the first time. */
  ghost predicate FirstOn(items: seq<NamedAddress>, k: nat)
  {
    k < |items| && !items[k].Bare() && forall i :: 0 <= i < k && !items[i].Bare() ==> items[i].addr != items[k].addr
  }

  /** The ping's verdict on the item's address or another item can improve on the quality the address comes with. */
  ghost predicate Improvable(c: Config, k: nat)
    requires k < |c.input|
  {
    || !c.input[k].qual.Terminal()
    || (c.input[k].qual == Invalid
        && (c.oracle(c.input[k].addr) == Verified || exists f :: NA(f, c.input[k].addr, Verified) in c.input))
  }

  ghost predicate SomeImprovable(c: Config)
  {
    exists k :: FirstOn(c.input, k) && Improvable(c, k)
  }

  // ---------------------------------------------------------------- if nothing can be improved

  /** Nothing that may be presented for the address has a better quality. */
  ghost predicate Unbeatable(c: Config, a: string, q: Quality)
  {
    && Invalid.Rank() <= q.Rank() && c.oracle(a).Rank() <= q.Rank()
    && forall f, p :: NA(f, a, p) in c.input ==> p.Rank() <= q.Rank()
  }

  lemma FirstIsUnbeatable(c: Config, k: nat)
    requires FirstOn(c.input, k) && !Improvable(c, k)
    ensures Unbeatable(c, c.input[k].addr, c.input[k].qual)
  {
    if c.input[k].qual == Invalid {
      forall f, p | NA(f, c.input[k].addr, p) in c.input
        ensures p.Rank() <= Invalid.Rank()
      {
        assert p != Verified;
      }
    }
  }

  /** The subject's name is registered for its address. */
  predicate Registered(cache: Cache, qa: QualifiedAddress)
  {
    qa.Named? && qa.Addr() in cache && qa.na.name in cache[qa.Addr()].consumers
  }

  /** A message of the pinger: an announcement, or a verdict the ping or the cancellation came to. */
  predicate OfPing(c: Config, a: string, q: Quality)
  {
    q == Verifying || q == Invalid || q == c.oracle(a)
  }

  ghost predicate AllUnbeatable(c: Config, cache: Cache)
  {
    forall a :: a in cache ==> Unbeatable(c, a, cache[a].q)
  }

  predicate Grows(cache: Cache, cache': Cache)
  {
    forall a :: a in cache ==>
      a in cache' && cache'[a].q == cache[a].q && forall f :: f in cache[a].consumers ==> f in cache'[a].consumers
  }

  /** How many of the items taken have been dealt with if they have addresses. */
  function DealtWith(s: State): int
  {
    if s.inPc.Forwarding? || s.inPc.Locking? then s.taken - 1 else s.taken
  }

  ghost predicate InputKnown(c: Config, s: State)
  {
    && 0 <= DealtWith(s) <= s.taken <= |c.input|
    && (s.inPc.Forwarding? ==> s.inPc.na.Bare() && s.inPc.na == c.input[s.taken - 1])
    && (s.inPc.Locking? ==> !s.inPc.na.Bare() && s.inPc.na == c.input[s.taken - 1])
    && forall i :: 0 <= i < DealtWith(s) && !c.input[i].Bare() ==> c.input[i].addr in s.cache
  }

  ghost predicate SubjectsRegistered(c: Config, s: State)
  {
    && (s.inPc.Updating? && s.inPc.isNew ==> Registered(s.cache, Named(s.inPc.na)))
    && (s.inPc.Announcing? ==> Registered(s.cache, s.inPc.subject) && s.inPc.subject.Qual() == Verifying)
    && (s.inPc.Submitting? ==> Registered(s.cache, s.inPc.subject))
    && (forall i :: 0 <= i < |s.jobs| ==>
          && Registered(s.cache, s.jobs[i].subject)
          && (s.jobs[i].stage.Judged? ==> OfPing(c, s.jobs[i].subject.Addr(), s.jobs[i].stage.verdict)))
    && (forall k :: 0 <= k < |s.court.sent| ==>
          Registered(s.cache, s.court.sent[k]) && OfPing(c, s.court.sent[k].Addr(), s.court.sent[k].Qual()))
    && (s.vPc.VLocking? ==> Registered(s.cache, Named(s.vPc.na)) && OfPing(c, s.vPc.na.addr, s.vPc.na.qual))
  }

  /** No quality ever changes, whoever is pinged for is registered, and so the verdict loop has nothing to send. */
  ghost predicate Mute(c: Config, s: State)
  {
    && !s.panicked && AllUnbeatable(c, s.cache) && InputKnown(c, s) && SubjectsRegistered(c, s)
    && (s.vPc.VUpdating? ==> s.vPc.out == [])
  }

  lemma MuteLock(c: Config, s: State)
    requires !SomeImprovable(c) && Structure(c, s) && Mute(c, s) && InputEnabled(c, s, Lock)
    ensures Mute(c, InputStep(c, s, Lock))
  {
    var p, na := s.taken - 1, s.inPc.na;
    var s' := InputStep(c, s, Lock);
    if na.addr !in s.cache {
      assert FirstOn(c.input, p);
      FirstIsUnbeatable(c, p);
    }
    assert NA(na.name, na.addr, na.qual) in c.input;
    ItemGrows(c, s.cache, na);
    StillRegistered(c, s, s');
  }

  lemma ItemGrows(c: Config, cache: Cache, na: NamedAddress)
    requires AllUnbeatable(c, cache) && na in c.input && (na.addr !in cache ==> Unbeatable(c, na.addr, na.qual))
    ensures var cache' := Updated(cache, na).cache;
            && Grows(cache, cache') && AllUnbeatable(c, cache') && na.addr in cache'
            && (Updated(cache, na).isNew ==> na.name in cache'[na.addr].consumers)
  {
    assert NA(na.name, na.addr, na.qual) == na;
  }

  /** A growing cache keeps everything registered. */
  lemma StillRegistered(c: Config, s: State, s': State)
    requires SubjectsRegistered(c, s) && Grows(s.cache, s'.cache)
    requires s'.jobs == s.jobs && s'.court.sent == s.court.sent && s'.vPc == s.vPc
    requires s'.inPc.Updating? && (s'.inPc.isNew ==> Registered(s'.cache, Named(s'.inPc.na)))
    ensures SubjectsRegistered(c, s')
  {
  }

  lemma MuteAnnounce(c: Config, s: State)
    requires Structure(c, s) && Mute(c, s) && InputEnabled(c, s, Announce)
    ensures Mute(c, InputStep(c, s, Announce))
  {
  }

  lemma MuteSubmit(c: Config, s: State)
    requires Structure(c, s) && Mute(c, s) && InputEnabled(c, s, Submit)
    ensures Mute(c, InputStep(c, s, Submit))
  {
  }

  lemma MuteMove(c: Config, s: State, a: Action)
    requires Structure(c, s) && Mute(c, s) && InputEnabled(c, s, a) && !a.Lock? && !a.Announce? && !a.Submit?
    ensures Mute(c, InputStep(c, s, a))
  {
    var s' := InputStep(c, s, a);
    assert s'.jobs == s.jobs && s'.court.sent == s.court.sent && s'.vPc == s.vPc && s'.cache == s.cache;
  }

  lemma MuteVLock(c: Config, s: State)
    requires Structure(c, s) && Mute(c, s) && VerdictEnabled(c, s, VLock)
    ensures Mute(c, VerdictStep(c, s, VLock))
  {
    NothingToTell(c, s.cache, s.vPc.na);
    var s' := VerdictStep(c, s, VLock);
    assert s'.cache == s.cache && s'.vPc.out == [];
  }

  lemma NothingToTell(c: Config, cache: Cache, na: NamedAddress)
    requires AllUnbeatable(c, cache) && Registered(cache, Named(na)) && OfPing(c, na.addr, na.qual)
    ensures Updated(cache, na) == Outcome(cache, [], false)
  {
  }

  lemma MuteVerdictMove(c: Config, s: State, a: Action)
    requires Structure(c, s) && Mute(c, s) && VerdictEnabled(c, s, a) && !a.VLock?
    ensures Mute(c, VerdictStep(c, s, a))
  {
    var s' := VerdictStep(c, s, a);
    assert s'.jobs == s.jobs && s'.court.sent == s.court.sent && s'.inPc == s.inPc && s'.cache == s.cache;
  }

  lemma MuteWorker(c: Config, s: State, a: Action)
    requires Structure(c, s) && Mute(c, s) && WorkerEnabled(c, s, a)
    ensures Mute(c, WorkerStep(c, s, a))
  {
    var s' := WorkerStep(c, s, a);
    assert s'.inPc == s.inPc && s'.vPc == s.vPc && s'.cache == s.cache && s'.taken == s.taken;
  }

  lemma MuteStep(c: Config, s: State, a: Action)
    requires !SomeImprovable(c) && Structure(c, s) && Mute(c, s) && Enabled(c, s, a)
    ensures Mute(c, Apply(c, s, a))
  {
    if InputEnabled(c, s, a) {
      if a.Lock? {
        MuteLock(c, s);
      } else if a.Announce? {
        MuteAnnounce(c, s);
      } else if a.Submit? {
        MuteSubmit(c, s);
      } else {
        MuteMove(c, s, a);
      }
    } else if VerdictEnabled(c, s, a) {
      if a.VLock? {
        MuteVLock(c, s);
      } else {
        MuteVerdictMove(c, s, a);
      }
    } else if WorkerEnabled(c, s, a) {
      MuteWorker(c, s, a);
    }
  }

  lemma {:induction false} MuteHolds(c: Config, s: State, acts: seq<Action>)
    requires !SomeImprovable(c) && Base(c, s) && Mute(c, s) && Run(c, s, acts)
    ensures Mute(c, After(c, s, acts))
    decreases |acts|
  {
    if acts != [] {
      StructureStep(c, s, acts[0]);
      OriginStep(c, s, acts[0]);
      MuteStep(c, s, acts[0]);
      MuteHolds(c, Apply(c, s, acts[0]), acts[1..]);
    }
  }

  // ---------------------------------------------------------------- if something can be improved

  function Announcement(na: NamedAddress): QualifiedAddress
  {
    Named(na.WithQuality(Verifying))
  }

  /** The state after a new address was presented and its ping submitted, with nothing else going on. */
  function Submitted(s: State, na: NamedAddress): State
  {
    s.(taken := s.taken + 1,
       cache := s.cache[na.addr := Entry(na.qual, [na.name])],
       court := s.court.Sent(Announcement(na)),
       jobs := s.jobs + [Job(Announcement(na), |s.court.sent|, Queued)],
       news := Chan(s.news.sent + [na], s.news.taken + 1, s.news.closed),
       calls := s.calls + [na],
       senders := s.senders + [|s.jobs|])
  }

  /** Ready to take the given item, which brings a new address. */
  ghost predicate Before(c: Config, acts: seq<Action>, s: State, na: NamedAddress)
  {
    && c.size >= 1 && Reaches(c, acts, s) && Structure(c, s) && Idle(s, s.taken)
    && s.taken < |c.input| && c.input[s.taken] == na && !na.Bare() && na.addr !in s.cache
  }

  lemma PresentNew(c: Config, before: seq<Action>, s: State, na: NamedAddress) returns (acts: seq<Action>)
    requires Before(c, before, s, na)
    ensures Reaches(c, acts, s.(taken := s.taken + 1, inPc := Updating(na, [na], true), calls := s.calls + [na],
                                cache := s.cache[na.addr := Entry(na.qual, [na.name])]))
  {
    acts := Do(c, before, s, Take);
    var t := Apply(c, s, Take);
    acts := Do(c, acts, t, Lock);
  }

  /** After the new address was told to the reader. */
  function Presented(s: State, na: NamedAddress): State
  {
    s.(taken := s.taken + 1,
       cache := s.cache[na.addr := Entry(na.qual, [na.name])],
       news := Chan(s.news.sent + [na], s.news.taken + 1, s.news.closed),
       calls := s.calls + [na],
       inPc := Announcing(Announcement(na)))
  }

  lemma TellNew(c: Config, before: seq<Action>, s: State, na: NamedAddress) returns (acts: seq<Action>)
    requires Before(c, before, s, na)
    ensures Reaches(c, acts, Presented(s, na))
  {
    acts := PresentNew(c, before, s, na);
    var t := s.(taken := s.taken + 1, inPc := Updating(na, [na], true), calls := s.calls + [na],
                cache := s.cache[na.addr := Entry(na.qual, [na.name])]);
    acts := Do(c, acts, t, Emit);
    t := Apply(c, t, Emit);
    acts := Do(c, acts, t, Read);
    t := Apply(c, t, Read);
    acts := Do(c, acts, t, Unlock);
  }

  lemma SubmitNew(c: Config, before: seq<Action>, s: State, na: NamedAddress) returns (acts: seq<Action>)
    requires Before(c, before, s, na)
    ensures Reaches(c, acts, Submitted(s, na))
  {
    acts := TellNew(c, before, s, na);
    var t := Presented(s, na);
    acts := Do(c, acts, t, Announce);
    t := Apply(c, t, Announce);
    acts := Do(c, acts, t, Submit);
  }

  lemma AnnouncementOutcome(cache: Cache, na: NamedAddress)
    ensures var known := cache[na.addr := Entry(na.qual, [na.name])];
            if na.qual == Unverified then Updated(known, na.WithQuality(Verifying)).out != []
            else Updated(known, na.WithQuality(Verifying)) == Outcome(known, [], false)
  {
  }

  /** The announcement is news exactly for an address that came unverified. */
  lemma TakeAnnouncement(c: Config, before: seq<Action>, s: State, na: NamedAddress) returns (acts: seq<Action>)
    requires Before(c, before, s, na)
    ensures Run(c, Init(), acts)
    ensures if na.qual == Unverified then Armed(After(c, Init(), acts)) else After(c, Init(), acts) == Announced(s, na)
  {
    acts := ReceiveAnnouncement(c, before, s, na);
    var t := Submitted(s, na).(court := Chan(s.court.sent + [Announcement(na)], |s.court.sent| + 1, s.court.closed),
                               vPc := VLocking(na.WithQuality(Verifying)));
    AnnouncementOutcome(s.cache, na);
    acts := Do(c, acts, t, VLock);
    if na.qual != Unverified {
      t := Apply(c, t, VLock);
      acts := Do(c, acts, t, VUnlock);
    }
  }

  /** After the announcement was no news. */
  function Announced(s: State, na: NamedAddress): State
  {
    Submitted(s, na).(court := Chan(s.court.sent + [Announcement(na)], |s.court.sent| + 1, s.court.closed),
                      calls := s.calls + [na] + [na.WithQuality(Verifying)])
  }

  lemma ReceiveAnnouncement(c: Config, before: seq<Action>, s: State, na: NamedAddress) returns (acts: seq<Action>)
    requires Before(c, before, s, na)
    ensures Reaches(c, acts, Submitted(s,
            na).(court := Chan(s.court.sent + [Announcement(na)], |s.court.sent| + 1, s.court.closed),
                                               vPc := VLocking(na.WithQuality(Verifying))))
  {
    acts := SubmitNew(c, before, s, na);
    var t := Submitted(s, na);
    acts := Do(c, acts, t, Receive);
  }

  /** The state after one job ran by itself. */
  function Reported(c: Config, s: State, i: nat): State
    requires i < |s.jobs|
  {
    s.(court := s.court.Sent(s.jobs[i].subject.WithNewQuality(c.oracle(s.jobs[i].subject.Addr()))),
       senders := s.senders + [i],
       jobs := s.jobs[i := s.jobs[i].(stage := Finished(Some(|s.court.sent|)))])
  }

  lemma RunJob(c: Config, before: seq<Action>, s: State, i: nat) returns (acts: seq<Action>)
    requires c.size >= 1 && Reaches(c, before, s) && Structure(c, s) && Idle(s, s.taken) && i < |s.jobs|
    ensures Reaches(c, acts, Reported(c, s, i))
  {
    var q := c.oracle(s.jobs[i].subject.Addr());
    NobodyRunning(s.jobs);
    acts := Do(c, before, s, Start(i));
    var t := Apply(c, s, Start(i));
    assert t.jobs[i] == s.jobs[i].(stage := Pinging);
    acts := Do(c, acts, t, Judge(i, q));
    t := Apply(c, t, Judge(i, q));
    assert t.jobs == s.jobs[i := s.jobs[i].(stage := Judged(q))];
    acts := Do(c, acts, t, Report(i));
  }

  /** A verdict that is news arms the verdict loop. */
  lemma ReportArms(c: Config, before: seq<Action>, s: State, i: nat) returns (acts: seq<Action>)
    requires c.size >= 1 && Reaches(c, before, s) && Structure(c, s) && Idle(s, s.taken)
    requires i < |s.jobs| && s.jobs[i].subject.Named?
    requires Updated(s.cache, s.jobs[i].subject.na.WithQuality(c.oracle(s.jobs[i].subject.Addr()))).out != []
    ensures Run(c, Init(), acts) && Armed(After(c, Init(), acts))
  {
    acts := RunJob(c, before, s, i);
    acts := ReceiveArms(c, acts, Reported(c, s, i));
  }

  lemma ReceiveArms(c: Config, before: seq<Action>, s: State) returns (acts: seq<Action>)
    requires Reaches(c, before, s) && !s.cancelled && !s.panicked && s.inPc.Reading? && s.vPc.Receiving?
    requires s.court.taken < |s.court.sent| && s.court.sent[s.court.taken].Named?
    requires Updated(s.cache, s.court.sent[s.court.taken].na).out != []
    ensures Run(c, Init(), acts) && Armed(After(c, Init(), acts))
  {
    acts := Do(c, before, s, Receive);
    var t := Apply(c, s, Receive);
    acts := Do(c, acts, t, VLock);
  }

  /** Before its first item an address is not cached. */
  lemma StillUnknown(c: Config, acts: seq<Action>, k: nat)
    requires Run(c, Init(), acts) && Idle(After(c, Init(), acts), k) && FirstOn(c.input, k)
    ensures c.input[k].addr !in After(c, Init(), acts).cache
  {
    var s := After(c, Init(), acts);
    Reached(c, acts);
    CachedQualityIsMaximum(s.calls);
    forall j | 0 <= j < |s.calls|
      ensures s.calls[j].addr != c.input[k].addr
    {
      var i := CalledFrom(c, s, j);
    }
  }

  /** The ping's verdict is better than what the address came with. */
  lemma BetterVerdictPanics(c: Config, k: nat) returns (acts: seq<Action>)
    requires c.size >= 1 && FirstOn(c.input, k) && c.oracle(c.input[k].addr).Terminal()
    requires c.input[k].qual.Rank() < c.oracle(c.input[k].addr).Rank()
    ensures Run(c, Init(), acts) && After(c, Init(), acts).panicked
  {
    var na := c.input[k];
    acts := Drive(c, k);
    var s := After(c, Init(), acts);
    StillUnknown(c, acts, k);
    BaseOf(c, acts, s);
    acts := TakeAnnouncement(c, acts, s, na);
    if na.qual != Unverified {
      var t := After(c, Init(), acts);
      BaseOf(c, acts, t);
      assert t.jobs[|s.jobs|].subject == Announcement(na);
      acts := ReportArms(c, acts, t, |s.jobs|);
    }
    acts := ArmedPanics(c, acts);
  }

  // ---------------------------------------------------------------- an item that improves

  /** The first item that brings the address verified, after one that brought it invalid. */
  ghost predicate Improves(c: Config, k: nat, m: nat)
  {
    && FirstOn(c.input, k) && c.input[k].qual == Invalid && k < m < |c.input|
    && c.input[m].addr == c.input[k].addr && c.input[m].qual == Verified
    && forall i :: 0 <= i < m && c.input[i].addr == c.input[k].addr ==> c.input[i].qual != Verified
  }

  lemma {:induction false} FirstImproving(c: Config, k: nat, n: nat) returns (m: nat)
    requires FirstOn(c.input, k) && c.input[k].qual == Invalid && k < n <= |c.input|
    requires exists i :: k <= i < n && c.input[i].addr == c.input[k].addr && c.input[i].qual == Verified
    ensures Improves(c, k, m)
    decreases n
  {
    if exists i :: k <= i < n - 1 && c.input[i].addr == c.input[k].addr && c.input[i].qual == Verified {
      m := FirstImproving(c, k, n - 1);
    } else {
      m := n - 1;
    }
  }

  /** Up to that item the address stays invalid, and its ping waits. */
  lemma StillInvalid(c: Config, acts: seq<Action>, k: nat, m: nat)
    requires Improves(c, k, m) && Run(c, Init(), acts) && Idle(After(c, Init(), acts), m)
    ensures c.input[k].addr in After(c, Init(), acts).cache
    ensures After(c, Init(), acts).cache[c.input[k].addr].q == Invalid
  {
    var s, a := After(c, Init(), acts), c.input[k].addr;
    ItemWasCalled(c, acts, k, m);
    assert s.cache == CacheAfter(s.calls) by {
      Reached(c, acts);
    }
    CachedQualityIsMaximum(s.calls);
    var r :| 0 <= r < |s.calls| && s.calls[r] == c.input[k];
    var j :| 0 <= j < |s.calls| && s.calls[j].addr == a && s.calls[j].qual == s.cache[a].q;
    NotYetVerified(c, acts, k, m, s.calls[j]);
  }

  lemma ItemWasCalled(c: Config, acts: seq<Action>, k: nat, m: nat)
    requires k < m <= |c.input| && !c.input[k].Bare() && Run(c, Init(), acts) && Idle(After(c, Init(), acts), m)
    ensures c.input[k] in After(c, Init(), acts).calls
  {
    Reached(c, acts);
    assert c.input[..m][k] == c.input[k];
  }

  /** A cached address has a job. */
  lemma HasJob(c: Config, acts: seq<Action>, m: nat, a: string) returns (i: nat)
    requires Run(c, Init(), acts) && Idle(After(c, Init(), acts), m) && a in After(c, Init(), acts).cache
    ensures var s := After(c, Init(), acts);
            i < |s.jobs| && s.jobs[i].subject.Named? && s.jobs[i].subject.Addr() == a
  {
    var s := After(c, Init(), acts);
    Reached(c, acts);
    i :| 0 <= i < |Subjects(s)| && Subjects(s)[i].Addr() == a;
  }

  lemma NotYetVerified(c: Config, acts: seq<Action>, k: nat, m: nat, na: NamedAddress)
    requires Improves(c, k, m) && Run(c, Init(), acts) && Idle(After(c, Init(), acts), m)
    requires na in After(c, Init(), acts).calls && na.addr == c.input[k].addr
    ensures na.qual != Verified
  {
    if na in c.input[..m] {
      var i :| 0 <= i < m && c.input[..m][i] == na;
    } else {
      IdleCallsAnnounce(c, acts, m, na);
    }
  }

  /** With no ping begun the cache was presented with input items and announcements only. */
  lemma IdleCallsAnnounce(c: Config, acts: seq<Action>, m: nat, na: NamedAddress)
    requires m <= |c.input| && Run(c, Init(), acts) && Idle(After(c, Init(), acts), m)
    requires na in After(c, Init(), acts).calls && na !in c.input[..m]
    ensures na.qual == Verifying
  {
    var s := After(c, Init(), acts);
    Reached(c, acts);
    assert Named(na) in s.court.sent[..Handled(s)];
    var j :| 0 <= j < Handled(s) && s.court.sent[j] == Named(na);
    CourtMessage(c, s, j);
  }

  /** All messages of the running update are sent and read. */
  lemma {:induction false} EmitAll(c: Config, before: seq<Action>, s: State, na: NamedAddress, out: seq<NamedAddress>)
    returns (acts: seq<Action>, news: Chan<NamedAddress>)
    requires c.size >= 1 && Reaches(c, before, s) && !s.cancelled && !s.panicked && !s.news.closed
    requires s.inPc == Updating(na, out, false) && s.news.taken == |s.news.sent|
    ensures Reaches(c, acts, s.(inPc := Reading, news := news))
    ensures news.taken == |news.sent| && !news.closed
    decreases |out|
  {
    if out == [] {
      acts := Do(c, before, s, Unlock);
      news := s.news;
    } else {
      acts := Do(c, before, s, Emit);
      var t := Apply(c, s, Emit);
      acts := Do(c, acts, t, Read);
      t := Apply(c, t, Read);
      acts, news := EmitAll(c, acts, t, na, out[1..]);
    }
  }

  lemma TakeImproving(c: Config, before: seq<Action>, s: State, na: NamedAddress)
    returns (acts: seq<Action>, news: Chan<NamedAddress>)
    requires c.size >= 1 && Reaches(c, before, s) && Structure(c, s) && Idle(s, s.taken)
    requires s.taken < |c.input| && c.input[s.taken] == na && !na.Bare() && na.qual == Verified
    requires na.addr in s.cache && s.cache[na.addr].q == Invalid
    ensures Reaches(c, acts, s.(taken := s.taken + 1, cache := s.cache[na.addr := Entry(Verified, [])],
                                calls := s.calls + [na], news := news))
    ensures news.taken == |news.sent| && !news.closed
  {
    acts := Do(c, before, s, Take);
    var t := Apply(c, s, Take);
    acts := Do(c, acts, t, Lock);
    t := Apply(c, t, Lock);
    acts, news := EmitAll(c, acts, t, na, t.inPc.out);
  }

  /** The item's verdict releases all names, so the ping's own verdict is sent again to the name it is about. */
  lemma LateVerdictPanics(c: Config, k: nat, m: nat) returns (acts: seq<Action>)
    requires c.size >= 1 && Improves(c, k, m)
    ensures Run(c, Init(), acts) && After(c, Init(), acts).panicked
  {
    acts := Drive(c, m);
    var s := After(c, Init(), acts);
    StillInvalid(c, acts, k, m);
    var i := HasJob(c, acts, m, c.input[k].addr);
    BaseOf(c, acts, s);
    var news;
    acts, news := TakeImproving(c, acts, s, c.input[m]);
    var t := s.(taken := s.taken + 1, cache := s.cache[c.input[m].addr := Entry(Verified, [])],
                calls := s.calls + [c.input[m]], news := news);
    BaseOf(c, acts, t);
    acts := ReportArms(c, acts, t, i);
    acts := ArmedPanics(c, acts);
  }

  // ---------------------------------------------------------------- exactly when

  lemma ImprovablePanics(c: Config, k: nat) returns (acts: seq<Action>)
    requires c.size >= 1 && PingsDecide(c) && FirstOn(c.input, k) && Improvable(c, k)
    ensures Run(c, Init(), acts) && After(c, Init(), acts).panicked
  {
    var a := c.input[k].addr;
    if c.input[k].qual.Rank() < c.oracle(a).Rank() {
      acts := BetterVerdictPanics(c, k);
    } else {
      var f :| NA(f, a, Verified) in c.input;
      var i :| 0 <= i < |c.input| && c.input[i] == NA(f, a, Verified);
      var m := FirstImproving(c, k, |c.input|);
      acts := LateVerdictPanics(c, k, m);
    }
  }

  /**
   For any input: some run sends on the closed news exactly if some address first comes in a quality that its
   ping or a later item can improve.
   */
  lemma PanicExactlyIfImprovable(c: Config)
    requires c.size >= 1 && PingsDecide(c)
    ensures (exists acts :: Run(c, Init(), acts) && After(c, Init(), acts).panicked) <==> SomeImprovable(c)
  {
    if SomeImprovable(c) {
      var k :| FirstOn(c.input, k) && Improvable(c, k);
      var acts := ImprovablePanics(c, k);
      assert Run(c, Init(), acts) && After(c, Init(), acts).panicked;
    } else {
      forall acts | Run(c, Init(), acts)
        ensures !After(c, Init(), acts).panicked
      {
        BaseInit(c);
        MuteHolds(c, Init(), acts);
      }
    }
  }

  lemma {:induction false} FirstOnAddress(items: seq<NamedAddress>, n: nat) returns (k: nat)
    requires n < |items| && !items[n].Bare()
    ensures FirstOn(items, k) && k <= n
    decreases n
  {
    if i :| 0 <= i < n && !items[i].Bare() && items[i].addr == items[n].addr {
      k := FirstOnAddress(items, i);
    } else {
      k := n;
    }
  }

  /** Without verdicts on the input: exactly if the input has an address at all. */
  lemma PanicExactlyWithAddresses(c: Config)
    requires ValidConfig(c)
    ensures (exists acts :: Run(c, Init(), acts) && After(c, Init(), acts).panicked) <==>
            exists i :: 0 <= i < |c.input| && !c.input[i].Bare()
  {
    PanicExactlyIfImprovable(c);
    if n :| 0 <= n < |c.input| && !c.input[n].Bare() {
      var k := FirstOnAddress(c.input, n);
      assert FirstOn(c.input, k) && Improvable(c, k);
    }
  }

  /** Such a run is always a cancelled one, and the send always comes after `Verify` has returned. */
  lemma PanicNeedsCancellation(c: Config, acts: seq<Action>)
    requires Run(c, Init(), acts) && After(c, Init(), acts).panicked
    ensures After(c, Init(), acts).cancelled && After(c, Init(), acts).inPc.Returned?
  {
    BaseInit(c);
    BaseHolds(c, Init(), acts);
  }
}
