/** What the reader of the news can rely on in every run, cancelled or not. */
module PipelineStream {
  import opened Types
  import opened AddrCache
  import opened CacheHistory
  import opened Pipeline
  import opened PipelineBase

  // ---------------------------------------------------------------- qualities never decrease

  /** Nothing sent about an address exceeds what the cache knows, and what is about to be sent is exactly that. */
  ghost predicate Rising(s: State, a: string)
  {
    Monotone(s.news.sent, a) && Covered(s.news.sent, s.cache, a) && Current(Pending(s), s.cache, a)
  }

  lemma SendRises(log: seq<NamedAddress>, pending: seq<NamedAddress>, cache: Cache, a: string)
    requires Monotone(log, a) && Covered(log, cache, a) && Current(pending, cache, a) && pending != []
    ensures Monotone(log + [pending[0]], a) && Covered(log + [pending[0]], cache, a) && Current(pending[1..], cache, a)
  {
    CoveredAppend(log, [pending[0]], cache, a);
  }

  lemma ForwardRises(log: seq<NamedAddress>, cache: Cache, na: NamedAddress, a: string)
    requires Monotone(log, a) && Covered(log, cache, a) && na.addr != a
    ensures Monotone(log + [na], a) && Covered(log + [na], cache, a)
  {
  }

  predicate ForwardsBare(s: State)
  {
    s.inPc.Forwarding? ==> s.inPc.na.Bare()
  }

  lemma RisingInput(c: Config, s: State, act: Action, a: string)
    requires Structure(c, s) && Rising(s, a) && ForwardsBare(s) && InputEnabled(c, s, act) && a != ""
    ensures Rising(InputStep(c, s, act), a)
  {
    if act.Lock? {
      UpdateCovers(s.news.sent, s.cache, s.inPc.na, a);
    } else if act.Emit? {
      SendRises(s.news.sent, s.inPc.out, s.cache, a);
    } else if act.Forward? {
      ForwardRises(s.news.sent, s.cache, s.inPc.na, a);
    }
  }

  lemma RisingVerdict(c: Config, s: State, act: Action, a: string)
    requires Structure(c, s) && Rising(s, a) && VerdictEnabled(c, s, act)
    ensures Rising(VerdictStep(c, s, act), a)
  {
    if act.VLock? {
      UpdateCovers(s.news.sent, s.cache, s.vPc.na, a);
    } else if act.VEmit? {
      SendRises(s.news.sent, s.vPc.out, s.cache, a);
    }
  }

  lemma OthersLeaveNews(c: Config, s: State, a: Action)
    requires Enabled(c, s, a) && !InputEnabled(c, s, a) && !VerdictEnabled(c, s, a)
    ensures var s' := Apply(c, s, a);
            && s'.news.sent == s.news.sent && s'.cache == s.cache && s'.inPc == s.inPc && s'.vPc == s.vPc
            && s'.calls == s.calls && s'.taken == s.taken
  {
  }

  lemma ForwardsBareStep(c: Config, s: State, a: Action)
    requires ForwardsBare(s) && Enabled(c, s, a)
    ensures ForwardsBare(Apply(c, s, a))
  {
    if !InputEnabled(c, s, a) && !VerdictEnabled(c, s, a) {
      OthersLeaveNews(c, s, a);
    }
  }

  lemma RisingStep(c: Config, s: State, act: Action, a: string)
    requires Base(c, s) && Rising(s, a) && ForwardsBare(s) && Enabled(c, s, act) && a != ""
    ensures Rising(Apply(c, s, act), a)
  {
    if InputEnabled(c, s, act) {
      RisingInput(c, s, act, a);
    } else if VerdictEnabled(c, s, act) {
      RisingVerdict(c, s, act, a);
    } else {
      OthersLeaveNews(c, s, act);
    }
  }

  lemma {:induction false} RisingHolds(c: Config, s: State, acts: seq<Action>, a: string)
    requires Base(c, s) && Rising(s, a) && ForwardsBare(s) && Run(c, s, acts) && a != ""
    ensures Rising(After(c, s, acts), a)
    decreases |acts|
  {
    if acts != [] {
      StructureStep(c, s, acts[0]);
      OriginStep(c, s, acts[0]);
      ForwardsBareStep(c, s, acts[0]);
      RisingStep(c, s, acts[0], a);
      RisingHolds(c, Apply(c, s, acts[0]), acts[1..], a);
    }
  }

  /**
   In every run, even one in which a done context drops messages: the qualities sent about an address never
   decrease, they never exceed the cached quality, and the cached quality is the maximum of all presented.
   */
  lemma NewsIsMonotone(c: Config, acts: seq<Action>, a: string)
    requires Run(c, Init(), acts) && a != ""
    ensures var s := After(c, Init(), acts);
            && Monotone(s.news.sent, a) && Covered(s.news.sent, s.cache, a)
            && (forall k :: 0 <= k < |s.calls| && s.calls[k].addr == a ==>
                  a in s.cache && s.calls[k].qual.Rank() <= s.cache[a].q.Rank())
            && (a in s.cache ==>
                  exists k :: 0 <= k < |s.calls| && s.calls[k].addr == a && s.calls[k].qual == s.cache[a].q)
  {
    BaseInit(c);
    BaseHolds(c, Init(), acts);
    RisingHolds(c, Init(), acts, a);
    CachedQualityIsMaximum(After(c, Init(), acts).calls);
  }

  // ---------------------------------------------------------------- announcements come first

  ghost predicate Announced(log: seq<NamedAddress>, f: string)
  {
    exists j :: 0 <= j < |log| && log[j].Bare() && log[j].name == f
  }

  /** Before the first message with an address, every name is announced without one. */
  ghost predicate AnnouncedFirst(log: seq<NamedAddress>)
  {
    forall k :: 0 <= k < |log| && !log[k].Bare() ==> Announced(log[..k], log[k].name)
  }

  lemma StaysAnnounced(log: seq<NamedAddress>, na: NamedAddress, f: string)
    requires Announced(log, f)
    ensures Announced(log + [na], f)
  {
    var j :| 0 <= j < |log| && log[j].Bare() && log[j].name == f;
    assert (log + [na])[j] == log[j];
  }

  lemma AnnouncedFirstExtends(log: seq<NamedAddress>, na: NamedAddress)
    requires AnnouncedFirst(log) && (na.Bare() || Announced(log, na.name))
    ensures AnnouncedFirst(log + [na])
  {
    var more := log + [na];
    forall k | 0 <= k < |more| && !more[k].Bare()
      ensures Announced(more[..k], more[k].name)
    {
      assert more[..k] == log[..k];
      assert k == |log| ==> log[..k] == log;
    }
  }

  // ---------------------------------------------------------------- whose names are in flight

  ghost predicate Called(calls: seq<NamedAddress>, f: string)
  {
    exists k :: 0 <= k < |calls| && calls[k].name == f
  }

  ghost predicate NamedCalled(calls: seq<NamedAddress>, qa: QualifiedAddress)
  {
    qa.Named? && Called(calls, qa.na.name)
  }

  /** Every name the pipeline is dealing with was presented to the cache. */
  ghost predicate FlightCalled(s: State)
  {
    && (s.inPc.Updating? ==> Called(s.calls, s.inPc.na.name))
    && (s.inPc.Announcing? ==> NamedCalled(s.calls, s.inPc.subject))
    && (s.inPc.Submitting? ==> NamedCalled(s.calls, s.inPc.subject))
    && (s.vPc.VLocking? ==> Called(s.calls, s.vPc.na.name))
    && (forall i :: 0 <= i < |s.jobs| ==> NamedCalled(s.calls, s.jobs[i].subject))
    && (forall k :: 0 <= k < |s.court.sent| ==> NamedCalled(s.calls, s.court.sent[k]))
    && AllCalled(s.calls, Pending(s))
  }

  ghost predicate AllCalled(calls: seq<NamedAddress>, out: seq<NamedAddress>)
  {
    forall i :: 0 <= i < |out| ==> Called(calls, out[i].name)
  }

  lemma CalledStays(calls: seq<NamedAddress>, na: NamedAddress)
    ensures forall f :: Called(calls, f) ==> Called(calls + [na], f)
    ensures Called(calls + [na], na.name)
  {
    forall f | Called(calls, f)
      ensures Called(calls + [na], f)
    {
      var k :| 0 <= k < |calls| && calls[k].name == f;
      assert (calls + [na])[k] == calls[k];
    }
    assert (calls + [na])[|calls|] == na;
  }

  /** The names told by an update were presented before, or just now. */
  lemma ToldNames(calls: seq<NamedAddress>, na: NamedAddress)
    ensures AllCalled(calls + [na], Updated(CacheAfter(calls), na).out)
  {
    var out := Updated(CacheAfter(calls), na).out;
    Unfold(calls, na);
    StreamAboutPairs(calls + [na]);
    forall i | 0 <= i < |out|
      ensures Called(calls + [na], out[i].name)
    {
      assert out[i] in Stream(calls + [na]);
      assert (out[i].name, out[i].addr) in Pairs(calls + [na]);
      var k :| 0 <= k < |calls + [na]|
          && (out[i].name, out[i].addr) == ((calls + [na])[k].name, (calls + [na])[k].addr);
    }
  }

  lemma FlightLock(c: Config, s: State)
    requires Structure(c, s) && FlightCalled(s) && InputEnabled(c, s, Lock)
    ensures FlightCalled(InputStep(c, s, Lock))
  {
    CalledStays(s.calls, s.inPc.na);
    ToldNames(s.calls, s.inPc.na);
  }

  lemma FlightAnnounce(c: Config, s: State)
    requires FlightCalled(s) && InputEnabled(c, s, Announce)
    ensures FlightCalled(InputStep(c, s, Announce))
  {
    assert Pending(InputStep(c, s, Announce)) == Pending(s);
  }

  lemma FlightSubmit(c: Config, s: State)
    requires FlightCalled(s) && InputEnabled(c, s, Submit)
    ensures FlightCalled(InputStep(c, s, Submit))
  {
    assert Pending(InputStep(c, s, Submit)) == Pending(s);
  }

  lemma FlightMove(c: Config, s: State, a: Action)
    requires Structure(c, s) && FlightCalled(s) && InputEnabled(c, s, a) && !a.Lock? && !a.Announce? && !a.Submit?
    ensures FlightCalled(InputStep(c, s, a))
  {
    var s' := InputStep(c, s, a);
    assert s'.jobs == s.jobs && s'.court.sent == s.court.sent && s'.calls == s.calls && s'.vPc == s.vPc;
    assert Pending(s') == Pending(s) || Pending(s') == [] || Pending(s') == Pending(s)[1..];
  }

  lemma FlightVLock(c: Config, s: State)
    requires Structure(c, s) && FlightCalled(s) && VerdictEnabled(c, s, VLock)
    ensures FlightCalled(VerdictStep(c, s, VLock))
  {
    CalledStays(s.calls, s.vPc.na);
    ToldNames(s.calls, s.vPc.na);
  }

  lemma FlightVerdictMove(c: Config, s: State, a: Action)
    requires Structure(c, s) && FlightCalled(s) && VerdictEnabled(c, s, a) && !a.VLock?
    ensures FlightCalled(VerdictStep(c, s, a))
  {
    var s' := VerdictStep(c, s, a);
    assert s'.jobs == s.jobs && s'.court.sent == s.court.sent && s'.calls == s.calls && s'.inPc == s.inPc;
    assert Pending(s') == Pending(s) || Pending(s') == [] || Pending(s') == Pending(s)[1..];
  }

  lemma FlightWorker(c: Config, s: State, a: Action)
    requires FlightCalled(s) && WorkerEnabled(c, s, a)
    ensures FlightCalled(WorkerStep(c, s, a))
  {
    assert Pending(WorkerStep(c, s, a)) == Pending(s);
  }

  lemma FlightStep(c: Config, s: State, a: Action)
    requires Structure(c, s) && FlightCalled(s) && Enabled(c, s, a)
    ensures FlightCalled(Apply(c, s, a))
  {
    if InputEnabled(c, s, a) {
      if a.Lock? {
        FlightLock(c, s);
      } else if a.Announce? {
        FlightAnnounce(c, s);
      } else if a.Submit? {
        FlightSubmit(c, s);
      } else {
        FlightMove(c, s, a);
      }
    } else if VerdictEnabled(c, s, a) {
      if a.VLock? {
        FlightVLock(c, s);
      } else {
        FlightVerdictMove(c, s, a);
      }
    } else if WorkerEnabled(c, s, a) {
      FlightWorker(c, s, a);
    } else {
      assert Pending(Apply(c, s, a)) == Pending(s);
    }
  }

  // ---------------------------------------------------------------- names in flight are announced

  predicate StillReading(pc: InputPc)
  {
    !pc.Stopping? && !CourtClosing(pc)
  }

  /** How many of the items taken have been forwarded if they are bare. */
  function ForwardedUpTo(s: State): int
  {
    if s.inPc.Forwarding? then s.taken - 1 else s.taken
  }

  ghost predicate NamesAnnounced(c: Config, s: State)
  {
    && AnnouncedFirst(s.news.sent)
    && s.taken <= |c.input|
    && (s.inPc.Forwarding? || s.inPc.Locking? ==> s.taken > 0 && s.inPc.na == c.input[s.taken - 1])
    && (s.inPc.Locking? ==> !s.inPc.na.Bare())
    && (s.inPc.Forwarding? ==> s.inPc.na.Bare())
    && (StillReading(s.inPc) ==>
          forall i :: 0 <= i < ForwardedUpTo(s) && c.input[i].Bare() ==> Announced(s.news.sent, c.input[i].name))
    && (forall k :: 0 <= k < |s.calls| ==> Announced(s.news.sent, s.calls[k].name))
  }

  lemma NextInputAnnounced(c: Config, s: State)
    requires AnnouncedFirst(c.input) && NamesAnnounced(c, s) && s.inPc.Locking?
    ensures Announced(s.news.sent, s.inPc.na.name)
  {
    var p := s.taken - 1;
    var j :| 0 <= j < |c.input[..p]| && c.input[..p][j].Bare() && c.input[..p][j].name == c.input[p].name;
    assert c.input[j].Bare();
  }

  lemma AnnouncedLock(c: Config, s: State)
    requires AnnouncedFirst(c.input) && NamesAnnounced(c, s) && InputEnabled(c, s, Lock)
    ensures NamesAnnounced(c, InputStep(c, s, Lock))
  {
    NextInputAnnounced(c, s);
  }

  lemma AnnouncedVLock(c: Config, s: State)
    requires FlightCalled(s) && NamesAnnounced(c, s) && VerdictEnabled(c, s, VLock)
    ensures NamesAnnounced(c, VerdictStep(c, s, VLock))
  {
    var k :| 0 <= k < |s.calls| && s.calls[k].name == s.vPc.na.name;
    assert Announced(s.news.sent, s.calls[k].name);
  }

  lemma StillAnnounced(log: seq<NamedAddress>, na: NamedAddress)
    requires AnnouncedFirst(log) && (na.Bare() || Announced(log, na.name))
    ensures AnnouncedFirst(log + [na]) && Announced(log + [na], na.name)
    ensures forall f :: Announced(log, f) ==> Announced(log + [na], f)
  {
    AnnouncedFirstExtends(log, na);
    forall f | Announced(log, f)
      ensures Announced(log + [na], f)
    {
      StaysAnnounced(log, na, f);
    }
    if na.Bare() {
      assert (log + [na])[|log|] == na;
    }
  }

  lemma AnnouncedForward(c: Config, s: State)
    requires Structure(c, s) && NamesAnnounced(c, s) && InputEnabled(c, s, Forward)
    ensures NamesAnnounced(c, InputStep(c, s, Forward))
  {
    StillAnnounced(s.news.sent, s.inPc.na);
  }

  /** A pending message was presented for, so its name is announced. */
  lemma PendingAnnounced(c: Config, s: State)
    requires FlightCalled(s) && NamesAnnounced(c, s) && Pending(s) != []
    ensures Announced(s.news.sent, Pending(s)[0].name)
  {
    assert AllCalled(s.calls, Pending(s));
    assert Called(s.calls, Pending(s)[0].name);
    var k :| 0 <= k < |s.calls| && s.calls[k].name == Pending(s)[0].name;
    assert Announced(s.news.sent, s.calls[k].name);
  }

  lemma AnnouncedEmit(c: Config, s: State)
    requires FlightCalled(s) && NamesAnnounced(c, s) && InputEnabled(c, s, Emit)
    ensures NamesAnnounced(c, InputStep(c, s, Emit))
  {
    PendingAnnounced(c, s);
    StillAnnounced(s.news.sent, s.inPc.out[0]);
  }

  lemma AnnouncedVEmit(c: Config, s: State)
    requires Structure(c, s) && FlightCalled(s) && NamesAnnounced(c, s) && VerdictEnabled(c, s, VEmit)
    ensures NamesAnnounced(c, VerdictStep(c, s, VEmit))
  {
    assert Pending(s) == s.vPc.out;
    PendingAnnounced(c, s);
    StillAnnounced(s.news.sent, s.vPc.out[0]);
  }

  lemma AnnouncedInputMove(c: Config, s: State, a: Action)
    requires NamesAnnounced(c, s) && InputEnabled(c, s, a) && !a.Lock? && !a.Emit? && !a.Forward?
    ensures NamesAnnounced(c, InputStep(c, s, a))
  {
    var s' := InputStep(c, s, a);
    assert s'.news.sent == s.news.sent && s'.calls == s.calls;
  }

  lemma AnnouncedVerdictMove(c: Config, s: State, a: Action)
    requires NamesAnnounced(c, s) && VerdictEnabled(c, s, a) && !a.VLock? && !a.VEmit?
    ensures NamesAnnounced(c, VerdictStep(c, s, a))
  {
    var s' := VerdictStep(c, s, a);
    assert s'.news.sent == s.news.sent && s'.calls == s.calls && s'.inPc == s.inPc && s'.taken == s.taken;
  }

  lemma AnnouncedStep(c: Config, s: State, a: Action)
    requires AnnouncedFirst(c.input) && Structure(c, s) && FlightCalled(s) && NamesAnnounced(c, s) && Enabled(c, s, a)
    ensures NamesAnnounced(c, Apply(c, s, a))
  {
    if InputEnabled(c, s, a) {
      if a.Lock? {
        AnnouncedLock(c, s);
      } else if a.Emit? {
        AnnouncedEmit(c, s);
      } else if a.Forward? {
        AnnouncedForward(c, s);
      } else {
        AnnouncedInputMove(c, s, a);
      }
    } else if VerdictEnabled(c, s, a) {
      if a.VLock? {
        AnnouncedVLock(c, s);
      } else if a.VEmit? {
        AnnouncedVEmit(c, s);
      } else {
        AnnouncedVerdictMove(c, s, a);
      }
    } else {
      OthersLeaveNews(c, s, a);
    }
  }

  lemma {:induction false} AnnouncedHolds(c: Config, s: State, acts: seq<Action>)
    requires AnnouncedFirst(c.input) && Base(c, s) && FlightCalled(s) && NamesAnnounced(c, s) && Run(c, s, acts)
    ensures NamesAnnounced(c, After(c, s, acts))
    decreases |acts|
  {
    if acts != [] {
      StructureStep(c, s, acts[0]);
      OriginStep(c, s, acts[0]);
      FlightStep(c, s, acts[0]);
      AnnouncedStep(c, s, acts[0]);
      AnnouncedHolds(c, Apply(c, s, acts[0]), acts[1..]);
    }
  }

  /**
   If every name arrives announced, every name leaves announced, although verdicts about one name are
   fanned out to others; cancellation does not change that.
   */
  lemma AnnouncementsPrecedeResults(c: Config, acts: seq<Action>)
    requires AnnouncedFirst(c.input) && Run(c, Init(), acts)
    ensures AnnouncedFirst(After(c, Init(), acts).news.sent)
  {
    BaseInit(c);
    AnnouncedHolds(c, Init(), acts);
  }
}
