/** What holds in addition in every reachable state of an uncancelled pipeline. */
module PipelineSync {
  import opened Types
  import opened AddrCache
  import opened CacheHistory
  import opened Pipeline
  import opened PipelineBase

  /** The messages about addresses, without the bare announcements. */
  function Addressed(log: seq<NamedAddress>): seq<NamedAddress>
  {
    if log == [] then []
    else Addressed(log[..|log| - 1]) + if log[|log| - 1].Bare() then [] else [log[|log| - 1]]
  }

  /** The bare announcements. */
  function Announcements(log: seq<NamedAddress>): seq<NamedAddress>
  {
    if log == [] then []
    else Announcements(log[..|log| - 1]) + if log[|log| - 1].Bare() then [log[|log| - 1]] else []
  }

  lemma OneMessageMore(log: seq<NamedAddress>, na: NamedAddress)
    ensures Addressed(log + [na]) == Addressed(log) + if na.Bare() then [] else [na]
    ensures Announcements(log + [na]) == Announcements(log) + if na.Bare() then [na] else []
  {
    assert (log + [na])[..|log|] == log;
  }

  lemma {:induction false} AddressedMeans(log: seq<NamedAddress>, na: NamedAddress)
    ensures na in Addressed(log) <==> na in log && !na.Bare()
    ensures na in Announcements(log) <==> na in log && na.Bare()
  {
    if log != [] {
      assert log == log[..|log| - 1] + [log[|log| - 1]];
      AddressedMeans(log[..|log| - 1], na);
    }
  }

  // ---------------------------------------------------------------- the invariant

  /** How many input items have been dealt with: forwarded, or presented to the cache. */
  function Processed(s: State): int
  {
    if s.inPc.Forwarding? || s.inPc.Locking? then s.taken - 1 else s.taken
  }

  /** How many verdict-channel messages have been presented to the cache. */
  function Handled(s: State): int
  {
    if s.vPc.VLocking? then s.court.taken - 1 else s.court.taken
  }

  ghost predicate Position(c: Config, s: State)
  {
    && 0 <= Processed(s) <= s.taken <= |c.input|
    && 0 <= Handled(s) <= s.court.taken <= |s.court.sent|
    && (s.inPc.Forwarding? ==> s.inPc.na == c.input[Processed(s)] && s.inPc.na.Bare())
    && (s.inPc.Locking? ==> s.inPc.na == c.input[Processed(s)] && !s.inPc.na.Bare())
    && (s.vPc.VLocking? ==> s.court.sent[Handled(s)] == Named(s.vPc.na))
  }

  /** The news carries the bare items in input order and what the cache says, in the order of its updates. */
  ghost predicate NewsInOrder(c: Config, s: State)
    requires Position(c, s)
  {
    Committed(s.news.sent, Pending(s), s.calls, c.input[..Processed(s)])
  }

  ghost predicate Committed(sent: seq<NamedAddress>, pending: seq<NamedAddress>, calls: seq<NamedAddress>,
                            items: seq<NamedAddress>)
  {
    && Addressed(sent) + pending == Stream(calls)
    && Announcements(sent) == Announcements(items)
    && (forall na :: na in pending ==> !na.Bare())
  }

  /** The cache was presented with the processed input and the handled verdicts, and nothing else. */
  ghost predicate CallsAccounted(c: Config, s: State)
    requires Position(c, s)
  {
    && (forall na :: na in s.calls ==>
         (na in c.input[..Processed(s)] && !na.Bare()) || Named(na) in s.court.sent[..Handled(s)])
    && (forall na :: na in c.input[..Processed(s)] && !na.Bare() ==> na in s.calls)
    && (forall na :: Named(na) in s.court.sent[..Handled(s)] ==> na in s.calls)
  }

  /** The address that was just found new and has no job yet. */
  function Holding(s: State): seq<QualifiedAddress>
  {
    match s.inPc
    case Updating(na, _, isNew) => if isNew then [Named(na).WithNewQuality(Verifying)] else []
    case Announcing(subject) => [subject]
    case Submitting(subject, _) => [subject]
    case _ => []
  }

  /** Everything ever found new, in order: the jobs' subjects and the one about to become a job. */
  function Subjects(s: State): (r: seq<QualifiedAddress>)
    ensures |s.jobs| <= |r| <= |s.jobs| + 1
    ensures forall i :: 0 <= i < |s.jobs| ==> r[i] == s.jobs[i].subject
  {
    seq(|s.jobs|, i requires 0 <= i < |s.jobs| => s.jobs[i].subject) + Holding(s)
  }

  /** One subject per known address, named as when the address was first presented. */
  ghost predicate OneEach(subjects: seq<QualifiedAddress>, known: set<string>, pairs: set<(string, string)>)
  {
    && (forall i, j :: 0 <= i < j < |subjects| ==> subjects[i].Addr() != subjects[j].Addr())
    && (forall i :: 0 <= i < |subjects| ==>
          && subjects[i].Named? && subjects[i].Qual() == Verifying
          && subjects[i].Addr() in known
          && (subjects[i].na.name, subjects[i].na.addr) in pairs)
    && (forall a :: a in known ==> exists i :: 0 <= i < |subjects| && subjects[i].Addr() == a)
  }

  ghost predicate OneSubjectEach(s: State)
  {
    OneEach(Subjects(s), s.cache.Keys, Pairs(s.calls))
  }

  /** Where on the verdict channel subject i was announced, if it was. */
  function AnnouncedAt(s: State, i: nat): Option<nat>
  {
    if i < |s.jobs| then Some(s.jobs[i].announcedAt)
    else if i == |s.jobs| && s.inPc.Submitting? then Some(s.inPc.announcedAt)
    else None
  }

  /** Where on the verdict channel the verdict about subject i is, if it was given. */
  function ReportedAt(s: State, i: nat): Option<nat>
  {
    if i < |s.jobs| && s.jobs[i].stage.Finished? then s.jobs[i].stage.reportedAt else None
  }

  function Verdict(c: Config, qa: QualifiedAddress): QualifiedAddress
  {
    qa.WithNewQuality(c.oracle(qa.Addr()))
  }

  /** Every message on the verdict channel is its sender's announcement or its sender's verdict. */
  ghost predicate SendersKnown(s: State)
  {
    && |s.senders| == |s.court.sent|
    && forall k :: 0 <= k < |s.senders| ==>
         s.senders[k] < |Subjects(s)|
             && (AnnouncedAt(s, s.senders[k]) == Some(k) || ReportedAt(s, s.senders[k]) == Some(k))
  }

  ghost predicate AnnouncementsStand(s: State)
  {
    forall i :: 0 <= i < |Subjects(s)| && AnnouncedAt(s, i).Some? ==>
      AnnouncedAt(s, i).value < |s.court.sent| && s.court.sent[AnnouncedAt(s, i).value] == Subjects(s)[i]
  }

  /** Jobs decide as the oracle says, and every finished job has reported after it was announced. */
  ghost predicate VerdictsStand(c: Config, s: State)
  {
    forall i :: 0 <= i < |s.jobs| ==>
      var j := s.jobs[i];
      && (j.stage.Judged? ==> j.stage.verdict == c.oracle(j.subject.Addr()))
      && (j.stage.Finished? ==>
            && j.stage.reportedAt.Some?
            && j.announcedAt < j.stage.reportedAt.value < |s.court.sent|
            && s.court.sent[j.stage.reportedAt.value] == Verdict(c, j.subject))
  }

  /** The verdict channel carries exactly one announcement and then one verdict per finished job. */
  ghost predicate CourtAccounted(c: Config, s: State)
  {
    SendersKnown(s) && AnnouncementsStand(s) && VerdictsStand(c, s)
  }

  ghost predicate Synced(c: Config, s: State)
  {
    && Base(c, s)
    && !s.cancelled
    && Position(c, s)
    && NewsInOrder(c, s)
    && CallsAccounted(c, s)
    && OneSubjectEach(s)
    && CourtAccounted(c, s)
  }

  lemma SyncedInit(c: Config)
    ensures Synced(c, Init())
  {
    BaseInit(c);
    assert c.input[..0] == [];
  }

  // ---------------------------------------------------------------- two verdicts never meet

  /** Everything on the verdict channel is a subject's announcement or its verdict. */
  lemma CourtMessage(c: Config, s: State, k: nat)
    requires CourtAccounted(c, s) && k < |s.court.sent|
    ensures s.senders[k] < |Subjects(s)|
    ensures var subject := Subjects(s)[s.senders[k]];
            || (AnnouncedAt(s, s.senders[k]) == Some(k) && s.court.sent[k] == subject)
            || (ReportedAt(s, s.senders[k]) == Some(k) && s.court.sent[k] == Verdict(c, subject))
  {
    assert s.senders[k] < |Subjects(s)|;
  }

  lemma VerdictIsReported(c: Config, s: State, k: nat)
    requires OneSubjectEach(s) && CourtAccounted(c, s)
    requires k < |s.court.sent| && s.court.sent[k].Qual().Terminal()
    ensures s.senders[k] < |s.jobs| && ReportedAt(s, s.senders[k]) == Some(k)
    ensures s.jobs[s.senders[k]].subject.Addr() == s.court.sent[k].Addr()
  {
    CourtMessage(c, s, k);
  }

  /** A verdict on the channel is the only one about its address. */
  lemma VerdictsAreUnique(c: Config, s: State, j: nat, k: nat)
    requires OneSubjectEach(s) && CourtAccounted(c, s)
    requires j < |s.court.sent| && k < |s.court.sent|
    requires s.court.sent[j].Qual().Terminal() && s.court.sent[k].Qual().Terminal()
    requires s.court.sent[j].Addr() == s.court.sent[k].Addr()
    ensures j == k
  {
    VerdictIsReported(c, s, j);
    VerdictIsReported(c, s, k);
    SubjectsDiffer(Subjects(s), s.cache.Keys, Pairs(s.calls), s.senders[j], s.senders[k]);
  }

  lemma SubjectsDiffer(subjects: seq<QualifiedAddress>, known: set<string>, pairs: set<(string, string)>, i: nat,
                       j: nat)
    requires OneEach(subjects, known, pairs) && i < |subjects| && j < |subjects|
    requires subjects[i].Addr() == subjects[j].Addr()
    ensures i == j
  {
  }

  /** Hence it is named, and its pair was presented to the cache. */
  lemma CourtIsPresented(c: Config, s: State, k: nat)
    requires OneSubjectEach(s) && CourtAccounted(c, s) && k < |s.court.sent|
    ensures s.court.sent[k].Named?
    ensures (s.court.sent[k].na.name, s.court.sent[k].na.addr) in Pairs(s.calls)
    ensures s.court.sent[k].Addr() in s.cache
  {
    CourtMessage(c, s, k);
  }

  lemma NextVerdictIsPresented(c: Config, s: State)
    requires s.vPc.VLocking? && Position(c, s) && OneSubjectEach(s) && CourtAccounted(c, s)
    ensures s.vPc.na.addr in s.cache && (s.vPc.na.name, s.vPc.na.addr) in Pairs(s.calls)
  {
    CourtIsPresented(c, s, Handled(s));
  }

  // ---------------------------------------------------------------- the news stays in order

  /** A bare item is forwarded at once. */
  lemma CommitForward(sent: seq<NamedAddress>, calls: seq<NamedAddress>, items: seq<NamedAddress>, na: NamedAddress,
                      pending: seq<NamedAddress>)
    requires Committed(sent, pending, calls, items) && na.Bare()
    ensures Committed(sent + [na], pending, calls, items + [na])
  {
    OneMessageMore(sent, na);
    OneMessageMore(items, na);
    assert Addressed(sent) + [] == Addressed(sent);
  }

  /** An addressed item is no announcement. */
  lemma CommitItem(sent: seq<NamedAddress>, pending: seq<NamedAddress>, calls: seq<NamedAddress>,
                   items: seq<NamedAddress>, na: NamedAddress)
    requires Committed(sent, pending, calls, items) && !na.Bare()
    ensures Committed(sent, pending, calls, items + [na])
  {
    OneMessageMore(items, na);
    assert Announcements(items) + [] == Announcements(items);
  }

  /** A new update commits its messages after everything committed before. */
  lemma CommitUpdate(sent: seq<NamedAddress>, calls: seq<NamedAddress>, items: seq<NamedAddress>, cache: Cache,
                     na: NamedAddress)
    requires Committed(sent, [], calls, items) && cache == CacheAfter(calls) && !na.Bare()
    ensures Committed(sent, Updated(cache, na).out, calls + [na], items)
  {
    assert Addressed(sent) + [] == Addressed(sent);
    Unfold(calls, na);
    MessagesCarryCachedQuality(cache, na);
  }

  /** Handing the first pending message to the news channel changes nothing in what is committed. */
  lemma CommitSend(sent: seq<NamedAddress>, pending: seq<NamedAddress>, calls: seq<NamedAddress>,
                   items: seq<NamedAddress>)
    requires Committed(sent, pending, calls, items) && pending != []
    ensures Committed(sent + [pending[0]], pending[1..], calls, items)
  {
    assert pending[0] in pending;
    OneMessageMore(sent, pending[0]);
    assert Addressed(sent) + [pending[0]] + pending[1..] == Addressed(sent) + pending;
    assert Announcements(sent) + [] == Announcements(sent);
  }

  lemma NextItem(input: seq<NamedAddress>, p: nat)
    requires p < |input|
    ensures input[..p + 1] == input[..p] + [input[p]]
  {
  }

  lemma PositionInput(c: Config, s: State, a: Action)
    requires Structure(c, s) && Position(c, s) && !s.cancelled && InputEnabled(c, s, a)
    ensures Position(c, InputStep(c, s, a))
  {
  }

  lemma PositionVerdict(c: Config, s: State, a: Action)
    requires Structure(c, s) && Position(c, s) && !s.cancelled && VerdictEnabled(c, s, a)
    requires !s.court.Drained() ==> s.court.sent[s.court.taken].Named?
    ensures Position(c, VerdictStep(c, s, a))
  {
  }

  lemma OrderForward(c: Config, s: State)
    requires Structure(c, s) && Position(c, s) && NewsInOrder(c, s) && InputEnabled(c, s, Forward)
    requires Position(c, InputStep(c, s, Forward))
    ensures NewsInOrder(c, InputStep(c, s, Forward))
  {
    ForwardFrame(c, s);
    NextItem(c.input, Processed(s));
    CommitForward(s.news.sent, s.calls, c.input[..Processed(s)], s.inPc.na, Pending(s));
  }

  lemma ForwardFrame(c: Config, s: State)
    requires InputEnabled(c, s, Forward) && !s.news.closed
    ensures var s' := InputStep(c, s, Forward);
            && Pending(s') == Pending(s) && s'.calls == s.calls && s'.news.sent == s.news.sent + [s.inPc.na]
            && Processed(s') == Processed(s) + 1
  {
  }

  lemma OrderLock(c: Config, s: State)
    requires Structure(c, s) && Position(c, s) && NewsInOrder(c, s) && InputEnabled(c, s, Lock)
    requires Position(c, InputStep(c, s, Lock))
    ensures NewsInOrder(c, InputStep(c, s, Lock))
  {
    var s' := InputStep(c, s, Lock);
    NextItem(c.input, Processed(s));
    CommitItem(s.news.sent, [], s.calls, c.input[..Processed(s)], s.inPc.na);
    CommitUpdate(s.news.sent, s.calls, c.input[..Processed(s) + 1], s.cache, s.inPc.na);
    assert Pending(s') == Updated(s.cache, s.inPc.na).out && s'.news == s.news && s'.calls == s.calls + [s.inPc.na];
    assert Processed(s') == Processed(s) + 1;
  }

  lemma OrderVLock(c: Config, s: State)
    requires Structure(c, s) && Position(c, s) && NewsInOrder(c, s) && VerdictEnabled(c, s, VLock) && !s.vPc.na.Bare()
    requires Position(c, VerdictStep(c, s, VLock))
    ensures NewsInOrder(c, VerdictStep(c, s, VLock))
  {
    var s' := VerdictStep(c, s, VLock);
    CommitUpdate(s.news.sent, s.calls, c.input[..Processed(s)], s.cache, s.vPc.na);
    assert Pending(s') == Updated(s.cache, s.vPc.na).out && s'.news == s.news && s'.calls == s.calls + [s.vPc.na];
    assert Processed(s') == Processed(s);
  }

  lemma OrderEmit(c: Config, s: State)
    requires Structure(c, s) && Position(c, s) && NewsInOrder(c, s) && InputEnabled(c, s, Emit)
    requires Position(c, InputStep(c, s, Emit))
    ensures NewsInOrder(c, InputStep(c, s, Emit))
  {
    var s' := InputStep(c, s, Emit);
    CommitSend(s.news.sent, s.inPc.out, s.calls, c.input[..Processed(s)]);
    assert Pending(s') == s.inPc.out[1..] && s'.news.sent == s.news.sent + [s.inPc.out[0]] && s'.calls == s.calls;
    assert Processed(s') == Processed(s);
  }

  lemma OrderVEmit(c: Config, s: State)
    requires Structure(c, s) && Position(c, s) && NewsInOrder(c, s) && VerdictEnabled(c, s, VEmit) && !s.news.closed
    requires Position(c, VerdictStep(c, s, VEmit))
    ensures NewsInOrder(c, VerdictStep(c, s, VEmit))
  {
    var s' := VerdictStep(c, s, VEmit);
    CommitSend(s.news.sent, s.vPc.out, s.calls, c.input[..Processed(s)]);
    assert Pending(s') == s.vPc.out[1..] && s'.news.sent == s.news.sent + [s.vPc.out[0]] && s'.calls == s.calls;
    assert Processed(s') == Processed(s);
  }

  /** The other steps of the input loop touch neither the news nor the calls. */
  lemma InputFrame(c: Config, s: State, a: Action)
    requires Structure(c, s) && InputEnabled(c, s, a) && !s.cancelled && !a.Forward? && !a.Lock? && !a.Emit?
    ensures var s' := InputStep(c, s, a);
            && s'.news.sent == s.news.sent && s'.calls == s.calls && s'.vPc == s.vPc
            && Pending(s') == Pending(s) && Processed(s') == Processed(s)
  {
  }

  lemma OrderInput(c: Config, s: State, a: Action)
    requires Structure(c, s) && Position(c, s) && NewsInOrder(c, s) && !s.cancelled && InputEnabled(c, s, a)
    ensures Position(c, InputStep(c, s, a)) && NewsInOrder(c, InputStep(c, s, a))
  {
    PositionInput(c, s, a);
    if a.Forward? {
      OrderForward(c, s);
    } else if a.Lock? {
      OrderLock(c, s);
    } else if a.Emit? {
      OrderEmit(c, s);
    } else {
      InputFrame(c, s, a);
    }
  }

  lemma VerdictMoveFrame(c: Config, s: State, a: Action)
    requires Structure(c, s) && VerdictEnabled(c, s, a) && !s.cancelled && !a.VLock? && !a.VEmit?
    ensures var s' := VerdictStep(c, s, a);
            && s'.news.sent == s.news.sent && s'.calls == s.calls
            && Pending(s') == Pending(s) && Processed(s') == Processed(s)
  {
  }

  lemma OrderVerdict(c: Config, s: State, a: Action)
    requires Structure(c, s) && Position(c, s) && NewsInOrder(c, s) && !s.cancelled && VerdictEnabled(c, s, a)
    requires !s.court.Drained() ==> s.court.sent[s.court.taken].Named?
    requires s.vPc.VLocking? ==> !s.vPc.na.Bare()
    ensures Position(c, VerdictStep(c, s, a)) && NewsInOrder(c, VerdictStep(c, s, a))
  {
    PositionVerdict(c, s, a);
    if a.VLock? {
      OrderVLock(c, s);
    } else if a.VEmit? {
      OrderVEmit(c, s);
    } else {
      VerdictMoveFrame(c, s, a);
    }
  }

  // ---------------------------------------------------------------- the calls stay accounted for

  lemma CallsLock(c: Config, s: State)
    requires Position(c, s) && CallsAccounted(c, s) && InputEnabled(c, s, Lock)
    requires Position(c, InputStep(c, s, Lock))
    ensures CallsAccounted(c, InputStep(c, s, Lock))
  {
    assert c.input[..Processed(s) + 1] == c.input[..Processed(s)] + [s.inPc.na];
  }

  lemma CallsForward(c: Config, s: State)
    requires Position(c, s) && CallsAccounted(c, s) && InputEnabled(c, s, Forward)
    requires Position(c, InputStep(c, s, Forward)) && !s.news.closed
    ensures CallsAccounted(c, InputStep(c, s, Forward))
  {
    assert c.input[..Processed(s) + 1] == c.input[..Processed(s)] + [s.inPc.na];
  }

  lemma CallsVLock(c: Config, s: State)
    requires Position(c, s) && CallsAccounted(c, s) && VerdictEnabled(c, s, VLock)
    requires Position(c, VerdictStep(c, s, VLock))
    ensures CallsAccounted(c, VerdictStep(c, s, VLock))
  {
    var t, na := Handled(s), s.vPc.na;
    assert s.court.sent[..t + 1] == s.court.sent[..t] + [Named(na)];
  }

  /** Sending on the verdict channel leaves what was handled alone. */
  lemma CallsCourt(c: Config, s: State, s': State)
    requires Position(c, s) && CallsAccounted(c, s) && Position(c, s')
    requires s'.calls == s.calls && Processed(s') == Processed(s) && Handled(s') == Handled(s)
    requires s.court.sent <= s'.court.sent
    ensures CallsAccounted(c, s')
  {
    assert s'.court.sent[..Handled(s)] == s.court.sent[..Handled(s)];
  }

  lemma CallsInput(c: Config, s: State, a: Action)
    requires Structure(c, s) && !s.cancelled
    requires Position(c, s) && CallsAccounted(c, s) && InputEnabled(c, s, a) && Position(c, InputStep(c, s, a))
    ensures CallsAccounted(c, InputStep(c, s, a))
  {
    if a.Lock? {
      CallsLock(c, s);
    } else if a.Forward? {
      CallsForward(c, s);
    } else {
      CallsCourt(c, s, InputStep(c, s, a));
    }
  }

  lemma CallsVerdict(c: Config, s: State, a: Action)
    requires Structure(c, s) && !s.cancelled
    requires Position(c, s) && CallsAccounted(c, s) && VerdictEnabled(c, s, a) && Position(c, VerdictStep(c, s, a))
    requires !s.court.Drained() ==> s.court.sent[s.court.taken].Named?
    ensures CallsAccounted(c, VerdictStep(c, s, a))
  {
    if a.VLock? {
      CallsVLock(c, s);
    } else {
      CallsCourt(c, s, VerdictStep(c, s, a));
    }
  }

  // ---------------------------------------------------------------- one subject per address

  lemma SubjectsStay(c: Config, s: State, a: Action)
    requires InputEnabled(c, s, a) && !a.Lock? && !a.DropAnnounce?
    ensures Subjects(InputStep(c, s, a)) == Subjects(s)
  {
    if a.Submit? {
      assert Subjects(InputStep(c, s, a)) == Subjects(s) + [];
    }
  }

  lemma SubjectsKeep(s: State, s': State)
    requires OneSubjectEach(s) && Subjects(s') == Subjects(s)
    requires s'.cache.Keys == s.cache.Keys && Pairs(s.calls) <= Pairs(s'.calls)
    ensures OneSubjectEach(s')
  {
  }

  lemma UpdatedKeys(c: Cache, na: NamedAddress)
    ensures Updated(c, na).cache.Keys == c.Keys + {na.addr}
    ensures Updated(c, na).isNew <==> na.addr !in c
  {
  }

  lemma OneSubjectMore(subjects: seq<QualifiedAddress>, known: set<string>, pairs: set<(string, string)>,
                       na: NamedAddress)
    requires OneEach(subjects, known, pairs) && na.addr !in known
    ensures OneEach(subjects + [Named(na).WithNewQuality(Verifying)], known + {na.addr}, pairs + {(na.name, na.addr)})
  {
    var more := subjects + [Named(na).WithNewQuality(Verifying)];
    forall a | a in known + {na.addr}
      ensures exists i :: 0 <= i < |more| && more[i].Addr() == a
    {
      if a == na.addr {
        assert more[|subjects|].Addr() == a;
      } else {
        var i :| 0 <= i < |subjects| && subjects[i].Addr() == a;
        assert more[i].Addr() == a;
      }
    }
  }

  lemma SubjectsOfUpdate(subjects: seq<QualifiedAddress>, cache: Cache, calls: seq<NamedAddress>, na: NamedAddress)
    requires OneEach(subjects, cache.Keys, Pairs(calls))
    ensures var up := Updated(cache, na);
            OneEach(subjects + if up.isNew then [Named(na).WithNewQuality(Verifying)] else [],
                    up.cache.Keys, Pairs(calls + [na]))
  {
    OnePairMore(calls, na);
    UpdatedKeys(cache, na);
    if na.addr in cache {
      assert subjects + [] == subjects;
      assert cache.Keys + {na.addr} == cache.Keys;
    } else {
      OneSubjectMore(subjects, cache.Keys, Pairs(calls), na);
    }
  }

  lemma SubjectsAfterLock(c: Config, s: State)
    requires InputEnabled(c, s, Lock)
    ensures Subjects(InputStep(c, s, Lock)) ==
            Subjects(s) + if Updated(s.cache, s.inPc.na).isNew then [Named(s.inPc.na).WithNewQuality(Verifying)] else []
  {
  }

  lemma SubjectsLock(c: Config, s: State)
    requires OneSubjectEach(s) && InputEnabled(c, s, Lock)
    ensures OneSubjectEach(InputStep(c, s, Lock))
    ensures Subjects(s) <= Subjects(InputStep(c, s, Lock))
  {
    SubjectsOfUpdate(Subjects(s), s.cache, s.calls, s.inPc.na);
    SubjectsAfterLock(c, s);
  }

  lemma SubjectsAfterVLock(c: Config, s: State)
    requires VerdictEnabled(c, s, VLock) && s.vPc.na.addr in s.cache
    ensures Subjects(VerdictStep(c, s, VLock)) ==
            Subjects(s) + if Updated(s.cache, s.vPc.na).isNew then [Named(s.vPc.na).WithNewQuality(Verifying)] else []
  {
    UpdatedKeys(s.cache, s.vPc.na);
    assert Subjects(s) + [] == Subjects(s);
  }

  lemma SubjectsVLock(c: Config, s: State)
    requires OneSubjectEach(s) && VerdictEnabled(c, s, VLock) && s.vPc.na.addr in s.cache
    ensures OneSubjectEach(VerdictStep(c, s, VLock))
  {
    SubjectsOfUpdate(Subjects(s), s.cache, s.calls, s.vPc.na);
    SubjectsAfterVLock(c, s);
  }

  lemma SubjectsWorker(c: Config, s: State, a: Action)
    requires WorkerEnabled(c, s, a)
    ensures Subjects(WorkerStep(c, s, a)) == Subjects(s)
  {
  }

  // ---------------------------------------------------------------- the verdict channel stays accounted for

  /** Steps that neither touch the jobs nor the verdict channel's history. */
  lemma CourtUntouched(c: Config, s: State, s': State)
    requires CourtAccounted(c, s)
    requires s'.jobs == s.jobs && s'.court.sent == s.court.sent && s'.senders == s.senders
    requires Subjects(s) <= Subjects(s') && s'.inPc.Submitting? == s.inPc.Submitting?
    requires s.inPc.Submitting? ==> s'.inPc == s.inPc
    ensures CourtAccounted(c, s')
  {
    assert forall i :: AnnouncedAt(s', i) == AnnouncedAt(s, i) && ReportedAt(s', i) == ReportedAt(s, i);
  }

  lemma CourtAnnounce(c: Config, s: State)
    requires CourtAccounted(c, s) && InputEnabled(c, s, Announce) && !s.court.closed
    ensures CourtAccounted(c, InputStep(c, s, Announce))
  {
    var s', n := InputStep(c, s, Announce), |s.jobs|;
    assert Subjects(s') == Subjects(s);
    assert Subjects(s)[n] == s.inPc.subject;
    assert AnnouncedAt(s', n) == Some(|s.court.sent|);
    assert forall i :: i != n ==> AnnouncedAt(s', i) == AnnouncedAt(s, i);
    assert forall i :: ReportedAt(s', i) == ReportedAt(s, i);
  }

  lemma CourtSubmit(c: Config, s: State)
    requires CourtAccounted(c, s) && InputEnabled(c, s, Submit)
    ensures CourtAccounted(c, InputStep(c, s, Submit))
  {
    var s' := InputStep(c, s, Submit);
    assert Subjects(s') == Subjects(s);
    assert forall i :: AnnouncedAt(s', i) == AnnouncedAt(s, i) && ReportedAt(s', i) == ReportedAt(s, i);
  }

  /** A job that moves on without reporting. */
  lemma CourtJobMoves(c: Config, s: State, i: nat, stage: Stage)
    requires CourtAccounted(c, s) && i < |s.jobs| && !s.jobs[i].stage.Finished? && !stage.Finished?
    requires stage.Judged? ==> stage.verdict == c.oracle(s.jobs[i].subject.Addr())
    ensures CourtAccounted(c, s.(jobs := s.jobs[i := s.jobs[i].(stage := stage)]))
  {
    JobMoves(s, i, stage);
    PositionsKeep(s, s.(jobs := s.jobs[i := s.jobs[i].(stage := stage)]));
  }

  lemma JobMoves(s: State, i: nat, stage: Stage)
    requires i < |s.jobs| && !s.jobs[i].stage.Finished? && !stage.Finished?
    ensures var s' := s.(jobs := s.jobs[i := s.jobs[i].(stage := stage)]);
            && Subjects(s') == Subjects(s)
            && forall j :: AnnouncedAt(s', j) == AnnouncedAt(s, j) && ReportedAt(s', j) == ReportedAt(s, j)
  {
  }

  lemma PositionsKeep(s: State, s': State)
    requires SendersKnown(s) && AnnouncementsStand(s)
    requires s'.court.sent == s.court.sent && s'.senders == s.senders && Subjects(s') == Subjects(s)
    requires forall j :: AnnouncedAt(s', j) == AnnouncedAt(s, j) && ReportedAt(s', j) == ReportedAt(s, j)
    ensures SendersKnown(s') && AnnouncementsStand(s')
  {
  }

  lemma CourtReport(c: Config, s: State, i: nat)
    requires CourtAccounted(c, s) && WorkerEnabled(c, s, Report(i)) && !s.court.closed
    ensures CourtAccounted(c, WorkerStep(c, s, Report(i)))
  {
    var s', n := WorkerStep(c, s, Report(i)), |s.court.sent|;
    assert Subjects(s') == Subjects(s);
    assert AnnouncedAt(s, i) == Some(s.jobs[i].announcedAt);
    assert forall j :: AnnouncedAt(s', j) == AnnouncedAt(s, j);
    ReportKnown(s, s', i);
    ReportStands(c, s, s', i);
    AnnouncementsKeep(s, s');
  }

  lemma AnnouncementsKeep(s: State, s': State)
    requires AnnouncementsStand(s) && s.court.sent <= s'.court.sent
    requires Subjects(s') == Subjects(s) && forall j :: AnnouncedAt(s', j) == AnnouncedAt(s, j)
    ensures AnnouncementsStand(s')
  {
  }

  lemma ReportKnown(s: State, s': State, i: nat)
    requires SendersKnown(s) && i < |s.jobs| && !s.jobs[i].stage.Finished?
    requires s'.jobs == s.jobs[i := s.jobs[i].(stage := Finished(Some(|s.court.sent|)))]
    requires |s'.court.sent| == |s.court.sent| + 1 && s'.senders == s.senders + [i]
    requires Subjects(s') == Subjects(s) && forall j :: AnnouncedAt(s', j) == AnnouncedAt(s, j)
    ensures SendersKnown(s')
  {
    assert forall j :: j != i ==> ReportedAt(s', j) == ReportedAt(s, j);
    assert ReportedAt(s', i) == Some(|s.court.sent|) && ReportedAt(s, i) == None;
  }

  lemma ReportStands(c: Config, s: State, s': State, i: nat)
    requires VerdictsStand(c, s) && i < |s.jobs| && s.jobs[i].stage.Judged? && s.jobs[i].announcedAt < |s.court.sent|
    requires s'.jobs == s.jobs[i := s.jobs[i].(stage := Finished(Some(|s.court.sent|)))]
    requires s'.court.sent == s.court.sent + [s.jobs[i].subject.WithNewQuality(s.jobs[i].stage.verdict)]
    ensures VerdictsStand(c, s')
  {
  }

  lemma CourtWorker(c: Config, s: State, a: Action)
    requires CourtAccounted(c, s) && WorkerEnabled(c, s, a) && !s.cancelled
    requires s.court.closed ==> AllFinished(s.jobs)
    ensures CourtAccounted(c, WorkerStep(c, s, a))
  {
    match a
    case Start(i) => CourtJobMoves(c, s, i, Pinging);
    case Judge(i, v) => CourtJobMoves(c, s, i, Judged(v));
    case Report(i) => CourtReport(c, s, i);
  }

  lemma CourtInput(c: Config, s: State, a: Action)
    requires Structure(c, s) && CourtAccounted(c, s) && OneSubjectEach(s) && InputEnabled(c, s, a) && !s.cancelled
    ensures CourtAccounted(c, InputStep(c, s, a))
  {
    if a.Announce? {
      CourtAnnounce(c, s);
    } else if a.Submit? {
      CourtSubmit(c, s);
    } else if a.Lock? {
      SubjectsLock(c, s);
      CourtUntouched(c, s, InputStep(c, s, a));
    } else {
      SubjectsStay(c, s, a);
      CourtUntouched(c, s, InputStep(c, s, a));
    }
  }

  // ---------------------------------------------------------------- every step

  lemma SyncedInput(c: Config, s: State, a: Action)
    requires Synced(c, s) && !s.panicked && InputEnabled(c, s, a)
    ensures Synced(c, InputStep(c, s, a))
  {
    var s' := InputStep(c, s, a);
    if a.Lock? {
      StructureLock(c, s);
      SubjectsLock(c, s);
    } else {
      StructureInput(c, s, a);
      SubjectsStay(c, s, a);
      SubjectsKeep(s, s');
    }
    OriginInput(c, s, a);
    OrderInput(c, s, a);
    CallsInput(c, s, a);
    CourtInput(c, s, a);
  }

  lemma PairsAreAddressed(c: Config, na: NamedAddress)
    requires FromInput(c, na)
    ensures !na.Bare()
  {
  }

  /** What a step of the verdict loop leaves alone. */
  lemma VerdictFrame(c: Config, s: State, a: Action)
    requires VerdictEnabled(c, s, a)
    ensures var s' := VerdictStep(c, s, a);
            && s'.jobs == s.jobs && s'.inPc == s.inPc && s'.cancelled == s.cancelled
            && s'.court.sent == s.court.sent && s'.senders == s.senders
            && (!a.VLock? ==> s'.cache == s.cache && s'.calls == s.calls)
  {
  }

  lemma SubjectsAndCourtAfterVerdict(c: Config, s: State, a: Action)
    requires Position(c, s) && OneSubjectEach(s) && CourtAccounted(c, s) && VerdictEnabled(c, s, a)
    ensures OneSubjectEach(VerdictStep(c, s, a)) && CourtAccounted(c, VerdictStep(c, s, a))
  {
    VerdictFrame(c, s, a);
    if a.VLock? {
      NextVerdictIsPresented(c, s);
      SubjectsVLock(c, s);
    } else {
      SubjectsKeep(s, VerdictStep(c, s, a));
    }
    CourtUntouched(c, s, VerdictStep(c, s, a));
  }

  /** By its origin whatever the verdict loop handles is about a named address. */
  lemma VerdictOrigin(c: Config, s: State)
    requires Origin(c, s)
    ensures !s.court.Drained() ==> s.court.sent[s.court.taken].Named?
    ensures s.vPc.VLocking? ==> !s.vPc.na.Bare()
  {
    if s.vPc.VLocking? {
      PairsAreAddressed(c, s.vPc.na);
    }
  }

  lemma OrderAndCallsAfterVerdict(c: Config, s: State, a: Action)
    requires Structure(c, s) && Origin(c, s) && !s.cancelled && VerdictEnabled(c, s, a)
    requires Position(c, s) && NewsInOrder(c, s) && CallsAccounted(c, s)
    ensures Position(c, VerdictStep(c, s, a)) && NewsInOrder(c, VerdictStep(c, s, a))
            && CallsAccounted(c, VerdictStep(c, s, a))
  {
    VerdictOrigin(c, s);
    OrderVerdict(c, s, a);
    CallsVerdict(c, s, a);
  }

  lemma SyncedVerdict(c: Config, s: State, a: Action)
    requires Synced(c, s) && !s.panicked && VerdictEnabled(c, s, a)
    ensures Synced(c, VerdictStep(c, s, a))
  {
    StructureVerdict(c, s, a);
    OriginVerdict(c, s, a);
    VerdictFrame(c, s, a);
    OrderAndCallsAfterVerdict(c, s, a);
    SubjectsAndCourtAfterVerdict(c, s, a);
  }

  /** Steps that leave both loops, the news and the calls alone and only add to the verdict channel. */
  lemma OrderAndCallsStay(c: Config, s: State, s': State)
    requires Position(c, s) && NewsInOrder(c, s) && CallsAccounted(c, s)
    requires s'.inPc == s.inPc && s'.vPc == s.vPc && s'.taken == s.taken && s'.calls == s.calls
    requires s'.news.sent == s.news.sent && s'.court.taken == s.court.taken && s.court.sent <= s'.court.sent
    ensures Position(c, s') && NewsInOrder(c, s') && CallsAccounted(c, s')
  {
    CallsCourt(c, s, s');
  }

  /** What a step of a worker leaves alone. */
  lemma WorkerFrame(c: Config, s: State, a: Action)
    requires WorkerEnabled(c, s, a)
    ensures var s' := WorkerStep(c, s, a);
            && s'.inPc == s.inPc && s'.vPc == s.vPc && s'.taken == s.taken && s'.calls == s.calls && s'.cache == s.cache
            && s'.news == s.news && s'.court.taken == s.court.taken && s.court.sent <= s'.court.sent
            && s'.cancelled == s.cancelled
  {
  }

  lemma SubjectsAndCourtAfterWorker(c: Config, s: State, a: Action)
    requires Structure(c, s) && !s.cancelled && OneSubjectEach(s) && CourtAccounted(c, s) && WorkerEnabled(c, s, a)
    ensures OneSubjectEach(WorkerStep(c, s, a)) && CourtAccounted(c, WorkerStep(c, s, a))
  {
    WorkerFrame(c, s, a);
    CourtWorker(c, s, a);
    SubjectsWorker(c, s, a);
    SubjectsKeep(s, WorkerStep(c, s, a));
  }

  lemma SyncedWorker(c: Config, s: State, a: Action)
    requires Synced(c, s) && !s.panicked && WorkerEnabled(c, s, a)
    ensures Synced(c, WorkerStep(c, s, a))
  {
    StructureWorker(c, s, a);
    OriginWorker(c, s, a);
    WorkerFrame(c, s, a);
    OrderAndCallsStay(c, s, WorkerStep(c, s, a));
    SubjectsAndCourtAfterWorker(c, s, a);
  }

  lemma ApplyInput(c: Config, s: State, a: Action)
    requires Enabled(c, s, a) && InputEnabled(c, s, a)
    ensures Apply(c, s, a) == InputStep(c, s, a)
  {
  }

  lemma ApplyVerdict(c: Config, s: State, a: Action)
    requires Enabled(c, s, a) && VerdictEnabled(c, s, a)
    ensures Apply(c, s, a) == VerdictStep(c, s, a)
  {
  }

  lemma ApplyWorker(c: Config, s: State, a: Action)
    requires Enabled(c, s, a) && WorkerEnabled(c, s, a)
    ensures Apply(c, s, a) == WorkerStep(c, s, a)
  {
  }

  lemma ApplyRead(c: Config, s: State, a: Action)
    requires Enabled(c, s, a) && a != Cancel
    requires !InputEnabled(c, s, a) && !VerdictEnabled(c, s, a) && !WorkerEnabled(c, s, a)
    ensures OutsideEnabled(c, s, Read) && Apply(c, s, a) == s.(news := s.news.(taken := s.news.taken + 1))
  {
  }

  lemma SyncedRead(c: Config, s: State)
    requires Synced(c, s) && !s.panicked && OutsideEnabled(c, s, Read)
    ensures Synced(c, s.(news := s.news.(taken := s.news.taken + 1)))
  {
    var s' := s.(news := s.news.(taken := s.news.taken + 1));
    OrderAndCallsStay(c, s, s');
    SubjectsKeep(s, s');
    CourtUntouched(c, s, s');
  }

  lemma SyncedStep(c: Config, s: State, a: Action)
    requires Synced(c, s) && Enabled(c, s, a) && a != Cancel
    ensures Synced(c, Apply(c, s, a))
  {
    if InputEnabled(c, s, a) {
      SyncedInput(c, s, a);
      ApplyInput(c, s, a);
    } else if VerdictEnabled(c, s, a) {
      SyncedVerdict(c, s, a);
      ApplyVerdict(c, s, a);
    } else if WorkerEnabled(c, s, a) {
      SyncedWorker(c, s, a);
      ApplyWorker(c, s, a);
    } else {
      ApplyRead(c, s, a);
      SyncedRead(c, s);
    }
  }

  // ---------------------------------------------------------------- inputs without verdicts

  /** Each verdict is the only one on its address, names a presented pair and comes after a Verifying. */
  ghost predicate Orderly(s: State)
  {
    Admissible(s.calls) && Gradual(s.calls)
  }

  lemma VerdictCameFromCourt(c: Config, s: State, na: NamedAddress)
    requires ValidConfig(c) && Position(c, s) && CallsAccounted(c, s)
    requires na in s.calls && na.qual.Terminal()
    ensures Named(na) in s.court.sent[..Handled(s)]
  {
    assert !(na in c.input[..Processed(s)] && !na.Bare());
  }

  lemma NextVerdictIsFirst(c: Config, s: State)
    requires ValidConfig(c) && s.vPc.VLocking? && s.vPc.na.qual.Terminal()
    requires Position(c, s) && CallsAccounted(c, s) && OneSubjectEach(s) && CourtAccounted(c, s)
    ensures !Decided(s.calls, s.vPc.na.addr)
  {
    var na, t := s.vPc.na, Handled(s);
    if Decided(s.calls, na.addr) {
      var k :| 0 <= k < |s.calls| && s.calls[k].addr == na.addr && s.calls[k].qual.Terminal();
      VerdictCameFromCourt(c, s, s.calls[k]);
      var j :| 0 <= j < t && s.court.sent[j] == Named(s.calls[k]);
      VerdictsAreUnique(c, s, j, t);
    }
  }

  /** The announcement stands on the verdict channel before the verdict, so it has been handled. */
  lemma NextVerdictIsAnnounced(c: Config, s: State)
    requires s.vPc.VLocking? && s.vPc.na.qual.Terminal()
    requires Position(c, s) && CallsAccounted(c, s) && OneSubjectEach(s) && CourtAccounted(c, s)
    ensures SeenVerifying(s.calls, s.vPc.na.addr)
  {
    var t := Handled(s);
    VerdictIsReported(c, s, t);
    var i := s.senders[t];
    var k := s.jobs[i].announcedAt;
    assert AnnouncedAt(s, i) == Some(k) && Subjects(s)[i] == s.jobs[i].subject;
    assert k < t && s.court.sent[k] == s.jobs[i].subject;
    assert s.court.sent[..t][k] == Named(s.jobs[i].subject.na);
    assert s.jobs[i].subject.na in s.calls;
  }

  lemma OrderlyLock(c: Config, s: State)
    requires ValidConfig(c) && s.inPc.Locking? && Position(c, s) && Orderly(s)
    ensures Admissible(s.calls + [s.inPc.na]) && Gradual(s.calls + [s.inPc.na])
  {
    AdmissibleExtends(s.calls, s.inPc.na);
    GradualExtends(s.calls, s.inPc.na);
  }

  lemma OrderlyVLock(c: Config, s: State)
    requires ValidConfig(c) && s.vPc.VLocking? && Orderly(s)
    requires Position(c, s) && CallsAccounted(c, s) && OneSubjectEach(s) && CourtAccounted(c, s)
    ensures Admissible(s.calls + [s.vPc.na]) && Gradual(s.calls + [s.vPc.na])
  {
    NextVerdictIsPresented(c, s);
    if s.vPc.na.qual.Terminal() {
      NextVerdictIsFirst(c, s);
      NextVerdictIsAnnounced(c, s);
    }
    AdmissibleExtends(s.calls, s.vPc.na);
    GradualExtends(s.calls, s.vPc.na);
  }

  lemma OrderlyStep(c: Config, s: State, a: Action)
    requires ValidConfig(c) && Synced(c, s) && Enabled(c, s, a) && Orderly(s)
    ensures Orderly(Apply(c, s, a))
  {
    if a.Lock? {
      OrderlyLock(c, s);
    } else if a.VLock? {
      OrderlyVLock(c, s);
    } else {
      OnlyLocksCall(c, s, a);
    }
  }

  lemma OnlyLocksCall(c: Config, s: State, a: Action)
    requires Enabled(c, s, a) && !a.Lock? && !a.VLock?
    ensures Apply(c, s, a).calls == s.calls
  {
    if InputEnabled(c, s, a) {
      ApplyInput(c, s, a);
    } else if VerdictEnabled(c, s, a) {
      ApplyVerdict(c, s, a);
      VerdictFrame(c, s, a);
    } else if WorkerEnabled(c, s, a) {
      ApplyWorker(c, s, a);
      WorkerFrame(c, s, a);
    }
  }

  // ---------------------------------------------------------------- every run

  lemma {:induction false} OrderlyHolds(c: Config, s: State, acts: seq<Action>)
    requires ValidConfig(c) && Synced(c, s) && Orderly(s) && Run(c, s, acts) && !After(c, s, acts).cancelled
    ensures Orderly(After(c, s, acts))
    decreases |acts|
  {
    if acts != [] {
      StartsUncancelled(c, s, acts);
      SyncedStep(c, s, acts[0]);
      OrderlyStep(c, s, acts[0]);
      OrderlyHolds(c, Apply(c, s, acts[0]), acts[1..]);
    }
  }
}
