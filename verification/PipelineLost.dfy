/**
 Why verdicts on the input may only come with new addresses: a complete uncancelled run in which a name that
 arrives with a verdict on a known address never makes it into the table.
 */
module PipelineLost {
  import opened Types
  import opened AddrCache
  import opened AddrMap
  import opened Pipeline
  import opened PipelineBase
  import opened PipelineTable

  function First(f: string, a: string): NamedAddress
  {
    NA(f, a, Unverified)
  }

  function Told(f: string, a: string): NamedAddress
  {
    NA(f, a, Verified)
  }

  function Subject(f: string, a: string): QualifiedAddress
  {
    Named(NA(f, a, Verifying))
  }

  /** One name brings the address, then another brings it with a verdict; the address can be pinged. */
  function Late(f: string, g: string, a: string): Config
  {
    Config([First(f, a), NA(g, a, Verified)], 3, _ => Verified)
  }

  ghost predicate Reaches(c: Config, acts: seq<Action>, s: State)
  {
    Run(c, Init(), acts) && After(c, Init(), acts) == s
  }

  lemma Do(c: Config, acts: seq<Action>, s: State, a: Action) returns (more: seq<Action>)
    requires Reaches(c, acts, s) && Enabled(c, s, a)
    ensures Reaches(c, more, Apply(c, s, a))
  {
    OneStepMore(c, acts, a);
    more := acts + [a];
  }

  /** The first name's address is new, so its ping is announced and submitted. */
  function Submitted(f: string, a: string): State
  {
    State(1, Reading, Receiving, map[a := Entry(Unverified, [f])], Chan([Subject(f, a)], 0, false),
          [Job(Subject(f, a), 0, Queued)], Chan([First(f, a)], 0, false), false, false, [First(f, a)], [0])
  }

  lemma FirstIsPresented(f: string, g: string, a: string) returns (acts: seq<Action>)
    requires a != ""
    ensures var s := Init();
            Reaches(Late(f, g, a), acts,
                s.(taken := 1, cache := map[a := Entry(Unverified, [f])], calls := [First(f, a)],
                                            inPc := Updating(First(f, a), [First(f, a)], true)))
  {
    var c, s := Late(f, g, a), Init();
    acts := [];
    acts := Do(c, acts, s, Take);
    s := Apply(c, s, Take);
    acts := Do(c, acts, s, Lock);
  }

  lemma FirstIsSubmitted(f: string, g: string, a: string) returns (acts: seq<Action>)
    requires a != ""
    ensures Reaches(Late(f, g, a), acts, Submitted(f, a))
  {
    var c, s := Late(f, g, a), Init();
    acts := FirstIsPresented(f, g, a);
    s := s.(taken := 1, cache := map[a := Entry(Unverified, [f])], calls := [First(f, a)],
            inPc := Updating(First(f, a), [First(f, a)], true));
    acts := Do(c, acts, s, Emit);
    s := Apply(c, s, Emit);
    acts := Do(c, acts, s, Unlock);
    s := Apply(c, s, Unlock);
    acts := Do(c, acts, s, Announce);
    s := Apply(c, s, Announce);
    acts := Do(c, acts, s, Submit);
  }

  /** The second name's verdict goes to those who wait, which it does not. */
  function Overtaken(f: string, g: string, a: string): State
  {
    Submitted(f, a).(taken := 2, inPc := Stopping, cache := map[a := Entry(Verified, [])],
                     news := Chan([First(f, a), Told(f, a)], 0, false), calls := [First(f, a), NA(g, a, Verified)])
  }

  lemma SecondOvertakes(f: string, g: string, a: string) returns (acts: seq<Action>)
    requires a != ""
    ensures Reaches(Late(f, g, a), acts, Overtaken(f, g, a))
  {
    var c, s := Late(f, g, a), Submitted(f, a);
    acts := FirstIsSubmitted(f, g, a);
    acts := Do(c, acts, s, Take);
    s := Apply(c, s, Take);
    acts := Do(c, acts, s, Lock);
    s := Apply(c, s, Lock);
    assert s.inPc == Updating(NA(g, a, Verified), [Told(f, a)], false);
    acts := Do(c, acts, s, Emit);
    s := Apply(c, s, Emit);
    acts := Do(c, acts, s, Unlock);
    s := Apply(c, s, Unlock);
    acts := Do(c, acts, s, EndOfInput);
  }

  /** The announcement of the ping only registers the first name again. */
  function Replayed(f: string, g: string, a: string): State
  {
    Overtaken(f, g, a).(cache := map[a := Entry(Verified, [f])], court := Chan([Subject(f, a)], 1, false),
                        news := Chan([First(f, a), Told(f, a), Told(f, a)], 0, false),
                        calls := [First(f, a), NA(g, a, Verified), NA(f, a, Verifying)])
  }

  lemma ReplayOutcome(f: string, a: string)
    ensures Updated(map[a := Entry(Verified, [])], NA(f, a, Verifying)) ==
            Outcome(map[a := Entry(Verified, [f])], [Told(f, a)], false)
  {
    assert [] + [f] == [f];
  }

  lemma AnnouncementIsTaken(f: string, g: string, a: string) returns (acts: seq<Action>)
    requires a != ""
    ensures Reaches(Late(f, g, a), acts,
                    Replayed(f, g, a).(vPc := VUpdating([Told(f, a)]), news := Overtaken(f, g, a).news))
  {
    var c, s := Late(f, g, a), Overtaken(f, g, a);
    acts := SecondOvertakes(f, g, a);
    acts := Do(c, acts, s, Receive);
    s := Apply(c, s, Receive);
    assert s.vPc == VLocking(NA(f, a, Verifying));
    ReplayOutcome(f, a);
    acts := Do(c, acts, s, VLock);
  }

  lemma FirstIsReplayed(f: string, g: string, a: string) returns (acts: seq<Action>)
    requires a != ""
    ensures Reaches(Late(f, g, a), acts, Replayed(f, g, a))
  {
    var c, s := Late(f, g, a), Replayed(f, g, a).(vPc := VUpdating([Told(f, a)]), news := Overtaken(f, g, a).news);
    acts := AnnouncementIsTaken(f, g, a);
    acts := Do(c, acts, s, VEmit);
    s := Apply(c, s, VEmit);
    acts := Do(c, acts, s, VUnlock);
  }

  /** The ping's verdict is no news. */
  function Pinged(f: string, g: string, a: string): State
  {
    Replayed(f, g, a).(court := Chan([Subject(f, a), Named(Told(f, a))], 2, false), senders := [0, 0],
                       jobs := [Job(Subject(f, a), 0, Finished(Some(1)))],
                       calls := [First(f, a), NA(g, a, Verified), NA(f, a, Verifying), Told(f, a)])
  }

  lemma VerdictIsReported(f: string, g: string, a: string) returns (acts: seq<Action>)
    requires a != ""
    ensures var s := Replayed(f, g, a);
            Reaches(Late(f, g, a), acts,
                s.(court := Chan([Subject(f, a), Named(Told(f, a))], 1, false), senders := [0, 0],
                                            jobs := [Job(Subject(f, a), 0, Finished(Some(1)))]))
  {
    var c, s := Late(f, g, a), Replayed(f, g, a);
    acts := FirstIsReplayed(f, g, a);
    assert Running(s.jobs) == 0;
    acts := Do(c, acts, s, Start(0));
    s := Apply(c, s, Start(0));
    acts := Do(c, acts, s, Judge(0, Verified));
    s := Apply(c, s, Judge(0, Verified));
    acts := Do(c, acts, s, Report(0));
  }

  lemma VerdictIsNoNews(f: string, g: string, a: string) returns (acts: seq<Action>)
    requires a != ""
    ensures Reaches(Late(f, g, a), acts, Pinged(f, g, a))
  {
    var c, s := Late(f, g, a), Replayed(f, g, a);
    acts := VerdictIsReported(f, g, a);
    s := s.(court := Chan([Subject(f, a), Named(Told(f, a))], 1, false), senders := [0, 0],
            jobs := [Job(Subject(f, a), 0, Finished(Some(1)))]);
    acts := Do(c, acts, s, Receive);
    s := Apply(c, s, Receive);
    acts := Do(c, acts, s, VLock);
    s := Apply(c, s, VLock);
    assert s.vPc == VUpdating([]);
    acts := Do(c, acts, s, VUnlock);
  }

  lemma ShutDown(f: string, g: string, a: string) returns (acts: seq<Action>)
    requires a != ""
    ensures Reaches(Late(f, g, a), acts,
                    Pinged(f, g, a).(inPc := Returned, vPc := VDone, court := Chan(Pinged(f, g, a).court.sent, 2, true),
                                     news := Chan(Pinged(f, g, a).news.sent, 0, true)))
  {
    var c, s := Late(f, g, a), Pinged(f, g, a);
    acts := VerdictIsNoNews(f, g, a);
    acts := Do(c, acts, s, CloseCourt);
    s := Apply(c, s, CloseCourt);
    acts := Do(c, acts, s, SeeClosed);
    s := Apply(c, s, SeeClosed);
    acts := Do(c, acts, s, CheckContext);
    s := Apply(c, s, CheckContext);
    acts := Do(c, acts, s, SeeDone);
    s := Apply(c, s, SeeDone);
    acts := Do(c, acts, s, CloseNews);
  }

  /**
   No verdict on the input is better than the ping's, and yet the table of a complete uncancelled run lacks a
   name that the pipeline without a cache has.
   */
  lemma LateVerdictLosesName(f: string, g: string, a: string) returns (acts: seq<Action>)
    requires f != g && g != "" && a != ""
    ensures var c := Late(f, g, a);
            && PingsDecide(c) && NoForeignVerdicts(c) && !VerdictsFirst(c.input) && Run(c, Init(), acts)
            && After(c, Init(), acts).inPc.Returned? && !After(c, Init(), acts).cancelled
            && g !in Tracked(After(c, Init(), acts).news.sent) && g in Tracked(Uncached(c, c.input))
  {
    var c := Late(f, g, a);
    acts := ShutDown(f, g, a);
    assert c.input[0].addr == c.input[1].addr;
    TableOrder(After(c, Init(), acts).news.sent, g);
    TableOrder(Uncached(c, c.input), g);
    UncachedMentions(c, g);
    assert c.input[1].name == g;
    assert Mentions(c.input, g);
  }
}
