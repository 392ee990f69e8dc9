/**
 The verification pipeline as a state machine: the input loop and the verdict loop of a verifier, the
 workers of its pinger, and the reader of its news. Each action is one step of one goroutine; any
 sequence of enabled actions is a run.
 */
module Pipeline {
  import opened Types
  import opened AddrCache
  import opened CacheHistory

  /**
   What a run depends on: everything that will arrive on the input channel before it is closed, the size
   of the worker pool and of both channel buffers, and what pinging an address comes to.
   */
  datatype Config = Config(input: seq<NamedAddress>, size: nat, oracle: string -> Quality)

  /** Buffers and pool have at least one place, addresses arrive without a verdict, pings decide. */
  ghost predicate ValidConfig(c: Config)
  {
    && c.size >= 1
    && (forall i :: 0 <= i < |c.input| && !c.input[i].Bare() ==> !c.input[i].qual.Terminal())
    && (forall a :: c.oracle(a).Terminal())
  }

  ghost predicate PingsDecide(c: Config)
  {
    forall a :: c.oracle(a).Terminal()
  }

  /** A weaker condition on the input: an address may come with a verdict, but only when it comes for the first time. */
  ghost predicate VerdictsFirst(items: seq<NamedAddress>)
  {
    forall j, i :: 0 <= j < i < |items| && !items[j].Bare() && !items[i].Bare() && items[j].addr == items[i].addr ==>
      !items[i].qual.Terminal()
  }

  /** A buffered channel with its history: everything sent so far, of which the first `taken` were received. */
  datatype Chan<T> = Chan(sent: seq<T>, taken: nat, closed: bool) {

    predicate Drained()
    {
      taken >= |sent|
    }

    /** A send does not block: there is room, or the channel is closed and the send panics. */
    predicate Ready(size: nat)
    {
      closed || |sent| < taken + size
    }

    function Sent(x: T): Chan<T>
    {
      Chan(sent + [x], taken, closed)
    }
  }

  /** A validation job. The positions of its messages on the verdict channel are kept for the proofs. */
  datatype Stage = Queued | Pinging | Judged(verdict: Quality) | Finished(reportedAt: Option<nat>)

  datatype Job = Job(subject: QualifiedAddress, announcedAt: nat, stage: Stage)

  /** Where the input loop is. While `Updating` it holds the cache's mutex and has `out` left to send. */
  datatype InputPc =
    | Reading
    | Forwarding(na: NamedAddress)
    | Locking(na: NamedAddress)
    | Updating(na: NamedAddress, out: seq<NamedAddress>, isNew: bool)
    | Announcing(subject: QualifiedAddress)
    | Submitting(subject: QualifiedAddress, announcedAt: nat)
    | Stopping
    | Deciding
    | WaitingDone
    | Closing
    | Returned

  /** Where the verdict loop is. While `VUpdating` it holds the cache's mutex. */
  datatype VerdictPc =
    | Receiving
    | VLocking(na: NamedAddress)
    | VUpdating(out: seq<NamedAddress>)
    | VDone

  /**
   The last two fields are history: all cache updates in the order in which they took the mutex, and for
   each message on the verdict channel the job that sent it.
   */
  datatype State = State(
    taken: nat,
    inPc: InputPc,
    vPc: VerdictPc,
    cache: Cache,
    court: Chan<QualifiedAddress>,
    jobs: seq<Job>,
    news: Chan<NamedAddress>,
    cancelled: bool,
    panicked: bool,
    calls: seq<NamedAddress>,
    senders: seq<nat>)

  function Init(): State
  {
    State(0, Reading, Receiving, map[], Chan([], 0, false), [], Chan([], 0, false), false, false, [], [])
  }

  datatype Action =
      // the input loop
    | Take | EndOfInput | Forward | Lock | Emit | Unlock | Announce | Submit
    | CloseCourt | CheckContext | SeeDone | CloseNews
      // the input loop finding the context done
    | QuitInput | DropOut | DropAnnounce
      // the verdict loop, the last two finding the context done
    | Receive | SeeClosed | VLock | VEmit | VUnlock | VQuit | VDrop
      // the worker that runs job i
    | Start(i: nat) | Judge(i: nat, v: Quality) | Report(i: nat) | DropReport(i: nat)
      // the outside world
    | Read | Cancel

  predicate Locked(s: State)
  {
    s.inPc.Updating? || s.vPc.VUpdating?
  }

  predicate Busy(j: Job)
  {
    j.stage.Pinging? || j.stage.Judged?
  }

  /** How many workers are occupied. */
  function Running(jobs: seq<Job>): nat
  {
    if jobs == [] then 0 else Running(jobs[..|jobs| - 1]) + if Busy(jobs[|jobs| - 1]) then 1 else 0
  }

  predicate AllFinished(jobs: seq<Job>)
  {
    forall i :: 0 <= i < |jobs| ==> jobs[i].stage.Finished?
  }

  predicate InputEnabled(c: Config, s: State, a: Action)
  {
    match a
    case Take => s.inPc.Reading? && s.taken < |c.input|
    case EndOfInput => s.inPc.Reading? && s.taken >= |c.input|
    case Forward => s.inPc.Forwarding? && s.news.Ready(c.size)
    case Lock => s.inPc.Locking? && !Locked(s)
    case Emit => s.inPc.Updating? && s.inPc.out != [] && s.news.Ready(c.size)
    case Unlock => s.inPc.Updating? && s.inPc.out == []
    case Announce => s.inPc.Announcing? && s.court.Ready(c.size)
    case Submit => s.inPc.Submitting?
    case CloseCourt => s.inPc.Stopping? && AllFinished(s.jobs)
    case CheckContext => s.inPc.Deciding?
    case SeeDone => s.inPc.WaitingDone? && s.vPc.VDone?
    case CloseNews => s.inPc.Closing?
    case QuitInput => s.cancelled && (s.inPc.Reading? || s.inPc.Forwarding?)
    case DropOut => s.cancelled && s.inPc.Updating? && s.inPc.out != []
    case DropAnnounce => s.cancelled && s.inPc.Announcing?
    case _ => false
  }

  predicate VerdictEnabled(c: Config, s: State, a: Action)
  {
    match a
    case Receive => s.vPc.Receiving? && !s.court.Drained()
    case SeeClosed => s.vPc.Receiving? && s.court.Drained() && s.court.closed
    case VLock => s.vPc.VLocking? && !Locked(s)
    case VEmit => s.vPc.VUpdating? && s.vPc.out != [] && s.news.Ready(c.size)
    case VUnlock => s.vPc.VUpdating? && s.vPc.out == []
    case VQuit => s.cancelled && s.vPc.Receiving?
    case VDrop => s.cancelled && s.vPc.VUpdating? && s.vPc.out != []
    case _ => false
  }

  /** A ping under a done context may be cut short, which counts as an invalid address. */
  predicate WorkerEnabled(c: Config, s: State, a: Action)
  {
    match a
    case Start(i) => i < |s.jobs| && s.jobs[i].stage.Queued? && Running(s.jobs) < c.size
    case Judge(i, v) =>
      i < |s.jobs| && s.jobs[i].stage.Pinging?
          && (v == c.oracle(s.jobs[i].subject.Addr()) || (s.cancelled && v == Invalid))
    case Report(i) => i < |s.jobs| && s.jobs[i].stage.Judged? && s.court.Ready(c.size)
    case DropReport(i) => i < |s.jobs| && s.jobs[i].stage.Judged? && s.cancelled
    case _ => false
  }

  predicate OutsideEnabled(c: Config, s: State, a: Action)
  {
    match a
    case Read => !s.news.Drained()
    case Cancel => !s.cancelled
    case _ => false
  }

  predicate Enabled(c: Config, s: State, a: Action)
  {
    !s.panicked && (InputEnabled(c, s, a) || VerdictEnabled(c, s, a) || WorkerEnabled(c, s, a)
        || OutsideEnabled(c, s, a))
  }

  /** Sending on a closed channel panics. */
  function SendNews(s: State, na: NamedAddress): State
  {
    if s.news.closed then s.(panicked := true) else s.(news := s.news.Sent(na))
  }

  function SendCourt(s: State, qa: QualifiedAddress, sender: nat): State
  {
    if s.court.closed then s.(panicked := true)
    else s.(court := s.court.Sent(qa), senders := s.senders + [sender])
  }

  /** Taking the mutex: the whole effect of an update on the cache happens here, before any of its sends. */
  function Call(s: State, na: NamedAddress): State
  {
    s.(cache := Updated(s.cache, na).cache, calls := s.calls + [na])
  }

  function InputStep(c: Config, s: State, a: Action): State
    requires InputEnabled(c, s, a)
  {
    match a
    case Take =>
      var na := c.input[s.taken];
      s.(taken := s.taken + 1, inPc := if na.Bare() then Forwarding(na) else Locking(na))
    case EndOfInput => s.(inPc := Stopping)
    case Forward => SendNews(s, s.inPc.na).(inPc := Reading)
    case Lock =>
      var na := s.inPc.na;
      Call(s, na).(inPc := Updating(na, Updated(s.cache, na).out, Updated(s.cache, na).isNew))
    case Emit => SendNews(s, s.inPc.out[0]).(inPc := Updating(s.inPc.na, s.inPc.out[1..], s.inPc.isNew))
    case Unlock => s.(inPc := if s.inPc.isNew then Announcing(Named(s.inPc.na).WithNewQuality(Verifying)) else Reading)
    case Announce => SendCourt(s, s.inPc.subject, |s.jobs|).(inPc := Submitting(s.inPc.subject, |s.court.sent|))
    case Submit => s.(jobs := s.jobs + [Job(s.inPc.subject, s.inPc.announcedAt, Queued)], inPc := Reading)
    case CloseCourt => s.(court := s.court.(closed := true), inPc := Deciding)
    case CheckContext => s.(inPc := if s.cancelled then Closing else WaitingDone)
    case SeeDone => s.(inPc := Closing)
    case CloseNews => s.(news := s.news.(closed := true), inPc := Returned)
    case QuitInput => s.(inPc := Stopping)
    case DropOut => s.(inPc := Updating(s.inPc.na, [], s.inPc.isNew))
    case DropAnnounce => s.(inPc := Reading)
  }

  /** Receiving asserts that the verdict is about a named address; if it were not, that would panic. */
  function VerdictStep(c: Config, s: State, a: Action): State
    requires VerdictEnabled(c, s, a)
  {
    match a
    case Receive =>
      var qa := s.court.sent[s.court.taken];
      var s' := s.(court := s.court.(taken := s.court.taken + 1));
      if qa.Named? then s'.(vPc := VLocking(qa.na)) else s'.(panicked := true)
    case SeeClosed => s.(vPc := VDone)
    case VLock => Call(s, s.vPc.na).(vPc := VUpdating(Updated(s.cache, s.vPc.na).out))
    case VEmit => SendNews(s, s.vPc.out[0]).(vPc := VUpdating(s.vPc.out[1..]))
    case VUnlock => s.(vPc := Receiving)
    case VQuit => s.(vPc := VDone)
    case VDrop => s.(vPc := VUpdating([]))
  }

  function WorkerStep(c: Config, s: State, a: Action): State
    requires WorkerEnabled(c, s, a)
  {
    match a
    case Start(i) => s.(jobs := s.jobs[i := s.jobs[i].(stage := Pinging)])
    case Judge(i, v) => s.(jobs := s.jobs[i := s.jobs[i].(stage := Judged(v))])
    case Report(i) =>
      SendCourt(s, s.jobs[i].subject.WithNewQuality(s.jobs[i].stage.verdict), i)
        .(jobs := s.jobs[i := s.jobs[i].(stage := Finished(Some(|s.court.sent|)))])
    case DropReport(i) => s.(jobs := s.jobs[i := s.jobs[i].(stage := Finished(None))])
  }

  function Apply(c: Config, s: State, a: Action): State
    requires Enabled(c, s, a)
  {
    if InputEnabled(c, s, a) then InputStep(c, s, a)
    else if VerdictEnabled(c, s, a) then VerdictStep(c, s, a)
    else if WorkerEnabled(c, s, a) then WorkerStep(c, s, a)
    else if a.Read? then s.(news := s.news.(taken := s.news.taken + 1))
    else s.(cancelled := true)
  }

  // ---------------------------------------------------------------- runs

  /** The actions can be taken one after the other. */
  ghost predicate Run(c: Config, s: State, acts: seq<Action>)
    decreases |acts|
  {
    acts == [] || (Enabled(c, s, acts[0]) && Run(c, Apply(c, s, acts[0]), acts[1..]))
  }

  ghost function After(c: Config, s: State, acts: seq<Action>): State
    requires Run(c, s, acts)
    decreases |acts|
  {
    if acts == [] then s else After(c, Apply(c, s, acts[0]), acts[1..])
  }

  lemma {:induction false} RunAppend(c: Config, s: State, acts: seq<Action>, more: seq<Action>)
    requires Run(c, s, acts) && Run(c, After(c, s, acts), more)
    ensures Run(c, s, acts + more) && After(c, s, acts + more) == After(c, After(c, s, acts), more)
    decreases |acts|
  {
    if acts == [] {
      assert acts + more == more;
    } else {
      assert (acts + more)[1..] == acts[1..] + more;
      RunAppend(c, Apply(c, s, acts[0]), acts[1..], more);
    }
  }

  lemma {:induction false} CancelledStays(c: Config, s: State, acts: seq<Action>)
    requires Run(c, s, acts) && s.cancelled
    ensures After(c, s, acts).cancelled
    decreases |acts|
  {
    if acts != [] {
      CancelledStays(c, Apply(c, s, acts[0]), acts[1..]);
    }
  }

  lemma StartsUncancelled(c: Config, s: State, acts: seq<Action>)
    requires acts != [] && Run(c, s, acts) && !After(c, s, acts).cancelled
    ensures acts[0] != Cancel
  {
    if acts[0] == Cancel {
      CancelledStays(c, Apply(c, s, Cancel), acts[1..]);
    }
  }

  /** The pairs of the addressed items in a stretch of input. */
  function AddressedPairs(items: seq<NamedAddress>): set<(string, string)>
  {
    set i | 0 <= i < |items| && !items[i].Bare() :: (items[i].name, items[i].addr)
  }

  /** The messages a running update still has to send. */
  function Pending(s: State): seq<NamedAddress>
  {
    if s.inPc.Updating? then s.inPc.out else if s.vPc.VUpdating? then s.vPc.out else []
  }
}
