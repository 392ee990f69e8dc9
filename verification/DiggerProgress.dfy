/** The digger never gets stuck, and no run of it goes on for ever. */
module DiggerProgress {
  import opened Types
  import opened Digger

  // ---------------------------------------------------------------- no deadlock

  lemma {:induction false} NobodySending(tasks: seq<Task>)
    requires forall i :: 0 <= i < |tasks| ==> !tasks[i].Sending?
    ensures Occupied(tasks) == 0
  {
    if tasks != [] {
      NobodySending(tasks[..|tasks| - 1]);
    }
  }

  /** Something other than the cancellation of the context can happen. */
  ghost predicate Lively(c: Config, s: State)
    requires ValidConfig(c)
  {
    exists a :: Enabled(c, s, a) && a != Cancel
  }

  /** Everything there is to send has been sent. */
  ghost predicate AllSent(c: Config, s: State)
    requires ValidConfig(c)
  {
    s.announced == |c.names| && forall i :: 0 <= i < |c.names| ==> SentBy(s, i) == |c.answers[i]|
  }

  /** With room on the channel, or nothing more to send, unfinished tasks mean that some task can go on. */
  lemma TasksMoveOn(c: Config, s: State) returns (a: Action)
    requires ValidConfig(c) && Inv(c, s) && (s.news.Ready(c.size) || AllSent(c, s)) && !AllOver(s.tasks)
    ensures Enabled(c, s, a) && a != Cancel && a != Read
  {
    if i :| 0 <= i < |s.tasks| && s.tasks[i].Sending? {
      a := if s.tasks[i].sent < |c.answers[i]| then Send(i) else End(i);
      assert SentBy(s, i) == s.tasks[i].sent;
    } else {
      NobodySending(s.tasks);
      var i :| 0 <= i < |s.tasks| && !s.tasks[i].Over?;
      a := Begin(i);
    }
  }

  /** With room on the channel, or nothing more to send, a digger does not need its reader. */
  lemma MovesOnAlone(c: Config, s: State) returns (a: Action)
    requires ValidConfig(c) && Inv(c, s) && (s.news.Ready(c.size) || AllSent(c, s)) && !s.pc.Closed?
    ensures Enabled(c, s, a) && a != Cancel && a != Read
  {
    if s.pc.Returned? && !AllOver(s.tasks) {
      a := TasksMoveOn(c, s);
    } else {
      a :=
        if s.pc.Announcing? then (if s.announced < |c.names| then Announce else Return)
        else if s.pc.Submitting? then Submit
        else Close;
    }
  }

  lemma MovesOn(c: Config, s: State)
    requires ValidConfig(c) && Inv(c, s) && !(s.pc.Closed? && s.news.Drained())
    ensures Lively(c, s)
  {
    if !s.news.Drained() {
      assert Enabled(c, s, Read);
    } else {
      var a := MovesOnAlone(c, s);
    }
  }

  lemma NothingLeft(c: Config, s: State, a: Action)
    requires ValidConfig(c) && Inv(c, s) && s.pc.Closed? && s.news.Drained()
    ensures Enabled(c, s, a) ==> a == Cancel
  {
  }

  /** A digger that cannot go on has closed its news, and everything on it has been read; cancelled or not. */
  lemma StuckMeansClosed(c: Config, acts: seq<Action>)
    requires ValidConfig(c) && Run(c, Init(), acts)
    ensures Lively(c, After(c, Init(), acts)) <==>
            !(After(c, Init(), acts).pc.Closed? && After(c, Init(), acts).news.Drained())
  {
    Reached(c, acts);
    var s := After(c, Init(), acts);
    if s.pc.Closed? && s.news.Drained() {
      forall a
        ensures Enabled(c, s, a) ==> a == Cancel
      {
        NothingLeft(c, s, a);
      }
    } else {
      MovesOn(c, s);
    }
  }

  // ---------------------------------------------------------------- no endless runs

  function TaskWork(t: Task, answers: nat): int
  {
    match t
    case Queued => 2 * answers + 2
    case Sending(sent) => 2 * (answers - sent) + 1
    case Over(_) => 0
  }

  /** The steps left for the names from the first to the last, the not yet submitted ones included. */
  function NamesWork(c: Config, s: State, n: nat): int
    requires ValidConfig(c) && n <= |c.names|
  {
    if n == 0 then 0
    else NamesWork(c, s, n - 1) + NameWork(c, s, n - 1)
  }

  function NameWork(c: Config, s: State, i: nat): int
    requires ValidConfig(c) && i < |c.names|
  {
    if i < |s.tasks| then TaskWork(s.tasks[i], |c.answers[i]|)
    else if i < s.announced then 2 * |c.answers[i]| + 3
    else 2 * |c.answers[i]| + 5
  }

  function Measure(c: Config, s: State): int
    requires ValidConfig(c)
  {
    NamesWork(c, s, |c.names|) + (|s.news.sent| - s.news.taken)
    + (if s.pc.Closed? then 0 else if s.pc.Returned? then 1 else 2) + if s.cancelled then 0 else 1
  }

  lemma {:induction false} SameWork(c: Config, s: State, s': State, n: nat)
    requires ValidConfig(c) && n <= |c.names|
    requires forall j :: 0 <= j < n ==> NameWork(c, s', j) == NameWork(c, s, j)
    ensures NamesWork(c, s', n) == NamesWork(c, s, n)
  {
    if n > 0 {
      SameWork(c, s, s', n - 1);
    }
  }

  lemma {:induction false} WorkDone(c: Config, s: State, s': State, n: nat, i: nat)
    requires ValidConfig(c) && i < n <= |c.names|
    requires forall j :: 0 <= j < n && j != i ==> NameWork(c, s', j) == NameWork(c, s, j)
    ensures NamesWork(c, s', n) - NamesWork(c, s, n) == NameWork(c, s', i) - NameWork(c, s, i)
  {
    if i == n - 1 {
      SameWork(c, s, s', n - 1);
    } else {
      WorkDone(c, s, s', n - 1, i);
    }
  }

  lemma {:induction false} WorkIsNat(c: Config, s: State, n: nat)
    requires ValidConfig(c) && Inv(c, s) && n <= |c.names|
    ensures NamesWork(c, s, n) >= 0
  {
    if n > 0 {
      WorkIsNat(c, s, n - 1);
    }
  }

  /** The task an action moves on. */
  function Mover(a: Action): Option<nat>
  {
    match a
    case Begin(i) => Some(i)
    case Send(i) => Some(i)
    case End(i) => Some(i)
    case DropRest(i) => Some(i)
    case _ => None
  }

  lemma TaskStepDecreases(c: Config, s: State, a: Action)
    requires ValidConfig(c) && Inv(c, s) && Enabled(c, s, a) && Mover(a).Some?
    ensures Measure(c, Apply(c, s, a)) < Measure(c, s)
  {
    WorkDone(c, s, Apply(c, s, a), |c.names|, Mover(a).value);
  }

  lemma LoopStepDecreases(c: Config, s: State, a: Action)
    requires ValidConfig(c) && Inv(c, s) && Enabled(c, s, a) && Mover(a).None?
    ensures Measure(c, Apply(c, s, a)) < Measure(c, s)
  {
    var s' := Apply(c, s, a);
    if a.Announce? || a.Submit? {
      WorkDone(c, s, s', |c.names|, |s.tasks|);
    } else {
      SameWork(c, s, s', |c.names|);
    }
  }

  lemma {:induction false} RunCostsMeasure(c: Config, s: State, acts: seq<Action>)
    requires ValidConfig(c) && Inv(c, s) && s.news.taken <= |s.news.sent| && Run(c, s, acts)
    ensures |acts| <= Measure(c, s)
    decreases |acts|
  {
    if acts == [] {
      WorkIsNat(c, s, |c.names|);
    } else {
      var a := acts[0];
      InvStep(c, s, a);
      if Mover(a).Some? {
        TaskStepDecreases(c, s, a);
      } else {
        LoopStepDecreases(c, s, a);
      }
      RunCostsMeasure(c, Apply(c, s, a), acts[1..]);
    }
  }

  function AllAnswers(answers: seq<seq<string>>): nat
  {
    if answers == [] then 0 else AllAnswers(answers[..|answers| - 1]) + |answers[|answers| - 1]|
  }

  lemma {:induction false} InitialWork(c: Config, n: nat)
    requires ValidConfig(c) && n <= |c.names|
    ensures NamesWork(c, Init(), n) == 5 * n + 2 * AllAnswers(c.answers[..n])
  {
    if n > 0 {
      InitialWork(c, n - 1);
      assert c.answers[..n][..n - 1] == c.answers[..n - 1];
    }
  }

  /** However it is scheduled or cancelled, a digger's run takes at most five steps a name and two an address found. */
  lemma EveryDigIsFinite(c: Config, acts: seq<Action>)
    requires ValidConfig(c) && Run(c, Init(), acts)
    ensures |acts| <= 5 * |c.names| + 2 * AllAnswers(c.answers) + 3
  {
    Reached(c, []);
    RunCostsMeasure(c, Init(), acts);
    InitialWork(c, |c.names|);
    assert c.answers[..|c.answers|] == c.answers;
  }

  // ---------------------------------------------------------------- every run can be completed

  lemma {:induction false} OneStepMore(c: Config, s: State, acts: seq<Action>, a: Action)
    requires ValidConfig(c) && Run(c, s, acts) && Enabled(c, After(c, s, acts), a)
    ensures Run(c, s, acts + [a]) && After(c, s, acts + [a]) == Apply(c, After(c, s, acts), a)
    decreases |acts|
  {
    if acts == [] {
      assert acts + [a] == [a];
      assert [a][1..] == [];
      assert Run(c, Apply(c, s, a), []);
    } else {
      assert (acts + [a])[1..] == acts[1..] + [a];
      OneStepMore(c, Apply(c, s, acts[0]), acts[1..], a);
    }
  }

  /** Whatever an uncancelled run has done so far, it can be completed without a cancellation. */
  lemma {:induction false} Completed(c: Config, acts: seq<Action>) returns (all: seq<Action>)
    requires ValidConfig(c) && Run(c, Init(), acts) && !After(c, Init(), acts).cancelled
    ensures acts <= all && Run(c, Init(), all)
    ensures After(c, Init(), all).pc.Closed? && !After(c, Init(), all).cancelled
    decreases 5 * |c.names| + 2 * AllAnswers(c.answers) + 3 - |acts|
  {
    StuckMeansClosed(c, acts);
    var s := After(c, Init(), acts);
    if s.pc.Closed? {
      all := acts;
    } else {
      var a :| Enabled(c, s, a) && a != Cancel;
      OneStepMore(c, Init(), acts, a);
      EveryDigIsFinite(c, acts + [a]);
      all := Completed(c, acts + [a]);
    }
  }

  // ---------------------------------------------------------------- how much there is to send

  /** One announcement for each name and one message for each address. */
  function Total(c: Config): nat
  {
    |c.names| + AllAnswers(c.answers)
  }

  lemma {:induction false} CompleteLength(c: Config, n: nat)
    requires ValidConfig(c) && n <= |c.names|
    ensures |Flat(Complete(c)[..n])| == n + AllAnswers(c.answers[..n])
  {
    if n > 0 {
      CompleteLength(c, n - 1);
      assert Complete(c)[..n][..n - 1] == Complete(c)[..n - 1];
      assert c.answers[..n][..n - 1] == c.answers[..n - 1];
    }
  }

  lemma TotalIsComplete(c: Config)
    requires ValidConfig(c)
    ensures |Flat(Complete(c))| == Total(c)
  {
    CompleteLength(c, |c.names|);
    assert Complete(c)[..|c.names|] == Complete(c);
    assert c.answers[..|c.names|] == c.answers;
  }

  /** Shares of a whole: no longer in sum, and if as long in sum then as long one by one. */
  lemma {:induction false} SharesOfWhole(part: seq<seq<NamedAddress>>, whole: seq<seq<NamedAddress>>)
    requires |part| == |whole| && forall i :: 0 <= i < |part| ==> |part[i]| <= |whole[i]|
    ensures |Flat(part)| <= |Flat(whole)|
    ensures |Flat(part)| == |Flat(whole)| ==> forall i :: 0 <= i < |part| ==> |part[i]| == |whole[i]|
  {
    if part != [] {
      var n := |part| - 1;
      SharesOfWhole(part[..n], whole[..n]);
      forall i | 0 <= i < n && |Flat(part)| == |Flat(whole)|
        ensures |part[i]| == |whole[i]|
      {
        assert |part[..n][i]| == |whole[..n][i]|;
      }
    }
  }

  /** No more than that is ever sent; and when that much was sent, it was everything. */
  lemma SentIsBounded(c: Config, s: State)
    requires ValidConfig(c) && Inv(c, s) && multiset(s.news.sent) == multiset(Flat(Shares(c, s)))
    ensures |s.news.sent| <= Total(c)
    ensures |s.news.sent| == Total(c) ==> AllSent(c, s)
  {
    assert |s.news.sent| == |multiset(s.news.sent)| == |Flat(Shares(c, s))|;
    TotalIsComplete(c);
    forall i | 0 <= i < |c.names|
      ensures |Shares(c, s)[i]| <= |Complete(c)[i]|
      ensures |Shares(c, s)[i]| == |Complete(c)[i]| ==> i < s.announced && SentBy(s, i) == |c.answers[i]|
    {
      assert Shares(c, s)[i] == Share(c, s, i);
    }
    SharesOfWhole(Shares(c, s), Complete(c));
    if |s.news.sent| == Total(c) && |c.names| > 0 {
      assert |Shares(c, s)[|c.names| - 1]| == |Complete(c)[|c.names| - 1]|;
    }
  }

  /** The channel never holds more than its buffer does. */
  lemma {:induction false} BufferHolds(c: Config, s: State, acts: seq<Action>)
    requires ValidConfig(c) && Run(c, s, acts) && s.news.taken <= |s.news.sent| <= s.news.taken + c.size
    ensures var news := After(c, s, acts).news; news.taken <= |news.sent| <= news.taken + c.size
    decreases |acts|
  {
    if acts != [] {
      BufferHolds(c, Apply(c, s, acts[0]), acts[1..]);
    }
  }

  /** The tasks some worker is occupied with. */
  function AtWork(tasks: seq<Task>): set<nat>
  {
    set i: nat | i < |tasks| && tasks[i].Sending?
  }

  lemma {:induction false} OccupiedCounts(tasks: seq<Task>)
    ensures Occupied(tasks) == |AtWork(tasks)|
  {
    if tasks != [] {
      var n := |tasks| - 1;
      OccupiedCounts(tasks[..n]);
      assert AtWork(tasks) == AtWork(tasks[..n]) + if tasks[n].Sending? then {n} else {};
    }
  }

  lemma {:induction false} TaskMoves(tasks: seq<Task>, i: nat, t: Task)
    requires i < |tasks|
    ensures Occupied(tasks[i := t]) + (if tasks[i].Sending? then 1 else 0) ==
            Occupied(tasks) + if t.Sending? then 1 else 0
  {
    var n := |tasks| - 1;
    if i == n {
      assert tasks[i := t][..n] == tasks[..n];
    } else {
      assert tasks[i := t][..n] == tasks[..n][i := t];
      TaskMoves(tasks[..n], i, t);
    }
  }

  lemma TaskAdded(tasks: seq<Task>)
    ensures Occupied(tasks + [Queued]) == Occupied(tasks)
  {
    assert (tasks + [Queued])[..|tasks|] == tasks;
  }

  lemma OccupiedStep(c: Config, s: State, a: Action)
    requires ValidConfig(c) && Enabled(c, s, a) && Occupied(s.tasks) <= c.size
    ensures Occupied(Apply(c, s, a).tasks) <= c.size
  {
    if a.Submit? {
      TaskAdded(s.tasks);
    } else if a.Begin? {
      TaskMoves(s.tasks, a.i, Sending(0));
    } else if a.Send? {
      TaskMoves(s.tasks, a.i, Sending(s.tasks[a.i].sent + 1));
    } else if a.End? || a.DropRest? {
      TaskMoves(s.tasks, a.i, Over(s.tasks[a.i].sent));
    }
  }

  lemma {:induction false} OccupiedHolds(c: Config, s: State, acts: seq<Action>)
    requires ValidConfig(c) && Run(c, s, acts) && Occupied(s.tasks) <= c.size
    ensures Occupied(After(c, s, acts).tasks) <= c.size
    decreases |acts|
  {
    if acts != [] {
      OccupiedStep(c, s, acts[0]);
      OccupiedHolds(c, Apply(c, s, acts[0]), acts[1..]);
    }
  }

  /** In every run the channel never holds more than its buffer does, and no more tasks run than there are workers. */
  lemma DiggerIsBounded(c: Config, acts: seq<Action>)
    requires ValidConfig(c) && Run(c, Init(), acts)
    ensures var s := After(c, Init(), acts);
            s.news.taken <= |s.news.sent| <= s.news.taken + c.size && |AtWork(s.tasks)| <= c.size
  {
    BufferHolds(c, Init(), acts);
    OccupiedHolds(c, Init(), acts);
    OccupiedCounts(After(c, Init(), acts).tasks);
  }
}
