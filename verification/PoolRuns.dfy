/**
 Concurrent runs of the DNS connection pool: tasks are started by a bounded number of workers, and each pops
 a connection, works, and pushes it back, with the mutex held only during the pop and the push.
 */
module PoolRuns {
  import opened Types
  import DnsPool

  /** The dialled connections and the number of workers. */
  datatype Config = Config(conns: seq<nat>, workers: nat)

  datatype Stage = Queued | Started | Holding(conn: nat) | Returning | Over

  datatype State = State(free: seq<nat>, tasks: seq<Stage>, stopped: bool, closed: seq<nat>, panicked: bool)

  datatype Action = Submit | Start(i: nat) | Pop(i: nat) | Push(i: nat) | End(i: nat) | Stop

  function Init(c: Config): State
  {
    State(c.conns, [], false, [], false)
  }

  predicate Busy(t: Stage)
  {
    t.Started? || t.Holding? || t.Returning?
  }

  function Occupied(tasks: seq<Stage>): nat
  {
    if tasks == [] then 0 else Occupied(tasks[..|tasks| - 1]) + if Busy(tasks[|tasks| - 1]) then 1 else 0
  }

  /** How many tasks have the connection in their hands. */
  function HeldTimes(tasks: seq<Stage>, conn: nat): nat
  {
    if tasks == [] then 0
    else HeldTimes(tasks[..|tasks| - 1], conn) + if tasks[|tasks| - 1] == Holding(conn) then 1 else 0
  }

  /** How many tasks have a connection in their hands. */
  function Holders(tasks: seq<Stage>): nat
  {
    if tasks == [] then 0 else Holders(tasks[..|tasks| - 1]) + if tasks[|tasks| - 1].Holding? then 1 else 0
  }

  predicate AllOver(tasks: seq<Stage>)
  {
    forall i :: 0 <= i < |tasks| ==> tasks[i].Over?
  }

  /** Nothing is submitted after the pool was stopped; stopping waits for all tasks. */
  predicate Enabled(c: Config, s: State, a: Action)
  {
    !s.panicked && !s.stopped &&
    match a
    case Submit => true
    case Start(i) => i < |s.tasks| && s.tasks[i].Queued? && Occupied(s.tasks) < c.workers
    case Pop(i) => i < |s.tasks| && s.tasks[i].Started?
    case Push(i) => i < |s.tasks| && s.tasks[i].Holding?
    case End(i) => i < |s.tasks| && s.tasks[i].Returning?
    case Stop => AllOver(s.tasks)
  }

  function Apply(c: Config, s: State, a: Action): State
    requires Enabled(c, s, a)
  {
    match a
    case Submit => s.(tasks := s.tasks + [Queued])
    case Start(i) => s.(tasks := s.tasks[i := Started])
    case Pop(i) =>
      if s.free == [] then s.(panicked := true)
      else
        var last := |s.free| - 1;
        s.(free := s.free[..last], tasks := s.tasks[i := Holding(s.free[last])])
    case Push(i) => s.(free := s.free + [s.tasks[i].conn], tasks := s.tasks[i := Returning])
    case End(i) => s.(tasks := s.tasks[i := Over])
    case Stop => s.(closed := s.closed + s.free, free := [], stopped := true)
  }

  ghost predicate Run(c: Config, s: State, acts: seq<Action>)
    decreases |acts|
  {
    acts == [] || (Enabled(c, s, acts[0]) && Run(c, Apply(c, s, acts[0]), acts[1..]))
  }

  ghost function After(c: Config, s: State, acts: seq<Action>): State
    requires Run(c, s, acts)
    decreases |acts|
  {
    if acts == [] then s else After(c, Apply(c, s, acts[0]), acts[1..])
  }

  // ---------------------------------------------------------------- conservation

  /** Every connection is free, held or closed as often as it was dialled. */
  ghost predicate Accounted(c: Config, s: State)
  {
    forall x :: multiset(s.free)[x] + HeldTimes(s.tasks, x) + multiset(s.closed)[x] == multiset(c.conns)[x]
  }

  ghost predicate Conserved(c: Config, s: State)
  {
    && Accounted(c, s)
    && |s.free| + Holders(s.tasks) + |s.closed| == |c.conns|
    && Occupied(s.tasks) <= c.workers
    && (if s.stopped then AllOver(s.tasks) && s.free == [] else s.closed == [])
  }

  lemma {:induction false} TaskMoves(tasks: seq<Stage>, i: nat, t: Stage)
    requires i < |tasks|
    ensures Occupied(tasks[i := t]) + (if Busy(tasks[i]) then 1 else 0) == Occupied(tasks) + if Busy(t) then 1 else 0
    ensures Holders(tasks[i := t]) + (if tasks[i].Holding? then 1 else 0) ==
            Holders(tasks) + if t.Holding? then 1 else 0
    ensures forall x :: HeldTimes(tasks[i := t], x) + (if tasks[i] == Holding(x) then 1 else 0) ==
                        HeldTimes(tasks, x) + if t == Holding(x) then 1 else 0
  {
    var n := |tasks| - 1;
    if i == n {
      assert tasks[i := t][..n] == tasks[..n];
    } else {
      assert tasks[i := t][..n] == tasks[..n][i := t];
      TaskMoves(tasks[..n], i, t);
    }
  }

  lemma TaskAdded(tasks: seq<Stage>)
    ensures Occupied(tasks + [Queued]) == Occupied(tasks) && Holders(tasks + [Queued]) == Holders(tasks)
    ensures forall x :: HeldTimes(tasks + [Queued], x) == HeldTimes(tasks, x)
  {
    assert (tasks + [Queued])[..|tasks|] == tasks;
  }

  lemma {:induction false} HoldersAreOccupied(tasks: seq<Stage>)
    ensures Holders(tasks) <= Occupied(tasks)
    ensures (exists i :: 0 <= i < |tasks| && tasks[i].Started?) ==> Holders(tasks) < Occupied(tasks)
  {
    if tasks != [] {
      var n := |tasks| - 1;
      HoldersAreOccupied(tasks[..n]);
      if i :| 0 <= i < |tasks| && tasks[i].Started? {
        assert i < n ==> tasks[..n][i].Started?;
      }
    }
  }

  lemma {:induction false} NothingHeld(tasks: seq<Stage>, x: nat)
    requires AllOver(tasks)
    ensures HeldTimes(tasks, x) == 0
  {
    if tasks != [] {
      NothingHeld(tasks[..|tasks| - 1], x);
    }
  }

  lemma FreeWhenStarted(c: Config, s: State, i: nat)
    requires Conserved(c, s) && !s.stopped && c.workers <= |c.conns| && i < |s.tasks| && s.tasks[i].Started?
    ensures s.free != []
  {
    HoldersAreOccupied(s.tasks);
  }

  lemma ConservedPop(c: Config, s: State, i: nat)
    requires Conserved(c, s) && Enabled(c, s, Pop(i)) && s.free != []
    ensures Conserved(c, Apply(c, s, Pop(i)))
  {
    var last := |s.free| - 1;
    TaskMoves(s.tasks, i, Holding(s.free[last]));
    assert s.free == s.free[..last] + [s.free[last]];
  }

  lemma ConservedPush(c: Config, s: State, i: nat)
    requires Conserved(c, s) && Enabled(c, s, Push(i))
    ensures Conserved(c, Apply(c, s, Push(i)))
  {
    TaskMoves(s.tasks, i, Returning);
  }

  lemma ConservedStep(c: Config, s: State, a: Action)
    requires Conserved(c, s) && Enabled(c, s, a)
    ensures Conserved(c, Apply(c, s, a))
  {
    match a
    case Submit => TaskAdded(s.tasks);
    case Start(i) => TaskMoves(s.tasks, i, Started);
    case Pop(i) =>
      if s.free != [] {
        ConservedPop(c, s, i);
      }
    case Push(i) => ConservedPush(c, s, i);
    case End(i) => TaskMoves(s.tasks, i, Over);
    case Stop =>
  }

  lemma {:induction false} ConservedHolds(c: Config, s: State, acts: seq<Action>)
    requires Conserved(c, s) && Run(c, s, acts)
    ensures Conserved(c, After(c, s, acts))
    ensures c.workers <= |c.conns| && !s.panicked ==> !After(c, s, acts).panicked
    decreases |acts|
  {
    if acts != [] {
      var a := acts[0];
      ConservedStep(c, s, a);
      if a.Pop? && c.workers <= |c.conns| {
        FreeWhenStarted(c, s, a.i);
      }
      ConservedHolds(c, Apply(c, s, a), acts[1..]);
    }
  }

  /**
   At every moment free, held and closed connections together are exactly the dialled ones; stopped, all are closed.
   */
  lemma ConnectionsAreConserved(c: Config, acts: seq<Action>)
    requires Run(c, Init(c), acts)
    ensures Accounted(c, After(c, Init(c), acts))
    ensures After(c, Init(c), acts).stopped ==> multiset(After(c, Init(c), acts).closed) == multiset(c.conns)
    ensures !After(c, Init(c), acts).stopped ==> After(c, Init(c), acts).closed == []
  {
    ConservedHolds(c, Init(c), acts);
    var s := After(c, Init(c), acts);
    if s.stopped {
      forall x
        ensures multiset(s.closed)[x] == multiset(c.conns)[x]
      {
        NothingHeld(s.tasks, x);
      }
    }
  }

  /** The tasks some worker is occupied with. */
  function AtWork(tasks: seq<Stage>): set<nat>
  {
    set i: nat | i < |tasks| && !tasks[i].Queued? && !tasks[i].Over?
  }

  lemma {:induction false} OccupiedCounts(tasks: seq<Stage>)
    ensures Occupied(tasks) == |AtWork(tasks)|
  {
    if tasks != [] {
      var n := |tasks| - 1;
      OccupiedCounts(tasks[..n]);
      assert AtWork(tasks) == AtWork(tasks[..n]) + if Busy(tasks[n]) then {n} else {};
    }
  }

  /** At no moment are more tasks in progress than there are workers. */
  lemma WorkersAreBounded(c: Config, acts: seq<Action>)
    requires Run(c, Init(c), acts)
    ensures |AtWork(After(c, Init(c), acts).tasks)| <= c.workers
  {
    ConservedHolds(c, Init(c), acts);
    OccupiedCounts(After(c, Init(c), acts).tasks);
  }

  lemma {:induction false} HolderCounts(tasks: seq<Stage>, i: nat)
    requires i < |tasks| && tasks[i].Holding?
    ensures HeldTimes(tasks, tasks[i].conn) >= 1
  {
    if i < |tasks| - 1 {
      HolderCounts(tasks[..|tasks| - 1], i);
    }
  }

  lemma {:induction false} TwoHoldersCount(tasks: seq<Stage>, i: nat, j: nat)
    requires i < j < |tasks| && tasks[i].Holding? && tasks[j] == tasks[i]
    ensures HeldTimes(tasks, tasks[i].conn) >= 2
  {
    if j < |tasks| - 1 {
      TwoHoldersCount(tasks[..|tasks| - 1], i, j);
    } else {
      HolderCounts(tasks[..|tasks| - 1], i);
    }
  }

  lemma {:induction false} DistinctCountOnce(conns: seq<nat>, x: nat)
    requires NoDuplicates(conns)
    ensures multiset(conns)[x] <= 1
  {
    if conns != [] {
      var n := |conns| - 1;
      assert conns == conns[..n] + [conns[n]];
      DistinctCountOnce(conns[..n], x);
      if x == conns[n] {
        assert x !in conns[..n];
      }
    }
  }

  /** No two tasks hold the same connection, and a held one is neither free nor closed. */
  lemma NoSharing(c: Config, acts: seq<Action>, i: nat, j: nat)
    requires NoDuplicates(c.conns) && Run(c, Init(c), acts)
    requires i < |After(c, Init(c), acts).tasks| && After(c, Init(c), acts).tasks[i].Holding?
    requires j < |After(c, Init(c), acts).tasks| && j != i
    ensures var s := After(c, Init(c), acts);
            s.tasks[j] != s.tasks[i] && s.tasks[i].conn !in s.free && s.tasks[i].conn !in s.closed
  {
    var s := After(c, Init(c), acts);
    var x := s.tasks[i].conn;
    ConservedHolds(c, Init(c), acts);
    HolderCounts(s.tasks, i);
    DistinctCountOnce(c.conns, x);
    if s.tasks[j] == s.tasks[i] {
      TwoHoldersCount(s.tasks, if i < j then i else j, if i < j then j else i);
    }
    assert multiset(s.free)[x] + HeldTimes(s.tasks, x) + multiset(s.closed)[x] == multiset(c.conns)[x];
    assert x in s.free <==> multiset(s.free)[x] >= 1;
    assert x in s.closed <==> multiset(s.closed)[x] >= 1;
  }

  // ---------------------------------------------------------------- the most recently freed comes first

  /** The connections that no worker needs: those dialled first, as many as there are more than workers. */
  function Spare(c: Config): seq<nat>
    requires c.workers <= |c.conns|
  {
    c.conns[..|c.conns| - c.workers]
  }

  lemma SpareStep(c: Config, s: State, a: Action)
    requires c.workers <= |c.conns| && Conserved(c, s) && Enabled(c, s, a) && Spare(c) <= s.free
    ensures !Apply(c, s, a).stopped ==> Spare(c) <= Apply(c, s, a).free
  {
    if a.Pop? {
      HoldersAreOccupied(s.tasks);
      assert |Spare(c)| <= |s.free| - 1;
    }
  }

  lemma {:induction false} SpareHolds(c: Config, s: State, acts: seq<Action>)
    requires c.workers <= |c.conns| && Conserved(c, s) && Run(c, s, acts)
    requires !s.stopped ==> Spare(c) <= s.free
    ensures !After(c, s, acts).stopped ==> Spare(c) <= After(c, s, acts).free
    decreases |acts|
  {
    if acts != [] {
      SpareStep(c, s, acts[0]);
      ConservedStep(c, s, acts[0]);
      SpareHolds(c, Apply(c, s, acts[0]), acts[1..]);
    }
  }

  /** Since the most recently freed connection is taken first, connections beyond the workers' number are never used. */
  lemma SparesAreNeverUsed(c: Config, acts: seq<Action>)
    requires c.workers <= |c.conns| && Run(c, Init(c), acts)
    ensures !After(c, Init(c), acts).stopped ==> c.conns[..|c.conns| - c.workers] <= After(c, Init(c), acts).free
  {
    SpareHolds(c, Init(c), acts);
  }

  // ---------------------------------------------------------------- the panic

  lemma Do(c: Config, acts: seq<Action>, a: Action) returns (more: seq<Action>)
    requires Run(c, Init(c), acts) && Enabled(c, After(c, Init(c), acts), a)
    ensures Run(c, Init(c), more) && After(c, Init(c), more) == Apply(c, After(c, Init(c), acts), a)
  {
    RunAppend(c, Init(c), acts, a);
    more := acts + [a];
  }

  lemma {:induction false} RunAppend(c: Config, s: State, acts: seq<Action>, a: Action)
    requires Run(c, s, acts) && Enabled(c, After(c, s, acts), a)
    ensures Run(c, s, acts + [a]) && After(c, s, acts + [a]) == Apply(c, After(c, s, acts), a)
    decreases |acts|
  {
    if acts == [] {
      assert acts + [a] == [a];
      assert [a][1..] == [];
      assert Run(c, Apply(c, s, a), []);
    } else {
      assert (acts + [a])[1..] == acts[1..] + [a];
      RunAppend(c, Apply(c, s, acts[0]), acts[1..], a);
    }
  }

  /** As many tasks as there are connections, each holding one. */
  lemma {:induction false} TakeAll(c: Config, n: nat) returns (acts: seq<Action>)
    requires n <= |c.conns| < c.workers
    ensures Run(c, Init(c), acts)
    ensures var s := After(c, Init(c), acts);
            && s.free == c.conns[..|c.conns| - n] && |s.tasks| == n && Occupied(s.tasks) == n
            && !s.stopped && !s.panicked
  {
    if n == 0 {
      acts := [];
      assert c.conns[..|c.conns|] == c.conns;
    } else {
      acts := TakeAll(c, n - 1);
      acts := StartOneMore(c, acts);
      var s := After(c, Init(c), acts);
      TaskMoves(s.tasks, n - 1, Holding(s.free[|s.free| - 1]));
      acts := Do(c, acts, Pop(n - 1));
    }
  }

  lemma StartOneMore(c: Config, before: seq<Action>) returns (acts: seq<Action>)
    requires Run(c, Init(c), before)
    requires var s := After(c, Init(c), before); !s.stopped && !s.panicked && Occupied(s.tasks) < c.workers
    ensures Run(c, Init(c), acts)
    ensures var s, s' := After(c, Init(c), before), After(c, Init(c), acts);
            && s'.free == s.free && s'.tasks == s.tasks + [Started] && Occupied(s'.tasks) == Occupied(s.tasks) + 1
            && !s'.stopped && !s'.panicked
  {
    var tasks := After(c, Init(c), before).tasks;
    TaskAdded(tasks);
    acts := Do(c, before, Submit);
    TaskMoves(tasks + [Queued], |tasks|, Started);
    acts := Do(c, acts, Start(|tasks|));
    assert (tasks + [Queued])[|tasks| := Started] == tasks + [Started];
  }

  /** A task can find the free list empty exactly if there are more workers than connections. */
  lemma PanicExactlyWithTooManyWorkers(c: Config)
    ensures (exists acts :: Run(c, Init(c), acts) && After(c, Init(c), acts).panicked) <==> c.workers > |c.conns|
  {
    if c.workers > |c.conns| {
      var acts := TakeAll(c, |c.conns|);
      acts := StartOneMore(c, acts);
      acts := Do(c, acts, Pop(|c.conns|));
      assert Run(c, Init(c), acts) && After(c, Init(c), acts).panicked;
    } else {
      forall acts | Run(c, Init(c), acts)
        ensures !After(c, Init(c), acts).panicked
      {
        ConservedHolds(c, Init(c), acts);
      }
    }
  }

  /** What may happen to a pool: its connections are numbered. */
  ghost function Runs(pool: DnsPool.Pool): Config
    reads pool
  {
    Config(seq(|pool.free|, i => i), pool.workers)
  }

  /** A pool that comes back from `New` has as many workers as connections, and no run of it panics or shares. */
  lemma NewPoolNeverPanics(pool: DnsPool.Pool, acts: seq<Action>)
    requires pool.workers == |pool.free| && Run(Runs(pool), Init(Runs(pool)), acts)
    ensures var s := After(Runs(pool), Init(Runs(pool)), acts);
            && !s.panicked
            && forall i, j :: 0 <= i < j < |s.tasks| && s.tasks[i].Holding? ==> s.tasks[j] != s.tasks[i]
  {
    var c := Runs(pool);
    ConservedHolds(c, Init(c), acts);
    forall i, j | 0 <= i < j < |After(c, Init(c), acts).tasks| && After(c, Init(c), acts).tasks[i].Holding?
      ensures After(c, Init(c), acts).tasks[j] != After(c, Init(c), acts).tasks[i]
    {
      NoSharing(c, acts, i, j);
    }
  }
}
