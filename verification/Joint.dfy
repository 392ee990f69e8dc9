/**
 Digger and verifier at work together: what the digger puts on its bounded channel is what the verifier
 takes, one item at a time. Cancelling stops the verifier; the digger has a context that is never done.
 */
module Joint {
  import opened Types
  import Digger
  import DiggerProgress
  import Pipeline
  import PipelineBase

  /** What the digger has to do, the verifier's size, and what pinging an address comes to. */
  datatype Config = Config(dig: Digger.Config, size: nat, oracle: string -> Quality)

  predicate ValidConfig(c: Config)
  {
    Digger.ValidConfig(c.dig) && c.size >= 1
  }

  datatype State = State(d: Digger.State, v: Pipeline.State)

  /** A step of the digger or of the verifier, the handing over of one item, or of the end of the channel. */
  datatype Action = Dig(d: Digger.Action) | Verify(v: Pipeline.Action) | Hand | HandEnd

  function Init(): State
  {
    State(Digger.Init(), Pipeline.Init())
  }

  /** The verifier's view: its input is what the digger has sent so far. */
  function Input(c: Config, s: State): Pipeline.Config
  {
    Pipeline.Config(s.d.news.sent, c.size, c.oracle)
  }

  predicate Enabled(c: Config, s: State, a: Action)
    requires ValidConfig(c)
  {
    match a
    case Dig(d) => !d.Read? && !d.Cancel? && Digger.Enabled(c.dig, s.d, d)
    case Verify(v) => !v.Take? && !v.EndOfInput? && Pipeline.Enabled(Input(c, s), s.v, v)
    case Hand => Digger.Enabled(c.dig, s.d, Digger.Read) && Pipeline.Enabled(Input(c, s), s.v, Pipeline.Take)
    case HandEnd =>
      s.d.news.closed && s.d.news.Drained() && Pipeline.Enabled(Input(c, s), s.v, Pipeline.EndOfInput)
  }

  function Apply(c: Config, s: State, a: Action): State
    requires ValidConfig(c) && Enabled(c, s, a)
  {
    match a
    case Dig(d) => s.(d := Digger.Apply(c.dig, s.d, d))
    case Verify(v) => s.(v := Pipeline.Apply(Input(c, s), s.v, v))
    case Hand =>
      State(Digger.Apply(c.dig, s.d, Digger.Read), Pipeline.Apply(Input(c, s), s.v, Pipeline.Take))
    case HandEnd => s.(v := Pipeline.Apply(Input(c, s), s.v, Pipeline.EndOfInput))
  }

  ghost predicate Run(c: Config, s: State, acts: seq<Action>)
    requires ValidConfig(c)
    decreases |acts|
  {
    acts == [] || (Enabled(c, s, acts[0]) && Run(c, Apply(c, s, acts[0]), acts[1..]))
  }

  ghost function After(c: Config, s: State, acts: seq<Action>): State
    requires ValidConfig(c) && Run(c, s, acts)
    decreases |acts|
  {
    if acts == [] then s else After(c, Apply(c, s, acts[0]), acts[1..])
  }

  lemma {:induction false} OneStepMore(c: Config, s: State, acts: seq<Action>, a: Action)
    requires ValidConfig(c) && Run(c, s, acts) && Enabled(c, After(c, s, acts), a)
    ensures Run(c, s, acts + [a]) && After(c, s, acts + [a]) == Apply(c, After(c, s, acts), a)
    decreases |acts|
  {
    if acts == [] {
      assert acts + [a] == [a];
      assert [a][1..] == [];
      assert Run(c, Apply(c, s, a), []);
    } else {
      assert (acts + [a])[1..] == acts[1..] + [a];
      OneStepMore(c, Apply(c, s, acts[0]), acts[1..], a);
    }
  }

  // ---------------------------------------------------------------- both sides of a joint run

  function DiggerPart(a: Action): seq<Digger.Action>
  {
    match a
    case Dig(d) => [d]
    case Verify(_) => []
    case Hand => [Digger.Read]
    case HandEnd => []
  }

  function VerifierPart(a: Action): seq<Pipeline.Action>
  {
    match a
    case Dig(_) => []
    case Verify(v) => [v]
    case Hand => [Pipeline.Take]
    case HandEnd => [Pipeline.EndOfInput]
  }

  function Digs(acts: seq<Action>): seq<Digger.Action>
  {
    if acts == [] then [] else DiggerPart(acts[0]) + Digs(acts[1..])
  }

  function Verifies(acts: seq<Action>): seq<Pipeline.Action>
  {
    if acts == [] then [] else VerifierPart(acts[0]) + Verifies(acts[1..])
  }

  lemma {:induction false} PartsAddUp(acts: seq<Action>)
    ensures |acts| <= |Digs(acts)| + |Verifies(acts)|
  {
    if acts != [] {
      PartsAddUp(acts[1..]);
    }
  }

  lemma DiggerPrepends(c: Digger.Config, s: Digger.State, a: Digger.Action, acts: seq<Digger.Action>)
    requires Digger.ValidConfig(c) && Digger.Enabled(c, s, a) && Digger.Run(c, Digger.Apply(c, s, a), acts)
    ensures Digger.Run(c, s, [a] + acts)
    ensures Digger.After(c, s, [a] + acts) == Digger.After(c, Digger.Apply(c, s, a), acts)
  {
    assert ([a] + acts)[1..] == acts;
  }

  lemma VerifierPrepends(c: Pipeline.Config, s: Pipeline.State, a: Pipeline.Action, acts: seq<Pipeline.Action>)
    requires Pipeline.Enabled(c, s, a) && Pipeline.Run(c, Pipeline.Apply(c, s, a), acts)
    ensures Pipeline.Run(c, s, [a] + acts)
    ensures Pipeline.After(c, s, [a] + acts) == Pipeline.After(c, Pipeline.Apply(c, s, a), acts)
  {
    assert ([a] + acts)[1..] == acts;
  }

  /** The digger's side of a joint run is a run of the digger. */
  lemma {:induction false} DiggerRuns(c: Config, s: State, acts: seq<Action>)
    requires ValidConfig(c) && Run(c, s, acts)
    ensures Digger.Run(c.dig, s.d, Digs(acts)) && Digger.After(c.dig, s.d, Digs(acts)) == After(c, s, acts).d
    decreases |acts|
  {
    if acts != [] {
      var a := acts[0];
      DiggerRuns(c, Apply(c, s, a), acts[1..]);
      if DiggerPart(a) == [] {
        assert Digs(acts) == Digs(acts[1..]);
      } else {
        DiggerPrepends(c.dig, s.d, DiggerPart(a)[0], Digs(acts[1..]));
        assert Digs(acts) == [DiggerPart(a)[0]] + Digs(acts[1..]);
      }
    }
  }

  /** The channel only grows, and not at all once it is closed. */
  lemma {:induction false} SentGrows(c: Config, s: State, acts: seq<Action>)
    requires ValidConfig(c) && Run(c, s, acts)
    ensures s.d.news.sent <= After(c, s, acts).d.news.sent
    ensures s.d.news.closed ==> After(c, s, acts).d.news.closed && After(c, s, acts).d.news.sent == s.d.news.sent
    decreases |acts|
  {
    if acts != [] {
      SentGrows(c, Apply(c, s, acts[0]), acts[1..]);
    }
  }

  /** Apart from its end, the verifier does not notice how much of its input is there already. */
  lemma MoreInput(c: Pipeline.Config, c': Pipeline.Config, s: Pipeline.State, a: Pipeline.Action)
    requires c.size == c'.size && c.oracle == c'.oracle && c.input <= c'.input
    requires Pipeline.Enabled(c, s, a) && (a.EndOfInput? ==> c.input == c'.input)
    ensures Pipeline.Enabled(c', s, a) && Pipeline.Apply(c', s, a) == Pipeline.Apply(c, s, a)
  {
    if a.EndOfInput? {
      assert c == c';
    } else if a.Take? {
      TakeMore(c, c', s);
    } else {
      EnabledMore(c, c', s, a);
    }
  }

  lemma TakeMore(c: Pipeline.Config, c': Pipeline.Config, s: Pipeline.State)
    requires c.size == c'.size && c.oracle == c'.oracle && c.input <= c'.input
    requires Pipeline.Enabled(c, s, Pipeline.Take)
    ensures Pipeline.Enabled(c', s, Pipeline.Take)
    ensures Pipeline.Apply(c', s, Pipeline.Take) == Pipeline.Apply(c, s, Pipeline.Take)
  {
    assert c.input[s.taken] == c'.input[s.taken];
  }

  lemma EnabledMore(c: Pipeline.Config, c': Pipeline.Config, s: Pipeline.State, a: Pipeline.Action)
    requires c.size == c'.size && c.oracle == c'.oracle && !a.Take? && !a.EndOfInput?
    requires Pipeline.Enabled(c, s, a)
    ensures Pipeline.Enabled(c', s, a) && Pipeline.Apply(c', s, a) == Pipeline.Apply(c, s, a)
  {
    assert Pipeline.InputEnabled(c', s, a) == Pipeline.InputEnabled(c, s, a);
    assert Pipeline.VerdictEnabled(c', s, a) == Pipeline.VerdictEnabled(c, s, a);
    assert Pipeline.WorkerEnabled(c', s, a) == Pipeline.WorkerEnabled(c, s, a);
  }

  /** The verifier's side of a joint run is a run of the verifier on whatever the digger sends in the end. */
  lemma {:induction false} VerifierRuns(c: Config, s: State, acts: seq<Action>)
    requires ValidConfig(c) && Run(c, s, acts)
    ensures var input := Input(c, After(c, s, acts));
            && Pipeline.Run(input, s.v, Verifies(acts))
            && Pipeline.After(input, s.v, Verifies(acts)) == After(c, s, acts).v
    decreases |acts|
  {
    if acts != [] {
      var a, input := acts[0], Input(c, After(c, s, acts));
      VerifierRuns(c, Apply(c, s, a), acts[1..]);
      if VerifierPart(a) == [] {
        assert Verifies(acts) == Verifies(acts[1..]);
      } else {
        var v := VerifierPart(a)[0];
        SentGrows(c, s, acts);
        MoreInput(Input(c, s), input, s.v, v);
        VerifierPrepends(input, s.v, v, Verifies(acts[1..]));
        assert Verifies(acts) == [v] + Verifies(acts[1..]);
      }
    }
  }
}
