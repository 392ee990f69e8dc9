/** The pinger on its own: what it puts on its verdict channel and how a ping's replies decide. */
module Ping {
  import opened Types

  /** What became of a ping: it never ran, it broke off with an error, or it collected replies. */
  datatype PingOutcome = NotRun | Broken | Replies(recv: nat)

  /** The replies a ping needs at least; the division rounds down. */
  function Needed(count: nat, threshold: nat): nat
  {
    count * threshold / 100
  }

  function Decision(count: nat, threshold: nat, outcome: PingOutcome): (q: Quality)
    ensures q.Terminal()
  {
    if outcome.Replies? && outcome.recv >= Needed(count, threshold) then Verified else Invalid
  }

  /** Verified takes replies, and all but less than one of the share of them that is asked for; the rest is invalid. */
  predicate Judges(q: Quality, count: nat, threshold: nat, outcome: PingOutcome)
  {
    if outcome.Replies? && 100 * outcome.recv > count * threshold - 100 then q == Verified else q == Invalid
  }

  /** The jobs' verdicts, in the order in which the jobs are run. */
  function Reports(count: nat, threshold: nat, jobs: seq<QualifiedAddress>,
                   outcomes: seq<PingOutcome>): (r: seq<QualifiedAddress>)
    requires |jobs| == |outcomes|
    ensures |r| == |jobs|
    ensures forall i :: 0 <= i < |r| ==> r[i] == jobs[i].WithNewQuality(Decision(count, threshold, outcomes[i]))
    ensures forall i :: 0 <= i < |r| ==> Judges(r[i].Qual(), count, threshold, outcomes[i])
  {
    seq(|jobs|, i requires 0 <= i < |jobs| => jobs[i].WithNewQuality(Decision(count, threshold, outcomes[i])))
  }

  function Verifyings(addrs: seq<QualifiedAddress>): (r: seq<QualifiedAddress>)
    ensures |r| == |addrs|
    ensures forall i :: 0 <= i < |r| ==> r[i] == addrs[i].WithNewQuality(Verifying)
  {
    seq(|addrs|, i requires 0 <= i < |addrs| => addrs[i].WithNewQuality(Verifying))
  }

  class Pinger {
    var count: nat
    var threshold: nat
    var courtTV: seq<QualifiedAddress>
    var queue: seq<QualifiedAddress>
    var closed: bool

    constructor ()
      ensures count == 3 && threshold == 50
      ensures courtTV == [] && queue == [] && !closed
    {
      count, threshold := 3, 50;
      courtTV, queue, closed := [], [], false;
    }

    method WithCount(n: nat)
      modifies this`count
      ensures count == n
    {
      count := n;
    }

    /** Refuses percentages above 100: `panics` says that the option would panic instead. */
    method WithThresholdPercentage(t: nat) returns (panics: bool)
      modifies this`threshold
      ensures panics <==> t > 100
      ensures threshold == if panics then old(threshold) else t
    {
      panics := t > 100;
      if !panics {
        threshold := t;
      }
    }

    /**
     Announces the address and enqueues its ping; under a done context the announcement and the ping may both be
     dropped.
     */
    method Validate(addr: QualifiedAddress, contextDone: bool) returns (submitted: bool)
      requires !closed
      modifies this`courtTV, this`queue
      ensures !contextDone ==> submitted
      ensures submitted ==> courtTV == old(courtTV) + [addr.WithNewQuality(Verifying)]
                            && queue == old(queue) + [addr.WithNewQuality(Verifying)]
      ensures !submitted ==> courtTV == old(courtTV) && queue == old(queue)
    {
      var verdict := addr.WithNewQuality(Verifying);
      var doneWins: bool := *;
      if contextDone && doneWins {
        return false;
      }
      courtTV := courtTV + [verdict];
      queue := queue + [verdict];
      return true;
    }

    /**
     Validates a stream until it ends or the context is done, which happens before item `doneAt` is read.
     Everything before that is announced and enqueued; of the rest `kept` says what still is, in order.
     */
    method ValidateStreamContext(ch: seq<QualifiedAddress>, doneAt: nat) returns (kept: seq<bool>)
      requires !closed
      modifies this`courtTV, this`queue
      ensures |kept| <= |ch| && (|kept| < |ch| ==> doneAt <= |kept|)
      ensures forall i :: 0 <= i < |kept| && i < doneAt ==> kept[i]
      ensures courtTV == old(courtTV) + Chosen(Verifyings(ch), kept)
      ensures queue == old(queue) + Chosen(Verifyings(ch), kept)
    {
      kept := [];
      ghost var all := Verifyings(ch);
      while |kept| < |ch|
        invariant |kept| <= |ch| && forall i :: 0 <= i < |kept| && i < doneAt ==> kept[i]
        invariant courtTV == old(courtTV) + Chosen(all, kept)
        invariant queue == old(queue) + Chosen(all, kept)
      {
        var i := |kept|;
        var doneWins: bool := *;
        if doneAt <= i && doneWins {
          return;
        }
        var submitted := Validate(ch[i], doneAt <= i);
        ChosenMore(all, kept, submitted);
        kept := kept + [submitted];
      }
    }

    /** The same without a context, or with one that is never done. */
    method ValidateStream(ch: seq<QualifiedAddress>)
      requires !closed
      modifies this`courtTV, this`queue
      ensures courtTV == old(courtTV) + Verifyings(ch) && queue == old(queue) + Verifyings(ch)
    {
      var kept := ValidateStreamContext(ch, |ch|);
      ChosenAll(Verifyings(ch), kept);
    }

    /**
     One worker's job: invalid unless the replies say otherwise; an error keeps the quality reached so far. The
     report itself may be dropped under a done context.
     */
    method Job(subject: QualifiedAddress, outcome: PingOutcome, namespaceError: bool, contextDone: bool)
      returns (reported: bool)
      requires !closed
      modifies this`courtTV
      ensures !contextDone ==> reported
      ensures courtTV == old(courtTV) +
              if reported then [subject.WithNewQuality(Decision(count, threshold, outcome))] else []
      ensures reported ==> Judges(courtTV[|courtTV| - 1].Qual(), count, threshold, outcome)
    {
      var verdict := subject.WithNewQuality(Invalid);
      var failed := namespaceError;
      if outcome.Replies? {
        if outcome.recv < count * threshold / 100 {
          failed := true;
        } else {
          verdict := verdict.WithNewQuality(Verified);
        }
      } else {
        failed := true;
      }
      if failed {
        verdict := verdict.WithNewQuality(verdict.Qual());
      }
      var doneWins: bool := *;
      reported := !(contextDone && doneWins);
      if reported {
        courtTV := courtTV + [verdict];
      }
    }

    /**
     Runs all queued pings and closes the verdict channel; stopping again does nothing. Reports are lost only by
     jobs whose context is done.
     */
    method StopWait(outcomes: seq<PingOutcome>, contextDone: nat -> bool) returns (reported: seq<bool>)
      requires !closed ==> |outcomes| == |queue|
      modifies this
      ensures closed && count == old(count) && threshold == old(threshold)
      ensures old(closed) ==> queue == old(queue) && courtTV == old(courtTV)
      ensures !old(closed) ==> queue == [] && |reported| == |old(queue)|
      ensures !old(closed) ==> forall i :: 0 <= i < |reported| && !contextDone(i) ==> reported[i]
      ensures !old(closed) ==>
              courtTV == old(courtTV) + Chosen(Reports(count, threshold, old(queue), outcomes), reported)
      ensures !old(closed) && (forall i :: 0 <= i < |reported| ==> !contextDone(i)) ==>
              courtTV == old(courtTV) + Reports(count, threshold, old(queue), outcomes)
    {
      reported := [];
      if closed {
        return;
      }
      var todo := queue;
      ghost var reports := Reports(count, threshold, todo, outcomes);
      while |reported| < |todo|
        invariant |reported| <= |todo| && !closed
        invariant count == old(count) && threshold == old(threshold)
        invariant forall i :: 0 <= i < |reported| && !contextDone(i) ==> reported[i]
        invariant courtTV == old(courtTV) + Chosen(reports, reported)
      {
        var i := |reported|;
        var r := Job(todo[i], outcomes[i], false, contextDone(i));
        ChosenMore(reports, reported, r);
        reported := reported + [r];
      }
      if forall i :: 0 <= i < |reported| ==> reported[i] {
        ChosenAll(reports, reported);
      }
      queue, closed := [], true;
    }
  }

  /** The elements to keep, as far as that was decided. */
  function Chosen<T>(s: seq<T>, keep: seq<bool>): seq<T>
    requires |keep| <= |s|
  {
    if keep == [] then []
    else
      var n := |keep| - 1;
      Chosen(s, keep[..n]) + if keep[n] then [s[n]] else []
  }

  lemma ChosenMore<T>(s: seq<T>, keep: seq<bool>, k: bool)
    requires |keep| < |s|
    ensures Chosen(s, keep + [k]) == Chosen(s, keep) + if k then [s[|keep|]] else []
  {
    assert (keep + [k])[..|keep|] == keep;
  }

  lemma {:induction false} ChosenPrefix<T>(s: seq<T>, keep: seq<bool>)
    requires |keep| <= |s| && forall i :: 0 <= i < |keep| ==> keep[i]
    ensures Chosen(s, keep) == s[..|keep|]
  {
    if keep != [] {
      ChosenPrefix(s, keep[..|keep| - 1]);
    }
  }

  /** Choosing everything is no choice. */
  lemma ChosenAll<T>(s: seq<T>, keep: seq<bool>)
    requires |keep| == |s| && forall i :: 0 <= i < |keep| ==> keep[i]
    ensures Chosen(s, keep) == s
  {
    ChosenPrefix(s, keep);
  }

  // ---------------------------------------------------------------- the arithmetic of the threshold

  /** The rounded comparison without its division; a ping without replies is always invalid. */
  lemma DecisionMeans(count: nat, threshold: nat, outcome: PingOutcome)
    ensures Decision(count, threshold, outcome) == Verified <==>
            outcome.Replies? && 100 * outcome.recv > count * threshold - 100
    ensures Decision(count, threshold, outcome) == Invalid <==>
            (outcome.Replies? ==> 100 * outcome.recv + 100 <= count * threshold)
  {
  }

  /** More replies never hurt and a higher threshold never helps. */
  lemma DecisionIsMonotone(count: nat, threshold: nat, higher: nat, recv: nat, more: nat)
    requires threshold <= higher && recv <= more
    ensures Decision(count, higher, Replies(recv)).Rank() <= Decision(count, threshold, Replies(more)).Rank()
  {
    assert count * threshold <= count * higher;
  }

  /** At 100 percent every reply counts, at 0 percent none is needed. */
  lemma ExtremeThresholds(count: nat, recv: nat)
    ensures Decision(count, 100, Replies(recv)) == Verified <==> recv >= count
    ensures Decision(count, 0, Replies(recv)) == Verified
  {
  }

  /** The documented rule: invalid if the percentage of replies does not reach the threshold. */
  function Documented(count: nat, threshold: nat, recv: nat): Quality
  {
    if 100 * recv < count * threshold then Invalid else Verified
  }

  /** The rounding makes the defaults accept one reply in three, which is short of 50 percent. */
  lemma DefaultsAreLenient()
    ensures Decision(3, 50, Replies(1)) == Verified && Documented(3, 50, 1) == Invalid
  {
  }

  /** The code follows its documentation for every number of replies exactly if the division has no remainder. */
  lemma DocumentedExactlyWithoutRemainder(count: nat, threshold: nat)
    requires threshold <= 100
    ensures (forall recv: nat :: recv <= count ==>
            Decision(count, threshold, Replies(recv)) == Documented(count, threshold, recv)) <==>
            count * threshold % 100 == 0
  {
    var needed := Needed(count, threshold);
    if count * threshold % 100 == 0 {
      forall recv: nat
        ensures Decision(count, threshold, Replies(recv)) == Documented(count, threshold, recv)
      {
        AgreesExactly(count, threshold, recv);
      }
    } else {
      AgreesExactly(count, threshold, needed);
      NeededIsPossible(count, threshold);
    }
  }

  lemma AgreesExactly(count: nat, threshold: nat, recv: nat)
    ensures Decision(count, threshold, Replies(recv)) == Documented(count, threshold, recv) <==>
            !(recv == Needed(count, threshold) && count * threshold % 100 != 0)
  {
    RoundingAccepts(count * threshold, recv);
  }

  /** Rounding makes a difference for one number of replies at most, and only if there is a remainder. */
  lemma RoundingAccepts(p: nat, recv: nat)
    ensures p / 100 <= recv && 100 * recv < p <==> recv == p / 100 && p % 100 != 0
    ensures p / 100 > recv ==> 100 * recv < p
  {
  }

  lemma NeededIsPossible(count: nat, threshold: nat)
    requires threshold <= 100
    ensures Needed(count, threshold) <= count
  {
    assert count * threshold <= count * 100;
    RoundedIsBelow(count * threshold, count);
  }

  lemma RoundedIsBelow(p: nat, count: nat)
    requires p <= count * 100
    ensures p / 100 <= count
  {
  }
}
