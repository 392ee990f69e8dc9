/** The digger on its own: what it puts on its news channel when its resolver tasks run one after the other. */
module Digging {
  import opened Types
  import opened Names
  import Digger

  function AnnouncementsOf(names: seq<string>): (r: seq<NamedAddress>)
    ensures |r| == |names| && forall i :: 0 <= i < |r| ==> r[i] == Digger.Announcement(names[i])
  {
    seq(|names|, i requires 0 <= i < |names| => Digger.Announcement(names[i]))
  }

  /** The message announces the name, with its root dot and without an address. */
  predicate Announces(na: NamedAddress, name: string)
  {
    && (na.name == name || na.name == name + ".") && na.name != "" && na.name[|na.name| - 1] == '.'
    && na.addr == "" && na.qual == Unverified
  }

  /** On top of what was there before, the first `n` names were announced. */
  ghost predicate AllAnnounced(before: seq<NamedAddress>, after: seq<NamedAddress>, names: seq<string>, n: nat)
    requires n <= |names|
  {
    && |after| == |before| + n && before <= after
    && forall k :: 0 <= k < n ==> Announces(after[|before| + k], names[k])
  }

  lemma AnnouncementsAnnounce(before: seq<NamedAddress>, after: seq<NamedAddress>, names: seq<string>, n: nat)
    requires n <= |names| && after == before + AnnouncementsOf(names[..n])
    ensures AllAnnounced(before, after, names, n)
  {
    forall k | 0 <= k < n
      ensures Announces(after[|before| + k], names[k])
    {
      FqdnMeans(names[k]);
      assert after[|before| + k] == AnnouncementsOf(names[..n])[k] == Digger.Announcement(names[k]);
    }
  }

  function AllFindings(names: seq<string>, answers: seq<seq<string>>): seq<NamedAddress>
    requires |answers| == |names|
  {
    if names == [] then []
    else
      var n := |names| - 1;
      AllFindings(names[..n], answers[..n]) + Digger.Findings(names[n], answers[n])
  }

  class NameDigger {
    var news: seq<NamedAddress>
    var queue: seq<string>
    var closed: bool

    constructor ()
      ensures news == [] && queue == [] && !closed
    {
      news, queue, closed := [], [], false;
    }

    /**
     Announces each name and enqueues its resolution. The context is done before name `doneAt`; from there on
     the announcement may lose, which ends the digging. The first `n` names are dug.
     */
    method DigFQDNs(names: seq<string>, doneAt: nat) returns (n: nat)
      requires !closed
      modifies this`news, this`queue
      ensures n <= |names| && (n < |names| ==> doneAt <= n)
      ensures news == old(news) + AnnouncementsOf(names[..n])
      ensures queue == old(queue) + names[..n]
      ensures AllAnnounced(old(news), news, names, n)
    {
      n := 0;
      while n < |names|
        invariant n <= |names|
        invariant news == old(news) + AnnouncementsOf(names[..n])
        invariant queue == old(queue) + names[..n]
      {
        var doneWins: bool := *;
        if doneAt <= n && doneWins {
          break;
        }
        assert AnnouncementsOf(names[..n + 1]) == AnnouncementsOf(names[..n]) + [Digger.Announcement(names[n])];
        news := news + [Digger.Announcement(names[n])];
        queue := queue + [names[n]];
        n := n + 1;
      }
      AnnouncementsAnnounce(old(news), news, names, n);
    }

    /** Announces and digs all names on the given networks, or the first `n` of them if the context is done. */
    method DigNetworks(nets: seq<DockerNetwork>, doneAt: nat) returns (names: seq<string>, n: nat)
      requires !closed
      modifies this`news, this`queue
      ensures BuiltFrom(names, nets)
      ensures n <= |names| && (n < |names| ==> doneAt <= n)
      ensures news == old(news) + AnnouncementsOf(names[..n]) && queue == old(queue) + names[..n]
    {
      names := AllFQDNsOnAttachedNetworks(nets);
      n := DigFQDNs(names, doneAt);
    }

    /**
     Runs the queued resolutions to their end and closes the news. Each sends all of its addresses, or the first
     few of them if its context is done.
     */
    method StopWait(answers: seq<seq<string>>, contextDone: nat -> bool) returns (sent: seq<nat>)
      requires !closed && |answers| == |queue|
      modifies this
      ensures closed && queue == []
      ensures |sent| == |answers| && Fits(answers, sent)
      ensures forall i :: 0 <= i < |sent| && !contextDone(i) ==> sent[i] == |answers[i]|
      ensures news == old(news) + SentFindings(old(queue), answers, sent)
    {
      sent := [];
      var todo := queue;
      while |sent| < |todo|
        invariant |sent| <= |todo| && Fits(answers, sent)
        invariant forall i :: 0 <= i < |sent| && !contextDone(i) ==> sent[i] == |answers[i]|
        invariant news == old(news) + SentFindings(todo, answers, sent)
      {
        var i := |sent|;
        var k := Found(todo[i], answers[i], contextDone(i));
        SentMore(todo, answers, sent, k);
        sent := sent + [k];
      }
      queue, closed := [], true;
    }

    /** The callback of one resolution: under a done context any send may lose, which ends it. */
    method Found(name: string, addrs: seq<string>, contextDone: bool) returns (k: nat)
      modifies this`news
      ensures k <= |addrs| && (!contextDone ==> k == |addrs|)
      ensures news == old(news) + Digger.Findings(name, addrs[..k])
    {
      k := 0;
      while k < |addrs|
        invariant k <= |addrs|
        invariant news == old(news) + Digger.Findings(name, addrs[..k])
      {
        var doneWins: bool := *;
        if contextDone && doneWins {
          return;
        }
        assert Digger.Findings(name, addrs[..k + 1]) ==
               Digger.Findings(name, addrs[..k]) + [Digger.Finding(name, addrs[k])];
        news := news + [Digger.Finding(name, addrs[k])];
        k := k + 1;
      }
    }
  }

  predicate Fits(answers: seq<seq<string>>, sent: seq<nat>)
  {
    |sent| <= |answers| && forall i :: 0 <= i < |sent| ==> sent[i] <= |answers[i]|
  }

  /** The first `sent[i]` findings of each of the first resolutions. */
  function SentFindings(names: seq<string>, answers: seq<seq<string>>, sent: seq<nat>): seq<NamedAddress>
    requires |answers| == |names| && Fits(answers, sent)
  {
    if sent == [] then []
    else
      var n := |sent| - 1;
      SentFindings(names, answers, sent[..n]) + Digger.Findings(names[n], answers[n][..sent[n]])
  }

  lemma SentMore(names: seq<string>, answers: seq<seq<string>>, sent: seq<nat>, k: nat)
    requires |answers| == |names| && |sent| < |names| && Fits(answers, sent) && k <= |answers[|sent|]|
    ensures Fits(answers, sent + [k])
    ensures SentFindings(names, answers, sent + [k]) ==
            SentFindings(names, answers, sent) + Digger.Findings(names[|sent|], answers[|sent|][..k])
  {
    assert (sent + [k])[..|sent|] == sent;
  }

  /** With all of every answer sent, these are all findings. */
  lemma {:induction false} SentInFull(names: seq<string>, answers: seq<seq<string>>, sent: seq<nat>)
    requires |answers| == |names| && Fits(answers, sent) && forall i :: 0 <= i < |sent| ==> sent[i] == |answers[i]|
    ensures SentFindings(names, answers, sent) == AllFindings(names[..|sent|], answers[..|sent|])
  {
    if sent != [] {
      var n := |sent| - 1;
      SentInFull(names, answers, sent[..n]);
      assert names[..n + 1][..n] == names[..n] && answers[..n + 1][..n] == answers[..n];
      assert answers[n][..sent[n]] == answers[n];
    }
  }

  /** What the state machine has to send for the last name comes on top of what it has to send for the others. */
  lemma CompleteMore(c: Digger.Config, fewer: Digger.Config)
    requires Digger.ValidConfig(c) && c.names != []
    requires fewer == Digger.Config(c.names[..|c.names| - 1], c.answers[..|c.names| - 1], c.size)
    ensures var n := |c.names| - 1;
            Digger.Flat(Digger.Complete(c)) ==
            Digger.Flat(Digger.Complete(fewer))
                + ([Digger.Announcement(c.names[n])] + Digger.Findings(c.names[n], c.answers[n]))
  {
    var n := |c.names| - 1;
    assert Digger.Complete(c)[..n] == Digger.Complete(fewer);
  }

  lemma Regroup(a: seq<NamedAddress>, b: seq<NamedAddress>, flat: seq<NamedAddress>, x: NamedAddress,
                more: seq<NamedAddress>)
    requires multiset(a + b) == multiset(flat)
    ensures multiset((a + [x]) + (b + more)) == multiset(flat + ([x] + more))
  {
    assert multiset((a + [x]) + (b + more)) == multiset(a + b) + multiset([x] + more);
  }

  lemma AnnouncementsMore(names: seq<string>)
    requires names != []
    ensures AnnouncementsOf(names) == AnnouncementsOf(names[..|names| - 1]) + [Digger.Announcement(names[|names| - 1])]
  {
  }

  lemma {:induction false} OneAfterTheOther(names: seq<string>, answers: seq<seq<string>>, size: nat)
    requires |answers| == |names| && size >= 1
    ensures multiset(AnnouncementsOf(names) + AllFindings(names, answers)) ==
            multiset(Digger.Flat(Digger.Complete(Digger.Config(names, answers, size))))
  {
    if names == [] {
      assert AnnouncementsOf(names) + AllFindings(names, answers) == [];
    } else {
      var n := |names| - 1;
      var fewer := Digger.Config(names[..n], answers[..n], size);
      OneAfterTheOther(names[..n], answers[..n], size);
      CompleteMore(Digger.Config(names, answers, size), fewer);
      AnnouncementsMore(names);
      Regroup(AnnouncementsOf(names[..n]), AllFindings(names[..n], answers[..n]), Digger.Flat(Digger.Complete(fewer)),
              Digger.Announcement(names[n]), Digger.Findings(names[n], answers[n]));
    }
  }

  /**
   Concurrent resolvers send just what resolvers running one after the other do: every complete uncancelled
   run of the digger is a permutation of what `DigFQDNs` and a `StopWait` that sends every answer in full put on
   the channel.
   */
  lemma ConcurrencyOnlyPermutes(names: seq<string>, answers: seq<seq<string>>, sent: seq<nat>, size: nat,
                                acts: seq<Digger.Action>)
    requires |answers| == |names| && size >= 1
    requires |sent| == |answers| && Fits(answers, sent) && forall i :: 0 <= i < |sent| ==> sent[i] == |answers[i]|
    requires var c := Digger.Config(names, answers, size);
             && Digger.Run(c, Digger.Init(), acts)
             && Digger.After(c, Digger.Init(), acts).pc.Closed? && !Digger.After(c, Digger.Init(), acts).cancelled
    ensures var c := Digger.Config(names, answers, size);
            multiset(Digger.After(c, Digger.Init(), acts).news.sent) ==
            multiset(AnnouncementsOf(names) + SentFindings(names, answers, sent))
  {
    Digger.EverythingIsSent(Digger.Config(names, answers, size), acts);
    OneAfterTheOther(names, answers, size);
    SentInFull(names, answers, sent);
    assert names[..|sent|] == names && answers[..|sent|] == answers;
  }
}
