/**
 The digger as a state machine: the loop that announces and submits names, the resolver tasks that stream
 what they found, and the reader of the news.
 */
module Digger {
  import opened Types
  import opened Names
  import Pipeline
  import opened PipelineStream

  /** The names to dig, what resolving each of them comes to, and the size of the channel buffer and of the pool. */
  datatype Config = Config(names: seq<string>, answers: seq<seq<string>>, size: nat)

  predicate ValidConfig(c: Config)
  {
    |c.answers| == |c.names| && c.size >= 1
  }

  /** A resolver task and how many of its addresses it has sent. */
  datatype Task = Queued | Sending(sent: nat) | Over(sent: nat)

  datatype Pc = Announcing | Submitting | Returned | Closed

  /** The first `announced` names have been announced. */
  datatype State = State(
    announced: nat,
    pc: Pc,
    tasks: seq<Task>,
    news: Pipeline.Chan<NamedAddress>,
    cancelled: bool,
    panicked: bool)

  datatype Action =
    | Announce | Submit | Return | Quit | Close
    | Begin(i: nat) | Send(i: nat) | End(i: nat) | DropRest(i: nat)
    | Read | Cancel

  function Init(): State
  {
    State(0, Announcing, [], Pipeline.Chan([], 0, false), false, false)
  }

  function Announcement(name: string): NamedAddress
  {
    NA(Fqdn(name), "", Unverified)
  }

  function Finding(name: string, addr: string): NamedAddress
  {
    NA(Fqdn(name), addr, Unverified)
  }

  predicate AllOver(tasks: seq<Task>)
  {
    forall i :: 0 <= i < |tasks| ==> tasks[i].Over?
  }

  /** How many workers are occupied. */
  function Occupied(tasks: seq<Task>): nat
  {
    if tasks == [] then 0 else Occupied(tasks[..|tasks| - 1]) + if tasks[|tasks| - 1].Sending? then 1 else 0
  }

  predicate Enabled(c: Config, s: State, a: Action)
    requires ValidConfig(c)
  {
    !s.panicked &&
    match a
    case Announce => s.pc.Announcing? && s.announced < |c.names| && s.news.Ready(c.size)
    case Submit => s.pc.Submitting?
    case Return => s.pc.Announcing? && s.announced >= |c.names|
    case Quit => s.cancelled && s.pc.Announcing?
    case Close => s.pc.Returned? && AllOver(s.tasks)
    case Begin(i) => i < |s.tasks| && s.tasks[i].Queued? && Occupied(s.tasks) < c.size
    case Send(i) => i < |s.tasks| && i < |c.names| && s.tasks[i].Sending? && s.tasks[i].sent < |c.answers[i]|
        && s.news.Ready(c.size)
    case End(i) => i < |s.tasks| && i < |c.names| && s.tasks[i].Sending? && s.tasks[i].sent >= |c.answers[i]|
    case DropRest(i) => s.cancelled && i < |s.tasks| && s.tasks[i].Sending?
    case Read => !s.news.Drained()
    case Cancel => !s.cancelled
  }

  function Publish(s: State, na: NamedAddress): State
  {
    if s.news.closed then s.(panicked := true) else s.(news := s.news.Sent(na))
  }

  function Apply(c: Config, s: State, a: Action): State
    requires ValidConfig(c) && Enabled(c, s, a)
  {
    match a
    case Announce => Publish(s, Announcement(c.names[s.announced])).(announced := s.announced + 1, pc := Submitting)
    case Submit => s.(tasks := s.tasks + [Queued], pc := Announcing)
    case Return => s.(pc := Returned)
    case Quit => s.(pc := Returned)
    case Close => s.(news := s.news.(closed := true), pc := Closed)
    case Begin(i) => s.(tasks := s.tasks[i := Sending(0)])
    case Send(i) =>
      Publish(s, Finding(c.names[i], c.answers[i][s.tasks[i].sent]))
        .(tasks := s.tasks[i := Sending(s.tasks[i].sent + 1)])
    case End(i) => s.(tasks := s.tasks[i := Over(s.tasks[i].sent)])
    case DropRest(i) => s.(tasks := s.tasks[i := Over(s.tasks[i].sent)])
    case Read => s.(news := s.news.(taken := s.news.taken + 1))
    case Cancel => s.(cancelled := true)
  }

  ghost predicate Run(c: Config, s: State, acts: seq<Action>)
    requires ValidConfig(c)
    decreases |acts|
  {
    acts == [] || (Enabled(c, s, acts[0]) && Run(c, Apply(c, s, acts[0]), acts[1..]))
  }

  ghost function After(c: Config, s: State, acts: seq<Action>): State
    requires ValidConfig(c) && Run(c, s, acts)
    decreases |acts|
  {
    if acts == [] then s else After(c, Apply(c, s, acts[0]), acts[1..])
  }

  // ---------------------------------------------------------------- the invariant

  ghost predicate Inv(c: Config, s: State)
    requires ValidConfig(c)
  {
    && s.announced <= |c.names|
    && |s.tasks| + (if s.pc.Submitting? then 1 else 0) == s.announced
    && (forall i :: 0 <= i < |s.tasks| && !s.tasks[i].Queued? ==> s.tasks[i].sent <= |c.answers[i]|)
    && (s.news.closed <==> s.pc.Closed?)
    && (s.pc.Closed? ==> AllOver(s.tasks))
    && (!s.cancelled && (s.pc.Returned? || s.pc.Closed?) ==> s.announced == |c.names|)
    && (!s.cancelled ==> forall i :: 0 <= i < |s.tasks| && s.tasks[i].Over? ==> s.tasks[i].sent == |c.answers[i]|)
    && !s.panicked
  }

  lemma InvStep(c: Config, s: State, a: Action)
    requires ValidConfig(c) && Inv(c, s) && Enabled(c, s, a)
    ensures Inv(c, Apply(c, s, a))
  {
  }

  // ---------------------------------------------------------------- announcements come first

  ghost predicate NamesAnnounced(c: Config, s: State)
    requires ValidConfig(c)
  {
    && AnnouncedFirst(s.news.sent)
    && s.announced <= |c.names|
    && forall i :: 0 <= i < s.announced ==> Announced(s.news.sent, Fqdn(c.names[i]))
  }

  lemma PublishKeepsAnnounced(c: Config, s: State, na: NamedAddress)
    requires ValidConfig(c) && NamesAnnounced(c, s) && (na.Bare() || Announced(s.news.sent, na.name))
    ensures AnnouncedFirst(s.news.sent + [na])
    ensures forall i :: 0 <= i < s.announced ==> Announced(s.news.sent + [na], Fqdn(c.names[i]))
    ensures na.Bare() ==> Announced(s.news.sent + [na], na.name)
  {
    AnnouncedFirstExtends(s.news.sent, na);
    forall i | 0 <= i < s.announced
      ensures Announced(s.news.sent + [na], Fqdn(c.names[i]))
    {
      StaysAnnounced(s.news.sent, na, Fqdn(c.names[i]));
    }
    assert (s.news.sent + [na])[|s.news.sent|] == na;
  }

  lemma AnnouncedStep(c: Config, s: State, a: Action)
    requires ValidConfig(c) && Inv(c, s) && NamesAnnounced(c, s) && Enabled(c, s, a)
    ensures NamesAnnounced(c, Apply(c, s, a))
  {
    if a.Announce? {
      PublishKeepsAnnounced(c, s, Announcement(c.names[s.announced]));
    } else if a.Send? {
      PublishKeepsAnnounced(c, s, Finding(c.names[a.i], c.answers[a.i][s.tasks[a.i].sent]));
    }
  }

  // ---------------------------------------------------------------- nothing is lost or made up

  function Flat(shares: seq<seq<NamedAddress>>): seq<NamedAddress>
  {
    if shares == [] then [] else Flat(shares[..|shares| - 1]) + shares[|shares| - 1]
  }

  /** The messages about the addresses found for a name. */
  function Findings(name: string, addrs: seq<string>): (r: seq<NamedAddress>)
    ensures |r| == |addrs| && forall k :: 0 <= k < |r| ==> r[k] == Finding(name, addrs[k])
  {
    seq(|addrs|, k requires 0 <= k < |addrs| => Finding(name, addrs[k]))
  }

  function SentBy(s: State, i: nat): nat
  {
    if i < |s.tasks| && !s.tasks[i].Queued? then s.tasks[i].sent else 0
  }

  /** What has been sent on behalf of the i-th name. */
  function Share(c: Config, s: State, i: nat): seq<NamedAddress>
    requires ValidConfig(c) && i < |c.names|
  {
    if i < s.announced && SentBy(s, i) <= |c.answers[i]| then
      [Announcement(c.names[i])] + Findings(c.names[i], c.answers[i][..SentBy(s, i)])
    else []
  }

  function Shares(c: Config, s: State): (r: seq<seq<NamedAddress>>)
    requires ValidConfig(c)
    ensures |r| == |c.names| && forall i :: 0 <= i < |r| ==> r[i] == Share(c, s, i)
  {
    seq(|c.names|, i requires 0 <= i < |c.names| => Share(c, s, i))
  }

  /** All there is to send: for each name its announcement and its addresses. */
  function Complete(c: Config): (r: seq<seq<NamedAddress>>)
    requires ValidConfig(c)
    ensures |r| == |c.names|
    ensures forall i :: 0 <= i < |r| ==> r[i] == [Announcement(c.names[i])] + Findings(c.names[i], c.answers[i])
  {
    seq(|c.names|, i requires 0 <= i < |c.names| => [Announcement(c.names[i])] + Findings(c.names[i], c.answers[i]))
  }

  lemma {:induction false} ShareGrows(shares: seq<seq<NamedAddress>>, i: nat, na: NamedAddress)
    requires i < |shares|
    ensures multiset(Flat(shares[i := shares[i] + [na]])) == multiset(Flat(shares)) + multiset{na}
  {
    var n := |shares| - 1;
    var more := shares[i := shares[i] + [na]];
    if i == n {
      assert more[..n] == shares[..n];
      assert Flat(more) == Flat(shares) + [na];
    } else {
      assert more[..n] == shares[..n][i := shares[..n][i] + [na]];
      ShareGrows(shares[..n], i, na);
    }
  }

  lemma GrownShare(c: Config, s: State, s': State, i: nat, na: NamedAddress)
    requires ValidConfig(c) && i < |c.names|
    requires Share(c, s', i) == Share(c, s, i) + [na]
    requires forall j :: 0 <= j < |c.names| && j != i ==> Share(c, s', j) == Share(c, s, j)
    requires multiset(s.news.sent) == multiset(Flat(Shares(c, s))) && s'.news.sent == s.news.sent + [na]
    ensures multiset(s'.news.sent) == multiset(Flat(Shares(c, s')))
  {
    assert Shares(c, s') == Shares(c, s)[i := Shares(c, s)[i] + [na]];
    ShareGrows(Shares(c, s), i, na);
  }

  /** An announcement begins its name's share and changes no other. */
  lemma AnnounceShares(c: Config, s: State)
    requires ValidConfig(c) && Inv(c, s) && Enabled(c, s, Announce)
    ensures var s', i := Apply(c, s, Announce), s.announced;
            && Share(c, s', i) == Share(c, s, i) + [Announcement(c.names[i])]
            && forall j :: 0 <= j < |c.names| && j != i ==> Share(c, s', j) == Share(c, s, j)
  {
    assert forall j :: SentBy(Apply(c, s, Announce), j) == SentBy(s, j);
  }

  lemma AccountedAnnounce(c: Config, s: State)
    requires ValidConfig(c) && Inv(c, s) && Enabled(c, s, Announce)
             && multiset(s.news.sent) == multiset(Flat(Shares(c, s)))
    ensures multiset(Apply(c, s, Announce).news.sent) == multiset(Flat(Shares(c, Apply(c, s, Announce))))
  {
    AnnounceShares(c, s);
    GrownShare(c, s, Apply(c, s, Announce), s.announced, Announcement(c.names[s.announced]));
  }

  lemma OneFindingMore(first: seq<NamedAddress>, name: string, addrs: seq<string>, k: nat)
    requires k < |addrs|
    ensures first + Findings(name, addrs[..k + 1]) == first + Findings(name, addrs[..k]) + [Finding(name, addrs[k])]
  {
  }

  /** A send is added to its task's share and changes no other. */
  lemma SendShares(c: Config, s: State, i: nat)
    requires ValidConfig(c) && Inv(c, s) && Enabled(c, s, Send(i))
    ensures var s', na := Apply(c, s, Send(i)), Finding(c.names[i], c.answers[i][s.tasks[i].sent]);
            && Share(c, s', i) == Share(c, s, i) + [na]
            && forall j :: 0 <= j < |c.names| && j != i ==> Share(c, s', j) == Share(c, s, j)
  {
    var s', k := Apply(c, s, Send(i)), s.tasks[i].sent;
    assert forall j :: j != i ==> SentBy(s', j) == SentBy(s, j);
    assert SentBy(s, i) == k && SentBy(s', i) == k + 1;
    OneFindingMore([Announcement(c.names[i])], c.names[i], c.answers[i], k);
  }

  lemma AccountedSend(c: Config, s: State, i: nat)
    requires ValidConfig(c) && Inv(c, s) && Enabled(c, s, Send(i))
             && multiset(s.news.sent) == multiset(Flat(Shares(c, s)))
    ensures multiset(Apply(c, s, Send(i)).news.sent) == multiset(Flat(Shares(c, Apply(c, s, Send(i)))))
  {
    SendShares(c, s, i);
    GrownShare(c, s, Apply(c, s, Send(i)), i, Finding(c.names[i], c.answers[i][s.tasks[i].sent]));
  }

  lemma AccountedStep(c: Config, s: State, a: Action)
    requires ValidConfig(c) && Inv(c, s) && Enabled(c, s, a) && multiset(s.news.sent) == multiset(Flat(Shares(c, s)))
    ensures multiset(Apply(c, s, a).news.sent) == multiset(Flat(Shares(c, Apply(c, s, a))))
  {
    if a.Announce? {
      AccountedAnnounce(c, s);
    } else if a.Send? {
      AccountedSend(c, s, a.i);
    } else {
      SharesStay(c, s, a);
    }
  }

  lemma SharesStay(c: Config, s: State, a: Action)
    requires ValidConfig(c) && Enabled(c, s, a) && !a.Announce? && !a.Send?
    ensures Apply(c, s, a).news.sent == s.news.sent && Shares(c, Apply(c, s, a)) == Shares(c, s)
  {
    var s' := Apply(c, s, a);
    assert forall j :: SentBy(s', j) == SentBy(s, j);
  }

  lemma {:induction false} AllHold(c: Config, s: State, acts: seq<Action>)
    requires ValidConfig(c) && Run(c, s, acts)
    requires Inv(c, s) && NamesAnnounced(c, s) && multiset(s.news.sent) == multiset(Flat(Shares(c, s)))
    ensures var s' := After(c, s, acts);
            Inv(c, s') && NamesAnnounced(c, s') && multiset(s'.news.sent) == multiset(Flat(Shares(c, s')))
    decreases |acts|
  {
    if acts != [] {
      InvStep(c, s, acts[0]);
      AnnouncedStep(c, s, acts[0]);
      AccountedStep(c, s, acts[0]);
      AllHold(c, Apply(c, s, acts[0]), acts[1..]);
    }
  }

  lemma {:induction false} NothingYet(shares: seq<seq<NamedAddress>>)
    requires forall i :: 0 <= i < |shares| ==> shares[i] == []
    ensures Flat(shares) == []
  {
    if shares != [] {
      NothingYet(shares[..|shares| - 1]);
    }
  }

  lemma Reached(c: Config, acts: seq<Action>)
    requires ValidConfig(c) && Run(c, Init(), acts)
    ensures var s := After(c, Init(), acts);
            Inv(c, s) && NamesAnnounced(c, s) && multiset(s.news.sent) == multiset(Flat(Shares(c, s)))
  {
    NothingYet(Shares(c, Init()));
    AllHold(c, Init(), acts);
  }

  /**
   In every run, cancelled or not: names are announced before their addresses, and nothing is sent after the close.
   */
  lemma DiggerAnnouncesFirst(c: Config, acts: seq<Action>)
    requires ValidConfig(c) && Run(c, Init(), acts)
    ensures AnnouncedFirst(After(c, Init(), acts).news.sent) && !After(c, Init(), acts).panicked
  {
    Reached(c, acts);
  }

  lemma ShareComplete(c: Config, s: State, i: nat)
    requires ValidConfig(c) && Inv(c, s) && s.pc.Closed? && !s.cancelled && i < |c.names|
    ensures Share(c, s, i) == Complete(c)[i]
  {
    assert SentBy(s, i) == |c.answers[i]|;
    assert c.answers[i][..|c.answers[i]|] == c.answers[i];
  }

  /** A complete uncancelled run sends each announcement and each address found exactly once, in some order. */
  lemma EverythingIsSent(c: Config, acts: seq<Action>)
    requires ValidConfig(c) && Run(c, Init(), acts)
    requires After(c, Init(), acts).pc.Closed? && !After(c, Init(), acts).cancelled
    ensures multiset(After(c, Init(), acts).news.sent) == multiset(Flat(Complete(c)))
  {
    Reached(c, acts);
    var s := After(c, Init(), acts);
    forall i | 0 <= i < |c.names|
      ensures Shares(c, s)[i] == Complete(c)[i]
    {
      ShareComplete(c, s, i);
    }
    assert Shares(c, s) == Complete(c);
  }

  /** What the complete stream consists of. */
  lemma {:induction false} FlatMeans(shares: seq<seq<NamedAddress>>, na: NamedAddress)
    ensures na in Flat(shares) <==> exists i :: 0 <= i < |shares| && na in shares[i]
  {
    if shares != [] {
      var n := |shares| - 1;
      FlatMeans(shares[..n], na);
      if i :| 0 <= i < |shares| && na in shares[i] {
        assert i < n ==> na in shares[..n][i];
      }
    }
  }

  lemma CompleteMeans(c: Config, na: NamedAddress)
    requires ValidConfig(c)
    ensures na in Flat(Complete(c)) <==>
            exists i :: 0 <= i < |c.names| && na.name == Fqdn(c.names[i]) && na.qual == Unverified
                && (na.Bare() || na.addr in c.answers[i])
  {
    FlatMeans(Complete(c), na);
    forall i | 0 <= i < |c.names|
      ensures na in Complete(c)[i] <==>
              na.name == Fqdn(c.names[i]) && na.qual == Unverified && (na.Bare() || na.addr in c.answers[i])
    {
      var found := Findings(c.names[i], c.answers[i]);
      if na.addr in c.answers[i] && na.name == Fqdn(c.names[i]) && na.qual == Unverified {
        var k :| 0 <= k < |c.answers[i]| && c.answers[i][k] == na.addr;
        assert found[k] == na;
      }
    }
  }

  // ---------------------------------------------------------------- the order within each name's messages

  /** The messages sent on behalf of the i-th name, in the order in which they were sent. */
  function Of(log: seq<NamedAddress>, owners: seq<nat>, i: nat): seq<NamedAddress>
    requires |owners| == |log|
  {
    if log == [] then []
    else
      var n := |log| - 1;
      Of(log[..n], owners[..n], i) + if owners[n] == i then [log[n]] else []
  }

  lemma OfMore(log: seq<NamedAddress>, owners: seq<nat>, na: NamedAddress, o: nat, i: nat)
    requires |owners| == |log|
    ensures Of(log + [na], owners + [o], i) == Of(log, owners, i) + if o == i then [na] else []
  {
    assert (log + [na])[..|log|] == log && (owners + [o])[..|owners|] == owners;
  }

  /** Each message is some name's, and each name's messages are its share. */
  ghost predicate Owned(c: Config, s: State, owners: seq<nat>)
    requires ValidConfig(c)
  {
    && |owners| == |s.news.sent|
    && (forall k :: 0 <= k < |owners| ==> owners[k] < |c.names|)
    && forall i :: 0 <= i < |c.names| ==> Of(s.news.sent, owners, i) == Share(c, s, i)
  }

  lemma OwnedSend(c: Config, s: State, s': State, owners: seq<nat>, o: nat, na: NamedAddress)
    returns (owners': seq<nat>)
    requires ValidConfig(c) && Owned(c, s, owners) && o < |c.names|
    requires s'.news.sent == s.news.sent + [na] && Share(c, s', o) == Share(c, s, o) + [na]
    requires forall j :: 0 <= j < |c.names| && j != o ==> Share(c, s', j) == Share(c, s, j)
    ensures Owned(c, s', owners')
  {
    owners' := owners + [o];
    forall i | 0 <= i < |c.names|
      ensures Of(s'.news.sent, owners', i) == Share(c, s', i)
    {
      OfMore(s.news.sent, owners, na, o, i);
    }
  }

  lemma OwnedStep(c: Config, s: State, a: Action, owners: seq<nat>) returns (owners': seq<nat>)
    requires ValidConfig(c) && Inv(c, s) && Enabled(c, s, a) && Owned(c, s, owners)
    ensures Owned(c, Apply(c, s, a), owners')
  {
    if a.Announce? {
      AnnounceShares(c, s);
      owners' := OwnedSend(c, s, Apply(c, s, a), owners, s.announced, Announcement(c.names[s.announced]));
    } else if a.Send? {
      SendShares(c, s, a.i);
      owners' := OwnedSend(c, s, Apply(c, s, a), owners, a.i, Finding(c.names[a.i], c.answers[a.i][s.tasks[a.i].sent]));
    } else {
      owners' := owners;
      SharesStay(c, s, a);
      forall i | 0 <= i < |c.names|
        ensures Share(c, Apply(c, s, a), i) == Share(c, s, i)
      {
        assert Shares(c, s)[i] == Share(c, s, i);
        assert Shares(c, Apply(c, s, a))[i] == Share(c, Apply(c, s, a), i);
      }
    }
  }

  lemma {:induction false} OwnedHolds(c: Config, s: State, acts: seq<Action>, owners: seq<nat>)
    returns (owners': seq<nat>)
    requires ValidConfig(c) && Run(c, s, acts) && Inv(c, s) && Owned(c, s, owners)
    ensures Owned(c, After(c, s, acts), owners')
    decreases |acts|
  {
    owners' := owners;
    if acts != [] {
      InvStep(c, s, acts[0]);
      owners' := OwnedStep(c, s, acts[0], owners');
      owners' := OwnedHolds(c, Apply(c, s, acts[0]), acts[1..], owners');
    }
  }

  /**
   In every run the stream interleaves what each name has to send: each message is sent for one of the names,
   and those for one name are a first part of its announcement followed by its addresses in the order in which
   they were found, and all of that once the digger has closed uncancelled.
   */
  lemma StreamIsInterleaved(c: Config, acts: seq<Action>) returns (owners: seq<nat>)
    requires ValidConfig(c) && Run(c, Init(), acts)
    ensures var s := After(c, Init(), acts);
            && |owners| == |s.news.sent| && (forall k :: 0 <= k < |owners| ==> owners[k] < |c.names|)
            && (forall i :: 0 <= i < |c.names| ==> Of(s.news.sent, owners, i) <= Complete(c)[i])
            && (s.pc.Closed? && !s.cancelled ==>
                  forall i :: 0 <= i < |c.names| ==> Of(s.news.sent, owners, i) == Complete(c)[i])
  {
    var s := After(c, Init(), acts);
    owners := OwnedHolds(c, Init(), acts, []);
    Reached(c, acts);
    forall i | 0 <= i < |c.names|
      ensures Of(s.news.sent, owners, i) <= Complete(c)[i]
      ensures s.pc.Closed? && !s.cancelled ==> Of(s.news.sent, owners, i) == Complete(c)[i]
    {
      SharesAreParts(c, s, i);
      if s.pc.Closed? && !s.cancelled {
        ShareComplete(c, s, i);
      }
    }
  }

  lemma SharesAreParts(c: Config, s: State, i: nat)
    requires ValidConfig(c) && i < |c.names|
    ensures Share(c, s, i) <= Complete(c)[i]
  {
  }
}
