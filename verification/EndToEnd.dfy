/**
 From Docker networks to displayed groups: the digger feeds the verifier, the table tracks it, the display groups it.
 */
module EndToEnd {
  import opened Types
  import opened AddrMap
  import opened Names
  import opened Sorting
  import opened Display
  import Digger
  import DnsPool
  import Ping
  import Pipeline
  import opened Joint
  import opened JointProgress
  import opened PipelineStream
  import opened PipelineTable

  /** The verifier's news in a joint run. */
  ghost function News(c: Config, acts: seq<Action>): seq<NamedAddress>
    requires ValidConfig(c) && Run(c, Init(), acts)
  {
    After(c, Init(), acts).v.news.sent
  }

  /** A joint run of digger and verifier in which `Verify` has returned without a cancellation. */
  ghost predicate Complete(c: Config, acts: seq<Action>)
  {
    && ValidConfig(c) && (forall a :: c.oracle(a).Terminal())
    && Run(c, Init(), acts)
    && After(c, Init(), acts).v.inPc.Returned? && !After(c, Init(), acts).v.cancelled
  }

  /** The names that were dug for, and whether an address was found for one. */
  ghost predicate DugFor(c: Config, f: string)
  {
    HasName(c.dig.names, f)
  }

  ghost predicate Found(c: Config, f: string, a: string)
    requires ValidConfig(c)
  {
    exists i :: 0 <= i < |c.dig.names| && Fqdn(c.dig.names[i]) == f && a in c.dig.answers[i]
  }

  /** Every joint run so far, uncancelled, can be completed. */
  lemma CompleteRunsExist(c: Config, begun: seq<Action>) returns (acts: seq<Action>)
    requires ValidConfig(c) && (forall a :: c.oracle(a).Terminal())
    requires Run(c, Init(), begun) && !After(c, Init(), begun).v.cancelled
    ensures begun <= acts && Complete(c, acts)
  {
    acts := JointProgress.Completed(c, begun);
  }

  lemma InputMeans(c: Config, acts: seq<Action>, na: NamedAddress)
    requires Complete(c, acts)
    ensures na in After(c, Init(), acts).d.news.sent <==>
            na.qual == Unverified && (if na.Bare() then DugFor(c, na.name) else Found(c, na.name, na.addr))
  {
    var sent := After(c, Init(), acts).d.news.sent;
    ReturnedMeansDug(c, acts);
    JointProgress.Reached(c, acts);
    DiggerRuns(c, Init(), acts);
    Digger.EverythingIsSent(c.dig, Digs(acts));
    var all := Digger.Flat(Digger.Complete(c.dig));
    assert na in sent <==> na in multiset(sent);
    assert na in all <==> na in multiset(all);
    Digger.CompleteMeans(c.dig, na);
  }

  lemma InputIsValid(c: Config, acts: seq<Action>)
    requires Complete(c, acts)
    ensures Pipeline.ValidConfig(Input(c, After(c, Init(), acts)))
  {
    var input := After(c, Init(), acts).d.news.sent;
    forall i | 0 <= i < |input|
      ensures input[i].qual == Unverified
    {
      InputMeans(c, acts, input[i]);
    }
  }

  /** In every joint run, complete or not, cancelled or not, each name is announced before its addresses. */
  lemma JointlyAnnouncedFirst(c: Config, acts: seq<Action>)
    requires ValidConfig(c) && Run(c, Init(), acts)
    ensures AnnouncedFirst(News(c, acts))
  {
    DiggerRuns(c, Init(), acts);
    Digger.DiggerAnnouncesFirst(c.dig, Digs(acts));
    VerifierRuns(c, Init(), acts);
    AnnouncementsPrecedeResults(Input(c, After(c, Init(), acts)), Verifies(acts));
  }

  /**
   Whatever the resolvers, the workers and both loops do in what order: every name dug for ends up in the
   table with exactly the addresses found for it, each with its ping's verdict.
   */
  lemma DugAndVerified(c: Config, acts: seq<Action>, f: string, e: QualifiedAddressValue)
    requires Complete(c, acts)
    ensures var t := View(Tracked(News(c, acts)));
            && (f in t <==> DugFor(c, f))
            && (f in t && e in t[f] <==> e.addr != "" && Found(c, f, e.addr) && e.qual == c.oracle(e.addr))
  {
    var input := Input(c, After(c, Init(), acts));
    InputIsValid(c, acts);
    VerifierRuns(c, Init(), acts);
    if f != "" {
      FinalTable(input, Verifies(acts), f, e);
      MentionedMeansDug(c, acts, f);
      PairsMeanFound(c, acts, f, e.addr);
    } else {
      TableOrder(News(c, acts), f);
      NothingForEmpty(c);
    }
  }

  /** The answers are what the name resolution gathers, and the oracle is what the pings' replies decide. */
  ghost predicate AsQueried(c: Config, queries: seq<seq<DnsPool.Query>>, count: nat, threshold: nat,
                            outcomes: string -> Ping.PingOutcome)
  {
    && |queries| == |c.dig.names| == |c.dig.answers|
    && (forall i :: 0 <= i < |queries| ==> c.dig.answers[i] == DnsPool.Gathered(queries[i]))
    && (forall a :: c.oracle(a) == Ping.Decision(count, threshold, outcomes(a)))
  }

  /** An answered query for the name has a record of the address, and no query before it failed. */
  ghost predicate Resolved(c: Config, queries: seq<seq<DnsPool.Query>>, f: string, a: string)
    requires |queries| == |c.dig.names|
  {
    exists i :: 0 <= i < |queries| && Fqdn(c.dig.names[i]) == f && HasRecord(queries[i], a)
  }

  ghost predicate HasRecord(queries: seq<DnsPool.Query>, a: string)
  {
    exists j :: 0 <= j < |queries| && DnsPool.AnsweredUpTo(queries, j) && DnsPool.HasAddress(queries[j].rrs, a)
  }

  /** In terms of DNS answers and ping replies: the table has just the resolved addresses, as the replies decide. */
  lemma ResolvedAndPinged(c: Config, acts: seq<Action>, queries: seq<seq<DnsPool.Query>>, count: nat, threshold: nat,
                          outcomes: string -> Ping.PingOutcome, f: string, e: QualifiedAddressValue)
    requires Complete(c, acts) && AsQueried(c, queries, count, threshold, outcomes)
    ensures var t := View(Tracked(News(c, acts)));
            var outcome := outcomes(e.addr);
            var verdict :=
              if outcome.Replies? && 100 * outcome.recv > count * threshold - 100 then Verified else Invalid;
            f in t && e in t[f] <==> e.addr != "" && Resolved(c, queries, f, e.addr) && e.qual == verdict
  {
    Ping.DecisionMeans(count, threshold, outcomes(e.addr));
    DugAndVerified(c, acts, f, e);
    forall i | 0 <= i < |queries|
      ensures e.addr in c.dig.answers[i] <==> HasRecord(queries[i], e.addr)
    {
      DnsPool.GatheredMeans(queries[i], e.addr);
    }
  }

  lemma NothingForEmpty(c: Config)
    ensures !DugFor(c, "")
    ensures ValidConfig(c) ==> forall a :: !Found(c, "", a)
  {
  }

  lemma MentionedMeansDug(c: Config, acts: seq<Action>, f: string)
    requires Complete(c, acts)
    ensures Mentions(After(c, Init(), acts).d.news.sent, f) <==> DugFor(c, f)
  {
    var input := After(c, Init(), acts).d.news.sent;
    if k :| 0 <= k < |input| && input[k].name == f {
      InputMeans(c, acts, input[k]);
    }
    if DugFor(c, f) {
      InputMeans(c, acts, NA(f, "", Unverified));
      assert NA(f, "", Unverified) in input;
    }
  }

  lemma PairsMeanFound(c: Config, acts: seq<Action>, f: string, a: string)
    requires Complete(c, acts)
    ensures (f, a) in Pipeline.AddressedPairs(After(c, Init(), acts).d.news.sent) <==> a != "" && Found(c, f, a)
  {
    var input := After(c, Init(), acts).d.news.sent;
    if (f, a) in Pipeline.AddressedPairs(input) {
      var i :| 0 <= i < |input| && !input[i].Bare() && (f, a) == (input[i].name, input[i].addr);
      InputMeans(c, acts, input[i]);
    }
    if a != "" && Found(c, f, a) {
      var na := NA(f, a, Unverified);
      InputMeans(c, acts, na);
      var i :| 0 <= i < |input| && input[i] == na;
      assert (f, a) == (input[i].name, input[i].addr);
    }
  }

  // ---------------------------------------------------------------- what is displayed

  /** A snapshot of the table, as `Get` returns it. */
  ghost predicate Snapshot(sets: seq<NamedAddressSet>, t: Table)
  {
    forall s :: s in sets <==> s.fqdn in t && s.addresses == t[s.fqdn]
  }

  lemma SetsAreNames(c: Config, acts: seq<Action>, sets: seq<NamedAddressSet>, f: string)
    requires Complete(c, acts) && Snapshot(sets, Tracked(News(c, acts)))
    ensures (exists m :: 0 <= m < |sets| && sets[m].fqdn == f) <==> DugFor(c, f)
  {
    var t := Tracked(News(c, acts));
    DugAndVerified(c, acts, f, QA("", Unverified));
    if m :| 0 <= m < |sets| && sets[m].fqdn == f {
      assert sets[m] in sets;
    }
    if f in t {
      assert NamedAddressSet(f, t[f]) in sets;
    }
  }

  /**
   For networks and labels without dots each group of the final display shows exactly the names built from
   its network's labels, and the unnamed group also all labels on their own.
   */
  lemma DisplayedNames(c: Config, acts: seq<Action>, nets: seq<DockerNetwork>, sets: seq<NamedAddressSet>,
                       groups: seq<seq<NamedAddressSet>>, ip: string -> nat, network: string, f: string)
    requires Complete(c, acts) && BuiltFrom(c.dig.names, nets) && DotFree(nets)
    requires Snapshot(sets, Tracked(News(c, acts))) && GroupsOf(groups, sets, ip)
    ensures InGroup(groups, network, f) <==> BuiltOn(nets, network, f) || (network == "" && BuiltFlat(nets, f))
  {
    GroupMembers(groups, sets, ip, network, f);
    SetsAreNames(c, acts, sets, f);
    NamesOfNetwork(c.dig.names, nets, network, f);
  }

  /** And with each name exactly the addresses found for it, with their pings' verdicts. */
  lemma DisplayedAddresses(c: Config, acts: seq<Action>, sets: seq<NamedAddressSet>,
                           groups: seq<seq<NamedAddressSet>>, ip: string -> nat, i: nat, k: nat,
                           e: QualifiedAddressValue)
    requires Complete(c, acts) && Snapshot(sets, Tracked(News(c, acts))) && GroupsOf(groups, sets, ip)
    requires i < |groups| && k < |groups[i]|
    ensures e in groups[i][k].addresses <==>
            e.addr != "" && Found(c, groups[i][k].fqdn, e.addr) && e.qual == c.oracle(e.addr)
  {
    var x := groups[i][k];
    var m := ShownAddresses(groups, sets, ip, i, k);
    assert sets[m] in sets;
    assert e in x.addresses <==> e in multiset(x.addresses);
    assert e in sets[m].addresses <==> e in multiset(sets[m].addresses);
    DugAndVerified(c, acts, x.fqdn, e);
  }

  lemma GroupsAreNetworks(c: Config, acts: seq<Action>, nets: seq<DockerNetwork>, sets: seq<NamedAddressSet>,
                          groups: seq<seq<NamedAddressSet>>, ip: string -> nat, network: string)
    requires Complete(c, acts) && BuiltFrom(c.dig.names, nets) && DotFree(nets)
    requires Snapshot(sets, Tracked(News(c, acts))) && GroupsOf(groups, sets, ip)
    ensures OnNetwork(sets, network) <==> HasGroup(c.dig.names, network)
    ensures (exists i :: 0 <= i < |groups| && Network(groups[i][0]) == network) <==>
            HasLabels(nets, network)
  {
    OneGroupPerNetwork(groups, sets, ip, network);
    GroupsOfBuiltNames(c.dig.names, nets, network);
    if k :| 0 <= k < |sets| && Network(sets[k]) == network {
      SetsAreNames(c, acts, sets, sets[k].fqdn);
    }
    if k :| 0 <= k < |c.dig.names| && GroupName(Fqdn(c.dig.names[k])) == network {
      SetsAreNames(c, acts, sets, Fqdn(c.dig.names[k]));
      var m :| 0 <= m < |sets| && sets[m].fqdn == Fqdn(c.dig.names[k]);
      assert Network(sets[m]) == network;
    }
  }

  /**
   There is a group for every network with labels, the unnamed group before all others, and no other; without
   labels there is no group.
   */
  lemma DisplayedNetworks(c: Config, acts: seq<Action>, nets: seq<DockerNetwork>, sets: seq<NamedAddressSet>,
                          groups: seq<seq<NamedAddressSet>>, ip: string -> nat, network: string)
    requires Complete(c, acts) && BuiltFrom(c.dig.names, nets) && DotFree(nets)
    requires Snapshot(sets, Tracked(News(c, acts))) && GroupsOf(groups, sets, ip)
    ensures (exists i :: 0 <= i < |groups| && Network(groups[i][0]) == network) <==>
            HasLabels(nets, network)
    ensures groups != [] ==> Network(groups[0][0]) == ""
  {
    GroupsAreNetworks(c, acts, nets, sets, groups, ip, network);
    if groups != [] {
      GroupsAreNetworks(c, acts, nets, sets, groups, ip, Network(groups[0][0]));
      GroupsAreNetworks(c, acts, nets, sets, groups, ip, "");
      UnnamedGroupComesFirst(groups, sets, ip);
    }
  }

  // ---------------------------------------------------------------- an early display

  lemma OnlyAnnounced(na: NamedAddress)
    requires na.name != "" && na.Bare()
    ensures Snapshot([NamedAddressSet(na.name, [])], Tracked([na]))
  {
    TrackedMore([], na);
    assert [] + [na] == [na];
    assert Tracked([na]) == map[na.name := []];
  }

  /** The first name's announcement dug, handed over and forwarded. */
  lemma FirstNameOnly(c: Config) returns (acts: seq<Action>)
    requires ValidConfig(c) && c.dig.names != []
    ensures Run(c, Init(), acts) && News(c, acts) == [Digger.Announcement(c.dig.names[0])]
  {
    var na := Digger.Announcement(c.dig.names[0]);
    acts := [Dig(Digger.Announce), Hand, Verify(Pipeline.Forward)];
    var s := Apply(c, Init(), acts[0]);
    assert s.d.news.sent == [na];
    var t := Apply(c, s, acts[1]);
    assert t.v.inPc == Pipeline.Forwarding(na);
    var u := Apply(c, t, acts[2]);
    assert u.v.news.sent == [na];
    assert acts[1..][1..][1..] == [];
    assert acts[1..][0] == Hand && acts[1..][1..][0] == Verify(Pipeline.Forward);
    assert Run(c, u, []) && After(c, u, []) == u;
  }

  /**
   Flat names are announced last. If the first name is on a network, there is a moment at which the display
   starts with that network, which its list of networks then leaves out.
   */
  lemma EarlyDisplayLacksUnnamedGroup(c: Config, ip: string -> nat)
    returns (acts: seq<Action>, sets: seq<NamedAddressSet>)
    requires ValidConfig(c) && c.dig.names != [] && GroupName(Fqdn(c.dig.names[0])) != ""
    ensures Run(c, Init(), acts) && Snapshot(sets, Tracked(News(c, acts)))
    ensures GroupsOf([sets], sets, ip) && Network(sets[0]) == GroupName(Fqdn(c.dig.names[0]))
  {
    acts := FirstNameOnly(c);
    var x := NamedAddressSet(Fqdn(c.dig.names[0]), []);
    sets := [x];
    OnlyAnnounced(Digger.Announcement(c.dig.names[0]));
    SingleGroup(x, Network, Precedes);
    NothingToTidy(x, ip);
  }
}
