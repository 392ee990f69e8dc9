/** The pool of DNS connections and the two-query name resolution that runs on it. */
module DnsPool {
  import opened Types

  class Conn {
    var closes: nat

    constructor ()
      ensures closes == 0
    {
      closes := 0;
    }

    method Close()
      modifies this
      ensures closes == old(closes) + 1
    {
      closes := closes + 1;
    }
  }

  /** Closes each of the connections once. */
  method CloseAll(conns: seq<Conn>)
    requires NoDuplicates(conns)
    modifies conns
    ensures forall c :: c in conns ==> c.closes == old(c.closes) + 1
  {
    for i := 0 to |conns|
      invariant forall k :: 0 <= k < i ==> conns[k].closes == old(conns[k].closes) + 1
      invariant forall k :: i <= k < |conns| ==> conns[k].closes == old(conns[k].closes)
    {
      conns[i].Close();
    }
  }

  class Pool {
    var free: seq<Conn>
    var workers: nat

    ghost predicate Valid()
      reads this
    {
      NoDuplicates(free)
    }

    /** The pool's tail end of `New`. */
    constructor (conns: seq<Conn>, size: nat)
      requires NoDuplicates(conns)
      ensures free == conns && workers == size
    {
      free, workers := conns, size;
    }

    /**
     Dials `size` connections, unless the network namespace cannot be entered or a dial fails, when every
     connection dialled so far is closed again, once.
     */
    static method New(size: nat, namespaceError: bool, dialFails: nat -> bool) returns (pool: Pool?, dialled: seq<Conn>)
      ensures NoDuplicates(dialled) && fresh(dialled)
      ensures pool != null <==> !namespaceError && forall i :: 0 <= i < size ==> !dialFails(i)
      ensures pool != null ==> fresh(pool) && |dialled| == size == pool.workers && pool.free == dialled
                               && forall c :: c in dialled ==> c.closes == 0
      ensures namespaceError ==> dialled == []
      ensures pool == null && !namespaceError ==>
                |dialled| < size && dialFails(|dialled|) && forall i :: 0 <= i < |dialled| ==> !dialFails(i)
      ensures pool == null ==> forall c :: c in dialled ==> c.closes == 1
    {
      dialled := [];
      if namespaceError {
        return null, dialled;
      }
      for i := 0 to size
        invariant |dialled| == i && NoDuplicates(dialled) && fresh(dialled)
        invariant forall k :: 0 <= k < i ==> !dialFails(k)
        invariant forall c :: c in dialled ==> c.closes == 0
      {
        if dialFails(i) {
          CloseAll(dialled);
          return null, dialled;
        }
        var conn := new Conn();
        dialled := dialled + [conn];
      }
      pool := new Pool(dialled, size);
    }

    /** Takes the most recently freed connection; null stands for the panic on an empty free list. */
    method Pop() returns (conn: Conn?)
      requires Valid()
      modifies this`free
      ensures Valid()
      ensures conn == null <==> old(free) == []
      ensures conn == null ==> free == old(free)
      ensures conn != null ==> old(free) == free + [conn] && conn !in free
    {
      if |free| == 0 {
        return null;
      }
      var last := |free| - 1;
      conn := free[last];
      free := free[..last];
      assert forall i :: 0 <= i < last ==> old(free)[i] != old(free)[last];
    }

    method Push(conn: Conn)
      requires Valid() && conn !in free
      modifies this`free
      ensures Valid() && free == old(free) + [conn]
    {
      free := free + [conn];
    }

    /** A task that nobody interferes with leaves the free list as it was. */
    method Task() returns (panics: bool)
      requires Valid()
      modifies this`free
      ensures Valid() && free == old(free)
      ensures panics <==> old(free) == []
    {
      var conn := Pop();
      if conn == null {
        return true;
      }
      Push(conn);
      return false;
    }

    /** What is left to do once the workers have stopped. */
    method StopWait()
      requires Valid()
      modifies this`free, free
      ensures free == []
      ensures forall c :: c in old(free) ==> c.closes == old(c.closes) + 1
    {
      CloseAll(free);
      free := [];
    }
  }

  // ---------------------------------------------------------------- resolving a name

  datatype Record = A(ip: string) | AAAA(ip: string) | Other

  /** How one query ends: the context was done before, the exchange failed, or the server answered. */
  datatype Query = ContextDone | ExchangeFailed | Answered(rrs: seq<Record>)

  function Ips(rrs: seq<Record>): seq<string>
  {
    if rrs == [] then []
    else
      var last := rrs[|rrs| - 1];
      Ips(rrs[..|rrs| - 1]) + if last.Other? then [] else [last.ip]
  }

  /** The answer has a record of the address. */
  predicate HasAddress(rrs: seq<Record>, ip: string)
  {
    A(ip) in rrs || AAAA(ip) in rrs
  }

  /** An address is picked exactly if there is an A or an AAAA record of it. */
  lemma {:induction false} IpsMeans(rrs: seq<Record>, ip: string)
    ensures ip in Ips(rrs) <==> A(ip) in rrs || AAAA(ip) in rrs
  {
    if rrs != [] {
      var n := |rrs| - 1;
      IpsMeans(rrs[..n], ip);
      assert rrs == rrs[..n] + [rrs[n]];
    }
  }

  lemma SomeAddress(rrs: seq<Record>)
    ensures Ips(rrs) != [] <==> exists ip :: HasAddress(rrs, ip)
  {
    if Ips(rrs) != [] {
      IpsMeans(rrs, Ips(rrs)[0]);
      assert HasAddress(rrs, Ips(rrs)[0]);
    }
    if ip :| HasAddress(rrs, ip) {
      IpsMeans(rrs, ip);
    }
  }

  /** The places of the address records among the first `n` records. */
  function AddressPlaces(rrs: seq<Record>, n: nat): set<nat>
    requires n <= |rrs|
  {
    set i: nat | i < n && (rrs[i].A? || rrs[i].AAAA?)
  }

  lemma PlacesMore(rrs: seq<Record>, n: nat)
    requires n < |rrs|
    ensures |AddressPlaces(rrs, n + 1)| == |AddressPlaces(rrs, n)| + if rrs[n].Other? then 0 else 1
  {
    assert AddressPlaces(rrs, n + 1) == AddressPlaces(rrs, n) + if rrs[n].Other? then {} else {n};
  }

  lemma {:induction false} IpsUpTo(rrs: seq<Record>, n: nat)
    requires n <= |rrs|
    ensures |Ips(rrs[..n])| == |AddressPlaces(rrs, n)| && Ips(rrs[..n]) <= Ips(rrs)
    decreases |rrs| - n
  {
    if n == |rrs| {
      IpsCounted(rrs, n);
      assert rrs[..n] == rrs;
    } else {
      IpsUpTo(rrs, n + 1);
      IpsCounted(rrs, n);
      assert rrs[..n + 1][..n] == rrs[..n];
    }
  }

  lemma {:induction false} IpsCounted(rrs: seq<Record>, n: nat)
    requires n <= |rrs|
    ensures |Ips(rrs[..n])| == |AddressPlaces(rrs, n)|
  {
    if n > 0 {
      IpsCounted(rrs, n - 1);
      PlacesMore(rrs, n - 1);
      assert rrs[..n][..n - 1] == rrs[..n - 1];
    }
  }

  /** There are as many addresses as A and AAAA records, and the k-th address is that of the k-th such record. */
  lemma IpsKeepOrder(rrs: seq<Record>, j: nat)
    requires j < |rrs| && (rrs[j].A? || rrs[j].AAAA?)
    ensures |Ips(rrs)| == |AddressPlaces(rrs, |rrs|)|
    ensures |AddressPlaces(rrs, j)| < |Ips(rrs)| && Ips(rrs)[|AddressPlaces(rrs, j)|] == rrs[j].ip
  {
    IpsUpTo(rrs, |rrs|);
    assert rrs[..|rrs|] == rrs;
    IpsUpTo(rrs, j);
    IpsUpTo(rrs, j + 1);
    assert rrs[..j + 1][..j] == rrs[..j];
  }

  /** The addresses gathered from a prefix of the queries, stopping at the first that is not answered. */
  function Gathered(queries: seq<Query>): seq<string>
  {
    if queries == [] || !queries[0].Answered? then [] else Ips(queries[0].rrs) + Gathered(queries[1..])
  }

  predicate AllAnswered(queries: seq<Query>)
  {
    forall i :: 0 <= i < |queries| ==> queries[i].Answered?
  }

  /** Picks the addresses out of one answer. */
  method Pick(rrs: seq<Record>) returns (ips: seq<string>)
    ensures ips == Ips(rrs)
    ensures forall ip :: ip in ips <==> A(ip) in rrs || AAAA(ip) in rrs
  {
    forall ip
      ensures ip in Ips(rrs) <==> A(ip) in rrs || AAAA(ip) in rrs
    {
      IpsMeans(rrs, ip);
    }
    ips := [];
    for j := 0 to |rrs|
      invariant ips == Ips(rrs[..j])
    {
      assert rrs[..j + 1][..j] == rrs[..j];
      if !rrs[j].Other? {
        ips := ips + [rrs[j].ip];
      }
    }
    assert rrs[..|rrs|] == rrs;
  }

  lemma GatheredFrom(queries: seq<Query>, i: nat)
    requires i < |queries|
    ensures Gathered(queries[i..]) ==
            if queries[i].Answered? then Ips(queries[i].rrs) + Gathered(queries[i + 1..]) else []
  {
    assert queries[i..][1..] == queries[i + 1..];
  }

  /** Asks for A and then for AAAA records; the callback receives what is returned here, once, at the end. */
  method ResolveName(a: Query, aaaa: Query) returns (addrs: seq<string>, failed: bool)
    ensures addrs == Gathered([a, aaaa])
    ensures failed <==> !AllAnswered([a, aaaa]) || addrs == []
  {
    addrs := [];
    var queries := [a, aaaa];
    for i := 0 to |queries|
      invariant forall k :: 0 <= k < i ==> queries[k].Answered?
      invariant addrs + Gathered(queries[i..]) == Gathered(queries)
    {
      GatheredFrom(queries, i);
      if !queries[i].Answered? {
        return addrs, true;
      }
      var ips := Pick(queries[i].rrs);
      addrs := addrs + ips;
    }
    failed := addrs == [];
  }

  /** The addresses of the first answer precede those of the second, which is not asked for if the first fails. */
  lemma BothQueries(a: Query, aaaa: Query)
    ensures Gathered([a, aaaa]) ==
            if !a.Answered? then [] else Ips(a.rrs) + if aaaa.Answered? then Ips(aaaa.rrs) else []
  {
    assert [a, aaaa][1..] == [aaaa] && [aaaa][1..] == [];
    assert Gathered([]) == [];
  }

  /**
   The callback gets addresses and an error together exactly if only the second query goes wrong after the first found
   some.
   */
  lemma PartialResults(a: Query, aaaa: Query)
    ensures var addrs := Gathered([a, aaaa]);
            (addrs != [] && !AllAnswered([a, aaaa])) <==>
                a.Answered? && !aaaa.Answered? && exists ip :: HasAddress(a.rrs, ip)
  {
    BothQueries(a, aaaa);
    assert AllAnswered([a, aaaa]) <==> [a, aaaa][0].Answered? && [a, aaaa][1].Answered?;
    if a.Answered? {
      SomeAddress(a.rrs);
    }
  }

  predicate AnsweredUpTo(queries: seq<Query>, i: nat)
    requires i < |queries|
  {
    forall k :: 0 <= k <= i ==> queries[k].Answered?
  }

  /** An address is gathered exactly if an answered query has a record of it and no query before failed. */
  lemma {:induction false} GatheredMeans(queries: seq<Query>, ip: string)
    ensures ip in Gathered(queries) <==>
            exists i :: 0 <= i < |queries| && AnsweredUpTo(queries, i) && HasAddress(queries[i].rrs, ip)
  {
    if queries != [] && queries[0].Answered? {
      var rest := queries[1..];
      GatheredMeans(rest, ip);
      IpsMeans(queries[0].rrs, ip);
      if HasAddress(queries[0].rrs, ip) {
        assert AnsweredUpTo(queries, 0);
      }
      if i :| 0 <= i < |rest| && AnsweredUpTo(rest, i) && HasAddress(rest[i].rrs, ip) {
        assert forall k :: 0 < k <= i + 1 ==> queries[k] == rest[k - 1];
        assert AnsweredUpTo(queries, i + 1);
      }
      if i :| 0 < i < |queries| && AnsweredUpTo(queries, i) && HasAddress(queries[i].rrs, ip) {
        assert forall k :: 0 <= k < i ==> rest[k] == queries[k + 1];
        assert AnsweredUpTo(rest, i - 1);
      }
    }
  }
}
