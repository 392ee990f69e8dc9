/** The deduplicating address cache: one quality and one list of waiting names per address. */
module AddrCache {
  import opened Types

  /** The most recent quality of an address and the names that wait for news about it. */
  datatype Entry = Entry(q: Quality, consumers: seq<string>)

  type Cache = map<string, Entry>

  /** What one update does: the new cache, the messages to send in order, and whether the address is new. */
  datatype Outcome = Outcome(cache: Cache, out: seq<NamedAddress>, isNew: bool)

  /** One message per waiting name, all about the same address and quality. */
  function FanOut(consumers: seq<string>, addr: string, q: Quality): (out: seq<NamedAddress>)
    ensures |out| == |consumers|
    ensures forall i :: 0 <= i < |out| ==> out[i] == NA(consumers[i], addr, q)
  {
    seq(|consumers|, i requires 0 <= i < |consumers| => NA(consumers[i], addr, q))
  }

  /** The specification of an update as a function of the cache and the named address presented to it. */
  function Updated(c: Cache, na: NamedAddress): Outcome
  {
    if na.addr !in c then
      Outcome(c[na.addr := Entry(na.qual, [na.name])], [na], true)
    else
      var e := c[na.addr];
      if na.qual.Rank() <= e.q.Rank() then
        if na.name in e.consumers then
          Outcome(c, [], false)
        else
          Outcome(c[na.addr := Entry(e.q, e.consumers + [na.name])], [na.WithQuality(e.q)], false)
      else if na.qual.Terminal() then
        Outcome(c[na.addr := Entry(na.qual, [])], FanOut(e.consumers, na.addr, na.qual), false)
      else
        var consumers := if na.name in e.consumers then e.consumers else e.consumers + [na.name];
        Outcome(c[na.addr := Entry(na.qual, consumers)], FanOut(consumers, na.addr, na.qual), false)
  }

  /** The sending side of the news channel as one caller sees it, together with the caller's context. */
  class Outlet {
    var sent: seq<NamedAddress>
    var cancelled: bool

    constructor ()
      ensures sent == [] && !cancelled
    {
      sent := [];
      cancelled := false;
    }

    /** A select between sending and a done context: once the context is done either branch may win. */
    method Offer(na: NamedAddress) returns (accepted: bool)
      modifies this`sent
      ensures accepted ==> sent == old(sent) + [na]
      ensures !accepted ==> cancelled && sent == old(sent)
    {
      var contextDoneWins: bool := *;
      accepted := !(cancelled && contextDoneWins);
      if accepted {
        sent := sent + [na];
      }
    }
  }

  class NamedAddressCache {
    var m: Cache

    constructor ()
      ensures m == map[]
    {
      m := map[];
    }

    /**
     Presents a named address to the cache. The cache always changes as `Updated` says; the messages
     all go out, in order, unless the context is done, when a suffix of them may be dropped.
     */
    method Update(na: NamedAddress, news: Outlet) returns (isNew: bool)
      modifies this, news`sent
      ensures m == Updated(old(m), na).cache
      ensures isNew == Updated(old(m), na).isNew
      ensures old(news.sent) <= news.sent <= old(news.sent) + Updated(old(m), na).out
      ensures !news.cancelled ==> news.sent == old(news.sent) + Updated(old(m), na).out
    {
      var addr := na.addr;
      if addr !in m {
        m := m[addr := Entry(na.qual, [na.name])];
        var _ := news.Offer(na);
        return true;
      }
      var qc := m[addr];
      var known := false;
      for i := 0 to |qc.consumers|
        invariant known <==> na.name in qc.consumers[..i]
      {
        if qc.consumers[i] == na.name {
          known := true;
        }
      }
      assert qc.consumers[..|qc.consumers|] == qc.consumers;
      if na.qual.Rank() <= qc.q.Rank() {
        if !known {
          m := m[addr := Entry(qc.q, qc.consumers + [na.name])];
          var _ := news.Offer(na.WithQuality(qc.q));
        }
        return false;
      }
      var consumers := qc.consumers;
      var keep: seq<string> := [];
      if !na.qual.Terminal() {
        if !known {
          consumers := consumers + [na.name];
        }
        keep := consumers;
      }
      m := m[addr := Entry(na.qual, keep)];
      ghost var out := FanOut(consumers, addr, na.qual);
      for i := 0 to |consumers|
        invariant m == Updated(old(m), na).cache
        invariant news.sent == old(news.sent) + out[..i]
      {
        var accepted := news.Offer(NA(consumers[i], addr, na.qual));
        if !accepted {
          return false;
        }
        assert out[..i + 1] == out[..i] + [out[i]];
      }
      assert out[..|out|] == out;
      return false;
    }
  }
}
