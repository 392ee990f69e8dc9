/** The information model: qualities, qualified addresses and named addresses. Errors are not modelled. */
module Types {

  datatype Option<T> = None | Some(value: T)

  datatype Quality = Unverified | Verifying | Invalid | Verified {

    /** The integer behind a Quality; the cache and the table compare qualities with `<=` and `>`. */
    function Rank(): (r: nat)
    {
      match this
      case Unverified => 0
      case Verifying => 1
      case Invalid => 2
      case Verified => 3
    }

    /** A final verdict: the `default` branch of the cache's switch. */
    predicate Terminal()
    {
      Invalid? || Verified?
    }
  }

  /** A single address with its quality. */
  datatype QualifiedAddressValue = QA(addr: string, qual: Quality)

  /** An FQDN together with one address; an empty address announces a name that is yet to be dug up. */
  datatype NamedAddress = NA(name: string, addr: string, qual: Quality) {

    predicate Bare()
    {
      addr == ""
    }

    function WithQuality(q: Quality): NamedAddress
    {
      NA(name, addr, q)
    }
  }

  ghost predicate NoDuplicates<T>(s: seq<T>)
  {
    forall i, j :: 0 <= i < j < |s| ==> s[i] != s[j]
  }

  /** What travels on the verdict channel: the interface both kinds of address implement. */
  datatype QualifiedAddress = Plain(qa: QualifiedAddressValue) | Named(na: NamedAddress) {

    function Addr(): string
    {
      match this
      case Plain(qa) => qa.addr
      case Named(na) => na.addr
    }

    function Qual(): Quality
    {
      match this
      case Plain(qa) => qa.qual
      case Named(na) => na.qual
    }

    /** A copy with a new quality; which kind of address it is, its name and its address all stay. */
    function WithNewQuality(q: Quality): (r: QualifiedAddress)
      ensures r.Named? <==> Named?
      ensures r.Addr() == Addr() && r.Qual() == q
      ensures Named? ==> r.na.name == na.name
    {
      match this
      case Plain(qa) => Plain(QA(qa.addr, q))
      case Named(na) => Named(na.WithQuality(q))
    }
  }
}
