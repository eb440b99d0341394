/**
 * The directory-protocol client the core drives (`gopkg.in/ldap.v2`), reduced to
 * what the core observes: a connection that records the operations issued on it
 * and answers them from a script, and a transport that opens such connections.
 */
module Ldap {
  import opened Basics

  /** An error value produced by the library, carried through unchanged. */
  datatype Cause = Cause(message: string)

  /** What a connection answers once its scripted replies are used up. */
  const HangUp := Cause("ldap: connection closed")

  /** What the transport answers once its scripted dial outcomes are used up. */
  const Unreachable := Cause("dial tcp: connection refused")

  /** An opaque `*tls.Config`, passed through; `None` is Go's `nil` (platform defaults). */
  datatype TlsSettings = TlsSettings(serverName: string)
  type TlsConfig = Option<TlsSettings>

  /** A directory entry; the core only reads its distinguished name. */
  datatype Attribute = Attribute(name: string, values: seq<string>)
  datatype Entry = Entry(dn: string, attributes: seq<Attribute>)
  datatype SearchResult = SearchResult(entries: seq<Entry>)

  datatype Scope = BaseObject | SingleLevel | WholeSubtree
  datatype DerefAliases = NeverDerefAliases | DerefInSearching | DerefFindingBaseObj | DerefAlways
  datatype Control = Control(controlType: string)

  /** The fields of `ldap.NewSearchRequest`, in its argument order. */
  datatype SearchRequest = SearchRequest(
    baseDN: string,
    scope: Scope,
    derefAliases: DerefAliases,
    sizeLimit: int,
    timeLimit: int,
    typesOnly: bool,
    filter: string,
    attributes: Option<seq<string>>,
    controls: Option<seq<Control>>)

  /** One operation issued on a connection. */
  datatype Op =
    | BindOp(dn: string, password: string)
    | SearchOp(request: SearchRequest)
    | StartTlsOp(config: TlsConfig)
    | CloseOp

  /**
   * The replies the server will give on one connection, one queue per kind of
   * request: `None` is a successful bind or StartTLS, `Some(c)` its failure.
   */
  datatype Script = Script(
    binds: seq<Option<Cause>>,
    searches: seq<Result<SearchResult, Cause>>,
    startTls: seq<Option<Cause>>)
  {
    function NextBind(): Option<Cause> {
      if binds == [] then Some(HangUp) else binds[0]
    }
    function AfterBind(): Script {
      if binds == [] then this else this.(binds := binds[1..])
    }
    function NextSearch(): Result<SearchResult, Cause> {
      if searches == [] then Err(HangUp) else searches[0]
    }
    function AfterSearch(): Script {
      if searches == [] then this else this.(searches := searches[1..])
    }
    function NextStartTls(): Option<Cause> {
      if startTls == [] then Some(HangUp) else startTls[0]
    }
    function AfterStartTls(): Script {
      if startTls == [] then this else this.(startTls := startTls[1..])
    }
  }

  /** How many times `trace` closes the connection. */
  function CloseCount(trace: seq<Op>): nat {
    if trace == [] then 0
    else (if trace[0].CloseOp? then 1 else 0) + CloseCount(trace[1..])
  }

  lemma {:induction false} CloseCountAppend(a: seq<Op>, b: seq<Op>)
    ensures CloseCount(a + b) == CloseCount(a) + CloseCount(b)
  {
    if a == [] {
      assert a + b == b;
    } else {
      assert (a + b)[1..] == a[1..] + b;
      CloseCountAppend(a[1..], b);
    }
  }

  lemma {:induction false} CloseCountNone(a: seq<Op>)
    requires forall i :: 0 <= i < |a| ==> !a[i].CloseOp?
    ensures CloseCount(a) == 0
  {
    if a != [] {
      CloseCountNone(a[1..]);
    }
  }

  /** The connection was closed, exactly once, and nothing was issued after the close. */
  ghost predicate ClosedOnce(k: Conn)
    reads k
  {
    k.closed && CloseCount(k.trace) == 1 && k.trace[|k.trace| - 1] == CloseOp
  }

  /** An `*ldap.Conn`: its ghost trace of operations, its scripted replies and its state. */
  class Conn {
    ghost var trace: seq<Op>
    var replies: Script
    var closed: bool
    var tls: bool

    constructor (replies: Script, tls: bool)
      ensures trace == [] && this.replies == replies && !closed && this.tls == tls
    {
      trace := [];
      this.replies := replies;
      closed := false;
      this.tls := tls;
    }

    /** `conn.Bind(dn, password)`. */
    method Bind(dn: string, password: string) returns (err: Option<Cause>)
      requires !closed
      modifies this
      ensures trace == old(trace) + [BindOp(dn, password)]
      ensures err == old(replies).NextBind() && replies == old(replies).AfterBind()
      ensures !closed && tls == old(tls)
    {
      err := replies.NextBind();
      replies := replies.AfterBind();
      trace := trace + [BindOp(dn, password)];
    }

    /** `conn.Search(request)`. */
    method Search(request: SearchRequest) returns (r: Result<SearchResult, Cause>)
      requires !closed
      modifies this
      ensures trace == old(trace) + [SearchOp(request)]
      ensures r == old(replies).NextSearch() && replies == old(replies).AfterSearch()
      ensures !closed && tls == old(tls)
    {
      r := replies.NextSearch();
      replies := replies.AfterSearch();
      trace := trace + [SearchOp(request)];
    }

    /** `conn.StartTLS(config)`: on success the connection is encrypted from then on. */
    method StartTls(config: TlsConfig) returns (err: Option<Cause>)
      requires !closed
      modifies this
      ensures trace == old(trace) + [StartTlsOp(config)]
      ensures err == old(replies).NextStartTls() && replies == old(replies).AfterStartTls()
      ensures !closed && tls == (old(tls) || err.None?)
    {
      err := replies.NextStartTls();
      replies := replies.AfterStartTls();
      trace := trace + [StartTlsOp(config)];
      if err.None? {
        tls := true;
      }
    }

    /** `conn.Close()`. */
    method Close()
      modifies this
      ensures trace == old(trace) + [CloseOp]
      ensures closed && replies == old(replies) && tls == old(tls)
    {
      trace := trace + [CloseOp];
      closed := true;
    }
  }

  /** One connection attempt made through the transport. */
  datatype DialOp = PlainDial(address: string) | TlsDial(address: string, config: TlsConfig)

  /** The transport's answer to one attempt: refused, or a connection with its server's script. */
  datatype DialReply = Refused(cause: Cause) | Accepted(script: Script)

  function NextDial(outcomes: seq<DialReply>): DialReply {
    if outcomes == [] then Refused(Unreachable) else outcomes[0]
  }

  function AfterDial(outcomes: seq<DialReply>): seq<DialReply> {
    if outcomes == [] then [] else outcomes[1..]
  }

  /** The network: scripted outcomes of `ldap.Dial`/`ldap.DialTLS`, a log of attempts and every connection it opened. */
  class Network {
    ghost var dials: seq<DialOp>
    ghost var conns: seq<Conn>
    var outcomes: seq<DialReply>

    constructor (outcomes: seq<DialReply>)
      ensures dials == [] && conns == [] && this.outcomes == outcomes
    {
      dials := [];
      conns := [];
      this.outcomes := outcomes;
    }

    /** `ldap.Dial("tcp", address)`: a plaintext connection. */
    method Dial(address: string) returns (r: Result<Conn, Cause>)
      modifies this
      ensures dials == old(dials) + [PlainDial(address)]
      ensures outcomes == AfterDial(old(outcomes))
      ensures match NextDial(old(outcomes))
        case Refused(c) => r == Err(c) && conns == old(conns)
        case Accepted(s) =>
          r.Ok? && fresh(r.value) && conns == old(conns) + [r.value] &&
          r.value.trace == [] && r.value.replies == s && !r.value.closed && !r.value.tls
    {
      dials := dials + [PlainDial(address)];
      var reply := NextDial(outcomes);
      outcomes := AfterDial(outcomes);
      match reply
      case Refused(c) =>
        r := Err(c);
      case Accepted(s) =>
        var conn := new Conn(s, false);
        conns := conns + [conn];
        r := Ok(conn);
    }

    /** `ldap.DialTLS("tcp", address, config)`: a connection encrypted from the first byte. */
    method DialTls(address: string, config: TlsConfig) returns (r: Result<Conn, Cause>)
      modifies this
      ensures dials == old(dials) + [TlsDial(address, config)]
      ensures outcomes == AfterDial(old(outcomes))
      ensures match NextDial(old(outcomes))
        case Refused(c) => r == Err(c) && conns == old(conns)
        case Accepted(s) =>
          r.Ok? && fresh(r.value) && conns == old(conns) + [r.value] &&
          r.value.trace == [] && r.value.replies == s && !r.value.closed && r.value.tls
    {
      dials := dials + [TlsDial(address, config)];
      var reply := NextDial(outcomes);
      outcomes := AfterDial(outcomes);
      match reply
      case Refused(c) =>
        r := Err(c);
      case Accepted(s) =>
        var conn := new Conn(s, true);
        conns := conns + [conn];
        r := Ok(conn);
    }
  }
}
