/** The client facade: protocol selection when dialing, and `Authenticate`. */
module Ldapc {
  import opened Basics
  import opened Fmt
  import opened Ldap
  import opened Errors
  import opened Binding

  /** Go's `Protocol int`: any integer, three of them named. */
  type Protocol = int
  const ProtocolLdap: Protocol := 0
  const ProtocolLdaps: Protocol := 1
  const ProtocolStartTls: Protocol := 2

  /** A `Client`: connection settings and the bind strategy, `None` when `Bind` is nil. */
  datatype Client = Client(protocol: Protocol, host: string, port: int, tlsConfig: TlsConfig, bind: Option<Bind>)
  {
    /** The one dial attempt `dial` makes. */
    function DialAttempt(): (d: DialOp)
      ensures d.TlsDial? <==> protocol == ProtocolLdaps
      ensures d.address == HostPort(host, port)
      ensures d.TlsDial? ==> d.config == tlsConfig
    {
      if protocol == ProtocolLdaps then TlsDial(HostPort(host, port), tlsConfig)
      else PlainDial(HostPort(host, port))
    }

    /** `dial`: LDAPS dials TLS; anything else dials plaintext and StartTLS upgrades it. */
    method Dial(net: Network) returns (r: Result<Conn, Error>)
      modifies net
      ensures net.dials == old(net.dials) + [DialAttempt()]
      ensures net.outcomes == AfterDial(old(net.outcomes))
      // A refused dial opens nothing; the LDAPS error is passed on as it is, the plain one wrapped.
      ensures NextDial(old(net.outcomes)).Refused? ==>
        net.conns == old(net.conns) &&
        r == Err(if protocol == ProtocolLdaps then Library(NextDial(old(net.outcomes)).cause)
                 else DialFailed(NextDial(old(net.outcomes)).cause))
      ensures NextDial(old(net.outcomes)).Accepted? ==>
        |net.conns| == |old(net.conns)| + 1 && net.conns[..|old(net.conns)|] == old(net.conns) &&
        var k := net.conns[|net.conns| - 1];
        var s := NextDial(old(net.outcomes)).script;
        fresh(k) &&
        // StartTLS: one upgrade attempt; on failure the connection is closed once and not returned.
        (protocol == ProtocolStartTls && s.NextStartTls().Some? ==>
          r == Err(StartTlsFailed(s.NextStartTls().value)) &&
          k.trace == [StartTlsOp(tlsConfig), CloseOp] && k.closed) &&
        (protocol == ProtocolStartTls && s.NextStartTls().None? ==>
          r == Ok(k) && k.trace == [StartTlsOp(tlsConfig)] &&
          !k.closed && k.tls && k.replies == s.AfterStartTls()) &&
        // Every other protocol: the connection as dialed, open, never upgraded.
        (protocol != ProtocolStartTls ==>
          r == Ok(k) && k.trace == [] && !k.closed && k.replies == s &&
          k.tls == (protocol == ProtocolLdaps))
      // What is returned is open and not yet closed; what is not returned is closed once.
      ensures r.Ok? ==>
        |net.conns| == |old(net.conns)| + 1 && r.value == net.conns[|net.conns| - 1] &&
        fresh(r.value) && !r.value.closed && CloseCount(r.value.trace) == 0 &&
        // the upgrade, if any, is all that was sent; the replies left are the dialed ones after it
        NextDial(old(net.outcomes)).Accepted? &&
        (protocol == ProtocolStartTls ==> NextDial(old(net.outcomes)).script.NextStartTls().None?) &&
        r.value.trace == (if protocol == ProtocolStartTls then [StartTlsOp(tlsConfig)] else []) &&
        r.value.replies == (if protocol == ProtocolStartTls then NextDial(old(net.outcomes)).script.AfterStartTls()
                            else NextDial(old(net.outcomes)).script)
      ensures r.Err? ==> forall i :: |old(net.conns)| <= i < |net.conns| ==> ClosedOnce(net.conns[i])
    {
      var address := HostPort(host, port);
      if protocol == ProtocolLdaps {
        var d := net.DialTls(address, tlsConfig);
        if d.Err? {
          return Err(Library(d.error));
        }
        return Ok(d.value);
      }
      var d := net.Dial(address);
      if d.Err? {
        return Err(DialFailed(d.error));
      }
      var conn := d.value;
      if protocol == ProtocolStartTls {
        var err := conn.StartTls(tlsConfig);
        if err.Some? {
          conn.Close();
          CloseCountAppend([StartTlsOp(tlsConfig)], [CloseOp]);
          assert ClosedOnce(conn);
          return Err(StartTlsFailed(err.value));
        }
      }
      CloseCountNone(conn.trace);
      return Ok(conn);
    }

    /** `Authenticate`: dial, check the strategy is set, run it, and close the connection on every exit. */
    method Authenticate(net: Network, username: string, password: string) returns (r: Result<Entry, Error>)
      modifies net
      ensures net.dials == old(net.dials) + [DialAttempt()]
      ensures net.outcomes == AfterDial(old(net.outcomes))
      ensures |old(net.conns)| <= |net.conns| <= |old(net.conns)| + 1
      ensures net.conns[..|old(net.conns)|] == old(net.conns)
      // No connection opened by the call is left open, and each is closed exactly once, last.
      ensures forall i :: |old(net.conns)| <= i < |net.conns| ==> ClosedOnce(net.conns[i])
      // A refused dial is reported and nothing is opened.
      ensures NextDial(old(net.outcomes)).Refused? ==>
        net.conns == old(net.conns) &&
        r == Err(if protocol == ProtocolLdaps then Library(NextDial(old(net.outcomes)).cause)
                 else DialFailed(NextDial(old(net.outcomes)).cause))
      // An accepted dial opens one connection, a new one, not one opened before the call.
      ensures NextDial(old(net.outcomes)).Accepted? ==>
        |net.conns| == |old(net.conns)| + 1 && fresh(net.conns[|net.conns| - 1])
      ensures NextDial(old(net.outcomes)).Accepted? ==>
        |net.conns| == |old(net.conns)| + 1 &&
        var k := net.conns[|net.conns| - 1];
        var s := NextDial(old(net.outcomes)).script;
        // A failed StartTLS is reported before any strategy runs.
        (protocol == ProtocolStartTls && s.NextStartTls().Some? ==>
          r == Err(StartTlsFailed(s.NextStartTls().value)) &&
          k.trace == [StartTlsOp(tlsConfig), CloseOp]) &&
        (protocol != ProtocolStartTls || s.NextStartTls().None? ==>
          var upgrade := if protocol == ProtocolStartTls then [StartTlsOp(tlsConfig)] else [];
          var s1 := if protocol == ProtocolStartTls then s.AfterStartTls() else s;
          // A nil strategy is an error after the dial; the connection is still closed.
          (bind.None? ==> r == Err(BindIsNil) && k.trace == upgrade + [CloseOp]) &&
          // Otherwise the strategy's ops, then the close; its result passed on unchanged.
          (bind.Some? ==>
            var x := bind.value.Run(username, password, s1);
            r == x.result && k.trace == upgrade + x.ops + [CloseOp]))
    {
      var d := Dial(net);
      if d.Err? {
        return Err(d.error);
      }
      r := AuthenticateOn(d.value, username, password);
    }

    /** The part of `Authenticate` after a successful dial: close deferred, nil check, strategy. */
    method AuthenticateOn(conn: Conn, username: string, password: string) returns (r: Result<Entry, Error>)
      requires !conn.closed
      modifies conn
      ensures bind.None? ==> r == Err(BindIsNil) && conn.trace == old(conn.trace) + [CloseOp]
      ensures bind.Some? ==>
        var x := bind.value.Run(username, password, old(conn.replies));
        r == x.result && conn.trace == old(conn.trace) + x.ops + [CloseOp]
      ensures conn.closed && CloseCount(conn.trace) == CloseCount(old(conn.trace)) + 1
      ensures conn.trace[|conn.trace| - 1] == CloseOp
    {
      ghost var before := conn.trace;
      if bind.None? {
        conn.Close();
        CloseCountAppend(before, [CloseOp]);
        return Err(BindIsNil);
      }
      r := bind.value.Auth(conn, username, password);
      ghost var ops := conn.trace[|before|..];
      assert conn.trace == before + ops;
      conn.Close();
      CloseCountAppend(before + ops, [CloseOp]);
      CloseCountAppend(before, ops);
      CloseCountNone(ops);
    }
  }
}
