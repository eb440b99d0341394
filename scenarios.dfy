/**
 * The repository's usage examples, replayed against a scripted directory: what a
 * caller can conclude from the contracts alone.
 */
module Scenarios {
  import opened Basics
  import opened Ldap
  import opened Errors
  import opened Binding
  import opened Ldapc

  /** The entry the example directory holds for `user2`. */
  function User2(): Entry {
    Entry("uid=user2,ou=People,dc=test,dc=com",
          [Attribute("uid", ["user2"]), Attribute("mail", ["user2@test.com"])])
  }

  // The example filter is a parameter fixed by `requires` rather than a literal, so
  // that the verifier does not unfold the template scan over the literal.

  /** The example client: plain LDAP to localhost:389, indirect bind as user1. */
  method ExampleClient(filter: string) returns (client: Client)
    requires filter == "(&(objectClass=posixAccount)(uid=%s))"
    ensures client.protocol == ProtocolLdap && client.bind.Some? && client.bind.value.Indirect?
    ensures client.bind.value.indirect.bindDN == "uid=user1,ou=People,dc=test,dc=com"
    ensures client.bind.value.indirect.baseDN == "dc=test,dc=com"
    ensures UserFilter(client.bind.value.indirect.filter, "user2") == "(&(objectClass=posixAccount)(uid=user2))"
  {
    UserFilterExample(filter, "user2");
    var bind := AuthBind("uid=user1,ou=People,dc=test,dc=com", "admin", "dc=test,dc=com", filter);
    client := Client(ProtocolLdap, "localhost", 389, None, Some(Indirect(bind)));
  }

  /**
   * Authenticating `user2` twice: each call dials once, gets the entry the
   * search found, and leaves its own connection closed; the results agree.
   */
  method AuthenticateTwice(filter: string)
    requires filter == "(&(objectClass=posixAccount)(uid=%s))"
  {
    var client := ExampleClient(filter);
    var script := Script([None, None], [Ok(SearchResult([User2()]))], []);
    var net := new Network([Accepted(script), Accepted(script)]);
    var first := client.Authenticate(net, "user2", "user2");
    assert first == Ok(User2());
    var second := client.Authenticate(net, "user2", "user2");
    assert second == first;
    assert |net.conns| == 2 && net.conns[0].closed && net.conns[1].closed;
    assert net.conns[0] != net.conns[1];
    assert |net.dials| == 2;
  }

  /** The same client when the search matches two entries: an error and no user bind. */
  method AmbiguousUser(filter: string, other: Entry)
    requires filter == "(&(objectClass=posixAccount)(uid=%s))"
  {
    var client := ExampleClient(filter);
    var script := Script([None, None], [Ok(SearchResult([User2(), other]))], []);
    var net := new Network([Accepted(script)]);
    var r := client.Authenticate(net, "user2", "user2");
    assert r == Err(TooManyEntries("(&(objectClass=posixAccount)(uid=user2))"));
    assert CloseCount(net.conns[0].trace) == 1 && |net.conns[0].trace| == 3;
  }

  /** The anonymous-bind example client: empty service DN and password. */
  method AnonymousClient(filter: string) returns (client: Client)
    requires filter == "(&(objectClass=posixAccount)(uid=%s))"
    ensures client.protocol == ProtocolLdap && client.bind.Some? && client.bind.value.Indirect?
    ensures client.bind.value.indirect.bindDN == "" && client.bind.value.indirect.bindPassword == ""
  {
    UserFilterExample(filter, "user2");
    var bind := AuthBind("", "", "dc=test,dc=com", filter);
    client := Client(ProtocolLdap, "localhost", 389, None, Some(Indirect(bind)));
  }

  /** Anonymous bind: empty service DN and password are still sent as a bind, first. */
  method AnonymousBind(filter: string, reject: Cause)
    requires filter == "(&(objectClass=posixAccount)(uid=%s))"
  {
    var client := AnonymousClient(filter);
    var script := Script([Some(reject)], [], []);
    var net := new Network([Accepted(script)]);
    var r := client.Authenticate(net, "user2", "user2");
    assert r == Err(BindRejected("", reject));
    assert net.conns[0].trace == [BindOp("", ""), CloseOp];
  }
}
