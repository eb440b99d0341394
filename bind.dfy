/**
 * The two bind strategies and the search they share. Each strategy is a pure
 * `Run` over the replies the server will give, stating what is issued and what
 * is returned, and an `Auth` method that drives a connection and is proved to
 * do exactly what `Run` says.
 */
module Binding {
  import opened Basics
  import opened Fmt
  import opened Ldap
  import opened Errors

  /** `userFilter`: the username put into the filter template's slot. */
  function UserFilter(filter: Template, username: string): (r: string)
    // the username stands in the slot, the rest of the template around it
    ensures |r| == |filter| - 2 + |username|
    ensures r[..SlotIndex(filter)] == filter[..SlotIndex(filter)]
    ensures r[SlotIndex(filter)..SlotIndex(filter) + |username|] == username
    ensures r[SlotIndex(filter) + |username|..] == filter[SlotIndex(filter) + 2..]
  {
    Substitute(filter, username)
  }

  /** The request `search` builds: whole subtree, no alias dereferencing, no limits, all attributes. */
  function UserSearch(baseDN: string, filter: string): (q: SearchRequest)
    ensures q.baseDN == baseDN && q.filter == filter
    ensures q.scope == WholeSubtree && q.derefAliases == NeverDerefAliases
    ensures q.sizeLimit == 0 && q.timeLimit == 0 && !q.typesOnly
    ensures q.attributes == None && q.controls == None
  {
    SearchRequest(baseDN, WholeSubtree, NeverDerefAliases, 0, 0, false, filter, None, None)
  }

  /** The verdict `search` reaches on the reply to its request. */
  function Classify(reply: Result<SearchResult, Cause>, filter: string): (r: Result<Entry, Error>)
    ensures r.Ok? <==> reply.Ok? && |reply.value.entries| == 1
    ensures r.Ok? ==> r.value == reply.value.entries[0]
    ensures reply.Err? ==> r == Err(SearchFailed(reply.error))
    ensures reply.Ok? && |reply.value.entries| == 0 ==> r == Err(NoEntries(filter))
    ensures reply.Ok? && |reply.value.entries| > 1 ==> r == Err(TooManyEntries(filter))
  {
    match reply
    case Err(c) => Err(SearchFailed(c))
    case Ok(result) =>
      if |result.entries| < 1 then Err(NoEntries(filter))
      else if |result.entries| > 1 then Err(TooManyEntries(filter))
      else Ok(result.entries[0])
  }

  /** `search`: one request on `conn`, judged by `Classify`. The username only feeds debug output. */
  method Search(conn: Conn, username: string, baseDN: string, filter: string) returns (r: Result<Entry, Error>)
    requires !conn.closed
    modifies conn
    ensures conn.trace == old(conn.trace) + [SearchOp(UserSearch(baseDN, filter))]
    ensures conn.replies == old(conn.replies).AfterSearch()
    ensures r == Classify(old(conn.replies).NextSearch(), filter)
    ensures !conn.closed && conn.tls == old(conn.tls)
  {
    var request := UserSearch(baseDN, filter);
    var result := conn.Search(request);
    r := Classify(result, filter);
  }

  // The example lemmas take their strings as parameters fixed by `requires`: a string
  // literal in a goal makes the verifier unfold `SlotIndex` over it character by character.

  /** The posixAccount filter of the examples as prefix, slot and suffix. */
  lemma FilterParts(filter: string, prefix: string, suffix: string)
    requires filter == "(&(objectClass=posixAccount)(uid=%s))"
    requires prefix == "(&(objectClass=posixAccount)(uid=" && suffix == "))"
    ensures filter == prefix + "%s" + suffix && NoPercent(prefix) && NoPercent(suffix)
    ensures prefix + "user2" + suffix == "(&(objectClass=posixAccount)(uid=user2))"
  {
  }

  /** The posixAccount filter of the examples, with `user2` substituted. */
  lemma UserFilterExample(filter: string, username: string)
    requires filter == "(&(objectClass=posixAccount)(uid=%s))" && username == "user2"
    ensures IsTemplate(filter)
    ensures UserFilter(filter, username) == "(&(objectClass=posixAccount)(uid=user2))"
  {
    var prefix, suffix := "(&(objectClass=posixAccount)(uid=", "))";
    FilterParts(filter, prefix, suffix);
    SubstituteAt(prefix, suffix, username);
  }

  /** The direct-bind DN template of the examples as prefix, slot and suffix. */
  lemma DNParts(userDN: string, prefix: string, suffix: string)
    requires userDN == "uid=%s,ou=People,dc=test,dc=com"
    requires prefix == "uid=" && suffix == ",ou=People,dc=test,dc=com"
    ensures userDN == prefix + "%s" + suffix
  {
  }

  lemma DNPlain(prefix: string, suffix: string)
    requires prefix == "uid=" && suffix == ",ou=People,dc=test,dc=com"
    ensures NoPercent(prefix) && NoPercent(suffix)
  {
  }

  lemma DNJoined(prefix: string, suffix: string, dn: string)
    requires prefix == "uid=" && suffix == ",ou=People,dc=test,dc=com"
    requires dn == "uid=user2,ou=People,dc=test,dc=com"
    ensures prefix + "user2" + suffix == dn
  {
  }

  /** The direct-bind DN template of the examples, with `user2` substituted. */
  lemma UserDNExample(userDN: string, username: string)
    requires userDN == "uid=%s,ou=People,dc=test,dc=com" && username == "user2"
    ensures IsTemplate(userDN)
    ensures Substitute(userDN, username) == "uid=user2,ou=People,dc=test,dc=com"
  {
    var prefix, suffix := "uid=", ",ou=People,dc=test,dc=com";
    DNParts(userDN, prefix, suffix);
    DNPlain(prefix, suffix);
    DNJoined(prefix, suffix, "uid=user2,ou=People,dc=test,dc=com");
    SubstituteAt(prefix, suffix, username);
  }

  /** Ops a bind strategy may issue: it neither upgrades nor closes the connection. */
  predicate BindsAndSearches(ops: seq<Op>) {
    forall i :: 0 <= i < |ops| ==> ops[i].BindOp? || ops[i].SearchOp?
  }

  /** What one strategy run did: the ops it issued, what it returned, the replies left. */
  datatype Exchange = Exchange(ops: seq<Op>, result: Result<Entry, Error>, rest: Script)

  /** Indirect bind: service bind, search for the user, bind as the entry found. */
  datatype AuthBind = AuthBind(bindDN: string, bindPassword: string, baseDN: string, filter: Template)
  {
    function Run(username: string, password: string, s: Script): (x: Exchange)
      // The service bind always comes first, even with an empty DN and password.
      ensures 1 <= |x.ops| <= 3 && x.ops[0] == BindOp(bindDN, bindPassword)
      ensures BindsAndSearches(x.ops)
      // A rejected service bind ends the run, naming the service DN.
      ensures s.NextBind().Some? <==> |x.ops| == 1
      ensures s.NextBind().Some? ==> x.result == Err(BindRejected(bindDN, s.NextBind().value))
      // Otherwise exactly one subtree search under the base DN with the substituted filter.
      ensures s.NextBind().None? ==>
        x.ops[1] == SearchOp(UserSearch(baseDN, UserFilter(filter, username)))
      ensures var found := Classify(s.AfterBind().NextSearch(), UserFilter(filter, username));
        s.NextBind().None? ==>
          // a failed, empty or ambiguous search is returned as it is, with no second bind
          (found.Err? ==> |x.ops| == 2 && x.result == found) &&
          // a match without a DN fails with no second bind
          (found.Ok? && found.value.dn == "" ==> |x.ops| == 2 && x.result == Err(NoDN)) &&
          // a match with a DN is bound with the user's password, once
          (found.Ok? && found.value.dn != "" ==>
            |x.ops| == 3 && x.ops[2] == BindOp(found.value.dn, password) &&
            x.result == (if s.AfterBind().AfterSearch().NextBind().None? then found
                         else Err(UserBindFailed(found.value.dn))))
      // Success only through service bind, search, user bind, returning the sole match unchanged.
      ensures x.result.Ok? <==>
        |x.ops| == 3 && s.AfterBind().AfterSearch().NextBind().None?
      ensures x.result.Ok? ==>
        x.ops == [BindOp(bindDN, bindPassword),
                  SearchOp(UserSearch(baseDN, UserFilter(filter, username))),
                  BindOp(x.result.value.dn, password)] &&
        x.result.value.dn != "" &&
        s.AfterBind().NextSearch() == Ok(SearchResult([x.result.value]))
    {
      var serviceBind := BindOp(bindDN, bindPassword);
      match s.NextBind()
      case Some(c) => Exchange([serviceBind], Err(BindRejected(bindDN, c)), s.AfterBind())
      case None =>
        var s1 := s.AfterBind();
        var userFilter := UserFilter(filter, username);
        var search := SearchOp(UserSearch(baseDN, userFilter));
        var found := Classify(s1.NextSearch(), userFilter);
        var s2 := s1.AfterSearch();
        if found.Err? then Exchange([serviceBind, search], found, s2)
        else if found.value.dn == "" then Exchange([serviceBind, search], Err(NoDN), s2)
        else
          var userBind := BindOp(found.value.dn, password);
          match s2.NextBind()
          case Some(_) => Exchange([serviceBind, search, userBind], Err(UserBindFailed(found.value.dn)), s2.AfterBind())
          case None =>
            assert s1.NextSearch().value.entries == [found.value];
            Exchange([serviceBind, search, userBind], found, s2.AfterBind())
    }

    /** `AuthBind.auth`. */
    method Auth(conn: Conn, username: string, password: string) returns (r: Result<Entry, Error>)
      requires !conn.closed
      modifies conn
      ensures var x := Run(username, password, old(conn.replies));
        conn.trace == old(conn.trace) + x.ops && conn.replies == x.rest && r == x.result
      ensures !conn.closed && conn.tls == old(conn.tls)
    {
      var err := conn.Bind(bindDN, bindPassword);
      if err.Some? {
        return Err(BindRejected(bindDN, err.value));
      }
      var found := Search(conn, username, baseDN, UserFilter(filter, username));
      if found.Err? {
        return found;
      }
      var entry := found.value;
      var userDN := entry.dn;
      if userDN == "" {
        return Err(NoDN);
      }
      err := conn.Bind(userDN, password);
      if err.Some? {
        return Err(UserBindFailed(userDN));
      }
      return Ok(entry);
    }
  }

  /** Direct bind: bind with the DN built from the template, then confirm with a search under it. */
  datatype DirectBind = DirectBind(userDN: Template, filter: Template)
  {
    function Run(username: string, password: string, s: Script): (x: Exchange)
      // The first op binds as the templated DN with the user's password.
      ensures 1 <= |x.ops| <= 2 && x.ops[0] == BindOp(Substitute(userDN, username), password)
      ensures BindsAndSearches(x.ops)
      // A rejected bind ends the run before any search, naming the DN.
      ensures s.NextBind().Some? <==> |x.ops| == 1
      ensures s.NextBind().Some? ==>
        x.result == Err(BindRejected(Substitute(userDN, username), s.NextBind().value))
      // Otherwise one search rooted at that DN, whose verdict is returned as it is.
      ensures s.NextBind().None? ==>
        x.ops[1] == SearchOp(UserSearch(Substitute(userDN, username), UserFilter(filter, username))) &&
        x.result == Classify(s.AfterBind().NextSearch(), UserFilter(filter, username))
      ensures x.result.Ok? <==>
        s.NextBind().None? && s.AfterBind().NextSearch().Ok? &&
        |s.AfterBind().NextSearch().value.entries| == 1
    {
      var dn := Substitute(userDN, username);
      var userBind := BindOp(dn, password);
      match s.NextBind()
      case Some(c) => Exchange([userBind], Err(BindRejected(dn, c)), s.AfterBind())
      case None =>
        var s1 := s.AfterBind();
        var userFilter := UserFilter(filter, username);
        Exchange([userBind, SearchOp(UserSearch(dn, userFilter))],
                 Classify(s1.NextSearch(), userFilter), s1.AfterSearch())
    }

    /** `DirectBind.auth`. */
    method Auth(conn: Conn, username: string, password: string) returns (r: Result<Entry, Error>)
      requires !conn.closed
      modifies conn
      ensures var x := Run(username, password, old(conn.replies));
        conn.trace == old(conn.trace) + x.ops && conn.replies == x.rest && r == x.result
      ensures !conn.closed && conn.tls == old(conn.tls)
    {
      var dn := Substitute(userDN, username);
      var err := conn.Bind(dn, password);
      if err.Some? {
        return Err(BindRejected(dn, err.value));
      }
      r := Search(conn, username, dn, UserFilter(filter, username));
    }
  }

  /** The `Bind` interface: exactly these two strategies. */
  datatype Bind = Indirect(indirect: AuthBind) | Direct(direct: DirectBind)
  {
    function Run(username: string, password: string, s: Script): (x: Exchange)
      ensures 1 <= |x.ops| <= 3 && x.ops[0].BindOp? && BindsAndSearches(x.ops)
      // No strategy succeeds without a bind that was accepted and a search after it.
      ensures x.result.Ok? ==> |x.ops| >= 2 && s.NextBind().None? && x.ops[1].SearchOp?
    {
      match this
      case Indirect(a) => a.Run(username, password, s)
      case Direct(d) => d.Run(username, password, s)
    }

    /** `Bind.auth`, dispatched on the strategy. */
    method Auth(conn: Conn, username: string, password: string) returns (r: Result<Entry, Error>)
      requires !conn.closed
      modifies conn
      ensures var x := Run(username, password, old(conn.replies));
        conn.trace == old(conn.trace) + x.ops && conn.replies == x.rest && r == x.result
      ensures !conn.closed && conn.tls == old(conn.tls)
    {
      match this
      case Indirect(a) => r := a.Auth(conn, username, password);
      case Direct(d) => r := d.Auth(conn, username, password);
    }
  }
}
