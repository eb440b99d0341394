# go-ldapc authentication core, modelled in Dafny

go-ldapc authenticates a username and password against an LDAP directory. A
`Client` holds a protocol (plain LDAP, LDAPS, or StartTLS), a host, a port, a TLS
configuration and a `Bind` strategy. `Authenticate` dials the server, checks that a
strategy is set, runs it, and closes the connection through a deferred `Close`.
There are two strategies:

- `AuthBind` binds as a service account, searches the base DN with a filter built
  from the username, and re-binds as the single entry found.
- `DirectBind` binds as a DN built from a template, then runs a confirming search
  rooted at that DN.

The model drives an abstract directory connection. `Ldap.Conn` is a class that
keeps a ghost trace of the operations issued on it (bind, search, StartTLS,
close), answers each request from a scripted queue of replies, and has a `closed`
flag and a `tls` flag. `Ldap.Network` stands for the transport. It answers each dial
from a scripted queue of outcomes and keeps a ghost log of the dial attempts and
of every connection it opened. A strategy is specified by a pure function `Run`.
Given the replies the server will give, `Run` says which operations are issued
and what is returned. The `Auth` method that drives the connection is proved to
do exactly that. `Client.Dial` and `Client.Authenticate` are methods whose
contracts cover the dial log, every connection opened and its trace, and the
result. So the source's promises become checked postconditions:

- each step short-circuits the later ones;
- there is no final bind after a failed, empty or ambiguous search;
- every connection opened by `Authenticate` is closed exactly once, as its last
  operation, on every path.

Files: `basics.dfy` (Option, Result), `fmt.dfy` (the two `fmt.Sprintf` uses),
`ldap.dfy` (the library collaborator), `errors.dfy` (the error values), `bind.dfy`
(bind.go), `ldapc.dfy` (ldapc.go), `scenarios.dfy` (the example programs replayed
against a scripted directory).

Three points of the code's behaviour worth noting:

- `Authenticate` dials first and only then checks for a nil `Bind` (ldapc.go:44-52). It does not refuse before dialing.
- An LDAPS dial error is returned exactly as `ldap.DialTLS` produced it (`Errors.Library`). It is not wrapped with its phase.
- The confirming search in `DirectBind` always runs after a successful bind.

## Model

| member | source | states |
|---|---|---|
| `Fmt.SlotIndex` | bind.go:15-18 | the index found is `%` (or the end of the template) and no `%` comes before it |
| `Fmt.Substitute` | bind.go:94 | `fmt.Sprintf` of a one-slot template: the template's text before the slot, then the argument, then the template's text after the slot; its meaning is pinned by `Fmt.SubstituteAt` and `Fmt.TemplateShape` |
| `Fmt.SubstituteAt` | bind.go:15-18 | a template written as a `%`-free prefix, `%s` and a `%`-free suffix is well formed, and substituting puts the argument exactly between prefix and suffix |
| `Fmt.TemplateShape` | bind.go:17 | conversely, every one-slot template is such a prefix, `%s` and suffix |
| `Fmt.SubstituteInjective` | bind.go:17 | two different usernames never give the same filter or DN |
| `Fmt.NatText` | ldapc.go:60 | `%d` of a non-negative port is a non-empty string of decimal digits, with no leading zero |
| `Fmt.IntText` | ldapc.go:63 | `%d` of any port contains no colon |
| `Fmt.NatTextRoundTrip` | ldapc.go:60 | the digits `%d` writes read back as the same number |
| `Fmt.IntTextRoundTrip` | ldapc.go:63 | the signed text `%d` writes reads back as the same port, negative ports included |
| `Fmt.HostPort` | ldapc.go:60-63 | `fmt.Sprintf("%s:%d", host, port)`: the host, then a colon, and no colon after it, so the colon added is the last one; `Fmt.HostPortSplits` splits it back into the host and a text that parses to the port |
| `Fmt.LastColon` | ldapc.go:63 | the index returned is the last colon of the string, or -1 when there is none |
| `Fmt.HostPortSplits` | ldapc.go:60-63 | `"%s:%d"` of host and port, split at its last colon, gives exactly the host and a text that parses back to the port |
| `Ldap.CloseCountAppend` | ldapc.go:48 | the closes in a concatenated trace are the closes of its two parts |
| `Ldap.CloseCountNone` | ldapc.go:48 | a trace with no close operation closes zero times |
| `Ldap.Conn.Bind` | bind.go:55 | records one bind with exactly that DN and password, answers with the next scripted bind reply; requires an open connection |
| `Ldap.Conn.Search` | bind.go:26 | records one search with exactly that request, answers with the next scripted search reply; requires an open connection |
| `Ldap.Conn.StartTls` | ldapc.go:69 | records one StartTLS with that configuration; afterwards the connection is encrypted when it already was or the upgrade succeeded |
| `Ldap.Conn.Close` | ldapc.go:71 | appends one close to the trace and marks the connection closed |
| `Ldap.Network.Dial` | ldapc.go:63 | logs a plaintext dial to the address; a refusal opens nothing and returns its cause, an acceptance returns a fresh, open, unencrypted connection with an empty trace, recorded as opened |
| `Ldap.Network.DialTls` | ldapc.go:60 | logs a TLS dial with the address and configuration; on acceptance the fresh connection is encrypted from the start |
| `Binding.UserFilter` | bind.go:15-18 | the filter is the template with the username in its slot: the template's text before the slot, the username, the template's text after the slot |
| `Binding.UserSearch` | bind.go:22-24 | the request is rooted at the given base DN with the given filter, whole subtree, no alias dereferencing, size and time limits 0, not types-only, no attribute list and no controls |
| `Binding.Classify` | bind.go:27-35 | success exactly when the search reply is a result with one entry, and then that entry unchanged; a transport error, zero entries and several entries give the three distinct errors, the last two naming the filter |
| `Binding.Search` | bind.go:20-36 | issues exactly one request: whole subtree, rooted at the base DN, no alias dereferencing, size and time limits 0, not types-only, the given filter, no attribute list and no controls; returns `Classify` of its reply; the connection stays open |
| `Binding.UserFilterExample` | ldapc_test.go:21-25 | `(&(objectClass=posixAccount)(uid=%s))` with `user2` is a one-slot template and gives `(&(objectClass=posixAccount)(uid=user2))` |
| `Binding.UserDNExample` | ldapc_test.go:77-78 | `uid=%s,ou=People,dc=test,dc=com` with `user2` gives `uid=user2,ou=People,dc=test,dc=com` |
| `Binding.AuthBind.Run` | bind.go:52-80 | the first operation is always the service bind (even with empty DN and password); a rejected service bind ends the run with an error naming the service DN; otherwise exactly one subtree search under the base DN with the substituted filter; a failed, empty or ambiguous search is returned unchanged and an empty DN fails, both with no second bind; otherwise one bind as the found DN with the user's password, once, whose rejection names the DN; success exactly when all three operations succeeded, and then the operations are exactly service bind, search, user bind and the result is the sole entry unchanged |
| `Binding.AuthBind.Auth` | bind.go:52-80 | the connection's new trace is the old one extended by exactly the operations of `Run`, the result is `Run`'s, the replies left are `Run`'s; the connection stays open and its encryption unchanged |
| `Binding.DirectBind.Run` | bind.go:93-110 | the first operation binds as the templated DN with the user's password; a rejection ends the run before any search, naming that DN; otherwise one search rooted at that DN (not a separate base) with the substituted filter, whose verdict is returned unchanged; success exactly when the bind succeeded and the search found exactly one entry |
| `Binding.DirectBind.Auth` | bind.go:93-110 | the connection's trace is extended by exactly `Run`'s operations and the result is `Run`'s; the connection stays open |
| `Binding.Bind.Run` | bind.go:10-13 | whichever strategy runs issues one to three operations, all binds or searches (never StartTLS or close), starting with a bind; no strategy succeeds without an accepted first bind followed by a search |
| `Binding.Bind.Auth` | ldapc.go:54 | dispatches to the configured strategy; its trace and result are those of `Bind.Run` |
| `Ldapc.Client.DialAttempt` | ldapc.go:58-63 | the one dial is a TLS dial exactly when the protocol is LDAPS; its address is `"host:port"`; a TLS dial carries the client's TLS configuration |
| `Ldapc.Client.Dial` | ldapc.go:57-79 | exactly one dial: TLS to `"host:port"` with the client's TLS configuration for LDAPS, plaintext otherwise; a refused LDAPS dial returns the library error unwrapped, a refused plain dial a `Dial:` error, and neither opens anything; with StartTLS one upgrade with the client's configuration, and if it fails the connection is closed (trace StartTLS then close) and an error returned instead of it; with any other protocol value the connection is returned open, never upgraded, encrypted exactly for LDAPS |
| `Ldapc.Client.Authenticate` | ldapc.go:43-55 | exactly one dial, before anything else; the connection it opens, if any, is new; a dial or StartTLS failure is returned and no strategy runs; a nil `Bind` yields `BindIsNil` after the dial and the connection is still closed; otherwise the connection's trace is the upgrade (if any), then exactly the strategy's operations, then one close, and the strategy's result is returned unchanged; every connection the call opened ends closed, closed exactly once, with the close as its last operation |
| `Ldapc.Client.AuthenticateOn` | ldapc.go:48-54 | after a successful dial: with a nil `Bind` returns `BindIsNil` and the trace gains only the close; otherwise the trace gains exactly the strategy's operations and then one close, and the strategy's result is returned unchanged; the connection ends closed, with exactly one more close than before, as its last operation |
| `Scenarios.ExampleClient` | ldapc_test.go:12-23 | the example client uses plain LDAP, indirect bind as `uid=user1,ou=People,dc=test,dc=com` under `dc=test,dc=com`, and its filter for `user2` is `(&(objectClass=posixAccount)(uid=user2))` |

`scenarios.dfy` also replays these runs through `Authenticate`, as assertions the verifier proves from the contracts alone:

- `AuthenticateTwice`: two identical runs give the same entry, with two separate connections, each closed.
- `AmbiguousUser`: a search with two matches gives the ambiguity error, with no user bind.
- `AnonymousBind`: an empty service DN and password are still sent as the first bind.

## Left out

- The LDAP wire protocol and `gopkg.in/ldap.v2` itself (dial, TLS handshake, bind and search encoding). The connection and the transport answer from scripted replies. An exhausted queue answers with a fixed error (`Ldap.HangUp`, `Ldap.Unreachable`).
- `Fmt.HostPortSplits`: the split is a plain last-colon split. The library's own address parsing refuses a host that contains `:` without brackets (an unbracketed IPv6 address such as `::1`), so for such a host the dial fails, a case the model's scripted transport does not derive from the address.
- The `"tcp"` network argument of the dial calls is a constant and is not recorded.
- TLS configuration is an opaque value that is passed through. The handshake is not modelled.
- Debug logging gated on `LDAPC_DEBUG` (ldapc.go:15-19 and the `debug` calls in bind.go) writes to a log and nothing else, so it is not modelled. The `username` parameter of `Binding.Search` is used only for that logging.
- `fmt.Sprintf` on malformed templates (no `%s`, several verbs, `%%`, the `%!s(MISSING)` output). The `Fmt.Template` type admits only templates with exactly one `%s` and no other `%`, so `AuthBind.filter`, `DirectBind.userDN` and `DirectBind.filter` are restricted to those.
- Error text. Each error the core builds is a distinct `Errors.Error` variant. Its fields carry the DN, the filter or the underlying cause that the message would show. The message strings themselves are not built.
- Entry attributes and `GetAttributeValue`. An entry is an opaque record whose DN the core reads. Referrals and controls of a search result are not modelled.
- A `Bind` interface that holds a nil `*AuthBind` or `*DirectBind` is non-nil in Go and would panic on use. The model has only a present or an absent strategy.
- Operating on a closed connection. The library would report an error; the model's connection methods require an open connection instead, which proves that the core never uses a closed one.
- Filter escaping and injection safety: the source does none.
