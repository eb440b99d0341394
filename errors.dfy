/** The errors the core returns, one variant per distinct error it constructs. */
module Errors {
  import opened Ldap

  datatype Error =
    /** An error of `ldap.DialTLS`, returned as the library produced it. */
    | Library(cause: Cause)
    /** A plaintext dial failed; the message is "Dial: " and the cause. */
    | DialFailed(cause: Cause)
    /** The StartTLS upgrade failed; the message is "StartTLS: " and the cause. */
    | StartTlsFailed(cause: Cause)
    /** No bind strategy configured. */
    | BindIsNil
    /** A first-step bind was rejected; the message names the DN and the cause. */
    | BindRejected(dn: string, cause: Cause)
    /** The search request itself failed. */
    | SearchFailed(cause: Cause)
    /** The search matched no entry; the message names the filter. */
    | NoEntries(filter: string)
    /** The search matched more than one entry; the message names the filter. */
    | TooManyEntries(filter: string)
    /** The single match has an empty DN. */
    | NoDN
    /** The user's own bind was rejected; the message names the DN, not the cause. */
    | UserBindFailed(dn: string)
}
