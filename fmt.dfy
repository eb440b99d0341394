/**
 * The two uses of Go's `fmt.Sprintf` in the core: substituting a username into a
 * template with one `%s` slot, and rendering an address as `"%s:%d"`.
 */
module Fmt {
  import opened Basics

  /** `s` contains no `%`, so `Sprintf` copies it verbatim. */
  predicate NoPercent(s: string) {
    forall i :: 0 <= i < |s| ==> s[i] != '%'
  }

  /** Index of the first `%` in `t`, or `|t|` if there is none. */
  function SlotIndex(t: string): (i: nat)
    ensures i <= |t|
    ensures i < |t| ==> t[i] == '%'
    ensures NoPercent(t[..i])
  {
    if t == [] then 0
    else if t[0] == '%' then 0
    else
      var j := SlotIndex(t[1..]);
      assert t[..1 + j] == [t[0]] + t[1..][..j];
      1 + j
  }

  /** A template with exactly one substitution slot `%s` and no other verb. */
  predicate IsTemplate(t: string) {
    var i := SlotIndex(t);
    i + 1 < |t| && t[i + 1] == 's' && NoPercent(t[i + 2..])
  }

  type Template = t: string | IsTemplate(t) witness "%s"

  /** `fmt.Sprintf(t, arg)` for a template with one `%s`: the slot is replaced by `arg`. */
  function Substitute(t: Template, arg: string): (r: string)
    // the text before the slot, then the argument, then the text after the slot
    ensures |r| == |t| - 2 + |arg|
    ensures r[..SlotIndex(t)] == t[..SlotIndex(t)]
    ensures r[SlotIndex(t)..SlotIndex(t) + |arg|] == arg
    ensures r[SlotIndex(t) + |arg|..] == t[SlotIndex(t) + 2..]
  {
    var i := SlotIndex(t);
    t[..i] + arg + t[i + 2..]
  }

  /** Scanning for `%` passes over a `%`-free prefix. */
  lemma {:induction false} SlotIndexAfterPlain(p: string, rest: string)
    requires NoPercent(p)
    ensures SlotIndex(p + rest) == |p| + SlotIndex(rest)
  {
    if p == [] {
      assert p + rest == rest;
    } else {
      assert (p + rest)[1..] == p[1..] + rest;
      assert (p + rest)[0] == p[0] != '%';
      assert SlotIndex(p + rest) == 1 + SlotIndex(p[1..] + rest);
      SlotIndexAfterPlain(p[1..], rest);
    }
  }

  /**
   * Every way of writing a template as a `%`-free prefix, the slot `%s` and a
   * `%`-free suffix is one where substitution puts the argument between the two.
   */
  lemma {:induction false} SubstituteAt(prefix: string, suffix: string, arg: string)
    requires NoPercent(prefix) && NoPercent(suffix)
    ensures IsTemplate(prefix + "%s" + suffix)
    ensures Substitute(prefix + "%s" + suffix, arg) == prefix + arg + suffix
  {
    var t := prefix + "%s" + suffix;
    assert t == prefix + ("%s" + suffix);
    SlotIndexAfterPlain(prefix, "%s" + suffix);
    assert SlotIndex(t) == |prefix|;
    assert t[..|prefix|] == prefix;
    assert t[|prefix| + 2..] == suffix;
  }

  /** Conversely every template is such a prefix, slot and suffix. */
  lemma TemplateShape(t: Template)
    ensures var i := SlotIndex(t);
      t == t[..i] + "%s" + t[i + 2..] && NoPercent(t[..i]) && NoPercent(t[i + 2..])
  {
    var i := SlotIndex(t);
    assert t[i..i + 2] == "%s";
    assert t == t[..i] + t[i..i + 2] + t[i + 2..];
  }

  /** Different usernames give different substituted strings. */
  lemma SubstituteInjective(t: Template, a: string, b: string)
    requires Substitute(t, a) == Substitute(t, b)
    ensures a == b
  {
    var i := SlotIndex(t);
    var r := Substitute(t, a);
    assert |a| == |b|;
    assert r[i..i + |a|] == a;
    assert Substitute(t, b)[i..i + |b|] == b;
  }

  /** Decimal digit character for `d`. */
  function Digit(d: nat): (c: char)
    requires d < 10
    ensures '0' <= c <= '9' && (c as int) - ('0' as int) == d
  {
    (('0' as int) + d) as char
  }

  /** Go's `%d` of a non-negative integer: its decimal digits, no leading zero. */
  function NatText(n: nat): (r: string)
    ensures |r| >= 1
    ensures forall i :: 0 <= i < |r| ==> '0' <= r[i] <= '9'
    ensures r[0] == '0' ==> n == 0
  {
    if n < 10 then [Digit(n)] else NatText(n / 10) + [Digit(n % 10)]
  }

  /** Go's `%d` of an `int`: a minus sign before the digits of a negative number. */
  function IntText(n: int): (r: string)
    ensures forall i :: 0 <= i < |r| ==> r[i] != ':'
  {
    if n < 0 then "-" + NatText(-n) else NatText(n)
  }

  /** Reads a string of decimal digits back as a number. */
  function ParseNat(s: string): nat {
    if s == [] then 0
    else
      var c := s[|s| - 1];
      ParseNat(s[..|s| - 1]) * 10 + (if '0' <= c <= '9' then (c as int) - ('0' as int) else 0)
  }

  /** Reads an optionally signed decimal number. */
  function ParseInt(s: string): int {
    if s != [] && s[0] == '-' then -(ParseNat(s[1..]) as int) else ParseNat(s)
  }

  lemma {:induction false} NatTextRoundTrip(n: nat)
    ensures ParseNat(NatText(n)) == n
  {
    if n >= 10 {
      var s := NatText(n);
      assert s[..|s| - 1] == NatText(n / 10);
      assert s[|s| - 1] == Digit(n % 10);
      NatTextRoundTrip(n / 10);
      assert ParseNat(s) == (n / 10) * 10 + n % 10;
    }
  }

  /** Parsing undoes `%d`. */
  lemma IntTextRoundTrip(n: int)
    ensures ParseInt(IntText(n)) == n
  {
    if n < 0 {
      NatTextRoundTrip(-n);
      assert IntText(n)[1..] == NatText(-n);
    } else {
      NatTextRoundTrip(n);
    }
  }

  /** `fmt.Sprintf("%s:%d", host, port)`; `HostPortSplits` reads the port back. */
  function HostPort(host: string, port: int): (a: string)
    // the host, then a colon, and no colon after it
    ensures |a| > |host| && a[..|host|] == host && a[|host|] == ':'
    ensures forall i :: |host| < i < |a| ==> a[i] != ':'
  {
    host + ":" + IntText(port)
  }

  /** Index of the last `:` in `s`, or -1. */
  function LastColon(s: string): (i: int)
    ensures -1 <= i < |s|
    ensures i >= 0 ==> s[i] == ':'
    ensures forall j :: i < j < |s| ==> s[j] != ':'
  {
    if s == [] then -1
    else if s[|s| - 1] == ':' then |s| - 1
    else LastColon(s[..|s| - 1])
  }

  /** Splits an address at its last colon into host and port text. */
  function SplitHostPort(a: string): Option<(string, string)> {
    var i := LastColon(a);
    if i < 0 then None else Some((a[..i], a[i + 1..]))
  }

  lemma {:induction false} LastColonBeforePlain(s: string, d: string)
    requires forall i :: 0 <= i < |d| ==> d[i] != ':'
    ensures LastColon(s + d) == LastColon(s)
  {
    if d == [] {
      assert s + d == s;
    } else {
      var e := d[..|d| - 1];
      assert (s + d)[..|s + d| - 1] == s + e;
      assert (s + d)[|s + d| - 1] == d[|d| - 1] != ':';
      assert LastColon(s + d) == LastColon(s + e);
      LastColonBeforePlain(s, e);
    }
  }

  /** The formatted address splits at its last colon back into the host and a port text that parses to the port. */
  lemma HostPortSplits(host: string, port: int)
    ensures SplitHostPort(HostPort(host, port)) == Some((host, IntText(port)))
    ensures ParseInt(IntText(port)) == port
  {
    var a := HostPort(host, port);
    LastColonBeforePlain(host + ":", IntText(port));
    assert LastColon(host + ":") == |host|;
    assert a[..|host|] == host;
    assert a[|host| + 1..] == IntText(port);
    IntTextRoundTrip(port);
  }
}
