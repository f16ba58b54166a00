/** Percent-encoding of octets (section 2.1 of RFC 3986), as `encodeURIComponent` and
    `URLSearchParams` do it. Text stands for its UTF-8 octets, one character each. */
module Percent {
  import opened Bytes
  import opened Numerals
  import opened Text

  type octet = c: char | c as int < 0x100

  type Octets = seq<octet>

  datatype Form = Component | Query

  predicate IsAlphanumeric(c: char) { '0' <= c <= '9' || 'a' <= Lower(c) <= 'z' }

  /** Characters left as they are. */
  predicate Unreserved(f: Form, c: char) {
    IsAlphanumeric(c) || c in "-_.*" || (f == Component && c in "!~'()")
  }

  function Upper(v: nat): (c: octet)
    requires v < 16
    ensures Value(c) == v && (IsAlphanumeric(c))
  {
    if v < 10 then '0' + v as char else 'A' + (v - 10) as char
  }

  function EncodeOctet(f: Form, c: octet): Octets {
    if Unreserved(f, c) then [c]
    else if f == Query && c == ' ' then "+"
    else ['%', Upper(c as int / 16), Upper(c as int % 16)]
  }

  function Encode(f: Form, s: Octets): Octets {
    if s == [] then [] else EncodeOctet(f, s[0]) + Encode(f, s[1..])
  }

  predicate IsEscape(s: Octets) { |s| >= 3 && s[0] == '%' && Value(s[1]) < 16 && Value(s[2]) < 16 }

  function Escaped(s: Octets): octet
    requires IsEscape(s)
  {
    (16 * Value(s[1]) + Value(s[2])) as char
  }

  /** `decodeURIComponent`; nothing for a `%` that starts no escape. */
  function DecodeComponent(s: Octets): Option<Octets> {
    if s == [] then Some([])
    else if s[0] == '%' then
      if !IsEscape(s) then None
      else
        match DecodeComponent(s[3..])
        case Some(t) => Some([Escaped(s)] + t)
        case None => None
    else
      match DecodeComponent(s[1..])
      case Some(t) => Some([s[0]] + t)
      case None => None
  }

  /** The decoder of `URLSearchParams`: `+` is a space, and a stray `%` stays. */
  function DecodeQuery(s: Octets): Octets {
    if s == [] then []
    else if IsEscape(s) then [Escaped(s)] + DecodeQuery(s[3..])
    else [if s[0] == '+' then ' ' else s[0]] + DecodeQuery(s[1..])
  }

  /** What each octet becomes, by the tables of the two encoders: itself, or its value in two
      capital hexadecimal digits behind a percent sign; a space in a query, a plus sign. */
  lemma EncodeOctetIs(f: Form, c: octet)
    ensures var n := c as int;
      var kept := 48 <= n <= 57 || 65 <= n <= 90 || 97 <= n <= 122
                  || c in (if f == Component then "-_.!~*'()" else "*-._");
      EncodeOctet(f, c) == if kept then [c] else if f == Query && c == ' ' then "+"
                           else ['%', "0123456789ABCDEF"[n / 16], "0123456789ABCDEF"[n % 16]]
  {
    CapitalDigit(c as int / 16);
    CapitalDigit(c as int % 16);
  }

  lemma CapitalDigit(v: nat)
    requires v < 16
    ensures Upper(v) == "0123456789ABCDEF"[v]
  {
  }

  /** Only these occur in encoded text, so it never meets a delimiter. */
  predicate Encoded(c: char) { IsAlphanumeric(c) || c in "-_.*!~'()%+" }

  predicate AllEncoded(s: string) { forall i :: 0 <= i < |s| ==> Encoded(s[i]) }

  lemma {:induction false} EncodedText(f: Form, s: Octets)
    ensures AllEncoded(Encode(f, s)) && (Encode(f, s) == [] <==> s == [])
  {
    if s != [] {
      EncodedText(f, s[1..]);
      assert Encoded(EncodeOctet(f, s[0])[0]);
    }
  }

  lemma EscapeBack(c: octet)
    ensures var s := ['%', Upper(c as int / 16), Upper(c as int % 16)]; IsEscape(s) && Escaped(s) == c
  {
  }

  lemma EscapeStep(c: octet, rest: Octets)
    ensures var s: Octets := ['%', Upper(c as int / 16), Upper(c as int % 16)] + rest;
      IsEscape(s) && Escaped(s) == c && s[3..] == rest
  {
    EscapeBack(c);
  }

  /** A component decodes to itself. */
  lemma {:induction false} ComponentRoundTrip(s: Octets)
    ensures DecodeComponent(Encode(Component, s)) == Some(s)
  {
    if s != [] {
      var c, rest := s[0], Encode(Component, s[1..]);
      ComponentRoundTrip(s[1..]);
      assert s == [c] + s[1..];
      if Unreserved(Component, c) {
        assert ([c] + rest)[1..] == rest;
      } else {
        EscapeStep(c, rest);
      }
    }
  }

  /** The query decoder undoes either encoder. */
  lemma {:induction false} QueryRoundTrip(f: Form, s: Octets)
    ensures DecodeQuery(Encode(f, s)) == s
  {
    if s != [] {
      var c, rest := s[0], Encode(f, s[1..]);
      QueryRoundTrip(f, s[1..]);
      assert s == [c] + s[1..];
      if Unreserved(f, c) {
        assert ([c] + rest)[1..] == rest;
      } else if f == Query && c == ' ' {
        assert ("+" + rest)[1..] == rest;
      } else {
        EscapeStep(c, rest);
      }
    }
  }
}
