/** Numbers in decimal and hexadecimal text. */
module Numerals {

  datatype Radix = Decimal | Hex

  /** The value of a digit, in either case; 16 for anything else. */
  function Value(c: char): (v: nat)
    ensures v <= 16
  {
    if '0' <= c <= '9' then c as int - '0' as int
    else if 'a' <= c <= 'f' then c as int - 'a' as int + 10
    else if 'A' <= c <= 'F' then c as int - 'A' as int + 10
    else 16
  }

  function Base(r: Radix): nat { if r.Hex? then 16 else 10 }

  function Scale(r: Radix, n: nat): nat { if r.Hex? then 16 * n else 10 * n }

  predicate IsDigit(r: Radix, c: char) { Value(c) < Base(r) }

  predicate AllDigits(r: Radix, s: string) { forall i :: 0 <= i < |s| ==> IsDigit(r, s[i]) }

  /** `/^\d{1,width}$/`, or its hexadecimal counterpart. */
  predicate Numeral(r: Radix, width: nat, s: string) { 1 <= |s| <= width && AllDigits(r, s) }

  function Number(r: Radix, s: string): nat
    requires AllDigits(r, s)
  {
    if s == [] then 0 else Scale(r, Number(r, s[..|s| - 1])) + Value(s[|s| - 1])
  }

  /** One past the largest number of `width` digits. */
  function Limit(r: Radix, width: nat): nat { if width == 0 then 1 else Scale(r, Limit(r, width - 1)) }

  lemma {:induction false} NumberBelow(r: Radix, s: string)
    requires AllDigits(r, s)
    ensures Number(r, s) < Limit(r, |s|)
  {
    if s != [] {
      NumberBelow(r, s[..|s| - 1]);
    }
  }

  function Digit(v: nat): (c: char)
    requires v < 16
    ensures Value(c) == v
  {
    if v < 10 then '0' + v as char else 'a' + (v - 10) as char
  }

  /** `n.toString(radix)`. */
  function Show(r: Radix, n: nat): string {
    if n < Base(r) then [Digit(n)] else Show(r, n / Base(r)) + [Digit(n % Base(r))]
  }

  /** Digits only, in lower case and with no leading zero; as few as the number needs; and
      they read back as the number. */
  lemma {:induction false} ShowIs(r: Radix, n: nat, width: nat)
    requires width > 0 && n < Limit(r, width)
    ensures Numeral(r, width, Show(r, n)) && Number(r, Show(r, n)) == n
    ensures forall i :: 0 <= i < |Show(r, n)| ==> !('A' <= Show(r, n)[i] <= 'F')
    ensures n > 0 ==> Show(r, n)[0] != '0'
  {
    var s := Show(r, n);
    if n < Base(r) {
      assert s[..0] == [];
    } else {
      assert Scale(r, n / Base(r)) + n % Base(r) == n;
      assert width >= 2;
      ShowIs(r, n / Base(r), width - 1);
      assert s[..|s| - 1] == Show(r, n / Base(r));
    }
  }
}
