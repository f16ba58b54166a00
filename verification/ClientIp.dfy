/** Which address a request is attributed to (apps/server/src/client-ip.ts). */
module ClientIp {
  import opened Bytes
  import opened IpText

  // ---- Prefixes ------------------------------------------------------------------------

  /** `bits` leading bits of an address; at most all of them, as `parseCidr` makes sure. */
  datatype Cidr = Cidr(bytes: seq<byte>, bits: nat)

  ghost predicate Valid(c: Cidr) { |c.bytes| in {4, 16} && c.bits <= 8 * |c.bytes| }

  function Pow2(n: nat): (r: nat)
    ensures r > 0
  {
    if n == 0 then 1 else 2 * Pow2(n - 1)
  }

  /** The address as one number, the first byte the most significant. */
  function BigEndian(b: seq<byte>): nat { if b == [] then 0 else BigEndian(b[..|b| - 1]) * 0x100 + b[|b| - 1] }

  /** Membership by numbers: equal once all but the leading bits are divided away. */
  ghost predicate Covers(c: Cidr, ip: seq<byte>)
    requires Valid(c)
  {
    && |ip| == |c.bytes|
    && var shift := 8 * |ip| - c.bits;
      BigEndian(ip) / Pow2(shift) == BigEndian(c.bytes) / Pow2(shift)
  }

  /** The leading `bits` bits of a byte. */
  function High(x: byte, bits: nat): int
    requires bits <= 8
  {
    x / Pow2(8 - bits)
  }

  ghost predicate SameBits(a: seq<byte>, b: seq<byte>, bits: nat)
    requires |a| == |b| && bits <= 8 * |a|
  {
    var whole, rest := bits / 8, bits % 8;
    a[..whole] == b[..whole] && (rest == 0 || High(a[whole], rest) == High(b[whole], rest))
  }

  lemma DivideTwice(y: nat, p: nat)
    requires p > 0
    ensures 0x100 * p > 0 && y / (0x100 * p) == y / 0x100 / p
  {
    var q := y / 0x100 / p;
    var r := y / 0x100 - q * p;
    assert 0 <= r < p;
    assert y == 0x100 * p * q + (0x100 * r + y % 0x100);
    assert 0x100 * r + y % 0x100 < 0x100 * p;
    QuotientIs(y, 0x100 * p, q, 0x100 * r + y % 0x100);
  }

  lemma QuotientIs(y: nat, d: nat, q: nat, r: nat)
    requires d > 0 && r < d && y == d * q + r
    ensures y / d == q
  {
    var k := y / d;
    if k < q {
      Multiples(d, k + 1, q);
    } else if k > q {
      Multiples(d, q + 1, k);
    }
  }

  lemma Multiples(d: nat, a: nat, b: nat)
    requires a <= b
    ensures d * a <= d * b
  {
  }

  lemma Pow2Byte(n: nat)
    ensures Pow2(n + 8) == 0x100 * Pow2(n)
  {
    assert Pow2(n + 8) == 2 * Pow2(n + 7) == 4 * Pow2(n + 6) == 8 * Pow2(n + 5) == 16 * Pow2(n + 4);
    assert Pow2(n + 4) == 2 * Pow2(n + 3) == 4 * Pow2(n + 2) == 8 * Pow2(n + 1);
  }

  /** What is left of a number of whole bytes and one more, once part of the last is divided away. */
  lemma LastByte(x: nat, last: byte, bits: nat)
    requires 0 < bits <= 8
    ensures (x * 0x100 + last) / Pow2(8 - bits) == x * Pow2(bits) + High(last, bits)
    ensures 0 <= High(last, bits) < Pow2(bits)
  {
    Powers();
    if bits == 1 {} else if bits == 2 {} else if bits == 3 {} else if bits == 4 {}
    else if bits == 5 {} else if bits == 6 {} else if bits == 7 {} else {}
  }

  lemma Powers()
    ensures Pow2(0) == 1 && Pow2(1) == 2 && Pow2(2) == 4 && Pow2(3) == 8 && Pow2(4) == 16
    ensures Pow2(5) == 32 && Pow2(6) == 64 && Pow2(7) == 128 && Pow2(8) == 256
  {
  }

  lemma {:induction false} SameNumber(a: seq<byte>, b: seq<byte>)
    requires |a| == |b|
    ensures BigEndian(a) == BigEndian(b) <==> a == b
  {
    if a != [] {
      var n := |a| - 1;
      SameNumber(a[..n], b[..n]);
      assert a == a[..n] + [a[n]] && b == b[..n] + [b[n]];
    }
  }

  /** Comparing whole bytes and then part of one is comparing numbers. */
  lemma {:induction false} BitsAreNumbers(a: seq<byte>, b: seq<byte>, bits: nat)
    requires |a| == |b| && bits <= 8 * |a|
    ensures SameBits(a, b, bits)
      <==> BigEndian(a) / Pow2(8 * |a| - bits) == BigEndian(b) / Pow2(8 * |a| - bits)
  {
    if a != [] {
      var n := |a| - 1;
      if bits <= 8 * n {
        BitsAreNumbers(a[..n], b[..n], bits);
        assert a[..n][..bits / 8] == a[..bits / 8] && b[..n][..bits / 8] == b[..bits / 8];
        DropByte(a, 8 * n - bits);
        DropByte(b, 8 * n - bits);
      } else {
        InLastByte(a, b, bits - 8 * n);
      }
    }
  }

  lemma DropByte(a: seq<byte>, shift: nat)
    requires a != []
    ensures BigEndian(a) / Pow2(shift + 8) == BigEndian(a[..|a| - 1]) / Pow2(shift)
  {
    Pow2Byte(shift);
    DivideTwice(BigEndian(a), Pow2(shift));
  }

  /** The prefix ends `rest` bits into the last byte. */
  lemma InLastByte(a: seq<byte>, b: seq<byte>, rest: nat)
    requires |a| == |b| && a != [] && 0 < rest <= 8
    ensures SameBits(a, b, 8 * (|a| - 1) + rest) <==> BigEndian(a) / Pow2(8 - rest) == BigEndian(b) / Pow2(8 - rest)
  {
    var n := |a| - 1;
    LastBytes(BigEndian(a[..n]), a[n], BigEndian(b[..n]), b[n], rest);
    SameNumber(a[..n], b[..n]);
    if rest == 8 {
      Powers();
      assert a == a[..n] + [a[n]] && b == b[..n] + [b[n]];
    }
  }

  lemma LastBytes(x: nat, c: byte, y: nat, d: byte, rest: nat)
    requires 0 < rest <= 8
    ensures (x * 0x100 + c) / Pow2(8 - rest) == (y * 0x100 + d) / Pow2(8 - rest)
       <==> x == y && High(c, rest) == High(d, rest)
  {
    LastByte(x, c, rest);
    LastByte(y, d, rest);
    SameMixed(x, High(c, rest), y, High(d, rest), Pow2(rest));
  }

  lemma SameMixed(x: nat, u: int, y: nat, v: int, p: nat)
    requires 0 <= u < p && 0 <= v < p
    ensures x * p + u == y * p + v <==> x == y && u == v
  {
    if x < y {
      Multiples(p, x + 1, y);
    } else if y < x {
      Multiples(p, y + 1, x);
    }
  }

  /** `0xff << (8 - rest) & 0xff`. */
  function Mask(rest: nat): bv8
    requires 0 < rest < 8
  {
    (0xff as bv8) << (8 - rest)
  }

  lemma MaskedShifted(x: bv8, y: bv8, rest: nat)
    requires 0 < rest < 8
    ensures x & Mask(rest) == y & Mask(rest) <==> x >> (8 - rest) == y >> (8 - rest)
  {
    if rest == 1 {} else if rest == 2 {} else if rest == 3 {} else if rest == 4 {}
    else if rest == 5 {} else if rest == 6 {} else {}
  }

  lemma {:induction false} ShiftDivides(x: bv8, k: nat)
    requires 0 < k < 8
    ensures (x >> k) as int == (x as int) / Pow2(k)
  {
    Powers();
    if k == 1 {
      ShiftHalves(x);
    } else {
      ShiftDivides(x, k - 1);
      ShiftOnce(x, k);
      ShiftHalves(x >> (k - 1));
      DivideHalves(x as int, k);
    }
  }

  lemma ShiftHalves(x: bv8)
    ensures (x >> 1) as int == (x as int) / 2
  {
  }

  lemma ShiftOnce(x: bv8, k: nat)
    requires 1 < k < 8
    ensures x >> k == (x >> (k - 1)) >> 1
  {
    if k == 2 {} else if k == 3 {} else if k == 4 {} else if k == 5 {} else if k == 6 {} else {}
  }

  lemma DivideHalves(n: nat, k: nat)
    requires 1 < k < 8
    ensures n / Pow2(k) == n / Pow2(k - 1) / 2
  {
    Powers();
    if k == 2 {} else if k == 3 {} else if k == 4 {} else if k == 5 {} else if k == 6 {} else {}
  }

  function Shifted(x: byte, rest: nat): int
    requires 0 < rest < 8
  {
    ((x as bv8) >> (8 - rest)) as int
  }

  lemma ShiftedIsHigh(x: byte, rest: nat)
    requires 0 < rest < 8
    ensures Shifted(x, rest) == High(x, rest)
  {
    ShiftDivides(x as bv8, 8 - rest);
    SameByte(x);
  }

  lemma SameByte(x: byte)
    ensures (x as bv8) as int == x
  {
    if x < 0x10 {} else if x < 0x40 {} else if x < 0x80 {} else if x < 0xc0 {} else {}
  }

  /** `(x & mask) === (y & mask)`. */
  predicate SameMasked(x: byte, y: byte, rest: nat)
    requires 0 < rest < 8
  {
    (x as bv8) & Mask(rest) == (y as bv8) & Mask(rest)
  }

  lemma MaskedIsShifted(x: byte, y: byte, rest: nat)
    requires 0 < rest < 8
    ensures SameMasked(x, y, rest) <==> Shifted(x, rest) == Shifted(y, rest)
  {
    MaskedShifted(x as bv8, y as bv8, rest);
    SameBv((x as bv8) >> (8 - rest), (y as bv8) >> (8 - rest));
  }

  lemma SameBv(x: bv8, y: bv8)
    ensures x == y <==> x as int == y as int
  {
    assert (x as int) as bv8 == x && (y as int) as bv8 == y;
  }

  /** Masking both keeps just the leading bits of both. */
  lemma MaskedHigh(x: byte, y: byte, rest: nat)
    requires 0 < rest < 8
    ensures SameMasked(x, y, rest) <==> High(x, rest) == High(y, rest)
  {
    MaskedIsShifted(x, y, rest);
    ShiftedIsHigh(x, rest);
    ShiftedIsHigh(y, rest);
  }

  /** Bit `k`, counted from the left. */
  function Bit(b: seq<byte>, k: nat): int
    requires k < 8 * |b|
  {
    b[k / 8] / Pow2(7 - k % 8) % 2
  }

  /** Of the same family, and alike in the leading bits, one by one. */
  ghost predicate SharesPrefix(c: Cidr, ip: seq<byte>)
    requires Valid(c)
  {
    |ip| == |c.bytes| && forall k :: 0 <= k < c.bits ==> Bit(ip, k) == Bit(c.bytes, k)
  }

  lemma {:induction false} HighIsBits(x: byte, y: byte, n: nat)
    requires n <= 8
    ensures High(x, n) == High(y, n) <==> SameLeading(x, y, n)
  {
    if n == 0 {
      Powers();
    } else {
      HighIsBits(x, y, n - 1);
      OneBitMore(x, n);
      OneBitMore(y, n);
      OneBitSame(x, y, n);
    }
  }

  predicate SameLeading(x: byte, y: byte, n: nat)
    requires n <= 8
  {
    forall k :: 0 <= k < n ==> Bit([x], k) == Bit([y], k)
  }

  lemma OneBitSame(x: byte, y: byte, n: nat)
    requires 0 < n <= 8
    ensures SameLeading(x, y, n) <==> SameLeading(x, y, n - 1) && Bit([x], n - 1) == Bit([y], n - 1)
  {
  }

  lemma HalvedQuotient(x: nat, p: nat)
    requires p > 0
    ensures x / (2 * p) == x / p / 2
  {
    var q := x / p / 2;
    var r := x / p - 2 * q;
    assert x == p * (x / p) + x % p == p * (2 * q + r) + x % p == 2 * p * q + (r * p + x % p);
    assert 0 <= r <= 1 && r * p <= p;
    QuotientIs(x, 2 * p, q, r * p + x % p);
  }

  lemma OneBitMore(x: byte, n: nat)
    requires 0 < n <= 8
    ensures High(x, n) == 2 * High(x, n - 1) + Bit([x], n - 1)
  {
    var p := Pow2(8 - n);
    assert Pow2(8 - (n - 1)) == 2 * p;
    HalvedQuotient(x, p);
  }

  lemma CoversIff(c: Cidr, ip: seq<byte>)
    requires Valid(c)
    ensures Covers(c, ip) <==> SharesPrefix(c, ip)
  {
    if |ip| == |c.bytes| {
      BitsAreNumbers(ip, c.bytes, c.bits);
      BytesAreBits(ip, c.bytes, c.bits);
    }
  }

  lemma BytesAreBits(a: seq<byte>, b: seq<byte>, bits: nat)
    requires |a| == |b| && bits <= 8 * |a|
    ensures SameBits(a, b, bits) <==> forall k :: 0 <= k < bits ==> Bit(a, k) == Bit(b, k)
  {
    var whole, rest := bits / 8, bits % 8;
    if SameBits(a, b, bits) {
      forall k | 0 <= k < bits ensures Bit(a, k) == Bit(b, k) {
        var i := k / 8;
        if i < whole {
          assert a[i] == a[..whole][i] == b[..whole][i] == b[i];
        } else {
          HighIsBits(a[whole], b[whole], rest);
          assert SameLeading(a[whole], b[whole], rest);
          assert Bit([a[whole]], k % 8) == Bit([b[whole]], k % 8);
        }
      }
    }
    if forall k :: 0 <= k < bits ==> Bit(a, k) == Bit(b, k) {
      forall i | 0 <= i < whole ensures a[i] == b[i] {
        ByteFromBits(a, b, bits, i, 8);
      }
      if rest > 0 {
        ByteFromBits(a, b, bits, whole, rest);
      }
    }
  }

  lemma ByteFromBits(a: seq<byte>, b: seq<byte>, bits: nat, i: nat, n: nat)
    requires |a| == |b| && bits <= 8 * |a| && 0 < n <= 8 && 8 * i + n <= bits
    requires forall k :: 0 <= k < bits ==> Bit(a, k) == Bit(b, k)
    ensures High(a[i], n) == High(b[i], n) && (n == 8 ==> a[i] == b[i])
  {
    forall k | 0 <= k < n ensures Bit([a[i]], k) == Bit([b[i]], k) {
      assert (8 * i + k) / 8 == i && (8 * i + k) % 8 == k;
      assert Bit(a, 8 * i + k) == Bit(b, 8 * i + k);
    }
    assert SameLeading(a[i], b[i], n);
    HighIsBits(a[i], b[i], n);
    Powers();
  }

  method InCidr(ip: seq<byte>, cidr: Cidr) returns (r: bool)
    requires Valid(cidr)
    ensures r <==> Covers(cidr, ip)
  {
    if |ip| != |cidr.bytes| {
      return false;
    }
    BitsAreNumbers(ip, cidr.bytes, cidr.bits);
    var wholeBytes := cidr.bits / 8;
    var i := 0;
    while i < wholeBytes
      invariant 0 <= i <= wholeBytes && ip[..i] == cidr.bytes[..i]
    {
      if ip[i] != cidr.bytes[i] {
        assert ip[..wholeBytes][i] != cidr.bytes[..wholeBytes][i];
        return false;
      }
      i := i + 1;
    }
    var rest := cidr.bits % 8;
    if rest == 0 {
      return true;
    }
    MaskedHigh(ip[wholeBytes], cidr.bytes[wholeBytes], rest);
    return SameMasked(ip[wholeBytes], cidr.bytes[wholeBytes], rest);
  }

  // ---- Attribution ---------------------------------------------------------------------

  ghost predicate AllValid(trusted: seq<Cidr>) { forall i :: 0 <= i < |trusted| ==> Valid(trusted[i]) }

  ghost predicate Trusted(ip: seq<byte>, trusted: seq<Cidr>)
    requires AllValid(trusted)
  {
    exists i :: 0 <= i < |trusted| && Covers(trusted[i], ip)
  }

  method MatchTrusted(ip: Option<seq<byte>>, trusted: seq<Cidr>) returns (r: Option<Cidr>, ghost at: nat)
    requires AllValid(trusted)
    ensures r.Some? <==> ip.Some? && Trusted(ip.value, trusted)
    ensures r.Some? ==> at < |trusted| && r.value == trusted[at] && Covers(trusted[at], ip.value)
                        && forall i :: 0 <= i < at ==> !Covers(trusted[i], ip.value)
  {
    at := 0;
    if ip.None? {
      return None, at;
    }
    var i := 0;
    while i < |trusted|
      invariant 0 <= i <= |trusted| && forall k :: 0 <= k < i ==> !Covers(trusted[k], ip.value)
    {
      var hit := InCidr(ip.value, trusted[i]);
      if hit {
        return Some(trusted[i]), i;
      }
      i := i + 1;
    }
    r := None;
  }

  /** An entry no more believable than the hop that added it: unreadable, or a trusted proxy's. */
  ghost predicate Skipped(entry: string, trusted: seq<Cidr>)
    requires AllValid(trusted)
  {
    Parse(entry).None? || Trusted(Parse(entry).value, trusted)
  }

  ghost function View(entry: string, trusted: seq<Cidr>): Option<seq<byte>>
    requires AllValid(trusted)
  {
    if Skipped(entry, trusted) then None else Parse(entry)
  }

  /** What each entry has to say. */
  ghost function Views(chain: seq<string>, trusted: seq<Cidr>): seq<Option<seq<byte>>>
    requires AllValid(trusted)
  {
    seq(|chain|, i requires 0 <= i < |chain| => View(chain[i], trusted))
  }

  function Rightmost<T>(views: seq<Option<T>>): Option<T> {
    if views == [] then None
    else if views[|views| - 1].Some? then views[|views| - 1]
    else Rightmost(views[..|views| - 1])
  }

  /** The address of the rightmost entry that is not skipped. */
  ghost function Attributed(chain: seq<string>, trusted: seq<Cidr>): Option<seq<byte>>
    requires AllValid(trusted)
  {
    Rightmost(Views(chain, trusted))
  }

  lemma {:induction false} RightmostIs<T>(views: seq<Option<T>>) returns (k: int)
    ensures Rightmost(views).Some? ==> 0 <= k < |views| && views[k] == Rightmost(views)
                                       && forall j :: k < j < |views| ==> views[j].None?
    ensures Rightmost(views).None? ==> forall j :: 0 <= j < |views| ==> views[j].None?
  {
    k := |views| - 1;
    if views != [] && views[k].None? {
      k := RightmostIs(views[..k]);
    }
  }

  /** Everything right of the answer was skipped, and there is no answer only when all were. */
  lemma AttributedIs(chain: seq<string>, trusted: seq<Cidr>) returns (k: int)
    requires AllValid(trusted)
    ensures var r := Attributed(chain, trusted);
      && (r.Some? ==> 0 <= k < |chain| && !Skipped(chain[k], trusted) && Parse(chain[k]) == r)
      && (forall j :: 0 <= j < |chain| && (r.Some? ==> k < j) ==> Skipped(chain[j], trusted))
  {
    var views := Views(chain, trusted);
    k := RightmostIs(views);
    forall j | 0 <= j < |chain| && views[j].None? ensures Skipped(chain[j], trusted) {
    }
  }

  lemma {:induction false} RightmostOfBoth<T>(a: seq<Option<T>>, b: seq<Option<T>>)
    ensures Rightmost(a + b) == if Rightmost(b).Some? then Rightmost(b) else Rightmost(a)
  {
    if b == [] {
      assert a + b == a;
    } else {
      assert (a + b)[..|a| + |b| - 1] == a + b[..|b| - 1];
      RightmostOfBoth(a, b[..|b| - 1]);
    }
  }

  lemma ViewsOfBoth(a: seq<string>, b: seq<string>, trusted: seq<Cidr>)
    requires AllValid(trusted)
    ensures Views(a + b, trusted) == Views(a, trusted) + Views(b, trusted)
  {
    var all, both := Views(a + b, trusted), Views(a, trusted) + Views(b, trusted);
    forall i | 0 <= i < |a + b| ensures all[i] == both[i] {
      assert (a + b)[i] == if i < |a| then a[i] else b[i - |a|];
    }
  }

  /** What stands further left has no say once an entry was found. */
  lemma PrependChangesNothing(front: seq<string>, chain: seq<string>, trusted: seq<Cidr>)
    requires AllValid(trusted)
    ensures Attributed(front + chain, trusted)
         == if Attributed(chain, trusted).Some? then Attributed(chain, trusted) else Attributed(front, trusted)
  {
    ViewsOfBoth(front, chain, trusted);
    RightmostOfBoth(Views(front, trusted), Views(chain, trusted));
  }

  /** The peer as recorded: its canonical text, or the text itself when it is no address. */
  ghost predicate PeerText(peer: Option<string>, text: Option<string>) {
    var ip := if peer.Some? then Parse(peer.value) else None;
    if ip.Some? then text.Some? && Canonical(ip.value, text.value) else text == peer
  }

  /** `chain` is what the forwarded header carries, or nothing without one. */
  ghost predicate Answers(peer: Option<string>, chain: Option<seq<string>>, trusted: seq<Cidr>, r: Option<string>)
    requires AllValid(trusted)
  {
    var believed := peer.Some? && Parse(peer.value).Some? && Trusted(Parse(peer.value).value, trusted);
    var ip := if believed && chain.Some? then Attributed(chain.value, trusted) else None;
    if ip.Some? then r.Some? && Canonical(ip.value, r.value) else PeerText(peer, r)
  }

  /** The walk from the right. */
  method FromChain(chain: seq<string>, trusted: seq<Cidr>) returns (r: Option<string>)
    requires AllValid(trusted)
    ensures r.Some? <==> Attributed(chain, trusted).Some?
    ensures r.Some? ==> Canonical(Attributed(chain, trusted).value, r.value)
  {
    ghost var views := Views(chain, trusted);
    var i := |chain|;
    assert views[..i] == views;
    while i > 0
      invariant 0 <= i <= |chain| && Rightmost(views) == Rightmost(views[..i])
    {
      assert views[..i][..i - 1] == views[..i - 1];
      i := i - 1;
      var bytes := ParseIp(chain[i]);
      if bytes.None? {
        continue;
      }
      var entry, at := MatchTrusted(bytes, trusted);
      if entry.None? {
        var text := Format(bytes.value);
        return Some(text);
      }
    }
    r := None;
  }

  method ResolveClientIp(peer: Option<string>, chain: Option<seq<string>>, trusted: seq<Cidr>)
    returns (r: Option<string>)
    requires AllValid(trusted)
    ensures Answers(peer, chain, trusted, r)
  {
    var peerBytes: Option<seq<byte>> := None;
    var peerText := peer;
    if peer.Some? {
      peerBytes := ParseIp(peer.value);
      if peerBytes.Some? {
        var text := Format(peerBytes.value);
        peerText := Some(text);
      }
    }
    var entry, at := MatchTrusted(peerBytes, trusted);
    if trusted == [] || chain.None? || entry.None? {
      return peerText;
    }
    var found := FromChain(chain.value, trusted);
    r := if found.Some? then found else peerText;
  }

  /** A peer that is no trusted proxy is recorded as itself, whatever it forwards. */
  lemma UntrustedHasNoSay(peer: Option<string>, chain: Option<seq<string>>, trusted: seq<Cidr>, r: Option<string>)
    requires AllValid(trusted) && Answers(peer, chain, trusted, r)
    requires peer.Some? && Parse(peer.value).Some? ==>
               forall i :: 0 <= i < |trusted| ==> !SharesPrefix(trusted[i], Parse(peer.value).value)
    ensures PeerText(peer, r)
  {
    if peer.Some? && Parse(peer.value).Some? {
      forall i | 0 <= i < |trusted| ensures !Covers(trusted[i], Parse(peer.value).value) {
        CoversIff(trusted[i], Parse(peer.value).value);
      }
    }
  }

  /** An address, and none that shares a trusted entry's leading bits. */
  ghost predicate Foreign(entry: string, trusted: seq<Cidr>)
    requires AllValid(trusted)
  {
    Parse(entry).Some? && forall i :: 0 <= i < |trusted| ==> !SharesPrefix(trusted[i], Parse(entry).value)
  }

  lemma ForeignIff(entry: string, trusted: seq<Cidr>)
    requires AllValid(trusted)
    ensures Foreign(entry, trusted) <==> !Skipped(entry, trusted)
  {
    if Parse(entry).Some? {
      forall i | 0 <= i < |trusted|
        ensures Covers(trusted[i], Parse(entry).value) <==> SharesPrefix(trusted[i], Parse(entry).value)
      {
        CoversIff(trusted[i], Parse(entry).value);
      }
    }
  }

  /** Behind a trusted proxy the answer is the rightmost entry that can be read and is not a
      trusted proxy itself, and the peer only when there is none. */
  lemma TrustedIsHeard(peer: Option<string>, chain: seq<string>, trusted: seq<Cidr>, r: Option<string>, i: nat)
    returns (k: int)
    requires AllValid(trusted) && Answers(peer, Some(chain), trusted, r)
    requires peer.Some? && Parse(peer.value).Some? && i < |trusted|
    requires SharesPrefix(trusted[i], Parse(peer.value).value)
    ensures -1 <= k < |chain| && (forall j :: k < j < |chain| ==> !Foreign(chain[j], trusted))
    ensures if k >= 0 then Foreign(chain[k], trusted) && r.Some? && Canonical(Parse(chain[k]).value, r.value)
            else PeerText(peer, r)
  {
    CoversIff(trusted[i], Parse(peer.value).value);
    k := AttributedIs(chain, trusted);
    forall j | 0 <= j < |chain| ensures Foreign(chain[j], trusted) <==> !Skipped(chain[j], trusted) {
      ForeignIff(chain[j], trusted);
    }
    if Attributed(chain, trusted).None? {
      k := -1;
    }
  }

  /** A client that puts entries of its own in front of what the proxies appended is
      recorded under the same text, as long as one of theirs was believed. */
  lemma SpoofingChangesNothing(peer: Option<string>, front: seq<string>, chain: seq<string>, trusted: seq<Cidr>,
                               r: Option<string>, spoofed: Option<string>)
    requires AllValid(trusted) && Attributed(chain, trusted).Some?
    requires Answers(peer, Some(chain), trusted, r) && Answers(peer, Some(front + chain), trusted, spoofed)
    ensures r == spoofed
  {
    PrependChangesNothing(front, chain, trusted);
    var ip := Attributed(chain, trusted).value;
    if r.Some? && spoofed.Some? && Canonical(ip, r.value) && Canonical(ip, spoofed.value) {
      CanonicalIsUnique(ip, r.value, spoofed.value);
    } else if peer.Some? && Parse(peer.value).Some? {
      CanonicalIsUnique(Parse(peer.value).value, r.value, spoofed.value);
    }
  }
}
