/** Address text against address bytes (apps/server/src/client-ip.ts, parsing and printing). */
module IpText {
  import opened Bytes
  import opened Numerals
  import opened Text

  const MAPPED_PREFIX := "::ffff:"

  // ---- Reading -------------------------------------------------------------------------

  function StripBrackets(s: string): (t: string)
    ensures |t| <= |s|
  {
    var a := if s != [] && s[0] == '[' then s[1..] else s;
    if a != [] && a[|a| - 1] == ']' then a[..|a| - 1] else a
  }

  lemma {:induction false} TrimShorter(s: string)
    ensures |Trim(s)| <= |s|
  {
    TrimStartShorter(s);
    TrimEndShorter(TrimStart(s));
  }

  lemma TrimStartShorter(s: string)
    ensures |TrimStart(s)| <= |s|
  {
  }

  lemma TrimEndShorter(s: string)
    ensures |TrimEnd(s)| <= |s|
  {
  }

  /** `value.split("::")`. */
  function SplitDouble(s: string): (r: seq<string>)
    ensures r != []
  {
    if |s| < 2 then [s]
    else if s[0] == ':' && s[1] == ':' then [""] + SplitDouble(s[2..])
    else
      var rest := SplitDouble(s[1..]);
      [[s[0]] + rest[0]] + rest[1..]
  }

  predicate IsOctet(s: string) { Numeral(Decimal, 3, s) && Number(Decimal, s) <= 255 }

  function ParseV4(value: string): (r: Option<seq<byte>>)
    ensures r.Some? ==> |r.value| == 4
  {
    var parts := Split(value, '.');
    if |parts| == 4 && forall i :: 0 <= i < 4 ==> IsOctet(parts[i]) then
      Some(seq(4, i requires 0 <= i < 4 => Number(Decimal, parts[i])))
    else None
  }

  predicate AllGroups(pieces: seq<string>) { forall i :: 0 <= i < |pieces| ==> Numeral(Hex, 4, pieces[i]) }

  type group = g: int | 0 <= g < 0x10000

  function GroupValue(s: string): group
    requires Numeral(Hex, 4, s)
  {
    NumberBelow(Hex, s);
    assert Limit(Hex, 1) == 0x10 && Limit(Hex, 2) == 0x100 && Limit(Hex, 3) == 0x1000;
    Number(Hex, s)
  }

  function GroupValues(pieces: seq<string>): seq<group>
    requires AllGroups(pieces)
  {
    seq(|pieces|, i requires 0 <= i < |pieces| => GroupValue(pieces[i]))
  }

  /** Two bytes a group, the high one first. */
  function Unpack(groups: seq<group>): (b: seq<byte>)
    requires |groups| == 8
    ensures |b| == 16
  {
    seq(16, k requires 0 <= k < 16 => if k % 2 == 0 then groups[k / 2] / 0x100 else groups[k / 2] % 0x100)
  }

  /** `half ? half.split(":") : []`. */
  function Pieces(half: string): seq<string> { if half == "" then [] else Split(half, ':') }

  function Zeros(n: nat): seq<group> { seq(n, _ => 0) }

  function ParseV6(value: string): (r: Option<seq<byte>>)
    ensures r.Some? ==> |r.value| == 16
  {
    var halves := SplitDouble(value);
    if |halves| > 2 then None
    else
      var head := Pieces(halves[0]);
      if !AllGroups(head) then None
      else if |halves| == 1 then
        if |head| == 8 then Some(Unpack(GroupValues(head))) else None
      else
        var tail := Pieces(halves[1]);
        if AllGroups(tail) && |head| + |tail| < 8 then
          Some(Unpack(GroupValues(head) + Zeros(8 - |head| - |tail|) + GroupValues(tail)))
        else None
  }

  /** The dotted part of an IPv4-mapped address, when that is how the text is written. */
  function MappedV4(value: string): (r: Option<string>)
    ensures r.Some? ==> |r.value| < |value|
  {
    var n := |MAPPED_PREFIX|;
    if |value| > n && (forall i :: 0 <= i < n ==> Lower(value[i]) == MAPPED_PREFIX[i]) && Dotted(value[n..])
    then Some(value[n..]) else None
  }

  predicate Dotted(s: string) {
    var parts := Split(s, '.');
    |parts| == 4 && forall i :: 0 <= i < 4 ==> parts[i] != [] && AllDigits(Decimal, parts[i])
  }

  function Parse(text: string): (r: Option<seq<byte>>)
    ensures r.Some? ==> |r.value| in {4, 16}
    decreases |text|
  {
    TrimShorter(text);
    var value := StripBrackets(Trim(text));
    if value == "" then None
    else if ':' !in value then ParseV4(value)
    else
      match MappedV4(value)
      case Some(v4) => Parse(v4)
      case None => ParseV6(value)
  }

  /** The groups of one half. */
  method PushGroups(pieces: seq<string>) returns (groups: seq<group>, ok: bool)
    ensures ok == AllGroups(pieces)
    ensures ok ==> groups == GroupValues(pieces)
  {
    groups, ok := [], true;
    var i := 0;
    while i < |pieces|
      invariant 0 <= i <= |pieces| && AllGroups(pieces[..i]) && groups == GroupValues(pieces[..i])
    {
      if !Numeral(Hex, 4, pieces[i]) {
        return groups, false;
      }
      assert pieces[..i + 1] == pieces[..i] + [pieces[i]];
      groups, i := groups + [GroupValue(pieces[i])], i + 1;
    }
    assert pieces[..i] == pieces;
  }

  method ParseIpv6(value: string) returns (r: Option<seq<byte>>)
    ensures r == ParseV6(value)
  {
    var halves := SplitDouble(value);
    if |halves| > 2 {
      return None;
    }
    var groups, ok := PushGroups(Pieces(halves[0]));
    if !ok {
      return None;
    }
    if |halves| == 1 {
      if |groups| != 8 {
        return None;
      }
    } else {
      var tail;
      tail, ok := PushGroups(Pieces(halves[1]));
      var zeros := 8 - |groups| - |tail|;
      if !ok || zeros < 1 {
        return None;
      }
      groups := groups + Zeros(zeros) + tail;
    }
    var bytes: seq<byte> := [];
    var i := 0;
    while i < 8
      invariant 0 <= i <= 8 && bytes == Unpack(groups)[..2 * i]
    {
      bytes := bytes + [groups[i] / 0x100, groups[i] % 0x100];
      i := i + 1;
    }
    assert bytes == Unpack(groups);
    r := Some(bytes);
  }

  method ParseIp(text: string) returns (r: Option<seq<byte>>)
    ensures r == Parse(text)
    decreases |text|
  {
    TrimShorter(text);
    var value := StripBrackets(Trim(text));
    if value == "" {
      return None;
    }
    if ':' in value {
      var mapped := MappedV4(value);
      if mapped.Some? {
        r := ParseIp(mapped.value);
      } else {
        r := ParseIpv6(value);
      }
      return;
    }
    var parts := Split(value, '.');
    if |parts| != 4 {
      return None;
    }
    var bytes: seq<byte> := [];
    var i := 0;
    while i < 4
      invariant 0 <= i <= 4 && |bytes| == i
      invariant forall k :: 0 <= k < i ==> IsOctet(parts[k]) && bytes[k] == Number(Decimal, parts[k])
    {
      if !Numeral(Decimal, 3, parts[i]) {
        return None;
      }
      var n := Number(Decimal, parts[i]);
      if n > 255 {
        return None;
      }
      bytes, i := bytes + [n], i + 1;
    }
    assert bytes == ParseV4(value).value;
    r := Some(bytes);
  }

  // ---- Writing -------------------------------------------------------------------------

  function Groups(b: seq<byte>): (g: seq<group>)
    requires |b| == 16
    ensures |g| == 8
  {
    seq(8, i requires 0 <= i < 8 => var high: int := b[2 * i]; high * 0x100 + b[2 * i + 1])
  }

  lemma PackedBack(b: seq<byte>)
    requires |b| == 16
    ensures Unpack(Groups(b)) == b
  {
    forall k | 0 <= k < 16 ensures Unpack(Groups(b))[k] == b[k] {
      assert k == 2 * (k / 2) + k % 2;
    }
  }

  ghost predicate ZeroRun(g: seq<group>, start: int, len: nat) {
    0 <= start && start + len <= |g| && forall i :: start <= i < start + len ==> g[i] == 0
  }

  /** No run of zeros is longer, and none as long starts further left. */
  ghost predicate Longest(g: seq<group>, start: int, len: nat) {
    ZeroRun(g, start, len)
    && forall s: int, l: nat :: ZeroRun(g, s, l) && l > 0 ==> l < len || (l == len && start <= s)
  }

  function Texts(r: Radix, numbers: seq<group>): seq<string> {
    seq(|numbers|, i requires 0 <= i < |numbers| => Show(r, numbers[i]))
  }

  function Around(head: seq<group>, tail: seq<group>): string {
    Join(Texts(Hex, head), ":") + "::" + Join(Texts(Hex, tail), ":")
  }

  function Collapsed(g: seq<group>, start: nat, len: nat): string
    requires start + len <= |g|
  {
    Around(g[..start], g[start + len..])
  }

  /** Section 4.2 of RFC 5952: the leftmost longest run of at least two zero groups, and no
      other, is collapsed. */
  ghost predicate Canonical(b: seq<byte>, text: string) {
    if |b| == 4 then text == Join(Texts(Decimal, b), ".")
    else
      && |b| == 16
      && var g := Groups(b);
        || (text == Join(Texts(Hex, g), ":") && forall s: int, l: nat :: ZeroRun(g, s, l) ==> l < 2)
        || (exists start: nat, len: nat :: len >= 2 && Longest(g, start, len) && text == Collapsed(g, start, len))
  }

  /** The scan of `format`: on to the end of each run of zeros, keeping the best so far. */
  method LongestRun(g: seq<group>) returns (start: int, len: nat)
    ensures len > 0 ==> Longest(g, start, len)
    ensures len == 0 ==> forall i :: 0 <= i < |g| ==> g[i] != 0
  {
    start, len := -1, 0;
    var i := 0;
    while i < |g|
      invariant 0 <= i <= |g|
      invariant len > 0 ==> ZeroRun(g, start, len) && start < i
      invariant forall s: int, l: nat :: ZeroRun(g, s, l) && l > 0 && s < i ==> l < len || (l == len && start <= s)
    {
      if g[i] != 0 {
        i := i + 1;
        continue;
      }
      var j := i;
      while j < |g| && g[j] == 0
        invariant i <= j <= |g| && ZeroRun(g, i, j - i)
      {
        j := j + 1;
      }
      forall s: int, l: nat | ZeroRun(g, s, l) && l > 0 && i <= s < j ensures s + l <= j {
      }
      if j - i > len {
        start, len := i, j - i;
      }
      i := j;
    }
    assert len == 0 ==> forall k :: 0 <= k < |g| && g[k] == 0 ==> ZeroRun(g, k, 1);
  }

  method Format(b: seq<byte>) returns (text: string)
    requires |b| in {4, 16}
    ensures Canonical(b, text)
  {
    if |b| == 4 {
      return Join(Texts(Decimal, b), ".");
    }
    var g := Groups(b);
    var start, len := LongestRun(g);
    if len < 2 {
      forall s: int, l: nat | ZeroRun(g, s, l) ensures l < 2 {
        assert l > 0 ==> g[s] == 0;
      }
      return Join(Texts(Hex, g), ":");
    }
    return Collapsed(g, start, len);
  }

  /** An address has one canonical text. */
  lemma CanonicalIsUnique(b: seq<byte>, t: string, u: string)
    requires Canonical(b, t) && Canonical(b, u)
    ensures t == u
  {
  }

  // ---- Round trip ----------------------------------------------------------------------

  predicate NoDouble(s: string) { |s| < 2 || (!(s[0] == ':' && s[1] == ':') && NoDouble(s[1..])) }

  /** A character not starting a marker joins the first piece. */
  lemma NotCut(c: char, s: string)
    requires c != ':' || s == "" || s[0] != ':'
    ensures SplitDouble([c] + s) == [[c] + SplitDouble(s)[0]] + SplitDouble(s)[1..]
  {
    assert ([c] + s)[1..] == s;
  }

  lemma {:induction false} DoubleCuts(a: string, b: string)
    requires NoDouble(a) && (a == "" || a[|a| - 1] != ':')
    ensures SplitDouble(a + "::" + b) == [a] + SplitDouble(b)
  {
    if a == "" {
      assert (a + "::" + b)[2..] == b;
    } else {
      var t := a[1..] + "::" + b;
      assert a + "::" + b == [a[0]] + t;
      DoubleCuts(a[1..], b);
      NotCut(a[0], t);
      assert SplitDouble(t)[0] == a[1..] && SplitDouble(t)[1..] == SplitDouble(b);
      assert a == [a[0]] + a[1..];
    }
  }

  lemma {:induction false} NothingToCut(s: string)
    requires NoDouble(s)
    ensures SplitDouble(s) == [s]
  {
    if |s| >= 2 {
      NothingToCut(s[1..]);
      assert s == [s[0]] + s[1..];
    }
  }

  lemma {:induction false} PieceInFront(p: string, t: string)
    requires ':' !in p && NoDouble(t)
    ensures NoDouble(p + t)
  {
    if p == "" {
      assert p + t == t;
    } else {
      PieceInFront(p[1..], t);
      assert (p + t)[1..] == p[1..] + t;
    }
  }

  predicate Words(r: Radix, pieces: seq<string>) {
    forall i :: 0 <= i < |pieces| ==> pieces[i] != "" && AllDigits(r, pieces[i])
  }

  /** Joined words begin and end with a digit and hold digits and separators only. */
  lemma {:induction false} JoinedWords(r: Radix, pieces: seq<string>, sep: char)
    requires Words(r, pieces) && pieces != []
    ensures var s := Join(pieces, [sep]);
      s != "" && IsDigit(r, s[0]) && IsDigit(r, s[|s| - 1])
      && forall i :: 0 <= i < |s| ==> s[i] == sep || IsDigit(r, s[i])
  {
    if |pieces| > 1 {
      JoinedWords(r, pieces[1..], sep);
    }
  }

  lemma {:induction false} JoinedHasNoDouble(r: Radix, pieces: seq<string>)
    requires Words(r, pieces)
    ensures NoDouble(Join(pieces, ":"))
  {
    if pieces != [] {
      assert ':' !in pieces[0];
      if |pieces| == 1 {
        PieceInFront(pieces[0], "");
        assert pieces[0] + "" == pieces[0];
      } else {
        var rest := Join(pieces[1..], ":");
        JoinedHasNoDouble(r, pieces[1..]);
        JoinedWords(r, pieces[1..], ':');
        assert (":" + rest)[1..] == rest;
        PieceInFront(pieces[0], ":" + rest);
        assert pieces[0] + ":" + rest == pieces[0] + (":" + rest);
      }
    }
  }

  /** What was joined comes apart again. */
  lemma PiecesBack(r: Radix, pieces: seq<string>)
    requires Words(r, pieces)
    ensures Pieces(Join(pieces, ":")) == pieces
  {
    if pieces != [] {
      JoinedWords(r, pieces, ':');
      forall i | 0 <= i < |pieces| ensures ':' !in pieces[i] {
      }
      SplitJoin(pieces, ':');
    }
  }

  lemma HexTexts(g: seq<group>)
    ensures Words(Hex, Texts(Hex, g)) && AllGroups(Texts(Hex, g)) && GroupValues(Texts(Hex, g)) == g
  {
    forall i | 0 <= i < |g| ensures Numeral(Hex, 4, Texts(Hex, g)[i]) && Number(Hex, Texts(Hex, g)[i]) == g[i] {
      assert Limit(Hex, 1) == 0x10 && Limit(Hex, 2) == 0x100 && Limit(Hex, 3) == 0x1000;
      ShowIs(Hex, g[i], 4);
    }
  }

  lemma OctetTexts(b: seq<byte>)
    ensures Words(Decimal, Texts(Decimal, b))
    ensures forall i :: 0 <= i < |b| ==> IsOctet(Texts(Decimal, b)[i]) && Number(Decimal, Texts(Decimal, b)[i]) == b[i]
  {
    forall i | 0 <= i < |b| ensures IsOctet(Texts(Decimal, b)[i]) && Number(Decimal, Texts(Decimal, b)[i]) == b[i] {
      assert Limit(Decimal, 1) == 10 && Limit(Decimal, 2) == 100;
      ShowIs(Decimal, b[i], 3);
    }
  }

  /** Nothing to trim and no brackets to strip. */
  lemma Bare(text: string)
    requires text != "" && !IsSpace(text[0]) && !IsSpace(text[|text| - 1]) && text[0] != '[' && text[|text| - 1] != ']'
    ensures StripBrackets(Trim(text)) == text
  {
    TrimNothing(text);
  }

  lemma DottedBack(b: seq<byte>, text: string)
    requires |b| == 4 && text == Join(Texts(Decimal, b), ".")
    ensures Parse(text) == Some(b) && Dotted(text)
  {
    var parts := Texts(Decimal, b);
    OctetTexts(b);
    JoinedWords(Decimal, parts, '.');
    Bare(text);
    SplitJoin(parts, '.');
    assert ':' !in text;
    assert ParseV4(text).value == b;
  }

  /** Text of hexadecimal digits and colons is read as a version 6 address. */
  lemma ReadAsV6(text: string)
    requires text != "" && forall i :: 0 <= i < |text| ==> text[i] == ':' || IsDigit(Hex, text[i])
    requires ':' in text
    ensures Parse(text) == ParseV6(text)
  {
    Bare(text);
    if |text| > |MAPPED_PREFIX| {
      SplitPiece(text[|MAPPED_PREFIX|..], "", '.');
    }
  }

  /** Reading the text of an address gives the address back. */
  lemma RoundTrip(b: seq<byte>, text: string)
    requires Canonical(b, text)
    ensures Parse(text) == Some(b)
  {
    if |b| == 4 {
      DottedBack(b, text);
      return;
    }
    var g := Groups(b);
    PackedBack(b);
    if text == Join(Texts(Hex, g), ":") {
      UncollapsedBack(g, text);
    } else {
      var start: nat, len: nat :| len >= 2 && Longest(g, start, len) && text == Collapsed(g, start, len);
      CollapsedBack(g, start, len);
    }
  }

  lemma UncollapsedBack(g: seq<group>, text: string)
    requires |g| == 8 && text == Join(Texts(Hex, g), ":")
    ensures Parse(text) == Some(Unpack(g))
  {
    var pieces := Texts(Hex, g);
    HexTexts(g);
    JoinedWords(Hex, pieces, ':');
    assert text[|pieces[0]|] == ':';
    ReadAsV6(text);
    JoinedHasNoDouble(Hex, pieces);
    NothingToCut(text);
    PiecesBack(Hex, pieces);
  }

  lemma CollapsedBack(g: seq<group>, start: nat, len: nat)
    requires |g| == 8 && len >= 1 && ZeroRun(g, start, len)
    ensures Parse(Collapsed(g, start, len)) == Some(Unpack(g))
  {
    var head, tail := g[..start], g[start + len..];
    assert g == head + Zeros(8 - |head| - |tail|) + tail by {
      RunRestored(g, start, len);
    }
    GroupsRead(head, tail);
  }

  lemma GroupsRead(head: seq<group>, tail: seq<group>)
    requires |head| + |tail| < 8
    ensures Parse(Around(head, tail)) == Some(Unpack(head + Zeros(8 - |head| - |tail|) + tail))
  {
    HexTexts(head);
    HexTexts(tail);
    var front, back := Texts(Hex, head), Texts(Hex, tail);
    assert GroupValues(front) + Zeros(8 - |front| - |back|) + GroupValues(back)
      == head + Zeros(8 - |head| - |tail|) + tail;
    HalvesRead(front, back);
  }

  lemma RunRestored(g: seq<group>, start: nat, len: nat)
    requires ZeroRun(g, start, len)
    ensures g == g[..start] + Zeros(len) + g[start + len..]
  {
  }

  lemma HalvesRead(head: seq<string>, tail: seq<string>)
    requires Words(Hex, head) && Words(Hex, tail) && AllGroups(head) && AllGroups(tail) && |head| + |tail| < 8
    ensures Parse(Join(head, ":") + "::" + Join(tail, ":"))
         == Some(Unpack(GroupValues(head) + Zeros(8 - |head| - |tail|) + GroupValues(tail)))
  {
    HalvesBack(head, tail);
    TwoHalves(Join(head, ":") + "::" + Join(tail, ":"), head, tail);
  }

  lemma TwoHalves(value: string, head: seq<string>, tail: seq<string>)
    requires var halves := SplitDouble(value); |halves| == 2 && Pieces(halves[0]) == head && Pieces(halves[1]) == tail
    requires AllGroups(head) && AllGroups(tail) && |head| + |tail| < 8
    ensures ParseV6(value) == Some(Unpack(GroupValues(head) + Zeros(8 - |head| - |tail|) + GroupValues(tail)))
  {
  }

  /** The two halves around a collapsed run come apart again. */
  lemma HalvesBack(head: seq<string>, tail: seq<string>)
    requires Words(Hex, head) && Words(Hex, tail)
    ensures var text := Join(head, ":") + "::" + Join(tail, ":");
      Parse(text) == ParseV6(text) && SplitDouble(text) == [Join(head, ":"), Join(tail, ":")]
    ensures Pieces(Join(head, ":")) == head && Pieces(Join(tail, ":")) == tail
  {
    var front, back := Join(head, ":"), Join(tail, ":");
    var text := front + "::" + back;
    HexChars(head);
    HexChars(tail);
    assert forall i :: 0 <= i < |text| ==> text[i] == ':' || IsDigit(Hex, text[i]);
    assert text[|front|] == ':';
    ReadAsV6(text);
    JoinedHasNoDouble(Hex, head);
    JoinedHasNoDouble(Hex, tail);
    DoubleCuts(front, back);
    NothingToCut(back);
    PiecesBack(Hex, head);
    PiecesBack(Hex, tail);
  }

  lemma HexChars(pieces: seq<string>)
    requires Words(Hex, pieces)
    ensures var s := Join(pieces, ":");
      (forall i :: 0 <= i < |s| ==> s[i] == ':' || IsDigit(Hex, s[i])) && (s == "" || s[|s| - 1] != ':')
  {
    if pieces != [] {
      JoinedWords(Hex, pieces, ':');
    }
  }

  /** The mapped form of a version 4 address reads as that address. */
  lemma MappedFolds(b: seq<byte>, text: string)
    requires |b| == 4 && Canonical(b, text)
    ensures Parse(MAPPED_PREFIX + text) == Some(b)
  {
    DottedBack(b, text);
    OctetTexts(b);
    JoinedWords(Decimal, Texts(Decimal, b), '.');
    MappedReads(text);
  }

  lemma MappedReads(text: string)
    requires text != "" && Dotted(text) && IsDigit(Decimal, text[|text| - 1])
    ensures Parse(MAPPED_PREFIX + text) == Parse(text)
  {
    var whole := MAPPED_PREFIX + text;
    MappedIs(text);
    MappedStep(whole, text);
  }

  lemma MappedStep(value: string, v4: string)
    requires MappedV4(value) == Some(v4) && value[0] == ':' && IsDigit(Decimal, value[|value| - 1])
    ensures Parse(value) == Parse(v4)
  {
    Bare(value);
  }

  lemma MappedIs(text: string)
    requires text != "" && Dotted(text)
    ensures MappedV4(MAPPED_PREFIX + text) == Some(text)
  {
    assert (MAPPED_PREFIX + text)[|MAPPED_PREFIX|..] == text;
  }
}
