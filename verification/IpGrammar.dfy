/** Which texts are addresses, and of which bytes: a grammar for what the parser accepts
    (apps/server/src/client-ip.ts:38-127). */
module IpGrammar {
  import opened Bytes
  import opened IpText
  import opened Numerals
  import opened Text

  /** Four decimal numbers of one to three digits, each a byte, with dots between. */
  ghost predicate IsV4(core: string, b: seq<byte>, parts: seq<string>) {
    && |b| == 4 == |parts| && core == Join(parts, ".")
    && forall i :: 0 <= i < 4 ==> Numeral(Decimal, 3, parts[i]) && Number(Decimal, parts[i]) == b[i]
  }

  ghost predicate V4(core: string, b: seq<byte>) { exists parts :: IsV4(core, b, parts) }

  /** The same behind the prefix of mapped addresses, in either case. */
  ghost predicate Mapped(core: string, b: seq<byte>) {
    && |core| > 7 && (forall i :: 0 <= i < 7 ==> core[i] == "::ffff:"[i] || core[i] == "::FFFF:"[i])
    && V4(core[7..], b)
  }

  /** Sixteen bytes, two to a group, the high one first. */
  ghost predicate HoldsGroups(b: seq<byte>, groups: seq<group>) {
    |b| == 16 && |groups| == 8 && forall i :: 0 <= i < 8 ==> HoldsGroup(b, groups, i)
  }

  predicate HoldsGroup(b: seq<byte>, groups: seq<group>, i: nat)
    requires |b| == 16 && |groups| == 8 && i < 8
  {
    var high: int := b[2 * i];
    high * 0x100 + b[2 * i + 1] == groups[i]
  }

  /** Eight groups of one to four hexadecimal digits, with colons between. */
  ghost predicate FullV6(core: string, b: seq<byte>, groups: seq<string>) {
    |groups| == 8 && AllGroups(groups) && core == Join(groups, ":") && HoldsGroups(b, GroupValues(groups))
  }

  /** Fewer, with one double colon for the missing ones, which are zero. */
  ghost predicate ShortV6(core: string, b: seq<byte>, head: seq<string>, tail: seq<string>) {
    && |head| + |tail| < 8 && AllGroups(head) && AllGroups(tail)
    && core == Join(head, ":") + "::" + Join(tail, ":")
    && HoldsGroups(b, GroupValues(head) + Zeros(8 - |head| - |tail|) + GroupValues(tail))
  }

  ghost predicate V6(core: string, b: seq<byte>) {
    (exists groups :: FullV6(core, b, groups)) || exists head, tail :: ShortV6(core, b, head, tail)
  }

  ghost predicate Core(core: string, b: seq<byte>) { V4(core, b) || Mapped(core, b) || V6(core, b) }

  predicate AllSpace(s: string) { forall i :: 0 <= i < |s| ==> IsSpace(s[i]) }

  /** White space around it, and a bracket at either end, are passed over. */
  ghost predicate Wraps(text: string, pre: string, open: string, core: string, close: string, post: string) {
    && text == pre + (open + core + close) + post
    && AllSpace(pre) && AllSpace(post) && open in {"", "["} && close in {"", "]"}
  }

  ghost predicate Denotes(text: string, b: seq<byte>) {
    exists pre, open, core, close, post :: Wraps(text, pre, open, core, close, post) && Core(core, b)
  }

  predicate AddressChar(c: char) { IsDigit(Hex, c) || c == ':' || c == '.' }

  /** Characters of an address, a digit or a colon at either end. */
  predicate AddressLike(s: string) {
    s != "" && (forall i :: 0 <= i < |s| ==> AddressChar(s[i]))
  }

  lemma V4Like(core: string, b: seq<byte>, parts: seq<string>)
    requires IsV4(core, b, parts)
    ensures AddressLike(core) && ':' !in core && Split(core, '.') == parts && Dotted(core)
    ensures IsDigit(Decimal, core[|core| - 1])
  {
    JoinedWords(Decimal, parts, '.');
    forall i | 0 <= i < |parts| ensures '.' !in parts[i] {}
    SplitJoin(parts, '.');
  }

  lemma FullLike(core: string, groups: seq<string>)
    requires |groups| == 8 && AllGroups(groups) && core == Join(groups, ":")
    ensures AddressLike(core) && ':' in core && '.' !in core
    ensures SplitDouble(core) == [core] && Pieces(core) == groups
  {
    JoinedWords(Hex, groups, ':');
    assert core[|groups[0]|] == ':';
    JoinedHasNoDouble(Hex, groups);
    NothingToCut(core);
    PiecesBack(Hex, groups);
  }

  lemma ShortLike(core: string, head: seq<string>, tail: seq<string>)
    requires AllGroups(head) && AllGroups(tail) && core == Join(head, ":") + "::" + Join(tail, ":")
    ensures AddressLike(core) && ':' in core && '.' !in core
  {
    HexChars(head);
    HexChars(tail);
    assert core[|Join(head, ":")|] == ':';
  }

  lemma CoreLike(core: string, b: seq<byte>)
    requires Core(core, b)
    ensures AddressLike(core)
  {
    if V4(core, b) {
      var parts :| IsV4(core, b, parts);
      V4Like(core, b, parts);
    } else if Mapped(core, b) {
      var parts :| IsV4(core[7..], b, parts);
      V4Like(core[7..], b, parts);
      forall i | 0 <= i < |core| ensures AddressChar(core[i]) {
        if i >= 7 {
          assert core[i] == core[7..][i - 7];
        }
      }
    } else if groups :| FullV6(core, b, groups) {
      FullLike(core, groups);
    } else {
      var head, tail :| ShortV6(core, b, head, tail);
      ShortLike(core, head, tail);
    }
  }

  /** What is read once the wrapping is off. */
  function ParseCore(value: string): Option<seq<byte>> {
    if value == "" then None
    else if ':' !in value then ParseV4(value)
    else
      match MappedV4(value)
      case Some(v4) => Parse(v4)
      case None => ParseV6(value)
  }

  lemma BareIsCore(s: string)
    requires AddressLike(s)
    ensures Parse(s) == ParseCore(s)
  {
    assert AddressChar(s[0]) && AddressChar(s[|s| - 1]);
    Bare(s);
  }

  lemma TrimAround(pre: string, mid: string, post: string)
    requires AllSpace(pre) && AllSpace(post) && mid != "" && !IsSpace(mid[0]) && !IsSpace(mid[|mid| - 1])
    ensures Trim(pre + mid + post) == mid
  {
    var text := pre + mid + post;
    var a, b := TrimIs(text);
    assert text[|pre|] == mid[0] && text[|pre| + |mid| - 1] == mid[|mid| - 1];
    assert forall i :: 0 <= i < |pre| ==> text[i] == pre[i];
    assert forall i :: |pre| + |mid| <= i < |text| ==> text[i] == post[i - |pre| - |mid|];
    assert text[a..b] == mid;
  }

  lemma Unwrapped(text: string, pre: string, open: string, core: string, close: string, post: string)
    requires Wraps(text, pre, open, core, close, post) && AddressLike(core)
    ensures StripBrackets(Trim(text)) == core
  {
    var mid := open + core + close;
    assert AddressChar(core[0]) && AddressChar(core[|core| - 1]);
    TrimAround(pre, mid, post);
    var stripped := if mid[0] == '[' then mid[1..] else mid;
    assert stripped == core + close;
  }

  lemma Wrapping(text: string)
    ensures exists pre, open, close, post :: Wraps(text, pre, open, StripBrackets(Trim(text)), close, post)
  {
    var a, b := TrimIs(text);
    var open, close := Brackets(text[a..b]);
    assert text == text[..a] + text[a..b] + text[b..];
    assert Wraps(text, text[..a], open, StripBrackets(Trim(text)), close, text[b..]);
  }

  lemma Brackets(s: string) returns (open: string, close: string)
    ensures open in {"", "["} && close in {"", "]"} && s == open + StripBrackets(s) + close
  {
    open := if s != "" && s[0] == '[' then "[" else "";
    var rest := if s != "" && s[0] == '[' then s[1..] else s;
    close := if rest != "" && rest[|rest| - 1] == ']' then "]" else "";
    assert s == open + rest && rest == StripBrackets(s) + close;
  }

  lemma OneUnpacking(b: seq<byte>, groups: seq<group>)
    requires |groups| == 8
    ensures HoldsGroups(b, groups) <==> b == Unpack(groups)
  {
    if HoldsGroups(b, groups) {
      forall k | 0 <= k < 16 ensures b[k] == Unpack(groups)[k] {
        assert HoldsGroup(b, groups, k / 2) && k == 2 * (k / 2) + k % 2;
      }
    }
    if b == Unpack(groups) {
      forall i | 0 <= i < 8 ensures HoldsGroup(b, groups, i) {
        assert (2 * i) % 2 == 0 && (2 * i) / 2 == i && (2 * i + 1) % 2 == 1 && (2 * i + 1) / 2 == i;
      }
    }
  }

  // ---- What the grammar has is read ------------------------------------------------------

  lemma V4Reads(core: string, b: seq<byte>, parts: seq<string>)
    requires IsV4(core, b, parts)
    ensures ParseCore(core) == Some(b)
  {
    V4Like(core, b, parts);
    assert ParseV4(core).value == b;
  }

  lemma MappedReadsToo(core: string, b: seq<byte>)
    requires Mapped(core, b)
    ensures ParseCore(core) == Some(b)
  {
    var parts :| IsV4(core[7..], b, parts);
    V4Like(core[7..], b, parts);
    V4Reads(core[7..], b, parts);
    BareIsCore(core[7..]);
    IsMapped(core);
  }

  lemma IsMapped(core: string)
    requires |core| > 7 && Dotted(core[7..])
    requires forall i :: 0 <= i < 7 ==> core[i] == "::ffff:"[i] || core[i] == "::FFFF:"[i]
    ensures MappedV4(core) == Some(core[7..]) && ':' in core
  {
    forall i | 0 <= i < 7 ensures Lower(core[i]) == MAPPED_PREFIX[i] {
      LowerIs(core[i]);
    }
    assert core[0] == ':';
  }

  lemma V6Reads(core: string, b: seq<byte>)
    requires V6(core, b)
    ensures ParseCore(core) == Some(b)
  {
    if groups :| FullV6(core, b, groups) {
      FullLike(core, groups);
      NotMapped(core);
      OneUnpacking(b, GroupValues(groups));
    } else {
      var head, tail :| ShortV6(core, b, head, tail);
      ShortLike(core, head, tail);
      HalvesRead(head, tail);
      BareIsCore(core);
      OneUnpacking(b, GroupValues(head) + Zeros(8 - |head| - |tail|) + GroupValues(tail));
    }
  }

  lemma NotMapped(core: string)
    requires '.' !in core
    ensures MappedV4(core) == None
  {
    if |core| > 7 {
      assert '.' !in core[7..];
      SplitPiece(core[7..], "", '.');
    }
  }

  // ---- What is read the grammar has ------------------------------------------------------

  lemma ReadIsV4(core: string, b: seq<byte>)
    requires ParseV4(core) == Some(b)
    ensures V4(core, b)
  {
    SplitIs(core, '.');
    assert IsV4(core, b, Split(core, '.'));
  }

  lemma ReadIsMapped(core: string, v4: string, b: seq<byte>)
    requires MappedV4(core) == Some(v4) && Parse(v4) == Some(b)
    ensures Mapped(core, b)
  {
    DottedLike(v4);
    BareIsCore(v4);
    ReadIsV4(v4, b);
    MappedShape(core, v4);
  }

  lemma MappedShape(core: string, v4: string)
    requires MappedV4(core) == Some(v4)
    ensures |core| > 7 && v4 == core[7..]
    ensures forall i :: 0 <= i < 7 ==> core[i] == "::ffff:"[i] || core[i] == "::FFFF:"[i]
  {
    forall i | 0 <= i < 7 ensures core[i] == "::ffff:"[i] || core[i] == "::FFFF:"[i] {
      assert Lower(core[i]) == MAPPED_PREFIX[i];
    }
  }

  lemma DottedLike(s: string)
    requires Dotted(s)
    ensures AddressLike(s) && ':' !in s
  {
    var parts := Split(s, '.');
    SplitIs(s, '.');
    JoinedWords(Decimal, parts, '.');
  }

  /** Cutting at the marker loses nothing. */
  lemma {:induction false} DoubleIs(s: string)
    ensures Join(SplitDouble(s), "::") == s
    decreases |s|
  {
    if |s| >= 2 {
      if s[0] == ':' && s[1] == ':' {
        DoubleIs(s[2..]);
        assert ([""] + SplitDouble(s[2..]))[1..] == SplitDouble(s[2..]);
        assert s == "::" + s[2..];
      } else {
        DoubleIs(s[1..]);
        var rest := SplitDouble(s[1..]);
        assert ([[s[0]] + rest[0]] + rest[1..])[1..] == rest[1..];
        assert s == [s[0]] + s[1..];
      }
    }
  }

  lemma PiecesAre(half: string)
    ensures Join(Pieces(half), ":") == half
  {
    if half != "" {
      SplitIs(half, ':');
    }
  }

  lemma ReadIsV6(core: string, b: seq<byte>)
    requires ParseV6(core) == Some(b)
    ensures V6(core, b)
  {
    var halves := SplitDouble(core);
    DoubleIs(core);
    var head := Pieces(halves[0]);
    PiecesAre(halves[0]);
    if |halves| == 1 {
      assert halves == [core];
      OneUnpacking(b, GroupValues(head));
      assert FullV6(core, b, head);
    } else {
      var tail := Pieces(halves[1]);
      PiecesAre(halves[1]);
      assert halves[1..] == [halves[1]];
      OneUnpacking(b, GroupValues(head) + Zeros(8 - |head| - |tail|) + GroupValues(tail));
      assert ShortV6(core, b, head, tail);
    }
  }

  /** A text is read as an address exactly when the grammar says it is one, and as that one. */
  lemma ParseIff(text: string, b: seq<byte>)
    ensures Parse(text) == Some(b) <==> Denotes(text, b)
  {
    if Denotes(text, b) {
      var pre, open, core, close, post :| Wraps(text, pre, open, core, close, post) && Core(core, b);
      CoreLike(core, b);
      Unwrapped(text, pre, open, core, close, post);
      CoreReads(core, b);
    }
    if Parse(text) == Some(b) {
      var core := StripBrackets(Trim(text));
      Wrapping(text);
      var pre, open, close, post :| Wraps(text, pre, open, core, close, post);
      ReadIsCore(core, b);
    }
  }

  lemma CoreReads(core: string, b: seq<byte>)
    requires Core(core, b)
    ensures ParseCore(core) == Some(b)
  {
    if V4(core, b) {
      var parts :| IsV4(core, b, parts);
      V4Reads(core, b, parts);
    } else if Mapped(core, b) {
      MappedReadsToo(core, b);
    } else {
      V6Reads(core, b);
    }
  }

  lemma ReadIsCore(core: string, b: seq<byte>)
    requires ParseCore(core) == Some(b)
    ensures Core(core, b)
  {
    if ':' !in core {
      ReadIsV4(core, b);
    } else if MappedV4(core).Some? {
      ReadIsMapped(core, MappedV4(core).value, b);
    } else {
      ReadIsV6(core, b);
    }
  }
}
