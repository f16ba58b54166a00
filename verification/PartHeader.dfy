/** A part's field name, off its header block (apps/server/src/http/multipart.ts:175-184). */
module PartHeader {
  import opened Bytes
  import RpcMultipart
  import opened Text

  /** Header blocks are ASCII, on which UTF-8 decoding is this. */
  function Decode(s: seq<byte>): string {
    seq(|s|, i requires 0 <= i < |s| => s[i] as char)
  }

  function Encode(s: string): seq<byte>
    requires forall i :: 0 <= i < |s| ==> s[i] as int < 0x80
  {
    seq(|s|, i requires 0 <= i < |s| => s[i] as int)
  }

  predicate StartsWithNoCase(s: string, at: nat, lower: string) {
    at + |lower| <= |s| && forall i :: 0 <= i < |lower| ==> Lower(s[at + i]) == lower[i]
  }

  function SkipSpace(s: string, i: nat): (j: nat)
    requires i <= |s|
    ensures i <= j <= |s|
    decreases |s| - i
  {
    if i < |s| && IsSpace(s[i]) then SkipSpace(s, i + 1) else i
  }

  /** Index of the first CRLF at or after `i`, or the length. */
  function LineEnd(s: string, i: nat): (j: nat)
    requires i <= |s|
    ensures i <= j <= |s|
    decreases |s| - i
  {
    if i == |s| || (i + 1 < |s| && s[i] == '\r' && s[i + 1] == '\n') then i else LineEnd(s, i + 1)
  }

  /** Index of the first `"` at or after `i`, or the length. */
  function QuoteEnd(s: string, i: nat): (j: nat)
    requires i <= |s|
    ensures i <= j <= |s|
    decreases |s| - i
  {
    if i == |s| || s[i] == '"' then i else QuoteEnd(s, i + 1)
  }

  function BareEnd(s: string, i: nat): (j: nat)
    requires i <= |s|
    ensures i <= j <= |s|
    decreases |s| - i
  {
    if i == |s| || s[i] == ';' || IsSpace(s[i]) then i else BareEnd(s, i + 1)
  }

  /** The `name=` parameter, quoted or bare, after the `;` at `i`, if there is one. */
  function NameHere(line: string, i: nat): Option<string>
    requires i < |line|
  {
    var j := SkipSpace(line, i + 1);
    if line[i] == ';' && StartsWithNoCase(line, j, "name=") then
      var k := j + 5;
      if k < |line| && line[k] == '"' && QuoteEnd(line, k + 1) < |line| then Some(line[k + 1..QuoteEnd(line, k + 1)])
      else if BareEnd(line, k) > k then Some(line[k..BareEnd(line, k)])
      else None
    else None
  }

  /** The leftmost one. */
  function NameIn(line: string, i: nat): Option<string>
    requires i <= |line|
    decreases |line| - i
  {
    if i == |line| then None else if NameHere(line, i).Some? then NameHere(line, i) else NameIn(line, i + 1)
  }

  predicate IsDisposition(line: string) {
    StartsWithNoCase(line, 0, "content-disposition")
    && var i := SkipSpace(line, 19); i < |line| && line[i] == ':'
  }

  function PartName(header: string): Option<string>
    decreases |header|
  {
    var e := LineEnd(header, 0);
    if IsDisposition(header[..e]) then NameIn(header[..e], 0)
    else if e + 2 <= |header| then PartName(header[e + 2..])
    else None
  }

  /** What a browser's form encoder writes: the disposition with a quoted name, then
      whatever else (a file name, a content type). */
  const DISPOSITION := "Content-Disposition: form-data"

  function HeaderText(name: string, tail: string): string {
    DISPOSITION + ("; name=\"" + (name + ("\"" + tail)))
  }

  lemma {:induction false} NoNameBefore(line: string, i: nat, j: nat)
    requires i <= j <= |line|
    requires forall k :: i <= k < j ==> line[k] != ';'
    ensures NameIn(line, i) == NameIn(line, j)
    decreases j - i
  {
    if i < j {
      NoNameBefore(line, i + 1, j);
    }
  }

  lemma {:induction false} QuoteEndIs(s: string, i: nat, j: nat)
    requires i <= j < |s| && s[j] == '"'
    requires forall k :: i <= k < j ==> s[k] != '"'
    ensures QuoteEnd(s, i) == j
    decreases j - i
  {
    if i < j {
      QuoteEndIs(s, i + 1, j);
    }
  }

  lemma {:induction false} LineEndAfter(s: string, i: nat, j: nat)
    requires i <= j <= |s|
    requires forall k :: i <= k < j ==> s[k] != '\r'
    ensures LineEnd(s, i) >= j
    decreases j - i
  {
    if i < j {
      LineEndAfter(s, i + 1, j);
    }
  }

  lemma DispositionLine(line: string)
    requires DISPOSITION <= line
    ensures IsDisposition(line)
    ensures forall k :: 0 <= k < 30 ==> line[k] != ';'
  {
    assert line[..30] == DISPOSITION;
    assert forall k :: 0 <= k < 30 ==> line[k] == DISPOSITION[k];
    assert line[19] == ':';
    assert SkipSpace(line, 19) == 19;
  }

  /** Where everything sits in a rendered header. */
  lemma HeaderLayout(name: string, tail: string)
    ensures var h, q := HeaderText(name, tail), 38 + |name|;
      && h[..30] == DISPOSITION && |h| > q && h[q] == '"'
      && h[30] == ';' && h[31] == ' ' && h[37] == '"' && h[32..37] == "name="
      && (forall k :: 38 <= k < q ==> h[k] == name[k - 38])
  {
    var h := HeaderText(name, tail);
    var t := h[30..];
    assert t == "; name=\"" + (name + ("\"" + tail));
    assert t[0] == ';' && t[1] == ' ' && t[7] == '"';
    assert h[32..37] == t[2..7] == "name=";
  }

  /** The disposition line covers the quoted name. */
  lemma LineCoversName(name: string, tail: string)
    requires '\r' !in name
    ensures LineEnd(HeaderText(name, tail), 0) > 38 + |name|
  {
    var h, q := HeaderText(name, tail), 38 + |name|;
    HeaderLayout(name, tail);
    forall k | 0 <= k < q + 1 ensures h[k] != '\r' {
      if k < 30 {
        assert h[k] == h[..30][k];
      } else if k < 38 {
        assert k >= 32 && k < 37 ==> h[k] == h[32..37][k - 32];
      }
    }
    LineEndAfter(h, 0, q + 1);
  }

  /** The name written is the name read, unless it holds a quote or a carriage return. */
  lemma NameRoundTrip(name: string, tail: string)
    requires '"' !in name && '\r' !in name
    ensures PartName(HeaderText(name, tail)) == Some(name)
  {
    var h, q := HeaderText(name, tail), 38 + |name|;
    HeaderLayout(name, tail);
    LineCoversName(name, tail);
    var line := h[..LineEnd(h, 0)];
    assert line[..30] == DISPOSITION && line[32..37] == h[32..37];
    DispositionLine(line);
    NameInLine(line, name);
  }

  lemma NameInLine(line: string, name: string)
    requires |line| > 38 + |name| && '"' !in name
    requires forall k :: 0 <= k < 30 ==> line[k] != ';'
    requires line[30] == ';' && line[31] == ' ' && line[32..37] == "name=" && line[37] == '"'
    requires (forall k :: 38 <= k < 38 + |name| ==> line[k] == name[k - 38]) && line[38 + |name|] == '"'
    ensures NameIn(line, 0) == Some(name)
  {
    NoNameBefore(line, 0, 30);
    assert line[32] == line[32..37][0] == 'n';
    assert SkipSpace(line, 31) == 32;
    assert forall i :: 0 <= i < 5 ==> line[32 + i] == line[32..37][i];
    assert StartsWithNoCase(line, 32, "name=");
    QuoteEndIs(line, 38, 38 + |name|);
    assert line[38..38 + |name|] == name;
  }

  // ---- Every header ----------------------------------------------------------------------

  /** White space from `i` up to `j`. */
  predicate SpaceBetween(s: string, i: nat, j: nat) { i <= j <= |s| && forall k :: i <= k < j ==> IsSpace(s[k]) }

  /** The word at `j`, in either case. */
  predicate WordAt(s: string, j: nat, small: string, capital: string)
    requires |small| == |capital|
  {
    j + |small| <= |s| && forall k :: 0 <= k < |small| ==> s[j + k] == small[k] || s[j + k] == capital[k]
  }

  predicate QuotedAt(s: string, k: nat, name: string) {
    k + |name| + 2 <= |s| && s[k] == '"' && s[k + 1..k + 1 + |name|] == name && '"' !in name && s[k + 1 + |name|] == '"'
  }

  predicate BareChar(c: char) { c != ';' && !IsSpace(c) }

  predicate BareAt(s: string, k: nat, name: string) {
    && name != "" && k + |name| <= |s| && s[k..k + |name|] == name
    && (forall i :: 0 <= i < |name| ==> BareChar(name[i]))
    && (k + |name| < |s| ==> !BareChar(s[k + |name|]))
  }

  /** A quoted value, or failing that the longest bare one. */
  ghost predicate ValueAt(s: string, k: nat, name: string) {
    QuotedAt(s, k, name) || ((forall other :: !QuotedAt(s, k, other)) && BareAt(s, k, name))
  }

  ghost predicate ParamWith(s: string, i: nat, j: nat, name: string) {
    && i < j && i < |s| && s[i] == ';' && SpaceBetween(s, i + 1, j) && WordAt(s, j, "name=", "NAME=")
    && ValueAt(s, j + 5, name)
  }

  ghost predicate ParamAt(s: string, i: nat, name: string) { exists j: nat :: ParamWith(s, i, j, name) }

  lemma {:induction false} SkipsSpace(s: string, i: nat)
    requires i <= |s|
    ensures SpaceBetween(s, i, SkipSpace(s, i)) && (SkipSpace(s, i) < |s| ==> !IsSpace(s[SkipSpace(s, i)]))
    decreases |s| - i
  {
    if i < |s| && IsSpace(s[i]) {
      SkipsSpace(s, i + 1);
    }
  }

  lemma {:induction false} QuoteEndsAt(s: string, i: nat)
    requires i <= |s|
    ensures forall k :: i <= k < QuoteEnd(s, i) ==> s[k] != '"'
    ensures QuoteEnd(s, i) < |s| ==> s[QuoteEnd(s, i)] == '"'
    decreases |s| - i
  {
    if i < |s| && s[i] != '"' {
      QuoteEndsAt(s, i + 1);
    }
  }

  lemma {:induction false} BareEndsAt(s: string, i: nat)
    requires i <= |s|
    ensures forall k :: i <= k < BareEnd(s, i) ==> BareChar(s[k])
    ensures BareEnd(s, i) < |s| ==> !BareChar(s[BareEnd(s, i)])
    decreases |s| - i
  {
    if i < |s| && BareChar(s[i]) {
      BareEndsAt(s, i + 1);
    }
  }

  /** A small letter and its capital, or a character that has no case. */
  predicate CasePair(small: char, capital: char) {
    if 'a' <= small <= 'z' then capital as int == small as int - 32 else small == capital && !('A' <= small <= 'Z')
  }

  lemma NoCaseIs(s: string, j: nat, small: string, capital: string)
    requires |small| == |capital| && forall k :: 0 <= k < |small| ==> CasePair(small[k], capital[k])
    ensures StartsWithNoCase(s, j, small) <==> WordAt(s, j, small, capital)
  {
    if j + |small| <= |s| {
      forall k | 0 <= k < |small|
        ensures Lower(s[j + k]) == small[k] <==> s[j + k] == small[k] || s[j + k] == capital[k]
      {
        assert CasePair(small[k], capital[k]);
      }
    }
  }

  lemma QuotedIs(s: string, k: nat, name: string)
    requires k <= |s|
    ensures QuotedAt(s, k, name) <==>
              k < |s| && s[k] == '"' && QuoteEnd(s, k + 1) < |s| && name == s[k + 1..QuoteEnd(s, k + 1)]
  {
    if k < |s| {
      QuoteEndsAt(s, k + 1);
      if QuotedAt(s, k, name) {
        forall i | k + 1 <= i < k + 1 + |name| ensures s[i] != '"' {
          assert s[i] == name[i - k - 1];
        }
        QuoteEndIs(s, k + 1, k + 1 + |name|);
      }
    }
  }

  lemma BareIs(s: string, k: nat, name: string)
    requires k <= |s|
    ensures BareAt(s, k, name) <==> BareEnd(s, k) > k && name == s[k..BareEnd(s, k)]
  {
    BareEndsAt(s, k);
    if BareAt(s, k, name) {
      forall i | k <= i < k + |name| ensures BareChar(s[i]) {
        assert s[i] == name[i - k];
      }
      assert BareEnd(s, k) == k + |name|;
    }
  }

  /** What the reader finds at a place is the parameter that is there. */
  lemma NameHereIff(s: string, i: nat, name: string)
    requires i < |s|
    ensures NameHere(s, i) == Some(name) <==> ParamAt(s, i, name)
  {
    var j := SkipSpace(s, i + 1);
    SkipsSpace(s, i + 1);
    NoCaseIs(s, j, "name=", "NAME=");
    if WordAt(s, j, "name=", "NAME=") {
      ValueIs(s, j + 5, name);
      if NameHere(s, i) == Some(name) {
        assert ParamWith(s, i, j, name);
      }
    }
    if ParamAt(s, i, name) {
      var l: nat :| ParamWith(s, i, l, name);
      SpaceEnds(s, i, l, name);
    }
  }

  lemma SpaceEnds(s: string, i: nat, l: nat, name: string)
    requires ParamWith(s, i, l, name)
    ensures l == SkipSpace(s, i + 1)
  {
    SkipsSpace(s, i + 1);
    assert s[l + 0] == "name="[0] || s[l + 0] == "NAME="[0];
  }

  lemma ValueIs(s: string, k: nat, name: string)
    requires k <= |s|
    ensures ValueAt(s, k, name) <==>
              if k < |s| && s[k] == '"' && QuoteEnd(s, k + 1) < |s| then name == s[k + 1..QuoteEnd(s, k + 1)]
              else BareEnd(s, k) > k && name == s[k..BareEnd(s, k)]
  {
    QuotedIs(s, k, name);
    BareIs(s, k, name);
    if k < |s| && s[k] == '"' && QuoteEnd(s, k + 1) < |s| {
      QuotedIs(s, k, s[k + 1..QuoteEnd(s, k + 1)]);
    } else {
      forall other ensures !QuotedAt(s, k, other) {
        QuotedIs(s, k, other);
      }
    }
  }

  /** A line's name is that of its leftmost `name` parameter. */
  lemma {:induction false} NameInIff(s: string, i: nat, name: string)
    requires i <= |s|
    ensures NameIn(s, i) == Some(name) <==> exists j :: LeftmostParam(s, i, j, name)
    decreases |s| - i
  {
    if i < |s| {
      var next := i + 1;
      NameInIff(s, next, name);
      forall other ensures NameHere(s, i) == Some(other) <==> ParamAt(s, i, other) {
        NameHereIff(s, i, other);
      }
      if NameHere(s, i).Some? {
        assert ParamAt(s, i, NameHere(s, i).value);
        if NameIn(s, i) == Some(name) {
          assert LeftmostParam(s, i, i, name);
        }
      } else if j :| LeftmostParam(s, next, j, name) {
        assert LeftmostParam(s, i, j, name);
      }
      if j :| LeftmostParam(s, i, j, name) {
        if j > i {
          assert LeftmostParam(s, next, j, name);
        }
      }
    }
  }

  ghost predicate LeftmostParam(s: string, i: nat, j: int, name: string) {
    i <= j && ParamAt(s, j, name) && forall k, other :: i <= k < j ==> !ParamAt(s, k, other)
  }

  /** The lines of a header block. */
  function HeaderLines(s: string): (r: seq<string>)
    ensures r != []
    decreases |s|
  {
    var e := LineEnd(s, 0);
    if e + 2 <= |s| then [s[..e]] + HeaderLines(s[e + 2..]) else [s[..e]]
  }

  lemma {:induction false} LineEndsAt(s: string, i: nat)
    requires i <= |s|
    ensures var e := LineEnd(s, i);
      && (e < |s| ==> e + 2 <= |s| && s[e..e + 2] == "\r\n")
      && forall k :: i <= k < e ==> !(k + 1 < |s| && s[k] == '\r' && s[k + 1] == '\n')
    decreases |s| - i
  {
    if i < |s| && !(i + 1 < |s| && s[i] == '\r' && s[i + 1] == '\n') {
      LineEndsAt(s, i + 1);
    }
  }

  /** Joined again they are the block, and none of them holds a line break. */
  lemma {:induction false} HeaderLinesAre(s: string)
    ensures Join(HeaderLines(s), "\r\n") == s
    ensures forall i, k :: 0 <= i < |HeaderLines(s)| && 0 <= k < |HeaderLines(s)[i]| - 1
                ==> !(HeaderLines(s)[i][k] == '\r' && HeaderLines(s)[i][k + 1] == '\n')
    decreases |s|
  {
    var e := LineEnd(s, 0);
    LineEndsAt(s, 0);
    if e + 2 <= |s| {
      HeaderLinesAre(s[e + 2..]);
      var rest := HeaderLines(s[e + 2..]);
      assert ([s[..e]] + rest)[1..] == rest;
      assert s == s[..e] + s[e..e + 2] + s[e + 2..];
    }
  }

  /** `content-disposition` in any case, white space, a colon. */
  ghost predicate Disposition(line: string) {
    && WordAt(line, 0, "content-disposition", "CONTENT-DISPOSITION")
    && exists i: nat :: SpaceBetween(line, 19, i) && i < |line| && line[i] == ':'
  }

  lemma DispositionIff(line: string)
    ensures IsDisposition(line) <==> Disposition(line)
  {
    NoCaseIs(line, 0, "content-disposition", "CONTENT-DISPOSITION");
    if |line| >= 19 {
      SkipsSpace(line, 19);
      if i: nat :| SpaceBetween(line, 19, i) && i < |line| && line[i] == ':' {
        assert i == SkipSpace(line, 19);
      }
    }
  }

  /** The part's name is the name on its first disposition line, and no other line counts. */
  lemma {:induction false} PartNameIff(s: string)
    ensures var lines := HeaderLines(s);
      if exists i :: 0 <= i < |lines| && Disposition(lines[i]) then exists i :: NamedBy(s, lines, i)
      else PartName(s).None?
    decreases |s|
  {
    var e := LineEnd(s, 0);
    var lines := HeaderLines(s);
    DispositionIff(s[..e]);
    if IsDisposition(s[..e]) {
      assert NamedBy(s, lines, 0);
    } else if e + 2 <= |s| {
      var later := s[e + 2..];
      var rest := HeaderLines(later);
      PartNameIff(later);
      assert lines == [s[..e]] + rest && forall i :: 0 < i < |lines| ==> lines[i] == rest[i - 1];
      if i :| NamedBy(later, rest, i) {
        forall k | 0 <= k < i + 1 ensures !Disposition(lines[k]) {
          assert k > 0 ==> lines[k] == rest[k - 1];
        }
        var here := i + 1;
        assert NamedBy(s, lines, here);
      } else {
        forall k | 0 <= k < |lines| ensures !Disposition(lines[k]) {
          assert k > 0 ==> lines[k] == rest[k - 1];
        }
      }
    }
  }

  ghost predicate NamedBy(s: string, lines: seq<string>, i: int) {
    && 0 <= i < |lines| && Disposition(lines[i]) && (forall k :: 0 <= k < i ==> !Disposition(lines[k]))
    && PartName(s) == NameIn(lines[i], 0)
  }

  /** The reader's codec, with the real header parser. */
  function CodecOf<F>(meta: seq<byte> -> Option<RpcMultipart.Meta<F>>): RpcMultipart.Codec<F> {
    RpcMultipart.Codec((h: seq<byte>) => PartName(Decode(h)), meta)
  }

  predicate Ascii(s: string) { forall i :: 0 <= i < |s| ==> s[i] as int < 0x80 }

  lemma EncodedName<F>(meta: seq<byte> -> Option<RpcMultipart.Meta<F>>, name: string, tail: string)
    requires '"' !in name && '\r' !in name && Ascii(HeaderText(name, tail))
    ensures CodecOf(meta).partName(Encode(HeaderText(name, tail))) == Some(name)
  {
    assert Decode(Encode(HeaderText(name, tail))) == HeaderText(name, tail);
    NameRoundTrip(name, tail);
  }
}
