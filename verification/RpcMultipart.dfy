/** Framing of a multipart RPC body, and the reader that hands its parts out as streams
    (apps/server/src/http/multipart.ts:178-359). */
module RpcMultipart {
  import opened Bytes
  import opened Multipart

  type Name = string

  const MULTIPART_META_FIELD: Name := "__meta"

  datatype PartSpec = PartSpec(name: Name, size: nat)

  /** The decoded JSON part: the payload's ordinary fields and its declared binary ones. */
  datatype Meta<+F> = Meta(fields: F, binary: seq<PartSpec>)

  /** The two foreign decodings: a part's name off its header block, and the JSON part. */
  datatype Codec<!F> = Codec(partName: seq<byte> -> Option<Name>, meta: seq<byte> -> Option<Meta<F>>)

  function TotalSize(specs: seq<PartSpec>): nat {
    if specs == [] then 0 else specs[0].size + TotalSize(specs[1..])
  }

  // ---- What is on the wire -----------------------------------------------------------

  /** `s` starts with a part's CRLF and its header block `hdr`; `rest` is what follows. */
  ghost predicate HeaderOnWire(s: seq<byte>, hdr: seq<byte>, rest: seq<byte>) {
    s == CRLF + (hdr + CRLF_CRLF + rest) && FirstAt(hdr + CRLF_CRLF + rest, CRLF_CRLF, |hdr|)
  }

  /** `s` starts with a whole part, closed by the first delimiter after its header. */
  ghost predicate PartOnWire(s: seq<byte>, delim: seq<byte>, hdr: seq<byte>, body: seq<byte>, rest: seq<byte>) {
    HeaderOnWire(s, hdr, body + delim + rest) && FirstAt(body + delim + rest, delim, |body|)
  }

  lemma HeaderUnique(s: seq<byte>, h1: seq<byte>, r1: seq<byte>, h2: seq<byte>, r2: seq<byte>)
    requires HeaderOnWire(s, h1, r1) && HeaderOnWire(s, h2, r2)
    ensures h1 == h2 && r1 == r2
  {
    var t := s[2..];
    assert t == h1 + CRLF_CRLF + r1;
    assert t == h2 + CRLF_CRLF + r2;
    assert h1 == t[..|h1|] && h2 == t[..|h2|];
    assert r1 == t[|h1| + 4..] && r2 == t[|h2| + 4..];
  }

  lemma CutUnique(t: seq<byte>, delim: seq<byte>, b1: seq<byte>, r1: seq<byte>, b2: seq<byte>, r2: seq<byte>)
    requires t == b1 + delim + r1 && FirstAt(t, delim, |b1|)
    requires t == b2 + delim + r2 && FirstAt(t, delim, |b2|)
    ensures b1 == b2 && r1 == r2
  {
    assert b1 == t[..|b1|] && b2 == t[..|b2|];
    assert r1 == t[|b1| + |delim|..] && r2 == t[|b2| + |delim|..];
  }

  /** A stream of bytes holds at most one part at its start: framing is unambiguous. */
  lemma PartUnique(s: seq<byte>, delim: seq<byte>,
                   h1: seq<byte>, b1: seq<byte>, r1: seq<byte>, h2: seq<byte>, b2: seq<byte>, r2: seq<byte>)
    requires PartOnWire(s, delim, h1, b1, r1) && PartOnWire(s, delim, h2, b2, r2)
    ensures h1 == h2 && b1 == b2 && r1 == r2
  {
    HeaderUnique(s, h1, b1 + delim + r1, h2, b2 + delim + r2);
    CutUnique(b1 + delim + r1, delim, b1, r1, b2, r2);
  }

  // ---- Rendering ---------------------------------------------------------------------

  datatype Part = Part(header: seq<byte>, body: seq<byte>)

  /** `ending` is what follows the last delimiter: two dashes and an epilogue, if it all arrives. */
  datatype Message = Message(boundary: seq<byte>, meta: Part, parts: seq<Part>, ending: seq<byte>)

  function Delimiter(boundary: seq<byte>): seq<byte> { CRLF + (DASH_DASH + boundary) }

  function Frame(p: Part, delim: seq<byte>, rest: seq<byte>): seq<byte> {
    CRLF + (p.header + CRLF_CRLF + (p.body + delim + rest))
  }

  function Frames(parts: seq<Part>, delim: seq<byte>, ending: seq<byte>): seq<byte> {
    if parts == [] then ending
    else Frame(parts[0], delim, Frames(parts[1..], delim, ending))
  }

  /** The body as section 5.1.1 of RFC 2046 and section 4 of RFC 7578 lay it out. */
  function Render(m: Message): seq<byte> {
    var delim := Delimiter(m.boundary);
    DASH_DASH + m.boundary + Frame(m.meta, delim, Frames(m.parts, delim, m.ending))
  }

  ghost predicate EndsWithCrlf(s: seq<byte>) { |s| >= 2 && s[|s| - 2..] == CRLF }

  ghost predicate GoodPart(p: Part, delim: seq<byte>) {
    && Absent(p.header, CRLF_CRLF) && !EndsWithCrlf(p.header)
    && |p.header| + |CRLF_CRLF| <= MAX_PART_HEADER_BYTES + 1
    && Absent(p.body, delim)
  }

  ghost predicate Declares<F>(codec: Codec<F>, specs: seq<PartSpec>, parts: seq<Part>) {
    |specs| == |parts| && forall i :: 0 <= i < |parts| ==>
      codec.partName(parts[i].header) == Some(specs[i].name) && specs[i].size == |parts[i].body|
  }

  /** No payload contains the delimiter, sections fit their limits, and the meta part
      declares names and sizes truly. Nothing is asked of the ending, which is not read. */
  ghost predicate WellFormed<F>(m: Message, codec: Codec<F>, meta: Meta<F>, maxBytes: nat) {
    var delim := Delimiter(m.boundary);
    && CR !in m.boundary && |m.boundary| + 2 <= MAX_PREAMBLE_BYTES + 1
    && GoodPart(m.meta, delim) && |m.meta.body| + |delim| <= MAX_META_BYTES + 1
    && codec.partName(m.meta.header) == Some(MULTIPART_META_FIELD)
    && codec.meta(m.meta.body) == Some(meta)
    && (forall i :: 0 <= i < |m.parts| ==> GoodPart(m.parts[i], delim))
    && Declares(codec, meta.binary, m.parts)
    && TotalSize(meta.binary) <= maxBytes
  }

  /** The delimiter starts with its only CR, so it cannot straddle the end of a body that
      does not contain it. */
  lemma DelimiterEndsBody(boundary: seq<byte>, body: seq<byte>, rest: seq<byte>)
    requires CR !in boundary && Absent(body, Delimiter(boundary))
    ensures FirstAt(body + Delimiter(boundary) + rest, Delimiter(boundary), |body|)
  {
    var d := Delimiter(boundary);
    var t := body + d + rest;
    assert t[|body|..|body| + |d|] == d;
    forall k | 0 <= k < |body| ensures !MatchAt(t, d, k) {
      if k + |d| <= |body| {
        MatchInPrefix(body, d + rest, d, k);
        assert body + (d + rest) == t;
      } else {
        var j := |body| - k;
        assert j >= 4 ==> d[j] == boundary[j - 4];
        assert t[k + j] == d[0] == CR;
        NoMatchAt(t, d, k, j);
      }
    }
  }

  lemma HeaderEnds(h: seq<byte>, rest: seq<byte>)
    requires Absent(h, CRLF_CRLF) && !EndsWithCrlf(h)
    ensures FirstAt(h + CRLF_CRLF + rest, CRLF_CRLF, |h|)
  {
    var t := h + CRLF_CRLF + rest;
    assert t[|h|..|h| + 4] == CRLF_CRLF;
    forall k | 0 <= k < |h| ensures !MatchAt(t, CRLF_CRLF, k) {
      if k + 4 <= |h| {
        MatchInPrefix(h, CRLF_CRLF + rest, CRLF_CRLF, k);
        assert h + (CRLF_CRLF + rest) == t;
      } else {
        assert t[|h|] == CR;
        if k == |h| - 2 {
          assert h[|h| - 2..] == [h[|h| - 2], h[|h| - 1]];
          NoMatchAt(t, CRLF_CRLF, k, if h[k] == CR then 1 else 0);
        } else {
          NoMatchAt(t, CRLF_CRLF, k, |h| - k);
        }
      }
    }
  }

  /** Partner of the reader's contracts: what `Frame` writes is a part on the wire. */
  lemma FrameOnWire(boundary: seq<byte>, p: Part, rest: seq<byte>)
    requires CR !in boundary && GoodPart(p, Delimiter(boundary))
    ensures PartOnWire(Frame(p, Delimiter(boundary), rest), Delimiter(boundary), p.header, p.body, rest)
  {
    DelimiterEndsBody(boundary, p.body, rest);
    HeaderEnds(p.header, p.body + Delimiter(boundary) + rest);
  }

  lemma {:induction false} FramesEnding(parts: seq<Part>, delim: seq<byte>, ending: seq<byte>, more: seq<byte>)
    ensures Frames(parts, delim, ending) + more == Frames(parts, delim, ending + more)
    decreases |parts|
  {
    if parts != [] {
      FramesEnding(parts[1..], delim, ending, more);
      FrameMore(parts[0], delim, Frames(parts[1..], delim, ending), more);
    }
  }

  lemma FrameMore(p: Part, delim: seq<byte>, rest: seq<byte>, more: seq<byte>)
    ensures Frame(p, delim, rest) + more == Frame(p, delim, rest + more)
  {
  }

  lemma RenderEnding(m: Message, more: seq<byte>)
    ensures Render(m) + more == Render(m.(ending := m.ending + more))
  {
    var delim := Delimiter(m.boundary);
    FramesEnding(m.parts, delim, m.ending, more);
    FrameMore(m.meta, delim, Frames(m.parts, delim, m.ending), more);
    var frame := Frame(m.meta, delim, Frames(m.parts, delim, m.ending));
    assert DASH_DASH + m.boundary + frame + more == DASH_DASH + m.boundary + (frame + more);
  }

  /** A part that is whole in what has arrived is that part of all there is. */
  lemma PartInPrefix(s: seq<byte>, tail: seq<byte>, delim: seq<byte>, hdr: seq<byte>, body: seq<byte>, rest: seq<byte>)
    requires PartOnWire(s, delim, hdr, body, rest)
    ensures PartOnWire(s + tail, delim, hdr, body, rest + tail)
  {
    FrameMore(Part(hdr, body), delim, rest, tail);
    var t, u := hdr + CRLF_CRLF + (body + delim + rest), body + delim + rest;
    FirstInPrefix(t, tail, CRLF_CRLF, |hdr|);
    FirstInPrefix(u, tail, delim, |body|);
    assert t + tail == hdr + CRLF_CRLF + (body + delim + (rest + tail));
    assert u + tail == body + delim + (rest + tail);
  }

  // ---- Reading -----------------------------------------------------------------------

  /** The two bytes after a delimiter, then a header block; None at the end of the body. */
  method OpenPart<F>(cursor: ByteCursor, codec: Codec<F>) returns (r: Result<Option<Name>>, ghost hdr: seq<byte>)
    requires cursor.Valid()
    modifies cursor
    ensures cursor.Valid()
    ensures r.Ok? && r.value.Some? ==>
              HeaderOnWire(old(cursor.Rest()), hdr, cursor.Rest()) && codec.partName(hdr) == r.value
    ensures r.Ok? && r.value.None? ==> old(cursor.Rest()) == DASH_DASH + cursor.Rest()
    ensures DASH_DASH <= old(cursor.Rest()) ==> r.Ok? && r.value.None?
    ensures forall h, rest :: HeaderOnWire(old(cursor.Rest()), h, rest)
              && |h| + |CRLF_CRLF| <= MAX_PART_HEADER_BYTES + 1 && codec.partName(h).Some?
              ==> r == Ok(codec.partName(h)) && cursor.Rest() == rest
  {
    ghost var s := cursor.Rest();
    hdr := [];
    var marker := cursor.ReadExact(2);
    if marker.Err? {
      return Err(marker.error), hdr;
    }
    assert s == marker.value + cursor.Rest();
    if marker.value[0] == DASH_DASH[0] && marker.value[1] == DASH_DASH[1] {
      assert marker.value == DASH_DASH;
      return Ok(None), hdr;
    }
    if marker.value[0] != CRLF[0] || marker.value[1] != CRLF[1] {
      return Err(BadDelimiter), hdr;
    }
    assert marker.value == CRLF;
    ghost var t := cursor.Rest();
    assert t == s[2..];
    var header := cursor.ReadUntil(CRLF_CRLF, MAX_PART_HEADER_BYTES);
    if header.Err? {
      return Err(header.error), hdr;
    }
    hdr := header.value;
    assert HeaderOnWire(s, hdr, cursor.Rest());
    forall h, rest | HeaderOnWire(s, h, rest) ensures h == hdr && rest == cursor.Rest() {
      HeaderUnique(s, h, rest, hdr, cursor.Rest());
    }
    var name := codec.partName(header.value);
    if name.None? {
      return Err(NoName), hdr;
    }
    return Ok(name), hdr;
  }

  /** The suspended `consumePart` generator of the part being read. */
  datatype Gen = NoGen | Fresh | Reading(seen: nat, at: Resume) | Failed

  class RpcBody<F> {
    const cursor: ByteCursor
    const codec: Codec<F>
    const delimiter: seq<byte>
    const maxBytes: nat
    const fields: F
    const declared: seq<PartSpec>
    var atPart: nat
    var seenTotal: nat
    var finished: bool
    var consumed: set<nat>
    var gen: Gen
    ghost var origin: seq<byte>
    ghost var got: seq<byte>

    /** Kept by every call: the parts handed out are exactly those before `atPart`, plus
        the one whose generator is open, so each is read at most once and in order. */
    ghost predicate Valid() reads this, cursor {
      && cursor.Valid()
      && atPart <= |declared|
      && (finished <==> atPart == |declared|)
      && (!gen.NoGen? ==> atPart < |declared|)
      && (forall i: nat :: i in consumed <==> i < atPart || (i == atPart && !gen.NoGen?))
      && (gen.Failed? || seenTotal <= maxBytes)
      && (gen.Reading? ==> gen.seen == |got| <= declared[atPart].size
                           && cursor.Streaming(delimiter, gen.at, got, origin))
    }

    constructor (cursor: ByteCursor, codec: Codec<F>, delimiter: seq<byte>, maxBytes: nat, meta: Meta<F>)
      requires cursor.Valid()
      ensures Valid() && gen.NoGen? && atPart == 0 && seenTotal == 0
      ensures this.cursor == cursor && this.codec == codec && this.delimiter == delimiter
      ensures this.maxBytes == maxBytes && fields == meta.fields && declared == meta.binary
    {
      this.cursor, this.codec, this.delimiter, this.maxBytes := cursor, codec, delimiter, maxBytes;
      fields, declared := meta.fields, meta.binary;
      atPart, seenTotal, finished, consumed, gen := 0, 0, |meta.binary| == 0, {}, NoGen;
      origin, got := [], [];
    }

    /** `part.stream()`: single use, and only the part the wire has got to. */
    method Stream(index: nat) returns (r: Result<()>)
      requires Valid() && index < |declared|
      modifies this`consumed, this`gen
      ensures Valid()
      ensures r.Ok? <==> index == old(atPart) && old(gen.NoGen?)
      ensures r.Ok? ==> gen.Fresh?
      ensures r.Err? ==> unchanged(this)
      ensures r == Err(AlreadyRead) <==> index < old(atPart) || (index == old(atPart) && !old(gen.NoGen?))
    {
      if index in consumed {
        return Err(AlreadyRead);
      }
      if index != atPart {
        return Err(OutOfOrder);
      }
      consumed := consumed + {index};
      gen := Fresh;
      return Ok(());
    }

    /** The generator's first step: the part's delimiter line and header block. */
    method OpenCurrent() returns (r: Result<()>, ghost hdr: seq<byte>)
      requires Valid() && gen.Fresh?
      modifies this`gen, this`origin, this`got, cursor
      ensures Valid()
      ensures r.Err? ==> gen.Failed?
      ensures r.Ok? ==> gen == Reading(0, Top) && got == []
      ensures r.Ok?
        ==> HeaderOnWire(old(cursor.Rest()), hdr, origin) && codec.partName(hdr) == Some(declared[atPart].name)
      ensures forall h, t :: HeaderOnWire(old(cursor.Rest()), h, t) && GoodHeader(h, declared[atPart])
                ==> r.Ok? && origin == t
    {
      ghost var s := cursor.Rest();
      var name;
      name, hdr := OpenPart(cursor, codec);
      if name.Err? {
        gen := Failed;
        return Err(name.error), hdr;
      }
      if name.value != Some(declared[atPart].name) {
        gen := Failed;
        return Err(WrongPart), hdr;
      }
      gen, got, origin := Reading(0, Top), [], cursor.Rest();
      forall h, t | HeaderOnWire(s, h, t) ensures h == hdr && t == origin {
        HeaderUnique(s, h, t, hdr, origin);
      }
      return Ok(()), hdr;
    }

    /** A later step: one more chunk of the body, checked against both caps, or its end. */
    method Advance() returns (r: Result<Step>)
      requires Valid() && gen.Reading?
      modifies this, cursor
      ensures Valid()
      ensures r.Err? ==> gen.Failed? && atPart == old(atPart)
      ensures r.Ok? ==> !r.value.Fail? && origin == old(origin)
      ensures r.Ok? && r.value.Yield? ==>
                gen.Reading? && atPart == old(atPart) && r.value.chunk != []
                && seenTotal == old(seenTotal) + |r.value.chunk| && got == old(got) + r.value.chunk
      ensures r.Ok? && r.value.Done? ==>
                gen.NoGen? && atPart == old(atPart) + 1 && seenTotal == old(seenTotal) && got == old(got)
                && |got| == declared[old(atPart)].size
                && FirstAt(origin, delimiter, |got|) && origin == got + delimiter + cursor.Rest()
      ensures old(Whole()) ==> r.Ok? && (r.value.Yield? ==> Whole())
    {
      ghost var whole := Whole();
      var step, at := cursor.NextChunk(delimiter, gen.at, got, origin);
      match step {
        case Fail =>
          gen := Failed;
          return Err(Truncated);
        case Yield(chunk) =>
          var seen := gen.seen + |chunk|;
          seenTotal, got := seenTotal + |chunk|, got + chunk;
          if whole {
            NotPastDelimiter(origin, got, cursor.Rest(), delimiter, declared[atPart].size);
          }
          if seen > declared[atPart].size {
            gen := Failed;
            return Err(LargerThanDeclared);
          }
          if seenTotal > maxBytes {
            gen := Failed;
            return Err(TooLarge);
          }
          gen := Reading(seen, at);
          return Ok(Yield(chunk));
        case Done =>
          if whole {
            FirstAtUnique(origin, delimiter, |got|, declared[atPart].size);
          }
          if gen.seen != declared[atPart].size {
            gen := Failed;
            return Err(SmallerThanDeclared);
          }
          gen, atPart := NoGen, atPart + 1;
          if atPart == |declared| {
            finished := true;
          }
          return Ok(Done);
      }
    }

    ghost predicate GoodHeader(hdr: seq<byte>, spec: PartSpec) {
      |hdr| + |CRLF_CRLF| <= MAX_PART_HEADER_BYTES + 1 && codec.partName(hdr) == Some(spec.name)
    }

    /** The part being read has its declared size on the wire, and that fits the total cap. */
    ghost predicate Whole() reads this {
      && gen.Reading? && atPart < |declared|
      && FirstAt(origin, delimiter, declared[atPart].size)
      && seenTotal + declared[atPart].size - |got| <= maxBytes
    }

    /** Open part `index` and pull its stream until it closes or errors. */
    method ReadPart(index: nat) returns (chunks: seq<seq<byte>>, r: Result<()>, ghost hdr: seq<byte>)
      requires Valid() && index < |declared|
      modifies this, cursor
      ensures Valid()
      ensures r.Ok? ==>
                index == old(atPart) && old(gen.NoGen?) && atPart == index + 1 && gen.NoGen?
                && PartOnWire(old(cursor.Rest()), delimiter, hdr, Flatten(chunks), cursor.Rest())
                && codec.partName(hdr) == Some(declared[index].name)
                && |Flatten(chunks)| == declared[index].size
                && seenTotal == old(seenTotal) + declared[index].size
      ensures forall h, body, rest :: old(gen.NoGen?) && index == old(atPart)
                && PartOnWire(old(cursor.Rest()), delimiter, h, body, rest) && GoodHeader(h, declared[index])
                && |body| == declared[index].size && old(seenTotal) + |body| <= maxBytes
                ==> r.Ok? && Flatten(chunks) == body && cursor.Rest() == rest
    {
      chunks, hdr := [], [];
      r := Stream(index);
      if r.Err? {
        return;
      }
      ghost var s, total0 := cursor.Rest(), seenTotal;
      r, hdr := OpenCurrent();
      if r.Err? {
        return;
      }
      ghost var t := origin;
      ghost var whole := Whole();
      while true
        invariant Valid() && gen.Reading? && atPart == index && origin == t
        invariant got == Flatten(chunks) && seenTotal == total0 + |got|
        invariant whole ==> Whole()
        decreases |t| - |got|
      {
        var step := Advance();
        if step.Err? {
          return chunks, Err(step.error), hdr;
        }
        if step.value.Done? {
          break;
        }
        FlattenSnoc(chunks, step.value.chunk);
        chunks := chunks + [step.value.chunk];
      }
      forall h, body, rest | PartOnWire(s, delimiter, h, body, rest)
        ensures body == Flatten(chunks) && rest == cursor.Rest()
      {
        PartUnique(s, delimiter, h, body, rest, hdr, Flatten(chunks), cursor.Rest());
      }
      r := Ok(());
    }

    /** Release the socket, unless every part was read. */
    method Drain()
      requires Valid()
      modifies cursor
      ensures cursor.Valid()
      ensures finished ==> cursor.Rest() == old(cursor.Rest())
      ensures !finished ==> cursor.unread == []
    {
      if !finished {
        cursor.ended, cursor.unread := true, [];
      }
    }
  }

  lemma NotPastDelimiter(origin: seq<byte>, got: seq<byte>, rest: seq<byte>, delim: seq<byte>, size: int)
    requires Delivered(origin, got, rest, delim) && FirstAt(origin, delim, size)
    ensures |got| <= size
  {
  }

  lemma RenderStarts<F>(m: Message, codec: Codec<F>, meta: Meta<F>, maxBytes: nat)
    requires WellFormed(m, codec, meta, maxBytes)
    ensures FirstAt(Render(m), DASH_DASH + m.boundary, 0)
    ensures PartOnWire(Render(m)[2 + |m.boundary|..], Delimiter(m.boundary), m.meta.header, m.meta.body,
                       Frames(m.parts, Delimiter(m.boundary), m.ending))
  {
    var delim := Delimiter(m.boundary);
    var rest := Frames(m.parts, delim, m.ending);
    assert Render(m)[2 + |m.boundary|..] == Frame(m.meta, delim, rest);
    assert Render(m)[0..2 + |m.boundary|] == DASH_DASH + m.boundary;
    FrameOnWire(m.boundary, m.meta, rest);
  }

  /** Skip to the opening delimiter and open the first part, which must be the meta part. */
  method OpenMeta<F>(boundary: seq<byte>, cursor: ByteCursor, codec: Codec<F>, ghost h: seq<byte>,
                     ghost rest: seq<byte>)
    returns (r: Result<()>, ghost pre: seq<byte>, ghost hdr: seq<byte>)
    requires cursor.Valid()
    modifies cursor
    ensures cursor.Valid()
    ensures r.Ok? ==>
              && pre <= old(cursor.Rest()) && |pre| + 2 + |boundary| <= |old(cursor.Rest())|
              && FirstAt(old(cursor.Rest()), DASH_DASH + boundary, |pre|)
              && HeaderOnWire(old(cursor.Rest())[|pre| + 2 + |boundary|..], hdr, cursor.Rest())
              && codec.partName(hdr) == Some(MULTIPART_META_FIELD)
    ensures && FirstAt(old(cursor.Rest()), DASH_DASH + boundary, 0) && |boundary| + 2 <= MAX_PREAMBLE_BYTES + 1
            && HeaderOnWire(old(cursor.Rest())[2 + |boundary|..], h, rest)
            && |h| + |CRLF_CRLF| <= MAX_PART_HEADER_BYTES + 1 && codec.partName(h) == Some(MULTIPART_META_FIELD)
            ==> r.Ok? && cursor.Rest() == rest
  {
    ghost var s := cursor.Rest();
    pre, hdr := [], [];
    var dashBoundary := DASH_DASH + boundary;
    var preamble := cursor.ReadUntil(dashBoundary, MAX_PREAMBLE_BYTES);
    if preamble.Err? {
      return Err(preamble.error), pre, hdr;
    }
    pre := preamble.value;
    assert cursor.Rest() == s[|pre| + |dashBoundary|..];
    assert FirstAt(s, dashBoundary, 0) ==> |pre| == 0;
    var name;
    name, hdr := OpenPart(cursor, codec);
    if name.Err? {
      return Err(name.error), pre, hdr;
    }
    if name.value != Some(MULTIPART_META_FIELD) {
      return Err(WrongPart), pre, hdr;
    }
    return Ok(()), pre, hdr;
  }

  /** The stream opens with the delimiter and a meta part that says `meta`. `text` and `hdr` are
      the meta part's, `pre` the skipped preamble, `rest` what is still on the wire. */
  ghost predicate Opens<F>(s: seq<byte>, boundary: seq<byte>, codec: Codec<F>, maxBytes: nat,
                                 pre: seq<byte>, hdr: seq<byte>, text: seq<byte>, meta: Meta<F>, rest: seq<byte>) {
    && pre <= s && |pre| + 2 + |boundary| <= |s|
    && FirstAt(s, DASH_DASH + boundary, |pre|)
    && PartOnWire(s[|pre| + 2 + |boundary|..], Delimiter(boundary), hdr, text, rest)
    && codec.partName(hdr) == Some(MULTIPART_META_FIELD)
    && codec.meta(text) == Some(meta)
    && TotalSize(meta.binary) <= maxBytes
  }

  /** What is read of a rendered message's meta part is right, however much of the message is
      still to come. */
  lemma CutOpens<F>(s: seq<byte>, tail: seq<byte>, m: Message, codec: Codec<F>, meta: Meta<F>, maxBytes: nat,
                    pre: seq<byte>, hdr: seq<byte>, text: seq<byte>, got: Meta<F>, rest: seq<byte>)
    requires WellFormed(m, codec, meta, maxBytes) && s + tail == Render(m)
    requires Opens(s, m.boundary, codec, maxBytes, pre, hdr, text, got, rest)
    ensures got == meta && s == DASH_DASH + m.boundary + Frame(m.meta, Delimiter(m.boundary), rest)
    ensures rest + tail == Frames(m.parts, Delimiter(m.boundary), m.ending)
  {
    var delim, dash := Delimiter(m.boundary), DASH_DASH + m.boundary;
    RenderStarts(m, codec, meta, maxBytes);
    FirstInPrefix(s, tail, dash, |pre|);
    FirstAtUnique(Render(m), dash, |pre|, 0);
    var wire := s[2 + |m.boundary|..];
    assert s == s[0..2 + |m.boundary|] + wire;
    assert Render(m)[2 + |m.boundary|..] == wire + tail;
    PartInPrefix(wire, tail, delim, hdr, text, rest);
    PartUnique(wire + tail, delim, hdr, text, rest + tail, m.meta.header, m.meta.body,
               Frames(m.parts, delim, m.ending));
  }

  ghost predicate Sends<F>(s: seq<byte>, boundary: seq<byte>, codec: Codec<F>, maxBytes: nat, m: Message,
                           meta: Meta<F>) {
    boundary == m.boundary && WellFormed(m, codec, meta, maxBytes) && s == Render(m)
  }

  /** Read the meta part and decode it; a total over the limit is refused. */
  method ReadMeta<F>(boundary: seq<byte>, cursor: ByteCursor, codec: Codec<F>, maxBytes: nat, ghost m: Message,
                     ghost meta: Meta<F>)
    returns (r: Result<Meta<F>>, ghost pre: seq<byte>, ghost hdr: seq<byte>, ghost text: seq<byte>)
    requires cursor.Valid()
    modifies cursor
    ensures cursor.Valid()
    ensures r.Ok? ==> Opens(old(cursor.Rest()), boundary, codec, maxBytes, pre, hdr, text, r.value, cursor.Rest())
    ensures Sends(old(cursor.Rest()), boundary, codec, maxBytes, m, meta)
            ==> r == Ok(meta) && cursor.Rest() == Frames(m.parts, Delimiter(m.boundary), m.ending)
  {
    ghost var s := cursor.Rest();
    ghost var good := Sends(s, boundary, codec, maxBytes, m, meta);
    text := [];
    var bodyDelimiter := CRLF + (DASH_DASH + boundary);
    ghost var rest := Frames(m.parts, bodyDelimiter, m.ending);
    if good {
      RenderStarts(m, codec, meta, maxBytes);
    }
    var start;
    start, pre, hdr := OpenMeta(boundary, cursor, codec, m.meta.header, m.meta.body + bodyDelimiter + rest);
    if start.Err? {
      return Err(start.error), pre, hdr, text;
    }
    ghost var s2 := cursor.Rest();
    assert good ==> s2 == m.meta.body + bodyDelimiter + rest;
    var raw := cursor.ReadUntil(bodyDelimiter, MAX_META_BYTES);
    if raw.Err? {
      return Err(raw.error), pre, hdr, text;
    }
    text := raw.value;
    if good {
      CutUnique(s2, bodyDelimiter, text, cursor.Rest(), m.meta.body, rest);
    }
    var decoded := codec.meta(raw.value);
    if decoded.None? {
      return Err(BadMeta), pre, hdr, text;
    }
    if TotalSize(decoded.value.binary) > maxBytes {
      return Err(TooLarge), pre, hdr, text;
    }
    r := Ok(decoded.value);
  }

  /** Read through the meta part and no further: the declared parts are still on the wire. */
  method ParseRpcMultipart<F>(boundary: Option<seq<byte>>, cursor: ByteCursor, codec: Codec<F>, maxBytes: nat,
                              ghost m: Message, ghost meta: Meta<F>)
    returns (r: Result<RpcBody<F>>, ghost pre: seq<byte>, ghost hdr: seq<byte>, ghost text: seq<byte>)
    requires cursor.Valid()
    modifies cursor
    ensures cursor.Valid()
    ensures r.Ok? ==>
              && boundary.Some? && fresh(r.value) && r.value.cursor == cursor && r.value.codec == codec
              && r.value.Valid() && r.value.gen.NoGen? && r.value.atPart == 0 && r.value.seenTotal == 0
              && r.value.delimiter == Delimiter(boundary.value) && r.value.maxBytes == maxBytes
              && Opens(old(cursor.Rest()), boundary.value, codec, maxBytes, pre, hdr, text,
                       Meta(r.value.fields, r.value.declared), cursor.Rest())
    ensures boundary.Some? && Sends(old(cursor.Rest()), boundary.value, codec, maxBytes, m, meta) ==>
              && r.Ok? && r.value.fields == meta.fields && r.value.declared == meta.binary
              && cursor.Rest() == Frames(m.parts, Delimiter(m.boundary), m.ending)
  {
    if boundary.None? {
      return Err(NoBoundary), [], [], [];
    }
    var read;
    read, pre, hdr, text := ReadMeta(boundary.value, cursor, codec, maxBytes, m, meta);
    if read.Err? {
      return Err(read.error), pre, hdr, text;
    }
    var body := new RpcBody(cursor, codec, Delimiter(boundary.value), maxBytes, read.value);
    return Ok(body), pre, hdr, text;
  }

  function Bodies(parts: seq<Part>): seq<seq<byte>> {
    seq(|parts|, i requires 0 <= i < |parts| => parts[i].body)
  }

  /** The stream holds just the declared parts, from the `i`-th on. */
  ghost predicate PartsAhead<F>(m: Message, delim: seq<byte>, codec: Codec<F>, specs: seq<PartSpec>, i: nat,
                                wire: seq<byte>) {
    && CR !in m.boundary && delim == Delimiter(m.boundary) && i <= |m.parts|
    && (forall k :: 0 <= k < |m.parts| ==> GoodPart(m.parts[k], delim))
    && Declares(codec, specs, m.parts)
    && wire == Frames(m.parts[i..], delim, m.ending)
  }

  lemma NextPart<F>(m: Message, delim: seq<byte>, codec: Codec<F>, specs: seq<PartSpec>, i: nat, wire: seq<byte>)
    requires PartsAhead(m, delim, codec, specs, i, wire) && i < |m.parts|
    ensures var rest := Frames(m.parts[i + 1..], delim, m.ending);
      PartsAhead(m, delim, codec, specs, i + 1, rest)
      && PartOnWire(wire, delim, m.parts[i].header, m.parts[i].body, rest)
      && |m.parts[i].header| + |CRLF_CRLF| <= MAX_PART_HEADER_BYTES + 1
      && codec.partName(m.parts[i].header) == Some(specs[i].name) && |m.parts[i].body| == specs[i].size
    ensures Bodies(m.parts[..i + 1]) == Bodies(m.parts[..i]) + [m.parts[i].body]
  {
    assert m.parts[i..][1..] == m.parts[i + 1..];
    FrameOnWire(m.boundary, m.parts[i], Frames(m.parts[i + 1..], delim, m.ending));
  }

  /** The parts that follow each other on the wire, up to `rest`. */
  ghost predicate PartsOnWire(wire: seq<byte>, delim: seq<byte>, parts: seq<Part>, rest: seq<byte>)
    decreases |parts|
  {
    if parts == [] then wire == rest
    else
      var next := Frames(parts[1..], delim, rest);
      PartOnWire(wire, delim, parts[0].header, parts[0].body, next) && PartsOnWire(next, delim, parts[1..], rest)
  }

  lemma {:induction false} OnePartMore(wire: seq<byte>, delim: seq<byte>, parts: seq<Part>, mid: seq<byte>, p: Part,
                                       rest: seq<byte>)
    requires PartsOnWire(wire, delim, parts, mid) && PartOnWire(mid, delim, p.header, p.body, rest)
    ensures PartsOnWire(wire, delim, parts + [p], rest) && Frames(parts + [p], delim, rest) == Frames(parts, delim, mid)
    decreases |parts|
  {
    assert mid == Frame(p, delim, rest);
    if parts == [] {
      assert [p][1..] == [] && parts + [p] == [p];
      assert PartsOnWire(rest, delim, [p][1..], rest);
    } else {
      assert (parts + [p])[1..] == parts[1..] + [p];
      OnePartMore(Frames(parts[1..], delim, mid), delim, parts[1..], mid, p, rest);
    }
  }

  /** The parts read so far, as declared, and where the wire stands after them. */
  ghost predicate ReadSoFar<F>(wire: seq<byte>, delim: seq<byte>, codec: Codec<F>, specs: seq<PartSpec>,
                               parts: seq<Part>, here: seq<byte>) {
    |parts| <= |specs| && PartsOnWire(wire, delim, parts, here) && Declares(codec, specs[..|parts|], parts)
  }

  lemma OneMoreRead<F>(wire: seq<byte>, delim: seq<byte>, codec: Codec<F>, specs: seq<PartSpec>, parts: seq<Part>,
                       mid: seq<byte>, p: Part, here: seq<byte>)
    requires ReadSoFar(wire, delim, codec, specs, parts, mid) && |parts| < |specs|
    requires PartOnWire(mid, delim, p.header, p.body, here)
    requires codec.partName(p.header) == Some(specs[|parts|].name) && |p.body| == specs[|parts|].size
    ensures ReadSoFar(wire, delim, codec, specs, parts + [p], here)
    ensures Bodies(parts + [p]) == Bodies(parts) + [p.body]
  {
    OnePartMore(wire, delim, parts, mid, p, here);
  }

  lemma WireIsFrames(wire: seq<byte>, delim: seq<byte>, parts: seq<Part>, rest: seq<byte>)
    requires PartsOnWire(wire, delim, parts, rest)
    ensures wire == Frames(parts, delim, rest)
  {
  }

  lemma {:induction false} PartsUnique(wire: seq<byte>, delim: seq<byte>, a: seq<Part>, r1: seq<byte>, b: seq<Part>,
                                       r2: seq<byte>)
    requires PartsOnWire(wire, delim, a, r1) && PartsOnWire(wire, delim, b, r2) && |a| == |b|
    ensures a == b && r1 == r2
    decreases |a|
  {
    if a != [] {
      var n1, n2 := Frames(a[1..], delim, r1), Frames(b[1..], delim, r2);
      PartUnique(wire, delim, a[0].header, a[0].body, n1, b[0].header, b[0].body, n2);
      PartsUnique(n1, delim, a[1..], r1, b[1..], r2);
      assert a == [a[0]] + a[1..] && b == [b[0]] + b[1..];
    }
  }

  /** A handler that reads every declared part, in declaration order. */
  method ReadAll<F>(body: RpcBody<F>, ghost m: Message)
    returns (r: Result<seq<seq<byte>>>, ghost parts: seq<Part>)
    requires body.Valid() && body.atPart == 0 && body.gen.NoGen? && body.seenTotal == 0
    modifies body, body.cursor
    ensures body.Valid()
    ensures r.Ok? ==> body.finished && r.value == Bodies(parts) && Declares(body.codec, body.declared, parts)
                      && PartsOnWire(old(body.cursor.Rest()), body.delimiter, parts, body.cursor.Rest())
    ensures TotalSize(body.declared) <= body.maxBytes
            && PartsAhead(m, body.delimiter, body.codec, body.declared, 0, old(body.cursor.Rest()))
            ==> r == Ok(Bodies(m.parts))
  {
    ghost var good := TotalSize(body.declared) <= body.maxBytes
                      && PartsAhead(m, body.delimiter, body.codec, body.declared, 0, body.cursor.Rest());
    ghost var wire := body.cursor.Rest();
    var bodies: seq<seq<byte>> := [];
    parts := [];
    var i := 0;
    while i < |body.declared|
      invariant 0 <= i <= |body.declared| && |parts| == i && bodies == Bodies(parts)
      invariant body.Valid() && body.atPart == i && body.gen.NoGen?
      invariant ReadSoFar(wire, body.delimiter, body.codec, body.declared, parts, body.cursor.Rest())
      invariant body.seenTotal + TotalSize(body.declared[i..]) == TotalSize(body.declared)
      invariant good ==> PartsAhead(m, body.delimiter, body.codec, body.declared, i, body.cursor.Rest())
                         && bodies == Bodies(m.parts[..i])
    {
      if good {
        NextPart(m, body.delimiter, body.codec, body.declared, i, body.cursor.Rest());
      }
      assert body.declared[i..][1..] == body.declared[i + 1..];
      ghost var mid := body.cursor.Rest();
      var chunks, one, hdr := body.ReadPart(i);
      if one.Err? {
        return Err(one.error), parts;
      }
      OneMoreRead(wire, body.delimiter, body.codec, body.declared, parts, mid, Part(hdr, Flatten(chunks)),
                  body.cursor.Rest());
      bodies, parts := bodies + [Flatten(chunks)], parts + [Part(hdr, Flatten(chunks))];
      i := i + 1;
    }
    if good {
      assert m.parts[..i] == m.parts;
    }
    assert body.declared[..i] == body.declared;
    r := Ok(bodies);
  }

  lemma {:induction false} BodiesTotal<F>(codec: Codec<F>, specs: seq<PartSpec>, parts: seq<Part>)
    requires Declares(codec, specs, parts)
    ensures |Flatten(Bodies(parts))| == TotalSize(specs)
    decreases |parts|
  {
    if parts != [] {
      BodiesTotal(codec, specs[1..], parts[1..]);
      assert Bodies(parts)[1..] == Bodies(parts[1..]);
    }
  }

  /** How a body was read: the preamble skipped, the message found, and what its meta part
      declares. */
  datatype Parse = Parse(pre: seq<byte>, message: Message, specs: seq<PartSpec>)

  /** `s` holds these fields and bodies: after a preamble, and up to an ending, it is exactly a
      meta part and the parts that one declares, each closed by the first delimiter. */
  ghost predicate Accepts<F>(s: seq<byte>, boundary: seq<byte>, codec: Codec<F>, maxBytes: nat, fields: F,
                             bodies: seq<seq<byte>>, how: Parse) {
    var m, delim := how.message, Delimiter(boundary);
    && m.boundary == boundary
    && var wire := Frames(m.parts, delim, m.ending);
    && Opens(s, boundary, codec, maxBytes, how.pre, m.meta.header, m.meta.body, Meta(fields, how.specs), wire)
    && PartsOnWire(wire, delim, m.parts, m.ending)
    && Declares(codec, how.specs, m.parts) && bodies == Bodies(m.parts)
  }

  /** So what is accepted is a rendered message behind a preamble. */
  lemma AcceptedIsRendered<F>(s: seq<byte>, boundary: seq<byte>, codec: Codec<F>, maxBytes: nat, fields: F,
                              bodies: seq<seq<byte>>, how: Parse)
    requires Accepts(s, boundary, codec, maxBytes, fields, bodies, how)
    ensures s == how.pre + Render(how.message)
  {
    var k := |how.pre|;
    assert s == s[..k] + s[k..k + 2 + |boundary|] + s[k + 2 + |boundary|..];
    assert how.pre == s[..k];
  }

  /** And it is accepted in one way only. */
  lemma AcceptsUnique<F>(s: seq<byte>, boundary: seq<byte>, codec: Codec<F>, maxBytes: nat,
                         f: F, a: seq<seq<byte>>, x: Parse, g: F, b: seq<seq<byte>>, y: Parse)
    requires Accepts(s, boundary, codec, maxBytes, f, a, x) && Accepts(s, boundary, codec, maxBytes, g, b, y)
    ensures f == g && a == b && x == y
  {
    var delim, m, n := Delimiter(boundary), x.message, y.message;
    FirstAtUnique(s, DASH_DASH + boundary, |x.pre|, |y.pre|);
    PartUnique(s[|x.pre| + 2 + |boundary|..], delim, m.meta.header, m.meta.body, Frames(m.parts, delim, m.ending),
               n.meta.header, n.meta.body, Frames(n.parts, delim, n.ending));
    PartsUnique(Frames(m.parts, delim, m.ending), delim, m.parts, m.ending, n.parts, n.ending);
  }

  /** The whole path: whatever chunks the network delivers a rendered body in, the same
      fields and byte-identical parts come out; and whatever comes out was in the body. */
  method Receive<F>(stream: seq<seq<byte>>, boundary: Option<seq<byte>>, codec: Codec<F>, maxBytes: nat,
                    ghost m: Message, ghost meta: Meta<F>)
    returns (r: Result<(F, seq<seq<byte>>)>, ghost how: Parse)
    ensures r.Ok? ==> boundary.Some?
                      && Accepts(Flatten(stream), boundary.value, codec, maxBytes, r.value.0, r.value.1, how)
                      && |Flatten(r.value.1)| <= maxBytes
    ensures boundary == Some(m.boundary) && WellFormed(m, codec, meta, maxBytes) && Flatten(stream) == Render(m)
            ==> r == Ok((meta.fields, Bodies(m.parts)))
  {
    var cursor := new ByteCursor(stream);
    var body, pre, hdr, text := ParseRpcMultipart(boundary, cursor, codec, maxBytes, m, meta);
    how := Parse(pre, m, []);
    if body.Err? {
      return Err(body.error), how;
    }
    assert m.parts[0..] == m.parts;
    ghost var wire := cursor.Rest();
    var bodies;
    ghost var parts;
    bodies, parts := ReadAll(body.value, m);
    if bodies.Err? {
      return Err(bodies.error), how;
    }
    how := Parse(pre, Message(boundary.value, Part(hdr, text), parts, cursor.Rest()), body.value.declared);
    WireIsFrames(wire, Delimiter(boundary.value), parts, cursor.Rest());
    BodiesTotal(codec, body.value.declared, parts);
    return Ok((body.value.fields, bodies.value)), how;
  }

  /** So a rendering determines its fields and parts: two well-formed messages with the
      same bytes, read alike, carry the same payload. */
  lemma {:induction false} FramesInjective(boundary: seq<byte>, a: seq<Part>, b: seq<Part>, e: seq<byte>, f: seq<byte>)
    requires CR !in boundary
    requires forall i :: 0 <= i < |a| ==> GoodPart(a[i], Delimiter(boundary))
    requires forall i :: 0 <= i < |b| ==> GoodPart(b[i], Delimiter(boundary))
    requires DASH_DASH <= e && DASH_DASH <= f
    requires Frames(a, Delimiter(boundary), e) == Frames(b, Delimiter(boundary), f)
    ensures a == b && e == f
    decreases |a|
  {
    var d := Delimiter(boundary);
    var s := Frames(a, d, e);
    if a == [] || b == [] {
      assert s[0] == (if a == [] then DASH else CR) && s[0] == (if b == [] then DASH else CR);
    } else {
      FrameOnWire(boundary, a[0], Frames(a[1..], d, e));
      FrameOnWire(boundary, b[0], Frames(b[1..], d, f));
      PartUnique(s, d, a[0].header, a[0].body, Frames(a[1..], d, e), b[0].header, b[0].body, Frames(b[1..], d, f));
      FramesInjective(boundary, a[1..], b[1..], e, f);
      assert a == [a[0]] + a[1..] && b == [b[0]] + b[1..];
    }
  }
}
