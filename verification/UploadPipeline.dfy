/** One upload, end to end: the browser's slices (apps/web/src/components/FilesView.tsx:207-250),
    framed, carried in arbitrary network chunks, parsed, re-chunked and appended by the host. */
module UploadPipeline {
  import opened Bytes
  import opened AgentUploads
  import opened UploadFile
  import opened RpcMultipart
  import Multipart
  import PartHeader

  const UPLOAD_REQUEST_BYTES: nat := 8 * 1024 * 1024
  const MAX_BINARY_REQUEST_BYTES: nat := UPLOAD_REQUEST_BYTES + 8 * 1024 * 1024
  const CONTENT: Name := "content"

  datatype Fields = Fields(path: Path, uploadId: UploadId, offset: nat, final: bool)

  type Decoder = seq<byte> -> Option<Meta<Fields>>

  /** What the browser's form encoder brings to one request: a boundary of its own, whatever it writes after a part's
      name, an epilogue, and the JSON text of the meta part. */
  datatype Form = Form(boundary: seq<byte>, metaTail: string, contentTail: string, epilogue: seq<byte>,
                       encode: Meta<Fields> -> seq<byte>)

  function MetaOf(fields: Fields, slice: seq<byte>): Meta<Fields> { Meta(fields, [PartSpec(CONTENT, |slice|)]) }

  predicate AsciiForm(form: Form) {
    PartHeader.Ascii(PartHeader.HeaderText(MULTIPART_META_FIELD, form.metaTail))
    && PartHeader.Ascii(PartHeader.HeaderText(CONTENT, form.contentTail))
  }

  /** The body of one upload call. */
  function Request(form: Form, fields: Fields, slice: seq<byte>): Message
    requires AsciiForm(form)
  {
    Message(form.boundary,
            Part(PartHeader.Encode(PartHeader.HeaderText(MULTIPART_META_FIELD, form.metaTail)),
              form.encode(MetaOf(fields, slice))),
            [Part(PartHeader.Encode(PartHeader.HeaderText(CONTENT, form.contentTail)), slice)],
            Multipart.DASH_DASH + form.epilogue)
  }

  /** The boundary occurs in no payload, the sections fit, and the JSON survives its trip. */
  ghost predicate Sendable(form: Form, decode: Decoder, fields: Fields, slice: seq<byte>) {
    && AsciiForm(form)
    && Multipart.CR !in form.boundary && |form.boundary| + 2 <= Multipart.MAX_PREAMBLE_BYTES + 1
    && var m, delim := Request(form, fields, slice), Delimiter(form.boundary);
    && GoodPart(m.meta, delim) && GoodPart(m.parts[0], delim)
    && |m.meta.body| + |delim| <= Multipart.MAX_META_BYTES + 1
    && decode(m.meta.body) == Some(MetaOf(fields, slice))
    && |slice| <= UPLOAD_REQUEST_BYTES
  }

  /** Whatever has arrived of what follows the last delimiter. */
  lemma SendableIsWellFormed(form: Form, decode: Decoder, fields: Fields, slice: seq<byte>, ending: seq<byte>)
    requires Sendable(form, decode, fields, slice)
    ensures WellFormed(Request(form, fields, slice).(ending := ending), PartHeader.CodecOf(decode),
                       MetaOf(fields, slice), MAX_BINARY_REQUEST_BYTES)
  {
    PartHeader.EncodedName(decode, MULTIPART_META_FIELD, form.metaTail);
    PartHeader.EncodedName(decode, CONTENT, form.contentTail);
    var specs := MetaOf(fields, slice).binary;
    assert TotalSize(specs) == |slice| + TotalSize(specs[1..]) == |slice|;
  }

  function ContentIndex(specs: seq<PartSpec>): (i: int)
    ensures -1 <= i < |specs|
  {
    if specs == [] then -1
    else if specs[|specs| - 1].name == CONTENT then |specs| - 1
    else ContentIndex(specs[..|specs| - 1])
  }

  /** The last declared part of that name. */
  lemma {:induction false} ContentIndexIs(specs: seq<PartSpec>)
    ensures var i := ContentIndex(specs);
      && (i == -1 ==> forall k :: 0 <= k < |specs| ==> specs[k].name != CONTENT)
      && (i >= 0 ==> specs[i].name == CONTENT && forall k :: i < k < |specs| ==> specs[k].name != CONTENT)
  {
    if specs != [] && specs[|specs| - 1].name != CONTENT {
      ContentIndexIs(specs[..|specs| - 1]);
    }
  }

  /** The stream announces that call's boundary, and is its body or as much of it as arrives
      before the connection is lost, in some split. */
  ghost predicate Arrives(stream: seq<seq<byte>>, boundary: Option<seq<byte>>, decode: Decoder,
                          form: Form, fields: Fields, slice: seq<byte>) {
    boundary == Some(form.boundary) && Sendable(form, decode, fields, slice)
    && Flatten(stream) <= Render(Request(form, fields, slice))
  }

  /** Enough arrives: everything up to the delimiter that closes the content part. */
  ghost predicate Whole(stream: seq<seq<byte>>, form: Form, fields: Fields, slice: seq<byte>) {
    HoldsContent(Flatten(stream), form, fields, slice)
  }

  ghost predicate HoldsContent(s: seq<byte>, form: Form, fields: Fields, slice: seq<byte>) {
    AsciiForm(form) && Render(Request(form, fields, slice).(ending := [])) <= s
  }

  /** The meta part has been read off what has arrived; `wire` is left of that. */
  ghost predicate PastMeta(s: seq<byte>, form: Form, fields: Fields, slice: seq<byte>, wire: seq<byte>) {
    && AsciiForm(form) && s <= Render(Request(form, fields, slice))
    && var m := Request(form, fields, slice);
    && s == Multipart.DASH_DASH + form.boundary + Frame(m.meta, Delimiter(form.boundary), wire)
    && wire + Render(m)[|s|..] == Frames(m.parts, Delimiter(form.boundary), m.ending)
  }

  /** Parse one upload call and read its content part through. None when there is nothing
      to hand to the handler. */
  method ReceiveContent(stream: seq<seq<byte>>, boundary: Option<seq<byte>>, decode: Decoder,
                        ghost form: Form, ghost fields: Fields, ghost slice: seq<byte>)
    returns (f: Option<Fields>, chunks: seq<seq<byte>>, intact: bool)
    ensures f.Some? ==> exists text :: decode(text).Some? && decode(text).value.fields == f.value
    ensures Arrives(stream, boundary, decode, form, fields, slice) ==>
              && (f.Some? ==> f == Some(fields))
              && (intact <==> Whole(stream, form, fields, slice))
              && (intact ==> f.Some? && Flatten(chunks) == slice)
  {
    var cursor := new Multipart.ByteCursor(stream);
    var codec := PartHeader.CodecOf(decode);
    ghost var s := Flatten(stream);
    ghost var good := Arrives(stream, boundary, decode, form, fields, slice);
    ghost var whole := good && Whole(stream, form, fields, slice);
    ghost var m := if whole then Arrived(s, form, fields, slice) else Message([], Part([], []), [], []);
    if whole {
      SendableIsWellFormed(form, decode, fields, slice, m.ending);
    }
    var body, pre, hdr, text :=
      ParseRpcMultipart(boundary, cursor, codec, MAX_BINARY_REQUEST_BYTES, m, MetaOf(fields, slice));
    if body.Err? {
      return None, [], false;
    }
    assert decode(text).value.fields == body.value.fields;
    ghost var wire := cursor.Rest();
    if good {
      CutCallOpens(s, form, decode, fields, slice, pre, hdr, text, Meta(body.value.fields, body.value.declared), wire);
    }
    var index := ContentIndex(body.value.declared);
    if index < 0 {
      return None, [], false;
    }
    chunks, intact := ReadContent(body.value, index, decode, s, form, fields, slice);
    return Some(body.value.fields), chunks, intact;
  }

  /** The content part of a call whose meta part has been read. */
  method ReadContent(body: RpcBody<Fields>, index: nat, decode: Decoder, ghost s: seq<byte>, ghost form: Form,
                     ghost fields: Fields, ghost slice: seq<byte>)
    returns (chunks: seq<seq<byte>>, intact: bool)
    requires body.Valid() && index < |body.declared| && body.gen.NoGen? && body.atPart == 0 && body.seenTotal == 0
    requires body.codec == PartHeader.CodecOf(decode) && body.maxBytes == MAX_BINARY_REQUEST_BYTES
    modifies body, body.cursor
    ensures CallAhead(body.delimiter, body.declared, index, decode, s, form, fields, slice, old(body.cursor.Rest())) ==>
              && (intact <==> HoldsContent(s, form, fields, slice))
              && (intact ==> Flatten(chunks) == slice)
  {
    ghost var wire := body.cursor.Rest();
    ghost var good := CallAhead(body.delimiter, body.declared, index, decode, s, form, fields, slice, wire);
    if good && HoldsContent(s, form, fields, slice) {
      ArrivedWire(s, form, decode, fields, slice, wire);
    }
    var read;
    ghost var hdr;
    chunks, read, hdr := body.ReadPart(index);
    if good && read.Ok? {
      CutContent(s, form, decode, fields, slice, wire, hdr, Flatten(chunks), body.cursor.Rest());
    }
    body.Drain();
    intact := read.Ok?;
  }

  /** Of a call, the content part is next on the wire, or as much of it as has arrived. */
  ghost predicate CallAhead(delim: seq<byte>, declared: seq<PartSpec>, index: nat, decode: Decoder, s: seq<byte>,
                            form: Form, fields: Fields, slice: seq<byte>, wire: seq<byte>) {
    && Sendable(form, decode, fields, slice) && PastMeta(s, form, fields, slice, wire)
    && delim == Delimiter(form.boundary) && declared == MetaOf(fields, slice).binary && index == 0
  }

  /** When enough has arrived, the content part is whole on the wire. */
  lemma ArrivedWire(s: seq<byte>, form: Form, decode: Decoder, fields: Fields, slice: seq<byte>, wire: seq<byte>)
    requires Sendable(form, decode, fields, slice) && PastMeta(s, form, fields, slice, wire)
    requires HoldsContent(s, form, fields, slice)
    ensures var m, delim := Request(form, fields, slice), Delimiter(form.boundary);
      && (exists rest :: PartOnWire(wire, delim, m.parts[0].header, slice, rest))
      && PartHeader.CodecOf(decode).partName(m.parts[0].header) == Some(CONTENT)
      && |m.parts[0].header| + |Multipart.CRLF_CRLF| <= Multipart.MAX_PART_HEADER_BYTES + 1
  {
    var m := Arrived(s, form, fields, slice);
    ContentOnWire(form, decode, fields, slice, m.ending);
    var head, frames := Multipart.DASH_DASH + form.boundary, Frames(m.parts, Delimiter(form.boundary), m.ending);
    assert s == head + Frame(m.meta, Delimiter(form.boundary), wire);
    assert s == head + Frame(m.meta, Delimiter(form.boundary), frames);
    FrameInjective(head, m.meta, Delimiter(form.boundary), wire, frames);
  }

  lemma FrameInjective(head: seq<byte>, p: Part, delim: seq<byte>, a: seq<byte>, b: seq<byte>)
    requires head + Frame(p, delim, a) == head + Frame(p, delim, b)
    ensures a == b
  {
    var n := |head| + 2 + |p.header| + 4 + |p.body| + |delim|;
    assert (head + Frame(p, delim, a))[n..] == a;
    assert (head + Frame(p, delim, b))[n..] == b;
  }

  /** The message that has arrived. */
  ghost function Arrived(s: seq<byte>, form: Form, fields: Fields, slice: seq<byte>): (m: Message)
    requires HoldsContent(s, form, fields, slice)
    ensures s == Render(m) && m == Request(form, fields, slice).(ending := m.ending)
  {
    var bare := Request(form, fields, slice).(ending := []);
    RenderEnding(bare, s[|Render(bare)|..]);
    bare.(ending := [] + s[|Render(bare)|..])
  }

  /** The meta part of a call, however the rest is cut, says what the call says. */
  lemma CutCallOpens(s: seq<byte>, form: Form, decode: Decoder, fields: Fields, slice: seq<byte>,
                     pre: seq<byte>, hdr: seq<byte>, text: seq<byte>, got: Meta<Fields>, wire: seq<byte>)
    requires Sendable(form, decode, fields, slice) && s <= Render(Request(form, fields, slice))
    requires Opens(s, form.boundary, PartHeader.CodecOf(decode), MAX_BINARY_REQUEST_BYTES, pre, hdr, text, got, wire)
    ensures got == MetaOf(fields, slice) && PastMeta(s, form, fields, slice, wire)
    ensures ContentIndex(got.binary) == 0
  {
    var m := Request(form, fields, slice);
    SendableIsWellFormed(form, decode, fields, slice, m.ending);
    assert s + Render(m)[|s|..] == Render(m);
    CutOpens(s, Render(m)[|s|..], m, PartHeader.CodecOf(decode), MetaOf(fields, slice), MAX_BINARY_REQUEST_BYTES,
             pre, hdr, text, got, wire);
  }

  /** A content part that comes out whole is the slice, and all of it has arrived. */
  lemma CutContent(s: seq<byte>, form: Form, decode: Decoder, fields: Fields, slice: seq<byte>, wire: seq<byte>,
                   hdr: seq<byte>, content: seq<byte>, rest: seq<byte>)
    requires Sendable(form, decode, fields, slice) && s <= Render(Request(form, fields, slice))
    requires PastMeta(s, form, fields, slice, wire)
    requires PartOnWire(wire, Delimiter(form.boundary), hdr, content, rest)
    ensures content == slice && HoldsContent(s, form, fields, slice)
  {
    var m, delim := Request(form, fields, slice), Delimiter(form.boundary);
    var tail := Render(m)[|s|..];
    PartInPrefix(wire, tail, delim, hdr, content, rest);
    ContentOnWire(form, decode, fields, slice, m.ending);
    PartUnique(wire + tail, delim, hdr, content, rest + tail, m.parts[0].header, slice, m.ending);
    assert m.parts[1..] == [];
    assert m.parts == [Part(hdr, content)] && Frames([], delim, rest) == rest;
    assert Frames(m.parts, delim, rest) == Frame(Part(hdr, content), delim, rest) == wire;
    assert s == Render(m.(ending := rest));
    RenderEnding(m.(ending := []), rest);
    assert [] + rest == rest;
  }

  lemma ContentOnWire(form: Form, decode: Decoder, fields: Fields, slice: seq<byte>, ending: seq<byte>)
    requires Sendable(form, decode, fields, slice)
    ensures var m, delim := Request(form, fields, slice), Delimiter(form.boundary);
            PartOnWire(Frames(m.parts, delim, ending), delim, m.parts[0].header, slice, ending)
            && PartHeader.CodecOf(decode).partName(m.parts[0].header) == Some(CONTENT)
            && |m.parts[0].header| + |Multipart.CRLF_CRLF| <= Multipart.MAX_PART_HEADER_BYTES + 1
    ensures ContentIndex(MetaOf(fields, slice).binary) == 0
  {
    var m, delim := Request(form, fields, slice), Delimiter(form.boundary);
    assert m.parts[1..] == [];
    FrameOnWire(form.boundary, m.parts[0], ending);
    PartHeader.EncodedName(decode, CONTENT, form.contentTail);
  }

  /** One upload call on the server. Drawing the part's chunks off the socket does not touch
      the host, so they are drawn first here and handed to `UploadFile` after. However little
      of the call arrives, and whatever goes wrong on the way to the host, what comes of it is
      what `UploadFile` promises for the call's own slice. */
  method HandleUpload(agent: Agent, stream: seq<seq<byte>>, boundary: Option<seq<byte>>, decode: Decoder,
                      env: nat -> Hop, abortArrives: bool, ghost form: Form, ghost fields: Fields,
                      ghost slice: seq<byte>)
    returns (r: Option<nat>)
    modifies agent
    ensures Arrives(stream, boundary, decode, form, fields, slice)
            && Clean(old(agent.State()), ChunkOf(fields, slice), env(0).io) ==>
              && Outcome(Call(old(agent.State()), ChunkOf(fields, slice), env, true),
                         Whole(stream, form, fields, slice), agent.State(), r)
              && (r.None? && abortArrives ==> fields.uploadId !in agent.uploads || agent.State() == old(agent.State()))
  {
    ghost var w0 := agent.State();
    var f, chunks, intact := ReceiveContent(stream, boundary, decode, form, fields, slice);
    if f.None? {
      assert Wf(w0) ==> OnlyThisUpload(w0, w0, fields.uploadId) by {
        assert forall p :: SameAt(w0.files, w0.files, p);
      }
      return None;
    }
    var session := Session(f.value.uploadId, f.value.offset, f.value.final);
    ghost var sent;
    r, sent := UploadFile.UploadFile(agent, f.value.path, chunks, intact, session, env, abortArrives);
  }

  function ChunkOf(fields: Fields, slice: seq<byte>): Chunk {
    Chunk(fields.uploadId, fields.path, fields.offset, slice, fields.final)
  }

  // ---- The browser's loop ----------------------------------------------------------------

  /** A file on its way to `target`. */
  datatype Job = Job(file: seq<byte>, target: Path, uploadId: UploadId)

  /** What happens to request `k` of a file: the form it goes out in, what of it reaches the
      server and in what pieces, the trips of its blocks, whether the host hears of a failure,
      and whether the browser hears the server's answer. */
  datatype Net = Net(form: nat -> Form, wire: nat -> seq<seq<byte>>, env: nat -> nat -> Hop, abort: nat -> bool,
                     answered: nat -> bool)

  function SliceEnd(file: seq<byte>, offset: nat): nat {
    if offset + UPLOAD_REQUEST_BYTES < |file| then offset + UPLOAD_REQUEST_BYTES else |file|
  }

  /** Where request `k` starts. */
  function OffsetAt(k: nat): nat { if k == 0 then 0 else OffsetAt(k - 1) + UPLOAD_REQUEST_BYTES }

  function FieldsOf(job: Job, k: nat): Fields {
    Fields(job.target, job.uploadId, OffsetAt(k), SliceEnd(job.file, OffsetAt(k)) >= |job.file|)
  }

  function SliceOf(job: Job, k: nat): seq<byte> {
    var offset := OffsetAt(k);
    if offset <= |job.file| then job.file[offset..SliceEnd(job.file, offset)] else []
  }

  function PieceOf(job: Job, k: nat): Chunk { ChunkOf(FieldsOf(job, k), SliceOf(job, k)) }

  /** The number of the request that ends a file of that length. */
  function LastRequest(length: nat): nat {
    if length <= UPLOAD_REQUEST_BYTES then 0 else 1 + LastRequest(length - UPLOAD_REQUEST_BYTES)
  }

  lemma {:induction false} LastRequestIs(length: nat, k: nat)
    requires k == 0 || OffsetAt(k) < length
    ensures k <= LastRequest(length) && (OffsetAt(k) + UPLOAD_REQUEST_BYTES >= length <==> k == LastRequest(length))
    decreases k
  {
    if k > 0 {
      LastRequestIs(length - UPLOAD_REQUEST_BYTES, k - 1);
    }
  }

  /** Every request is put together properly, and what reaches the server is the start of it. */
  ghost predicate Deliverable(job: Job, decode: Decoder, net: Net) {
    forall k: nat :: k <= LastRequest(|job.file|) ==> ArrivesAt(job, decode, net, k)
  }

  ghost predicate ArrivesAt(job: Job, decode: Decoder, net: Net, k: nat) {
    Arrives(net.wire(k), Some(net.form(k).boundary), decode, net.form(k), FieldsOf(job, k), SliceOf(job, k))
  }

  function FirstBytes(job: Job, n: nat): Chunk {
    Chunk(job.uploadId, job.target, 0, if n <= |job.file| then job.file[..n] else [], false)
  }

  /** The host knows nothing of the upload yet, and neither its target nor the temp name it will
      draw is in a live upload's way. */
  ghost predicate Undisturbed(w0: World, job: Job, net: Net) {
    job.uploadId !in w0.uploads && Clean(w0, FirstBytes(job, 0), net.env(0)(0).io)
  }

  /** And it can start: the temp name is free and the first write succeeds. */
  ghost predicate Clear(w0: World, job: Job, net: Net) {
    job.uploadId !in w0.uploads && Ready(w0, FirstBytes(job, 0), net.env(0)(0).io)
  }

  ghost predicate ReadsThrough(job: Job, net: Net, k: nat) {
    Whole(net.wire(k), net.form(k), FieldsOf(job, k), SliceOf(job, k))
  }

  /** Request `k` arrives, all of its blocks are written and acknowledged, and so is the request. */
  ghost predicate GetsThrough(job: Job, net: Net, k: nat) {
    ReadsThrough(job, net, k) && Through(net.env(k), Blocks(PieceOf(job, k))) && net.answered(k)
  }

  ghost predicate GetThrough(job: Job, net: Net, n: nat) { forall k: nat :: k < n ==> GetsThrough(job, net, k) }

  /** The request that ends the file arrives, and its last block is written: acknowledged or not. */
  ghost predicate EndIsTaken(job: Job, net: Net) {
    var k := LastRequest(|job.file|);
    var n := BlocksIn(|SliceOf(job, k)|);
    ReadsThrough(job, net, k) && Through(net.env(k), n)
    && net.env(k)(n).io.torn.None? && !net.env(k)(n).link.RequestLost?
  }

  ghost predicate Succeeds(w0: World, job: Job, net: Net) {
    Clear(w0, job, net) && GetThrough(job, net, LastRequest(|job.file|) + 1)
  }

  ghost predicate Publishes(w0: World, job: Job, net: Net) {
    Clear(w0, job, net) && GetThrough(job, net, LastRequest(|job.file|)) && EndIsTaken(job, net)
  }

  /** The file is under its target, all of it, and nothing else has changed. */
  function Published(w0: World, job: Job): World { World(w0.uploads, w0.files[job.target := job.file]) }

  /** The host holds exactly what the first `k` requests carry, unpublished. */
  ghost predicate Holding(w0: World, w: World, job: Job, net: Net, k: nat) {
    if k == 0 then w == w0
    else OffsetAt(k) < |job.file| && Clear(w0, job, net)
         && w == OnChunk(w0, FirstBytes(job, OffsetAt(k)), net.env(0)(0).io).0
  }

  /** What comes of request `k`. */
  ghost predicate SliceOutcome(w0: World, w: World, job: Job, net: Net, k: nat, r: Option<nat>) {
    var last := k == LastRequest(|job.file|);
    && (r.Some? <==> Clear(w0, job, net) && GetsThrough(job, net, k))
    && (r.Some? ==> r == Some(SliceEnd(job.file, OffsetAt(k))))
    && (r.Some? && !last ==> Holding(w0, w, job, net, k + 1))
    && (last && Clear(w0, job, net) && EndIsTaken(job, net) ==> w == Published(w0, job))
    && (r.None? && !(last && Clear(w0, job, net) && EndIsTaken(job, net)) ==> OnlyThisUpload(w0, w, job.uploadId))
  }

  /** One call of the browser's: request `k`, for the slice at `offset`. None when it throws. */
  method UploadSlice(agent: Agent, job: Job, offset: nat, k: nat, decode: Decoder, net: Net, ghost w0: World)
    returns (r: Option<nat>)
    requires offset == OffsetAt(k) && (k == 0 || offset < |job.file|)
    modifies agent
    ensures Deliverable(job, decode, net) && Undisturbed(w0, job, net)
            && Holding(w0, old(agent.State()), job, net, k)
            ==> SliceOutcome(w0, agent.State(), job, net, k, r)
  {
    ghost var w := agent.State();
    ghost var good := Deliverable(job, decode, net) && Undisturbed(w0, job, net) && Holding(w0, w, job, net, k);
    LastRequestIs(|job.file|, k);
    if good {
      assert ArrivesAt(job, decode, net, k);
      PieceIsClean(w0, w, job, net, k);
    }
    r := HandleUpload(agent, net.wire(k), Some(net.form(k).boundary), decode, net.env(k), net.abort(k),
                      net.form(k), FieldsOf(job, k), SliceOf(job, k));
    if good {
      SliceDecides(w0, w, agent.State(), job, net, k, r);
    }
    if !net.answered(k) {
      return None;
    }
  }

  /** What comes of a file. It arrives exactly when the host is clear for it and every request
      gets through; it is published exactly when all but the last get through and the last one's
      end is taken; and short of that nothing but this upload's own temp file differs. */
  ghost predicate FileOutcome(w0: World, w: World, job: Job, net: Net, ok: bool, bytesWritten: nat) {
    && (ok <==> Succeeds(w0, job, net))
    && (ok ==> Publishes(w0, job, net) && bytesWritten == |job.file|)
    && (if Publishes(w0, job, net) then w == Published(w0, job) else OnlyThisUpload(w0, w, job.uploadId))
  }

  /** One file: slices of at most UPLOAD_REQUEST_BYTES, one request each, until the one that
      ends the file or the first that fails. */
  method UploadOne(agent: Agent, job: Job, decode: Decoder, net: Net) returns (ok: bool, bytesWritten: nat)
    modifies agent
    ensures Deliverable(job, decode, net) && Undisturbed(old(agent.State()), job, net)
            ==> FileOutcome(old(agent.State()), agent.State(), job, net, ok, bytesWritten)
  {
    ghost var w0 := agent.State();
    ghost var good := Deliverable(job, decode, net) && Undisturbed(w0, job, net);
    var offset, k: nat := 0, 0;
    bytesWritten := 0;
    while true
      invariant offset == OffsetAt(k) && (k == 0 || offset < |job.file|)
      invariant good ==> Holding(w0, agent.State(), job, net, k) && GetThrough(job, net, k)
      decreases |job.file| - offset
    {
      var end := SliceEnd(job.file, offset);
      var final := end >= |job.file|;
      LastRequestIs(|job.file|, k);
      var r := UploadSlice(agent, job, offset, k, decode, net, w0);
      if good {
        OneRequest(w0, agent.State(), job, net, k, r);
      }
      if r.None? {
        return false, bytesWritten;
      }
      bytesWritten := r.value;
      if final {
        return true, bytesWritten;
      }
      offset, k := offset + UPLOAD_REQUEST_BYTES, k + 1;
    }
  }

  lemma OneRequest(w0: World, w: World, job: Job, net: Net, k: nat, r: Option<nat>)
    requires GetThrough(job, net, k) && k <= LastRequest(|job.file|) && SliceOutcome(w0, w, job, net, k, r)
    requires k == LastRequest(|job.file|) <==> SliceEnd(job.file, OffsetAt(k)) == |job.file|
    ensures r.None? ==> FileOutcome(w0, w, job, net, false, 0)
    ensures r.Some? ==> GetThrough(job, net, k + 1)
    ensures r.Some? && k == LastRequest(|job.file|) ==> FileOutcome(w0, w, job, net, true, r.value)
  {
    if r.None? {
      RequestFails(w0, w, job, net, k);
    } else {
      OneMoreThrough(job, net, k);
      if k == LastRequest(|job.file|) {
        EndGetsThrough(job, net);
        assert Succeeds(w0, job, net) && Publishes(w0, job, net);
      }
    }
  }

  lemma OneMoreThrough(job: Job, net: Net, k: nat)
    requires GetThrough(job, net, k) && GetsThrough(job, net, k)
    ensures GetThrough(job, net, k + 1)
  {
  }

  lemma RequestFails(w0: World, w: World, job: Job, net: Net, k: nat)
    requires GetThrough(job, net, k) && k <= LastRequest(|job.file|) && SliceOutcome(w0, w, job, net, k, None)
    ensures FileOutcome(w0, w, job, net, false, 0)
  {
    assert !(Clear(w0, job, net) && GetsThrough(job, net, k));
    assert GetThrough(job, net, LastRequest(|job.file|) + 1) ==> GetsThrough(job, net, k);
    assert k < LastRequest(|job.file|) ==> !Publishes(w0, job, net);
  }

  /** A request that ends the file and gets through has its last block taken. */
  lemma EndGetsThrough(job: Job, net: Net)
    requires GetsThrough(job, net, LastRequest(|job.file|)) && PieceOf(job, LastRequest(|job.file|)).final
    ensures EndIsTaken(job, net)
  {
  }

  lemma PieceIsClean(w0: World, w: World, job: Job, net: Net, k: nat)
    requires Undisturbed(w0, job, net) && Holding(w0, w, job, net, k)
    ensures Clean(w, PieceOf(job, k), net.env(k)(0).io) && OnlyThisUpload(w0, w, job.uploadId)
    ensures Ready(w, PieceOf(job, k), net.env(k)(0).io)
       <==> Clear(w0, job, net) && net.env(k)(0).io.torn.None?
  {
    if k == 0 {
      assert forall p :: SameAt(w0.files, w0.files, p);
    } else {
      var c := FirstBytes(job, OffsetAt(k));
      NonFinalStaysPrivate(w0, c, net.env(0)(0).io);
      ReadyIsTaken(w0, c, net.env(0)(0).io);
    }
  }

  /** The requests so far and this one make up one chunk. */
  lemma PieceContinues(w0: World, w: World, job: Job, net: Net, k: nat)
    requires Clear(w0, job, net) && Holding(w0, w, job, net, k) && net.env(k)(0).io.torn.None?
    requires k == 0 || OffsetAt(k) < |job.file|
    ensures OnChunk(w, PieceOf(job, k), net.env(k)(0).io).0
         == OnChunk(w0, FirstBytes(job, SliceEnd(job.file, OffsetAt(k))).(final := FieldsOf(job, k).final),
                    net.env(0)(0).io).0
  {
    var offset, end := OffsetAt(k), SliceEnd(job.file, OffsetAt(k));
    var whole := FirstBytes(job, end).(final := FieldsOf(job, k).final);
    if k == 0 {
      assert job.file[0..end] == job.file[..end];
      assert PieceOf(job, 0) == whole;
    } else {
      assert whole.data[..offset] == job.file[..offset] && whole.data[offset..] == job.file[offset..end];
      SplitChunk(w0, whole, net.env(0)(0).io, offset, net.env(k)(0).io);
    }
  }

  /** What a request leaves, if the host takes all of it. */
  lemma PieceLands(w0: World, w: World, job: Job, net: Net, k: nat)
    requires Clear(w0, job, net) && Holding(w0, w, job, net, k) && net.env(k)(0).io.torn.None?
    requires k == 0 || OffsetAt(k) < |job.file|
    ensures var w' := OnChunk(w, PieceOf(job, k), net.env(k)(0).io).0;
      if FieldsOf(job, k).final then w' == Published(w0, job) else Holding(w0, w', job, net, k + 1)
  {
    PieceContinues(w0, w, job, net, k);
    var end := SliceEnd(job.file, OffsetAt(k));
    if FieldsOf(job, k).final {
      assert job.file[..end] == job.file;
      WholeFilePublishes(w0, FirstBytes(job, end).(final := true), net.env(0)(0).io);
    }
  }

  /** A call's fate, in terms of the network and the host's luck alone. */
  lemma CallDecides(w0: World, w: World, job: Job, net: Net, k: nat)
    requires Undisturbed(w0, job, net) && Holding(w0, w, job, net, k) && (k == 0 || OffsetAt(k) < |job.file|)
    ensures var call, whole := CallFor(w, job, net, k), ReadsThrough(job, net, k);
      && (GoesThrough(call, whole) <==> Clear(w0, job, net) && whole && Through(net.env(k), Blocks(call.c)))
      && (LandsUnheard(call, whole) ==> Clear(w0, job, net) && net.env(k)(0).io.torn.None?)
  {
    PieceIsClean(w0, w, job, net, k);
    PieceHasBlocks(job, k);
    OneBlockMore(net.env(k), BlocksIn(|SliceOf(job, k)|));
    OneBlockMore(net.env(k), Blocks(PieceOf(job, k)) - 1);
  }

  lemma PieceHasBlocks(job: Job, k: nat)
    requires k == 0 || OffsetAt(k) < |job.file|
    ensures Blocks(PieceOf(job, k)) > 0
  {
    assert PieceOf(job, k).final || |SliceOf(job, k)| > 0;
  }

  /** The last call lands, heard of or not, exactly when its end is taken. */
  lemma EndDecides(w0: World, w: World, job: Job, net: Net)
    requires var k := LastRequest(|job.file|); (k == 0 || OffsetAt(k) < |job.file|) && PieceOf(job, k).final
    requires Undisturbed(w0, job, net) && Holding(w0, w, job, net, LastRequest(|job.file|))
    ensures Landed(w, job, net, LastRequest(|job.file|)) <==> Clear(w0, job, net) && EndIsTaken(job, net)
  {
    var k := LastRequest(|job.file|);
    PieceIsClean(w0, w, job, net, k);
    OneBlockMore(net.env(k), BlocksIn(|SliceOf(job, k)|));
  }

  lemma OneBlockMore(env: nat -> Hop, n: nat)
    ensures Through(env, n + 1) <==> Through(env, n) && env(n).io.torn.None? && env(n).link.Answered?
    ensures Through(env, n) && env(n).io.torn.None? ==> env(0).io.torn.None?
  {
  }

  function CallFor(w: World, job: Job, net: Net, k: nat): Call { Call(w, PieceOf(job, k), net.env(k), true) }

  ghost predicate Handled(w: World, w': World, job: Job, net: Net, k: nat, r: Option<nat>) {
    Outcome(CallFor(w, job, net, k), ReadsThrough(job, net, k), w', r)
  }

  ghost predicate Landed(w: World, job: Job, net: Net, k: nat) {
    GoesThrough(CallFor(w, job, net, k), ReadsThrough(job, net, k))
    || LandsUnheard(CallFor(w, job, net, k), ReadsThrough(job, net, k))
  }

  /** The host takes the whole slice; if that is not acknowledged, it ended the file. */
  ghost predicate Took(w: World, w': World, job: Job, net: Net, k: nat, handled: Option<nat>) {
    && TakenAll(CallFor(w, job, net, k), w')
    && var c := PieceOf(job, k);
    if handled.Some? then handled == Some(c.offset + |c.data|) else c.final
  }

  lemma LandedIsTaken(w: World, w': World, job: Job, net: Net, k: nat, handled: Option<nat>)
    requires Handled(w, w', job, net, k, handled) && Landed(w, job, net, k) && Blocks(PieceOf(job, k)) > 0
    ensures Took(w, w', job, net, k, handled)
  {
    OutcomeLands(CallFor(w, job, net, k), ReadsThrough(job, net, k), w', handled);
  }

  lemma PieceLength(job: Job, k: nat)
    requires k == 0 || OffsetAt(k) < |job.file|
    ensures PieceOf(job, k).offset + |PieceOf(job, k).data| == SliceEnd(job.file, OffsetAt(k))
  {
  }

  /** What a request leaves that the host takes to its end, heard of or not. */
  lemma LandedSlice(w0: World, w: World, w': World, job: Job, net: Net, k: nat, handled: Option<nat>)
    requires Clear(w0, job, net) && Holding(w0, w, job, net, k) && (k == 0 || OffsetAt(k) < |job.file|)
    requires Took(w, w', job, net, k, handled) && net.env(k)(0).io.torn.None?
    ensures if FieldsOf(job, k).final then w' == Published(w0, job) else Holding(w0, w', job, net, k + 1)
    ensures !FieldsOf(job, k).final ==> OnlyThisUpload(w0, w', job.uploadId)
    ensures if handled.Some? then handled == Some(SliceEnd(job.file, OffsetAt(k))) else FieldsOf(job, k).final
  {
    PieceLength(job, k);
    PieceLands(w0, w, job, net, k);
    if !FieldsOf(job, k).final {
      HoldingIsPrivate(w0, w', job, net, k + 1);
    }
  }

  lemma HoldingIsPrivate(w0: World, w: World, job: Job, net: Net, k: nat)
    requires Clear(w0, job, net) && Holding(w0, w, job, net, k)
    ensures OnlyThisUpload(w0, w, job.uploadId)
  {
    PieceIsClean(w0, w, job, net, k);
  }

  lemma LostSlice(w0: World, w: World, w': World, job: Job, net: Net, k: nat, handled: Option<nat>)
    requires Undisturbed(w0, job, net) && Holding(w0, w, job, net, k)
    requires Handled(w, w', job, net, k, handled) && !Landed(w, job, net, k)
    ensures handled.None? && OnlyThisUpload(w0, w', job.uploadId)
  {
    PieceIsClean(w0, w, job, net, k);
    StillPrivate(w0, w, w', job.uploadId);
  }

  lemma SliceDecides(w0: World, w: World, w': World, job: Job, net: Net, k: nat, handled: Option<nat>)
    requires Undisturbed(w0, job, net) && Holding(w0, w, job, net, k) && (k == 0 || OffsetAt(k) < |job.file|)
    requires FieldsOf(job, k).final <==> k == LastRequest(|job.file|)
    requires Handled(w, w', job, net, k, handled)
    ensures SliceOutcome(w0, w', job, net, k, if net.answered(k) then handled else None)
  {
    CallDecides(w0, w, job, net, k);
    PieceHasBlocks(job, k);
    if k == LastRequest(|job.file|) {
      EndDecides(w0, w, job, net);
    }
    if Landed(w, job, net, k) {
      OneBlockMore(net.env(k), Blocks(PieceOf(job, k)) - 1);
      LandedIsTaken(w, w', job, net, k, handled);
      LandedSlice(w0, w, w', job, net, k, handled);
    } else {
      LostSlice(w0, w, w', job, net, k, handled);
    }
  }
}
