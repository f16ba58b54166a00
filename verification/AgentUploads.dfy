/** The host agent's side of a chunked upload (apps/server/src/agent/agent.ts:395-412, 775-840). */
module AgentUploads {
  import opened Bytes

  type Path = string
  type UploadId = string

  /** One entry of `uploads`; the open handle is the file at `temp`. */
  datatype Upload = Upload(path: Path, temp: Path, bytesWritten: nat)

  datatype World = World(uploads: map<UploadId, Upload>, files: map<Path, seq<byte>>)

  /** An `uploadChunkRequest`, its path already normalized and its content decoded. */
  datatype Chunk = Chunk(id: UploadId, path: Path, offset: nat, data: seq<byte>, final: bool)

  /** What the operating system does for one chunk: the random temp suffix, whether the
      exclusive open succeeds, and how much lands if the write throws. */
  datatype Io = Io(suffix: string, opens: bool, torn: Option<nat>)

  const TEMP_MARK := ".sc-tmp-"

  function TempSibling(target: Path, suffix: string): Path { target + (TEMP_MARK + suffix) }

  ghost predicate GoodEntry(w: World, id: UploadId)
    requires id in w.uploads
  {
    var u := w.uploads[id];
    u.temp in w.files && |w.files[u.temp]| == u.bytesWritten
  }

  /** Entries and temp files match one to one, each entry knows its file's length, and no
      upload is bound for another's temp file. */
  ghost predicate Wf(w: World) {
    && (forall id :: id in w.uploads ==> GoodEntry(w, id))
    && (forall i, j :: i in w.uploads && j in w.uploads && w.uploads[i].temp == w.uploads[j].temp ==> i == j)
    && (forall i, j :: i in w.uploads && j in w.uploads ==> w.uploads[i].path != w.uploads[j].temp)
  }

  /** Whether a chunk starts an upload. */
  predicate Starts(w: World, c: Chunk) { c.offset == 0 && c.id !in w.uploads }

  /** The target is no live temp file, and the temp name drawn is no live target. */
  ghost predicate Apart(w: World, c: Chunk, io: Io) {
    forall i :: i in w.uploads ==> w.uploads[i].temp != c.path && w.uploads[i].path != TempSibling(c.path, io.suffix)
  }

  /** What keeps uploads out of each other's way: needed only of a chunk that starts one. */
  ghost predicate Clean(w: World, c: Chunk, io: Io) { Wf(w) && (Starts(w, c) ==> Apart(w, c, io)) }

  // ---- The handlers, on values ---------------------------------------------------------

  /** Open a temp sibling for the first chunk of an unknown upload; None if that throws. */
  function Opened(w: World, c: Chunk, io: Io): Option<World> {
    if Starts(w, c) then
      var temp := TempSibling(c.path, io.suffix);
      if !io.opens || temp in w.files then None
      else Some(World(w.uploads[c.id := Upload(c.path, temp, 0)], w.files[temp := []]))
    else Some(w)
  }

  predicate Expected(w: World, c: Chunk) {
    c.id in w.uploads && c.offset == w.uploads[c.id].bytesWritten && c.path == w.uploads[c.id].path
  }

  function ContentAt(files: map<Path, seq<byte>>, p: Path): seq<byte> {
    if p in files then files[p] else []
  }

  function Written(w: World, c: Chunk): World
    requires c.id in w.uploads
  {
    var u := w.uploads[c.id];
    var data := ContentAt(w.files, u.temp) + c.data;
    if c.final then World(w.uploads - {c.id}, (w.files - {u.temp})[u.path := data])
    else World(w.uploads[c.id := u.(bytesWritten := u.bytesWritten + |c.data|)], w.files[u.temp := data])
  }

  function Discarded(w: World, id: UploadId): World {
    if id in w.uploads then World(w.uploads - {id}, w.files - {w.uploads[id].temp}) else w
  }

  /** Whether the chunk is acknowledged, and the state it leaves: a rejected chunk ends
      its upload. */
  function OnChunk(w: World, c: Chunk, io: Io): (r: (World, Option<nat>))
    ensures r.1.Some? ==> r.1.value == c.offset + |c.data|
  {
    var o := Opened(w, c, io);
    if o.None? then (Discarded(w, c.id), None)
    else if !Expected(o.value, c) || io.torn.Some? then (Discarded(o.value, c.id), None)
    else (Written(o.value, c), Some(o.value.uploads[c.id].bytesWritten + |c.data|))
  }

  /** What a chunk must be for the host to take it: the continuation of its upload, or the start
      of a new one under a temp name that is free. */
  ghost predicate Acceptable(w: World, c: Chunk, io: Io) {
    && io.torn.None?
    && if c.id in w.uploads then c.path == w.uploads[c.id].path && c.offset == w.uploads[c.id].bytesWritten
       else c.offset == 0 && io.opens && (c.path + ".sc-tmp-" + io.suffix) !in w.files
  }

  /** Everything a chunk does. Taken, its data goes at the end of what the upload holds, and the
      last one moves that to the target; refused, the upload and what it holds are gone. Nothing
      else changes either way. */
  lemma ChunkIs(w: World, c: Chunk, io: Io)
    ensures var (v, ack) := OnChunk(w, c, io);
      var temp := if c.id in w.uploads then w.uploads[c.id].temp else c.path + ".sc-tmp-" + io.suffix;
      var had := if c.id in w.uploads then ContentAt(w.files, temp) else [];
      && (ack.Some? <==> Acceptable(w, c, io))
      && (ack.Some? ==> ack.value == c.offset + |c.data|)
      && (ack.Some? && !c.final ==>
            v == World(w.uploads[c.id := Upload(c.path, temp, c.offset + |c.data|)], w.files[temp := had + c.data]))
      && (ack.Some? && c.final ==>
            v == World(w.uploads - {c.id}, (w.files - {temp})[c.path := had + c.data]))
      && (ack.None? ==> v == if c.id in w.uploads then World(w.uploads - {c.id}, w.files - {temp}) else w)
  {
    assert c.path + (TEMP_MARK + io.suffix) == c.path + ".sc-tmp-" + io.suffix;
    if c.id !in w.uploads && Opened(w, c, io).Some? && c.offset == 0 {
      var temp := TempSibling(c.path, io.suffix);
      assert w.files[temp := []] - {temp} == w.files;
      assert w.uploads[c.id := Upload(c.path, temp, 0)] - {c.id} == w.uploads - {c.id} == w.uploads;
      assert w.files[temp := []] - {temp} == w.files - {temp};
    }
  }

  // ---- The agent -----------------------------------------------------------------------

  class Agent {
    var uploads: map<UploadId, Upload>
    var files: map<Path, seq<byte>>

    ghost function State(): World reads this { World(uploads, files) }

    constructor (files: map<Path, seq<byte>>)
      ensures uploads == map[] && this.files == files && Wf(State())
    {
      uploads, this.files := map[], files;
    }

    /** None when it throws; the caller then discards. */
    method RunUploadChunk(c: Chunk, io: Io) returns (r: Option<nat>)
      modifies this
      ensures r == OnChunk(old(State()), c, io).1
      ensures r.Some? ==> State() == OnChunk(old(State()), c, io).0
      ensures r.None? ==> Discarded(State(), c.id) == OnChunk(old(State()), c, io).0
    {
      if c.offset == 0 && c.id !in uploads {
        var temp := TempSibling(c.path, io.suffix);
        if !io.opens || temp in files {
          return None;
        }
        files := files[temp := []];
        uploads := uploads[c.id := Upload(c.path, temp, 0)];
      }
      if c.id !in uploads {
        return None;
      }
      var upload := uploads[c.id];
      if c.offset != upload.bytesWritten {
        return None;
      }
      if upload.path != c.path {
        return None;
      }
      r := Append(c, io);
    }

    /** The write itself and, after the last chunk, the rename that publishes. */
    method Append(c: Chunk, io: Io) returns (r: Option<nat>)
      requires Expected(State(), c)
      modifies this
      ensures r == (if io.torn.Some? then None else Some(c.offset + |c.data|))
      ensures r.Some? ==> State() == Written(old(State()), c)
      ensures r.None? ==> Discarded(State(), c.id) == Discarded(old(State()), c.id)
    {
      var upload := uploads[c.id];
      if io.torn.Some? {
        var n := if io.torn.value < |c.data| then io.torn.value else |c.data|;
        files := files[upload.temp := ContentAt(files, upload.temp) + c.data[..n]];
        assert files - {upload.temp} == old(files) - {upload.temp};
        return None;
      }
      files := files[upload.temp := ContentAt(files, upload.temp) + c.data];
      upload := upload.(bytesWritten := upload.bytesWritten + |c.data|);
      uploads := uploads[c.id := upload];
      if !c.final {
        return Some(upload.bytesWritten);
      }
      uploads := uploads - {c.id};
      assert uploads == old(uploads) - {c.id};
      var data := files[upload.temp];
      files := files - {upload.temp};
      assert files == old(files) - {upload.temp};
      files := files[upload.path := data];
      return Some(upload.bytesWritten);
    }

    method DiscardUpload(id: UploadId)
      modifies this
      ensures State() == Discarded(old(State()), id)
    {
      if id !in uploads {
        return;
      }
      var temp := uploads[id].temp;
      uploads := uploads - {id};
      files := files - {temp};
    }

    /** The `uploadChunkRequest` case of `onMessage`. */
    method ReceiveChunk(c: Chunk, io: Io) returns (r: Option<nat>)
      modifies this
      ensures (State(), r) == OnChunk(old(State()), c, io)
      ensures old(Clean(State(), c, io)) ==> Wf(State())
    {
      ghost var w := State();
      r := RunUploadChunk(c, io);
      if r.None? {
        DiscardUpload(c.id);
      }
      if Clean(w, c, io) {
        ChunkKeepsWf(w, c, io);
      }
    }
  }

  // ---- Safety over runs ------------------------------------------------------------------

  lemma OpenKeepsWf(w: World, c: Chunk, io: Io)
    requires Clean(w, c, io) && Opened(w, c, io).Some?
    ensures Wf(Opened(w, c, io).value)
  {
    var v := Opened(w, c, io).value;
    assert |TempSibling(c.path, io.suffix)| > |c.path|;
    forall id | id in v.uploads ensures GoodEntry(v, id) {
      assert id in w.uploads ==> GoodEntry(w, id);
    }
  }

  lemma WriteKeepsWf(w: World, c: Chunk)
    requires Wf(w) && Expected(w, c)
    ensures Wf(Written(w, c))
  {
    var v := Written(w, c);
    assert GoodEntry(w, c.id);
    forall id | id in v.uploads ensures GoodEntry(v, id) {
      assert GoodEntry(w, id);
    }
  }

  lemma DiscardKeepsWf(w: World, id: UploadId)
    requires Wf(w)
    ensures Wf(Discarded(w, id))
  {
    var v := Discarded(w, id);
    forall i | i in v.uploads ensures GoodEntry(v, i) {
      assert GoodEntry(w, i);
    }
  }

  /** Whatever a chunk says, entries and temp files stay matched. */
  lemma ChunkKeepsWf(w: World, c: Chunk, io: Io)
    requires Clean(w, c, io)
    ensures Wf(OnChunk(w, c, io).0)
  {
    var o := Opened(w, c, io);
    if o.None? {
      DiscardKeepsWf(w, c.id);
    } else {
      OpenKeepsWf(w, c, io);
      if !Expected(o.value, c) || io.torn.Some? {
        DiscardKeepsWf(o.value, c.id);
      } else {
        WriteKeepsWf(o.value, c);
      }
    }
  }

  /** A file being uploaded, and where to. */
  datatype Doc = Doc(target: Path, bytes: seq<byte>)

  type Docs = map<UploadId, Doc>

  datatype Event = Deliver(chunk: Chunk, io: Io) | Abort(id: UploadId) | IdleExpired(id: UploadId)

  /** A chunk as an honest sender builds it, whenever and however often it arrives. */
  ghost predicate Honest(docs: Docs, c: Chunk) {
    && c.id in docs && c.path == docs[c.id].target
    && c.offset + |c.data| <= |docs[c.id].bytes|
    && c.data == docs[c.id].bytes[c.offset..c.offset + |c.data|]
    && (c.final ==> c.offset + |c.data| == |docs[c.id].bytes|)
  }

  /** No temp name drawn for a chunk is where some file is bound for. */
  ghost predicate NoTarget(docs: Docs, p: Path) { forall id :: id in docs ==> docs[id].target != p }

  ghost predicate HonestEvents(docs: Docs, events: seq<Event>) {
    forall e :: e in events && e.Deliver?
      ==> Honest(docs, e.chunk) && NoTarget(docs, TempSibling(e.chunk.path, e.io.suffix))
  }

  ghost predicate Complete(docs: Docs, p: Path, content: seq<byte>) {
    exists id :: id in docs && docs[id].target == p && docs[id].bytes == content
  }

  /** The entry is for its document, and its temp file, nobody's target, holds a prefix of it. */
  ghost predicate HoldsPrefix(files0: map<Path, seq<byte>>, docs: Docs, w: World, id: UploadId)
    requires id in w.uploads
  {
    var u := w.uploads[id];
    && id in docs && u.path == docs[id].target && u.temp !in files0 && NoTarget(docs, u.temp)
    && u.temp in w.files && w.files[u.temp] <= docs[id].bytes
  }

  ghost predicate Owned(w: World, p: Path) { exists id :: id in w.uploads && w.uploads[id].temp == p }

  /** A path is as it was, or holds a complete file meant for it, or is a live entry's temp
      file, which it was not before. */
  ghost predicate OldOrComplete(files0: map<Path, seq<byte>>, docs: Docs, w: World, p: Path) {
    && (p in files0 ==> p in w.files)
    && (p in w.files ==>
          || (p in files0 && w.files[p] == files0[p])
          || Complete(docs, p, w.files[p])
          || (p !in files0 && Owned(w, p)))
  }

  ghost predicate Safe(files0: map<Path, seq<byte>>, docs: Docs, w: World) {
    && Wf(w)
    && (forall id :: id in w.uploads ==> HoldsPrefix(files0, docs, w, id))
    && (forall p :: OldOrComplete(files0, docs, w, p))
  }

  /** So a target is never seen half-written. */
  lemma TargetsAreOldOrComplete(files0: map<Path, seq<byte>>, docs: Docs, w: World, id: UploadId)
    requires Safe(files0, docs, w) && id in docs
    ensures var p := docs[id].target;
      p in w.files ==> (p in files0 && w.files[p] == files0[p]) || Complete(docs, p, w.files[p])
    ensures docs[id].target in files0 ==> docs[id].target in w.files
  {
    var p := docs[id].target;
    assert OldOrComplete(files0, docs, w, p);
    forall i | i in w.uploads ensures w.uploads[i].temp != p {
      assert HoldsPrefix(files0, docs, w, i);
    }
  }

  lemma HonestIsClean(files0: map<Path, seq<byte>>, docs: Docs, w: World, c: Chunk, io: Io)
    requires Safe(files0, docs, w) && Honest(docs, c) && NoTarget(docs, TempSibling(c.path, io.suffix))
    ensures Clean(w, c, io)
  {
    forall i | i in w.uploads
      ensures w.uploads[i].temp != c.path && w.uploads[i].path != TempSibling(c.path, io.suffix)
    {
      assert HoldsPrefix(files0, docs, w, i);
    }
  }

  lemma OpenIsSafe(files0: map<Path, seq<byte>>, docs: Docs, w: World, c: Chunk, io: Io)
    requires Safe(files0, docs, w) && Honest(docs, c) && NoTarget(docs, TempSibling(c.path, io.suffix))
    requires Opened(w, c, io).Some?
    ensures Safe(files0, docs, Opened(w, c, io).value)
  {
    var v := Opened(w, c, io).value;
    HonestIsClean(files0, docs, w, c, io);
    OpenKeepsWf(w, c, io);
    var temp := TempSibling(c.path, io.suffix);
    assert OldOrComplete(files0, docs, w, temp);
    forall id | id in v.uploads ensures HoldsPrefix(files0, docs, v, id) {
      assert id in w.uploads ==> HoldsPrefix(files0, docs, w, id);
    }
    forall p ensures OldOrComplete(files0, docs, v, p) {
      assert OldOrComplete(files0, docs, w, p);
      if Owned(w, p) {
        var id :| id in w.uploads && w.uploads[id].temp == p;
        assert id in v.uploads && v.uploads[id].temp == p;
      }
      if v != w && p == temp {
        assert v.uploads[c.id].temp == p;
      }
    }
  }

  /** An honest chunk in its place makes the prefix longer, and the last one makes it whole. */
  lemma PrefixGrows(files0: map<Path, seq<byte>>, docs: Docs, w: World, c: Chunk)
    requires Safe(files0, docs, w) && Honest(docs, c) && Expected(w, c)
    ensures var data := ContentAt(w.files, w.uploads[c.id].temp) + c.data;
      data <= docs[c.id].bytes && (c.final ==> data == docs[c.id].bytes)
  {
    var u, f := w.uploads[c.id], docs[c.id].bytes;
    assert GoodEntry(w, c.id) && HoldsPrefix(files0, docs, w, c.id);
    assert w.files[u.temp] == f[..c.offset];
    assert f[..c.offset] + c.data == f[..c.offset + |c.data|];
  }

  lemma WriteIsSafe(files0: map<Path, seq<byte>>, docs: Docs, w: World, c: Chunk)
    requires Safe(files0, docs, w) && Honest(docs, c) && Expected(w, c)
    ensures Safe(files0, docs, Written(w, c))
  {
    var v := Written(w, c);
    PrefixGrows(files0, docs, w, c);
    WriteKeepsWf(w, c);
    assert HoldsPrefix(files0, docs, w, c.id);
    forall id | id in v.uploads ensures HoldsPrefix(files0, docs, v, id) {
      assert HoldsPrefix(files0, docs, w, id);
    }
    forall p ensures OldOrComplete(files0, docs, v, p) {
      WrittenAt(files0, docs, w, c, p);
    }
  }

  lemma WrittenAt(files0: map<Path, seq<byte>>, docs: Docs, w: World, c: Chunk, p: Path)
    requires Safe(files0, docs, w) && Honest(docs, c) && Expected(w, c)
    ensures OldOrComplete(files0, docs, Written(w, c), p)
  {
    var v, u := Written(w, c), w.uploads[c.id];
    PrefixGrows(files0, docs, w, c);
    assert OldOrComplete(files0, docs, w, p) && HoldsPrefix(files0, docs, w, c.id);
    if c.final && p == u.path {
      assert Complete(docs, p, v.files[p]);
    } else if Owned(w, p) && p in v.files {
      var id :| id in w.uploads && w.uploads[id].temp == p;
      assert id in v.uploads && v.uploads[id].temp == p;
    }
  }

  lemma DiscardIsSafe(files0: map<Path, seq<byte>>, docs: Docs, w: World, id: UploadId)
    requires Safe(files0, docs, w)
    ensures Safe(files0, docs, Discarded(w, id))
  {
    var v := Discarded(w, id);
    DiscardKeepsWf(w, id);
    assert id in w.uploads ==> HoldsPrefix(files0, docs, w, id);
    forall i | i in v.uploads ensures HoldsPrefix(files0, docs, v, i) {
      assert HoldsPrefix(files0, docs, w, i);
    }
    forall p ensures OldOrComplete(files0, docs, v, p) {
      assert OldOrComplete(files0, docs, w, p);
      if Owned(w, p) && p in v.files {
        var i :| i in w.uploads && w.uploads[i].temp == p;
        assert i in v.uploads && v.uploads[i].temp == p;
      }
    }
  }

  function Step(w: World, e: Event): World
  {
    match e
    case Deliver(c, io) => OnChunk(w, c, io).0
    case Abort(id) => Discarded(w, id)
    case IdleExpired(id) => Discarded(w, id)
  }

  lemma StepIsSafe(files0: map<Path, seq<byte>>, docs: Docs, w: World, e: Event)
    requires Safe(files0, docs, w)
    requires e.Deliver? ==> Honest(docs, e.chunk) && NoTarget(docs, TempSibling(e.chunk.path, e.io.suffix))
    ensures Safe(files0, docs, Step(w, e))
  {
    match e
    case Deliver(c, io) =>
      var o := Opened(w, c, io);
      if o.None? {
        DiscardIsSafe(files0, docs, w, c.id);
      } else {
        OpenIsSafe(files0, docs, w, c, io);
        if !Expected(o.value, c) || io.torn.Some? {
          DiscardIsSafe(files0, docs, o.value, c.id);
        } else {
          WriteIsSafe(files0, docs, o.value, c);
        }
      }
    case Abort(id) => DiscardIsSafe(files0, docs, w, id);
    case IdleExpired(id) => DiscardIsSafe(files0, docs, w, id);
  }

  /** The events are handled one at a time, in this order. */
  function Run(w: World, events: seq<Event>): World
    decreases |events|
  {
    if events == [] then w else Run(Step(w, events[0]), events[1..])
  }

  /** However the chunks of honest uploads are lost, repeated, reordered, torn, aborted or
      left to expire, the host only ever shows old or complete files. */
  lemma {:induction false} RunIsSafe(files0: map<Path, seq<byte>>, docs: Docs, w: World, events: seq<Event>)
    requires Safe(files0, docs, w) && HonestEvents(docs, events)
    ensures Safe(files0, docs, Run(w, events))
    decreases |events|
  {
    if events != [] {
      assert events[0] in events;
      StepIsSafe(files0, docs, w, events[0]);
      RunIsSafe(files0, docs, Step(w, events[0]), events[1..]);
    }
  }

  lemma FromIdle(files0: map<Path, seq<byte>>, docs: Docs, events: seq<Event>)
    requires HonestEvents(docs, events)
    ensures Safe(files0, docs, Run(World(map[], files0), events))
  {
    forall p ensures OldOrComplete(files0, docs, World(map[], files0), p) {}
    RunIsSafe(files0, docs, World(map[], files0), events);
  }

  // ---- Splitting a chunk -----------------------------------------------------------------

  /** The host will take `c` next: it continues a live upload, or starts one. */
  ghost predicate Ready(w: World, c: Chunk, io: Io) {
    && Wf(w) && io.torn.None?
    && (c.id in w.uploads ==> Expected(w, c))
    && (c.id !in w.uploads
        ==> c.offset == 0 && io.opens && TempSibling(c.path, io.suffix) !in w.files && Apart(w, c, io))
  }

  lemma ReadyIsTaken(w: World, c: Chunk, io: Io)
    requires Ready(w, c, io)
    ensures OnChunk(w, c, io).1 == Some(c.offset + |c.data|)
    ensures !c.final ==> Expected(OnChunk(w, c, io).0, Chunk(c.id, c.path, c.offset + |c.data|, [], false))
  {
  }

  /** Two consecutive chunks leave what the one chunk they make up would have left. */
  lemma SplitChunk(w: World, c: Chunk, io: Io, k: nat, io2: Io)
    requires Ready(w, c, io) && k <= |c.data| && io2.torn.None?
    ensures var first := Chunk(c.id, c.path, c.offset, c.data[..k], false);
            var second := Chunk(c.id, c.path, c.offset + k, c.data[k..], c.final);
            var mid := OnChunk(w, first, io).0;
            Wf(mid) && OnChunk(mid, second, io2) == OnChunk(w, c, io)
  {
    var first := Chunk(c.id, c.path, c.offset, c.data[..k], false);
    var second := Chunk(c.id, c.path, c.offset + k, c.data[k..], c.final);
    ChunkKeepsWf(w, first, io);
    OpenKeepsWf(w, c, io);
    ReadyIsWritten(w, c, io, c.data[..k], false);
    ReadyIsWritten(w, c, io, c.data, c.final);
    var o := Opened(w, c, io).value;
    SplitWrite(o, c, k);
    ContinuesIsWritten(Written(o, first), second, io2);
    assert GoodEntry(o, c.id);
  }

  /** What the host makes of a chunk it is ready for, or of one like it with other data. */
  lemma ReadyIsWritten(w: World, c: Chunk, io: Io, data: seq<byte>, final: bool)
    requires Ready(w, c, io)
    ensures var d, o := c.(data := data, final := final), Opened(w, c, io);
      o.Some? && Expected(o.value, c)
      && OnChunk(w, d, io) == (Written(o.value, d), Some(o.value.uploads[c.id].bytesWritten + |data|))
  {
  }

  lemma ContinuesIsWritten(w: World, c: Chunk, io: Io)
    requires Expected(w, c) && io.torn.None?
    ensures OnChunk(w, c, io) == (Written(w, c), Some(w.uploads[c.id].bytesWritten + |c.data|))
  {
  }

  lemma SplitWrite(o: World, c: Chunk, k: nat)
    requires Wf(o) && Expected(o, c) && k <= |c.data|
    ensures var mid := Written(o, Chunk(c.id, c.path, c.offset, c.data[..k], false));
            var second := Chunk(c.id, c.path, c.offset + k, c.data[k..], c.final);
            Expected(mid, second) && Written(mid, second) == Written(o, c)
  {
    var mid := Written(o, Chunk(c.id, c.path, c.offset, c.data[..k], false));
    var second := Chunk(c.id, c.path, c.offset + k, c.data[k..], c.final);
    var u := o.uploads[c.id];
    assert GoodEntry(o, c.id);
    assert c.data[..k] + c.data[k..] == c.data;
    assert (o.files[u.temp] + c.data[..k]) + c.data[k..] == o.files[u.temp] + c.data;
    assert Written(mid, second).uploads == Written(o, c).uploads;
    assert Written(mid, second).files == Written(o, c).files;
  }

  /** A whole file in one chunk changes its target and nothing else. */
  lemma WholeFilePublishes(w: World, c: Chunk, io: Io)
    requires Ready(w, c, io) && c.id !in w.uploads && c.final
    ensures OnChunk(w, c, io).0 == World(w.uploads, w.files[c.path := c.data])
  {
    var temp := TempSibling(c.path, io.suffix);
    assert |temp| > |c.path|;
    assert [] + c.data == c.data;
    assert w.uploads[c.id := Upload(c.path, temp, 0)] - {c.id} == w.uploads;
    assert w.files[temp := []] - {temp} == w.files;
  }
}
