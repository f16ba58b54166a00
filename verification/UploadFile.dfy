/** The control plane's half of an upload request: blocks of a fixed size, each acknowledged
    by the host before the next (apps/server/src/host-agent.ts:464-558). */
module UploadFile {
  import opened Bytes
  import opened AgentUploads

  const UPLOAD_CHUNK_BYTES: nat := 4 * 1024 * 1024

  datatype Session = Session(uploadId: UploadId, offset: nat, final: bool)

  // ---- What one upload touches -----------------------------------------------------------

  predicate OwnTemp(w: World, id: UploadId, p: Path) { id in w.uploads && w.uploads[id].temp == p }

  /** Only upload `id`'s own temp file, the one it had or a new one, may differ: other uploads
      and every other path are as they were. Without an entry it has no temp file either. */
  ghost predicate OnlyThisUpload(w0: World, w: World, id: UploadId) {
    && Wf(w)
    && (forall p :: SameAt(w0.files, w.files, p) || OwnTemp(w0, id, p) || OwnTemp(w, id, p))
    && (forall p :: OwnTemp(w, id, p) ==> OwnTemp(w0, id, p) || p !in w0.files)
    && (forall p :: OwnTemp(w0, id, p) && p in w.files ==> OwnTemp(w, id, p))
    && (forall i :: i != id ==> SameUpload(w0, w, i))
  }

  ghost predicate SameUpload(w0: World, w: World, i: UploadId) {
    (i in w.uploads <==> i in w0.uploads) && (i in w.uploads ==> w.uploads[i] == w0.uploads[i])
  }

  ghost predicate SameAt(a: map<Path, seq<byte>>, b: map<Path, seq<byte>>, p: Path) {
    (p in a <==> p in b) && (p in a ==> a[p] == b[p])
  }

  lemma StillPrivate(w0: World, mid: World, w: World, id: UploadId)
    requires OnlyThisUpload(w0, mid, id) && OnlyThisUpload(mid, w, id)
    ensures OnlyThisUpload(w0, w, id)
  {
    forall p ensures SameAt(w0.files, w.files, p) || OwnTemp(w0, id, p) || OwnTemp(w, id, p) {
      assert SameAt(w0.files, mid.files, p) || OwnTemp(w0, id, p) || OwnTemp(mid, id, p);
      assert SameAt(mid.files, w.files, p) || OwnTemp(mid, id, p) || OwnTemp(w, id, p);
    }
    forall p | OwnTemp(w, id, p) ensures OwnTemp(w0, id, p) || p !in w0.files {
      assert OwnTemp(mid, id, p) || p !in mid.files;
      assert SameAt(w0.files, mid.files, p) || OwnTemp(w0, id, p) || OwnTemp(mid, id, p);
    }
    forall p | OwnTemp(w0, id, p) && p in w.files ensures OwnTemp(w, id, p) {
      assert SameAt(mid.files, w.files, p) || OwnTemp(mid, id, p) || OwnTemp(w, id, p);
      assert OwnTemp(mid, id, p) ==> GoodEntry(mid, id);
    }
    forall i | i != id ensures SameUpload(w0, w, i) {
      assert SameUpload(w0, mid, i) && SameUpload(mid, w, i);
    }
  }

  /** An upload that leaves no entry where there was none leaves no trace. */
  lemma NoTrace(w0: World, w: World, id: UploadId)
    requires OnlyThisUpload(w0, w, id) && id !in w0.uploads && id !in w.uploads
    ensures w == w0
  {
    assert forall p :: SameAt(w0.files, w.files, p);
    assert w.files == w0.files;
    forall i ensures (i in w.uploads <==> i in w0.uploads) && (i in w.uploads ==> w.uploads[i] == w0.uploads[i]) {
      assert i != id ==> SameUpload(w0, w, i);
    }
    assert w.uploads == w0.uploads;
  }

  lemma OpenStaysPrivate(w0: World, c: Chunk, io: Io)
    requires Clean(w0, c, io) && Opened(w0, c, io).Some?
    ensures OnlyThisUpload(w0, Opened(w0, c, io).value, c.id)
  {
    OpenKeepsWf(w0, c, io);
    var v := Opened(w0, c, io).value;
    forall p ensures SameAt(w0.files, v.files, p) || OwnTemp(v, c.id, p) {}
  }

  lemma WriteStaysPrivate(w0: World, w: World, c: Chunk)
    requires OnlyThisUpload(w0, w, c.id) && Expected(w, c) && !c.final
    ensures OnlyThisUpload(w0, Written(w, c), c.id)
  {
    WriteKeepsWf(w, c);
    var v := Written(w, c);
    forall p ensures SameAt(w0.files, v.files, p) || OwnTemp(w0, c.id, p) || OwnTemp(v, c.id, p) {
      assert SameAt(w0.files, w.files, p) || OwnTemp(w0, c.id, p) || OwnTemp(w, c.id, p);
    }
    forall p | OwnTemp(v, c.id, p) ensures OwnTemp(w0, c.id, p) || p !in w0.files {
      assert OwnTemp(w, c.id, p);
    }
    forall i | i != c.id ensures SameUpload(w0, v, i) {
      assert SameUpload(w0, w, i);
    }
  }

  lemma DiscardStaysPrivate(w0: World, w: World, id: UploadId)
    requires OnlyThisUpload(w0, w, id)
    ensures OnlyThisUpload(w0, Discarded(w, id), id) && id !in Discarded(w, id).uploads
  {
    DiscardKeepsWf(w, id);
    var v := Discarded(w, id);
    forall p ensures SameAt(w0.files, v.files, p) || OwnTemp(w0, id, p) {
      assert SameAt(w0.files, w.files, p) || OwnTemp(w0, id, p) || OwnTemp(w, id, p);
      assert OwnTemp(w, id, p) ==> OwnTemp(w0, id, p) || p !in w0.files;
    }
    forall i | i != id ensures SameUpload(w0, v, i) {
      assert SameUpload(w0, w, i);
    }
  }

  /** Until its last block is taken, an upload shows nothing but its own temp file. */
  lemma NonFinalStaysPrivate(w0: World, c: Chunk, io: Io)
    requires Clean(w0, c, io) && (!c.final || OnChunk(w0, c, io).1.None?)
    ensures OnlyThisUpload(w0, OnChunk(w0, c, io).0, c.id)
  {
    var o := Opened(w0, c, io);
    if o.None? {
      DiscardStaysPrivate(w0, w0, c.id);
    } else {
      OpenStaysPrivate(w0, c, io);
      if !Expected(o.value, c) || io.torn.Some? {
        DiscardStaysPrivate(w0, o.value, c.id);
      } else {
        WriteStaysPrivate(w0, o.value, c);
      }
    }
  }

  // ---- Blocks and their trips ------------------------------------------------------------

  /** What becomes of a request on its way to the host and of its reply on the way back. */
  datatype Link = Answered | RequestLost | ReplyLost

  /** One block's trip: the host's luck with it, and the connection's. */
  datatype Hop = Hop(io: Io, link: Link)

  /** The length of `k` full blocks. */
  function Span(k: nat): nat { if k == 0 then 0 else Span(k - 1) + UPLOAD_CHUNK_BYTES }

  /** How many full blocks a request of that length makes. */
  function BlocksIn(length: nat): nat {
    if length < UPLOAD_CHUNK_BYTES then 0 else 1 + BlocksIn(length - UPLOAD_CHUNK_BYTES)
  }

  lemma {:induction false} BlocksInIs(k: nat, rest: nat)
    requires rest < UPLOAD_CHUNK_BYTES
    ensures BlocksIn(Span(k) + rest) == k
  {
    if k > 0 {
      BlocksInIs(k - 1, rest);
    }
  }

  lemma {:induction false} BlocksFit(k: nat, length: nat)
    requires Span(k) + UPLOAD_CHUNK_BYTES <= length
    ensures k < BlocksIn(length)
    decreases k
  {
    if k > 0 {
      BlocksFit(k - 1, length - UPLOAD_CHUNK_BYTES);
    }
  }

  /** The full blocks of a chunk, and the remainder, which goes out when it ends the file or
      when there is any. */
  function Blocks(c: Chunk): nat {
    BlocksIn(|c.data|) + (if c.final || |c.data| > Span(BlocksIn(|c.data|)) then 1 else 0)
  }

  /** The first `n` blocks are written and acknowledged. */
  ghost predicate Through(env: nat -> Hop, n: int) {
    forall k: nat :: k < n ==> env(k).io.torn.None? && env(k).link.Answered?
  }

  /** One call's ghost context: where it started, the one chunk that would carry all of it,
      and whether it keeps out of other uploads' way. */
  datatype Call = Call(w0: World, c: Chunk, env: nat -> Hop, sound: bool) {
    function Part(data: seq<byte>, final: bool): Chunk { c.(data := data, final := final) }

    ghost predicate Valid() { sound ==> Clean(w0, c, env(0).io) }

    /** The host would take the whole chunk. */
    ghost predicate CanStart() { Ready(w0, c, env(0).io) }

    /** The host takes block `k`, all before it acknowledged. */
    ghost predicate Takes(k: nat) { CanStart() && env(k).io.torn.None? }
  }

  /** Where the host stands once `count` full blocks, the bytes `done`, are acknowledged. */
  ghost predicate Reached(call: Call, w: World, done: seq<byte>, count: nat) {
    && |done| == Span(count)
    && (count == 0 ==> w == call.w0)
    && (count > 0 ==> call.CanStart() && Through(call.env, count) && TakenWhole(call, w, done, false))
  }

  /** `data` has been taken just as one chunk holding it would have been. */
  ghost predicate TakenWhole(call: Call, w: World, data: seq<byte>, final: bool) {
    w == OnChunk(call.w0, call.Part(data, final), call.env(0).io).0
  }

  function BlockOf(call: Call, done: seq<byte>, block: seq<byte>, final: bool): Chunk {
    call.Part(block, final).(offset := call.c.offset + |done|)
  }

  /** The host takes the next block exactly when it could start and the write succeeds, and
      then stands where one chunk with all the bytes so far would have put it. */
  lemma BlockLands(call: Call, w: World, done: seq<byte>, block: seq<byte>, final: bool, count: nat)
    requires call.Valid() && call.sound && Reached(call, w, done, count)
    ensures var r := OnChunk(w, BlockOf(call, done, block, final), call.env(count).io);
      && (r.1.Some? <==> call.Takes(count))
      && (r.1.Some? ==> TakenWhole(call, r.0, done + block, final) && r.1 == Some(call.c.offset + |done| + |block|))
  {
    var c, io := BlockOf(call, done, block, final), call.env(count).io;
    if count == 0 {
      assert done + block == block;
      StartsIff(call.w0, c, io);
    } else {
      ReadyIsTaken(call.w0, call.Part(done, false), call.env(0).io);
      TakesIff(w, c, io);
      if io.torn.None? {
        var whole := call.Part(done + block, final);
        assert whole.data[..|done|] == done && whole.data[|done|..] == block;
        SplitChunk(call.w0, whole, call.env(0).io, |done|, io);
      }
    }
  }

  lemma StartsIff(w: World, c: Chunk, io: Io)
    requires Clean(w, c, io)
    ensures OnChunk(w, c, io).1.Some? <==> Ready(w, c, io)
  {
  }

  lemma TakesIff(w: World, c: Chunk, io: Io)
    requires c.id in w.uploads && Expected(w, c)
    ensures OnChunk(w, c, io).1.Some? <==> io.torn.None?
    ensures io.torn.Some? ==> OnChunk(w, c, io).0 == Discarded(w, c.id)
  {
  }

  /** Short of the last block being taken, only this upload's own temp file shows. */
  lemma BlockStaysPrivate(call: Call, w: World, done: seq<byte>, block: seq<byte>, final: bool, count: nat)
    requires call.Valid() && call.sound && Reached(call, w, done, count)
    ensures OnlyThisUpload(call.w0, w, call.c.id)
    ensures !final || !call.Takes(count) ==>
              OnlyThisUpload(call.w0, OnChunk(w, BlockOf(call, done, block, final), call.env(count).io).0, call.c.id)
  {
    var c, io := BlockOf(call, done, block, final), call.env(count).io;
    BlockLands(call, w, done, block, final, count);
    if count == 0 {
      forall p ensures SameAt(w.files, w.files, p) {}
      if !final || !call.Takes(count) {
        NonFinalStaysPrivate(call.w0, c, io);
      }
    } else {
      NonFinalStaysPrivate(call.w0, call.Part(done, false), call.env(0).io);
      if !call.Takes(count) {
        ReadyIsTaken(call.w0, call.Part(done, false), call.env(0).io);
        TakesIff(w, c, io);
        DiscardStaysPrivate(call.w0, w, c.id);
      } else if !final {
        NonFinalStaysPrivate(call.w0, call.Part(done + block, false), call.env(0).io);
      }
    }
  }

  /** Split exactly `n` bytes off the front of what has been read but not yet sent. */
  method TakeFront(pending: seq<seq<byte>>, pendingBytes: nat, n: nat)
    returns (head: seq<byte>, rest: seq<seq<byte>>, restBytes: nat)
    requires pendingBytes == |Flatten(pending)| && n <= pendingBytes
    ensures |head| == n && head + Flatten(rest) == Flatten(pending) && restBytes == |Flatten(rest)|
  {
    var all := if |pending| == 1 && |pending[0]| == n then pending[0] else Flatten(pending);
    assert |pending| == 1 ==> Flatten(pending) == pending[0] + Flatten(pending[1..]) == pending[0];
    head := all[..n];
    var tail := all[n..];
    rest := if |tail| > 0 then [tail] else [];
    assert Flatten([tail]) == tail + Flatten([tail][1..]) == tail;
    restBytes := |tail|;
  }

  /** What one block's trip comes to. */
  ghost predicate BlockOutcome(call: Call, w: World, done: seq<byte>, block: seq<byte>, final: bool, count: nat,
                               ack: Option<nat>) {
    var taken, link := call.Takes(count), call.env(count).link;
    && (ack.Some? <==> taken && link.Answered?)
    && (ack.Some? ==> TakenWhole(call, w, done + block, final) && ack == Some(call.c.offset + |done| + |block|))
    && (ack.None? && final && taken && link.ReplyLost? ==> TakenWhole(call, w, done + block, true))
    && (ack.None? && !(final && taken && link.ReplyLost?) ==> OnlyThisUpload(call.w0, w, call.c.id))
  }

  /** A block short of the last is not acknowledged. */
  ghost predicate Stuck(call: Call, k: nat) {
    Span(k) + UPLOAD_CHUNK_BYTES <= |call.c.data| && !(call.Takes(k) && call.env(k).link.Answered?)
  }

  /** The request goes through: read to its end, every block taken and acknowledged. */
  ghost predicate GoesThrough(call: Call, intact: bool) {
    intact && (Blocks(call.c) > 0 ==> call.CanStart()) && Through(call.env, Blocks(call.c))
  }

  /** The block that ends the file is taken, but its acknowledgement is lost. */
  ghost predicate LandsUnheard(call: Call, intact: bool) {
    var n := BlocksIn(|call.c.data|);
    intact && call.c.final && call.Takes(n) && Through(call.env, n) && call.env(n).link.ReplyLost?
  }

  /** What the whole request comes to. */
  ghost predicate Outcome(call: Call, intact: bool, w: World, r: Option<nat>) {
    && (r.Some? <==> GoesThrough(call, intact))
    && (r.Some? && Blocks(call.c) > 0
        ==> TakenWhole(call, w, call.c.data, call.c.final) && r == Some(call.c.offset + |call.c.data|))
    && (r.Some? && Blocks(call.c) == 0 ==> w == call.w0 && r == Some(0))
    && (LandsUnheard(call, intact) ==> TakenWhole(call, w, call.c.data, true))
    && (r.None? && !LandsUnheard(call, intact) ==> OnlyThisUpload(call.w0, w, call.c.id))
  }

  /** The host is where one chunk with all of the request would have taken it. */
  ghost predicate TakenAll(call: Call, w: World) { w == OnChunk(call.w0, call.c, call.env(0).io).0 }

  lemma OutcomeLands(call: Call, intact: bool, w: World, r: Option<nat>)
    requires Outcome(call, intact, w, r) && Blocks(call.c) > 0
    requires GoesThrough(call, intact) || LandsUnheard(call, intact)
    ensures TakenAll(call, w)
    ensures if r.Some? then r == Some(call.c.offset + |call.c.data|) else call.c.final
  {
    assert call.Part(call.c.data, call.c.final) == call.c;
  }

  lemma StuckFails(call: Call, intact: bool, k: nat, w: World)
    requires Stuck(call, k) && OnlyThisUpload(call.w0, w, call.c.id)
    ensures Outcome(call, intact, w, None)
  {
    BlocksFit(k, |call.c.data|);
  }

  /** `send`: one block to the host, at the position the session and `sentHere` give; None
      when it throws, because the host refuses it or no reply comes. */
  method SendBlock(agent: Agent, path: Path, session: Session, block: seq<byte>, final: bool, sentHere: nat, hop: Hop,
                   ghost call: Call, ghost done: seq<byte>, ghost count: nat)
    returns (ack: Option<nat>)
    requires call.Valid() && call.c == Chunk(session.uploadId, path, session.offset, call.c.data, session.final)
    requires hop == call.env(count) && sentHere == |done|
    requires call.sound ==> Reached(call, agent.State(), done, count)
    modifies agent
    ensures call.sound ==> BlockOutcome(call, agent.State(), done, block, final, count, ack)
  {
    if call.sound {
      BlockLands(call, agent.State(), done, block, final, count);
      BlockStaysPrivate(call, agent.State(), done, block, final, count);
    }
    if hop.link.RequestLost? {
      return None;
    }
    var reply := agent.ReceiveChunk(Chunk(session.uploadId, path, session.offset + sentHere, block, final), hop.io);
    ack := if hop.link.ReplyLost? then None else reply;
  }

  lemma OneMoreReached(call: Call, before: World, w: World, done: seq<byte>, block: seq<byte>, count: nat,
                       ack: Option<nat>)
    requires Reached(call, before, done, count) && |block| == UPLOAD_CHUNK_BYTES
    requires BlockOutcome(call, w, done, block, false, count, ack) && ack.Some?
    ensures Reached(call, w, done + block, count + 1)
  {
  }

  /** Full blocks only have been sent so far, `count` of them, every one acknowledged. */
  ghost predicate Sending(call: Call, w: World, sent: seq<seq<byte>>, sentHere: nat, written: nat, count: nat) {
    && sentHere == |Flatten(sent)| == Span(count) && (forall b :: b in sent ==> |b| <= UPLOAD_CHUNK_BYTES)
    && (call.sound ==> Reached(call, w, Flatten(sent), count))
    && (if count == 0 then written == 0 else call.sound ==> written == call.c.offset + sentHere)
  }

  lemma SentOne(call: Call, before: World, w: World, sent: seq<seq<byte>>, sentHere: nat, written: nat, count: nat,
                head: seq<byte>, ack: nat)
    requires Sending(call, before, sent, sentHere, written, count) && |head| == UPLOAD_CHUNK_BYTES
    requires call.sound ==> BlockOutcome(call, w, Flatten(sent), head, false, count, Some(ack))
    ensures Sending(call, w, sent + [head], sentHere + |head|, ack, count + 1)
    ensures Flatten(sent + [head]) == Flatten(sent) + head
  {
    FlattenSnoc(sent, head);
    if call.sound {
      OneMoreReached(call, before, w, Flatten(sent), head, count, Some(ack));
    }
  }

  lemma HeadMoves(sent: seq<byte>, next: seq<byte>, head: seq<byte>, rest: seq<byte>, all: seq<byte>, data: seq<byte>)
    requires sent + next == all <= data && head + rest == next
    ensures (sent + head) + rest == all && sent + head <= data && |sent| + |head| <= |data|
  {
    assert (sent + head) + rest == sent + (head + rest);
  }

  /** The inner loop: send full blocks while there is one. */
  method FlushBlocks(agent: Agent, path: Path, session: Session, pending0: seq<seq<byte>>, pendingBytes0: nat,
                     sentHere0: nat, written0: nat, count0: nat, env: nat -> Hop, ghost call: Call,
                     ghost sent0: seq<seq<byte>>)
    returns (ok: bool, pending: seq<seq<byte>>, pendingBytes: nat, sentHere: nat, written: nat, count: nat,
             ghost sent: seq<seq<byte>>)
    requires call.Valid() && env == call.env
    requires call.c == Chunk(session.uploadId, path, session.offset, call.c.data, session.final)
    requires Sending(call, agent.State(), sent0, sentHere0, written0, count0)
    requires pendingBytes0 == |Flatten(pending0)| && Flatten(sent0) + Flatten(pending0) <= call.c.data
    modifies agent
    ensures (forall b :: b in sent ==> |b| <= UPLOAD_CHUNK_BYTES) && Flatten(sent) <= call.c.data
    ensures !ok && call.sound ==> Stuck(call, count) && OnlyThisUpload(call.w0, agent.State(), session.uploadId)
    ensures ok ==> Sending(call, agent.State(), sent, sentHere, written, count)
    ensures ok ==> pendingBytes == |Flatten(pending)| < UPLOAD_CHUNK_BYTES
    ensures ok ==> Flatten(sent) + Flatten(pending) == Flatten(sent0) + Flatten(pending0)
  {
    ok, pending, pendingBytes, sentHere, written := true, pending0, pendingBytes0, sentHere0, written0;
    count, sent := count0, sent0;
    while pendingBytes >= UPLOAD_CHUNK_BYTES
      invariant pendingBytes == |Flatten(pending)|
      invariant Flatten(sent) + Flatten(pending) == Flatten(sent0) + Flatten(pending0)
      invariant Sending(call, agent.State(), sent, sentHere, written, count)
      decreases pendingBytes
    {
      var head;
      ghost var next := Flatten(pending);
      head, pending, pendingBytes := TakeFront(pending, pendingBytes, UPLOAD_CHUNK_BYTES);
      HeadMoves(Flatten(sent), next, head, Flatten(pending), Flatten(sent0) + Flatten(pending0), call.c.data);
      ghost var before := agent.State();
      var ack := SendBlock(agent, path, session, head, false, sentHere, env(count), call, Flatten(sent), count);
      if ack.None? {
        ok := false;
        FlattenSnoc(sent, head);
        sent := sent + [head];
        return;
      }
      SentOne(call, before, agent.State(), sent, sentHere, written, count, head, ack.value);
      sent, sentHere, written, count := sent + [head], sentHere + |head|, ack.value, count + 1;
    }
  }

  /** The outer loop: everything but the remainder goes out in full blocks. */
  method ForwardFullBlocks(agent: Agent, path: Path, source: seq<seq<byte>>, session: Session, env: nat -> Hop,
                           ghost call: Call)
    returns (ok: bool, pending: seq<seq<byte>>, pendingBytes: nat, sentHere: nat, written: nat, count: nat,
             ghost sent: seq<seq<byte>>)
    requires call.Valid() && env == call.env
    requires call.c == Chunk(session.uploadId, path, session.offset, Flatten(source), session.final)
    requires agent.State() == call.w0
    modifies agent
    ensures (forall b :: b in sent ==> |b| <= UPLOAD_CHUNK_BYTES) && Flatten(sent) <= call.c.data
    ensures !ok && call.sound ==> Stuck(call, count) && OnlyThisUpload(call.w0, agent.State(), session.uploadId)
    ensures ok ==> Sending(call, agent.State(), sent, sentHere, written, count)
    ensures ok ==> pendingBytes == |Flatten(pending)| < UPLOAD_CHUNK_BYTES
    ensures ok ==> Flatten(sent) + Flatten(pending) == call.c.data
  {
    ok, pending, pendingBytes, sentHere, written, count, sent := true, [], 0, 0, 0, 0, [];
    ghost var read: seq<byte> := [];
    var i := 0;
    assert source[0..] == source;
    while i < |source|
      invariant 0 <= i <= |source| && pendingBytes == |Flatten(pending)| < UPLOAD_CHUNK_BYTES
      invariant Flatten(sent) + Flatten(pending) == read && read + Flatten(source[i..]) == call.c.data
      invariant Sending(call, agent.State(), sent, sentHere, written, count)
    {
      NextRead(Flatten(sent), pending, source, i, read, call.c.data);
      read := read + source[i];
      ok, pending, pendingBytes, sentHere, written, count, sent :=
        FlushBlocks(agent, path, session, pending + [source[i]], pendingBytes + |source[i]|, sentHere, written,
                    count, env, call, sent);
      if !ok {
        return;
      }
      i := i + 1;
    }
  }

  lemma NextRead(sent: seq<byte>, pending: seq<seq<byte>>, source: seq<seq<byte>>, i: nat, read: seq<byte>,
                 all: seq<byte>)
    requires i < |source| && sent + Flatten(pending) == read && read + Flatten(source[i..]) == all
    ensures Flatten(pending + [source[i]]) == Flatten(pending) + source[i]
    ensures sent + Flatten(pending + [source[i]]) == read + source[i]
    ensures (read + source[i]) + Flatten(source[i + 1..]) == all && read + source[i] <= all
  {
    FlattenSnoc(pending, source[i]);
    assert source[i..][1..] == source[i + 1..];
    assert sent + (Flatten(pending) + source[i]) == (sent + Flatten(pending)) + source[i];
  }

  /** With the full blocks acknowledged, the remainder's fate is the request's. */
  lemma LastBlockDecides(call: Call, w: World, done: seq<byte>, block: seq<byte>, count: nat, ack: Option<nat>)
    requires |done| == Span(count) && done + block == call.c.data
    requires |block| < UPLOAD_CHUNK_BYTES && (block != [] || call.c.final)
    requires Through(call.env, count)
    requires BlockOutcome(call, w, done, block, call.c.final, count, ack)
    ensures Outcome(call, true, w, ack)
  {
    LastBlock(call, |block|, count);
  }

  lemma LastBlock(call: Call, rest: nat, count: nat)
    requires |call.c.data| == Span(count) + rest && rest < UPLOAD_CHUNK_BYTES && (rest > 0 || call.c.final)
    requires Through(call.env, count)
    ensures Blocks(call.c) == count + 1
    ensures GoesThrough(call, true) <==> call.Takes(count) && call.env(count).link.Answered?
    ensures LandsUnheard(call, true) <==> call.c.final && call.Takes(count) && call.env(count).link.ReplyLost?
  {
    BlocksInIs(count, rest);
    assert Through(call.env, count + 1) <==> call.env(count).io.torn.None? && call.env(count).link.Answered?;
  }

  /** Without a remainder the acknowledged blocks are the request. */
  lemma NothingLeft(call: Call, w: World, count: nat, written: nat)
    requires Reached(call, w, call.c.data, count) && !call.c.final
    requires written == if count == 0 then 0 else call.c.offset + |call.c.data|
    ensures Outcome(call, true, w, Some(written))
  {
    BlocksInIs(count, 0);
    assert Blocks(call.c) == count;
  }

  /** The remainder of this request. `session.final`, not the end of the stream, decides
      whether it ends the file, and a final block is sent even when empty. */
  method SendRemainder(agent: Agent, path: Path, session: Session, pending: seq<seq<byte>>, pendingBytes: nat,
                       sentHere: nat, bytesWritten: nat, count: nat, env: nat -> Hop, ghost call: Call,
                       ghost sent0: seq<seq<byte>>)
    returns (r: Option<nat>, ghost sent: seq<seq<byte>>)
    requires call.Valid() && env == call.env
    requires call.c == Chunk(session.uploadId, path, session.offset, call.c.data, session.final)
    requires Sending(call, agent.State(), sent0, sentHere, bytesWritten, count)
    requires pendingBytes == |Flatten(pending)| < UPLOAD_CHUNK_BYTES && Flatten(sent0) + Flatten(pending) == call.c.data
    modifies agent
    ensures (forall b :: b in sent ==> |b| <= UPLOAD_CHUNK_BYTES) && Flatten(sent) == call.c.data
    ensures call.sound ==> Outcome(call, true, agent.State(), r)
  {
    ghost var done := Flatten(sent0);
    if pendingBytes == 0 && !session.final {
      assert Flatten(pending) == [] && done == call.c.data;
      if call.sound {
        NothingLeft(call, agent.State(), count, bytesWritten);
      }
      return Some(bytesWritten), sent0;
    }
    var head, rest, restBytes := TakeFront(pending, pendingBytes, pendingBytes);
    assert head == Flatten(pending) && done + head == call.c.data;
    FlattenSnoc(sent0, head);
    sent := sent0 + [head];
    r := SendBlock(agent, path, session, head, session.final, sentHere, env(count), call, done, count);
    if call.sound {
      LastBlockDecides(call, agent.State(), done, head, count, r);
    }
  }

  /** The body of the `try`: None when it throws. */
  method TryUpload(agent: Agent, path: Path, source: seq<seq<byte>>, intact: bool, session: Session, env: nat -> Hop,
                   ghost call: Call)
    returns (r: Option<nat>, ghost sent: seq<seq<byte>>)
    requires call.Valid() && env == call.env
    requires call.c == Chunk(session.uploadId, path, session.offset, Flatten(source), session.final)
    requires agent.State() == call.w0
    modifies agent
    ensures (forall b :: b in sent ==> |b| <= UPLOAD_CHUNK_BYTES) && Flatten(sent) <= call.c.data
    ensures r.Some? ==> intact && Flatten(sent) == call.c.data
    ensures call.sound ==> Outcome(call, intact, agent.State(), r)
  {
    var ok, pending, pendingBytes, sentHere, bytesWritten, count;
    ok, pending, pendingBytes, sentHere, bytesWritten, count, sent :=
      ForwardFullBlocks(agent, path, source, session, env, call);
    if !ok {
      if call.sound {
        StuckFails(call, intact, count, agent.State());
      }
      return None, sent;
    }
    if !intact {
      if call.sound {
        BlockStaysPrivate(call, agent.State(), Flatten(sent), [], false, count);
      }
      return None, sent;
    }
    r, sent :=
      SendRemainder(agent, path, session, pending, pendingBytes, sentHere, bytesWritten, count, env, call, sent);
  }

  /** An abort does not change what came of the request, but the upload is gone. */
  lemma AbortKeepsOutcome(call: Call, intact: bool, w: World)
    requires call.Valid() && call.sound && Outcome(call, intact, w, None)
    ensures Outcome(call, intact, Discarded(w, call.c.id), None) && call.c.id !in Discarded(w, call.c.id).uploads
  {
    if !LandsUnheard(call, intact) {
      DiscardStaysPrivate(call.w0, w, call.c.id);
    }
  }

  /** Forward one request's bytes to the host in blocks. `source` is what the stream's
      reader returns, chunk by chunk, and `intact` whether it then closes or errors; `env` is
      each block's trip, and `abortArrives` whether the host hears of a failure.

      Re-chunking is invisible: the call succeeds exactly when the stream is intact, the host
      can start and every block is written and acknowledged, and the host is then exactly where
      one chunk with all the bytes would have taken it. When it fails, nothing but this
      upload's own temp file differs, unless the block that ends the file was taken and only
      its acknowledgement lost: then, and only then, the file is published all the same. */
  method UploadFile(agent: Agent, path: Path, source: seq<seq<byte>>, intact: bool, session: Session, env: nat -> Hop,
                    abortArrives: bool)
    returns (r: Option<nat>, ghost sent: seq<seq<byte>>)
    modifies agent
    ensures (forall b :: b in sent ==> |b| <= 4 * 1024 * 1024) && Flatten(sent) <= Flatten(source)
    ensures r.Some? ==> intact && Flatten(sent) == Flatten(source)
    ensures var c := Chunk(session.uploadId, path, session.offset, Flatten(source), session.final);
      Clean(old(agent.State()), c, env(0).io) ==>
        && Outcome(Call(old(agent.State()), c, env, true), intact, agent.State(), r)
        && (r.None? && abortArrives ==> session.uploadId !in agent.uploads)
  {
    ghost var c := Chunk(session.uploadId, path, session.offset, Flatten(source), session.final);
    ghost var call := Call(agent.State(), c, env, Clean(agent.State(), c, env(0).io));
    r, sent := TryUpload(agent, path, source, intact, session, env, call);
    if r.None? {
      if call.sound {
        AbortKeepsOutcome(call, intact, agent.State());
      }
      if abortArrives {
        agent.DiscardUpload(session.uploadId);
      }
    }
  }

  /** Published in spite of the failure, the target holds what the upload held before and all
      of this request; nothing else differs but the temp file, which is gone. */
  lemma UnheardIsPublished(call: Call, w: World)
    requires call.Valid() && call.sound && LandsUnheard(call, true) && TakenWhole(call, w, call.c.data, true)
    ensures var had :=
        if call.c.id in call.w0.uploads then ContentAt(call.w0.files, call.w0.uploads[call.c.id].temp) else [];
      && call.c.path in w.files && w.files[call.c.path] == had + call.c.data
      && call.c.id !in w.uploads
      && (forall p :: p != call.c.path
            ==> SameAt(call.w0.files, w.files, p) || (OwnTemp(call.w0, call.c.id, p) && p !in w.files))
  {
  }

  /** The input on which a call that throws has published the file: one byte, its only block
      taken and the reply to it lost. */
  method LostAcknowledgement() returns (agent: Agent, r: Option<nat>)
    ensures fresh(agent) && r.None? && agent.State() == World(map[], map["/f" := [1]])
  {
    agent := new Agent(map[]);
    var env := (k: nat) => Hop(Io("0", true, None), ReplyLost);
    ghost var call := Call(agent.State(), Chunk("u", "/f", 0, [1], true), env, true);
    ghost var sent;
    r, sent := UploadFile(agent, "/f", [[1]], true, Session("u", 0, true), env, true);
    assert Flatten([[1]]) == [1] + Flatten([]) == [1];
    assert Outcome(call, true, agent.State(), r);
    LostIsUnheard(call);
    OutcomeLands(call, true, agent.State(), r);
    WholeFilePublishes(call.w0, call.c, env(0).io);
  }

  lemma LostIsUnheard(call: Call)
    requires call.w0 == World(map[], map[]) && call.c == Chunk("u", "/f", 0, [1], true)
    requires call.env(0) == Hop(Io("0", true, None), ReplyLost)
    ensures LandsUnheard(call, true) && !GoesThrough(call, true)
  {
    assert BlocksIn(1) == 0;
  }
}
