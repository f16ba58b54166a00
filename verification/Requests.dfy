/** One host connection: its standing among those of its machine, and its request table
    (apps/server/src/host-agent.ts:99-260, 376-413). */
module Requests {
  import opened Bytes

  type RequestId = string
  type MachineId = string

  datatype Mode = Live | Installed | Embedded

  datatype Stream = Stdout | Stderr

  /** The chunks a streaming exec has delivered so far. */
  datatype Sink = Sink(stdout: seq<string>, stderr: seq<string>)

  datatype Waiter = Plain | Streaming

  datatype Verdict =
    | Resolved(body: string)
    | Finished(stdout: string, stderr: string, body: string)
    | Rejected(why: Reason)

  datatype Reason = Remote(message: string) | TimedOut | Disconnected

  /** The two maps and the armed timers; `log` is every settlement there has been. */
  datatype Table = Table(pending: map<RequestId, Waiter>, sinks: map<RequestId, Sink>, timers: set<RequestId>,
                         log: seq<(RequestId, Verdict)>)

  datatype Event =
    | Request(id: RequestId)
    | StreamExec(id: RequestId)
    | Reply(id: RequestId, body: string)
    | ErrorReply(id: RequestId, message: string)
    | Chunk(id: RequestId, stream: Stream, data: string)
    | Timeout(id: RequestId)
    | Disconnect(order: seq<RequestId>)

  // ---- One event, on values ------------------------------------------------------------

  /** What the waiter's `resolve` is given. */
  function Success(t: Table, id: RequestId, body: string): Verdict
    requires id in t.pending
  {
    if t.pending[id].Streaming? then
      var sink := if id in t.sinks then t.sinks[id] else Sink([], []);
      Finished(Flatten(sink.stdout), Flatten(sink.stderr), body)
    else Resolved(body)
  }

  /** The entry leaves the tables, its timer is cleared, and its promise settles. */
  function Settled(t: Table, id: RequestId, v: Verdict): Table
    requires id in t.pending
  {
    Table(t.pending - {id}, if t.pending[id].Streaming? then t.sinks - {id} else t.sinks,
          t.timers - {id}, t.log + [(id, v)])
  }

  function Appended(s: Sink, stream: Stream, data: string): Sink {
    match stream
    case Stdout => s.(stdout := s.stdout + [data])
    case Stderr => s.(stderr := s.stderr + [data])
  }

  function Rejections(order: seq<RequestId>): seq<(RequestId, Verdict)> {
    seq(|order|, i requires 0 <= i < |order| => (order[i], Rejected(Disconnected)))
  }

  function Next(t: Table, e: Event): Table {
    match e
    case Request(id) => t.(pending := t.pending[id := Plain], timers := t.timers + {id})
    case StreamExec(id) =>
      t.(pending := t.pending[id := Streaming], sinks := t.sinks[id := Sink([], [])], timers := t.timers + {id})
    case Reply(id, body) => if id in t.pending then Settled(t, id, Success(t, id, body)) else t
    case ErrorReply(id, message) => if id in t.pending then Settled(t, id, Rejected(Remote(message))) else t
    case Chunk(id, stream, data) =>
      if id in t.sinks
        then t.(sinks := t.sinks[id := Appended(t.sinks[id], stream, data)], timers := t.timers + {id})
        else t
    case Timeout(id) => if id in t.pending then Settled(t, id, Rejected(TimedOut)) else t
    case Disconnect(order) => Table(map[], map[], t.timers - t.pending.Keys, t.log + Rejections(order))
  }

  // ---- The connection --------------------------------------------------------------------

  class HostAgent {
    const id: MachineId
    const mode: Mode
    var active: bool
    var pending: map<RequestId, Waiter>
    var execStreams: map<RequestId, Sink>
    var timers: set<RequestId>
    ghost var log: seq<(RequestId, Verdict)>

    ghost function State(): Table
      reads `pending, `execStreams, `timers, `log
    {
      Table(pending, execStreams, timers, log)
    }

    constructor (id: MachineId, mode: Mode)
      ensures this.id == id && this.mode == mode && active
      ensures State() == Table(map[], map[], {}, [])
    {
      this.id, this.mode, active := id, mode, true;
      pending, execStreams, timers, log := map[], map[], {}, [];
    }

    /** A standby; what is in flight is not affected. */
    method Deactivate()
      modifies `active
      ensures !active
    {
      active := false;
    }

    method Activate()
      modifies `active
      ensures active
    {
      active := true;
    }

    method Request(id: RequestId)
      modifies `pending, `execStreams, `timers, `log
      ensures State() == Next(old(State()), Event.Request(id))
    {
      timers := timers + {id};
      pending := pending[id := Plain];
    }

    method StreamExec(id: RequestId)
      modifies `pending, `execStreams, `timers, `log
      ensures State() == Next(old(State()), Event.StreamExec(id))
    {
      execStreams := execStreams[id := Sink([], [])];
      pending := pending[id := Streaming];
      timers := timers + {id};
    }

    /** The promise's own resolve or reject, with the cleanup a streaming exec adds to it. */
    method Settle(id: RequestId, waiter: Waiter, ghost v: Verdict)
      modifies `execStreams, `timers, `log
      ensures timers == old(timers) - {id} && log == old(log) + [(id, v)]
      ensures execStreams == if waiter.Streaming? then old(execStreams) - {id} else old(execStreams)
    {
      timers := timers - {id};
      if waiter.Streaming? {
        execStreams := execStreams - {id};
      }
      log := log + [(id, v)];
    }

    method ReceiveChunk(id: RequestId, stream: Stream, data: string)
      modifies `pending, `execStreams, `timers, `log
      ensures State() == Next(old(State()), Chunk(id, stream, data))
    {
      if id in execStreams {
        timers := timers + {id};
        execStreams := execStreams[id := Appended(execStreams[id], stream, data)];
      }
    }

    /** A reply, or an error in its place; late and repeated ones find nothing. */
    method ReceiveReply(id: RequestId, error: Option<string>, body: string)
      modifies `pending, `execStreams, `timers, `log
      ensures State() == Next(old(State()), if error.Some? then ErrorReply(id, error.value) else Reply(id, body))
    {
      if id in pending {
        var waiter := pending[id];
        ghost var v := if error.Some? then Rejected(Remote(error.value)) else Success(State(), id, body);
        pending := pending - {id};
        Settle(id, waiter, v);
      }
    }

    method FireTimer(id: RequestId)
      requires id in timers && id in pending
      modifies `pending, `execStreams, `timers, `log
      ensures State() == Next(old(State()), Timeout(id))
    {
      var waiter := pending[id];
      pending := pending - {id};
      Settle(id, waiter, Rejected(TimedOut));
    }

    /** Reject everything in flight; `order` is the order it was rejected in. */
    method Disconnect() returns (ghost order: seq<RequestId>)
      modifies `pending, `execStreams, `timers, `log
      ensures State() == Next(old(State()), Event.Disconnect(order))
      ensures Enumerates(order, old(pending).Keys)
    {
      var todo := pending.Keys;
      ghost var done: set<RequestId> := {};
      order := [];
      while todo != {}
        invariant todo !! done && pending.Keys == done + todo && pending == old(pending)
        invariant Enumerates(order, done) && timers == old(timers) - done && log == old(log) + Rejections(order)
        decreases |todo|
      {
        var id :| id in todo;
        Settle(id, pending[id], Rejected(Disconnected));
        EnumerateMore(order, done, id);
        order, todo, done := order + [id], todo - {id}, done + {id};
      }
      assert done == pending.Keys;
      pending, execStreams := map[], map[];
    }
  }

  /** Each of these once, and nothing else. */
  ghost predicate Enumerates(order: seq<RequestId>, ids: set<RequestId>) {
    if order == [] then ids == {}
    else
      var n := |order| - 1;
      order[n] in ids && Enumerates(order[..n], ids - {order[n]})
  }

  lemma EnumerateMore(order: seq<RequestId>, ids: set<RequestId>, id: RequestId)
    requires Enumerates(order, ids) && id !in ids
    ensures Enumerates(order + [id], ids + {id})
    ensures Rejections(order + [id]) == Rejections(order) + [(id, Rejected(Disconnected))]
  {
    assert (order + [id])[..|order|] == order;
    assert ids + {id} - {id} == ids;
  }

  lemma {:induction false} EnumeratesIs(order: seq<RequestId>, ids: set<RequestId>)
    requires Enumerates(order, ids)
    ensures forall i, j :: 0 <= i < j < |order| ==> order[i] != order[j]
    ensures forall id :: id in ids <==> id in order
  {
    if order != [] {
      var n := |order| - 1;
      EnumeratesIs(order[..n], ids - {order[n]});
      assert order == order[..n] + [order[n]];
    }
  }

  // ---- Over every run --------------------------------------------------------------------

  /** Request ids are fresh, and a timer fires only while armed. */
  ghost predicate Enabled(t: Table, issued: set<RequestId>, e: Event) {
    match e
    case Request(id) => id !in issued
    case StreamExec(id) => id !in issued
    case Timeout(id) => id in t.timers
    case Disconnect(order) => Enumerates(order, t.pending.Keys)
    case _ => true
  }

  function Issued(issued: set<RequestId>, e: Event): set<RequestId> {
    if e.Request? || e.StreamExec? then issued + {e.id} else issued
  }

  ghost predicate Logged(t: Table, id: RequestId) { exists i :: 0 <= i < |t.log| && t.log[i].0 == id }

  /** Every issued request is waiting or settled, never both and never settled twice; armed
      timers are the waiting requests', and sinks belong to waiting streaming ones. */
  ghost predicate Inv(t: Table, issued: set<RequestId>) {
    && (forall id :: id in issued <==> id in t.pending || Logged(t, id))
    && (forall id :: id in t.pending ==> !Logged(t, id))
    && (forall i, j :: 0 <= i < j < |t.log| ==> t.log[i].0 != t.log[j].0)
    && t.timers == t.pending.Keys
    && (forall id :: id in t.sinks <==> id in t.pending && t.pending[id].Streaming?)
  }

  lemma SettleKeeps(t: Table, issued: set<RequestId>, id: RequestId, v: Verdict)
    requires Inv(t, issued) && id in t.pending
    ensures Inv(Settled(t, id, v), issued)
  {
    var t' := Settled(t, id, v);
    assert t'.log[|t.log|].0 == id;
    forall x ensures Logged(t', x) <==> Logged(t, x) || x == id {
      if Logged(t, x) {
        var i :| 0 <= i < |t.log| && t.log[i].0 == x;
        assert t'.log[i].0 == x;
      }
    }
    forall i | 0 <= i < |t.log| ensures t.log[i].0 != id {
      assert !Logged(t, id);
    }
  }

  lemma LoggedByDisconnect(t: Table, order: seq<RequestId>, x: RequestId)
    requires Enumerates(order, t.pending.Keys)
    ensures Logged(Next(t, Disconnect(order)), x) <==> Logged(t, x) || x in t.pending
  {
    var t' := Next(t, Disconnect(order));
    EnumeratesIs(order, t.pending.Keys);
    if Logged(t, x) {
      var i :| 0 <= i < |t.log| && t.log[i].0 == x;
      assert t'.log[i].0 == x;
    } else if x in t.pending {
      var i :| 0 <= i < |order| && order[i] == x;
      assert t'.log[|t.log| + i].0 == x;
    }
    if i :| 0 <= i < |t'.log| && t'.log[i].0 == x {
      assert if i < |t.log| then t.log[i].0 == x else order[i - |t.log|] == x;
    }
  }

  lemma DisconnectKeeps(t: Table, issued: set<RequestId>, order: seq<RequestId>)
    requires Inv(t, issued) && Enumerates(order, t.pending.Keys)
    ensures Inv(Next(t, Disconnect(order)), issued)
  {
    var t' := Next(t, Disconnect(order));
    EnumeratesIs(order, t.pending.Keys);
    forall x ensures Logged(t', x) <==> Logged(t, x) || x in t.pending {
      LoggedByDisconnect(t, order, x);
    }
    forall i, j | 0 <= i < j < |t'.log| ensures t'.log[i].0 != t'.log[j].0 {
      if j >= |t.log| {
        assert order[j - |t.log|] in order;
        assert i < |t.log| ==> !Logged(t, t'.log[j].0) && t.log[i].0 == t'.log[i].0;
      }
    }
  }

  lemma StepKeeps(t: Table, issued: set<RequestId>, e: Event)
    requires Inv(t, issued) && Enabled(t, issued, e)
    ensures Inv(Next(t, e), Issued(issued, e))
  {
    match e
    case Reply(id, body) => if id in t.pending { SettleKeeps(t, issued, id, Success(t, id, body)); }
    case ErrorReply(id, message) => if id in t.pending { SettleKeeps(t, issued, id, Rejected(Remote(message))); }
    case Timeout(id) => SettleKeeps(t, issued, id, Rejected(TimedOut));
    case Disconnect(order) => DisconnectKeeps(t, issued, order);
    case Chunk(_, _, _) =>
    case Request(id) => SameLog(t, Next(t, e));
    case StreamExec(id) => SameLog(t, Next(t, e));
  }

  lemma SameLog(t: Table, t': Table)
    requires t.log == t'.log
    ensures forall id :: Logged(t, id) <==> Logged(t', id)
  {
  }

  /** The state and the ids issued after a run of enabled events. */
  ghost predicate Trace(t: Table, issued: set<RequestId>, events: seq<Event>, t': Table, issued': set<RequestId>)
    decreases |events|
  {
    if events == [] then t == t' && issued == issued'
    else
      var n := |events| - 1;
      exists u, used :: Trace(t, issued, events[..n], u, used) && Enabled(u, used, events[n])
        && t' == Next(u, events[n]) && issued' == Issued(used, events[n])
  }

  const EMPTY := Table(map[], map[], {}, [])

  /** Sends, replies, duplicate and late replies, timeouts, disconnects: each request settles
      at most once, and the chunk sinks belong to requests still waiting. */
  lemma {:induction false} TraceKeeps(events: seq<Event>, t: Table, issued: set<RequestId>)
    requires Trace(EMPTY, {}, events, t, issued)
    ensures Inv(t, issued)
    decreases |events|
  {
    if events != [] {
      var n := |events| - 1;
      var u, used :| Trace(EMPTY, {}, events[..n], u, used) && Enabled(u, used, events[n])
        && t == Next(u, events[n]) && issued == Issued(used, events[n]);
      TraceKeeps(events[..n], u, used);
      StepKeeps(u, used, events[n]);
    }
  }

  /** After a disconnect both tables are empty and every request ever issued has settled,
      exactly once. */
  lemma DisconnectSettlesAll(events: seq<Event>, t: Table, issued: set<RequestId>, order: seq<RequestId>)
    requires Trace(EMPTY, {}, events, t, issued) && Enabled(t, issued, Disconnect(order))
    ensures var t' := Next(t, Disconnect(order));
      && t'.pending == map[] && t'.sinks == map[] && t'.timers == {}
      && (forall id :: id in issued <==> Logged(t', id))
      && (forall i, j :: 0 <= i < j < |t'.log| ==> t'.log[i].0 != t'.log[j].0)
  {
    TraceKeeps(events, t, issued);
    StepKeeps(t, issued, Disconnect(order));
  }

  /** All that arrived on one stream of `id` since its exec was sent. */
  ghost function Heard(events: seq<Event>, id: RequestId, stream: Stream): string
    decreases |events|
  {
    if events == [] then ""
    else
      var n := |events| - 1;
      var e := events[n];
      if e == StreamExec(id) then ""
      else if e.Chunk? && e.id == id && e.stream == stream then Heard(events[..n], id, stream) + e.data
      else Heard(events[..n], id, stream)
  }

  lemma {:induction false} SinksHear(events: seq<Event>, t: Table, issued: set<RequestId>, id: RequestId)
    requires Trace(EMPTY, {}, events, t, issued) && id in t.sinks
    ensures HoldsHeard(t.sinks[id], events, id)
    decreases |events|
  {
    if events != [] {
      var n := |events| - 1;
      var e := events[n];
      var u, used :| Trace(EMPTY, {}, events[..n], u, used) && Enabled(u, used, e)
        && t == Next(u, e) && issued == Issued(used, e);
      if e != StreamExec(id) {
        assert id in u.sinks;
        SinksHear(events[..n], u, used, id);
        HearStep(u, events, id, t);
      }
    }
  }

  ghost predicate HoldsHeard(s: Sink, events: seq<Event>, id: RequestId) {
    Flatten(s.stdout) == Heard(events, id, Stdout) && Flatten(s.stderr) == Heard(events, id, Stderr)
  }

  lemma HearStep(u: Table, events: seq<Event>, id: RequestId, t: Table)
    requires events != [] && id in u.sinks && id in t.sinks && events[|events| - 1] != StreamExec(id)
    requires HoldsHeard(u.sinks[id], events[..|events| - 1], id) && t == Next(u, events[|events| - 1])
    ensures HoldsHeard(t.sinks[id], events, id)
  {
    var e := events[|events| - 1];
    if e.Chunk? && e.id == id {
      FlattenSnoc(u.sinks[id].stdout, e.data);
      FlattenSnoc(u.sinks[id].stderr, e.data);
    }
  }

  /** A streaming exec that completes returns each stream's chunks, concatenated in order. */
  lemma CompletedStreamReturnsChunks(events: seq<Event>, t: Table, issued: set<RequestId>, id: RequestId, body: string)
    requires Trace(EMPTY, {}, events, t, issued) && id in t.pending && t.pending[id].Streaming?
    ensures Next(t, Reply(id, body)).log
         == t.log + [(id, Finished(Heard(events, id, Stdout), Heard(events, id, Stderr), body))]
  {
    TraceKeeps(events, t, issued);
    SinksHear(events, t, issued, id);
  }

  // ---- How every request settles ---------------------------------------------------------

  predicate Issues(e: Event, id: RequestId) { e == Request(id) || e == StreamExec(id) }

  /** What ends a request: its reply, its error, its timeout, or the connection's end. */
  predicate Ends(e: Event, id: RequestId) {
    e.Disconnect? || ((e.Reply? || e.ErrorReply? || e.Timeout?) && e.id == id)
  }

  /** Issued by the `i`-th event, and not ended since. */
  ghost predicate WaitsSince(events: seq<Event>, i: nat, id: RequestId) {
    i < |events| && Issues(events[i], id) && forall k :: i < k < |events| ==> !Ends(events[k], id)
  }

  /** Issued by the `i`-th event, and ended by the `j`-th, the first that could. */
  ghost predicate EndedBy(events: seq<Event>, i: nat, j: nat, id: RequestId) {
    i < j < |events| && WaitsSince(events[..j], i, id) && Ends(events[j], id)
  }

  /** What the one who asked gets: the reply, with a stream's output in front if it was a
      streaming exec; the other side's error; or the reason there will be no answer. */
  ghost function VerdictOf(events: seq<Event>, i: nat, j: nat, id: RequestId): Verdict
    requires EndedBy(events, i, j, id)
  {
    match events[j]
    case Reply(_, body) =>
      if events[i].Request? then Resolved(body)
      else Finished(Heard(events[..j], id, Stdout), Heard(events[..j], id, Stderr), body)
    case ErrorReply(_, message) => Rejected(Remote(message))
    case Timeout(_) => Rejected(TimedOut)
    case _ => Rejected(Disconnected)
  }

  /** The last event of a run, and the state before it. */
  lemma LastStep(events: seq<Event>, t: Table, issued: set<RequestId>) returns (u: Table, used: set<RequestId>)
    requires events != [] && Trace(EMPTY, {}, events, t, issued)
    ensures var n := |events| - 1;
      && Trace(EMPTY, {}, events[..n], u, used) && Enabled(u, used, events[n])
      && t == Next(u, events[n]) && issued == Issued(used, events[n]) && Inv(u, used)
  {
    var n := |events| - 1;
    u, used :| Trace(EMPTY, {}, events[..n], u, used) && Enabled(u, used, events[n])
      && t == Next(u, events[n]) && issued == Issued(used, events[n]);
    TraceKeeps(events[..n], u, used);
  }

  lemma WaitsSnoc(events: seq<Event>, i: nat, id: RequestId)
    requires events != []
    ensures var n := |events| - 1;
      WaitsSince(events, i, id) <==>
        if i == n then Issues(events[n], id) else WaitsSince(events[..n], i, id) && !Ends(events[n], id)
  {
    var n := |events| - 1;
    if WaitsSince(events, i, id) && i < n {
      assert forall k :: i < k < n ==> events[..n][k] == events[k];
    }
    if i < n && WaitsSince(events[..n], i, id) {
      assert forall k :: i < k < n ==> events[..n][k] == events[k];
    }
  }

  /** The requests waiting are those issued and not ended since, each as it was issued. */
  lemma {:induction false} PendingIs(events: seq<Event>, t: Table, issued: set<RequestId>, id: RequestId)
    requires Trace(EMPTY, {}, events, t, issued)
    ensures id in t.pending <==> exists i: nat :: WaitsSince(events, i, id)
    ensures forall i: nat :: WaitsSince(events, i, id) ==> (t.pending[id].Plain? <==> events[i].Request?)
    decreases |events|
  {
    if events != [] {
      var n := |events| - 1;
      var u, used := LastStep(events, t, issued);
      PendingIs(events[..n], u, used, id);
      forall i: nat ensures WaitsSince(events, i, id) <==>
        if i == n then Issues(events[n], id) else WaitsSince(events[..n], i, id) && !Ends(events[n], id)
      {
        WaitsSnoc(events, i, id);
      }
      if id in t.pending {
        if id in u.pending {
          var i: nat :| WaitsSince(events[..n], i, id);
          assert WaitsSince(events, i, id);
        } else {
          assert WaitsSince(events, n, id);
        }
      }
    }
  }

  lemma EndedSnoc(events: seq<Event>, i: nat, j: nat, id: RequestId)
    requires events != []
    ensures var n := |events| - 1;
      EndedBy(events, i, j, id) <==>
        if j == n then WaitsSince(events[..n], i, id) && Ends(events[n], id) else EndedBy(events[..n], i, j, id)
    ensures j < |events| - 1 && EndedBy(events, i, j, id) ==>
              EndedBy(events[..|events| - 1], i, j, id)
              && VerdictOf(events, i, j, id) == VerdictOf(events[..|events| - 1], i, j, id)
  {
    var n := |events| - 1;
    if j < n {
      assert events[..n][..j] == events[..j] && events[..n][j] == events[j];
    }
  }

  ghost predicate SettledBy(events: seq<Event>, id: RequestId, v: Verdict) {
    exists i: nat, j: nat :: EndedBy(events, i, j, id) && VerdictOf(events, i, j, id) == v
  }

  /** One event more settles a request exactly when it waits and the event ends it. */
  lemma SettledSnoc(events: seq<Event>, id: RequestId, v: Verdict)
    requires events != []
    ensures var n := |events| - 1;
      SettledBy(events, id, v) <==>
        || SettledBy(events[..n], id, v)
        || exists i: nat :: EndedBy(events, i, n, id) && VerdictOf(events, i, n, id) == v
  {
    var n := |events| - 1;
    if SettledBy(events, id, v) {
      var i: nat, j: nat :| EndedBy(events, i, j, id) && VerdictOf(events, i, j, id) == v;
      EndedSnoc(events, i, j, id);
    }
    if SettledBy(events[..n], id, v) {
      var i: nat, j: nat :| EndedBy(events[..n], i, j, id) && VerdictOf(events[..n], i, j, id) == v;
      EndedSnoc(events, i, j, id);
      assert EndedBy(events, i, j, id) && VerdictOf(events, i, j, id) == v;
    }
  }

  /** What the last event adds to the log about `id`. */
  lemma LastVerdict(events: seq<Event>, u: Table, used: set<RequestId>, id: RequestId, v: Verdict)
    requires events != [] && Trace(EMPTY, {}, events[..|events| - 1], u, used)
    requires Enabled(u, used, events[|events| - 1])
    ensures var n := |events| - 1;
      (id, v) in Next(u, events[n]).log <==>
        (id, v) in u.log || exists i: nat :: EndedBy(events, i, n, id) && VerdictOf(events, i, n, id) == v
  {
    var n, e := |events| - 1, events[|events| - 1];
    TraceKeeps(events[..n], u, used);
    PendingIs(events[..n], u, used, id);
    forall i: nat ensures EndedBy(events, i, n, id) <==> WaitsSince(events[..n], i, id) && Ends(e, id) {
      EndedSnoc(events, i, n, id);
    }
    if id in u.pending && Ends(e, id) {
      var i: nat :| WaitsSince(events[..n], i, id);
      NewVerdict(events, u, used, id, i);
      assert forall k: nat :: EndedBy(events, k, n, id) ==> WaitsSince(events[..n], k, id);
      forall k: nat | EndedBy(events, k, n, id)
        ensures VerdictOf(events, k, n, id) == VerdictOf(events, i, n, id)
      {
        assert events[k] == events[..n][k] && events[i] == events[..n][i];
      }
    } else {
      NothingNew(u, e, id, v);
    }
  }

  lemma NewVerdict(events: seq<Event>, u: Table, used: set<RequestId>, id: RequestId, i: nat)
    requires events != [] && Trace(EMPTY, {}, events[..|events| - 1], u, used)
    requires Enabled(u, used, events[|events| - 1]) && id in u.pending && EndedBy(events, i, |events| - 1, id)
    ensures forall v :: (id, v) in Next(u, events[|events| - 1]).log
                    <==> (id, v) in u.log || v == VerdictOf(events, i, |events| - 1, id)
  {
    var n, e := |events| - 1, events[|events| - 1];
    TraceKeeps(events[..n], u, used);
    PendingIs(events[..n], u, used, id);
    assert events[..n][i] == events[i];
    if e.Reply? && u.pending[id].Streaming? {
      SinksHear(events[..n], u, used, id);
    }
    if e.Disconnect? {
      EnumeratesIs(e.order, u.pending.Keys);
      var k :| 0 <= k < |e.order| && e.order[k] == id;
      assert Rejections(e.order)[k] == (id, Rejected(Disconnected));
    }
  }

  lemma NothingNew(u: Table, e: Event, id: RequestId, v: Verdict)
    requires id !in u.pending || !Ends(e, id)
    requires e.Disconnect? ==> Enumerates(e.order, u.pending.Keys)
    ensures (id, v) in Next(u, e).log <==> (id, v) in u.log
  {
    if e.Disconnect? {
      EnumeratesIs(e.order, u.pending.Keys);
      assert forall k :: 0 <= k < |e.order| ==> Rejections(e.order)[k].0 in e.order;
    }
  }

  /** A request has settled exactly when some event after its issue could end it, and then as
      the first such event says. */
  lemma {:induction false} SettledIff(events: seq<Event>, t: Table, issued: set<RequestId>, id: RequestId, v: Verdict)
    requires Trace(EMPTY, {}, events, t, issued)
    ensures (id, v) in t.log <==> SettledBy(events, id, v)
    decreases |events|
  {
    if events != [] {
      var n := |events| - 1;
      var u, used := LastStep(events, t, issued);
      SettledIff(events[..n], u, used, id, v);
      SettledSnoc(events, id, v);
      LastVerdict(events, u, used, id, v);
    }
  }
}
