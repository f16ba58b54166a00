/** Task execution, the self-update and the boot as one machine, with a crash allowed
    between any two steps (apps/server/src/tasks/runner.ts:38-102,
    apps/server/src/server-install.ts:245-303, apps/server/src/tasks/store.ts:27-106,
    apps/server/src/config.ts:282-320, apps/server/src/fs-atomic.ts:40-56). Runs execute side
    by side, and the writes they issue land in any order. */
module ControlPlane {
  import opened Bytes
  import opened Tasks

  /** How far one `execute` has got. A `Saving` one waits for the write it has issued. */
  datatype Pc =
    | New | SavingNew | SavedNew | Begun | SavingBegun | Working | Marked(version: Version) | Pointed(version: Version)
    | Ended | SavingEnded

  /** A write of the store's file. It is issued with the list of run objects; what they hold
      is put into words only after the directory check. */
  datatype Write = Gathered(ids: seq<RunId>) | Sealed(runs: seq<TaskRun>)

  /** While up, `objs` are all run objects of the process, `order` the ids in the store's map,
      `live` the executions, and `writes` what each of them has in flight. */
  datatype Mode =
    | Down
    | Booting(version: Version, pending: Option<Marker>)
    | Reaping(version: Version, reaped: seq<TaskRun>)
    | Up(version: Version, objs: map<RunId, TaskRun>, order: seq<RunId>, live: map<RunId, Pc>,
         writes: map<RunId, Write>)

  /** `disk`, `marker` and `symlink` survive a crash. The last three fields only record what
      has happened: ids used, the boots that settled a run as succeeded, and the markers boots
      have taken. */
  datatype System = System(
    disk: seq<TaskRun>, marker: Option<Marker>, symlink: Version, mode: Mode, nextSerial: nat,
    used: set<RunId>, justified: map<RunId, (Version, Version)>, taken: seq<nat>)

  datatype Event =
    | Create(id: RunId, kind: Kind, target: Option<string>, now: int)
    | Issue(id: RunId)
    | Seal(id: RunId)
    | Land(id: RunId)
    | FailWrite(id: RunId)
    | Begin(id: RunId)
    | WriteMarker(id: RunId, latest: Version)
    | PointSymlink(id: RunId)
    | Succeed(id: RunId)
    | Throw(id: RunId, message: string)
    | Crash
    | TakeMarker(version: Version)
    | Reap
    | PersistReaped

  predicate LiveAt(s: System, id: RunId) { s.mode.Up? && id in s.mode.live && id in s.mode.objs }

  predicate InFlight(s: System, id: RunId) { s.mode.Up? && id in s.mode.writes }

  /** When an event can happen. `Succeed` is any handler but the self-update's: that one
      never returns, the process exits first. An execution whose write fails waits forever. */
  predicate Enabled(s: System, e: Event) {
    match e
    case Create(id, _, _, _) => s.mode.Up? && id !in s.used
    case Issue(id) => LiveAt(s, id) && s.mode.live[id] in {New, Begun, Ended}
    case Seal(id) => InFlight(s, id) && s.mode.writes[id].Gathered?
    case Land(id) => InFlight(s, id) && s.mode.writes[id].Sealed?
    case FailWrite(id) => InFlight(s, id)
    case Begin(id) => LiveAt(s, id) && s.mode.live[id] == SavedNew
    case WriteMarker(id, latest) =>
      LiveAt(s, id) && s.mode.live[id] == Working && s.mode.objs[id].kind == UpdateControlPlane
        && latest != s.mode.version
    case PointSymlink(id) => LiveAt(s, id) && s.mode.live[id].Marked?
    case Succeed(id) => LiveAt(s, id) && s.mode.live[id] == Working && s.mode.objs[id].kind != UpdateControlPlane
    case Throw(id, _) =>
      LiveAt(s, id) && (s.mode.live[id] == Working || s.mode.live[id].Marked? || s.mode.live[id].Pointed?)
    case Crash => !s.mode.Down?
    case TakeMarker(_) => s.mode.Down?
    case Reap => s.mode.Booting?
    case PersistReaped => s.mode.Reaping?
  }

  /** `map.set` and the pruning, on ids. */
  function PutId(order: seq<RunId>, id: RunId): seq<RunId> { Pruned(if id in order then order else order + [id]) }

  /** The object behind an id; the store never holds an id without one. */
  function ObjectOf(objs: map<RunId, TaskRun>, id: RunId): TaskRun {
    if id in objs then objs[id] else TaskRun(id, OtherKind(""), None, Pending, None, None, 0)
  }

  function Records(objs: map<RunId, TaskRun>, ids: seq<RunId>): (r: seq<TaskRun>)
    ensures |r| == |ids|
    ensures forall i :: 0 <= i < |ids| ==> r[i] == ObjectOf(objs, ids[i])
  {
    seq(|ids|, i requires 0 <= i < |ids| => ObjectOf(objs, ids[i]))
  }

  function Loaded(runs: seq<TaskRun>): map<RunId, TaskRun> {
    if runs == [] then map[] else Loaded(runs[..|runs| - 1])[runs[|runs| - 1].id := runs[|runs| - 1]]
  }

  function Ids(runs: seq<TaskRun>): seq<RunId> { seq(|runs|, i requires 0 <= i < |runs| => runs[i].id) }

  function Awaiting(pc: Pc): Pc { if pc == New then SavingNew else if pc == Begun then SavingBegun else SavingEnded }

  /** Where the execution goes on once its write has landed. */
  function Resumed(live: map<RunId, Pc>, id: RunId): map<RunId, Pc> {
    if id !in live then live
    else if live[id] == SavingNew then live[id := SavedNew]
    else if live[id] == SavingBegun then live[id := Working]
    else if live[id] == SavingEnded then live - {id}
    else live
  }

  /** The booted version is the marker's, and the run it names was left mid-flight. */
  ghost predicate Vouches(disk: seq<TaskRun>, pending: Option<Marker>, version: Version) {
    pending.Some? && pending.value.version == version
    && exists i :: 0 <= i < |disk| && disk[i].id == pending.value.runId && !disk[i].Terminal()
  }

  function Mutated(m: Mode, run: TaskRun, pc: Pc): Mode
    requires m.Up?
  {
    m.(objs := m.objs[run.id := run], live := m.live[run.id := pc])
  }

  ghost function Next(s: System, e: Event): System
    requires Enabled(s, e)
  {
    match e
    case Create(id, kind, target, now) =>
      s.(mode := Mutated(s.mode, TaskRun(id, kind, target, Pending, None, None, now), New), used := s.used + {id})
    case Issue(id) =>
      var order := PutId(s.mode.order, id);
      s.(mode := s.mode.(order := order, live := s.mode.live[id := Awaiting(s.mode.live[id])],
                         writes := s.mode.writes[id := Gathered(order)]))
    case Seal(id) =>
      s.(mode := s.mode.(writes := s.mode.writes[id := Sealed(Records(s.mode.objs, s.mode.writes[id].ids))]))
    case Land(id) =>
      s.(disk := s.mode.writes[id].runs,
         mode := s.mode.(writes := s.mode.writes - {id}, live := Resumed(s.mode.live, id)))
    case FailWrite(id) => s.(mode := s.mode.(writes := s.mode.writes - {id}))
    case Begin(id) => s.(mode := Mutated(s.mode, s.mode.objs[id].(status := Running), Begun))
    case WriteMarker(id, latest) =>
      s.(marker := Some(Marker(id, latest, s.nextSerial)), nextSerial := s.nextSerial + 1,
         mode := s.mode.(live := s.mode.live[id := Marked(latest)]))
    case PointSymlink(id) =>
      var v := s.mode.live[id].version;
      s.(symlink := v, mode := s.mode.(live := s.mode.live[id := Pointed(v)]))
    case Succeed(id) =>
      s.(mode := Mutated(s.mode, s.mode.objs[id].(status := Succeeded, result := Some(Plain)), Ended))
    case Throw(id, message) =>
      s.(mode := Mutated(s.mode, s.mode.objs[id].(status := Failed, error := Some(Thrown(message))), Ended))
    case Crash => s.(mode := Down)
    case TakeMarker(version) =>
      s.(mode := Booting(version, s.marker), marker := None,
         taken := if s.marker.Some? then s.taken + [s.marker.value.serial] else s.taken)
    case Reap =>
      var v, p := s.mode.version, s.mode.pending;
      s.(mode := Reaping(v, Reaped(s.disk, p, v)),
         justified := if Vouches(s.disk, p, v) then s.justified[p.value.runId := (p.value.version, v)] else s.justified)
    case PersistReaped =>
      var runs := s.mode.reaped;
      s.(disk := runs, mode := Up(s.mode.version, Loaded(runs), Ids(runs), map[], map[]))
  }

  /** Putting a run object's id is putting its record, for a store of objects that share ids
      with nothing else. */
  lemma PutByReference(objs: map<RunId, TaskRun>, order: seq<RunId>, run: TaskRun)
    requires forall i :: 0 <= i < |order| ==> order[i] in objs && objs[order[i]].id == order[i]
    ensures Records(objs[run.id := run], PutId(order, run.id)) == PutRun(Records(objs, order), run)
  {
    var records := Records(objs, order);
    assert run.id in order <==> HasId(records, run.id) by {
      if run.id in order {
        var i :| 0 <= i < |order| && order[i] == run.id;
        assert records[i].id == run.id;
      }
    }
    assert Records(objs[run.id := run], order) == Replace(records, run);
    assert run.id !in order ==> Records(objs[run.id := run], order) == records;
  }

  // ---- The invariant -------------------------------------------------------------------

  /** True of every record of a run, wherever it is kept. */
  ghost predicate GoodRun(s: System, r: TaskRun) {
    && r.WellFormed() && r.id in s.used
    && (r.kind == UpdateControlPlane && r.status == Succeeded ==>
          r.id in s.justified && r.result == Some(Updated(s.justified[r.id].1)))
  }

  ghost predicate GoodRuns(s: System, runs: seq<TaskRun>) {
    DistinctIds(runs) && |runs| <= MAX_RUNS && forall i :: 0 <= i < |runs| ==> GoodRun(s, runs[i])
  }

  /** Where an execution is says what its run's status is. */
  predicate StatusAt(run: TaskRun, pc: Pc) {
    match pc
    case New => run.status == Pending
    case SavingNew => run.status == Pending
    case SavedNew => run.status == Pending
    case Ended => run.Terminal()
    case SavingEnded => run.Terminal()
    case _ => run.status == Running
  }

  ghost predicate GoodObject(s: System, id: RunId)
    requires s.mode.Up? && id in s.mode.objs
  {
    var run := s.mode.objs[id];
    run.id == id && GoodRun(s, run) && (!run.Terminal() ==> id in s.mode.live)
  }

  ghost predicate GoodIds(m: Mode, ids: seq<RunId>)
    requires m.Up?
  {
    && |ids| <= MAX_RUNS && (forall i, j :: 0 <= i < j < |ids| ==> ids[i] != ids[j])
    && forall i :: 0 <= i < |ids| ==> ids[i] in m.objs
  }

  /** An older text of a run says nothing final that its object does not say. */
  ghost predicate OldText(m: Mode, r: TaskRun)
    requires m.Up?
  {
    r.id in m.objs && (r.Terminal() ==> r == m.objs[r.id])
  }

  ghost predicate OldTexts(m: Mode, runs: seq<TaskRun>)
    requires m.Up?
  {
    forall i :: 0 <= i < |runs| ==> OldText(m, runs[i])
  }

  ghost predicate GoodWrite(s: System, w: Write)
    requires s.mode.Up?
  {
    match w
    case Gathered(ids) => GoodIds(s.mode, ids)
    case Sealed(runs) => GoodRuns(s, runs) && OldTexts(s.mode, runs)
  }

  ghost predicate GoodExec(m: Mode, id: RunId)
    requires m.Up? && id in m.live
  {
    id in m.objs && StatusAt(m.objs[id], m.live[id])
  }

  ghost predicate UpInv(s: System)
    requires s.mode.Up?
  {
    && (forall id :: id in s.mode.objs ==> GoodObject(s, id))
    && (forall id :: id in s.mode.live ==> GoodExec(s.mode, id))
    && GoodIds(s.mode, s.mode.order)
    && (forall o :: o in s.mode.writes ==> GoodWrite(s, s.mode.writes[o]))
    && OldTexts(s.mode, s.disk)
  }

  /** What a boot makes of a record; a terminal one it leaves alone. */
  predicate SettledFrom(before: TaskRun, after: TaskRun) {
    after.id == before.id && after.Terminal() && (before.Terminal() ==> after == before)
  }

  ghost predicate ModeInv(s: System) {
    match s.mode
    case Down => true
    case Booting(_, pending) =>
      s.marker == None && (pending.Some? ==> s.taken != [] && s.taken[|s.taken| - 1] == pending.value.serial)
    case Reaping(_, reaped) =>
      && s.marker == None && GoodRuns(s, reaped) && |reaped| == |s.disk|
      && forall i :: 0 <= i < |reaped| ==> SettledFrom(s.disk[i], reaped[i])
    case Up(_, _, _, _, _) => UpInv(s)
  }

  /** Every marker is taken at most once, in the order written. */
  ghost predicate MarkersOnce(s: System) {
    && (forall i, j :: 0 <= i < j < |s.taken| ==> s.taken[i] < s.taken[j])
    && (forall i :: 0 <= i < |s.taken| ==> s.taken[i] < s.nextSerial)
    && (s.marker.Some? ==>
          s.marker.value.serial < s.nextSerial
          && forall i :: 0 <= i < |s.taken| ==> s.taken[i] < s.marker.value.serial)
  }

  ghost predicate Inv(s: System) {
    && GoodRuns(s, s.disk)
    && (forall id :: id in s.justified ==> s.justified[id].0 == s.justified[id].1)
    && MarkersOnce(s)
    && ModeInv(s)
  }

  // ---- Every step keeps it ---------------------------------------------------------------

  lemma KeptRuns(s: System, t: System, runs: seq<TaskRun>)
    requires GoodRuns(s, runs) && s.used <= t.used && s.justified == t.justified
    ensures GoodRuns(t, runs)
  {
    forall i | 0 <= i < |runs| ensures GoodRun(t, runs[i]) {
      assert GoodRun(s, runs[i]);
    }
  }

  /** Objects only appear or change while they are not terminal. */
  ghost predicate Grows(m: Mode, n: Mode)
    requires m.Up? && n.Up?
  {
    forall id :: id in m.objs ==> id in n.objs && (m.objs[id].Terminal() ==> n.objs[id] == m.objs[id])
  }

  lemma KeptTexts(m: Mode, n: Mode, runs: seq<TaskRun>)
    requires m.Up? && n.Up? && Grows(m, n) && OldTexts(m, runs)
    ensures OldTexts(n, runs)
  {
    forall i | 0 <= i < |runs| ensures OldText(n, runs[i]) {
      assert OldText(m, runs[i]);
    }
  }

  lemma KeptWrite(s: System, t: System, w: Write)
    requires s.mode.Up? && t.mode.Up? && GoodWrite(s, w) && s.used <= t.used && s.justified == t.justified
    requires Grows(s.mode, t.mode)
    ensures GoodWrite(t, w)
  {
    match w
    case Gathered(ids) =>
    case Sealed(runs) =>
      KeptRuns(s, t, runs);
      KeptTexts(s.mode, t.mode, runs);
  }

  /** A step that writes one object, new or not terminal, and moves its execution. */
  lemma MutateKeeps(s: System, run: TaskRun, pc: Pc, used: set<RunId>)
    requires Inv(s) && s.mode.Up? && used == s.used + {run.id}
    requires run.id in s.mode.objs ==> !s.mode.objs[run.id].Terminal()
    requires run.WellFormed() && StatusAt(run, pc) && !(run.kind == UpdateControlPlane && run.status == Succeeded)
    ensures Inv(s.(mode := Mutated(s.mode, run, pc), used := used))
  {
    var t := s.(mode := Mutated(s.mode, run, pc), used := used);
    KeptRuns(s, t, s.disk);
    KeptTexts(s.mode, t.mode, s.disk);
    forall id | id in t.mode.objs ensures GoodObject(t, id) {
      assert id != run.id ==> GoodObject(s, id);
    }
    forall id | id in t.mode.live ensures GoodExec(t.mode, id) {
      assert id != run.id ==> GoodExec(s.mode, id);
    }
    forall o | o in t.mode.writes ensures GoodWrite(t, t.mode.writes[o]) {
      KeptWrite(s, t, s.mode.writes[o]);
    }
  }

  /** A step that writes no object and drops no unfinished execution. */
  lemma QuietKeeps(s: System, t: System)
    requires Inv(s) && s.mode.Up? && t.mode.Up? && s.mode.objs == t.mode.objs
    requires s.used == t.used && s.justified == t.justified && MarkersOnce(t)
    requires GoodIds(t.mode, t.mode.order)
    requires forall id :: id in t.mode.live ==> GoodExec(t.mode, id)
    requires forall id :: id in s.mode.live && id !in t.mode.live ==> id in s.mode.objs && s.mode.objs[id].Terminal()
    requires forall o :: o in t.mode.writes ==>
      (o in s.mode.writes && t.mode.writes[o] == s.mode.writes[o]) || GoodWrite(t, t.mode.writes[o])
    requires t.disk == s.disk || (GoodRuns(s, t.disk) && OldTexts(s.mode, t.disk))
    ensures Inv(t)
  {
    KeptRuns(s, t, t.disk);
    KeptTexts(s.mode, t.mode, t.disk);
    forall id | id in t.mode.objs ensures GoodObject(t, id) {
      assert GoodObject(s, id);
    }
    forall o | o in t.mode.writes ensures GoodWrite(t, t.mode.writes[o]) {
      if o in s.mode.writes && t.mode.writes[o] == s.mode.writes[o] {
        KeptWrite(s, t, s.mode.writes[o]);
      }
    }
  }

  lemma PutIdKeeps(m: Mode, id: RunId)
    requires m.Up? && GoodIds(m, m.order) && id in m.objs
    ensures GoodIds(m, PutId(m.order, id))
  {
    var all := if id in m.order then m.order else m.order + [id];
    assert forall i, j :: 0 <= i < j < |all| ==> all[i] != all[j];
  }

  lemma IssueKeeps(s: System, e: Event)
    requires Inv(s) && Enabled(s, e) && e.Issue?
    ensures Inv(Next(s, e))
  {
    var t := Next(s, e);
    PutIdKeeps(s.mode, e.id);
    forall id | id in t.mode.live ensures GoodExec(t.mode, id) {
      assert GoodExec(s.mode, id);
    }
    QuietKeeps(s, t);
  }

  lemma SealKeeps(s: System, e: Event)
    requires Inv(s) && Enabled(s, e) && e.Seal?
    ensures Inv(Next(s, e))
  {
    var t := Next(s, e);
    var ids := s.mode.writes[e.id].ids;
    var runs := Records(s.mode.objs, ids);
    assert GoodWrite(s, s.mode.writes[e.id]);
    forall i | 0 <= i < |ids| ensures runs[i].id == ids[i] && GoodRun(t, runs[i]) && OldText(t.mode, runs[i]) {
      assert GoodObject(s, ids[i]);
    }
    forall id | id in t.mode.live ensures GoodExec(t.mode, id) {
      assert GoodExec(s.mode, id);
    }
    QuietKeeps(s, t);
  }

  lemma LandKeeps(s: System, e: Event)
    requires Inv(s) && Enabled(s, e) && (e.Land? || e.FailWrite?)
    ensures Inv(Next(s, e))
  {
    var t := Next(s, e);
    assert GoodWrite(s, s.mode.writes[e.id]);
    forall id | id in s.mode.live ensures GoodExec(s.mode, id) && (id in t.mode.live ==> GoodExec(t.mode, id)) {
      assert GoodExec(s.mode, id);
    }
    QuietKeeps(s, t);
  }

  lemma HandlerStepKeeps(s: System, e: Event)
    requires Inv(s) && Enabled(s, e) && (e.WriteMarker? || e.PointSymlink?)
    ensures Inv(Next(s, e))
  {
    var t := Next(s, e);
    forall id | id in t.mode.live ensures GoodExec(t.mode, id) {
      assert GoodExec(s.mode, id);
    }
    QuietKeeps(s, t);
  }

  lemma CrashKeeps(s: System)
    requires Inv(s) && Enabled(s, Crash)
    ensures Inv(Next(s, Crash))
  {
    KeptRuns(s, Next(s, Crash), s.disk);
  }

  lemma TakeMarkerKeeps(s: System, e: Event)
    requires Inv(s) && Enabled(s, e) && e.TakeMarker?
    ensures Inv(Next(s, e))
  {
    KeptRuns(s, Next(s, e), s.disk);
  }

  lemma ReapKeeps(s: System)
    requires Inv(s) && Enabled(s, Reap)
    ensures Inv(Next(s, Reap))
  {
    var t, v, p := Next(s, Reap), s.mode.version, s.mode.pending;
    var reaped := t.mode.reaped;
    forall i | 0 <= i < |s.disk|
      ensures GoodRun(t, s.disk[i]) && GoodRun(t, reaped[i]) && SettledFrom(s.disk[i], reaped[i])
    {
      assert GoodRun(s, s.disk[i]);
      SettleIs(s.disk[i], p, v);
      if Vouches(s.disk, p, v) && s.disk[i].id == p.value.runId {
        var k :| 0 <= k < |s.disk| && s.disk[k].id == p.value.runId && !s.disk[k].Terminal();
        assert k == i;
      }
    }
  }

  lemma {:induction false} LoadedIs(runs: seq<TaskRun>)
    requires DistinctIds(runs)
    ensures forall i :: 0 <= i < |runs| ==> runs[i].id in Loaded(runs) && Loaded(runs)[runs[i].id] == runs[i]
    ensures forall id :: id in Loaded(runs) ==> Loaded(runs)[id].id == id && Loaded(runs)[id] in runs
  {
    if runs != [] {
      LoadedIs(runs[..|runs| - 1]);
    }
  }

  lemma PersistReapedKeeps(s: System)
    requires Inv(s) && Enabled(s, PersistReaped)
    ensures Inv(Next(s, PersistReaped))
  {
    var t, runs := Next(s, PersistReaped), s.mode.reaped;
    LoadedIs(runs);
    KeptRuns(s, t, runs);
    forall id | id in t.mode.objs ensures GoodObject(t, id) {
      var i :| 0 <= i < |runs| && runs[i] == t.mode.objs[id];
      assert GoodRun(t, runs[i]) && SettledFrom(s.disk[i], runs[i]);
    }
  }

  lemma StepKeeps(s: System, e: Event)
    requires Inv(s) && Enabled(s, e)
    ensures Inv(Next(s, e))
  {
    match e
    case Create(id, kind, target, now) =>
      assert id in s.mode.objs ==> GoodObject(s, id);
      MutateKeeps(s, TaskRun(id, kind, target, Pending, None, None, now), New, s.used + {id});
    case Issue(_) => IssueKeeps(s, e);
    case Seal(_) => SealKeeps(s, e);
    case Land(_) => LandKeeps(s, e);
    case FailWrite(_) => LandKeeps(s, e);
    case Begin(id) => MutateLive(s, id, s.mode.objs[id].(status := Running), Begun);
    case WriteMarker(_, _) => HandlerStepKeeps(s, e);
    case PointSymlink(_) => HandlerStepKeeps(s, e);
    case Succeed(id) => MutateLive(s, id, s.mode.objs[id].(status := Succeeded, result := Some(Plain)), Ended);
    case Throw(id, message) =>
      MutateLive(s, id, s.mode.objs[id].(status := Failed, error := Some(Thrown(message))), Ended);
    case Crash => CrashKeeps(s);
    case TakeMarker(_) => TakeMarkerKeeps(s, e);
    case Reap => ReapKeeps(s);
    case PersistReaped => PersistReapedKeeps(s);
  }

  lemma MutateLive(s: System, id: RunId, run: TaskRun, pc: Pc)
    requires Inv(s) && LiveAt(s, id) && StatusAt(s.mode.objs[id], s.mode.live[id]) && !s.mode.objs[id].Terminal()
    requires run.id == s.mode.objs[id].id && run.WellFormed() && StatusAt(run, pc)
    requires !(run.kind == UpdateControlPlane && run.status == Succeeded)
    ensures Inv(s.(mode := Mutated(s.mode, run, pc)))
  {
    assert GoodObject(s, id) && s.used + {id} == s.used;
    MutateKeeps(s, run, pc, s.used);
  }

  // ---- Runs ------------------------------------------------------------------------------

  /** The events happen in order, each when it can. */
  ghost predicate Trace(s: System, events: seq<Event>, t: System)
    decreases |events|
  {
    if events == [] then s == t else Enabled(s, events[0]) && Trace(Next(s, events[0]), events[1..], t)
  }

  lemma {:induction false} TraceKeeps(s: System, events: seq<Event>, t: System)
    requires Inv(s) && Trace(s, events, t)
    ensures Inv(t)
    decreases |events|
  {
    if events != [] {
      StepKeeps(s, events[0]);
      TraceKeeps(Next(s, events[0]), events[1..], t);
    }
  }

  lemma {:induction false} TraceSnoc(s: System, events: seq<Event>, t: System, e: Event)
    requires Trace(s, events, t) && Enabled(t, e)
    ensures Trace(s, events + [e], Next(t, e))
    decreases |events|
  {
    if events == [] {
      assert Trace(Next(t, e), [], Next(t, e)) && [e][1..] == [];
    } else {
      assert (events + [e])[1..] == events[1..] + [e];
      TraceSnoc(Next(s, events[0]), events[1..], t, e);
    }
  }

  function Fresh(symlink: Version): System {
    System([], None, symlink, Down, 0, {}, map[], [])
  }

  /** After every boot, whatever crashed before and whatever was in flight, no run is pending
      or running, in memory or on disk. */
  lemma NothingRunsAfterBoot(symlink: Version, events: seq<Event>, s: System)
    requires Trace(Fresh(symlink), events, s) && Enabled(s, PersistReaped)
    ensures var t := Next(s, PersistReaped);
      && t.disk == Records(t.mode.objs, t.mode.order)
      && (forall i :: 0 <= i < |t.disk| ==> t.disk[i].Terminal() && t.disk[i].WellFormed())
      && forall id :: id in t.mode.objs ==> t.mode.objs[id].Terminal()
  {
    TraceKeeps(Fresh(symlink), events, s);
    LoadedIs(s.mode.reaped);
    forall i | 0 <= i < |s.mode.reaped| ensures s.mode.reaped[i].WellFormed() && s.mode.reaped[i].Terminal() {
      assert GoodRun(s, s.mode.reaped[i]) && SettledFrom(s.disk[i], s.mode.reaped[i]);
    }
    assert Next(s, PersistReaped).disk == Records(Loaded(s.mode.reaped), Ids(s.mode.reaped));
  }

  /** A self-update run that shows as succeeded was settled by a boot whose own version was
      the one the run's marker named; and each marker is taken by at most one boot. */
  lemma UpdateSuccessIsVouched(symlink: Version, events: seq<Event>, s: System, r: TaskRun)
    requires Trace(Fresh(symlink), events, s)
    requires r in s.disk && r.kind == UpdateControlPlane && r.status == Succeeded
    ensures r.id in s.justified && s.justified[r.id].0 == s.justified[r.id].1
    ensures r.result == Some(Updated(s.justified[r.id].1))
    ensures forall i, j :: 0 <= i < j < |s.taken| ==> s.taken[i] != s.taken[j]
  {
    TraceKeeps(Fresh(symlink), events, s);
    var i :| 0 <= i < |s.disk| && s.disk[i] == r;
    assert GoodRun(s, s.disk[i]);
  }

  /** What `justified` records: a boot of that version, with that marker in hand, over a run
      left mid-flight. */
  lemma JustifiedByBoot(s: System, e: Event, id: RunId)
    requires Enabled(s, e) && id in Next(s, e).justified
    requires id !in s.justified || s.justified[id] != Next(s, e).justified[id]
    ensures e.Reap? && s.mode.pending.Some? && s.mode.pending.value.runId == id
    ensures Next(s, e).justified[id] == (s.mode.pending.value.version, s.mode.version)
    ensures exists i :: 0 <= i < |s.disk| && s.disk[i].id == id && !s.disk[i].Terminal()
  {
  }

  // ---- What a run's record says -----------------------------------------------------------

  lemma {:induction false} LastEvent(s: System, events: seq<Event>, t: System) returns (u: System)
    requires events != [] && Trace(s, events, t)
    ensures var n := |events| - 1; Trace(s, events[..n], u) && Enabled(u, events[n]) && t == Next(u, events[n])
    decreases |events|
  {
    if |events| == 1 {
      u := s;
      assert Trace(u, [], s) && events[..0] == [];
    } else {
      u := LastEvent(Next(s, events[0]), events[1..], t);
      var n := |events| - 1;
      assert events[1..][..n - 1] == events[..n][1..];
    }
  }

  predicate Touches(e: Event, id: RunId) {
    (e.Create? || e.Begin? || e.Succeed? || e.Throw?) && e.id == id
  }

  /** The last thing that happened to the run itself, in the process still up. */
  ghost predicate LastTouch(events: seq<Event>, id: RunId, j: nat) {
    && j < |events| && Touches(events[j], id)
    && forall k :: j < k < |events| ==> !Touches(events[k], id) && !events[k].Crash?
  }

  /** What its record then says of how far it got and how it ended. */
  predicate SaysOf(e: Event, r: TaskRun) {
    match e
    case Create(_, kind, target, now) =>
      r.status == Pending && r.result == None && r.error == None
      && r.kind == kind && r.target == target && r.createdAt == now
    case Begin(_) => r.status == Running && r.result == None && r.error == None
    case Succeed(_) => r.status == Succeeded && r.result == Some(Plain) && r.error == None
    case Throw(_, message) => r.status == Failed && r.result == None && r.error == Some(Thrown(message))
    case _ => true
  }

  /** In memory a run's record says what last happened to it: created, begun, returned from, or
      failed with what its handler threw. */
  lemma {:induction false} RecordTells(symlink: Version, events: seq<Event>, s: System, id: RunId, j: nat)
    requires Trace(Fresh(symlink), events, s) && LastTouch(events, id, j)
    ensures s.mode.Up? && id in s.mode.objs && s.mode.objs[id].id == id && SaysOf(events[j], s.mode.objs[id])
    decreases |events|
  {
    var n := |events| - 1;
    var u := LastEvent(Fresh(symlink), events, s);
    TraceKeeps(Fresh(symlink), events[..n], u);
    if j < n {
      assert LastTouch(events[..n], id, j) by {
        assert forall k :: 0 <= k < n ==> events[..n][k] == events[k];
      }
      RecordTells(symlink, events[..n], u, id, j);
      assert events[..n][j] == events[j];
      UntouchedStays(u, events[n], id);
    } else {
      TouchTells(u, events[n], id);
    }
  }

  lemma UntouchedStays(u: System, e: Event, id: RunId)
    requires u.mode.Up? && id in u.mode.objs && Enabled(u, e) && !Touches(e, id) && !e.Crash?
    requires Inv(u)
    ensures Next(u, e).mode.Up? && id in Next(u, e).mode.objs && Next(u, e).mode.objs[id] == u.mode.objs[id]
  {
    if e.Begin? || e.Succeed? || e.Throw? {
      assert GoodObject(u, e.id);
    }
  }

  lemma TouchTells(u: System, e: Event, id: RunId)
    requires Inv(u) && Enabled(u, e) && Touches(e, id)
    ensures var s := Next(u, e);
      s.mode.Up? && id in s.mode.objs && s.mode.objs[id].id == id && SaysOf(e, s.mode.objs[id])
  {
    if !e.Create? {
      assert GoodExec(u.mode, id) && GoodObject(u, id);
    }
  }

  /** And it says throughout what kind of run it is, of what, and when it was created. */
  ghost predicate CreatedAt(events: seq<Event>, id: RunId, i: nat) {
    && i < |events| && events[i].Create? && events[i].id == id
    && forall k :: i < k < |events| ==> !events[k].Crash?
  }

  lemma {:induction false} RecordKeepsKind(symlink: Version, events: seq<Event>, s: System, id: RunId, i: nat)
    requires Trace(Fresh(symlink), events, s) && CreatedAt(events, id, i)
    ensures s.mode.Up? && id in s.mode.objs && id in s.used
    ensures var r := s.mode.objs[id];
      r.kind == events[i].kind && r.target == events[i].target && r.createdAt == events[i].now
    decreases |events|
  {
    var n := |events| - 1;
    var u := LastEvent(Fresh(symlink), events, s);
    TraceKeeps(Fresh(symlink), events[..n], u);
    if i < n {
      assert CreatedAt(events[..n], id, i) by {
        assert forall k :: 0 <= k < n ==> events[..n][k] == events[k];
      }
      RecordKeepsKind(symlink, events[..n], u, id, i);
      assert events[..n][i] == events[i] && !events[n].Crash?;
      KindStays(u, events[n], id);
    }
  }

  lemma KindStays(u: System, e: Event, id: RunId)
    requires Inv(u) && Enabled(u, e) && u.mode.Up? && !e.Crash? && id in u.mode.objs && id in u.used
    ensures var s := Next(u, e);
      && s.mode.Up? && id in s.mode.objs && id in s.used
      && s.mode.objs[id].kind == u.mode.objs[id].kind && s.mode.objs[id].target == u.mode.objs[id].target
      && s.mode.objs[id].createdAt == u.mode.objs[id].createdAt
  {
    if Touches(e, id) && !e.Create? {
      assert GoodExec(u.mode, id) && GoodObject(u, id);
    }
  }

  /** The marker on disk names a self-update that wrote it, in a process of another version. */
  ghost predicate WrittenBy(symlink: Version, events: seq<Event>, m: Marker, j: nat, u: System) {
    && j < |events| && Trace(Fresh(symlink), events[..j], u) && events[j] == WriteMarker(m.runId, m.version)
    && u.mode.Up? && m.version != u.mode.version
    && m.runId in u.mode.objs && u.mode.objs[m.runId].kind == UpdateControlPlane
  }

  lemma {:induction false} MarkerWritten(symlink: Version, events: seq<Event>, s: System)
    returns (j: nat, u: System)
    requires Trace(Fresh(symlink), events, s) && s.marker.Some?
    ensures WrittenBy(symlink, events, s.marker.value, j, u)
    decreases |events|
  {
    var n := |events| - 1;
    var v := LastEvent(Fresh(symlink), events, s);
    if events[n].WriteMarker? {
      j, u := n, v;
    } else {
      j, u := MarkerWritten(symlink, events[..n], v);
      assert events[..n][..j] == events[..j] && events[..n][j] == events[j];
    }
  }

  // ---- How final a final record is --------------------------------------------------------

  /** In one process a run is over once: its object never changes after that. */
  lemma OverOnce(s: System, e: Event)
    requires Inv(s) && Enabled(s, e) && s.mode.Up? && Next(s, e).mode.Up?
    ensures Grows(s.mode, Next(s, e).mode)
  {
    match e
    case Create(id, _, _, _) => assert id in s.mode.objs ==> GoodObject(s, id);
    case Begin(id) => assert GoodExec(s.mode, id) && GoodObject(s, id);
    case Succeed(id) => assert GoodExec(s.mode, id) && GoodObject(s, id);
    case Throw(id, _) => assert GoodExec(s.mode, id) && GoodObject(s, id);
    case _ =>
  }

  /** No other record of that run. */
  ghost predicate Only(runs: seq<TaskRun>, r: TaskRun) {
    forall i :: 0 <= i < |runs| && runs[i].id == r.id ==> runs[i] == r
  }

  /** A write still in flight was put into words before the run was over. */
  ghost predicate Stale(s: System, id: RunId) { s.mode.Up? && exists o :: StaleWrite(s.mode, o, id) }

  ghost predicate StaleWrite(m: Mode, o: RunId, id: RunId)
    requires m.Up?
  {
    o in m.writes && m.writes[o].Sealed?
    && exists i :: 0 <= i < |m.writes[o].runs| && m.writes[o].runs[i].id == id && !m.writes[o].runs[i].Terminal()
  }

  /** Wherever the run is still on record, it is this record. */
  ghost predicate Final(s: System, r: TaskRun) {
    && r.Terminal() && r.id in s.used && Only(s.disk, r)
    && match s.mode
       case Reaping(_, reaped) => Only(reaped, r)
       case Up(_, objs, _, _, writes) =>
         && (r.id in objs ==> objs[r.id] == r)
         && forall o :: o in writes && writes[o].Sealed? ==> Only(writes[o].runs, r)
       case _ => true
  }

  lemma FinalStep(s: System, e: Event, r: TaskRun)
    requires Inv(s) && Enabled(s, e) && Final(s, r)
    ensures Final(Next(s, e), r)
  {
    if s.mode.Up? {
      FinalWhileUp(s, e, r);
    } else if e.Reap? {
      var v, p := s.mode.version, s.mode.pending;
      forall i | 0 <= i < |s.disk| && s.disk[i].id == r.id ensures Reaped(s.disk, p, v)[i] == r {
        assert s.disk[i] == r;
      }
    } else if e.PersistReaped? {
      LoadedIs(s.mode.reaped);
    }
  }

  lemma FinalWhileUp(s: System, e: Event, r: TaskRun)
    requires Inv(s) && Enabled(s, e) && Final(s, r) && s.mode.Up?
    ensures Final(Next(s, e), r)
  {
    match e
    case Seal(id) =>
      assert GoodWrite(s, s.mode.writes[id]);
      var ids := s.mode.writes[id].ids;
      forall i | 0 <= i < |ids| && Records(s.mode.objs, ids)[i].id == r.id ensures Records(s.mode.objs, ids)[i] == r {
        assert GoodObject(s, ids[i]);
      }
    case Begin(id) => assert GoodExec(s.mode, id) && GoodObject(s, id);
    case Succeed(id) => assert GoodExec(s.mode, id) && GoodObject(s, id);
    case Throw(id, _) => assert GoodExec(s.mode, id) && GoodObject(s, id);
    case _ =>
  }

  lemma {:induction false} FinalForever(s: System, events: seq<Event>, t: System, r: TaskRun)
    requires Inv(s) && Trace(s, events, t) && Final(s, r)
    ensures Final(t, r)
    decreases |events|
  {
    if events != [] {
      StepKeeps(s, events[0]);
      FinalStep(s, events[0], r);
      FinalForever(Next(s, events[0]), events[1..], t, r);
    }
  }

  /** Nothing older in flight: the record is final. */
  lemma FreshMeansFinal(s: System, r: TaskRun)
    requires Inv(s) && r in s.disk && r.Terminal() && !Stale(s, r.id)
    ensures Final(s, r)
  {
    var k :| 0 <= k < |s.disk| && s.disk[k] == r;
    assert GoodRun(s, s.disk[k]);
    if s.mode.Reaping? {
      forall i | 0 <= i < |s.mode.reaped| && s.mode.reaped[i].id == r.id ensures s.mode.reaped[i] == r {
        assert SettledFrom(s.disk[i], s.mode.reaped[i]);
      }
    }
    if s.mode.Up? {
      assert OldText(s.mode, s.disk[k]) && GoodObject(s, r.id);
      forall o | o in s.mode.writes && s.mode.writes[o].Sealed? ensures Only(s.mode.writes[o].runs, r) {
        var runs := s.mode.writes[o].runs;
        assert GoodWrite(s, s.mode.writes[o]) && !StaleWrite(s.mode, o, r.id);
        forall i | 0 <= i < |runs| && runs[i].id == r.id ensures runs[i] == r {
          assert OldText(s.mode, runs[i]);
        }
      }
    }
  }

  lemma {:induction false} RecordIsOnly(s: System, r: TaskRun)
    requires Inv(s) && r in s.disk
    ensures Only(s.disk, r)
  {
  }

  /** A step takes a terminal record back exactly when it lands a write put into words before
      the run was over. */
  lemma StepTakesBackIff(s: System, e: Event, r: TaskRun)
    requires Inv(s) && Enabled(s, e) && r in s.disk && r.Terminal()
    ensures !Only(Next(s, e).disk, r) <==> e.Land? && StaleWrite(s.mode, e.id, r.id)
  {
    RecordIsOnly(s, r);
    if e.Land? {
      var k :| 0 <= k < |s.disk| && s.disk[k] == r;
      assert OldText(s.mode, s.disk[k]) && GoodWrite(s, s.mode.writes[e.id]);
      var runs := s.mode.writes[e.id].runs;
      forall i | 0 <= i < |runs| && runs[i].id == r.id ensures runs[i].Terminal() ==> runs[i] == r {
        assert OldText(s.mode, runs[i]);
      }
    } else if e.PersistReaped? {
      forall i | 0 <= i < |s.mode.reaped| && s.mode.reaped[i].id == r.id ensures s.mode.reaped[i] == r {
        assert SettledFrom(s.disk[i], s.mode.reaped[i]);
      }
    }
  }

  lemma OneStep(s: System, e: Event)
    requires Enabled(s, e)
    ensures Trace(s, [e], Next(s, e))
  {
    assert Trace(Next(s, e), [], Next(s, e)) && [e][1..] == [];
  }

  ghost predicate TakesBack(s: System, events: seq<Event>, t: System, r: TaskRun) {
    Trace(s, events, t) && !Only(t.disk, r)
  }

  /** Whatever happens next, a terminal record on disk stays the run's record: exactly when no
      write in flight was put into words before the run was over. */
  lemma FinalIff(symlink: Version, past: seq<Event>, s: System, r: TaskRun)
    requires Trace(Fresh(symlink), past, s) && r in s.disk && r.Terminal()
    ensures !Stale(s, r.id) <==> forall events, t :: !TakesBack(s, events, t, r)
  {
    TraceKeeps(Fresh(symlink), past, s);
    if !Stale(s, r.id) {
      FreshMeansFinal(s, r);
      forall events, t ensures !TakesBack(s, events, t, r) {
        if Trace(s, events, t) {
          FinalForever(s, events, t, r);
        }
      }
    } else {
      var o :| StaleWrite(s.mode, o, r.id);
      StepTakesBackIff(s, Land(o), r);
      OneStep(s, Land(o));
      assert TakesBack(s, [Land(o)], Next(s, Land(o)), r);
    }
  }

  /** What a boot has written is final, with no condition: nothing of the process before is in
      flight any more. */
  lemma BootedIsFinal(symlink: Version, past: seq<Event>, s: System, events: seq<Event>, t: System, r: TaskRun)
    requires Trace(Fresh(symlink), past, s) && Enabled(s, PersistReaped)
    requires r in Next(s, PersistReaped).disk && Trace(Next(s, PersistReaped), events, t)
    ensures Only(t.disk, r) && (t.mode.Up? && r.id in t.mode.objs ==> t.mode.objs[r.id] == r)
  {
    NothingRunsAfterBoot(symlink, past, s);
    TraceKeeps(Fresh(symlink), past, s);
    StepKeeps(s, PersistReaped);
    FreshMeansFinal(Next(s, PersistReaped), r);
    FinalForever(Next(s, PersistReaped), events, t, r);
  }

  // ---- One save at a time -----------------------------------------------------------------

  /** The guard a store that queued its saves would impose. */
  ghost predicate OneAtATime(s: System, events: seq<Event>)
    decreases |events|
  {
    events == []
    || (Enabled(s, events[0]) && (events[0].Issue? ==> s.mode.writes == map[])
      && OneAtATime(Next(s, events[0]), events[1..]))
  }

  /** At most one write in flight, and it is not stale for anything on disk. */
  ghost predicate Queued(s: System) {
    s.mode.Up? ==>
      && (forall o, p :: o in s.mode.writes && p in s.mode.writes ==> o == p)
      && forall i :: 0 <= i < |s.disk| && s.disk[i].Terminal() ==> !Stale(s, s.disk[i].id)
  }

  lemma QueuedStep(s: System, e: Event)
    requires Inv(s) && Queued(s) && Enabled(s, e) && (e.Issue? ==> s.mode.writes == map[])
    ensures Queued(Next(s, e))
  {
    var t := Next(s, e);
    if s.mode.Up? && t.mode.Up? && !e.Land? {
      forall i | 0 <= i < |t.disk| && t.disk[i].Terminal() ensures !Stale(t, t.disk[i].id) {
        forall o ensures !StaleWrite(t.mode, o, t.disk[i].id) {
          assert !StaleWrite(s.mode, o, t.disk[i].id) && OldText(s.mode, s.disk[i]);
        }
      }
    }
  }

  /** With saves one at a time every terminal record that reaches the disk is final. */
  lemma {:induction false} QueuedIsFinal(s: System, events: seq<Event>, t: System, r: TaskRun)
    requires Inv(s) && Queued(s) && Trace(s, events, t) && OneAtATime(s, events) && r in t.disk && r.Terminal()
    ensures !Stale(t, r.id)
    decreases |events|
  {
    if events != [] {
      StepKeeps(s, events[0]);
      QueuedStep(s, events[0]);
      QueuedIsFinal(Next(s, events[0]), events[1..], t, r);
    }
  }

  // ---- What a boot decides ----------------------------------------------------------------

  /** The whole boot of a process of that version. */
  ghost function Boot(s: System, version: Version): (t: System)
    requires s.mode.Down?
    ensures |t.disk| == |s.disk|
  {
    Next(Next(Next(s, TakeMarker(version)), Reap), PersistReaped)
  }

  lemma BootSettles(s: System, version: Version)
    requires s.mode.Down?
    ensures var t := Boot(s, version);
      && t.mode == Up(version, Loaded(t.disk), Ids(t.disk), map[], map[]) && t.disk == Reaped(s.disk, s.marker, version)
      && t.marker == None && t.symlink == s.symlink
  {
  }

  /** A run left mid-flight is settled as succeeded exactly when the marker names it and the
      booted version is the marker's; it is "interrupted" exactly when no marker names it. */
  lemma BootDecides(s: System, version: Version, i: nat)
    requires Inv(s) && s.mode.Down? && i < |s.disk| && !s.disk[i].Terminal() && s.disk[i].kind == UpdateControlPlane
    ensures var run := Boot(s, version).disk[i];
      && run.id == s.disk[i].id
      && (run.status == Succeeded
          <==> s.marker.Some? && s.marker.value.runId == run.id && s.marker.value.version == version)
      && (run.error == Some(Interrupted) <==> s.marker.None? || s.marker.value.runId != run.id)
  {
    BootSettles(s, version);
    assert GoodRun(s, s.disk[i]);
    SettleIs(s.disk[i], s.marker, version);
  }

  /** The crash point decides, when the supervisor starts what the symlink points at: an
      update that died after the symlink moved comes back as succeeded, one that died just
      before it moved comes back as failed, naming both versions. */
  lemma UpdateAcrossRestart(s: System, id: RunId, i: nat)
    requires Inv(s) && LiveAt(s, id) && i < |s.disk| && s.disk[i].id == id && !s.disk[i].Terminal()
    requires s.disk[i].kind == UpdateControlPlane
    requires s.marker.Some? && s.marker.value.runId == id && s.mode.live[id] == Marked(s.marker.value.version)
    requires s.symlink != s.marker.value.version
    ensures var before := Next(s, Crash);
            Boot(before, before.symlink).disk[i].error == Some(WrongVersion(s.symlink, s.marker.value.version))
    ensures var after := Next(Next(s, PointSymlink(id)), Crash);
            Boot(after, after.symlink).disk[i].result == Some(Updated(s.marker.value.version))
  {
    var before, after := Next(s, Crash), Next(Next(s, PointSymlink(id)), Crash);
    BootSettles(before, before.symlink);
    BootSettles(after, after.symlink);
  }

  // ---- A record taken back ----------------------------------------------------------------

  function RunX(status: Status): TaskRun {
    TaskRun("x", OtherKind("exec"), None, status, if status == Succeeded then Some(Plain) else None, None, 0)
  }

  function RunY(): TaskRun { TaskRun("y", OtherKind("exec"), None, Pending, None, None, 1) }

  function UpWith(disk: seq<TaskRun>, objs: map<RunId, TaskRun>, order: seq<RunId>, live: map<RunId, Pc>,
                  writes: map<RunId, Write>, used: set<RunId>): System {
    System(disk, None, "1", Up("1", objs, order, live, writes), 0, used, map[], [])
  }

  /** Run x alone, at some point of its execution. */
  function OnlyX(disk: seq<TaskRun>, status: Status, order: seq<RunId>, pc: Pc): System {
    UpWith(disk, map["x" := RunX(status)], order, map["x" := pc], map[], {"x"})
  }

  /** Runs x and y, y's first save under way. */
  function WithY(disk: seq<TaskRun>, status: Status, live: map<RunId, Pc>, write: Write): System {
    UpWith(disk, map["x" := RunX(status), "y" := RunY()], ["x", "y"], live, map["y" := write], {"x", "y"})
  }

  const LATE_WRITE := Sealed([RunX(Running), RunY()])

  /** Run x has succeeded and is saved; y's older write is still in flight. */
  function Meanwhile(): System { WithY([RunX(Succeeded), RunY()], Succeeded, map["y" := SavingNew], LATE_WRITE) }

  /** One save from issue to landing, with nothing in between. */
  ghost function Saved(s: System, id: RunId): System
    requires Enabled(s, Issue(id))
  {
    Next(Next(Next(s, Issue(id)), Seal(id)), Land(id))
  }

  lemma SavedTrace(from: System, events: seq<Event>, s: System, id: RunId) returns (more: seq<Event>)
    requires Trace(from, events, s) && Enabled(s, Issue(id))
    ensures Trace(from, more, Saved(s, id))
  {
    var s1 := Next(s, Issue(id));
    var s2 := Next(s1, Seal(id));
    TraceSnoc(from, events, s, Issue(id));
    TraceSnoc(from, events + [Issue(id)], s1, Seal(id));
    TraceSnoc(from, events + [Issue(id)] + [Seal(id)], s2, Land(id));
    more := events + [Issue(id)] + [Seal(id)] + [Land(id)];
  }

  /** The first boot of an empty installation. */
  lemma FirstBoot() returns (events: seq<Event>)
    ensures Trace(Fresh("1"), events, UpWith([], map[], [], map[], map[], {}))
  {
    var s1 := Next(Fresh("1"), TakeMarker("1"));
    var s2 := Next(s1, Reap);
    OneStep(Fresh("1"), TakeMarker("1"));
    TraceSnoc(Fresh("1"), [TakeMarker("1")], s1, Reap);
    TraceSnoc(Fresh("1"), [TakeMarker("1")] + [Reap], s2, PersistReaped);
    events := [TakeMarker("1")] + [Reap] + [PersistReaped];
    var none: seq<TaskRun> := [];
    assert Reaped(none, None, "1") == none && Loaded(none) == map[] && Ids(none) == [];
    assert s2.mode == Reaping("1", none) && s2.marker == None && s2.justified == map[];
    assert Next(s2, PersistReaped) == UpWith([], map[], [], map[], map[], {});
  }

  lemma CreateX()
    ensures var e := Create("x", OtherKind("exec"), None, 0);
      Enabled(UpWith([], map[], [], map[], map[], {}), e)
      && Next(UpWith([], map[], [], map[], map[], {}), e) == OnlyX([], Pending, [], New)
  {
    assert {} + {"x"} == {"x"};
  }

  lemma SaveX(disk: seq<TaskRun>, status: Status, order: seq<RunId>, pc: Pc, next: Pc)
    requires order == [] || order == ["x"]
    requires (pc == New && next == SavedNew) || (pc == Begun && next == Working)
    ensures Enabled(OnlyX(disk, status, order, pc), Issue("x"))
    ensures Saved(OnlyX(disk, status, order, pc), "x") == OnlyX([RunX(status)], status, ["x"], next)
  {
    var s := OnlyX(disk, status, order, pc);
    SavedIs(s, "x", ["x"], next);
    assert Records(s.mode.objs, ["x"]) == [RunX(status)] && map["x" := pc]["x" := next] == map["x" := next];
  }

  lemma BeginX()
    ensures Enabled(OnlyX([RunX(Pending)], Pending, ["x"], SavedNew), Begin("x"))
    ensures Next(OnlyX([RunX(Pending)], Pending, ["x"], SavedNew), Begin("x"))
        == OnlyX([RunX(Pending)], Running, ["x"], Begun)
  {
    assert map["x" := RunX(Pending)]["x" := RunX(Running)] == map["x" := RunX(Running)];
    assert map["x" := SavedNew]["x" := Begun] == map["x" := Begun];
  }

  /** Run x is at work, and on disk as running. */
  lemma AtWork() returns (events: seq<Event>)
    ensures Trace(Fresh("1"), events, OnlyX([RunX(Running)], Running, ["x"], Working))
  {
    events := FirstBoot();
    CreateX();
    TraceSnoc(Fresh("1"), events, UpWith([], map[], [], map[], map[], {}), Create("x", OtherKind("exec"), None, 0));
    SaveX([], Pending, [], New, SavedNew);
    events := SavedTrace(
      Fresh("1"), events + [Create("x", OtherKind("exec"), None, 0)], OnlyX([], Pending, [], New), "x");
    BeginX();
    TraceSnoc(Fresh("1"), events, OnlyX([RunX(Pending)], Pending, ["x"], SavedNew), Begin("x"));
    SaveX([RunX(Pending)], Running, ["x"], Begun, Working);
    events := SavedTrace(Fresh("1"), events + [Begin("x")], OnlyX([RunX(Pending)], Running, ["x"], Begun), "x");
  }

  lemma SavedIs(s: System, id: RunId, order: seq<RunId>, pc: Pc)
    requires Enabled(s, Issue(id)) && id !in s.mode.writes && order == PutId(s.mode.order, id)
    requires s.mode.live[id] == (if pc == SavedNew then New else if pc == Working then Begun else Ended)
    ensures Saved(s, id) == s.(disk := Records(s.mode.objs, order),
              mode := s.mode.(order := order,
                              live := if pc in {SavedNew, Working} then s.mode.live[id := pc] else s.mode.live - {id}))
  {
    assert s.mode.writes[id := Gathered(order)][id := Sealed(Records(s.mode.objs, order))] - {id} == s.mode.writes;
    var live := s.mode.live[id := Awaiting(s.mode.live[id])];
    assert live - {id} == s.mode.live - {id} && live[id := pc] == s.mode.live[id := pc];
  }

  function NewY(): System {
    UpWith([RunX(Running)], map["x" := RunX(Running), "y" := RunY()], ["x"],
           map["x" := Working, "y" := New], map[], {"x", "y"})
  }

  function SavingY(): map<RunId, Pc> { map["x" := Working, "y" := SavingNew] }

  lemma CreateY()
    ensures var s, e := OnlyX([RunX(Running)], Running, ["x"], Working), Create("y", OtherKind("exec"), None, 1);
      Enabled(s, e) && Next(s, e) == NewY()
  {
    assert map["x" := RunX(Running)]["y" := RunY()] == NewY().mode.objs
      && map["x" := Working]["y" := New] == NewY().mode.live;
    assert {"x"} + {"y"} == {"x", "y"};
  }

  lemma IssueY()
    ensures Enabled(NewY(), Issue("y"))
    ensures Next(NewY(), Issue("y")) == WithY([RunX(Running)], Running, SavingY(), Gathered(["x", "y"]))
  {
    assert PutId(["x"], "y") == ["x", "y"] && NewY().mode.live["y" := SavingNew] == SavingY();
    assert map[]["y" := Gathered(["x", "y"])] == map["y" := Gathered(["x", "y"])];
  }

  lemma SealY()
    ensures var s := WithY([RunX(Running)], Running, SavingY(), Gathered(["x", "y"]));
      Enabled(s, Seal("y")) && Next(s, Seal("y")) == WithY([RunX(Running)], Running, SavingY(), LATE_WRITE)
  {
    assert Records(NewY().mode.objs, ["x", "y"]) == [RunX(Running), RunY()];
    assert map["y" := Gathered(["x", "y"])]["y" := LATE_WRITE] == map["y" := LATE_WRITE];
  }

  function DoneX(): System {
    WithY([RunX(Running)], Succeeded, map["x" := Ended, "y" := SavingNew], LATE_WRITE)
  }

  lemma SucceedX()
    ensures var s := WithY([RunX(Running)], Running, SavingY(), LATE_WRITE);
      Enabled(s, Succeed("x")) && Next(s, Succeed("x")) == DoneX()
  {
    assert NewY().mode.objs["x" := RunX(Succeeded)] == DoneX().mode.objs
      && SavingY()["x" := Ended] == DoneX().mode.live;
  }

  lemma SaveDoneX()
    ensures Enabled(DoneX(), Issue("x")) && Saved(DoneX(), "x") == Meanwhile()
  {
    SavedIs(DoneX(), "x", ["x", "y"], SavingEnded);
    assert Records(DoneX().mode.objs, ["x", "y"]) == [RunX(Succeeded), RunY()];
    assert DoneX().mode.live - {"x"} == map["y" := SavingNew];
  }

  /** Run y's first save is put into words while x is running; x succeeds and is saved. */
  lemma SavedMeanwhile() returns (events: seq<Event>)
    ensures Trace(Fresh("1"), events, Meanwhile())
  {
    events := AtWork();
    CreateY();
    TraceSnoc(Fresh("1"), events, OnlyX([RunX(Running)], Running, ["x"], Working),
              Create("y", OtherKind("exec"), None, 1));
    events := events + [Create("y", OtherKind("exec"), None, 1)];
    IssueY();
    TraceSnoc(Fresh("1"), events, NewY(), Issue("y"));
    SealY();
    TraceSnoc(Fresh("1"), events + [Issue("y")],
              WithY([RunX(Running)], Running, SavingY(), Gathered(["x", "y"])), Seal("y"));
    events := events + [Issue("y")] + [Seal("y")];
    SucceedX();
    TraceSnoc(Fresh("1"), events, WithY([RunX(Running)], Running, SavingY(), LATE_WRITE), Succeed("x"));
    SaveDoneX();
    events := SavedTrace(Fresh("1"), events + [Succeed("x")], DoneX(), "x");
  }

  /** So a run that is on disk as succeeded can come back as interrupted: y's older write lands
      over it, and the process dies before the next. */
  lemma SuccessTakenBack() returns (past: seq<Event>, t: System)
    ensures Trace(Fresh("1"), past, Meanwhile()) && RunX(Succeeded) in Meanwhile().disk
    ensures Trace(Meanwhile(), [Land("y"), Crash, TakeMarker("1"), Reap, PersistReaped], t)
    ensures t.disk[0] == RunX(Running).(status := Failed, error := Some(Interrupted))
  {
    past := SavedMeanwhile();
    assert Meanwhile().disk[0] == RunX(Succeeded);
    var s1 := Next(Meanwhile(), Land("y"));
    var s2 := Next(s1, Crash);
    t := Boot(s2, "1");
    BootSettles(s2, "1");
    BootTrace(s2, "1");
    assert [Land("y"), Crash, TakeMarker("1"), Reap, PersistReaped][1..]
      == [Crash, TakeMarker("1"), Reap, PersistReaped];
    assert [Crash, TakeMarker("1"), Reap, PersistReaped][1..] == [TakeMarker("1"), Reap, PersistReaped];
  }

  lemma BootTrace(s: System, version: Version)
    requires s.mode.Down?
    ensures Trace(s, [TakeMarker(version), Reap, PersistReaped], Boot(s, version))
  {
    OneStep(s, TakeMarker(version));
    TraceSnoc(s, [TakeMarker(version)], Next(s, TakeMarker(version)), Reap);
    TraceSnoc(s, [TakeMarker(version)] + [Reap], Next(Next(s, TakeMarker(version)), Reap), PersistReaped);
    assert [TakeMarker(version)] + [Reap] + [PersistReaped] == [TakeMarker(version), Reap, PersistReaped];
  }
}
