/** Task runs, their bounded store, and the self-update that outlives its process
    (apps/server/src/tasks/store.ts, apps/server/src/tasks/runner.ts,
    apps/server/src/server-install.ts:245-303, apps/server/src/config.ts:294-320). */
module Tasks {
  import opened Bytes

  type RunId = string
  type Version = string

  const MAX_RUNS: nat := 200
  const MAX_LOG_LINES: nat := 2000

  datatype Kind = UpdateControlPlane | OtherKind(name: string)
  datatype Status = Pending | Running | Succeeded | Failed
  datatype Outcome = Updated(version: Version) | Plain
  datatype Reason = Interrupted | WrongVersion(booted: Version, expected: Version) | Thrown(message: string)

  datatype TaskRun = TaskRun(id: RunId, kind: Kind, target: Option<string>, status: Status, result: Option<Outcome>,
                             error: Option<Reason>, createdAt: int)
  {
    predicate Terminal() { status == Succeeded || status == Failed }

    /** A result exactly when it succeeded, an error exactly when it failed. */
    predicate WellFormed() { (result.Some? <==> status == Succeeded) && (error.Some? <==> status == Failed) }
  }

  // ---- The store -----------------------------------------------------------------------

  predicate HasId(runs: seq<TaskRun>, id: RunId) { exists i :: 0 <= i < |runs| && runs[i].id == id }

  ghost predicate DistinctIds(runs: seq<TaskRun>) {
    forall i, j :: 0 <= i < j < |runs| ==> runs[i].id != runs[j].id
  }

  /** `map.set` on an existing key: the value changes, its position does not. */
  function Replace(runs: seq<TaskRun>, run: TaskRun): (r: seq<TaskRun>)
    ensures |r| == |runs|
    ensures forall i :: 0 <= i < |runs| ==> r[i] == if runs[i].id == run.id then run else runs[i]
  {
    seq(|runs|, i requires 0 <= i < |runs| => if runs[i].id == run.id then run else runs[i])
  }

  /** The newest MAX_RUNS by insertion. */
  function Pruned<T>(runs: seq<T>): seq<T> {
    if |runs| > MAX_RUNS then runs[|runs| - MAX_RUNS..] else runs
  }

  function PutRun(runs: seq<TaskRun>, run: TaskRun): seq<TaskRun> {
    Pruned(if HasId(runs, run.id) then Replace(runs, run) else runs + [run])
  }

  lemma ReplaceIs(runs: seq<TaskRun>, run: TaskRun)
    requires DistinctIds(runs) && HasId(runs, run.id)
    ensures DistinctIds(Replace(runs, run)) && run in Replace(runs, run)
    ensures forall r :: r in Replace(runs, run) && r != run ==> r in runs && r.id != run.id
    ensures forall r :: r in runs && r.id != run.id ==> r in Replace(runs, run)
  {
    var i :| 0 <= i < |runs| && runs[i].id == run.id;
    assert Replace(runs, run)[i] == run;
    forall r | r in runs && r.id != run.id ensures r in Replace(runs, run) {
      var k :| 0 <= k < |runs| && runs[k] == r;
      assert Replace(runs, run)[k] == r;
    }
  }

  /** Putting keeps ids distinct and the store bounded, stores the run, and loses at most
      the run inserted longest ago. */
  lemma PutIs(runs: seq<TaskRun>, run: TaskRun)
    requires DistinctIds(runs) && |runs| <= MAX_RUNS
    ensures DistinctIds(PutRun(runs, run)) && |PutRun(runs, run)| <= 200
    ensures run in PutRun(runs, run)
    ensures forall r :: r in PutRun(runs, run) && r != run ==> r in runs && r.id != run.id
    ensures forall i :: 0 < i < |runs| && runs[i].id != run.id ==> runs[i] in PutRun(runs, run)
    ensures HasId(runs, run.id) || |runs| < MAX_RUNS
      ==> forall r :: r in runs && r.id != run.id ==> r in PutRun(runs, run)
  {
    if HasId(runs, run.id) {
      ReplaceIs(runs, run);
    } else {
      var dropped := if |runs| < MAX_RUNS then 0 else 1;
      assert PutRun(runs, run) == runs[dropped..] + [run];
      forall k | dropped <= k < |runs| ensures runs[k] in PutRun(runs, run) {
        assert runs[dropped..][k - dropped] == runs[k];
      }
    }
  }

  datatype Marker = Marker(runId: RunId, version: Version, serial: nat)

  /** How the process that booted as `version` settles a run the previous one left behind:
      the resolver's verdict, or else "interrupted". */
  function Settle(run: TaskRun, pending: Option<Marker>, version: Version): TaskRun {
    if run.status != Pending && run.status != Running then run
    else if run.kind == UpdateControlPlane && pending.Some? && pending.value.runId == run.id then
      if pending.value.version != version then
        run.(status := Failed, error := Some(WrongVersion(version, pending.value.version)))
      else run.(status := Succeeded, result := Some(Updated(version)))
    else run.(status := Failed, error := Some(Interrupted))
  }

  function Reaped(runs: seq<TaskRun>, pending: Option<Marker>, version: Version): (r: seq<TaskRun>)
    ensures |r| == |runs|
    ensures forall i :: 0 <= i < |runs| ==> r[i] == Settle(runs[i], pending, version)
  {
    seq(|runs|, i requires 0 <= i < |runs| => Settle(runs[i], pending, version))
  }

  /** A settled run is terminal, says why, and succeeded only as the marker's own version. */
  lemma SettleIs(run: TaskRun, pending: Option<Marker>, version: Version)
    requires run.WellFormed()
    ensures var r := Settle(run, pending, version);
      && r.WellFormed() && r.Terminal() && r.id == run.id && r.kind == run.kind
      && (run.Terminal() ==> r == run)
      && (!run.Terminal() && r.status == Succeeded <==>
            !run.Terminal() && run.kind == UpdateControlPlane
            && pending.Some? && pending.value.runId == run.id && pending.value.version == version)
      && (!run.Terminal() && r.status == Succeeded ==> r.result == Some(Updated(version)))
      && (!run.Terminal() && r.status == Failed ==>
            r.error == Some(if run.kind == UpdateControlPlane && pending.Some? && pending.value.runId == run.id
                            then WrongVersion(version, pending.value.version) else Interrupted))
      && r.target == run.target && r.createdAt == run.createdAt
  {
  }

  class TaskStore {
    /** The insertion-ordered map of runs. */
    var runs: seq<TaskRun>
    /** The runs in the state file. */
    var file: seq<TaskRun>

    constructor (file: seq<TaskRun>)
      ensures runs == [] && this.file == file
    {
      runs, this.file := [], file;
    }

    method Init(pending: Option<Marker>, version: Version)
      modifies this
      ensures runs == Reaped(old(file), pending, version)
      ensures file == runs
    {
      runs := file;
      ReapOrphans(pending, version);
    }

    method ReapOrphans(pending: Option<Marker>, version: Version)
      requires runs == file
      modifies this
      ensures runs == Reaped(old(runs), pending, version) && file == runs
    {
      var reaped := 0;
      var i := 0;
      while i < |runs|
        invariant 0 <= i <= |runs| == |old(runs)| && file == old(file)
        invariant forall k :: 0 <= k < i ==> runs[k] == Settle(old(runs)[k], pending, version)
        invariant forall k :: i <= k < |runs| ==> runs[k] == old(runs)[k]
        invariant reaped == 0 ==> runs == old(runs)
      {
        var run := runs[i];
        if run.status == Pending || run.status == Running {
          var mine := run.kind == UpdateControlPlane && pending.Some? && run.id == pending.value.runId;
          if mine && pending.value.version == version {
            run := run.(status := Succeeded, result := Some(Updated(version)));
          } else {
            run := run.(status := Failed,
                        error := Some(if mine then WrongVersion(version, pending.value.version) else Interrupted));
          }
          runs := runs[i := run];
          reaped := reaped + 1;
        }
        i := i + 1;
      }
      if reaped > 0 {
        file := runs;
      }
    }

    /** `snapshot` is what the write this issues carries; when it lands is not the store's to say. */
    method Put(run: TaskRun) returns (snapshot: seq<TaskRun>)
      modifies this`runs
      ensures runs == PutRun(old(runs), run) && snapshot == runs
    {
      if HasId(runs, run.id) {
        runs := Replace(runs, run);
      } else {
        runs := runs + [run];
      }
      Prune();
      snapshot := runs;
    }

    method Prune()
      modifies this`runs
      ensures runs == Pruned(old(runs))
    {
      while |runs| > MAX_RUNS
        invariant |runs| <= |old(runs)| && runs == old(runs)[|old(runs)| - |runs|..]
        invariant |runs| >= MAX_RUNS || runs == old(runs)
      {
        runs := runs[1..];
      }
    }

    /** A target of its own is none at all: a run of the control plane itself. */
    method List(target: Option<Option<string>>, kind: Option<Kind>, limit: nat) returns (out: seq<TaskRun>)
      ensures out == FirstOf(Where(NewestFirst(runs), target, kind), limit)
    {
      out := NewestFirst(runs);
      WhereTwice(out, target, kind);
      if target.Some? {
        out := Where(out, target, None);
      }
      if kind.Some? {
        out := Where(out, None, kind);
      }
      if limit != 0 && limit < |out| {
        out := out[..limit];
      }
    }
  }

  // ---- Listing -------------------------------------------------------------------------

  /** Where the stable sort by descending `createdAt` puts a run that comes before all of `s`. */
  function InsertRun(run: TaskRun, s: seq<TaskRun>): seq<TaskRun> {
    if s == [] || run.createdAt >= s[0].createdAt then [run] + s else [s[0]] + InsertRun(run, s[1..])
  }

  function NewestFirst(runs: seq<TaskRun>): seq<TaskRun> {
    if runs == [] then [] else InsertRun(runs[0], NewestFirst(runs[1..]))
  }

  predicate Wanted(run: TaskRun, target: Option<Option<string>>, kind: Option<Kind>) {
    (target.Some? ==> run.target == target.value) && (kind.Some? ==> run.kind == kind.value)
  }

  function Where(runs: seq<TaskRun>, target: Option<Option<string>>, kind: Option<Kind>): seq<TaskRun> {
    if runs == [] then []
    else (if Wanted(runs[0], target, kind) then [runs[0]] else []) + Where(runs[1..], target, kind)
  }

  /** No limit, or a limit of zero, is no limit. */
  function FirstOf(runs: seq<TaskRun>, limit: nat): seq<TaskRun> {
    if limit != 0 && limit < |runs| then runs[..limit] else runs
  }

  lemma {:induction false} WhereTwice(runs: seq<TaskRun>, target: Option<Option<string>>, kind: Option<Kind>)
    ensures Where(runs, None, None) == runs
    ensures Where(Where(runs, target, None), None, kind) == Where(runs, target, kind)
  {
    if runs != [] {
      WhereTwice(runs[1..], target, kind);
      var rest := Where(runs[1..], target, None);
      assert ([runs[0]] + rest)[1..] == rest;
      assert runs == [runs[0]] + runs[1..] && [] + rest == rest;
    }
  }

  ghost predicate Sorted(s: seq<TaskRun>) { forall i, j :: 0 <= i < j < |s| ==> s[i].createdAt >= s[j].createdAt }

  lemma {:induction false} InsertMembers(run: TaskRun, s: seq<TaskRun>)
    ensures forall x :: x in InsertRun(run, s) ==> x == run || x in s
    ensures multiset(InsertRun(run, s)) == multiset(s) + multiset{run}
  {
    if s != [] && run.createdAt < s[0].createdAt {
      InsertMembers(run, s[1..]);
      assert s == [s[0]] + s[1..];
    }
  }

  lemma {:induction false} InsertIs(run: TaskRun, s: seq<TaskRun>)
    requires Sorted(s)
    ensures Sorted(InsertRun(run, s))
  {
    if s != [] && run.createdAt < s[0].createdAt {
      InsertIs(run, s[1..]);
      InsertMembers(run, s[1..]);
      var rest := InsertRun(run, s[1..]);
      forall i | 0 <= i < |rest| ensures rest[i].createdAt <= s[0].createdAt {
        assert rest[i] in rest;
      }
    }
  }

  lemma {:induction false} InsertStable(run: TaskRun, s: seq<TaskRun>, t: int)
    ensures AtTime(InsertRun(run, s), t) == AtTime([run], t) + AtTime(s, t)
  {
    if s == [] || run.createdAt >= s[0].createdAt {
      AtTimeAppend([run], s, t);
    } else {
      InsertStable(run, s[1..], t);
      AtTimeAppend([s[0]], InsertRun(run, s[1..]), t);
    }
  }

  /** The runs created at one instant, in order: what stability is about. */
  function AtTime(s: seq<TaskRun>, t: int): seq<TaskRun> {
    if s == [] then [] else (if s[0].createdAt == t then [s[0]] else []) + AtTime(s[1..], t)
  }

  lemma AtTimeCons(run: TaskRun, s: seq<TaskRun>, t: int)
    ensures AtTime([run] + s, t) == (if run.createdAt == t then [run] else []) + AtTime(s, t)
  {
    assert ([run] + s)[1..] == s;
  }

  lemma {:induction false} AtTimeAppend(a: seq<TaskRun>, b: seq<TaskRun>, t: int)
    ensures AtTime(a + b, t) == AtTime(a, t) + AtTime(b, t)
  {
    if a == [] {
      assert a + b == b;
    } else {
      AtTimeAppend(a[1..], b, t);
      assert a + b == [a[0]] + (a[1..] + b);
      AtTimeCons(a[0], a[1..] + b, t);
      AtTimeCons(a[0], a[1..], t);
      assert a == [a[0]] + a[1..];
    }
  }

  /** A listing is newest first, has every run once, and keeps ties in insertion order. */
  lemma {:induction false} NewestFirstIs(runs: seq<TaskRun>)
    ensures Sorted(NewestFirst(runs)) && multiset(NewestFirst(runs)) == multiset(runs)
    ensures forall t :: AtTime(NewestFirst(runs), t) == AtTime(runs, t)
  {
    if runs != [] {
      NewestFirstIs(runs[1..]);
      InsertIs(runs[0], NewestFirst(runs[1..]));
      InsertMembers(runs[0], NewestFirst(runs[1..]));
      assert runs == [runs[0]] + runs[1..];
      forall t ensures AtTime(NewestFirst(runs), t) == AtTime(runs, t) {
        InsertStable(runs[0], NewestFirst(runs[1..]), t);
        AtTimeAppend([runs[0]], runs[1..], t);
      }
    }
  }

  /** Filtering keeps every wanted run as often as it was there, and no other. */
  lemma {:induction false} WhereCounts(runs: seq<TaskRun>, target: Option<Option<string>>, kind: Option<Kind>,
                                       x: TaskRun)
    ensures multiset(Where(runs, target, kind))[x] == if Wanted(x, target, kind) then multiset(runs)[x] else 0
  {
    if runs != [] {
      WhereCounts(runs[1..], target, kind, x);
      CountCons(runs[0], runs[1..], x);
      assert runs == [runs[0]] + runs[1..];
      if Wanted(runs[0], target, kind) {
        CountCons(runs[0], Where(runs[1..], target, kind), x);
      } else {
        assert [] + Where(runs[1..], target, kind) == Where(runs[1..], target, kind);
      }
    }
  }

  lemma CountCons(run: TaskRun, rest: seq<TaskRun>, x: TaskRun)
    ensures multiset([run] + rest)[x] == multiset(rest)[x] + (if run == x then 1 else 0)
  {
  }

  lemma {:induction false} WhereWithin(runs: seq<TaskRun>, target: Option<Option<string>>, kind: Option<Kind>)
    ensures forall x :: x in Where(runs, target, kind) ==> x in runs
  {
    if runs != [] {
      WhereWithin(runs[1..], target, kind);
    }
  }

  /** And it keeps their order. */
  lemma {:induction false} WhereSorted(runs: seq<TaskRun>, target: Option<Option<string>>, kind: Option<Kind>)
    requires Sorted(runs)
    ensures Sorted(Where(runs, target, kind))
  {
    if runs != [] {
      WhereSorted(runs[1..], target, kind);
      WhereWithin(runs[1..], target, kind);
      var rest := Where(runs[1..], target, kind);
      forall i | 0 <= i < |rest| ensures rest[i].createdAt <= runs[0].createdAt {
        assert rest[i] in rest;
      }
    }
  }

  /** A listing: the runs asked for, every one as often as it is stored and newest first, those
      of one instant in the order they are stored in; cut short only by a limit that is not zero. */
  lemma ListingIs(runs: seq<TaskRun>, target: Option<Option<string>>, kind: Option<Kind>, limit: nat)
    ensures var found := Where(NewestFirst(runs), target, kind);
      var out := FirstOf(found, limit);
      && out <= found && |out| == (if limit == 0 || |found| < limit then |found| else limit)
      && Sorted(found)
      && (forall x :: multiset(found)[x]
            == if (target.Some? ==> x.target == target.value) && (kind.Some? ==> x.kind == kind.value)
               then multiset(runs)[x] else 0)
      && (forall t :: AtTime(found, t) == Where(AtTime(runs, t), target, kind))
  {
    NewestFirstIs(runs);
    var all := NewestFirst(runs);
    WhereSorted(all, target, kind);
    forall x ensures multiset(Where(all, target, kind))[x] == if Wanted(x, target, kind) then multiset(runs)[x] else 0 {
      WhereCounts(all, target, kind, x);
    }
    forall t ensures AtTime(Where(all, target, kind), t) == Where(AtTime(runs, t), target, kind) {
      AtTimeWhere(all, target, kind, t);
    }
  }

  lemma {:induction false} AtTimeWhere(runs: seq<TaskRun>, target: Option<Option<string>>, kind: Option<Kind>, t: int)
    ensures AtTime(Where(runs, target, kind), t) == Where(AtTime(runs, t), target, kind)
  {
    if runs != [] {
      AtTimeWhere(runs[1..], target, kind, t);
      var rest := Where(runs[1..], target, kind);
      if Wanted(runs[0], target, kind) {
        AtTimeCons(runs[0], rest, t);
      } else {
        assert [] + rest == rest;
      }
      if runs[0].createdAt == t {
        assert ([runs[0]] + AtTime(runs[1..], t))[1..] == AtTime(runs[1..], t);
      } else {
        assert [] + AtTime(runs[1..], t) == AtTime(runs[1..], t);
      }
    }
  }

  /** A run's log: the last MAX_LOG_LINES of everything logged. */
  class RunLog {
    var lines: seq<string>
    ghost var all: seq<string>

    ghost predicate Valid() reads this {
      lines == if |all| > MAX_LOG_LINES then all[|all| - MAX_LOG_LINES..] else all
    }

    constructor ()
      ensures Valid() && all == []
    {
      lines, all := [], [];
    }

    method Log(line: string)
      requires Valid()
      modifies this
      ensures Valid() && all == old(all) + [line]
    {
      lines := lines + [line];
      all := all + [line];
      if |lines| > MAX_LOG_LINES {
        lines := lines[|lines| - MAX_LOG_LINES..];
      }
    }
  }
}
