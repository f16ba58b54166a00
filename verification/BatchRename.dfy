/** Simultaneous renaming of a selection (apps/web/src/components/BatchRenameModal.tsx:126-204). */
module BatchRename {
  import opened Bytes

  type Name = string

  /** A planned row: the entry's current name and its new one. */
  datatype Row = Row(name: Name, to: Name)

  datatype Problem = EmptyName | HasSlash | Duplicate | AlreadyExists

  // ---- The plan ------------------------------------------------------------------------

  ghost predicate Shared(rows: seq<Row>, i: nat)
    requires i < |rows|
  {
    exists j :: 0 <= j < |rows| && j != i && rows[j].to == rows[i].to
  }

  ghost function ProblemOf(rows: seq<Row>, siblings: set<Name>, i: nat): Option<Problem>
    requires i < |rows|
  {
    var to := rows[i].to;
    if to == "" || to == "." || to == ".." then Some(EmptyName)
    else if '/' in to then Some(HasSlash)
    else if Shared(rows, i) then Some(Duplicate)
    else if to !in Names(rows) && to in siblings then Some(AlreadyExists)
    else None
  }

  function Names(rows: seq<Row>): set<Name> { set i | 0 <= i < |rows| :: rows[i].name }

  /** How many of the first `n` rows get this name. */
  function Count(rows: seq<Row>, n: nat, to: Name): nat
    requires n <= |rows|
  {
    if n == 0 then 0 else Count(rows, n - 1, to) + (if rows[n - 1].to == to then 1 else 0)
  }

  lemma {:induction false} CountTwice(rows: seq<Row>, n: nat, i: nat)
    requires i < n <= |rows|
    ensures Count(rows, n, rows[i].to) >= 1
    ensures Count(rows, n, rows[i].to) > 1 <==> exists j :: 0 <= j < n && j != i && rows[j].to == rows[i].to
  {
    if i < n - 1 {
      CountTwice(rows, n - 1, i);
    } else {
      CountNone(rows, n - 1, rows[i].to);
    }
  }

  lemma {:induction false} CountNone(rows: seq<Row>, n: nat, to: Name)
    requires n <= |rows|
    ensures Count(rows, n, to) > 0 <==> exists j :: 0 <= j < n && rows[j].to == to
  {
    if n > 0 {
      CountNone(rows, n - 1, to);
    }
  }

  /** The preview's check: count the targets, then give each row its first problem. */
  method Plan(rows: seq<Row>, siblings: set<Name>) returns (problems: seq<Option<Problem>>)
    ensures |problems| == |rows|
    ensures forall i :: 0 <= i < |rows| ==> problems[i] == ProblemOf(rows, siblings, i)
  {
    var sources := Names(rows);
    var targets: map<Name, nat> := map[];
    for i := 0 to |rows|
      invariant forall t :: (if t in targets then targets[t] else 0) == Count(rows, i, t)
    {
      var to := rows[i].to;
      targets := targets[to := (if to in targets then targets[to] else 0) + 1];
    }
    problems := [];
    for i := 0 to |rows|
      invariant |problems| == i
      invariant forall k :: 0 <= k < i ==> problems[k] == ProblemOf(rows, siblings, k)
    {
      var to := rows[i].to;
      CountTwice(rows, |rows|, i);
      assert (if to in targets then targets[to] else 0) == Count(rows, |rows|, to);
      var problem := None;
      if to == "" || to == "." || to == ".." {
        problem := Some(EmptyName);
      } else if '/' in to {
        problem := Some(HasSlash);
      } else if targets[to] > 1 {
        problem := Some(Duplicate);
      } else if to !in sources && to in siblings {
        problem := Some(AlreadyExists);
      }
      problems := problems + [problem];
    }
  }

  function Changing(rows: seq<Row>): seq<Row> {
    if rows == [] then []
    else (if rows[0].to != rows[0].name then [rows[0]] else []) + Changing(rows[1..])
  }

  ghost predicate DistinctNames(rows: seq<Row>) {
    forall i, j :: 0 <= i < j < |rows| ==> rows[i].name != rows[j].name
  }

  ghost predicate DistinctTargets(rows: seq<Row>) {
    forall i, j :: 0 <= i < j < |rows| ==> rows[i].to != rows[j].to
  }

  lemma {:induction false} ChangingIs(rows: seq<Row>)
    ensures forall r :: r in Changing(rows) <==> r in rows && r.to != r.name
  {
    if rows != [] {
      ChangingIs(rows[1..]);
      assert rows == [rows[0]] + rows[1..];
    }
  }

  lemma {:induction false} ChangingDistinct(rows: seq<Row>)
    requires DistinctNames(rows) && DistinctTargets(rows)
    ensures DistinctNames(Changing(rows)) && DistinctTargets(Changing(rows))
  {
    if rows != [] {
      ChangingDistinct(rows[1..]);
      ChangingIs(rows[1..]);
      var rest := Changing(rows[1..]);
      forall k | 0 <= k < |rest| ensures rest[k].name != rows[0].name && rest[k].to != rows[0].to {
        assert rest[k] in rest;
        var m :| 0 <= m < |rows[1..]| && rows[1..][m] == rest[k];
        assert rows[m + 1] == rest[k];
      }
    }
  }

  /** A listing that is up to date and a plan without problems. */
  ghost predicate ProblemFree<C>(d: map<Name, C>, rows: seq<Row>) {
    && DistinctNames(rows) && Names(rows) <= d.Keys
    && forall i :: 0 <= i < |rows| ==> ProblemOf(rows, d.Keys, i) == None
  }

  /** What that buys the batch: targets are distinct, and one that is taken is the current
      name of a row that is itself about to move. */
  ghost predicate Movable<C>(d: map<Name, C>, rows: seq<Row>) {
    && DistinctNames(rows) && DistinctTargets(rows)
    && (forall i :: 0 <= i < |rows| ==> rows[i].name in d && rows[i].to != rows[i].name)
    && (forall i :: 0 <= i < |rows| ==> TargetGetsFree(d, rows, i))
  }

  ghost predicate TargetGetsFree<C>(d: map<Name, C>, rows: seq<Row>, i: nat)
    requires i < |rows|
  {
    rows[i].to in d ==> rows[i].to in Names(rows)
  }

  /** A name an entry of a folder can have. */
  predicate Plain(name: Name) { name != "" && name != "." && name != ".." && '/' !in name }

  /** The preview has nothing against a plan exactly when its targets are plain names, no two
      the same, each of them free or given up by a row of the plan. */
  lemma ProblemFreeIff<C>(d: map<Name, C>, rows: seq<Row>)
    requires DistinctNames(rows) && Names(rows) <= d.Keys
    ensures ProblemFree(d, rows) <==>
              && (forall i :: 0 <= i < |rows| ==> Plain(rows[i].to))
              && DistinctTargets(rows)
              && (forall i :: 0 <= i < |rows| ==> TargetGetsFree(d, rows, i))
  {
    if ProblemFree(d, rows) {
      forall i | 0 <= i < |rows| ensures Plain(rows[i].to) && !Shared(rows, i) && TargetGetsFree(d, rows, i) {
        assert ProblemOf(rows, d.Keys, i) == None;
      }
      forall i, j | 0 <= i < j < |rows| ensures rows[i].to != rows[j].to {
        assert !Shared(rows, i);
      }
    } else {
      var i :| 0 <= i < |rows| && ProblemOf(rows, d.Keys, i) != None;
      assert TargetGetsFree(d, rows, i) ==> ProblemOf(rows, d.Keys, i) != Some(AlreadyExists);
    }
  }

  /** The first thing wrong with a row is what its preview says. */
  lemma ProblemTells(rows: seq<Row>, siblings: set<Name>, i: nat)
    requires i < |rows|
    ensures var to, problem := rows[i].to, ProblemOf(rows, siblings, i);
      && (problem == Some(EmptyName) <==> to in {"", ".", ".."})
      && (problem == Some(HasSlash) <==> '/' in to)
      && (Plain(to) ==> (problem == Some(Duplicate) <==> exists j :: 0 <= j < |rows| && j != i && rows[j].to == to))
      && (problem == Some(AlreadyExists)
          ==> to in siblings && forall j :: 0 <= j < |rows| ==> rows[j].name != to && (j != i ==> rows[j].to != to))
  {
  }

  lemma PlanIsMovable<C>(d: map<Name, C>, rows: seq<Row>)
    requires ProblemFree(d, rows)
    ensures Movable(d, Changing(rows))
  {
    var moving := Changing(rows);
    ChangingIs(rows);
    forall i, j | 0 <= i < j < |rows| ensures rows[i].to != rows[j].to {
      assert ProblemOf(rows, d.Keys, i) == None && !Shared(rows, i);
    }
    ChangingDistinct(rows);
    forall i | 0 <= i < |moving|
      ensures moving[i].name in d && moving[i].to != moving[i].name
      ensures TargetGetsFree(d, moving, i)
    {
      assert moving[i] in moving;
      var k :| 0 <= k < |rows| && rows[k] == moving[i];
      assert rows[k].name in Names(rows);
      assert ProblemOf(rows, d.Keys, k) == None;
      if moving[i].to in d {
        var m :| 0 <= m < |rows| && rows[m].name == moving[i].to;
        assert m != k && rows[m].to != rows[k].to;
        assert rows[m] in moving;
        var n :| 0 <= n < |moving| && moving[n] == rows[m];
      }
    }
  }

  // ---- The two phases ------------------------------------------------------------------

  /** What becomes of one rename: the host carries it out and says so; nothing happens; or the
      host carries it out and the browser, whose reply is lost, takes it for failed. */
  datatype Trip = Carried | Refused | Unheard {
    predicate Lands() { !Refused? }
  }

  /** The folder on the host; a rename replaces what is in the way, or changes nothing. */
  class Folder<C> {
    var files: map<Name, C>

    constructor (files: map<Name, C>)
      ensures this.files == files
    {
      this.files := files;
    }

    /** `done` is what the browser hears. */
    method Rename(from: Name, to: Name, trip: Trip) returns (done: bool)
      modifies this
      ensures done == (trip.Carried? && from in old(files)) && files == TryMove(old(files), from, to, trip.Lands())
    {
      if trip.Refused? || from !in files {
        return false;
      }
      var content := files[from];
      files := (files - {from})[to := content];
      return trip.Carried?;
    }
  }

  function Moved<C>(files: map<Name, C>, from: Name, to: Name): map<Name, C>
    requires from in files
  {
    (files - {from})[to := files[from]]
  }

  function TryMove<C>(files: map<Name, C>, from: Name, to: Name, ok: bool): map<Name, C> {
    if ok && from in files then Moved(files, from, to) else files
  }

  /** What can go wrong: what becomes of each parking and of each final rename. */
  datatype Luck = Luck(park: nat -> Trip, move: nat -> Trip)

  /** A line of the error message: a row, and the name it says its file is left under. */
  datatype Failure = Failure(name: Name, leftAs: Name)

  /** A batch in flight: the moving rows, whether they take the detour, and its names. */
  datatype Batch = Batch(rows: seq<Row>, staged: bool, temp: nat -> Name) {
    function At(i: nat): Name
      requires i < |rows|
    {
      if staged then temp(i) else rows[i].name
    }

    ghost predicate Valid<C>(d: map<Name, C>) {
      && Movable(d, rows)
      && (!staged ==> forall i :: 0 <= i < |rows| ==> rows[i].to !in Names(rows))
      && (staged ==> FreshTemps(d))
    }

    ghost predicate FreshTemps<C>(d: map<Name, C>) {
      && (forall i, j :: 0 <= i < j < |rows| ==> temp(i) != temp(j))
      && (forall i :: 0 <= i < |rows| ==> temp(i) !in d)
      && (forall i, j :: 0 <= i < |rows| && 0 <= j < |rows| ==> temp(i) != rows[j].to)
    }

    /** Row `i` gets as far as phase two: the browser knows it to be parked. */
    predicate Parked(luck: Luck, i: nat) { staged ==> luck.park(i).Carried? }

    /** Row `i` is out of the way once phase one is over, known or not. */
    predicate Cleared(luck: Luck, i: nat) { staged ==> luck.park(i).Lands() }

    /** Row `i` gets its new name. */
    predicate Moves(luck: Luck, i: nat) { Parked(luck, i) && luck.move(i).Lands() }

    /** A row that never left its name is renamed over by one of the first `n` rows. */
    ghost predicate Overwritten(luck: Luck, n: nat, i: nat)
      requires i < |rows| && n <= |rows|
    {
      !Cleared(luck, i) && exists j :: 0 <= j < n && Moves(luck, j) && rows[j].to == rows[i].name
    }

    /** Where row `i` is once phase one has got through `p` rows and phase two through
        `n`; None when it is gone. */
    ghost function Place(luck: Luck, p: nat, n: nat, i: nat): Option<Name>
      requires i < |rows| && n <= |rows|
    {
      if i >= p then Some(rows[i].name)
      else if !Cleared(luck, i) then (if Overwritten(luck, n, i) then None else Some(rows[i].name))
      else if i < n && Moves(luck, i) then Some(rows[i].to)
      else Some(At(i))
    }

    /** Where the browser has row `i` in the end: under its new name if it is listed as renamed,
        and else where the error message leaves it. */
    function Told(luck: Luck, i: nat): Name
      requires i < |rows|
    {
      if !Parked(luck, i) then rows[i].name else if luck.move(i).Carried? then rows[i].to else At(i)
    }

    /** A rename of row `i` is carried out behind the browser's back. */
    predicate GoesUnheard(luck: Luck, i: nat) {
      (staged && luck.park(i).Unheard?) || (Parked(luck, i) && luck.move(i).Unheard?)
    }
  }

  /** The folder holds row `i`'s file at `place[i]`, everything else untouched, and nothing more. */
  ghost predicate Layout<C>(d: map<Name, C>, rows: seq<Row>, place: seq<Option<Name>>, files: map<Name, C>)
    requires |place| == |rows|
  {
    && (forall i :: 0 <= i < |rows| ==> RowAt(d, rows, place, files, i))
    && (forall i, j :: 0 <= i < j < |rows| ==> Apart(place, i, j))
    && (forall x :: NameIs(d, rows, place, files, x))
  }

  ghost predicate RowAt<C>(d: map<Name, C>, rows: seq<Row>, place: seq<Option<Name>>, files: map<Name, C>, i: nat)
    requires i < |place| == |rows|
  {
    && rows[i].name in d
    && (place[i].Some? ==>
          place[i].value in files && files[place[i].value] == d[rows[i].name] && !Bystander(d, rows, place[i].value))
  }

  predicate Apart(place: seq<Option<Name>>, i: nat, j: nat)
    requires i < |place| && j < |place|
  {
    place[i].Some? ==> place[i] != place[j]
  }

  ghost predicate NameIs<C>(d: map<Name, C>, rows: seq<Row>, place: seq<Option<Name>>, files: map<Name, C>, x: Name) {
    && (Bystander(d, rows, x) ==> x in files && files[x] == d[x])
    && (x in files ==> Bystander(d, rows, x) || Some(x) in place)
  }

  ghost predicate Bystander<C>(d: map<Name, C>, rows: seq<Row>, x: Name) { x in d && x !in Names(rows) }

  ghost function Places(b: Batch, luck: Luck, p: nat, n: nat): (r: seq<Option<Name>>)
    requires n <= |b.rows|
    ensures |r| == |b.rows|
  {
    seq(|b.rows|, i requires 0 <= i < |b.rows| => b.Place(luck, p, n, i))
  }

  /** A layout says everything about the folder. */
  lemma LayoutIsExact<C>(d: map<Name, C>, rows: seq<Row>, place: seq<Option<Name>>, f: map<Name, C>, g: map<Name, C>)
    requires |place| == |rows| && Layout(d, rows, place, f) && Layout(d, rows, place, g)
    ensures f == g
  {
    forall x ensures (x in f <==> x in g) && (x in f ==> f[x] == g[x]) {
      assert NameIs(d, rows, place, f, x) && NameIs(d, rows, place, g, x);
      if (x in f || x in g) && !Bystander(d, rows, x) {
        var i :| 0 <= i < |place| && place[i] == Some(x);
        assert RowAt(d, rows, place, f, i) && RowAt(d, rows, place, g, i);
      }
    }
  }

  /** One rename moves one row, and ends whichever row was in its way. */
  lemma MoveRow<C>(d: map<Name, C>, rows: seq<Row>, place: seq<Option<Name>>, files: map<Name, C>,
                   j: nat, to: Name, place': seq<Option<Name>>)
    requires |place| == |rows| == |place'| && Layout(d, rows, place, files)
    requires j < |rows| && place[j].Some? && to != place[j].value && !Bystander(d, rows, to)
    requires place'[j] == Some(to)
    requires forall i :: 0 <= i < |rows| && i != j ==> place'[i] == if place[i] == Some(to) then None else place[i]
    ensures place[j].value in files && Layout(d, rows, place', Moved(files, place[j].value, to))
  {
    assert RowAt(d, rows, place, files, j);
    var files' := Moved(files, place[j].value, to);
    forall i | 0 <= i < |rows| ensures RowAt(d, rows, place', files', i) {
      assert RowAt(d, rows, place, files, i);
      assert i < j ==> Apart(place, i, j);
      assert j < i ==> Apart(place, j, i);
    }
    forall i, k | 0 <= i < k < |rows| ensures Apart(place', i, k) {
      assert Apart(place, i, k);
    }
    forall x ensures NameIs(d, rows, place', files', x) {
      assert NameIs(d, rows, place, files, x);
      if x == to {
        assert place'[j] == Some(x);
      } else if x in files && !Bystander(d, rows, x) {
        var i :| 0 <= i < |place| && place[i] == Some(x);
        assert place'[i] == Some(x) || i == j;
      }
    }
  }

  lemma ParkPlace<C>(d: map<Name, C>, b: Batch, luck: Luck, k: nat, i: nat)
    requires b.Valid(d) && b.staged && k < |b.rows| && i < |b.rows| && i != k
    ensures b.Place(luck, k + 1, 0, i) == b.Place(luck, k, 0, i) != Some(b.temp(k))
  {
    assert b.rows[i].name in d && b.temp(k) !in d && b.temp(i) != b.temp(k);
  }

  lemma ParkStep<C>(d: map<Name, C>, b: Batch, luck: Luck, k: nat, files: map<Name, C>)
    requires b.Valid(d) && b.staged && k < |b.rows| && Layout(d, b.rows, Places(b, luck, k, 0), files)
    ensures b.rows[k].name in files
    ensures var files' := TryMove(files, b.rows[k].name, b.temp(k), luck.park(k).Lands());
      Layout(d, b.rows, Places(b, luck, k + 1, 0), files')
  {
    var place, place' := Places(b, luck, k, 0), Places(b, luck, k + 1, 0);
    forall i | 0 <= i < |b.rows| && i != k ensures place'[i] == place[i] != Some(b.temp(k)) {
      ParkPlace(d, b, luck, k, i);
    }
    var name := b.rows[k].name;
    assert place[k] == Some(name) && b.temp(k) !in d && name in d;
    assert RowAt(d, b.rows, place, files, k);
    if luck.park(k).Lands() {
      MoveRow(d, b.rows, place, files, k, b.temp(k), place');
    } else {
      assert place' == place;
    }
  }

  lemma FinalPlace<C>(d: map<Name, C>, b: Batch, luck: Luck, k: nat, i: nat)
    requires b.Valid(d) && k < |b.rows| && i < |b.rows| && i != k && b.Parked(luck, k)
    ensures b.Place(luck, |b.rows|, k + 1, i)
         == if luck.move(k).Lands() && b.Place(luck, |b.rows|, k, i) == Some(b.rows[k].to) then None
            else b.Place(luck, |b.rows|, k, i)
  {
    var n, to, name := |b.rows|, b.rows[k].to, b.rows[i].name;
    assert b.rows[i].to != to;
    if !b.Cleared(luck, i) {
      assert b.Overwritten(luck, k + 1, i) <==> b.Overwritten(luck, k, i) || (luck.move(k).Lands() && to == name);
    } else if b.staged {
      assert b.temp(i) != to;
    } else {
      assert name in Names(b.rows);
    }
  }

  lemma FinalStep<C>(d: map<Name, C>, b: Batch, luck: Luck, k: nat, files: map<Name, C>)
    requires b.Valid(d) && k < |b.rows| && b.Parked(luck, k)
    requires Layout(d, b.rows, Places(b, luck, |b.rows|, k), files)
    ensures b.At(k) in files
    ensures var files' := TryMove(files, b.At(k), b.rows[k].to, luck.move(k).Lands());
      Layout(d, b.rows, Places(b, luck, |b.rows|, k + 1), files')
  {
    var place, place' := Places(b, luck, |b.rows|, k), Places(b, luck, |b.rows|, k + 1);
    var to := b.rows[k].to;
    forall i | 0 <= i < |b.rows| && i != k
      ensures place'[i] == if luck.move(k).Lands() && place[i] == Some(to) then None else place[i]
    {
      FinalPlace(d, b, luck, k, i);
    }
    assert place[k] == Some(b.At(k)) && RowAt(d, b.rows, place, files, k);
    assert b.At(k) != to && TargetGetsFree(d, b.rows, k);
    if luck.move(k).Lands() {
      MoveRow(d, b.rows, place, files, k, to, place');
    } else {
      assert place' == place;
    }
  }

  lemma StartLayout<C>(d: map<Name, C>, b: Batch, luck: Luck)
    requires b.Valid(d)
    ensures Layout(d, b.rows, Places(b, luck, 0, 0), d)
    ensures !b.staged ==> Layout(d, b.rows, Places(b, luck, |b.rows|, 0), d)
  {
    var place := Places(b, luck, 0, 0);
    forall i | 0 <= i < |b.rows| ensures RowAt(d, b.rows, place, d, i) {
      assert b.rows[i].name in Names(b.rows);
    }
    forall x ensures NameIs(d, b.rows, place, d, x) {
      if x in Names(b.rows) {
        var i :| 0 <= i < |b.rows| && b.rows[i].name == x;
        assert place[i] == Some(x);
      }
    }
    if !b.staged {
      assert Places(b, luck, |b.rows|, 0) == place;
    }
  }

  // ---- The run -------------------------------------------------------------------------

  function BatchOf(plan: seq<Row>, temp: nat -> Name): Batch {
    var rows := Changing(plan);
    Batch(rows, exists i :: 0 <= i < |rows| && rows[i].to in Names(plan), temp)
  }

  lemma BatchIsValid<C>(d: map<Name, C>, plan: seq<Row>, temp: nat -> Name)
    requires ProblemFree(d, plan) && BatchOf(plan, temp).FreshTemps(d)
    ensures BatchOf(plan, temp).Valid(d)
  {
    PlanIsMovable(d, plan);
    ChangingIs(plan);
    var rows := Changing(plan);
    forall i | 0 <= i < |rows| ensures rows[i].name in Names(plan) {
      assert rows[i] in rows;
    }
  }

  function FailedParking(b: Batch, luck: Luck, p: nat): seq<Failure>
    requires p <= |b.rows|
  {
    if p == 0 then []
    else FailedParking(b, luck, p - 1) + (if b.Parked(luck, p - 1) then [] else [InPlace(b.rows[p - 1])])
  }

  /** The message for a row that did not park names no other place. */
  function InPlace(row: Row): Failure { Failure(row.name, row.name) }

  function Renamed(b: Batch, luck: Luck, n: nat): seq<Row>
    requires n <= |b.rows|
  {
    if n == 0 then []
    else
      Renamed(b, luck, n - 1) + (if b.Parked(luck, n - 1) && luck.move(n - 1).Carried? then [b.rows[n - 1]] else [])
  }

  function FailedMoving(b: Batch, luck: Luck, n: nat): seq<Failure>
    requires n <= |b.rows|
  {
    if n == 0 then []
    else FailedMoving(b, luck, n - 1)
         + (if b.Parked(luck, n - 1) && !luck.move(n - 1).Carried? then [Failure(b.rows[n - 1].name, b.At(n - 1))]
            else [])
  }

  /** The pending list: the parked rows and where each of them is. */
  function Pending(b: Batch, luck: Luck, p: nat): seq<(nat, Name)>
    requires p <= |b.rows|
  {
    if p == 0 then [] else Pending(b, luck, p - 1) + (if b.Parked(luck, p - 1) then [(p - 1, b.At(p - 1))] else [])
  }

  /** What phase one has done after `p` rows: the folder, what is parked where, what failed. */
  datatype Parking<C> = Parking(files: map<Name, C>, pending: seq<(nat, Name)>, failed: seq<Failure>)

  function ParkRun<C>(files: map<Name, C>, rows: seq<Row>, temp: nat -> Name, luck: Luck, p: nat): Parking<C>
    requires p <= |rows|
  {
    if p == 0 then Parking(files, [], [])
    else
      var r, i := ParkRun(files, rows, temp, luck, p - 1), p - 1;
      var files' := TryMove(r.files, rows[i].name, temp(i), luck.park(i).Lands());
      if luck.park(i).Carried? && rows[i].name in r.files then
        Parking(files', r.pending + [(i, temp(i))], r.failed)
      else Parking(files', r.pending, r.failed + [InPlace(rows[i])])
  }

  datatype Outcome<C> = Outcome(files: map<Name, C>, renamed: seq<Row>, failed: seq<Failure>)

  /** What phase two has done once these pending rows are dealt with. */
  function FinishRun<C>(files: map<Name, C>, rows: seq<Row>, pending: seq<(nat, Name)>, luck: Luck): Outcome<C>
    requires forall k :: 0 <= k < |pending| ==> pending[k].0 < |rows|
  {
    if pending == [] then Outcome(files, [], [])
    else
      var last := |pending| - 1;
      FinishOne(FinishRun(files, rows, pending[..last], luck), rows, pending[last].0, pending[last].1, luck)
  }

  function FinishOne<C>(r: Outcome<C>, rows: seq<Row>, i: nat, at: Name, luck: Luck): Outcome<C>
    requires i < |rows|
  {
    var files' := TryMove(r.files, at, rows[i].to, luck.move(i).Lands());
    if luck.move(i).Carried? && at in r.files then Outcome(files', r.renamed + [rows[i]], r.failed)
    else Outcome(files', r.renamed, r.failed + [Failure(rows[i].name, at)])
  }

  /** Phase one: move every row out of the way; one that fails is dropped. */
  method Park<C>(folder: Folder<C>, changing: seq<Row>, temp: nat -> Name, luck: Luck)
    returns (parked: seq<(nat, Name)>, failed: seq<Failure>)
    modifies folder
    ensures Parking(folder.files, parked, failed) == ParkRun(old(folder.files), changing, temp, luck, |changing|)
  {
    parked, failed := [], [];
    for i := 0 to |changing|
      invariant Parking(folder.files, parked, failed) == ParkRun(old(folder.files), changing, temp, luck, i)
    {
      var at := temp(i);
      var done := folder.Rename(changing[i].name, at, luck.park(i));
      if done {
        parked := parked + [(i, at)];
      } else {
        failed := failed + [InPlace(changing[i])];
      }
    }
  }

  /** Phase two: every pending row to its final name. */
  method Finish<C>(folder: Folder<C>, changing: seq<Row>, pending: seq<(nat, Name)>, luck: Luck)
    returns (renamed: seq<Row>, failed: seq<Failure>)
    requires forall k :: 0 <= k < |pending| ==> pending[k].0 < |changing|
    modifies folder
    ensures Outcome(folder.files, renamed, failed) == FinishRun(old(folder.files), changing, pending, luck)
  {
    renamed, failed := [], [];
    for q := 0 to |pending|
      invariant Outcome(folder.files, renamed, failed) == FinishRun(old(folder.files), changing, pending[..q], luck)
    {
      assert pending[..q + 1][..q] == pending[..q];
      var (i, at) := pending[q];
      var done := folder.Rename(at, changing[i].to, luck.move(i));
      if done {
        renamed := renamed + [changing[i]];
      } else {
        failed := failed + [Failure(changing[i].name, at)];
      }
    }
    assert pending[..|pending|] == pending;
  }

  lemma {:induction false} ParkRunIs<C>(d: map<Name, C>, b: Batch, luck: Luck, p: nat)
    requires b.Valid(d) && b.staged && p <= |b.rows|
    ensures var r := ParkRun(d, b.rows, b.temp, luck, p);
      Layout(d, b.rows, Places(b, luck, p, 0), r.files)
      && r.pending == Pending(b, luck, p) && r.failed == FailedParking(b, luck, p)
  {
    if p == 0 {
      StartLayout(d, b, luck);
    } else {
      ParkRunIs(d, b, luck, p - 1);
      ParkRowIs(d, b, luck, p - 1);
    }
  }

  lemma ParkRowIs<C>(d: map<Name, C>, b: Batch, luck: Luck, k: nat)
    requires b.Valid(d) && b.staged && k < |b.rows|
    requires Layout(d, b.rows, Places(b, luck, k, 0), ParkRun(d, b.rows, b.temp, luck, k).files)
    ensures var r, r' := ParkRun(d, b.rows, b.temp, luck, k), ParkRun(d, b.rows, b.temp, luck, k + 1);
      && Layout(d, b.rows, Places(b, luck, k + 1, 0), r'.files)
      && r'.pending == r.pending + (if b.Parked(luck, k) then [(k, b.At(k))] else [])
      && r'.failed == r.failed + (if b.Parked(luck, k) then [] else [InPlace(b.rows[k])])
  {
    ParkStep(d, b, luck, k, ParkRun(d, b.rows, b.temp, luck, k).files);
  }

  lemma {:induction false} PendingInRange(b: Batch, luck: Luck, p: nat)
    requires p <= |b.rows|
    ensures forall k :: 0 <= k < |Pending(b, luck, p)| ==> Pending(b, luck, p)[k].0 < |b.rows|
  {
    if p > 0 {
      PendingInRange(b, luck, p - 1);
    }
  }

  /** Phase two up to row `n`, seen row by row rather than along the pending list. */
  function FinishRows<C>(start: map<Name, C>, b: Batch, luck: Luck, n: nat): Outcome<C>
    requires n <= |b.rows|
  {
    if n == 0 then Outcome(start, [], [])
    else if b.Parked(luck, n - 1) then FinishOne(FinishRows(start, b, luck, n - 1), b.rows, n - 1, b.At(n - 1), luck)
    else FinishRows(start, b, luck, n - 1)
  }

  lemma {:induction false} FinishRunByRows<C>(start: map<Name, C>, b: Batch, luck: Luck, n: nat)
    requires n <= |b.rows|
    ensures forall k :: 0 <= k < |Pending(b, luck, n)| ==> Pending(b, luck, n)[k].0 < |b.rows|
    ensures FinishRun(start, b.rows, Pending(b, luck, n), luck) == FinishRows(start, b, luck, n)
  {
    PendingInRange(b, luck, n);
    if n > 0 {
      FinishRunByRows(start, b, luck, n - 1);
      if b.Parked(luck, n - 1) {
        FinishRunSnoc(start, b.rows, Pending(b, luck, n - 1), n - 1, b.At(n - 1), luck);
      } else {
        assert Pending(b, luck, n) == Pending(b, luck, n - 1);
      }
    }
  }

  lemma FinishRunSnoc<C>(start: map<Name, C>, rows: seq<Row>, list: seq<(nat, Name)>, i: nat, at: Name, luck: Luck)
    requires i < |rows| && forall k :: 0 <= k < |list| ==> list[k].0 < |rows|
    ensures FinishRun(start, rows, list + [(i, at)], luck)
         == FinishOne(FinishRun(start, rows, list, luck), rows, i, at, luck)
  {
    assert (list + [(i, at)])[..|list|] == list;
  }

  lemma FinishOneIs<C>(d: map<Name, C>, b: Batch, luck: Luck, k: nat, r: Outcome<C>)
    requires b.Valid(d) && k < |b.rows| && b.Parked(luck, k)
    requires Layout(d, b.rows, Places(b, luck, |b.rows|, k), r.files)
    ensures var r' := FinishOne(r, b.rows, k, b.At(k), luck);
      Layout(d, b.rows, Places(b, luck, |b.rows|, k + 1), r'.files)
      && r'.renamed == r.renamed + (if luck.move(k).Carried? then [b.rows[k]] else [])
      && r'.failed == r.failed + (if luck.move(k).Carried? then [] else [Failure(b.rows[k].name, b.At(k))])
  {
    FinalStep(d, b, luck, k, r.files);
  }

  lemma {:induction false} FinishRowsIs<C>(d: map<Name, C>, start: map<Name, C>, b: Batch, luck: Luck, n: nat)
    requires b.Valid(d) && n <= |b.rows| && Layout(d, b.rows, Places(b, luck, |b.rows|, 0), start)
    ensures var r := FinishRows(start, b, luck, n);
      Layout(d, b.rows, Places(b, luck, |b.rows|, n), r.files)
      && r.renamed == Renamed(b, luck, n) && r.failed == FailedMoving(b, luck, n)
  {
    if n > 0 {
      FinishRowsIs(d, start, b, luck, n - 1);
      FinishRowIs(d, start, b, luck, n - 1);
    }
  }

  lemma FinishRowIs<C>(d: map<Name, C>, start: map<Name, C>, b: Batch, luck: Luck, k: nat)
    requires b.Valid(d) && k < |b.rows|
    requires Layout(d, b.rows, Places(b, luck, |b.rows|, k), FinishRows(start, b, luck, k).files)
    ensures var r, r' := FinishRows(start, b, luck, k), FinishRows(start, b, luck, k + 1);
      && Layout(d, b.rows, Places(b, luck, |b.rows|, k + 1), r'.files)
      && r'.renamed == r.renamed + (if b.Parked(luck, k) && luck.move(k).Carried? then [b.rows[k]] else [])
      && r'.failed == r.failed + (if b.Parked(luck, k) && !luck.move(k).Carried?
                                    then [Failure(b.rows[k].name, b.At(k))] else [])
  {
    if b.Parked(luck, k) {
      FinishOneIs(d, b, luck, k, FinishRows(start, b, luck, k));
    } else {
      SkipStep(b, luck, k);
    }
  }

  lemma SkipStep(b: Batch, luck: Luck, k: nat)
    requires k < |b.rows| && !b.Parked(luck, k)
    ensures Places(b, luck, |b.rows|, k + 1) == Places(b, luck, |b.rows|, k)
  {
  }

  /** The executed batch. Its effect on the folder, and what it reports, is exact whatever
      fails: each row's file is where `Place` says. */
  method Rename<C>(folder: Folder<C>, plan: seq<Row>, temp: nat -> Name, luck: Luck)
    returns (renamed: seq<Row>, failed: seq<Failure>)
    requires ProblemFree(folder.files, plan) && BatchOf(plan, temp).FreshTemps(folder.files)
    modifies folder
    ensures var b := BatchOf(plan, temp);
      && Layout(old(folder.files), b.rows, Places(b, luck, |b.rows|, |b.rows|), folder.files)
      && renamed == Renamed(b, luck, |b.rows|)
      && failed == FailedParking(b, luck, |b.rows|) + FailedMoving(b, luck, |b.rows|)
      && folder.files == FolderAfter(old(folder.files), b, luck)
  {
    ghost var d, b := folder.files, BatchOf(plan, temp);
    BatchIsValid(d, plan, temp);
    PendingInRange(b, luck, |b.rows|);
    var sources := Names(plan);
    var changing := Changing(plan);
    var staged := exists i :: 0 <= i < |changing| && changing[i].to in sources;
    var notParked: seq<Failure> := [];
    var pending: seq<(nat, Name)> := seq(|changing|, i requires 0 <= i < |changing| => (i, changing[i].name));
    if staged {
      ParkRunIs(d, b, luck, |b.rows|);
      pending, notParked := Park(folder, changing, temp, luck);
    } else {
      StartLayout(d, b, luck);
      AllParked(b, luck, |changing|);
    }
    assert pending == Pending(b, luck, |b.rows|);
    FinishRunByRows(folder.files, b, luck, |b.rows|);
    FinishRowsIs(d, folder.files, b, luck, |b.rows|);
    renamed, failed := Finish(folder, changing, pending, luck);
    failed := notParked + failed;
  }

  lemma {:induction false} AllParked(b: Batch, luck: Luck, p: nat)
    requires !b.staged && p <= |b.rows|
    ensures Pending(b, luck, p) == seq(p, i requires 0 <= i < p => (i, b.rows[i].name))
    ensures FailedParking(b, luck, p) == []
  {
    if p > 0 {
      AllParked(b, luck, p - 1);
    }
  }

  // ---- What it amounts to --------------------------------------------------------------

  /** The renaming as one step: every row's file under its new name, the rest as it was. */
  ghost function Simultaneous<C>(d: map<Name, C>, rows: seq<Row>): map<Name, C>
    requires Movable(d, rows)
  {
    map x | x in d.Keys - Names(rows) + Targets(rows) :: SimultaneousAt(d, rows, x)
  }

  function Targets(rows: seq<Row>): set<Name> { set i | 0 <= i < |rows| :: rows[i].to }

  ghost function SimultaneousAt<C>(d: map<Name, C>, rows: seq<Row>, x: Name): C
    requires Movable(d, rows) && x in d.Keys - Names(rows) + Targets(rows)
  {
    if x in Targets(rows) then var i :| 0 <= i < |rows| && rows[i].to == x; d[rows[i].name] else d[x]
  }

  /** When every row moves, heard of or not, any permutation or cycle comes out as the simultaneous renaming. */
  lemma AllSucceed<C>(d: map<Name, C>, b: Batch, luck: Luck, files: map<Name, C>)
    requires b.Valid(d) && Layout(d, b.rows, Places(b, luck, |b.rows|, |b.rows|), files)
    requires forall i :: 0 <= i < |b.rows| ==> b.Moves(luck, i)
    ensures files == Simultaneous(d, b.rows)
  {
    var place, goal := Places(b, luck, |b.rows|, |b.rows|), Simultaneous(d, b.rows);
    forall i | 0 <= i < |b.rows| ensures place[i] == Some(b.rows[i].to) {
      assert b.Moves(luck, i) && b.Cleared(luck, i);
    }
    forall x ensures (x in goal <==> x in files) && (x in goal ==> files[x] == goal[x]) {
      assert NameIs(d, b.rows, place, files, x);
      if x in Targets(b.rows) {
        var i :| 0 <= i < |b.rows| && b.rows[i].to == x && goal[x] == d[b.rows[i].name];
        assert RowAt(d, b.rows, place, files, i);
      } else {
        forall i | 0 <= i < |place| ensures place[i] != Some(x) {
          assert b.rows[i].to in Targets(b.rows);
        }
        assert Some(x) !in place;
      }
    }
  }

  /** Every file is still in the folder, under some name. */
  ghost predicate Lossless<C(!new)>(d: map<Name, C>, files: map<Name, C>) {
    forall x :: x in d ==> Holds(files, d[x])
  }

  ghost predicate Holds<C>(files: map<Name, C>, c: C) { exists y :: y in files && files[y] == c }

  /** The files are different things, so that one cannot stand in for another. */
  ghost predicate DistinctFiles<C(!new)>(d: map<Name, C>) {
    forall x, y :: x in d && y in d && x != y ==> d[x] != d[y]
  }

  /** Some row that never left its name is in the way of a row that gets moved. */
  ghost predicate Clobbers(b: Batch, luck: Luck) {
    exists i :: 0 <= i < |b.rows| && b.Overwritten(luck, |b.rows|, i)
  }

  /** The batch keeps every file exactly when no row is moved onto one that never left its name. */
  lemma LosslessIff<C(!new)>(d: map<Name, C>, b: Batch, luck: Luck, files: map<Name, C>)
    requires b.Valid(d) && DistinctFiles(d)
    requires Layout(d, b.rows, Places(b, luck, |b.rows|, |b.rows|), files)
    ensures Lossless(d, files) <==> !Clobbers(b, luck)
  {
    if Clobbers(b, luck) {
      var i :| 0 <= i < |b.rows| && b.Overwritten(luck, |b.rows|, i);
      OverwrittenIsLost(d, b, luck, files, i);
      assert b.rows[i].name in d;
    } else {
      forall x | x in d ensures Holds(files, d[x]) {
        KeptSomewhere(d, b, luck, files, x);
      }
    }
  }

  lemma OverwrittenIsLost<C(!new)>(d: map<Name, C>, b: Batch, luck: Luck, files: map<Name, C>, i: nat)
    requires b.Valid(d) && DistinctFiles(d) && i < |b.rows| && b.Overwritten(luck, |b.rows|, i)
    requires Layout(d, b.rows, Places(b, luck, |b.rows|, |b.rows|), files)
    ensures !Holds(files, d[b.rows[i].name])
  {
    var place := Places(b, luck, |b.rows|, |b.rows|);
    forall y | y in files ensures files[y] != d[b.rows[i].name] {
      assert NameIs(d, b.rows, place, files, y) && RowAt(d, b.rows, place, files, i);
      if Bystander(d, b.rows, y) {
        assert b.rows[i].name in Names(b.rows);
      } else {
        var k :| 0 <= k < |place| && place[k] == Some(y);
        assert place[i] == None && RowAt(d, b.rows, place, files, k);
      }
    }
  }

  lemma KeptSomewhere<C(!new)>(d: map<Name, C>, b: Batch, luck: Luck, files: map<Name, C>, x: Name)
    requires b.Valid(d) && x in d && !Clobbers(b, luck)
    requires Layout(d, b.rows, Places(b, luck, |b.rows|, |b.rows|), files)
    ensures Holds(files, d[x])
  {
    var place := Places(b, luck, |b.rows|, |b.rows|);
    assert NameIs(d, b.rows, place, files, x);
    if !Bystander(d, b.rows, x) {
      var i :| 0 <= i < |b.rows| && b.rows[i].name == x;
      assert !b.Overwritten(luck, |b.rows|, i) && RowAt(d, b.rows, place, files, i);
      assert place[i].Some? && files[place[i].value] == d[x];
    }
  }

  /** Before phase two starts: a pending row's target is a name whose row never left it. */
  ghost predicate TargetTaken(b: Batch, park: nat -> Trip) {
    exists i, j :: 0 <= i < |b.rows| && 0 <= j < |b.rows| && Taken(b, park, i, j)
  }

  ghost predicate Taken(b: Batch, park: nat -> Trip, i: nat, j: nat)
    requires i < |b.rows| && j < |b.rows|
  {
    b.staged && park(i).Refused? && park(j).Carried? && b.rows[j].to == b.rows[i].name
  }

  /** Given what parked, phase two is safe whatever fails in it iff no target is taken. */
  lemma SafeWhateverFails(b: Batch, park: nat -> Trip)
    ensures (forall move :: !Clobbers(b, Luck(park, move))) <==> !TargetTaken(b, park)
  {
    if TargetTaken(b, park) {
      var i, j :| 0 <= i < |b.rows| && 0 <= j < |b.rows| && Taken(b, park, i, j);
      var luck := Luck(park, (k: nat) => Carried);
      assert b.Moves(luck, j);
      assert b.Overwritten(luck, |b.rows|, i);
    } else {
      forall move ensures !Clobbers(b, Luck(park, move)) {
        if i :| 0 <= i < |b.rows| && b.Overwritten(Luck(park, move), |b.rows|, i) {
          var j :| 0 <= j < |b.rows| && b.Moves(Luck(park, move), j) && b.rows[j].to == b.rows[i].name;
          assert Taken(b, park, i, j);
        }
      }
    }
  }

  /** What the browser can see of that: a pending row's target is the name of a row it holds
      for not parked. */
  ghost predicate TargetBlocked(b: Batch, heard: nat -> bool) {
    exists i, j :: 0 <= i < |b.rows| && 0 <= j < |b.rows| && Blocked(b, heard, i, j)
  }

  ghost predicate Blocked(b: Batch, heard: nat -> bool, i: nat, j: nat)
    requires i < |b.rows| && j < |b.rows|
  {
    b.staged && !heard(i) && heard(j) && b.rows[j].to == b.rows[i].name
  }

  function Heard(luck: Luck): nat -> bool { (i: nat) => luck.park(i).Carried? }

  ghost predicate Hears(luck: Luck, heard: nat -> bool) { forall i :: luck.park(i).Carried? == heard(i) }

  /** From what the browser has heard of phase one alone: phase two is safe, whatever really
      happened and whatever is still to fail, iff no target is blocked. */
  lemma SafeAsFarAsHeard(b: Batch, heard: nat -> bool)
    ensures (forall luck :: Hears(luck, heard) ==> !Clobbers(b, luck)) <==> !TargetBlocked(b, heard)
  {
    if TargetBlocked(b, heard) {
      var i, j :| 0 <= i < |b.rows| && 0 <= j < |b.rows| && Blocked(b, heard, i, j);
      var luck := Luck((k: nat) => if heard(k) then Carried else Refused, (k: nat) => Carried);
      assert Hears(luck, heard) && b.Moves(luck, j);
      assert b.Overwritten(luck, |b.rows|, i);
    } else {
      forall luck | Hears(luck, heard) ensures !Clobbers(b, luck) {
        if i :| 0 <= i < |b.rows| && b.Overwritten(luck, |b.rows|, i) {
          var j :| 0 <= j < |b.rows| && b.Moves(luck, j) && b.rows[j].to == b.rows[i].name;
          assert Blocked(b, heard, i, j);
        }
      }
    }
  }

  /** An unstaged batch, or one in which every row got out of the way, loses nothing. */
  lemma ParkingIsTheOnlyDanger(b: Batch, luck: Luck)
    requires forall i :: 0 <= i < |b.rows| ==> b.Cleared(luck, i)
    ensures !Clobbers(b, luck)
  {
  }

  /** The folder a batch leaves. */
  ghost function FolderAfter<C>(d: map<Name, C>, b: Batch, luck: Luck): map<Name, C> {
    var n := |b.rows|;
    FinishRows(if b.staged then ParkRun(d, b.rows, b.temp, luck, n).files else d, b, luck, n).files
  }

  lemma FolderAfterIs<C>(d: map<Name, C>, b: Batch, luck: Luck)
    requires b.Valid(d)
    ensures Layout(d, b.rows, Places(b, luck, |b.rows|, |b.rows|), FolderAfter(d, b, luck))
  {
    var n := |b.rows|;
    if b.staged {
      ParkRunIs(d, b, luck, n);
      FinishRowsIs(d, ParkRun(d, b.rows, b.temp, luck, n).files, b, luck, n);
    } else {
      StartLayout(d, b, luck);
      FinishRowsIs(d, d, b, luck, n);
    }
  }

  /** Whatever fails, a batch the preview accepts leaves no name that could not be there before. */
  lemma NamesStayPlain<C>(d: map<Name, C>, plan: seq<Row>, temp: nat -> Name, luck: Luck)
    requires ProblemFree(d, plan) && BatchOf(plan, temp).FreshTemps(d)
    requires forall x :: x in d ==> Plain(x)
    requires forall i :: 0 <= i < |Changing(plan)| ==> Plain(temp(i))
    ensures forall x :: x in FolderAfter(d, BatchOf(plan, temp), luck) ==> Plain(x)
  {
    var b := BatchOf(plan, temp);
    BatchIsValid(d, plan, temp);
    FolderAfterIs(d, b, luck);
    var files, place := FolderAfter(d, b, luck), Places(b, luck, |b.rows|, |b.rows|);
    forall x | x in files ensures Plain(x) {
      assert NameIs(d, b.rows, place, files, x);
      if !Bystander(d, b.rows, x) {
        var i :| 0 <= i < |place| && place[i] == Some(x);
        RowIsPlain(d, plan, i);
        assert x == b.rows[i].to || x == b.At(i) || x == b.rows[i].name;
      }
    }
  }

  lemma RowIsPlain<C>(d: map<Name, C>, plan: seq<Row>, i: nat)
    requires ProblemFree(d, plan) && i < |Changing(plan)| && forall x :: x in d ==> Plain(x)
    ensures Plain(Changing(plan)[i].name) && Plain(Changing(plan)[i].to)
  {
    ProblemFreeIff(d, plan);
    ChangingIs(plan);
    assert Changing(plan)[i] in plan;
    var k :| 0 <= k < |plan| && plan[k] == Changing(plan)[i];
    assert plan[k].name in Names(plan);
  }

  /** In a staged batch some moving row is bound for the name of another moving row. */
  lemma StagedRows<C>(d: map<Name, C>, plan: seq<Row>, temp: nat -> Name) returns (i: nat, j: nat)
    requires ProblemFree(d, plan) && BatchOf(plan, temp).staged
    ensures var rows := Changing(plan);
      i < |rows| && j < |rows| && i != j && rows[j].to == rows[i].name
  {
    var rows := Changing(plan);
    PlanIsMovable(d, plan);
    ChangingIs(plan);
    j :| 0 <= j < |rows| && rows[j].to in Names(plan);
    var k :| 0 <= k < |plan| && plan[k].name == rows[j].to;
    assert plan[k].name in d;
    assert TargetGetsFree(d, rows, j);
    i :| 0 <= i < |rows| && rows[i].name == rows[j].to;
  }

  /** What can be told from the plan alone: every file survives whatever fails, in either
      phase, exactly when the batch takes no detour. */
  lemma SafeIffUnstaged<C(!new)>(d: map<Name, C>, plan: seq<Row>, temp: nat -> Name)
    requires ProblemFree(d, plan) && BatchOf(plan, temp).FreshTemps(d) && DistinctFiles(d)
    ensures (forall luck :: Lossless(d, FolderAfter(d, BatchOf(plan, temp), luck))) <==> !BatchOf(plan, temp).staged
  {
    var b := BatchOf(plan, temp);
    BatchIsValid(d, plan, temp);
    if b.staged {
      var i, j := StagedRows(d, plan, temp);
      var luck := Luck((k: nat) => if k == i then Refused else Carried, (k: nat) => Carried);
      assert b.Moves(luck, j);
      assert b.Overwritten(luck, |b.rows|, i);
      FolderAfterIs(d, b, luck);
      LosslessIff(d, b, luck, FolderAfter(d, b, luck));
      assert !Lossless(d, FolderAfter(d, b, luck));
    } else {
      forall luck ensures Lossless(d, FolderAfter(d, b, luck)) {
        FolderAfterIs(d, b, luck);
        ParkingIsTheOnlyDanger(b, luck);
        LosslessIff(d, b, luck, FolderAfter(d, b, luck));
      }
    }
  }

  /** The comment above phase two does not hold as written: swap two files, a plan the preview
      has nothing against, and let the second fail to park. The first one's temporary name is
      moved onto it, and one file is left. */
  lemma SwapLosesAFile() returns (d: map<Name, int>, plan: seq<Row>, temp: nat -> Name, luck: Luck)
    ensures d == map["a" := 1, "b" := 2] && plan == [Row("a", "b"), Row("b", "a")]
    ensures ProblemFree(d, plan) && BatchOf(plan, temp).FreshTemps(d)
    ensures luck.park(0).Carried? && luck.park(1).Refused? && luck.move(0).Carried?
    ensures FolderAfter(d, BatchOf(plan, temp), luck) == map["b" := 1]
  {
    d, plan := map["a" := 1, "b" := 2], [Row("a", "b"), Row("b", "a")];
    temp := (i: nat) => if i == 0 then ".t" else ".t1";
    luck := Luck((i: nat) => if i == 0 then Carried else Refused, (i: nat) => Carried);
    SwapPasses(d, plan);
    var b := BatchOf(plan, temp);
    SwapTemps(d, plan, temp);
    BatchIsValid(d, plan, temp);
    FolderAfterIs(d, b, luck);
    SwapLayout(d, b, luck);
    LayoutIsExact(d, b.rows, Places(b, luck, 2, 2), FolderAfter(d, b, luck), map["b" := 1]);
  }

  lemma SwapPasses(d: map<Name, int>, plan: seq<Row>)
    requires d == map["a" := 1, "b" := 2] && plan == [Row("a", "b"), Row("b", "a")]
    ensures ProblemFree(d, plan)
  {
    assert "a"[0] != "b"[0] && plan[0].name == "a" && plan[1].name == "b";
    assert "a" in Names(plan) && "b" in Names(plan);
    assert !Shared(plan, 0) && !Shared(plan, 1);
    assert '/' !in "a" && '/' !in "b" && |"."| == 1 && "."[0] == '.' && |".."| == 2;
  }

  lemma SwapBatch(plan: seq<Row>, temp: nat -> Name)
    requires plan == [Row("a", "b"), Row("b", "a")]
    ensures BatchOf(plan, temp) == Batch(plan, true, temp)
  {
    assert "a"[0] != "b"[0];
    assert plan[1..] == [Row("b", "a")] && plan[1..][1..] == [];
    assert Changing(plan[1..]) == [Row("b", "a")] && Changing(plan) == plan;
    assert plan[1].name == "b" && plan[0].to in Names(plan);
  }

  lemma SwapTemps(d: map<Name, int>, plan: seq<Row>, temp: nat -> Name)
    requires d == map["a" := 1, "b" := 2] && plan == [Row("a", "b"), Row("b", "a")]
    requires temp(0) == ".t" && temp(1) == ".t1"
    ensures BatchOf(plan, temp) == Batch(plan, true, temp) && BatchOf(plan, temp).FreshTemps(d)
  {
    SwapBatch(plan, temp);
    assert |".t"| == 2 && |".t1"| == 3 && |"a"| == 1 && |"b"| == 1;
  }

  lemma SwapLayout(d: map<Name, int>, b: Batch, luck: Luck)
    requires d == map["a" := 1, "b" := 2] && b.rows == [Row("a", "b"), Row("b", "a")] && b.staged && b.Valid(d)
    requires luck.park(0).Carried? && luck.park(1).Refused? && luck.move(0).Carried?
    ensures Layout(d, b.rows, Places(b, luck, 2, 2), map["b" := 1])
  {
    var place := Places(b, luck, 2, 2);
    assert b.rows[0].name == "a" && b.rows[1].name == "b" && "a" in Names(b.rows) && "b" in Names(b.rows);
    assert b.Moves(luck, 0) && b.rows[0].to == b.rows[1].name;
    assert b.Overwritten(luck, 2, 1);
    assert place[0] == Some("b") && place[1] == None;
    forall x ensures NameIs(d, b.rows, place, map["b" := 1], x) {}
  }

  // ---- What the browser is told ----------------------------------------------------------

  /** Every row's file is where the lists say it is. */
  ghost predicate ToldTrue(b: Batch, luck: Luck) {
    forall i :: 0 <= i < |b.rows| ==> Places(b, luck, |b.rows|, |b.rows|)[i] == Some(b.Told(luck, i))
  }

  /** The lists say of each row that it has its new name, or where it is left, and say it once;
      and they speak of no other row. */
  lemma {:induction false} ListsTell<C>(d: map<Name, C>, b: Batch, luck: Luck, i: nat)
    requires b.Valid(d) && i < |b.rows|
    ensures var n, row := |b.rows|, b.rows[i];
      var failed := FailedParking(b, luck, n) + FailedMoving(b, luck, n);
      && (row in Renamed(b, luck, n) <==> b.Told(luck, i) == row.to)
      && forall at :: Failure(row.name, at) in failed <==> b.Told(luck, i) == at != row.to
  {
    ListsAre(d, b, luck, |b.rows|, i);
    assert b.rows[i].to != b.rows[i].name && (b.staged ==> b.temp(i) != b.rows[i].to);
  }

  lemma {:induction false} ListsAre<C>(d: map<Name, C>, b: Batch, luck: Luck, n: nat, i: nat)
    requires b.Valid(d) && i < |b.rows| && n <= |b.rows|
    ensures b.rows[i] in Renamed(b, luck, n) <==> i < n && b.Parked(luck, i) && luck.move(i).Carried?
    ensures forall at :: Failure(b.rows[i].name, at) in FailedParking(b, luck, n)
                    <==> i < n && !b.Parked(luck, i) && at == b.rows[i].name
    ensures forall at :: Failure(b.rows[i].name, at) in FailedMoving(b, luck, n)
                    <==> i < n && b.Parked(luck, i) && !luck.move(i).Carried? && at == b.At(i)
  {
    if n > 0 {
      ListsAre(d, b, luck, n - 1, i);
      assert i < n - 1 ==> b.rows[i].name != b.rows[n - 1].name;
      assert i > n - 1 ==> b.rows[n - 1].name != b.rows[i].name;
    }
  }

  /** The lists are right about a row exactly when no rename of it was carried out behind the
      browser's back and it was not renamed over. */
  lemma RowToldIff<C>(d: map<Name, C>, b: Batch, luck: Luck, i: nat)
    requires b.Valid(d) && i < |b.rows|
    ensures b.Place(luck, |b.rows|, |b.rows|, i) == Some(b.Told(luck, i))
       <==> !b.GoesUnheard(luck, i) && !b.Overwritten(luck, |b.rows|, i)
  {
    assert b.rows[i].name in d && b.rows[i].to != b.rows[i].name;
    assert b.staged ==> b.temp(i) !in d && b.temp(i) != b.rows[i].to;
  }

  /** So they are right about the whole batch exactly when every rename carried out was heard of
      and nothing was renamed over. */
  lemma ToldTrueIff<C>(d: map<Name, C>, b: Batch, luck: Luck)
    requires b.Valid(d)
    ensures ToldTrue(b, luck)
       <==> !Clobbers(b, luck) && forall i :: 0 <= i < |b.rows| ==> !b.GoesUnheard(luck, i)
  {
    forall i | 0 <= i < |b.rows|
      ensures Places(b, luck, |b.rows|, |b.rows|)[i] == Some(b.Told(luck, i))
         <==> !b.GoesUnheard(luck, i) && !b.Overwritten(luck, |b.rows|, i)
    {
      RowToldIff(d, b, luck, i);
    }
  }

  /** They are not always: rename one file, lose the reply, and it has its new name although
      the browser reports it as left under the old one. */
  lemma LostReplyMisleads() returns (d: map<Name, int>, plan: seq<Row>, temp: nat -> Name, luck: Luck)
    ensures d == map["a" := 1] && plan == [Row("a", "b")] && ProblemFree(d, plan)
    ensures var b := BatchOf(plan, temp);
      && b.FreshTemps(d) && FolderAfter(d, b, luck) == map["b" := 1]
      && Renamed(b, luck, |b.rows|) == []
      && FailedParking(b, luck, |b.rows|) + FailedMoving(b, luck, |b.rows|) == [Failure("a", "a")]
  {
    d, plan := map["a" := 1], [Row("a", "b")];
    temp := (i: nat) => ".t";
    luck := Luck((i: nat) => Carried, (i: nat) => Unheard);
    var b := BatchOf(plan, temp);
    assert "a"[0] != "b"[0] && |".t"| == 2 && |"a"| == 1 && |"b"| == 1;
    assert plan[1..] == [] && Changing(plan[1..]) == [] && Changing(plan) == plan;
    assert plan[0].name == "a" && "b" !in Names(plan);
    assert b == Batch(plan, false, temp);
    assert ProblemOf(plan, d.Keys, 0) == None by {
      assert '/' !in "b" && |"."| == 1 && "."[0] == '.' && |".."| == 2;
      assert !Shared(plan, 0);
    }
    assert b.At(0) == "a";
    assert Moved(d, "a", "b") == map["b" := 1];
    assert FinishRows(d, b, luck, 1) == FinishOne(FinishRows(d, b, luck, 0), b.rows, 0, "a", luck);
  }

  /** Nor about a parking: swap two files, lose the reply to the first parking, and that file
      stays under a temporary name which no message mentions. */
  lemma LostParkingMisleads() returns (d: map<Name, int>, plan: seq<Row>, temp: nat -> Name, luck: Luck)
    ensures d == map["a" := 1, "b" := 2] && plan == [Row("a", "b"), Row("b", "a")] && ProblemFree(d, plan)
    ensures var b := BatchOf(plan, temp);
      && b.FreshTemps(d) && temp(0) == ".t" && FolderAfter(d, b, luck) == map["a" := 2, ".t" := 1]
      && FailedParking(b, luck, |b.rows|) + FailedMoving(b, luck, |b.rows|) == [Failure("a", "a")]
  {
    d, plan := map["a" := 1, "b" := 2], [Row("a", "b"), Row("b", "a")];
    temp := (i: nat) => if i == 0 then ".t" else ".t1";
    luck := Luck((i: nat) => if i == 0 then Unheard else Carried, (i: nat) => Carried);
    SwapPasses(d, plan);
    SwapTemps(d, plan, temp);
    var b := BatchOf(plan, temp);
    ParkTwo(b, luck);
    BatchIsValid(d, plan, temp);
    FolderAfterIs(d, b, luck);
    LostParkingLayout(d, b, luck);
    LayoutIsExact(d, b.rows, Places(b, luck, 2, 2), FolderAfter(d, b, luck), map["a" := 2, ".t" := 1]);
  }

  lemma ParkTwo(b: Batch, luck: Luck)
    requires |b.rows| == 2 && b.rows[0].name == "a" && b.staged
    requires luck.park(0).Unheard? && luck.park(1).Carried? && luck.move(1).Carried?
    ensures FailedParking(b, luck, 2) + FailedMoving(b, luck, 2) == [Failure("a", "a")]
  {
    assert FailedParking(b, luck, 1) == [Failure("a", "a")] && FailedMoving(b, luck, 1) == [];
  }

  lemma LostParkingLayout(d: map<Name, int>, b: Batch, luck: Luck)
    requires d == map["a" := 1, "b" := 2] && b.rows == [Row("a", "b"), Row("b", "a")] && b.staged && b.Valid(d)
    requires luck.park(0).Unheard? && luck.park(1).Carried? && luck.move(1).Carried? && b.temp(0) == ".t"
    ensures Layout(d, b.rows, Places(b, luck, 2, 2), map["a" := 2, ".t" := 1])
  {
    var place, files := Places(b, luck, 2, 2), map["a" := 2, ".t" := 1];
    assert b.rows[0].name == "a" && b.rows[1].name == "b" && "a" in Names(b.rows) && "b" in Names(b.rows);
    assert b.Moves(luck, 1) && b.Cleared(luck, 0);
    assert place[0] == Some(".t") && place[1] == Some("a");
    assert |".t"| == 2 && |"a"| == 1;
    forall x ensures NameIs(d, b.rows, place, files, x) {}
  }

  // ---- A phase two that looks ------------------------------------------------------------

  /** Leave a row parked while its target is the name of a row not known to be parked. */
  function Guarded(rows: seq<Row>, notParked: set<Name>, luck: Luck): Luck {
    Luck(luck.park, (j: nat) => if j < |rows| && rows[j].to in notParked then Refused else luck.move(j))
  }

  function NamesIn(failures: seq<Failure>): set<Name> { set f | f in failures :: f.name }

  /** Phase two with that guard. */
  method FinishGuarded<C>(folder: Folder<C>, changing: seq<Row>, pending: seq<(nat, Name)>, notParked: set<Name>,
                          luck: Luck)
    returns (renamed: seq<Row>, failed: seq<Failure>)
    requires forall k :: 0 <= k < |pending| ==> pending[k].0 < |changing|
    modifies folder
    ensures Outcome(folder.files, renamed, failed)
         == FinishRun(old(folder.files), changing, pending, Guarded(changing, notParked, luck))
  {
    ghost var guarded := Guarded(changing, notParked, luck);
    renamed, failed := [], [];
    for q := 0 to |pending|
      invariant Outcome(folder.files, renamed, failed) == FinishRun(old(folder.files), changing, pending[..q], guarded)
    {
      assert pending[..q + 1][..q] == pending[..q];
      var (i, at) := pending[q];
      if changing[i].to in notParked {
        failed := failed + [Failure(changing[i].name, at)];
        continue;
      }
      var done := folder.Rename(at, changing[i].to, luck.move(i));
      if done {
        renamed := renamed + [changing[i]];
      } else {
        failed := failed + [Failure(changing[i].name, at)];
      }
    }
    assert pending[..|pending|] == pending;
  }

  lemma {:induction false} FailedParkingIs(b: Batch, luck: Luck, p: nat, x: Name)
    requires p <= |b.rows|
    ensures x in NamesIn(FailedParking(b, luck, p))
       <==> exists i :: 0 <= i < p && !b.Parked(luck, i) && b.rows[i].name == x
  {
    if p > 0 {
      FailedParkingIs(b, luck, p - 1, x);
    }
  }

  /** Phase one sees only which parkings fail. */
  lemma {:induction false} SameParking<C>(d: map<Name, C>, b: Batch, l: Luck, m: Luck, p: nat)
    requires l.park == m.park && p <= |b.rows|
    ensures ParkRun(d, b.rows, b.temp, l, p) == ParkRun(d, b.rows, b.temp, m, p)
    ensures Pending(b, l, p) == Pending(b, m, p) && FailedParking(b, l, p) == FailedParking(b, m, p)
  {
    if p > 0 {
      SameParking(d, b, l, m, p - 1);
    }
  }

  ghost function GuardedLuck(b: Batch, luck: Luck): Luck {
    Guarded(b.rows, NamesIn(FailedParking(b, luck, |b.rows|)), luck)
  }

  lemma GuardedIsSafe(b: Batch, luck: Luck)
    ensures !Clobbers(b, GuardedLuck(b, luck))
  {
    var guarded := GuardedLuck(b, luck);
    forall i | 0 <= i < |b.rows| ensures !b.Overwritten(guarded, |b.rows|, i) {
      FailedParkingIs(b, luck, |b.rows|, b.rows[i].name);
      assert b.Cleared(guarded, i) == b.Cleared(luck, i) && (b.Parked(luck, i) ==> b.Cleared(luck, i));
    }
  }

  /** The guard never fires when no target is blocked. */
  lemma GuardedIsSame(b: Batch, luck: Luck)
    requires !TargetBlocked(b, Heard(luck))
    ensures Places(b, GuardedLuck(b, luck), |b.rows|, |b.rows|) == Places(b, luck, |b.rows|, |b.rows|)
  {
    var guarded, n := GuardedLuck(b, luck), |b.rows|;
    forall j | 0 <= j < n && b.Parked(luck, j) ensures guarded.move(j) == luck.move(j) {
      FailedParkingIs(b, luck, n, b.rows[j].to);
      if b.rows[j].to in NamesIn(FailedParking(b, luck, n)) {
        var i :| 0 <= i < n && !b.Parked(luck, i) && b.rows[i].name == b.rows[j].to;
        assert Blocked(b, Heard(luck), i, j);
      }
    }
    forall i | 0 <= i < n ensures b.Place(guarded, n, n, i) == b.Place(luck, n, n, i) {
      assert b.Parked(guarded, i) == b.Parked(luck, i) && b.Cleared(guarded, i) == b.Cleared(luck, i);
      assert b.Overwritten(guarded, n, i) <==> b.Overwritten(luck, n, i);
    }
  }

  /** The batch with the guarded phase two: exact as before, and no file is ever lost. */
  method RenameGuarded<C(!new)>(folder: Folder<C>, plan: seq<Row>, temp: nat -> Name, luck: Luck)
    returns (renamed: seq<Row>, failed: seq<Failure>)
    requires ProblemFree(folder.files, plan) && BatchOf(plan, temp).FreshTemps(folder.files)
    modifies folder
    ensures var b := BatchOf(plan, temp);
      var guarded := GuardedLuck(b, luck);
      && Layout(old(folder.files), b.rows, Places(b, guarded, |b.rows|, |b.rows|), folder.files)
      && renamed == Renamed(b, guarded, |b.rows|)
      && failed == FailedParking(b, luck, |b.rows|) + FailedMoving(b, guarded, |b.rows|)
    ensures Lossless(old(folder.files), folder.files)
    ensures !TargetBlocked(BatchOf(plan, temp), Heard(luck)) ==>
              folder.files == FolderAfter(old(folder.files), BatchOf(plan, temp), luck)
  {
    ghost var d, b := folder.files, BatchOf(plan, temp);
    ghost var guarded := GuardedLuck(b, luck);
    BatchIsValid(d, plan, temp);
    PendingInRange(b, guarded, |b.rows|);
    SameParking(d, b, luck, guarded, |b.rows|);
    var sources := Names(plan);
    var changing := Changing(plan);
    var staged := exists i :: 0 <= i < |changing| && changing[i].to in sources;
    var notParked: seq<Failure> := [];
    var pending: seq<(nat, Name)> := seq(|changing|, i requires 0 <= i < |changing| => (i, changing[i].name));
    if staged {
      ParkRunIs(d, b, guarded, |b.rows|);
      pending, notParked := Park(folder, changing, temp, luck);
    } else {
      StartLayout(d, b, guarded);
      AllParked(b, guarded, |changing|);
    }
    assert pending == Pending(b, guarded, |b.rows|) && notParked == FailedParking(b, luck, |b.rows|);
    FinishRunByRows(folder.files, b, guarded, |b.rows|);
    FinishRowsIs(d, folder.files, b, guarded, |b.rows|);
    renamed, failed := FinishGuarded(folder, changing, pending, NamesIn(notParked), luck);
    failed := notParked + failed;
    GuardedKeepsAll(d, b, luck, folder.files);
  }

  lemma GuardedKeepsAll<C(!new)>(d: map<Name, C>, b: Batch, luck: Luck, files: map<Name, C>)
    requires b.Valid(d) && Layout(d, b.rows, Places(b, GuardedLuck(b, luck), |b.rows|, |b.rows|), files)
    ensures Lossless(d, files)
    ensures !TargetBlocked(b, Heard(luck)) ==> files == FolderAfter(d, b, luck)
  {
    GuardedIsSafe(b, luck);
    forall x | x in d ensures Holds(files, d[x]) {
      KeptSomewhere(d, b, GuardedLuck(b, luck), files, x);
    }
    if !TargetBlocked(b, Heard(luck)) {
      GuardedIsSame(b, luck);
      FolderAfterIs(d, b, luck);
      LayoutIsExact(d, b.rows, Places(b, luck, |b.rows|, |b.rows|), files, FolderAfter(d, b, luck));
    }
  }

  /** With the guard the lists are right exactly when every rename carried out was heard of. */
  lemma GuardedToldIff<C>(d: map<Name, C>, b: Batch, luck: Luck)
    requires b.Valid(d)
    ensures var guarded := GuardedLuck(b, luck);
      ToldTrue(b, guarded) <==> forall i :: 0 <= i < |b.rows| ==> !b.GoesUnheard(guarded, i)
  {
    GuardedIsSafe(b, luck);
    ToldTrueIff(d, b, GuardedLuck(b, luck));
  }
}
