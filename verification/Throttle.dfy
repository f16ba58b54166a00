/** The login throttle (apps/server/src/auth.ts:179-207). */
module Throttle {
  type Key = string

  const MAX_LOGIN_FAILURES: nat := 10
  const LOGIN_BLOCK_MS: nat := 15 * 60 * 1000

  datatype Failures = Failures(count: nat, blockedUntil: int)

  type Table = map<Key, Failures>

  function EntryOf(t: Table, key: Key): Failures { if key in t then t[key] else Failures(0, 0) }

  predicate Blocked(t: Table, key: Key, now: int) { key in t && t[key].blockedUntil > now }

  function Recorded(t: Table, key: Key, now: int): Table {
    var e := EntryOf(t, key);
    t[key :=
      if e.count + 1 >= MAX_LOGIN_FAILURES
        then Failures(0, now + LOGIN_BLOCK_MS)
        else Failures(e.count + 1, e.blockedUntil)]
  }

  /** A login call: whose, when it asks whether it is blocked, when a failed check is recorded,
      and whether the password checks out. The password's hash lies between the two times. */
  datatype Attempt = Attempt(key: Key, asked: int, recorded: int, correct: bool)

  function AfterAttempt(t: Table, a: Attempt): Table {
    if Blocked(t, a.key, a.asked) then t
    else if a.correct then t - {a.key}
    else Recorded(t, a.key, a.recorded)
  }

  function After(t: Table, run: seq<Attempt>): Table {
    if run == [] then t else AfterAttempt(After(t, run[..|run| - 1]), run[|run| - 1])
  }

  /** How many of the attempts on `key` got as far as a failed password check. */
  function FailedChecks(t: Table, run: seq<Attempt>, key: Key): nat {
    if run == [] then 0
    else
      var n := |run| - 1;
      FailedChecks(t, run[..n], key)
      + (if run[n].key == key && !Blocked(After(t, run[..n]), key, run[n].asked) && !run[n].correct then 1 else 0)
  }

  /** The attempts of a window starting at `from`, one after the other. */
  ghost predicate Window(run: seq<Attempt>, from: int) {
    && (forall i :: 0 <= i < |run| ==> from <= run[i].asked <= run[i].recorded)
    && (forall i, j :: 0 <= i < j < |run| ==> run[i].recorded <= run[j].asked)
  }

  /** No attempt on `key` in the window logs in. */
  ghost predicate NoSuccess(t: Table, run: seq<Attempt>, key: Key) {
    forall i :: 0 <= i < |run| && run[i].key == key && run[i].correct ==> Blocked(After(t, run[..i]), key, run[i].asked)
  }

  /** What every run keeps: a count never reaches the threshold. */
  ghost predicate Sane(t: Table) { forall k :: k in t ==> t[k].count < MAX_LOGIN_FAILURES }

  lemma {:induction false} StaysSane(t: Table, run: seq<Attempt>)
    requires Sane(t)
    ensures Sane(After(t, run))
  {
    if run != [] {
      StaysSane(t, run[..|run| - 1]);
    }
  }

  /** `m` cooldowns, end to end. */
  function Span(m: nat): nat { if m == 0 then 0 else Span(m - 1) + LOGIN_BLOCK_MS }

  lemma {:induction false} SpanFits(m: nat, length: nat)
    ensures Span(m) <= length <==> m <= length / LOGIN_BLOCK_MS
    decreases m
  {
    if m > 0 && length >= LOGIN_BLOCK_MS {
      SpanFits(m - 1, length - LOGIN_BLOCK_MS);
    }
  }

  /** `m` counts the cooldowns armed so far: each takes a full set of failures, and no
      failure is checked before the last one armed has run out. */
  ghost predicate Armed(t: Table, run: seq<Attempt>, key: Key, from: int, m: nat) {
    var e := EntryOf(After(t, run), key);
    && FailedChecks(t, run, key) + EntryOf(t, key).count == MAX_LOGIN_FAILURES * m + e.count
    && e.count < MAX_LOGIN_FAILURES
    && (m > 0 ==>
          run != [] && key in After(t, run) && e.blockedUntil >= from + Span(m)
          && run[|run| - 1].asked >= from + Span(m - 1)
          && (e.count > 0 ==> run[|run| - 1].asked >= from + Span(m)))
  }

  lemma {:induction false} CountArms(t: Table, run: seq<Attempt>, key: Key, from: int) returns (m: nat)
    requires Sane(t) && Window(run, from) && NoSuccess(t, run, key)
    ensures Armed(t, run, key, from, m)
  {
    if run == [] {
      m := 0;
    } else {
      var n := |run| - 1;
      var before, a := run[..n], run[n];
      forall i | 0 <= i < n && before[i].key == key && before[i].correct
        ensures Blocked(After(t, before[..i]), key, before[i].asked)
      {
        assert before[..i] == run[..i] && before[i] == run[i];
      }
      m := CountArms(t, before, key, from);
      assert m > 0 ==> before[n - 1] == run[n - 1] && run[n - 1].recorded <= a.asked;
      m := OneAttempt(t, before, a, key, from, m);
      assert before + [a] == run;
    }
  }

  lemma OneAttempt(t: Table, before: seq<Attempt>, a: Attempt, key: Key, from: int, m: nat) returns (m': nat)
    requires Armed(t, before, key, from, m) && from <= a.asked <= a.recorded
    requires before != [] ==> before[|before| - 1].asked <= before[|before| - 1].recorded <= a.asked
    requires a.key == key && a.correct ==> Blocked(After(t, before), key, a.asked)
    ensures Armed(t, before + [a], key, from, m')
  {
    var run := before + [a];
    assert run[..|before|] == before && run[|run| - 1] == a;
    var e := EntryOf(After(t, before), key);
    if a.key == key && !Blocked(After(t, before), key, a.asked) && e.count + 1 >= MAX_LOGIN_FAILURES {
      m' := m + 1;
    } else {
      m' := m;
    }
  }

  /** In any closed window of length `length` without a successful login, one source gets at
      most MAX_LOGIN_FAILURES failed checks per cooldown that fits, and one set more. */
  lemma WindowBound(t: Table, run: seq<Attempt>, key: Key, from: int, length: nat)
    requires Sane(t) && Window(run, from) && NoSuccess(t, run, key)
    requires forall i :: 0 <= i < |run| ==> run[i].asked <= from + length
    ensures FailedChecks(t, run, key) <= MAX_LOGIN_FAILURES * (length / LOGIN_BLOCK_MS + 1)
  {
    var m := CountArms(t, run, key, from);
    if m > 0 {
      SpanFits(m, length);
      SpanFits(m - 1, length);
    }
    BoundFromArms(FailedChecks(t, run, key), m, EntryOf(After(t, run), key).count, length / LOGIN_BLOCK_MS);
  }

  lemma BoundFromArms(checks: nat, m: nat, count: nat, periods: nat)
    requires checks <= MAX_LOGIN_FAILURES * m + count && count < MAX_LOGIN_FAILURES
    requires m > 0 ==> m - 1 <= periods && (count > 0 ==> m <= periods)
    ensures checks <= MAX_LOGIN_FAILURES * (periods + 1)
  {
  }

  // ---- The bound is met ------------------------------------------------------------------

  function Burst(key: Key, now: int, n: nat): seq<Attempt> {
    if n == 0 then [] else Burst(key, now, n - 1) + [Attempt(key, now, now, false)]
  }

  /** A full set of failures at the start of each of `periods + 1` cooldowns. */
  function Storm(key: Key, periods: nat): seq<Attempt> {
    if periods == 0 then Burst(key, 0, MAX_LOGIN_FAILURES)
    else Storm(key, periods - 1) + Burst(key, Span(periods), MAX_LOGIN_FAILURES)
  }

  lemma {:induction false} RunAppend(t: Table, a: seq<Attempt>, b: seq<Attempt>, key: Key)
    ensures After(t, a + b) == After(After(t, a), b)
    ensures FailedChecks(t, a + b, key) == FailedChecks(t, a, key) + FailedChecks(After(t, a), b, key)
  {
    if b == [] {
      assert a + b == a;
    } else {
      assert (a + b)[..|a + b| - 1] == a + b[..|b| - 1];
      RunAppend(t, a, b[..|b| - 1], key);
    }
  }

  lemma OneMore(t: Table, run: seq<Attempt>, a: Attempt, key: Key)
    ensures After(t, run + [a]) == AfterAttempt(After(t, run), a)
    ensures FailedChecks(t, run + [a], key)
         == FailedChecks(t, run, key)
            + (if a.key == key && !Blocked(After(t, run), key, a.asked) && !a.correct then 1 else 0)
  {
    assert (run + [a])[..|run|] == run;
  }

  lemma FailOnce(t: Table, key: Key, now: int)
    requires 0 <= now && !Blocked(t, key, now)
    ensures var t', e := AfterAttempt(t, Attempt(key, now, now, false)), EntryOf(t, key);
      if e.count + 1 >= MAX_LOGIN_FAILURES then EntryOf(t', key) == Failures(0, now + LOGIN_BLOCK_MS)
      else EntryOf(t', key) == Failures(e.count + 1, e.blockedUntil) && !Blocked(t', key, now)
  {
  }

  /** What a burst leaves: `n` failures on the count, or a cooldown. */
  ghost predicate Burnt(t: Table, run: seq<Attempt>, key: Key, now: int, n: nat) {
    var e := EntryOf(After(t, run), key);
    && FailedChecks(t, run, key) == n
    && if n < MAX_LOGIN_FAILURES then e.count == n && !Blocked(After(t, run), key, now)
       else e == Failures(0, now + LOGIN_BLOCK_MS)
  }

  lemma BurnOnce(t: Table, run: seq<Attempt>, key: Key, now: int, n: nat)
    requires 0 <= now && n < MAX_LOGIN_FAILURES && Burnt(t, run, key, now, n)
    ensures Burnt(t, run + [Attempt(key, now, now, false)], key, now, n + 1)
  {
    OneMore(t, run, Attempt(key, now, now, false), key);
    FailOnce(After(t, run), key, now);
  }

  lemma {:induction false} BurstFails(t: Table, key: Key, now: int, n: nat)
    requires 0 <= now && n <= MAX_LOGIN_FAILURES && EntryOf(t, key).count == 0 && !Blocked(t, key, now)
    ensures Burnt(t, Burst(key, now, n), key, now, n)
  {
    if n > 0 {
      BurstFails(t, key, now, n - 1);
      BurnOnce(t, Burst(key, now, n - 1), key, now, n - 1);
    }
  }

  /** So the bound cannot be lowered: `periods` cooldowns hold this many failed checks. */
  lemma {:induction false} BoundIsMet(key: Key, periods: nat)
    ensures FailedChecks(map[], Storm(key, periods), key) == MAX_LOGIN_FAILURES * (periods + 1)
    ensures var e := EntryOf(After(map[], Storm(key, periods)), key);
      e.count == 0 && e.blockedUntil == Span(periods + 1)
  {
    var now := Span(periods);
    if periods == 0 {
      BurstFails(map[], key, now, MAX_LOGIN_FAILURES);
    } else {
      BoundIsMet(key, periods - 1);
      RunAppend(map[], Storm(key, periods - 1), Burst(key, now, MAX_LOGIN_FAILURES), key);
      BurstFails(After(map[], Storm(key, periods - 1)), key, now, MAX_LOGIN_FAILURES);
    }
  }

  lemma {:induction false} StormTimes(key: Key, periods: nat)
    ensures Window(Storm(key, periods), 0)
    ensures forall i :: 0 <= i < |Storm(key, periods)| ==> Storm(key, periods)[i].recorded <= Span(periods)
  {
    BurstTimes(key, Span(periods), MAX_LOGIN_FAILURES);
    if periods > 0 {
      StormTimes(key, periods - 1);
    }
  }

  lemma {:induction false} BurstTimes(key: Key, now: int, n: nat)
    ensures forall i ::
      0 <= i < |Burst(key, now, n)| ==> Burst(key, now, n)[i].asked == Burst(key, now, n)[i].recorded == now
  {
    if n > 0 {
      BurstTimes(key, now, n - 1);
    }
  }
}
