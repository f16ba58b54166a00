/** What every account call answers, told from the calls before it and their answers alone
    (apps/server/src/auth.ts:165-530). */
module AccountLog {
  import opened Bytes
  import opened Accounts
  import opened Throttle
  import Text

  /** A call and how it was answered. */
  datatype Entry = Entry(call: Call, outcome: Outcome)

  type Log = seq<Entry>

  predicate Did(e: Entry) { e.outcome == Done }

  // ---- What the log says of accounts -----------------------------------------------------

  predicate Creates(e: Entry, u: UserId) { Did(e) && (e.call.SetupOwner? || e.call.AddUser?) && e.call.id == u }

  predicate Removes(e: Entry, u: UserId) { Did(e) && e.call.DeleteUser? && e.call.userId == u }

  /** The password a call gives an account. */
  function Password(e: Entry, u: UserId): Option<string> {
    if Creates(e, u) || (Did(e) && e.call.SetPassword? && e.call.userId == u) then Some(e.call.password) else None
  }

  /** The address a call gives an account, or that it gives it none. */
  function Address(e: Entry, u: UserId): Option<Option<string>> {
    if Creates(e, u) then Some(if e.call.AddUser? then NormalizeEmail(e.call.email) else None)
    else if Did(e) && e.call.SetEmail? && e.call.userId == u then Some(NormalizeEmail(e.call.email))
    else None
  }

  /** The account was made by the `i`-th call and has not been deleted since. */
  ghost predicate Born(log: Log, u: UserId, i: nat) {
    i < |log| && Creates(log[i], u) && forall k :: i < k < |log| ==> !Removes(log[k], u)
  }

  ghost predicate LastPassword(log: Log, u: UserId, j: nat) {
    j < |log| && Password(log[j], u).Some? && forall k :: j < k < |log| ==> Password(log[k], u).None?
  }

  ghost predicate LastAddress(log: Log, u: UserId, j: nat) {
    j < |log| && Address(log[j], u).Some? && forall k :: j < k < |log| ==> Address(log[k], u).None?
  }

  ghost predicate HasAccount(log: Log, u: UserId) { exists i: nat :: Born(log, u, i) }

  ghost predicate BornAs(log: Log, u: UserId, i: nat, name: string) {
    Born(log, u, i) && Normalize(log[i].call.username) == Normalize(name)
  }

  ghost predicate Named(log: Log, u: UserId, name: string) { exists i: nat :: BornAs(log, u, i, name) }

  ghost predicate HasPassword(log: Log, u: UserId, password: string) {
    exists j: nat :: LastPassword(log, u, j) && Password(log[j], u) == Some(password)
  }

  ghost predicate HasAddress(log: Log, u: UserId, email: string) {
    HasAccount(log, u) && exists j: nat :: LastAddress(log, u, j) && Address(log[j], u) == Some(Some(email))
  }

  ghost predicate IsOwner(log: Log, u: UserId) { exists i: nat :: Born(log, u, i) && log[i].call.SetupOwner? }

  /** The calls that made an account and last gave it a password and an address say all there
      is in its record. */
  ghost predicate Describes(user: User, log: Log, u: UserId, i: nat, j: nat, k: nat) {
    && Born(log, u, i) && LastPassword(log, u, j) && LastAddress(log, u, k)
    && user == User(Normalize(log[i].call.username), Password(log[j], u).value, log[i].call.SetupOwner?,
                    Address(log[k], u).value)
  }

  ghost predicate Described(user: User, log: Log, u: UserId) {
    exists i: nat, j: nat, k: nat :: Describes(user, log, u, i, j, k)
  }

  ghost predicate AccountAgrees(users: map<UserId, User>, log: Log, u: UserId) {
    && (forall i: nat, k: nat :: Born(log, u, i) && Born(log, u, k) ==> i == k)
    && (HasAccount(log, u) ==> u in users)
    && (u in users ==> Described(users[u], log, u))
  }

  lemma AccountIs(users: map<UserId, User>, log: Log, u: UserId)
    requires AccountAgrees(users, log, u)
    ensures u in users <==> HasAccount(log, u)
    ensures forall name :: Named(log, u, name) <==> u in users && users[u].username == Normalize(name)
    ensures u in users ==> forall p :: HasPassword(log, u, p) <==> users[u].secret == p
    ensures forall a :: HasAddress(log, u, a) <==> u in users && users[u].email == Some(a)
    ensures IsOwner(log, u) <==> u in users && users[u].isOwner
  {
    if u in users {
      var i: nat, j: nat, k: nat :| Describes(users[u], log, u, i, j, k);
      forall l: nat | Born(log, u, l) ensures l == i {}
      forall name ensures Named(log, u, name) <==> users[u].username == Normalize(name) {
        if users[u].username == Normalize(name) {
          assert BornAs(log, u, i, name);
        }
      }
      forall l: nat | LastPassword(log, u, l) ensures l == j {}
      forall l: nat | LastAddress(log, u, l) ensures l == k {}
    }
  }

  lemma BornSnoc(log: Log, e: Entry, u: UserId, i: nat)
    ensures Born(log + [e], u, i) <==> if i == |log| then Creates(e, u) else Born(log, u, i) && !Removes(e, u)
  {
    var g := log + [e];
    assert forall k :: 0 <= k < |log| ==> g[k] == log[k];
    if i < |log| && Born(log, u, i) && !Removes(e, u) {
      assert forall k :: i < k < |g| ==> !Removes(g[k], u);
    }
    if i < |log| && Born(g, u, i) {
      assert !Removes(g[|log|], u);
    }
  }

  /** What one more call makes of an account's record. */
  ghost predicate Edits(users: map<UserId, User>, after: map<UserId, User>, e: Entry, u: UserId) {
    if Creates(e, u) then
      u !in users && u in after
      && after[u] == User(Normalize(e.call.username), e.call.password, e.call.SetupOwner?, Address(e, u).value)
    else if Removes(e, u) then u !in after
    else if u in users then
      u in after
      && after[u] == users[u].(secret := if Password(e, u).Some? then Password(e, u).value else users[u].secret,
                               email := if Address(e, u).Some? then Address(e, u).value else users[u].email)
    else u !in after
  }

  lemma AccountSnoc(users: map<UserId, User>, after: map<UserId, User>, log: Log, e: Entry, u: UserId)
    requires AccountAgrees(users, log, u) && Edits(users, after, e, u)
    ensures AccountAgrees(after, log + [e], u)
  {
    var g, n := log + [e], |log|;
    assert forall k :: 0 <= k < n ==> g[k] == log[k];
    forall i: nat ensures Born(g, u, i) <==> if i == n then Creates(e, u) else Born(log, u, i) && !Removes(e, u) {
      BornSnoc(log, e, u, i);
    }
    if Creates(e, u) {
      assert Describes(after[u], g, u, n, n, n);
    } else if u in after {
      var i: nat, j: nat, k: nat :| Describes(users[u], log, u, i, j, k);
      var j' := if Password(e, u).Some? then n else j;
      var k' := if Address(e, u).Some? then n else k;
      assert Born(g, u, i) && LastPassword(g, u, j') && LastAddress(g, u, k');
      assert Describes(after[u], g, u, i, j', k');
    }
  }

  lemma CallEdits(s: Store, c: Call, u: UserId)
    requires Fresh(s, c)
    ensures Edits(s.users, Next(s, c).0.users, Entry(c, Next(s, c).1), u)
  {
  }

  /** Account ids are drawn fresh, and only a signed-in account adds others. */
  ghost predicate Fresh(s: Store, c: Call) {
    match c
    case SetupOwner(_, _, id, _, _, _) => id !in s.users
    case AddUser(_, _, _, id) => id !in s.users && s.users != map[]
    case _ => true
  }

  /** And so are tokens and session ids. */
  ghost predicate Allowed(s: Store, log: Log, c: Call) {
    Fresh(s, c) && (c.SetupOwner? || c.Login? ==> FreshToken(s, log, c.token, c.sid))
  }

  ghost predicate FreshToken(s: Store, log: Log, token: Token, sid: SessionId) {
    && (forall i :: 0 <= i < |log| && Opens(log[i]) ==> log[i].call.token != token)
    && (forall t :: t in s.sessions ==> s.sessions[t].sid != sid)
  }

  ghost predicate AccountsAgree(users: map<UserId, User>, log: Log) { forall u :: AccountAgrees(users, log, u) }

  // ---- What the log says of tokens -------------------------------------------------------

  predicate Opens(e: Entry) { Did(e) && (e.call.SetupOwner? || e.call.Login?) }

  predicate OpensWith(e: Entry, token: Token) { Opens(e) && e.call.token == token }

  predicate Uses(e: Entry, token: Token) { OpensWith(e, token) || (e.call.Authenticate? && e.call.token == token) }

  function TimeOf(e: Entry): int {
    if e.call.SetupOwner? || e.call.Login? || e.call.Authenticate? then e.call.now else 0
  }

  /** A call that ends a session of this account, of this id and under this token. */
  predicate Closes(e: Entry, token: Token, sid: SessionId, u: UserId) {
    Did(e)
    && match e.call
       case Logout(t) => t == token
       case DeleteUser(v, _) => v == u
       case SetPassword(v, _) => v == u
       case RevokeSession(v, x, _) => v == u && x == sid
       case _ => false
  }

  /** The token was issued by the `i`-th call, for that account: the one set up, or the one
      that then had the name logged in under. */
  ghost predicate OpensFor(log: Log, token: Token, u: UserId, i: nat) {
    i < |log| && OpensWith(log[i], token)
    && if log[i].call.SetupOwner? then log[i].call.id == u else Named(log[..i], u, log[i].call.username)
  }

  ghost predicate Consecutive(log: Log, token: Token, j: nat, k: nat)
    requires j < k < |log|
  {
    Uses(log[j], token) && Uses(log[k], token) && forall l :: j < l < k ==> !Uses(log[l], token)
  }

  ghost predicate GapOk(log: Log, token: Token, j: nat, k: nat)
    requires j < k < |log|
  {
    Consecutive(log, token, j, k) ==> GapFits(log[j], log[k])
  }

  predicate GapFits(earlier: Entry, later: Entry) { TimeOf(later) - TimeOf(earlier) <= 30 * 24 * 60 * 60 * 1000 }

  /** The token issued at `i` has not been ended since, and no two successive uses of it are
      further apart than thirty days. */
  ghost predicate AliveFrom(log: Log, token: Token, u: UserId, i: nat) {
    && OpensFor(log, token, u, i)
    && (forall j :: i < j < |log| ==> !Closes(log[j], token, log[i].call.sid, u))
    && (forall j, k :: i <= j < k < |log| ==> GapOk(log, token, j, k))
  }

  ghost predicate Alive(log: Log, token: Token, u: UserId) { exists i: nat :: AliveFrom(log, token, u, i) }

  ghost predicate LastUse(log: Log, token: Token, j: nat) {
    j < |log| && Uses(log[j], token) && forall l :: j < l < |log| ==> !Uses(log[l], token)
  }

  /** No token is issued twice. */
  ghost predicate FreshTokens(log: Log) {
    forall i, j :: 0 <= i < j < |log| && Opens(log[i]) && Opens(log[j]) ==> log[i].call.token != log[j].call.token
  }

  /** Whom a call that issues a token issues it to. */
  ghost function Holder(log: Log, e: Entry): UserId
    requires Opens(e)
  {
    if e.call.SetupOwner? then e.call.id
    else if exists u :: Named(log, u, e.call.username) then var u :| Named(log, u, e.call.username); u
    else ""
  }

  /** Whenever a token is issued, there is just the one account it can be for. */
  ghost predicate ClearHolders(log: Log) {
    forall i :: 0 <= i < |log| && Opens(log[i]) ==> ClearHolder(log, i)
  }

  ghost predicate ClearHolder(log: Log, i: nat)
    requires i < |log| && Opens(log[i])
  {
    forall u :: OpensFor(log, log[i].call.token, u, i) <==> u == Holder(log[..i], log[i])
  }

  /** The same, computed call by call: the session under a token, while it is alive. */
  ghost function SessionOf(log: Log, token: Token): Option<Session> {
    if log == [] then None
    else
      var n := |log| - 1;
      SessionAfter(log[..n], SessionOf(log[..n], token), log[n], token)
  }

  ghost function SessionAfter(log: Log, before: Option<Session>, e: Entry, token: Token): Option<Session> {
    if OpensWith(e, token) then Some(Session(Holder(log, e), e.call.sid, e.call.now))
    else if before.None? then None
    else if e.call.Authenticate? && e.call.token == token then
      if e.call.now - before.value.lastSeenAt > SESSION_TTL_MS then None
      else Some(before.value.(lastSeenAt := e.call.now))
    else if Closes(e, token, before.value.sid, before.value.userId) then None
    else before
  }

  lemma SessionSnoc(log: Log, e: Entry, token: Token)
    ensures SessionOf(log + [e], token) == SessionAfter(log, SessionOf(log, token), e, token)
  {
    assert (log + [e])[..|log|] == log;
  }

  /** What one more call asks of a token alive until then. */
  ghost predicate Tolerates(log: Log, e: Entry, token: Token, u: UserId, i: nat, last: nat)
    requires OpensFor(log, token, u, i) && last < |log|
  {
    !Closes(e, token, log[i].call.sid, u) && (Uses(e, token) ==> GapFits(log[last], e))
  }

  lemma OpensSnoc(log: Log, e: Entry, token: Token, u: UserId, i: nat)
    requires i < |log|
    ensures OpensFor(log + [e], token, u, i) <==> OpensFor(log, token, u, i)
  {
    assert (log + [e])[..i] == log[..i];
  }

  lemma GapSnoc(log: Log, e: Entry, token: Token, j: nat, k: nat)
    requires j < k < |log|
    ensures GapOk(log + [e], token, j, k) <==> GapOk(log, token, j, k)
  {
    assert forall l :: 0 <= l < |log| ==> (log + [e])[l] == log[l];
    assert Consecutive(log + [e], token, j, k) <==> Consecutive(log, token, j, k);
  }

  lemma LastGap(log: Log, e: Entry, token: Token, last: nat, j: nat)
    requires LastUse(log, token, last) && j < |log|
    ensures Consecutive(log + [e], token, j, |log|) <==> j == last && Uses(e, token)
  {
    var g := log + [e];
    assert forall l :: 0 <= l < |log| ==> g[l] == log[l];
    if j < last {
      assert Uses(g[last], token);
    }
  }

  lemma StaysAlive(log: Log, e: Entry, token: Token, u: UserId, i: nat, last: nat)
    requires AliveFrom(log, token, u, i) && LastUse(log, token, last) && Tolerates(log, e, token, u, i, last)
    ensures AliveFrom(log + [e], token, u, i)
  {
    var g, n := log + [e], |log|;
    OpensSnoc(log, e, token, u, i);
    forall j, k | i <= j < k < |g| ensures GapOk(g, token, j, k) {
      if k < n {
        GapSnoc(log, e, token, j, k);
        assert GapOk(log, token, j, k);
      } else {
        LastGap(log, e, token, last, j);
      }
    }
    forall j | i < j < |g| ensures !Closes(g[j], token, g[i].call.sid, u) {
      assert j < n ==> g[j] == log[j];
    }
  }

  lemma WasAlive(log: Log, e: Entry, token: Token, u: UserId, i: nat, last: nat)
    requires AliveFrom(log + [e], token, u, i) && i < |log| && LastUse(log, token, last)
    ensures AliveFrom(log, token, u, i) && Tolerates(log, e, token, u, i, last)
  {
    var g, n := log + [e], |log|;
    OpensSnoc(log, e, token, u, i);
    assert forall l :: 0 <= l < n ==> g[l] == log[l];
    assert i <= last by {
      assert Uses(log[i], token);
    }
    forall j, k | i <= j < k < n ensures GapOk(log, token, j, k) {
      assert GapOk(g, token, j, k);
      GapSnoc(log, e, token, j, k);
    }
    forall j | i < j < n ensures !Closes(log[j], token, log[i].call.sid, u) {
      assert !Closes(g[j], token, g[i].call.sid, u);
    }
    assert GapOk(g, token, last, n) && !Closes(g[n], token, g[i].call.sid, u);
    LastGap(log, e, token, last, last);
  }

  lemma LastSnoc(log: Log, e: Entry, token: Token, last: nat)
    requires LastUse(log, token, last)
    ensures LastUse(log + [e], token, if Uses(e, token) then |log| else last)
  {
  }

  lemma {:induction false} FindLast(log: Log, token: Token, i: nat) returns (last: nat)
    requires i < |log| && OpensWith(log[i], token)
    ensures i <= last && LastUse(log, token, last)
  {
    var n := |log| - 1;
    if Uses(log[n], token) {
      last := n;
    } else {
      last := FindLast(log[..n], token, i);
      LastSnoc(log[..n], log[n], token, last);
      assert log == log[..n] + [log[n]];
    }
  }

  /** A session is that of a token still alive, its account, its id and its last use. */
  ghost predicate SessionFits(session: Session, log: Log, token: Token, i: nat, last: nat) {
    && AliveFrom(log, token, session.userId, i) && LastUse(log, token, last)
    && session.sid == log[i].call.sid && session.lastSeenAt == TimeOf(log[last])
  }

  ghost predicate SessionTrue(session: Option<Session>, log: Log, token: Token) {
    if session.Some? then exists i: nat, last: nat :: SessionFits(session.value, log, token, i, last)
    else forall u :: !Alive(log, token, u)
  }

  ghost predicate ClearLog(log: Log) { FreshTokens(log) && ClearHolders(log) }

  lemma ClearPrefix(log: Log, n: nat)
    requires ClearLog(log) && n <= |log|
    ensures ClearLog(log[..n])
  {
    forall i | 0 <= i < n && Opens(log[..n][i]) ensures ClearHolder(log[..n], i) {
      assert ClearHolder(log, i) && log[..n][..i] == log[..i];
      forall u ensures OpensFor(log[..n], log[i].call.token, u, i) <==> u == Holder(log[..i], log[i]) {
        assert OpensFor(log[..n], log[i].call.token, u, i) <==> OpensFor(log, log[i].call.token, u, i);
      }
    }
  }

  /** Call by call and all at once agree: a token is alive exactly when it was issued, has not
      been ended since, and has had no gap over the TTL. */
  lemma {:induction false} SessionIs(log: Log, token: Token)
    requires ClearLog(log)
    ensures SessionTrue(SessionOf(log, token), log, token)
  {
    if log != [] {
      var n := |log| - 1;
      var g, e := log[..n], log[n];
      assert log == g + [e];
      ClearPrefix(log, n);
      SessionIs(g, token);
      if OpensWith(e, token) {
        NewlyAlive(g, e, token);
      } else if SessionOf(g, token).Some? {
        AliveStep(g, e, token);
      } else {
        StaysDead(g, e, token);
      }
    }
  }

  lemma NewlyAlive(log: Log, e: Entry, token: Token)
    requires ClearLog(log + [e]) && OpensWith(e, token)
    ensures SessionFits(Session(Holder(log, e), e.call.sid, e.call.now), log + [e], token, |log|, |log|)
  {
    assert (log + [e])[..|log|] == log && ClearHolder(log + [e], |log|);
  }

  lemma StaysDead(log: Log, e: Entry, token: Token)
    requires !OpensWith(e, token) && forall u :: !Alive(log, token, u)
    ensures forall u :: !Alive(log + [e], token, u)
  {
    forall u, i: nat ensures !AliveFrom(log + [e], token, u, i) {
      if AliveFrom(log + [e], token, u, i) {
        assert i < |log|;
        var last := FindLast(log, token, i);
        WasAlive(log, e, token, u, i, last);
        assert Alive(log, token, u);
      }
    }
  }

  lemma AliveStep(log: Log, e: Entry, token: Token)
    requires ClearLog(log + [e]) && !OpensWith(e, token) && SessionOf(log, token).Some?
    requires SessionTrue(SessionOf(log, token), log, token)
    ensures SessionTrue(SessionAfter(log, SessionOf(log, token), e, token), log + [e], token)
  {
    var g, before := log + [e], SessionOf(log, token).value;
    var after := SessionAfter(log, Some(before), e, token);
    var i: nat, last: nat :| SessionFits(before, log, token, i, last);
    LastSnoc(log, e, token, last);
    if Tolerates(log, e, token, before.userId, i, last) {
      StaysAlive(log, e, token, before.userId, i, last);
      assert SessionFits(after.value, g, token, i, if Uses(e, token) then |log| else last);
    } else {
      assert after.None?;
      forall u, k: nat ensures !AliveFrom(g, token, u, k) {
        if AliveFrom(g, token, u, k) {
          OneOpening(g, token, before.userId, i, u, k, e, log);
          WasAlive(log, e, token, u, k, last);
        }
      }
    }
  }

  lemma OneOpening(g: Log, token: Token, u: UserId, i: nat, v: UserId, k: nat, e: Entry, log: Log)
    requires g == log + [e] && ClearLog(g) && OpensFor(log, token, u, i) && OpensFor(g, token, v, k)
    ensures i == k && u == v
  {
    OpensSnoc(log, e, token, u, i);
    assert g[i].call.token == g[k].call.token;
    assert ClearHolder(g, i);
  }

  // ---- Every step ------------------------------------------------------------------------

  ghost predicate OwnersKept(users: map<UserId, User>, after: map<UserId, User>) {
    forall u :: u in users && users[u].isOwner ==> u in after && after[u].isOwner
  }

  lemma UserAdded(users: map<UserId, User>, id: UserId, user: User)
    requires UsersInv(users) && id !in users && user.isOwner == (users == map[])
    requires !NameTaken(users, user.username) && (user.email.Some? ==> !EmailTakenBy(users, user.email.value, None))
    ensures UsersInv(users[id := user]) && OwnersKept(users, users[id := user])
  {
    var t := users[id := user];
    assert t[id] == user;
    if users != map[] {
      var o :| o in users && users[o].isOwner;
      assert t[o].isOwner;
    }
  }

  lemma UserRemoved(users: map<UserId, User>, id: UserId)
    requires UsersInv(users) && id in users && !users[id].isOwner
    ensures UsersInv(users - {id}) && OwnersKept(users, users - {id})
  {
    var o :| o in users && users[o].isOwner;
    assert (users - {id})[o].isOwner;
  }

  lemma UserEdited(users: map<UserId, User>, id: UserId, user: User)
    requires UsersInv(users) && id in users
    requires user.username == users[id].username && user.isOwner == users[id].isOwner
    requires user.email == users[id].email || (user.email.Some? ==> !EmailTakenBy(users, user.email.value, Some(id)))
    ensures UsersInv(users[id := user]) && OwnersKept(users, users[id := user])
  {
    var o :| o in users && users[o].isOwner;
    assert users[id := user][o].isOwner;
  }

  /** No call makes a second owner, leaves people without one, or repeats a name or address. */
  lemma UsersKept(s: Store, c: Call)
    requires UsersInv(s.users) && Fresh(s, c)
    ensures UsersInv(Next(s, c).0.users) && OwnersKept(s.users, Next(s, c).0.users)
  {
    if Next(s, c).0.users != s.users {
      match c
      case SetupOwner(username, password, id, _, _, _) =>
        UserAdded(s.users, id, User(Normalize(username), password, true, None));
      case AddUser(username, password, email, id) =>
        UserAdded(s.users, id, User(Normalize(username), password, false, NormalizeEmail(email)));
      case DeleteUser(userId, _) => UserRemoved(s.users, userId);
      case SetEmail(userId, email) => UserEdited(s.users, userId, s.users[userId].(email := NormalizeEmail(email)));
      case SetPassword(userId, password) => UserEdited(s.users, userId, s.users[userId].(secret := password));
    }
  }

  ghost predicate SessionAgrees(s: Store, log: Log, token: Token) {
    && (token in s.sessions <==> SessionOf(log, token).Some?)
    && (token in s.sessions ==>
          s.sessions[token].userId in s.users && SessionOf(log, token).value == s.sessions[token])
  }

  /** Distinct session ids, and sessions as their history says. */
  ghost predicate SessionsInv(s: Store, log: Log) {
    && (forall a, b :: a in s.sessions && b in s.sessions && s.sessions[a].sid == s.sessions[b].sid ==> a == b)
    && forall token :: SessionAgrees(s, log, token)
  }

  ghost predicate Inv(s: Store, log: Log) {
    && UsersInv(s.users) && AccountsAgree(s.users, log)
    && SessionsInv(s, log) && ClearLog(log)
  }

  lemma AccountsKept(s: Store, log: Log, c: Call)
    requires AccountsAgree(s.users, log) && Fresh(s, c)
    ensures AccountsAgree(Next(s, c).0.users, log + [Entry(c, Next(s, c).1)])
  {
    forall u ensures AccountAgrees(Next(s, c).0.users, log + [Entry(c, Next(s, c).1)], u) {
      CallEdits(s, c, u);
      AccountSnoc(s.users, Next(s, c).0.users, log, Entry(c, Next(s, c).1), u);
    }
  }

  /** The account a successful login is for is the one of that name. */
  lemma HolderIs(s: Store, log: Log, c: Call)
    requires UsersInv(s.users) && AccountsAgree(s.users, log) && c.Login? && Next(s, c).1 == Done
    ensures exists u :: Matches(s.users, u, c.username, c.password)
    ensures Holder(log, Entry(c, Done)) == TheUser(s.users, c.username, c.password)
    ensures forall u :: Named(log, u, c.username) <==> u == Holder(log, Entry(c, Done))
  {
    var u := TheUser(s.users, c.username, c.password);
    AccountIs(s.users, log, u);
    forall v ensures Named(log, v, c.username) <==> v == u {
      AccountIs(s.users, log, v);
    }
  }

  lemma LogStaysClear(s: Store, log: Log, c: Call)
    requires UsersInv(s.users) && AccountsAgree(s.users, log) && ClearLog(log) && Allowed(s, log, c)
    ensures ClearLog(log + [Entry(c, Next(s, c).1)])
  {
    var e := Entry(c, Next(s, c).1);
    var g, n := log + [e], |log|;
    forall i | 0 <= i < |g| && Opens(g[i]) ensures ClearHolder(g, i) {
      if i < n {
        assert ClearHolder(log, i) && g[..i] == log[..i];
        forall u ensures OpensFor(g, g[i].call.token, u, i) <==> u == Holder(g[..i], g[i]) {
          OpensSnoc(log, e, log[i].call.token, u, i);
        }
      } else {
        assert g[..n] == log;
        if c.Login? {
          HolderIs(s, log, c);
        }
      }
    }
  }

  /** What a call must do to the session table. */
  ghost predicate Turns(s: Store, t: Store, log: Log, e: Entry, token: Token) {
    var before := if token in s.sessions then Some(s.sessions[token]) else None;
    var after := if token in t.sessions then Some(t.sessions[token]) else None;
    after == SessionAfter(log, before, e, token) && (after.Some? ==> after.value.userId in t.users)
  }

  lemma LoginTurns(s: Store, log: Log, c: Call, token: Token)
    requires Inv(s, log) && Allowed(s, log, c) && c.Login?
    ensures Turns(s, Next(s, c).0, log, Entry(c, Next(s, c).1), token)
  {
    assert SessionAgrees(s, log, token);
    if Next(s, c).1 == Done {
      HolderIs(s, log, c);
    }
  }

  lemma RevokeTurns(s: Store, log: Log, c: Call, token: Token)
    requires Inv(s, log) && c.RevokeSession?
    ensures Turns(s, Next(s, c).0, log, Entry(c, Next(s, c).1), token)
  {
    assert SessionAgrees(s, log, token);
    if Next(s, c).1 == Done {
      var gone := TheSession(s.sessions, c.userId, c.sid);
      assert IsSession(s.sessions, gone, c.userId, c.sid);
    }
  }

  lemma CallTurns(s: Store, log: Log, c: Call, token: Token)
    requires Inv(s, log) && Allowed(s, log, c)
    ensures Turns(s, Next(s, c).0, log, Entry(c, Next(s, c).1), token)
  {
    match c
    case Login(_, _, _, _, _, _, _) => LoginTurns(s, log, c, token);
    case RevokeSession(_, _, _) => RevokeTurns(s, log, c, token);
    case DeleteUser(_, _) => EndTurns(s, log, c, token);
    case SetPassword(_, _) => EndTurns(s, log, c, token);
    case _ => assert SessionAgrees(s, log, token);
  }

  lemma EndTurns(s: Store, log: Log, c: Call, token: Token)
    requires Inv(s, log) && (c.DeleteUser? || c.SetPassword?)
    ensures Turns(s, Next(s, c).0, log, Entry(c, Next(s, c).1), token)
  {
    assert SessionAgrees(s, log, token);
  }

  lemma SessionsKept(s: Store, log: Log, c: Call)
    requires Inv(s, log) && Allowed(s, log, c)
    ensures SessionsInv(Next(s, c).0, log + [Entry(c, Next(s, c).1)])
  {
    var t, e := Next(s, c).0, Entry(c, Next(s, c).1);
    forall token ensures SessionAgrees(t, log + [e], token) {
      CallTurns(s, log, c, token);
      SessionSnoc(log, e, token);
      assert SessionAgrees(s, log, token);
    }
    forall a, b | a in t.sessions && b in t.sessions && t.sessions[a].sid == t.sessions[b].sid ensures a == b {
      SidsStayApart(s, log, c, a, b);
    }
  }

  lemma SidsStayApart(s: Store, log: Log, c: Call, a: Token, b: Token)
    requires Inv(s, log) && Allowed(s, log, c)
    requires a in Next(s, c).0.sessions && b in Next(s, c).0.sessions
    requires Next(s, c).0.sessions[a].sid == Next(s, c).0.sessions[b].sid
    ensures a == b
  {
  }

  lemma StepKeeps(s: Store, log: Log, c: Call)
    requires Inv(s, log) && Allowed(s, log, c)
    ensures Inv(Next(s, c).0, log + [Entry(c, Next(s, c).1)])
  {
    UsersKept(s, c);
    AccountsKept(s, log, c);
    LogStaysClear(s, log, c);
    SessionsKept(s, log, c);
  }

  const START := Store(map[], map[], map[])

  /** A run of calls from an empty store, and its log. */
  ghost predicate Trace(calls: seq<Call>, s: Store, log: Log) {
    if calls == [] then s == START && log == []
    else
      var n := |calls| - 1;
      exists before, past :: Trace(calls[..n], before, past) && Allowed(before, past, calls[n])
        && s == Next(before, calls[n]).0 && log == past + [Entry(calls[n], Next(before, calls[n]).1)]
  }

  lemma LastCall(calls: seq<Call>, s: Store, log: Log) returns (before: Store, past: Log)
    requires calls != [] && Trace(calls, s, log)
    ensures var c := calls[|calls| - 1];
      && Trace(calls[..|calls| - 1], before, past) && Allowed(before, past, c)
      && s == Next(before, c).0 && log == past + [Entry(c, Next(before, c).1)]
  {
    var n := |calls| - 1;
    before, past :| Trace(calls[..n], before, past) && Allowed(before, past, calls[n])
      && s == Next(before, calls[n]).0 && log == past + [Entry(calls[n], Next(before, calls[n]).1)];
  }

  /** Every run keeps one owner, distinct names and addresses, and accounts and sessions as the
      log has them. */
  lemma {:induction false} TraceKeeps(calls: seq<Call>, s: Store, log: Log)
    requires Trace(calls, s, log)
    ensures Inv(s, log)
    decreases |calls|
  {
    if calls != [] {
      var before, past := LastCall(calls, s, log);
      TraceKeeps(calls[..|calls| - 1], before, past);
      StepKeeps(before, past, calls[|calls| - 1]);
    } else {
      forall token ensures SessionAgrees(s, log, token) {}
      forall u ensures AccountAgrees(s.users, log, u) {}
    }
  }

  // ---- What the log says of the throttle -------------------------------------------------

  /** Logins count against the address they come from, or else against the name they try. */
  predicate LoginOn(c: Call, key: Key) {
    c.Login? && if c.ip.Some? then c.ip.value == key else Normalize(c.username) == key
  }

  predicate FailedOn(e: Entry, key: Key) { LoginOn(e.call, key) && e.outcome == Fails(BadCredentials) }

  predicate LoggedInOn(e: Entry, key: Key) { LoginOn(e.call, key) && Did(e) }

  /** How many logins have failed since the last that did not. */
  function Streak(log: Log, key: Key): nat {
    if log == [] then 0
    else
      var n := |log| - 1;
      if LoggedInOn(log[n], key) then 0 else Streak(log[..n], key) + (if FailedOn(log[n], key) then 1 else 0)
  }

  /** Every tenth failure in a row ... */
  predicate ArmsAt(log: Log, key: Key, j: nat) {
    j < |log| && FailedOn(log[j], key) && Streak(log[..j + 1], key) % 10 == 0
  }

  /** ... turns every login on that key away for a quarter of an hour. */
  ghost predicate BarredBy(log: Log, key: Key, at: int, j: nat) {
    && ArmsAt(log, key, j) && log[j].call.now + 15 * 60 * 1000 > at
    && forall k :: j < k < |log| ==> !LoggedInOn(log[k], key) && !ArmsAt(log, key, k)
  }

  ghost predicate Barred(log: Log, key: Key, at: int) { exists j: nat :: BarredBy(log, key, at, j) }

  /** A time of the clock; none is before 1970. */
  ghost predicate ThrottleAgrees(failures: Throttle.Table, log: Log, key: Key) {
    && EntryOf(failures, key).count == Streak(log, key) % 10
    && forall at :: at >= 0 ==> (Blocked(failures, key, at) <==> Barred(log, key, at))
  }

  lemma ArmsSnoc(log: Log, e: Entry, key: Key, j: nat)
    ensures ArmsAt(log + [e], key, j)
       <==> if j == |log| then FailedOn(e, key) && Streak(log + [e], key) % 10 == 0 else ArmsAt(log, key, j)
    ensures Streak(log + [e], key)
         == if LoggedInOn(e, key) then 0 else Streak(log, key) + (if FailedOn(e, key) then 1 else 0)
  {
    var g := log + [e];
    assert g[..|log|] == log && g[..|g|] == g;
    if j < |log| {
      assert g[..j + 1] == log[..j + 1];
    }
  }

  lemma BarredSnoc(log: Log, e: Entry, key: Key, at: int)
    ensures var g := log + [e];
      Barred(g, key, at) <==>
        if ArmsAt(g, key, |log|) then e.call.now + 15 * 60 * 1000 > at
        else Barred(log, key, at) && !LoggedInOn(e, key)
  {
    var g, n := log + [e], |log|;
    forall j: nat ensures j < n ==> (ArmsAt(g, key, j) <==> ArmsAt(log, key, j)) {
      ArmsSnoc(log, e, key, j);
    }
    assert forall k :: 0 <= k < n ==> g[k] == log[k];
    if ArmsAt(g, key, n) {
      if e.call.now + 15 * 60 * 1000 > at {
        assert BarredBy(g, key, at, n);
      }
    } else if Barred(log, key, at) && !LoggedInOn(e, key) {
      var j: nat :| BarredBy(log, key, at, j);
      assert BarredBy(g, key, at, j);
    }
    if j: nat :| BarredBy(g, key, at, j) {
      if j < n {
        assert BarredBy(log, key, at, j);
        assert !LoggedInOn(g[n], key) && !ArmsAt(g, key, n);
      }
    }
  }

  lemma ThrottleKept(s: Store, log: Log, c: Call, key: Key)
    requires ThrottleAgrees(s.failures, log, key) && Sane(s.failures)
    ensures ThrottleAgrees(Next(s, c).0.failures, log + [Entry(c, Next(s, c).1)], key)
  {
    var e, after := Entry(c, Next(s, c).1), Next(s, c).0.failures;
    ArmsSnoc(log, e, key, |log|);
    LoginIsAttempt(s, c);
    forall at | at >= 0 ensures Blocked(after, key, at) <==> Barred(log + [e], key, at) {
      BarredSnoc(log, e, key, at);
    }
  }

  lemma {:induction false} TraceThrottles(calls: seq<Call>, s: Store, log: Log, key: Key)
    requires Trace(calls, s, log)
    ensures Sane(s.failures) && ThrottleAgrees(s.failures, log, key)
    decreases |calls|
  {
    if calls != [] {
      var before, past := LastCall(calls, s, log);
      TraceThrottles(calls[..|calls| - 1], before, past, key);
      LoginIsAttempt(before, calls[|calls| - 1]);
      ThrottleKept(before, past, calls[|calls| - 1], key);
    }
  }

  // ---- Every answer ----------------------------------------------------------------------

  /** Nothing but white space. */
  predicate Blank(s: string) { forall i :: 0 <= i < |s| ==> Text.IsSpace(s[i]) }

  /** Some other account has it. */
  ghost predicate AddressTaken(log: Log, email: string, except: Option<UserId>) {
    exists u :: Some(u) != except && HasAddress(log, u, Normalize(email))
  }

  ghost function AddressAnswer(log: Log, email: Option<string>, except: Option<UserId>): Outcome {
    if email.None? || Blank(email.value) then Done
    else if !EmailShape(Normalize(email.value)) then Fails(BadEmail)
    else if AddressTaken(log, email.value, except) then Fails(Error.EmailTaken)
    else Done
  }

  ghost function CreateAnswer(log: Log, username: string, password: string, email: Option<string>): Outcome {
    if Blank(username) then Fails(UsernameRequired)
    else if |password| < 8 then Fails(PasswordTooShort)
    else if exists u :: Named(log, u, username) then Fails(UsernameTaken)
    else AddressAnswer(log, email, None)
  }

  /** Some account of that name was last given that password. */
  ghost predicate Knows(log: Log, username: string, password: string) {
    exists u :: Named(log, u, username) && HasPassword(log, u, password)
  }

  ghost predicate Holds(log: Log, token: Token, u: UserId, sid: SessionId) {
    exists i: nat :: AliveFrom(log, token, u, i) && log[i].call.sid == sid
  }

  /** What a call is answered, from the calls before it and their answers alone. */
  ghost function Answer(log: Log, c: Call): Outcome {
    match c
    case SetupOwner(username, password, _, _, _, _) =>
      if exists u :: HasAccount(log, u) then Fails(SetupDone) else CreateAnswer(log, username, password, None)
    case AddUser(username, password, email, _) => CreateAnswer(log, username, password, email)
    case Login(username, password, ip, _, _, asked, _) =>
      if Barred(log, if ip.Some? then ip.value else Normalize(username), asked) then Fails(TooManyAttempts)
      else if Knows(log, username, password) then Done
      else Fails(BadCredentials)
    case Logout(_) => Done
    case DeleteUser(u, caller) =>
      if IsOwner(log, u) then Fails(OwnerUndeletable)
      else if HasAccount(log, u) && u == caller then Fails(NotYourself)
      else Done
    case SetEmail(u, email) =>
      if !HasAccount(log, u) then Fails(UserNotFound) else AddressAnswer(log, email, Some(u))
    case SetPassword(u, password) =>
      if !HasAccount(log, u) then Fails(UserNotFound)
      else if |password| < 8 then Fails(PasswordTooShort)
      else Done
    case RevokeSession(u, sid, current) =>
      if !exists t :: Holds(log, t, u, sid) then Fails(SessionNotFound)
      else if current.Some? && Holds(log, current.value, u, sid) then Fails(OwnSession)
      else Done
    case Authenticate(token, _) =>
      var used := log + [Entry(c, Anonymous)];
      if exists u :: Alive(used, token, u) then var u :| Alive(used, token, u); Authenticated(u) else Anonymous
  }

  lemma BlankIs(s: string)
    ensures Blank(s) <==> Normalize(s) == ""
  {
    var a, b := NormalizeIs(s);
    if a < b {
      assert !Text.IsSpace(s[a]);
    }
  }

  lemma AddressAnswerIs(users: map<UserId, User>, log: Log, email: Option<string>, except: Option<UserId>)
    requires AccountsAgree(users, log)
    ensures var e := EmailError(users, NormalizeEmail(email), except);
      AddressAnswer(log, email, except) == if e.Some? then Fails(e.value) else Done
  {
    if email.Some? {
      BlankIs(email.value);
      forall u ensures HasAddress(log, u, Normalize(email.value))
        <==> u in users && users[u].email == Some(Normalize(email.value))
      {
        AccountIs(users, log, u);
      }
    }
  }

  lemma CreateAnswerIs(users: map<UserId, User>, log: Log, username: string, password: string, email: Option<string>)
    requires AccountsAgree(users, log)
    ensures var e := CreateError(users, username, password, email);
      CreateAnswer(log, username, password, email) == if e.Some? then Fails(e.value) else Done
  {
    BlankIs(username);
    AddressAnswerIs(users, log, email, None);
    forall u ensures Named(log, u, username) <==> u in users && users[u].username == Normalize(username) {
      AccountIs(users, log, u);
    }
  }

  lemma KnowsIs(users: map<UserId, User>, log: Log, username: string, password: string)
    requires AccountsAgree(users, log)
    ensures Knows(log, username, password) <==> exists u :: Matches(users, u, username, password)
  {
    forall u
      ensures Named(log, u, username) && HasPassword(log, u, password) <==> Matches(users, u, username, password)
    {
      AccountIs(users, log, u);
    }
  }

  /** An unbarred login succeeds exactly when some account not deleted since it was made has
      that name, and was last given that password. */
  lemma LoginAnswerIs(s: Store, log: Log, c: Call)
    requires AccountsAgree(s.users, log) && c.Login? && c.asked >= 0
    requires ThrottleAgrees(s.failures, log, ThrottleKey(c.ip, c.username))
    ensures Next(s, c).1 == Answer(log, c)
  {
    KnowsIs(s.users, log, c.username, c.password);
  }

  lemma HoldsIs(s: Store, log: Log, token: Token, u: UserId, sid: SessionId)
    requires SessionAgrees(s, log, token) && ClearLog(log)
    ensures Holds(log, token, u, sid) <==> IsSession(s.sessions, token, u, sid)
  {
    SessionIs(log, token);
    if token in s.sessions {
      var session := s.sessions[token];
      var i: nat, last: nat :| SessionFits(session, log, token, i, last);
      forall v, k: nat | AliveFrom(log, token, v, k) ensures k == i && v == session.userId {
        SameOpening(log, token, session.userId, i, v, k);
      }
    } else {
      forall k: nat | AliveFrom(log, token, u, k) ensures false {
        assert Alive(log, token, u);
      }
    }
  }

  lemma SameOpening(log: Log, token: Token, u: UserId, i: nat, v: UserId, k: nat)
    requires ClearLog(log) && OpensFor(log, token, u, i) && OpensFor(log, token, v, k)
    ensures i == k && u == v
  {
    assert log[i].call.token == log[k].call.token && ClearHolder(log, i);
  }

  lemma RevokeAnswerIs(s: Store, log: Log, c: Call)
    requires SessionsInv(s, log) && ClearLog(log) && c.RevokeSession?
    ensures Next(s, c).1 == Answer(log, c)
  {
    forall t ensures Holds(log, t, c.userId, c.sid) <==> IsSession(s.sessions, t, c.userId, c.sid) {
      assert SessionAgrees(s, log, t);
      HoldsIs(s, log, t, c.userId, c.sid);
    }
    if exists t :: IsSession(s.sessions, t, c.userId, c.sid) {
      var t := TheSession(s.sessions, c.userId, c.sid);
      assert forall x :: IsSession(s.sessions, x, c.userId, c.sid) ==> x == t;
    }
  }

  /** A token authenticates exactly when it was issued, has not been logged out, revoked, or
      its account deleted or reset since, and no gap between its successive uses, this one
      included, exceeds the TTL. It then stands for the account it was issued to. */
  lemma AuthenticateIff(s: Store, log: Log, c: Call)
    requires SessionsInv(s, log) && ClearLog(log) && c.Authenticate?
    ensures Next(s, c).1 == Answer(log, c)
    ensures var used := log + [Entry(c, Anonymous)];
      forall u :: Next(s, c).1 == Authenticated(u) <==> Alive(used, c.token, u)
  {
    var e := Entry(c, Anonymous);
    var used := log + [e];
    UsedIsClear(log, e);
    SessionIs(used, c.token);
    assert SessionAgrees(s, log, c.token);
    SessionSnoc(log, e, c.token);
    if SessionOf(used, c.token).Some? {
      var session := SessionOf(used, c.token).value;
      var i: nat, last: nat :| SessionFits(session, used, c.token, i, last);
      assert Alive(used, c.token, session.userId);
      forall u, k: nat | AliveFrom(used, c.token, u, k) ensures u == session.userId {
        SameOpening(used, c.token, session.userId, i, u, k);
      }
    }
  }

  lemma UsedIsClear(log: Log, e: Entry)
    requires ClearLog(log) && !Opens(e)
    ensures ClearLog(log + [e])
  {
    var g := log + [e];
    forall i | 0 <= i < |g| && Opens(g[i]) ensures ClearHolder(g, i) {
      assert ClearHolder(log, i) && g[..i] == log[..i];
      forall u ensures OpensFor(g, g[i].call.token, u, i) <==> u == Holder(g[..i], g[i]) {
        OpensSnoc(log, e, log[i].call.token, u, i);
      }
    }
  }

  /** Every call of every run is answered as the log before it says. */
  lemma AnswerIs(calls: seq<Call>, s: Store, log: Log, c: Call)
    requires Trace(calls, s, log) && Allowed(s, log, c) && (c.Login? ==> c.asked >= 0)
    ensures Next(s, c).1 == Answer(log, c)
  {
    TraceKeeps(calls, s, log);
    match c
    case Login(username, _, ip, _, _, _, _) =>
      TraceThrottles(calls, s, log, ThrottleKey(ip, username));
      LoginAnswerIs(s, log, c);
    case RevokeSession(_, _, _) => RevokeAnswerIs(s, log, c);
    case Authenticate(_, _) => AuthenticateIff(s, log, c);
    case _ => AccountAnswerIs(s, log, c);
  }

  lemma AccountAnswerIs(s: Store, log: Log, c: Call)
    requires AccountsAgree(s.users, log)
    requires !c.Login? && !c.RevokeSession? && !c.Authenticate?
    ensures Next(s, c).1 == Answer(log, c)
  {
    forall u ensures u in s.users <==> HasAccount(log, u) {
      AccountIs(s.users, log, u);
    }
    match c
    case SetupOwner(username, password, _, _, _, _) => CreateAnswerIs(s.users, log, username, password, None);
    case AddUser(username, password, email, _) => CreateAnswerIs(s.users, log, username, password, email);
    case SetEmail(u, email) => AddressAnswerIs(s.users, log, email, Some(u));
    case DeleteUser(u, _) => AccountIs(s.users, log, u);
    case _ =>
  }

  /** So is every entry of every log. */
  lemma {:induction false} LogIsAnswered(calls: seq<Call>, s: Store, log: Log, k: nat)
    requires Trace(calls, s, log) && k < |log|
    requires forall i :: 0 <= i < |log| && log[i].call.Login? ==> log[i].call.asked >= 0
    ensures log[k].outcome == Answer(log[..k], log[k].call)
    decreases |calls|
  {
    var before, past := LastCall(calls, s, log);
    var n := |past|;
    assert log[..n] == past && log[n].call == calls[|calls| - 1];
    if k < n {
      assert past[..k] == log[..k];
      LogIsAnswered(calls[..|calls| - 1], before, past, k);
    } else {
      AnswerIs(calls[..|calls| - 1], before, past, log[k].call);
    }
  }

  // ---- The throttle over runs ------------------------------------------------------------

  ghost function After(s: Store, calls: seq<Call>): Store {
    if calls == [] then s else Next(After(s, calls[..|calls| - 1]), calls[|calls| - 1]).0
  }

  /** How many logins on `key` are turned down for their password. */
  ghost function FailedLogins(s: Store, calls: seq<Call>, key: Key): nat {
    if calls == [] then 0
    else
      var n := |calls| - 1;
      FailedLogins(s, calls[..n], key)
      + (if LoginOn(calls[n], key) && Next(After(s, calls[..n]), calls[n]).1 == Fails(BadCredentials) then 1 else 0)
  }

  /** The logins of a run as attempts at the throttle. */
  ghost function Attempts(s: Store, calls: seq<Call>): seq<Attempt> {
    if calls == [] then []
    else
      var n := |calls| - 1;
      Attempts(s, calls[..n]) + (if calls[n].Login? then [AttemptOf(After(s, calls[..n]), calls[n])] else [])
  }

  lemma {:induction false} RunIsAttempts(s: Store, calls: seq<Call>, key: Key)
    ensures After(s, calls).failures == Throttle.After(s.failures, Attempts(s, calls))
    ensures FailedLogins(s, calls, key) == FailedChecks(s.failures, Attempts(s, calls), key)
  {
    if calls != [] {
      var n := |calls| - 1;
      RunIsAttempts(s, calls[..n], key);
      LoginIsAttempt(After(s, calls[..n]), calls[n]);
      if calls[n].Login? {
        OneMore(s.failures, Attempts(s, calls[..n]), AttemptOf(After(s, calls[..n]), calls[n]), key);
      } else {
        assert Attempts(s, calls) == Attempts(s, calls[..n]);
      }
    }
  }

  /** The logins of a closed window of time, one after the other. */
  ghost predicate LoginWindow(calls: seq<Call>, from: int, length: nat) {
    && (forall i :: 0 <= i < |calls| && calls[i].Login? ==>
          from <= calls[i].asked <= calls[i].now && calls[i].asked <= from + length)
    && (forall i, j :: 0 <= i < j < |calls| && calls[i].Login? && calls[j].Login? ==> calls[i].now <= calls[j].asked)
  }

  ghost predicate NoLoginOn(s: Store, calls: seq<Call>, key: Key) {
    forall i :: 0 <= i < |calls| && LoginOn(calls[i], key) ==> Next(After(s, calls[..i]), calls[i]).1 != Done
  }

  lemma {:induction false} AttemptTimes(s: Store, calls: seq<Call>, k: nat) returns (i: nat)
    requires k < |Attempts(s, calls)|
    ensures i < |calls| && calls[i].Login?
    ensures Attempts(s, calls)[k].asked == calls[i].asked && Attempts(s, calls)[k].recorded == calls[i].now
  {
    var n := |calls| - 1;
    if k < |Attempts(s, calls[..n])| {
      i := AttemptTimes(s, calls[..n], k);
    } else {
      i := n;
    }
  }

  lemma {:induction false} AttemptsFit(s: Store, calls: seq<Call>, key: Key, from: int, length: nat)
    requires LoginWindow(calls, from, length) && NoLoginOn(s, calls, key)
    ensures var run := Attempts(s, calls);
      Window(run, from) && NoSuccess(s.failures, run, key)
      && forall k :: 0 <= k < |run| ==> run[k].asked <= from + length
  {
    if calls != [] {
      var n := |calls| - 1;
      var init := calls[..n];
      assert forall i :: 0 <= i < n ==> init[i] == calls[i] && init[..i] == calls[..i];
      AttemptsFit(s, init, key, from, length);
      if calls[n].Login? {
        var before, a := Attempts(s, init), AttemptOf(After(s, init), calls[n]);
        forall k | 0 <= k < |before| ensures before[k].recorded <= a.asked {
          var i := AttemptTimes(s, init, k);
        }
        RunIsAttempts(s, init, key);
        LoginIsAttempt(After(s, init), calls[n]);
        NoSuccessMore(s.failures, before, a, key);
      } else {
        assert Attempts(s, calls) == Attempts(s, init);
      }
    }
  }

  lemma NoSuccessMore(t: Throttle.Table, run: seq<Attempt>, a: Attempt, key: Key)
    requires NoSuccess(t, run, key) && (a.key == key && a.correct ==> Blocked(Throttle.After(t, run), key, a.asked))
    ensures NoSuccess(t, run + [a], key)
  {
    var all := run + [a];
    forall i | 0 <= i < |all| && all[i].key == key && all[i].correct
      ensures Blocked(Throttle.After(t, all[..i]), key, all[i].asked)
    {
      assert i < |run| ==> all[i] == run[i];
      assert all[..i] == run[..i];
    }
  }

  /** From any reachable store: a closed window of length `length` in which no login on `key`
      succeeds turns down at most this many of them for their password. */
  lemma LoginsAreBounded(past: seq<Call>, s: Store, log: Log, calls: seq<Call>, key: Key, from: int, length: nat)
    requires Trace(past, s, log) && LoginWindow(calls, from, length) && NoLoginOn(s, calls, key)
    ensures FailedLogins(s, calls, key) <= MAX_LOGIN_FAILURES * (length / LOGIN_BLOCK_MS + 1)
  {
    TraceThrottles(past, s, log, key);
    AttemptsFit(s, calls, key, from, length);
    RunIsAttempts(s, calls, key);
    WindowBound(s.failures, Attempts(s, calls), key, from, length);
  }
}
