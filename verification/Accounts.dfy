/** User accounts and session tokens (apps/server/src/auth.ts). Calls do not overlap. */
module Accounts {
  import opened Bytes
  import opened Throttle
  import Text

  type UserId = string
  type Token = string
  type SessionId = string

  const SESSION_TTL_MS: int := 30 * 24 * 60 * 60 * 1000
  const MIN_PASSWORD: nat := 8

  /** `secret` stands for the password hash, which verifies that password and no other. */
  datatype User = User(username: string, secret: string, isOwner: bool, email: Option<string>)

  datatype Session = Session(userId: UserId, sid: SessionId, lastSeenAt: int)

  datatype Store = Store(users: map<UserId, User>, sessions: map<Token, Session>, failures: Throttle.Table)

  datatype Error =
    | SetupDone | UsernameRequired | PasswordTooShort | UsernameTaken | BadEmail | EmailTaken | TooManyAttempts
    | BadCredentials | UserNotFound | OwnerUndeletable | NotYourself | SessionNotFound | OwnSession

  datatype Outcome = Done | Fails(error: Error) | Authenticated(user: UserId) | Anonymous

  // ---- Normalizing ---------------------------------------------------------------------

  function LowerCase(s: string): string { seq(|s|, i requires 0 <= i < |s| => Text.Lower(s[i])) }

  function Normalize(s: string): string { LowerCase(Text.Trim(s)) }

  function NormalizeEmail(email: Option<string>): Option<string> {
    if email.Some? && Normalize(email.value) != "" then Some(Normalize(email.value)) else None
  }

  predicate PlainChars(s: string) { s != [] && forall i :: 0 <= i < |s| ==> s[i] != '@' && !Text.IsSpace(s[i]) }

  /** Something, an at sign, something with a dot inside. */
  predicate EmailShape(s: string) {
    exists i, j :: 0 <= i < j < |s| && s[i] == '@' && s[j] == '.'
      && PlainChars(s[..i]) && PlainChars(s[i + 1..j]) && PlainChars(s[j + 1..])
  }

  /** A normalized text is its text without the white space around it, in lower case. */
  lemma NormalizeIs(s: string) returns (a: nat, b: nat)
    ensures a <= b <= |s| && (forall i :: 0 <= i < a || b <= i < |s| ==> Text.IsSpace(s[i]))
    ensures a < b ==> !Text.IsSpace(s[a]) && !Text.IsSpace(s[b - 1])
    ensures |Normalize(s)| == b - a && forall i :: 0 <= i < b - a ==> Normalize(s)[i] == Text.Lower(s[a + i])
  {
    a, b := Text.TrimIs(s);
  }

  /** One at sign, something in front of it, no white space, and behind it a dot that is neither
      the first nor the last character. */
  ghost predicate AddressText(s: string, i: int) {
    && (forall k :: 0 <= k < |s| ==> !Text.IsSpace(s[k])) && OnlyAtSign(s, i) && i > 0
    && exists j :: i + 1 < j < |s| - 1 && s[j] == '.'
  }

  lemma EmailShapeIff(s: string)
    ensures EmailShape(s) <==> exists i :: AddressText(s, i)
  {
    if EmailShape(s) {
      var i, j :| 0 <= i < j < |s| && s[i] == '@' && s[j] == '.'
        && PlainChars(s[..i]) && PlainChars(s[i + 1..j]) && PlainChars(s[j + 1..]);
      forall k | 0 <= k < |s| ensures !Text.IsSpace(s[k]) && (s[k] == '@' ==> k == i) {
        PieceAt(s, i, j, k);
      }
      assert i + 1 < j < |s| - 1;
      assert AddressText(s, i);
    }
    if i :| AddressText(s, i) {
      var j :| i + 1 < j < |s| - 1 && s[j] == '.';
      PiecesArePlain(s, i, j);
    }
  }

  lemma PiecesArePlain(s: string, i: int, j: int)
    requires AddressText(s, i) && i + 1 < j < |s| - 1
    ensures PlainChars(s[..i]) && PlainChars(s[i + 1..j]) && PlainChars(s[j + 1..])
  {
  }

  ghost predicate OnlyAtSign(s: string, i: int) {
    0 <= i < |s| && s[i] == '@' && forall k :: 0 <= k < |s| && s[k] == '@' ==> k == i
  }

  lemma PieceAt(s: string, i: nat, j: nat, k: nat)
    requires i < j < |s| && s[i] == '@' && s[j] == '.' && k < |s|
    requires PlainChars(s[..i]) && PlainChars(s[i + 1..j]) && PlainChars(s[j + 1..])
    ensures !Text.IsSpace(s[k]) && (s[k] == '@' ==> k == i)
  {
    if k < i {
      assert s[k] == s[..i][k];
    } else if i < k < j {
      assert s[k] == s[i + 1..j][k - i - 1];
    } else if j < k {
      assert s[k] == s[j + 1..][k - j - 1];
    }
  }

  // ---- One call, on values ---------------------------------------------------------------

  predicate NameTaken(users: map<UserId, User>, name: string) { exists u :: u in users && users[u].username == name }

  predicate EmailTakenBy(users: map<UserId, User>, email: string, except: Option<UserId>) {
    exists u :: u in users && Some(u) != except && users[u].email == Some(email)
  }

  function EmailError(users: map<UserId, User>, email: Option<string>, except: Option<UserId>): Option<Error> {
    if email.None? then None
    else if !EmailShape(email.value) then Some(BadEmail)
    else if EmailTakenBy(users, email.value, except) then Some(Error.EmailTaken)
    else None
  }

  function CreateError(users: map<UserId, User>, username: string, password: string,
                       email: Option<string>): Option<Error> {
    if Normalize(username) == "" then Some(UsernameRequired)
    else if |password| < MIN_PASSWORD then Some(PasswordTooShort)
    else if NameTaken(users, Normalize(username)) then Some(UsernameTaken)
    else EmailError(users, NormalizeEmail(email), None)
  }

  function WithoutUser(sessions: map<Token, Session>, userId: UserId): map<Token, Session> {
    map t | t in sessions && sessions[t].userId != userId :: sessions[t]
  }

  datatype Call =
    | SetupOwner(username: string, password: string, id: UserId, token: Token, sid: SessionId, now: int)
    | AddUser(username: string, password: string, email: Option<string>, id: UserId)
    | Login(username: string, password: string, ip: Option<string>, token: Token, sid: SessionId, asked: int, now: int)
    | Logout(token: Token)
    | DeleteUser(userId: UserId, callerId: UserId)
    | SetEmail(userId: UserId, email: Option<string>)
    | SetPassword(userId: UserId, password: string)
    | RevokeSession(userId: UserId, sid: SessionId, current: Option<Token>)
    | Authenticate(token: Token, now: int)

  function ThrottleKey(ip: Option<string>, username: string): Key { if ip.Some? then ip.value else Normalize(username) }

  predicate Matches(users: map<UserId, User>, u: UserId, username: string, password: string) {
    u in users && users[u].username == Normalize(username) && users[u].secret == password
  }

  ghost function TheUser(users: map<UserId, User>, username: string, password: string): UserId
    requires exists u :: Matches(users, u, username, password)
  {
    var u :| Matches(users, u, username, password); u
  }

  predicate IsSession(sessions: map<Token, Session>, t: Token, userId: UserId, sid: SessionId) {
    t in sessions && sessions[t].userId == userId && sessions[t].sid == sid
  }

  ghost function TheSession(sessions: map<Token, Session>, userId: UserId, sid: SessionId): Token
    requires exists t :: IsSession(sessions, t, userId, sid)
  {
    var t :| IsSession(sessions, t, userId, sid); t
  }

  ghost function Next(s: Store, c: Call): (Store, Outcome) {
    match c
    case SetupOwner(username, password, id, token, sid, now) =>
      if s.users != map[] then (s, Fails(SetupDone))
      else if CreateError(s.users, username, password, None).Some?
        then (s, Fails(CreateError(s.users, username, password, None).value))
      else (s.(users := s.users[id := User(Normalize(username), password, true, None)],
               sessions := s.sessions[token := Session(id, sid, now)]), Done)
    case AddUser(username, password, email, id) =>
      if CreateError(s.users, username, password, email).Some?
        then (s, Fails(CreateError(s.users, username, password, email).value))
      else (s.(users := s.users[id := User(Normalize(username), password, false, NormalizeEmail(email))]), Done)
    case Login(username, password, ip, token, sid, asked, now) =>
      var key := ThrottleKey(ip, username);
      if Blocked(s.failures, key, asked) then (s, Fails(TooManyAttempts))
      else if exists u :: Matches(s.users, u, username, password) then
        (s.(failures := s.failures - {key},
            sessions := s.sessions[token := Session(TheUser(s.users, username, password), sid, now)]), Done)
      else (s.(failures := Recorded(s.failures, key, now)), Fails(BadCredentials))
    case Logout(token) => (s.(sessions := s.sessions - {token}), Done)
    case DeleteUser(userId, callerId) =>
      if userId !in s.users then (s, Done)
      else if s.users[userId].isOwner then (s, Fails(OwnerUndeletable))
      else if userId == callerId then (s, Fails(NotYourself))
      else (s.(users := s.users - {userId}, sessions := WithoutUser(s.sessions, userId)), Done)
    case SetEmail(userId, email) =>
      if userId !in s.users then (s, Fails(UserNotFound))
      else if EmailError(s.users, NormalizeEmail(email), Some(userId)).Some? then
        (s, Fails(EmailError(s.users, NormalizeEmail(email), Some(userId)).value))
      else (s.(users := s.users[userId := s.users[userId].(email := NormalizeEmail(email))]), Done)
    case SetPassword(userId, password) =>
      if userId !in s.users then (s, Fails(UserNotFound))
      else if |password| < MIN_PASSWORD then (s, Fails(PasswordTooShort))
      else (s.(users := s.users[userId := s.users[userId].(secret := password)],
               sessions := WithoutUser(s.sessions, userId)), Done)
    case RevokeSession(userId, sid, current) =>
      if !exists t :: IsSession(s.sessions, t, userId, sid) then (s, Fails(SessionNotFound))
      else if current == Some(TheSession(s.sessions, userId, sid)) then (s, Fails(OwnSession))
      else (s.(sessions := s.sessions - {TheSession(s.sessions, userId, sid)}), Done)
    case Authenticate(token, now) =>
      if token !in s.sessions then (s, Anonymous)
      else if now - s.sessions[token].lastSeenAt > SESSION_TTL_MS then (s.(sessions := s.sessions - {token}), Anonymous)
      else if s.sessions[token].userId !in s.users then (s, Anonymous)
      else (s.(sessions := s.sessions[token := s.sessions[token].(lastSeenAt := now)]),
        Authenticated(s.sessions[token].userId))
  }

  /** At most one owner, and one as soon as there is anybody; distinct usernames and addresses. */
  ghost predicate UsersInv(users: map<UserId, User>) {
    && (users != map[] ==> exists u :: u in users && users[u].isOwner)
    && (forall u, v :: u in users && v in users && users[u].isOwner && users[v].isOwner ==> u == v)
    && (forall u, v :: u in users && v in users && users[u].username == users[v].username ==> u == v)
    && (forall u, v :: u in users && v in users && users[u].email.Some? && users[u].email == users[v].email ==> u == v)
  }

  // ---- The store -------------------------------------------------------------------------

  class AuthStore {
    var users: map<UserId, User>
    var sessions: map<Token, Session>
    var loginFailures: Throttle.Table

    ghost function State(): Store reads this { Store(users, sessions, loginFailures) }

    constructor ()
      ensures State() == Store(map[], map[], map[])
    {
      users, sessions, loginFailures := map[], map[], map[];
    }

    method CreateUser(username: string, password: string, isOwner: bool, email: Option<string>, id: UserId)
      returns (r: Outcome)
      modifies this`users
      ensures var e := CreateError(old(users), username, password, email);
        if e.Some? then r == Fails(e.value) && users == old(users)
        else r == Done && users == old(users)[id := User(Normalize(username), password, isOwner, NormalizeEmail(email))]
    {
      var name := Normalize(username);
      if name == "" {
        return Fails(UsernameRequired);
      }
      if |password| < MIN_PASSWORD {
        return Fails(PasswordTooShort);
      }
      if NameTaken(users, name) {
        return Fails(UsernameTaken);
      }
      var normalized := NormalizeEmail(email);
      if normalized.Some? {
        if !EmailShape(normalized.value) {
          return Fails(BadEmail);
        }
        if EmailTakenBy(users, normalized.value, None) {
          return Fails(Error.EmailTaken);
        }
      }
      users := users[id := User(name, password, isOwner, normalized)];
      return Done;
    }

    method SetupOwner(username: string, password: string, id: UserId, token: Token, sid: SessionId, now: int)
      returns (r: Outcome)
      modifies this
      ensures (State(), r) == Next(old(State()), Call.SetupOwner(username, password, id, token, sid, now))
    {
      if users != map[] {
        return Fails(SetupDone);
      }
      r := CreateUser(username, password, true, None, id);
      if r == Done {
        sessions := sessions[token := Session(id, sid, now)];
      }
    }

    method AddUser(username: string, password: string, email: Option<string>, id: UserId) returns (r: Outcome)
      modifies this
      ensures (State(), r) == Next(old(State()), Call.AddUser(username, password, email, id))
    {
      r := CreateUser(username, password, false, email, id);
    }

    /** At most one account matches, so which one is found does not depend on the search. The
        clock is read before the password's hash is checked, `asked`, and again after, `now`. */
    method Login(username: string, password: string, ip: Option<string>, token: Token, sid: SessionId,
                 asked: int, now: int)
      returns (r: Outcome)
      requires UsersInv(users)
      modifies this
      ensures (State(), r) == Next(old(State()), Call.Login(username, password, ip, token, sid, asked, now))
    {
      var key := ThrottleKey(ip, username);
      if key in loginFailures && loginFailures[key].blockedUntil > asked {
        return Fails(TooManyAttempts);
      }
      if !exists u :: u in users && Matches(users, u, username, password) {
        loginFailures := Recorded(loginFailures, key, now);
        return Fails(BadCredentials);
      }
      var u :| u in users && Matches(users, u, username, password);
      loginFailures := loginFailures - {key};
      sessions := sessions[token := Session(u, sid, now)];
      return Done;
    }

    method Logout(token: Token)
      modifies this
      ensures State() == Next(old(State()), Call.Logout(token)).0
    {
      if token in sessions {
        sessions := sessions - {token};
      }
    }

    method DeleteUser(userId: UserId, callerId: UserId) returns (r: Outcome)
      modifies this
      ensures (State(), r) == Next(old(State()), Call.DeleteUser(userId, callerId))
    {
      if userId !in users {
        return Done;
      }
      if users[userId].isOwner {
        return Fails(OwnerUndeletable);
      }
      if userId == callerId {
        return Fails(NotYourself);
      }
      users := users - {userId};
      DeleteSessionsForUser(userId);
      return Done;
    }

    method DeleteSessionsForUser(userId: UserId)
      modifies this`sessions
      ensures sessions == WithoutUser(old(sessions), userId)
    {
      var todo := sessions.Keys;
      while todo != {}
        invariant todo <= old(sessions).Keys && sessions.Keys <= old(sessions).Keys
        invariant forall t :: t in todo ==> t in sessions
        invariant forall t :: t in sessions ==> sessions[t] == old(sessions)[t]
        invariant forall t ::
          t in old(sessions) && t !in todo ==> (t in sessions <==> old(sessions)[t].userId != userId)
        decreases |todo|
      {
        var t :| t in todo;
        if sessions[t].userId == userId {
          sessions := sessions - {t};
        }
        todo := todo - {t};
      }
    }

    method SetEmail(userId: UserId, email: Option<string>) returns (r: Outcome)
      modifies this
      ensures (State(), r) == Next(old(State()), Call.SetEmail(userId, email))
    {
      if userId !in users {
        return Fails(UserNotFound);
      }
      var normalized := NormalizeEmail(email);
      if normalized.Some? {
        if !EmailShape(normalized.value) {
          return Fails(BadEmail);
        }
        if EmailTakenBy(users, normalized.value, Some(userId)) {
          return Fails(Error.EmailTaken);
        }
      }
      users := users[userId := users[userId].(email := normalized)];
      return Done;
    }

    method AdminSetPassword(userId: UserId, password: string) returns (r: Outcome)
      modifies this
      ensures (State(), r) == Next(old(State()), SetPassword(userId, password))
    {
      if userId !in users {
        return Fails(UserNotFound);
      }
      if |password| < MIN_PASSWORD {
        return Fails(PasswordTooShort);
      }
      users := users[userId := users[userId].(secret := password)];
      DeleteSessionsForUser(userId);
      return Done;
    }

    method RevokeSession(userId: UserId, sid: SessionId, current: Option<Token>) returns (r: Outcome)
      requires forall a, b :: a in sessions && b in sessions && sessions[a].sid == sessions[b].sid ==> a == b
      modifies this
      ensures (State(), r) == Next(old(State()), Call.RevokeSession(userId, sid, current))
    {
      if !exists t :: t in sessions && IsSession(sessions, t, userId, sid) {
        return Fails(SessionNotFound);
      }
      var t :| t in sessions && IsSession(sessions, t, userId, sid);
      if current == Some(t) {
        return Fails(OwnSession);
      }
      sessions := sessions - {t};
      return Done;
    }

    method Authenticate(token: Token, now: int) returns (r: Outcome)
      modifies this
      ensures (State(), r) == Next(old(State()), Call.Authenticate(token, now))
    {
      if token !in sessions {
        return Anonymous;
      }
      var session := sessions[token];
      if now - session.lastSeenAt > SESSION_TTL_MS {
        sessions := sessions - {token};
        return Anonymous;
      }
      if session.userId !in users {
        return Anonymous;
      }
      sessions := sessions[token := session.(lastSeenAt := now)];
      return Authenticated(session.userId);
    }
  }

  /** A login is one attempt at the throttle, and no other call touches it. */
  lemma LoginIsAttempt(s: Store, c: Call)
    ensures Next(s, c).0.failures == if c.Login? then AfterAttempt(s.failures, AttemptOf(s, c)) else s.failures
    ensures c.Login? ==>
              var blocked := Blocked(s.failures, AttemptOf(s, c).key, c.asked);
              && (Next(s, c).1 == Done <==> AttemptOf(s, c).correct && !blocked)
              && (Next(s, c).1 == Fails(BadCredentials) <==> !AttemptOf(s, c).correct && !blocked)
  {
  }

  ghost function AttemptOf(s: Store, c: Call): Attempt
    requires c.Login?
  {
    Attempt(ThrottleKey(c.ip, c.username), c.asked, c.now, exists u :: Matches(s.users, u, c.username, c.password))
  }
}
