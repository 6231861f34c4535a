/** Server-side login sessions: which tokens authenticate, over everything the service has done. */
module Sessions {
  import opened Options

  datatype User = User(email: string, passwordHash: string, lastLogin: Option<int>)

  datatype Session = Session(userId: string, tokenHash: string, expiresAt: int)

  /** What the service has done: a login that went through, a logout, a check of a token. */
  datatype Act =
    | LogIn(token: string, sessionId: string, userId: string, expiresAt: int)
    | LogOut(token: string)
    | Check(token: string, at: int)

  /** The act ends the session that the login opened. */
  predicate Ends(a: Act, login: Act)
    requires login.LogIn?
  {
    match a
    case LogIn(_, _, _, _) => false
    case LogOut(token) => token == login.token
    case Check(token, at) => token == login.token && at > login.expiresAt
  }

  /** Act i is a login that nothing since has ended. */
  ghost predicate IsOpen(log: seq<Act>, i: int) {
    && 0 <= i < |log| && log[i].LogIn?
    && forall j :: i < j < |log| ==> !Ends(log[j], log[i])
  }

  /** Tokens and session identifiers are drawn afresh. */
  ghost predicate IsFresh(log: seq<Act>, token: string, sessionId: string) {
    forall i :: 0 <= i < |log| && log[i].LogIn? ==> log[i].token != token && log[i].sessionId != sessionId
  }

  ghost predicate LoginsAreDistinct(log: seq<Act>) {
    forall i, j :: 0 <= i < j < |log| && log[i].LogIn? && log[j].LogIn? ==>
                     log[i].token != log[j].token && log[i].sessionId != log[j].sessionId
  }

  ghost predicate IsInjective(hash: string -> string) {
    forall a, b :: hash(a) == hash(b) ==> a == b
  }

  function SessionOf(hash: string -> string, login: Act): Session
    requires login.LogIn?
  {
    Session(login.userId, hash(login.token), login.expiresAt)
  }

  /** The stored sessions are those of the open logins. */
  ghost predicate Records(hash: string -> string, sessions: map<string, Session>, log: seq<Act>) {
    && (forall i :: IsOpen(log, i) ==> log[i].sessionId in sessions && sessions[log[i].sessionId] == SessionOf(hash, log[i]))
    && (forall id :: id in sessions ==> exists i :: IsOpen(log, i) && log[i].sessionId == id)
  }

  ghost predicate EmailsAreDistinct(users: map<string, User>) {
    forall a, b :: a in users && b in users && users[a].email == users[b].email ==> a == b
  }

  /** The account a password opens. */
  ghost predicate Opens(users: map<string, User>, verify: (string, string) -> bool, id: string, email: string, password: string) {
    id in users && users[id].email == email && verify(password, users[id].passwordHash)
  }

  lemma OpenAfter(log: seq<Act>, a: Act, i: int)
    ensures IsOpen(log + [a], i) <==>
            if i == |log| then a.LogIn? else IsOpen(log, i) && !Ends(a, log[i])
  {
    var longer := log + [a];
    assert longer[|log|] == a;
    if 0 <= i < |log| && log[i].LogIn? {
      assert longer[i] == log[i];
      assert forall j :: 0 <= j < |log| ==> longer[j] == log[j];
    }
  }

  /** At most one open login has a given token, so its record is the only one with its hash. */
  lemma RecordOfToken(hash: string -> string, sessions: map<string, Session>, log: seq<Act>, token: string, id: string)
    returns (i: int)
    requires IsInjective(hash) && LoginsAreDistinct(log) && Records(hash, sessions, log)
    requires id in sessions && sessions[id].tokenHash == hash(token)
    ensures IsOpen(log, i) && log[i].token == token && log[i].sessionId == id && sessions[id] == SessionOf(hash, log[i])
    ensures forall k :: IsOpen(log, k) && log[k].token == token ==> k == i
  {
    i :| IsOpen(log, i) && log[i].sessionId == id;
  }

  lemma NoRecordNoLogin(hash: string -> string, sessions: map<string, Session>, log: seq<Act>, token: string)
    requires Records(hash, sessions, log)
    requires forall id :: id in sessions ==> sessions[id].tokenHash != hash(token)
    ensures forall k :: IsOpen(log, k) ==> log[k].token != token
  {
  }

  lemma DistinctAfterLogin(log: seq<Act>, a: Act)
    requires LoginsAreDistinct(log) && a.LogIn? && IsFresh(log, a.token, a.sessionId)
    ensures LoginsAreDistinct(log + [a])
  {
  }

  lemma RecordsAfterLogin(hash: string -> string, sessions: map<string, Session>, log: seq<Act>, a: Act)
    requires Records(hash, sessions, log) && a.LogIn? && IsFresh(log, a.token, a.sessionId)
    ensures Records(hash, sessions[a.sessionId := SessionOf(hash, a)], log + [a])
  {
    var longer, after := log + [a], sessions[a.sessionId := SessionOf(hash, a)];
    assert longer[|log|] == a;
    forall i
      ensures IsOpen(longer, i) <==> i == |log| || IsOpen(log, i)
      ensures IsOpen(log, i) ==> longer[i] == log[i]
    {
      OpenAfter(log, a, i);
    }
    forall id | id in after
      ensures exists i :: IsOpen(longer, i) && longer[i].sessionId == id
    {
      if id == a.sessionId {
        assert IsOpen(longer, |log|);
      } else {
        var i :| IsOpen(log, i) && log[i].sessionId == id;
        assert IsOpen(longer, i);
      }
    }
  }

  /** An act that ends no session leaves the records as they are. */
  lemma RecordsAfterNothing(hash: string -> string, sessions: map<string, Session>, log: seq<Act>, a: Act)
    requires Records(hash, sessions, log) && !a.LogIn?
    requires forall i :: IsOpen(log, i) ==> !Ends(a, log[i])
    ensures Records(hash, sessions, log + [a])
  {
    var longer := log + [a];
    forall i
      ensures IsOpen(longer, i) <==> IsOpen(log, i)
      ensures IsOpen(log, i) ==> longer[i] == log[i]
    {
      OpenAfter(log, a, i);
    }
    forall id | id in sessions
      ensures exists i :: IsOpen(longer, i) && longer[i].sessionId == id
    {
      var i :| IsOpen(log, i) && log[i].sessionId == id;
      assert IsOpen(longer, i);
    }
  }

  /** An act that ends one session takes away its record. */
  lemma RecordsAfterEnd(hash: string -> string, sessions: map<string, Session>, log: seq<Act>, a: Act, k: int)
    requires Records(hash, sessions, log) && LoginsAreDistinct(log) && !a.LogIn?
    requires IsOpen(log, k) && Ends(a, log[k])
    ensures Records(hash, sessions - {log[k].sessionId}, log + [a])
  {
    var longer, after := log + [a], sessions - {log[k].sessionId};
    forall i
      ensures IsOpen(longer, i) <==> IsOpen(log, i) && i != k
      ensures IsOpen(log, i) ==> longer[i] == log[i]
    {
      OpenAfter(log, a, i);
    }
    forall id | id in after
      ensures exists i :: IsOpen(longer, i) && longer[i].sessionId == id
    {
      var i :| IsOpen(log, i) && log[i].sessionId == id;
      assert IsOpen(longer, i);
    }
  }

  /** The token is that of an open login of the account and has not expired. */
  ghost predicate Authenticates(log: seq<Act>, token: string, now: int, userId: string) {
    exists i :: && IsOpen(log, i) && log[i].token == token && log[i].userId == userId
                && now <= log[i].expiresAt
  }

  class Service {
    const ttl: int
    const hash: string -> string
    const verify: (string, string) -> bool
    var users: map<string, User>
    var sessions: map<string, Session>
    ghost var log: seq<Act>

    ghost predicate Valid()
      reads this
    {
      && IsInjective(hash)
      && EmailsAreDistinct(users)
      && LoginsAreDistinct(log)
      && Records(hash, sessions, log)
      && (forall i :: 0 <= i < |log| && log[i].LogIn? ==> log[i].userId in users && log[i].token != "")
    }

    constructor (ttl: int, hash: string -> string, verify: (string, string) -> bool)
      requires IsInjective(hash)
      ensures Valid() && users == map[] && log == []
      ensures this.ttl == ttl && this.hash == hash && this.verify == verify
    {
      this.ttl, this.hash, this.verify := ttl, hash, verify;
      users, sessions, log := map[], map[], [];
    }

    method GetUserByEmail(email: string) returns (found: Option<string>)
      ensures match found
              case Some(id) => id in users && users[id].email == email
              case None => forall id :: id in users ==> users[id].email != email
    {
      var todo := users.Keys;
      while todo != {}
        invariant todo <= users.Keys
        invariant forall id :: id in users.Keys - todo ==> users[id].email != email
        decreases todo
      {
        var id :| id in todo;
        if users[id].email == email {
          return Some(id);
        }
        todo := todo - {id};
      }
      return None;
    }

    method GetSessionByTokenHash(tokenHash: string) returns (found: Option<string>)
      ensures match found
              case Some(id) => id in sessions && sessions[id].tokenHash == tokenHash
              case None => forall id :: id in sessions ==> sessions[id].tokenHash != tokenHash
    {
      var todo := sessions.Keys;
      while todo != {}
        invariant todo <= sessions.Keys
        invariant forall id :: id in sessions.Keys - todo ==> sessions[id].tokenHash != tokenHash
        decreases todo
      {
        var id :| id in todo;
        if sessions[id].tokenHash == tokenHash {
          return Some(id);
        }
        todo := todo - {id};
      }
      return None;
    }

    /** Adds an account unless the email is taken. */
    method CreateUser(id: string, email: string, passwordHash: string) returns (ok: bool)
      requires Valid() && id !in users
      modifies this`users
      ensures Valid()
      ensures ok <==> forall u :: u in old(users) ==> old(users)[u].email != email
      ensures users == if ok then old(users)[id := User(email, passwordHash, None)] else old(users)
    {
      var taken := GetUserByEmail(email);
      if taken.Some? {
        return false;
      }
      users := users[id := User(email, passwordHash, None)];
      return true;
    }

    /** Opens a session for the account that the email and the password name, if there is one. */
    method Login(email: string, password: string, token: string, sessionId: string, now: int) returns (userId: Option<string>)
      requires Valid() && token != "" && IsFresh(log, token, sessionId)
      modifies this`users, this`sessions, this`log
      ensures Valid()
      ensures match userId
              case None => (
                && users == old(users) && log == old(log)
                && forall id :: !Opens(old(users), verify, id, email, password))
              case Some(id) => (
                && Opens(old(users), verify, id, email, password)
                && users == old(users)[id := old(users)[id].(lastLogin := Some(now))]
                && log == old(log) + [LogIn(token, sessionId, id, now + ttl)])
    {
      hide Records, LoginsAreDistinct;
      userId := GetUserByEmail(email);
      if userId == None || !verify(password, users[userId.value].passwordHash) {
        return None;
      }
      var id := userId.value;
      ghost var a := LogIn(token, sessionId, id, now + ttl);
      RecordsAfterLogin(hash, sessions, log, a);
      DistinctAfterLogin(log, a);
      sessions := sessions[sessionId := Session(id, hash(token), now + ttl)];
      users := users[id := users[id].(lastLogin := Some(now))];
      log := log + [a];
    }

    /** Ends the token's session, if there is one. */
    method Logout(token: string)
      requires Valid()
      modifies this`sessions, this`log
      ensures Valid() && log == old(log) + [LogOut(token)]
    {
      var found := GetSessionByTokenHash(hash(token));
      ghost var a := LogOut(token);
      if found.Some? {
        ghost var k := RecordOfToken(hash, sessions, log, token, found.value);
        RecordsAfterEnd(hash, sessions, log, a, k);
        sessions := sessions - {found.value};
      } else {
        RecordsAfterNothing(hash, sessions, log, a);
      }
      log := log + [a];
    }

    /** The account whose open, unexpired session the token names. */
    method Authenticate(token: string, now: int) returns (userId: Option<string>)
      requires Valid()
      modifies this`sessions, this`log
      ensures Valid() && log == old(log) + [Check(token, now)]
      ensures userId.Some? ==> userId.value in users
      ensures forall id :: userId == Some(id) <==> Authenticates(old(log), token, now, id)
    {
      hide EmailsAreDistinct, Records;
      ghost var a := Check(token, now);
      var found := None;
      if token != "" {
        found := GetSessionByTokenHash(hash(token));
      }
      if found == None {
        if token != "" {
          NoRecordNoLogin(hash, sessions, log, token);
        }
        RecordsAfterNothing(hash, sessions, log, a);
        log := log + [a];
        return None;
      }
      var session := sessions[found.value];
      ghost var k := RecordOfToken(hash, sessions, log, token, found.value);
      if now > session.expiresAt {
        RecordsAfterEnd(hash, sessions, log, a, k);
        sessions, log := sessions - {found.value}, log + [a];
        return None;
      }
      RecordsAfterNothing(hash, sessions, log, a);
      log := log + [a];
      return Some(session.userId);
    }
  }

  /** The token was issued to the account, has not been logged out since, and has not expired. */
  ghost predicate IsLive(log: seq<Act>, token: string, now: int, userId: string) {
    exists i :: && 0 <= i < |log| && log[i].LogIn? && log[i].token == token && log[i].userId == userId
                && now <= log[i].expiresAt
                && LogOut(token) !in log[i..]
  }

  /** A token is accepted exactly if it is live, whenever no check read a later clock than now. */
  lemma AuthenticatesExactly(log: seq<Act>, token: string, now: int, userId: string)
    requires forall a :: a in log && a.Check? ==> a.at <= now
    ensures Authenticates(log, token, now, userId) <==> IsLive(log, token, now, userId)
  {
    forall i | 0 <= i < |log| && log[i].LogIn? && log[i].token == token && now <= log[i].expiresAt
      ensures IsOpen(log, i) <==> LogOut(token) !in log[i..]
    {
      if LogOut(token) in log[i..] {
        var j :| 0 <= j < |log| - i && log[i..][j] == LogOut(token);
        assert Ends(log[i + j], log[i]);
      } else {
        forall j | i < j < |log|
          ensures !Ends(log[j], log[i])
        {
          assert log[j] in log && log[j] == log[i..][j - i];
        }
      }
    }
  }

  /** With a clock that steps back, a live token is refused exactly if a check past its expiry removed it. */
  lemma RefusedAfterClockStep(log: seq<Act>, i: int, now: int)
    requires LoginsAreDistinct(log)
    requires 0 <= i < |log| && log[i].LogIn? && now <= log[i].expiresAt && LogOut(log[i].token) !in log[i..]
    ensures Authenticates(log, log[i].token, now, log[i].userId)
       <==> forall j :: i < j < |log| && log[j].Check? && log[j].token == log[i].token ==> log[j].at <= log[i].expiresAt
  {
    forall j | i < j < |log|
      ensures log[j] != LogOut(log[i].token)
    {
      assert log[j] == log[i..][j - i];
    }
  }
}
