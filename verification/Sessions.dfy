/**
 * The session table of the authentication service: login, refresh with
 * rotation and reuse detection, logout and revocation.
 *
 * Signing is a source of distinct tokens (`serial`), hashing is injective
 * (`Sha256`), and a token is genuine exactly when it is in `signed`.
 */
module Sessions {
  import opened Common

  type UserId = string
  type SessionId = nat

  const REFRESH_LIFETIME: int := 604800   // seconds; the configured default of 7 days

  datatype AccessToken = AccessToken(userId: UserId, serial: nat)
  datatype RefreshToken = RefreshToken(userId: UserId, exp: int, serial: nat)
  datatype TokenHash = Sha256(token: RefreshToken)
  datatype Tokens = Tokens(access: AccessToken, refresh: RefreshToken)

  datatype Session = Session(userId: UserId, tokenHash: TokenHash, expiresAt: int, isRevoked: bool)

  /** `alerts` lists the users of the SECURITY_ALERT audit entries. */
  datatype Server = Server(
    sessions: map<SessionId, Session>,
    signed: set<RefreshToken>,
    nextSerial: nat,
    nextSession: SessionId,
    alerts: seq<UserId>)

  datatype AuthError = InvalidCredentials | InvalidSignature | SessionMissing | ReuseDetected | UnknownSession

  const EMPTY_SERVER := Server(map[], {}, 0, 0, [])

  /** The rows `findOne({ userId, isRevoked: false })` may return. */
  function Unrevoked(s: Server, user: UserId): set<SessionId> {
    set sid | sid in s.sessions && s.sessions[sid].userId == user && !s.sessions[sid].isRevoked
  }

  /** `findOne` returns some matching row, and nothing only when there is none. */
  predicate CanPick(s: Server, user: UserId, pick: Option<SessionId>) {
    match pick
    case None => Unrevoked(s, user) == {}
    case Some(sid) => sid in Unrevoked(s, user)
  }

  /** `verifyAsync`: the signature is ours and the `exp` claim lies in the future. */
  predicate Verifies(s: Server, t: RefreshToken, now: int) {
    t in s.signed && now < t.exp
  }

  function Sign(s: Server, user: UserId, now: int): (r: (Server, Tokens)) {
    var access := AccessToken(user, s.nextSerial);
    var refresh := RefreshToken(user, now + REFRESH_LIFETIME, s.nextSerial + 1);
    (s.(signed := s.signed + {refresh}, nextSerial := s.nextSerial + 2), Tokens(access, refresh))
  }

  function Login(s: Server, user: UserId, passwordMatches: bool, now: int): (Server, Result<Tokens, AuthError>) {
    if !passwordMatches then (s, Err(InvalidCredentials))
    else
      var (s', tokens) := Sign(s, user, now);
      var row := Session(user, Sha256(tokens.refresh), tokens.refresh.exp, false);
      (s'.(sessions := s'.sessions[s.nextSession := row], nextSession := s.nextSession + 1), Ok(tokens))
  }

  function RevokeAll(s: Server, user: UserId): Server {
    s.(sessions := map sid | sid in s.sessions ::
      if s.sessions[sid].userId == user then s.sessions[sid].(isRevoked := true) else s.sessions[sid])
  }

  function Refresh(s: Server, t: RefreshToken, pick: Option<SessionId>, now: int)
    : (Server, Result<Tokens, AuthError>)
    requires CanPick(s, t.userId, pick)
  {
    if !Verifies(s, t, now) then (s, Err(InvalidSignature))
    else if pick.None? then (s, Err(SessionMissing))
    else if s.sessions[pick.value].tokenHash != Sha256(t) then
      var s' := RevokeAll(s, t.userId);
      (s'.(alerts := s.alerts + [t.userId]), Err(ReuseDetected))
    else
      var (s', tokens) := Sign(s, t.userId, now);
      var row := s.sessions[pick.value].(tokenHash := Sha256(tokens.refresh), expiresAt := tokens.refresh.exp);
      (s'.(sessions := s'.sessions[pick.value := row]), Ok(tokens))
  }

  /** Revokes the caller's session holding this token, if there is one. */
  function Logout(s: Server, t: RefreshToken, user: UserId): Server {
    s.(sessions := map sid | sid in s.sessions ::
      if s.sessions[sid].tokenHash == Sha256(t) && s.sessions[sid].userId == user
      then s.sessions[sid].(isRevoked := true) else s.sessions[sid])
  }

  function RevokeSession(s: Server, sid: SessionId, user: UserId): (Server, Result<(), AuthError>) {
    if sid in s.sessions && s.sessions[sid].userId == user then
      (s.(sessions := s.sessions[sid := s.sessions[sid].(isRevoked := true)]), Ok(()))
    else (s, Err(UnknownSession))
  }

  // ---------------------------------------------------------------- runs

  datatype Event =
    | LoginEvent(user: UserId, passwordMatches: bool, now: int)
    | RefreshEvent(token: RefreshToken, pick: Option<SessionId>, now: int)
    | LogoutEvent(token: RefreshToken, user: UserId)
    | RevokeEvent(sid: SessionId, user: UserId)

  predicate Legal(s: Server, e: Event) {
    e.RefreshEvent? ==> CanPick(s, e.token.userId, e.pick)
  }

  function Step(s: Server, e: Event): Server
    requires Legal(s, e)
  {
    match e
    case LoginEvent(user, passwordMatches, now) => Login(s, user, passwordMatches, now).0
    case RefreshEvent(token, pick, now) => Refresh(s, token, pick, now).0
    case LogoutEvent(token, user) => Logout(s, token, user)
    case RevokeEvent(sid, user) => RevokeSession(s, sid, user).0
  }

  predicate LegalRun(s: Server, es: seq<Event>)
    decreases es
  {
    es == [] || (Legal(s, es[0]) && LegalRun(Step(s, es[0]), es[1..]))
  }

  function Exec(s: Server, es: seq<Event>): Server
    requires LegalRun(s, es)
    decreases es
  {
    if es == [] then s else Exec(Step(s, es[0]), es[1..])
  }

  /** A token that a session once held and holds no longer: every signed token is stored when it is made. */
  predicate RotatedOut(s: Server, t: RefreshToken) {
    t in s.signed && forall sid :: sid in s.sessions ==> s.sessions[sid].tokenHash != Sha256(t)
  }

  ghost predicate Valid(s: Server) {
    && (forall t :: t in s.signed ==> t.serial < s.nextSerial)
    && (forall sid :: sid in s.sessions ==>
          && sid < s.nextSession
          && s.sessions[sid].tokenHash.token in s.signed
          && s.sessions[sid].tokenHash.token.userId == s.sessions[sid].userId
          && s.sessions[sid].expiresAt == s.sessions[sid].tokenHash.token.exp)
    && (forall a, b :: a in s.sessions && b in s.sessions && a != b ==>
          s.sessions[a].tokenHash != s.sessions[b].tokenHash)
  }

  lemma StepKeepsValid(s: Server, e: Event)
    requires Valid(s) && Legal(s, e)
    ensures Valid(Step(s, e))
  {
  }

  lemma {:induction false} RunKeepsValid(s: Server, es: seq<Event>)
    requires Valid(s) && LegalRun(s, es)
    ensures Valid(Exec(s, es))
    decreases es
  {
    if es != [] {
      StepKeepsValid(s, es[0]);
      RunKeepsValid(Step(s, es[0]), es[1..]);
    }
  }

  /** What one successful refresh does: the old token is out, the new one is in, nothing else moves. */
  lemma RefreshRotates(s: Server, t: RefreshToken, pick: Option<SessionId>, now: int)
    requires Valid(s) && CanPick(s, t.userId, pick) && Refresh(s, t, pick, now).1.Ok?
    ensures pick.Some? && s.sessions[pick.value].tokenHash == Sha256(t)
    ensures var (s', r) := Refresh(s, t, pick, now);
      && RotatedOut(s', t)
      && r.value.refresh !in s.signed
      && r.value.refresh.userId == r.value.access.userId == t.userId
      && s'.sessions.Keys == s.sessions.Keys
      && s'.sessions[pick.value] == Session(t.userId, Sha256(r.value.refresh), now + REFRESH_LIFETIME, false)
      && (forall sid :: sid in s.sessions && sid != pick.value ==> s'.sessions[sid] == s.sessions[sid])
  {
  }

  /** An expired or foreign token is refused whatever the table holds, and nobody's session suffers for it. */
  lemma UnverifiedTokenIsInert(s: Server, t: RefreshToken, pick: Option<SessionId>, now: int)
    requires CanPick(s, t.userId, pick) && (t.exp <= now || t !in s.signed)
    ensures Refresh(s, t, pick, now) == (s, Err(InvalidSignature))
  {
  }

  /** Which of its four outcomes a genuine, unexpired token has, and what each of them changes. */
  lemma VerifiedTokenOutcomes(s: Server, t: RefreshToken, pick: Option<SessionId>, now: int)
    requires Valid(s) && CanPick(s, t.userId, pick) && t in s.signed && now < t.exp
    ensures var (s', r) := Refresh(s, t, pick, now);
      && (r == Err(SessionMissing) <==>
            forall sid :: sid in s.sessions && s.sessions[sid].userId == t.userId ==> s.sessions[sid].isRevoked)
      && (r == Err(ReuseDetected) <==> pick.Some? && s.sessions[pick.value].tokenHash.token != t)
      && (r.Ok? <==> pick.Some? && s.sessions[pick.value].tokenHash.token == t)
      && (r == Err(SessionMissing) ==> s' == s)
      && (r == Err(ReuseDetected) ==>
            && s'.alerts == s.alerts + [t.userId] && s'.signed == s.signed && s'.sessions.Keys == s.sessions.Keys
            && forall sid :: sid in s.sessions ==>
                 s'.sessions[sid].isRevoked == (s.sessions[sid].isRevoked || s.sessions[sid].userId == t.userId)
                 && s'.sessions[sid] == s.sessions[sid].(isRevoked := s'.sessions[sid].isRevoked))
      && (r.Ok? ==> s'.alerts == s.alerts && r.value.refresh.exp == now + REFRESH_LIFETIME
                    && r.value.refresh in s'.signed)
  {
    if forall sid :: sid in s.sessions && s.sessions[sid].userId == t.userId ==> s.sessions[sid].isRevoked {
      assert Unrevoked(s, t.userId) == {};
    } else {
      var sid :| sid in s.sessions && s.sessions[sid].userId == t.userId && !s.sessions[sid].isRevoked;
      assert sid in Unrevoked(s, t.userId);
    }
  }

  /** A session whose expiry every refresh of a run has passed is never rotated again. */
  lemma {:induction false} ExpiredSessionStaysPut(s: Server, es: seq<Event>, sid: SessionId)
    requires Valid(s) && LegalRun(s, es) && sid in s.sessions
    requires forall e <- es :: e.RefreshEvent? ==> e.now >= s.sessions[sid].expiresAt
    ensures var s' := Exec(s, es);
      sid in s'.sessions && s'.sessions[sid] == s.sessions[sid].(isRevoked := s'.sessions[sid].isRevoked)
    decreases es
  {
    if es != [] {
      var s1 := Step(s, es[0]);
      assert es[0] in es && forall e <- es[1..] :: e in es;
      StepKeepsValid(s, es[0]);
      if es[0].RefreshEvent? && es[0].token.exp <= es[0].now {
        UnverifiedTokenIsInert(s, es[0].token, es[0].pick, es[0].now);
      }
      assert sid in s1.sessions && s1.sessions[sid] == s.sessions[sid].(isRevoked := s1.sessions[sid].isRevoked);
      ExpiredSessionStaysPut(s1, es[1..], sid);
    }
  }

  /** Only the right password opens a session; then exactly one, holding the new token for its whole lifetime. */
  lemma LoginOpensOneSession(s: Server, user: UserId, passwordMatches: bool, now: int)
    requires Valid(s)
    ensures var (s', r) := Login(s, user, passwordMatches, now);
      && (!passwordMatches ==> s' == s && r == Err(InvalidCredentials))
      && (passwordMatches ==>
            && r.Ok? && s'.alerts == s.alerts && s.nextSession !in s.sessions
            && r.value.access.userId == r.value.refresh.userId == user
            && r.value.refresh !in s.signed && r.value.refresh in s'.signed
            && r.value.refresh.exp == now + REFRESH_LIFETIME
            && s'.sessions == s.sessions[s.nextSession :=
                 Session(user, Sha256(r.value.refresh), now + REFRESH_LIFETIME, false)])
  {
  }

  /** Logout closes the caller's session holding the token, if any, and changes no other row. */
  lemma LogoutTouchesOwn(s: Server, t: RefreshToken, user: UserId, sid: SessionId)
    requires Valid(s) && sid in s.sessions
    ensures var s' := Logout(s, t, user);
      && s' == s.(sessions := s'.sessions) && s'.sessions.Keys == s.sessions.Keys
      && s'.sessions[sid] == s.sessions[sid].(isRevoked := s.sessions[sid].isRevoked
           || (s.sessions[sid].tokenHash.token == t && s.sessions[sid].userId == user))
  {
  }

  /** Revocation closes the named session if the caller owns it, and otherwise reports an unknown session. */
  lemma RevokeTouchesOwn(s: Server, target: SessionId, user: UserId, sid: SessionId)
    requires sid in s.sessions
    ensures var (s', r) := RevokeSession(s, target, user);
      && (r == Ok(()) <==> target in s.sessions && s.sessions[target].userId == user)
      && (r != Ok(()) ==> r == Err(UnknownSession) && s' == s)
      && s' == s.(sessions := s'.sessions) && s'.sessions.Keys == s.sessions.Keys
      && s'.sessions[sid] == s.sessions[sid].(isRevoked := s.sessions[sid].isRevoked
           || (sid == target && s.sessions[sid].userId == user))
  {
  }

  /** The user in whose name the event happens. */
  function Actor(e: Event): UserId {
    match e
    case LoginEvent(user, _, _) => user
    case RefreshEvent(token, _, _) => token.userId
    case LogoutEvent(_, user) => user
    case RevokeEvent(_, user) => user
  }

  /** In every run, a row changes only by what happens in the name of its own user. */
  lemma {:induction false} OthersCannotTouch(s: Server, es: seq<Event>, sid: SessionId)
    requires Valid(s) && LegalRun(s, es) && sid in s.sessions
    requires forall e <- es :: Actor(e) != s.sessions[sid].userId
    ensures sid in Exec(s, es).sessions && Exec(s, es).sessions[sid] == s.sessions[sid]
    decreases es
  {
    if es != [] {
      var s1 := Step(s, es[0]);
      assert es[0] in es && forall e <- es[1..] :: e in es;
      StepKeepsValid(s, es[0]);
      assert sid in s1.sessions && s1.sessions[sid] == s.sessions[sid];
      OthersCannotTouch(s1, es[1..], sid);
    }
  }

  /** No open session holds the token: it was rotated out, or its session was closed. */
  predicate Dead(s: Server, t: RefreshToken) {
    && t in s.signed
    && forall sid :: sid in s.sessions && s.sessions[sid].tokenHash == Sha256(t) ==> s.sessions[sid].isRevoked
  }

  lemma {:induction false} DeadForever(s: Server, es: seq<Event>, t: RefreshToken)
    requires Valid(s) && LegalRun(s, es) && Dead(s, t)
    ensures Dead(Exec(s, es), t)
    decreases es
  {
    if es != [] {
      StepKeepsValid(s, es[0]);
      assert Dead(Step(s, es[0]), t);
      DeadForever(Step(s, es[0]), es[1..], t);
    }
  }

  lemma {:induction false} RevocationIsPermanent(s: Server, es: seq<Event>, sid: SessionId)
    requires Valid(s) && LegalRun(s, es) && sid in s.sessions && s.sessions[sid].isRevoked
    ensures var s' := Exec(s, es);
      sid in s'.sessions && s'.sessions[sid].isRevoked && s'.sessions[sid].userId == s.sessions[sid].userId
    decreases es
  {
    if es != [] {
      StepKeepsValid(s, es[0]);
      RevocationIsPermanent(Step(s, es[0]), es[1..], sid);
    }
  }

  predicate LogsIn(e: Event, user: UserId) {
    e.LoginEvent? && e.passwordMatches && e.user == user
  }

  lemma {:induction false} LockedOutUntilLogin(s: Server, es: seq<Event>, user: UserId)
    requires Valid(s) && LegalRun(s, es) && Unrevoked(s, user) == {}
    requires forall i :: 0 <= i < |es| ==> !LogsIn(es[i], user)
    ensures Unrevoked(Exec(s, es), user) == {}
    decreases es
  {
    if es != [] {
      StepKeepsValid(s, es[0]);
      var s' := Step(s, es[0]);
      assert !LogsIn(es[0], user);
      forall sid | sid in s'.sessions && s'.sessions[sid].userId == user
        ensures s'.sessions[sid].isRevoked
      {
        if sid in s.sessions {
          assert sid !in Unrevoked(s, user);
        }
      }
      LockedOutUntilLogin(s', es[1..], user);
    }
  }

  /** Presenting a dead token never succeeds; while it verifies, it leaves no open session. */
  lemma DeadTokenIsRefused(s: Server, t: RefreshToken, pick: Option<SessionId>, now: int)
    requires Valid(s) && CanPick(s, t.userId, pick) && Dead(s, t)
    ensures var (s', r) := Refresh(s, t, pick, now);
      && r.Err?
      && (now < t.exp ==> Unrevoked(s', t.userId) == {})
      && (now < t.exp && pick.Some? ==> s'.alerts == s.alerts + [t.userId])
  {
  }

  /** Logging out closes the session that holds the token and no other one. */
  lemma LogoutClosesOneSession(s: Server, t: RefreshToken, user: UserId, sid: SessionId, other: UserId)
    requires Valid(s) && sid in Unrevoked(s, user) && s.sessions[sid].tokenHash == Sha256(t)
    ensures Dead(Logout(s, t, user), t)
    ensures Unrevoked(Logout(s, t, user), other) == Unrevoked(s, other) - {sid}
  {
    var s' := Logout(s, t, user);
    forall x
      ensures x in Unrevoked(s', other) <==> x in Unrevoked(s, other) - {sid}
    {
      if x in s.sessions && s.sessions[x].tokenHash == Sha256(t) {
        assert x == sid;
      }
    }
  }

  /** The three ways a token dies: it is exchanged, its session is logged out, or its session is revoked. */
  ghost predicate Kills(s: Server, e: Event, t: RefreshToken)
    requires Legal(s, e)
  {
    match e
    case RefreshEvent(token, pick, now) => token == t && Refresh(s, token, pick, now).1.Ok?
    case LogoutEvent(token, user) =>
      token == t && exists sid :: sid in Unrevoked(s, user) && s.sessions[sid].tokenHash == Sha256(t)
    case RevokeEvent(sid, user) => sid in Unrevoked(s, user) && s.sessions[sid].tokenHash == Sha256(t)
    case LoginEvent(_, _, _) => false
  }

  lemma KilledIsDead(s: Server, e: Event, t: RefreshToken)
    requires Valid(s) && Legal(s, e) && Kills(s, e, t)
    ensures Dead(Step(s, e), t)
  {
    match e
    case RefreshEvent(token, pick, now) => RefreshRotates(s, token, pick, now);
    case LogoutEvent(token, user) =>
      var sid :| sid in Unrevoked(s, user) && s.sessions[sid].tokenHash == Sha256(t);
      LogoutClosesOneSession(s, t, user, sid, user);
    case _ =>
  }

  /**
   * In every run: once `t` was exchanged, logged out or revoked, no later presentation of it succeeds, and a
   * presentation before its expiry locks the user out until the next login.
   */
  lemma KilledTokenNeverReturns(
    before: seq<Event>, kill: Event, t: RefreshToken, between: seq<Event>, pick: Option<SessionId>, now: int,
    after: seq<Event>)
    requires LegalRun(EMPTY_SERVER, before) && Legal(Exec(EMPTY_SERVER, before), kill)
    requires Kills(Exec(EMPTY_SERVER, before), kill, t)
    requires LegalRun(Step(Exec(EMPTY_SERVER, before), kill), between)
    requires var s := Exec(Step(Exec(EMPTY_SERVER, before), kill), between);
      CanPick(s, t.userId, pick) && LegalRun(Refresh(s, t, pick, now).0, after)
    requires forall i :: 0 <= i < |after| ==> !LogsIn(after[i], t.userId)
    ensures var s := Exec(Step(Exec(EMPTY_SERVER, before), kill), between);
      && Refresh(s, t, pick, now).1.Err?
      && (now < t.exp ==> Unrevoked(Exec(Refresh(s, t, pick, now).0, after), t.userId) == {})
  {
    RunKeepsValid(EMPTY_SERVER, before);
    var s0 := Exec(EMPTY_SERVER, before);
    KilledIsDead(s0, kill, t);
    StepKeepsValid(s0, kill);
    RunKeepsValid(Step(s0, kill), between);
    DeadForever(Step(s0, kill), between, t);
    var s := Exec(Step(s0, kill), between);
    DeadTokenIsRefused(s, t, pick, now);
    if now < t.exp {
      StepKeepsValid(s, RefreshEvent(t, pick, now));
      LockedOutUntilLogin(Refresh(s, t, pick, now).0, after, t.userId);
    }
  }

  /**
   * The query does not look the session up by token, so a live, current token is accepted
   * whatever row the database returns exactly when the user has no second open session.
   */
  lemma CurrentTokenAcceptedIffOnlySession(s: Server, sid: SessionId, now: int)
    requires Valid(s) && sid in s.sessions && !s.sessions[sid].isRevoked
    requires now < s.sessions[sid].expiresAt
    ensures var t := s.sessions[sid].tokenHash.token;
      (forall pick | CanPick(s, t.userId, pick) :: Refresh(s, t, pick, now).1.Ok?)
      <==> Unrevoked(s, t.userId) == {sid}
  {
    var t := s.sessions[sid].tokenHash.token;
    assert sid in Unrevoked(s, t.userId);
    forall other | other in Unrevoked(s, t.userId) && other != sid
      ensures CanPick(s, t.userId, Some(other)) && Refresh(s, t, Some(other), now).1 == Err(ReuseDetected)
    {
    }
    if forall pick | CanPick(s, t.userId, pick) :: Refresh(s, t, pick, now).1.Ok? {
      forall other | other in Unrevoked(s, t.userId)
        ensures other == sid
      {
        assert CanPick(s, t.userId, Some(other));
      }
    }
  }

  /** Two logins and one refresh of the first session: the alarm locks both devices out. */
  lemma SecondLoginBreaksFirst(user: UserId)
    ensures var (s1, r1) := Login(EMPTY_SERVER, user, true, 0);
      var s2 := Login(s1, user, true, 1).0;
      && CanPick(s2, user, Some(1))
      && var (s3, r) := Refresh(s2, r1.value.refresh, Some(1), 2);
      && r == Err(ReuseDetected) && Unrevoked(s3, user) == {} && s3.alerts == [user]
  {
  }
}
