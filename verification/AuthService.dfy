/** The authentication service as an object over its session table. */
module AuthServices {
  import opened Common
  import opened Sessions

  class AuthService {
    var sessions: map<SessionId, Session>
    var signed: set<RefreshToken>
    var nextSerial: nat
    var nextSession: SessionId
    var alerts: seq<UserId>

    function State(): Server
      reads this
    {
      Server(sessions, signed, nextSerial, nextSession, alerts)
    }

    constructor ()
      ensures State() == EMPTY_SERVER
    {
      sessions, signed, nextSerial, nextSession, alerts := map[], {}, 0, 0, [];
    }

    method SignTokens(user: UserId, now: int) returns (tokens: Tokens)
      modifies this`signed, this`nextSerial
      ensures (State(), tokens) == Sign(old(State()), user, now)
    {
      var access := AccessToken(user, nextSerial);
      nextSerial := nextSerial + 1;
      var refresh := RefreshToken(user, now + REFRESH_LIFETIME, nextSerial);
      nextSerial := nextSerial + 1;
      signed := signed + {refresh};
      tokens := Tokens(access, refresh);
    }

    method FindUnrevoked(user: UserId) returns (pick: Option<SessionId>)
      ensures CanPick(State(), user, pick)
    {
      var open := Unrevoked(State(), user);
      if open == {} {
        pick := None;
      } else {
        var sid :| sid in open;
        pick := Some(sid);
      }
    }

    method DoLogin(user: UserId, passwordMatches: bool, now: int) returns (r: Result<Tokens, AuthError>)
      requires Valid(State())
      modifies this
      ensures Valid(State())
      ensures (State(), r) == Login(old(State()), user, passwordMatches, now)
    {
      StepKeepsValid(State(), LoginEvent(user, passwordMatches, now));
      if !passwordMatches {
        return Err(InvalidCredentials);
      }
      var tokens := SignTokens(user, now);
      sessions := sessions[nextSession := Session(user, Sha256(tokens.refresh), tokens.refresh.exp, false)];
      nextSession := nextSession + 1;
      r := Ok(tokens);
    }

    /** `pick` reports which row the lookup returned. */
    method DoRefresh(t: RefreshToken, now: int)
      returns (r: Result<Tokens, AuthError>, ghost pick: Option<SessionId>)
      requires Valid(State())
      modifies this
      ensures Valid(State())
      ensures CanPick(old(State()), t.userId, pick)
      ensures (State(), r) == Refresh(old(State()), t, pick, now)
      ensures t.exp <= now || t !in old(signed) ==> r == Err(InvalidSignature) && State() == old(State())
    {
      var found := FindUnrevoked(t.userId);
      pick := found;
      StepKeepsValid(State(), RefreshEvent(t, found, now));
      if !(t in signed && now < t.exp) {
        return Err(InvalidSignature), pick;
      }
      if found.None? {
        return Err(SessionMissing), pick;
      }
      var session := sessions[found.value];
      if session.tokenHash != Sha256(t) {
        sessions := map sid | sid in sessions ::
          if sessions[sid].userId == t.userId then sessions[sid].(isRevoked := true) else sessions[sid];
        alerts := alerts + [t.userId];
        return Err(ReuseDetected), pick;
      }
      var tokens := SignTokens(t.userId, now);
      session := session.(tokenHash := Sha256(tokens.refresh));
      session := session.(expiresAt := tokens.refresh.exp);
      sessions := sessions[found.value := session];
      r := Ok(tokens);
    }

    /** `findOne({ tokenHash, userId })` has at most one candidate, because hashes are distinct. */
    method DoLogout(t: RefreshToken, user: UserId)
      requires Valid(State())
      modifies this`sessions
      ensures Valid(State())
      ensures State() == Logout(old(State()), t, user)
    {
      StepKeepsValid(State(), LogoutEvent(t, user));
      var rows := set sid | sid in sessions && sessions[sid].tokenHash == Sha256(t) && sessions[sid].userId == user;
      if rows != {} {
        var sid :| sid in rows;
        assert forall other :: other in rows ==> other == sid;
        sessions := sessions[sid := sessions[sid].(isRevoked := true)];
      }
      forall sid | sid in old(sessions)
        ensures sessions[sid] == Logout(old(State()), t, user).sessions[sid]
      {
        assert sid in rows <==> old(sessions[sid].tokenHash == Sha256(t) && sessions[sid].userId == user);
      }
      assert sessions == Logout(old(State()), t, user).sessions;
    }

    method DoRevokeSession(sid: SessionId, user: UserId) returns (r: Result<(), AuthError>)
      requires Valid(State())
      modifies this`sessions
      ensures Valid(State())
      ensures (State(), r) == RevokeSession(old(State()), sid, user)
    {
      StepKeepsValid(State(), RevokeEvent(sid, user));
      if !(sid in sessions && sessions[sid].userId == user) {
        return Err(UnknownSession);
      }
      sessions := sessions[sid := sessions[sid].(isRevoked := true)];
      r := Ok(());
    }
  }
}
