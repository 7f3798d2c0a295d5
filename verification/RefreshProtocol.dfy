/**
 * Client and server together: any number of concurrent requests of one browser
 * tab against the rotating session table, in every interleaving.
 *
 * A resolved promise resumes its waiters before the browser handles anything
 * else, so a waiter whose flight has settled goes before every other task.
 */
module RefreshProtocol {
  import opened Common
  import opened Sessions
  import opened ReauthClient

  /** A refresh call on its way to the server, or its outcome on its way back. */
  datatype Flight = Sent(token: RefreshToken) | Replied(reply: Option<Tokens>)

  /** `orphans` are the refresh calls of a page since reloaded that the server has not seen yet. */
  datatype Net = Net(
    client: Client,
    server: Server,
    flights: map<FlightId, Flight>,
    orphans: map<FlightId, RefreshToken>)

  datatype Action =
    | Starts(r: RequestId)
    | ApiReplies(r: RequestId, result: ApiResult)
    | ServerRefreshes(f: FlightId, pick: Option<SessionId>, now: int)
    | RequestLost(f: FlightId)        // the call fails before the server acts on it
    | ReplyLost(f: FlightId)          // the server has saved, the reply never arrives
    | ReplyArrives(f: FlightId)
    | Resumes(r: RequestId)
    | UserLogsOut                     // the store action only: the server is not told
    | UserLogsIn(now: int)
    | Reloads                         // the page is loaded anew from the browser storage
    | OrphanArrives(f: FlightId, pick: Option<SessionId>, now: int)
    | OrphanLost(f: FlightId)
    | Elsewhere(e: Event)             // the session table is used by anyone else

  /** A request whose shared refresh has resolved and that has not continued yet. */
  predicate Due(c: Client, r: RequestId) {
    r in c.requests && c.requests[r].Waiting? && c.requests[r].flight in c.settled
  }

  ghost predicate Busy(c: Client) {
    exists r: RequestId :: Due(c, r)
  }

  /** What the program allows. */
  ghost predicate Possible(n: Net, a: Action) {
    match a
    case Starts(r) => r !in n.client.requests
    case ApiReplies(r, _) =>
      !Busy(n.client) && r in n.client.requests && (n.client.requests[r].First? || n.client.requests[r].Retry?)
    case ServerRefreshes(f, pick, _) =>
      f in n.flights && n.flights[f].Sent? && CanPick(n.server, n.flights[f].token.userId, pick)
    case RequestLost(f) => f in n.flights && n.flights[f].Sent?
    case ReplyLost(f) => f in n.flights && n.flights[f].Replied? && n.flights[f].reply.Some?
    case ReplyArrives(f) => !Busy(n.client) && f in n.flights && n.flights[f].Replied?
    case Resumes(r) => Due(n.client, r)
    case UserLogsOut => !Busy(n.client)
    case UserLogsIn(_) => !Busy(n.client)
    case Reloads => !Busy(n.client)
    case OrphanArrives(f, pick, _) => f in n.orphans && CanPick(n.server, n.orphans[f].userId, pick)
    case OrphanLost(f) => f in n.orphans
    case Elsewhere(e) => Legal(n.server, e)
  }

  /**
   * A reload loses a rotation: a session of `me` is open, and the stored token is not the one it
   * holds, or will not be once the refresh call now under way is processed.
   */
  ghost predicate RiskyReload(me: UserId, n: Net) {
    && n.client.storedRefresh.Some?
    && exists sid :: sid in Unrevoked(n.server, me)
         && (n.server.sessions[sid].tokenHash != Sha256(n.client.storedRefresh.value)
             || exists f :: f in n.flights && n.flights[f].Sent?)
  }

  /**
   * What the environment must keep to: a login only when no refresh is under way and no session is
   * left open; no risky reload; nobody else logs in or refreshes as `me`.
   */
  ghost predicate Assumed(me: UserId, n: Net, a: Action) {
    match a
    case UserLogsIn(_) => n.flights == map[] && n.orphans == map[] && Unrevoked(n.server, me) == {}
    case Reloads => !RiskyReload(me, n)
    case Elsewhere(e) =>
      (e.RefreshEvent? ==> e.token.userId != me) && (e.LoginEvent? ==> e.user != me)
    case _ => true
  }

  ghost function Apply(me: UserId, n: Net, a: Action): Net
    requires Possible(n, a)
  {
    match a
    case Starts(r) => n.(client := StartRequest(n.client, r))
    case ApiReplies(r, result) =>
      var (c, call) := OnReply(n.client, r, result);
      n.(client := c, flights := if call.Some? then n.flights[n.client.nextFlight := Sent(call.value)] else n.flights)
    case ServerRefreshes(f, pick, now) =>
      var (s, result) := Refresh(n.server, n.flights[f].token, pick, now);
      n.(server := s, flights := n.flights[f := Replied(if result.Ok? then Some(result.value) else None)])
    case RequestLost(f) => n.(flights := n.flights[f := Replied(None)])
    case ReplyLost(f) => n.(flights := n.flights[f := Replied(None)])
    case ReplyArrives(f) =>
      n.(client := OnRefreshReply(n.client, f, n.flights[f].reply), flights := n.flights - {f})
    case Resumes(r) => n.(client := OnResume(n.client, r))
    case UserLogsOut => n.(client := LogOut(n.client))
    case UserLogsIn(now) =>
      var (s, result) := Login(n.server, me, true, now);
      n.(server := s, client := SetCredentials(n.client, result.value))
    case Reloads => Net(Reloaded(n.client), n.server, map[], n.orphans + SentTokens(n.flights))
    case OrphanArrives(f, pick, now) =>
      n.(server := Refresh(n.server, n.orphans[f], pick, now).0, orphans := n.orphans - {f})
    case OrphanLost(f) => n.(orphans := n.orphans - {f})
    case Elsewhere(e) => n.(server := Step(n.server, e))
  }

  function SentTokens(flights: map<FlightId, Flight>): map<FlightId, RefreshToken> {
    map f | f in flights && flights[f].Sent? :: flights[f].token
  }

  ghost predicate PossibleRun(me: UserId, n: Net, run: seq<Action>)
    decreases run
  {
    run == [] || (Possible(n, run[0]) && PossibleRun(me, Apply(me, n, run[0]), run[1..]))
  }

  ghost predicate AssumedRun(me: UserId, n: Net, run: seq<Action>)
    requires PossibleRun(me, n, run)
    decreases run
  {
    run == [] || (Assumed(me, n, run[0]) && AssumedRun(me, Apply(me, n, run[0]), run[1..]))
  }

  ghost function After(me: UserId, n: Net, run: seq<Action>): Net
    requires PossibleRun(me, n, run)
    decreases run
  {
    if run == [] then n else After(me, Apply(me, n, run[0]), run[1..])
  }

  /** A server in any reachable state where `me` has no open session, and a browser without credentials. */
  ghost predicate Initial(me: UserId, n: Net) {
    Valid(n.server) && Unrevoked(n.server, me) == {} && me !in n.server.alerts
    && n.client == FRESH_CLIENT && n.flights == map[] && n.orphans == map[]
  }

  /** A genuine token of `me` that every open session of `me` holds. */
  ghost predicate Matches(me: UserId, s: Server, t: RefreshToken) {
    && Genuine(me, s, t)
    && forall sid :: sid in Unrevoked(s, me) ==> s.sessions[sid].tokenHash == Sha256(t)
  }

  predicate Genuine(me: UserId, s: Server, t: RefreshToken) {
    t.userId == me && t in s.signed
  }

  // ------------------------------------------------- the invariant

  ghost predicate Waited(c: Client, f: FlightId) {
    exists r :: r in c.requests && c.requests[r] == Waiting(f)
  }

  ghost predicate ClientInv(c: Client, flights: map<FlightId, Flight>) {
    && Mirrored(c)
    // single flight
    && flights.Keys == (if c.refreshPromise.Some? then {c.refreshPromise.value} else {})
    && (forall f :: f in flights ==> f !in c.settled)
    && (forall f: FlightId :: f in flights || f in c.settled ==> f < c.nextFlight)
    // every flight is waited for, and every waiter waits for something
    && (forall f :: f in flights ==> Waited(c, f))
    && (forall r :: r in c.requests && c.requests[r].Waiting? ==>
          c.requests[r].flight in flights || c.requests[r].flight in c.settled)
    // waiters that may continue share one outcome, and the credentials still show it
    && (c.refreshPromise.Some? ==> !Busy(c))
    && (forall r, q :: Due(c, r) && Due(c, q) ==> c.requests[r] == c.requests[q])
    && (forall r :: Due(c, r) && c.settled[c.requests[r].flight].Some? ==>
          c.token == c.settled[c.requests[r].flight] && c.storedRefresh.Some?)
  }

  /** A reply or a waiter that will replace or remove the stored token before it can be used again. */
  ghost predicate Owed(c: Client, flights: map<FlightId, Flight>) {
    || (exists f :: f in flights && flights[f].Replied?)
    || (exists r :: Due(c, r) && c.settled[c.requests[r].flight].None?)
  }

  /** The tokens that may still reach the server. */
  ghost predicate TokenInv(me: UserId, n: Net) {
    var s, stored := n.server, n.client.storedRefresh;
    && (forall f :: f in n.flights && n.flights[f].Sent? ==> Matches(me, s, n.flights[f].token))
    && (forall f :: f in n.flights && n.flights[f].Replied? && n.flights[f].reply.Some? ==>
          Matches(me, s, n.flights[f].reply.value.refresh))
    && (forall f :: f in n.orphans ==> Matches(me, s, n.orphans[f]))
    && (stored.Some? ==> Genuine(me, s, stored.value) && (Matches(me, s, stored.value) || Owed(n.client, n.flights)))
    && (n.orphans == map[] || Unrevoked(s, me) == {} || LoneOrphan(n))
  }

  /** The credentials were gone when the page was reloaded, so nothing else can refresh. */
  ghost predicate LoneOrphan(n: Net) {
    && (forall f, g :: f in n.orphans && g in n.orphans ==> f == g)
    && n.client.storedRefresh.None? && n.flights == map[]
  }

  ghost predicate Inv(me: UserId, n: Net) {
    Valid(n.server) && me !in n.server.alerts && ClientInv(n.client, n.flights) && TokenInv(me, n)
  }

  lemma InitialInv(me: UserId, n: Net)
    requires Initial(me, n)
    ensures Inv(me, n)
  {
  }

  // ------------------------------------------------- steps of the server

  /** Events of others leave the sessions of `me` alone, except that they may revoke them. */
  lemma ElsewhereKeepsMatch(me: UserId, n: Net, e: Event, t: RefreshToken)
    requires Valid(n.server) && Legal(n.server, e) && Assumed(me, n, Elsewhere(e)) && Matches(me, n.server, t)
    ensures Matches(me, Step(n.server, e), t)
  {
    forall x | x in Unrevoked(Step(n.server, e), me)
      ensures Step(n.server, e).sessions[x].tokenHash == Sha256(t)
    {
      assert x in Unrevoked(n.server, me);
    }
  }

  lemma ElsewhereOpensNothing(me: UserId, n: Net, e: Event)
    requires Valid(n.server) && Legal(n.server, e) && Assumed(me, n, Elsewhere(e))
    ensures Unrevoked(Step(n.server, e), me) <= Unrevoked(n.server, me)
    ensures n.server.signed <= Step(n.server, e).signed
    ensures me !in n.server.alerts ==> me !in Step(n.server, e).alerts
  {
  }

  lemma ServerStepKeepsTokenInv(me: UserId, n: Net, s: Server)
    requires TokenInv(me, n)
    requires n.server.signed <= s.signed && Unrevoked(s, me) <= Unrevoked(n.server, me)
    requires forall t :: Matches(me, n.server, t) ==> Matches(me, s, t)
    ensures TokenInv(me, n.(server := s))
  {
  }

  lemma ElsewhereKeepsInv(me: UserId, n: Net, e: Event)
    requires Inv(me, n) && Legal(n.server, e) && Assumed(me, n, Elsewhere(e))
    ensures Inv(me, Apply(me, n, Elsewhere(e)))
  {
    StepKeepsValid(n.server, e);
    forall t | Matches(me, n.server, t)
      ensures Matches(me, Step(n.server, e), t)
    {
      ElsewhereKeepsMatch(me, n, e, t);
    }
    ElsewhereOpensNothing(me, n, e);
    ServerStepKeepsTokenInv(me, n, Step(n.server, e));
  }

  /** After a rotation the only open session of `me` is the rotated one, and it holds the new token. */
  lemma RotationMatches(me: UserId, s: Server, t: RefreshToken, pick: Option<SessionId>, now: int)
    requires Valid(s) && Matches(me, s, t) && CanPick(s, me, pick)
    ensures var (s', result) := Refresh(s, t, pick, now);
      && result != Err(ReuseDetected) && s'.alerts == s.alerts && s.signed <= s'.signed
      && (result.Ok? ==> Matches(me, s', result.value.refresh) && pick.Some?)
      && (result.Err? ==> s' == s)
  {
    var (s', result) := Refresh(s, t, pick, now);
    if result.Ok? {
      RefreshRotates(s, t, pick, now);
      forall x | x in Unrevoked(s', me)
        ensures x == pick.value
      {
        assert x == pick.value || x in Unrevoked(s, me);
      }
    }
  }

  /** The heart of the matter: the token in flight is the one the server holds, so the alarm stays silent. */
  lemma ServerKeepsInv(me: UserId, n: Net, f: FlightId, pick: Option<SessionId>, now: int)
    requires Inv(me, n) && Possible(n, ServerRefreshes(f, pick, now))
    ensures Inv(me, Apply(me, n, ServerRefreshes(f, pick, now)))
    ensures Refresh(n.server, n.flights[f].token, pick, now).1 != Err(ReuseDetected)
  {
    var t := n.flights[f].token;
    var n' := Apply(me, n, ServerRefreshes(f, pick, now));
    StepKeepsValid(n.server, RefreshEvent(t, pick, now));
    RotationMatches(me, n.server, t, pick, now);
    OneFlight(n, f);
    assert n'.flights[f].Replied? && Owed(n'.client, n'.flights);
  }

  lemma OneFlight(n: Net, f: FlightId)
    requires ClientInv(n.client, n.flights) && f in n.flights
    ensures n.flights == map[f := n.flights[f]] && n.client.refreshPromise == Some(f) && !Busy(n.client)
  {
  }

  lemma OrphanKeepsInv(me: UserId, n: Net, f: FlightId, pick: Option<SessionId>, now: int)
    requires Inv(me, n) && Possible(n, OrphanArrives(f, pick, now))
    ensures Inv(me, Apply(me, n, OrphanArrives(f, pick, now)))
  {
    var n' := Apply(me, n, OrphanArrives(f, pick, now));
    StepKeepsValid(n.server, RefreshEvent(n.orphans[f], pick, now));
    RotationMatches(me, n.server, n.orphans[f], pick, now);
    if n'.server != n.server {
      assert n'.orphans == map[];
    } else {
      assert Owed(n.client, n.flights) ==> Owed(n'.client, n'.flights);
    }
  }

  lemma LoginKeepsInv(me: UserId, n: Net, now: int)
    requires Inv(me, n) && Possible(n, UserLogsIn(now)) && Assumed(me, n, UserLogsIn(now))
    ensures Inv(me, Apply(me, n, UserLogsIn(now)))
  {
    var n' := Apply(me, n, UserLogsIn(now));
    StepKeepsValid(n.server, LoginEvent(me, true, now));
    forall sid | sid in Unrevoked(n'.server, me)
      ensures sid == n.server.nextSession
    {
      assert sid !in Unrevoked(n.server, me);
    }
    assert forall r :: Due(n'.client, r) ==> Due(n.client, r);
  }

  // ------------------------------------------------- steps of the browser

  /** A client step that starts no refresh and adds no waiter to a resolved one. */
  lemma QuietStepKeepsClientInv(c: Client, c': Client, flights: map<FlightId, Flight>)
    requires ClientInv(c, flights) && Mirrored(c')
    requires c'.refreshPromise == c.refreshPromise && c'.settled == c.settled && c'.nextFlight == c.nextFlight
    requires forall r :: r in c'.requests && c'.requests[r].Waiting? ==>
      c'.requests[r].flight in flights || (r in c.requests && c'.requests[r] == c.requests[r])
    requires forall f <- flights.Keys :: Waited(c, f) ==> Waited(c', f)
    requires forall r :: Due(c', r) && c'.settled[c'.requests[r].flight].Some? ==>
      c'.token == c.token && c'.storedRefresh == c.storedRefresh
    ensures ClientInv(c', flights)
  {
    forall r | Due(c', r)
      ensures Due(c, r) && c'.requests[r] == c.requests[r]
    {
    }
  }

  /** Such a step that stores no new token either. */
  lemma QuietStepKeepsInv(me: UserId, n: Net, c: Client)
    requires Inv(me, n) && Mirrored(c)
    requires c.refreshPromise == n.client.refreshPromise && c.settled == n.client.settled
    requires c.nextFlight == n.client.nextFlight
    requires forall r :: r in c.requests && c.requests[r].Waiting? ==>
      c.requests[r].flight in n.flights || (r in n.client.requests && c.requests[r] == n.client.requests[r])
    requires forall r, f :: f in n.flights && r in n.client.requests && n.client.requests[r] == Waiting(f) ==>
      r in c.requests && c.requests[r] == Waiting(f)
    requires c.storedRefresh.None? || c.storedRefresh == n.client.storedRefresh
    requires c.storedRefresh.Some? && Owed(n.client, n.flights) ==> Owed(c, n.flights)
    requires forall r :: Due(c, r) && c.settled[c.requests[r].flight].Some? ==>
      c.token == n.client.token && c.storedRefresh == n.client.storedRefresh
    ensures Inv(me, n.(client := c))
  {
    forall f <- n.flights.Keys | Waited(n.client, f)
      ensures Waited(c, f)
    {
    }
    QuietStepKeepsClientInv(n.client, c, n.flights);
  }

  lemma StartKeepsInv(me: UserId, n: Net, r: RequestId)
    requires Inv(me, n) && Possible(n, Starts(r))
    ensures Inv(me, Apply(me, n, Starts(r)))
  {
    var c := StartRequest(n.client, r);
    forall q | Due(n.client, q)
      ensures Due(c, q) && c.requests[q] == n.client.requests[q]
    {
    }
    QuietStepKeepsInv(me, n, c);
  }

  /** A waiter with a token changes no credentials; one without leaves no stale token behind. */
  lemma ResumeKeepsInv(me: UserId, n: Net, r: RequestId)
    requires Inv(me, n) && Possible(n, Resumes(r))
    ensures Inv(me, Apply(me, n, Resumes(r)))
  {
    var c := OnResume(n.client, r);
    assert n.flights == map[];
    forall q | Due(c, q)
      ensures Due(n.client, q) && c.requests[q] == n.client.requests[q] == n.client.requests[r]
    {
    }
    QuietStepKeepsInv(me, n, c);
  }

  lemma LogOutKeepsInv(me: UserId, n: Net)
    requires Inv(me, n) && Possible(n, UserLogsOut)
    ensures Inv(me, Apply(me, n, UserLogsOut))
  {
    assert forall r :: Due(LogOut(n.client), r) ==> Due(n.client, r);
    QuietStepKeepsInv(me, n, LogOut(n.client));
  }

  function TakeOff(c: Client, r: RequestId): Client {
    c.(refreshPromise := Some(c.nextFlight), nextFlight := c.nextFlight + 1,
       requests := c.requests[r := Waiting(c.nextFlight)])
  }

  lemma TakeOffKeepsClientInv(c: Client, r: RequestId, t: RefreshToken)
    requires ClientInv(c, map[]) && r in c.requests && c.requests[r].First? && !Busy(c)
    ensures ClientInv(TakeOff(c, r), map[c.nextFlight := Sent(t)])
  {
    var c' := TakeOff(c, r);
    assert c'.requests[r] == Waiting(c.nextFlight);
    forall q
      ensures !Due(c', q)
    {
      assert !Due(c, q);
    }
  }

  /** Nothing is owed when a flight takes off, so the token it carries is the one the server expects. */
  lemma NewFlightKeepsInv(me: UserId, n: Net, r: RequestId)
    requires Inv(me, n) && r in n.client.requests && n.client.requests[r].First? && !Busy(n.client)
    requires n.client.storedRefresh.Some? && n.client.refreshPromise.None?
    ensures n.flights == map[]
    ensures Inv(me, n.(client := TakeOff(n.client, r),
                       flights := map[n.client.nextFlight := Sent(n.client.storedRefresh.value)]))
  {
    assert n.flights == map[];
    assert !Owed(n.client, n.flights);
    TakeOffKeepsClientInv(n.client, r, n.client.storedRefresh.value);
  }

  lemma QuietReplyKeepsInv(me: UserId, n: Net, r: RequestId, result: ApiResult)
    requires Inv(me, n) && Possible(n, ApiReplies(r, result)) && OnReply(n.client, r, result).1.None?
    ensures Inv(me, n.(client := OnReply(n.client, r, result).0))
  {
    var c := OnReply(n.client, r, result).0;
    forall q
      ensures !Due(c, q)
    {
      assert !Due(n.client, q);
    }
    QuietStepKeepsInv(me, n, c);
  }

  lemma ApiReplyKeepsInv(me: UserId, n: Net, r: RequestId, result: ApiResult)
    requires Inv(me, n) && Possible(n, ApiReplies(r, result))
    ensures Inv(me, Apply(me, n, ApiReplies(r, result)))
  {
    var (c, call) := OnReply(n.client, r, result);
    if call.Some? {
      NewFlightKeepsInv(me, n, r);
      assert c == TakeOff(n.client, r);
    } else {
      QuietReplyKeepsInv(me, n, r, result);
    }
  }

  lemma LostKeepsInv(me: UserId, n: Net, f: FlightId)
    requires Inv(me, n) && f in n.flights
    ensures Inv(me, n.(flights := n.flights[f := Replied(None)]))
  {
    OneFlight(n, f);
    var n' := n.(flights := n.flights[f := Replied(None)]);
    assert n'.flights[f].Replied? && Owed(n'.client, n'.flights);
  }

  /** Without a reply the stale token stays stored, but only until the first waiter continues. */
  lemma ReplyKeepsInv(me: UserId, n: Net, f: FlightId)
    requires Inv(me, n) && Possible(n, ReplyArrives(f))
    ensures Inv(me, Apply(me, n, ReplyArrives(f)))
  {
    OneFlight(n, f);
    var n' := Apply(me, n, ReplyArrives(f));
    var c, c' := n.client, n'.client;
    assert n'.flights == map[];
    forall r | Due(c', r)
      ensures c'.requests[r] == Waiting(f)
    {
      assert !Due(c, r);
    }
    var r :| r in c.requests && c.requests[r] == Waiting(f);
    assert Due(c', r);
  }

  lemma ReloadKeepsClientInv(n: Net)
    requires ClientInv(n.client, n.flights)
    ensures ClientInv(Reloaded(n.client), map[])
    ensures !Busy(Reloaded(n.client))
  {
  }

  lemma SafeReloadLeavesLoneOrphan(me: UserId, n: Net)
    requires Inv(me, n) && !RiskyReload(me, n) && Unrevoked(n.server, me) != {}
    requires n.orphans + SentTokens(n.flights) != map[]
    ensures LoneOrphan(Net(Reloaded(n.client), n.server, map[], n.orphans + SentTokens(n.flights)))
  {
    var sid :| sid in Unrevoked(n.server, me);
    assert n.client.storedRefresh.Some? ==> SentTokens(n.flights) == map[];
    assert SentTokens(n.flights) == map[] ==> n.orphans + SentTokens(n.flights) == n.orphans;
    if n.orphans != map[] {
      assert SentTokens(n.flights) == map[];
    }
  }

  lemma ReloadKeepsInv(me: UserId, n: Net)
    requires Inv(me, n) && Possible(n, Reloads) && !RiskyReload(me, n)
    ensures Inv(me, Apply(me, n, Reloads))
  {
    var n' := Apply(me, n, Reloads);
    ReloadKeepsClientInv(n);
    if n.client.storedRefresh.Some? {
      assert Matches(me, n.server, n.client.storedRefresh.value);
    }
    if n'.orphans != map[] && Unrevoked(n.server, me) != {} {
      SafeReloadLeavesLoneOrphan(me, n);
    }
  }

  lemma StepKeepsInv(me: UserId, n: Net, a: Action)
    requires Inv(me, n) && Possible(n, a) && Assumed(me, n, a)
    ensures Inv(me, Apply(me, n, a))
  {
    match a
    case Starts(r) => StartKeepsInv(me, n, r);
    case ApiReplies(r, result) => ApiReplyKeepsInv(me, n, r, result);
    case ServerRefreshes(f, pick, now) => ServerKeepsInv(me, n, f, pick, now);
    case RequestLost(f) => LostKeepsInv(me, n, f);
    case ReplyLost(f) => LostKeepsInv(me, n, f);
    case ReplyArrives(f) => ReplyKeepsInv(me, n, f);
    case Resumes(r) => ResumeKeepsInv(me, n, r);
    case UserLogsOut => LogOutKeepsInv(me, n);
    case UserLogsIn(now) => LoginKeepsInv(me, n, now);
    case Reloads => ReloadKeepsInv(me, n);
    case OrphanArrives(f, pick, now) => OrphanKeepsInv(me, n, f, pick, now);
    case OrphanLost(f) =>
    case Elsewhere(e) => ElsewhereKeepsInv(me, n, e);
  }

  lemma {:induction false} RunKeepsInv(me: UserId, n: Net, run: seq<Action>)
    requires Inv(me, n) && PossibleRun(me, n, run) && AssumedRun(me, n, run)
    ensures Inv(me, After(me, n, run))
    decreases run
  {
    if run != [] {
      StepKeepsInv(me, n, run[0]);
      RunKeepsInv(me, Apply(me, n, run[0]), run[1..]);
    }
  }

  /**
   * At most one refresh call of the page is outstanding; the stored token is the one the server expects
   * whenever none is and no waiter is about to continue; the reuse alarm was never raised for `me`; no
   * waiter is stranded.
   */
  ghost predicate Safe(me: UserId, n: Net) {
    && |n.flights| <= 1
    && (n.flights == map[] && !Busy(n.client) && n.client.storedRefresh.Some? ==>
          Matches(me, n.server, n.client.storedRefresh.value))
    && me !in n.server.alerts
    && (forall r :: r in n.client.requests && n.client.requests[r].Waiting? ==>
          n.client.requests[r].flight in n.flights || Possible(n, Resumes(r)))
    && Mirrored(n.client)
  }

  lemma InvIsSafe(me: UserId, n: Net)
    requires Inv(me, n)
    ensures Safe(me, n)
  {
    assert |n.flights| == |n.flights.Keys|;
  }

  /** Every run is safe, whether replies are lost or not. */
  lemma SingleFlightIsSafe(me: UserId, n: Net, run: seq<Action>)
    requires Initial(me, n) && PossibleRun(me, n, run) && AssumedRun(me, n, run)
    ensures Safe(me, After(me, n, run))
  {
    InitialInv(me, n);
    RunKeepsInv(me, n, run);
    InvIsSafe(me, After(me, n, run));
  }

  /** Sharing the refresh is what keeps the alarm silent: a second call with the same token would raise it. */
  lemma UnsharedRefreshRaisesAlarm(
    s: Server, t: RefreshToken, pick: Option<SessionId>, now: int, pick': Option<SessionId>, now': int)
    requires Valid(s) && CanPick(s, t.userId, pick) && Refresh(s, t, pick, now).1.Ok? && now' < t.exp
    requires CanPick(Refresh(s, t, pick, now).0, t.userId, pick')
    ensures var (s'', r) := Refresh(Refresh(s, t, pick, now).0, t, pick', now');
      r == Err(ReuseDetected) && Unrevoked(s'', t.userId) == {}
  {
    RefreshRotates(s, t, pick, now);
    assert pick.value in Unrevoked(Refresh(s, t, pick, now).0, t.userId);
  }

  /**
   * However the shared refresh ended, every waiter acts on it, the first and the last alike: all retry
   * with the new token, or all log out.
   */
  lemma WaitersShareTheOutcome(me: UserId, n: Net, f: FlightId, r: RequestId)
    requires Inv(me, n) && f in n.client.settled
    requires r in n.client.requests && n.client.requests[r] == Waiting(f)
    ensures Possible(n, Resumes(r))
    ensures var c := Apply(me, n, Resumes(r)).client;
      match n.client.settled[f]
      case Some(access) =>
        c.requests[r] == Retry(Some(access)) && c.isAuthenticated
        && c.storedRefresh == n.client.storedRefresh && c.storedRefresh.Some?
      case None =>
        c.requests[r] == Finished(Failed(401)) && c.token.None? && c.storedRefresh.None? && !c.isAuthenticated
  {
    assert Due(n.client, r);
  }

  /** From the reply on: a successful refresh sends every waiter on with the token received, a failed one logs out. */
  lemma ReplyDecidesWaiters(me: UserId, n: Net, f: FlightId, r: RequestId)
    requires Inv(me, n) && f in n.flights && n.flights[f].Replied?
    requires r in n.client.requests && n.client.requests[r] == Waiting(f)
    ensures Possible(n, ReplyArrives(f)) && Possible(Apply(me, n, ReplyArrives(f)), Resumes(r))
    ensures var c := Apply(me, Apply(me, n, ReplyArrives(f)), Resumes(r)).client;
      match n.flights[f].reply
      case Some(tokens) =>
        c.requests[r] == Retry(Some(tokens.access)) && c.storedRefresh == Some(tokens.refresh) && c.isAuthenticated
      case None =>
        c.requests[r] == Finished(Failed(401)) && c.token == None && c.storedRefresh == None && !c.isAuthenticated
  {
    OneFlight(n, f);
    RefreshReplyOutcome(n.client, f, n.flights[f].reply);
    assert Due(Apply(me, n, ReplyArrives(f)).client, r);
  }

  // ------------------------------------------------- one retry per request

  function Progress(p: Option<Phase>): nat {
    match p
    case None => 0
    case Some(First(_)) => 1
    case Some(Waiting(_)) => 2
    case Some(Retry(_)) => 3
    case Some(Finished(_)) => 4
    case Some(Abandoned) => 4
  }

  function PhaseOf(n: Net, r: RequestId): Option<Phase> {
    if r in n.client.requests then Some(n.client.requests[r]) else None
  }

  predicate Concerns(a: Action, r: RequestId) {
    (a.Starts? && a.r == r) || (a.ApiReplies? && a.r == r) || (a.Resumes? && a.r == r)
  }

  /** API calls request `r` has made during the run. */
  ghost function Calls(me: UserId, n: Net, run: seq<Action>, r: RequestId): nat
    requires PossibleRun(me, n, run)
    decreases run
  {
    if run == [] then 0
    else
      var n' := Apply(me, n, run[0]);
      (if Concerns(run[0], r) && (PhaseOf(n', r).value.First? || PhaseOf(n', r).value.Retry?) then 1 else 0)
      + Calls(me, n', run[1..], r)
  }

  /** Whatever the server answers, a request is sent at most twice and a finished one is never touched again. */
  lemma {:induction false} AtMostOneRetry(me: UserId, n: Net, run: seq<Action>, r: RequestId)
    requires PossibleRun(me, n, run)
    ensures Calls(me, n, run, r) <= (match Progress(PhaseOf(n, r)) case 0 => 2 case 1 => 1 case 2 => 1 case _ => 0)
    ensures Progress(PhaseOf(n, r)) == 4 ==> PhaseOf(After(me, n, run), r) == PhaseOf(n, r)
    decreases run
  {
    if run != [] {
      var n' := Apply(me, n, run[0]);
      if Concerns(run[0], r) {
        assert Progress(PhaseOf(n', r)) > Progress(PhaseOf(n, r));
      } else if run[0].Reloads? {
        assert PhaseOf(n, r).None? || Progress(PhaseOf(n, r)) == 4 ==> PhaseOf(n', r) == PhaseOf(n, r);
      } else {
        assert PhaseOf(n', r) == PhaseOf(n, r);
      }
      AtMostOneRetry(me, n', run[1..], r);
    }
  }

  /** The last reply that request `r` itself received during the run, after `before`. */
  function LastReply(run: seq<Action>, r: RequestId, before: Option<ApiResult>): Option<ApiResult>
    decreases run
  {
    if run == [] then before
    else LastReply(run[1..], r, if run[0].ApiReplies? && run[0].r == r then Some(run[0].result) else before)
  }

  predicate Tells(p: Option<Phase>, last: Option<ApiResult>) {
    match p
    case None => last == None
    case Some(First(_)) => last == None
    case Some(Waiting(_)) => last == Some(Failed(401))
    case Some(Retry(_)) => last == Some(Failed(401))
    case Some(Finished(result)) => last == Some(result)
    case Some(Abandoned) => true
  }

  lemma {:induction false} PhaseTellsLastReply(
    me: UserId, n: Net, run: seq<Action>, r: RequestId, before: Option<ApiResult>)
    requires PossibleRun(me, n, run) && Tells(PhaseOf(n, r), before)
    ensures Tells(PhaseOf(After(me, n, run), r), LastReply(run, r, before))
    decreases run
  {
    if run != [] {
      var n' := Apply(me, n, run[0]);
      var last := if run[0].ApiReplies? && run[0].r == r then Some(run[0].result) else before;
      if run[0].ApiReplies? {
        ReplyOutcome(n.client, run[0].r, run[0].result, r);
      }
      assert Tells(PhaseOf(n', r), last);
      PhaseTellsLastReply(me, n', run[1..], r, last);
    }
  }

  /** In every run a finished request hands its caller the last reply it received itself. */
  lemma FinishesWithLastReply(me: UserId, n: Net, run: seq<Action>, r: RequestId)
    requires PossibleRun(me, n, run) && r !in n.client.requests
    requires r in After(me, n, run).client.requests && After(me, n, run).client.requests[r].Finished?
    ensures LastReply(run, r, None) == Some(After(me, n, run).client.requests[r].result)
  {
    PhaseTellsLastReply(me, n, run, r, None);
  }

  // ------------------------------------------------- why the assumptions are there

  /** A first login of `me` on an otherwise empty server. */
  ghost function LoggedIn(me: UserId): Net {
    Apply(me, Net(FRESH_CLIENT, EMPTY_SERVER, map[], map[]), UserLogsIn(0))
  }

  /** Steps in which nobody logs in or out, nothing is lost and no page is reloaded. */
  ghost predicate Ordinary(a: Action) {
    a.Starts? || a.ApiReplies? || a.ServerRefreshes? || a.ReplyArrives? || a.Resumes? || a.OrphanArrives?
  }

  lemma Prepend(me: UserId, n: Net, a: Action, rest: seq<Action>)
    requires Possible(n, a) && PossibleRun(me, Apply(me, n, a), rest)
    ensures PossibleRun(me, n, [a] + rest)
    ensures After(me, n, [a] + rest) == After(me, Apply(me, n, a), rest)
  {
    assert ([a] + rest)[1..] == rest;
  }

  lemma {:induction false} OrdinaryIsAssumed(me: UserId, n: Net, run: seq<Action>)
    requires PossibleRun(me, n, run) && forall a <- run :: Ordinary(a)
    ensures AssumedRun(me, n, run)
    decreases run
  {
    if run != [] {
      assert Ordinary(run[0]);
      OrdinaryIsAssumed(me, Apply(me, n, run[0]), run[1..]);
    }
  }

  lemma FreshRequest(requests: set<RequestId>) returns (r: RequestId)
    ensures forall q <- requests :: q < r
  {
    if requests == {} {
      r := 0;
    } else {
      var q :| q in requests;
      var s := FreshRequest(requests - {q});
      assert forall p <- requests :: p == q || p in requests - {q};
      r := if q < s then s else q + 1;
    }
  }

  ghost predicate RaisesAlarm(me: UserId, n: Net, run: seq<Action>) {
    && (forall a <- run :: Ordinary(a))
    && PossibleRun(me, n, run)
    && me in After(me, n, run).server.alerts && Unrevoked(After(me, n, run).server, me) == {}
  }

  /** A page at rest with a stale token: its next 401 raises the alarm and locks the user out. */
  lemma StaleTokenRaisesAlarm(me: UserId, n: Net, sid: SessionId) returns (run: seq<Action>)
    requires n.flights == map[] && n.client.refreshPromise.None? && !Busy(n.client)
    requires n.client.storedRefresh.Some? && Genuine(me, n.server, n.client.storedRefresh.value)
    requires forall q :: q in n.client.requests && n.client.requests[q].Waiting? ==>
      n.client.requests[q].flight != n.client.nextFlight
    requires n.client.nextFlight !in n.client.settled
    requires sid in Unrevoked(n.server, me)
    requires n.server.sessions[sid].tokenHash != Sha256(n.client.storedRefresh.value)
    ensures RaisesAlarm(me, n, run)
  {
    var r := FreshRequest(n.client.requests.Keys);
    var f, t := n.client.nextFlight, n.client.storedRefresh.value;
    run := [Starts(r), ApiReplies(r, Failed(401)), ServerRefreshes(f, Some(sid), t.exp - 1)];
    assert r !in n.client.requests;
    var n1 := Apply(me, n, run[0]);
    forall q
      ensures !Due(n1.client, q)
    {
      assert !Due(n.client, q);
    }
    var n2 := Apply(me, n1, run[1]);
    assert n2.flights[f] == Sent(t);
    Prepend(me, n2, run[2], []);
    Prepend(me, n1, run[1], [run[2]] + []);
    Prepend(me, n, run[0], [run[1]] + ([run[2]] + []));
    assert run == [run[0]] + ([run[1]] + ([run[2]] + []));
  }

  /** The refresh call of the old page is processed after the reload: the stored token is stale from then on. */
  lemma OrphanMakesStale(me: UserId, n: Net, f: FlightId, sid: SessionId, now: int)
    requires Valid(n.server) && f in n.orphans && Matches(me, n.server, n.orphans[f]) && now < n.orphans[f].exp
    requires sid in Unrevoked(n.server, me)
    ensures Possible(n, OrphanArrives(f, Some(sid), now))
    ensures var s' := Apply(me, n, OrphanArrives(f, Some(sid), now)).server;
      && n.server.signed <= s'.signed
      && sid in Unrevoked(s', me) && s'.sessions[sid].tokenHash.token !in n.server.signed
  {
    assert Refresh(n.server, n.orphans[f], Some(sid), now).1.Ok?;
    RefreshRotates(n.server, n.orphans[f], Some(sid), now);
  }

  /** After a risky reload, ordinary steps suffice to raise the alarm and lock the user out. */
  lemma RiskyReloadRaisesAlarm(me: UserId, n: Net) returns (run: seq<Action>)
    requires Inv(me, n) && Possible(n, Reloads) && RiskyReload(me, n)
    ensures RaisesAlarm(me, Apply(me, n, Reloads), run)
  {
    var n1 := Apply(me, n, Reloads);
    ReloadKeepsClientInv(n);
    var t := n.client.storedRefresh.value;
    var sid :| sid in Unrevoked(n.server, me)
      && (n.server.sessions[sid].tokenHash != Sha256(t) || exists f :: f in n.flights && n.flights[f].Sent?);
    if n.server.sessions[sid].tokenHash != Sha256(t) {
      run := StaleTokenRaisesAlarm(me, n1, sid);
    } else {
      var f :| f in n.flights && n.flights[f].Sent?;
      assert n1.orphans[f] == n.flights[f].token;
      var now := n.flights[f].token.exp - 1;
      OrphanMakesStale(me, n1, f, sid, now);
      var rest := StaleTokenRaisesAlarm(me, Apply(me, n1, OrphanArrives(f, Some(sid), now)), sid);
      Prepend(me, n1, OrphanArrives(f, Some(sid), now), rest);
      run := [OrphanArrives(f, Some(sid), now)] + rest;
    }
  }

  /** No continuation that keeps to the assumptions raises the alarm. */
  ghost predicate SilentFrom(me: UserId, n: Net) {
    forall run: seq<Action> :: PossibleRun(me, n, run) && AssumedRun(me, n, run) ==>
      me !in After(me, n, run).server.alerts
  }

  lemma SilentAfterReloadIff(me: UserId, n: Net)
    requires Inv(me, n) && Possible(n, Reloads)
    ensures SilentFrom(me, Apply(me, n, Reloads)) <==> !RiskyReload(me, n)
  {
    var n1 := Apply(me, n, Reloads);
    if RiskyReload(me, n) {
      var run := RiskyReloadRaisesAlarm(me, n);
      OrdinaryIsAssumed(me, n1, run);
      assert me in After(me, n1, run).server.alerts;
    } else {
      ReloadKeepsInv(me, n);
      forall run | PossibleRun(me, n1, run) && AssumedRun(me, n1, run)
        ensures me !in After(me, n1, run).server.alerts
      {
        RunKeepsInv(me, n1, run);
      }
    }
  }

  /** The exact condition, after any run: every continuation of a reload is silent iff the reload is not risky. */
  lemma ReloadSafeIff(me: UserId, start: Net, run: seq<Action>)
    requires Initial(me, start) && PossibleRun(me, start, run) && AssumedRun(me, start, run)
    requires Possible(After(me, start, run), Reloads)
    ensures var n := After(me, start, run);
      SilentFrom(me, Apply(me, n, Reloads)) <==> !RiskyReload(me, n)
  {
    InitialInv(me, start);
    RunKeepsInv(me, start, run);
    SilentAfterReloadIff(me, After(me, start, run));
  }

  /** Two requests are out, the first saw a 401, its refresh was processed and the reply is on its way back. */
  ghost function RotatedOnce(me: UserId): Net {
    var access := AccessToken(me, 0);
    var first := RefreshToken(me, REFRESH_LIFETIME, 1);
    var second := Tokens(AccessToken(me, 2), RefreshToken(me, 1 + REFRESH_LIFETIME, 3));
    Net(Client(Some(access), true, Some(access), Some(first), Some(0), map[],
               map[0 := Waiting(0), 1 := First(Some(access))], 1),
        Server(map[0 := Session(me, Sha256(second.refresh), second.refresh.exp, false)],
               {first, second.refresh}, 4, 1, []),
        map[0 := Replied(Some(second))],
        map[])
  }

  const FIRST_REFRESH: seq<Action> :=
    [Starts(0), Starts(1), ApiReplies(0, Failed(401)), ServerRefreshes(0, Some(0), 1)]

  lemma FirstRefreshRotates(me: UserId) returns (n1: Net, n2: Net, n3: Net)
    ensures Possible(LoggedIn(me), FIRST_REFRESH[0]) && n1 == Apply(me, LoggedIn(me), FIRST_REFRESH[0])
    ensures Possible(n1, FIRST_REFRESH[1]) && n2 == Apply(me, n1, FIRST_REFRESH[1])
    ensures Possible(n2, FIRST_REFRESH[2]) && n3 == Apply(me, n2, FIRST_REFRESH[2])
    ensures Possible(n3, FIRST_REFRESH[3]) && RotatedOnce(me) == Apply(me, n3, FIRST_REFRESH[3])
  {
    n1 := Apply(me, LoggedIn(me), Starts(0));
    n2 := Apply(me, n1, Starts(1));
    n3 := Apply(me, n2, ApiReplies(0, Failed(401)));
    assert n3.flights[0] == Sent(n1.client.storedRefresh.value);
    assert 0 in Unrevoked(n3.server, me);
    var n4 := Apply(me, n3, FIRST_REFRESH[3]);
    assert n4.client.requests == RotatedOnce(me).client.requests;
    assert n4.server.sessions == RotatedOnce(me).server.sessions;
    assert n4.server.signed == RotatedOnce(me).server.signed;
    assert n4.flights == RotatedOnce(me).flights;
  }

  lemma ReachRotatedOnce(me: UserId, rest: seq<Action>)
    requires PossibleRun(me, RotatedOnce(me), rest)
    ensures PossibleRun(me, LoggedIn(me), FIRST_REFRESH + rest)
    ensures After(me, LoggedIn(me), FIRST_REFRESH + rest) == After(me, RotatedOnce(me), rest)
  {
    var n1, n2, n3 := FirstRefreshRotates(me);
    var rest3 := [FIRST_REFRESH[3]] + rest;
    var rest2 := [FIRST_REFRESH[2]] + rest3;
    var rest1 := [FIRST_REFRESH[1]] + rest2;
    Prepend(me, n3, FIRST_REFRESH[3], rest);
    Prepend(me, n2, FIRST_REFRESH[2], rest3);
    Prepend(me, n1, FIRST_REFRESH[1], rest2);
    Prepend(me, LoggedIn(me), FIRST_REFRESH[0], rest1);
    assert FIRST_REFRESH + rest == [FIRST_REFRESH[0]] + rest1;
  }

  /**
   * A concrete reload at the wrong moment: the server has rotated, the page is reloaded before the
   * reply arrives, and the next 401 sends the rotated-out token.
   */
  lemma ReloadInFlightRaisesAlarm(me: UserId)
    ensures exists after: seq<Action> ::
      && (forall a <- FIRST_REFRESH :: Ordinary(a)) && (forall a <- after :: Ordinary(a))
      && PossibleRun(me, LoggedIn(me), FIRST_REFRESH + ([Reloads] + after))
      && var n := After(me, LoggedIn(me), FIRST_REFRESH + ([Reloads] + after));
      && me in n.server.alerts && Unrevoked(n.server, me) == {}
  {
    var n := RotatedOnce(me);
    assert 0 in Unrevoked(n.server, me);
    var n' := Apply(me, n, Reloads);
    assert n'.flights == map[];
    var after := StaleTokenRaisesAlarm(me, n', 0);
    Prepend(me, n, Reloads, after);
    ReachRotatedOnce(me, [Reloads] + after);
  }

  /** Logging out tells only the store, so a second login leaves two open sessions and the lookup may pick either. */
  lemma SecondLoginRaisesAlarm(me: UserId)
    ensures exists run: seq<Action> ::
      && (forall a <- run :: Ordinary(a))
      && PossibleRun(me, LoggedIn(me), [UserLogsOut, UserLogsIn(1)] + run)
      && me in After(me, LoggedIn(me), [UserLogsOut, UserLogsIn(1)] + run).server.alerts
  {
    var n0 := LoggedIn(me);
    var n1 := Apply(me, n0, UserLogsOut);
    var n2 := Apply(me, n1, UserLogsIn(1));
    assert 0 in Unrevoked(n2.server, me);
    var run := StaleTokenRaisesAlarm(me, n2, 0);
    Prepend(me, n1, UserLogsIn(1), run);
    Prepend(me, n0, UserLogsOut, [UserLogsIn(1)] + run);
    assert [UserLogsOut, UserLogsIn(1)] + run == [UserLogsOut] + ([UserLogsIn(1)] + run);
  }
}
