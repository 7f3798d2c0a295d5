/**
 * The browser side: the credential slice of the store, and the query wrapper
 * that shares one token refresh between all requests that saw a 401.
 *
 * The wrapper is cut at its awaits; each function below is the code that runs
 * without interruption between two of them.
 */
module ReauthClient {
  import opened Common
  import opened Sessions

  type RequestId = nat
  type FlightId = nat   // one identity per refresh promise

  datatype ApiResult = Data | Failed(status: int)

  /** Where one call of the wrapper is suspended. */
  datatype Phase =
    | First(sent: Option<AccessToken>)
    | Waiting(flight: FlightId)
    | Retry(sent: Option<AccessToken>)
    | Finished(result: ApiResult)
    | Abandoned   // its page was reloaded

  datatype Client = Client(
    token: Option<AccessToken>,
    isAuthenticated: bool,
    storedAccess: Option<AccessToken>,
    storedRefresh: Option<RefreshToken>,
    refreshPromise: Option<FlightId>,
    settled: map<FlightId, Option<AccessToken>>,
    requests: map<RequestId, Phase>,
    nextFlight: FlightId)

  /** A page just loaded: the slice starts from the stored credentials, and no refresh is shared yet. */
  function Loaded(access: Option<AccessToken>, refresh: Option<RefreshToken>): Client {
    Client(access, access.Some?, access, refresh, None, map[], map[], 0)
  }

  const FRESH_CLIENT := Loaded(None, None)

  /**
   * The page is reloaded: whatever was suspended on the old page never continues. Names of requests
   * and flights are not used twice.
   */
  function Reloaded(c: Client): Client {
    Loaded(c.storedAccess, c.storedRefresh).(
      requests := map r | r in c.requests :: if c.requests[r].Finished? then c.requests[r] else Abandoned,
      nextFlight := c.nextFlight)
  }

  function SetCredentials(c: Client, tokens: Tokens): Client {
    c.(token := Some(tokens.access), isAuthenticated := true,
       storedAccess := Some(tokens.access), storedRefresh := Some(tokens.refresh))
  }

  function LogOut(c: Client): Client {
    c.(token := None, isAuthenticated := false, storedAccess := None, storedRefresh := None)
  }

  function StartRequest(c: Client, r: RequestId): Client {
    c.(requests := c.requests[r := First(c.token)])
  }

  /** A reply to the request itself; the second component is the refresh call it starts, if any. */
  function OnReply(c: Client, r: RequestId, result: ApiResult): (Client, Option<RefreshToken>)
    requires r in c.requests
  {
    if !c.requests[r].First? || result != Failed(401) then
      (c.(requests := c.requests[r := Finished(result)]), None)
    else if c.storedRefresh.None? then
      (LogOut(c).(requests := c.requests[r := Finished(result)]), None)
    else if c.refreshPromise.Some? then
      (c.(requests := c.requests[r := Waiting(c.refreshPromise.value)]), None)
    else
      (c.(refreshPromise := Some(c.nextFlight), nextFlight := c.nextFlight + 1,
          requests := c.requests[r := Waiting(c.nextFlight)]),
       c.storedRefresh)
  }

  /**
   * Only a first 401 with a refresh token at hand keeps a request going; any other reply is what it finishes
   * with. Nobody else's request moves, and only a first 401 without that token touches the credentials.
   */
  lemma ReplyOutcome(c: Client, r: RequestId, result: ApiResult, other: RequestId)
    requires r in c.requests
    ensures var (c', call) := OnReply(c, r, result);
      var first401 := c.requests[r].First? && result == Failed(401);
      && r in c'.requests && c'.requests.Keys == c.requests.Keys
      && (c'.requests[r] == Finished(result) <==> !(first401 && c.storedRefresh.Some?))
      && (first401 && c.storedRefresh.Some? ==>
            && c'.refreshPromise.Some? && c'.requests[r] == Waiting(c'.refreshPromise.value)
            && (c.refreshPromise.Some? ==> c'.refreshPromise == c.refreshPromise && call == None)
            && (c.refreshPromise.None? ==> c'.refreshPromise == Some(c.nextFlight) && call == c.storedRefresh))
      && (!(first401 && c.storedRefresh.Some?) ==> c'.refreshPromise == c.refreshPromise && call == None)
      && (other in c.requests && other != r ==> c'.requests[other] == c.requests[other])
      && c'.settled == c.settled
      && (if first401 && c.storedRefresh.None? then
            !c'.isAuthenticated && c'.token == c'.storedAccess == None && c'.storedRefresh == None
          else
            (c'.token, c'.isAuthenticated, c'.storedAccess, c'.storedRefresh)
            == (c.token, c.isAuthenticated, c.storedAccess, c.storedRefresh))
  {
  }

  /** The refresh call returns: credentials are stored and the promise resolves. */
  function OnRefreshReply(c: Client, f: FlightId, reply: Option<Tokens>): Client {
    var c' := if reply.Some? then SetCredentials(c, reply.value) else c;
    c'.(refreshPromise := None,
        settled := c.settled[f := if reply.Some? then Some(reply.value.access) else None])
  }

  /**
   * The promise of this call, and of no other, resolves: with the access token received, both tokens being
   * kept from then on, or with nothing, the credentials staying as they were. No request moves yet.
   */
  lemma RefreshReplyOutcome(c: Client, f: FlightId, reply: Option<Tokens>)
    ensures var c' := OnRefreshReply(c, f, reply);
      && c'.refreshPromise == None && f in c'.settled && c'.settled == c.settled[f := c'.settled[f]]
      && c'.requests == c.requests && c'.nextFlight == c.nextFlight
      && (match reply
          case Some(tokens) =>
            && c'.settled[f] == c'.token == c'.storedAccess == Some(tokens.access)
            && c'.storedRefresh == Some(tokens.refresh) && c'.isAuthenticated
          case None =>
            && c'.settled[f] == None
            && (c'.token, c'.isAuthenticated, c'.storedAccess, c'.storedRefresh)
               == (c.token, c.isAuthenticated, c.storedAccess, c.storedRefresh))
  {
  }

  /** A waiter continues with the resolved value: it retries once, or logs the user out. */
  function OnResume(c: Client, r: RequestId): Client
    requires r in c.requests && c.requests[r].Waiting? && c.requests[r].flight in c.settled
  {
    if c.settled[c.requests[r].flight].Some? then
      c.(requests := c.requests[r := Retry(c.token)])
    else
      LogOut(c).(requests := c.requests[r := Finished(Failed(401))])
  }

  /** The slice and the browser storage always hold the same credentials. */
  predicate Mirrored(c: Client) {
    c.storedAccess == c.token && c.isAuthenticated == c.token.Some?
  }

  class ApiClient {
    var token: Option<AccessToken>
    var isAuthenticated: bool
    var storedAccess: Option<AccessToken>
    var storedRefresh: Option<RefreshToken>
    var refreshPromise: Option<FlightId>
    var settled: map<FlightId, Option<AccessToken>>
    var requests: map<RequestId, Phase>
    var nextFlight: FlightId

    function State(): Client
      reads this
    {
      Client(token, isAuthenticated, storedAccess, storedRefresh, refreshPromise, settled, requests, nextFlight)
    }

    constructor (access: Option<AccessToken>, refresh: Option<RefreshToken>)
      ensures Mirrored(State())
      ensures State() == Loaded(access, refresh)
    {
      token, isAuthenticated, storedAccess, storedRefresh := access, access.Some?, access, refresh;
      refreshPromise, settled, requests, nextFlight := None, map[], map[], 0;
    }

    method DispatchSetCredentials(access: AccessToken)
      modifies this`token, this`isAuthenticated, this`storedAccess
      ensures token == storedAccess == Some(access) && isAuthenticated
    {
      token := Some(access);
      isAuthenticated := true;
      storedAccess := Some(access);
    }

    method DispatchLogout()
      modifies this`token, this`isAuthenticated, this`storedAccess, this`storedRefresh
      ensures State() == LogOut(old(State()))
    {
      token := None;
      isAuthenticated := false;
      storedAccess := None;
      storedRefresh := None;
    }

    method Start(r: RequestId)
      modifies this`requests
      ensures State() == StartRequest(old(State()), r)
      ensures requests == old(requests)[r := First(old(token))]
    {
      requests := requests[r := First(token)];
    }

    method HandleReply(r: RequestId, result: ApiResult) returns (call: Option<RefreshToken>)
      requires r in requests
      requires Mirrored(State())
      modifies this
      ensures Mirrored(State())
      ensures (State(), call) == OnReply(old(State()), r, result)
    {
      call := None;
      if requests[r].First? && result == Failed(401) {
        var refreshToken := storedRefresh;
        if refreshToken.Some? {
          if refreshPromise.None? {
            call := refreshToken;
            refreshPromise := Some(nextFlight);
            nextFlight := nextFlight + 1;
          }
          requests := requests[r := Waiting(refreshPromise.value)];
          return;
        }
        DispatchLogout();
      }
      requests := requests[r := Finished(result)];
    }

    method HandleRefreshReply(f: FlightId, reply: Option<Tokens>)
      requires Mirrored(State())
      modifies this
      ensures Mirrored(State())
      ensures State() == OnRefreshReply(old(State()), f, reply)
    {
      var newToken: Option<AccessToken> := None;
      if reply.Some? {
        DispatchSetCredentials(reply.value.access);
        storedRefresh := Some(reply.value.refresh);
        newToken := Some(reply.value.access);
      }
      refreshPromise := None;
      settled := settled[f := newToken];
    }

    method Resume(r: RequestId)
      requires r in requests && requests[r].Waiting? && requests[r].flight in settled
      requires Mirrored(State())
      modifies this
      ensures Mirrored(State())
      ensures State() == OnResume(old(State()), r)
    {
      var newToken := settled[requests[r].flight];
      if newToken.Some? {
        requests := requests[r := Retry(token)];
      } else {
        DispatchLogout();
        storedRefresh := None;
        requests := requests[r := Finished(Failed(401))];
      }
    }
  }
}
