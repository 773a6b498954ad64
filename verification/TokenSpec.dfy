/**
  The two-stage token provider (provider.rs, token.rs) as functions on its state.

  A refresh obtains an OAuth access token and exchanges it for a DC JWT; both are cached, with
  different expiry rules. HTTP is a script of replies, and the clock moves only while a send or
  a sleep is under way and between calls.
 */
module TokenSpec {
  import opened Common

  // ---------------------------------------------------------------------------
  // HTTP and time
  // ---------------------------------------------------------------------------

  /** Time is counted in nanoseconds. */
  const SECOND := 1_000_000_000

  const DC_JWT_VALIDITY_BUFFER_SECS := 300
  const OAUTH_ACCESS_TOKEN_DEFAULT_LIFETIME_SECS := 7199
  const DC_JWT_DEFAULT_LIFETIME_SECS := 1800

  /**
    A response body as the two token endpoints parse it; `OtherJson` lacks a required field. The
    instance URL of an OAuth response must parse and, later, join with the exchange path.
   */
  datatype Body =
    | Unreadable
    | NotJson
    | OtherJson
    | Json(errorReported: bool, accessToken: string, urlParses: bool, urlJoins: bool,
           tokenType: Option<string>, expiresIn: Option<int>)

  /** What one send yields, and how long it takes. */
  datatype Reply = NoResponse(elapsed: nat) | Response(status: int, body: Body, elapsed: nat)

  datatype AuthError = Config | Http | Authorization | TokenParse

  datatype Outcome<+T> = Ok(value: T) | Err(error: AuthError)

  predicate IsClientError(status: int) {
    400 <= status < 500
  }

  predicate IsServerError(status: int) {
    500 <= status < 600
  }

  // ---------------------------------------------------------------------------
  // Tokens
  // ---------------------------------------------------------------------------

  datatype OAuthToken = OAuthToken(token: string, urlJoins: bool, obtainedAt: int, expiresAt: int)
  {
    predicate IsLikelyValid(now: int) {
      now < expiresAt
    }
  }

  datatype DataCloudToken = DataCloudToken(tokenType: string, token: string, createdAt: int, expiresAt: int)
  {
    predicate IsValid(now: int) {
      expiresAt > now + DC_JWT_VALIDITY_BUFFER_SECS * SECOND
    }

    function BearerToken(): string {
      tokenType + " " + token
    }
  }

  /** `check_error` of both response types. */
  function CheckError(body: Body): Option<AuthError>
    requires body.Json?
  {
    if body.errorReported then Some(Authorization)
    else if body.accessToken == "" then Some(TokenParse)
    else None
  }

  function OAuthFromResponse(body: Body, now: int): Outcome<OAuthToken>
    requires body.Json?
  {
    if CheckError(body).Some? then Err(CheckError(body).value)
    else if !body.urlParses then Err(TokenParse)
    else
      Ok(OAuthToken(body.accessToken, body.urlJoins, now, now + OAUTH_ACCESS_TOKEN_DEFAULT_LIFETIME_SECS * SECOND))
  }

  function JwtFromResponse(body: Body, now: int): Outcome<DataCloudToken>
    requires body.Json?
  {
    if CheckError(body).Some? then Err(CheckError(body).value)
    else if !body.urlParses then Err(TokenParse)
    else
      var tokenType := if body.tokenType.Some? then body.tokenType.value else "Bearer";
      var lifetime := if body.expiresIn.Some? then body.expiresIn.value else DC_JWT_DEFAULT_LIFETIME_SECS;
      Ok(DataCloudToken(tokenType, body.accessToken, now, now + lifetime * SECOND))
  }

  // ---------------------------------------------------------------------------
  // The retry loop
  // ---------------------------------------------------------------------------

  /** The world the provider talks to, and what it has done to it. */
  datatype World = World(now: int, replies: seq<Reply>, sends: nat, sleptSecs: nat)
  {
    /** A script that has run out behaves like a server that never answers. */
    function Upcoming(): Reply {
      if replies == [] then NoResponse(0) else replies[0]
    }

    function Send(): World {
      World(now + Upcoming().elapsed, if replies == [] then [] else replies[1..], sends + 1, sleptSecs)
    }

    function Sleep(secs: nat): World {
      World(now + secs * SECOND, replies, sends, sleptSecs + secs)
    }
  }

  /** `1 << (attempt - 1).min(4)` seconds before attempt `attempt`. */
  function Delay(attempt: nat): nat
    requires attempt > 0
  {
    match attempt
    case 1 => 1
    case 2 => 2
    case 3 => 4
    case 4 => 8
    case _ => 16
  }

  function BeforeAttempt(attempt: nat, w: World): World {
    if attempt == 0 then w else w.Sleep(Delay(attempt))
  }

  /** The reply that ends the loop: anything but no response or a server error. */
  predicate Decisive(r: Reply) {
    r.Response? && !IsServerError(r.status)
  }

  datatype Posted = Posted(result: Outcome<Body>, world: World)

  /** The answer a decisive reply gives; a client error with a JSON body names its code. */
  function Decide(r: Reply): Outcome<Body>
    requires r.Response?
  {
    if IsClientError(r.status) then Err(if r.body.Json? || r.body.OtherJson? then Authorization else Http) else Ok(r.body)
  }

  /** `post_with_retry` from attempt number `attempt` on. */
  function PostFrom(maxRetries: nat, attempt: nat, w: World): Posted
    requires attempt <= maxRetries + 1
    decreases maxRetries + 1 - attempt
  {
    if attempt > maxRetries then Posted(Err(Http), w)
    else
      var ready := BeforeAttempt(attempt, w);
      if Decisive(ready.Upcoming()) then Posted(Decide(ready.Upcoming()), ready.Send())
      else PostFrom(maxRetries, attempt + 1, ready.Send())
  }

  function Post(maxRetries: nat, w: World): Posted {
    PostFrom(maxRetries, 0, w)
  }

  // ---------------------------------------------------------------------------
  // The provider
  // ---------------------------------------------------------------------------

  /** `canRequest`: the configuration has an auth mode whose request can be built and signed. */
  datatype Settings = Settings(maxRetries: nat, canRequest: bool)

  /** What happens during a run. `sends` counts the requests made so far, so it names a reply. */
  datatype Event =
    | OAuthExpired(token: OAuthToken)
    | OAuthFetched(fetched: OAuthToken, sends: nat)
    | Cleared
    | FirstExchangeFailed
    | Exchanged(jwt: DataCloudToken, subject: string, sends: nat)

  datatype Provider = Provider(
    settings: Settings,
    cachedOAuth: Option<OAuthToken>,
    cachedJwt: Option<DataCloudToken>,
    world: World,
    log: seq<Event>)

  function New(settings: Settings, now: int, replies: seq<Reply>): Provider {
    Provider(settings, None, None, World(now, replies, 0, 0), [])
  }

  /** A step's answer and the state it leaves. */
  datatype Step<+T> = Step(result: Outcome<T>, state: Provider)

  /** Parse the answer of a token endpoint. */
  function ReadJson(posted: Outcome<Body>): (r: Outcome<Body>)
    ensures r.Ok? ==> r.value.Json?
  {
    match posted
    case Err(e) => Err(e)
    case Ok(body) =>
      if body.Unreadable? then Err(Http) else if body.Json? then Ok(body) else Err(TokenParse)
  }

  /** `fetch_oauth_access_token`. */
  function FetchOAuth(p: Provider): Step<OAuthToken>
  {
    if !p.settings.canRequest then Step(Err(Config), p)
    else
      var posted := Post(p.settings.maxRetries, p.world);
      var p' := p.(world := posted.world);
      match ReadJson(posted.result)
      case Err(e) => Step(Err(e), p')
      case Ok(body) =>
        var token := OAuthFromResponse(body, p'.world.now);
        Step(token, if token.Ok? then p'.(log := p'.log + [OAuthFetched(token.value, p'.world.sends)]) else p')
  }

  /** `exchange_oauth_access_token_for_dc_jwt`. */
  function Exchange(p: Provider, subject: OAuthToken): Step<DataCloudToken>
  {
    if !subject.urlJoins then Step(Err(Config), p)
    else
      var posted := Post(p.settings.maxRetries, p.world);
      var p' := p.(world := posted.world);
      match ReadJson(posted.result)
      case Err(e) => Step(Err(e), p')
      case Ok(body) =>
        var jwt := JwtFromResponse(body, p'.world.now);
        Step(jwt, if jwt.Ok? then p'.(log := p'.log + [Exchanged(jwt.value, subject.token, p'.world.sends)]) else p')
  }

  /** `fetch_oauth_access_token` followed by caching its token. */
  function RenewOAuth(p: Provider): Step<OAuthToken>
  {
    var fetched := FetchOAuth(p);
    if fetched.result.Err? then fetched
    else Step(fetched.result, fetched.state.(cachedOAuth := Some(fetched.result.value)))
  }

  /** `get_valid_oauth_access_token`. */
  function GetValidOAuth(p: Provider): Step<OAuthToken>
  {
    if p.cachedOAuth.None? then RenewOAuth(p)
    else if p.cachedOAuth.value.IsLikelyValid(p.world.now) then Step(Ok(p.cachedOAuth.value), p)
    else RenewOAuth(p.(log := p.log + [OAuthExpired(p.cachedOAuth.value)]))
  }

  /** Step 2a: drop the OAuth token, fetch a fresh one, and exchange once more. */
  function RetryExchange(p: Provider): Step<DataCloudToken>
  {
    var renewed := RenewOAuth(p.(cachedOAuth := None, log := p.log + [FirstExchangeFailed]));
    match renewed.result
    case Err(e) => Step(Err(e), renewed.state)
    case Ok(token) => Exchange(renewed.state, token)
  }

  /** `fetch_dc_jwt`. */
  function FetchJwt(p: Provider): Step<DataCloudToken>
  {
    var oauth := GetValidOAuth(p);
    match oauth.result
    case Err(e) => Step(Err(e), oauth.state)
    case Ok(token) =>
      var first := Exchange(oauth.state, token);
      if first.result.Ok? then first else RetryExchange(first.state)
  }

  predicate HasValidJwt(p: Provider) {
    p.cachedJwt.Some? && p.cachedJwt.value.IsValid(p.world.now)
  }

  /** `get_token`. */
  function GetToken(p: Provider): Step<DataCloudToken>
  {
    if HasValidJwt(p) then Step(Ok(p.cachedJwt.value), p)
    else
      var fetched := FetchJwt(p);
      match fetched.result
      case Err(e) => fetched
      case Ok(jwt) => Step(Ok(jwt), fetched.state.(cachedJwt := Some(jwt)))
  }

  function ClearCache(p: Provider): Provider {
    p.(cachedOAuth := None, cachedJwt := None, log := p.log + [Cleared])
  }

  function ForceRefresh(p: Provider): Step<DataCloudToken> {
    GetToken(ClearCache(p))
  }

  function RefreshToken(p: Provider): Step<DataCloudToken> {
    GetToken(p.(cachedJwt := None))
  }

  /** `bearer_token`. */
  function Bearer(p: Provider): Option<string> {
    if HasValidJwt(p) then Some(p.cachedJwt.value.BearerToken()) else None
  }
}
