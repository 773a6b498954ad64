/** The code of `DataCloudTokenProvider` (provider.rs), proved against `TokenSpec`. */
module TokenProvider {
  import opened Common
  import opened TokenSpec

  class DataCloudTokenProvider {
    const settings: Settings
    var cachedOAuthToken: Option<OAuthToken>
    var cachedDcJwt: Option<DataCloudToken>
    var world: World
    ghost var log: seq<Event>

    ghost function State(): Provider
      reads this
    {
      Provider(settings, cachedOAuthToken, cachedDcJwt, world, log)
    }

    constructor (settings: Settings, now: int, replies: seq<Reply>)
      ensures State() == New(settings, now, replies)
    {
      this.settings := settings;
      cachedOAuthToken, cachedDcJwt := None, None;
      world := World(now, replies, 0, 0);
      log := [];
    }

    /** `post_with_retry`. */
    method PostWithRetry() returns (result: Outcome<Body>)
      modifies this`world
      ensures Posted(result, world) == Post(settings.maxRetries, old(world))
    {
      var lastError: Option<AuthError> := None;
      for attempt := 0 to settings.maxRetries + 1
        invariant PostFrom(settings.maxRetries, attempt, world) == Post(settings.maxRetries, old(world))
        invariant attempt > 0 ==> lastError == Some(Http)
      {
        if attempt > 0 {
          world := world.Sleep(Delay(attempt));
        }
        var reply := world.Upcoming();
        world := world.Send();
        if reply.Response? {
          if IsClientError(reply.status) {
            return Err(if reply.body.Json? || reply.body.OtherJson? then Authorization else Http);
          }
          if !IsServerError(reply.status) {
            return Ok(reply.body);
          }
        }
        lastError := Some(Http);
      }
      return Err(if lastError.Some? then lastError.value else Http);
    }

    method FetchOAuthAccessToken() returns (result: Outcome<OAuthToken>)
      modifies this`world, this`log
      ensures Step(result, State()) == FetchOAuth(old(State()))
    {
      if !settings.canRequest { return Err(Config); }
      var posted := PostWithRetry();
      var json := ReadJson(posted);
      if json.Err? { return Err(json.error); }
      result := OAuthFromResponse(json.value, world.now);
      if result.Ok? { log := log + [OAuthFetched(result.value, world.sends)]; }
    }

    method ExchangeOAuthAccessTokenForDcJwt(subject: OAuthToken) returns (result: Outcome<DataCloudToken>)
      modifies this`world, this`log
      ensures Step(result, State()) == Exchange(old(State()), subject)
    {
      if !subject.urlJoins { return Err(Config); }
      var posted := PostWithRetry();
      var json := ReadJson(posted);
      if json.Err? { return Err(json.error); }
      result := JwtFromResponse(json.value, world.now);
      if result.Ok? { log := log + [Exchanged(result.value, subject.token, world.sends)]; }
    }

    method GetValidOAuthAccessToken() returns (result: Outcome<OAuthToken>)
      modifies this
      ensures Step(result, State()) == GetValidOAuth(old(State()))
    {
      if cachedOAuthToken.Some? {
        if cachedOAuthToken.value.IsLikelyValid(world.now) {
          return Ok(cachedOAuthToken.value);
        }
        log := log + [OAuthExpired(cachedOAuthToken.value)];
      }
      result := FetchOAuthAccessToken();
      if result.Ok? { cachedOAuthToken := Some(result.value); }
    }

    method FetchDcJwt() returns (result: Outcome<DataCloudToken>)
      modifies this
      ensures Step(result, State()) == FetchJwt(old(State()))
    {
      var oauth := GetValidOAuthAccessToken();
      if oauth.Err? { return Err(oauth.error); }
      result := ExchangeOAuthAccessTokenForDcJwt(oauth.value);
      if result.Err? {
        // Step 2a: the token looked valid here but may have been invalidated server-side.
        log := log + [FirstExchangeFailed];
        cachedOAuthToken := None;
        var renewed := FetchOAuthAccessToken();
        if renewed.Err? { return Err(renewed.error); }
        cachedOAuthToken := Some(renewed.value);
        result := ExchangeOAuthAccessTokenForDcJwt(renewed.value);
      }
    }

    method GetToken() returns (result: Outcome<DataCloudToken>)
      modifies this
      ensures Step(result, State()) == TokenSpec.GetToken(old(State()))
    {
      var needsRefresh := match cachedDcJwt case Some(token) => !token.IsValid(world.now) case None => true;
      if needsRefresh {
        var fetched := FetchDcJwt();
        if fetched.Err? { return fetched; }
        cachedDcJwt := Some(fetched.value);
      }
      return Ok(cachedDcJwt.value);
    }

    method ForceRefresh() returns (result: Outcome<DataCloudToken>)
      modifies this
      ensures Step(result, State()) == TokenSpec.ForceRefresh(old(State()))
    {
      ClearCache();
      result := GetToken();
    }

    method RefreshToken() returns (result: Outcome<DataCloudToken>)
      modifies this
      ensures Step(result, State()) == TokenSpec.RefreshToken(old(State()))
    {
      cachedDcJwt := None;
      result := GetToken();
    }

    method ClearCache()
      modifies this
      ensures State() == TokenSpec.ClearCache(old(State()))
    {
      cachedOAuthToken, cachedDcJwt := None, None;
      log := log + [Cleared];
    }

    method BearerToken() returns (token: Option<string>)
      ensures token == Bearer(State())
    {
      if cachedDcJwt.Some? && cachedDcJwt.value.IsValid(world.now) {
        return Some(cachedDcJwt.value.BearerToken());
      }
      return None;
    }
  }
}
