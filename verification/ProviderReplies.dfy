/**
  What the server's replies become: which reply each token was read from, over whole runs, when a
  cached token is used instead, and which error each failure is.
 */
module ProviderReplies {
  import opened Common
  import opened TokenSpec
  import opened ProviderRuns

  // ---------------------------------------------------------------------------
  // Tokens and replies
  // ---------------------------------------------------------------------------

  /** A reply a token can be read from. */
  predicate GoodReply(r: Reply)
  {
    && r.Response? && !(400 <= r.status < 600)
    && r.body.Json? && !r.body.errorReported && r.body.accessToken != "" && r.body.urlParses
  }

  /** The OAuth token of this reply: its access token, good for 7199 seconds. */
  predicate IsOAuthOf(t: OAuthToken, r: Reply)
  {
    && GoodReply(r)
    && t.token == r.body.accessToken && t.urlJoins == r.body.urlJoins
    && t.expiresAt == t.obtainedAt + 7199 * SECOND
  }

  /** The JWT of this reply: its type and access token, good for as long as it says, or 1800 seconds. */
  predicate IsJwtOf(jwt: DataCloudToken, r: Reply)
  {
    && GoodReply(r)
    && jwt.tokenType == (if r.body.tokenType.Some? then r.body.tokenType.value else "Bearer")
    && jwt.token == r.body.accessToken
    && jwt.expiresAt == jwt.createdAt + (if r.body.expiresIn.Some? then r.body.expiresIn.value else 1800) * SECOND
  }

  /** A fetch that succeeds reads its token from the last reply, stamped with the time it arrived. */
  lemma FetchOf(p: Provider)
    ensures Follows(p.world, FetchOAuth(p).state.world)
    ensures FetchOAuth(p).result.Ok? ==>
              var t, w := FetchOAuth(p).result.value, FetchOAuth(p).state.world;
              w.sends > p.world.sends && IsOAuthOf(t, LastReply(p.world, w)) && t.obtainedAt == w.now
  {
    PostFollows(p.settings.maxRetries, 0, p.world);
    var n := PostAnswersFirstDecisive(p.settings.maxRetries, p.world);
    if FetchOAuth(p).result.Ok? {
      assert LastReply(p.world, FetchOAuth(p).state.world) == ReplyAt(p.world, n - 1);
    }
  }

  lemma ExchangeOf(p: Provider, subject: OAuthToken)
    ensures Follows(p.world, Exchange(p, subject).state.world)
    ensures Exchange(p, subject).result.Ok? ==>
              var jwt, w := Exchange(p, subject).result.value, Exchange(p, subject).state.world;
              w.sends > p.world.sends && IsJwtOf(jwt, LastReply(p.world, w)) && jwt.createdAt == w.now
  {
    PostFollows(p.settings.maxRetries, 0, p.world);
    var n := PostAnswersFirstDecisive(p.settings.maxRetries, p.world);
    if Exchange(p, subject).result.Ok? {
      assert LastReply(p.world, Exchange(p, subject).state.world) == ReplyAt(p.world, n - 1);
    }
  }

  // ---------------------------------------------------------------------------
  // Every failure is the right error
  // ---------------------------------------------------------------------------

  /** The error of a request whose decisive reply is `r`, if it has one. */
  function ErrorOf(r: Reply): Option<AuthError>
  {
    if GoodReply(r) then None
    else if r.NoResponse? || 500 <= r.status < 600 then Some(Http)
    else if 400 <= r.status < 500 then
      Some(if r.body.Json? || r.body.OtherJson? then Authorization else Http)
    else if r.body.Unreadable? then Some(Http)
    else if r.body.Json? && r.body.errorReported then Some(Authorization)
    else Some(TokenParse)
  }

  /** `n` sends ended the request; the answer is the last reply's token or its error. */
  lemma FetchAnswers(p: Provider) returns (n: nat)
    requires p.settings.canRequest
    ensures EndsAfter(p.settings.maxRetries, p.world, n)
    ensures FetchOAuth(p).state.world.sends == p.world.sends + n
    ensures match ErrorOf(ReplyAt(p.world, n - 1))
            case None => FetchOAuth(p).result.Ok?
            case Some(e) => FetchOAuth(p).result == Err(e)
  {
    n := PostAnswersFirstDecisive(p.settings.maxRetries, p.world);
  }

  lemma ExchangeAnswers(p: Provider, subject: OAuthToken) returns (n: nat)
    requires subject.urlJoins
    ensures EndsAfter(p.settings.maxRetries, p.world, n)
    ensures Exchange(p, subject).state.world.sends == p.world.sends + n
    ensures match ErrorOf(ReplyAt(p.world, n - 1))
            case None => Exchange(p, subject).result.Ok?
            case Some(e) => Exchange(p, subject).result == Err(e)
  {
    n := PostAnswersFirstDecisive(p.settings.maxRetries, p.world);
  }

  /** What cannot be requested is a configuration error, and nothing is sent. */
  lemma NothingToRequest(p: Provider, subject: OAuthToken)
    ensures !p.settings.canRequest ==> FetchOAuth(p) == Step(Err(Config), p)
    ensures !subject.urlJoins ==> Exchange(p, subject) == Step(Err(Config), p)
  {
  }

  // ---------------------------------------------------------------------------
  // Whole runs
  // ---------------------------------------------------------------------------

  /** The last OAuth fetch, and the last exchange, of a log. */
  function LastFetch(log: seq<Event>): Option<Event>
  {
    if log == [] then None
    else if log[|log| - 1].OAuthFetched? then Some(log[|log| - 1])
    else LastFetch(log[..|log| - 1])
  }

  function LastExchange(log: seq<Event>): Option<Event>
  {
    if log == [] then None
    else if log[|log| - 1].Exchanged? then Some(log[|log| - 1])
    else LastExchange(log[..|log| - 1])
  }

  /** The token of this event was read from the reply it names. */
  ghost predicate EventTraced(w: World, e: Event)
  {
    match e
    case OAuthFetched(t, n) => n >= 1 && IsOAuthOf(t, ReplyAt(w, n - 1))
    case Exchanged(jwt, _, n) => n >= 1 && IsJwtOf(jwt, ReplyAt(w, n - 1))
    case _ => true
  }

  /** What was exchanged at position `i` is the token of the last fetch before it. */
  ghost predicate SubjectTraced(log: seq<Event>, i: nat)
    requires i < |log|
  {
    log[i].Exchanged? ==>
      var f := LastFetch(log[..i]);
      f.Some? && f.value.OAuthFetched? && f.value.fetched.token == log[i].subject
  }

  ghost predicate LogTraced(w: World, log: seq<Event>) {
    forall i: nat :: i < |log| ==> EventTraced(w, log[i]) && SubjectTraced(log, i)
  }

  /** A provider that started in world `w`. */
  ghost predicate Traced(w: World, p: Provider)
  {
    && w.sends == 0 && Follows(w, p.world) && LogTraced(w, p.log)
    && (p.cachedOAuth.Some? ==>
          var f := LastFetch(p.log);
          f.Some? && f.value.OAuthFetched? && f.value.fetched == p.cachedOAuth.value)
  }

  lemma LogTracedOn(w: World, log: seq<Event>, e: Event)
    requires LogTraced(w, log) && EventTraced(w, e)
    requires e.Exchanged? ==>
               var f := LastFetch(log); f.Some? && f.value.OAuthFetched? && f.value.fetched.token == e.subject
    ensures LogTraced(w, log + [e])
    ensures LastFetch(log + [e]) == if e.OAuthFetched? then Some(e) else LastFetch(log)
  {
    var all := log + [e];
    assert all[..|log|] == log;
    forall i: nat | i < |all| ensures EventTraced(w, all[i]) && SubjectTraced(all, i) {
      assert all[..i] == log[..i];
      if i < |log| {
        assert SubjectTraced(log, i);
      } else {
        assert log[..i] == log;
      }
    }
  }

  lemma RenewTraced(w: World, p: Provider)
    requires Traced(w, p)
    ensures Traced(w, RenewOAuth(p).state)
    ensures RenewOAuth(p).result.Ok? ==> RenewOAuth(p).state.cachedOAuth == Some(RenewOAuth(p).result.value)
    ensures p.log <= RenewOAuth(p).state.log
  {
    FetchOAuthWithin(p);
    FetchOf(p);
    var f := FetchOAuth(p);
    FollowsTwice(w, p.world, f.state.world);
    if f.result.Ok? {
      LastReplyIs(w, p.world, f.state.world);
      LogTracedOn(w, p.log, OAuthFetched(f.result.value, f.state.world.sends));
    }
  }

  lemma ExchangeTraced(w: World, p: Provider, subject: OAuthToken)
    requires Traced(w, p) && p.cachedOAuth == Some(subject)
    ensures Traced(w, Exchange(p, subject).state)
    ensures p.log <= Exchange(p, subject).state.log
  {
    ExchangeOf(p, subject);
    ExchangeLeaves(p, subject);
    var x := Exchange(p, subject);
    FollowsTwice(w, p.world, x.state.world);
    if x.result.Ok? {
      ExchangedTraced(w, p.log, p.world, x.state.world, x.result.value, subject);
    }
  }

  /** An exchange changes the world, and when it succeeds adds its own event to the log. */
  lemma ExchangeLeaves(p: Provider, subject: OAuthToken)
    ensures var x := Exchange(p, subject);
            x.state == p.(world := x.state.world,
                          log := if x.result.Ok?
                                 then p.log + [Exchanged(x.result.value, subject.token, x.state.world.sends)] else p.log)
  {
  }

  lemma ExchangedTraced(w: World, log: seq<Event>, before: World, after: World, jwt: DataCloudToken, subject: OAuthToken)
    requires w.sends == 0 && Follows(w, before) && LogTraced(w, log)
    requires var f := LastFetch(log); f.Some? && f.value.OAuthFetched? && f.value.fetched == subject
    requires Follows(before, after) && after.sends > before.sends && IsJwtOf(jwt, LastReply(before, after))
    ensures LogTraced(w, log + [Exchanged(jwt, subject.token, after.sends)])
    ensures LastFetch(log + [Exchanged(jwt, subject.token, after.sends)]) == LastFetch(log)
  {
    LastReplyIs(w, before, after);
    var e := Exchanged(jwt, subject.token, after.sends);
    assert EventTraced(w, e);
    LogTracedOn(w, log, e);
  }

  /** The reply that ended the last request, counted from the start. */
  lemma LastReplyIs(w: World, before: World, after: World)
    requires w.sends == 0 && Follows(w, before) && Follows(before, after) && after.sends > before.sends
    ensures LastReply(before, after) == ReplyAt(w, after.sends - 1)
  {
    FollowsReplies(w, before, after.sends - before.sends - 1);
  }

  lemma GetValidTraced(w: World, p: Provider)
    requires Traced(w, p)
    ensures Traced(w, GetValidOAuth(p).state)
    ensures GetValidOAuth(p).result.Ok? ==> GetValidOAuth(p).state.cachedOAuth == Some(GetValidOAuth(p).result.value)
    ensures p.log <= GetValidOAuth(p).state.log
  {
    if p.cachedOAuth.None? {
      RenewTraced(w, p);
    } else if !p.cachedOAuth.value.IsLikelyValid(p.world.now) {
      var e := OAuthExpired(p.cachedOAuth.value);
      LogTracedOn(w, p.log, e);
      RenewTraced(w, p.(log := p.log + [e]));
    }
  }

  lemma RetryTraced(w: World, p: Provider)
    requires Traced(w, p)
    ensures Traced(w, RetryExchange(p).state)
    ensures p.log <= RetryExchange(p).state.log
  {
    var dropped := p.(cachedOAuth := None, log := p.log + [FirstExchangeFailed]);
    LogTracedOn(w, p.log, FirstExchangeFailed);
    RenewTraced(w, dropped);
    var renewed := RenewOAuth(dropped);
    if renewed.result.Ok? { ExchangeTraced(w, renewed.state, renewed.result.value); }
  }

  lemma FetchJwtTraced(w: World, p: Provider)
    requires Traced(w, p)
    ensures Traced(w, FetchJwt(p).state)
    ensures p.log <= FetchJwt(p).state.log
  {
    GetValidTraced(w, p);
    var oauth := GetValidOAuth(p);
    if oauth.result.Ok? {
      ExchangeTraced(w, oauth.state, oauth.result.value);
      var first := Exchange(oauth.state, oauth.result.value);
      if first.result.Err? { RetryTraced(w, first.state); }
    }
  }

  lemma GetTraced(w: World, p: Provider)
    requires Traced(w, p)
    ensures Traced(w, GetToken(p).state) && p.log <= GetToken(p).state.log
  {
    FetchJwtTraced(w, p);
  }

  lemma PerformTraced(w: World, p: Provider, call: Call)
    requires Traced(w, p)
    ensures Traced(w, Perform(p, call).state)
  {
    LogTracedOn(w, p.log, Cleared);
    match call
    case Get => GetTraced(w, p);
    case Refresh => GetTraced(w, p.(cachedJwt := None));
    case Force => GetTraced(w, ClearCache(p));
    case Clear =>
    case Wait(_) =>
  }

  lemma {:induction false} RunTraced(w: World, p: Provider, calls: seq<Call>)
    requires Traced(w, p)
    ensures Traced(w, PerformAll(p, calls))
    decreases |calls|
  {
    if calls != [] {
      PerformTraced(w, p, calls[0]);
      RunTraced(w, Perform(p, calls[0]).state, calls[1..]);
    }
  }

  /**
    Over every run: each OAuth token fetched and each JWT exchanged was read from the reply to its
    own request, and what was exchanged is the token of the last OAuth fetch before.
   */
  lemma TokensComeFromReplies(settings: Settings, now: int, replies: seq<Reply>, calls: seq<Call>)
    ensures LogTraced(World(now, replies, 0, 0), PerformAll(New(settings, now, replies), calls).log)
  {
    RunTraced(World(now, replies, 0, 0), New(settings, now, replies), calls);
  }

  lemma {:induction false} LastExchangeIs(w: World, log: seq<Event>)
    requires LogTraced(w, log)
    ensures LastExchange(log).Some? <==> LastExchanged(log).Some?
    ensures LastExchange(log).Some? ==>
              var e := LastExchange(log).value;
              e.Exchanged? && Some(e.jwt) == LastExchanged(log) && EventTraced(w, e)
  {
    if log != [] {
      var n := |log| - 1;
      assert EventTraced(w, log[n]);
      forall i: nat | i < n ensures EventTraced(w, log[..n][i]) && SubjectTraced(log[..n], i) {
        assert SubjectTraced(log, i) && log[..n][..i] == log[..i] && log[..n][i] == log[i];
      }
      LastExchangeIs(w, log[..n]);
    }
  }

  /**
    Safety, down to the wire: at any point of any run, what `bearer_token` hands out is the token
    type and the access token of the reply to the last successful exchange.
   */
  lemma BearerIsFromReply(settings: Settings, now: int, replies: seq<Reply>, calls: seq<Call>)
    ensures var p := PerformAll(New(settings, now, replies), calls);
            Bearer(p).Some? ==>
              var e := LastExchange(p.log);
              && e.Some? && e.value.Exchanged? && e.value.sends >= 1
              && var r := ReplyAt(World(now, replies, 0, 0), e.value.sends - 1);
                 && GoodReply(r)
                 && Bearer(p).value ==
                    (if r.body.tokenType.Some? then r.body.tokenType.value else "Bearer") + " " + r.body.accessToken
  {
    var w := World(now, replies, 0, 0);
    BearerIsLastExchanged(settings, now, replies, calls);
    RunTraced(w, New(settings, now, replies), calls);
    LastExchangeIs(w, PerformAll(New(settings, now, replies), calls).log);
  }

  // ---------------------------------------------------------------------------
  // When a cached token is used
  // ---------------------------------------------------------------------------

  /** A `get_token` that succeeds sends nothing, and returns the cached JWT, if and only if that has more than 300 seconds left. */
  lemma CachedJwtUsedIff(p: Provider)
    requires GetToken(p).result.Ok?
    ensures GetToken(p).state.world.sends == p.world.sends <==>
            p.cachedJwt.Some? && p.cachedJwt.value.expiresAt - p.world.now > 300 * SECOND
    ensures GetToken(p).state.world.sends == p.world.sends ==>
              GetToken(p) == Step(Ok(p.cachedJwt.value), p)
  {
    if !HasValidJwt(p) { FetchUsesLastReply(p); }
  }

  /** A cached OAuth token is used again if and only if it was obtained less than 7199 seconds ago. */
  lemma CachedOAuthUsedIff(w: World, p: Provider)
    requires Traced(w, p) && p.cachedOAuth.Some?
    ensures GetValidOAuth(p) == Step(Ok(p.cachedOAuth.value), p) <==>
            p.world.now - p.cachedOAuth.value.obtainedAt < 7199 * SECOND
  {
    LastFetchTraced(w, p.log);
    if !p.cachedOAuth.value.IsLikelyValid(p.world.now) {
      var e := OAuthExpired(p.cachedOAuth.value);
      LogTracedOn(w, p.log, e);
      RenewTraced(w, p.(log := p.log + [e]));
    }
  }

  lemma {:induction false} LastFetchTraced(w: World, log: seq<Event>)
    requires LogTraced(w, log) && LastFetch(log).Some?
    ensures EventTraced(w, LastFetch(log).value)
  {
    var n := |log| - 1;
    assert EventTraced(w, log[n]);
    if !log[n].OAuthFetched? {
      forall i: nat | i < n ensures EventTraced(w, log[..n][i]) && SubjectTraced(log[..n], i) {
        assert SubjectTraced(log, i) && log[..n][..i] == log[..i] && log[..n][i] == log[i];
      }
      LastFetchTraced(w, log[..n]);
    }
  }

  /** A successful `refresh_token` ends with a new exchange, whose JWT it caches and returns. */
  lemma RefreshExchanges(w: World, p: Provider)
    requires Traced(w, p) && RefreshToken(p).result.Ok?
    ensures var q := RefreshToken(p);
            && p.log < q.state.log && q.state.cachedJwt == Some(q.result.value)
            && var last := q.state.log[|q.state.log| - 1];
               last.Exchanged? && last.jwt == q.result.value && last.sends == q.state.world.sends
  {
    FreshExchange(w, p.(cachedJwt := None));
  }

  /** A fetch that succeeds adds to the log, and its last event is the exchange. */
  lemma FreshExchange(w: World, p: Provider)
    requires Traced(w, p) && FetchJwt(p).result.Ok?
    ensures var q := FetchJwt(p);
            && p.log < q.state.log
            && var last := q.state.log[|q.state.log| - 1];
               last.Exchanged? && last.jwt == q.result.value && last.sends == q.state.world.sends
  {
    GetValidTraced(w, p);
    var oauth := GetValidOAuth(p);
    var first := Exchange(oauth.state, oauth.result.value);
    ExchangeWithin(oauth.state, oauth.result.value);
    ExchangeTraced(w, oauth.state, oauth.result.value);
    if first.result.Err? {
      var dropped := first.state.(cachedOAuth := None, log := first.state.log + [FirstExchangeFailed]);
      LogTracedOn(w, first.state.log, FirstExchangeFailed);
      RenewTraced(w, dropped);
      var renewed := RenewOAuth(dropped);
      ExchangeWithin(renewed.state, renewed.result.value);
    }
  }

  /** A successful `force_refresh` also fetches a new OAuth token first. */
  lemma ForceFetches(w: World, p: Provider)
    requires Traced(w, p) && ForceRefresh(p).result.Ok?
    ensures var q := ForceRefresh(p);
            && p.log < q.state.log && q.state.cachedJwt == Some(q.result.value)
            && q.state.log[|q.state.log| - 1].Exchanged? && q.state.log[|q.state.log| - 1].jwt == q.result.value
            && Fetches(q.state.log) > Fetches(p.log)
  {
    var cleared := ClearCache(p);
    LogTracedOn(w, p.log, Cleared);
    Counted(p.log, Cleared);
    FreshExchange(w, cleared);
    FetchFromEmpty(w, cleared);
  }

  /** With an empty OAuth cache a successful fetch of a JWT fetches an OAuth token. */
  lemma FetchFromEmpty(w: World, p: Provider)
    requires Traced(w, p) && p.cachedOAuth.None? && FetchJwt(p).result.Ok?
    ensures Fetches(FetchJwt(p).state.log) > Fetches(p.log)
  {
    var f := FetchOAuth(p);
    FetchOAuthWithin(p);
    Counted(p.log, OAuthFetched(f.result.value, f.state.world.sends));
    var oauth := RenewOAuth(p);
    RenewTraced(w, p);
    ExchangeTraced(w, oauth.state, oauth.result.value);
    var first := Exchange(oauth.state, oauth.result.value);
    FetchesGrow(oauth.state.log, first.state.log);
    if first.result.Err? {
      RetryTraced(w, first.state);
      FetchesGrow(first.state.log, RetryExchange(first.state).state.log);
    }
  }

  lemma {:induction false} FetchesGrow(a: seq<Event>, b: seq<Event>)
    requires a <= b
    ensures Fetches(a) <= Fetches(b)
    decreases |b|
  {
    if |a| < |b| {
      var init := b[..|b| - 1];
      FetchesGrow(a, init);
      Counted(init, b[|b| - 1]);
      assert init + [b[|b| - 1]] == b;
    } else {
      assert a == b;
    }
  }
}
