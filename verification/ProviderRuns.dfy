/** Whole runs of the token provider: safety, how often it fetches, and the retry loop. */
module ProviderRuns {
  import opened Common
  import opened TokenSpec

  // ---------------------------------------------------------------------------
  // The retry loop
  // ---------------------------------------------------------------------------

  /** Reply number `i` of a world. */
  function ReplyAt(w: World, i: nat): Reply {
    if i < |w.replies| then w.replies[i] else NoResponse(0)
  }

  /** Seconds slept before the first `retries` retries. */
  function TotalDelay(retries: nat): nat {
    if retries == 0 then 0 else TotalDelay(retries - 1) + Delay(retries)
  }

  function Pow2(n: nat): nat {
    if n == 0 then 1 else 2 * Pow2(n - 1)
  }

  /** The back-off doubles for five retries and is linear from then on. */
  lemma {:induction false} TotalDelayIs(retries: nat)
    ensures retries <= 5 ==> TotalDelay(retries) == Pow2(retries) - 1
    ensures retries >= 5 ==> TotalDelay(retries) == 16 * retries - 49
  {
    if retries > 5 {
      TotalDelayIs(retries - 1);
    } else {
      assert Pow2(0) == 1 && Pow2(1) == 2 && Pow2(2) == 4 && Pow2(3) == 8 && Pow2(4) == 16 && Pow2(5) == 32;
      assert TotalDelay(1) == 1 && TotalDelay(2) == 3 && TotalDelay(3) == 7 && TotalDelay(4) == 15 && TotalDelay(5) == 31;
    }
  }

  /** `n` sends of a call to `post_with_retry` ended it: the last is decisive, or all were used. */
  ghost predicate EndsAfter(maxRetries: nat, w: World, n: nat)
  {
    && 1 <= n <= maxRetries + 1
    && (forall i: nat :: i < n - 1 ==> !Decisive(ReplyAt(w, i)))
    && (Decisive(ReplyAt(w, n - 1)) || n == maxRetries + 1)
  }

  /** A round of the loop that is not the last. */
  lemma PostFromGoesOn(maxRetries: nat, attempt: nat, w: World) returns (next: World)
    requires attempt < maxRetries && !Decisive(ReplyAt(w, 0))
    ensures PostFrom(maxRetries, attempt, w) == PostFrom(maxRetries, attempt + 1, next)
    ensures next.replies == if w.replies == [] then [] else w.replies[1..]
    ensures next.sends == w.sends + 1
    ensures next.sleptSecs == w.sleptSecs + (if attempt == 0 then 0 else Delay(attempt))
    ensures w.now <= next.now
  {
    next := BeforeAttempt(attempt, w).Send();
  }

  /** The last round. */
  lemma PostFromEnds(maxRetries: nat, attempt: nat, w: World)
    requires attempt <= maxRetries
    requires attempt == maxRetries || Decisive(ReplyAt(w, 0))
    ensures var r := PostFrom(maxRetries, attempt, w);
            && r.world.sends == w.sends + 1
            && r.world.sleptSecs == w.sleptSecs + (if attempt == 0 then 0 else Delay(attempt))
            && w.now <= r.world.now
            && r.result == if Decisive(ReplyAt(w, 0)) then Decide(ReplyAt(w, 0)) else Err(Http)
  {
    var sent := BeforeAttempt(attempt, w).Send();
    if attempt == maxRetries && !Decisive(ReplyAt(w, 0)) {
      assert PostFrom(maxRetries, attempt + 1, sent) == Posted(Err(Http), sent);
    }
  }

  /** `n` sends were made from attempt `attempt` on, the delays slept, and the last reply answered. */
  ghost predicate PostMade(maxRetries: nat, attempt: nat, w: World, n: nat)
    requires attempt <= maxRetries && n >= 1
  {
    var r := PostFrom(maxRetries, attempt, w);
    && r.world.sends == w.sends + n
    && r.world.sleptSecs + TotalDelay(if attempt == 0 then 0 else attempt - 1)
       == w.sleptSecs + TotalDelay(attempt + n - 1)
    && r.result == (if Decisive(ReplyAt(w, n - 1)) then Decide(ReplyAt(w, n - 1)) else Err(Http))
    && w.now <= r.world.now
  }

  lemma PostOneMore(maxRetries: nat, attempt: nat, w: World, next: World, m: nat)
    requires attempt < maxRetries && m >= 1 && PostMade(maxRetries, attempt + 1, next, m)
    requires PostFrom(maxRetries, attempt, w) == PostFrom(maxRetries, attempt + 1, next)
    requires next.sends == w.sends + 1 && w.now <= next.now
    requires next.sleptSecs == w.sleptSecs + (if attempt == 0 then 0 else Delay(attempt))
    requires ReplyAt(w, m) == ReplyAt(next, m - 1)
    ensures PostMade(maxRetries, attempt, w, m + 1)
  {
    assert attempt > 0 ==> TotalDelay(attempt) == TotalDelay(attempt - 1) + Delay(attempt);
    assert (attempt + 1) + m - 1 == attempt + (m + 1) - 1;
  }

  lemma {:induction false} PostFromSends(maxRetries: nat, attempt: nat, w: World) returns (n: nat)
    requires attempt <= maxRetries
    ensures EndsAfter(maxRetries - attempt, w, n)
    ensures PostMade(maxRetries, attempt, w, n)
    decreases maxRetries - attempt
  {
    if attempt == maxRetries || Decisive(ReplyAt(w, 0)) {
      PostFromEnds(maxRetries, attempt, w);
      n := 1;
      assert attempt > 0 ==> TotalDelay(attempt) == TotalDelay(attempt - 1) + Delay(attempt);
    } else {
      var next := PostFromGoesOn(maxRetries, attempt, w);
      var m := PostFromSends(maxRetries, attempt + 1, next);
      OneMore(maxRetries - attempt, w, next, m);
      PostOneMore(maxRetries, attempt, w, next, m);
      n := m + 1;
    }
  }

  /** A send that was not decisive in front of a run of sends. */
  lemma OneMore(maxRetries: nat, w: World, next: World, m: nat)
    requires !Decisive(ReplyAt(w, 0))
    requires next.replies == if w.replies == [] then [] else w.replies[1..]
    requires maxRetries > 0 && EndsAfter(maxRetries - 1, next, m)
    ensures EndsAfter(maxRetries, w, m + 1)
    ensures ReplyAt(w, m) == ReplyAt(next, m - 1)
  {
    forall i: nat | i < m ensures !Decisive(ReplyAt(w, i)) {
      if i > 0 { assert ReplyAt(w, i) == ReplyAt(next, i - 1); }
    }
  }

  /**
    `post_with_retry` answers with the first decisive reply among the first `max_retries + 1`,
    and with an HTTP error if there is none. It stops right there, after sleeping the back-off
    of the retries it made.
   */
  lemma PostAnswersFirstDecisive(maxRetries: nat, w: World) returns (n: nat)
    ensures EndsAfter(maxRetries, w, n)
    ensures Post(maxRetries, w).world.sends == w.sends + n
    ensures Post(maxRetries, w).world.sleptSecs == w.sleptSecs + TotalDelay(n - 1)
    ensures Post(maxRetries, w).result ==
            if Decisive(ReplyAt(w, n - 1)) then Decide(ReplyAt(w, n - 1)) else Err(Http)
    ensures w.now <= Post(maxRetries, w).world.now
  {
    n := PostFromSends(maxRetries, 0, w);
  }

  // ---------------------------------------------------------------------------
  // One call
  // ---------------------------------------------------------------------------

  /** From `p` to `q` the clock did not go back and at most `posts` requests were made. */
  ghost predicate Within(p: Provider, q: Provider, posts: nat)
  {
    && p.settings == q.settings
    && p.world.now <= q.world.now
    && q.world.sends <= p.world.sends + posts * (p.settings.maxRetries + 1)
  }

  lemma FetchOAuthWithin(p: Provider)
    ensures Within(p, FetchOAuth(p).state, 1)
    ensures FetchOAuth(p).state.cachedOAuth == p.cachedOAuth && FetchOAuth(p).state.cachedJwt == p.cachedJwt
    ensures var r := FetchOAuth(p);
            r.state.log == p.log + (if r.result.Ok? then [OAuthFetched(r.result.value, r.state.world.sends)] else [])
    ensures FetchOAuth(p).result.Ok? ==>
              FetchOAuth(p).result.value.expiresAt ==
              FetchOAuth(p).state.world.now + OAUTH_ACCESS_TOKEN_DEFAULT_LIFETIME_SECS * SECOND
  {
    var _ := PostAnswersFirstDecisive(p.settings.maxRetries, p.world);
    assert p.log + [] == p.log;
  }

  lemma ExchangeWithin(p: Provider, subject: OAuthToken)
    ensures var r := Exchange(p, subject);
            && Within(p, r.state, 1)
            && r.state.cachedOAuth == p.cachedOAuth && r.state.cachedJwt == p.cachedJwt
            && r.state.log == p.log + (if r.result.Ok? then
                                         [Exchanged(r.result.value, subject.token, r.state.world.sends)] else [])
  {
    var _ := PostAnswersFirstDecisive(p.settings.maxRetries, p.world);
    assert p.log + [] == p.log;
  }

  // ---------------------------------------------------------------------------
  // Counting
  // ---------------------------------------------------------------------------

  function Count(log: seq<Event>, kind: Event -> bool): nat
  {
    if log == [] then 0
    else Count(log[..|log| - 1], kind) + (if kind(log[|log| - 1]) then 1 else 0)
  }

  function Fetches(log: seq<Event>): nat { Count(log, (e: Event) => e.OAuthFetched?) }
  function Clears(log: seq<Event>): nat { Count(log, (e: Event) => e.Cleared?) }
  function FirstFailures(log: seq<Event>): nat { Count(log, (e: Event) => e.FirstExchangeFailed?) }

  /** The OAuth tokens that were found expired. */
  function ExpiredTokens(log: seq<Event>): set<OAuthToken>
  {
    if log == [] then {}
    else
      var last := log[|log| - 1];
      ExpiredTokens(log[..|log| - 1]) + (if last.OAuthExpired? then {last.token} else {})
  }

  /** Finding the same token expired again, after a failed renewal, does not count. */
  function Expiries(log: seq<Event>): nat {
    |ExpiredTokens(log)|
  }

  lemma Counted(log: seq<Event>, e: Event)
    ensures Fetches(log + [e]) == Fetches(log) + (if e.OAuthFetched? then 1 else 0)
    ensures Clears(log + [e]) == Clears(log) + (if e.Cleared? then 1 else 0)
    ensures ExpiredTokens(log + [e]) == ExpiredTokens(log) + (if e.OAuthExpired? then {e.token} else {})
    ensures FirstFailures(log + [e]) == FirstFailures(log) + (if e.FirstExchangeFailed? then 1 else 0)
  {
    assert (log + [e])[..|log|] == log;
  }

  /**
    The accounting invariant: every successful OAuth fetch is paid for by the empty cache the
    run started with, a clear, an expired token or a failed first exchange. A cached token already
    found expired has paid for its successor.
   */
  ghost predicate PaidFor(p: Provider)
  {
    && (forall t :: t in ExpiredTokens(p.log) ==> t.expiresAt <= p.world.now)
    && Fetches(p.log) + (if p.cachedOAuth.None? || p.cachedOAuth.value in ExpiredTokens(p.log) then 1 else 0) <=
       1 + Clears(p.log) + Expiries(p.log) + FirstFailures(p.log)
  }

  /** Without clears and failed first exchanges, fetches are a token lifetime apart. */
  ghost predicate Spaced(start: int, p: Provider)
  {
    && start <= p.world.now
    && (Clears(p.log) == 0 && FirstFailures(p.log) == 0 ==>
          if p.cachedOAuth.None? then Fetches(p.log) == 0
          else
            && Fetches(p.log) >= 1
            && start + Fetches(p.log) * OAUTH_ACCESS_TOKEN_DEFAULT_LIFETIME_SECS * SECOND
               <= p.cachedOAuth.value.expiresAt
               <= p.world.now + OAUTH_ACCESS_TOKEN_DEFAULT_LIFETIME_SECS * SECOND)
  }

  /** Room for one more fetch: the cache is empty, or what it holds has just been seen expired. */
  ghost predicate MayFetch(start: int, p: Provider)
  {
    && Fetches(p.log) + 1 <= 1 + Clears(p.log) + Expiries(p.log) + FirstFailures(p.log)
    && start <= p.world.now
    && (Clears(p.log) == 0 && FirstFailures(p.log) == 0 ==>
          start + Fetches(p.log) * OAUTH_ACCESS_TOKEN_DEFAULT_LIFETIME_SECS * SECOND <= p.world.now)
  }

  ghost predicate Accounted(start: int, p: Provider)
  {
    PaidFor(p) && Spaced(start, p)
  }

  /** A fetched token has not been found expired. */
  lemma FetchPaidFor(start: int, p: Provider, now: int, token: OAuthToken, q: Provider)
    requires PaidFor(p) && MayFetch(start, p) && p.world.now <= now < token.expiresAt
    requires q.cachedOAuth == Some(token) && q.log == p.log + [OAuthFetched(token, q.world.sends)]
    requires q.world.now == now
    ensures PaidFor(q)
  {
    Counted(p.log, OAuthFetched(token, q.world.sends));
    assert ExpiredTokens(p.log) + {} == ExpiredTokens(p.log);
  }

  lemma FetchSpaced(start: int, p: Provider, token: OAuthToken, q: Provider)
    requires MayFetch(start, p) && p.world.now <= q.world.now
    requires q.cachedOAuth == Some(token) && q.log == p.log + [OAuthFetched(token, q.world.sends)]
    requires token.expiresAt == q.world.now + OAUTH_ACCESS_TOKEN_DEFAULT_LIFETIME_SECS * SECOND
    ensures Spaced(start, q)
  {
    Counted(p.log, OAuthFetched(token, q.world.sends));
  }

  lemma RenewAccounted(start: int, p: Provider)
    requires Accounted(start, p) && MayFetch(start, p)
    ensures Accounted(start, RenewOAuth(p).state)
    ensures Within(p, RenewOAuth(p).state, 1)
    ensures RenewOAuth(p).state.cachedJwt == p.cachedJwt
    ensures RenewOAuth(p).result.Ok? ==> RenewOAuth(p).state.cachedOAuth == Some(RenewOAuth(p).result.value)
    ensures RenewOAuth(p).result.Ok? ==> p.log <= RenewOAuth(p).state.log
  {
    FetchOAuthWithin(p);
    var q := RenewOAuth(p);
    if q.result.Ok? {
      FetchPaidFor(start, p, q.state.world.now, q.result.value, q.state);
      FetchSpaced(start, p, q.result.value, q.state);
    }
  }

  lemma GetValidAccounted(start: int, p: Provider)
    requires Accounted(start, p)
    ensures Accounted(start, GetValidOAuth(p).state)
    ensures Within(p, GetValidOAuth(p).state, 1)
    ensures GetValidOAuth(p).state.cachedJwt == p.cachedJwt
    ensures GetValidOAuth(p).result.Ok? ==>
              GetValidOAuth(p).state.cachedOAuth == Some(GetValidOAuth(p).result.value)
  {
    if p.cachedOAuth.None? {
      RenewAccounted(start, p);
    } else if !p.cachedOAuth.value.IsLikelyValid(p.world.now) {
      var token := p.cachedOAuth.value;
      Counted(p.log, OAuthExpired(token));
      if token in ExpiredTokens(p.log) {
        assert ExpiredTokens(p.log) + {token} == ExpiredTokens(p.log);
      }
      RenewAccounted(start, p.(log := p.log + [OAuthExpired(token)]));
    }
  }

  lemma ExchangeAccounted(start: int, p: Provider, subject: OAuthToken)
    requires Accounted(start, p)
    ensures Accounted(start, Exchange(p, subject).state)
  {
    ExchangeWithin(p, subject);
    if Exchange(p, subject).result.Ok? {
      var r := Exchange(p, subject);
      Counted(p.log, Exchanged(r.result.value, subject.token, r.state.world.sends));
    }
  }

  /** The last event is the exchange of `jwt` for the OAuth token now cached. */
  ghost predicate JustExchanged(p: Provider, jwt: DataCloudToken)
  {
    p.cachedOAuth.Some? && p.log != [] &&
    p.log[|p.log| - 1] == Exchanged(jwt, p.cachedOAuth.value.token, p.world.sends)
  }

  lemma RetryAccounted(start: int, p: Provider)
    requires Accounted(start, p)
    ensures Accounted(start, RetryExchange(p).state)
    ensures Within(p, RetryExchange(p).state, 2)
    ensures RetryExchange(p).state.cachedJwt == p.cachedJwt
    ensures RetryExchange(p).result.Ok? ==> JustExchanged(RetryExchange(p).state, RetryExchange(p).result.value)
  {
    var dropped := p.(cachedOAuth := None, log := p.log + [FirstExchangeFailed]);
    Counted(p.log, FirstExchangeFailed);
    RenewAccounted(start, dropped);
    var renewed := RenewOAuth(dropped);
    if renewed.result.Ok? {
      ExchangeWithin(renewed.state, renewed.result.value);
      ExchangeAccounted(start, renewed.state, renewed.result.value);
    }
  }

  /** `fetch_dc_jwt` makes at most four requests; what it returns was exchanged for the cached token. */
  lemma FetchJwtAccounted(start: int, p: Provider)
    requires Accounted(start, p)
    ensures Accounted(start, FetchJwt(p).state)
    ensures Within(p, FetchJwt(p).state, 4)
    ensures FetchJwt(p).state.cachedJwt == p.cachedJwt
    ensures FetchJwt(p).result.Ok? ==> JustExchanged(FetchJwt(p).state, FetchJwt(p).result.value)
  {
    GetValidAccounted(start, p);
    var oauth := GetValidOAuth(p);
    if oauth.result.Ok? {
      ExchangeWithin(oauth.state, oauth.result.value);
      ExchangeAccounted(start, oauth.state, oauth.result.value);
      RetryAccounted(start, Exchange(oauth.state, oauth.result.value).state);
    }
  }

  // ---------------------------------------------------------------------------
  // Runs
  // ---------------------------------------------------------------------------

  datatype Call = Get | Refresh | Force | Clear | Wait(elapsed: nat)

  /** A call and whether it succeeded; clearing and waiting do not hand out a token. */
  datatype Done = Done(ok: bool, state: Provider)

  function Perform(p: Provider, call: Call): Done
  {
    match call
    case Get => Done(GetToken(p).result.Ok?, GetToken(p).state)
    case Refresh => Done(RefreshToken(p).result.Ok?, RefreshToken(p).state)
    case Force => Done(ForceRefresh(p).result.Ok?, ForceRefresh(p).state)
    case Clear => Done(false, ClearCache(p))
    case Wait(elapsed) => Done(false, p.(world := p.world.(now := p.world.now + elapsed)))
  }

  function PerformAll(p: Provider, calls: seq<Call>): Provider
    decreases |calls|
  {
    if calls == [] then p else PerformAll(Perform(p, calls[0]).state, calls[1..])
  }

  lemma GetAccounted(start: int, p: Provider)
    requires Accounted(start, p)
    ensures Accounted(start, GetToken(p).state) && Within(p, GetToken(p).state, 4)
  {
    FetchJwtAccounted(start, p);
  }

  lemma PerformAccounted(start: int, p: Provider, call: Call)
    requires Accounted(start, p)
    ensures Accounted(start, Perform(p, call).state)
    ensures p.world.now <= Perform(p, call).state.world.now
    ensures Perform(p, call).state.world.sends <= p.world.sends + 4 * (p.settings.maxRetries + 1)
  {
    Counted(p.log, Cleared);
    match call
    case Get => GetAccounted(start, p);
    case Refresh => GetAccounted(start, p.(cachedJwt := None));
    case Force => GetAccounted(start, ClearCache(p));
    case Clear =>
    case Wait(_) =>
  }

  lemma {:induction false} RunAccounted(start: int, p: Provider, calls: seq<Call>)
    requires Accounted(start, p)
    ensures Accounted(start, PerformAll(p, calls))
    decreases |calls|
  {
    if calls != [] {
      PerformAccounted(start, p, calls[0]);
      RunAccounted(start, Perform(p, calls[0]).state, calls[1..]);
    }
  }

  /**
    Over any run, successful OAuth fetches number at most one plus the clears, the distinct tokens
    found expired and the failed first exchanges.
   */
  lemma FetchesAreBounded(settings: Settings, now: int, replies: seq<Reply>, calls: seq<Call>)
    ensures var p := PerformAll(New(settings, now, replies), calls);
            Fetches(p.log) <= 1 + Clears(p.log) + Expiries(p.log) + FirstFailures(p.log)
  {
    RunAccounted(now, New(settings, now, replies), calls);
  }

  /**
    A run that never clears the cache and whose first exchanges never fail makes at most one
    OAuth fetch plus one for each full token lifetime of 7199 seconds it lasts.
   */
  lemma FetchesPerLifetime(settings: Settings, now: int, replies: seq<Reply>, calls: seq<Call>)
    ensures var p := PerformAll(New(settings, now, replies), calls);
            Clears(p.log) == 0 && FirstFailures(p.log) == 0 ==>
              p.world.now >= now &&
              Fetches(p.log) <= 1 + (p.world.now - now) / (7199 * SECOND)
  {
    RunAccounted(now, New(settings, now, replies), calls);
  }

  // ---------------------------------------------------------------------------
  // Safety
  // ---------------------------------------------------------------------------

  /** The JWT of the most recent successful exchange. */
  function LastExchanged(log: seq<Event>): Option<DataCloudToken>
  {
    if log == [] then None
    else if log[|log| - 1].Exchanged? then Some(log[|log| - 1].jwt)
    else LastExchanged(log[..|log| - 1])
  }

  lemma LastOf(log: seq<Event>, e: Event)
    ensures LastExchanged(log + [e]) == if e.Exchanged? then Some(e.jwt) else LastExchanged(log)
  {
    assert (log + [e])[..|log|] == log;
  }

  /** A cached JWT is the one of the most recent successful exchange. */
  ghost predicate Current(p: Provider)
  {
    p.cachedJwt.Some? ==> p.cachedJwt == LastExchanged(p.log)
  }

  lemma RetryKeepsLast(p: Provider)
    requires RetryExchange(p).result.Err?
    ensures LastExchanged(RetryExchange(p).state.log) == LastExchanged(p.log)
    ensures RetryExchange(p).state.cachedJwt == p.cachedJwt
    ensures p.world.now <= RetryExchange(p).state.world.now
  {
    var dropped := p.(cachedOAuth := None, log := p.log + [FirstExchangeFailed]);
    LastOf(p.log, FirstExchangeFailed);
    RenewKeepsLast(dropped);
    var renewed := RenewOAuth(dropped);
    if renewed.result.Ok? { ExchangeWithin(renewed.state, renewed.result.value); }
  }

  /** The exchanges of a failing `fetch_dc_jwt` all failed, so the most recent one is unchanged. */
  lemma FailedFetchKeepsLast(p: Provider)
    requires FetchJwt(p).result.Err?
    ensures LastExchanged(FetchJwt(p).state.log) == LastExchanged(p.log)
    ensures FetchJwt(p).state.cachedJwt == p.cachedJwt
    ensures GetToken(p).result.Err? ==> GetToken(p).state.cachedJwt == p.cachedJwt
    ensures p.world.now <= FetchJwt(p).state.world.now
  {
    GetValidKeepsLast(p);
    var oauth := GetValidOAuth(p);
    if oauth.result.Ok? {
      var first := Exchange(oauth.state, oauth.result.value);
      ExchangeWithin(oauth.state, oauth.result.value);
      RetryKeepsLast(first.state);
    }
  }

  lemma RenewKeepsLast(p: Provider)
    ensures LastExchanged(RenewOAuth(p).state.log) == LastExchanged(p.log)
    ensures RenewOAuth(p).state.cachedJwt == p.cachedJwt
    ensures p.world.now <= RenewOAuth(p).state.world.now
  {
    FetchOAuthWithin(p);
    var r := FetchOAuth(p);
    if r.result.Ok? { LastOf(p.log, OAuthFetched(r.result.value, r.state.world.sends)); }
  }

  lemma GetValidKeepsLast(p: Provider)
    ensures LastExchanged(GetValidOAuth(p).state.log) == LastExchanged(p.log)
    ensures GetValidOAuth(p).state.cachedJwt == p.cachedJwt
    ensures p.world.now <= GetValidOAuth(p).state.world.now
  {
    RenewKeepsLast(p);
    if p.cachedOAuth.Some? {
      LastOf(p.log, OAuthExpired(p.cachedOAuth.value));
      RenewKeepsLast(p.(log := p.log + [OAuthExpired(p.cachedOAuth.value)]));
    }
  }

  lemma GetKeepsCurrent(start: int, p: Provider)
    requires Accounted(start, p) && Current(p)
    ensures Current(GetToken(p).state)
    ensures GetToken(p).result.Err? ==> !HasValidJwt(GetToken(p).state)
    ensures GetToken(p).result.Ok? ==> GetToken(p).state.cachedJwt == Some(GetToken(p).result.value)
  {
    if !HasValidJwt(p) {
      FetchJwtAccounted(start, p);
      if FetchJwt(p).result.Err? { FailedFetchKeepsLast(p); }
    }
  }

  lemma PerformKeepsCurrent(start: int, p: Provider, call: Call)
    requires Accounted(start, p) && Current(p)
    ensures Current(Perform(p, call).state)
    ensures !call.Wait? && !Perform(p, call).ok ==> !HasValidJwt(Perform(p, call).state)
  {
    PerformAccounted(start, p, call);
    Counted(p.log, Cleared);
    match call
    case Get => GetKeepsCurrent(start, p);
    case Refresh => GetKeepsCurrent(start, p.(cachedJwt := None));
    case Force => GetKeepsCurrent(start, ClearCache(p));
    case Clear =>
    case Wait(_) =>
  }

  lemma {:induction false} RunKeepsCurrent(start: int, p: Provider, calls: seq<Call>)
    requires Accounted(start, p) && Current(p)
    ensures Current(PerformAll(p, calls))
    decreases |calls|
  {
    if calls != [] {
      PerformAccounted(start, p, calls[0]);
      PerformKeepsCurrent(start, p, calls[0]);
      RunKeepsCurrent(start, Perform(p, calls[0]).state, calls[1..]);
    }
  }

  /**
    Safety: at any point of any run, `bearer_token` hands out only the token of the most recent
    successful exchange, and only while it has more than 300 seconds to live.
   */
  lemma BearerIsLastExchanged(settings: Settings, now: int, replies: seq<Reply>, calls: seq<Call>)
    ensures var p := PerformAll(New(settings, now, replies), calls);
            Bearer(p).Some? ==>
              && LastExchanged(p.log).Some?
              && Bearer(p).value == LastExchanged(p.log).value.BearerToken()
              && LastExchanged(p.log).value.expiresAt - p.world.now > 300 * SECOND
  {
    RunAccounted(now, New(settings, now, replies), []);
    RunKeepsCurrent(now, New(settings, now, replies), calls);
  }

  /** No call of the run succeeds. */
  ghost predicate NoneSucceeds(p: Provider, calls: seq<Call>)
    decreases |calls|
  {
    calls == [] || (!Perform(p, calls[0]).ok && NoneSucceeds(Perform(p, calls[0]).state, calls[1..]))
  }

  /** Without a valid JWT there is none until a call succeeds, however long one waits. */
  lemma {:induction false} NothingUntilSuccess(start: int, p: Provider, calls: seq<Call>)
    requires Accounted(start, p) && Current(p)
    requires !HasValidJwt(p) && NoneSucceeds(p, calls)
    ensures Bearer(PerformAll(p, calls)) == None
    decreases |calls|
  {
    if calls != [] {
      PerformAccounted(start, p, calls[0]);
      PerformKeepsCurrent(start, p, calls[0]);
      NothingUntilSuccess(start, Perform(p, calls[0]).state, calls[1..]);
    }
  }

  /**
    After any failed `get_token`, `refresh_token` or `force_refresh`, and after `clear_cache`,
    `bearer_token` is `None` until the next call that succeeds.
   */
  lemma FailureLeavesNoToken(settings: Settings, now: int, replies: seq<Reply>,
                             before: seq<Call>, call: Call, after: seq<Call>)
    ensures var p := PerformAll(New(settings, now, replies), before);
            !call.Wait? && !Perform(p, call).ok && NoneSucceeds(Perform(p, call).state, after) ==>
              Bearer(PerformAll(Perform(p, call).state, after)) == None
  {
    var p := PerformAll(New(settings, now, replies), before);
    RunAccounted(now, New(settings, now, replies), before);
    RunKeepsCurrent(now, New(settings, now, replies), before);
    PerformAccounted(now, p, call);
    PerformKeepsCurrent(now, p, call);
    if !call.Wait? && !Perform(p, call).ok && NoneSucceeds(Perform(p, call).state, after) {
      NothingUntilSuccess(now, Perform(p, call).state, after);
    }
  }

  // ---------------------------------------------------------------------------
  // When a fetched token is usable
  // ---------------------------------------------------------------------------

  /** `w'` comes after `w`: it has consumed one reply for each send since. */
  ghost predicate Follows(w: World, w': World)
  {
    var n := w'.sends - w.sends;
    n >= 0 && w'.replies == if n <= |w.replies| then w.replies[n..] else []
  }

  lemma FollowsReplies(w: World, w': World, i: nat)
    requires Follows(w, w')
    ensures ReplyAt(w', i) == ReplyAt(w, w'.sends - w.sends + i)
  {
  }

  lemma FollowsTwice(a: World, b: World, c: World)
    requires Follows(a, b) && Follows(b, c)
    ensures Follows(a, c)
  {
  }

  lemma {:induction false} PostFollows(maxRetries: nat, attempt: nat, w: World)
    requires attempt <= maxRetries + 1
    ensures Follows(w, PostFrom(maxRetries, attempt, w).world)
    decreases maxRetries + 1 - attempt
  {
    if attempt <= maxRetries {
      var sent := BeforeAttempt(attempt, w).Send();
      assert Follows(w, sent);
      if !Decisive(ReplyAt(w, 0)) {
        PostFollows(maxRetries, attempt + 1, sent);
        FollowsTwice(w, sent, PostFrom(maxRetries, attempt + 1, sent).world);
      }
    }
  }

  /** How long the server grants the JWT of this response, in seconds. */
  function Granted(body: Body): int
    requires body.Json?
  {
    if body.expiresIn.Some? then body.expiresIn.value else DC_JWT_DEFAULT_LIFETIME_SECS
  }

  /** The last reply consumed between two worlds. */
  function LastReply(w: World, w': World): Reply
    requires w'.sends > w.sends
  {
    ReplyAt(w, w'.sends - w.sends - 1)
  }

  /** The JWT comes from the last reply, and lives from now on for as long as that grants. */
  ghost predicate FromLastReply(w: World, q: Provider, jwt: DataCloudToken)
  {
    && q.world.sends > w.sends
    && LastReply(w, q.world).Response? && LastReply(w, q.world).body.Json?
    && jwt.expiresAt == q.world.now + Granted(LastReply(w, q.world).body) * SECOND
  }

  lemma ExchangeUsesLastReply(p: Provider, subject: OAuthToken)
    ensures Follows(p.world, Exchange(p, subject).state.world)
    ensures Exchange(p, subject).result.Ok? ==>
              FromLastReply(p.world, Exchange(p, subject).state, Exchange(p, subject).result.value)
  {
    PostFollows(p.settings.maxRetries, 0, p.world);
    var n := PostAnswersFirstDecisive(p.settings.maxRetries, p.world);
    if Exchange(p, subject).result.Ok? {
      assert Exchange(p, subject).state.world == Post(p.settings.maxRetries, p.world).world;
      assert Decisive(ReplyAt(p.world, n - 1)) && LastReply(p.world, Exchange(p, subject).state.world) == ReplyAt(p.world, n - 1);
    }
  }

  lemma RenewFollows(p: Provider)
    ensures Follows(p.world, RenewOAuth(p).state.world)
  {
    PostFollows(p.settings.maxRetries, 0, p.world);
  }

  lemma GetValidFollows(p: Provider)
    ensures Follows(p.world, GetValidOAuth(p).state.world)
  {
    RenewFollows(p);
    if p.cachedOAuth.Some? { RenewFollows(p.(log := p.log + [OAuthExpired(p.cachedOAuth.value)])); }
  }

  /** Consuming replies before does not change which is the last. */
  lemma LastReplyLater(w: World, mid: World, q: Provider, jwt: DataCloudToken)
    requires Follows(w, mid) && Follows(mid, q.world) && FromLastReply(mid, q, jwt)
    ensures FromLastReply(w, q, jwt)
  {
    FollowsReplies(w, mid, q.world.sends - mid.sends - 1);
  }

  lemma FetchUsesLastReply(p: Provider)
    requires FetchJwt(p).result.Ok?
    ensures FromLastReply(p.world, FetchJwt(p).state, FetchJwt(p).result.value)
  {
    var oauth := GetValidOAuth(p);
    GetValidFollows(p);
    var first := Exchange(oauth.state, oauth.result.value);
    ExchangeUsesLastReply(oauth.state, oauth.result.value);
    if first.result.Ok? {
      LastReplyLater(p.world, oauth.state.world, first.state, first.result.value);
    } else {
      var dropped := first.state.(cachedOAuth := None, log := first.state.log + [FirstExchangeFailed]);
      var renewed := RenewOAuth(dropped);
      RenewFollows(dropped);
      ExchangeUsesLastReply(renewed.state, renewed.result.value);
      FollowsTwice(p.world, oauth.state.world, dropped.world);
      FollowsTwice(p.world, dropped.world, renewed.state.world);
      LastReplyLater(p.world, renewed.state.world, FetchJwt(p).state, FetchJwt(p).result.value);
    }
  }

  /**
    A successful `get_token` need not leave a usable token: when it had to fetch, `bearer_token`
    returns it if and only if the last reply of the server grants it more than 300 seconds, or
    does not say.
   */
  lemma FetchedTokenUsableIff(p: Provider)
    requires !HasValidJwt(p) && GetToken(p).result.Ok?
    ensures var q := GetToken(p).state;
            && q.cachedJwt == Some(GetToken(p).result.value)
            && q.world.sends > p.world.sends
            && LastReply(p.world, q.world).Response? && LastReply(p.world, q.world).body.Json?
            && (Bearer(q).Some? <==>
                var body := LastReply(p.world, q.world).body; body.expiresIn.None? || body.expiresIn.value > 300)
  {
    FetchUsesLastReply(p);
  }

  /** The smallest case: the server grants exactly 300 seconds. */
  lemma ShortGrantUnusable(settings: Settings, now: int)
    requires settings.canRequest
    ensures var oauth := Json(false, "o", true, true, None, None);
            var jwt := Json(false, "j", true, true, None, Some(300));
            var p := New(settings, now, [Response(200, oauth, 0), Response(200, jwt, 0)]);
            GetToken(p).result.Ok? && Bearer(GetToken(p).state) == None
  {
    var oauth := Json(false, "o", true, true, None, None);
    var jwt := Json(false, "j", true, true, None, Some(300));
    var p := New(settings, now, [Response(200, oauth, 0), Response(200, jwt, 0)]);
    var fetched := FetchOAuth(p);
    assert fetched.result.Ok? && fetched.state.world == World(now, [Response(200, jwt, 0)], 1, 0);
    var cached := RenewOAuth(p).state;
    var exchanged := Exchange(cached, fetched.result.value);
    assert exchanged.result.Ok? && exchanged.state.world.now == now;
    assert GetToken(p).result == exchanged.result;
  }
}
