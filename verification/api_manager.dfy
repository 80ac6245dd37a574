/**
 * The request gate of the client: before every request it throttles against
 * the time of the previous request and refreshes the token when the client is
 * not authenticated; then it stamps the request time and hands the request to
 * the transport.
 *
 * The manager owns the clock (milliseconds). `time.sleep` advances it; the
 * exchange, the credentials read and the transport take no time. The
 * transport's result is the parameter `sentOk` (or `reply` for the usage
 * request), since the request objects are not part of this model.
 */
module Api {
  import opened Common
  import opened Authentication

  /** APIManager.MAX_REQUEST_FREQ: one second, in milliseconds. */
  const MaxRequestFreqMs := 1 * MsPerSecond

  /**
   * How long the throttle sleeps when called at `now` with previous request
   * time `last`. As written it sleeps for the time ELAPSED since the previous
   * request, not for the time remaining to one second.
   */
  function Delay(last: Option<int>, now: int): (d: nat)
    requires last.Some? ==> last.value <= now
    ensures last.None? ==> d == 0
    ensures d < MaxRequestFreqMs
    ensures d > 0 ==> d == now - last.value
    ensures last.Some? && now - last.value < MaxRequestFreqMs ==> d == now - last.value
  {
    if last.Some? && now - last.value < MaxRequestFreqMs then now - last.value else 0
  }

  /**
   * After the throttle, the time since the previous request is twice the
   * elapsed time when that was under one second, and unchanged otherwise.
   */
  lemma GapAfterDelay(last: int, now: int)
    requires last <= now
    ensures now - last < MaxRequestFreqMs ==> now + Delay(Some(last), now) - last == 2 * (now - last)
    ensures now - last >= MaxRequestFreqMs ==> now + Delay(Some(last), now) - last == now - last
  {
  }

  /**
   * The throttle does not keep requests one second apart: whenever less than
   * half a second has elapsed, the gap after the throttle is still under one
   * second (and a request issued at the very instant of the previous one is
   * not delayed at all).
   */
  lemma ThrottleDoesNotSpaceRequests(last: int, now: int)
    requires last <= now < last + MaxRequestFreqMs / 2
    ensures now + Delay(Some(last), now) - last < MaxRequestFreqMs
    ensures Delay(Some(last), last) == 0
  {
    GapAfterDelay(last, now);
  }

  class ApiManager {
    const authManager: AuthManager
    var lastReqTime: Option<int>
    var clock: int

    /** The previous request was made no later than now. */
    ghost predicate Valid()
      reads this
    {
      lastReqTime.Some? ==> lastReqTime.value <= clock
    }

    /** The clock after the throttle. */
    ghost function ClockAfterDelay(): int
      reads this
      requires Valid()
    {
      clock + Delay(lastReqTime, clock)
    }

    /** The routine before a request will refresh: not authenticated once the throttle is over. */
    ghost predicate NeedsRefresh()
      reads this, authManager
      requires Valid()
    {
      !(authManager.JwtIsGenerated() && authManager.IsExpired(ClockAfterDelay()) == Ok(false))
    }

    /** Whether the routine before a request raises: it refreshes and the refresh raises. */
    ghost predicate PreRequestFails(credsFile: Option<Creds>, exchange: (string, string) -> Option<string>)
      reads this, authManager, authManager.auth
      requires Valid()
    {
      NeedsRefresh() && authManager.GeneratedJwt(credsFile, exchange).Err?
    }

    /**
     * The clock once the routine before a request is over: one throttle, and
     * a second one inside the refresh when there is a refresh.
     */
    ghost function ClockAfterRoutine(): int
      reads this, authManager
      requires Valid()
    {
      var t := ClockAfterDelay();
      if NeedsRefresh() then t + Delay(lastReqTime, t) else t
    }

    /**
     * The JWT once the routine before a request is over: unchanged unless it
     * refreshes and the refresh succeeds, in which case it is the new token
     * stamped at the clock reached.
     */
    ghost function JwtAfterRoutine(credsFile: Option<Creds>, exchange: (string, string) -> Option<string>): Option<Jwt>
      reads this, authManager, authManager.auth
      requires Valid()
    {
      if !NeedsRefresh() then authManager.jwt
      else match authManager.GeneratedJwt(credsFile, exchange)
        case Ok(s) => Some(Jwt(Some(s), ClockAfterRoutine()))
        case Err(_) => authManager.jwt
    }

    /** The first part of the constructor: no request has been made yet. */
    constructor (authMgr: AuthManager, now: int)
      ensures authManager == authMgr && lastReqTime == None && clock == now
      ensures Valid()
    {
      authManager := authMgr;
      lastReqTime := None;
      clock := now;
    }

    /**
     * The constructor with paths, environment and auth manager passed: sets
     * no previous request, then refreshes the token once. The refresh is not delayed, so the token is stamped `now`;
     * when the refresh raises, so does the construction.
     */
    static method Create(authMgr: AuthManager, now: int, credsFile: Option<Creds>,
                         exchange: (string, string) -> Option<string>)
      returns (r: Result<ApiManager>)
      modifies authMgr, authMgr.auth
      ensures var g := old(authMgr.GeneratedJwt(credsFile, exchange));
              if g.Ok? then
                && r.Ok? && fresh(r.value) && r.value.Valid()
                && r.value.authManager == authMgr
                && r.value.lastReqTime == None && r.value.clock == now
                && authMgr.jwt == Some(Jwt(Some(g.value), now))
              else
                r == Err(g.error) && authMgr.jwt == old(authMgr.jwt)
      ensures LoadedOnDemand(old(authMgr.auth.Stored()), authMgr.auth.Stored(), credsFile)
      ensures r.Ok? ==> authMgr.auth.CredsLoaded()
    {
      var m := new ApiManager(authMgr, now);
      var o := m.RefreshJwt(credsFile, exchange);
      if o.Raised? {
        return Err(o.error);
      }
      r := Ok(m);
    }

    /** The clock moves forward by `d`: `time.sleep`, or time passing between requests. */
    method Advance(d: nat)
      modifies this`clock
      ensures clock == old(clock) + d
    {
      clock := clock + d;
    }

    /** The throttle: sleeps only when a previous request exists and less than a second has passed. */
    method MaxFreqDelay()
      requires Valid()
      modifies this`clock
      ensures Valid()
      ensures clock == old(ClockAfterDelay())
      ensures lastReqTime == old(lastReqTime)
    {
      var timeOfReq := clock;
      if lastReqTime.Some? {
        var timeSinceLastReq := timeOfReq - lastReqTime.value;
        if timeSinceLastReq < MaxRequestFreqMs {
          // sleeps for the elapsed time, not for MaxRequestFreqMs - timeSinceLastReq
          Advance(timeSinceLastReq);
        }
      }
    }

    /**
     * Authenticated: a token is present and not expired. The conjunction
     * short-circuits, so the expiry is never asked of an absent token.
     */
    function IsAuthenticated(): (r: bool)
      reads this, authManager
      ensures r <==> authManager.GetTokenStr().Ok? && authManager.IsExpired(clock) == Ok(false)
      ensures r ==> clock <= authManager.jwt.value.creationT + ExpiryDelayMs
    {
      authManager.JwtIsGenerated() && !authManager.IsExpired(clock).value
    }

    /** Throttles, then refreshes the token at the clock reached. */
    method RefreshJwt(credsFile: Option<Creds>, exchange: (string, string) -> Option<string>) returns (o: Outcome)
      requires Valid()
      modifies this`clock, authManager, authManager.auth
      ensures Valid() && lastReqTime == old(lastReqTime)
      ensures clock == old(ClockAfterDelay())
      ensures var g := old(authManager.GeneratedJwt(credsFile, exchange));
              if g.Ok? then o == Done && authManager.jwt == Some(Jwt(Some(g.value), clock))
              else o == Raised(g.error) && authManager.jwt == old(authManager.jwt)
      ensures LoadedOnDemand(old(authManager.auth.Stored()), authManager.auth.Stored(), credsFile)
      ensures o == Done ==> authManager.auth.CredsLoaded()
    {
      MaxFreqDelay();
      o := authManager.RefreshToken(clock, credsFile, exchange);
    }

    /**
     * Everything done before a request: throttle, then refresh when not
     * authenticated. The refresh throttles once more.
     */
    method PreRequestRoutine(credsFile: Option<Creds>, exchange: (string, string) -> Option<string>)
      returns (o: Outcome, ghost refreshed: bool)
      requires Valid()
      modifies this`clock, authManager, authManager.auth
      ensures Valid() && lastReqTime == old(lastReqTime)
      ensures refreshed == old(NeedsRefresh())
      ensures var t := old(ClockAfterDelay());
              clock == if refreshed then t + Delay(lastReqTime, t) else t
      ensures !refreshed ==> o == Done && authManager.jwt == old(authManager.jwt)
      ensures refreshed ==>
                var g := old(authManager.GeneratedJwt(credsFile, exchange));
                if g.Ok? then o == Done && authManager.jwt == Some(Jwt(Some(g.value), clock))
                else o == Raised(g.error) && authManager.jwt == old(authManager.jwt)
      ensures clock == old(ClockAfterRoutine())
      ensures authManager.jwt == old(JwtAfterRoutine(credsFile, exchange))
      ensures !refreshed ==> authManager.auth.Stored() == old(authManager.auth.Stored())
      ensures refreshed ==> LoadedOnDemand(old(authManager.auth.Stored()), authManager.auth.Stored(), credsFile)
      ensures refreshed && o == Done ==> authManager.auth.CredsLoaded()
      ensures o.Raised? <==> old(PreRequestFails(credsFile, exchange))
      ensures o == Done ==> (IsAuthenticated() <==> authManager.JwtIsGenerated())
    {
      MaxFreqDelay();
      var authenticated := IsAuthenticated();
      refreshed := !authenticated;
      o := Done;
      if !authenticated {
        o := RefreshJwt(credsFile, exchange);
      }
    }

    /**
     * Sends a request: the routine before a request, then the request time is
     * stamped, then the transport is called. When the routine raises, the
     * request time is left alone and nothing is sent.
     */
    method SendRequest(credsFile: Option<Creds>, exchange: (string, string) -> Option<string>, sentOk: bool)
      returns (o: Outcome)
      requires Valid()
      modifies this, authManager, authManager.auth
      ensures Valid()
      ensures clock == old(ClockAfterRoutine())
      ensures authManager.jwt == old(JwtAfterRoutine(credsFile, exchange))
      ensures !old(NeedsRefresh()) ==> authManager.auth.Stored() == old(authManager.auth.Stored())
      ensures old(NeedsRefresh()) ==> LoadedOnDemand(old(authManager.auth.Stored()), authManager.auth.Stored(), credsFile)
      ensures old(PreRequestFails(credsFile, exchange)) ==>
                o == Raised(old(authManager.GeneratedJwt(credsFile, exchange)).error)
                && lastReqTime == old(lastReqTime)
      ensures !old(PreRequestFails(credsFile, exchange)) ==>
                o == (if sentOk then Done else Raised(TransportError))
                && lastReqTime == Some(old(ClockAfterRoutine()))
                && (IsAuthenticated() <==> authManager.JwtIsGenerated())
                && authManager.auth.CredsLoaded() == (old(authManager.auth.CredsLoaded()) || old(NeedsRefresh()))
    {
      var pre, refreshed := PreRequestRoutine(credsFile, exchange);
      if pre.Raised? {
        return pre;
      }
      lastReqTime := Some(clock);
      // the request object is sent only now
      o := if sentOk then Done else Raised(TransportError);
    }

    /**
     * The usage-statistics request: the routine before a request, then the
     * request. Unlike SendRequest it does not stamp the request time.
     */
    method RequestUsage(credsFile: Option<Creds>, exchange: (string, string) -> Option<string>, reply: Option<string>)
      returns (r: Result<string>)
      requires Valid()
      modifies this`clock, authManager, authManager.auth
      ensures Valid() && lastReqTime == old(lastReqTime)
      ensures clock == old(ClockAfterRoutine())
      ensures authManager.jwt == old(JwtAfterRoutine(credsFile, exchange))
      ensures !old(NeedsRefresh()) ==> authManager.auth.Stored() == old(authManager.auth.Stored())
      ensures old(NeedsRefresh()) ==> LoadedOnDemand(old(authManager.auth.Stored()), authManager.auth.Stored(), credsFile)
      ensures old(PreRequestFails(credsFile, exchange)) ==>
                r == Err(old(authManager.GeneratedJwt(credsFile, exchange)).error)
      ensures !old(PreRequestFails(credsFile, exchange)) ==>
                r == (if reply.Some? then Ok(reply.value) else Err(TransportError))
    {
      var pre, refreshed := PreRequestRoutine(credsFile, exchange);
      if pre.Raised? {
        return Err(pre.error);
      }
      r := if reply.Some? then Ok(reply.value) else Err(TransportError);
    }
  }

  /**
   * Two requests sent one right after the other, with no time passing in
   * between. When both get past the routine before a request, both are
   * stamped at the same instant: the throttle of the second sleeps for the
   * zero time elapsed since the first.
   */
  method BackToBackRequests(m: ApiManager, credsFile: Option<Creds>, exchange: (string, string) -> Option<string>)
    returns (o1: Outcome, o2: Outcome, first: Option<int>, second: Option<int>)
    requires m.Valid()
    modifies m, m.authManager, m.authManager.auth
    ensures m.Valid()
    ensures o1 == Done ==> first == Some(old(m.ClockAfterRoutine()))
    ensures o1 == Done && o2 == Done ==> second == first
  {
    o1 := m.SendRequest(credsFile, exchange, true);
    first := m.lastReqTime;
    o2 := m.SendRequest(credsFile, exchange, true);
    second := m.lastReqTime;
  }
}
