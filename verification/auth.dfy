/**
 * The token lifecycle of the client: the JWT value, the credentials holder it
 * is obtained with, and the AuthManager that keeps the current JWT, answers
 * whether it is present or expired, and replaces it on refresh.
 *
 * Time is a whole number of milliseconds passed in as `now`; the username and
 * password exchange with the vendor's authentication service is the function
 * parameter `exchange`, whose `None` stands for the exchange raising.
 */
module Authentication {
  import opened Common

  const MsPerHour := 3600 * MsPerSecond

  /**
   * AuthManager.JWT_LIFE_LENGTH: the documented lifetime of a token, in hours.
   * The expiry computation does not read it; it hard-codes one hour.
   */
  const JwtLifeLength := 1

  /** How long after its creation a token counts as expired: 3480 s (58 minutes). */
  const ExpiryDelayMs := 3480 * MsPerSecond

  /** One issued token and its creation time; never changed once built. */
  datatype Jwt = Jwt(token: Option<string>, creationT: int)

  /** The entry of the credentials file for the current environment. */
  datatype Creds = Creds(username: string, password: string)

  /**
   * The JWT constructor. As written it ignores its `creationT` argument and
   * stamps the current time instead.
   */
  function NewJwt(jwt: Option<string>, creationT: int, now: int): (j: Jwt)
    ensures j.token == jwt
    ensures j.creationT == now
  {
    Jwt(jwt, now)
  }

  /** Two JWTs built at the same instant are equal whatever creation times were passed in. */
  lemma NewJwtIgnoresCreationT(jwt: Option<string>, c1: int, c2: int, now: int)
    ensures NewJwt(jwt, c1, now) == NewJwt(jwt, c2, now)
    ensures NewJwt(jwt, c1, now).creationT == now
  {
  }

  /** The credentials holder (project.Auth): a username and a password, unset until loaded. */
  class Auth {
    var username: Option<string>
    var password: Option<string>

    constructor ()
      ensures username == None && password == None
      ensures !CredsLoaded()
    {
      username := None;
      password := None;
    }

    /** Both the username and the password are set. */
    predicate CredsLoaded()
      reads this
      ensures CredsLoaded() <==> username != None && password != None
    {
      username.Some? && password.Some?
    }

    /** The stored username and password. */
    function Stored(): (Option<string>, Option<string>)
      reads this
    {
      (username, password)
    }

    /**
     * Reads the credentials file. `credsFile` is what the read yields for the
     * current environment; `None` stands for a missing or unreadable file,
     * which is re-raised.
     */
    method LoadCredentials(credsFile: Option<Creds>) returns (o: Outcome)
      modifies this
      ensures credsFile.None? ==> o == Raised(CredentialsReadError)
      ensures credsFile.None? ==> username == old(username) && password == old(password)
      ensures credsFile.Some? ==> o == Done && CredsLoaded()
      ensures credsFile.Some? ==> username == Some(credsFile.value.username)
      ensures credsFile.Some? ==> password == Some(credsFile.value.password)
    {
      if credsFile.None? {
        return Raised(CredentialsReadError);
      }
      username := Some(credsFile.value.username);
      password := Some(credsFile.value.password);
      o := Done;
    }
  }

  /**
   * The credentials `after` a token generation that started from `before`:
   * read from `credsFile` when they were not loaded and the read succeeds,
   * otherwise left as they were.
   */
  ghost predicate LoadedOnDemand(before: (Option<string>, Option<string>),
                                 after: (Option<string>, Option<string>),
                                 credsFile: Option<Creds>)
  {
    if (before.0.Some? && before.1.Some?) || credsFile.None? then after == before
    else after == (Some(credsFile.value.username), Some(credsFile.value.password))
  }

  /** The result of one call of the token exchange: its token string, or an exchange error. */
  function ExchangeResult(exchange: (string, string) -> Option<string>, username: string, password: string): Result<string>
  {
    match exchange(username, password)
    case None => Err(AuthExchangeError)
    case Some(s) => Ok(s)
  }

  class AuthManager {
    const auth: Auth
    var jwt: Option<Jwt>
    /** Seconds added to one hour to obtain the expiry: the token counts as expired 120 s early. */
    const expireOffset: int := -120

    /** A fresh manager holds no token; creating it does not authenticate. */
    constructor (authObj: Auth)
      ensures auth == authObj && jwt == None
      ensures expireOffset == -120
      ensures !JwtIsGenerated()
    {
      auth := authObj;
      jwt := None;
    }

    /** A token is present: there is a JWT, its token is not `None`, and it is not empty. */
    predicate JwtIsGenerated()
      reads this
      ensures JwtIsGenerated() <==> jwt.Some? && jwt.value.token.Some? && jwt.value.token.value != []
    {
      jwt.Some? && jwt.value.token.Some? && |jwt.value.token.value| > 0
    }

    /**
     * The expiry instant: creation time plus one hour plus the offset. Raises
     * JwtNotGenerated when no token is present.
     */
    function GetExpireTime(): (r: Result<int>)
      reads this
      ensures r.Err? <==> !JwtIsGenerated()
      ensures r.Err? ==> r.error == JwtNotGenerated
      ensures r.Ok? ==> r.value == jwt.value.creationT + ExpiryDelayMs
    {
      if !JwtIsGenerated() then Err(JwtNotGenerated)
      // the source writes one hour here rather than JwtLifeLength
      else Ok(jwt.value.creationT + MsPerHour + expireOffset * MsPerSecond)
    }

    /**
     * Whether `now` is strictly after the expiry. With no token this raises
     * JwtNotGenerated (through GetExpireTime) instead of answering true.
     */
    function IsExpired(now: int): (r: Result<bool>)
      reads this
      ensures r.Err? <==> !JwtIsGenerated()
      ensures r.Err? ==> r.error == JwtNotGenerated
      ensures r.Ok? ==> (r.value <==> now > GetExpireTime().value)
      ensures r.Ok? ==> (r.value <==> now - jwt.value.creationT > ExpiryDelayMs)
    {
      match GetExpireTime()
      case Err(e) => Err(e)
      case Ok(expireTime) => Ok(now > expireTime)
    }

    /** The token string; raises JwtNotGenerated when no token is present. */
    function GetTokenStr(): (r: Result<string>)
      reads this
      ensures r.Ok? <==> JwtIsGenerated()
      ensures r.Ok? ==> jwt.Some? && jwt.value.token == Some(r.value) && |r.value| > 0
      ensures r.Err? ==> r.error == JwtNotGenerated
    {
      if !JwtIsGenerated() then Err(JwtNotGenerated) else Ok(jwt.value.token.value)
    }

    /**
     * What `GenerateJwt` yields from the current credentials: the stored pair
     * when loaded, otherwise the pair read from `credsFile`.
     */
    ghost function GeneratedJwt(credsFile: Option<Creds>, exchange: (string, string) -> Option<string>): Result<string>
      reads auth
    {
      if auth.CredsLoaded() then ExchangeResult(exchange, auth.username.value, auth.password.value)
      else if credsFile.None? then Err(CredentialsReadError)
      else ExchangeResult(exchange, credsFile.value.username, credsFile.value.password)
    }

    /**
     * Loads the credentials only when they are not loaded yet, then exchanges
     * the stored username and password for a token string.
     */
    method GenerateJwt(credsFile: Option<Creds>, exchange: (string, string) -> Option<string>) returns (r: Result<string>)
      modifies auth
      ensures r == old(GeneratedJwt(credsFile, exchange))
      ensures LoadedOnDemand(old(auth.Stored()), auth.Stored(), credsFile)
      ensures r.Ok? ==> auth.CredsLoaded()
    {
      if !auth.CredsLoaded() {
        var loaded := auth.LoadCredentials(credsFile);
        if loaded.Raised? {
          return Err(loaded.error);
        }
      }
      r := ExchangeResult(exchange, auth.username.value, auth.password.value);
    }

    /**
     * Replaces the JWT wholesale with a new one stamped `now`. The JWT is
     * assigned only after the exchange returns, so a failing exchange leaves
     * it as it was.
     */
    method RefreshToken(now: int, credsFile: Option<Creds>, exchange: (string, string) -> Option<string>) returns (o: Outcome)
      modifies this, auth
      ensures var g := old(GeneratedJwt(credsFile, exchange));
              if g.Ok? then o == Done && jwt == Some(Jwt(Some(g.value), now))
              else o == Raised(g.error) && jwt == old(jwt)
      ensures LoadedOnDemand(old(auth.Stored()), auth.Stored(), credsFile)
      ensures o == Done ==> auth.CredsLoaded()
      ensures o == Done && |jwt.value.token.value| > 0 ==>
                GetTokenStr() == Ok(jwt.value.token.value) && IsExpired(now) == Ok(false)
    {
      var jwtStr := GenerateJwt(credsFile, exchange);
      if jwtStr.Err? {
        return Raised(jwtStr.error);
      }
      jwt := Some(NewJwt(Some(jwtStr.value), now, now));
      o := Done;
    }

    /** The first authentication: the same as RefreshToken. */
    method InitToken(now: int, credsFile: Option<Creds>, exchange: (string, string) -> Option<string>) returns (o: Outcome)
      modifies this, auth
      ensures var g := old(GeneratedJwt(credsFile, exchange));
              if g.Ok? then o == Done && jwt == Some(Jwt(Some(g.value), now))
              else o == Raised(g.error) && jwt == old(jwt)
      ensures LoadedOnDemand(old(auth.Stored()), auth.Stored(), credsFile)
      ensures o == Done ==> auth.CredsLoaded()
    {
      o := RefreshToken(now, credsFile, exchange);
    }
  }

  /** The token stays valid up to and including its expiry instant and is expired right after. */
  lemma ExpiryBoundary(m: AuthManager)
    requires m.JwtIsGenerated()
    ensures m.IsExpired(m.jwt.value.creationT + ExpiryDelayMs) == Ok(false)
    ensures m.IsExpired(m.jwt.value.creationT + ExpiryDelayMs + 1) == Ok(true)
    ensures forall t :: m.IsExpired(t) == Ok(t > m.GetExpireTime().value)
  {
  }
}
