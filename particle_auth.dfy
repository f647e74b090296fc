/** The Particle cloud login cache (particle-authenticator-service.ts). The login call is an
    input: the result it resolves with, or the error it fails with. */
module ParticleAuth {
  import opened Wrappers
  import opened Clock
  import opened Logging
  import opened Secrets
  import opened Health
  import SsmSecrets

  datatype LoginBody = LoginBody(tokenType: string, accessToken: string, expiresIn: int, refreshToken: string)

  datatype LoginResult = LoginResult(body: LoginBody, statusCode: int)

  datatype LoginParams = LoginParams(password: string, tokenDuration: int, username: string)

  /** `Math.round(ttl / 1000)`: the nearest whole number of seconds, halves rounded up. */
  function TokenDuration(cacheTtlMilliseconds: int): (seconds: int)
    ensures seconds * 1000 - 500 <= cacheTtlMilliseconds < seconds * 1000 + 500
  {
    (cacheTtlMilliseconds + 500) / 1000
  }

  /** The seconds `TokenDuration` picks are the only ones within half a second of the TTL. */
  lemma TokenDurationUnique(cacheTtlMilliseconds: int, seconds: int)
    requires seconds * 1000 - 500 <= cacheTtlMilliseconds < seconds * 1000 + 500
    ensures seconds == TokenDuration(cacheTtlMilliseconds)
  {
    var t := TokenDuration(cacheTtlMilliseconds);
    assert (seconds - t) * 1000 < 1000 && (t - seconds) * 1000 < 1000;
  }

  /** The arguments `login` passes to `particle.login`. */
  function LoginRequest(secrets: SecretsBundle, cacheTtlMilliseconds: int): (p: LoginParams)
    requires "particlePassword" in secrets && "particleUsername" in secrets
    ensures p.password == secrets["particlePassword"] && p.username == secrets["particleUsername"]
    ensures p.tokenDuration == TokenDuration(cacheTtlMilliseconds)
  {
    LoginParams(secrets["particlePassword"], TokenDuration(cacheTtlMilliseconds), secrets["particleUsername"])
  }

  /** `maskLoginResult`: both tokens masked, every other field kept. */
  function MaskLoginResult(result: LoginResult): (masked: LoginResult)
    ensures masked.statusCode == result.statusCode
    ensures masked.body.tokenType == result.body.tokenType && masked.body.expiresIn == result.body.expiresIn
    ensures masked.body.accessToken == MaskDefault(result.body.accessToken)
    ensures masked.body.refreshToken == MaskDefault(result.body.refreshToken)
  {
    LoginResult(
      result.body.(accessToken := MaskDefault(result.body.accessToken),
                   refreshToken := MaskDefault(result.body.refreshToken)),
      result.statusCode)
  }

  /** Logins whose tokens agree in length and at both ends look the same once masked. */
  lemma MaskLoginResultHidesTokens(a: LoginResult, b: LoginResult)
    requires a.statusCode == b.statusCode
    requires a.body.tokenType == b.body.tokenType && a.body.expiresIn == b.body.expiresIn
    requires |a.body.accessToken| == |b.body.accessToken|
    requires |a.body.accessToken| >= 1 ==>
               a.body.accessToken[0] == b.body.accessToken[0] &&
               a.body.accessToken[|a.body.accessToken| - 1] == b.body.accessToken[|b.body.accessToken| - 1]
    requires |a.body.refreshToken| == |b.body.refreshToken|
    requires |a.body.refreshToken| >= 1 ==>
               a.body.refreshToken[0] == b.body.refreshToken[0] &&
               a.body.refreshToken[|a.body.refreshToken| - 1] == b.body.refreshToken[|b.body.refreshToken| - 1]
    ensures MaskLoginResult(a) == MaskLoginResult(b)
  {
    MaskDependsOnlyOnEnds(a.body.accessToken, b.body.accessToken, DefaultMinLength);
    MaskDependsOnlyOnEnds(a.body.refreshToken, b.body.refreshToken, DefaultMinLength);
  }

  /** Whether `getAuthToken` logs in: nothing is cached, or the clock has reached the expiry. */
  predicate ShouldLogin(promise: Option<Result<LoginResult>>, expiry: int, now: int) {
    promise.None? || now >= expiry
  }

  /** The cache's lifetime: a fresh service logs in; a login at `loggedInAt` is reused strictly
      before `loggedInAt + expires_in * 1000`; an expiry parked at `Number.MAX_VALUE`, during a
      login or after a failed one, is never reached. */
  lemma CacheLifetime(cached: Result<LoginResult>, loggedInAt: int, expiresIn: int, now: TimeValue)
    ensures ShouldLogin(None, 0, now)
    ensures ShouldLogin(Some(cached), loggedInAt + expiresIn * 1000, now) <==> now >= loggedInAt + expiresIn * 1000
    ensures !ShouldLogin(Some(cached), MaxValue, now)
  {
    NoTimeBeyondMaxValue(now);
  }

  /** The two caches disagree at the instant of expiry: the SSM cache still serves its secrets,
      the login cache logs in again. */
  lemma ExpiryBoundaries(secrets: Result<SecretsBundle>, login: Result<LoginResult>, expiry: int)
    ensures !SsmSecrets.ShouldFetch(Some(secrets), expiry, expiry)
    ensures ShouldLogin(Some(login), expiry, expiry)
  {
  }

  /** What `getAuthToken` hands out for a settled login. */
  function AccessToken(login: Result<LoginResult>): (r: Result<string>)
    ensures login.Ok? ==> r == Ok(login.value.body.accessToken)
    ensures login.Err? ==> r == Err(login.error)
  {
    match login
    case Ok(l) => Ok(l.body.accessToken)
    case Err(e) => Err(e)
  }

  class ParticleAuthenticatorService {
    var loginResultPromise: Option<Result<LoginResult>>
    var loginResultExpiry: int

    /** A failed login stays cached with its expiry parked at `Number.MAX_VALUE`. */
    ghost predicate Valid()
      reads this
    {
      loginResultPromise.Some? && loginResultPromise.value.Err? ==> loginResultExpiry == MaxValue
    }

    constructor ()
      ensures loginResultPromise.None? && loginResultExpiry == 0
      ensures Valid()
    {
      loginResultPromise := None;
      loginResultExpiry := 0;
    }

    /** `getAuthToken`, run to completion. `now` is the clock when the call starts, read before the
        login is awaited; `login` is what a login started by this call settles with. */
    method GetAuthToken(now: TimeValue, login: Result<LoginResult>) returns (r: Result<string>, loggedIn: bool)
      requires Valid()
      modifies this
      ensures Valid()
      ensures loggedIn <==> ShouldLogin(old(loginResultPromise), old(loginResultExpiry), now)
      ensures loggedIn ==> loginResultPromise == Some(login)
      ensures loggedIn && login.Ok? ==> loginResultExpiry == now + login.value.body.expiresIn * 1000
      ensures loggedIn && login.Err? ==> loginResultExpiry == MaxValue
      ensures !loggedIn ==> loginResultPromise == old(loginResultPromise) && loginResultExpiry == old(loginResultExpiry)
      ensures loginResultPromise.Some? && r == AccessToken(loginResultPromise.value)
      ensures old(loginResultPromise).Some? && old(loginResultPromise).value.Err? ==>
                !loggedIn && r == Err(old(loginResultPromise).value.error)
    {
      NoTimeBeyondMaxValue(now);
      loggedIn := ShouldLogin(loginResultPromise, loginResultExpiry, now);
      if loggedIn {
        loginResultPromise := Some(login);
        loginResultExpiry := MaxValue;
        if login.Ok? {
          loginResultExpiry := now + login.value.body.expiresIn * 1000;
        }
      }
      r := AccessToken(loginResultPromise.value);
    }

    /** `checkHealth` logs in afresh, bypassing the cache, and reports the masked result. */
    function CheckHealth(login: Result<LoginResult>): (r: HealthCheckResult<LoginResult>)
      ensures r.HealthCheckSuccess? <==> login.Ok?
      ensures login.Ok? ==> r.data == MaskLoginResult(login.value)
      ensures login.Err? ==> r.error == login.error
    {
      DoCheckHealth(match login case Ok(l) => Ok(MaskLoginResult(l)) case Err(e) => Err(e))
    }
  }
}
