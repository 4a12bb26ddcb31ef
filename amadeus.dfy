/** `getAccessToken` (src/lib/amadeus.ts): a module-wide cache of one access
    token and the time it expires. The clock reading and the answer of the
    token endpoint are parameters. */
module Amadeus {

  /** What the token endpoint answered. */
  datatype Refresh = AuthOk(accessToken: string, expiresIn: int) | AuthFailed

  datatype TokenResult = Token(value: string) | AuthError(message: string)

  const AuthFailure := "Failed to authenticate with Amadeus"

  /** The cached token is used when it is non-empty and not yet expired. */
  predicate CacheHit(accessToken: string, tokenExpiresAt: int, now: int) {
    accessToken != "" && now < tokenExpiresAt
  }

  class TokenCache {
    var accessToken: string
    var tokenExpiresAt: int

    /** The module's initial state: no token, expired at time 0. */
    constructor ()
      ensures accessToken == "" && tokenExpiresAt == 0
    {
      accessToken := "";
      tokenExpiresAt := 0;
    }

    /** One call at time `now` (milliseconds); `refresh` is the endpoint's
        answer, consulted only on a miss (`refreshed`). */
    method GetAccessToken(now: int, refresh: Refresh) returns (r: TokenResult, refreshed: bool)
      modifies this
      ensures refreshed <==> !CacheHit(old(accessToken), old(tokenExpiresAt), now)
      ensures !refreshed ==>
        r == Token(old(accessToken)) && accessToken == old(accessToken) && tokenExpiresAt == old(tokenExpiresAt)
      ensures refreshed && refresh.AuthOk? ==>
        && accessToken == refresh.accessToken
        && tokenExpiresAt == now + refresh.expiresIn * 1000
        && r == Token(accessToken)
      ensures refreshed && refresh.AuthFailed? ==>
        r == AuthError(AuthFailure) && accessToken == old(accessToken) && tokenExpiresAt == old(tokenExpiresAt)
    {
      if accessToken != "" && now < tokenExpiresAt {
        return Token(accessToken), false;
      }
      refreshed := true;
      if refresh.AuthFailed? {
        return AuthError(AuthFailure), refreshed;
      }
      accessToken := refresh.accessToken;
      tokenExpiresAt := now + refresh.expiresIn * 1000;
      r := Token(accessToken);
    }
  }

  /** The first call on a fresh cache always asks the endpoint. */
  method FirstCallRefreshes(now: int, refresh: Refresh) returns (refreshed: bool)
    ensures refreshed
  {
    var cache := new TokenCache();
    var _, r := cache.GetAccessToken(now, refresh);
    refreshed := r;
  }

  /** A token obtained at `t1`, valid for `e` seconds, is served from the
      cache at any `t2` before `t1 + 1000 e`, and refreshed from then on. */
  method ReuseWithinLifetime(t1: int, t2: int, token: string, e: int, later: Refresh)
    returns (first: TokenResult, second: TokenResult, refreshedAgain: bool)
    requires token != ""
    ensures first == Token(token)
    ensures refreshedAgain <==> t2 >= t1 + e * 1000
    ensures !refreshedAgain ==> second == Token(token)
  {
    var cache := new TokenCache();
    var refreshedFirst;
    first, refreshedFirst := cache.GetAccessToken(t1, AuthOk(token, e));
    second, refreshedAgain := cache.GetAccessToken(t2, later);
  }

  /** A failed refresh leaves the cache as it was, so the next call asks
      again. */
  method FailureKeepsState(t1: int, t2: int, good: Refresh)
    returns (first: TokenResult, second: TokenResult, refreshedAgain: bool)
    ensures first == AuthError(AuthFailure)
    ensures refreshedAgain
  {
    var cache := new TokenCache();
    var refreshedFirst;
    first, refreshedFirst := cache.GetAccessToken(t1, AuthFailed);
    second, refreshedAgain := cache.GetAccessToken(t2, good);
  }
}
