/**
 * One browser tab's API client: cached token reads over shared local storage, and the two
 * synchronous halves of a silent refresh (before and after the request is in flight).
 */
module ApiClient {
  import opened Prelude

  /** JavaScript truthiness of a stored value: absent and empty strings are both false. */
  predicate Truthy(value: Option<string>) {
    value.Some? && value.value != ""
  }

  datatype Attempt = Reuse(token: string) | NoRefreshToken | PostToken(refreshToken: string)

  /** What a refresh decides from the stored pair, given the access token that was refused. */
  function Begin(access: Option<string>, refresh: Option<string>, failed: Option<string>): Attempt {
    if Truthy(failed) && Truthy(access) && access != failed then Reuse(access.value)
    else if !Truthy(refresh) then NoRefreshToken
    else PostToken(refresh.value)
  }

  /** The part of a refresh answer the client reads; the refresh token may be absent. */
  datatype Answer = Refused | Granted(token: string, refreshToken: Option<string>)

  /** Local storage, shared by every tab of the origin. */
  class LocalStorage {
    var items: map<string, string>

    constructor ()
      ensures items == map[]
    {
      items := map[];
    }

    function Item(key: string): Option<string>
      reads this
    {
      if key in items then Some(items[key]) else None
    }
  }

  function Stored(items: map<string, string>, key: string, value: Option<string>): map<string, string> {
    if Truthy(value) then items[key := value.value] else items - {key}
  }

  class Client {
    const storage: LocalStorage
    const tokenKey: string
    const refreshTokenKey: string
    var tokenCache: Option<string>
    var refreshCache: Option<string>
    var refreshing: bool

    constructor (storage: LocalStorage, tokenKey: string, refreshTokenKey: string)
      ensures this.storage == storage && this.tokenKey == tokenKey && this.refreshTokenKey == refreshTokenKey
      ensures tokenCache == storage.Item(tokenKey) && refreshCache == storage.Item(refreshTokenKey)
      ensures !refreshing
    {
      this.storage, this.tokenKey, this.refreshTokenKey := storage, tokenKey, refreshTokenKey;
      tokenCache := storage.Item(tokenKey);
      refreshCache := storage.Item(refreshTokenKey);
      refreshing := false;
    }

    method SetToken(token: Option<string>)
      modifies this`tokenCache, storage
      ensures tokenCache == token
      ensures storage.items == Stored(old(storage.items), tokenKey, token)
    {
      tokenCache := token;
      if token.Some? && token.value != "" {
        storage.items := storage.items[tokenKey := token.value];
      } else {
        storage.items := storage.items - {tokenKey};
      }
    }

    method GetToken() returns (token: Option<string>)
      modifies this`tokenCache
      ensures token == tokenCache == storage.Item(tokenKey)
    {
      tokenCache := storage.Item(tokenKey);
      token := tokenCache;
    }

    method SetRefreshToken(token: Option<string>)
      modifies this`refreshCache, storage
      ensures refreshCache == token
      ensures storage.items == Stored(old(storage.items), refreshTokenKey, token)
    {
      refreshCache := token;
      if token.Some? && token.value != "" {
        storage.items := storage.items[refreshTokenKey := token.value];
      } else {
        storage.items := storage.items - {refreshTokenKey};
      }
    }

    method GetRefreshToken() returns (token: Option<string>)
      modifies this`refreshCache
      ensures token == refreshCache == storage.Item(refreshTokenKey)
    {
      refreshCache := storage.Item(refreshTokenKey);
      token := refreshCache;
    }

    method ClearTokens()
      modifies this`tokenCache, this`refreshCache, storage
      ensures tokenCache == refreshCache == None
      ensures storage.items == old(storage.items) - {tokenKey, refreshTokenKey}
    {
      SetToken(None);
      SetRefreshToken(None);
      assert storage.items == old(storage.items) - {tokenKey, refreshTokenKey};
    }

    /** Single flight: a refresh that is already running is joined, not started again. */
    method DoRefresh() returns (started: bool)
      modifies this`refreshing
      ensures refreshing
      ensures started == !old(refreshing)
    {
      started := !refreshing;
      refreshing := true;
    }

    /** The refresh has settled, one way or the other; the next caller starts a new one. */
    method RefreshSettled()
      modifies this`refreshing
      ensures !refreshing
    {
      refreshing := false;
    }

    /** Callers that ask while a refresh is under way share it; the first one after it settled starts another. */
    method SingleFlight(callers: nat) returns (starts: nat, again: bool)
      requires !refreshing && callers >= 1
      modifies this`refreshing
      ensures starts == 1 && again && refreshing
    {
      starts := 0;
      for i := 0 to callers
        invariant refreshing == (i > 0)
        invariant starts == if i > 0 then 1 else 0
      {
        var started := DoRefresh();
        if started {
          starts := starts + 1;
        }
      }
      RefreshSettled();
      again := DoRefresh();
    }

    /**
     * The synchronous part of a refresh up to the request.  The stored pair is read again, so a
     * value another tab wrote meanwhile is seen, whatever this tab had cached.  A token is reused
     * only if it replaced the refused one; otherwise the stored refresh token, if any, is posted.
     */
    method BeginAttempt(failed: Option<string>) returns (attempt: Attempt)
      modifies this`tokenCache, this`refreshCache
      ensures attempt == Begin(storage.Item(tokenKey), storage.Item(refreshTokenKey), failed)
      ensures
        var access, refresh := storage.Item(tokenKey), storage.Item(refreshTokenKey);
        var replaced := Truthy(failed) && Truthy(access) && access != failed;
        && (replaced ==> attempt == Reuse(access.value))
        && (!replaced && Truthy(refresh) ==> attempt == PostToken(refresh.value))
        && (!replaced && !Truthy(refresh) ==> attempt == NoRefreshToken)
      ensures Truthy(failed) ==> attempt != Reuse(failed.value)
      ensures tokenCache == storage.Item(tokenKey)
    {
      var current := GetToken();
      if Truthy(failed) && Truthy(current) && current != failed {
        return Reuse(current.value);
      }
      var rt := GetRefreshToken();
      if !Truthy(rt) {
        return NoRefreshToken;
      }
      return PostToken(rt.value);
    }

    /** The part after the answer arrived: the access token is written first, then its successor. */
    method EndAttempt(answer: Answer) returns (token: Option<string>)
      requires tokenKey != refreshTokenKey
      modifies this`tokenCache, this`refreshCache, storage
      ensures answer.Refused? ==> token == None && storage.items == old(storage.items)
      ensures answer.Granted? ==> token == Some(answer.token)
      ensures answer.Granted? ==>
                storage.Item(tokenKey) == (if answer.token == "" then None else Some(answer.token))
      ensures answer.Granted? ==>
                storage.Item(refreshTokenKey) ==
                (if Truthy(answer.refreshToken) then answer.refreshToken else old(storage.Item(refreshTokenKey)))
      ensures forall k :: k != tokenKey && k != refreshTokenKey ==> storage.Item(k) == old(storage.Item(k))
    {
      if answer.Refused? {
        return None;
      }
      SetToken(Some(answer.token));
      if Truthy(answer.refreshToken) {
        SetRefreshToken(answer.refreshToken);
      }
      return Some(answer.token);
    }
  }

  /**
   * Two tabs on one storage: what the first writes after its refresh, the second reuses instead of
   * spending the new single-use token, although its own caches still hold the old pair.
   */
  method SecondTabReuses(first: Client, second: Client, failed: Option<string>, answer: Answer)
    returns (attempt: Attempt)
    requires first != second && first.storage == second.storage
    requires first.tokenKey == second.tokenKey && first.tokenKey != first.refreshTokenKey
    requires Truthy(failed) && answer.Granted? && answer.token != "" && Some(answer.token) != failed
    modifies first`tokenCache, first`refreshCache, first.storage, second`tokenCache, second`refreshCache
    ensures attempt == Reuse(answer.token)
  {
    var _ := first.EndAttempt(answer);
    attempt := second.BeginAttempt(failed);
  }
}
