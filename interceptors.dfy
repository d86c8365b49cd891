/**
 * The shared axios instance: a request interceptor that signs every call with the
 * stored access token, and a response interceptor that, on a 401, forgets both tokens
 * and sends the user back to the entry page. There is no token renewal: every error
 * is rejected again as it came.
 */
module Interceptors {

  import opened Wrappers
  import opened Js
  import opened Http
  import opened Browser

  const AuthorizationHeader := "Authorization"

  /**
   * The request interceptor. It reads `localStorage` and never writes it (no
   * `modifies` clause); with a truthy token it replaces the header map by a copy that
   * carries `Authorization: Bearer <token>`, otherwise it returns the config unchanged.
   */
  method SignRequest(w: Window, config: Request) returns (out: Request)
    ensures var token := GetItem(w.storage, AccessTokenKey);
            TruthyItem(token) ==>
              AuthorizationHeader in out.headers &&
              out.headers[AuthorizationHeader] == BearerHeaderValue(token.value)
    ensures forall name :: name != AuthorizationHeader ==>
              (name in out.headers <==> name in config.headers) &&
              (name in config.headers ==> out.headers[name] == config.headers[name])
    ensures !TruthyItem(GetItem(w.storage, AccessTokenKey)) ==> out == config
    ensures out.verb == config.verb && out.url == config.url && out.body == config.body
  {
    var token := GetItem(w.storage, AccessTokenKey);
    out := config;
    if token.Some? && token.value != "" {
      out := config.(headers := config.headers[AuthorizationHeader := BearerHeaderValue(token.value)]);
    }
  }

  /** `error.response && error.response.status === 401`. */
  predicate Unauthorized<T>(outcome: Outcome<T>)
    ensures Unauthorized(outcome) ==>
              outcome.Err? && outcome.error.response.Some? && outcome.error.response.value.status == 401
  {
    outcome.Err? && HasStatus(outcome.error, 401)
  }

  /**
   * The response interceptor pair. A response passes through untouched. An error is
   * always rejected again, never retried or turned into a success. On a 401 both tokens
   * are removed first, and a navigation to the entry path is started unless the loaded
   * page is already there, so a 401 on the entry page cannot start a redirect loop.
   */
  method HandleResponse(w: Window, outcome: Outcome<Response>) returns (settled: Outcome<Response>)
    modifies w
    ensures settled == outcome
    ensures w.pathname == old(w.pathname)
    ensures !Unauthorized(outcome) ==> w.storage == old(w.storage) && w.navigations == old(w.navigations)
    ensures Unauthorized(outcome) ==>
              w.storage == old(w.storage) - {AccessTokenKey, RefreshTokenKey}
    ensures Unauthorized(outcome) && old(w.pathname) != EntryPath ==>
              w.navigations == old(w.navigations) + [EntryPath]
    ensures Unauthorized(outcome) && old(w.pathname) == EntryPath ==>
              w.navigations == old(w.navigations)
  {
    if outcome.Err? {
      var err := outcome.error;
      if err.response.Some? && err.response.value.status == 401 {
        w.RemoveItem(AccessTokenKey);
        w.RemoveItem(RefreshTokenKey);
        if w.pathname != EntryPath {
          w.AssignLocation(EntryPath);
        }
      }
    }
    settled := outcome;
  }

  /**
   * Two calls in flight that both fail with 401 before the new page has loaded (for
   * instance two ticket closings). Away from the entry page, each one finds the old
   * pathname and starts its own navigation, so two navigations are recorded; every one
   * of them targets the entry path, and both tokens are gone.
   */
  method UnauthorizedTwice(w: Window, first: Outcome<Response>, second: Outcome<Response>)
    returns (r1: Outcome<Response>, r2: Outcome<Response>)
    requires Unauthorized(first) && Unauthorized(second)
    modifies w
    ensures r1 == first && r2 == second
    ensures old(w.pathname) != EntryPath ==> w.navigations == old(w.navigations) + [EntryPath, EntryPath]
    ensures old(w.pathname) == EntryPath ==> w.navigations == old(w.navigations)
    ensures forall i :: |old(w.navigations)| <= i < |w.navigations| ==> w.navigations[i] == EntryPath
    ensures AccessTokenKey !in w.storage && RefreshTokenKey !in w.storage
    ensures w.pathname == old(w.pathname)
  {
    r1 := HandleResponse(w, first);
    r2 := HandleResponse(w, second);
  }
}
