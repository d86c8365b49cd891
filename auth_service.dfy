/**
 * The authentication service. `login` and `register` post to the backend with plain
 * axios (not the intercepted instance) and hand back the response body; `logout`
 * tells the backend when there is a token to revoke and then forgets both tokens
 * whatever the backend answered.
 */
module AuthService {

  import opened Wrappers
  import opened Js
  import opened Http
  import opened Browser

  /** The request `login(email, password)` sends. */
  function LoginRequest(apiUrl: string, email: string, password: string): (r: Request)
    ensures r.url == apiUrl + "/auth/login" && r.headers == map[]
    ensures r.body.Obj? && r.body.fields.Keys == {"email", "password"}
    ensures Get(r.body, "email") == Str(email) && Get(r.body, "password") == Str(password)
  {
    Request("POST", apiUrl + "/auth/login", map[], Obj(map["email" := Str(email), "password" := Str(password)]))
  }

  /** The request `register(userData)` sends: the user data, as given, as its body. */
  function RegisterRequest(apiUrl: string, userData: JsValue): (r: Request)
    ensures r.url == apiUrl + "/auth/register" && r.headers == map[]
    ensures r.body == userData
  {
    Request("POST", apiUrl + "/auth/register", map[], userData)
  }

  /**
   * `const response = await axios.post(...); return response.data;`: a fulfilled call
   * yields the body, a rejected one is rejected again with the same error.
   */
  function ResponseData(sent: Outcome<Response>): (result: Outcome<JsValue>)
    ensures result.Ok? <==> sent.Ok?
    ensures sent.Ok? ==> result.value == sent.value.data
    ensures sent.Err? ==> result.error == sent.error
  {
    match sent
    case Ok(response) => Ok(response.data)
    case Err(e) => Err(e)
  }

  /** The request `logout` sends for a token: an empty body and the token as bearer credential. */
  function LogoutRequest(apiUrl: string, token: string): (r: Request)
    ensures r.url == apiUrl + "/auth/logout"
    ensures r.headers.Keys == {"Authorization"} && r.headers["Authorization"] == "Bearer " + token
    ensures r.body == Obj(map[])
  {
    Request("POST", apiUrl + "/auth/logout", map["Authorization" := BearerHeaderValue(token)], Obj(map[]))
  }

  /**
   * `logout()`. The token is read once, before anything is removed; the backend is
   * told only when that token is truthy; a failed call is swallowed, so `logout`
   * always fulfils; and both tokens, and nothing else, are gone afterwards. How the
   * backend call settles changes none of this, so it is not a parameter.
   */
  method Logout(w: Window, apiUrl: string)
    returns (sent: Option<Request>, result: Outcome<()>)
    modifies w
    ensures sent.Some? <==> TruthyItem(GetItem(old(w.storage), AccessTokenKey))
    ensures sent.Some? ==> sent.value == LogoutRequest(apiUrl, old(w.storage)[AccessTokenKey])
    ensures sent.Some? ==>
              sent.value.url == apiUrl + "/auth/logout" &&
              sent.value.headers == map["Authorization" := BearerHeaderValue(old(w.storage)[AccessTokenKey])]
    ensures result == Ok(())
    ensures w.storage == old(w.storage) - {AccessTokenKey, RefreshTokenKey}
    ensures AccessTokenKey !in w.storage && RefreshTokenKey !in w.storage
    ensures w.pathname == old(w.pathname) && w.navigations == old(w.navigations)
  {
    var token := GetItem(w.storage, AccessTokenKey);
    sent := None;
    if token.Some? && token.value != "" {
      sent := Some(LogoutRequest(apiUrl, token.value));
    }
    w.RemoveItem(AccessTokenKey);
    w.RemoveItem(RefreshTokenKey);
    result := Ok(());
  }
}
