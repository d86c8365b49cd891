/**
 * The login and registration page: the checks run before the backend is asked,
 * the body sent on registration, the tokens written on success and the message
 * shown for each kind of failure.
 */
module Authentication {

  import opened Wrappers
  import opened Js
  import opened Http
  import opened Browser
  import AuthService

  datatype LoginForm = LoginForm(email: string, password: string)

  datatype RegisterForm = RegisterForm(
    email: string, password: string, confirmPassword: string,
    username: string, firstName: string, lastName: string)

  const EmailError := "Debes usar un correo institucional UBB (@alumnos.ubiobio.cl o @ubiobio.cl)"
  const MismatchError := "Las contraseñas no coinciden"
  const ShortPasswordError := "La contraseña debe tener al menos 6 caracteres"
  const CredentialsError := "Credenciales incorrectas. Por favor, verifica tu correo y contraseña."
  const AlreadyRegisteredError := "El correo o usuario ya está registrado."
  const ConnectionError := "Error de conexión. Por favor, intenta más tarde."
  const LoginSuccess := "¡Inicio de sesión exitoso! Redirigiendo..."
  const RegisterSuccess := "¡Registro exitoso! Redirigiendo..."

  const MinPasswordLength := 6

  /**
   * The guards of `handleRegister`, in order: institutional e-mail, matching
   * confirmation, at least six characters. The first that fails gives its message.
   */
  function RegisterValidation(form: RegisterForm, isUbbEmail: string -> bool): (failure: Option<string>)
    ensures failure.None? <==>
              isUbbEmail(form.email) && form.password == form.confirmPassword &&
              |form.password| >= MinPasswordLength
    ensures !isUbbEmail(form.email) ==> failure == Some(EmailError)
    ensures isUbbEmail(form.email) && form.password != form.confirmPassword ==> failure == Some(MismatchError)
    ensures (isUbbEmail(form.email) && form.password == form.confirmPassword &&
             |form.password| < MinPasswordLength) ==> failure == Some(ShortPasswordError)
  {
    if !isUbbEmail(form.email) then Some(EmailError)
    else if form.password != form.confirmPassword then Some(MismatchError)
    else if |form.password| < MinPasswordLength then Some(ShortPasswordError)
    else None
  }

  /** The register form's state object. */
  function FormObject(form: RegisterForm): JsValue {
    Obj(map["email" := Str(form.email), "password" := Str(form.password),
            "confirmPassword" := Str(form.confirmPassword), "username" := Str(form.username),
            "firstName" := Str(form.firstName), "lastName" := Str(form.lastName)])
  }

  /** `const { confirmPassword, ...dataToSend } = registerData`: every field but the confirmation. */
  function RegisterPayload(form: RegisterForm): (body: JsValue)
    ensures body.Obj? && body.fields.Keys == FormObject(form).fields.Keys - {"confirmPassword"}
    ensures body.fields.Keys == {"email", "password", "username", "firstName", "lastName"}
    ensures forall key :: key in body.fields ==> body.fields[key] == FormObject(form).fields[key]
  {
    Obj(FormObject(form).fields - {"confirmPassword"})
  }

  /** The confirmation never reaches the backend: forms that differ only there send the same body. */
  lemma PayloadIgnoresConfirmation(a: RegisterForm, b: RegisterForm)
    requires a.(confirmPassword := b.confirmPassword) == b
    ensures RegisterPayload(a) == RegisterPayload(b)
  {
    assert RegisterPayload(a).fields == RegisterPayload(b).fields;
  }

  /** The message `handleLogin` shows when the login call is rejected. */
  function LoginErrorMessage(err: HttpError): (message: string)
    ensures message == CredentialsError <==> HasStatus(err, 401)
    ensures message == ConnectionError <==> !HasStatus(err, 401)
  {
    if err.response.Some? && err.response.value.status == 401 then CredentialsError else ConnectionError
  }

  /** The message `handleRegister` shows when the register call is rejected. */
  function RegisterErrorMessage(err: HttpError): (message: string)
    ensures message == AlreadyRegisteredError <==> HasStatus(err, 400)
    ensures message == ConnectionError <==> !HasStatus(err, 400)
  {
    if err.response.Some? && err.response.value.status == 400 then AlreadyRegisteredError else ConnectionError
  }

  /**
   * What the `try` block makes of the service's result before it writes storage:
   * the two values `localStorage.setItem` stores (`String(data.accessToken)`,
   * `String(data.refreshToken)`), or the error the `catch` block receives. Reading a
   * field of a `null` or `undefined` body throws a TypeError, which has no `response`.
   */
  function TokensFrom(result: Outcome<JsValue>): (tokens: Outcome<(string, string)>)
    ensures tokens.Ok? <==> result.Ok? && !Nullish(result.value)
    ensures tokens.Ok? ==>
              tokens.value == (ToJsString(Get(result.value, AccessTokenKey)),
                               ToJsString(Get(result.value, RefreshTokenKey)))
    ensures result.Err? ==> tokens == Err(result.error)
    ensures result.Ok? && Nullish(result.value) ==> tokens == Err(HttpError(None))
  {
    match result
    case Err(e) => Err(e)
    case Ok(data) =>
      match Member(data, AccessTokenKey)
      case None => Err(HttpError(None))
      case Some(access) => Ok((ToJsString(access), ToJsString(Get(data, RefreshTokenKey))))
  }

  /**
   * A body without `accessToken` still stores something: the string `"undefined"`,
   * which is truthy, so the page counts as signed in afterwards.
   */
  lemma MissingTokenIsStoredAsUndefined(data: JsValue)
    requires data.Obj? && AccessTokenKey !in data.fields
    ensures TokensFrom(Ok(data)) == Ok(("undefined", ToJsString(Get(data, RefreshTokenKey))))
    ensures TruthyItem(Some(TokensFrom(Ok(data)).value.0))
  {
  }

  class AuthPage {
    var tab: int
    var loading: bool
    var error: string
    var success: string
    const window: Window

    constructor (window: Window)
      ensures tab == 0 && !loading && error == "" && success == "" && this.window == window
    {
      tab := 0;
      loading := false;
      error := "";
      success := "";
      this.window := window;
    }

    /** `handleTabChange`: switches the tab and clears both messages. */
    method HandleTabChange(value: int)
      modifies this
      ensures tab == value && error == "" && success == "" && loading == old(loading)
    {
      tab := value;
      error := "";
      success := "";
    }

    /** The `try`/`catch`/`finally` tail both handlers share once the backend has answered. */
    method Settle(result: Outcome<JsValue>, successMessage: string, failureMessage: HttpError -> string)
      modifies this, window
      ensures var tokens := TokensFrom(result);
              if tokens.Ok? then
                window.storage == old(window.storage)[AccessTokenKey := tokens.value.0]
                                                     [RefreshTokenKey := tokens.value.1] &&
                success == successMessage && error == old(error)
              else
                window.storage == old(window.storage) &&
                error == failureMessage(tokens.error) && success == old(success)
      ensures !loading && tab == old(tab)
      ensures window.pathname == old(window.pathname) && window.navigations == old(window.navigations)
    {
      var tokens := TokensFrom(result);
      match tokens {
        case Ok((access, refresh)) =>
          window.SetItem(AccessTokenKey, access);
          window.SetItem(RefreshTokenKey, refresh);
          success := successMessage;
        case Err(e) =>
          error := failureMessage(e);
      }
      loading := false;
    }

    /**
     * `handleLogin`. Both messages are cleared first. A non-institutional address stops
     * it with its message, no call and `loading` untouched; otherwise one login call is
     * made, whose result `posted` decides between storing the tokens and a message, and
     * `loading` ends false.
     */
    method HandleLogin(form: LoginForm, isUbbEmail: string -> bool, apiUrl: string, posted: Outcome<Response>)
      returns (sent: Option<Request>)
      modifies this, window
      ensures !isUbbEmail(form.email) ==>
                sent == None && error == EmailError && success == "" && loading == old(loading) &&
                window.storage == old(window.storage)
      ensures isUbbEmail(form.email) ==>
                sent == Some(AuthService.LoginRequest(apiUrl, form.email, form.password)) && !loading
      ensures var tokens := TokensFrom(AuthService.ResponseData(posted));
              isUbbEmail(form.email) && tokens.Ok? ==>
                window.storage == old(window.storage)[AccessTokenKey := tokens.value.0]
                                                     [RefreshTokenKey := tokens.value.1] &&
                success == LoginSuccess && error == ""
      ensures var tokens := TokensFrom(AuthService.ResponseData(posted));
              isUbbEmail(form.email) && tokens.Err? ==>
                window.storage == old(window.storage) &&
                error == LoginErrorMessage(tokens.error) && success == ""
      ensures tab == old(tab)
      ensures window.pathname == old(window.pathname) && window.navigations == old(window.navigations)
    {
      error := "";
      success := "";
      if !isUbbEmail(form.email) {
        error := EmailError;
        sent := None;
        return;
      }
      loading := true;
      sent := Some(AuthService.LoginRequest(apiUrl, form.email, form.password));
      Settle(AuthService.ResponseData(posted), LoginSuccess, LoginErrorMessage);
    }

    /**
     * `handleRegister`. Both messages are cleared first. The first failing check sets
     * its message and stops it with no call and `loading` untouched; otherwise the form
     * minus its confirmation is posted, and the result `posted` decides between storing
     * the tokens and a message; `loading` ends false.
     */
    method HandleRegister(form: RegisterForm, isUbbEmail: string -> bool, apiUrl: string, posted: Outcome<Response>)
      returns (sent: Option<Request>)
      modifies this, window
      ensures RegisterValidation(form, isUbbEmail).Some? ==>
                sent == None && error == RegisterValidation(form, isUbbEmail).value && success == "" &&
                loading == old(loading) && window.storage == old(window.storage)
      ensures RegisterValidation(form, isUbbEmail).None? ==>
                sent == Some(AuthService.RegisterRequest(apiUrl, RegisterPayload(form))) && !loading
      ensures var tokens := TokensFrom(AuthService.ResponseData(posted));
              RegisterValidation(form, isUbbEmail).None? && tokens.Ok? ==>
                window.storage == old(window.storage)[AccessTokenKey := tokens.value.0]
                                                     [RefreshTokenKey := tokens.value.1] &&
                success == RegisterSuccess && error == ""
      ensures var tokens := TokensFrom(AuthService.ResponseData(posted));
              RegisterValidation(form, isUbbEmail).None? && tokens.Err? ==>
                window.storage == old(window.storage) &&
                error == RegisterErrorMessage(tokens.error) && success == ""
      ensures tab == old(tab)
      ensures window.pathname == old(window.pathname) && window.navigations == old(window.navigations)
    {
      error := "";
      success := "";
      if !isUbbEmail(form.email) {
        error := EmailError;
        sent := None;
        return;
      }
      if form.password != form.confirmPassword {
        error := MismatchError;
        sent := None;
        return;
      }
      if |form.password| < MinPasswordLength {
        error := ShortPasswordError;
        sent := None;
        return;
      }
      loading := true;
      sent := Some(AuthService.RegisterRequest(apiUrl, RegisterPayload(form)));
      Settle(AuthService.ResponseData(posted), RegisterSuccess, RegisterErrorMessage);
    }
  }
}
