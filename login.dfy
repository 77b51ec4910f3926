/** The sign-in page (`Login`): a two-field form, its check, and what a
    sign-in reply does to the stored token, the signed-in user, the route
    and the page's errors and loading flag. */
module Login {
  import opened Base
  import opened Text
  import opened FormState

  datatype LoginField = Username | Password

  function FieldName(f: LoginField): string
  {
    match f
    case Username => "username"
    case Password => "password"
  }

  datatype LoginForm = LoginForm(username: string, password: string)
  {
    function Get(f: LoginField): string
    {
      match f
      case Username => username
      case Password => password
    }

    /** `{ ...prev, [name]: value }`. */
    function With(f: LoginField, value: string): (r: LoginForm)
      ensures r.Get(f) == value
      ensures forall g :: g != f ==> r.Get(g) == Get(g)
    {
      match f
      case Username => this.(username := value)
      case Password => this.(password := value)
    }
  }

  /** The body of the sign-in request. */
  datatype Credentials = Credentials(username: string, password: string)

  /** The parts of a successful reply the page reads; a missing `user` is
      `None`, and any user object is truthy. */
  datatype LoginResponse = LoginResponse(token: Option<string>, user: Option<User>)

  /** What the page asks of its surroundings, in order. */
  datatype Call = SetUser(user: User) | Navigate(path: string)

  const UsernameRequired := "Username is required"
  const PasswordRequired := "Password is required"
  const LoginFailed := "Login failed. Please check your credentials and try again."

  /** `validateForm`'s errors: the user name is required after trimming, the
      password only to be non-empty, so spaces alone pass. */
  function FormErrors(form: LoginForm): (r: Errors)
    ensures "username" in r <==> IsBlank(form.username)
    ensures "password" in r <==> form.password == ""
    ensures r.Keys <= {"username", "password"}
    ensures "username" in r ==> r["username"] == UsernameRequired
    ensures "password" in r ==> r["password"] == PasswordRequired
    ensures r == map[] <==> !IsBlank(form.username) && form.password != ""
  {
    var e: Errors := if IsBlank(form.username) then map["username" := UsernameRequired] else map[];
    if form.password == "" then e["password" := PasswordRequired] else e
  }

  /** `validateForm`'s body: the error map filled one check at a time. */
  method CollectErrors(form: LoginForm) returns (errors: Errors)
    ensures errors == FormErrors(form)
  {
    errors := map[];
    if IsBlank(form.username) {
      errors := errors["username" := UsernameRequired];
    }
    if form.password == "" {
      errors := errors["password" := PasswordRequired];
    }
  }

  /** A password of spaces is accepted, while a user name of spaces is not. */
  lemma SpacesOnlyInPassword(name: string)
    requires !IsBlank(name)
    ensures FormErrors(LoginForm(name, "   ")) == map[]
    ensures "username" in FormErrors(LoginForm("   ", "   "))
  {
    assert IsSpace(' ');
    assert AllSpace("   ");
  }

  /** The general error of a failed sign-in: the server's `error` when
      truthy, the default text otherwise. */
  function FailureText(f: Failure): (m: string)
    ensures m != ""
    ensures Truthy(f.serverError) ==> m == f.serverError.value
    ensures !Truthy(f.serverError) ==> m == LoginFailed
  {
    if Truthy(f.serverError) then f.serverError.value else LoginFailed
  }

  class LoginPage {
    var form: LoginForm
    var errors: Errors
    var isLoading: bool
    /** `localStorage`'s `token` slot. */
    var storedToken: Option<string>
    var calls: seq<Call>

    constructor (storedToken: Option<string>)
      ensures form == LoginForm("", "") && errors == map[] && !isLoading
      ensures this.storedToken == storedToken && calls == []
    {
      form := LoginForm("", "");
      errors := map[];
      isLoading := false;
      this.storedToken := storedToken;
      calls := [];
    }

    /** `handleChange`: exactly the named field takes the value, and only
        that field's error is cleared. */
    method HandleChange(f: LoginField, value: string)
      modifies this
      ensures form == old(form).With(f, value)
      ensures errors == ClearError(old(errors), FieldName(f))
      ensures isLoading == old(isLoading) && storedToken == old(storedToken) && calls == old(calls)
    {
      form := form.With(f, value);
      errors := ClearError(errors, FieldName(f));
    }

    /** `validateForm`: the errors become those of the current form. */
    method ValidateForm() returns (valid: bool)
      modifies this
      ensures errors == FormErrors(form) && (valid <==> errors == map[])
      ensures form == old(form) && isLoading == old(isLoading)
      ensures storedToken == old(storedToken) && calls == old(calls)
    {
      var newErrors := CollectErrors(form);
      errors := newErrors;
      valid := |newErrors| == 0;
      assert valid <==> newErrors == map[];
    }

    /** `handleSubmit` up to its request. An invalid form sends nothing and
        changes only the errors, the loading flag included untouched; a
        valid one raises the loading flag, clears the errors and sends the
        credentials. */
    method BeginSubmit() returns (req: Option<Credentials>)
      modifies this
      ensures FormErrors(old(form)) != map[] ==>
                req.None? && errors == FormErrors(old(form)) && isLoading == old(isLoading)
      ensures FormErrors(old(form)) == map[] ==>
                req == Some(Credentials(old(form).username, old(form).password)) && errors == map[] && isLoading
      ensures form == old(form) && storedToken == old(storedToken) && calls == old(calls)
    {
      var valid := ValidateForm();
      if !valid {
        return None;
      }
      isLoading := true;
      errors := map[];
      req := Some(Credentials(form.username, form.password));
    }

    /** `handleSubmit` after its request. A reply with a token stores it;
        one that also carries a user sets that user and goes to "/", the only
        path that does. A reply without a token, or with a token but no user,
        ends in the default error, and a failed request in the server's error
        or the default. The loading flag is lowered on every path. */
    method FinishSubmit(reply: Reply<LoginResponse>)
      modifies this
      ensures !isLoading && form == old(form)
      ensures storedToken == if reply.Ok? && Truthy(reply.value.token) then reply.value.token else old(storedToken)
      ensures reply.Ok? && Truthy(reply.value.token) && reply.value.user.Some? ==>
                calls == old(calls) + [SetUser(reply.value.user.value), Navigate("/")] && errors == old(errors)
      ensures reply.Ok? && !(Truthy(reply.value.token) && reply.value.user.Some?) ==>
                calls == old(calls) && errors == General(LoginFailed)
      ensures reply.Err? ==> calls == old(calls) && errors == General(FailureText(reply.failure))
    {
      match reply {
        case Ok(response) =>
          if Truthy(response.token) {
            storedToken := response.token;
            if response.user.Some? {
              calls := calls + [SetUser(response.user.value), Navigate("/")];
            } else {
              errors := General(LoginFailed);
            }
          } else {
            errors := General(LoginFailed);
          }
        case Err(failure) =>
          errors := General(FailureText(failure));
      }
      isLoading := false;
    }
  }
}
