/**
 * The sign-in screen (components/Auth.tsx) as a state machine over the
 * selected role, the login/register mode, the error text and the loading
 * flag.
 *
 * `handleSubmit` is an `async` handler: it runs up to its `await fetch(...)`,
 * the page renders, and it resumes when the reply (or an exception) arrives.
 * The model splits it at that point into `HandleSubmit`, which returns the
 * request that would be posted, and `Receive`, which takes the reply; the
 * field `awaiting` remembers which request is outstanding. The network call
 * and `res.json()` are replaced by the `Reply` value given to `Receive`.
 */
module Auth {
  import opened Types

  const LOGIN_FAILED := "Login failed"
  const REGISTRATION_FAILED := "Registration failed"
  const PASSWORDS_DIFFER := "Passwords do not match"
  const SERVER_UNREACHABLE := "Unable to reach server. Please check backend."

  datatype AuthForm = AuthForm(name: string, email: string, password: string, confirmPassword: string)

  /** The inputs of the form, one per `onChange` handler. */
  datatype FormField = Name | Email | Password | ConfirmPassword

  /** What one input of the form holds. */
  function FieldValue(form: AuthForm, field: FormField): string {
    match field
    case Name => form.name
    case Email => form.email
    case Password => form.password
    case ConfirmPassword => form.confirmPassword
  }

  /**
   * The form with one input changed (`setFormData({ ...formData, f: value })`):
   * that input holds the new value and every other input is as it was.
   */
  function WithField(form: AuthForm, field: FormField, value: string): (edited: AuthForm)
    ensures FieldValue(edited, field) == value
    ensures forall f :: f != field ==> FieldValue(edited, f) == FieldValue(form, f)
  {
    match field
    case Name => form.(name := value)
    case Email => form.(email := value)
    case Password => form.(password := value)
    case ConfirmPassword => form.(confirmPassword := value)
  }

  /** The body posted to `/api/login` or `/api/register`. */
  datatype Request =
    | LoginRequest(email: string, password: string, role: UserRole)
    | RegisterRequest(user: User)

  /**
   * How the request ended: a parsed reply with its `ok` status, the body's
   * `error` text ("" when absent) and the body read as a user; or an exception
   * from `fetch` or `res.json()`.
   */
  datatype Reply =
    | Response(ok: bool, error: string, body: User)
    | TransportFailure

  /** `data.error || fallback`: the server's text when it gave one, the fixed text otherwise. */
  function FailureText(serverError: string, fallback: string): (text: string)
    ensures text == serverError || text == fallback
    ensures serverError != "" ==> text == serverError
    ensures fallback != "" ==> text != ""
  {
    if serverError != "" then serverError else fallback
  }

  /**
   * The account a registration creates (lines 62-70): always a resident,
   * without a room or phone number, carrying the name, email and password
   * typed into the form, whatever role tab is selected.
   */
  function RegistrationRecord(id: string, form: AuthForm): (u: User)
    ensures u.id == id && u.role == Resident
    ensures u.roomNumber == "" && u.phoneNumber == ""
    ensures u.name == form.name && u.email == form.email && u.password == Some(form.password)
  {
    User(id, form.name, form.email, Some(form.password), Resident, "", "", "", "", false)
  }

  /** The submit button's caption (lines 179-183). */
  function SubmitCaption(isLoading: bool, isLogin: bool): (caption: string)
    ensures isLoading <==> caption == "Please wait..."
    ensures !isLoading ==> (caption == "Login" <==> isLogin)
    ensures !isLoading && !isLogin ==> caption == "Register"
  {
    if isLoading then "Please wait..." else if isLogin then "Login" else "Register"
  }

  class AuthScreen {
    var activeRole: UserRole
    var isLogin: bool
    var formData: AuthForm
    var error: string
    var isLoading: bool
    /** The request `handleSubmit` is waiting on, if it is suspended at its `await`. */
    var awaiting: Option<Request>

    /** Loading means a request is outstanding, and the error was cleared when it was sent. */
    ghost predicate Valid()
      reads this
    {
      && (isLoading <==> awaiting.Some?)
      && (awaiting.Some? ==> error == "")
    }

    /**
     * Whether the name and confirm-password inputs are shown (lines 128, 157):
     * exactly on the resident tab when the idle button would read 'Register'.
     */
    predicate ShowsRegistrationFields(): (shown: bool)
      reads this
      ensures shown <==> activeRole == Resident && SubmitCaption(false, isLogin) == "Register"
    {
      !isLogin && activeRole == Resident
    }

    /** Lines 9-18: the resident tab, login mode, an empty form, no error, not loading. */
    constructor ()
      ensures Valid()
      ensures activeRole == Resident && isLogin && formData == AuthForm("", "", "", "")
      ensures error == "" && !isLoading && awaiting == None
    {
      activeRole := Resident;
      isLogin := true;
      formData := AuthForm("", "", "", "");
      error := "";
      isLoading := false;
      awaiting := None;
    }

    /** Lines 20-25: selecting the admin tab forces login mode; the resident tab keeps the mode. */
    method HandleRoleChange(role: UserRole)
      requires Valid()
      modifies this
      ensures Valid()
      ensures activeRole == role
      ensures isLogin == (role == Admin || old(isLogin))
      ensures formData == old(formData) && error == old(error)
      ensures isLoading == old(isLoading) && awaiting == old(awaiting)
    {
      activeRole := role;
      if role == Admin {
        isLogin := true;
      }
    }

    /** An `onChange` handler of one input (lines 134-165). */
    method Edit(field: FormField, value: string)
      requires Valid()
      modifies this
      ensures Valid()
      ensures formData == WithField(old(formData), field, value)
      ensures activeRole == old(activeRole) && isLogin == old(isLogin) && error == old(error)
      ensures isLoading == old(isLoading) && awaiting == old(awaiting)
    {
      formData := WithField(formData, field, value);
    }

    /**
     * Lines 27-60 and 62-79, up to the `await`: clear the error, set the
     * loading flag and send the login or registration request. In register
     * mode, differing passwords stop here with an error and no request, and
     * the `finally` clause clears the loading flag. The submit button is
     * disabled while loading (line 176), so a new submission only starts when
     * nothing is outstanding. `id` stands for the random `res-...` identifier.
     */
    method HandleSubmit(id: string) returns (request: Option<Request>)
      requires Valid() && !isLoading
      modifies this
      ensures Valid()
      ensures old(isLogin) ==>
        request == Some(LoginRequest(old(formData).email, old(formData).password, old(activeRole)))
      ensures !old(isLogin) && old(formData).password != old(formData).confirmPassword ==>
        request == None && error == PASSWORDS_DIFFER
      ensures !old(isLogin) && old(formData).password == old(formData).confirmPassword ==>
        request == Some(RegisterRequest(RegistrationRecord(id, old(formData))))
      ensures request.Some? ==> error == "" && isLoading && awaiting == request
      ensures request.None? ==> !isLoading
      ensures activeRole == old(activeRole) && isLogin == old(isLogin) && formData == old(formData)
    {
      error := "";
      isLoading := true;
      if isLogin {
        request := Some(LoginRequest(formData.email, formData.password, activeRole));
        awaiting := request;
      } else if formData.password != formData.confirmPassword {
        error := PASSWORDS_DIFFER;
        request := None;
        isLoading := false;
      } else {
        var newUser := RegistrationRecord(id, formData);
        request := Some(RegisterRequest(newUser));
        awaiting := request;
      }
    }

    /**
     * Lines 46-53, 79-92, after the `await`: a failed reply shows the server's
     * text or the fixed fallback, an exception shows the unreachable-server
     * text, a successful login hands the user to `onLogin` (returned here), a
     * successful registration switches to login mode without logging in; in
     * every case the `finally` clause clears the loading flag.
     */
    method Receive(reply: Reply) returns (loggedIn: Option<User>)
      requires Valid() && awaiting.Some?
      modifies this
      ensures Valid() && !isLoading && awaiting == None
      ensures reply.TransportFailure? ==> error == SERVER_UNREACHABLE && loggedIn == None && isLogin == old(isLogin)
      ensures reply.Response? && !reply.ok ==>
        && error == FailureText(reply.error,
                                if old(awaiting).value.LoginRequest? then LOGIN_FAILED else REGISTRATION_FAILED)
        && loggedIn == None && isLogin == old(isLogin)
      ensures reply.Response? && reply.ok && old(awaiting).value.LoginRequest? ==>
        error == "" && loggedIn == Some(reply.body) && isLogin == old(isLogin)
      ensures reply.Response? && reply.ok && old(awaiting).value.RegisterRequest? ==>
        error == "" && loggedIn == None && isLogin
      ensures activeRole == old(activeRole) && formData == old(formData)
    {
      loggedIn := None;
      var isLoginRequest := awaiting.value.LoginRequest?;
      match reply {
        case TransportFailure =>
          error := SERVER_UNREACHABLE;
        case Response(ok, serverError, body) =>
          if !ok {
            error := FailureText(serverError, if isLoginRequest then LOGIN_FAILED else REGISTRATION_FAILED);
          } else if isLoginRequest {
            loggedIn := Some(body);
          } else {
            isLogin := true;
          }
      }
      isLoading := false;
      awaiting := None;
    }
  }

  /**
   * Every assignment to `isLogin` stores `true` (lines 10, 23, 86), so login
   * mode holds in every state the screen can reach: whatever the user does,
   * the next submission posts a login request and the registration inputs
   * stay hidden.
   */
  method LoginModeIsInvariant(steps: seq<Step>) returns (screen: AuthScreen)
    ensures screen.Valid() && screen.isLogin && !screen.ShowsRegistrationFields()
  {
    screen := new AuthScreen();
    var i := 0;
    while i < |steps|
      invariant 0 <= i <= |steps|
      invariant screen.Valid() && screen.isLogin
    {
      match steps[i] {
        case ChooseRole(role) =>
          screen.HandleRoleChange(role);
        case Type(field, value) =>
          screen.Edit(field, value);
        case Submit(id) =>
          if !screen.isLoading {
            var request := screen.HandleSubmit(id);
            assert request.Some? && request.value.LoginRequest?;
          }
        case Answer(reply) =>
          if screen.awaiting.Some? {
            var _ := screen.Receive(reply);
          }
      }
      i := i + 1;
    }
  }

  /** A user action on the screen, or the arrival of a reply. */
  datatype Step =
    | ChooseRole(role: UserRole)
    | Type(field: FormField, value: string)
    | Submit(id: string)
    | Answer(reply: Reply)
}
