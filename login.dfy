/** The login form (src/scripts/login.ts): the choice of the primary role, the
    shape of the login result, the messages of a refused attempt, the error
    styling of the two inputs and the life cycle of the login button. */
module Login {
  import opened Outcomes

  /** The classes `triggerErrorState` and `setupInputClearing` swap. */
  const DefaultStyle: set<string> :=
    {"border-plm-gold", "text-text-gray", "focus:border-plm-navy", "focus:text-black"}
  const ErrorStyle: set<string> :=
    {"border-error-red", "text-error-red", "focus:border-error-red", "focus:text-error-red"}

  const Admin: string := "ADMIN"
  const Professor: string := "PROFESSOR"
  const Student: string := "STUDENT"

  const InvalidCredentials: string := "Invalid credentials"
  const ServerUnreachable: string := "Server unreachable"
  const CannotConnect: string := "Cannot connect to server"

  const Dashboard: string := "/dashboard"
  const TokenCookie: string := "jwt_token"
  const RoleCookie: string := "user_role"

  // ---------------------------------------------------------------------------
  // Primary role

  /** How strongly a role claims to be the primary one. */
  function Rank(role: string): nat
  {
    if role == Admin then 2 else if role == Professor then 1 else 0
  }

  /** `backendData.roles || []`: a missing list reads as empty. */
  function RoleList(roles: Option<seq<string>>): seq<string>
  {
    if roles.Some? then roles.value else []
  }

  /** The role stored in the `user_role` cookie: a listed role of the highest
      rank (ADMIN over PROFESSOR over anything else), the first listed role
      when none ranks, and STUDENT for an empty or missing list. */
  function PrimaryRole(roles: Option<seq<string>>): (r: string)
    ensures RoleList(roles) == [] ==> r == Student
    ensures RoleList(roles) != [] ==> r in RoleList(roles)
    ensures forall x :: x in RoleList(roles) ==> Rank(x) <= Rank(r)
    ensures RoleList(roles) != [] && Rank(r) == 0 ==> r == RoleList(roles)[0]
  {
    var rs := RoleList(roles);
    if Admin in rs then Admin
    else if Professor in rs then Professor
    else if |rs| > 0 then rs[0]
    else Student
  }

  /** The characterisation in PrimaryRole's contract admits one role only. */
  lemma PrimaryRoleUnique(roles: Option<seq<string>>, r: string)
    requires RoleList(roles) == [] ==> r == Student
    requires RoleList(roles) != [] ==> r in RoleList(roles)
    requires forall x :: x in RoleList(roles) ==> Rank(x) <= Rank(r)
    requires RoleList(roles) != [] && Rank(r) == 0 ==> r == RoleList(roles)[0]
    ensures r == PrimaryRole(roles)
  {
    var p := PrimaryRole(roles);
    if RoleList(roles) != [] {
      assert Rank(p) <= Rank(r) && Rank(r) <= Rank(p);
    }
  }

  // ---------------------------------------------------------------------------
  // The login request and its result

  /** `data` of a successful payload (the profile is not modelled). */
  datatype LoginData = LoginData(token: string, roles: Option<seq<string>>)

  /** The parsed JSON body: `success` stands for its truthiness. */
  datatype Payload = Payload(success: bool, message: Option<string>, data: Option<LoginData>)

  /** What the login request yields: a response with its `ok` flag and parsed
      body, or nothing when the fetch or the JSON parsing threw. */
  datatype Reply = Received(ok: bool, payload: Payload) | NoReply

  /** The object `postLoginData` returns. */
  datatype Outcome = Outcome(success: bool, message: Option<string>, payload: Option<Payload>)

  /** `postLoginData`: success needs both a 2xx status and a truthy
      `payload.success`; a request that throws gives 'Server unreachable'. */
  function PostLoginResult(reply: Reply): (w: Outcome)
    ensures w.success <==> reply.Received? && reply.ok && reply.payload.success
    ensures w.success ==> w.payload.Some?
    ensures reply.Received? ==> w.payload == Some(reply.payload) && w.message == reply.payload.message
    ensures reply.NoReply? ==> w.payload == None && w.message == Some(ServerUnreachable)
  {
    match reply
    case Received(ok, payload) => Outcome(ok && payload.success, payload.message, Some(payload))
    case NoReply => Outcome(false, Some(ServerUnreachable), None)
  }

  /** The text shown for a refused attempt as `handleLogin` computes it:
      `payload?.message || 'Invalid credentials'`. */
  function RefusalMessageAsWritten(w: Outcome): (r: string)
    ensures r != ""
    ensures w.payload.None? ==> r == InvalidCredentials
  {
    OrElse(if w.payload.Some? then w.payload.value.message else None, InvalidCredentials)
  }

  /** As written, a server that cannot be reached is reported to the user as
      wrong credentials: the 'Server unreachable' text is never shown. */
  lemma UnreachableShownAsInvalidCredentials()
    ensures RefusalMessageAsWritten(PostLoginResult(NoReply)) == InvalidCredentials
    ensures PostLoginResult(NoReply).message == Some(ServerUnreachable)
  {
  }

  /** The text shown for a refused attempt: the result's own message, which
      `postLoginData` fills in for every case, else 'Invalid credentials'. */
  function RefusalMessage(w: Outcome): (r: string)
    ensures r != ""
    ensures w.message == Some(ServerUnreachable) ==> r == ServerUnreachable
  {
    OrElse(w.message, InvalidCredentials)
  }

  /** The corrected message differs from the written one only when the server
      was not reached, and then names the real cause. */
  lemma RefusalMessageCorrected(reply: Reply)
    ensures reply.NoReply? ==> RefusalMessage(PostLoginResult(reply)) == ServerUnreachable
    ensures reply.Received? ==>
              RefusalMessage(PostLoginResult(reply)) == RefusalMessageAsWritten(PostLoginResult(reply))
    ensures reply.Received? ==>
              RefusalMessage(PostLoginResult(reply)) ==
                (if Truthy(reply.payload.message) then reply.payload.message.value else InvalidCredentials)
  {
  }

  // ---------------------------------------------------------------------------
  // Error styling of the inputs

  /** `triggerErrorState` on one input: drop the default classes, add the
      error classes. */
  function ShowError(classes: set<string>): (c: set<string>)
    ensures ErrorStyle <= c && c !! DefaultStyle
    ensures c - ErrorStyle == classes - DefaultStyle - ErrorStyle
  {
    classes - DefaultStyle + ErrorStyle
  }

  /** The `input` listener on one input: drop the error classes, add the
      default classes back. */
  function ClearError(classes: set<string>): (c: set<string>)
    ensures DefaultStyle <= c && c !! ErrorStyle
    ensures c - DefaultStyle == classes - DefaultStyle - ErrorStyle
  {
    classes - ErrorStyle + DefaultStyle
  }

  /** Typing after an error restores the input's classes exactly, whatever
      other classes it carries. */
  lemma StyleRoundTrip(classes: set<string>)
    requires DefaultStyle <= classes && classes !! ErrorStyle
    ensures ClearError(ShowError(classes)) == classes
  {
  }

  /** An input shows exactly one of the two styles. */
  predicate Styled(classes: set<string>)
  {
    classes == DefaultStyle || classes == ErrorStyle
  }

  lemma StyledClosed(classes: set<string>)
    requires Styled(classes)
    ensures ShowError(classes) == ErrorStyle && ClearError(classes) == DefaultStyle
  {
  }

  // ---------------------------------------------------------------------------
  // The form

  datatype Field = EmailField | PasswordField

  datatype Credentials = Credentials(email: string, password: string)

  /** The login attempt succeeded and its payload carries `data`. */
  predicate SignedIn(reply: Reply)
  {
    PostLoginResult(reply).success && reply.payload.data.Some?
  }

  class LoginForm {
    var email: string
    var password: string
    var emailClasses: set<string>
    var passwordClasses: set<string>
    var errorText: string
    var errorShown: bool
    var buttonDisabled: bool
    var inFlight: bool              // a login request is awaiting its reply
    var requests: seq<Credentials>
    var cookies: map<string, string>
    var navigation: Option<string>

    /** The button is disabled exactly while a request is out, and each input
        wears either the default or the error style (only the swapped classes
        are modelled). */
    ghost predicate Valid()
      reads this
    {
      buttonDisabled == inFlight && Styled(emailClasses) && Styled(passwordClasses)
    }

    /** `initLogin` on a freshly loaded page. */
    constructor ()
      ensures Valid()
      ensures email == "" && password == "" && errorText == "" && !errorShown
      ensures emailClasses == DefaultStyle && passwordClasses == DefaultStyle
      ensures !buttonDisabled && !inFlight && requests == [] && cookies == map[] && navigation == None
    {
      email, password, errorText, errorShown := "", "", "", false;
      emailClasses, passwordClasses := DefaultStyle, DefaultStyle;
      buttonDisabled, inFlight := false, false;
      requests, cookies, navigation := [], map[], None;
    }

    /** The user types into a field: its value changes, that field (only)
        gets its default style back and the error message is hidden. */
    method Input(field: Field, value: string)
      requires Valid()
      modifies this`email, this`password, this`emailClasses, this`passwordClasses, this`errorShown
      ensures Valid()
      ensures field == EmailField ==>
                email == value && emailClasses == ClearError(old(emailClasses)) &&
                password == old(password) && passwordClasses == old(passwordClasses)
      ensures field == PasswordField ==>
                password == value && passwordClasses == ClearError(old(passwordClasses)) &&
                email == old(email) && emailClasses == old(emailClasses)
      ensures !errorShown
    {
      if field == EmailField {
        email := value;
        StyledClosed(emailClasses);
        emailClasses := ClearError(emailClasses);
      } else {
        password := value;
        StyledClosed(passwordClasses);
        passwordClasses := ClearError(passwordClasses);
      }
      errorShown := false;
    }

    /** Submitting the form: with an empty field nothing happens; otherwise
        the button is disabled and the credentials are posted. */
    method Submit() returns (started: bool)
      requires Valid() && !inFlight
      modifies this`buttonDisabled, this`inFlight, this`requests
      ensures Valid()
      ensures started <==> email != "" && password != ""
      ensures started ==> buttonDisabled && requests == old(requests) + [Credentials(email, password)]
      ensures !started ==> !buttonDisabled && requests == old(requests)
    {
      if email == "" || password == "" {
        return false;
      }
      buttonDisabled, inFlight := true, true;
      requests := requests + [Credentials(email, password)];
      started := true;
    }

    /** The reply arrives: a success stores the token and the primary role and
        goes to the dashboard; a refusal, or a success whose payload has no
        `data` (the exception path), clears the password, shows the message
        and styles both inputs as errors. The button is enabled again in
        every case. */
    method Complete(reply: Reply)
      requires Valid() && inFlight
      modifies this`password, this`emailClasses, this`passwordClasses, this`errorText,
               this`errorShown, this`buttonDisabled, this`inFlight, this`cookies, this`navigation
      ensures Valid() && !buttonDisabled
      ensures SignedIn(reply) ==>
                cookies == old(cookies)[TokenCookie := reply.payload.data.value.token]
                                       [RoleCookie := PrimaryRole(reply.payload.data.value.roles)] &&
                navigation == Some(Dashboard) && password == old(password) &&
                errorText == old(errorText) && errorShown == old(errorShown) &&
                emailClasses == old(emailClasses) && passwordClasses == old(passwordClasses)
      ensures !SignedIn(reply) ==>
                password == "" && errorShown && emailClasses == ErrorStyle && passwordClasses == ErrorStyle &&
                cookies == old(cookies) && navigation == old(navigation)
      ensures !PostLoginResult(reply).success ==> errorText == RefusalMessage(PostLoginResult(reply))
      ensures PostLoginResult(reply).success && !SignedIn(reply) ==> errorText == CannotConnect
    {
      var w := PostLoginResult(reply);
      if w.success && w.payload.value.data.Some? {
        var data := w.payload.value.data.value;
        cookies := cookies[TokenCookie := data.token][RoleCookie := PrimaryRole(data.roles)];
        navigation := Some(Dashboard);
      } else {
        password := "";
        errorText := if w.success then CannotConnect else RefusalMessage(w);
        errorShown := true;
        StyledClosed(emailClasses);
        StyledClosed(passwordClasses);
        emailClasses := ShowError(emailClasses);
        passwordClasses := ShowError(passwordClasses);
      }
      buttonDisabled, inFlight := false, false;
    }
  }
}
