/** The three registration pages (organization owner, attendee, invited admin):
    the same ordered form check, then a request, then the way to the verify-email
    page with the address in its URL. */
module Register {
  import opened Common
  import opened EmailPattern
  import opened Frontend
  import opened VerifyEmail

  const ALL_REQUIRED := "All fields are required"
  const ATTENDEE_REQUIRED := "Name, email, and password are required"
  const PASSWORDS_DIFFER := "Passwords do not match"
  const PASSWORD_SHORT := "Password must be at least 8 characters long"
  const INVALID_EMAIL := "Please enter a valid email address"
  const REGISTRATION_FAILED := "Registration failed"
  const MIN_PASSWORD: nat := 8

  /** The four fields every registration form has. */
  datatype AccountForm = AccountForm(fullName: string, email: string, password: string, confirmPassword: string)

  const EMPTY_ACCOUNT := AccountForm([], [], [], [])

  /** `validateForm`: all four fields filled in (the message for a missing one is the
      page's own), the passwords equal, the password at least 8 long in UTF-16 code
      units, and the address matching `^[^\s@]+@[^\s@]+\.[^\s@]+$`; checked in that
      order, and only the first failure is reported. `None` is a valid form. */
  function ValidateAccount(f: AccountForm, required: string): (r: Option<string>)
    requires required in {ALL_REQUIRED, ATTENDEE_REQUIRED}
    ensures r.None? <==>
      f.fullName != [] && f.email != [] && f.password != [] && f.confirmPassword != []
      && f.password == f.confirmPassword && Utf16Length(f.password) >= MIN_PASSWORD && Test(f.email)
    ensures r == Some(required) <==>
      f.fullName == [] || f.email == [] || f.password == [] || f.confirmPassword == []
    ensures r == Some(PASSWORDS_DIFFER) <==>
      f.fullName != [] && f.email != [] && f.password != [] && f.confirmPassword != [] && f.password != f.confirmPassword
    ensures r == Some(PASSWORD_SHORT) <==>
      f.fullName != [] && f.email != [] && f.password != [] && f.password == f.confirmPassword
      && Utf16Length(f.password) < MIN_PASSWORD
    ensures r == Some(INVALID_EMAIL) <==>
      f.fullName != [] && f.email != [] && f.password != [] && f.password == f.confirmPassword
      && Utf16Length(f.password) >= MIN_PASSWORD && !Test(f.email)
  {
    if f.fullName == [] || f.email == [] || f.password == [] || f.confirmPassword == [] then Some(required)
    else if f.password != f.confirmPassword then Some(PASSWORDS_DIFFER)
    else if Utf16Length(f.password) < MIN_PASSWORD then Some(PASSWORD_SHORT)
    else if !Test(f.email) then Some(INVALID_EMAIL)
    else None
  }

  /** A valid form's address has the shape the pattern describes. */
  lemma ValidAccountEmail(f: AccountForm, required: string)
    requires required in {ALL_REQUIRED, ATTENDEE_REQUIRED}
    requires ValidateAccount(f, required).None?
    ensures Matches(f.email)
  {
    TestIsPattern(f.email);
  }

  /** `handleInputChange`: the input named `name` takes the value; a name the form
      does not have changes none of its fields. */
  function SetAccountField(f: AccountForm, name: string, value: string): (r: AccountForm)
    ensures name == "full_name" ==> r == f.(fullName := value)
    ensures name == "email" ==> r == f.(email := value)
    ensures name == "password" ==> r == f.(password := value)
    ensures name == "confirmPassword" ==> r == f.(confirmPassword := value)
    ensures name !in {"full_name", "email", "password", "confirmPassword"} ==> r == f
  {
    if name == "full_name" then f.(fullName := value)
    else if name == "email" then f.(email := value)
    else if name == "password" then f.(password := value)
    else if name == "confirmPassword" then f.(confirmPassword := value)
    else f
  }

  /** How an awaited `AuthService` call ends: resolved, or thrown with a message
      (empty when the error has none). */
  datatype ServiceOutcome = Resolved | Rejected(message: string)

  /** The body `AuthService.registerOwner` sends: the organization is created later. */
  datatype OwnerRequest = OwnerRequest(fullName: string, email: string, password: string,
                                       organizationName: string, organizationType: string)

  class OwnerRegisterPage {
    var form: AccountForm
    var loading: bool
    var error: string
    var requests: seq<OwnerRequest>
    /** Where `router.push` sent the browser, if anywhere. */
    var location: Option<string>

    constructor()
      ensures form == EMPTY_ACCOUNT && !loading && error == [] && requests == [] && location == None
    {
      form := EMPTY_ACCOUNT;
      loading := false;
      error := [];
      requests := [];
      location := None;
    }

    method HandleInputChange(name: string, value: string)
      modifies this`form, this`error
      ensures form == SetAccountField(old(form), name, value) && error == []
    {
      form := SetAccountField(form, name, value);
      if error != [] {
        error := [];
      }
    }

    /** `handleSubmit`: the error is cleared; an invalid form shows the first failure
        and sends nothing; a valid one is sent, and then the page either moves to
        verify-email with the encoded address or shows the thrown message. */
    method HandleSubmit(outcome: ServiceOutcome)
      modifies this`loading, this`error, this`requests, this`location
      ensures ValidateAccount(form, ALL_REQUIRED).Some? ==>
        error == ValidateAccount(form, ALL_REQUIRED).value
        && requests == old(requests) && loading == old(loading) && location == old(location)
      ensures ValidateAccount(form, ALL_REQUIRED).None? ==>
        !loading && requests == old(requests) + [OwnerRequest(form.fullName, form.email, form.password, [], "company")]
      ensures ValidateAccount(form, ALL_REQUIRED).None? && outcome.Resolved? ==>
        error == [] && location == Some(VerifyEmailLink(form.email))
      ensures ValidateAccount(form, ALL_REQUIRED).None? && outcome.Rejected? ==>
        error == OrElse(Some(outcome.message), REGISTRATION_FAILED) && location == old(location)
    {
      error := [];
      var invalid := ValidateAccount(form, ALL_REQUIRED);
      if invalid.Some? {
        error := invalid.value;
        return;
      }
      loading := true;
      requests := requests + [OwnerRequest(form.fullName, form.email, form.password, [], "company")];
      match outcome {
        case Resolved =>
          location := Some(VerifyEmailLink(form.email));
        case Rejected(message) =>
          error := OrElse(Some(message), REGISTRATION_FAILED);
      }
      loading := false;
    }
  }

  /** The attendee form: the four account fields and five optional ones. */
  datatype AttendeeForm = AttendeeForm(account: AccountForm, phone: string, dateOfBirth: string,
                                       city: string, country: string, interests: string)

  /** The optional fields never decide whether the form is valid. */
  lemma OptionalFieldsIgnored(f: AttendeeForm, g: AttendeeForm)
    requires f.account == g.account
    ensures ValidateAccount(f.account, ATTENDEE_REQUIRED) == ValidateAccount(g.account, ATTENDEE_REQUIRED)
  {
  }

  function SetAttendeeField(f: AttendeeForm, name: string, value: string): (r: AttendeeForm)
    ensures r.account == SetAccountField(f.account, name, value)
    ensures name == "phone" ==> r == f.(phone := value)
    ensures name == "date_of_birth" ==> r == f.(dateOfBirth := value)
    ensures name == "city" ==> r == f.(city := value)
    ensures name == "country" ==> r == f.(country := value)
    ensures name == "interests" ==> r == f.(interests := value)
    ensures name !in {"phone", "date_of_birth", "city", "country", "interests"} ==>
      r == f.(account := SetAccountField(f.account, name, value))
  {
    if name == "phone" then f.(phone := value)
    else if name == "date_of_birth" then f.(dateOfBirth := value)
    else if name == "city" then f.(city := value)
    else if name == "country" then f.(country := value)
    else if name == "interests" then f.(interests := value)
    else f.(account := SetAccountField(f.account, name, value))
  }

  /** The JSON body posted to `/api/auth/register/attendee`. */
  datatype AttendeeRequest = AttendeeRequest(fullName: string, email: string, password: string, phone: string,
                                             dateOfBirth: string, city: string, country: string, interests: string)

  function AttendeeRequestOf(f: AttendeeForm): AttendeeRequest {
    AttendeeRequest(f.account.fullName, f.account.email, f.account.password, f.phone,
                    f.dateOfBirth, f.city, f.country, f.interests)
  }

  class AttendeeRegisterPage {
    var form: AttendeeForm
    var loading: bool
    var error: string
    var requests: seq<AttendeeRequest>
    var location: Option<string>

    constructor()
      ensures form == AttendeeForm(EMPTY_ACCOUNT, [], [], [], [], []) && !loading && error == []
      ensures requests == [] && location == None
    {
      form := AttendeeForm(EMPTY_ACCOUNT, [], [], [], [], []);
      loading := false;
      error := [];
      requests := [];
      location := None;
    }

    method HandleInputChange(name: string, value: string)
      modifies this`form, this`error
      ensures form == SetAttendeeField(old(form), name, value) && error == []
    {
      form := SetAttendeeField(form, name, value);
      if error != [] {
        error := [];
      }
    }

    /** `handleSubmit`: an ok response moves to verify-email; a refusal shows the
        server's message or "Registration failed"; a thrown error shows the network
        message. Loading ends in every case. */
    method HandleSubmit(outcome: FetchOutcome)
      modifies this`loading, this`error, this`requests, this`location
      ensures ValidateAccount(form.account, ATTENDEE_REQUIRED).Some? ==>
        error == ValidateAccount(form.account, ATTENDEE_REQUIRED).value
        && requests == old(requests) && loading == old(loading) && location == old(location)
      ensures ValidateAccount(form.account, ATTENDEE_REQUIRED).None? ==>
        !loading && requests == old(requests) + [AttendeeRequestOf(form)]
      ensures ValidateAccount(form.account, ATTENDEE_REQUIRED).None? && outcome.Responded? && outcome.ok ==>
        error == [] && location == Some(VerifyEmailLink(form.account.email))
      ensures ValidateAccount(form.account, ATTENDEE_REQUIRED).None? && outcome.Responded? && !outcome.ok ==>
        error == OrElse(outcome.message, REGISTRATION_FAILED) && location == old(location)
      ensures ValidateAccount(form.account, ATTENDEE_REQUIRED).None? && outcome.Threw? ==>
        error == NETWORK_ERROR && location == old(location)
    {
      error := [];
      var invalid := ValidateAccount(form.account, ATTENDEE_REQUIRED);
      if invalid.Some? {
        error := invalid.value;
        return;
      }
      loading := true;
      requests := requests + [AttendeeRequestOf(form)];
      match outcome {
        case Responded(ok, message) =>
          if ok {
            location := Some(VerifyEmailLink(form.account.email));
          } else {
            error := OrElse(message, REGISTRATION_FAILED);
          }
        case Threw =>
          error := NETWORK_ERROR;
      }
      loading := false;
    }
  }

  const NO_INVITE_TOKEN := "Invalid invitation link. Admin registration requires a valid invitation."
  const INVITE_REFUSED := "Invalid or expired invitation link."
  const INVITE_UNCHECKED := "Failed to validate invitation. Please try again."
  const VALIDATE_INVITE_PATH := "/api/auth/validate-invite/"

  /** What the invitation check returns; the page reads its `email`. */
  datatype InviteData = InviteData(email: string)

  /** How the awaited invitation check ends. */
  datatype TokenCheck = Valid(data: InviteData) | Refused | Unreachable

  /** What the admin page shows: a spinner while the invitation is checked, the
      invalid-invitation panel (with the error) while there is no invitation, else
      the form. */
  datatype AdminView = Validating | InvalidInvitation(error: string) | RegistrationForm

  datatype AdminRequest = AdminRequest(fullName: string, email: string, password: string, inviteToken: string)

  class AdminRegisterPage {
    var form: AccountForm
    var loading: bool
    var error: string
    var inviteToken: string
    var inviteData: Option<InviteData>
    var validatingToken: bool
    /** The invitation-check URLs fetched, and the registrations sent. */
    var tokenChecks: seq<string>
    var requests: seq<AdminRequest>
    var location: Option<string>

    constructor()
      ensures form == EMPTY_ACCOUNT && !loading && error == [] && inviteToken == [] && inviteData == None
      ensures validatingToken && tokenChecks == [] && requests == [] && location == None
    {
      form := EMPTY_ACCOUNT;
      loading := false;
      error := [];
      inviteToken := [];
      inviteData := None;
      validatingToken := true;
      tokenChecks := [];
      requests := [];
      location := None;
    }

    function View(): (v: AdminView)
      reads this
      ensures v == Validating <==> validatingToken
      ensures v == RegistrationForm <==> !validatingToken && inviteData.Some?
    {
      if validatingToken then Validating
      else if inviteData.None? then InvalidInvitation(error)
      else RegistrationForm
    }

    /** The mount effect with the `token` query parameter: without one the page
        refuses at once and fetches nothing; with one it fetches
        `/api/auth/validate-invite/<token>` and, on success, keeps the invitation
        and fills the address in from it. Checking always ends. */
    method Mount(token: Option<string>, check: TokenCheck)
      modifies this`error, this`validatingToken, this`inviteToken, this`inviteData, this`form, this`tokenChecks
      ensures !validatingToken
      ensures token.None? || token.value == [] ==>
        error == NO_INVITE_TOKEN && tokenChecks == old(tokenChecks) && inviteData == old(inviteData)
        && inviteToken == old(inviteToken) && form == old(form)
      ensures token.Some? && token.value != [] ==>
        inviteToken == token.value && tokenChecks == old(tokenChecks) + [VALIDATE_INVITE_PATH + token.value]
      ensures token.Some? && token.value != [] && check.Valid? ==>
        inviteData == Some(check.data) && form == old(form).(email := check.data.email) && error == old(error)
      ensures token.Some? && token.value != [] && check.Refused? ==>
        error == INVITE_REFUSED && inviteData == old(inviteData) && form == old(form)
      ensures token.Some? && token.value != [] && check.Unreachable? ==>
        error == INVITE_UNCHECKED && inviteData == old(inviteData) && form == old(form)
    {
      if token.None? || token.value == [] {
        error := NO_INVITE_TOKEN;
        validatingToken := false;
        return;
      }
      inviteToken := token.value;
      tokenChecks := tokenChecks + [VALIDATE_INVITE_PATH + token.value];
      match check {
        case Valid(data) =>
          inviteData := Some(data);
          form := form.(email := data.email);
        case Refused =>
          error := INVITE_REFUSED;
        case Unreachable =>
          error := INVITE_UNCHECKED;
      }
      validatingToken := false;
    }

    /** The address field is locked once the invitation gave an address. */
    /** The e-mail input is disabled while the invitation supplies an address. */
    predicate EmailLocked()
      reads this
    {
      inviteData.Some? && inviteData.value.email != []
    }

    /** `handleInputChange`: a disabled e-mail input fires no change, so the address
        taken from the invitation stays. */
    method HandleInputChange(name: string, value: string)
      requires !(name == "email" && EmailLocked())
      modifies this`form, this`error
      ensures form == SetAccountField(old(form), name, value) && error == []
      ensures old(EmailLocked()) ==> form.email == old(form.email)
    {
      form := SetAccountField(form, name, value);
      if error != [] {
        error := [];
      }
    }

    /** `handleSubmit`: the owner page's check, then the fields are sent together
        with the invitation token. */
    method HandleSubmit(outcome: ServiceOutcome)
      modifies this`loading, this`error, this`requests, this`location
      ensures ValidateAccount(form, ALL_REQUIRED).Some? ==>
        error == ValidateAccount(form, ALL_REQUIRED).value
        && requests == old(requests) && loading == old(loading) && location == old(location)
      ensures ValidateAccount(form, ALL_REQUIRED).None? ==>
        !loading && requests == old(requests) + [AdminRequest(form.fullName, form.email, form.password, inviteToken)]
      ensures ValidateAccount(form, ALL_REQUIRED).None? && outcome.Resolved? ==>
        error == [] && location == Some(VerifyEmailLink(form.email))
      ensures ValidateAccount(form, ALL_REQUIRED).None? && outcome.Rejected? ==>
        error == OrElse(Some(outcome.message), REGISTRATION_FAILED) && location == old(location)
    {
      error := [];
      var invalid := ValidateAccount(form, ALL_REQUIRED);
      if invalid.Some? {
        error := invalid.value;
        return;
      }
      loading := true;
      requests := requests + [AdminRequest(form.fullName, form.email, form.password, inviteToken)];
      match outcome {
        case Resolved =>
          location := Some(VerifyEmailLink(form.email));
        case Rejected(message) =>
          error := OrElse(Some(message), REGISTRATION_FAILED);
      }
      loading := false;
    }
  }
}
