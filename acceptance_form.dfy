/** `InvitationAcceptanceForm`: the page an invited attendee lands on. It verifies the
    token from its URL, shows the invitation, and posts the attendee's details to
    accept it. */
module AcceptanceForm {
  import opened Common
  import opened Frontend

  const NO_TOKEN := "No invitation token provided"
  const INVALID_OR_EXPIRED := "Invalid or expired invitation"
  const VERIFY_FAILED := "Failed to verify invitation"
  const ACCEPT_FAILED := "Failed to accept invitation"
  const VERIFY_URL := "http://localhost:8000/api/attendee-invitations/verify/"

  /** The verification response the form reads. */
  datatype InvitationDetails = InvitationDetails(
    eventName: string, eventDate: string, eventTime: string, venueName: string,
    venueAddress: string, inviterName: string, canAccept: bool, isExpired: bool)

  datatype AttendeeData = AttendeeData(fullName: string, phone: string)

  /** A thrown value: an `Error` carries its message, anything else does not. */
  datatype Thrown = ErrorWith(message: string) | NotAnError

  /** How the awaited verification ends. */
  datatype VerifyOutcome = Verified(details: InvitationDetails) | VerifyNotOk | VerifyThrew(thrown: Thrown)

  /** How the awaited acceptance ends: an ok response, a refusal whose JSON body has a
      `message` or not, or a thrown value (a network failure or a body that is not
      JSON). */
  datatype AcceptOutcome = AcceptOk | AcceptRefused(message: Option<string>) | AcceptThrew(thrown: Thrown)

  /** `err instanceof Error ? err.message : fallback`. */
  function MessageOf(t: Thrown, fallback: string): string {
    match t
    case ErrorWith(m) => m
    case NotAnError => fallback
  }

  /** The body posted to the accept endpoint. */
  datatype AcceptRequest = AcceptRequest(token: Option<string>, attendeeData: AttendeeData)

  /** What the component renders, in the order it decides. */
  datatype FormView =
    | Verifying
    | ErrorPanel(message: string)
    | SuccessPanel(eventName: Option<string>)
    | CannotAccept
    | AcceptFormView(details: InvitationDetails)

  class InvitationAcceptanceForm {
    /** The `token` query parameter. */
    const token: Option<string>
    var invitation: Option<InvitationDetails>
    var form: AttendeeData
    var loading: bool
    var submitting: bool
    var error: string
    var success: bool
    /** The verification URLs fetched and the acceptances posted. */
    var verifyRequests: seq<string>
    var acceptRequests: seq<AcceptRequest>

    constructor(token: Option<string>)
      ensures this.token == token && invitation == None && form == AttendeeData([], [])
      ensures loading && !submitting && error == [] && !success && verifyRequests == [] && acceptRequests == []
    {
      this.token := token;
      invitation := None;
      form := AttendeeData([], []);
      loading := true;
      submitting := false;
      error := [];
      success := false;
      verifyRequests := [];
      acceptRequests := [];
    }

    /** Loading first, then a non-empty error, then success, then an invitation that
        cannot be accepted (or none), and only then the form. */
    function View(): (v: FormView)
      reads this
      ensures v == Verifying <==> loading
      ensures v.ErrorPanel? <==> !loading && error != []
      ensures v.ErrorPanel? ==> v.message == error
      ensures v.SuccessPanel? <==> !loading && error == [] && success
      ensures v == CannotAccept <==> !loading && error == [] && !success && (invitation.None? || !invitation.value.canAccept)
      ensures v.AcceptFormView? <==> !loading && error == [] && !success && invitation.Some? && invitation.value.canAccept
      ensures v.AcceptFormView? ==> v.details == invitation.value
    {
      if loading then Verifying
      else if error != [] then ErrorPanel(error)
      else if success then SuccessPanel(if invitation.Some? then Some(invitation.value.eventName) else None)
      else if invitation.None? || !invitation.value.canAccept then CannotAccept
      else AcceptFormView(invitation.value)
    }

    /** The mount effect: without a token nothing is fetched and the error says so;
        with one, the verification is fetched, and its failure sets the error. Loading
        ends either way. */
    method Mount(outcome: VerifyOutcome)
      modifies this`error, this`loading, this`invitation, this`verifyRequests
      ensures !loading
      ensures token.None? || token.value == [] ==>
        error == NO_TOKEN && verifyRequests == old(verifyRequests) && invitation == old(invitation)
      ensures token.Some? && token.value != [] ==> verifyRequests == old(verifyRequests) + [VERIFY_URL + token.value + "/"]
      ensures token.Some? && token.value != [] && outcome.Verified? ==>
        invitation == Some(outcome.details) && error == old(error)
      ensures token.Some? && token.value != [] && outcome.VerifyNotOk? ==>
        error == INVALID_OR_EXPIRED && invitation == old(invitation)
      ensures token.Some? && token.value != [] && outcome.VerifyThrew? ==>
        error == MessageOf(outcome.thrown, VERIFY_FAILED) && invitation == old(invitation)
    {
      if token.None? || token.value == [] {
        error := NO_TOKEN;
        loading := false;
        return;
      }
      verifyRequests := verifyRequests + [VERIFY_URL + token.value + "/"];
      match outcome {
        case Verified(details) =>
          invitation := Some(details);
        case VerifyNotOk =>
          error := INVALID_OR_EXPIRED;
        case VerifyThrew(thrown) =>
          error := MessageOf(thrown, VERIFY_FAILED);
      }
      loading := false;
    }

    method ChangeFullName(value: string)
      modifies this`form
      ensures form == old(form).(fullName := value)
    {
      form := form.(fullName := value);
    }

    method ChangePhone(value: string)
      modifies this`form
      ensures form == old(form).(phone := value)
    {
      form := form.(phone := value);
    }

    /** `handleSubmit`: the token and the attendee's details are posted; an ok
        response is a success, a refusal shows the server's message or the fallback,
        a thrown error its own message. Submitting ends in every case. */
    method HandleSubmit(outcome: AcceptOutcome)
      modifies this`submitting, this`error, this`success, this`acceptRequests
      ensures !submitting
      ensures acceptRequests == old(acceptRequests) + [AcceptRequest(token, form)]
      ensures outcome.AcceptOk? ==> success && error == []
      ensures outcome.AcceptRefused? ==> error == OrElse(outcome.message, ACCEPT_FAILED) && success == old(success)
      ensures outcome.AcceptThrew? ==> error == MessageOf(outcome.thrown, ACCEPT_FAILED) && success == old(success)
      ensures outcome.AcceptOk? && !loading && error == [] ==> View().SuccessPanel?
      ensures !loading && outcome.AcceptRefused? ==> View() == ErrorPanel(error)
      ensures !loading && outcome.AcceptThrew? && MessageOf(outcome.thrown, ACCEPT_FAILED) != [] ==>
        View() == ErrorPanel(error)
    {
      submitting := true;
      error := [];
      acceptRequests := acceptRequests + [AcceptRequest(token, form)];
      match outcome {
        case AcceptOk =>
          success := true;
        case AcceptRefused(message) =>
          error := OrElse(message, ACCEPT_FAILED);
        case AcceptThrew(thrown) =>
          error := MessageOf(thrown, ACCEPT_FAILED);
      }
      submitting := false;
    }
  }
}
