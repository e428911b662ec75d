/** `InviteTeamMemberModal`: the form an organization uses to invite a colleague by
    address and role, with a per-field error map. */
module InviteModal {
  import opened Common
  import opened EmailPattern

  const ROLE_ORG_ADMIN := "org_admin"
  const ROLE_MEMBER := "member"

  const EMAIL_REQUIRED := "Email is required"
  const INVALID_EMAIL := "Please enter a valid email address"
  const ROLE_REQUIRED := "Please select a role"

  datatype InvitationData = InvitationData(email: string, role: string, message: string)

  /** The form the modal opens with and returns to on close. */
  const BLANK := InvitationData([], ROLE_MEMBER, [])

  /** `validateForm`'s `newErrors`: an `email` entry for an empty or ill-formed
      address, a `role` entry for an empty role, and nothing else. */
  function FormErrors(f: InvitationData): (r: map<string, string>)
    ensures r.Keys <= {"email", "role"}
    ensures "email" in r <==> f.email == [] || !Test(f.email)
    ensures "email" in r ==> r["email"] == if f.email == [] then EMAIL_REQUIRED else INVALID_EMAIL
    ensures "role" in r <==> f.role == []
    ensures "role" in r ==> r["role"] == ROLE_REQUIRED
  {
    var withEmail: map<string, string> :=
      if f.email == [] then map["email" := EMAIL_REQUIRED]
      else if !Test(f.email) then map["email" := INVALID_EMAIL]
      else map[];
    if f.role == [] then withEmail["role" := ROLE_REQUIRED] else withEmail
  }

  /** The form is valid exactly when the address is filled in and matches the
      pattern and a role is chosen. */
  lemma ValidIff(f: InvitationData)
    ensures |FormErrors(f)| == 0 <==> f.email != [] && Matches(f.email) && f.role != []
  {
    TestIsPattern(f.email);
    var r := FormErrors(f);
    if |r| == 0 {
      assert "email" !in r && "role" !in r;
    } else {
      var k :| k in r;
    }
  }

  /** `handleInputChange`'s form update, by input name. */
  function SetField(f: InvitationData, name: string, value: string): (r: InvitationData)
    ensures name == "email" ==> r == f.(email := value)
    ensures name == "role" ==> r == f.(role := value)
    ensures name == "message" ==> r == f.(message := value)
    ensures name !in {"email", "role", "message"} ==> r == f
  {
    if name == "email" then f.(email := value)
    else if name == "role" then f.(role := value)
    else if name == "message" then f.(message := value)
    else f
  }

  /** The role inputs are the two radio buttons, so choosing one never leaves the
      role empty. */
  lemma RoleChoiceNeverEmpty(f: InvitationData, value: string)
    requires value in {ROLE_ORG_ADMIN, ROLE_MEMBER}
    ensures "role" !in FormErrors(SetField(f, "role", value))
  {
  }

  datatype ModalView = Hidden | Shown(form: InvitationData, errors: map<string, string>, busy: bool)

  class InviteTeamMemberModal {
    var form: InvitationData
    var isLoading: bool
    var errors: map<string, string>
    /** The calls made to the `onInvite` and `onClose` props. */
    var invited: seq<InvitationData>
    var closes: nat

    constructor()
      ensures form == BLANK && !isLoading && errors == map[] && invited == [] && closes == 0
    {
      form := BLANK;
      isLoading := false;
      errors := map[];
      invited := [];
      closes := 0;
    }

    /** The modal renders nothing unless its `isOpen` prop is set. */
    function Render(isOpen: bool): (v: ModalView)
      reads this
      ensures v == Hidden <==> !isOpen
    {
      if !isOpen then Hidden else Shown(form, errors, isLoading)
    }

    /** `handleClose`, from the cancel button, the backdrop, or a sent invitation. */
    method HandleClose()
      modifies this`form, this`errors, this`closes
      ensures form == BLANK && errors == map[] && closes == old(closes) + 1
    {
      form := BLANK;
      errors := map[];
      closes := closes + 1;
    }

    /** `handleSubmit`: the errors are replaced by the new ones; an invalid form stops
        there. Otherwise `onInvite` receives the form; when it resolves the modal
        closes, and when it rejects the form stays as it was. */
    method HandleSubmit(inviteSucceeds: bool)
      modifies this`form, this`errors, this`closes, this`isLoading, this`invited
      ensures |FormErrors(old(form))| > 0 ==>
        errors == FormErrors(old(form)) && form == old(form) && invited == old(invited)
        && closes == old(closes) && isLoading == old(isLoading)
      ensures |FormErrors(old(form))| == 0 ==> invited == old(invited) + [old(form)] && !isLoading
      ensures |FormErrors(old(form))| == 0 && inviteSucceeds ==>
        form == BLANK && errors == map[] && closes == old(closes) + 1
      ensures |FormErrors(old(form))| == 0 && !inviteSucceeds ==>
        form == old(form) && errors == map[] && closes == old(closes)
    {
      errors := FormErrors(form);
      if |errors| != 0 {
        return;
      }
      isLoading := true;
      invited := invited + [form];
      if inviteSucceeds {
        HandleClose();
      }
      isLoading := false;
    }

    /** `handleInputChange`: the field changes, and a non-empty error on that same
        field is blanked; the other errors stay. */
    method HandleInputChange(name: string, value: string)
      modifies this`form, this`errors
      ensures form == SetField(old(form), name, value)
      ensures errors.Keys == old(errors).Keys
      ensures forall k :: k in errors && k != name ==> errors[k] == old(errors)[k]
      ensures name in errors ==> errors[name] == []
    {
      form := SetField(form, name, value);
      if name in errors && errors[name] != [] {
        errors := errors[name := []];
      }
    }
  }
}
