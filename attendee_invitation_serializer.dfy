/** The validators of the attendee-invitation serializers: the e-mail list of a
    bulk invitation, the attendee data given on acceptance, and the token checks
    of the accept and reject requests. */
module AttendeeInvitationSerializer {
  import opened Common
  import opened Text
  import opened Store

  const MAX_BULK_INVITATIONS: nat := 100

  /** The lower-cased forms of the e-mails in `d`: the `seen` set of the loop. */
  function Lowers(d: seq<string>): set<string>
  {
    set x | x in d :: Lower(x)
  }

  /** The input with every e-mail dropped whose lower-cased form occurred earlier. */
  function Dedup(s: seq<string>): seq<string>
  {
    if s == [] then []
    else
      var d := Dedup(s[..|s| - 1]);
      if Lower(s[|s| - 1]) in Lowers(d) then d else d + [s[|s| - 1]]
  }

  /** `a` is `b` with some elements left out, the rest in their order. */
  predicate Subsequence(a: seq<string>, b: seq<string>)
    decreases |b|
  {
    a == [] || (b != [] &&
      ((a[|a| - 1] == b[|b| - 1] && Subsequence(a[..|a| - 1], b[..|b| - 1]))
       || Subsequence(a, b[..|b| - 1])))
  }

  /** `s[i]` is the first e-mail of `s` with its lower-cased form. */
  predicate FirstOfItsCase(s: seq<string>, i: nat)
    requires i < |s|
  {
    forall j :: 0 <= j < i ==> Lower(s[j]) != Lower(s[i])
  }

  /** `validate_emails`: an empty list and a list of more than 100 are refused, before
      any de-duplication; otherwise the case-insensitive duplicates are removed in a
      loop that keeps the first occurrence, in its own case, in the input's order. */
  method ValidateEmails(value: seq<string>) returns (r: Result<seq<string>>)
    ensures value == [] ==> r == Fail(Invalid("At least one email address is required."))
    ensures |value| > MAX_BULK_INVITATIONS ==>
      r == Fail(Invalid("Cannot send more than 100 invitations at once."))
    ensures 0 < |value| <= MAX_BULK_INVITATIONS ==> r == Ok(Dedup(value))
  {
    if |value| == 0 {
      return Fail(Invalid("At least one email address is required."));
    }
    if |value| > MAX_BULK_INVITATIONS {
      return Fail(Invalid("Cannot send more than 100 invitations at once."));
    }
    var unique: seq<string> := [];
    var seen: set<string> := {};
    var i := 0;
    while i < |value|
      invariant 0 <= i <= |value|
      invariant unique == Dedup(value[..i])
      invariant seen == Lowers(unique)
    {
      var email := value[i];
      var emailLower := Lower(email);
      DedupStep(value, i);
      if emailLower !in seen {
        seen := seen + {emailLower};
        LowersAppend(unique, email);
        unique := unique + [email];
      }
      i := i + 1;
    }
    assert value[..|value|] == value;
    return Ok(unique);
  }

  lemma DedupStep(s: seq<string>, i: nat)
    requires i < |s|
    ensures Dedup(s[..i + 1]) ==
      if Lower(s[i]) in Lowers(Dedup(s[..i])) then Dedup(s[..i]) else Dedup(s[..i]) + [s[i]]
  {
    assert s[..i + 1][..i] == s[..i];
  }

  lemma {:induction false} LowersAppend(d: seq<string>, x: string)
    ensures Lowers(d + [x]) == Lowers(d) + {Lower(x)}
  {
    assert (d + [x])[..|d|] == d;
  }

  /** No two e-mails of `d` are equal ignoring case. */
  predicate CaseDistinct(d: seq<string>) {
    forall i, j :: 0 <= i < j < |d| ==> Lower(d[i]) != Lower(d[j])
  }

  /** No two kept e-mails are equal ignoring case. */
  lemma {:induction false} DedupNoCaseDuplicates(s: seq<string>)
    ensures CaseDistinct(Dedup(s))
  {
    if s != [] {
      var d0 := Dedup(s[..|s| - 1]);
      DedupNoCaseDuplicates(s[..|s| - 1]);
      var x := s[|s| - 1];
      if Lower(x) !in Lowers(d0) {
        var d := d0 + [x];
        assert Dedup(s) == d;
        forall i, j | 0 <= i < j < |d| ensures Lower(d[i]) != Lower(d[j]) {
          if j == |d0| { assert d[i] in d0; assert Lower(d[i]) in Lowers(d0); }
          else { assert d[i] == d0[i] && d[j] == d0[j]; assert CaseDistinct(d0); }
        }
      } else {
        assert Dedup(s) == d0;
      }
    }
  }

  /** The kept e-mails have the same lower-cased forms as the input: every input
      e-mail has a case-insensitive match among them. */
  lemma {:induction false} DedupCovers(s: seq<string>)
    ensures Lowers(Dedup(s)) == Lowers(s)
  {
    if s != [] {
      var init := s[..|s| - 1];
      var x := s[|s| - 1];
      DedupCovers(init);
      assert s == init + [x];
      LowersAppend(init, x);
      var d0 := Dedup(init);
      if Lower(x) !in Lowers(d0) { LowersAppend(d0, x); }
    }
  }

  /** The kept e-mails appear in the input, in the input's order. */
  lemma {:induction false} DedupSubsequence(s: seq<string>)
    ensures Subsequence(Dedup(s), s)
  {
    if s != [] {
      var init := s[..|s| - 1];
      DedupSubsequence(init);
      var d0 := Dedup(init);
      if Lower(s[|s| - 1]) !in Lowers(d0) {
        var d := d0 + [s[|s| - 1]];
        assert d[..|d| - 1] == d0;
      } else {
        SubsequenceExtend(d0, init, s[|s| - 1]);
        assert init + [s[|s| - 1]] == s;
      }
    }
  }

  lemma {:induction false} SubsequenceExtend(a: seq<string>, b: seq<string>, x: string)
    requires Subsequence(a, b)
    ensures Subsequence(a, b + [x])
  {
    assert (b + [x])[..|b|] == b;
  }

  /** Every e-mail that is the first of its case in the input is kept as it was. */
  lemma {:induction false} DedupKeepsFirst(s: seq<string>, i: nat)
    requires i < |s| && FirstOfItsCase(s, i)
    ensures s[i] in Dedup(s)
  {
    var init := s[..|s| - 1];
    var d0 := Dedup(init);
    if i == |s| - 1 {
      DedupCovers(init);
    } else {
      assert FirstOfItsCase(init, i) by {
        forall j | 0 <= j < i ensures Lower(init[j]) != Lower(init[i]) { assert init[j] == s[j]; }
      }
      DedupKeepsFirst(init, i);
    }
  }

  /** Dropped or kept, every kept e-mail was in the input. */
  lemma {:induction false} DedupFromInput(s: seq<string>)
    ensures forall x :: x in Dedup(s) ==> x in s
  {
    if s != [] {
      DedupFromInput(s[..|s| - 1]);
      forall x | x in Dedup(s) ensures x in s {
        if x in Dedup(s[..|s| - 1]) { assert x in s[..|s| - 1]; }
      }
    }
  }

  /** `validate_full_name`: the stripped name must have at least two characters;
      the stripped name is what is stored. */
  function ValidateFullName(value: string): (r: Result<string>)
    ensures r.Fail? <==> |Strip(value)| < 2
    ensures r.Fail? ==> r == Fail(Invalid("Full name must be at least 2 characters long."))
    ensures r.Ok? ==> r.value == Strip(value) && 2 <= |r.value| <= |value|
  {
    if value == [] || |Strip(value)| < 2 then Fail(Invalid("Full name must be at least 2 characters long."))
    else Ok(Strip(value))
  }

  /** Validating an accepted name again accepts it unchanged. */
  lemma FullNameIdempotent(value: string)
    requires ValidateFullName(value).Ok?
    ensures ValidateFullName(ValidateFullName(value).value) == ValidateFullName(value)
  {
    StripIdempotent(value);
  }

  /** `validate_phone`: a blank phone passes as it is; any other must keep at least
      ten characters once stripped, and is stored stripped. */
  function ValidatePhone(value: string): (r: Result<string>)
    ensures value == [] ==> r == Ok(value)
    ensures value != [] ==> (r.Fail? <==> |Strip(value)| < 10)
    ensures r.Fail? ==> r == Fail(Invalid("Please provide a valid phone number."))
    ensures value != [] && r.Ok? ==> r.value == Strip(value) && |r.value| >= 10
  {
    if value != [] && |Strip(value)| < 10 then Fail(Invalid("Please provide a valid phone number."))
    else if value != [] then Ok(Strip(value))
    else Ok(value)
  }

  /** Validating an accepted phone again accepts it unchanged. */
  lemma PhoneIdempotent(value: string)
    requires ValidatePhone(value).Ok?
    ensures ValidatePhone(ValidatePhone(value).value) == ValidatePhone(value)
  {
    if value != [] { StripIdempotent(value); }
  }

  function ByToken(invs: seq<AttendeeInvitation>, token: nat): (r: Option<nat>)
    ensures r.Some? ==> r.value < |invs| && invs[r.value].token == token
    ensures r.None? ==> forall k :: 0 <= k < |invs| ==> invs[k].token != token
  {
    FirstIndex(invs, (v: AttendeeInvitation) => v.token == token)
  }

  /** `AcceptAttendeeInvitationSerializer.validate_token`: an unknown token, then,
      when the invitation cannot be accepted, a non-pending status, an expiry, or
      neither, each with its own message; otherwise the token passes. */
  function ValidateAcceptToken(invs: seq<AttendeeInvitation>, token: nat, o: Oracle, now: int): (r: Result<nat>)
    ensures ByToken(invs, token).None? ==> r == Fail(Invalid("Invalid invitation token."))
    ensures r.Ok? <==> ByToken(invs, token).Some? && o.invCanAccept(invs[ByToken(invs, token).value], now)
    ensures r.Ok? ==> r.value == token
    ensures ByToken(invs, token).Some? ==>
      var v := invs[ByToken(invs, token).value];
      (!o.invCanAccept(v, now) && v.status != InvPending ==>
         r == Fail(Invalid("Invitation has already been " + StatusText(v.status) + ".")))
      && (!o.invCanAccept(v, now) && v.status == InvPending && o.invExpired(v, now)
         ==> r == Fail(Invalid("Invitation has expired.")))
      && (!o.invCanAccept(v, now) && v.status == InvPending && !o.invExpired(v, now)
         ==> r == Fail(Invalid("Invitation cannot be accepted at this time.")))
  {
    match ByToken(invs, token)
    case None => Fail(Invalid("Invalid invitation token."))
    case Some(k) =>
      var v := invs[k];
      if !o.invCanAccept(v, now) then
        if v.status != InvPending then Fail(Invalid("Invitation has already been " + StatusText(v.status) + "."))
        else if o.invExpired(v, now) then Fail(Invalid("Invitation has expired."))
        else Fail(Invalid("Invitation cannot be accepted at this time."))
      else Ok(token)
  }

  /** `RejectAttendeeInvitationSerializer.validate_token`: unknown, then not pending,
      then expired, in that order; only a pending unexpired invitation passes. */
  function ValidateRejectToken(invs: seq<AttendeeInvitation>, token: nat, o: Oracle, now: int): (r: Result<nat>)
    ensures ByToken(invs, token).None? ==> r == Fail(Invalid("Invalid invitation token."))
    ensures r.Ok? <==>
      (ByToken(invs, token).Some?
       && invs[ByToken(invs, token).value].status == InvPending
       && !o.invExpired(invs[ByToken(invs, token).value], now))
    ensures ByToken(invs, token).Some? ==>
      var v := invs[ByToken(invs, token).value];
      (v.status != InvPending ==> r == Fail(Invalid("Invitation has already been " + StatusText(v.status) + ".")))
      && (v.status == InvPending && o.invExpired(v, now) ==> r == Fail(Invalid("Invitation has expired.")))
  {
    match ByToken(invs, token)
    case None => Fail(Invalid("Invalid invitation token."))
    case Some(k) =>
      var v := invs[k];
      if v.status != InvPending then Fail(Invalid("Invitation has already been " + StatusText(v.status) + "."))
      else if o.invExpired(v, now) then Fail(Invalid("Invitation has expired."))
      else Ok(token)
  }
}
