/** The verify-email page: it reads the address from its URL, takes a six-digit
    code, counts five minutes down, and lets the code be sent again once the
    first minute has passed. */
module VerifyEmail {
  import opened Common
  import opened Text
  import opened Url
  import opened Frontend

  const CODE_LIFETIME: nat := 300
  const RESEND_AFTER: nat := 240
  const CODE_LENGTH: nat := 6

  const VERIFY_PATH := "/auth/verify-email"
  const LOGIN_VERIFIED := "/auth/login?verified=true"
  const VERIFIED := "Email verified successfully! Redirecting to login..."
  const VERIFICATION_FAILED := "Verification failed"
  const CODE_SENT := "Verification code sent! Please check your email."
  const RESEND_FAILED := "Failed to resend code"

  /** The address the registration pages send a new account to. */
  function VerifyEmailLink(email: string): string {
    VERIFY_PATH + "?email=" + EncodeURIComponent(email)
  }

  /** `searchParams.get('email') || ''`. */
  function EmailParam(query: string): string {
    OrElse(SearchParam(query, "email"), [])
  }

  /** The link is the page's path, a `?`, and the one `email=` parameter. */
  lemma LinkShape(email: string)
    ensures VerifyEmailLink(email) == VERIFY_PATH + "?" + "email" + "=" + EncodeURIComponent(email)
  {
    assert "?email=" == "?" + "email" + "=";
  }

  /** The path holds no `?` and the parameter name is unreserved. */
  lemma LinkLiterals()
    ensures '?' !in VERIFY_PATH
    ensures forall i :: 0 <= i < |"email"| ==> Unreserved("email"[i])
  {
  }

  /** The page a registration sends the user to shows the address that registered,
      whatever characters it holds. */
  lemma LinkCarriesEmail(email: string)
    ensures EmailParam(QueryOf(VerifyEmailLink(email))) == email
  {
    LinkShape(email);
    LinkLiterals();
    LinkRoundTrip(VERIFY_PATH, "email", email);
  }

  /** `formatTime`: whole minutes, a colon, and the seconds left over on two digits. */
  function FormatTime(seconds: nat): (r: string)
    ensures |r| >= 4 && r[|r| - 3] == ':'
  {
    NatToString(seconds / 60) + ":" + PadTwo(seconds % 60)
  }

  /** The seconds that minutes `mins` and seconds `secs` stand for, when both are
      digits and the seconds are two, under 60. */
  function ClockValue(mins: string, secs: string): Option<nat> {
    if mins != [] && AllDigits(mins) && |secs| == 2 && AllDigits(secs) && DigitsValue(secs) < 60
    then Some(DigitsValue(mins) * 60 + DigitsValue(secs))
    else None
  }

  /** Reading a clock `m:ss` back as seconds. */
  function ReadClock(t: string): (r: Option<nat>)
    ensures r.Some? ==> |t| >= 4 && t[|t| - 3] == ':'
  {
    var i := IndexOf(t, ':');
    if i == |t| then None else ClockValue(t[..i], t[i + 1..])
  }

  lemma PadTwoValue(n: nat)
    requires n < 100
    ensures AllDigits(PadTwo(n)) && DigitsValue(PadTwo(n)) == n
  {
    var s := PadTwo(n);
    var d1 := DigitChar(n / 10);
    assert s[..1] == [d1] && [d1][..0] == [];
    assert DigitsValue([d1]) == n / 10;
  }

  /** The first colon after a run of digits is the one that follows it. */
  lemma ClockSplit(m: string, s: string)
    requires AllDigits(m)
    ensures var t := m + ":" + s; IndexOf(t, ':') == |m| && t[..|m|] == m && t[|m| + 1..] == s
  {
    var t := m + ":" + s;
    assert forall k :: 0 <= k < |m| ==> t[k] == m[k] && t[k] != ':';
    assert t[|m|] == ':';
  }

  /** A clock after a run of digits reads by its two halves. */
  lemma ReadClockSplit(m: string, s: string)
    requires AllDigits(m)
    ensures ReadClock(m + ":" + s) == ClockValue(m, s)
  {
    ClockSplit(m, s);
    var t := m + ":" + s;
    assert ReadClock(t) == ClockValue(t[..|m|], t[|m| + 1..]);
  }

  /** Minutes and seconds under 60 written as a clock read back as their total. */
  lemma ClockOfParts(mins: nat, secs: nat)
    requires secs < 60
    ensures ReadClock(NatToString(mins) + ":" + PadTwo(secs)) == Some(mins * 60 + secs)
  {
    DigitsOfNatToString(mins);
    PadTwoValue(secs);
    ReadClockSplit(NatToString(mins), PadTwo(secs));
  }

  /** The clock the page shows reads back as the seconds it was made from. */
  lemma FormatTimeReadsBack(seconds: nat)
    ensures ReadClock(FormatTime(seconds)) == Some(seconds)
  {
    ClockOfParts(seconds / 60, seconds % 60);
  }

  /** The digits of `s`, in order: `replace(/\D/g, '')`. */
  function Digits(s: string): (r: string)
    ensures AllDigits(r) && |r| <= |s|
  {
    if s == [] then [] else (if IsDigit(s[0]) then [s[0]] else []) + Digits(s[1..])
  }

  lemma {:induction false} DigitsAppend(a: string, b: string)
    ensures Digits(a + b) == Digits(a) + Digits(b)
  {
    if a != [] {
      assert (a + b)[1..] == a[1..] + b;
      DigitsAppend(a[1..], b);
    } else {
      assert a + b == b;
    }
  }

  lemma {:induction false} DigitsOfDigits(s: string)
    requires AllDigits(s)
    ensures Digits(s) == s
  {
    if s != [] {
      DigitsOfDigits(s[1..]);
    }
  }

  /** The code field's `onChange`: the digits typed, cut to the first six. */
  function SanitizeCode(input: string): (r: string)
    ensures AllDigits(r) && |r| <= CODE_LENGTH
    ensures IsPrefix(r, Digits(input))
    ensures |r| == if |Digits(input)| < CODE_LENGTH then |Digits(input)| else CODE_LENGTH
  {
    var d := Digits(input);
    if |d| <= CODE_LENGTH then d else d[..CODE_LENGTH]
  }

  /** A sanitised code passes through the filter unchanged. */
  lemma SanitizeIdempotent(input: string)
    ensures SanitizeCode(SanitizeCode(input)) == SanitizeCode(input)
  {
    DigitsOfDigits(SanitizeCode(input));
  }

  /** Typing one more character into the field appends it only when it is a digit
      and the code is shorter than six. */
  lemma TypeOneMore(code: string, c: char)
    requires AllDigits(code) && |code| <= CODE_LENGTH
    ensures SanitizeCode(code + [c]) == if IsDigit(c) && |code| < CODE_LENGTH then code + [c] else code
  {
    DigitsAppend(code, [c]);
    DigitsOfDigits(code);
    assert Digits([c]) == (if IsDigit(c) then [c] else []) + Digits([]);
    if |code| == CODE_LENGTH {
      assert (code + [c])[..CODE_LENGTH] == code;
    }
  }

  /** The verify button is enabled only when no request runs and the code has six
      characters. */
  predicate CanVerify(loading: bool, code: string) {
    !loading && Utf16Length(code) == CODE_LENGTH
  }

  /** With no request running, a sanitised code can be submitted exactly when six
      digits were typed. */
  lemma CanVerifySanitized(input: string)
    ensures CanVerify(false, SanitizeCode(input)) <==> |Digits(input)| >= CODE_LENGTH
  {
    var r := SanitizeCode(input);
    assert forall i :: 0 <= i < |r| ==> r[i] as int < 0x10000 by {
      assert forall i :: 0 <= i < |r| ==> IsDigit(r[i]);
    }
  }

  /** The resend button is enabled once no resend runs and at most 240 seconds are
      left, that is after the first minute. */
  predicate ResendEnabled(resending: bool, timeLeft: nat) {
    !resending && timeLeft <= RESEND_AFTER
  }

  function ResendLabel(resending: bool, timeLeft: nat): string {
    if resending then "Sending..."
    else if timeLeft > RESEND_AFTER then "Resend in " + FormatTime(timeLeft - RESEND_AFTER)
    else "Resend Code"
  }

  /** The label offers a resend exactly when the button is enabled. */
  lemma ResendLabelMatchesButton(resending: bool, timeLeft: nat)
    ensures ResendLabel(resending, timeLeft) == "Resend Code" <==> ResendEnabled(resending, timeLeft)
  {
    var shown := ResendLabel(resending, timeLeft);
    if resending {
      assert shown == "Sending...";
    } else if timeLeft > RESEND_AFTER {
      assert shown == "Resend in " + FormatTime(timeLeft - RESEND_AFTER);
    }
    assert ResendEnabled(resending, timeLeft) ==> shown == "Resend Code";
    assert !ResendEnabled(resending, timeLeft) ==> |shown| != |"Resend Code"|;
  }

  /** One second of the countdown: it stops at 0. */
  function TickDown(t: nat): nat {
    if t > 0 then t - 1 else 0
  }

  function Countdown(t: nat, n: nat): nat {
    if n == 0 then t else Countdown(TickDown(t), n - 1)
  }

  /** After `n` seconds, `n` fewer are left, and never fewer than none. */
  lemma {:induction false} CountdownValue(t: nat, n: nat)
    ensures Countdown(t, n) == if n <= t then t - n else 0
  {
    if n > 0 {
      CountdownValue(TickDown(t), n - 1);
    }
  }

  /** From a fresh code, resending opens after exactly sixty seconds. */
  lemma ResendAfterOneMinute(n: nat)
    ensures ResendEnabled(false, Countdown(CODE_LIFETIME, n)) <==> n >= 60
  {
    CountdownValue(CODE_LIFETIME, n);
  }

  datatype VerifyRequest = VerifyRequest(email: string, verificationCode: string)

  class VerifyEmailPage {
    const email: string
    var verificationCode: string
    var loading: bool
    var resending: bool
    var error: string
    var success: string
    var timeLeft: nat
    /** The bodies posted to `/api/auth/verify-email` and the addresses posted to
        `/api/auth/resend-verification`. */
    var verifyRequests: seq<VerifyRequest>
    var resendRequests: seq<string>
    /** The navigation the page has scheduled. */
    var redirect: Option<string>

    /** The page opened with the query string `query`. */
    constructor(query: string)
      ensures email == EmailParam(query)
      ensures verificationCode == [] && !loading && !resending && error == [] && success == []
      ensures timeLeft == CODE_LIFETIME && verifyRequests == [] && resendRequests == [] && redirect == None
    {
      email := EmailParam(query);
      verificationCode := [];
      loading := false;
      resending := false;
      error := [];
      success := [];
      timeLeft := CODE_LIFETIME;
      verifyRequests := [];
      resendRequests := [];
      redirect := None;
    }

    /** The timer effect, one second later. */
    method Tick()
      modifies this`timeLeft
      ensures timeLeft == TickDown(old(timeLeft))
    {
      if timeLeft > 0 {
        timeLeft := timeLeft - 1;
      }
    }

    /** The code field's `onChange`. */
    method ChangeCode(input: string)
      modifies this`verificationCode, this`error
      ensures verificationCode == SanitizeCode(input) && error == []
    {
      verificationCode := SanitizeCode(input);
      if error != [] {
        error := [];
      }
    }

    /** `handleVerify`: the address and code are posted; success schedules the way
      to the login page, a refusal shows the server's message or a fallback. */
    method HandleVerify(outcome: FetchOutcome)
      modifies this`loading, this`error, this`success, this`verifyRequests, this`redirect
      ensures !loading
      ensures verifyRequests == old(verifyRequests) + [VerifyRequest(email, verificationCode)]
      ensures outcome.Responded? && outcome.ok ==>
        error == [] && success == VERIFIED && redirect == Some(LOGIN_VERIFIED)
      ensures outcome.Responded? && !outcome.ok ==>
        error == OrElse(outcome.message, VERIFICATION_FAILED) && success == old(success) && redirect == old(redirect)
      ensures outcome.Threw? ==> error == NETWORK_ERROR && success == old(success) && redirect == old(redirect)
    {
      loading := true;
      error := [];
      verifyRequests := verifyRequests + [VerifyRequest(email, verificationCode)];
      match outcome {
        case Responded(ok, message) =>
          if ok {
            success := VERIFIED;
            redirect := Some(LOGIN_VERIFIED);
          } else {
            error := OrElse(message, VERIFICATION_FAILED);
          }
        case Threw =>
          error := NETWORK_ERROR;
      }
      loading := false;
    }

    /** `handleResendCode`: on success the countdown starts again from five minutes. */
    method HandleResend(outcome: FetchOutcome)
      modifies this`resending, this`error, this`success, this`timeLeft, this`resendRequests
      ensures !resending
      ensures resendRequests == old(resendRequests) + [email]
      ensures outcome.Responded? && outcome.ok ==> error == [] && success == CODE_SENT && timeLeft == CODE_LIFETIME
      ensures outcome.Responded? && !outcome.ok ==>
        error == OrElse(outcome.message, RESEND_FAILED) && success == old(success) && timeLeft == old(timeLeft)
      ensures outcome.Threw? ==> error == NETWORK_ERROR && success == old(success) && timeLeft == old(timeLeft)
    {
      resending := true;
      error := [];
      resendRequests := resendRequests + [email];
      match outcome {
        case Responded(ok, message) =>
          if ok {
            success := CODE_SENT;
            timeLeft := CODE_LIFETIME;
          } else {
            error := OrElse(message, RESEND_FAILED);
          }
        case Threw =>
          error := NETWORK_ERROR;
      }
      resending := false;
    }

    /** The five-second timer a successful resend starts. */
    method SuccessTimeout()
      modifies this`success
      ensures success == []
    {
      success := [];
    }
  }
}
