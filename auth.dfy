/** The authentication service: log-in checks, registration with a role and an
    e-mailed verification code, the life of a verification request, and the
    password-reset requests. The clock reaches it through `TokenUtil.is_expired`,
    here the parameter `expired`; generated codes, tokens and expiry instants and
    the outcome of each mail are parameters too. */
module AuthService {
  import opened Common
  import opened Store
  import opened Users

  /** `TokenUtil.generate_expiration_time(300)` when a registration is verified by mail. */
  const REGISTRATION_CODE_LIFETIME := 5 * MINUTE

  /** `TokenUtil.generate_expiration_time(60)` when a code is sent again. */
  const RESENT_CODE_LIFETIME := MINUTE

  /** `is_authenticated`: an unknown e-mail, a wrong password and an inactive account
      each fail with their own message, in that order; only an active account whose
      password matches is returned. Password hashing is left out: the stored
      password is compared as it is. */
  function IsAuthenticated(users: seq<User>, email: string, password: string): (r: Result<User>)
    ensures UserByEmail(users, email).None? ==> r == Fail(Invalid("Invalid email or password"))
    ensures UserByEmail(users, email).Some? && users[UserByEmail(users, email).value].password != password ==>
      r == Fail(Invalid("Invalid email or password!"))
    ensures (UserByEmail(users, email).Some? && users[UserByEmail(users, email).value].password == password
             && !users[UserByEmail(users, email).value].isActive) ==>
      r == Fail(Invalid("User is not verified yet!"))
    ensures r.Ok? ==> r.value in users && r.value.email == email && r.value.password == password && r.value.isActive
    ensures (exists u :: u in users && u.email == email && u.password == password && u.isActive) && EmailsUnique(users) ==>
      r.Ok?
  {
    match UserByEmail(users, email)
    case None => Fail(Invalid("Invalid email or password"))
    case Some(k) =>
      if users[k].password != password then Fail(Invalid("Invalid email or password!"))
      else if !users[k].isActive then Fail(Invalid("User is not verified yet!"))
      else Ok(users[k])
  }

  /** No two verification requests share a token or a code (both columns are unique). */
  predicate VerifyKeysUnique(reqs: seq<VerifyRequest>) {
    forall i, j :: 0 <= i < j < |reqs| ==> reqs[i].token != reqs[j].token && reqs[i].code != reqs[j].code
  }

  /** `VerifyRegisteredUser.objects.active().filter(token=token).first()`. */
  function ActiveVerifyIndex(reqs: seq<VerifyRequest>, token: string): (r: Option<nat>)
    ensures r.Some? ==> r.value < |reqs| && reqs[r.value].active && reqs[r.value].token == token
    ensures r.None? ==> forall k :: 0 <= k < |reqs| ==> !(reqs[k].active && reqs[k].token == token)
  {
    FirstIndex(reqs, (v: VerifyRequest) => v.active && v.token == token)
  }

  /** `register_user_with_role`: a role outside `ROLE_LIST` is refused first; then,
      in one transaction, the user is created, a verification request with the
      generated token, code and expiry is stored for the user's e-mail, and the
      code is mailed. A failure at any step undoes the whole registration. */
  method RegisterUserWithRole(db: Database, fullName: string, email: string, password: string, role: string,
                              token: string, code: string, now: int, mailError: Option<string>)
    returns (r: Result<User>)
    requires db.Valid()
    modifies db`users, db`verifyRequests, db`nextId
    ensures db.Valid()
    ensures role !in ROLE_LIST ==> r == Fail(Invalid("Invalid role type."))
    ensures r.Ok? <==>
      role in ROLE_LIST && email != "" && UserByEmail(old(db.users), NormalizeEmail(email)).None?
      && mailError.None? && (forall v :: v in old(db.verifyRequests) ==> v.token != token && v.code != code)
    ensures r.Fail? ==> db.users == old(db.users) && db.verifyRequests == old(db.verifyRequests)
    ensures r.Ok? ==>
      role in ROLE_LIST && email != "" && mailError.None?
      && UserByEmail(old(db.users), NormalizeEmail(email)).None?
      && (forall v :: v in old(db.verifyRequests) ==> v.token != token && v.code != code)
      && r.value.email == NormalizeEmail(email) && r.value.role == Some(role) && !r.value.isActive
      && r.value.fullName == fullName && db.users == old(db.users) + [r.value]
      && |db.verifyRequests| == |old(db.verifyRequests)| + 1
      && db.verifyRequests == old(db.verifyRequests)
           + [VerifyRequest(db.verifyRequests[|old(db.verifyRequests)|].id, r.value.email, token, code,
                            now + REGISTRATION_CODE_LIFETIME, true)]
    ensures VerifyKeysUnique(old(db.verifyRequests)) ==> VerifyKeysUnique(db.verifyRequests)
  {
    if role !in ROLE_LIST {
      return Fail(Invalid("Invalid role type."));
    }
    var savedUsers := db.users;
    r := CreateUserWithRole(db, email, password, fullName, Some(role));
    if r.Fail? {
      return r;
    }
    var failed := VerifyUserRegistration(db, r.value.email, token, code, now, mailError);
    if failed.Some? {
      db.SetUsers(savedUsers);
      return Fail(failed.value);
    }
  }

  /** `MailService.verify_user_registration`: stores an active request for the
      e-mail with the generated token and code and a five-minute expiry, then
      mails the code; a token or code already stored breaks its unique column. */
  method VerifyUserRegistration(db: Database, email: string, token: string, code: string, now: int,
                                mailError: Option<string>)
    returns (r: Option<Err>)
    requires db.Valid()
    modifies db`verifyRequests, db`nextId
    ensures db.Valid()
    ensures r.None? <==>
      mailError.None? && forall v :: v in old(db.verifyRequests) ==> v.token != token && v.code != code
    ensures r.Some? ==> db.verifyRequests == old(db.verifyRequests)
    ensures r.None? ==>
      |db.verifyRequests| == |old(db.verifyRequests)| + 1
      && db.verifyRequests == old(db.verifyRequests)
           + [VerifyRequest(db.verifyRequests[|old(db.verifyRequests)|].id, email, token, code,
                            now + REGISTRATION_CODE_LIFETIME, true)]
    ensures VerifyKeysUnique(old(db.verifyRequests)) ==> VerifyKeysUnique(db.verifyRequests)
  {
    if exists v :: v in db.verifyRequests && (v.token == token || v.code == code) {
      return Some(Crash(INTEGRITY_ERROR));
    }
    if mailError.Some? {
      return Some(Crash(mailError.value));
    }
    var id := NewId(db);
    db.AddVerifyRequest(VerifyRequest(id, email, token, code, now + REGISTRATION_CODE_LIFETIME, true));
    return None;
  }

  /** `verify_registered_user`: no active request with the token, an expired request,
      and a wrong code each fail without any change; the right code activates the
      account of the request's e-mail and deactivates the request. */
  method VerifyRegisteredUser(db: Database, token: string, code: string, expired: int -> bool)
    returns (r: Result<User>)
    requires db.Valid()
    modifies db`users, db`verifyRequests
    ensures db.Valid()
    ensures ActiveVerifyIndex(old(db.verifyRequests), token).None? ==> r == Fail(Invalid("Token is invalid."))
    ensures r.Fail? ==> db.users == old(db.users) && db.verifyRequests == old(db.verifyRequests)
    ensures ActiveVerifyIndex(old(db.verifyRequests), token).Some? ==>
      var k := ActiveVerifyIndex(old(db.verifyRequests), token).value;
      var v := old(db.verifyRequests)[k];
      (expired(v.expiredAt) ==> r == Fail(Invalid("Token is expired.")))
      && (!expired(v.expiredAt) && v.code != code ==> r == Fail(Invalid("Verification code is invalid.")))
      && (!expired(v.expiredAt) && v.code == code && UserByEmail(old(db.users), v.email).None? ==>
            r == Fail(Crash("CustomUser matching query does not exist.")))
      && (r.Ok? <==> !expired(v.expiredAt) && v.code == code && UserByEmail(old(db.users), v.email).Some?)
      && (r.Ok? ==>
            var j := UserByEmail(old(db.users), v.email).value;
            r.value == old(db.users)[j].(isActive := true)
            && db.users == old(db.users)[j := r.value]
            && db.verifyRequests == old(db.verifyRequests)[k := v.(active := false)])
  {
    var k := ActiveVerifyIndex(db.verifyRequests, token);
    if k.None? {
      return Fail(Invalid("Token is invalid."));
    }
    var v := db.verifyRequests[k.value];
    if expired(v.expiredAt) {
      return Fail(Invalid("Token is expired."));
    }
    if v.code != code {
      return Fail(Invalid("Verification code is invalid."));
    }
    var j := UserByEmail(db.users, v.email);
    if j.None? {
      return Fail(Crash("CustomUser matching query does not exist."));
    }
    var user := db.users[j.value].(isActive := true);
    db.SetUser(j.value, user);
    db.SetVerifyRequest(k.value, v.(active := false));
    return Ok(user);
  }

  /** Once a request is deactivated its token finds no active request, since the
      token column is unique: the same token cannot verify twice. */
  lemma {:induction false} DeactivatedTokenGone(reqs: seq<VerifyRequest>, k: nat)
    requires k < |reqs| && VerifyKeysUnique(reqs)
    ensures ActiveVerifyIndex(reqs[k := reqs[k].(active := false)], reqs[k].token).None?
  {
    var after := reqs[k := reqs[k].(active := false)];
    forall i | 0 <= i < |after| ensures !(after[i].active && after[i].token == reqs[k].token) {
      if i != k {
        if i < k { assert reqs[i].token != reqs[k].token; } else { assert reqs[k].token != reqs[i].token; }
      }
    }
  }

  /** `resend_activation_token`: an unknown token fails; a request still unexpired
      is left alone; an expired one gets a new code and a fresh minute, stays
      active, and the code is mailed, which undoes the change when it fails. */
  method ResendActivationToken(db: Database, token: string, expired: int -> bool, newCode: string, now: int,
                               mailError: Option<string>)
    returns (r: Result<string>)
    requires db.Valid()
    modifies db`verifyRequests
    ensures db.Valid()
    ensures ActiveVerifyIndex(old(db.verifyRequests), token).None? ==> r == Fail(Invalid("Token is invalid."))
    ensures ActiveVerifyIndex(old(db.verifyRequests), token).Some? ==>
      var k := ActiveVerifyIndex(old(db.verifyRequests), token).value;
      var v := old(db.verifyRequests)[k];
      (!expired(v.expiredAt) ==> r == Ok("Token is still valid.") && db.verifyRequests == old(db.verifyRequests))
      && (expired(v.expiredAt) && (exists i :: 0 <= i < |old(db.verifyRequests)| && i != k && old(db.verifyRequests)[i].code == newCode) ==>
            r == Fail(Crash(INTEGRITY_ERROR)))
      && (expired(v.expiredAt) && (forall i :: 0 <= i < |old(db.verifyRequests)| && i != k ==> old(db.verifyRequests)[i].code != newCode)
          && mailError.Some? ==>
            r == Fail(Crash(mailError.value)))
      && (expired(v.expiredAt) && mailError.None? && (forall i :: 0 <= i < |old(db.verifyRequests)| && i != k ==> old(db.verifyRequests)[i].code != newCode) ==>
            r == Ok("Verification code is sent back to user.")
            && db.verifyRequests == old(db.verifyRequests)[k := v.(code := newCode, expiredAt := now + RESENT_CODE_LIFETIME)])
    ensures r.Fail? ==> db.verifyRequests == old(db.verifyRequests)
  {
    var k := ActiveVerifyIndex(db.verifyRequests, token);
    if k.None? {
      return Fail(Invalid("Token is invalid."));
    }
    var v := db.verifyRequests[k.value];
    if !expired(v.expiredAt) {
      return Ok("Token is still valid.");
    }
    if exists i :: 0 <= i < |db.verifyRequests| && i != k.value && db.verifyRequests[i].code == newCode {
      return Fail(Crash(INTEGRITY_ERROR));
    }
    if mailError.Some? {
      return Fail(Crash(mailError.value));
    }
    db.verifyRequests := db.verifyRequests[k.value := v.(code := newCode, expiredAt := now + RESENT_CODE_LIFETIME)];
    return Ok("Verification code is sent back to user.");
  }

  /** `PasswordReset.objects.active().filter(email=email).first()`. */
  function ActiveResetByEmail(resets: seq<PasswordReset>, email: string): (r: Option<nat>)
    ensures r.Some? ==> r.value < |resets| && resets[r.value].active && resets[r.value].email == email
    ensures r.None? ==> forall k :: 0 <= k < |resets| ==> !(resets[k].active && resets[k].email == email)
  {
    FirstIndex(resets, (x: PasswordReset) => x.active && x.email == email)
  }

  /** No two password reset requests share a token (the column is unique). */
  predicate ResetTokensUnique(resets: seq<PasswordReset>) {
    forall i, j :: 0 <= i < j < |resets| ==> resets[i].token != resets[j].token
  }

  /** Some row other than `skip` already holds `token`. */
  predicate ResetTokenTaken(resets: seq<PasswordReset>, skip: Option<nat>, token: string) {
    exists i :: 0 <= i < |resets| && Some(i) != skip && resets[i].token == token
  }

  /** `create_password_reset_request`: an unknown e-mail and an active unexpired
      request for it are refused. Otherwise the found request is regenerated or a
      new one created, with the given token and expiry, and the link is mailed; a
      token another row already holds breaks the unique column, and a failed mail
      undoes the write and fails with its own message. The effect of
      `PasswordService` is not part of this model: regenerating is taken to
      rewrite the token and expiry of the found row, creating to insert one. */
  method CreatePasswordResetRequest(db: Database, email: string, expired: int -> bool, newToken: string,
                                    newExpiry: int, mailFails: bool)
    returns (r: Result<string>)
    requires db.Valid()
    modifies db`passwordResets, db`nextId
    ensures db.Valid()
    ensures UserByEmail(db.users, email).None? ==> r == Fail(Invalid("User with this email does not exist."))
    ensures (UserByEmail(db.users, email).Some? && ActiveResetByEmail(old(db.passwordResets), email).Some?
             && !expired(old(db.passwordResets)[ActiveResetByEmail(old(db.passwordResets), email).value].expiredAt)) ==>
      r == Fail(Invalid("A password reset request has already been sent."))
    ensures r.Ok? <==>
      UserByEmail(db.users, email).Some?
      && (ActiveResetByEmail(old(db.passwordResets), email).None?
          || expired(old(db.passwordResets)[ActiveResetByEmail(old(db.passwordResets), email).value].expiredAt))
      && !ResetTokenTaken(old(db.passwordResets), ActiveResetByEmail(old(db.passwordResets), email), newToken)
      && !mailFails
    ensures UserByEmail(db.users, email).Some?
            && (ActiveResetByEmail(old(db.passwordResets), email).None?
                || expired(old(db.passwordResets)[ActiveResetByEmail(old(db.passwordResets), email).value].expiredAt))
            && ResetTokenTaken(old(db.passwordResets), ActiveResetByEmail(old(db.passwordResets), email), newToken) ==>
      r == Fail(Crash(INTEGRITY_ERROR))
    ensures r.Fail? ==> db.passwordResets == old(db.passwordResets)
    ensures ResetTokensUnique(old(db.passwordResets)) ==> ResetTokensUnique(db.passwordResets)
    ensures r.Ok? ==>
      r.value == newToken && UserByEmail(db.users, email).Some? && !mailFails
      && (ActiveResetByEmail(old(db.passwordResets), email).Some? ==>
            var k := ActiveResetByEmail(old(db.passwordResets), email).value;
            db.passwordResets == old(db.passwordResets)[k := old(db.passwordResets)[k].(token := newToken, expiredAt := newExpiry)])
      && (ActiveResetByEmail(old(db.passwordResets), email).None? ==>
            |db.passwordResets| == |old(db.passwordResets)| + 1
            && db.passwordResets[..|old(db.passwordResets)|] == old(db.passwordResets)
            && var x := db.passwordResets[|old(db.passwordResets)|];
               x.email == email && x.token == newToken && x.expiredAt == newExpiry && x.active)
  {
    if UserByEmail(db.users, email).None? {
      return Fail(Invalid("User with this email does not exist."));
    }
    var k := ActiveResetByEmail(db.passwordResets, email);
    if k.Some? && !expired(db.passwordResets[k.value].expiredAt) {
      return Fail(Invalid("A password reset request has already been sent."));
    }
    if ResetTokenTaken(db.passwordResets, k, newToken) {
      return Fail(Crash(INTEGRITY_ERROR));
    }
    if mailFails {
      return Fail(Invalid("Failed to send reset email. Please try again later."));
    }
    WriteReset(db, email, k, newToken, newExpiry);
    return Ok(newToken);
  }

  /** The write of `create_password_reset_request` once its checks passed: the found
      request `k` gets the new token and expiry in place, or, with none found, one
      active request is appended; a token no other row holds keeps tokens unique. */
  method WriteReset(db: Database, email: string, k: Option<nat>, newToken: string, newExpiry: int)
    requires db.Valid() && (k.Some? ==> k.value < |db.passwordResets|)
    requires !ResetTokenTaken(db.passwordResets, k, newToken)
    modifies db`passwordResets, db`nextId
    ensures db.Valid()
    ensures k.Some? ==>
      db.passwordResets == old(db.passwordResets)[k.value := old(db.passwordResets)[k.value].(token := newToken, expiredAt := newExpiry)]
    ensures k.None? ==>
      |db.passwordResets| == |old(db.passwordResets)| + 1
      && db.passwordResets[..|old(db.passwordResets)|] == old(db.passwordResets)
      && var x := db.passwordResets[|old(db.passwordResets)|];
         x.email == email && x.token == newToken && x.expiredAt == newExpiry && x.active
    ensures ResetTokensUnique(old(db.passwordResets)) ==> ResetTokensUnique(db.passwordResets)
  {
    if k.Some? {
      db.passwordResets := db.passwordResets[k.value := db.passwordResets[k.value].(token := newToken, expiredAt := newExpiry)];
    } else {
      var id := NewId(db);
      db.AddPasswordReset(PasswordReset(id, email, newToken, newExpiry, true));
      assert db.passwordResets[..|old(db.passwordResets)|] == old(db.passwordResets);
    }
  }

  /** `PasswordReset.objects.active().filter(email=email, token=token).first()`. */
  function ActiveReset(resets: seq<PasswordReset>, email: string, token: string): (r: Option<nat>)
    ensures r.Some? ==>
      r.value < |resets| && resets[r.value].active && resets[r.value].email == email && resets[r.value].token == token
    ensures r.None? ==> forall k :: 0 <= k < |resets| ==> !(resets[k].active && resets[k].email == email && resets[k].token == token)
  {
    FirstIndex(resets, (x: PasswordReset) => x.active && x.email == email && x.token == token)
  }

  /** `perform_reset_password`: only an active, unexpired request matching both the
      e-mail the token decodes to and the token itself lets the password change;
      the request is then deactivated. A failed confirmation mail undoes both. */
  method PerformResetPassword(db: Database, password: string, token: string, decode: string -> string,
                              expired: int -> bool, mailFails: bool)
    returns (r: Result<string>)
    requires db.Valid()
    modifies db`users, db`passwordResets
    ensures db.Valid()
    ensures ActiveReset(old(db.passwordResets), decode(token), token).None? ==>
      r == Fail(Invalid("Password reset request is invalid or already used."))
    ensures r.Fail? ==> db.users == old(db.users) && db.passwordResets == old(db.passwordResets)
    ensures r.Ok? <==>
      ActiveReset(old(db.passwordResets), decode(token), token).Some?
      && !expired(old(db.passwordResets)[ActiveReset(old(db.passwordResets), decode(token), token).value].expiredAt)
      && UserByEmail(old(db.users), decode(token)).Some? && !mailFails
    ensures r.Ok? ==>
      var k := ActiveReset(old(db.passwordResets), decode(token), token).value;
      var j := UserByEmail(old(db.users), decode(token)).value;
      r.value == token
      && db.users == old(db.users)[j := old(db.users)[j].(password := password)]
      && db.passwordResets == old(db.passwordResets)[k := old(db.passwordResets)[k].(active := false)]
  {
    var email := decode(token);
    var k := ActiveReset(db.passwordResets, email, token);
    if k.None? {
      return Fail(Invalid("Password reset request is invalid or already used."));
    }
    if expired(db.passwordResets[k.value].expiredAt) {
      return Fail(Invalid("Password reset request has expired."));
    }
    var j := UserByEmail(db.users, email);
    if j.None? {
      return Fail(Crash("User with the provided email does not exist."));
    }
    if mailFails {
      return Fail(Invalid("Error sending password reset success mail."));
    }
    db.SetUser(j.value, db.users[j.value].(password := password));
    db.SetPasswordReset(k.value, db.passwordResets[k.value].(active := false));
    return Ok(token);
  }

  /** A used reset request cannot be used again for the same e-mail and token. */
  lemma {:induction false} UsedResetGone(resets: seq<PasswordReset>, k: nat)
    requires k < |resets| && ResetTokensUnique(resets)
    ensures ActiveReset(resets[k := resets[k].(active := false)], resets[k].email, resets[k].token).None?
  {
    var after := resets[k := resets[k].(active := false)];
    forall i | 0 <= i < |after| ensures !(after[i].active && after[i].email == resets[k].email && after[i].token == resets[k].token) {
      if i != k {
        if i < k { assert resets[i].token != resets[k].token; } else { assert resets[k].token != resets[i].token; }
      }
    }
  }
}
