/**
 * The decisions each authentication view takes, as functions of the user
 * table and the request. A view that changes the table returns the new
 * table in a Step; the read-only ones return only what they report.
 * Views.UserStore carries out the same decisions step by step on its
 * mutable table.
 */
module Transitions {
  import opened Accounts

  /** The link names a known account and carries a token. */
  predicate LinkPresented(s: Store, iam: Option<string>, def: Option<string>)
  {
    iam.Some? && iam.value in s && def.Some?
  }

  /** The link names a known account and its token checks against that account. */
  predicate LinkValid(s: Store, gen: TokenGenerator, iam: Option<string>, def: Option<string>)
  {
    LinkPresented(s, iam, def) && CheckToken(gen, iam.value, s[iam.value], def.value)
  }

  /**
   * IsSuperUser.has_permission: an anonymous request is refused; a user is
   * admitted exactly when it is a superuser, whatever its staff flag.
   */
  function HasSuperuserPermission(requester: Option<User>): (granted: bool)
    ensures requester.None? ==> !granted
    ensures requester.Some? ==> (granted <==> requester.value.isSuperuser)
  {
    requester.Some? && requester.value.isSuperuser
  }

  /**
   * EmailVerification.get with query parameters `iam` (the email address)
   * and `def` (the token). Only a valid link for an inactive account
   * changes the table, and then only that account's active flag.
   */
  function VerifyEmail(s: Store, gen: TokenGenerator, iam: Option<string>, def: Option<string>): (res: Step)
    ensures res.outcome == ServerError <==> iam.None? || (iam.value in s && def.None?)
    ensures res.outcome == UserWithLinkNotFound <==> iam.Some? && iam.value !in s
    ensures res.outcome == LinkInvalid <==>
      LinkPresented(s, iam, def) && !CheckToken(gen, iam.value, s[iam.value], def.value)
    ensures res.outcome == EmailAlreadyVerified <==> LinkValid(s, gen, iam, def) && s[iam.value].isActive
    ensures res.outcome == EmailVerified <==> LinkValid(s, gen, iam, def) && !s[iam.value].isActive
    ensures res.outcome != EmailVerified ==> res.store == s
    ensures res.outcome == EmailVerified ==>
      res.store == s[iam.value := s[iam.value].(isActive := true)]
    ensures SameAccounts(s, res.store)
  {
    if iam.None? then Step(ServerError, s)
    else if iam.value !in s then Step(UserWithLinkNotFound, s)
    else if def.None? then Step(ServerError, s)
    else
      var user := s[iam.value];
      if !CheckToken(gen, iam.value, user, def.value) then Step(LinkInvalid, s)
      else if user.isActive then Step(EmailAlreadyVerified, s)
      else Step(EmailVerified, s[iam.value := user.(isActive := true)])
  }

  /**
   * ChangePassword.patch for the authenticated account `requester`. The
   * old password gates the change; a successful change replaces the hash
   * and sets the changed-password flag, and touches nothing else.
   */
  function ChangePassword(s: Store, hash: Hasher, requester: string, valid: bool,
                          oldPassword: string, newPassword: string): (res: Step)
    ensures res.outcome == ServerError <==> requester !in s
    ensures res.outcome == InvalidRequest <==> requester in s && !valid
    ensures res.outcome == WrongOldPassword <==>
      requester in s && valid && !CheckPassword(hash, oldPassword, s[requester])
    ensures res.outcome.PasswordChanged? <==>
      requester in s && valid && CheckPassword(hash, oldPassword, s[requester])
    ensures !res.outcome.PasswordChanged? ==> res.store == s
    ensures res.outcome.PasswordChanged? ==>
      var user := s[requester];
      && res.outcome == PasswordChanged(user.username, requester, user.isStaff, user.isSuperuser)
      && res.store == s[requester := user.(passwordHash := hash(newPassword), isChangedPassword := true)]
    ensures SameAccounts(s, res.store)
  {
    if requester !in s then Step(ServerError, s)
    else
      var user := s[requester];
      if !valid then Step(InvalidRequest, s)
      else if !CheckPassword(hash, oldPassword, user) then Step(WrongOldPassword, s)
      else
        var changed := user.(passwordHash := hash(newPassword), isChangedPassword := true);
        Step(PasswordChanged(user.username, requester, user.isStaff, user.isSuperuser),
             s[requester := changed])
  }

  /** What RequestResetPasswordEmail.post reports, and the token it mails, if any. */
  datatype Mailing = Mailing(outcome: Outcome, mailedToken: Option<string>)

  /**
   * RequestResetPasswordEmail.post: never changes the table (it returns
   * none); for a known address it mails a token that checks against the
   * account as it stands.
   */
  function RequestReset(s: Store, gen: TokenGenerator, valid: bool, email: string): (m: Mailing)
    ensures m.outcome == InvalidRequest <==> !valid
    ensures m.outcome == UserWithEmailNotFound <==> valid && email !in s
    ensures m.outcome == ResetEmailSent <==> valid && email in s
    ensures m.mailedToken.Some? <==> m.outcome == ResetEmailSent
    ensures m.mailedToken.Some? ==> CheckToken(gen, email, s[email], m.mailedToken.value)
  {
    if !valid then Mailing(InvalidRequest, None)
    else if email !in s then Mailing(UserWithEmailNotFound, None)
    else Mailing(ResetEmailSent, Some(gen(email, s[email])))
  }

  /**
   * ResetPasswordLinkVerify.get: read-only; reports the account's address
   * exactly when the link is valid.
   */
  function CheckResetLink(s: Store, gen: TokenGenerator, iam: Option<string>, def: Option<string>): (o: Outcome)
    ensures o == ServerError <==> iam.None? || (iam.value in s && def.None?)
    ensures o == UserWithLinkNotFound <==> iam.Some? && iam.value !in s
    ensures o == LinkInvalid <==>
      LinkPresented(s, iam, def) && !CheckToken(gen, iam.value, s[iam.value], def.value)
    ensures o.LinkVerified? <==> LinkValid(s, gen, iam, def)
    ensures o.LinkVerified? ==> o.emailAddress == iam.value
  {
    if iam.None? then ServerError
    else if iam.value !in s then UserWithLinkNotFound
    else if def.None? then ServerError
    else if CheckToken(gen, iam.value, s[iam.value], def.value) then LinkVerified(iam.value)
    else LinkInvalid
  }

  /**
   * ResetPasswordView.post: the token gates the new password; any other
   * outcome leaves the table as it was. The changed-password flag is not
   * touched.
   */
  function ConfirmReset(s: Store, gen: TokenGenerator, hash: Hasher, valid: bool,
                        email: string, token: string, password: string): (res: Step)
    ensures res.outcome == InvalidRequest <==> !valid
    ensures res.outcome == UserNotFound <==> valid && email !in s
    ensures res.outcome == LinkInvalid <==>
      valid && email in s && !CheckToken(gen, email, s[email], token)
    ensures res.outcome == PasswordResetSuccessful <==>
      valid && email in s && CheckToken(gen, email, s[email], token)
    ensures res.outcome != PasswordResetSuccessful ==> res.store == s
    ensures res.outcome == PasswordResetSuccessful ==>
      res.store == s[email := s[email].(passwordHash := hash(password))]
    ensures SameAccounts(s, res.store)
  {
    if !valid then Step(InvalidRequest, s)
    else if email !in s then Step(UserNotFound, s)
    else
      var user := s[email];
      if CheckToken(gen, email, user, token) then
        Step(PasswordResetSuccessful, s[email := user.(passwordHash := hash(password))])
      else Step(LinkInvalid, s)
  }

  /**
   * The create_admin insert of ManagerRegisterUserView.post, once the
   * password is generated: a new address gains the factory's record and
   * every existing account is left as it was; an address already taken is
   * refused by the table's uniqueness and nothing changes.
   */
  function RegisterAdmin(s: Store, create: AdminFactory, form: AdminForm, password: string): (res: Step)
    ensures res.outcome == ServerError <==> form.emailAddress in s
    ensures res.outcome == AdminRegistered(form.username, form.emailAddress, password) <==>
      form.emailAddress !in s
    ensures res.store.Keys == s.Keys + {form.emailAddress}
    ensures forall e :: e in s ==> res.store[e] == s[e]
    ensures form.emailAddress !in s ==> res.store[form.emailAddress] == create(form, password)
  {
    if form.emailAddress in s then Step(ServerError, s)
    else
      Step(AdminRegistered(form.username, form.emailAddress, password),
           s[form.emailAddress := create(form, password)])
  }
}
