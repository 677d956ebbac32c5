/**
 * Properties of the account state machine that span several requests:
 * replaying a verification link, the single use of a reset token, the
 * agreement of the reset-link check with the reset confirmation, and the
 * lifecycle of a pending account from verification to a reset password.
 */
module Properties {
  import opened Accounts
  import opened Transitions

  /**
   * Verifying twice with the same link never activates twice: the second
   * request changes nothing and does not report success.
   */
  lemma VerificationIsIdempotent(s: Store, gen: TokenGenerator, iam: Option<string>, def: Option<string>)
    ensures var first := VerifyEmail(s, gen, iam, def);
            var second := VerifyEmail(first.store, gen, iam, def);
            && second.store == first.store
            && second.outcome != EmailVerified
  {
  }

  /**
   * A token minted for a pending account verifies it; the same link used
   * again is rejected, as "already verified" when activation does not
   * change the token.
   */
  lemma FreshTokenVerifiesOnce(s: Store, gen: TokenGenerator, email: string)
    requires email in s && !s[email].isActive
    ensures var token := gen(email, s[email]);
            var first := VerifyEmail(s, gen, Some(email), Some(token));
            var second := VerifyEmail(first.store, gen, Some(email), Some(token));
            && first.outcome == EmailVerified
            && first.store[email].isActive
            && second.outcome != EmailVerified
            && second.store == first.store
            && (gen(email, first.store[email]) == token ==> second.outcome == EmailAlreadyVerified)
  {
  }

  /**
   * A reset token is spent by its own use: once the password is reset,
   * the same token is refused by the link check and by a second
   * confirmation, which changes nothing, provided the generator binds the
   * password hash (the new hash yields a different token).
   */
  lemma ResetTokenIsSingleUse(s: Store, gen: TokenGenerator, hash: Hasher, email: string,
                              token: string, password: string, replayPassword: string)
    requires email in s && CheckToken(gen, email, s[email], token)
    requires gen(email, s[email].(passwordHash := hash(password))) != gen(email, s[email])
    ensures var first := ConfirmReset(s, gen, hash, true, email, token, password);
            var replay := ConfirmReset(first.store, gen, hash, true, email, token, replayPassword);
            && first.outcome == PasswordResetSuccessful
            && CheckResetLink(first.store, gen, Some(email), Some(token)) == LinkInvalid
            && replay.outcome == LinkInvalid
            && replay.store == first.store
  {
  }

  /**
   * The reset-link check accepts exactly the links with which the reset
   * confirmation would set a new password.
   */
  lemma LinkCheckAgreesWithConfirm(s: Store, gen: TokenGenerator, hash: Hasher,
                                   email: string, token: string, password: string)
    ensures CheckResetLink(s, gen, Some(email), Some(token)).LinkVerified? <==>
            ConfirmReset(s, gen, hash, true, email, token, password).outcome == PasswordResetSuccessful
  {
  }

  /** The token mailed by a reset request opens the reset link and sets the password. */
  lemma MailedTokenResetsPassword(s: Store, gen: TokenGenerator, hash: Hasher, email: string, password: string)
    requires email in s
    ensures var mailing := RequestReset(s, gen, true, email);
            && mailing.mailedToken.Some?
            && CheckResetLink(s, gen, Some(email), mailing.mailedToken) == LinkVerified(email)
            && var done := ConfirmReset(s, gen, hash, true, email, mailing.mailedToken.value, password);
               && done.outcome == PasswordResetSuccessful
               && CheckPassword(hash, password, done.store[email])
  {
  }

  /**
   * After a successful password change the new password authenticates,
   * the account is marked as having changed its password, and the old
   * password no longer authenticates unless it hashes like the new one.
   */
  lemma ChangedPasswordAuthenticates(s: Store, hash: Hasher, requester: string,
                                     oldPassword: string, newPassword: string)
    requires requester in s && CheckPassword(hash, oldPassword, s[requester])
    ensures var res := ChangePassword(s, hash, requester, true, oldPassword, newPassword);
            && res.outcome.PasswordChanged?
            && CheckPassword(hash, newPassword, res.store[requester])
            && res.store[requester].isChangedPassword
            && res.store[requester].isActive == s[requester].isActive
            && (CheckPassword(hash, oldPassword, res.store[requester]) <==> hash(oldPassword) == hash(newPassword))
  {
  }

  /**
   * A failed password change, with a wrong old password or for any other
   * reason, leaves the hash and the changed-password flag as they were.
   */
  lemma FailedChangeKeepsCredentials(s: Store, hash: Hasher, requester: string, valid: bool,
                                     oldPassword: string, newPassword: string)
    requires requester in s
    requires !valid || !CheckPassword(hash, oldPassword, s[requester])
    ensures var res := ChangePassword(s, hash, requester, valid, oldPassword, newPassword);
            && (res.outcome == InvalidRequest || res.outcome == WrongOldPassword)
            && res.outcome.Status() == 400
            && res.store[requester].passwordHash == s[requester].passwordHash
            && res.store[requester].isChangedPassword == s[requester].isChangedPassword
  {
  }

  /**
   * The lifecycle of a pending account: its verification link activates
   * it once and is then answered "already verified"; a reset request
   * mails a token; a wrong token is refused without change; the mailed
   * token sets the new password, after which the old one no longer
   * authenticates. Assumed of the collaborators: activation does not
   * change the account's token, and the two passwords hash differently.
   */
  lemma PendingAccountLifecycle(s0: Store, gen: TokenGenerator, hash: Hasher, email: string,
                                oldPassword: string, newPassword: string, wrongToken: string)
    requires email in s0 && !s0[email].isActive && CheckPassword(hash, oldPassword, s0[email])
    requires gen(email, s0[email].(isActive := true)) == gen(email, s0[email])
    requires wrongToken != gen(email, s0[email])
    requires hash(newPassword) != hash(oldPassword)
    ensures var link := gen(email, s0[email]);
            var verified := VerifyEmail(s0, gen, Some(email), Some(link));
            var s1 := verified.store;
            var again := VerifyEmail(s1, gen, Some(email), Some(link));
            var mailing := RequestReset(s1, gen, true, email);
            var refused := ConfirmReset(s1, gen, hash, true, email, wrongToken, newPassword);
            && verified.outcome == EmailVerified && s1[email].isActive
            && again.outcome == EmailAlreadyVerified && again.outcome.Status() == 403 && again.store == s1
            && mailing.mailedToken == Some(link)
            && refused.outcome == LinkInvalid && refused.store == s1
            && var reset := ConfirmReset(s1, gen, hash, true, email, link, newPassword);
               && reset.outcome == PasswordResetSuccessful
               && reset.store[email].isActive
               && CheckPassword(hash, newPassword, reset.store[email])
               && !CheckPassword(hash, oldPassword, reset.store[email])
  {
  }
}
