/**
 * The authentication views as they run: each one looks an account up in
 * the user table, branches, and updates the record in place before
 * saving it. UserStore holds the table and the collaborators it is
 * queried with; ManagerRegistration holds the character list that the
 * password generator shuffles in place between requests.
 */
module Views {
  import opened Accounts
  import opened Transitions
  import opened Passwords

  class UserStore {
    var users: Store
    const makeToken: TokenGenerator
    const hashPassword: Hasher
    const createAdmin: AdminFactory

    constructor(users: Store, makeToken: TokenGenerator, hashPassword: Hasher, createAdmin: AdminFactory)
      ensures this.users == users
      ensures this.makeToken == makeToken && this.hashPassword == hashPassword
      ensures this.createAdmin == createAdmin
    {
      this.users := users;
      this.makeToken := makeToken;
      this.hashPassword := hashPassword;
      this.createAdmin := createAdmin;
    }

    /** EmailVerification.get: activates the account named by a valid link. */
    method EmailVerificationGet(iam: Option<string>, def: Option<string>) returns (o: Outcome)
      modifies this
      ensures Step(o, users) == VerifyEmail(old(users), makeToken, iam, def)
    {
      if iam.None? {
        return ServerError;
      }
      var email := iam.value;
      if email !in users {
        return UserWithLinkNotFound;
      }
      var user := users[email];
      if def.None? {
        return ServerError;
      }
      if CheckToken(makeToken, email, user, def.value) {
        if user.isActive {
          o := EmailAlreadyVerified;
        } else {
          user := user.(isActive := true);
          users := users[email := user];
          o := EmailVerified;
        }
      } else {
        o := LinkInvalid;
      }
    }

    /** ChangePassword.patch for the authenticated account `requester`. */
    method ChangePasswordPatch(requester: string, valid: bool, oldPassword: string, newPassword: string)
      returns (o: Outcome)
      modifies this
      ensures Step(o, users) == ChangePassword(old(users), hashPassword, requester, valid, oldPassword, newPassword)
    {
      if requester !in users {
        return ServerError;
      }
      var user := users[requester];
      if !valid {
        return InvalidRequest;
      }
      if !CheckPassword(hashPassword, oldPassword, user) {
        return WrongOldPassword;
      }
      user := user.(passwordHash := hashPassword(newPassword));
      user := user.(isChangedPassword := true);
      users := users[requester := user];
      o := PasswordChanged(user.username, requester, user.isStaff, user.isSuperuser);
    }

    /**
     * RequestResetPasswordEmail.post: mints the reset token for a known
     * address and hands it to the mailer; the table is only read.
     */
    method RequestResetPasswordEmailPost(valid: bool, email: string) returns (o: Outcome, mailed: Option<string>)
      ensures Mailing(o, mailed) == RequestReset(users, makeToken, valid, email)
      ensures mailed.Some? ==> CheckResetLink(users, makeToken, Some(email), mailed) == LinkVerified(email)
    {
      if !valid {
        return InvalidRequest, None;
      }
      if email !in users {
        return UserWithEmailNotFound, None;
      }
      var user := users[email];
      var token := makeToken(email, user);
      o, mailed := ResetEmailSent, Some(token);
    }

    /** ResetPasswordView.post: sets the new password behind a valid token. */
    method ResetPasswordPost(valid: bool, email: string, token: string, password: string) returns (o: Outcome)
      modifies this
      ensures Step(o, users) == ConfirmReset(old(users), makeToken, hashPassword, valid, email, token, password)
    {
      if !valid {
        return InvalidRequest;
      }
      if email !in users {
        return UserNotFound;
      }
      var user := users[email];
      if CheckToken(makeToken, email, user, token) {
        user := user.(passwordHash := hashPassword(password));
        users := users[email := user];
        o := PasswordResetSuccessful;
      } else {
        o := LinkInvalid;
      }
    }

    /** The create_admin insert. */
    method CreateAdmin(form: AdminForm, password: string) returns (o: Outcome)
      modifies this
      ensures Step(o, users) == RegisterAdmin(old(users), createAdmin, form, password)
    {
      if form.emailAddress in users {
        return ServerError;
      }
      users := users[form.emailAddress := createAdmin(form, password)];
      o := AdminRegistered(form.username, form.emailAddress, password);
    }
  }

  /**
   * ManagerRegisterUserView: its `characters` list is shared by every
   * request and is shuffled in place each time a password is generated.
   */
  class ManagerRegistration {
    /**
     * The characters the list was built from. The only constructor sets it
     * to ALPHABET and says so; Valid() speaks of it abstractly, so that
     * the 72-character literal stays out of the multiset reasoning of
     * every later call.
     */
    ghost const alphabet: string
    var characters: array<char>

    /** The list always holds the password alphabet, in some order. */
    ghost predicate Valid()
      reads this, characters
    {
      |alphabet| > 0 && multiset(characters[..]) == multiset(alphabet)
    }

    constructor()
      ensures Valid() && fresh(characters)
      ensures alphabet == ALPHABET && characters[..] == ALPHABET
    {
      alphabet := ALPHABET;
      characters := new char[|ALPHABET|](k requires 0 <= k < |ALPHABET| => ALPHABET[k]);
      new;
      assert forall k :: 0 <= k < |ALPHABET| ==> characters[k] == ALPHABET[k];
      assert characters[..] == ALPHABET;
    }

    /**
     * generate_random_password: shuffle the shared list, pick 25
     * characters from it, shuffle the picks.
     */
    method GenerateRandomPassword(shuffleDraws: Draws, choiceDraws: Draws, mixDraws: Draws)
      returns (password: string)
      requires Valid()
      modifies characters
      ensures Valid()
      ensures characters[..] == Shuffled(old(characters[..]), shuffleDraws)
      ensures password == Shuffled(Picks(characters[..], choiceDraws, PASSWORD_LENGTH), mixDraws)
      ensures |password| == PASSWORD_LENGTH
      ensures forall k :: 0 <= k < |password| ==> password[k] in alphabet
    {
      var length := PASSWORD_LENGTH;
      Shuffle(characters, shuffleDraws);
      GeneratedPasswordShape(alphabet, characters[..], choiceDraws, mixDraws);
      var picked: seq<char> := [];
      for n := 0 to length
        invariant picked == Picks(characters[..], choiceDraws, n)
      {
        picked := picked + [characters[choiceDraws(n) % characters.Length]];
      }
      password := ShuffleList(picked, mixDraws);
    }

    /**
     * ManagerRegisterUserView.post behind its permission classes: a
     * requester that is not a superuser is refused whatever it posts; an
     * invalid form is refused before any password is generated; otherwise
     * a password is generated and the account inserted with it.
     */
    method Post(store: UserStore, requester: Option<User>, valid: bool, form: AdminForm,
                shuffleDraws: Draws, choiceDraws: Draws, mixDraws: Draws) returns (o: Outcome)
      requires Valid()
      modifies characters, store
      ensures Valid()
      ensures !HasSuperuserPermission(requester) ==>
        o == PermissionDenied && store.users == old(store.users) && characters[..] == old(characters[..])
      ensures HasSuperuserPermission(requester) && !valid ==>
        o == InvalidRequest && store.users == old(store.users) && characters[..] == old(characters[..])
      ensures HasSuperuserPermission(requester) && valid ==>
        && characters[..] == Shuffled(old(characters[..]), shuffleDraws)
        && var password := Shuffled(Picks(characters[..], choiceDraws, PASSWORD_LENGTH), mixDraws);
           Step(o, store.users) == RegisterAdmin(old(store.users), store.createAdmin, form, password)
    {
      if !HasSuperuserPermission(requester) {
        return PermissionDenied;
      }
      if !valid {
        return InvalidRequest;
      }
      var password := GenerateRandomPassword(shuffleDraws, choiceDraws, mixDraws);
      o := store.CreateAdmin(form, password);
    }
  }
}
