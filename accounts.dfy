/**
 * The account record kept by the user table, the outcomes the
 * authentication views report, and the collaborators whose internals are
 * not part of this model: the token generator, the password hasher and
 * the admin-creating manager method.
 */
module Accounts {

  datatype Option<+T> = None | Some(value: T)

  /** One row of the user table. The store keys it by its email address. */
  datatype User = User(
    username: string,
    isActive: bool,
    passwordHash: string,
    isChangedPassword: bool,
    isSuperuser: bool,
    isStaff: bool)

  /** The user table: email address to record. */
  type Store = map<string, User>

  /**
   * The default token generator, kept abstract: any function of the
   * account's email address and its current record.
   */
  type TokenGenerator = (string, User) -> string

  /** The password hasher behind set_password and check_password. */
  type Hasher = string -> string

  /** The fields of the manager's admin-registration request that the views use. */
  datatype AdminForm = AdminForm(username: string, emailAddress: string)

  /** create_admin, kept abstract: the record it stores for a form and a raw password. */
  type AdminFactory = (AdminForm, string) -> User

  /** check_token: the presented token is the one minted from the current record. */
  predicate CheckToken(gen: TokenGenerator, email: string, user: User, token: string)
  {
    token == gen(email, user)
  }

  /** check_password: the raw password hashes to the stored hash. */
  predicate CheckPassword(hash: Hasher, raw: string, user: User)
  {
    hash(raw) == user.passwordHash
  }

  /**
   * What a view reports: the `detail` of its response (with the `data`
   * that goes with it) and, through Status, its HTTP status code.
   */
  datatype Outcome =
    | ServerError                  // an exception the view does not catch
    | InvalidRequest               // serializer errors
    | UserWithLinkNotFound         // "User with link does not exist"
    | LinkInvalid                  // "link invalid"
    | EmailAlreadyVerified         // "email already verified"
    | EmailVerified                // "email verified successful"
    | WrongOldPassword             // "Password change unsuccessful"
    | PasswordChanged(username: string, emailAddress: string, isAdmin: bool, isSuperuser: bool)
    | UserWithEmailNotFound        // "User with email does not exist"
    | ResetEmailSent               // "reset email sent"
    | LinkVerified(emailAddress: string)
    | UserNotFound                 // "user not found"
    | PasswordResetSuccessful      // "Password reset successful"
    | PermissionDenied             // refused by the view's permission classes
    | AdminRegistered(username: string, emailAddress: string, password: string)
  {
    function Status(): nat
    {
      match this
      case ServerError => 500
      case InvalidRequest => 400
      case UserWithLinkNotFound => 200
      case LinkInvalid => 200
      case EmailAlreadyVerified => 403
      case EmailVerified => 200
      case WrongOldPassword => 400
      case PasswordChanged(_, _, _, _) => 200
      case UserWithEmailNotFound => 404
      case ResetEmailSent => 200
      case LinkVerified(_) => 200
      case UserNotFound => 404
      case PasswordResetSuccessful => 200
      case PermissionDenied => 403
      case AdminRegistered(_, _, _) => 201
    }
  }

  /** The result of a view that may change the user table. */
  datatype Step = Step(outcome: Outcome, store: Store)

  /**
   * No account appears or disappears, and no account's identity or role
   * changes: what every view except admin registration keeps.
   */
  ghost predicate SameAccounts(s: Store, s': Store)
  {
    && s'.Keys == s.Keys
    && forall e :: e in s ==>
         && s'[e].username == s[e].username
         && s'[e].isSuperuser == s[e].isSuperuser
         && s'[e].isStaff == s[e].isStaff
  }
}
