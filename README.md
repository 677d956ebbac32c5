# Account state machine of the authentication views

This project models the account-state machine inside the Django views of
`authentications/views.py` (a flight-management back end). The views gate
every change to a user record on one of three things: a verification or
reset token, an old-password check, or a role check.

The user table is a map from email address to a record with the fields
`is_active`, `password` (the hash), `is_changed_password`, `is_superuser`
and `is_staff`, plus the username that responses echo. Over that table
the model covers:

- email verification (`EmailVerification.get`);
- password change (`ChangePassword.patch`);
- the reset-email request (`RequestResetPasswordEmail.post`);
- the reset-link check (`ResetPasswordLinkVerify.get`);
- the reset confirmation (`ResetPasswordView.post`);
- the superuser permission (`IsSuperUser.has_permission`);
- the manager's admin registration with its one-time password generator
  (`ManagerRegisterUserView`).

Layout:

- `accounts.dfy` (module `Accounts`): the user record and the table. It
  also holds the outcomes a view reports, with their HTTP status codes.
  The collaborators stay abstract: the token generator is any function of
  an address and a record, with `check_token` as equality with it; the
  password hasher is any function, with `check_password` comparing hashes;
  `create_admin` is any function from a form and a password to a record.
- `transitions.dfy` (module `Transitions`): each view's decisions as a
  function of the table and the request. The contract of each function
  characterises every outcome ("if and only if"). It also says the table
  is unchanged on every outcome but success, and gives the exact record
  written on success.
- `views.dfy` (module `Views`): the same views as they run. The class
  `UserStore` holds the table as a mutable field. Its methods look the
  account up, update the record field by field and store it back, and
  each one is proved equal to its transition. The class
  `ManagerRegistration` holds the shared `characters` list as an array.
  That list is shuffled in place each time a password is generated.
- `passwords.dfy` (module `Passwords`): the alphabet, plus `random.shuffle`
  and `random.choice` as functions of a stream of draws. It also has the
  in-place shuffle on arrays.
- `properties.dfy` (module `Properties`): properties across several
  requests: replayed links, single use of reset tokens, and the lifecycle
  of a pending account.

Request data that the views read from outside is a parameter. That covers
the authenticated user, query parameters (`None` when absent), the
serializer's verdict (a boolean), and the random draws. A query parameter
that is absent makes `request.GET[...]` raise an exception the view does
not catch. The model reports that as `ServerError` (500). The same goes for
the lookup of the authenticated user in `ChangePassword.patch`, which sits
outside its `try`.

Status codes in the table below are those `Outcome.Status` assigns to
each outcome, as the views set them: a failed or unknown link is still
answered with 200.

The alphabet is `ascii_letters + digits + "!@#$%^&*()"`, 52 + 10 + 10 = 72
characters (authentications/views.py:307).

## Model

| member | source | states |
|---|---|---|
| `Transitions.HasSuperuserPermission` | authentications/views.py:28-30 | an anonymous requester is refused; a user is admitted exactly when `is_superuser` holds, whatever `is_staff` says |
| `Transitions.VerifyEmail` | authentications/views.py:80-114 | unknown address: "User with link does not exist" (200). Failed token check: "link invalid" (200). Valid token on an active account: "already verified" (403). Each of these leaves the table unchanged. Valid token on an inactive account: sets `is_active` and nothing else. Missing parameter: server error. Roles and accounts are never altered |
| `Transitions.ChangePassword` | authentications/views.py:132-170 | a wrong old password gives 400 with the table unchanged, and so does an invalid form. The correct old password sets the hash of the new password and `is_changed_password`, touching nothing else, and reports username, address, staff and superuser flags |
| `Transitions.RequestReset` | authentications/views.py:180-203 | read-only. Invalid form: 400. Unknown address: 404. A known address gets a token that checks against its current record |
| `Transitions.CheckResetLink` | authentications/views.py:212-235 | read-only. Reports the account's address exactly when the link names a known account and its token checks. Otherwise "link invalid" or "User with link does not exist" (both 200), or a server error when a parameter is missing |
| `Transitions.ConfirmReset` | authentications/views.py:245-274 | the password changes only when the token checks, and only its hash changes. An invalid token gives "link invalid" and an unknown address 404, both with no change |
| `Transitions.RegisterAdmin` | authentications/views.py:328-354 | a new address gains the record `create_admin` builds and every existing account is untouched; an address already present changes nothing |
| `Views.UserStore.EmailVerificationGet` | authentications/views.py:80-114 | the outcome and the new table are those of `VerifyEmail` on the old table |
| `Views.UserStore.ChangePasswordPatch` | authentications/views.py:132-170 | the outcome and the new table are those of `ChangePassword` on the old table |
| `Views.UserStore.RequestResetPasswordEmailPost` | authentications/views.py:180-203 | returns the outcome and mailed token of `RequestReset`, and the mailed token passes the reset-link check; changes nothing |
| `Views.UserStore.ResetPasswordPost` | authentications/views.py:245-274 | the outcome and the new table are those of `ConfirmReset` on the old table |
| `Views.UserStore.CreateAdmin` | authentications/views.py:328 | the outcome and the new table are those of `RegisterAdmin` on the old table |
| `Views.ManagerRegistration.constructor` | authentications/views.py:307 | the shared list holds the alphabet in its original order |
| `Views.ManagerRegistration.GenerateRandomPassword` | authentications/views.py:309-317 | the shared list becomes a shuffle of itself and stays a permutation of the alphabet. The password is a shuffle of 25 picks from it, so it has length 25 and only alphabet characters, for every draw |
| `Views.ManagerRegistration.Post` | authentications/views.py:320-358 | a requester that is not a superuser is refused (403) whatever it posts, with no change to the table or the list. An invalid form is refused before any password is generated. Otherwise the generated password is inserted as `RegisterAdmin` says |
| `Passwords.Shuffled` | authentications/views.py:312 | `random.shuffle` yields a permutation of its input, of the same length |
| `Passwords.ShuffleDownPermutes` | authentications/views.py:312 | every step of the shuffle's swap loop keeps the multiset of elements |
| `Passwords.Shuffle` | authentications/views.py:312 | the in-place shuffle leaves the array holding `Shuffled` of its old contents |
| `Passwords.ShuffleList` | authentications/views.py:316-317 | shuffling the list of picks and joining it gives `Shuffled` of the picks |
| `Passwords.Picks` | authentications/views.py:313-315 | the loop of `random.choice` calls yields exactly the requested number of characters, each one from the list |
| `Passwords.GeneratedPasswordShape` | authentications/views.py:307-317 | whatever the draws, a password built from a permutation of the alphabet has length 25 and only alphabet characters |
| `Properties.VerificationIsIdempotent` | authentications/views.py:85-104 | a second verification with the same link changes nothing and never reports success |
| `Properties.FreshTokenVerifiesOnce` | authentications/views.py:85-104 | a freshly minted token activates a pending account once; used again it is rejected, as "already verified" when activation leaves the token unchanged |
| `Properties.ResetTokenIsSingleUse` | authentications/views.py:253-265 | when the generator binds the password hash, a used reset token is then refused by the link check and by a second confirmation, which changes nothing |
| `Properties.LinkCheckAgreesWithConfirm` | authentications/views.py:217-230 | the reset-link check accepts exactly the links with which a confirmation would set the password |
| `Properties.MailedTokenResetsPassword` | authentications/views.py:185-194 | the token a reset request mails opens the link check and sets the new password, which then authenticates |
| `Properties.ChangedPasswordAuthenticates` | authentications/views.py:146-148 | after a change the new password authenticates and the flag is set; the old one authenticates only if it hashes like the new one |
| `Properties.FailedChangeKeepsCredentials` | authentications/views.py:137-145 | a failed change (400) keeps the hash and `is_changed_password` |
| `Properties.PendingAccountLifecycle` | authentications/views.py:80-270 | a pending account is verified once and then answered "already verified" (403). A reset request mails a token. A wrong token is refused with no change. The mailed token sets the new password, after which the old one no longer authenticates |

## Left out

- `UserRegistration.post`, `UserLogin` and `UserDetails`: registration's `create_user` is a manager method that is not part of this model. Login is the JWT library's view. The details view only reads a serializer.
- Outbound mail (`send_mail`) and the links built from environment variables: the model returns the mailed token instead.
- The response envelope: only an outcome (the `detail`, with its `data`) and the status code are modelled. The `status` strings, including their misspellings, are not.
- Serializer validation rules: the serializer's verdict is a boolean input. The `except KeyError` of `ChangePassword.patch` is not modelled, because `serializer.data.get` never raises it.
- Token internals (HMAC, timestamps, expiry, the fields hashed): the generator is an arbitrary function of address and record, so nothing time-dependent is captured.
- Properties.ResetTokenIsSingleUse: proved only for generators that give a different token once the password hash changes. The code itself does not ensure single use.
- Password hashing is a deterministic function of the raw password. Salts and the hash upgrade that `check_password` may perform are not modelled.
- Randomness: draws are arbitrary naturals, and a draw modulo n stands for `randbelow(n)`. The quality of `random` is not modelled.
- `create_admin` is an abstract function. An address already in the table is assumed to be refused by the table's uniqueness constraint, reported as a server error.
- Permission refusal in `ManagerRegisterUserView` is one outcome (403). Whether an anonymous request gets 401 instead depends on authentication settings that are not part of this model.
- Concurrency between requests, and the ORM's `save()` beyond replacing the record in the table.
