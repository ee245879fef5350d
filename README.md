# Link-Us accounts and client session, in Dafny

This project models two parts of the Link-Us chat application:

- **The account lifecycle on the server** (`backend/src/controllers/auth.controller.js`). The user
  collection is a table of records keyed by email. Signup runs a chain of input guards and then
  inserts a record. Email verification and password reset each consume a token that is
  accepted only strictly before its expiry, and only once when requests are handled one after
  another. Login checks, in order, that the account exists, that it is
  verified, and that the password matches. Regenerating the verification link replaces the token. The
  profile update checks that a picture was sent.
- **The client's session store** (`frontend/src/store/useAuthStore.js`). It holds the signed-in
  user and the busy flags. It also holds the socket.io socket whose handshake query carries the
  user's id, and the online-user list that the server's `getOnlineUsers` broadcast replaces.

Files:

- `wrappers.dfy`: `Option`.
- `text.dfy`: the JavaScript string operations the guards use. These are the `\s` class (ECMAScript
  WhiteSpace and LineTerminator), `toLowerCase` on ASCII letters, `split` on one character, and
  `includes`.
- `signup_rules.dfy`: the signup guards.
  - `MatchesEmailRegex` is a reference definition of `/^[^\s@]+@[^\s@]+\.[^\s@]+$/`.
  - `IsEmailShape` is a split-based test, and `EmailShapeIsRegex` proves the two accept the same
    strings.
  - `CheckSignup` returns the first failing check.
- `accounts.dfy`: the `AccountStore` class. Its `users` field is a `map` from email to `User`, and
  each handler is a method.
  - The class invariant keeps emails as keys, ids distinct, and stored tokens distinct.
  - `SignupThenLoginScenario`, `VerifyOnceScenario`, `ResetOnceScenario` and `RegenerateScenario`
    call several handlers in sequence and assert what the contracts imply.
- `auth_store.dfy`: the `AuthStore` class.
  - Every action is a method whose server outcome is a parameter.
  - `View()` is a snapshot of all fields. Each method states its whole new `View()` in terms of the
    old one, using `Connect` and `Disconnect`, which describe `connectSocket` and `disconnectSocket`.

How the outside world is represented:

- The clock `Date.now()` is the parameter `now`, in milliseconds.
- `crypto.randomBytes` tokens and new record ids are parameters. A method that draws one requires
  that no record already holds it, which stands for "random 32-byte values do not collide".
- bcrypt is an ideal hash. `Bcrypt(salt, secret)` keeps its whole secret, and `compare` checks it.
- Whether the outgoing mail was delivered is the parameter `mailDelivered`.
- The cloudinary upload result is `upload` (`None` if the upload failed).
- In the store, each request's outcome is a parameter: `Success(data)` or `Failure`.
- socket.io sets `socket.connected` to true only when the server accepts the handshake. That event
  is the method `HandshakeAccepted`. A socket is `active` from its creation until it is destroyed,
  and only an active socket connects. `disconnect()` destroys it. So does the server, by
  disconnecting it or by refusing its handshake: that event is the method `ServerClosed`. A lost
  transport or a ping timeout is the method `ConnectionLost`: the socket stays active, so it may
  connect again.

Some consequences the model makes explicit:

- Signup saves the record before the mail is sent. A mail failure therefore answers 500 but keeps
  the record.
- `forgotPassword` works on unverified accounts.
- `connectSocket` guards on `connected`, not on whether a socket exists. Two calls before the first
  handshake is accepted therefore open two sockets (`ConnectTwiceBeforeHandshake`).
- `checkAuth` and `initializeAuth` drop the user on failure but never disconnect the socket. A
  socket that was already connected stays connected after a failed auth check
  (`CheckAuthFailureKeepsSocket`).
- `logout` leaves the last online list in place (`LogoutKeepsOnlineList`).
- A socket closed by `logout` never connects again (`LogoutClosesForGood`), while a dropped
  connection comes back on the same socket (`DroppedConnectionReconnects`). After the server ends a
  socket, only a new `connectSocket` opens another one (`ServerClosedNeedsNewSocket`).
- `disconnectSocket` does nothing to a socket still waiting for its handshake, so that socket may
  still connect after `logout`.

## Model

| member | source | states |
|---|---|---|
| `Text.Lower` | backend/src/controllers/auth.controller.js:33-39 | `toLowerCase` keeps the length, leaves no ASCII capital, keeps every other character, and turns each capital into the same letter in lower case |
| `Text.Split` | backend/src/controllers/auth.controller.js:33 | `split("@")` always returns at least one piece, no piece contains the separator, and the first piece is the text up to the first separator or the end |
| `Text.JoinSplit` | backend/src/controllers/auth.controller.js:33 | joining the pieces of a split with the separator gives the original string back |
| `Text.SplitAtOnly` | backend/src/controllers/auth.controller.js:33 | a string with exactly one "@" splits into the part before it and the part after it, so `split("@")[1]` is the domain |
| `Text.Contains` | backend/src/controllers/auth.controller.js:39 | `includes`: the empty string is in every string, and nothing longer than the string is in it |
| `Text.ContainsInfix` | backend/src/controllers/auth.controller.js:39 | whatever is placed between two strings is included in the result |
| `Text.ContainsSplits` | backend/src/controllers/auth.controller.js:39 | an included string splits its container into a part before it and a part after it, so with `ContainsInfix` inclusion means being an infix (both directions) |
| `SignupRules.MatchesEmailRegex` | backend/src/controllers/auth.controller.js:19-20 | reference definition of `/^[^\s@]+@[^\s@]+\.[^\s@]+$/`: three non-empty runs of characters other than whitespace and "@", joined by "@" and "." |
| `SignupRules.IsEmailShape` | backend/src/controllers/auth.controller.js:19-20 | the same test computed by splitting at "@": two pieces, a non-empty local part, and a domain with an inner "."; `EmailShapeIsRegex` relates the two |
| `SignupRules.DomainOf` | backend/src/controllers/auth.controller.js:33 | `email.split("@")[1]` holds no "@", is "" when the address has no "@", and is otherwise the text after the first "@" up to the next "@" or the end |
| `SignupRules.EmailShapeIsRegex` | backend/src/controllers/auth.controller.js:19-20 | the split-based address test accepts exactly the strings `/^[^\s@]+@[^\s@]+\.[^\s@]+$/` accepts: a non-empty local part, one "@", and a domain with a "." that is neither first nor last, with no whitespace or "@" anywhere (both directions) |
| `SignupRules.DomainOfRegex` | backend/src/controllers/auth.controller.js:33 | for an address of the form local@host.tld, `email.split("@")[1]` is exactly host.tld |
| `SignupRules.CheckSignup` | backend/src/controllers/auth.controller.js:14-41 | checks in source order and reports the first failure: a missing field; else an address failing the regular expression; else a lower-cased domain on the six-entry blocklist; else a lower-cased address containing "email"; no issue iff every check passes (each an if-and-only-if) |
| `SignupRules.UndottedDomainRefused` | backend/src/controllers/auth.controller.js:19-22 | an address whose domain has no "." is refused as malformed |
| `SignupRules.BlockedDomainRefused` | backend/src/controllers/auth.controller.js:24-36 | a well-formed address whose domain, lower-cased, is on the blocklist is refused as disposable |
| `SignupRules.MixedCaseMailinatorIsBlocked` | backend/src/controllers/auth.controller.js:24-36 | signing up as "ann@Mailinator.COM" is refused as disposable |
| `SignupRules.ForbiddenWordDecides` | backend/src/controllers/auth.controller.js:38-41 | for a well-formed address off the blocklist, the verdict is refusal exactly when the lower-cased address contains "email", and acceptance otherwise |
| `Accounts.IssueReply` | backend/src/controllers/auth.controller.js:14-41 | every guard refusal answers status 400 |
| `Accounts.HashPassword` | backend/src/controllers/auth.controller.js:49-50 | the digest remembers its salt and accepts the hashed password and no other |
| `Accounts.ComparePassword` | backend/src/controllers/auth.controller.js:139 | `bcrypt.compare` accepts a password exactly when it is the one the digest was made from |
| `Accounts.ProfileOf` | backend/src/controllers/auth.controller.js:146-151 | definition of the login reply body: the record's id, name and email, and its picture, null when the picture is empty; `Login`'s contract is stated through it |
| `Accounts.InsertKeepsWellFormed` | backend/src/controllers/auth.controller.js:58-66 | inserting a record under a new email, with a fresh id and fresh tokens, keeps emails as keys and ids and tokens distinct |
| `Accounts.AccountStore.Signup` | backend/src/controllers/auth.controller.js:10-94 | a refused input or an exactly-equal existing email leaves the table unchanged, with the matching 400 reply. Otherwise exactly one record is added. It is unverified, holds the fresh token with expiry now + 86,400,000 ms, has no reset token, and holds the hashed password. The reply is 201 if the mail went out and 500 if it did not, and the record stays either way |
| `Accounts.AccountStore.FindByVerificationToken` | backend/src/controllers/auth.controller.js:101-104 | finds the record whose verification token equals the argument with expiry strictly greater than now; it is the only record holding that token. It returns none iff no record has a live match |
| `Accounts.AccountStore.VerifyEmail` | backend/src/controllers/auth.controller.js:97-122 | succeeds iff some record has a live matching token. That record becomes verified and its token and expiry are cleared, nothing else changes, and no record still holds the token, so a second use fails. On failure: 400 and no change |
| `Accounts.AccountStore.Login` | backend/src/controllers/auth.controller.js:125-156 | unknown email: "Invalid credentials". Unverified account: "Please verify your email first", whatever the password. No password on a verified account: 500, since `bcrypt.compare` throws. Wrong password: "Invalid credentials". Succeeds iff the account exists, is verified, and a password was sent and matches, and then returns id, name, email and the picture (null when empty) |
| `Accounts.AccountStore.ForgotPassword` | backend/src/controllers/auth.controller.js:159-196 | unknown email: 400 and no change. Otherwise only that record's reset token and expiry (now + 900,000 ms) are overwritten, verified or not. The reply is 200, or 500 if the mail failed |
| `Accounts.AccountStore.FindByResetToken` | backend/src/controllers/auth.controller.js:204-207 | finds the unique record holding the reset token with expiry strictly greater than now, or none iff there is no live match |
| `Accounts.AccountStore.ResetPassword` | backend/src/controllers/auth.controller.js:199-225 | succeeds iff a record has a live matching reset token. Its password hash becomes the hash of the new password, and its reset token and expiry are cleared. `isVerified` and the verification token are untouched, and no record still holds the reset token. On failure: 400 and no change |
| `Accounts.AccountStore.RegenerateVerificationToken` | backend/src/controllers/auth.controller.js:299-348 | missing email: 400. Unknown email: 404. Already verified: 400. All three leave the table unchanged. Otherwise the new token and expiry (now + 24 h) replace the old ones, and the old token is held by no record. The reply is 200, or 500 if the mail failed |
| `Accounts.AccountStore.FindById` | backend/src/controllers/auth.controller.js:249-253 | finds the record with the given id, or none iff no record has it |
| `Accounts.AccountStore.UpdateProfile` | backend/src/controllers/auth.controller.js:239-265 | a missing picture answers 400 and changes nothing. A failed upload, or an id with no record, answers 500 and changes nothing. Otherwise only that record's picture becomes the uploaded URL |
| `Session.Connect` | frontend/src/store/useAuthStore.js:147-163 | `connectSocket` changes nothing exactly when there is no user or the socket is connected. Otherwise it stores exactly one new socket, active and not yet connected, whose handshake query carries the user's id. It changes no field but the socket and the socket counter |
| `Session.ConnectTwiceBeforeHandshake` | frontend/src/store/useAuthStore.js:149-158 | two calls before the first handshake is accepted open two sockets, both for the user |
| `Session.Disconnect` | frontend/src/store/useAuthStore.js:165-167 | afterwards no socket is connected. A connected socket is closed for good (no longer active) and stays in the store with its serial and user id. A socket that is not connected is left alone. No other field changes |
| `Session.ReconnectAfterDisconnect` | frontend/src/store/useAuthStore.js:147-167 | with a user, disconnecting and then connecting yields a fresh socket for that user |
| `Session.AuthStore.constructor` | frontend/src/store/useAuthStore.js:10-16 | no user, no socket, no online users, every busy flag false except `isCheckingAuth` |
| `Session.AuthStore.ConnectSocket` | frontend/src/store/useAuthStore.js:147-163 | the new state is `Connect` of the old one |
| `Session.AuthStore.DisconnectSocket` | frontend/src/store/useAuthStore.js:165-167 | the new state is `Disconnect` of the old one |
| `Session.AuthStore.HandshakeAccepted` | frontend/src/store/useAuthStore.js:151-156 | an active current socket becomes connected. A socket closed by `disconnect()`, or no socket, changes nothing |
| `Session.AuthStore.ConnectionLost` | frontend/src/store/useAuthStore.js:151-156 | a lost transport or ping timeout leaves the socket in the store, active and no longer connected; nothing else changes |
| `Session.AuthStore.ServerClosed` | frontend/src/store/useAuthStore.js:151-156 | a socket the server disconnects or refuses stays in the store, no longer active or connected, so it never connects again; nothing else changes |
| `Session.AuthStore.OnGetOnlineUsers` | frontend/src/store/useAuthStore.js:160-162 | the online list becomes the broadcast list wholesale; nothing else changes |
| `Session.AuthStore.InitializeAuth` | frontend/src/store/useAuthStore.js:19-52 | no cookie: the user becomes null. Cookie and a verified checked user: that user is set and `Connect` runs. Cookie with a payload that fails to decode, an unverified user, or a failed check: the cookie is removed and the user becomes null. `isCheckingAuth` is false on every path, and a remaining user is verified |
| `Session.AuthStore.CheckAuth` | frontend/src/store/useAuthStore.js:55-72 | a verified user is set and `Connect` runs. An unverified user or an error sets the user to null and leaves the cookie and socket alone. `isCheckingAuth` ends false |
| `Session.AuthStore.Signup` | frontend/src/store/useAuthStore.js:75-87 | returns `{success}` equal to the outcome. It never sets the user or touches the socket, and `isSigningUp` ends false |
| `Session.AuthStore.Login` | frontend/src/store/useAuthStore.js:90-102 | on success the reply becomes the user and `Connect` runs. On failure the user is unchanged. `isLoggingIn` ends false |
| `Session.AuthStore.Logout` | frontend/src/store/useAuthStore.js:120-129 | on success the user becomes null and then `Disconnect` runs, so no socket is connected. On failure nothing changes |
| `Session.AuthStore.UpdateProfile` | frontend/src/store/useAuthStore.js:132-144 | on success the reply becomes the user, with no verification check and no socket change. On failure the user is unchanged. `isUpdatingProfile` ends false |

## Left out

- The presence registry, the socket gateway and the message service. Their server code
  (`message.controller.js` and the socket server) is not part of this model;
  `backend/src/routes/message.routes.js` only binds routes to it.
- `logout`, `checkAuth` and `getUserToken` of the controller. They only write a cookie or echo a
  record, and `getUserToken` is a development route.
- The JSON body of `updateProfile`'s 200 reply. The model sends status 200 with an empty message.
- JWT issuance (`generateToken`) and the cookie it sets.
- The middleware that authenticates `update-profile` and `check`. It is not part of this model.
- `user.model.js` is not part of this model. Its defaults are assumed: `isVerified` false, and an
  empty profile picture. Email matching is taken as exact string equality.
- Database and hashing failures other than mail delivery. `save`, `findOne` and bcrypt are assumed
  to succeed. A missing `password` in the reset request, which would make bcrypt throw and answer
  500, is not modelled.
- Request fields are strings. Where the source tests a field for falsiness first (all of signup's
  fields, and the email of `regenerateVerificationToken`), a missing field is the empty string,
  since the test treats both alike. The tokens of `verifyEmail` and `resetPassword` are route
  parameters and are always present. `login` checks no field before using it, so there the
  password is an `Option`. Non-string bodies are not modelled.
- `Accounts.AccountStore.Login`: a request without an `email` is not modelled. The source then
  queries `{ email: undefined }`, and which record, if any, that finds depends on the database
  driver. The model looks up the empty string.
- `Accounts.AccountStore.ForgotPassword`: a request without an `email` is not modelled. The source
  has no guard for it and queries `{ email: undefined }`. If that finds a record, the record's
  reset token is overwritten and saved, and the mail to an undefined address then fails with 500.
  The model looks up the empty string, which answers 400 and changes nothing when no record has
  that email.
- `Accounts.HashPassword` and `Accounts.ComparePassword` model an ideal hash that compares the
  whole password. bcryptjs hashes only the first 72 UTF-8 bytes, so `bcrypt.compare` also accepts
  any password that shares those 72 bytes with the hashed one. UTF-8 encoding is not modelled.
  `HashPassword`'s "no other password" clause, and `ResetOnceScenario`'s conclusion that the old
  password no longer logs in, hold only for passwords that differ within their first 72 bytes.
- The server handlers are modelled as atomic: each runs its lookup, its checks and its `save` as
  one step. In the source each `await` lets other requests run in between. Two `resetPassword` or
  two `verifyEmail` requests with the same live token can both pass the lookup before either
  saves, and both answer 200; two signups with the same new email can both pass the duplicate
  check. The model's single-use tokens and unique emails hold for requests handled one after
  another.
- `Text.Lower` lowers ASCII letters only; JavaScript's `toLowerCase` is Unicode-aware. No non-ASCII
  character lowers to a single ASCII letter that occurs in "email" or in the six blocked domains, so
  the guards' verdicts do not depend on this.
- `Session.AuthStore.InitializeAuth`: whether useAuthStore.js:24-25 run without throwing
  (`JSON.parse(atob(...))` on the cookie's second dot-separated segment, then reading `userId` from
  the result, which throws when it is `null`) is the parameter `decodes`. Base64 and JSON decoding
  are not modelled, and the decoded user id is unused by the source.
- Store actions are atomic. The awaits inside them, and actions interleaving at those awaits, are
  not modelled. So `isSigningUp`, `isLoggingIn` and `isUpdatingProfile` are never seen true
  between calls.
- Sockets that the store has replaced are not kept. Their listeners still call
  `OnGetOnlineUsers`, which is modelled without regard to which socket delivered the event.
- The store's `verifyEmail` action. It stores whatever the verification endpoint returns, and that
  endpoint returns only a message, so modelling it would mean inventing a user record.
- Mail sending (`backend/src/lib/nodemailer.js`, `backend/testEmail.js`), toasts, logging, the
  standalone socket in `frontend/src/lib/socket.js`, and all pages and components. These are I/O or
  rendering.
