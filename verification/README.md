# Two-factor method store and OTP verification

A Dafny model of the second-factor core of the Updat3r dashboard: the
`TwoFactorMethodController` of a Laravel application. A user owns a
collection of two-factor methods. Each is either a time-based (TOTP,
Google2FA) secret or a YubiKey, identified by the public prefix of its
OTPs. The controller

- verifies a submitted OTP against the user's enabled methods (`verify_otp`),
  putting the id of the first method that accepts it under the session key
  `2fa_method`, or flashing the single error "This OTP is not valid.";
- enrolls a new method (`store`): a YubiKey after the remote verifier accepts
  an OTP, storing only the parsed prefix; a TOTP secret after a proof code is
  valid within a window of 8 time steps;
- renames or toggles a method (`update`) and deletes one (`destroy`).

The library primitives are oracles fixed for one request (module
`TwoFactorModel`, datatype `Oracles`):

- `totpValid(secret, code, window)` stands for Google2FA's `verifyKey` at the
  request's clock.
- `parsePrefix(otp)` stands for the prefix returned by `Yubikey::parsePasswordOTP`.
- `remoteVerify(otp, timeout, n)` stands for `Yubikey::verify`, called with the
  2-second timeout. It returns a value or throws with a message. `n` counts the
  remote calls made earlier in the same request, because the service's replay
  counter can make a second call with the same OTP answer differently.

Modules:

- `Wrappers`: `Option`.
- `TwoFactorModel`: rows, PHP's loose null and `==` on the nullable credential
  columns, the session, the messages and constants, and the oracles.
- `OtpVerification`: the pure decision of `verify_otp` and its lemmas.
- `Enrollment`: the pure outcome of `store` and its lemmas.
- `TwoFactorController`: class `TwoFactorMethodController`. Its fields are the
  persisted method collection, the session and the next primary key. Its
  methods carry out the writes of each action.

The model follows the code as written, including where its behaviour may surprise:

- A replayed OTP at YubiKey enrollment ends with the generic "Invalid OTP
  supplied. Please try again!". The replay message is flashed first and then
  overwritten.
- `store` ignores the value `Yubikey::verify` returns; only an exception
  blocks a YubiKey enrollment.
- `store` does not set `enabled`; the new row takes the table's default
  (`enabledDefault`).
- `verify_otp` makes one remote call per enabled YubiKey method whose stored
  prefix equals the OTP's prefix, not at most one.
- The decision writes the session itself. On failure `redirect()->with(...)`
  flashes `error` into the session, and `2fa_method` is left as it was.
- A time-based method is recognised by `google2fa_secret != null`, which PHP
  evaluates as false for an empty string as well as for null, so a row whose
  secret is "" is judged as a YubiKey method. A null `yubikey_otp` compares
  equal to an empty parsed prefix.

## Model

| member | source | states |
|---|---|---|
| `TwoFactorModel.IndexOf` | app/Http/Controllers/TwoFactorMethodController.php:110 | the row a route id binds to: the first position holding that primary key, or none exactly when no row has it |
| `TwoFactorModel.IsLooseNull` | app/Http/Controllers/TwoFactorMethodController.php:159 | defines PHP's loose `== null` on a credential column: true exactly for null and the empty string |
| `TwoFactorModel.LooseEquals` | app/Http/Controllers/TwoFactorMethodController.php:163 | defines PHP's loose `==` of the stored prefix and the parsed one: equal strings, or a null column and an empty parsed prefix |
| `TwoFactorModel.UsesTotp` | app/Http/Controllers/TwoFactorMethodController.php:159 | defines the dispatch test: the TOTP branch is taken exactly when the secret is present and not empty; null and "" both count as no secret |
| `TwoFactorModel.Patched` | app/Http/Controllers/TwoFactorMethodController.php:113 | an update changes only the name and enabled flag present in the data; id and credential columns stay |
| `OtpVerification.Candidates` | app/Http/Controllers/TwoFactorMethodController.php:152-155 | the candidates are exactly the user's methods with `enabled` true |
| `OtpVerification.CandidatesAppend` | app/Http/Controllers/TwoFactorMethodController.php:152-155 | the enabled methods keep collection order: those of a concatenation are those of each part, in order |
| `OtpVerification.ReachesRemote` | app/Http/Controllers/TwoFactorMethodController.php:162-163 | a TOTP method never reaches the remote verifier, nor does an OTP that does not parse; otherwise a YubiKey method reaches it exactly when its stored prefix loosely equals the parsed one |
| `OtpVerification.RemoteVerdict` | app/Http/Controllers/TwoFactorMethodController.php:164-169 | a returned value is the verdict; a remote call that throws yields false |
| `OtpVerification.Accepts` | app/Http/Controllers/TwoFactorMethodController.php:158-173 | a method with a non-null secret is judged only by TOTP with window 2; a YubiKey method is false unless the parsed prefix equals the stored one, and then is the remote verdict |
| `OtpVerification.RemoteCalls` | app/Http/Controllers/TwoFactorMethodController.php:162-166 | the filter makes at most one remote call per candidate |
| `OtpVerification.NoRemoteCalls` | app/Http/Controllers/TwoFactorMethodController.php:162-166 | the request makes no remote call exactly when no candidate's stored prefix matches the OTP's parsed prefix |
| `OtpVerification.Matching` | app/Http/Controllers/TwoFactorMethodController.php:158-173 | the kept methods are candidates, at most as many as there are candidates |
| `OtpVerification.RemoteCallsAppend` | app/Http/Controllers/TwoFactorMethodController.php:162-166 | remote calls over two consecutive parts of the collection add up |
| `OtpVerification.MatchingAppend` | app/Http/Controllers/TwoFactorMethodController.php:158-173 | the filter over a concatenation is the filter of each part, in order |
| `OtpVerification.PassesAtPrefix` | app/Http/Controllers/TwoFactorMethodController.php:158-173 | whether a method passes does not depend on the methods after it |
| `OtpVerification.MatchingSplit` | app/Http/Controllers/TwoFactorMethodController.php:158-173 | the filter result is what precedes a method, that method if it passes, and what follows |
| `OtpVerification.MatchingComplete` | app/Http/Controllers/TwoFactorMethodController.php:164-172 | every accepted candidate is kept; a failure or exception on an earlier method does not stop evaluation |
| `OtpVerification.MatchingSound` | app/Http/Controllers/TwoFactorMethodController.php:158-173 | every kept method is a candidate the filter accepts at its position |
| `OtpVerification.MatchingEmpty` | app/Http/Controllers/TwoFactorMethodController.php:175-177 | the filter result is empty exactly when no candidate is accepted |
| `OtpVerification.MatchingFirst` | app/Http/Controllers/TwoFactorMethodController.php:179 | the first kept method is the earliest accepted candidate |
| `OtpVerification.MatchingWithoutRemote` | app/Http/Controllers/TwoFactorMethodController.php:162-170 | with no prefix match the remote verifier cannot influence the filter |
| `OtpVerification.Decide` | app/Http/Controllers/TwoFactorMethodController.php:148-181 | a user with no enabled method never passes; a chosen id belongs to an enabled method of the user |
| `OtpVerification.DecideNoMatch` | app/Http/Controllers/TwoFactorMethodController.php:175-176 | verification fails exactly when no enabled method accepts the OTP |
| `OtpVerification.DecideFirstMatch` | app/Http/Controllers/TwoFactorMethodController.php:179-180 | the id chosen is that of the earliest enabled method accepting the OTP |
| `OtpVerification.DecideWithoutRemote` | app/Http/Controllers/TwoFactorMethodController.php:162-170 | when no enabled method's prefix matches, the decision is the same whatever the remote verifier would answer |
| `OtpVerification.DisabledNeverDecides` | app/Http/Controllers/TwoFactorMethodController.php:154 | a disabled method's id is never chosen |
| `OtpVerification.DisableThenNeverDecides` | app/Http/Controllers/TwoFactorMethodController.php:113 | after an update sets `enabled` to false, that method can no longer be chosen |
| `OtpVerification.RemovedNeverDecides` | app/Http/Controllers/TwoFactorMethodController.php:134 | after a delete, the deleted id can no longer be chosen |
| `Enrollment.Enroll` | app/Http/Controllers/TwoFactorMethodController.php:57-100 | an enrolled row has exactly one credential column; a rejection carries the path's generic error |
| `Enrollment.YubikeyEnrollment` | app/Http/Controllers/TwoFactorMethodController.php:61-75 | YubiKey enrollment succeeds exactly when the remote call does not throw and the OTP parses, and stores only the parsed prefix |
| `Enrollment.ReplayRejectedGenerically` | app/Http/Controllers/TwoFactorMethodController.php:76-81 | a REPLAYED_OTP exception ends in "Invalid OTP supplied. Please try again!", not the replay message |
| `Enrollment.TotpEnrollment` | app/Http/Controllers/TwoFactorMethodController.php:83-97 | TOTP enrollment succeeds exactly when the check code is valid within window 8, and stores that secret |
| `Enrollment.EnrolledTotpUsesTotp` | app/Http/Controllers/TwoFactorMethodController.php:86-90 | a row enrolled with a non-empty secret is judged as a TOTP method at login |
| `TwoFactorController.TwoFactorMethodController.VerifyOtp` | app/Http/Controllers/TwoFactorMethodController.php:148-181 | returns the decision; on a match `2fa_method` names it, otherwise only `error` is flashed and `2fa_method` is unchanged |
| `TwoFactorController.TwoFactorMethodController.Persist` | app/Http/Controllers/TwoFactorMethodController.php:67-75 | saving appends one row with a fresh primary key, flashes success and puts its id under `2fa_method` |
| `TwoFactorController.TwoFactorMethodController.Store` | app/Http/Controllers/TwoFactorMethodController.php:57-100 | success appends exactly one row and marks the session with it; failure saves nothing, leaves `2fa_method` and ends with the path's error |
| `TwoFactorController.TwoFactorMethodController.Update` | app/Http/Controllers/TwoFactorMethodController.php:110-122 | only the targeted row changes; success flashes success and puts its id under `2fa_method`; failure flashes the error |
| `TwoFactorController.TwoFactorMethodController.Destroy` | app/Http/Controllers/TwoFactorMethodController.php:132-140 | only the targeted row is removed: the result is the collection before it followed by the collection after it; `2fa_method` is never touched |

## Left out

- `index` (lines 33-48): secret generation and QR-code rendering are library code. `Store` receives the secret in its request.
- The TOTP algorithm (RFC 6238) and the clock are behind the `totpValid` oracle. Google2FA's exceptions on a malformed secret are not modelled; in `verify_otp` they would escape uncaught.
- The YubiKey validation protocol, its transport and the 2-second timeout are behind the `remoteVerify` oracle. The timeout appears only as the constant passed to it.
- PHP's loose `==` between two numeric strings is not modelled. YubiKey prefixes are modhex, which is never numeric.
- The request validation classes (`StoreTwoFactorMethodRequest`, `UpdateTwoFactorMethodRequest`, `VerifyOtpRequest`) are not part of this model. `Patch` assumes an update carries only `name` and `enabled`.
- The `auth.2fa` middleware, routing, redirects, views and the lifetime of flashed values are not modelled. A flash and a put are both modelled as session writes.
- Route-model binding is modelled as a lookup in the user's own collection; a missing id returns `found == false` with nothing changed, standing for the 404. Binding a method of another user is not modelled.
- The results of Eloquent's `update` and `delete` are parameters (`saved`, `deleted`). An exception thrown by a save is not modelled.
- TwoFactorController.TwoFactorMethodController.Persist: always appends the row. `store` ignores the result of `save()` (lines 71 and 90); a save returning false, which would still flash success and put a null id under `2fa_method`, is not modelled.
- `store` saves to the route-bound user (lines 57, 71, 90) while `verify_otp` reads the authenticated user (line 152). The model has one collection and takes the route user of `store` to be the authenticated user.
- The order of the enabled-methods query is taken to be collection order; the query has no `orderBy`.
- Encryption of stored secrets is not modelled.
- `app/Http/Controllers/ProjectController.php` and `app/Http/Controllers/UserController.php` are CRUD over the ORM and storage with no logic of their own to verify.
