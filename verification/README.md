# WorkPulse one-time-password flow in Dafny

This project models the one-time-password (OTP) flow of WorkPulse, an HR application. It has two halves.

**The server's OTP authority and its request checks** (`server/controllers/auth.js`).
- The Express process keeps three process-wide cells in `req.app.locals`:
  - `OTP`, the outstanding code;
  - `lastOTPTime`, the time of the last generation;
  - `resetSession`, the flag that gates a password reset.
- `generateOTP` refuses requests that arrive within 30 seconds of the last generation. Otherwise it commits a fresh six-digit code and its timestamp, then mails the code. The mail template depends on `reason`.
- `verifyOTP` compares the submitted code with the stored one through `parseInt(…, 10)`. On a match it consumes the code and raises the flag.
- `createResetSession` reads the flag once.
- `resetPassword` is gated on the flag.
- Around the authority sit the login, register, update-password and find-user handlers. Each is a fixed order of checks with fixed status codes, over a user collection keyed by email.

**The client's OTP screen** (`client/src/components/OTP.jsx`). This is a React component with these parts:
- a 60-second countdown, driven by `setInterval`, `Date.parse` arithmetic and two-digit zero padding;
- a send on mount and a Resend action;
- a Submit action that calls the server's verify;
- two reactive effects: one hides the countdown when the text reads `"00:00"`, and one enables Submit when six characters have been entered.

## Files
- `wrappers.dfy` (module `Wrappers`): `Option`.
- `js_numbers.dfy` (module `JsNumbers`): the JavaScript number/string conversions that both halves rely on.
  - `parseInt(s, 10)`: skips leading white space, takes an optional sign and the longest run of digits, and gives NaN (`None`) when there are no digits.
  - `String(n)` for a natural number.
- `auth_spec.dfy` (module `AuthSpec`): each `auth.js` handler as a pure function, and the lemmas about their sequences.
  - The input is the state before the request; the output is the state after it and the reply.
  - `ForgotPasswordFlow` chains generate, verify, reset and login. `ResetAfterSessionConsumed` shows that a createResetSession before resetPassword consumes the flag, and the reset then answers 440.
- `auth_app.dfy` (module `AuthApp`): class `App` holds the three cells and the user collection as fields.
  - Its methods update the fields in the handlers' own order.
  - Each method's postcondition equates the new state and reply with the `AuthSpec` function.
- `otp_client.dfy` (module `OtpClient`): the countdown arithmetic as functions, the component's state as a `Screen` record with one step function per event, and class `Otp`.
  - Each step function includes the effects that follow the event.
  - React applies the setters a handler calls together, at the next commit. So the class keeps the state hooks in one field, `screen`, which each handler replaces with the record of its updates before running the effects.
  - The class also holds the interval bookkeeping (`Ref.current` and the running intervals) and the counts of requests not yet answered.
  - The constructor `Mount` is the first commit: the initial state, then the three effects in order.
  - The methods are the handlers, the effects and the interval tick. Each is proved to produce the step function's result.

## How the environment is represented
- **Time** is integer milliseconds, passed in as `now`.
- **Dates.** `Date.parse(date)` goes through the date's string form, which keeps whole seconds only. It is therefore modelled as flooring to a whole second: the largest multiple of 1000 at or below the instant.
- **Floor and remainder.** `Math.floor` on the resulting quotients is Dafny's division. JavaScript's `%` keeps the sign of the dividend, which `JsRem` writes out.
- **Awaited calls.** A network call the component awaits is split into two steps: the handler that issues it, and a `…Settled` method that takes the outcome as a parameter. The outcome is `Resolved(status)`, or `Rejected(reply, errorMessage)`, where `reply` is `NoResponse` (no answer at all) or `Answered(message)` (an answer whose body may lack a `message`).
- **React version.** React 18 is assumed. Its automatic batching applies the setters a handler calls after an `await` together, at one commit. Under React 17 those setters would each commit at once, and the effects could run between them.
- **React effects.** After each handler, the effect on `[timer]` runs exactly when `timer` changed, and the effect on `[otp]` exactly when `otp` changed (`Commit`).
- **bcrypt, jwt and the code generator.**
  - bcrypt's comparison is a parameter `matches`.
  - The hash of a new password is a parameter `newHash`.
  - A jwt is a `Token` naming the user's key.
  - The generated code is a parameter required to be six decimal digits.
- **Errors passed to `next`.** An error thrown inside a handler is passed to Express's error handler and answered with status 500. Three such errors are modelled:
  - a failed mail delivery;
  - `bcrypt.hashSync` on an undefined password;
  - reading `.password` of a user that `findById` did not find.

## What the proofs show
Server:
- A rate-limited generation or a failed verification changes nothing.
- A code verifies once.
- The comparison is numeric: leading zeros and trailing non-digits are ignored, and two six-digit codes match exactly when they are equal.
- Over any sequence of generate, verify, create-session and reset requests, the reset session is granted (a 200 from `createResetSession` or `resetPassword`) at most once per accepted code, plus once if the flag was already up (`SessionGrantedOncePerCode`). From process start there are never more grants than accepted codes (`NoSessionWithoutCode`).
- After a reset, the admin logs in with the new password.

Client:
- The countdown fields are the clock fields of the remaining time.
- The countdown text reads back as those fields.
- After any change to `otp`, Submit is enabled exactly when six characters are entered.

The client code has a quirk that the model keeps as written:
- Each tick writes `"MM : SS seconds"`, which is fifteen characters long. At the deadline it is `"00 : 00 seconds"`.
- The hide effect, however, compares the text with `"00:00"`.
- That string appears only as the initial state. The hide effect fires once, on the initial `"00:00"`, while the countdown is not yet shown.
- `CountdownNeverHides` and the invariant `Valid()` of class `Otp` show that no later text ever equals `"00:00"`.
- `CountdownStaysShown` shows that once the countdown is shown, no sequence of events hides it again.
- So once a send has succeeded, the countdown stays on screen and the Resend action never reappears (`ResendNeverAfterSuccessfulSend`).

## Behaviour worth noting
- `createResetSession` answers 400 "Session expired" when there is no session (server/controllers/auth.js:303). `resetPassword` answers 440 in the same case (server/controllers/auth.js:308).
- `resendOtp` restarts the countdown before the request is answered (client/src/components/OTP.jsx:160-164). A 429 from the server therefore leaves the countdown running; the refusal shows only as a notification.
- The countdown view is never replaced by Resend (client/src/components/OTP.jsx:107-111 and 207-211), as described above.
- `findUserByEmail` answers 200 with `exists: false` for an unknown email (server/controllers/auth.js:354-358).
- `resetPassword` resets only admins' passwords (server/controllers/auth.js:321-325).
- A delivery failure in `generateOTP` leaves the new code and timestamp committed (server/controllers/auth.js:220-226 and 278-283).

## Model
| member | source | states |
|---|---|---|
| AuthSpec.TemplateFor | server/controllers/auth.js:277 | the reset-password template is chosen exactly when `reason` is "FORGOTPASSWORD" |
| AuthSpec.Present | server/controllers/auth.js:60-67 | a field passes the `!field` checks only when it is a non-empty string; an absent or empty field fails them |
| AuthSpec.LastOtpTimeOrZero | server/controllers/auth.js:214 | the stored generation time, or 0 when none is stored |
| AuthSpec.RateLimited | server/controllers/auth.js:214-219 | a generation is refused exactly when `now` is less than 30000 ms after the stored time, or after 0 when none is stored |
| AuthSpec.ParseField | server/controllers/auth.js:289 | an undefined or null field parses to NaN; a non-empty digit string parses to its decimal value |
| AuthSpec.CodesMatch | server/controllers/auth.js:289 | a match needs both the submitted and the stored code present; a code matches itself exactly when `parseInt` reads a number from it |
| AuthSpec.GenerateOtp | server/controllers/auth.js:211-284 | 429 exactly inside the 30000 ms window (`lastOTPTime` absent counts as 0), with the cells unchanged and no mail; otherwise code and time are committed, the mail goes to the query email with the code and the chosen template; 200 exactly when not limited and delivered; the six-digit invariant is kept |
| AuthSpec.VerifyOtp | server/controllers/auth.js:285-295 | 200 exactly when both `parseInt`s are numbers and equal; then the code is cleared and the session raised; otherwise 403 "Wrong OTP" and nothing changes; the invariant is kept |
| AuthSpec.CreateResetSession | server/controllers/auth.js:297-304 | 200 "Access granted" exactly when the flag is set, 400 "Session expired" otherwise; the flag is false afterwards |
| AuthSpec.ResetPassword | server/controllers/auth.js:306-339 | 440 with nothing changed when the flag is false; 404 for an unknown email and 403 for a non-admin, both leaving the flag set; 200 exactly when flag, admin and password are present, replacing only that email's hash and clearing the flag; no other user changes |
| AuthSpec.Login | server/controllers/auth.js:55-161 | the first failing check decides: 422 missing email, 422 missing password, 404 unknown user, 403 wrong role, 403 incorrect password; a success carries the user and a token for that email |
| AuthSpec.AdminLogin | server/controllers/auth.js:55-105 | authenticated exactly when email and password are present, the user exists, is an admin and the password matches; refusals are 403, 404 or 422 |
| AuthSpec.EmployeeLogin | server/controllers/auth.js:107-161 | authenticated exactly when the user exists, is an employee and the password matches; refusals are 403, 404 or 422 |
| AuthSpec.AdminRegister | server/controllers/auth.js:21-53 | 422 for a missing email and 409 for a taken one, with the store unchanged; success exactly for a new email with a password, adding exactly one admin under that email and issuing its token |
| AuthSpec.UpdatePassword | server/controllers/auth.js:163-195 | 422 for a missing old or new password; 403 "Incorrect password" for an existing user whose old password does not match; 200 exactly when both are present, the user exists and the old password matches, replacing only that user's hash; the key set never changes |
| AuthSpec.FindUserByEmail | server/controllers/auth.js:341-362 | `exists: true` exactly for an admin, 403 exactly for an employee, `exists: false` "User does not exist" otherwise |
| AuthSpec.VerifyAgainstCode | server/controllers/auth.js:289 | against a stored six-digit code, verification succeeds exactly when the submission parses to the code's decimal value |
| AuthSpec.NoCodeNothingVerifies | server/controllers/auth.js:289-294 | with no outstanding code (`parseInt(null)` is NaN) every submission gets 403 and nothing changes |
| AuthSpec.VerifyIsSingleUse | server/controllers/auth.js:289-294 | after a successful verification the same submission is refused |
| AuthSpec.GenerateThenVerify | server/controllers/auth.js:217-226 | outside the window, the code just generated verifies and opens the reset session |
| AuthSpec.LeadingZerosAreIgnored | server/controllers/auth.js:289 | a stored code with leading zeros is matched by the submission without them |
| AuthSpec.TrailingTextIsIgnored | server/controllers/auth.js:289 | a stored code followed by any text not starting with a digit still matches |
| AuthSpec.SixDigitCodesMatchExactly | server/controllers/auth.js:289 | between six-digit codes the numeric comparison is string equality |
| AuthSpec.WrongCodeThenRightCode | server/controllers/auth.js:289-294 | a wrong six-digit code is refused with the state unchanged, and the right one then verifies |
| AuthSpec.SecondGenerationInsideWindow | server/controllers/auth.js:214-226 | a second generation inside 30000 ms is refused, leaving the first code in place and still verifiable |
| AuthSpec.GenerationOutsideWindowReplaces | server/controllers/auth.js:217-226 | after the window a generation replaces the code and timestamp |
| AuthSpec.ResetSessionIsSingleUse | server/controllers/auth.js:297-304 | two consecutive calls give "Access granted", then "Session expired" |
| AuthSpec.ResetAfterSessionConsumed | server/controllers/auth.js:297-309 | once createResetSession has taken the flag, resetPassword answers 440 and changes nothing |
| AuthSpec.NothingGrantedAtStart | server/controllers/auth.js:297-309 | from the initial cells both gates refuse (400 and 440) |
| AuthSpec.ForgotPasswordFlow | server/controllers/auth.js:211-339 | from process start, a generation with reason FORGOTPASSWORD mails the reset template; verifying the code and resetting then succeed; the flag ends cleared and the admin logs in with the new password |
| AuthSpec.ResetThenLogin | server/controllers/auth.js:55-105 | after a successful reset, the admin logs in with the new password |
| AuthSpec.LoginRolesExclusive | server/controllers/auth.js:55-161 | no request logs in as both an admin and an employee |
| AuthSpec.RegisterThenFind | server/controllers/auth.js:21-53 | a freshly registered admin is found by email as existing |
| AuthSpec.Serve | server/controllers/auth.js:211-339 | only a verification answered 200 raises the reset session; a 200 from createResetSession or resetPassword needs the session up and lowers it; no request adds or removes a user |
| AuthSpec.ServeAll | server/controllers/auth.js:211-339 | after any sequence of these requests the set of stored emails is unchanged |
| AuthSpec.SessionGrantedOncePerCode | server/controllers/auth.js:285-330 | over any sequence of requests, the grants plus the final flag are at most the accepted codes plus the initial flag |
| AuthSpec.NoSessionWithoutCode | server/controllers/auth.js:285-330 | from process start, any sequence of requests grants the reset session no more often than it accepts a code |
| AuthApp.App.constructor | server/controllers/auth.js:214 | at process start no code, timestamp or session is set |
| AuthApp.App.GenerateOtp | server/controllers/auth.js:211-284 | the cells and reply after the in-place updates are those of `AuthSpec.GenerateOtp`; the store is unchanged and the six-digit invariant kept |
| AuthApp.App.VerifyOtp | server/controllers/auth.js:285-295 | the cells and reply are those of `AuthSpec.VerifyOtp`; the store is unchanged |
| AuthApp.App.CreateResetSession | server/controllers/auth.js:297-304 | the cells and reply are those of `AuthSpec.CreateResetSession` |
| AuthApp.App.ResetPassword | server/controllers/auth.js:306-339 | cells, store and reply are those of `AuthSpec.ResetPassword` |
| AuthApp.App.AdminRegister | server/controllers/auth.js:21-53 | store and result are those of `AuthSpec.AdminRegister`; the OTP cells are unchanged |
| AuthApp.App.UpdatePassword | server/controllers/auth.js:163-195 | store and reply are those of `AuthSpec.UpdatePassword`; the OTP cells are unchanged |
| JsNumbers.DecimalString | client/src/components/OTP.jsx:108-110 | `String(n)` is a non-empty digit string with value `n`, beginning with 0 only for 0 |
| JsNumbers.IsJsWhiteSpace | server/controllers/auth.js:289 | the characters `parseInt` skips are never digits or signs |
| JsNumbers.TrimStart | server/controllers/auth.js:289 | the text after the skipped white space is no longer than the input and does not begin with white space |
| JsNumbers.LeadingDigits | server/controllers/auth.js:289 | the digits `parseInt` reads are digits only, no more than the input, and none exactly when the input is empty or starts with a non-digit |
| JsNumbers.ParseInt | server/controllers/auth.js:289 | NaN exactly when, after the white space, there is neither a digit nor a sign followed by a digit; a negative number only after a minus sign |
| JsNumbers.ParseIntOfDigits | server/controllers/auth.js:289 | `parseInt` of a non-empty digit string is its decimal value |
| JsNumbers.ParseIntIgnoresTrailer | server/controllers/auth.js:289 | `parseInt` stops at the first non-digit |
| JsNumbers.ParseIntDecimalString | server/controllers/auth.js:289 | `parseInt(String(n)) == n` for every natural number |
| JsNumbers.DecimalValueLeadingZeros | server/controllers/auth.js:289 | leading zeros do not change a digit string's value |
| JsNumbers.DecimalValueInjective | server/controllers/auth.js:289 | equal-length digit strings with equal values are equal |
| JsNumbers.LeadingDigitsIsLongestDigitPrefix | server/controllers/auth.js:289 | the digits `parseInt` reads are a prefix of its input followed by a non-digit or the end |
| JsNumbers.TrimStartDropsWhiteSpace | server/controllers/auth.js:289 | `parseInt` skips exactly the leading white space and stops at the first other character |
| OtpClient.DateParse | client/src/components/OTP.jsx:92 | `Date.parse` of a date is a whole number of seconds, at most one second below the instant |
| OtpClient.JsRem | client/src/components/OTP.jsx:93-95 | JavaScript `%` equals the mathematical remainder for a non-negative dividend; for a negative one it lies in (-m, 0] and differs from the dividend by a multiple of m |
| OtpClient.FloorRem | client/src/components/OTP.jsx:93-95 | for a non-negative total, `Math.floor((total / unit) % modulus)` is the quotient by `unit` taken modulo `modulus`; for a negative total it lies in [-modulus, 0] |
| OtpClient.GetTimeRemaining | client/src/components/OTP.jsx:91-102 | total is the difference of the parsed dates, a multiple of 1000; for `total >= 0` seconds, minutes and hours are the clock fields in [0,59], [0,59] and [0,23]; under an hour, minutes and seconds make up the whole seconds remaining |
| OtpClient.GetDeadTime | client/src/components/OTP.jsx:124-128 | the deadline is 60000 ms after `now` |
| OtpClient.TwoDigits | client/src/components/OTP.jsx:108-110 | two digits whose value is `n`, led by a zero exactly when `n <= 9` |
| OtpClient.CountdownText | client/src/components/OTP.jsx:107-111 | "MM : SS seconds", fifteen characters, whose two fields read back as minutes and seconds |
| OtpClient.StartTimer | client/src/components/OTP.jsx:104-113 | the text is unchanged once the deadline has passed; otherwise it is "MM : SS seconds", fifteen characters, whose two-digit fields read back as the remaining minutes and seconds |
| OtpClient.CountdownNeverHides | client/src/components/OTP.jsx:104-113 | no tick turns a text other than "00:00" into "00:00", so the hide effect never fires on the countdown |
| OtpClient.HidesTimer | client/src/components/OTP.jsx:208 | only a five-character text, never "01:00", hides the countdown |
| OtpClient.CountdownShowsRemainingSeconds | client/src/components/OTP.jsx:91-128 | `k` whole seconds after a countdown starts, up to 60, the fields show `60 - k` seconds; after the deadline the text stays as it was |
| OtpClient.ShiftDateParse | client/src/components/OTP.jsx:92 | shifting a time by whole seconds shifts its parsed value by the same amount |
| OtpClient.SendFailureMessage | client/src/components/OTP.jsx:151 | the server's message when it is present and non-empty, the transport error's message otherwise |
| OtpClient.ResendShown | client/src/components/OTP.jsx:282-290 | Resend is shown only with the form, and once the form is shown it is shown exactly when the countdown is not |
| OtpClient.Commit | client/src/components/OTP.jsx:206-220 | only `showTimer` and `disabled` change; the countdown is hidden exactly when the timer changed to "00:00"; when `otp` changed, Submit is disabled exactly when it is not six characters long, otherwise `disabled` is kept |
| OtpClient.SendSettled | client/src/components/OTP.jsx:131-158 | on 200: code and error cleared, Submit disabled, loading off, form and countdown shown, success notification; on a rejection: loading off and the form shown, with an error notification carrying the server's or transport's message, nothing else; another status changes nothing; the timer text is kept and a shown countdown stays shown |
| OtpClient.Submit | client/src/components/OTP.jsx:167-169 | loading on and Submit disabled; nothing else changes |
| OtpClient.VerifySettled | client/src/components/OTP.jsx:167-194 | on 200: verified signalled, code and error cleared, loading off, and Submit left disabled exactly when the code was not already empty; on a rejection the server answered: the error text is its message, undefined when it sent none, with no notification; on a rejection without an answer: the error's own message, also notified; in both, Submit enabled, loading off, code kept; another status changes nothing; countdown, timer and form visibility untouched |
| OtpClient.Typed | client/src/components/OTP.jsx:214-220 | the entered code is stored; when it changed, Submit is disabled exactly when it is not six characters long; the same code changes nothing; nothing but `otp` and `disabled` changes |
| OtpClient.Resend | client/src/components/OTP.jsx:160-164 | the countdown is shown with the text "01:00", nothing else changes, and Resend is not shown |
| OtpClient.TickStep | client/src/components/OTP.jsx:117-120 | a tick changes only the timer text, to what startTimer computes; the hide effect does not fire |
| OtpClient.Step | client/src/components/OTP.jsx:131-220 | only a verification answered 200 signals the parent, only a settled send reveals the form, and only a resend or a tick changes the timer text |
| OtpClient.Run | client/src/components/OTP.jsx:131-220 | after any sequence of events the parent has been signalled only if a verification in it was answered 200, and the form is shown only if a send in it settled |
| OtpClient.CountdownStaysShown | client/src/components/OTP.jsx:104-220 | from a shown countdown whose text is not "00:00", after any sequence of settled sends and verifications, edits, clicks and ticks the countdown is still shown, its text is not "00:00", and Resend is not shown |
| OtpClient.ResendNeverAfterSuccessfulSend | client/src/components/OTP.jsx:207-211 | after a send that succeeded, Resend never appears again, whatever follows |
| OtpClient.Otp.Mount | client/src/components/OTP.jsx:197-220 | after the first commit one countdown to now + 60 s runs with the text "01:00"; exactly one send is pending; the state is otherwise the initial one (countdown hidden, form not shown, Submit disabled); Resend is not shown |
| OtpClient.Otp.CommitEffects | client/src/components/OTP.jsx:206-220 | the state after the effects is `Commit` of the state before them |
| OtpClient.Otp.ClearTimer | client/src/components/OTP.jsx:115-122 | the text is "01:00" and nothing else on screen changes; the previous interval is stopped and exactly one new interval runs to the given deadline, held in `Ref.current` |
| OtpClient.Otp.Tick | client/src/components/OTP.jsx:117-120 | the running interval's firing gives `TickStep` for its deadline; with no interval nothing changes; the text never becomes "00:00" |
| OtpClient.Otp.SendOtpSettled | client/src/components/OTP.jsx:131-158 | the state is `SendSettled` of the previous one and one fewer send is pending |
| OtpClient.Otp.ResendOtp | client/src/components/OTP.jsx:160-164 | the state is `Resend` of the previous one; the countdown restarts towards now + 60 s as the only running interval; one more send is pending |
| OtpClient.Otp.ValidateOtp | client/src/components/OTP.jsx:167-171 | loading on and Submit disabled, nothing else on screen changes, one more verification pending |
| OtpClient.Otp.ValidateOtpSettled | client/src/components/OTP.jsx:167-194 | the state is `VerifySettled` of the previous one and one fewer verification is pending |
| OtpClient.Otp.EnterOtp | client/src/components/OTP.jsx:214-220 | the state is `Typed` of the previous one |
| OtpClient.Otp.Unmount | client/src/components/OTP.jsx:200-203 | the cleanup leaves no interval running |

## Left out
- Mail delivery: the nodemailer transport and the HTML bodies (server/controllers/auth.js:11-19, 229-276) are not modelled. Only the recipient, name, template choice and code of the mail are kept. Whether delivery succeeds is the parameter `delivery`.
- bcrypt, jwt and the randomness of the code generator are library calls. They become the parameters `matches`, `newHash` and `code`, and an opaque `Token`.
- Mongoose storage is a map keyed by email. `findById(id)` in UpdatePassword is a lookup of the same key, and saving is assignment into the map.
- UpdateProfile (server/controllers/auth.js:197-209) is not modelled: it merges an arbitrary request body into the stored document.
- The Express error handler is not part of this model. Errors passed to `next` are modelled as their status, with 500 for thrown errors.
- Request values (query or body) that are not strings are not modelled: repeated query parameters, arrays, and objects such as `{"$ne": null}` that `findOne({ email })` would read as a query operator. An absent field is `None`.
- JavaScript's number precision is not modelled: `parseInt` values beyond 2^53 would round, and the model keeps exact integers.
- Floating point in getTimeRemaining is not modelled. The divisions by 1000, 60 and 60 of an integer number of milliseconds are modelled as exact floors. `setSeconds` on local time, time zones and daylight-saving shifts are left out: the deadline is `now` plus 60000 ms.
- Concurrency between requests and the interleaving of awaited calls are left out. Each handler, and each settlement of a call, is one atomic step.
- React rendering, `OtpInput`, styled-components, theme and Redux are left out. The snackbar dispatch is kept only as the last notification. `console.log` output is left out.
- The "Resend" and "Submit" clicks are modelled without a guard. The Resend control is rendered only while `otpSent && !showTimer`, which `ResendShown` states. Submit is rendered only inside the form, that is while `otpSent` holds (client/src/components/OTP.jsx:229-280).
- The otp effect's length test counts characters; JavaScript's `otp.length` counts UTF-16 code units. The two differ only for characters outside the Basic Multilingual Plane.
- AuthSpec.ResetPassword and AuthSpec.FindUserByEmail take the email as a string. A request without an `email` field (`findOne({ email: undefined })`) is not modelled.
- AuthSpec.Login: a success carries the stored user record, password hash included. The handlers reply with a copy that leaves the password out (server/controllers/auth.js:92-101 and 144-155); the fields of that copy are not modelled. AdminRegister replies with the whole saved document, as the model does.
- OtpClient.VerifySettled: a server answer without any body makes `err.response.data.message` throw inside the catch block, so Submit is not re-enabled; the model treats every answer as having a body, whose `message` may be absent.
- OtpClient.GetTimeRemaining: for a negative total, only the bounds of the minutes and seconds fields are stated, not their exact values; startTimer ignores them there.
