/**
 * The WorkPulse authentication controller (server/controllers/auth.js), each
 * request handler written as a pure function from the state before the
 * request to the state after it and the reply.
 *
 * The OTP authority keeps three process-wide cells (`req.app.locals.OTP`,
 * `lastOTPTime` and `resetSession`): one record for the whole process, not one
 * per user, and the code never expires. The user collection is a map from
 * email to the stored user. bcrypt's comparison is the parameter `matches`;
 * the hash bcrypt would compute for a new password is the parameter `newHash`;
 * the freshly generated code is the parameter `code`.
 */
module AuthSpec {
  import opened Wrappers
  import opened JsNumbers

  /** Minimum time between two generated codes, in milliseconds. */
  const RateLimitMs := 30000
  const CodeLength := 6
  const ForgotPassword := "FORGOTPASSWORD"

  /** The stored `role` string: "admin", "employee", or any other string. */
  datatype Role = Admin | Employee | Other

  /** What the handlers read and write of a stored user document. */
  datatype User = User(username: string, role: Role, passwordHash: string)

  /** The user collection, keyed by email. */
  type Users = map<string, User>

  /** `req.app.locals`: `None` stands for undefined or null. */
  datatype Locals = Locals(otp: Option<string>, lastOtpTime: Option<int>, resetSession: bool)

  /** The cells at process start: nothing is set. */
  const InitialLocals := Locals(None, None, false)

  /** A status code with the `message` of the response body. */
  datatype Reply = Reply(status: int, message: string)

  /** `jwt.sign({ id })`: an opaque token naming the user it was issued for. */
  datatype Token = Token(subject: string)

  datatype AuthResult = Authenticated(token: Token, user: User) | Refused(reply: Reply)

  datatype Template = VerifyAccount | ResetPasswordMail

  /** What `transporter.sendMail` is given: the HTML bodies are left out. */
  datatype Mail = Mail(to: Option<string>, name: Option<string>, template: Template, code: string)

  /** What the mail transport reports. */
  datatype Delivery = Delivered | DeliveryFailed(error: string)

  /** `findUserByEmail`'s answer: a 200 body, or an error passed to `next`. */
  datatype Lookup = Answer(found: bool, message: string) | Rejected(reply: Reply)

  datatype Generated = Generated(locals: Locals, reply: Reply, mail: Option<Mail>)
  datatype Outcome = Outcome(locals: Locals, reply: Reply)
  datatype Transition = Transition(locals: Locals, users: Users, reply: Reply)
  datatype Registered = Registered(users: Users, result: AuthResult)
  datatype StoreUpdate = StoreUpdate(users: Users, reply: Reply)

  /** What `otpGenerator.generate(6, { digits only })` yields. */
  predicate IsOtpCode(s: string) {
    |s| == CodeLength && IsDigits(s)
  }

  /** The only codes the cells ever hold. */
  predicate LocalsValid(l: Locals) {
    l.otp.Some? ==> IsOtpCode(l.otp.value)
  }

  /** JavaScript truthiness of a string field of the request: absent and "" are falsy. */
  predicate Present(field: Option<string>)
    ensures Present(field) ==> field.Some? && |field.value| > 0
    ensures field == Some("") || field.None? ==> !Present(field)
  {
    field.Some? && field.value != ""
  }

  /** `req.app.locals.lastOTPTime || 0` */
  function LastOtpTimeOrZero(l: Locals): (t: int)
    ensures l.lastOtpTime.Some? ==> t == l.lastOtpTime.value
    ensures l.lastOtpTime.None? ==> t == 0
  {
    match l.lastOtpTime
    case Some(t) => t
    case None => 0
  }

  /** Less than 30000 ms since the last generation; with none recorded, since time 0. */
  predicate RateLimited(l: Locals, now: int)
    ensures l.lastOtpTime.Some? ==> (RateLimited(l, now) <==> now < l.lastOtpTime.value + RateLimitMs)
    ensures l.lastOtpTime.None? ==> (RateLimited(l, now) <==> now < RateLimitMs)
  {
    now - LastOtpTimeOrZero(l) < RateLimitMs
  }

  /** `parseInt(field, 10)`; undefined and null both parse to NaN. */
  function ParseField(field: Option<string>): (r: Option<int>)
    ensures r.Some? ==> field.Some?
    ensures field.Some? && field.value != [] && IsDigits(field.value) ==> r == Some(DecimalValue(field.value))
  {
    match field
    case Some(s) =>
      if s != [] && IsDigits(s) then ParseIntOfDigits(s); ParseInt(s) else ParseInt(s)
    case None => None
  }

  /** `parseInt(code, 10) === parseInt(OTP, 10)`: NaN equals nothing. */
  predicate CodesMatch(submitted: Option<string>, stored: Option<string>)
    ensures CodesMatch(submitted, stored) ==> submitted.Some? && stored.Some?
    ensures submitted == stored ==> (CodesMatch(submitted, stored) <==> ParseField(stored).Some?)
  {
    ParseField(submitted).Some? && ParseField(submitted) == ParseField(stored)
  }

  const RateLimitedMessage := "Please wait before requesting another OTP"
  const SessionExpiredMessage := "Session expired"
  /** The error bcrypt.hashSync throws when the password is undefined. */
  const HashArgumentsMessage := "data and salt arguments required"
  /** The TypeError of reading `.password` of a user that findById did not find. */
  const NullUserMessage := "Cannot read properties of null (reading 'password')"

  function TemplateFor(reason: Option<string>): (t: Template)
    ensures t == ResetPasswordMail <==> reason == Some(ForgotPassword)
  {
    if reason == Some(ForgotPassword) then ResetPasswordMail else VerifyAccount
  }

  /**
   * generateOTP (auth.js:211-284). Refused with 429 inside the rate-limit
   * window; otherwise the timestamp and the new code are committed before the
   * mail is sent, so a failed delivery (passed on to the error handler, 500)
   * leaves them committed.
   */
  function GenerateOtp(l: Locals, now: int, code: string, email: Option<string>, name: Option<string>,
                       reason: Option<string>, delivery: Delivery): (r: Generated)
    requires IsOtpCode(code)
    ensures r.reply.status == 429 <==> RateLimited(l, now)
    ensures RateLimited(l, now) ==>
      r.locals == l && r.mail == None && r.reply.message == RateLimitedMessage
    ensures !RateLimited(l, now) ==>
      r.locals == Locals(Some(code), Some(now), l.resetSession) &&
      r.mail.Some? && r.mail.value.to == email && r.mail.value.code == code &&
      (r.mail.value.template == ResetPasswordMail <==> reason == Some(ForgotPassword))
    ensures r.reply.status == 200 <==> !RateLimited(l, now) && delivery == Delivered
    ensures LocalsValid(l) ==> LocalsValid(r.locals)
  {
    if RateLimited(l, now) then
      Generated(l, Reply(429, RateLimitedMessage), None)
    else
      var committed := l.(lastOtpTime := Some(now)).(otp := Some(code));
      var mail := Mail(email, name, TemplateFor(reason), code);
      match delivery
      case Delivered => Generated(committed, Reply(200, "OTP sent"), Some(mail))
      case DeliveryFailed(e) => Generated(committed, Reply(500, e), Some(mail))
  }

  /** verifyOTP (auth.js:285-295): a numeric match consumes the code and opens the reset session. */
  function VerifyOtp(l: Locals, code: Option<string>): (r: Outcome)
    ensures r.reply.status == 200 <==> CodesMatch(code, l.otp)
    ensures CodesMatch(code, l.otp) ==>
      r == Outcome(Locals(None, l.lastOtpTime, true), Reply(200, "OTP verified"))
    ensures !CodesMatch(code, l.otp) ==> r == Outcome(l, Reply(403, "Wrong OTP"))
    ensures LocalsValid(l) ==> LocalsValid(r.locals)
  {
    if CodesMatch(code, l.otp) then
      Outcome(l.(otp := None).(resetSession := true), Reply(200, "OTP verified"))
    else
      Outcome(l, Reply(403, "Wrong OTP"))
  }

  /** createResetSession (auth.js:297-304): the session flag is read once. */
  function CreateResetSession(l: Locals): (r: Outcome)
    ensures r.reply.status == 200 <==> l.resetSession
    ensures r.reply == if l.resetSession then Reply(200, "Access granted") else Reply(400, SessionExpiredMessage)
    ensures r.locals == l.(resetSession := false)
  {
    if l.resetSession then
      Outcome(l.(resetSession := false), Reply(200, "Access granted"))
    else
      Outcome(l, Reply(400, SessionExpiredMessage))
  }

  /**
   * resetPassword (auth.js:306-339): gated on the session flag; only an admin's
   * password can be reset, and only a success clears the flag.
   */
  function ResetPassword(l: Locals, users: Users, email: string, password: Option<string>,
                         newHash: string): (r: Transition)
    ensures !l.resetSession ==> r == Transition(l, users, Reply(440, SessionExpiredMessage))
    ensures l.resetSession && email !in users ==> r == Transition(l, users, Reply(404, "User not found"))
    ensures l.resetSession && email in users && users[email].role != Admin ==>
      r == Transition(l, users, Reply(403, "You are not an admin login as an admin"))
    ensures r.reply.status == 200 <==>
      l.resetSession && email in users && users[email].role == Admin && password.Some?
    ensures r.reply.status == 200 ==>
      r.locals == l.(resetSession := false) &&
      r.users == users[email := users[email].(passwordHash := newHash)]
    ensures r.reply.status != 200 ==> r.locals == l && r.users == users
    ensures r.users.Keys == users.Keys
    ensures forall e :: e in users && e != email ==> r.users[e] == users[e]
  {
    if !l.resetSession then
      Transition(l, users, Reply(440, SessionExpiredMessage))
    else if email !in users then
      Transition(l, users, Reply(404, "User not found"))
    else if users[email].role != Admin then
      Transition(l, users, Reply(403, "You are not an admin login as an admin"))
    else if password.None? then
      Transition(l, users, Reply(500, HashArgumentsMessage))
    else
      var updated := users[email := users[email].(passwordHash := newHash)];
      Transition(l.(resetSession := false), updated, Reply(200, "Password reset successful"))
  }

  /**
   * The check chain shared by AdminLogin and EmployeeLogin: the first failing
   * check decides the response.
   */
  function Login(users: Users, email: Option<string>, password: Option<string>, role: Role,
                 wrongRoleMessage: string, matches: (string, string) -> bool): (r: AuthResult)
    ensures !Present(email) ==> r == Refused(Reply(422, "Missing email."))
    ensures Present(email) && !Present(password) ==> r == Refused(Reply(422, "Missing password."))
    ensures Present(email) && Present(password) && email.value !in users ==>
      r == Refused(Reply(404, "User not found"))
    ensures (Present(email) && Present(password) && email.value in users &&
             users[email.value].role != role) ==> r == Refused(Reply(403, wrongRoleMessage))
    ensures (Present(email) && Present(password) && email.value in users &&
             users[email.value].role == role &&
             !matches(password.value, users[email.value].passwordHash)) ==>
      r == Refused(Reply(403, "Incorrect password"))
    ensures r.Authenticated? ==>
      (email.Some? && email.value in users && r == Authenticated(Token(email.value), users[email.value]))
  {
    if !Present(email) then Refused(Reply(422, "Missing email."))
    else if !Present(password) then Refused(Reply(422, "Missing password."))
    else if email.value !in users then Refused(Reply(404, "User not found"))
    else
      var user := users[email.value];
      if user.role != role then Refused(Reply(403, wrongRoleMessage))
      else if !matches(password.value, user.passwordHash) then Refused(Reply(403, "Incorrect password"))
      else Authenticated(Token(email.value), user)
  }

  /** The conditions under which a login succeeds, for the given role. */
  predicate LoginAccepted(users: Users, email: Option<string>, password: Option<string>, role: Role,
                          matches: (string, string) -> bool) {
    Present(email) && Present(password) && email.value in users &&
    users[email.value].role == role && matches(password.value, users[email.value].passwordHash)
  }

  /** AdminLogin (auth.js:55-105). */
  function AdminLogin(users: Users, email: Option<string>, password: Option<string>,
                      matches: (string, string) -> bool): (r: AuthResult)
    ensures r.Authenticated? <==> LoginAccepted(users, email, password, Admin, matches)
    ensures r.Authenticated? ==> r.user.role == Admin && r.token == Token(email.value)
    ensures r.Refused? ==> r.reply.status in {403, 404, 422}
  {
    Login(users, email, password, Admin, "You are not an admin login as an employee", matches)
  }

  /** EmployeeLogin (auth.js:107-161). */
  function EmployeeLogin(users: Users, email: Option<string>, password: Option<string>,
                         matches: (string, string) -> bool): (r: AuthResult)
    ensures r.Authenticated? <==> LoginAccepted(users, email, password, Employee, matches)
    ensures r.Authenticated? ==> r.user.role == Employee && r.token == Token(email.value)
    ensures r.Refused? ==> r.reply.status in {403, 404, 422}
  {
    Login(users, email, password, Employee, "You are not an employee login as an admin", matches)
  }

  /**
   * AdminRegister (auth.js:21-53): refuses a missing or taken email; a new
   * admin is stored under the email and a token is issued for it.
   */
  function AdminRegister(users: Users, email: Option<string>, password: Option<string>, username: string,
                         newHash: string): (r: Registered)
    ensures r.result.Authenticated? <==> Present(email) && email.value !in users && password.Some?
    ensures !Present(email) ==> r == Registered(users, Refused(Reply(422, "Missing email.")))
    ensures Present(email) && email.value in users ==>
      r == Registered(users, Refused(Reply(409, "Email is already in use.")))
    ensures r.result.Authenticated? ==>
      r.users == users[email.value := User(username, Admin, newHash)] &&
      r.users.Keys == users.Keys + {email.value} &&
      r.result == Authenticated(Token(email.value), User(username, Admin, newHash))
    ensures r.result.Refused? ==> r.users == users
  {
    if !Present(email) then Registered(users, Refused(Reply(422, "Missing email.")))
    else if email.value in users then Registered(users, Refused(Reply(409, "Email is already in use.")))
    else if password.None? then Registered(users, Refused(Reply(500, HashArgumentsMessage)))
    else
      var user := User(username, Admin, newHash);
      Registered(users[email.value := user], Authenticated(Token(email.value), user))
  }

  /**
   * UpdatePassword (auth.js:163-195) for the user `id` named by the caller's
   * token: both passwords must be present and the old one must match.
   */
  function UpdatePassword(users: Users, id: string, oldPassword: Option<string>, password: Option<string>,
                          newHash: string, matches: (string, string) -> bool): (r: StoreUpdate)
    ensures !Present(oldPassword) ==> r == StoreUpdate(users, Reply(422, "Missing old password."))
    ensures Present(oldPassword) && !Present(password) ==>
      r == StoreUpdate(users, Reply(422, "Missing new password."))
    ensures r.reply.status == 200 <==>
      Present(oldPassword) && Present(password) && id in users &&
      matches(oldPassword.value, users[id].passwordHash)
    ensures Present(oldPassword) && Present(password) && id in users &&
            !matches(oldPassword.value, users[id].passwordHash) ==>
      r == StoreUpdate(users, Reply(403, "Incorrect password"))
    ensures r.reply.status == 200 ==> r.users == users[id := users[id].(passwordHash := newHash)]
    ensures r.reply.status != 200 ==> r.users == users
    ensures r.users.Keys == users.Keys
  {
    if !Present(oldPassword) then StoreUpdate(users, Reply(422, "Missing old password."))
    else if !Present(password) then StoreUpdate(users, Reply(422, "Missing new password."))
    else if id !in users then StoreUpdate(users, Reply(500, NullUserMessage))
    else if !matches(oldPassword.value, users[id].passwordHash) then
      StoreUpdate(users, Reply(403, "Incorrect password"))
    else
      StoreUpdate(users[id := users[id].(passwordHash := newHash)], Reply(200, "Password updated successfully"))
  }

  /** findUserByEmail (auth.js:341-362): only admins are reported as existing. */
  function FindUserByEmail(users: Users, email: string): (r: Lookup)
    ensures r == Answer(true, "User found") <==> email in users && users[email].role == Admin
    ensures r.Rejected? <==> email in users && users[email].role == Employee
    ensures r.Rejected? ==> r.reply == Reply(403, "You are an employee login as an employee")
    ensures !(email in users && users[email].role in {Admin, Employee}) ==> r == Answer(false, "User does not exist")
  {
    if email in users && users[email].role == Admin then Answer(true, "User found")
    else if email in users && users[email].role == Employee then
      Rejected(Reply(403, "You are an employee login as an employee"))
    else Answer(false, "User does not exist")
  }

  // ---------------------------------------------------------------------------
  // Properties of the OTP lifecycle
  // ---------------------------------------------------------------------------

  /**
   * Against a stored six-digit code, verification succeeds exactly when the
   * submitted text parses to the code's value.
   */
  lemma VerifyAgainstCode(l: Locals, code: Option<string>)
    requires l.otp.Some? && IsOtpCode(l.otp.value)
    ensures VerifyOtp(l, code).reply.status == 200 <==> ParseField(code) == Some(DecimalValue(l.otp.value))
  {
    ParseIntOfDigits(l.otp.value);
  }

  /** With no outstanding code (before any generation, or after a success) nothing verifies. */
  lemma NoCodeNothingVerifies(l: Locals, code: Option<string>)
    requires l.otp.None?
    ensures VerifyOtp(l, code) == Outcome(l, Reply(403, "Wrong OTP"))
  {
  }

  /** A code verifies once: the same submission a second time is refused. */
  lemma VerifyIsSingleUse(l: Locals, code: Option<string>)
    requires VerifyOtp(l, code).reply.status == 200
    ensures VerifyOtp(VerifyOtp(l, code).locals, code).reply == Reply(403, "Wrong OTP")
  {
    NoCodeNothingVerifies(VerifyOtp(l, code).locals, code);
  }

  /** The code just generated verifies, and opens the reset session. */
  lemma GenerateThenVerify(l: Locals, now: int, code: string, email: Option<string>, name: Option<string>,
                           reason: Option<string>, delivery: Delivery)
    requires IsOtpCode(code) && !RateLimited(l, now)
    ensures var g := GenerateOtp(l, now, code, email, name, reason, delivery);
      VerifyOtp(g.locals, Some(code)) == Outcome(Locals(None, Some(now), true), Reply(200, "OTP verified"))
  {
    ParseIntOfDigits(code);
  }

  /**
   * The comparison is numeric, so leading zeros may be dropped: "7" and "007"
   * both match a stored "000007".
   */
  lemma {:induction false} LeadingZerosAreIgnored(l: Locals, zeros: string, submitted: string)
    requires l.otp == Some(zeros + submitted) && IsOtpCode(zeros + submitted)
    requires IsZeros(zeros) && submitted != []
    ensures VerifyOtp(l, Some(submitted)).reply.status == 200
  {
    var stored := zeros + submitted;
    assert IsDigits(submitted) by {
      forall i | 0 <= i < |submitted| ensures IsDigit(submitted[i]) {
        assert submitted[i] == stored[|zeros| + i];
      }
    }
    ParseIntOfDigits(stored);
    ParseIntOfDigits(submitted);
    DecimalValueLeadingZeros(zeros, submitted);
  }

  /** Text after the digits is ignored: "123456abc" matches a stored "123456". */
  lemma TrailingTextIsIgnored(l: Locals, trailer: string)
    requires l.otp.Some? && IsOtpCode(l.otp.value)
    requires trailer == [] || !IsDigit(trailer[0])
    ensures VerifyOtp(l, Some(l.otp.value + trailer)).reply.status == 200
  {
    ParseIntOfDigits(l.otp.value);
    ParseIntIgnoresTrailer(l.otp.value, trailer);
  }

  /** Between two six-digit codes the numeric comparison is plain equality. */
  lemma {:induction false} SixDigitCodesMatchExactly(submitted: string, stored: string)
    requires IsOtpCode(submitted) && IsOtpCode(stored)
    ensures CodesMatch(Some(submitted), Some(stored)) <==> submitted == stored
  {
    ParseIntOfDigits(submitted);
    ParseIntOfDigits(stored);
    if DecimalValue(submitted) == DecimalValue(stored) {
      DecimalValueInjective(submitted, stored);
    }
  }

  /** A failed verification changes nothing, so the right code still verifies afterwards. */
  lemma WrongCodeThenRightCode(code: string, wrong: string, lastOtpTime: Option<int>, resetSession: bool)
    requires IsOtpCode(code) && IsOtpCode(wrong) && wrong != code
    ensures var l := Locals(Some(code), lastOtpTime, resetSession);
      VerifyOtp(l, Some(wrong)) == Outcome(l, Reply(403, "Wrong OTP")) &&
      VerifyOtp(l, Some(code)).reply.status == 200
  {
    SixDigitCodesMatchExactly(wrong, code);
    SixDigitCodesMatchExactly(code, code);
  }

  /**
   * Inside the window a second generation is refused, and the first code
   * still verifies.
   */
  lemma SecondGenerationInsideWindow(l: Locals, first: nat, second: int, code1: string, code2: string,
                                     email: Option<string>, name: Option<string>, reason: Option<string>)
    requires IsOtpCode(code1) && IsOtpCode(code2) && !RateLimited(l, first)
    requires first <= second < first + RateLimitMs
    ensures var g1 := GenerateOtp(l, first, code1, email, name, reason, Delivered);
      var g2 := GenerateOtp(g1.locals, second, code2, email, name, reason, Delivered);
      g2.reply == Reply(429, RateLimitedMessage) && g2.locals == g1.locals &&
      VerifyOtp(g2.locals, Some(code1)).reply.status == 200
  {
    GenerateThenVerify(l, first, code1, email, name, reason, Delivered);
  }

  /**
   * Outside the window a generation always replaces the outstanding code and
   * its timestamp, whether or not the earlier code was used.
   */
  lemma GenerationOutsideWindowReplaces(l: Locals, now: int, code: string, email: Option<string>,
                                        name: Option<string>, reason: Option<string>, delivery: Delivery)
    requires IsOtpCode(code) && l.lastOtpTime.Some? && now >= l.lastOtpTime.value + RateLimitMs
    ensures GenerateOtp(l, now, code, email, name, reason, delivery).locals.otp == Some(code)
    ensures GenerateOtp(l, now, code, email, name, reason, delivery).locals.lastOtpTime == Some(now)
  {
  }

  /** The reset session is granted once: success, then "Session expired". */
  lemma ResetSessionIsSingleUse(l: Locals)
    requires l.resetSession
    ensures CreateResetSession(l).reply == Reply(200, "Access granted")
    ensures CreateResetSession(CreateResetSession(l).locals).reply == Reply(400, SessionExpiredMessage)
  {
  }

  /** Once createResetSession has taken the flag, resetPassword answers 440. */
  lemma ResetAfterSessionConsumed(l: Locals, users: Users, email: string, password: Option<string>,
                                  newHash: string)
    ensures ResetPassword(CreateResetSession(l).locals, users, email, password, newHash)
      == Transition(CreateResetSession(l).locals, users, Reply(440, SessionExpiredMessage))
  {
  }

  /** If no session was ever granted, neither gate opens. */
  lemma NothingGrantedAtStart(users: Users, email: string, password: Option<string>, newHash: string)
    ensures CreateResetSession(InitialLocals).reply == Reply(400, SessionExpiredMessage)
    ensures ResetPassword(InitialLocals, users, email, password, newHash).reply.status == 440
  {
  }

  /** The whole forgot-password flow, from process start, for a registered admin. */
  lemma ForgotPasswordFlow(users: Users, email: string, code: string, now: nat, password: string,
                           newHash: string, matches: (string, string) -> bool)
    requires IsOtpCode(code) && now >= RateLimitMs
    requires email != "" && email in users && users[email].role == Admin
    requires password != "" && matches(password, newHash)
    ensures var g := GenerateOtp(InitialLocals, now, code, Some(email), None, Some(ForgotPassword), Delivered);
      var v := VerifyOtp(g.locals, Some(code));
      var t := ResetPassword(v.locals, users, email, Some(password), newHash);
      g.reply.status == 200 && g.mail.value.template == ResetPasswordMail &&
      v.reply.status == 200 &&
      t.reply.status == 200 && !t.locals.resetSession &&
      AdminLogin(t.users, Some(email), Some(password), matches).Authenticated?
  {
    GenerateThenVerify(InitialLocals, now, code, Some(email), None, Some(ForgotPassword), Delivered);
  }

  /** After a reset the admin logs in with the new password. */
  lemma ResetThenLogin(l: Locals, users: Users, email: string, password: string, newHash: string,
                       matches: (string, string) -> bool)
    requires ResetPassword(l, users, email, Some(password), newHash).reply.status == 200
    requires email != "" && password != "" && matches(password, newHash)
    ensures AdminLogin(ResetPassword(l, users, email, Some(password), newHash).users,
                       Some(email), Some(password), matches).Authenticated?
  {
  }

  /** No credentials log in as both an admin and an employee. */
  lemma LoginRolesExclusive(users: Users, email: Option<string>, password: Option<string>,
                            matches: (string, string) -> bool)
    ensures !(AdminLogin(users, email, password, matches).Authenticated? &&
              EmployeeLogin(users, email, password, matches).Authenticated?)
  {
  }

  /** A registered admin is found by email. */
  lemma RegisterThenFind(users: Users, email: string, password: string, username: string, newHash: string)
    requires email != "" && email !in users
    ensures AdminRegister(users, Some(email), Some(password), username, newHash).result.Authenticated?
    ensures FindUserByEmail(AdminRegister(users, Some(email), Some(password), username, newHash).users, email)
      == Answer(true, "User found")
  {
  }

  // ---------------------------------------------------------------------------
  // Sequences of requests to the OTP authority
  // ---------------------------------------------------------------------------

  /** A request to one of the four handlers that share the cells. */
  datatype Request =
    | GenerateRequest(now: int, code: string, email: Option<string>, name: Option<string>,
                      reason: Option<string>, delivery: Delivery)
    | VerifyRequest(submitted: Option<string>)
    | CreateSessionRequest
    | ResetRequest(resetEmail: string, password: Option<string>, newHash: string)

  /** Generated codes are six digits. */
  predicate WellFormed(req: Request) {
    req.GenerateRequest? ==> IsOtpCode(req.code)
  }

  /** One request served: the cells and the store after it, and the reply. */
  function Serve(l: Locals, users: Users, req: Request): (r: Transition)
    requires WellFormed(req)
    ensures r.locals.resetSession && !l.resetSession ==> req.VerifyRequest? && r.reply.status == 200
    ensures (req.CreateSessionRequest? || req.ResetRequest?) && r.reply.status == 200 ==>
      l.resetSession && !r.locals.resetSession
    ensures r.users.Keys == users.Keys
  {
    match req
    case GenerateRequest(now, code, email, name, reason, delivery) =>
      var g := GenerateOtp(l, now, code, email, name, reason, delivery);
      Transition(g.locals, users, g.reply)
    case VerifyRequest(submitted) =>
      var v := VerifyOtp(l, submitted);
      Transition(v.locals, users, v.reply)
    case CreateSessionRequest =>
      var c := CreateResetSession(l);
      Transition(c.locals, users, c.reply)
    case ResetRequest(email, password, newHash) =>
      ResetPassword(l, users, email, password, newHash)
  }

  /**
   * The state after a sequence of requests, with the number of reset-session
   * grants (createResetSession or resetPassword answered 200) and of codes
   * accepted (verifyOTP answered 200).
   */
  datatype Tally = Tally(locals: Locals, users: Users, granted: nat, accepted: nat)

  function ServeAll(l: Locals, users: Users, reqs: seq<Request>): (t: Tally)
    requires forall i :: 0 <= i < |reqs| ==> WellFormed(reqs[i])
    ensures t.users.Keys == users.Keys
    decreases |reqs|
  {
    if reqs == [] then Tally(l, users, 0, 0)
    else
      var step := Serve(l, users, reqs[0]);
      var rest := ServeAll(step.locals, step.users, reqs[1..]);
      var granted := if (reqs[0].CreateSessionRequest? || reqs[0].ResetRequest?) && step.reply.status == 200 then 1 else 0;
      var accepted := if reqs[0].VerifyRequest? && step.reply.status == 200 then 1 else 0;
      Tally(rest.locals, rest.users, rest.granted + granted, rest.accepted + accepted)
  }

  function Flag(l: Locals): nat {
    if l.resetSession then 1 else 0
  }

  /**
   * Over any sequence of requests, the reset session is granted at most once
   * per accepted code (plus once if the flag was already raised), and a
   * session still open at the end is counted against the codes as well.
   */
  lemma {:induction false} SessionGrantedOncePerCode(l: Locals, users: Users, reqs: seq<Request>)
    requires forall i :: 0 <= i < |reqs| ==> WellFormed(reqs[i])
    ensures var t := ServeAll(l, users, reqs);
      t.granted + Flag(t.locals) <= t.accepted + Flag(l)
    decreases |reqs|
  {
    if reqs != [] {
      var step := Serve(l, users, reqs[0]);
      SessionGrantedOncePerCode(step.locals, step.users, reqs[1..]);
    }
  }

  /** From process start, no more sessions are granted than codes accepted. */
  lemma NoSessionWithoutCode(users: Users, reqs: seq<Request>)
    requires forall i :: 0 <= i < |reqs| ==> WellFormed(reqs[i])
    ensures ServeAll(InitialLocals, users, reqs).granted <= ServeAll(InitialLocals, users, reqs).accepted
  {
    SessionGrantedOncePerCode(InitialLocals, users, reqs);
  }
}
