/**
 * The state the authentication controller changes in place: the three cells
 * of `req.app.locals` and the user collection. Each handler is a method that
 * updates the fields step by step, in the order the controller does, and is
 * proved to agree with its specification function in AuthSpec.
 */
module AuthApp {
  import opened Wrappers
  import opened JsNumbers
  import opened AuthSpec

  class App {
    /** `req.app.locals.OTP` */
    var otp: Option<string>
    /** `req.app.locals.lastOTPTime` */
    var lastOtpTime: Option<int>
    /** `req.app.locals.resetSession` */
    var resetSession: bool
    /** The user collection, keyed by email. */
    var users: Users

    function Cells(): Locals
      reads this
    {
      Locals(otp, lastOtpTime, resetSession)
    }

    /** The outstanding code, when there is one, is a six-digit string. */
    ghost predicate Valid()
      reads this
    {
      LocalsValid(Cells())
    }

    /** Process start: no code, no timestamp, no session. */
    constructor (users: Users)
      ensures Valid() && Cells() == InitialLocals && this.users == users
    {
      otp, lastOtpTime, resetSession := None, None, false;
      this.users := users;
    }

    method GenerateOtp(now: int, code: string, email: Option<string>, name: Option<string>,
                       reason: Option<string>, delivery: Delivery) returns (reply: Reply, mail: Option<Mail>)
      requires Valid() && IsOtpCode(code)
      modifies this
      ensures Valid()
      ensures Generated(Cells(), reply, mail) ==
        AuthSpec.GenerateOtp(old(Cells()), now, code, email, name, reason, delivery)
      ensures users == old(users)
    {
      var last := if lastOtpTime.Some? then lastOtpTime.value else 0;
      if now - last < RateLimitMs {
        return Reply(429, RateLimitedMessage), None;
      }
      lastOtpTime := Some(now);
      otp := Some(code);
      var template := if reason == Some(ForgotPassword) then ResetPasswordMail else VerifyAccount;
      mail := Some(Mail(email, name, template, code));
      match delivery {
        case Delivered => reply := Reply(200, "OTP sent");
        case DeliveryFailed(e) => reply := Reply(500, e);
      }
    }

    method VerifyOtp(code: Option<string>) returns (reply: Reply)
      requires Valid()
      modifies this
      ensures Valid()
      ensures Outcome(Cells(), reply) == AuthSpec.VerifyOtp(old(Cells()), code)
      ensures users == old(users)
    {
      if CodesMatch(code, otp) {
        otp := None;
        resetSession := true;
        return Reply(200, "OTP verified");
      }
      return Reply(403, "Wrong OTP");
    }

    method CreateResetSession() returns (reply: Reply)
      requires Valid()
      modifies this
      ensures Valid()
      ensures Outcome(Cells(), reply) == AuthSpec.CreateResetSession(old(Cells()))
      ensures users == old(users)
    {
      if resetSession {
        resetSession := false;
        return Reply(200, "Access granted");
      }
      return Reply(400, SessionExpiredMessage);
    }

    method ResetPassword(email: string, password: Option<string>, newHash: string) returns (reply: Reply)
      requires Valid()
      modifies this
      ensures Valid()
      ensures Transition(Cells(), users, reply) ==
        AuthSpec.ResetPassword(old(Cells()), old(users), email, password, newHash)
    {
      if !resetSession {
        return Reply(440, SessionExpiredMessage);
      }
      if email !in users {
        return Reply(404, "User not found");
      }
      var user := users[email];
      if user.role != Admin {
        return Reply(403, "You are not an admin login as an admin");
      }
      if password.None? {
        return Reply(500, HashArgumentsMessage);
      }
      users := users[email := user.(passwordHash := newHash)];
      resetSession := false;
      return Reply(200, "Password reset successful");
    }

    method AdminRegister(email: Option<string>, password: Option<string>, username: string,
                         newHash: string) returns (result: AuthResult)
      requires Valid()
      modifies this
      ensures Valid() && Cells() == old(Cells())
      ensures Registered(users, result) == AuthSpec.AdminRegister(old(users), email, password, username, newHash)
    {
      if !Present(email) {
        return Refused(Reply(422, "Missing email."));
      }
      if email.value in users {
        return Refused(Reply(409, "Email is already in use."));
      }
      if password.None? {
        return Refused(Reply(500, HashArgumentsMessage));
      }
      var user := User(username, Admin, newHash);
      users := users[email.value := user];
      return Authenticated(Token(email.value), user);
    }

    method UpdatePassword(id: string, oldPassword: Option<string>, password: Option<string>, newHash: string,
                          matches: (string, string) -> bool) returns (reply: Reply)
      requires Valid()
      modifies this
      ensures Valid() && Cells() == old(Cells())
      ensures StoreUpdate(users, reply) ==
        AuthSpec.UpdatePassword(old(users), id, oldPassword, password, newHash, matches)
    {
      if !Present(oldPassword) {
        return Reply(422, "Missing old password.");
      }
      if !Present(password) {
        return Reply(422, "Missing new password.");
      }
      if id !in users {
        return Reply(500, NullUserMessage);
      }
      var user := users[id];
      if !matches(oldPassword.value, user.passwordHash) {
        return Reply(403, "Incorrect password");
      }
      users := users[id := user.(passwordHash := newHash)];
      return Reply(200, "Password updated successfully");
    }
  }
}
