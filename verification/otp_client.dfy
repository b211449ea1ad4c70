/**
 * The OTP screen of the WorkPulse client (client/src/components/OTP.jsx): the
 * countdown arithmetic as functions, and the component's state as a class
 * whose methods are the event handlers, the effects and the interval ticks.
 *
 * Times are integer milliseconds since the epoch, passed in as `now`. A network
 * call that the component awaits is split in two: the handler that issues it
 * and a `...Settled` method that takes its outcome as a parameter.
 */
module OtpClient {
  import opened Wrappers
  import opened JsNumbers

  /** The resend cooldown the screen counts down: 60 seconds. */
  const CooldownMs := 60000
  const OtpLength := 6
  /** The timer text before mount, and the text the hide effect looks for. */
  const ZeroTimerText := "00:00"
  /** The timer text clearTimer sets when a countdown starts. */
  const FullTimerText := "01:00"

  // ---------------------------------------------------------------------------
  // Countdown arithmetic
  // ---------------------------------------------------------------------------

  /**
   * `Date.parse(d)` of a Date `d`: the Date is first turned into its string
   * form, which has whole seconds, so the milliseconds are lost.
   */
  function DateParse(t: int): (r: int)
    ensures r % 1000 == 0 && r <= t < r + 1000
  {
    (t / 1000) * 1000
  }

  /** JavaScript's `%`: the remainder takes the sign of the dividend. */
  function JsRem(a: int, m: int): (r: int)
    requires m > 0
    ensures a >= 0 ==> r == a % m
    ensures a < 0 ==> -m < r <= 0 && (a - r) % m == 0
  {
    if a >= 0 then a % m
    else
      var r := -((-a) % m);
      DivModUnique(a - r, m, -((-a) / m), 0);
      r
  }

  /** `Math.floor((total / unit) % modulus)` for an integer number of milliseconds. */
  function FloorRem(total: int, unit: int, modulus: int): (r: int)
    requires unit > 0 && modulus > 0
    ensures total >= 0 ==> r == (total / unit) % modulus
    ensures total < 0 ==> -modulus <= r <= 0
  {
    var rem := JsRem(total, unit * modulus);
    if total >= 0 then
      RemThenDiv(total, unit, modulus);
      rem / unit
    else
      RemainderOverUnit(rem, unit, modulus);
      rem / unit
  }

  /** A remainder above `-unit * modulus`, floored over `unit`, is at least `-modulus`. */
  lemma RemainderOverUnit(rem: int, unit: int, modulus: int)
    requires unit > 0 && modulus > 0 && -(unit * modulus) < rem <= 0
    ensures -modulus <= rem / unit <= 0
  {
    var q, e := rem / unit, rem % unit;
    assert rem == q * unit + e && 0 <= e < unit;
    assert (q + modulus + 1) * unit == rem - e + unit * modulus + unit;
    ProductSign(q + modulus + 1, unit);
    ProductSign(q, unit);
  }

  /** With a positive factor, a product has the sign of the other factor. */
  lemma ProductSign(x: int, u: int)
    requires u > 0
    ensures x * u > 0 <==> x > 0
  {
  }

  datatype TimeRemaining = TimeRemaining(total: int, hours: int, minutes: int, seconds: int)

  /**
   * getTimeRemaining (OTP.jsx:91-102). For a deadline not yet passed the
   * parts are the usual clock fields of the remaining time.
   */
  function GetTimeRemaining(deadline: int, now: int): (r: TimeRemaining)
    ensures r.total == DateParse(deadline) - DateParse(now) && r.total % 1000 == 0
    ensures r.total >= 0 ==>
      r.seconds == (r.total / 1000) % 60 && r.minutes == (r.total / 60000) % 60 &&
      r.hours == (r.total / 3600000) % 24
    ensures r.total >= 0 ==> 0 <= r.seconds <= 59 && 0 <= r.minutes <= 59 && 0 <= r.hours <= 23
    ensures 0 <= r.total < 3600000 ==> r.minutes * 60 + r.seconds == r.total / 1000
    ensures r.total < 0 ==> -60 <= r.seconds <= 0 && -60 <= r.minutes <= 0
  {
    var total := DateParse(deadline) - DateParse(now);
    WholeSecondsApart(deadline, now);
    ClockFields(total);
    TimeRemaining(total, FloorRem(total, 3600000, 24), FloorRem(total, 60000, 60), FloorRem(total, 1000, 60))
  }

  /** Two parsed dates are a whole number of seconds apart. */
  lemma WholeSecondsApart(a: int, b: int)
    ensures (DateParse(a) - DateParse(b)) % 1000 == 0
  {
    var k := a / 1000 - b / 1000;
    assert DateParse(a) - DateParse(b) == 1000 * k;
  }

  /** The clock fields getTimeRemaining computes from a total. */
  lemma ClockFields(total: int)
    ensures total >= 0 ==>
      FloorRem(total, 1000, 60) == (total / 1000) % 60 &&
      FloorRem(total, 60000, 60) == (total / 60000) % 60 &&
      FloorRem(total, 3600000, 24) == (total / 3600000) % 24
    ensures 0 <= total < 3600000 ==>
      FloorRem(total, 60000, 60) * 60 + FloorRem(total, 1000, 60) == total / 1000
    ensures total < 0 ==> -60 <= FloorRem(total, 1000, 60) <= 0 && -60 <= FloorRem(total, 60000, 60) <= 0
  {
    if total >= 0 {
      RemThenDiv(total, 1000, 60);
      RemThenDiv(total, 60000, 60);
      RemThenDiv(total, 3600000, 24);
      if total < 3600000 {
        assert (total / 1000) / 60 == total / 60000;
        assert total / 60000 < 60;
      }
    }
  }

  /** Division with remainder is unique. */
  lemma DivModUnique(a: int, u: int, d: int, e: int)
    requires u > 0 && a == d * u + e && 0 <= e < u
    ensures a / u == d && a % u == e
  {
    var k := d - a / u;
    assert k * u == a % u - e;
  }

  /**
   * For a non-negative count, taking the remainder by `u * m` and then
   * dividing by `u` is dividing by `u` and taking the remainder by `m`; and
   * dividing by `u` then by `m` is dividing by `u * m`.
   */
  lemma RemThenDiv(a: int, u: int, m: int)
    requires a >= 0 && u > 0 && m > 0
    ensures (a % (u * m)) / u == (a / u) % m
    ensures (a / u) / m == a / (u * m)
  {
    var q, r := a / (u * m), a % (u * m);
    var r1, r0 := r / u, r % u;
    assert r == r1 * u + r0;
    assert r1 < m;
    assert a == (q * m + r1) * u + r0;
    DivModUnique(a, u, q * m + r1, r0);
    DivModUnique(a / u, m, q, r1);
  }

  /** getDeadTime (OTP.jsx:124-128): one cooldown from now. */
  function GetDeadTime(now: int): (deadline: int)
    ensures deadline - now == CooldownMs
  {
    now + CooldownMs
  }

  /** `${n > 9 ? n : `0${n}`}`: two digits, a zero prepended exactly to 0..9. */
  function TwoDigits(n: nat): (s: string)
    requires n < 100
    ensures |s| == 2 && IsDigits(s) && DecimalValue(s) == n
    ensures s[0] == '0' <==> n <= 9
  {
    var digits := DecimalString(n);
    if n > 9 then
      assert |DecimalString(n / 10)| == 1;
      digits
    else
      DecimalValueLeadingZero(digits);
      "0" + digits
  }

  /**
   * The text startTimer sets (OTP.jsx:107-111), "MM : SS seconds"; minutes and
   * seconds read back from their two-digit fields.
   */
  function CountdownText(minutes: nat, seconds: nat): (s: string)
    requires minutes < 60 && seconds < 60
    ensures |s| == 15 && s[2..5] == " : " && s[7..] == " seconds"
    ensures IsDigits(s[..2]) && DecimalValue(s[..2]) == minutes
    ensures IsDigits(s[5..7]) && DecimalValue(s[5..7]) == seconds
  {
    var mm, ss := TwoDigits(minutes), TwoDigits(seconds);
    var s := mm + " : " + ss + " seconds";
    assert s[..2] == mm && s[5..7] == ss;
    s
  }

  /**
   * startTimer (OTP.jsx:104-113): the timer text after one interval tick. It
   * changes only while the deadline has not passed.
   */
  function StartTimer(timer: string, deadline: int, now: int): (t: string)
    ensures GetTimeRemaining(deadline, now).total < 0 ==> t == timer
    ensures GetTimeRemaining(deadline, now).total >= 0 ==>
      var r := GetTimeRemaining(deadline, now);
      |t| == 15 && t[2..5] == " : " && t[7..] == " seconds" &&
      IsDigits(t[..2]) && IsDigits(t[5..7]) &&
      DecimalValue(t[..2]) == r.minutes && DecimalValue(t[5..7]) == r.seconds
  {
    var r := GetTimeRemaining(deadline, now);
    if r.total >= 0 then CountdownText(r.minutes, r.seconds) else timer
  }

  /** The test of the hide effect (OTP.jsx:207-211). */
  predicate HidesTimer(timer: string)
    ensures HidesTimer(timer) ==> |timer| == 5 && timer != FullTimerText
  {
    timer == ZeroTimerText
  }

  /**
   * The hide effect never fires on a countdown text: the tick writes
   * "00 : 00 seconds", never "00:00".
   */
  lemma CountdownNeverHides(timer: string, deadline: int, now: int)
    requires !HidesTimer(timer)
    ensures !HidesTimer(StartTimer(timer, deadline, now))
  {
  }

  /**
   * A countdown started at `start` shows, `k` whole seconds later, the
   * `60 - k` seconds that remain, down to "00 : 00 seconds" at the deadline;
   * after that the text stays as it was.
   */
  lemma {:induction false} CountdownShowsRemainingSeconds(start: int, k: int, timer: string)
    requires 0 <= k
    ensures var r := GetTimeRemaining(GetDeadTime(start), start + 1000 * k);
      (k <= 60 ==> r.total == 1000 * (60 - k) && r.minutes * 60 + r.seconds == 60 - k) &&
      (k > 60 ==> StartTimer(timer, GetDeadTime(start), start + 1000 * k) == timer)
  {
    ShiftDateParse(start, 1000 * k);
    ShiftDateParse(start, CooldownMs);
  }

  /** Whole seconds move through Date.parse unchanged. */
  lemma ShiftDateParse(t: int, shift: int)
    requires shift % 1000 == 0
    ensures DateParse(t + shift) == DateParse(t) + shift
  {
    var q := shift / 1000;
    assert shift == 1000 * q;
    assert t + shift == 1000 * (t / 1000 + q) + t % 1000;
  }

  // ---------------------------------------------------------------------------
  // The component
  // ---------------------------------------------------------------------------

  datatype Severity = Success | Error

  /** A snackbar notification dispatched to the store. */
  datatype Snack = Snack(message: string, severity: Severity)

  const SentMessage := "OTP sent Successfully"

  /**
   * What a rejected request carried: no response at all (the network
   * failed), or a response whose body may hold a `message`.
   */
  datatype ErrorReply = NoResponse | Answered(message: Option<string>)

  /**
   * How an awaited request ended: the promise resolved with a status, or it
   * was rejected, with the error's own `message` beside whatever came back.
   */
  datatype Response = Resolved(status: int) | Rejected(reply: ErrorReply, errorMessage: string)

  /**
   * sendOtp's snackbar text, `err.response?.data?.message || err.message`:
   * the server's message when it sent a non-empty one, the error's otherwise.
   */
  function SendFailureMessage(reply: ErrorReply, errorMessage: string): (m: string)
    ensures reply.Answered? && reply.message.Some? && reply.message.value != "" ==> m == reply.message.value
    ensures reply.NoResponse? || reply.message.None? || reply.message.value == "" ==> m == errorMessage
  {
    match reply
    case Answered(Some(message)) => if message != "" then message else errorMessage
    case _ => errorMessage
  }

  /**
   * What the screen renders from: the component's state variables, whether
   * `setOtpVerified(true)` has been called on the parent, and the last
   * snackbar dispatched. `otpError` is `None` once it has been set to
   * `undefined`.
   */
  datatype Screen = Screen(otp: string, otpError: Option<string>, otpLoading: bool, disabled: bool,
                           showTimer: bool, otpSent: bool, timer: string,
                           verifiedSignalled: bool, snack: Option<Snack>)

  /** The initial values of the state hooks (OTP.jsx:80-86). */
  const InitialScreen := Screen("", Some(""), false, true, false, false, ZeroTimerText, false, None)

  /**
   * The Resend control (OTP.jsx:282-290): once the form is shown, either the
   * countdown or the Resend control is rendered, never both.
   */
  predicate ResendShown(s: Screen)
    ensures ResendShown(s) ==> s.otpSent
    ensures s.otpSent ==> (ResendShown(s) <==> !s.showTimer)
  {
    s.otpSent && !s.showTimer
  }

  /**
   * The two reactive effects after a commit (OTP.jsx:207-220): `rendered` is
   * the state of the previous commit and `s` the state a handler produced.
   * The effect on `timer` runs when `timer` changed, the one on `otp` when
   * `otp` changed; nothing but `showTimer` and `disabled` is touched.
   */
  function Commit(rendered: Screen, s: Screen): (r: Screen)
    ensures r == s.(showTimer := r.showTimer, disabled := r.disabled)
    ensures r.showTimer <==> s.showTimer && !(s.timer != rendered.timer && HidesTimer(s.timer))
    ensures s.otp != rendered.otp ==> (r.disabled <==> |s.otp| != OtpLength)
    ensures s.otp == rendered.otp ==> r.disabled == s.disabled
  {
    var afterTimer := if s.timer != rendered.timer && HidesTimer(s.timer) then s.(showTimer := false) else s;
    if s.otp != rendered.otp then afterTimer.(disabled := |s.otp| != OtpLength) else afterTimer
  }

  /**
   * sendOtp once generateOtp has settled (OTP.jsx:131-158), effects
   * included. Success clears the form and shows the countdown; a rejection
   * reveals the form all the same; another status changes nothing.
   */
  function SendSettled(s: Screen, response: Response): (r: Screen)
    ensures response == Resolved(200) ==>
      r == s.(otp := "", otpError := Some(""), disabled := true, otpLoading := false, otpSent := true,
              showTimer := true, snack := Some(Snack(SentMessage, Success)))
    ensures response.Rejected? ==>
      r == s.(otpLoading := false, otpSent := true,
              snack := Some(Snack(SendFailureMessage(response.reply, response.errorMessage), Error)))
    ensures response.Resolved? && response.status != 200 ==> r == s
    ensures r.timer == s.timer && (s.showTimer ==> r.showTimer)
  {
    Commit(s,
      match response
      case Resolved(status) =>
        if status == 200 then
          s.(snack := Some(Snack(SentMessage, Success)), disabled := true, otp := "", otpError := Some(""),
             otpLoading := false, otpSent := true, showTimer := true)
        else s
      case Rejected(reply, errorMessage) =>
        s.(snack := Some(Snack(SendFailureMessage(reply, errorMessage), Error)),
           otpLoading := false, otpSent := true))
  }

  /**
   * A click on Submit (OTP.jsx:167-171), before verifyOtp answers: the
   * spinner shows and the button is disabled; nothing else changes, and no
   * effect runs since neither `timer` nor `otp` changed.
   */
  function Submit(s: Screen): (r: Screen)
    ensures r.otpLoading && r.disabled
    ensures r.(otpLoading := s.otpLoading, disabled := s.disabled) == s
  {
    s.(otpLoading := true, disabled := true)
  }

  /**
   * validateOtp once verifyOtp has settled (OTP.jsx:172-194), effects
   * included. On success the cleared code re-disables Submit unless it was
   * already empty. A server answer puts its message, possibly undefined,
   * under the input; only a request that got no answer at all also raises
   * a snackbar. The entered code is kept on failure.
   */
  function VerifySettled(s: Screen, response: Response): (r: Screen)
    ensures response == Resolved(200) ==>
      r == s.(verifiedSignalled := true, otp := "", otpError := Some(""), otpLoading := false,
              disabled := s.otp != "")
    ensures response.Rejected? && response.reply.Answered? ==>
      r == s.(otpError := response.reply.message, disabled := false, otpLoading := false)
    ensures response.Rejected? && response.reply.NoResponse? ==>
      r == s.(otpError := Some(response.errorMessage), disabled := false, otpLoading := false,
              snack := Some(Snack(response.errorMessage, Error)))
    ensures response.Resolved? && response.status != 200 ==> r == s
    ensures r.showTimer == s.showTimer && r.timer == s.timer && r.otpSent == s.otpSent
  {
    Commit(s,
      match response
      case Resolved(status) =>
        if status == 200 then
          s.(verifiedSignalled := true, otp := "", otpError := Some(""), disabled := false, otpLoading := false)
        else s
      case Rejected(Answered(message), _) =>
        s.(otpError := message, disabled := false, otpLoading := false)
      case Rejected(NoResponse, errorMessage) =>
        s.(snack := Some(Snack(errorMessage, Error)), otpError := Some(errorMessage),
           disabled := false, otpLoading := false))
  }

  /** The user edits the code (`onChange={setOtp}`), effects included. */
  function Typed(s: Screen, value: string): (r: Screen)
    ensures r.otp == value && r.showTimer == s.showTimer
    ensures value != s.otp ==> (r.disabled <==> |value| != OtpLength)
    ensures value == s.otp ==> r == s
    ensures r == s.(otp := value, disabled := r.disabled)
  {
    Commit(s, s.(otp := value))
  }

  /**
   * resendOtp (OTP.jsx:160-164) up to issuing the request: the countdown is
   * shown and reset to "01:00", which the hide effect does not react to.
   */
  function Resend(s: Screen): (r: Screen)
    ensures r == s.(showTimer := true, timer := FullTimerText)
    ensures !ResendShown(r)
  {
    Commit(s, s.(showTimer := true, timer := FullTimerText))
  }

  /**
   * One firing of the interval counting to `deadline` (OTP.jsx:117-120),
   * effects included: the text startTimer computes, and nothing else.
   */
  function TickStep(s: Screen, deadline: int, now: int): (r: Screen)
    ensures r == s.(timer := StartTimer(s.timer, deadline, now))
  {
    var t := StartTimer(s.timer, deadline, now);
    assert t != s.timer ==> !HidesTimer(t);
    Commit(s, s.(timer := t))
  }

  /** What can happen to a mounted screen. */
  datatype Event =
    | SendSettledWith(sendResponse: Response)
    | VerifySettledWith(verifyResponse: Response)
    | Entered(value: string)
    | SubmitClicked
    | ResendClicked
    | TickAt(deadline: int, now: int)

  /**
   * The screen after one event. Only a successful verification signals the
   * parent, only a settled send reveals the form, and only a resend or a
   * tick touches the timer text.
   */
  function Step(s: Screen, e: Event): (r: Screen)
    ensures r.verifiedSignalled ==> s.verifiedSignalled || e == VerifySettledWith(Resolved(200))
    ensures r.otpSent ==> s.otpSent || e.SendSettledWith?
    ensures r.timer != s.timer ==> e.ResendClicked? || e.TickAt?
  {
    match e
    case SendSettledWith(response) => SendSettled(s, response)
    case VerifySettledWith(response) => VerifySettled(s, response)
    case Entered(value) => Typed(s, value)
    case SubmitClicked => Submit(s)
    case ResendClicked => Resend(s)
    case TickAt(deadline, now) => TickStep(s, deadline, now)
  }

  /**
   * The screen after a sequence of events: the parent hears of a
   * verification only if verifyOtp answered 200 at some point, and the form
   * appears only after some generateOtp call settled.
   */
  function Run(s: Screen, events: seq<Event>): (r: Screen)
    ensures r.verifiedSignalled ==> s.verifiedSignalled || VerifySettledWith(Resolved(200)) in events
    ensures r.otpSent ==> s.otpSent || exists i :: 0 <= i < |events| && events[i].SendSettledWith?
    decreases |events|
  {
    if events == [] then s
    else
      var r := Run(Step(s, events[0]), events[1..]);
      assert r.otpSent && !s.otpSent && !Step(s, events[0]).otpSent ==>
        exists i :: 1 <= i < |events| && events[i].SendSettledWith? by {
        if r.otpSent && !s.otpSent && !Step(s, events[0]).otpSent {
          var j :| 0 <= j < |events[1..]| && events[1..][j].SendSettledWith?;
          assert events[j + 1].SendSettledWith?;
        }
      }
      r
  }

  /**
   * Once the countdown is shown it stays shown, whatever happens: no text
   * the screen ever holds after "00:00" is "00:00" again, so the hide effect
   * never fires, and no handler hides the countdown itself.
   */
  lemma {:induction false} CountdownStaysShown(s: Screen, events: seq<Event>)
    requires s.showTimer && !HidesTimer(s.timer)
    ensures Run(s, events).showTimer && !HidesTimer(Run(s, events).timer)
    ensures !ResendShown(Run(s, events))
    decreases |events|
  {
    if events != [] {
      var next := Step(s, events[0]);
      if events[0].TickAt? {
        CountdownNeverHides(s.timer, events[0].deadline, events[0].now);
      }
      assert next.showTimer && !HidesTimer(next.timer);
      CountdownStaysShown(next, events[1..]);
    }
  }

  /** After a successful send the Resend control never appears again. */
  lemma ResendNeverAfterSuccessfulSend(s: Screen, events: seq<Event>)
    requires !HidesTimer(s.timer)
    ensures !ResendShown(Run(SendSettled(s, Resolved(200)), events))
  {
    CountdownStaysShown(SendSettled(s, Resolved(200)), events);
  }

  /**
   * The mounted component. Its state hooks are the one field `screen`: the
   * setters a handler calls take effect together at the next commit, so each
   * handler replaces `screen` with the record of all its updates, and the
   * effects then run on what changed.
   */
  class Otp {
    var screen: Screen
    /** `Ref.current`: the handle of the last interval started. */
    var timerRef: Option<nat>
    /** The intervals still running: handle to the deadline its startTimer counts to. */
    var intervals: map<nat, int>
    /** The handle the next setInterval returns; browsers never hand out 0. */
    var nextHandle: nat
    /** generateOtp calls issued whose promise has not settled. */
    var pendingSends: nat
    /** verifyOtp calls issued whose promise has not settled. */
    var pendingVerifies: nat

    /** At most one interval runs, and it is the one `Ref.current` holds. */
    ghost predicate IntervalsValid()
      reads this
    {
      && 0 < nextHandle
      && (forall h :: h in intervals ==> timerRef == Some(h))
      && (timerRef.Some? ==> 0 < timerRef.value < nextHandle)
    }

    /** The state of a mounted screen: the timer text is never "00:00" again. */
    ghost predicate Valid()
      reads this
    {
      IntervalsValid() && !HidesTimer(screen.timer)
    }

    /** The Resend control is rendered instead of the countdown. */
    predicate ResendVisible()
      reads this
    {
      ResendShown(screen)
    }

    /**
     * The first commit (OTP.jsx:80-88, 197-220): the initial state, then the
     * effects in order. The mount effect starts the countdown and issues one
     * generateOtp; the hide effect sees the initial "00:00" and hides the
     * countdown; the otp effect disables Submit.
     */
    constructor Mount(now: int)
      ensures Valid()
      ensures screen == InitialScreen.(timer := FullTimerText) && !ResendVisible()
      ensures timerRef == Some(1) && intervals == map[1 := GetDeadTime(now)] && nextHandle == 2
      ensures pendingSends == 1 && pendingVerifies == 0
    {
      screen := InitialScreen;
      timerRef, intervals, nextHandle := None, map[], 1;
      pendingSends, pendingVerifies := 0, 0;
      new;
      var rendered := screen;
      ClearTimer(GetDeadTime(now));
      pendingSends := pendingSends + 1;
      if HidesTimer(rendered.timer) {
        screen := screen.(showTimer := false);
      }
      screen := screen.(disabled := |rendered.otp| != OtpLength);
    }

    /** The effects after a commit that changed `timer` or `otp` (OTP.jsx:207-220). */
    method CommitEffects(rendered: Screen)
      modifies this`screen
      ensures screen == Commit(rendered, old(screen))
    {
      if screen.timer != rendered.timer && HidesTimer(screen.timer) {
        screen := screen.(showTimer := false);
      }
      if screen.otp != rendered.otp {
        screen := screen.(disabled := |screen.otp| != OtpLength);
      }
    }

    /**
     * clearTimer (OTP.jsx:115-122): reset the text, stop the running interval
     * and start one that counts to `deadline`.
     */
    method ClearTimer(deadline: int)
      requires IntervalsValid()
      modifies this`screen, this`timerRef, this`intervals, this`nextHandle
      ensures IntervalsValid()
      ensures screen == old(screen).(timer := FullTimerText)
      ensures intervals == map[old(nextHandle) := deadline] && timerRef == Some(old(nextHandle))
      ensures nextHandle == old(nextHandle) + 1
    {
      screen := screen.(timer := FullTimerText);
      if timerRef.Some? {
        intervals := intervals - {timerRef.value};
      }
      assert intervals == map[];
      var handle := nextHandle;
      nextHandle := nextHandle + 1;
      intervals := intervals[handle := deadline];
      timerRef := Some(handle);
    }

    /** One firing of the running interval: startTimer against its deadline. */
    method Tick(now: int)
      requires Valid()
      modifies this`screen
      ensures Valid()
      ensures timerRef.Some? && timerRef.value in intervals ==>
        screen == TickStep(old(screen), intervals[timerRef.value], now)
      ensures !(timerRef.Some? && timerRef.value in intervals) ==> screen == old(screen)
    {
      if timerRef.Some? && timerRef.value in intervals {
        var rendered := screen;
        screen := screen.(timer := StartTimer(screen.timer, intervals[timerRef.value], now));
        CountdownNeverHides(rendered.timer, intervals[timerRef.value], now);
        CommitEffects(rendered);
      }
    }

    /** The settling of sendOtp's generateOtp call (OTP.jsx:131-158). */
    method SendOtpSettled(response: Response)
      requires Valid() && pendingSends > 0
      modifies this`screen, this`pendingSends
      ensures Valid()
      ensures screen == SendSettled(old(screen), response)
      ensures pendingSends == old(pendingSends) - 1
    {
      var rendered := screen;
      pendingSends := pendingSends - 1;
      match response {
        case Resolved(status) =>
          if status == 200 {
            screen := screen.(snack := Some(Snack(SentMessage, Success)), disabled := true, otp := "",
                              otpError := Some(""), otpLoading := false, otpSent := true, showTimer := true);
          }
        case Rejected(reply, errorMessage) =>
          screen := screen.(snack := Some(Snack(SendFailureMessage(reply, errorMessage), Error)),
                            otpLoading := false, otpSent := true);
      }
      CommitEffects(rendered);
    }

    /**
     * resendOtp (OTP.jsx:160-164): show the countdown, restart it for a fresh
     * deadline and issue generateOtp, before the server has answered.
     */
    method ResendOtp(now: int)
      requires Valid()
      modifies this`screen, this`timerRef, this`intervals, this`nextHandle, this`pendingSends
      ensures Valid()
      ensures screen == Resend(old(screen))
      ensures intervals == map[old(nextHandle) := GetDeadTime(now)] && timerRef == Some(old(nextHandle))
      ensures nextHandle == old(nextHandle) + 1 && pendingSends == old(pendingSends) + 1
    {
      var rendered := screen;
      screen := screen.(showTimer := true);
      ClearTimer(GetDeadTime(now));
      pendingSends := pendingSends + 1;
      CommitEffects(rendered);
    }

    /**
     * A click on Submit (OTP.jsx:167-171): the button is only styled as
     * disabled, so the click is taken whatever the entered code.
     */
    method ValidateOtp()
      requires Valid()
      modifies this`screen, this`pendingVerifies
      ensures Valid()
      ensures screen == Submit(old(screen)) && pendingVerifies == old(pendingVerifies) + 1
    {
      screen := screen.(otpLoading := true, disabled := true);
      pendingVerifies := pendingVerifies + 1;
    }

    /** The settling of validateOtp's verifyOtp call (OTP.jsx:172-193). */
    method ValidateOtpSettled(response: Response)
      requires Valid() && pendingVerifies > 0
      modifies this`screen, this`pendingVerifies
      ensures Valid()
      ensures screen == VerifySettled(old(screen), response)
      ensures pendingVerifies == old(pendingVerifies) - 1
    {
      var rendered := screen;
      pendingVerifies := pendingVerifies - 1;
      match response {
        case Resolved(status) =>
          if status == 200 {
            screen := screen.(verifiedSignalled := true, otp := "", otpError := Some(""), disabled := false,
                              otpLoading := false);
          }
        case Rejected(reply, errorMessage) =>
          if reply.Answered? {
            screen := screen.(otpError := reply.message);
          } else {
            screen := screen.(snack := Some(Snack(errorMessage, Error)), otpError := Some(errorMessage));
          }
          screen := screen.(disabled := false, otpLoading := false);
      }
      CommitEffects(rendered);
    }

    /** The user edits the code in the six-box input (`onChange={setOtp}`). */
    method EnterOtp(value: string)
      requires Valid()
      modifies this`screen
      ensures Valid()
      ensures screen == Typed(old(screen), value)
    {
      var rendered := screen;
      screen := screen.(otp := value);
      CommitEffects(rendered);
    }

    /** The mount effect's cleanup (OTP.jsx:201-203): the running interval stops. */
    method Unmount()
      requires Valid()
      modifies this`intervals
      ensures Valid() && intervals == map[]
    {
      if timerRef.Some? {
        intervals := intervals - {timerRef.value};
      }
    }
  }
}
