/** The controller (johnnyv/core/Controller.py): the encoders that turn a
    joint move into a `"pin:pulse:time"` token, the token check, the shared
    execution stack and the registry of servos notified after a move. */
module Control {
  import opened PyValues
  import opened Text
  import opened Joints
  import opened Board

  // ---------------------------------------------------------------------
  // Encoders

  /** `int(n / m)` for a positive divisor: the quotient truncated toward zero. */
  function TruncDiv(n: int, m: int): int
    requires m > 0
  {
    if n >= 0 then n / m else -((-n) / m)
  }

  /** `convert_degree`: `int(500 + (100 / 9) * degree)`, computed exactly
      as the truncation of `(4500 + 100 * degree) / 9`. */
  function ConvertDegree(degree: int): int {
    TruncDiv(4500 + 100 * degree, 9)
  }

  /** For a non-negative degree the pulse is `500 + floor(100 * degree / 9)`. */
  lemma ConvertDegreeFloor(degree: int)
    requires degree >= 0
    ensures ConvertDegree(degree) == 500 + (100 * degree) / 9
  {
    assert 4500 + 100 * degree == 9 * 500 + 100 * degree;
  }

  /** The logical range 0..180 degrees lands on the board's 500..2500 pulses. */
  lemma ConvertDegreeRange(degree: int)
    requires 0 <= degree <= 180
    ensures 500 <= ConvertDegree(degree) <= 2500
    ensures degree == 0 ==> ConvertDegree(degree) == 500
    ensures degree == 180 ==> ConvertDegree(degree) == 2500
  {
    ConvertDegreeFloor(degree);
  }

  /** A larger degree never gives a smaller pulse. */
  lemma ConvertDegreeMonotone(a: int, b: int)
    requires a <= b
    ensures ConvertDegree(a) <= ConvertDegree(b)
  {
    var na, nb := 4500 + 100 * a, 4500 + 100 * b;
    if na < 0 && nb >= 0 {
    } else if na < 0 {
      assert -nb <= -na;
      DivMonotone(-nb, -na, 9);
    } else {
      DivMonotone(na, nb, 9);
    }
  }

  lemma DivMonotone(x: int, y: int, m: int)
    requires 0 <= x <= y && m > 0
    ensures x / m <= y / m
  {
    var qx, qy := x / m, y / m;
    assert x == m * qx + x % m && y == m * qy + y % m;
    assert m * (qx - qy) < m;
    BelowOne(m, qx - qy);
  }

  lemma BelowOne(m: int, k: int)
    requires m > 0 && m * k < m
    ensures k <= 0
  {
    if k >= 1 {
      MulMonotone(1, k, m);
    }
  }

  /** The pulse is written without a minus sign exactly from -45 degrees up. */
  lemma ConvertDegreeNonNegative(degree: int)
    ensures ConvertDegree(degree) >= 0 <==> degree >= -45
  {
    var n := 4500 + 100 * degree;
    if degree >= -45 {
      assert n >= 0;
    } else {
      assert n <= -9;
      assert (-n) / 9 >= 1;
    }
  }

  /** `convert_pulse_width`: a move to the current position takes the full
      pulse width; any other move takes the share of the pulse width that its
      travel is of the span, truncated; a zero span then divides by zero. */
  function ConvertPulseWidth(currentPosition: int, degree: int, pulseSpan: nat, pulseWidth: int): Outcome<int> {
    if currentPosition == degree then Return(pulseWidth)
    else if pulseSpan == 0 then Raise(ZeroDivisionError)
    else Return(TruncDiv(Abs(currentPosition - degree) * pulseWidth, pulseSpan))
  }

  /** The duration of a real move is proportional to its travel: it is the
      largest whole number of milliseconds whose span-multiple does not
      exceed travel times pulse width. */
  lemma PulseWidthProportional(currentPosition: int, degree: int, pulseSpan: nat, pulseWidth: int)
    requires currentPosition != degree && pulseSpan > 0 && pulseWidth >= 0
    ensures ConvertPulseWidth(currentPosition, degree, pulseSpan, pulseWidth).Return?
    ensures var t := ConvertPulseWidth(currentPosition, degree, pulseSpan, pulseWidth).value;
            t * pulseSpan <= Abs(currentPosition - degree) * pulseWidth < (t + 1) * pulseSpan
  {
    var n := Abs(currentPosition - degree) * pulseWidth;
    assert n >= 0;
    var t := n / pulseSpan;
    assert n == t * pulseSpan + n % pulseSpan;
  }

  /** A move within the span lasts between zero and the full pulse width. */
  lemma PulseWidthBounded(currentPosition: int, degree: int, pulseSpan: nat, pulseWidth: int)
    requires pulseSpan > 0 && pulseWidth >= 0
    requires Abs(currentPosition - degree) <= pulseSpan
    ensures ConvertPulseWidth(currentPosition, degree, pulseSpan, pulseWidth).Return?
    ensures 0 <= ConvertPulseWidth(currentPosition, degree, pulseSpan, pulseWidth).value <= pulseWidth
  {
    if currentPosition != degree {
      var n := Abs(currentPosition - degree) * pulseWidth;
      MulMonotone(Abs(currentPosition - degree), pulseSpan, pulseWidth);
      DivMonotone(n, pulseSpan * pulseWidth, pulseSpan);
      MulDivCancel(pulseWidth, pulseSpan);
    }
  }

  lemma MulDivCancel(a: int, m: int)
    requires m > 0
    ensures (m * a) / m == a
  {
    var q := (m * a) / m;
    assert m * a == m * q + (m * a) % m;
    assert m * (a - q) == (m * a) % m;
    BelowOne(m, a - q);
    NonNegativeFactor(m, a - q);
  }

  lemma NonNegativeFactor(m: int, k: int)
    requires m > 0 && m * k >= 0
    ensures k >= 0
  {
    if k < 0 {
      MulMonotone(1, -k, m);
    }
  }

  lemma MulMonotone(a: int, b: int, c: int)
    requires 0 <= a <= b && c >= 0
    ensures a * c <= b * c
  {
  }

  /** Group moves: servos sharing span and pulse width finish together
      because a longer travel never gets a shorter duration. */
  lemma PulseWidthSynchronised(cur1: int, deg1: int, cur2: int, deg2: int, pulseSpan: nat, pulseWidth: int)
    requires pulseSpan > 0 && pulseWidth >= 0
    requires cur1 != deg1 && cur2 != deg2
    requires Abs(cur1 - deg1) <= Abs(cur2 - deg2)
    ensures ConvertPulseWidth(cur1, deg1, pulseSpan, pulseWidth).value
            <= ConvertPulseWidth(cur2, deg2, pulseSpan, pulseWidth).value
  {
    MulMonotone(Abs(cur1 - deg1), Abs(cur2 - deg2), pulseWidth);
    DivMonotone(Abs(cur1 - deg1) * pulseWidth, Abs(cur2 - deg2) * pulseWidth, pulseSpan);
  }

  /** The token `"pin:pulse:time"` for the three numbers, each as `str(n)`. */
  function NumberToken(pin: int, pulse: int, time: int): string {
    Token(IntToString(pin), IntToString(pulse), IntToString(time))
  }

  /** `get_servo_command`: the servo's pin, the pulse for `degree`, and the
      duration of the move from the servo's current position. */
  function GetServoCommand(servo: ServoMotor, degree: int): Outcome<string>
    reads servo
  {
    match ConvertPulseWidth(servo.currentPosition, degree, servo.pulseSpan, servo.pulseWidth)
    case Raise(e) => Raise(e)
    case Return(time) => Return(NumberToken(servo.pin, ConvertDegree(degree), time))
  }

  /** The motor's pulse: neutral 1500, pushed 300 plus twice the percentage
      away from it in the direction given. */
  function MotorPwm(direction: int, percentage: int): int {
    direction * (300 + 2 * percentage) + 1500
  }

  /** `get_motor_command`: the motor's pin, its pulse, and a fixed 1000 ms. */
  function GetMotorCommand(motor: GearedMotor, direction: int, percentage: int): string {
    Token(IntToString(motor.pin), IntToString(MotorPwm(direction, percentage)), "1000")
  }

  /** A motor token is the number token with a time of 1000. */
  lemma MotorTokenIsNumberToken(motor: GearedMotor, direction: int, percentage: int)
    ensures GetMotorCommand(motor, direction, percentage) == NumberToken(motor.pin, MotorPwm(direction, percentage), 1000)
  {
    assert IntToString(1000) == "1000";
  }

  /** Valid motor inputs give a pulse of 1500 at rest, 1800..2000 forward
      and 1000..1200 backward. */
  lemma MotorPwmRange(direction: int, percentage: int)
    requires direction in {-1, 0, 1} && 0 <= percentage <= 100
    ensures var pwm := MotorPwm(direction, percentage);
      && (direction == 0 ==> pwm == 1500)
      && (direction == 1 ==> 1800 <= pwm <= 2000)
      && (direction == -1 ==> 1000 <= pwm <= 1200)
      && (1000 <= pwm <= 1200 || pwm == 1500 || 1800 <= pwm <= 2000)
  {
  }

  /** The direction and percentage a moving motor's pulse stands for. */
  function DecodeMotorPwm(pwm: int): Option<(int, int)> {
    if 1800 <= pwm <= 2000 && (pwm - 1800) % 2 == 0 then Some((1, (pwm - 1800) / 2))
    else if 1000 <= pwm <= 1200 && (1200 - pwm) % 2 == 0 then Some((-1, (1200 - pwm) / 2))
    else None
  }

  /** A moving motor's pulse determines its direction and percentage. */
  lemma MotorPwmRoundTrip(direction: int, percentage: int)
    requires direction in {-1, 1} && 0 <= percentage <= 100
    ensures DecodeMotorPwm(MotorPwm(direction, percentage)) == Some((direction, percentage))
  {
    if direction == 1 {
      assert MotorPwm(direction, percentage) - 1800 == 2 * percentage;
    } else {
      assert 1200 - MotorPwm(direction, percentage) == 2 * percentage;
    }
  }

  // ---------------------------------------------------------------------
  // The token check

  /** The check `check_commands` applies to one string: exactly two colons
      and three digit-only fields. */
  predicate CheckToken(s: string) {
    Count(s, ':') == 2 && IsDigits(Split(s)[0]) && IsDigits(Split(s)[1]) && IsDigits(Split(s)[2])
  }

  /** `check_commands`: a list, of strings only, each with two colons, and
      every field of every string a non-empty run of digits. */
  predicate CheckCommands(commandList: Value) {
    && commandList.VList?
    && (forall i :: 0 <= i < |commandList.elems| ==> commandList.elems[i].VStr?)
    && (forall i :: 0 <= i < |commandList.elems| ==> Count(commandList.elems[i].s, ':') == 2)
    && (forall i :: 0 <= i < |commandList.elems| ==>
          var f := Split(commandList.elems[i].s);
          IsDigits(f[0]) && IsDigits(f[1]) && IsDigits(f[2]))
  }

  /** The strings of a list of strings. */
  function Strings(v: Value): (r: seq<string>)
    requires v.VList? && forall i :: 0 <= i < |v.elems| ==> v.elems[i].VStr?
    ensures |r| == |v.elems| && forall i :: 0 <= i < |r| ==> r[i] == v.elems[i].s
  {
    seq(|v.elems|, i requires 0 <= i < |v.elems| => v.elems[i].s)
  }

  /** A string passes the check exactly when it is three digit strings
      joined by colons. */
  lemma CheckTokenIff(s: string)
    ensures CheckToken(s) <==>
      exists a, b, c :: IsDigits(a) && IsDigits(b) && IsDigits(c) && s == Token(a, b, c)
  {
    if CheckToken(s) {
      TokenOfSplit(s);
      var f := Split(s);
      assert IsDigits(f[0]) && IsDigits(f[1]) && IsDigits(f[2]) && s == Token(f[0], f[1], f[2]);
    }
    forall a, b, c | IsDigits(a) && IsDigits(b) && IsDigits(c) && s == Token(a, b, c)
      ensures CheckToken(s)
    {
      DigitsHaveNoColon(a);
      DigitsHaveNoColon(b);
      DigitsHaveNoColon(c);
      SplitToken(a, b, c);
    }
  }

  lemma DigitsHaveNoColon(s: string)
    requires IsDigits(s)
    ensures ':' !in s
  {
  }

  /** `check_commands` accepts a list exactly when every element is a string
      that passes the token check; in particular it accepts the empty list. */
  lemma CheckCommandsIff(v: Value)
    ensures CheckCommands(v) <==>
      v.VList? && forall i :: 0 <= i < |v.elems| ==> v.elems[i].VStr? && CheckToken(v.elems[i].s)
    ensures v == VList([]) ==> CheckCommands(v)
  {
  }

  /** `check_commands` accepts a list exactly when every element is a
      string made of three digit strings joined by ':'. */
  lemma CheckCommandsTokens(v: Value)
    ensures CheckCommands(v) <==>
      v.VList? && forall i :: 0 <= i < |v.elems| ==>
        exists a, b, c :: IsDigits(a) && IsDigits(b) && IsDigits(c) && v.elems[i] == VStr(Token(a, b, c))
  {
    CheckCommandsIff(v);
    if v.VList? {
      forall i | 0 <= i < |v.elems|
        ensures (v.elems[i].VStr? && CheckToken(v.elems[i].s)) <==>
                exists a, b, c :: IsDigits(a) && IsDigits(b) && IsDigits(c) && v.elems[i] == VStr(Token(a, b, c))
      {
        if v.elems[i].VStr? {
          CheckTokenIff(v.elems[i].s);
        }
      }
      assert (forall i :: 0 <= i < |v.elems| ==> v.elems[i].VStr? && CheckToken(v.elems[i].s)) <==>
             (forall i :: 0 <= i < |v.elems| ==>
                exists a, b, c :: IsDigits(a) && IsDigits(b) && IsDigits(c) && v.elems[i] == VStr(Token(a, b, c)));
    }
  }

  /** A token built from three numbers passes the check exactly when none
      of them is negative; it then renders as `' #pin Ppulse Ttime'`. */
  lemma NumberTokenCheck(pin: int, pulse: int, time: int)
    ensures CheckToken(NumberToken(pin, pulse, time)) <==> pin >= 0 && pulse >= 0 && time >= 0
    ensures Renderable(NumberToken(pin, pulse, time))
    ensures Render(NumberToken(pin, pulse, time)) ==
              " #" + IntToString(pin) + " P" + IntToString(pulse) + " T" + IntToString(time)
  {
    IntToStringDigits(pin);
    IntToStringDigits(pulse);
    IntToStringDigits(time);
    SplitToken(IntToString(pin), IntToString(pulse), IntToString(time));
    RenderToken(IntToString(pin), IntToString(pulse), IntToString(time));
  }

  /** A motor token passes the check exactly when the pin and the pulse are
      not negative, so always for valid inputs on a non-negative pin. */
  lemma MotorTokenCheck(motor: GearedMotor, direction: int, percentage: int)
    ensures CheckToken(GetMotorCommand(motor, direction, percentage)) <==>
              motor.pin >= 0 && MotorPwm(direction, percentage) >= 0
    ensures direction in {-1, 0, 1} && 0 <= percentage <= 100 ==>
              (CheckToken(GetMotorCommand(motor, direction, percentage)) <==> motor.pin >= 0)
  {
    MotorTokenIsNumberToken(motor, direction, percentage);
    NumberTokenCheck(motor.pin, MotorPwm(direction, percentage), 1000);
  }

  /** A one-token list passes the check exactly when its token does. */
  lemma CheckSingleton(token: string)
    ensures CheckCommands(VList([VStr(token)])) == CheckToken(token)
    ensures CheckCommands(VList([VStr(token)])) ==> Strings(VList([VStr(token)])) == [token]
  {
    var v := VList([VStr(token)]);
    assert v.elems[0] == VStr(token);
    CheckCommandsIff(v);
  }

  /** A checked token always has the three fields the board's line needs. */
  lemma CheckedIsRenderable(s: string)
    requires CheckToken(s)
    ensures Renderable(s)
  {
  }

  // ---------------------------------------------------------------------
  // Observers

  /** One call of an observer's `update(pin, degree)`. */
  datatype Notice = Notice(observer: ServoMotor, pin: int, degree: int)

  /** The calls made when every observer, in order, is told about a move. */
  function Notices(observers: seq<ServoMotor>, pin: int, degree: int): (r: seq<Notice>)
    ensures |r| == |observers|
    ensures forall i :: 0 <= i < |r| ==> r[i] == Notice(observers[i], pin, degree)
  {
    seq(|observers|, i requires 0 <= i < |observers| => Notice(observers[i], pin, degree))
  }

  /** An element of the list handed to `add_servos`: an observer, or anything else. */
  datatype Candidate = ServoObserver(servo: ServoMotor) | NotObserver

  /** The argument of `add_servos`: a list, or something that is not a list. */
  datatype Registration = CandidateList(items: seq<Candidate>) | NotAList

  /** The servos of a list made only of observers. */
  function ObserverServos(items: seq<Candidate>): (r: seq<ServoMotor>)
    requires forall i :: 0 <= i < |items| ==> items[i].ServoObserver?
    ensures |r| == |items| && forall i :: 0 <= i < |r| ==> r[i] == items[i].servo
  {
    seq(|items|, i requires 0 <= i < |items| => items[i].servo)
  }

  /** The registry after appending, in order, each servo not yet in it. */
  function AppendNew(registered: seq<ServoMotor>, servos: seq<ServoMotor>): seq<ServoMotor>
  {
    if servos == [] then registered
    else
      var r := AppendNew(registered, servos[..|servos| - 1]);
      if servos[|servos| - 1] in r then r else r + [servos[|servos| - 1]]
  }

  /** Registering keeps the earlier registrations in front, adds exactly the
      new servos, and never registers a servo twice. */
  lemma {:induction false} AppendNewProperties(registered: seq<ServoMotor>, servos: seq<ServoMotor>)
    ensures |AppendNew(registered, servos)| >= |registered|
    ensures AppendNew(registered, servos)[..|registered|] == registered
    ensures forall s :: s in AppendNew(registered, servos) <==> s in registered || s in servos
    ensures Distinct(registered) ==> Distinct(AppendNew(registered, servos))
    decreases |servos|
  {
    if servos != [] {
      var init := servos[..|servos| - 1];
      AppendNewProperties(registered, init);
      var r := AppendNew(registered, init);
      forall s ensures s in servos <==> s in init || s == servos[|servos| - 1] {
        assert servos == init + [servos[|servos| - 1]];
      }
      if servos[|servos| - 1] !in r {
        assert (r + [servos[|servos| - 1]])[..|registered|] == r[..|registered|];
      }
    }
  }

  /** Registering the same servos a second time changes nothing. */
  lemma {:induction false} AppendNewIdempotent(registered: seq<ServoMotor>, servos: seq<ServoMotor>)
    ensures AppendNew(AppendNew(registered, servos), servos) == AppendNew(registered, servos)
  {
    var once := AppendNew(registered, servos);
    AppendNewProperties(registered, servos);
    AppendNewNoOp(once, servos);
  }

  /** Servos already registered are not appended again. */
  lemma {:induction false} AppendNewNoOp(registered: seq<ServoMotor>, servos: seq<ServoMotor>)
    requires forall s :: s in servos ==> s in registered
    ensures AppendNew(registered, servos) == registered
    decreases |servos|
  {
    if servos != [] {
      var init := servos[..|servos| - 1];
      assert servos[|servos| - 1] in servos;
      forall s | s in init ensures s in registered { assert s in servos; }
      AppendNewNoOp(registered, init);
    }
  }

  // ---------------------------------------------------------------------
  // The controller's state

  /** The shared state of the controller: the board, the stack of tokens
      waiting to be sent together, the servos to notify after a move, and
      (for the proofs) every notification made so far. */
  class Controller {
    const ssc32u: SSC32U
    var executionList: seq<string>
    var servosToNotify: seq<ServoMotor>
    ghost var notified: seq<Notice>

    /** The stack only holds checked tokens and no servo is registered twice. */
    ghost predicate Valid()
      reads this
    {
      && Distinct(servosToNotify)
      && forall i :: 0 <= i < |executionList| ==> CheckToken(executionList[i])
    }

    constructor (board: SSC32U)
      ensures ssc32u == board && Valid()
      ensures executionList == [] && servosToNotify == [] && notified == []
    {
      ssc32u := board;
      executionList := [];
      servosToNotify := [];
      notified := [];
    }

    /** `add_servos`: a list of observers is registered, skipping the
        servos already registered; anything else is refused unchanged. */
    method AddServos(registration: Registration) returns (ok: bool)
      requires Valid()
      modifies this`servosToNotify
      ensures Valid()
      ensures ok <==> registration.CandidateList? &&
                      forall i :: 0 <= i < |registration.items| ==> registration.items[i].ServoObserver?
      ensures ok ==> servosToNotify == AppendNew(old(servosToNotify), ObserverServos(registration.items))
      ensures !ok ==> servosToNotify == old(servosToNotify)
    {
      if !registration.CandidateList? {
        return false;
      }
      var items := registration.items;
      if !(forall i :: 0 <= i < |items| ==> items[i].ServoObserver?) {
        return false;
      }
      ghost var servos := ObserverServos(items);
      var i := 0;
      while i < |items|
        invariant 0 <= i <= |items|
        invariant servosToNotify == AppendNew(old(servosToNotify), servos[..i])
      {
        var single := items[i].servo;
        assert servos[..i + 1][..i] == servos[..i];
        if single !in servosToNotify {
          servosToNotify := servosToNotify + [single];
        }
        i := i + 1;
      }
      assert servos[..i] == servos;
      AppendNewProperties(old(servosToNotify), servos);
      return true;
    }

    /** `remove_servos`: unregisters the observer, answering whether it was
        registered; the other registrations keep their order. */
    method RemoveServos(observer: ServoMotor) returns (ok: bool)
      requires Valid()
      modifies this`servosToNotify
      ensures Valid()
      ensures ok == (observer in old(servosToNotify))
      ensures observer !in servosToNotify
      ensures var j := Position(old(servosToNotify), observer);
              servosToNotify == old(servosToNotify)[..j] + old(servosToNotify)[if ok then j + 1 else j..]
    {
      var j := Position(servosToNotify, observer);
      if j < |servosToNotify| {
        var before := servosToNotify;
        servosToNotify := before[..j] + before[j + 1..];
        forall k | 0 <= k < |servosToNotify| ensures servosToNotify[k] != observer {
          if k < j { assert servosToNotify[k] == before[k]; } else { assert servosToNotify[k] == before[k + 1]; }
        }
        forall a, b | 0 <= a < b < |servosToNotify| ensures servosToNotify[a] != servosToNotify[b] {
          var a', b' := if a < j then a else a + 1, if b < j then b else b + 1;
          assert servosToNotify[a] == before[a'] && servosToNotify[b] == before[b'];
        }
        return true;
      } else {
        assert servosToNotify[..j] + servosToNotify[j..] == servosToNotify;
        return false;
      }
    }

    /** `remove_all_servos`: clears the registry, answering whether it held anything. */
    method RemoveAllServos() returns (ok: bool)
      requires Valid()
      modifies this`servosToNotify
      ensures Valid()
      ensures ok == (old(servosToNotify) != []) && servosToNotify == []
    {
      if servosToNotify != [] {
        servosToNotify := [];
        return true;
      }
      return false;
    }

    /** `update_servo_information`: calls `update(pin, degree)` on every
        registered servo, in registration order, and answers True. */
    method UpdateServoInformation(pin: int, degree: int) returns (ok: bool)
      modifies this`notified
      ensures ok
      ensures notified == old(notified) + Notices(servosToNotify, pin, degree)
    {
      var i := 0;
      while i < |servosToNotify|
        invariant 0 <= i <= |servosToNotify|
        invariant notified == old(notified) + Notices(servosToNotify[..i], pin, degree)
      {
        var servo := servosToNotify[i];
        var _ := servo.Update(pin, degree);
        notified := notified + [Notice(servo, pin, degree)];
        assert Notices(servosToNotify[..i + 1], pin, degree) == Notices(servosToNotify[..i], pin, degree) + [Notice(servo, pin, degree)];
        i := i + 1;
      }
      assert servosToNotify[..i] == servosToNotify;
      return true;
    }

    // -------------------------------------------------------------------
    // The execution stack

    /** `execute_stack`: sends the whole stack as one line and empties it,
        answering the board's result; an empty stack sends nothing and
        answers a false value. Nobody is notified. If the port fails the
        exception leaves before the stack is emptied. */
    method ExecuteStack() returns (r: Outcome<bool>)
      requires Valid()
      modifies this`executionList, ssc32u`isOpen, ssc32u`wire
      ensures Valid()
      ensures notified == old(notified)
      ensures old(executionList) == [] ==>
                r == Return(false) && executionList == [] && ssc32u.wire == old(ssc32u.wire)
      ensures old(executionList) != [] ==>
                || (r == Return(true) && executionList == [] &&
                    ssc32u.wire == old(ssc32u.wire) + [Frame(old(executionList))])
                || (r == Raise(SerialException) && executionList == old(executionList) &&
                    ssc32u.wire == old(ssc32u.wire))
    {
      var sent := ssc32u.ExecCommand(executionList);
      if sent.Raise? {
        return Raise(sent.exc);
      }
      if sent.value == Some(true) {
        executionList := [];
        return Return(true);
      } else {
        executionList := [];
        return Return(false);
      }
    }

    /** `add_to_stack`: pushes the tokens, in order, when they pass the
        check, and leaves the stack alone otherwise. */
    method AddToStack(command: Value) returns (ok: bool)
      requires Valid()
      modifies this`executionList
      ensures Valid()
      ensures ok == CheckCommands(command)
      ensures executionList == if ok then old(executionList) + Strings(command) else old(executionList)
    {
      if CheckCommands(command) {
        CheckCommandsIff(command);
        executionList := executionList + Strings(command);
        return true;
      }
      return false;
    }

    /** `add_servo_to_stack`: queues the servo's token for `degree`. */
    method AddServoToStack(servo: ServoMotor, degree: int) returns (r: Outcome<bool>)
      requires Valid()
      modifies this`executionList
      ensures Valid()
      ensures match GetServoCommand(servo, degree)
        case Raise(e) => r == Raise(e) && executionList == old(executionList)
        case Return(token) =>
          r == Return(CheckToken(token)) &&
          executionList == if CheckToken(token) then old(executionList) + [token] else old(executionList)
    {
      var command := GetServoCommand(servo, degree);
      if command.Raise? {
        return Raise(command.exc);
      }
      CheckSingleton(command.value);
      var ok := AddToStack(VList([VStr(command.value)]));
      return Return(ok);
    }

    /** `add_motor_to_stack`: queues the motor's token. */
    method AddMotorToStack(motor: GearedMotor, direction: int, percentage: int) returns (ok: bool)
      requires Valid()
      modifies this`executionList
      ensures Valid()
      ensures var token := GetMotorCommand(motor, direction, percentage);
              ok == CheckToken(token) &&
              executionList == if ok then old(executionList) + [token] else old(executionList)
    {
      CheckSingleton(GetMotorCommand(motor, direction, percentage));
      ok := AddToStack(VList([VStr(GetMotorCommand(motor, direction, percentage))]));
    }

    /** `direct_execute`: sends checked tokens straight to the board as one
        line, bypassing (and never touching) the stack. */
    method DirectExecute(command: Value) returns (r: Outcome<bool>)
      modifies ssc32u`isOpen, ssc32u`wire
      ensures !CheckCommands(command) || command.elems == [] ==>
                r == Return(false) && ssc32u.wire == old(ssc32u.wire)
      ensures CheckCommands(command) && command.elems != [] ==>
                (forall i :: 0 <= i < |Strings(command)| ==> Renderable(Strings(command)[i])) &&
                (|| (r == Return(true) && ssc32u.wire == old(ssc32u.wire) + [Frame(Strings(command))])
                 || (r == Raise(SerialException) && ssc32u.wire == old(ssc32u.wire)))
    {
      if CheckCommands(command) {
        CheckCommandsIff(command);
        var sent := ssc32u.ExecCommand(Strings(command));
        if sent.Raise? {
          return Raise(sent.exc);
        }
        if sent.value == Some(true) {
          return Return(true);
        } else {
          return Return(false);
        }
      } else {
        return Return(false);
      }
    }

    /** `execute_servo`: sends the servo's token for `degree` at once and,
        only once it has been written, tells every registered servo. */
    method ExecuteServo(servo: ServoMotor, degree: int) returns (r: Outcome<bool>)
      modifies this`notified, ssc32u`isOpen, ssc32u`wire
      ensures match GetServoCommand(servo, degree)
        case Raise(e) => r == Raise(e) && ssc32u.wire == old(ssc32u.wire) && notified == old(notified)
        case Return(token) =>
          if !CheckToken(token) then
            r == Return(false) && ssc32u.wire == old(ssc32u.wire) && notified == old(notified)
          else
            Renderable(token) &&
            (|| (r == Return(true) && ssc32u.wire == old(ssc32u.wire) + [Frame([token])] &&
                 notified == old(notified) + Notices(servosToNotify, servo.pin, degree))
             || (r == Raise(SerialException) && ssc32u.wire == old(ssc32u.wire) && notified == old(notified)))
    {
      var command := GetServoCommand(servo, degree);
      if command.Raise? {
        return Raise(command.exc);
      }
      var sent := DirectExecute(VList([VStr(command.value)]));
      CheckSingleton(command.value);
      if sent == Return(true) {
        var _ := UpdateServoInformation(servo.pin, degree);
        return Return(true);
      } else if sent.Raise? {
        return sent;
      } else {
        return Return(false);
      }
    }

    /** `execute_motor`: sends the motor's token at once; motors notify nobody. */
    method ExecuteMotor(motor: GearedMotor, direction: int, percentage: int) returns (r: Outcome<bool>)
      modifies ssc32u`isOpen, ssc32u`wire
      ensures var token := GetMotorCommand(motor, direction, percentage);
        if !CheckToken(token) then
          r == Return(false) && ssc32u.wire == old(ssc32u.wire)
        else
          Renderable(token) &&
          (|| (r == Return(true) && ssc32u.wire == old(ssc32u.wire) + [Frame([token])])
           || (r == Raise(SerialException) && ssc32u.wire == old(ssc32u.wire)))
    {
      var token := GetMotorCommand(motor, direction, percentage);
      r := DirectExecute(VList([VStr(token)]));
      CheckSingleton(token);
    }
  }
}
