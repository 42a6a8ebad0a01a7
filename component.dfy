/** A body part of the robot (johnnyv/core/Component.py): its servos and
    geared motors, the structural checks on request lists, and the routing
    of each request to the board at once or onto the shared stack. */
module Components {
  import opened PyValues
  import opened Text
  import opened Joints
  import opened Board
  import opened Control
  import opened Tuning

  // ---------------------------------------------------------------------
  // What one request does

  /** The controller call one request amounts to: a token pushed onto the
      stack, a line sent for a servo (whose observers are then told), a line
      sent for a motor, or a request that ends the whole call with `outcome`
      before reaching the board. */
  datatype Action =
    | Enqueue(token: string)
    | SendServo(line: string, pin: int, degree: int)
    | SendMotor(line: string)
    | Fail(outcome: Outcome<bool>)
  {
    predicate Sends() {
      SendServo? || SendMotor?
    }
  }

  /** The tokens the actions push onto the stack, in order. */
  function Queued(acts: seq<Action>): seq<string> {
    if acts == [] then []
    else Queued(acts[..|acts| - 1]) + (if acts[|acts| - 1].Enqueue? then [acts[|acts| - 1].token] else [])
  }

  /** The lines the actions write to the board, in order. */
  function Lines(acts: seq<Action>): seq<string> {
    if acts == [] then []
    else Lines(acts[..|acts| - 1]) + (if acts[|acts| - 1].Sends() then [acts[|acts| - 1].line] else [])
  }

  /** The observer calls the actions cause, in order. */
  function Noticed(acts: seq<Action>, observers: seq<ServoMotor>): seq<Notice> {
    if acts == [] then []
    else
      var a := acts[|acts| - 1];
      Noticed(acts[..|acts| - 1], observers) + (if a.SendServo? then Notices(observers, a.pin, a.degree) else [])
  }

  /** The effect of one more action, for the loops below. */
  lemma Extend(acts: seq<Action>, i: nat, observers: seq<ServoMotor>)
    requires i < |acts|
    ensures Queued(acts[..i + 1]) == Queued(acts[..i]) + (if acts[i].Enqueue? then [acts[i].token] else [])
    ensures Lines(acts[..i + 1]) == Lines(acts[..i]) + (if acts[i].Sends() then [acts[i].line] else [])
    ensures Noticed(acts[..i + 1], observers) ==
              Noticed(acts[..i], observers) + (if acts[i].SendServo? then Notices(observers, acts[i].pin, acts[i].degree) else [])
  {
    assert acts[..i + 1][..i] == acts[..i];
  }

  /** The effects of two runs of actions, one after the other. */
  lemma {:induction false} EffectsOfJoin(a: seq<Action>, b: seq<Action>, observers: seq<ServoMotor>)
    ensures Queued(a + b) == Queued(a) + Queued(b)
    ensures Lines(a + b) == Lines(a) + Lines(b)
    ensures Noticed(a + b, observers) == Noticed(a, observers) + Noticed(b, observers)
    decreases |b|
  {
    if b == [] {
      assert a + b == a;
    } else {
      var front := b[..|b| - 1];
      assert (a + b)[..|a + b| - 1] == a + front;
      assert (a + b)[|a + b| - 1] == b[|b| - 1];
      EffectsOfJoin(a, front, observers);
    }
  }

  /** A trace of the first `start` actions followed by a trace of `j` more,
      taken from where the first ended, is a trace of `start + j` actions. */
  lemma TraceJoin(c: Controller, acts: seq<Action>, start: nat, j: nat, k: nat,
                  list0: seq<string>, wire0: seq<string>, notified0: seq<Notice>,
                  oldList: seq<string>, oldWire: seq<string>, oldNotified: seq<Notice>)
    requires k == start + j && k <= |acts|
    requires forall i :: 0 <= i < start ==> !acts[i].Fail?
    requires forall i :: 0 <= i < j ==> !acts[start..][i].Fail?
    requires Trace(acts, start, c.servosToNotify, list0, wire0, notified0, oldList, oldWire, oldNotified)
    requires Effects(c, acts[start..], j, list0, wire0, notified0)
    ensures forall i :: 0 <= i < k ==> !acts[i].Fail?
    ensures Effects(c, acts, k, oldList, oldWire, oldNotified)
  {
    assert acts[..start + j] == acts[..start] + acts[start..][..j];
    EffectsOfJoin(acts[..start], acts[start..][..j], c.servosToNotify);
    forall i | start <= i < start + j ensures !acts[i].Fail? {
      assert acts[i] == acts[start..][i - start];
    }
  }

  /** A loop over `acts` stopped after `k` of them with result `r`: the
      first `k` went through; then either every one did and the call
      answers `finish`, or the next one failed with its own outcome, or it
      was a write the port refused. */
  predicate Ran(acts: seq<Action>, k: nat, r: Outcome<bool>, finish: bool) {
    && k <= |acts|
    && (forall i :: 0 <= i < k ==> !acts[i].Fail?)
    && (k == |acts| ==> r == Return(finish))
    && (k < |acts| ==> (acts[k].Fail? && r == acts[k].outcome) || (acts[k].Sends() && r == Raise(SerialException)))
  }

  /** The stack, the wire and the observers' calls hold exactly the
      effects of the first `k` actions on top of what they held before. */
  predicate Trace(acts: seq<Action>, k: nat, observers: seq<ServoMotor>,
                  list: seq<string>, wire: seq<string>, notified: seq<Notice>,
                  oldList: seq<string>, oldWire: seq<string>, oldNotified: seq<Notice>)
    requires k <= |acts|
  {
    && list == oldList + Queued(acts[..k])
    && wire == oldWire + Lines(acts[..k])
    && notified == oldNotified + Noticed(acts[..k], observers)
  }

  /** `Trace` read off the controller and its board. */
  ghost predicate Effects(c: Controller, acts: seq<Action>, k: nat,
                          oldList: seq<string>, oldWire: seq<string>, oldNotified: seq<Notice>)
    requires k <= |acts|
    reads c, c.ssc32u
  {
    Trace(acts, k, c.servosToNotify, c.executionList, c.ssc32u.wire, c.notified, oldList, oldWire, oldNotified)
  }

  /** A loop stopped after `k` actions: the first `k` went through, and
      `stop` is None when that was all of them, or else the failure of
      the next one. */
  predicate Stopped(acts: seq<Action>, k: nat, stop: Option<Outcome<bool>>) {
    && k <= |acts| && (forall j :: 0 <= j < k ==> !acts[j].Fail?)
    && (stop.None? ==> k == |acts|)
    && (stop.Some? ==> (k < |acts| &&
                        ((acts[k].Fail? && stop.value == acts[k].outcome) ||
                         (acts[k].Sends() && stop.value == Raise(SerialException)))))
  }

  /** A stopped loop ran as `Ran` says, answering `finish` when it ran through. */
  lemma Finish(acts: seq<Action>, k: nat, stop: Option<Outcome<bool>>, finish: bool)
    requires Stopped(acts, k, stop)
    ensures Ran(acts, k, if stop.Some? then stop.value else Return(finish), finish)
  {
  }

  /** No action that fails does so by answering True. */
  predicate FailsFalsy(acts: seq<Action>) {
    forall i :: 0 <= i < |acts| && acts[i].Fail? ==> acts[i].outcome != Return(true)
  }

  /** A loop answers True only when every action went through and the loop
      was meant to answer True. */
  lemma RanTrue(acts: seq<Action>, k: nat, r: Outcome<bool>, finish: bool)
    requires Ran(acts, k, r, finish) && FailsFalsy(acts)
    ensures r == Return(true) <==> finish && k == |acts|
    ensures r == Return(true) ==> forall i :: 0 <= i < |acts| ==> !acts[i].Fail?
  {
  }

  /** What carrying out one action did: `r` is None when the loop goes on,
      or the result the whole call ends with; the stack, the wire and the
      observers' calls went from the first three values to the last three. */
  predicate Step(a: Action, r: Option<Outcome<bool>>, observers: seq<ServoMotor>,
                 list0: seq<string>, wire0: seq<string>, notified0: seq<Notice>,
                 list1: seq<string>, wire1: seq<string>, notified1: seq<Notice>)
  {
    var same := list1 == list0 && wire1 == wire0 && notified1 == notified0;
    match a
    case Fail(o) => r == Some(o) && same
    case Enqueue(token) =>
      r == None && list1 == list0 + [token] && wire1 == wire0 && notified1 == notified0
    case SendServo(line, pin, degree) =>
      || (r == None && list1 == list0 && wire1 == wire0 + [line] &&
          notified1 == notified0 + Notices(observers, pin, degree))
      || (r == Some(Raise(SerialException)) && same)
    case SendMotor(line) =>
      || (r == None && list1 == list0 && wire1 == wire0 + [line] && notified1 == notified0)
      || (r == Some(Raise(SerialException)) && same)
  }

  /** `Step` read off the controller and its board. */
  ghost predicate Stepped(c: Controller, a: Action, r: Option<Outcome<bool>>,
                          oldList: seq<string>, oldWire: seq<string>, oldNotified: seq<Notice>)
    reads c, c.ssc32u
  {
    Step(a, r, c.servosToNotify, oldList, oldWire, oldNotified, c.executionList, c.ssc32u.wire, c.notified)
  }

  /** One more step of a loop: either the trace grows by that action, or
      the loop ends with the result `Ran` expects and the trace unchanged. */
  lemma Advance(acts: seq<Action>, i: nat, r: Option<Outcome<bool>>, observers: seq<ServoMotor>,
                list0: seq<string>, wire0: seq<string>, notified0: seq<Notice>,
                list1: seq<string>, wire1: seq<string>, notified1: seq<Notice>,
                oldList: seq<string>, oldWire: seq<string>, oldNotified: seq<Notice>)
    requires i < |acts| && forall j :: 0 <= j < i ==> !acts[j].Fail?
    requires Trace(acts, i, observers, list0, wire0, notified0, oldList, oldWire, oldNotified)
    requires Step(acts[i], r, observers, list0, wire0, notified0, list1, wire1, notified1)
    ensures r.None? ==> ((forall j :: 0 <= j < i + 1 ==> !acts[j].Fail?) &&
                         Trace(acts, i + 1, observers, list1, wire1, notified1, oldList, oldWire, oldNotified))
    ensures r.Some? ==> (Trace(acts, i, observers, list1, wire1, notified1, oldList, oldWire, oldNotified) &&
                         ((acts[i].Fail? && r.value == acts[i].outcome) ||
                          (acts[i].Sends() && r.value == Raise(SerialException))))
  {
    Extend(acts, i, observers);
  }

  /** Where a loop stands after its `i`-th action: it went through and the
      effects cover one more action, or the loop ends here with the outcome
      `Ran` expects and the effects as they were. */
  ghost predicate Progressed(c: Controller, acts: seq<Action>, i: nat, stop: Option<Outcome<bool>>,
                             oldList: seq<string>, oldWire: seq<string>, oldNotified: seq<Notice>)
    requires i < |acts|
    reads c, c.ssc32u
  {
    if stop.None? then
      (forall j :: 0 <= j < i + 1 ==> !acts[j].Fail?) && Effects(c, acts, i + 1, oldList, oldWire, oldNotified)
    else
      Effects(c, acts, i, oldList, oldWire, oldNotified) &&
      ((acts[i].Fail? && stop.value == acts[i].outcome) || (acts[i].Sends() && stop.value == Raise(SerialException)))
  }

  // ---------------------------------------------------------------------
  // move_servo

  /** One `move_servo` request: a 3-tuple whose first element is a number
      and whose last is a bool (the degree is not checked). */
  predicate ServoRequest(c: Value) {
    c.VTuple? && |c.elems| == 3 && IsNumber(c.elems[0]) && c.elems[2].VBool?
  }

  /** The structural checks `move_servo` makes over the whole list first. */
  predicate ServoRequests(v: Value) {
    v.VList? && forall i :: 0 <= i < |v.elems| ==> ServoRequest(v.elems[i])
  }

  /** The action for a servo move whose token has been built: refused by
      the token check, sent at once, or pushed onto the stack. */
  function ServoMove(servo: ServoMotor, degree: int, now: bool): Action
    reads servo
  {
    match GetServoCommand(servo, degree)
    case Raise(e) => Fail(Raise(e))
    case Return(token) =>
      if !CheckToken(token) then Fail(Return(false))
      else if now then
        CheckedIsRenderable(token);
        SendServo(Frame([token]), servo.pin, degree)
      else Enqueue(token)
  }

  /** What `move_servo` does with one request `(pin, degree, now)`. */
  function ServoAction(servos: seq<ServoMotor>, cmd: Value): Action
    requires ServoRequest(cmd)
    reads servos
  {
    match FindServo(servos, AsInt(cmd.elems[0]))
    case None => Fail(Raise(StopIteration))
    case Some(j) =>
      if !IsNumber(cmd.elems[1]) then Fail(Raise(TypeError))
      else if !(servos[j].minPulse <= AsInt(cmd.elems[1]) <= servos[j].maxPulse) then Fail(Return(false))
      else ServoMove(servos[j], AsInt(cmd.elems[1]), cmd.elems[2].b)
  }

  /** The actions of a whole request list. */
  function ServoActions(servos: seq<ServoMotor>, cmds: seq<Value>): (acts: seq<Action>)
    requires forall i :: 0 <= i < |cmds| ==> ServoRequest(cmds[i])
    reads servos
    ensures |acts| == |cmds|
    ensures forall i :: 0 <= i < |cmds| ==> acts[i] == ServoAction(servos, cmds[i])
  {
    seq(|cmds|, i requires 0 <= i < |cmds| reads servos => ServoAction(servos, cmds[i]))
  }

  /** A servo move whose encoders give a checkable token (a pin and a
      degree not negative enough to print a minus sign, a non-negative pulse
      width, and either no travel or a travel within a non-zero span) goes
      through: it is sent as `' #pin Ppulse Ttime \r'` or pushed as
      `'pin:pulse:time'`, with a time of at most the pulse width. */
  lemma ServoMoveAccepts(servo: ServoMotor, degree: int, now: bool)
    requires servo.pin >= 0 && degree >= -45 && servo.pulseWidth >= 0
    requires servo.currentPosition == degree ||
             (servo.pulseSpan > 0 && Abs(servo.currentPosition - degree) <= servo.pulseSpan)
    ensures ConvertPulseWidth(servo.currentPosition, degree, servo.pulseSpan, servo.pulseWidth).Return?
    ensures var t := ConvertPulseWidth(servo.currentPosition, degree, servo.pulseSpan, servo.pulseWidth).value;
            && 0 <= t <= servo.pulseWidth
            && (now ==> (ServoMove(servo, degree, now) ==
                          SendServo(" #" + IntToString(servo.pin) + " P" + IntToString(ConvertDegree(degree)) +
                                    " T" + IntToString(t) + " \r", servo.pin, degree)))
            && (!now ==> ServoMove(servo, degree, now) == Enqueue(NumberToken(servo.pin, ConvertDegree(degree), t)))
  {
    if servo.currentPosition != degree {
      PulseWidthBounded(servo.currentPosition, degree, servo.pulseSpan, servo.pulseWidth);
    }
    var t := ConvertPulseWidth(servo.currentPosition, degree, servo.pulseSpan, servo.pulseWidth).value;
    ConvertDegreeNonNegative(degree);
    NumberTokenCheck(servo.pin, ConvertDegree(degree), t);
    FrameSingle(NumberToken(servo.pin, ConvertDegree(degree), t));
  }

  /** A request for an unknown pin raises StopIteration, one whose degree is
      not a number raises TypeError, and one outside the servo's
      `min_pulse..max_pulse` answers False; none of them reaches the board.
      A request inside the range is the servo move itself. */
  lemma ServoActionChecks(servos: seq<ServoMotor>, cmd: Value)
    requires ServoRequest(cmd)
    ensures (forall i :: 0 <= i < |servos| ==> servos[i].pin != AsInt(cmd.elems[0])) ==>
              ServoAction(servos, cmd) == Fail(Raise(StopIteration))
    ensures FindServo(servos, AsInt(cmd.elems[0])).Some? ==>
              var s := servos[FindServo(servos, AsInt(cmd.elems[0])).value];
              && (!IsNumber(cmd.elems[1]) ==> ServoAction(servos, cmd) == Fail(Raise(TypeError)))
              && (IsNumber(cmd.elems[1]) && !(s.minPulse <= AsInt(cmd.elems[1]) <= s.maxPulse) ==>
                    ServoAction(servos, cmd) == Fail(Return(false)))
              && (IsNumber(cmd.elems[1]) && s.minPulse <= AsInt(cmd.elems[1]) <= s.maxPulse ==>
                    ServoAction(servos, cmd) == ServoMove(s, AsInt(cmd.elems[1]), cmd.elems[2].b))
  {
  }

  /** Whatever a `move_servo` request sends or pushes passed every check:
      its pin is a servo's, its degree is a number within that servo's
      `min_pulse..max_pulse`, it is sent at once exactly when its bool says
      so, and a sent move tells the observers that servo's pin and degree. */
  lemma ServoActionSafe(servos: seq<ServoMotor>, cmd: Value)
    requires ServoRequest(cmd)
    ensures !ServoAction(servos, cmd).Fail? ==>
              && FindServo(servos, AsInt(cmd.elems[0])).Some?
              && var s := servos[FindServo(servos, AsInt(cmd.elems[0])).value];
                 && s.pin == AsInt(cmd.elems[0])
                 && IsNumber(cmd.elems[1])
                 && s.minPulse <= AsInt(cmd.elems[1]) <= s.maxPulse
                 && (ServoAction(servos, cmd).Sends() <==> cmd.elems[2].b)
                 && (ServoAction(servos, cmd).SendServo? ==>
                       ServoAction(servos, cmd).pin == s.pin && ServoAction(servos, cmd).degree == AsInt(cmd.elems[1]))
  {
  }

  /** Every failing `move_servo` request answers False or raises. */
  lemma ServoActionsFailFalsy(servos: seq<ServoMotor>, cmds: seq<Value>)
    requires forall i :: 0 <= i < |cmds| ==> ServoRequest(cmds[i])
    ensures FailsFalsy(ServoActions(servos, cmds))
  {
  }

  // ---------------------------------------------------------------------
  // move_motor

  /** One `move_motor` request: a 4-tuple whose first two elements are
      numbers and whose last is a bool (the percentage is not checked). */
  predicate MotorRequest(c: Value) {
    c.VTuple? && |c.elems| == 4 && IsNumber(c.elems[0]) && IsNumber(c.elems[1]) && c.elems[3].VBool?
  }

  predicate MotorRequests(v: Value) {
    v.VList? && forall i :: 0 <= i < |v.elems| ==> MotorRequest(v.elems[i])
  }

  /** The action for a motor move: refused by the token check, sent at
      once, or pushed onto the stack. */
  function MotorMove(motor: GearedMotor, direction: int, percent: int, now: bool): Action {
    var token := GetMotorCommand(motor, direction, percent);
    if !CheckToken(token) then Fail(Return(false))
    else if now then
      CheckedIsRenderable(token);
      SendMotor(Frame([token]))
    else Enqueue(token)
  }

  /** What `move_motor` does with one request `(pin, direction, percent,
      now)`. Whether it is sent at once is decided by the truth value of
      the percentage; the trailing bool is checked but never read. */
  function MotorAction(motors: seq<GearedMotor>, cmd: Value): Action
    requires MotorRequest(cmd)
  {
    match FindMotor(motors, AsInt(cmd.elems[0]))
    case None => Fail(Raise(StopIteration))
    case Some(j) =>
      if AsInt(cmd.elems[1]) !in {-1, 0, 1} then Fail(Return(false))
      else if !IsNumber(cmd.elems[2]) then Fail(Raise(TypeError))
      else if !(0 <= AsInt(cmd.elems[2]) <= 100) then Fail(Return(false))
      else MotorMove(motors[j], AsInt(cmd.elems[1]), AsInt(cmd.elems[2]), Truthy(cmd.elems[2]))
  }

  function MotorActions(motors: seq<GearedMotor>, cmds: seq<Value>): (acts: seq<Action>)
    requires forall i :: 0 <= i < |cmds| ==> MotorRequest(cmds[i])
    ensures |acts| == |cmds|
    ensures forall i :: 0 <= i < |cmds| ==> acts[i] == MotorAction(motors, cmds[i])
  {
    seq(|cmds|, i requires 0 <= i < |cmds| => MotorAction(motors, cmds[i]))
  }

  /** A move of a motor on a non-negative pin with a valid direction and
      percentage always passes the token check: it is sent as
      `' #pin Ppwm T1000 \r'` or pushed as `'pin:pwm:1000'`, with the
      pulse in the motor's ranges. */
  lemma MotorMoveAccepts(motor: GearedMotor, direction: int, percent: int, now: bool)
    requires motor.pin >= 0 && direction in {-1, 0, 1} && 0 <= percent <= 100
    ensures var pwm := MotorPwm(direction, percent);
            && (1000 <= pwm <= 1200 || pwm == 1500 || 1800 <= pwm <= 2000)
            && (now ==> MotorMove(motor, direction, percent, now) ==
                          SendMotor(" #" + IntToString(motor.pin) + " P" + IntToString(pwm) + " T1000 \r"))
            && (!now ==> MotorMove(motor, direction, percent, now) ==
                           Enqueue(Token(IntToString(motor.pin), IntToString(pwm), "1000")))
  {
    var pwm := MotorPwm(direction, percent);
    MotorPwmRange(direction, percent);
    var token := GetMotorCommand(motor, direction, percent);
    MotorTokenIsNumberToken(motor, direction, percent);
    NumberTokenCheck(motor.pin, pwm, 1000);
    assert CheckToken(token);
    if now {
      FrameSingle(token);
      var x := " #" + IntToString(motor.pin) + " P" + IntToString(pwm);
      assert IntToString(1000) == "1000";
      assert x + " T" + "1000" + " \r" == x + " T1000 \r";
    }
  }

  /** For a known motor and a valid direction and percentage, the request
      is sent at once exactly when the percentage is not zero, whatever its
      trailing bool says; an invalid direction or percentage answers False
      and an unknown pin raises StopIteration. */
  lemma MotorActionRouting(motors: seq<GearedMotor>, cmd: Value)
    requires MotorRequest(cmd)
    ensures (forall i :: 0 <= i < |motors| ==> motors[i].pin != AsInt(cmd.elems[0])) ==>
              MotorAction(motors, cmd) == Fail(Raise(StopIteration))
    ensures FindMotor(motors, AsInt(cmd.elems[0])).Some? ==>
              var m := motors[FindMotor(motors, AsInt(cmd.elems[0])).value];
              && (AsInt(cmd.elems[1]) !in {-1, 0, 1} ==> MotorAction(motors, cmd) == Fail(Return(false)))
              && (AsInt(cmd.elems[1]) in {-1, 0, 1} && IsNumber(cmd.elems[2]) && !(0 <= AsInt(cmd.elems[2]) <= 100) ==>
                    MotorAction(motors, cmd) == Fail(Return(false)))
              && (AsInt(cmd.elems[1]) in {-1, 0, 1} && IsNumber(cmd.elems[2]) && 0 <= AsInt(cmd.elems[2]) <= 100 ==>
                    MotorAction(motors, cmd) ==
                      MotorMove(m, AsInt(cmd.elems[1]), AsInt(cmd.elems[2]), AsInt(cmd.elems[2]) != 0))
  {
  }

  /** The trailing bool of a `move_motor` request changes nothing: the
      same request with any other bool there acts the same. */
  lemma MotorActionIgnoresFlag(motors: seq<GearedMotor>, cmd: Value, flag: bool)
    requires MotorRequest(cmd)
    ensures MotorRequest(VTuple(cmd.elems[3 := VBool(flag)]))
    ensures MotorAction(motors, VTuple(cmd.elems[3 := VBool(flag)])) == MotorAction(motors, cmd)
  {
    var other := VTuple(cmd.elems[3 := VBool(flag)]);
    assert other.elems[..3] == cmd.elems[..3];
    assert other.elems[0] == cmd.elems[0] && other.elems[1] == cmd.elems[1] && other.elems[2] == cmd.elems[2];
  }

  /** Whatever a `move_motor` request sends or pushes passed every check:
      its pin is a motor's, its direction is -1, 0 or 1, its percentage is
      a number in 0..100, and it is sent at once exactly when that
      percentage is not zero. */
  lemma MotorActionSafe(motors: seq<GearedMotor>, cmd: Value)
    requires MotorRequest(cmd)
    ensures !MotorAction(motors, cmd).Fail? ==>
              && FindMotor(motors, AsInt(cmd.elems[0])).Some?
              && motors[FindMotor(motors, AsInt(cmd.elems[0])).value].pin == AsInt(cmd.elems[0])
              && AsInt(cmd.elems[1]) in {-1, 0, 1}
              && IsNumber(cmd.elems[2]) && 0 <= AsInt(cmd.elems[2]) <= 100
              && (MotorAction(motors, cmd).Sends() <==> AsInt(cmd.elems[2]) != 0)
  {
  }

  /** Every failing `move_motor` request answers False or raises. */
  lemma MotorActionsFailFalsy(motors: seq<GearedMotor>, cmds: seq<Value>)
    requires forall i :: 0 <= i < |cmds| ==> MotorRequest(cmds[i])
    ensures FailsFalsy(MotorActions(motors, cmds))
  {
  }

  // ---------------------------------------------------------------------
  // init_command and initialize

  /** One `init_command` entry: a pair of a number (the pin) and a bool
      (whether to move at once). */
  predicate InitRequest(c: Value) {
    c.VTuple? && |c.elems| == 2 && IsNumber(c.elems[0]) && c.elems[1].VBool?
  }

  predicate InitRequests(v: Value) {
    v.VList? && forall i :: 0 <= i < |v.elems| ==> InitRequest(v.elems[i])
  }

  /** The pin an entry names. */
  function PinOf(c: Value): int {
    if c.VTuple? && |c.elems| > 0 && IsNumber(c.elems[0]) then AsInt(c.elems[0]) else 0
  }

  /** `[command for command in init_list if command[0] != pin]`. */
  function FilterPin(lst: seq<Value>, pin: int): seq<Value> {
    if lst == [] then []
    else (if PinOf(lst[0]) != pin then [lst[0]] else []) + FilterPin(lst[1..], pin)
  }

  /** The entries whose pin is none of `pins`. */
  function FilterOut(lst: seq<Value>, pins: seq<int>): seq<Value> {
    if lst == [] then []
    else (if PinOf(lst[0]) !in pins then [lst[0]] else []) + FilterOut(lst[1..], pins)
  }

  /** The pins of the entries, in order. */
  function Pins(lst: seq<Value>): (r: seq<int>)
    ensures |r| == |lst| && forall i :: 0 <= i < |lst| ==> r[i] == PinOf(lst[i])
  {
    if lst == [] then [] else Pins(lst[..|lst| - 1]) + [PinOf(lst[|lst| - 1])]
  }

  /** The pins of one more entry. */
  lemma PinsSnoc(lst: seq<Value>, i: nat)
    requires i < |lst|
    ensures Pins(lst[..i + 1]) == Pins(lst[..i]) + [PinOf(lst[i])]
  {
    assert lst[..i + 1][..i] == lst[..i];
  }

  /** Filtering once more by one pin is filtering by one more pin. */
  lemma {:induction false} FilterPinOut(lst: seq<Value>, pins: seq<int>, pin: int)
    ensures FilterPin(FilterOut(lst, pins), pin) == FilterOut(lst, pins + [pin])
    decreases |lst|
  {
    if lst != [] {
      FilterPinOut(lst[1..], pins, pin);
      var rest := FilterOut(lst[1..], pins);
      assert (PinOf(lst[0]) in pins + [pin]) <==> (PinOf(lst[0]) in pins || PinOf(lst[0]) == pin);
      if PinOf(lst[0]) !in pins {
        var l := [lst[0]] + rest;
        assert FilterOut(lst, pins) == l;
        assert l[0] == lst[0] && l[1..] == rest;
        assert FilterPin(l, pin) == (if PinOf(lst[0]) != pin then [lst[0]] else []) + FilterPin(rest, pin);
      } else {
        assert PinOf(lst[0]) in pins + [pin];
        assert FilterOut(lst, pins) == [] + rest == rest;
      }
    }
  }

  /** Filtering out no pin keeps every entry. */
  lemma {:induction false} FilterOutNothing(lst: seq<Value>)
    ensures FilterOut(lst, []) == lst
    decreases |lst|
  {
    if lst != [] {
      FilterOutNothing(lst[1..]);
      assert lst == [lst[0]] + lst[1..];
    }
  }

  /** Filtering out every pin an entry list names leaves nothing. */
  lemma {:induction false} FilterOutCovered(lst: seq<Value>, pins: seq<int>)
    requires forall i :: 0 <= i < |lst| ==> PinOf(lst[i]) in pins
    ensures FilterOut(lst, pins) == []
    decreases |lst|
  {
    if lst != [] {
      assert PinOf(lst[0]) in pins;
      FilterOutCovered(lst[1..], pins);
    }
  }

  /** The list the motor loop of `init_command` walks after a complete
      servo loop (which rebinds `init_list` to the entries whose pin it has
      not seen yet) is always empty: when a component has servos, no motor
      is initialised. */
  lemma PendingAfterServoLoop(cmds: seq<Value>)
    ensures FilterOut(cmds, Pins(cmds)) == []
  {
    FilterOutCovered(cmds, Pins(cmds));
  }

  /** What `init_command`'s servo loop does with one entry `(pin, now)`:
      moves the servo on that pin to its `init_pulse`, used as a degree. */
  function InitServoAction(servos: seq<ServoMotor>, cmd: Value): Action
    requires InitRequest(cmd)
    reads servos
  {
    match FindServo(servos, AsInt(cmd.elems[0]))
    case None => Fail(Raise(StopIteration))
    case Some(j) => ServoMove(servos[j], servos[j].initPulse, cmd.elems[1].b)
  }

  /** What `init_command`'s motor loop does with one entry `(pin, now)`:
      drives the motor on that pin with its initial direction and percentage. */
  function InitMotorAction(motors: seq<GearedMotor>, cmd: Value): Action
    requires InitRequest(cmd)
  {
    match FindMotor(motors, AsInt(cmd.elems[0]))
    case None => Fail(Raise(StopIteration))
    case Some(j) => MotorMove(motors[j], motors[j].initDirection, motors[j].initPercentage, cmd.elems[1].b)
  }

  function InitServoActions(servos: seq<ServoMotor>, cmds: seq<Value>): (acts: seq<Action>)
    requires forall i :: 0 <= i < |cmds| ==> InitRequest(cmds[i])
    reads servos
    ensures |acts| == |cmds|
    ensures forall i :: 0 <= i < |cmds| ==> acts[i] == InitServoAction(servos, cmds[i])
  {
    seq(|cmds|, i requires 0 <= i < |cmds| reads servos => InitServoAction(servos, cmds[i]))
  }

  function InitMotorActions(motors: seq<GearedMotor>, cmds: seq<Value>): (acts: seq<Action>)
    requires forall i :: 0 <= i < |cmds| ==> InitRequest(cmds[i])
    ensures |acts| == |cmds|
    ensures forall i :: 0 <= i < |cmds| ==> acts[i] == InitMotorAction(motors, cmds[i])
  {
    seq(|cmds|, i requires 0 <= i < |cmds| => InitMotorAction(motors, cmds[i]))
  }

  /** The list the motor loop walks: what the servo loop left of the
      entries when there are servos, all of them otherwise. */
  function MotorPending(servos: seq<ServoMotor>, cmds: seq<Value>): (r: seq<Value>)
    requires forall i :: 0 <= i < |cmds| ==> InitRequest(cmds[i])
    ensures forall i :: 0 <= i < |r| ==> InitRequest(r[i])
  {
    if servos == [] then cmds
    else
      PendingAfterServoLoop(cmds);
      FilterOut(cmds, Pins(cmds))
  }

  /** Everything `init_command` does for a well-formed list: the servo
      loop when there are servos, then the motor loop when there are motors. */
  function InitActions(servos: seq<ServoMotor>, motors: seq<GearedMotor>, cmds: seq<Value>): seq<Action>
    requires forall i :: 0 <= i < |cmds| ==> InitRequest(cmds[i])
    reads servos
  {
    (if servos != [] then InitServoActions(servos, cmds) else []) +
    (if motors != [] then InitMotorActions(motors, MotorPending(servos, cmds)) else [])
  }

  /** Where each entry's action sits in `InitActions`: the servo loop's
      first, then the motor loop's. */
  lemma {:induction false} InitActionsAt(servos: seq<ServoMotor>, motors: seq<GearedMotor>, cmds: seq<Value>)
    requires forall i :: 0 <= i < |cmds| ==> InitRequest(cmds[i])
    ensures var acts := InitActions(servos, motors, cmds);
            var s := if servos != [] then |cmds| else 0;
            var pending := MotorPending(servos, cmds);
            && |acts| == s + (if motors != [] then |pending| else 0)
            && (servos != [] ==> forall i :: 0 <= i < |cmds| ==> acts[i] == InitServoAction(servos, cmds[i]))
            && (motors != [] ==> forall j :: 0 <= j < |pending| ==> acts[s + j] == InitMotorAction(motors, pending[j]))
  {
    InitActionsSplit(servos, motors, cmds);
    if servos != [] {
      InitServoActionsAt(servos, motors, cmds);
      PendingAfterServoLoop(cmds);
    } else if motors != [] {
      InitMotorActionsAt(motors, cmds);
    }
  }

  /** With servos, the first actions are the servo loop's, one per entry. */
  lemma {:induction false} InitServoActionsAt(servos: seq<ServoMotor>, motors: seq<GearedMotor>, cmds: seq<Value>)
    requires servos != [] && forall i :: 0 <= i < |cmds| ==> InitRequest(cmds[i])
    ensures forall i :: 0 <= i < |cmds| ==> InitActions(servos, motors, cmds)[i] == InitServoAction(servos, cmds[i])
  {
    var acts := InitActions(servos, motors, cmds);
    InitActionsSplit(servos, motors, cmds);
    forall i | 0 <= i < |cmds| ensures acts[i] == InitServoAction(servos, cmds[i]) {
      assert acts[i] == acts[..|cmds|][i];
    }
  }

  /** Without servos, the actions are the motor loop's, one per entry. */
  lemma {:induction false} InitMotorActionsAt(motors: seq<GearedMotor>, cmds: seq<Value>)
    requires motors != [] && forall i :: 0 <= i < |cmds| ==> InitRequest(cmds[i])
    ensures forall j :: 0 <= j < |cmds| ==> InitActions([], motors, cmds)[j] == InitMotorAction(motors, cmds[j])
  {
    assert InitActions([], motors, cmds) == InitMotorActions(motors, cmds);
  }

  /** `InitActions` cut where the motor loop's actions begin. */
  lemma {:induction false} InitActionsSplit(servos: seq<ServoMotor>, motors: seq<GearedMotor>, cmds: seq<Value>)
    requires forall i :: 0 <= i < |cmds| ==> InitRequest(cmds[i])
    ensures var acts := InitActions(servos, motors, cmds);
            var s := if servos != [] then |cmds| else 0;
            && s <= |acts|
            && acts[..s] == (if servos != [] then InitServoActions(servos, cmds) else [])
            && acts[s..] == (if motors != [] then InitMotorActions(motors, MotorPending(servos, cmds)) else [])
  {
  }

  /** The list `initialize()` builds: `(pin, False)` for every servo, then
      for every motor; it always passes `init_command`'s checks. */
  function DefaultInit(servos: seq<ServoMotor>, motors: seq<GearedMotor>): (r: seq<Value>)
    ensures |r| == |servos| + |motors|
    ensures InitRequests(VList(r))
    ensures forall i :: 0 <= i < |servos| ==> PinOf(r[i]) == servos[i].pin && r[i].elems[1] == VBool(false)
    ensures forall i :: 0 <= i < |motors| ==>
              PinOf(r[|servos| + i]) == motors[i].pin && r[|servos| + i].elems[1] == VBool(false)
  {
    seq(|servos|, i requires 0 <= i < |servos| => VTuple([VInt(servos[i].pin), VBool(false)])) +
    seq(|motors|, i requires 0 <= i < |motors| => VTuple([VInt(motors[i].pin), VBool(false)]))
  }

  /** The actions a component's `initialize()` runs without an argument:
      `init_command` over its default list. */
  ghost function DefaultActs(c: Component): seq<Action>
    reads c, c.servos
  {
    InitActions(c.servos, c.motors, DefaultInit(c.servos, c.motors))
  }

  /** `initialize()` answered `r` after `k` of its default actions `acts`:
      False at once for a component with no joints (no actions), otherwise
      as `Ran` says for a call that answers True when it runs through. */
  ghost predicate InitAnswered(acts: seq<Action>, k: nat, r: Outcome<bool>) {
    if |acts| == 0 then k == 0 && r == Return(false) else Ran(acts, k, r, true)
  }

  /** A servo entry of `init_command` never drives a motor, and when it
      fails it answers False or raises. */
  lemma InitServoActionShape(servos: seq<ServoMotor>, cmd: Value)
    requires InitRequest(cmd)
    ensures !InitServoAction(servos, cmd).SendMotor?
    ensures InitServoAction(servos, cmd).Fail? ==> InitServoAction(servos, cmd).outcome != Return(true)
  {
  }

  /** `initialize()` on a component with servos and a motor whose pin no
      servo has never answers True: the servo loop reaches that motor's
      entry and `next(...)` raises StopIteration, unless an earlier entry
      already failed; in no case does any motor get its initial command. */
  lemma InitializeWithMotorFails(servos: seq<ServoMotor>, motors: seq<GearedMotor>, m: nat, k: nat, r: Outcome<bool>)
    requires servos != [] && m < |motors|
    requires forall i :: 0 <= i < |servos| ==> servos[i].pin != motors[m].pin
    requires Ran(InitActions(servos, motors, DefaultInit(servos, motors)), k, r, true)
    ensures r != Return(true)
    ensures k <= |servos| + m
    ensures forall i :: 0 <= i < k ==> !InitActions(servos, motors, DefaultInit(servos, motors))[i].SendMotor?
  {
    var cmds := DefaultInit(servos, motors);
    var acts := InitActions(servos, motors, cmds);
    InitActionsSplit(servos, motors, cmds);
    PendingAfterServoLoop(cmds);
    assert |acts| == |cmds|;
    // The motor's own entry reaches the servo loop, which finds no servo.
    var x := |servos| + m;
    assert acts[x] == acts[..|cmds|][x] == InitServoAction(servos, cmds[x]);
    assert AsInt(cmds[x].elems[0]) == PinOf(cmds[x]) == motors[m].pin;
    assert FindServo(servos, AsInt(cmds[x].elems[0])) == None;
    assert acts[x].Fail?;
    assert k <= x;
    assert acts[k] == acts[..|cmds|][k];
    InitServoActionShape(servos, cmds[k]);
    forall i | 0 <= i < k ensures !acts[i].SendMotor? {
      assert acts[i] == acts[..|cmds|][i];
      InitServoActionShape(servos, cmds[i]);
    }
  }

  // ---------------------------------------------------------------------
  // The component

  /** The observers handed to `add_servos` by the constructor. */
  function AsObservers(servos: seq<ServoMotor>): (r: seq<Candidate>)
    ensures |r| == |servos| && forall i :: 0 <= i < |r| ==> r[i] == ServoObserver(servos[i])
  {
    seq(|servos|, i requires 0 <= i < |servos| => ServoObserver(servos[i]))
  }

  class Component {
    /** The controller all components share. */
    const controller: Controller
    /** The servos, built once from the component's table. */
    const servos: seq<ServoMotor>
    /** The geared motors, replaced one by one by `set_property`. */
    var motors: seq<GearedMotor>

    ghost predicate Valid()
      reads this, controller
    {
      Distinct(servos) && controller.Valid()
    }

    /** Builds one servo per table row, in order, keeps the motor table, and
        registers the new servos as observers. */
    constructor (controller: Controller, servoTable: seq<ServoSpec>, motorTable: seq<GearedMotor>)
      requires controller.Valid()
      modifies controller`servosToNotify
      ensures this.controller == controller && Valid()
      ensures |servos| == |servoTable|
      ensures forall i :: 0 <= i < |servos| ==> fresh(servos[i]) && Built(servos[i], servoTable[i])
      ensures motors == motorTable
      ensures controller.servosToNotify == AppendNew(old(controller.servosToNotify), servos)
    {
      var built: seq<ServoMotor> := [];
      var i := 0;
      while i < |servoTable|
        invariant 0 <= i <= |servoTable| && |built| == i
        invariant forall k :: 0 <= k < i ==> fresh(built[k]) && Built(built[k], servoTable[k])
        invariant Distinct(built)
        invariant controller.Valid() && controller.servosToNotify == old(controller.servosToNotify)
      {
        var row := servoTable[i];
        var s := new ServoMotor(row.dependencies, row.pin, row.maxPulse, row.minPulse,
                                row.absMaxPulse, row.absMinPulse, row.pulseWidth, row.initPulse);
        built := built + [s];
        i := i + 1;
      }
      this.controller := controller;
      servos := built;
      motors := motorTable;
      new;
      var ok := controller.AddServos(CandidateList(AsObservers(built)));
      assert ObserverServos(AsObservers(built)) == built;
    }

    /** Carries out one action through the controller. */
    method ServoStep(servo: ServoMotor, degree: int, now: bool) returns (r: Option<Outcome<bool>>)
      requires Valid()
      modifies controller`executionList, controller`notified, controller.ssc32u`isOpen, controller.ssc32u`wire
      ensures Valid()
      ensures Stepped(controller, ServoMove(servo, degree, now), r,
                      old(controller.executionList), old(controller.ssc32u.wire), old(controller.notified))
    {
      if now {
        var done := controller.ExecuteServo(servo, degree);
        if done.Raise? {
          return Some(done);
        }
        if !done.value {
          return Some(Return(false));
        }
      } else {
        var queued := controller.AddServoToStack(servo, degree);
        if queued.Raise? {
          return Some(queued);
        }
        if !queued.value {
          return Some(Return(false));
        }
      }
      return None;
    }

    method MotorStep(motor: GearedMotor, direction: int, percent: int, now: bool) returns (r: Option<Outcome<bool>>)
      requires Valid()
      modifies controller`executionList, controller.ssc32u`isOpen, controller.ssc32u`wire
      ensures Valid()
      ensures Stepped(controller, MotorMove(motor, direction, percent, now), r,
                      old(controller.executionList), old(controller.ssc32u.wire), old(controller.notified))
    {
      if now {
        var done := controller.ExecuteMotor(motor, direction, percent);
        if done.Raise? {
          return Some(done);
        }
        if !done.value {
          return Some(Return(false));
        }
      } else {
        var queued := controller.AddMotorToStack(motor, direction, percent);
        if !queued {
          return Some(Return(false));
        }
      }
      return None;
    }

    /** The body of `move_servo`'s loop for one request. */
    method MoveServoRequest(cmd: Value, ghost a: Action) returns (r: Option<Outcome<bool>>)
      requires Valid() && ServoRequest(cmd)
      requires a == ServoAction(servos, cmd)
      modifies controller`executionList, controller`notified, controller.ssc32u`isOpen, controller.ssc32u`wire
      ensures Valid()
      ensures Stepped(controller, a, r,
                      old(controller.executionList), old(controller.ssc32u.wire), old(controller.notified))
    {
      var found := FindServo(servos, AsInt(cmd.elems[0]));
      if found.None? {
        return Some(Raise(StopIteration));
      }
      var servo := servos[found.value];
      if !IsNumber(cmd.elems[1]) {
        return Some(Raise(TypeError));
      }
      var degree := AsInt(cmd.elems[1]);
      if !(servo.minPulse <= degree <= servo.maxPulse) {
        return Some(Return(false));
      }
      r := ServoStep(servo, degree, cmd.elems[2].b);
    }

    /** The body of `move_motor`'s loop for one request. */
    method MoveMotorRequest(cmd: Value, ghost a: Action) returns (r: Option<Outcome<bool>>)
      requires Valid() && MotorRequest(cmd)
      requires a == MotorAction(motors, cmd)
      modifies controller`executionList, controller.ssc32u`isOpen, controller.ssc32u`wire
      ensures Valid()
      ensures Stepped(controller, a, r,
                      old(controller.executionList), old(controller.ssc32u.wire), old(controller.notified))
    {
      var found := FindMotor(motors, AsInt(cmd.elems[0]));
      if found.None? {
        return Some(Raise(StopIteration));
      }
      var motor := motors[found.value];
      var direction := AsInt(cmd.elems[1]);
      if direction !in {-1, 0, 1} {
        return Some(Return(false));
      }
      if !IsNumber(cmd.elems[2]) {
        return Some(Raise(TypeError));
      }
      var percent := AsInt(cmd.elems[2]);
      if !(0 <= percent <= 100) {
        return Some(Return(false));
      }
      r := MotorStep(motor, direction, percent, Truthy(cmd.elems[2]));
    }

    /** One turn of `move_servo`'s loop, over the `i`-th request, after the
        first `i` went through. */
    method MoveServoTurn(cmds: seq<Value>, i: nat, ghost acts: seq<Action>,
                         ghost oldList: seq<string>, ghost oldWire: seq<string>, ghost oldNotified: seq<Notice>)
      returns (stop: Option<Outcome<bool>>)
      requires Valid() && i < |cmds| && (forall n :: 0 <= n < |cmds| ==> ServoRequest(cmds[n]))
      requires acts == ServoActions(servos, cmds)
      requires (forall j :: 0 <= j < i ==> !acts[j].Fail?) && Effects(controller, acts, i, oldList, oldWire, oldNotified)
      modifies controller`executionList, controller`notified, controller.ssc32u`isOpen, controller.ssc32u`wire
      ensures Valid() && Progressed(controller, acts, i, stop, oldList, oldWire, oldNotified)
    {
      ghost var list0, wire0, notified0 := controller.executionList, controller.ssc32u.wire, controller.notified;
      stop := MoveServoRequest(cmds[i], acts[i]);
      Advance(acts, i, stop, controller.servosToNotify, list0, wire0, notified0,
              controller.executionList, controller.ssc32u.wire, controller.notified, oldList, oldWire, oldNotified);
    }

    /** One turn of `move_motor`'s loop. */
    method MoveMotorTurn(cmds: seq<Value>, i: nat, ghost acts: seq<Action>,
                         ghost oldList: seq<string>, ghost oldWire: seq<string>, ghost oldNotified: seq<Notice>)
      returns (stop: Option<Outcome<bool>>)
      requires Valid() && i < |cmds| && (forall n :: 0 <= n < |cmds| ==> MotorRequest(cmds[n]))
      requires acts == MotorActions(motors, cmds)
      requires (forall j :: 0 <= j < i ==> !acts[j].Fail?) && Effects(controller, acts, i, oldList, oldWire, oldNotified)
      modifies controller`executionList, controller.ssc32u`isOpen, controller.ssc32u`wire
      ensures Valid() && Progressed(controller, acts, i, stop, oldList, oldWire, oldNotified)
      ensures controller.notified == old(controller.notified)
    {
      ghost var list0, wire0, notified0 := controller.executionList, controller.ssc32u.wire, controller.notified;
      stop := MoveMotorRequest(cmds[i], acts[i]);
      Advance(acts, i, stop, controller.servosToNotify, list0, wire0, notified0,
              controller.executionList, controller.ssc32u.wire, controller.notified, oldList, oldWire, oldNotified);
    }

    /** `move_servo`: with no servos, or a list that fails the structural
        checks, it answers False and touches nothing. Otherwise it carries
        out the requests in order until one fails; what the earlier ones
        did stays done, and it answers True when all went through. */
    method MoveServo(commandList: Value) returns (r: Outcome<bool>, ghost k: nat)
      requires Valid()
      modifies controller`executionList, controller`notified, controller.ssc32u`isOpen, controller.ssc32u`wire
      ensures Valid()
      ensures servos == [] || !ServoRequests(commandList) ==>
                r == Return(false) && k == 0 && controller.executionList == old(controller.executionList) &&
                controller.ssc32u.wire == old(controller.ssc32u.wire) && controller.notified == old(controller.notified)
      ensures servos != [] && ServoRequests(commandList) ==>
                var acts := ServoActions(servos, commandList.elems);
                Ran(acts, k, r, true) &&
                Effects(controller, acts, k, old(controller.executionList), old(controller.ssc32u.wire), old(controller.notified))
    {
      if servos == [] || !ServoRequests(commandList) {
        return Return(false), 0;
      }
      var cmds := commandList.elems;
      ghost var acts := ServoActions(servos, cmds);
      ghost var list0, wire0, notified0 := controller.executionList, controller.ssc32u.wire, controller.notified;
      var i := 0;
      while i < |cmds|
        invariant 0 <= i <= |cmds|
        invariant acts == ServoActions(servos, cmds)
        invariant forall j :: 0 <= j < i ==> !acts[j].Fail?
        invariant Valid()
        invariant Effects(controller, acts, i, list0, wire0, notified0)
      {
        var stop := MoveServoTurn(cmds, i, acts, list0, wire0, notified0);
        if stop.Some? {
          return stop.value, i;
        }
        i := i + 1;
      }
      return Return(true), i;
    }

    /** `move_motor`: the same shape as `move_servo`, over the motors; no
        observer is told. */
    method MoveMotor(commandList: Value) returns (r: Outcome<bool>, ghost k: nat)
      requires Valid()
      modifies controller`executionList, controller.ssc32u`isOpen, controller.ssc32u`wire
      ensures Valid()
      ensures controller.notified == old(controller.notified)
      ensures motors == [] || !MotorRequests(commandList) ==>
                r == Return(false) && k == 0 && controller.executionList == old(controller.executionList) &&
                controller.ssc32u.wire == old(controller.ssc32u.wire)
      ensures motors != [] && MotorRequests(commandList) ==>
                var acts := MotorActions(motors, commandList.elems);
                Ran(acts, k, r, true) &&
                Effects(controller, acts, k, old(controller.executionList), old(controller.ssc32u.wire), old(controller.notified))
    {
      if motors == [] || !MotorRequests(commandList) {
        return Return(false), 0;
      }
      var cmds := commandList.elems;
      ghost var acts := MotorActions(motors, cmds);
      ghost var list0, wire0, notified0 := controller.executionList, controller.ssc32u.wire, controller.notified;
      var i := 0;
      while i < |cmds|
        invariant 0 <= i <= |cmds|
        invariant acts == MotorActions(motors, cmds)
        invariant forall j :: 0 <= j < i ==> !acts[j].Fail?
        invariant Valid()
        invariant Effects(controller, acts, i, list0, wire0, notified0)
      {
        var stop := MoveMotorTurn(cmds, i, acts, list0, wire0, notified0);
        if stop.Some? {
          return stop.value, i;
        }
        i := i + 1;
      }
      return Return(true), i;
    }

    /** The body of `init_command`'s servo loop for one entry. */
    method InitServoRequest(cmd: Value, ghost a: Action) returns (r: Option<Outcome<bool>>)
      requires Valid() && InitRequest(cmd)
      requires a == InitServoAction(servos, cmd)
      modifies controller`executionList, controller`notified, controller.ssc32u`isOpen, controller.ssc32u`wire
      ensures Valid()
      ensures Stepped(controller, a, r,
                      old(controller.executionList), old(controller.ssc32u.wire), old(controller.notified))
    {
      var found := FindServo(servos, AsInt(cmd.elems[0]));
      if found.None? {
        return Some(Raise(StopIteration));
      }
      var servo := servos[found.value];
      r := ServoStep(servo, servo.initPulse, cmd.elems[1].b);
    }

    /** The body of `init_command`'s motor loop for one entry. */
    method InitMotorRequest(cmd: Value, ghost a: Action) returns (r: Option<Outcome<bool>>)
      requires Valid() && InitRequest(cmd)
      requires a == InitMotorAction(motors, cmd)
      modifies controller`executionList, controller.ssc32u`isOpen, controller.ssc32u`wire
      ensures Valid()
      ensures Stepped(controller, a, r,
                      old(controller.executionList), old(controller.ssc32u.wire), old(controller.notified))
    {
      var found := FindMotor(motors, AsInt(cmd.elems[0]));
      if found.None? {
        return Some(Raise(StopIteration));
      }
      var motor := motors[found.value];
      r := MotorStep(motor, motor.initDirection, motor.initPercentage, cmd.elems[1].b);
    }

    /** One turn of `init_command`'s servo loop, over the `i`-th entry. */
    method InitServoTurn(cmds: seq<Value>, i: nat, ghost acts: seq<Action>,
                         ghost oldList: seq<string>, ghost oldWire: seq<string>, ghost oldNotified: seq<Notice>)
      returns (stop: Option<Outcome<bool>>)
      requires Valid() && i < |cmds| && i < |acts| && InitRequest(cmds[i]) && acts[i] == InitServoAction(servos, cmds[i])
      requires (forall j :: 0 <= j < i ==> !acts[j].Fail?) && Effects(controller, acts, i, oldList, oldWire, oldNotified)
      modifies controller`executionList, controller`notified, controller.ssc32u`isOpen, controller.ssc32u`wire
      ensures Valid() && Progressed(controller, acts, i, stop, oldList, oldWire, oldNotified)
    {
      ghost var list0, wire0, notified0 := controller.executionList, controller.ssc32u.wire, controller.notified;
      stop := InitServoRequest(cmds[i], acts[i]);
      Advance(acts, i, stop, controller.servosToNotify, list0, wire0, notified0,
              controller.executionList, controller.ssc32u.wire, controller.notified, oldList, oldWire, oldNotified);
    }

    /** One turn of `init_command`'s motor loop, over the `j`-th pending
        entry; `acts` are the motor loop's own actions. */
    method InitMotorTurn(pending: seq<Value>, j: nat, ghost acts: seq<Action>,
                         ghost oldList: seq<string>, ghost oldWire: seq<string>, ghost oldNotified: seq<Notice>)
      returns (stop: Option<Outcome<bool>>)
      requires Valid() && j < |pending| && forall i :: 0 <= i < |pending| ==> InitRequest(pending[i])
      requires acts == InitMotorActions(motors, pending)
      requires (forall i :: 0 <= i < j ==> !acts[i].Fail?)
      requires Effects(controller, acts, j, oldList, oldWire, oldNotified)
      modifies controller`executionList, controller.ssc32u`isOpen, controller.ssc32u`wire
      ensures Valid() && Progressed(controller, acts, j, stop, oldList, oldWire, oldNotified)
    {
      ghost var list0, wire0, notified0 := controller.executionList, controller.ssc32u.wire, controller.notified;
      stop := InitMotorRequest(pending[j], acts[j]);
      Advance(acts, j, stop, controller.servosToNotify, list0, wire0, notified0,
              controller.executionList, controller.ssc32u.wire, controller.notified, oldList, oldWire, oldNotified);
    }

    /** `init_command`'s servo loop over `cmds`, whose actions open `acts`:
        it stops at the first entry that fails, or walks them all and leaves
        the rebound list, the entries whose pin it has not met. */
    method InitServoLoop(cmds: seq<Value>, ghost acts: seq<Action>,
                         ghost oldList: seq<string>, ghost oldWire: seq<string>, ghost oldNotified: seq<Notice>)
      returns (stop: Option<Outcome<bool>>, pending: seq<Value>, ghost k: nat)
      requires Valid() && forall i :: 0 <= i < |cmds| ==> InitRequest(cmds[i])
      requires |cmds| <= |acts| && forall i :: 0 <= i < |cmds| ==> acts[i] == InitServoAction(servos, cmds[i])
      requires Effects(controller, acts, 0, oldList, oldWire, oldNotified)
      modifies controller`executionList, controller`notified, controller.ssc32u`isOpen, controller.ssc32u`wire
      ensures Valid()
      ensures k <= |cmds| && (forall j :: 0 <= j < k ==> !acts[j].Fail?)
      ensures Effects(controller, acts, k, oldList, oldWire, oldNotified)
      ensures stop.None? ==> k == |cmds| && pending == FilterOut(cmds, Pins(cmds))
      ensures stop.Some? ==> (k < |cmds| &&
                               ((acts[k].Fail? && stop.value == acts[k].outcome) ||
                                (acts[k].Sends() && stop.value == Raise(SerialException))))
    {
      FilterOutNothing(cmds);
      assert Pins(cmds[..0]) == [];
      pending := cmds;
      var i := 0;
      while i < |cmds|
        invariant 0 <= i <= |cmds|
        invariant pending == FilterOut(cmds, Pins(cmds[..i]))
        invariant forall j :: 0 <= j < i ==> !acts[j].Fail?
        invariant Valid()
        invariant Effects(controller, acts, i, oldList, oldWire, oldNotified)
      {
        // The source rebinds the list after the lookup and before the
        // move; the rebound list is only read once this loop is over.
        FilterPinOut(cmds, Pins(cmds[..i]), PinOf(cmds[i]));
        PinsSnoc(cmds, i);
        pending := FilterPin(pending, PinOf(cmds[i]));
        stop := InitServoTurn(cmds, i, acts, oldList, oldWire, oldNotified);
        if stop.Some? {
          return stop, pending, i;
        }
        i := i + 1;
      }
      assert cmds[..i] == cmds;
      return None, pending, i;
    }

    /** `init_command`'s motor loop over `pending`, whose actions follow the
        first `start` ones of `acts`. */
    method InitMotorLoop(pending: seq<Value>, ghost acts: seq<Action>, ghost start: nat,
                         ghost oldList: seq<string>, ghost oldWire: seq<string>, ghost oldNotified: seq<Notice>)
      returns (stop: Option<Outcome<bool>>, ghost k: nat)
      requires Valid() && forall i :: 0 <= i < |pending| ==> InitRequest(pending[i])
      requires start + |pending| == |acts| && acts[start..] == InitMotorActions(motors, pending)
      requires forall n :: 0 <= n < start ==> !acts[n].Fail?
      requires Effects(controller, acts, start, oldList, oldWire, oldNotified)
      modifies controller`executionList, controller.ssc32u`isOpen, controller.ssc32u`wire
      ensures Valid()
      ensures start <= k <= |acts| && (forall j :: 0 <= j < k ==> !acts[j].Fail?)
      ensures Effects(controller, acts, k, oldList, oldWire, oldNotified)
      ensures stop.None? ==> k == |acts|
      ensures stop.Some? ==> (k < |acts| &&
                               ((acts[k].Fail? && stop.value == acts[k].outcome) ||
                                (acts[k].Sends() && stop.value == Raise(SerialException))))
    {
      ghost var macts := acts[start..];
      assert macts[..0] == [];
      ghost var j;
      stop, j := InitMotorSteps(pending, macts, controller.executionList, controller.ssc32u.wire, controller.notified);
      k := start + j;
      TraceJoin(controller, acts, start, j, k, old(controller.executionList), old(controller.ssc32u.wire),
                old(controller.notified), oldList, oldWire, oldNotified);
      if stop.Some? {
        assert acts[k] == macts[j];
      }
    }

    /** The motor loop itself, over its own actions `acts`: it stops after
        `j` of them as `Stopped` says. */
    method InitMotorSteps(pending: seq<Value>, ghost acts: seq<Action>,
                          ghost oldList: seq<string>, ghost oldWire: seq<string>, ghost oldNotified: seq<Notice>)
      returns (stop: Option<Outcome<bool>>, ghost j: nat)
      requires Valid() && forall i :: 0 <= i < |pending| ==> InitRequest(pending[i])
      requires acts == InitMotorActions(motors, pending)
      requires Effects(controller, acts, 0, oldList, oldWire, oldNotified)
      modifies controller`executionList, controller.ssc32u`isOpen, controller.ssc32u`wire
      ensures Valid() && Stopped(acts, j, stop)
      ensures Effects(controller, acts, j, oldList, oldWire, oldNotified)
    {
      var n := 0;
      while n < |pending|
        invariant 0 <= n <= |pending|
        invariant acts == InitMotorActions(motors, pending)
        invariant forall i :: 0 <= i < n ==> !acts[i].Fail?
        invariant Valid()
        invariant Effects(controller, acts, n, oldList, oldWire, oldNotified)
      {
        stop := InitMotorTurn(pending, n, acts, oldList, oldWire, oldNotified);
        if stop.Some? {
          return stop, n;
        }
        n := n + 1;
      }
      return None, n;
    }

    /** `init_command`: moves each listed servo to its `init_pulse` and then
        drives each listed motor with its initial direction and percentage,
        at once or through the stack as each entry says. */
    method InitCommand(initList: Value) returns (r: Outcome<bool>, ghost k: nat)
      requires Valid()
      modifies controller`executionList, controller`notified, controller.ssc32u`isOpen, controller.ssc32u`wire
      ensures Valid()
      ensures !InitRequests(initList) ==>
                r == Return(false) && k == 0 && controller.executionList == old(controller.executionList) &&
                controller.ssc32u.wire == old(controller.ssc32u.wire) && controller.notified == old(controller.notified)
      ensures InitRequests(initList) ==>
                var acts := old(InitActions(servos, motors, initList.elems));
                Ran(acts, k, r, servos != [] || motors != []) &&
                Effects(controller, acts, k, old(controller.executionList), old(controller.ssc32u.wire), old(controller.notified))
    {
      if !InitRequests(initList) {
        return Return(false), 0;
      }
      var cmds := initList.elems;
      ghost var acts := InitActions(servos, motors, cmds);
      assert acts[..0] == [];
      var stop;
      if servos != [] {
        stop, k := InitServosFirst(cmds, acts);
      } else {
        stop, k := InitMotorsOnly(cmds, acts);
      }
      r := if stop.Some? then stop.value else Return(servos != [] || motors != []);
      Finish(acts, k, stop, servos != [] || motors != []);
    }

    /** `init_command` on a component with servos: the servo loop, then the
        motor loop over the rebound list, which is empty by then. */
    method InitServosFirst(cmds: seq<Value>, ghost acts: seq<Action>) returns (stop: Option<Outcome<bool>>, ghost k: nat)
      requires Valid() && servos != [] && forall i :: 0 <= i < |cmds| ==> InitRequest(cmds[i])
      requires acts == InitActions(servos, motors, cmds)
      requires Effects(controller, acts, 0, controller.executionList, controller.ssc32u.wire, controller.notified)
      modifies controller`executionList, controller`notified, controller.ssc32u`isOpen, controller.ssc32u`wire
      ensures Valid() && Stopped(acts, k, stop)
      ensures Effects(controller, acts, k, old(controller.executionList), old(controller.ssc32u.wire), old(controller.notified))
    {
      InitActionsAt(servos, motors, cmds);
      var pending;
      stop, pending, k := InitServoLoop(cmds, acts, controller.executionList, controller.ssc32u.wire, controller.notified);
      if stop.None? {
        PendingAfterServoLoop(cmds);
        if motors != [] {
          InitActionsSplit(servos, motors, cmds);
          // The rebound list is empty here, so the motor loop does nothing.
          stop, k := InitMotorLoop(pending, acts, k, old(controller.executionList), old(controller.ssc32u.wire),
                                   old(controller.notified));
        }
      }
    }

    /** `init_command` on a component without servos: the motor loop over
        the whole list, when there are motors. */
    method InitMotorsOnly(cmds: seq<Value>, ghost acts: seq<Action>) returns (stop: Option<Outcome<bool>>, ghost k: nat)
      requires Valid() && servos == [] && forall i :: 0 <= i < |cmds| ==> InitRequest(cmds[i])
      requires acts == InitActions(servos, motors, cmds)
      requires Effects(controller, acts, 0, controller.executionList, controller.ssc32u.wire, controller.notified)
      modifies controller`executionList, controller.ssc32u`isOpen, controller.ssc32u`wire
      ensures Valid() && Stopped(acts, k, stop)
      ensures Effects(controller, acts, k, old(controller.executionList), old(controller.ssc32u.wire), old(controller.notified))
    {
      InitActionsSplit(servos, motors, cmds);
      stop, k := None, 0;
      if motors != [] {
        stop, k := InitMotorLoop(cmds, acts, 0, controller.executionList, controller.ssc32u.wire, controller.notified);
      }
    }

    /** `initialize`: a non-empty list goes straight to `init_command`;
        otherwise every servo and then every motor is initialised through
        the stack, and a component with neither answers False. */
    method Initialize(initList: Value) returns (r: Outcome<bool>, ghost k: nat)
      requires Valid()
      modifies controller`executionList, controller`notified, controller.ssc32u`isOpen, controller.ssc32u`wire
      ensures Valid()
      ensures (Truthy(initList) && !InitRequests(initList)) || (!Truthy(initList) && servos == [] && motors == []) ==>
                r == Return(false) && controller.executionList == old(controller.executionList) &&
                controller.ssc32u.wire == old(controller.ssc32u.wire) && controller.notified == old(controller.notified)
      ensures Truthy(initList) && InitRequests(initList) ==>
                var acts := old(InitActions(servos, motors, initList.elems));
                Ran(acts, k, r, servos != [] || motors != []) &&
                Effects(controller, acts, k, old(controller.executionList), old(controller.ssc32u.wire), old(controller.notified))
      ensures !Truthy(initList) && (servos != [] || motors != []) ==>
                var acts := old(InitActions(servos, motors, DefaultInit(servos, motors)));
                Ran(acts, k, r, true) &&
                Effects(controller, acts, k, old(controller.executionList), old(controller.ssc32u.wire), old(controller.notified))
      ensures !Truthy(initList) ==>
                var acts := old(DefaultActs(this));
                InitAnswered(acts, k, r) &&
                Effects(controller, acts, k, old(controller.executionList), old(controller.ssc32u.wire), old(controller.notified))
    {
      if Truthy(initList) {
        r, k := InitCommand(initList);
        return;
      }
      var defaults := DefaultInit(servos, motors);
      ghost var acts := InitActions(servos, motors, defaults);
      if defaults == [] {
        assert acts == [];
        return Return(false), 0;
      }
      InitActionsAt(servos, motors, defaults);
      r, k := InitCommand(VList(defaults));
      assert Ran(acts, k, r, true);
    }

    /** The servo branch of `set_property` for one request: sets the named
        property of `s` when its rule allows the value. */
    static method SetServoProperty(s: ServoMotor, prop: string, v: int) returns (ok: bool)
      modifies s
      ensures var a := ApplyServo(old(Settings(s)), s.absMaxPulse, s.absMinPulse, prop, v);
              ok == a.Some? && Settings(s) == (if ok then a.value else old(Settings(s)))
    {
      ok := true;
      if prop == "max_pulse" {
        if v <= s.absMaxPulse {
          s.maxPulse := v;
        } else {
          ok := false;
        }
      } else if prop == "min_pulse" {
        if v >= s.absMinPulse {
          s.minPulse := v;
        } else {
          ok := false;
        }
      } else if prop == "init_pulse" {
        if s.absMinPulse <= v <= s.absMaxPulse {
          s.initPulse := v;
        } else {
          ok := false;
        }
      } else if prop == "pulse_width" {
        if v > 0 {
          s.pulseWidth := v;
        } else {
          ok := false;
        }
      } else {
        ok := false;
      }
    }

    /** `set_property`'s servo loop: walks the caller's list by position
        while removing each request it reads from it. */
    method ServoSettingLoop(lst0: seq<Value>) returns (stop: Option<Outcome<bool>>, lst: seq<Value>)
      requires Distinct(servos) && forall i :: 0 <= i < |lst0| ==> PropRequest(lst0[i])
      modifies servos
      ensures var p := ServoPass(servos, old(Snapshot(servos)), lst0, 0);
              stop == p.status && Snapshot(servos) == p.state && lst == p.rest
    {
      lst := lst0;
      var idx := 0;
      while idx < |lst|
        invariant forall i :: 0 <= i < |lst| ==> PropRequest(lst[i])
        invariant ServoPass(servos, Snapshot(servos), lst, idx) == ServoPass(servos, old(Snapshot(servos)), lst0, 0)
        decreases |lst| - idx
      {
        var next;
        stop, next := ServoSettingTurn(lst, idx);
        if stop.Some? {
          return stop, next;
        }
        lst := next;
        idx := idx + 1;
      }
      return None, lst;
    }

    /** One turn of `set_property`'s servo loop, over the request at `idx`:
        it ends the pass as `ServoPass` says, or leaves the shortened list
        and the new settings from which the pass goes on. */
    method ServoSettingTurn(lst: seq<Value>, idx: nat) returns (stop: Option<Outcome<bool>>, next: seq<Value>)
      requires Distinct(servos) && idx < |lst| && forall i :: 0 <= i < |lst| ==> PropRequest(lst[i])
      modifies servos
      ensures |next| <= |lst| && forall i :: 0 <= i < |next| ==> PropRequest(next[i])
      ensures var p := ServoPass(servos, old(Snapshot(servos)), lst, idx);
              if stop.Some? then stop == p.status && Snapshot(servos) == p.state && next == p.rest
              else ServoPass(servos, Snapshot(servos), next, idx + 1) == p
    {
      var cmd := lst[idx];
      assert PropRequest(cmd);
      var found := FindServo(servos, AsInt(cmd.elems[0]));
      if found.None? {
        return Some(Raise(StopIteration)), lst;
      }
      var j := found.value;
      ghost var before := Snapshot(servos);
      RemoveKeepsRequests(lst, idx);
      next := ListRemove(lst, cmd);
      var ok := SetServoProperty(servos[j], cmd.elems[1].s, AsInt(cmd.elems[2]));
      if !ok {
        assert Snapshot(servos) == before;
        return Some(Return(false)), next;
      }
      assert Snapshot(servos) == before[j := Settings(servos[j])];
      return None, next;
    }

    /** `set_property`'s motor loop, in the same shape; each accepted value
        replaces one field of the motor. */
    method MotorSettingLoop(lst0: seq<Value>) returns (stop: Option<Outcome<bool>>, lst: seq<Value>)
      requires forall i :: 0 <= i < |lst0| ==> PropRequest(lst0[i])
      modifies this`motors
      ensures var p := MotorPass(old(motors), lst0, 0);
              stop == p.status && motors == p.state && lst == p.rest
    {
      lst := lst0;
      var idx := 0;
      while idx < |lst|
        invariant forall i :: 0 <= i < |lst| ==> PropRequest(lst[i])
        invariant MotorPass(motors, lst, idx) == MotorPass(old(motors), lst0, 0)
        decreases |lst| - idx
      {
        var next;
        stop, next := MotorSettingTurn(lst, idx);
        if stop.Some? {
          return stop, next;
        }
        lst := next;
        idx := idx + 1;
      }
      return None, lst;
    }

    /** One turn of `set_property`'s motor loop, over the request at `idx`. */
    method MotorSettingTurn(lst0: seq<Value>, idx: nat) returns (stop: Option<Outcome<bool>>, lst: seq<Value>)
      requires idx < |lst0| && forall i :: 0 <= i < |lst0| ==> PropRequest(lst0[i])
      modifies this`motors
      ensures |lst| <= |lst0| && forall i :: 0 <= i < |lst| ==> PropRequest(lst[i])
      ensures var p := MotorPass(old(motors), lst0, idx);
              if stop.Some? then stop == p.status && motors == p.state && lst == p.rest
              else MotorPass(motors, lst, idx + 1) == p
    {
      lst := lst0;
      var cmd := lst[idx];
      assert PropRequest(cmd);
      var found := FindMotor(motors, AsInt(cmd.elems[0]));
      if found.None? {
        return Some(Raise(StopIteration)), lst;
      }
      var j := found.value;
      RemoveKeepsRequests(lst, idx);
      lst := ListRemove(lst, cmd);
      var m := motors[j];
      var prop, v := cmd.elems[1].s, AsInt(cmd.elems[2]);
      if prop == "init_percentage" {
        if 0 <= v <= 100 {
          motors := motors[j := m.(initPercentage := v)];
        } else {
          return Some(Return(false)), lst;
        }
      } else if prop == "init_direction" {
        if v in {-1, 0, 1} {
          motors := motors[j := m.(initDirection := v)];
        } else {
          return Some(Return(false)), lst;
        }
      } else if prop == "pulse_width" {
        if v >= 0 {
          motors := motors[j := m.(pulseWidth := v)];
        } else {
          return Some(Return(false)), lst;
        }
      } else {
        return Some(Return(false)), lst;
      }
      return None, lst;
    }

    /** `set_property`: the servo settings, the motors and the caller's list
        afterwards, and the answer, are those `SetPropertyResult` gives for
        the settings before the call. */
    method SetProperty(propList: Value) returns (r: Outcome<bool>, remaining: Value)
      requires Valid()
      modifies servos, this`motors
      ensures Valid()
      ensures var res := SetPropertyResult(servos, old(Snapshot(servos)), old(motors), propList);
              r == res.outcome && Snapshot(servos) == res.servoCfg && motors == res.motors && remaining == res.remaining
    {
      if !Truthy(propList) || !PropRequests(propList) {
        return Return(false), propList;
      }
      var lst := propList.elems;
      var stop: Option<Outcome<bool>> := None;
      if servos != [] {
        stop, lst := ServoSettingLoop(lst);
        if stop.Some? {
          return stop.value, VList(lst);
        }
      }
      if motors != [] {
        stop, lst := MotorSettingLoop(lst);
        if stop.Some? {
          return stop.value, VList(lst);
        }
      }
      return Return(servos != [] || motors != []), VList(lst);
    }
  }
}
