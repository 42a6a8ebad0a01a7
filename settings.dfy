/** What `Component.set_property` (johnnyv/core/Component.py) does to the
    joints' settings, as functions of the settings before the call: the
    rules each property must meet, the servo pass and then the motor pass
    over the caller's list, which each pass shortens while walking it. */
module Tuning {
  import opened PyValues
  import opened Joints

  // ---------------------------------------------------------------------
  // Requests

  /** One `set_property` request `(pin, property, value)`: a 3-tuple whose
      first and last elements are numbers and whose middle one is a string. */
  predicate PropRequest(c: Value) {
    c.VTuple? && |c.elems| == 3 && IsNumber(c.elems[0]) && c.elems[1].VStr? && IsNumber(c.elems[2])
  }

  /** The structural checks over the whole list: a list of requests only. */
  predicate PropRequests(v: Value) {
    v.VList? && forall i :: 0 <= i < |v.elems| ==> PropRequest(v.elems[i])
  }

  // ---------------------------------------------------------------------
  // Servo settings

  /** The four settings of a servo that `set_property` may change. */
  datatype ServoSettings = ServoSettings(maxPulse: int, minPulse: int, initPulse: int, pulseWidth: int)

  function Settings(s: ServoMotor): ServoSettings
    reads s
  {
    ServoSettings(s.maxPulse, s.minPulse, s.initPulse, s.pulseWidth)
  }

  /** The settings of every servo, in order. */
  function Snapshot(servos: seq<ServoMotor>): (r: seq<ServoSettings>)
    reads servos
    ensures |r| == |servos| && forall i :: 0 <= i < |servos| ==> r[i] == Settings(servos[i])
  {
    seq(|servos|, i reads servos requires 0 <= i < |servos| => Settings(servos[i]))
  }

  /** The rule a new servo setting must meet: `max_pulse` not above the
      absolute maximum, `min_pulse` not below the absolute minimum,
      `init_pulse` between the two, `pulse_width` positive; no other
      property can be set. */
  predicate ServoRule(prop: string, v: int, absMax: int, absMin: int) {
    || (prop == "max_pulse" && v <= absMax)
    || (prop == "min_pulse" && v >= absMin)
    || (prop == "init_pulse" && absMin <= v <= absMax)
    || (prop == "pulse_width" && v > 0)
  }

  /** Setting `prop` to `v`: None when the rule refuses it, otherwise the
      settings with exactly that one changed. */
  function ApplyServo(c: ServoSettings, absMax: int, absMin: int, prop: string, v: int): (r: Option<ServoSettings>)
    ensures r.Some? <==> ServoRule(prop, v, absMax, absMin)
    ensures r.Some? ==>
              && r.value.maxPulse == (if prop == "max_pulse" then v else c.maxPulse)
              && r.value.minPulse == (if prop == "min_pulse" then v else c.minPulse)
              && r.value.initPulse == (if prop == "init_pulse" then v else c.initPulse)
              && r.value.pulseWidth == (if prop == "pulse_width" then v else c.pulseWidth)
  {
    if prop == "max_pulse" then
      if v <= absMax then Some(c.(maxPulse := v)) else None
    else if prop == "min_pulse" then
      if v >= absMin then Some(c.(minPulse := v)) else None
    else if prop == "init_pulse" then
      if absMin <= v <= absMax then Some(c.(initPulse := v)) else None
    else if prop == "pulse_width" then
      if v > 0 then Some(c.(pulseWidth := v)) else None
    else None
  }

  /** Settings within the servo's absolute limits, as the rules keep them. */
  predicate ServoBounded(c: ServoSettings, absMax: int, absMin: int) {
    c.maxPulse <= absMax && c.minPulse >= absMin && absMin <= c.initPulse <= absMax && c.pulseWidth > 0
  }

  /** Every servo's settings within its limits. */
  predicate AllServosBounded(servos: seq<ServoMotor>, cfg: seq<ServoSettings>)
    requires |cfg| == |servos|
  {
    forall i :: 0 <= i < |servos| ==> ServoBounded(cfg[i], servos[i].absMaxPulse, servos[i].absMinPulse)
  }

  // ---------------------------------------------------------------------
  // Motor settings

  /** The rule a new motor setting must meet: `init_percentage` in 0..100,
      `init_direction` one of -1, 0, 1, `pulse_width` not negative. */
  predicate MotorRule(prop: string, v: int) {
    || (prop == "init_percentage" && 0 <= v <= 100)
    || (prop == "init_direction" && v in {-1, 0, 1})
    || (prop == "pulse_width" && v >= 0)
  }

  /** Setting a motor's `prop` to `v`: None when the rule refuses it,
      otherwise the motor with exactly that one field changed. */
  function ApplyMotor(m: GearedMotor, prop: string, v: int): (r: Option<GearedMotor>)
    ensures r.Some? <==> MotorRule(prop, v)
    ensures r.Some? ==>
              && r.value.pin == m.pin
              && r.value.initPercentage == (if prop == "init_percentage" then v else m.initPercentage)
              && r.value.initDirection == (if prop == "init_direction" then v else m.initDirection)
              && r.value.pulseWidth == (if prop == "pulse_width" then v else m.pulseWidth)
  {
    if prop == "init_percentage" then
      if 0 <= v <= 100 then Some(m.(initPercentage := v)) else None
    else if prop == "init_direction" then
      if v in {-1, 0, 1} then Some(m.(initDirection := v)) else None
    else if prop == "pulse_width" then
      if v >= 0 then Some(m.(pulseWidth := v)) else None
    else None
  }

  /** A motor whose settings meet the rules. */
  predicate MotorBounded(m: GearedMotor) {
    0 <= m.initPercentage <= 100 && m.initDirection in {-1, 0, 1} && m.pulseWidth >= 0
  }

  predicate AllMotorsBounded(motors: seq<GearedMotor>) {
    forall i :: 0 <= i < |motors| ==> MotorBounded(motors[i])
  }

  // ---------------------------------------------------------------------
  // The two passes

  /** Where a pass stopped (`status` None when it walked the whole list),
      the settings it left, and what is left of the caller's list. */
  datatype Pass<C> = Pass(status: Option<Outcome<bool>>, state: C, rest: seq<Value>)

  /** Removing the request at `idx` keeps only requests in the list. */
  lemma RemoveKeepsRequests(lst: seq<Value>, idx: nat)
    requires idx < |lst| && forall i :: 0 <= i < |lst| ==> PropRequest(lst[i])
    ensures FirstEqual(lst, lst[idx]) < |lst|
    ensures forall i :: 0 <= i < |ListRemove(lst, lst[idx])| ==> PropRequest(ListRemove(lst, lst[idx])[i])
  {
    RemoveShiftsTail(lst, idx);
    var rest := ListRemove(lst, lst[idx]);
    forall i | 0 <= i < |rest| ensures PropRequest(rest[i]) {
      assert rest[i] in rest;
    }
  }

  /** The servo loop from position `idx` of the (already shortened) list:
      look the pin up, remove the request from the list, then set the
      property, stopping at the first unknown pin or refused value. */
  function ServoPass(servos: seq<ServoMotor>, cfg: seq<ServoSettings>, lst: seq<Value>, idx: nat): (p: Pass<seq<ServoSettings>>)
    requires |cfg| == |servos| && forall i :: 0 <= i < |lst| ==> PropRequest(lst[i])
    ensures |p.state| == |servos|
    ensures forall i :: 0 <= i < |p.rest| ==> PropRequest(p.rest[i])
    decreases |lst| - idx
  {
    if idx >= |lst| then Pass(None, cfg, lst)
    else
      var cmd := lst[idx];
      assert PropRequest(cmd);
      match FindServo(servos, AsInt(cmd.elems[0]))
      case None => Pass(Some(Raise(StopIteration)), cfg, lst)
      case Some(j) =>
        RemoveKeepsRequests(lst, idx);
        var rest := ListRemove(lst, cmd);
        match ApplyServo(cfg[j], servos[j].absMaxPulse, servos[j].absMinPulse, cmd.elems[1].s, AsInt(cmd.elems[2]))
        case None => Pass(Some(Return(false)), cfg, rest)
        case Some(c) => ServoPass(servos, cfg[j := c], rest, idx + 1)
  }

  /** The motor loop, in the same shape, over the list the servo loop left. */
  function MotorPass(motors: seq<GearedMotor>, lst: seq<Value>, idx: nat): (p: Pass<seq<GearedMotor>>)
    requires forall i :: 0 <= i < |lst| ==> PropRequest(lst[i])
    ensures |p.state| == |motors|
    ensures forall i :: 0 <= i < |motors| ==> p.state[i].pin == motors[i].pin
    ensures forall i :: 0 <= i < |p.rest| ==> PropRequest(p.rest[i])
    decreases |lst| - idx
  {
    if idx >= |lst| then Pass(None, motors, lst)
    else
      var cmd := lst[idx];
      assert PropRequest(cmd);
      match FindMotor(motors, AsInt(cmd.elems[0]))
      case None => Pass(Some(Raise(StopIteration)), motors, lst)
      case Some(j) =>
        RemoveKeepsRequests(lst, idx);
        var rest := ListRemove(lst, cmd);
        match ApplyMotor(motors[j], cmd.elems[1].s, AsInt(cmd.elems[2]))
        case None => Pass(Some(Return(false)), motors, rest)
        case Some(m) => MotorPass(motors[j := m], rest, idx + 1)
  }

  /** What the whole call answers and leaves: the servo settings, the
      motors and the caller's list. */
  datatype SetResult = SetResult(outcome: Outcome<bool>, servoCfg: seq<ServoSettings>,
                                 motors: seq<GearedMotor>, remaining: Value)

  /** `set_property`: an empty or malformed list answers False and changes
      nothing; otherwise the servo pass (when there are servos) and then
      the motor pass (when there are motors) over what it left, answering
      True at the end when there are servos or motors. */
  function SetPropertyResult(servos: seq<ServoMotor>, cfg: seq<ServoSettings>, motors: seq<GearedMotor>,
                             propList: Value): (r: SetResult)
    requires |cfg| == |servos|
    ensures |r.servoCfg| == |servos| && |r.motors| == |motors|
  {
    if !Truthy(propList) || !PropRequests(propList) then SetResult(Return(false), cfg, motors, propList)
    else
      var sp := if servos != [] then ServoPass(servos, cfg, propList.elems, 0) else Pass(None, cfg, propList.elems);
      if sp.status.Some? then SetResult(sp.status.value, sp.state, motors, VList(sp.rest))
      else
        var mp := if motors != [] then MotorPass(motors, sp.rest, 0) else Pass(None, motors, sp.rest);
        if mp.status.Some? then SetResult(mp.status.value, sp.state, mp.state, VList(mp.rest))
        else SetResult(Return(servos != [] || motors != []), sp.state, mp.state, VList(mp.rest))
  }

  // ---------------------------------------------------------------------
  // Which requests are read: every other one

  /** The elements at even positions: `s[0], s[2], s[4], ...`. */
  function Evens<T>(s: seq<T>): (r: seq<T>)
    ensures |r| == (|s| + 1) / 2
    ensures forall i :: 0 <= i < |r| ==> r[i] == s[2 * i]
    decreases |s|
  {
    if s == [] then [] else if |s| == 1 then s else [s[0]] + Evens(s[2..])
  }

  /** Removing the request at `idx` (or an equal one before it) and moving
      on to `idx + 1` skips exactly one request. */
  lemma EvensStep<T>(lst: seq<T>, rest: seq<T>, idx: nat)
    requires idx < |lst| && |rest| == |lst| - 1 && rest[idx..] == lst[idx + 1..]
    ensures |Evens(lst[idx..])| >= 1 && Evens(lst[idx..])[0] == lst[idx]
    ensures Evens(lst[idx..])[1..] == if idx + 1 <= |rest| then Evens(rest[idx + 1..]) else []
  {
    if idx + 1 <= |rest| {
      assert rest[idx + 1..] == rest[idx..][1..] == lst[idx + 2..];
      assert lst[idx..][2..] == lst[idx + 2..];
      assert Evens(lst[idx..]) == [lst[idx]] + Evens(rest[idx + 1..]);
    }
  }

  /** The servo settings a plain walk over `cmds` leaves, with no removal
      and no skipping, stopping at the first failure. */
  function ServoWalk(servos: seq<ServoMotor>, cfg: seq<ServoSettings>, cmds: seq<Value>): (p: (Option<Outcome<bool>>, seq<ServoSettings>))
    requires |cfg| == |servos| && forall i :: 0 <= i < |cmds| ==> PropRequest(cmds[i])
    decreases |cmds|
  {
    if cmds == [] then (None, cfg)
    else
      assert PropRequest(cmds[0]);
      match FindServo(servos, AsInt(cmds[0].elems[0]))
      case None => (Some(Raise(StopIteration)), cfg)
      case Some(j) =>
        match ApplyServo(cfg[j], servos[j].absMaxPulse, servos[j].absMinPulse, cmds[0].elems[1].s, AsInt(cmds[0].elems[2]))
        case None => (Some(Return(false)), cfg)
        case Some(c) => ServoWalk(servos, cfg[j := c], cmds[1..])
  }

  /** The motors a plain walk over `cmds` leaves. */
  function MotorWalk(motors: seq<GearedMotor>, cmds: seq<Value>): (p: (Option<Outcome<bool>>, seq<GearedMotor>))
    requires forall i :: 0 <= i < |cmds| ==> PropRequest(cmds[i])
    decreases |cmds|
  {
    if cmds == [] then (None, motors)
    else
      assert PropRequest(cmds[0]);
      match FindMotor(motors, AsInt(cmds[0].elems[0]))
      case None => (Some(Raise(StopIteration)), motors)
      case Some(j) =>
        match ApplyMotor(motors[j], cmds[0].elems[1].s, AsInt(cmds[0].elems[2]))
        case None => (Some(Return(false)), motors)
        case Some(m) => MotorWalk(motors[j := m], cmds[1..])
  }

  /** Removing each request while walking the list makes each pass read
      only every other request of what is ahead of it: the servo pass
      from `idx` ends exactly as a plain walk over `Evens(lst[idx..])`. */
  lemma {:induction false} ServoPassReadsEvens(servos: seq<ServoMotor>, cfg: seq<ServoSettings>, lst: seq<Value>, idx: nat)
    requires |cfg| == |servos| && forall i :: 0 <= i < |lst| ==> PropRequest(lst[i])
    ensures idx <= |lst| ==> forall i :: 0 <= i < |Evens(lst[idx..])| ==> PropRequest(Evens(lst[idx..])[i])
    ensures idx <= |lst| ==>
              ServoWalk(servos, cfg, Evens(lst[idx..])) ==
                (ServoPass(servos, cfg, lst, idx).status, ServoPass(servos, cfg, lst, idx).state)
    decreases |lst| - idx
  {
    if idx < |lst| {
      var cmd := lst[idx];
      var ev := Evens(lst[idx..]);
      assert ev[0] == cmd;
      var found := FindServo(servos, AsInt(cmd.elems[0]));
      if found.Some? {
        var j := found.value;
        var a := ApplyServo(cfg[j], servos[j].absMaxPulse, servos[j].absMinPulse, cmd.elems[1].s, AsInt(cmd.elems[2]));
        if a.Some? {
          ServoStepsAgree(servos, cfg, lst, idx, ev, j, a.value);
          var rest := ListRemove(lst, cmd);
          RemoveShiftsTail(lst, idx);
          EvensStep(lst, rest, idx);
          ServoPassReadsEvens(servos, cfg[j := a.value], rest, idx + 1);
        }
      }
    }
  }

  /** An accepted servo request moves the pass and the plain walk on alike. */
  lemma ServoStepsAgree(servos: seq<ServoMotor>, cfg: seq<ServoSettings>, lst: seq<Value>, idx: nat,
                        ev: seq<Value>, j: nat, c: ServoSettings)
    requires |cfg| == |servos| && idx < |lst| && forall i :: 0 <= i < |lst| ==> PropRequest(lst[i])
    requires ev != [] && ev[0] == lst[idx] && forall i :: 0 <= i < |ev| ==> PropRequest(ev[i])
    requires PropRequest(lst[idx]) && j < |servos|
    requires FindServo(servos, AsInt(lst[idx].elems[0])) == Some(j)
    requires ApplyServo(cfg[j], servos[j].absMaxPulse, servos[j].absMinPulse, lst[idx].elems[1].s, AsInt(lst[idx].elems[2])) == Some(c)
    ensures FirstEqual(lst, lst[idx]) < |lst|
    ensures forall i :: 0 <= i < |ListRemove(lst, lst[idx])| ==> PropRequest(ListRemove(lst, lst[idx])[i])
    ensures ServoPass(servos, cfg, lst, idx) == ServoPass(servos, cfg[j := c], ListRemove(lst, lst[idx]), idx + 1)
    ensures ServoWalk(servos, cfg, ev) == ServoWalk(servos, cfg[j := c], ev[1..])
  {
    RemoveKeepsRequests(lst, idx);
  }

  /** The same for the motor pass. */
  lemma {:induction false} MotorPassReadsEvens(motors: seq<GearedMotor>, lst: seq<Value>, idx: nat)
    requires forall i :: 0 <= i < |lst| ==> PropRequest(lst[i])
    ensures idx <= |lst| ==> forall i :: 0 <= i < |Evens(lst[idx..])| ==> PropRequest(Evens(lst[idx..])[i])
    ensures idx <= |lst| ==>
              MotorWalk(motors, Evens(lst[idx..])) == (MotorPass(motors, lst, idx).status, MotorPass(motors, lst, idx).state)
    decreases |lst| - idx
  {
    if idx < |lst| {
      var cmd := lst[idx];
      var ev := Evens(lst[idx..]);
      assert ev[0] == cmd;
      match FindMotor(motors, AsInt(cmd.elems[0]))
      case None =>
      case Some(j) =>
        RemoveKeepsRequests(lst, idx);
        RemoveShiftsTail(lst, idx);
        var rest := ListRemove(lst, cmd);
        match ApplyMotor(motors[j], cmd.elems[1].s, AsInt(cmd.elems[2]))
        case None =>
        case Some(m) =>
          MotorPassReadsEvens(motors[j := m], rest, idx + 1);
          EvensStep(lst, rest, idx);
          assert MotorPass(motors, lst, idx) == MotorPass(motors[j := m], rest, idx + 1);
          assert MotorWalk(motors, ev) == MotorWalk(motors[j := m], ev[1..]);
    }
  }

  // ---------------------------------------------------------------------
  // The rules keep the joints within their limits

  /** A servo pass keeps every servo within its limits. */
  lemma {:induction false} ServoPassBounded(servos: seq<ServoMotor>, cfg: seq<ServoSettings>, lst: seq<Value>, idx: nat)
    requires |cfg| == |servos| && forall i :: 0 <= i < |lst| ==> PropRequest(lst[i])
    requires AllServosBounded(servos, cfg)
    ensures AllServosBounded(servos, ServoPass(servos, cfg, lst, idx).state)
    decreases |lst| - idx
  {
    if idx < |lst| {
      var cmd := lst[idx];
      match FindServo(servos, AsInt(cmd.elems[0]))
      case None =>
      case Some(j) =>
        RemoveKeepsRequests(lst, idx);
        match ApplyServo(cfg[j], servos[j].absMaxPulse, servos[j].absMinPulse, cmd.elems[1].s, AsInt(cmd.elems[2]))
        case None =>
        case Some(c) =>
          assert AllServosBounded(servos, cfg[j := c]);
          ServoPassBounded(servos, cfg[j := c], ListRemove(lst, cmd), idx + 1);
    }
  }

  /** A motor pass keeps every motor's settings within the rules. */
  lemma {:induction false} MotorPassBounded(motors: seq<GearedMotor>, lst: seq<Value>, idx: nat)
    requires forall i :: 0 <= i < |lst| ==> PropRequest(lst[i])
    requires AllMotorsBounded(motors)
    ensures AllMotorsBounded(MotorPass(motors, lst, idx).state)
    decreases |lst| - idx
  {
    if idx < |lst| {
      var cmd := lst[idx];
      match FindMotor(motors, AsInt(cmd.elems[0]))
      case None =>
      case Some(j) =>
        RemoveKeepsRequests(lst, idx);
        match ApplyMotor(motors[j], cmd.elems[1].s, AsInt(cmd.elems[2]))
        case None =>
        case Some(m) =>
          ApplyMotorBounded(motors, j, cmd.elems[1].s, AsInt(cmd.elems[2]));
          MotorPassBounded(motors[j := m], ListRemove(lst, cmd), idx + 1);
    }
  }

  /** An accepted motor value keeps every motor within the rules. */
  lemma ApplyMotorBounded(motors: seq<GearedMotor>, j: nat, prop: string, v: int)
    requires AllMotorsBounded(motors) && j < |motors| && ApplyMotor(motors[j], prop, v).Some?
    ensures AllMotorsBounded(motors[j := ApplyMotor(motors[j], prop, v).value])
  {
    var m := ApplyMotor(motors[j], prop, v).value;
    var after := motors[j := m];
    forall i | 0 <= i < |after| ensures MotorBounded(after[i]) {
      if i != j {
        assert after[i] == motors[i];
      }
    }
  }

  /** `set_property` keeps joints that were within their limits within them,
      whatever it answers. */
  lemma SetPropertyBounded(servos: seq<ServoMotor>, cfg: seq<ServoSettings>, motors: seq<GearedMotor>, propList: Value)
    requires |cfg| == |servos| && AllServosBounded(servos, cfg) && AllMotorsBounded(motors)
    ensures var r := SetPropertyResult(servos, cfg, motors, propList);
            AllServosBounded(servos, r.servoCfg) && AllMotorsBounded(r.motors)
  {
    if Truthy(propList) && PropRequests(propList) {
      if servos != [] {
        ServoPassBounded(servos, cfg, propList.elems, 0);
      }
      var sp := if servos != [] then ServoPass(servos, cfg, propList.elems, 0) else Pass(None, cfg, propList.elems);
      if sp.status.None? && motors != [] {
        MotorPassBounded(motors, sp.rest, 0);
      }
    }
  }
}
