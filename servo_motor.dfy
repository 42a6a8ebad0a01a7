/** The joints of the robot: servos (johnnyv/core/ServoMotor.py), which are
    also the position observers, and geared motors (johnnyv/core/GearedMotor.py). */
module Joints {
  import opened PyValues

  function Abs(x: int): nat {
    if x < 0 then -x else x
  }

  /** One row of a component's `servo_list` table. */
  datatype ServoSpec = ServoSpec(
    dependencies: seq<int>,
    pin: int,
    maxPulse: int,
    minPulse: int,
    absMaxPulse: int,
    absMinPulse: int,
    pulseWidth: int,
    initPulse: int)

  /** A geared motor: a plain record that `set_property` replaces field by field. */
  datatype GearedMotor = GearedMotor(pin: int, initPercentage: int, initDirection: int, pulseWidth: int)

  /** A servo. The fields the source never assigns after construction are
      constants here; in particular `currentPosition` keeps the initial pulse
      for the servo's whole life, and `pulseSpan` is never recomputed. */
  class ServoMotor {
    const dependencies: seq<int>
    const pin: int
    var maxPulse: int
    var minPulse: int
    const pulseSpan: nat
    const absMaxPulse: int
    const absMinPulse: int
    var pulseWidth: int
    var initPulse: int
    const currentPosition: int

    /** Stores every argument unchanged, without range checks, and derives
        the span of allowed travel and the starting position. */
    constructor (dependencies: seq<int>, pin: int, maxPulse: int, minPulse: int,
                 absMaxPulse: int, absMinPulse: int, pulseWidth: int, initPulse: int)
      ensures this.dependencies == dependencies && this.pin == pin
      ensures this.maxPulse == maxPulse && this.minPulse == minPulse
      ensures this.absMaxPulse == absMaxPulse && this.absMinPulse == absMinPulse
      ensures this.pulseWidth == pulseWidth && this.initPulse == initPulse
      ensures pulseSpan == Abs(maxPulse - minPulse)
      ensures currentPosition == initPulse
    {
      this.dependencies := dependencies;
      this.pin := pin;
      this.maxPulse := maxPulse;
      this.minPulse := minPulse;
      this.pulseSpan := Abs(maxPulse - minPulse);
      this.absMaxPulse := absMaxPulse;
      this.absMinPulse := absMinPulse;
      this.pulseWidth := pulseWidth;
      this.initPulse := initPulse;
      this.currentPosition := initPulse;
    }

    /** The observer callback: answers `False` when the moved pin is one this
        servo depends on and `None` otherwise; it changes nothing. */
    method Update(pin: int, degree: int) returns (r: Option<bool>)
      ensures r == Some(false) <==> pin in dependencies
      ensures r == None <==> pin !in dependencies
    {
      if pin in dependencies {
        return Some(false);
      }
      return None;
    }
  }

  /** The servo built from one table row. */
  predicate Built(s: ServoMotor, spec: ServoSpec)
    reads s
  {
    && s.dependencies == spec.dependencies && s.pin == spec.pin
    && s.maxPulse == spec.maxPulse && s.minPulse == spec.minPulse
    && s.absMaxPulse == spec.absMaxPulse && s.absMinPulse == spec.absMinPulse
    && s.pulseWidth == spec.pulseWidth && s.initPulse == spec.initPulse
    && s.pulseSpan == Abs(spec.maxPulse - spec.minPulse)
    && s.currentPosition == spec.initPulse
  }

  // Looking joints up by pin

  /** The index of the first servo on `pin` (`next(...)` over the servos),
      or None when there is none and `next` would raise StopIteration. */
  function FindServo(servos: seq<ServoMotor>, pin: int): (r: Option<nat>)
    ensures r.Some? ==> r.value < |servos| && servos[r.value].pin == pin &&
                        forall i :: 0 <= i < r.value ==> servos[i].pin != pin
    ensures r.None? <==> forall i :: 0 <= i < |servos| ==> servos[i].pin != pin
  {
    if servos == [] then None
    else if servos[0].pin == pin then Some(0)
    else match FindServo(servos[1..], pin)
      case None => None
      case Some(j) => Some(j + 1)
  }

  /** The index of the first motor on `pin`, or None. */
  function FindMotor(motors: seq<GearedMotor>, pin: int): (r: Option<nat>)
    ensures r.Some? ==> r.value < |motors| && motors[r.value].pin == pin &&
                        forall i :: 0 <= i < r.value ==> motors[i].pin != pin
    ensures r.None? <==> forall i :: 0 <= i < |motors| ==> motors[i].pin != pin
  {
    if motors == [] then None
    else if motors[0].pin == pin then Some(0)
    else match FindMotor(motors[1..], pin)
      case None => None
      case Some(j) => Some(j + 1)
  }
}
