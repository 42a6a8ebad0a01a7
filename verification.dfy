/** The consistency checks `Verification.validate` runs on the robot's
    configuration once the schema check has passed
    (johnnyv/core/Verification.py). */
module ConfigChecks {
  import opened PyValues

  /** One entry of a component's `servo_list` or `motor_list`. */
  datatype Joint = Joint(pin: int, colorScheme: string)

  /** One entry of the configuration's `components` table. */
  datatype ComponentConfig = ComponentConfig(servoList: seq<Joint>, motorList: seq<Joint>)

  /** `len(set(xs))`: the number of different elements of a list. */
  function Card<T(==)>(xs: seq<T>): nat {
    |set x | x in xs|
  }

  function PinsOf(joints: seq<Joint>): (r: seq<int>)
    ensures |r| == |joints| && forall i :: 0 <= i < |r| ==> r[i] == joints[i].pin
  {
    seq(|joints|, i requires 0 <= i < |joints| => joints[i].pin)
  }

  function SchemesOf(joints: seq<Joint>): (r: seq<string>)
    ensures |r| == |joints| && forall i :: 0 <= i < |r| ==> r[i] == joints[i].colorScheme
  {
    seq(|joints|, i requires 0 <= i < |joints| => joints[i].colorScheme)
  }

  /** `servo_pins`: the servo pins of every component, component by component. */
  function ServoPins(components: seq<ComponentConfig>): seq<int> {
    if components == [] then [] else PinsOf(components[0].servoList) + ServoPins(components[1..])
  }

  /** `motor_pins`, in the same order. */
  function MotorPins(components: seq<ComponentConfig>): seq<int> {
    if components == [] then [] else PinsOf(components[0].motorList) + MotorPins(components[1..])
  }

  /** `servo_schemes + motor_schemes` of one component. */
  function Schemes(c: ComponentConfig): seq<string> {
    SchemesOf(c.servoList) + SchemesOf(c.motorList)
  }

  /** The loop over the components: the first component that uses a colour
      scheme twice makes it answer False. */
  function SchemesUnique(components: seq<ComponentConfig>): bool {
    if components == [] then true
    else if Card(Schemes(components[0])) != |Schemes(components[0])| then false
    else SchemesUnique(components[1..])
  }

  /** `validate`, with the outcome of the schema check as the input
      `schemaClean` (False when `best_match` found an error). */
  function Validate(schemaClean: bool, components: seq<ComponentConfig>): (r: bool)
    ensures !schemaClean ==> !r
  {
    if !schemaClean then false
    else
      var pins := ServoPins(components) + MotorPins(components);
      if Card(pins) == |pins| then SchemesUnique(components) else false
  }

  // Counting the different elements of a list

  /** A list has no more different elements than entries. */
  lemma {:induction false} CardBound<T>(xs: seq<T>)
    ensures Card(xs) <= |xs|
  {
    if xs != [] {
      CardBound(xs[1..]);
      assert (set x | x in xs) == {xs[0]} + (set x | x in xs[1..]);
    }
  }

  /** `len(xs) == len(set(xs))` holds exactly when no element of `xs` repeats. */
  lemma {:induction false} CardDistinct<T>(xs: seq<T>)
    ensures Card(xs) == |xs| <==> Distinct(xs)
  {
    if xs != [] {
      var rest := xs[1..];
      CardDistinct(rest);
      assert (set x | x in xs) == {xs[0]} + (set x | x in rest);
      if xs[0] in rest {
        assert (set x | x in xs) == (set x | x in rest);
        CardBound(rest);
        var k :| 0 <= k < |rest| && rest[k] == xs[0];
        assert xs[0] == xs[k + 1];
      } else {
        assert Distinct(xs) <==> Distinct(rest) by {
          if Distinct(rest) {
            forall i, j | 0 <= i < j < |xs| ensures xs[i] != xs[j] {
              if i > 0 {
                assert xs[i] == rest[i - 1] && xs[j] == rest[j - 1];
              } else {
                assert xs[j] == rest[j - 1];
              }
            }
          }
          if Distinct(xs) {
            forall i, j | 0 <= i < j < |rest| ensures rest[i] != rest[j] {
              assert rest[i] == xs[i + 1] && rest[j] == xs[j + 1];
            }
          }
        }
      }
    }
  }

  /** The component loop answers True exactly when no component repeats a
      colour scheme. */
  lemma {:induction false} SchemesUniqueIff(components: seq<ComponentConfig>)
    ensures SchemesUnique(components) <==> forall i :: 0 <= i < |components| ==> Distinct(Schemes(components[i]))
  {
    if components != [] {
      CardDistinct(Schemes(components[0]));
      SchemesUniqueIff(components[1..]);
      assert forall i :: 1 <= i < |components| ==> components[i] == components[1..][i - 1];
    }
  }

  /** `validate` answers True exactly when the schema check passed, no pin is
      used twice anywhere in the robot, and no component uses a colour scheme
      twice; the same scheme in two different components is allowed. */
  lemma ValidateIff(schemaClean: bool, components: seq<ComponentConfig>)
    ensures Validate(schemaClean, components) <==>
              && schemaClean
              && Distinct(ServoPins(components) + MotorPins(components))
              && forall i :: 0 <= i < |components| ==> Distinct(Schemes(components[i]))
  {
    CardDistinct(ServoPins(components) + MotorPins(components));
    SchemesUniqueIff(components);
  }

  /** A servo and a motor on the same pin fail the validation, whether they
      belong to one component or to two. */
  lemma {:induction false} PinReuseRejects(schemaClean: bool, components: seq<ComponentConfig>,
                                           k1: nat, k2: nat, a: Joint, b: Joint)
    requires k1 < |components| && a in components[k1].servoList
    requires k2 < |components| && b in components[k2].motorList
    requires a.pin == b.pin
    ensures !Validate(schemaClean, components)
  {
    ValidateIff(schemaClean, components);
    var pins := ServoPins(components) + MotorPins(components);
    var i := PinIndex(components, k1, a, true);
    var j := PinIndex(components, k2, b, false);
    assert pins[i] == a.pin && pins[|ServoPins(components)| + j] == b.pin;
  }

  /** Where a joint's pin sits in `servo_pins` (or `motor_pins`). */
  lemma {:induction false} PinIndex(components: seq<ComponentConfig>, k: nat, a: Joint, servo: bool) returns (i: nat)
    requires k < |components|
    requires if servo then a in components[k].servoList else a in components[k].motorList
    ensures servo ==> i < |ServoPins(components)| && ServoPins(components)[i] == a.pin
    ensures !servo ==> i < |MotorPins(components)| && MotorPins(components)[i] == a.pin
  {
    var joints := if servo then components[0].servoList else components[0].motorList;
    var here := PinsOf(joints);
    if k == 0 {
      var m :| 0 <= m < |joints| && joints[m] == a;
      i := m;
    } else {
      var rest := PinIndex(components[1..], k - 1, a, servo);
      i := |here| + rest;
    }
  }
}
