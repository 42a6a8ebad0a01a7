# JohnnyV motion pipeline, modelled in Dafny

JohnnyV is a humanoid robot driven from a Raspberry Pi. Its body parts
(components) own servos and geared motors. A component turns move requests
into `'pin:pulse:time'` tokens and hands them to the shared `Controller`.
The controller either sends a token at once to the SSC-32U servo board, as
one serial line `' #pin Ppulse Ttime \r'`, or pushes it onto a shared
execution stack. `JohnnyV` commits that stack only when every component
reported success.

This project models that pipeline:

- the controller's encoders, its token checks, its stack, and its observer
  list (the servos that are told about every immediate servo move);
- the components' `move_servo`, `move_motor`, `init_command`, `initialize`,
  `set_property` and constructor;
- the servos;
- the board's frame building and command strings;
- the robot's commit gate;
- the camera's setters and argument checks;
- the configuration's uniqueness checks.

Python values handed in by callers are a `Value` datatype: int, bool, str,
tuple, list and None. A bool counts as a number, as `isinstance(x, int)`
and `numbers.Number` do. Exceptions are an `Outcome` (`Return(v)` or
`Raise(e)`).

The serial port is a nondeterministic oracle. A write either succeeds and
is logged in the board's `wire`, or raises `SerialException`. Observer
callbacks are logged in the controller's ghost `notified` list.

Each component loop is specified by a list of actions, one per request. An
action either fails, pushes a token, or sends a line. The loop then runs
the actions up to the first one that fails or whose send raises:

- `Ran` states the answer;
- `Effects` states the stack, the wire and the notifications.

Modules, one per file:

| file | module | models |
|---|---|---|
| python_values.dfy | `PyValues` | Python values, `==`, truthiness, `list.remove` |
| text.dfy | `Text` | `str(int)`, `isdigit`, `split(':')` |
| servo_motor.dfy | `Joints` | `ServoMotor`, `GearedMotor`, lookup by pin |
| ssc32u.dfy | `Board` | `SSC32U` |
| controller.dfy | `Control` | `Controller` |
| settings.dfy | `Tuning` | the rules and passes of `set_property` |
| component.dfy | `Components` | `Component` |
| johnnyv.dfy | `Robot` | `JohnnyV` |
| camera.dfy | `Cameras` | `Camera` |
| verification.dfy | `ConfigChecks` | `Verification.validate` |

Some behaviour is modelled as the code does it, not as its messages suggest:

- **Unknown pin.** A request for a pin the component does not have makes
  `next(...)` raise StopIteration. The "not available" branches are never
  reached.
- **Motor immediacy.** `move_motor` decides whether to send at once by the
  truth value of the percentage. The trailing bool is checked but never
  read.
- **`init_command` with servos.** With servos present, the servo loop walks
  every request, including the motor ones. A component with servos and a
  motor on a pin no servo uses therefore never answers True from
  `initialize()`, and issues no motor command. This is proved in
  `InitializeWithMotorFails`.
- **`set_property` skips requests.** It removes each request from the
  caller's list while iterating over it, so each pass reads only every other
  request.
- **`set_property` and `pulse_span`.** It never recomputes `pulse_span`.
- **`current_position`.** It is never reassigned after construction, so
  every pulse-time computation measures from the initial pulse.
- **`execute_stack`.** It notifies no observer.
- **An empty stack.** `Controller.execute_stack` answers a falsy value for an
  empty stack, while `JohnnyV.execute_stack` answers True.
- **Camera setters.** `set_contrast` stores into the brightness, and
  `set_sharpness` stores into the saturation.
- **`set_resolution`.** For an unlisted string, its diagnostic raises
  TypeError by concatenating a string with the list.

## Model

| member | source | states |
|---|---|---|
| Text.NatToStringRoundTrip | johnnyv/core/Controller.py:223-225 | `str(n)` of a non-negative integer is all digits and reads back as `n` |
| Text.IntToStringDigits | johnnyv/core/Controller.py:223-225 | `str(i)` passes `isdigit` exactly when `i >= 0`; it never contains ':' |
| Text.JoinSplit | johnnyv/core/Controller.py:217 | joining the fields of `split(':')` with ':' gives back the string |
| Text.SplitToken | johnnyv/core/Controller.py:217-221 | a token built from three colon-free fields splits into exactly those fields |
| Text.TokenOfSplit | johnnyv/core/Controller.py:215-221 | a string with exactly two ':' is the token of its three fields |
| Joints.ServoMotor.constructor | johnnyv/core/ServoMotor.py:9-30 | every argument is stored unchanged, with no range check; `pulseSpan` = abs(max − min) ≥ 0 and `currentPosition` = `initPulse` |
| Joints.ServoMotor.Update | johnnyv/core/ServoMotor.py:32-42 | answers False exactly when the pin is a dependency, and None otherwise; it modifies nothing |
| Joints.FindServo | johnnyv/core/Component.py:285 | the first servo on the pin, or None exactly when no servo has that pin (StopIteration) |
| Joints.FindMotor | johnnyv/core/Component.py:346 | the first motor on the pin, or None exactly when no motor has that pin |
| Board.RenderToken | johnnyv/core/SSC32U.py:219-223 | token `'a:b:c'` is rendered as `' #a Pb Tc'` |
| Board.RenderUsesThreeFields | johnnyv/core/SSC32U.py:220-222 | only the first three ':'-fields of a token reach the wire |
| Board.FrameAppend | johnnyv/core/SSC32U.py:218-225 | the line for a list made of two lists is the rendering of the first followed by the line of the second, so each token sits in the line where it sits in the list |
| Board.FrameSingle | johnnyv/core/SSC32U.py:218-225 | the frame of one token is its rendering followed by `' \r'` |
| Board.StopCommandInjective | johnnyv/core/SSC32U.py:195 | `'STOP ' + pin + ' \r'` names the pin unambiguously |
| Board.RegisterQueryInjective | johnnyv/core/SSC32U.py:142 | `'R ' + str(reg) + ' \r'` names the register unambiguously |
| Board.SSC32U.IsClosed | johnnyv/core/SSC32U.py:239-252 | always answers True and leaves the port closed |
| Board.SSC32U.BuildFrame | johnnyv/core/SSC32U.py:218-225 | the frame of the parameters, or IndexError when a token has fewer than three fields |
| Board.SSC32U.ExecCommand | johnnyv/core/SSC32U.py:204-237 | an empty list writes nothing and answers None; otherwise one frame is written and the answer is True, or the transport raises and nothing is written |
| Board.SSC32U.IsDone | johnnyv/core/SSC32U.py:90-108 | writes `'Q \r'` and answers True exactly when the reply is `'.'` |
| Board.SSC32U.StopServo | johnnyv/core/SSC32U.py:184-202 | writes `'STOP ' + pin + ' \r'` and answers True, or raises with nothing written |
| Board.SSC32U.GetValFromReg | johnnyv/core/SSC32U.py:127-148 | writes `'R ' + reg + ' \r'` and answers the reply, or raises with nothing written |
| Control.ConvertDegreeFloor | johnnyv/core/Controller.py:180-187 | for d ≥ 0 the pulse is 500 + floor(100·d/9) |
| Control.ConvertDegreeRange | johnnyv/core/Controller.py:180-187 | degrees in [0,180] give pulses in [500,2500], with 0 ↦ 500 and 180 ↦ 2500 |
| Control.ConvertDegreeMonotone | johnnyv/core/Controller.py:180-187 | a larger degree never gives a smaller pulse |
| Control.ConvertDegreeNonNegative | johnnyv/core/Controller.py:180-187 | the pulse is non-negative exactly when the degree is at least −45 |
| Control.PulseWidthProportional | johnnyv/core/Controller.py:190-203 | away from the current position, the time is floor(abs(cur − d)·width / span) |
| Control.PulseWidthBounded | johnnyv/core/Controller.py:190-203 | a travel within the span takes between 0 and the full pulse width |
| Control.PulseWidthSynchronised | johnnyv/core/Controller.py:190-203 | a longer travel never takes less time |
| Control.MotorPwmRange | johnnyv/core/Controller.py:264-273 | valid direction and percentage give pwm in [1000,1200] ∪ {1500} ∪ [1800,2000] |
| Control.MotorPwmRoundTrip | johnnyv/core/Controller.py:264-273 | for direction ±1 the pwm determines the direction and the percentage |
| Control.CheckTokenIff | johnnyv/core/Controller.py:213-235 | a token passes exactly when it is three non-empty digit fields joined by ':' |
| Control.CheckCommandsTokens | johnnyv/core/Controller.py:206-246 | a command list passes exactly when it is a list whose every element is a string of three non-empty digit strings joined by ':' |
| Control.NumberTokenCheck | johnnyv/core/Controller.py:249-261 | a numeric token passes exactly when pin, pulse and time are all non-negative; it renders as `' #pin Ppulse Ttime'` |
| Control.MotorTokenCheck | johnnyv/core/Controller.py:264-273 | with a valid direction and percentage, a motor token passes exactly when its pin is non-negative |
| Control.CheckSingleton | johnnyv/core/Controller.py:117-118 | the one-token list built for the stack passes exactly when its token does |
| Control.AppendNewProperties | johnnyv/core/Controller.py:25-30 | registration keeps the registered prefix, adds exactly the new servos, and keeps the list duplicate-free |
| Control.AppendNewIdempotent | johnnyv/core/Controller.py:25-30 | registering the same servos twice changes nothing the second time |
| Control.AppendNewNoOp | johnnyv/core/Controller.py:27-29 | registering servos that are all registered already changes nothing |
| Control.Controller.constructor | johnnyv/core/Controller.py:11-14 | the stack, the observer list and the notifications start empty |
| Control.Controller.AddServos | johnnyv/core/Controller.py:18-36 | a list of observers only is accepted and appends the new ones in order; anything else answers False with no change |
| Control.Controller.RemoveServos | johnnyv/core/Controller.py:39-50 | answers whether the observer was registered and removes its one occurrence, keeping the order of the rest |
| Control.Controller.RemoveAllServos | johnnyv/core/Controller.py:53-63 | empties the list and answers whether it was non-empty |
| Control.Controller.UpdateServoInformation | johnnyv/core/Controller.py:66-77 | notifies every registered observer once, in order, and answers True |
| Control.Controller.ExecuteStack | johnnyv/core/Controller.py:81-92 | an empty stack answers False and writes nothing; otherwise the stack's frame is written and the stack emptied, or the transport raises and the stack is kept; no observer is notified |
| Control.Controller.AddToStack | johnnyv/core/Controller.py:95-106 | appends the tokens in order exactly when the check passes; otherwise the stack is unchanged |
| Control.Controller.AddServoToStack | johnnyv/core/Controller.py:109-118 | pushes the servo token when it passes; a division error of the encoder propagates with no change |
| Control.Controller.AddMotorToStack | johnnyv/core/Controller.py:121-131 | pushes the motor token exactly when it passes |
| Control.Controller.DirectExecute | johnnyv/core/Controller.py:134-147 | a failing or empty command writes nothing and answers False; otherwise its frame is written, or the transport raises; the stack is untouched |
| Control.Controller.ExecuteServo | johnnyv/core/Controller.py:150-164 | observers are notified, in order, only after the frame was written |
| Control.Controller.ExecuteMotor | johnnyv/core/Controller.py:167-177 | writes the motor frame or answers False; nobody is notified |
| Components.Component.constructor | johnnyv/core/Component.py:16-44 | one servo per table row, in order, built unchanged; the motors are the table; the new servos are registered as observers |
| Components.RanTrue | johnnyv/core/Component.py:282-308 | a loop over requests answers True exactly when every request succeeded |
| Components.ServoMoveAccepts | johnnyv/core/Component.py:288-300 | an in-range servo move with a checkable token is sent as one line or pushed as one token, with a time within the pulse width |
| Components.ServoActionSafe | johnnyv/core/Component.py:282-306 | a servo request reaches the board or the stack only for a known servo's pin and a number degree within that servo's `min_pulse..max_pulse`; it is sent at once exactly when its bool is True, and a sent move reports that servo's pin and degree |
| Components.ServoActionsFailFalsy | johnnyv/core/Component.py:282-306 | every failing servo request answers False or raises |
| Components.Component.MoveServo | johnnyv/core/Component.py:269-327 | malformed lists or no servos answer False with no effect; otherwise the requests run in order up to the first failure, whose answer is returned, and the earlier ones keep their effects |
| Components.MotorMoveAccepts | johnnyv/core/Component.py:349-362 | a valid motor move is sent as `' #pin Ppwm T1000 \r'` or pushed as `'pin:pwm:1000'`, with pwm in the motor ranges |
| Components.MotorActionIgnoresFlag | johnnyv/core/Component.py:342-371 | replacing the trailing bool of a motor request by any other bool leaves what the request does unchanged |
| Components.MotorActionSafe | johnnyv/core/Component.py:342-371 | a motor request reaches the board or the stack only for a known motor's pin, a direction of −1, 0 or 1 and a number percentage in 0..100; it is sent at once exactly when the percentage is not zero |
| Components.MotorActionsFailFalsy | johnnyv/core/Component.py:342-371 | every failing motor request answers False or raises |
| Components.Component.MoveMotor | johnnyv/core/Component.py:329-392 | as `MoveServo`, for motors; nobody is notified |
| Components.FilterPinOut | johnnyv/core/Component.py:411 | dropping the processed pin's requests one pin after another is dropping all processed pins |
| Components.PendingAfterServoLoop | johnnyv/core/Component.py:405-429 | a servo loop that reaches its end leaves no request for the motor loop |
| Components.InitActionsAt | johnnyv/core/Component.py:405-449 | `init_command` acts first on every request through the servos, then on the remaining ones through the motors |
| Components.Component.InitServoLoop | johnnyv/core/Component.py:405-428 | the servo loop runs the requests in order up to the first failure and keeps the requests of unprocessed pins |
| Components.Component.InitMotorLoop | johnnyv/core/Component.py:429-449 | the motor loop runs the remaining requests with each motor's own direction and percentage |
| Components.Component.InitCommand | johnnyv/core/Component.py:394-470 | malformed lists answer False with no effect; otherwise the servo pass and then the motor pass run until the first failure; the final answer is whether the component has any joint |
| Components.DefaultInit | johnnyv/core/Component.py:257-262 | the default list is `(pin, False)` for every servo, then for every motor |
| Components.Component.Initialize | johnnyv/core/Component.py:248-267 | a given list goes to `init_command`; without one, a component without joints answers False with no effect, and otherwise the actions of its default list run in order up to the first failure, as `init_command` runs them |
| Components.InitializeWithMotorFails | johnnyv/core/Component.py:254-267 | a component with servos and a motor on a pin no servo uses never answers True from `initialize()`, and no motor command is issued |
| Components.Component.SetServoProperty | johnnyv/core/Component.py:63-98 | sets exactly the named servo setting when its rule allows the value, and changes nothing otherwise |
| Components.Component.ServoSettingLoop | johnnyv/core/Component.py:58-98 | the servo loop leaves the settings and the shortened list that the servo pass gives |
| Components.Component.MotorSettingLoop | johnnyv/core/Component.py:100-132 | the motor loop leaves the motors and the shortened list that the motor pass gives |
| Components.Component.SetProperty | johnnyv/core/Component.py:46-156 | the answer, the servo settings, the motors and the caller's list are those of the specified servo pass and then motor pass |
| Tuning.ApplyServo | johnnyv/core/Component.py:68-98 | a servo setting is accepted exactly under its rule, and only that one setting changes |
| Tuning.ApplyMotor | johnnyv/core/Component.py:110-132 | a motor setting is accepted exactly under its rule, and only that one field changes |
| Tuning.ServoPassReadsEvens | johnnyv/core/Component.py:59-66 | because each request is removed while the list is walked, the servo pass acts exactly on every other request |
| Tuning.MotorPassReadsEvens | johnnyv/core/Component.py:101-108 | the motor pass acts exactly on every other request of what it was given |
| Tuning.ServoPassBounded | johnnyv/core/Component.py:68-98 | settings within the servo's absolute limits stay within them |
| Tuning.MotorPassBounded | johnnyv/core/Component.py:110-132 | motor settings within the rules stay within them |
| Tuning.SetPropertyBounded | johnnyv/core/Component.py:46-156 | `set_property` never takes any joint's settings outside the rules |
| Robot.JohnnyV.ExecuteStack | johnnyv/core/JohnnyV.py:64-76 | answers True whatever the controller answered (an empty stack included); only the transport's exception passes through |
| Robot.JohnnyV.ValidateResults | johnnyv/core/JohnnyV.py:47-62 | with no False among the answers, the stack is flushed; otherwise the answer is False and the stack and the wire are untouched |
| Robot.JohnnyV.Initialize | johnnyv/core/JohnnyV.py:21-32 | calls every component's `initialize()` in order; each component that answered ran a prefix of its default list's actions and answered as that list says; if one raises, it is the next component in order, its run is a prefix of its own default list that raised that very exception, the answer is that exception, and the stack, the wire and the observers' calls are the old ones plus the answering runs and then the raising run; otherwise they are the old ones plus all runs, and the gate flushes the stack when no answer is False and holds it back otherwise, the answer being True unless the flush itself raises |
| Robot.JohnnyV.InitializeEach | johnnyv/core/JohnnyV.py:28 | the list comprehension: the answers of the components in order, each tied to that component's default actions; either every component answered and the stack, the wire and the observers' calls grew by all runs in turn, or the first that raised is the component right after the answering ones, its run raised the reported exception as its default actions say, and the stack, the wire and the observers' calls grew by the answering runs and then by its run |
| Robot.JohnnyV.InitializeOne | johnnyv/core/JohnnyV.py:28 | one component's `initialize()` inside the comprehension: it ran a prefix of that component's default actions and answered, or raised, as they say, and the stack, the wire and the observers' calls grew by exactly that run |
| Cameras.PathIff | johnnyv/core/Camera.py:221-225 | the path scan accepts exactly the strings built from one or more `'/' + name` segments |
| Cameras.NamesOfPath | johnnyv/core/Camera.py:240-244 | every accepted path splits into alphanumeric names that rebuild it |
| Cameras.TargetIsPath | johnnyv/core/RaspberryPi.py:115 | for an accepted directory and file name, the file's path before its extension is again an accepted path |
| Cameras.Camera.Capture | johnnyv/core/Camera.py:37-53 | only a non-empty alphanumeric string is handed on, naming `picture_path + '/' + name + extension` |
| Cameras.Camera.Record | johnnyv/core/Camera.py:55-76 | as `Capture`, and only for an integer duration > 0 |
| Cameras.Camera.SetResolution | johnnyv/core/Camera.py:78-94 | a listed resolution is stored; an unlisted string raises TypeError; a non-string answers False |
| Cameras.Camera.SetBrightness | johnnyv/core/Camera.py:96-112 | integers in [0,100] are stored; anything else answers False with no change |
| Cameras.Camera.SetContrast | johnnyv/core/Camera.py:114-130 | integers in [−100,100] are accepted but stored in the brightness; the contrast never changes |
| Cameras.Camera.SetSharpness | johnnyv/core/Camera.py:132-148 | integers in [−100,100] are accepted but stored in the saturation; the sharpness never changes |
| Cameras.Camera.SetSaturation | johnnyv/core/Camera.py:150-166 | integers in [−100,100] are stored; anything else answers False with no change |
| Cameras.Camera.SetRotation | johnnyv/core/Camera.py:168-184 | only 0, 90, 180 and 270 are stored |
| Cameras.Camera.SetHflip | johnnyv/core/Camera.py:186-198 | only a bool is stored |
| Cameras.Camera.SetVflip | johnnyv/core/Camera.py:200-212 | only a bool is stored |
| Cameras.Camera.SetPicturePath | johnnyv/core/Camera.py:214-231 | only a string matching the path pattern is stored |
| Cameras.Camera.SetVideoPath | johnnyv/core/Camera.py:233-250 | only a string matching the path pattern is stored |
| ConfigChecks.CardDistinct | johnnyv/core/Verification.py:43 | `len(xs) == len(set(xs))` holds exactly when no element repeats |
| ConfigChecks.SchemesUniqueIff | johnnyv/core/Verification.py:44-50 | the component loop passes exactly when no component repeats a colour scheme |
| ConfigChecks.Validate | johnnyv/core/Verification.py:12-36 | a schema error answers False before any uniqueness check |
| ConfigChecks.ValidateIff | johnnyv/core/Verification.py:38-57 | True exactly when the schema is clean, all pins across the robot are distinct, and each component's colour schemes are distinct; the same scheme in two components is allowed |
| ConfigChecks.PinReuseRejects | johnnyv/core/Verification.py:38-43 | a servo and a motor that share a pin, in one component or in two, make the validation fail |

## Left out

- **Serial port internals.** Opening, closing, reading and writing the port,
  `time.sleep`, the board's constructor, and its setters are not modelled.
  The transport is a nondeterministic success-or-`SerialException` oracle,
  and board replies are whatever was last read.
- **Raspberry Pi hardware.** I2C, `i2cdetect`, PiCamera, the SRF08 sensor
  and the controller's camera and sensor delegation
  (`johnnyv/core/Controller.py:276-349`) are hardware I/O. `Capture` and
  `Record` return the file they would hand on instead of taking the picture.
- **`Component.reset` and `JohnnyV.reset`.** Their behaviour is dominated by
  configuration-lookup errors (`johnnyv/core/Component.py:158-246`).
- **The dance routines** (`dab`, `praise_the_lord`, `running_man`). They are
  fixed scripts over configuration values.
- **JSON loading at class level.** Joint tables, camera settings and the
  configuration are passed in as parameters. The `str(component).lower()`
  name normalisation is not modelled.
- **The jsonschema calls.** The schema result is the input `schemaClean`.
  The index selection only chooses a printed message.
- **Printed diagnostics and `error` messages** are not modelled.
- **Observer interface.** The observer interface is represented by its one
  implementation, `ServoMotor`. `add_servos` receives `Candidate` values
  that say whether an element is an observer.
- **`JohnnyV`'s peripherals.** The `peripherals` dictionary of the
  constructor is not modelled.
- Control.ConvertDegree: the float product `(100/9)*d` is modelled as exact
  integer division truncated toward zero. The last-digit rounding of the
  float is not claimed.
- Control.ConvertPulseWidth: the float expression
  `(abs(cur - d) / span) * width` is modelled as the exact quotient
  `abs(cur - d) * width / span`, truncated. The float product can land just
  below a whole number and then truncate one lower, so the source's time can
  be one less than the model's: for a travel of 7, a span of 10 and a width
  of 330 the source computes 230.99999999999997 and sends 230, where the
  model gives 231. Zero `pulse_span` with a travel raises
  ZeroDivisionError, as in the source.
- Cameras.IsPath: the regular expressions are matched as whole-string
  patterns over ASCII letters and digits. The `$` of Python's `re` also
  accepting one trailing newline is not modelled.
- Cameras.IsName: same as `Cameras.IsPath`.
- Text.IsDigit: `str.isdigit` is modelled for the ASCII digits only. Other
  Unicode digits are not.
- Cameras.Camera.SetBrightness: an accepted bool is stored as its integer
  value. The same holds for the other integer setters.
- Cameras.Camera.constructor: the branch for a camera without a
  configuration entry, which leaves the fields unset, is not modelled.
- **Float arguments.** `Value` has no float case, so float degrees
  (`johnnyv/core/Component.py:279`), float percentages
  (`johnnyv/core/Component.py:339`) and float setting values
  (`johnnyv/core/Component.py:56`) are not modelled.
- Robot.JohnnyV.constructor: takes the components already built, rather
  than building them from the configuration.
