# Cartesian controller decision logic, modelled in Dafny

This project models four pieces of sequential decision logic from a robot-arm
Cartesian controller, and proves properties of them:

- **BasicCartesianControl** (`basic_cartesian_control.dfy`, module `CartesianControl`):
  - the state setter, which resets the streaming-command selector;
  - the soft joint-limit checks with their margin ε = 1e-5, including the
    velocity-aware variant that lets a joint escape a limit;
  - the joint-velocity check;
  - the control-mode check and the batched, idempotent mode setter;
  - the streaming-command preset;
  - the isochronous-speed planner.
- **StreamingDeviceController** (`streaming_device_controller.dfy`, module
  `StreamingController`): the per-tick procedure. It acquires data, reads the
  alert level from the proximity sensors, doubles the scaling on a LOW alert,
  transforms the data, forwards the actuator state, and then either stops or
  moves. The `isStopped` flag makes the stop idempotent.
- **WiimoteSensorDevice** (`wiimote_sensor_device.dfy`, module `Wiimote`). It
  validates the 5-element raw sample, selects a mode from the buttons, scales
  the data, and builds the 6-element command.
- **LinearTrajectoryThread** (`linear_trajectory_thread.dfy`, module
  `KeyboardController`):
  - the TCP-frame displacement `deltaX = vels × period / 1000`;
  - the five-step trajectory build, which stops at the first failing step;
  - `startTime` being set only when the build succeeds;
  - the per-tick `movi` command.

`vocab.dfy` (module `Vocab`) holds the shared vocabularies. These are the
controller states, the streaming commands, the joint control modes, the
configuration keys, the alert levels and the actuator states.

C++ `double` is modelled as `real`. The collaborators are oracles: the joint
interface, the Cartesian-control client, the streaming device, the proximity
sensors, the trajectory object and the clock. Each oracle's answer is a
method parameter. What a method sends to an oracle is returned:

- the batched mode write, as an `Option<ModeWrite>`;
- the calls of a streaming tick, a trajectory configuration or a trajectory
  tick, as a sequence of `Call` values in the order they are issued;
- the Wiimote's motion command, as an `Option<Motion>`.

Fields the source updates are class fields. Methods say how they change
them.

Where the code and its comments or design notes disagree, the model follows
the code. Three cases:
- Joints beyond the solver's joints are logged as "forced" to zero speed by
  the isochronous planner, but they are never written.
- The Wiimote device sets the streaming preset under the key
  `VOCAB_CC_CONFIG_STREAMING`, while the trajectory thread uses
  `VOCAB_CC_CONFIG_STREAMING_CMD`. Both are modelled as the key
  `ConfigStreamingCmd`.
- The velocity-aware limit check compares only signs around the mid range.
  For a joint range narrower than 2ε the soft band is empty, and
  `NarrowRangeBehaviour` states what the checks then do.

## Model

| member | source | states |
|---|---|---|
| `CartesianControl.Sgn` | libraries/YarpPlugins/BasicCartesianControl/BasicCartesianControl.cpp:22-28 | the two-comparison formula gives +1 exactly for positive, -1 exactly for negative and 0 exactly for zero values |
| `CartesianControl.BasicCartesianControl.GetCurrentState` | libraries/YarpPlugins/BasicCartesianControl/BasicCartesianControl.cpp:33-37 | returns the current state and changes no field |
| `CartesianControl.BasicCartesianControl.SetCurrentState` | libraries/YarpPlugins/BasicCartesianControl/BasicCartesianControl.cpp:41-46 | whatever the prior values, the state becomes the given value and the streaming selector becomes NOT_SET |
| `CartesianControl.BasicCartesianControl.CheckJointLimits` | libraries/YarpPlugins/BasicCartesianControl/BasicCartesianControl.cpp:50-67 | true iff every solver joint lies in [qMin+ε, qMax−ε]; entries beyond the solver joints are not consulted |
| `CartesianControl.BasicCartesianControl.StrictInteriorPasses` | libraries/YarpPlugins/BasicCartesianControl/BasicCartesianControl.cpp:50-67 | a position strictly inside every soft band passes the plain check |
| `CartesianControl.BasicCartesianControl.CheckJointLimitsWithVelocity` | libraries/YarpPlugins/BasicCartesianControl/BasicCartesianControl.cpp:71-92 | false iff some solver joint is outside its soft band and sgn(q−midRange) equals sgn(qdot) |
| `CartesianControl.BasicCartesianControl.SoftLimitsImplyVelocityAwarePass` | libraries/YarpPlugins/BasicCartesianControl/BasicCartesianControl.cpp:71-92 | a position that passes the plain check passes the velocity-aware check for every velocity |
| `CartesianControl.BasicCartesianControl.EscapeFromLimit` | libraries/YarpPlugins/BasicCartesianControl/BasicCartesianControl.cpp:77-87 | with qMin < qMax, a joint at qMax is blocked iff qdot > 0, and a joint at qMin iff qdot < 0 (so moving away from the limit is allowed) |
| `CartesianControl.BasicCartesianControl.NarrowRangeBehaviour` | libraries/YarpPlugins/BasicCartesianControl/BasicCartesianControl.cpp:50-92 | with a range narrower than 2ε every position fails the plain check, and at the mid range the velocity-aware check blocks exactly a joint at rest |
| `CartesianControl.BasicCartesianControl.CheckJointVelocities` | libraries/YarpPlugins/BasicCartesianControl/BasicCartesianControl.cpp:96-111 | true iff qdotMin ≤ qdot ≤ qdotMax, inclusive, for every solver joint |
| `CartesianControl.BasicCartesianControl.CheckControlModes` | libraries/YarpPlugins/BasicCartesianControl/BasicCartesianControl.cpp:115-126 | true iff the mode read succeeds and every joint is in the requested mode; a failed read fails |
| `CartesianControl.BasicCartesianControl.SetControlModes` | libraries/YarpPlugins/BasicCartesianControl/BasicCartesianControl.cpp:130-162 | a failed read gives false with no write; otherwise the write issued is the planned one, and the result is true iff no write was needed or the write succeeded |
| `CartesianControl.MismatchedJointsExact` | libraries/YarpPlugins/BasicCartesianControl/BasicCartesianControl.cpp:140-148 | the collected `jointIds` are exactly the joints whose mode differs from the target, in strictly ascending order |
| `CartesianControl.PlannedWriteExact` | libraries/YarpPlugins/BasicCartesianControl/BasicCartesianControl.cpp:140-159 | no write iff all joints already match; a write names exactly the mismatched joints, ascending, each with the target mode |
| `CartesianControl.ApplyUniformWrite` | libraries/YarpPlugins/BasicCartesianControl/BasicCartesianControl.cpp:152-154 | a batched write with a uniform target mode changes exactly the listed joints to that mode |
| `CartesianControl.SetControlModesSettles` | libraries/YarpPlugins/BasicCartesianControl/BasicCartesianControl.cpp:130-162 | after the planned write every joint is in the target mode, joints already in it are untouched, and a second call issues no write (idempotence) |
| `CartesianControl.CheckAgreesWithPlannedWrite` | libraries/YarpPlugins/BasicCartesianControl/BasicCartesianControl.cpp:115-162 | the mode check succeeds on a reading iff the mode setter would issue no write for it |
| `CartesianControl.RequiredMode` | libraries/YarpPlugins/BasicCartesianControl/BasicCartesianControl.cpp:170-181 | VELOCITY iff TWIST or POSE, POSITION_DIRECT iff MOVI, no mode for any other command |
| `CartesianControl.BasicCartesianControl.PresetStreamingCommand` | libraries/YarpPlugins/BasicCartesianControl/BasicCartesianControl.cpp:166-182 | always ends in NOT_CONTROLLING with selector NOT_SET; an unsupported command fails with no write; a supported one behaves as the mode setter for its required mode |
| `CartesianControl.MaxTimeIsMaximum` | libraries/YarpPlugins/BasicCartesianControl/BasicCartesianControl.cpp:189-212 | the `maxTime` the first loop computes is non-negative, bounds every joint's time, and equals some joint's time |
| `CartesianControl.IsochronousSpeedsSound` | libraries/YarpPlugins/BasicCartesianControl/BasicCartesianControl.cpp:214-227 | every planned speed is within [0, qRefSpeeds[j]], every moving joint arrives exactly at maxTime, and the slowest joint runs at its reference speed |
| `CartesianControl.IsochronousExample` | libraries/YarpPlugins/BasicCartesianControl/BasicCartesianControl.cpp:186-228 | q=[0,0], qd=[10,20], speeds [5,5] give maxTime 4 and speeds [2.5, 5] |
| `CartesianControl.BasicCartesianControl.ComputeIsocronousSpeeds` | libraries/YarpPlugins/BasicCartesianControl/BasicCartesianControl.cpp:186-228 | a non-positive reference speed leaves qdot unchanged; otherwise each solver joint gets distance/maxTime and no other entry is written |
| `StreamingController.Tick` | programs/streamingDeviceController/StreamingDeviceController.cpp:110-163 | every tick starts by acquiring data (the step-by-step properties are the lemmas below) |
| `StreamingController.AcquireFailureEndsTick` | programs/streamingDeviceController/StreamingDeviceController.cpp:112-116 | a failed acquisition issues nothing else and leaves isStopped unchanged |
| `StreamingController.AlertQueriedOnlyWithSensors` | programs/streamingDeviceController/StreamingDeviceController.cpp:118-123 | the alert level is queried iff the acquisition succeeded and the sensor device is valid |
| `StreamingController.NoSensorsMeansZeroAlert` | programs/streamingDeviceController/StreamingDeviceController.cpp:118-123 | without a valid sensor device a tick behaves as with a ZERO alert, whatever the sensors would say |
| `StreamingController.ScalingDoubledOnLowAlert` | programs/streamingDeviceController/StreamingDeviceController.cpp:125-133 | transformData receives scaling×2 iff low-level sensing is enabled and a valid sensor reports LOW, the base scaling otherwise, and no other value |
| `StreamingController.TransformFailureEndsTick` | programs/streamingDeviceController/StreamingDeviceController.cpp:133-137 | a failed transformation issues no act, stopControl or movement command and leaves isStopped unchanged |
| `StreamingController.ActuatorForwarded` | programs/streamingDeviceController/StreamingDeviceController.cpp:139-144 | act is called iff both device steps succeeded and the actuator state is not ACTUATOR_NONE, and only with that state |
| `StreamingController.StopOrMove` | programs/streamingDeviceController/StreamingDeviceController.cpp:146-160 | with no valid movement or a HIGH alert from a valid sensor device: stopControl is issued, last, iff not already stopped, isStopped stays true or takes its answer, and no movement is sent; otherwise isStopped becomes false and the movement command is sent exactly once, last |
| `StreamingController.StopIssuedOnce` | programs/streamingDeviceController/StreamingDeviceController.cpp:146-158 | after an accepted stop, a further stopping tick issues no stopControl |
| `StreamingController.HighAlertBlocksMotion` | programs/streamingDeviceController/StreamingDeviceController.cpp:146-154 | a HIGH alert from a valid sensor device never lets a movement command through |
| `StreamingController.StreamingDeviceController.Configure` | programs/streamingDeviceController/StreamingDeviceController.cpp:30-107 | period and scaling are always stored; success iff the wiring succeeds, and then isStopped is true and the low-level flag and sensor validity are set |
| `StreamingController.StreamingDeviceController.UpdateModule` | programs/streamingDeviceController/StreamingDeviceController.cpp:110-163 | always returns true; its calls and new isStopped are those of `Tick` from the old isStopped |
| `Wiimote.WiimoteSensorDevice.constructor` | programs/streamingDeviceController/WiimoteSensorDevice.cpp:10-20 | mode NONE, a 3-element data and a 5-element buffer, both zero, and the given step and movi choice |
| `Wiimote.WiimoteSensorDevice.Initialize` | programs/streamingDeviceController/WiimoteSensorDevice.cpp:35-61 | movi with step ≤ 0 fails before any setParameter; with the preset it asks for MOVI when using movi and TWIST otherwise; then the TCP frame; each failure stops the sequence |
| `Wiimote.WiimoteSensorDevice.AcquireData` | programs/streamingDeviceController/WiimoteSensorDevice.cpp:63-82 | fails and leaves the buffer unchanged iff the sample size is not 5; otherwise the buffer equals the sample element-wise |
| `Wiimote.ButtonMode` | programs/streamingDeviceController/WiimoteSensorDevice.cpp:86-106 | ROT iff A and B are pressed, FWD iff only A, BKWD iff only B, NONE iff neither |
| `Wiimote.WiimoteSensorDevice.TransformData` | programs/streamingDeviceController/WiimoteSensorDevice.cpp:84-122 | always true; the mode follows the buttons of the buffer; data is unchanged in NONE, and the scaled sample otherwise |
| `Wiimote.ScaledRoutesYaw` | programs/streamingDeviceController/WiimoteSensorDevice.cpp:108-119 | data[1]·scaling = −buffer[1]; with yaw active data[0] = 0 and data[2]·scaling = buffer[0]; otherwise data[2] = 0 and data[0]·scaling = buffer[0] |
| `Wiimote.ScalingSlowsRotationOnly` | programs/streamingDeviceController/WiimoteSensorDevice.cpp:108-144 | multiplying the scaling by a factor divides the rotational part of the command by it and leaves the translational step unchanged |
| `Wiimote.Xdot` | programs/streamingDeviceController/WiimoteSensorDevice.cpp:129-147 | no command in NONE; otherwise a 6-vector with xdot[0] = xdot[1] = 0, xdot[2] = step, −step or 0 for FWD, BKWD or ROT, and xdot[3..5] = data |
| `Wiimote.WiimoteSensorDevice.HasValidMovementData` | programs/streamingDeviceController/WiimoteSensorDevice.cpp:124-127 | true iff the movement command would send something, that is iff the mode is not NONE |
| `Wiimote.WiimoteSensorDevice.SendMovementCommand` | programs/streamingDeviceController/WiimoteSensorDevice.cpp:129-157 | sends nothing in NONE; otherwise sends `Xdot` via movi when using movi and via twist otherwise |
| `Wiimote.WiimoteSensorDevice.StopMotion` | programs/streamingDeviceController/WiimoteSensorDevice.cpp:159-166 | sends an all-zero 6-vector twist iff not using movi |
| `KeyboardController.SucceedingPrefix` | programs/keyboardController/LinearTrajectoryThread.cpp:75-83 | the number of leading steps that succeed: all steps before it succeed, and the step at it fails |
| `KeyboardController.BuildCalls` | programs/keyboardController/LinearTrajectoryThread.cpp:75-83 | the issued build steps are a non-empty prefix of destroy → addWaypoint(x, vels) → configurePath(LINE) → configureVelocityProfile(RECTANGULAR) → create, all but the last succeeded, and a short prefix ends with a failure |
| `KeyboardController.BuildCallsChain` | programs/keyboardController/LinearTrajectoryThread.cpp:75-83 | the calls issued, case by case, as the chained `ok && step()` sequence produces them |
| `KeyboardController.LinearTrajectoryThread.constructor` | programs/keyboardController/LinearTrajectoryThread.cpp:16-24 | startTime 0, the streaming-config flag false, the given period |
| `KeyboardController.LinearTrajectoryThread.CheckStreamingConfig` | programs/keyboardController/LinearTrajectoryThread.cpp:32-45 | a failed getParameters returns false with the flag unchanged; otherwise the flag is set iff the streaming-command key is present |
| `KeyboardController.LinearTrajectoryThread.Configure` | programs/keyboardController/LinearTrajectoryThread.cpp:47-97 | a required preset that fails returns false and changes nothing; in TCP mode deltaX[i] = vels[i]·period/1000, same length, startTime kept, true; a failed stat returns false before any trajectory call; otherwise the build calls are issued, the result is true iff every step succeeded, and startTime becomes now iff it is true |
| `KeyboardController.LinearTrajectoryThread.Run` | programs/keyboardController/LinearTrajectoryThread.cpp:99-124 | in TCP mode exactly one movi(deltaX); otherwise getPosition(now − startTime), then movi(position) iff it succeeded, nothing else |

## Left out

- `libraries/YarpPlugins/AmorCartesianControl/AmorCartesianControl.hpp` holds only declarations; its behaviour lives in the AMOR hardware library, which is not part of this model.
- `programs/teoCartesianServer/TeoXRpcResponder.hpp` is an RPC callback holder with no logic.
- Device and port wiring are not modelled: the device wiring of `StreamingDeviceController::configure` (collapsed into two success flags), `close`, `interruptModule` and `WiimoteSensorDevice::acquireInterfaces`.
- The mutexes (`stateMutex`, `mtx`) and the periodic-thread scheduling are left out. Every operation is modelled as sequential and atomic.
- The trajectory object's internals are not modelled, including how `getPosition` interpolates. Its answers are parameters. So is the claim that a rectangular trajectory sampled at 2 s with velocity 0.1 lies 0.2 away.
- The joint interface, the Cartesian-control client, the analog sensor, the proximity sensors and `Time::now()` are oracles whose answers are parameters. Their own behaviour is not modelled.
- The controller's `open` (which loads the limits and reference speeds) is not part of this model. The class constructor takes those values.
- Logging (`CD_*`) and `Vocab::decode` are left out.
- IEEE floating point is not modelled: no NaN, infinities or rounding.
- CartesianControl.BasicCartesianControl.ComputeIsocronousSpeeds: requires a positive `maxTime` when every reference speed is positive and there is a solver joint. When every distance is zero the source divides 0 by 0 and writes NaN speeds, which reals cannot express.
- Wiimote.WiimoteSensorDevice.TransformData: requires a non-zero scaling. The source divides by it without checking.
- KeyboardController.LinearTrajectoryThread.constructor: takes `usingTcpFrame` as a parameter. The source initialises it to false here, and the setter that changes it lies outside this model.
- Integer vocabs are datatypes. Catch-all constructors stand for the values the source does not name.
