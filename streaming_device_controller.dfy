/** The per-tick decision procedure of the streaming-device controller.
    The streaming device, the proximity sensors and the Cartesian-control
    client are oracles: `TickInputs` holds the answer each of their calls gives
    during one tick, and a tick yields the sequence of calls it issued. */
module StreamingController {
  import opened Vocab

  /** Factor applied to the scaling while the sensors report a LOW alert. */
  const ScalingFactorOnAlert: real := 2.0

  /** A call issued during a tick, to the streaming device, the sensors or the
      Cartesian controller. */
  datatype Call =
    | AcquireData
    | GetAlertLevel
    | TransformData(scaling: real)
    | GetActuatorState
    | Act(state: ActuatorState)
    | HasValidMovementData
    | StopControl
    | SendMovementCommand

  /** Answers of the oracles during one tick: `acquireData`, `getAlertLevel`,
      `transformData`, `getActuatorState`, `hasValidMovementData` and
      `stopControl`. */
  datatype TickInputs = TickInputs(
    acquired: bool,
    alert: AlertLevel,
    transformed: bool,
    actuator: ActuatorState,
    validMovement: bool,
    stopAccepted: bool)

  /** Configuration the tick reads. */
  datatype Settings = Settings(scaling: real, disableSensorsLowLevel: bool, sensorsValid: bool)

  datatype TickOutcome = TickOutcome(calls: seq<Call>, isStopped: bool)

  /** Alert level the tick acts on: ZERO when there is no valid sensor device. */
  function EffectiveAlert(s: Settings, inputs: TickInputs): AlertLevel
  {
    if s.sensorsValid then inputs.alert else Zero
  }

  function LocalScaling(s: Settings, alert: AlertLevel): real
  {
    if !s.disableSensorsLowLevel && alert == Low then s.scaling * ScalingFactorOnAlert else s.scaling
  }

  predicate MustStop(inputs: TickInputs, alert: AlertLevel)
  {
    !inputs.validMovement || alert == High
  }

  /** Calls up to and including `transformData`. */
  function PreludeCalls(s: Settings, inputs: TickInputs): seq<Call>
  {
    [AcquireData] + (if s.sensorsValid then [GetAlertLevel] else [])
    + [TransformData(LocalScaling(s, EffectiveAlert(s, inputs)))]
  }

  /** Calls from `getActuatorState` up to `hasValidMovementData`. */
  function ActuatorCalls(inputs: TickInputs): seq<Call>
  {
    [GetActuatorState] + (if inputs.actuator != ActuatorNone then [Act(inputs.actuator)] else [])
    + [HasValidMovementData]
  }

  /** One tick, from the stopped flag before it to the calls it issues and the
      stopped flag after it. */
  function Tick(s: Settings, isStopped: bool, inputs: TickInputs): (r: TickOutcome)
    ensures |r.calls| > 0 && r.calls[0] == AcquireData
  {
    if !inputs.acquired then TickOutcome([AcquireData], isStopped)
    else
      var prelude := PreludeCalls(s, inputs);
      if !inputs.transformed then TickOutcome(prelude, isStopped)
      else
        var acted := prelude + ActuatorCalls(inputs);
        if MustStop(inputs, EffectiveAlert(s, inputs)) then
          if !isStopped then TickOutcome(acted + [StopControl], inputs.stopAccepted)
          else TickOutcome(acted, isStopped)
        else TickOutcome(acted + [SendMovementCommand], false)
  }

  /** A failed acquisition ends the tick at once: no sensor query, no
      transformation, no actuator, stop or movement command. */
  lemma AcquireFailureEndsTick(s: Settings, isStopped: bool, inputs: TickInputs)
    requires !inputs.acquired
    ensures Tick(s, isStopped, inputs) == TickOutcome([AcquireData], isStopped)
  {
  }

  /** The sensors are queried exactly when the acquisition succeeded and the
      sensor device is valid. */
  lemma AlertQueriedOnlyWithSensors(s: Settings, isStopped: bool, inputs: TickInputs)
    ensures GetAlertLevel in Tick(s, isStopped, inputs).calls <==> inputs.acquired && s.sensorsValid
  {
    if inputs.acquired {
      var prelude := PreludeCalls(s, inputs);
      assert GetAlertLevel !in ActuatorCalls(inputs);
      assert GetAlertLevel in prelude <==> s.sensorsValid;
    }
  }

  /** After a successful acquisition `transformData` receives the base scaling,
      doubled exactly when a valid sensor device reports LOW and low-level
      scaling is not disabled; it receives no other value. */
  lemma ScalingDoubledOnLowAlert(s: Settings, isStopped: bool, inputs: TickInputs)
    ensures var expected := if !s.disableSensorsLowLevel && s.sensorsValid && inputs.alert == Low
                            then s.scaling * 2.0 else s.scaling;
            && (inputs.acquired ==> TransformData(expected) in Tick(s, isStopped, inputs).calls)
            && (forall x :: TransformData(x) in Tick(s, isStopped, inputs).calls ==> x == expected)
  {
    if inputs.acquired {
      forall x | TransformData(x) in ActuatorCalls(inputs) ensures false {
      }
    }
  }

  /** A failed transformation ends the tick before any actuator, stop or
      movement command, with the stopped flag unchanged. */
  lemma TransformFailureEndsTick(s: Settings, isStopped: bool, inputs: TickInputs)
    requires inputs.acquired && !inputs.transformed
    ensures var r := Tick(s, isStopped, inputs);
            && (forall c :: c in r.calls ==> !c.Act?)
            && StopControl !in r.calls && SendMovementCommand !in r.calls
            && r.isStopped == isStopped
  {
  }

  /** The actuator state is forwarded exactly when both device steps succeeded
      and it is not ACTUATOR_NONE, and no other state is forwarded. */
  lemma ActuatorForwarded(s: Settings, isStopped: bool, inputs: TickInputs)
    ensures var r := Tick(s, isStopped, inputs);
            && (Act(inputs.actuator) in r.calls <==>
                  inputs.acquired && inputs.transformed && inputs.actuator != ActuatorNone)
            && (forall c :: c in r.calls && c.Act? ==> c.state == inputs.actuator)
  {
  }

  /** The stop-or-move decision. When there is no valid movement or a valid
      sensor device reports HIGH, stopControl is issued (as the last call, once)
      only if not already stopped, the stopped flag then takes its answer, and
      no movement is sent. Otherwise the flag is cleared and the movement
      command is sent once, as the last call. */
  lemma StopOrMove(s: Settings, isStopped: bool, inputs: TickInputs)
    requires inputs.acquired && inputs.transformed
    ensures var r := Tick(s, isStopped, inputs);
            var stop := !inputs.validMovement || (s.sensorsValid && inputs.alert == High);
            var last := r.calls[|r.calls| - 1];
            var earlier := r.calls[..|r.calls| - 1];
            && StopControl !in earlier && SendMovementCommand !in earlier
            && (stop ==> SendMovementCommand != last
                         && (StopControl == last <==> !isStopped)
                         && r.isStopped == (isStopped || inputs.stopAccepted))
            && (!stop ==> SendMovementCommand == last && !r.isStopped)
  {
    var prelude := PreludeCalls(s, inputs);
    var acted := prelude + ActuatorCalls(inputs);
    assert StopControl !in acted && SendMovementCommand !in acted;
    assert acted[..|acted| - 1] + [acted[|acted| - 1]] == acted;
  }

  /** Without a valid sensor device the tick behaves as under a ZERO alert,
      whatever the sensors would have answered, except for not querying them. */
  lemma NoSensorsMeansZeroAlert(scaling: real, disable: bool, isStopped: bool, inputs: TickInputs)
    ensures var r := Tick(Settings(scaling, disable, false), isStopped, inputs);
            var z := Tick(Settings(scaling, disable, true), isStopped, inputs.(alert := Zero));
            && r.isStopped == z.isStopped
            && (inputs.acquired ==> [r.calls[0]] + [GetAlertLevel] + r.calls[1..] == z.calls)
            && (!inputs.acquired ==> r.calls == z.calls)
  {
    if inputs.acquired {
      var r := Tick(Settings(scaling, disable, false), isStopped, inputs);
      var z := Tick(Settings(scaling, disable, true), isStopped, inputs.(alert := Zero));
      assert r.calls[0] == AcquireData;
    }
  }

  /** The stop command is idempotent: after a tick whose stop was accepted, a
      further tick that must stop issues no stopControl. */
  lemma StopIssuedOnce(s: Settings, isStopped: bool, first: TickInputs, second: TickInputs)
    requires first.acquired && first.transformed && MustStop(first, EffectiveAlert(s, first)) && first.stopAccepted
    requires second.acquired && second.transformed && MustStop(second, EffectiveAlert(s, second))
    ensures StopControl !in Tick(s, Tick(s, isStopped, first).isStopped, second).calls
  {
  }

  /** A HIGH alert from a valid sensor device never lets a movement command through. */
  lemma HighAlertBlocksMotion(s: Settings, isStopped: bool, inputs: TickInputs)
    requires s.sensorsValid && inputs.alert == High
    ensures SendMovementCommand !in Tick(s, isStopped, inputs).calls
  {
  }

  class StreamingDeviceController {
    var period: real
    var scaling: real
    var disableSensorsLowLevel: bool
    /** Whether the proximity-sensors client device is valid. */
    var sensorsValid: bool
    var isStopped: bool

    constructor ()
      ensures !sensorsValid
    {
      sensorsValid := false;
    }

    /** The outcome of the device wiring is abstracted into `devicesOk` (the
        streaming device, its interfaces, the Cartesian client and the device's
        initialisation) and `sensorsOk` (the sensors client, consulted only with
        `useSensors`). A failure closes the devices. */
    method Configure(period: real, scaling: real, useSensors: bool, disableSensorsLowLevel: bool,
                     devicesOk: bool, sensorsOk: bool) returns (ok: bool)
      modifies this
      ensures this.period == period && this.scaling == scaling
      ensures ok <==> devicesOk && (!useSensors || sensorsOk)
      ensures ok ==> isStopped && sensorsValid == useSensors
                     && this.disableSensorsLowLevel == disableSensorsLowLevel
      ensures !ok ==> !sensorsValid && isStopped == old(isStopped)
                      && this.disableSensorsLowLevel == old(this.disableSensorsLowLevel)
    {
      this.period := period;
      this.scaling := scaling;
      if !devicesOk {
        sensorsValid := false;
        return false;
      }
      if useSensors {
        if !sensorsOk {
          sensorsValid := false;
          return false;
        }
        sensorsValid := true;
      } else {
        sensorsValid := false;
      }
      isStopped := true;
      this.disableSensorsLowLevel := disableSensorsLowLevel;
      return true;
    }

    /** `updateModule`: always returns true, and follows `Tick`. */
    method UpdateModule(inputs: TickInputs) returns (ret: bool, calls: seq<Call>)
      modifies this`isStopped
      ensures ret
      ensures var r := Tick(Settings(scaling, disableSensorsLowLevel, sensorsValid), old(isStopped), inputs);
              calls == r.calls && isStopped == r.isStopped
    {
      ghost var settings := Settings(scaling, disableSensorsLowLevel, sensorsValid);
      calls := [AcquireData];
      if !inputs.acquired {
        return true, calls;
      }

      var alertLevel := Zero;
      if sensorsValid {
        calls := calls + [GetAlertLevel];
        alertLevel := inputs.alert;
      }

      var localScaling := scaling;
      if !disableSensorsLowLevel && alertLevel == Low {
        localScaling := localScaling * ScalingFactorOnAlert;
      }

      calls := calls + [TransformData(localScaling)];
      assert calls == PreludeCalls(settings, inputs);
      if !inputs.transformed {
        return true, calls;
      }

      calls := calls + [GetActuatorState];
      var actuatorState := inputs.actuator;
      if actuatorState != ActuatorNone {
        calls := calls + [Act(actuatorState)];
      }

      calls := calls + [HasValidMovementData];
      assert calls == PreludeCalls(settings, inputs) + ActuatorCalls(inputs);
      assert alertLevel == EffectiveAlert(settings, inputs);
      if !inputs.validMovement || alertLevel == High {
        if !isStopped {
          calls := calls + [StopControl];
          isStopped := inputs.stopAccepted;
        }
        return true, calls;
      } else {
        isStopped := false;
      }

      calls := calls + [SendMovementCommand];
      return true, calls;
    }
  }
}
