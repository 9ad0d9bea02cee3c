/** The Wiimote streaming device: it validates a raw 5-element sample
    (x, y, button A, button B, yaw toggle), selects a movement mode from the
    buttons, scales the readings into `data` and builds the 6-element command
    sent to the Cartesian controller. The analog sensor and the Cartesian
    controller are oracles: a sample is a parameter, and a command is
    returned instead of being sent. */
module Wiimote {
  import opened Vocab

  /** Movement mode selected by the buttons (NONE, FWD, BKWD, ROT). */
  datatype Mode = NoMode | Fwd | Bkwd | Rot

  /** A command sent to the Cartesian controller through `movi` or `twist`. */
  datatype Motion = MoviCommand(xdot: seq<real>) | TwistCommand(xdot: seq<real>)

  /** Mode for the states of buttons A and B. */
  function ButtonMode(buttonA: bool, buttonB: bool): (m: Mode)
    ensures m == Rot <==> buttonA && buttonB
    ensures m == Fwd <==> buttonA && !buttonB
    ensures m == Bkwd <==> !buttonA && buttonB
    ensures m == NoMode <==> !buttonA && !buttonB
  {
    if buttonA && buttonB then Rot
    else if buttonA then Fwd
    else if buttonB then Bkwd
    else NoMode
  }

  /** Mode selected by a raw sample: a button counts as pressed when its entry is 1.0. */
  function SampleMode(raw: seq<real>): Mode
    requires |raw| == 5
  {
    ButtonMode(raw[2] == 1.0, raw[3] == 1.0)
  }

  /** `data` after a transformation in a moving mode. */
  function Scaled(raw: seq<real>, scaling: real): seq<real>
    requires |raw| == 5 && scaling != 0.0
  {
    var yawActive := raw[4] == 1.0;
    [if yawActive then 0.0 else raw[0] / scaling,
     -raw[1] / scaling,
     if yawActive then raw[0] / scaling else 0.0]
  }

  /** Translational component along z of the command for a mode. */
  function StepFor(mode: Mode, step: real): real
  {
    match mode
    case Fwd => step
    case Bkwd => -step
    case _ => 0.0
  }

  /** The command `sendMovementCommand` builds from the mode and the data, if any. */
  function Xdot(mode: Mode, data: seq<real>, step: real): (r: Option<seq<real>>)
    requires |data| == 3
    ensures r.None? <==> mode == NoMode
    ensures r.Some? ==>
              && |r.value| == 6
              && r.value[0] == 0.0 && r.value[1] == 0.0
              && r.value[2] == (if mode == Fwd then step else if mode == Bkwd then -step else 0.0)
              && r.value[3..] == data
  {
    if mode == NoMode then None else Some([0.0, 0.0, StepFor(mode, step)] + data)
  }

  /** The yaw toggle routes the x reading to the z rotation: of entries 0 and 2
      of the scaled data one is zero, and the y reading is inverted. */
  lemma ScaledRoutesYaw(raw: seq<real>, scaling: real)
    requires |raw| == 5 && scaling != 0.0
    ensures var d := Scaled(raw, scaling);
            && |d| == 3
            && d[1] * scaling == -raw[1]
            && (raw[4] == 1.0 ==> d[0] == 0.0 && d[2] * scaling == raw[0])
            && (raw[4] != 1.0 ==> d[2] == 0.0 && d[0] * scaling == raw[0])
  {
  }

  /** Multiplying the scaling by a factor divides every rotational component
      of the command by it and leaves the translational step as it is: the
      doubling on a LOW proximity alert slows rotations only. */
  lemma ScalingSlowsRotationOnly(raw: seq<real>, scaling: real, factor: real, step: real)
    requires |raw| == 5 && scaling != 0.0 && factor != 0.0
    requires SampleMode(raw) != NoMode
    ensures var a := Xdot(SampleMode(raw), Scaled(raw, scaling), step).value;
            var b := Xdot(SampleMode(raw), Scaled(raw, scaling * factor), step).value;
            && b[2] == a[2]
            && (forall i :: 3 <= i < 6 ==> b[i] * factor == a[i])
  {
    var a := Xdot(SampleMode(raw), Scaled(raw, scaling), step).value;
    var b := Xdot(SampleMode(raw), Scaled(raw, scaling * factor), step).value;
    DivScaled(raw[0], scaling, factor);
    DivScaled(-raw[1], scaling, factor);
    assert b[3..] == Scaled(raw, scaling * factor) && a[3..] == Scaled(raw, scaling);
    forall i | 3 <= i < 6 ensures b[i] * factor == a[i] {
      assert b[i] == b[3..][i - 3] && a[i] == a[3..][i - 3];
    }
  }

  lemma DivScaled(x: real, s: real, k: real)
    requires s != 0.0 && k != 0.0
    ensures (x / (s * k)) * k == x / s
  {
    assert (x / (s * k)) * (s * k) == x;
  }

  class WiimoteSensorDevice {
    /** Last valid raw sample. */
    const buffer: array<real>
    /** Scaled readings of the last transformation. */
    const data: array<real>
    var mode: Mode
    const usingMovi: bool
    const step: real

    ghost predicate Valid()
    {
      buffer.Length == 5 && data.Length == 3 && buffer != data
    }

    constructor (usingMovi: bool, step: real)
      ensures Valid() && fresh(buffer) && fresh(data)
      ensures mode == NoMode && this.usingMovi == usingMovi && this.step == step
      ensures buffer[..] == seq(5, _ => 0.0) && data[..] == seq(3, _ => 0.0)
    {
      buffer := new real[5](_ => 0.0);
      data := new real[3](_ => 0.0);
      mode := NoMode;
      this.usingMovi := usingMovi;
      this.step := step;
    }

    /** `presetOk` and `frameOk` are the answers of the two `setParameter`
        calls; `requests` lists the calls issued, in order. */
    method Initialize(usingStreamingPreset: bool, presetOk: bool, frameOk: bool)
      returns (ok: bool, requests: seq<SetParameter>)
      ensures usingMovi && step <= 0.0 ==> !ok && requests == []
      ensures !(usingMovi && step <= 0.0) ==>
                && requests == (if usingStreamingPreset
                                then [SetParameter(ConfigStreamingCmd, Cmd(if usingMovi then MoviCmd else TwistCmd))]
                                else [])
                               + (if !usingStreamingPreset || presetOk
                                  then [SetParameter(ConfigFrame, Frame(TcpFrame))] else [])
                && (ok <==> (!usingStreamingPreset || presetOk) && frameOk)
    {
      requests := [];
      if usingMovi && step <= 0.0 {
        return false, requests;
      }
      if usingStreamingPreset {
        var cmd := if usingMovi then MoviCmd else TwistCmd;
        requests := requests + [SetParameter(ConfigStreamingCmd, Cmd(cmd))];
        if !presetOk {
          return false, requests;
        }
      }
      requests := requests + [SetParameter(ConfigFrame, Frame(TcpFrame))];
      if !frameOk {
        return false, requests;
      }
      return true, requests;
    }

    /** `sample` is what the analog sensor's `read` returns. */
    method AcquireData(sample: seq<real>) returns (ok: bool)
      requires Valid()
      modifies buffer
      ensures ok <==> |sample| == 5
      ensures ok ==> buffer[..] == sample
      ensures !ok ==> buffer[..] == old(buffer[..])
    {
      if |sample| != 5 {
        return false;
      }
      var i := 0;
      while i < |sample|
        invariant i <= |sample|
        invariant forall k :: 0 <= k < i ==> buffer[k] == sample[k]
      {
        buffer[i] := sample[i];
        i := i + 1;
      }
      return true;
    }

    method TransformData(scaling: real) returns (ok: bool)
      requires Valid() && scaling != 0.0
      modifies this`mode, data
      ensures ok
      ensures mode == SampleMode(buffer[..])
      ensures mode == NoMode ==> data[..] == old(data[..])
      ensures mode != NoMode ==> data[..] == Scaled(buffer[..], scaling)
    {
      var buttonA := buffer[2] == 1.0;
      var buttonB := buffer[3] == 1.0;
      var yawActive := buffer[4] == 1.0;

      if buttonA && buttonB {
        mode := Rot;
      } else if buttonA {
        mode := Fwd;
      } else if buttonB {
        mode := Bkwd;
      } else {
        mode := NoMode;
        return true;
      }

      data[1] := -buffer[1] / scaling;
      if yawActive {
        data[0] := 0.0;
        data[2] := buffer[0] / scaling;
      } else {
        data[0] := buffer[0] / scaling;
        data[2] := 0.0;
      }
      return true;
    }

    /** There is movement data exactly when `sendMovementCommand` would send a command. */
    function HasValidMovementData(): (valid: bool)
      requires Valid()
      reads this, data
      ensures valid <==> Xdot(mode, data[..], step).Some?
    {
      mode != NoMode
    }

    method SendMovementCommand() returns (sent: Option<Motion>)
      requires Valid()
      ensures sent == match Xdot(mode, data[..], step)
                      case None => None
                      case Some(v) => Some(if usingMovi then MoviCommand(v) else TwistCommand(v))
    {
      var xdot := new real[6](_ => 0.0);
      var i := 0;
      while i < data.Length
        invariant i <= data.Length
        invariant forall k :: 0 <= k < 3 ==> xdot[k] == 0.0
        invariant forall k :: 0 <= k < i ==> xdot[3 + k] == data[k]
      {
        xdot[3 + i] := data[i];
        i := i + 1;
      }

      match mode {
        case Fwd => xdot[2] := step;
        case Bkwd => xdot[2] := -step;
        case Rot => xdot[2] := 0.0;
        case NoMode => return None;
      }

      assert xdot[..] == [0.0, 0.0, StepFor(mode, step)] + data[..];
      if usingMovi {
        sent := Some(MoviCommand(xdot[..]));
      } else {
        sent := Some(TwistCommand(xdot[..]));
      }
    }

    /** A zero twist is sent exactly when the device streams twists. */
    method StopMotion() returns (sent: Option<Motion>)
      ensures sent.Some? <==> !usingMovi
      ensures sent.Some? ==> sent.value.TwistCommand? && sent.value.xdot == seq(6, _ => 0.0)
    {
      if !usingMovi {
        var zeros := new real[6](_ => 0.0);
        sent := Some(TwistCommand(zeros[..]));
      } else {
        sent := None;
      }
    }
  }
}
