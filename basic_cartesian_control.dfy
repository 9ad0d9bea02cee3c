/** The safety and mode core of BasicCartesianControl: soft joint-limit and
    joint-velocity checks, the control-mode arbiter, the state setter and the
    isochronous-speed planner. The joint interface (iControlMode) is an oracle:
    its answers are parameters, and the batched write a method would issue is
    returned to the caller. */
module CartesianControl {
  import opened Vocab

  /** Safety margin of the soft joint limits. */
  const Epsilon: real := 0.00001

  /** -1 for negative numbers, +1 for positive numbers, 0 for zero, computed as
      the source does, as the difference of two comparisons. */
  function Sgn(x: real): (r: int)
    ensures r == 1 <==> x > 0.0
    ensures r == -1 <==> x < 0.0
    ensures r == 0 <==> x == 0.0
  {
    (if 0.0 < x then 1 else 0) - (if x < 0.0 then 1 else 0)
  }

  function Abs(x: real): (r: real)
    ensures r >= 0.0 && (r == x || r == -x)
  {
    if x < 0.0 then -x else x
  }

  // ---------------------------------------------------------------------------
  // Control-mode arbiter: which joints need a mode write

  predicate AllInMode(modes: seq<ControlMode>, mode: ControlMode)
  {
    forall i :: 0 <= i < |modes| ==> modes[i] == mode
  }

  /** The indices among the first `n` joints whose mode differs from `mode`,
      in the order the source appends them to `jointIds`. */
  function MismatchedJoints(modes: seq<ControlMode>, mode: ControlMode, n: nat): seq<nat>
    requires n <= |modes|
  {
    if n == 0 then []
    else MismatchedJoints(modes, mode, n - 1) + (if modes[n - 1] != mode then [n - 1] else [])
  }

  /** The list holds exactly the mismatched joints below `n`, strictly ascending. */
  lemma {:induction false} MismatchedJointsExact(modes: seq<ControlMode>, mode: ControlMode, n: nat)
    requires n <= |modes|
    ensures forall i: nat :: i in MismatchedJoints(modes, mode, n) <==> i < n && modes[i] != mode
    ensures forall a, b :: 0 <= a < b < |MismatchedJoints(modes, mode, n)| ==>
              MismatchedJoints(modes, mode, n)[a] < MismatchedJoints(modes, mode, n)[b]
  {
    if n > 0 {
      MismatchedJointsExact(modes, mode, n - 1);
      var prev := MismatchedJoints(modes, mode, n - 1);
      forall a | 0 <= a < |prev| ensures prev[a] < n - 1 {
        assert prev[a] in prev;
      }
    }
  }

  /** One batched `setControlModes(n, jointIds, modes)` request. */
  datatype ModeWrite = ModeWrite(joints: seq<nat>, modes: seq<ControlMode>)

  /** The write `setControlModes` issues once the current modes are known:
      none when every joint is already in `mode`. */
  function PlannedWrite(modes: seq<ControlMode>, mode: ControlMode): Option<ModeWrite>
  {
    var ids := MismatchedJoints(modes, mode, |modes|);
    if ids == [] then None else Some(ModeWrite(ids, seq(|ids|, _ => mode)))
  }

  /** No write is planned exactly when every joint is already in the target
      mode; a planned write targets exactly the other joints, ascending, all
      with the target mode. */
  lemma PlannedWriteExact(modes: seq<ControlMode>, mode: ControlMode)
    ensures PlannedWrite(modes, mode).None? <==> AllInMode(modes, mode)
    ensures PlannedWrite(modes, mode).Some? ==>
              var w := PlannedWrite(modes, mode).value;
              && |w.modes| == |w.joints|
              && (forall k :: 0 <= k < |w.modes| ==> w.modes[k] == mode)
              && (forall i: nat :: i in w.joints <==> i < |modes| && modes[i] != mode)
              && (forall a, b :: 0 <= a < b < |w.joints| ==> w.joints[a] < w.joints[b])
  {
    MismatchedJointsExact(modes, mode, |modes|);
    var ids := MismatchedJoints(modes, mode, |modes|);
    if ids == [] {
      forall i | 0 <= i < |modes| ensures modes[i] == mode {
        assert i !in ids;
      }
    } else {
      assert ids[0] in ids;
    }
  }

  /** The joint interface's modes after it has carried out a batched write. */
  function ApplyWrite(modes: seq<ControlMode>, joints: seq<nat>, targets: seq<ControlMode>): (r: seq<ControlMode>)
    requires |joints| == |targets|
    ensures |r| == |modes|
    decreases |joints|
  {
    if joints == [] then modes
    else
      var next := if joints[0] < |modes| then modes[joints[0] := targets[0]] else modes;
      ApplyWrite(next, joints[1..], targets[1..])
  }

  /** A write whose targets are all `mode` puts exactly the listed joints in
      `mode` and leaves every other joint as it was. */
  lemma {:induction false} ApplyUniformWrite(modes: seq<ControlMode>, joints: seq<nat>, targets: seq<ControlMode>, mode: ControlMode)
    requires |joints| == |targets|
    requires forall k :: 0 <= k < |targets| ==> targets[k] == mode
    ensures forall i :: 0 <= i < |modes| ==>
              ApplyWrite(modes, joints, targets)[i] == if i in joints then mode else modes[i]
    decreases |joints|
  {
    if joints != [] {
      var next := if joints[0] < |modes| then modes[joints[0] := targets[0]] else modes;
      ApplyUniformWrite(next, joints[1..], targets[1..], mode);
      forall i | 0 <= i < |modes|
        ensures ApplyWrite(modes, joints, targets)[i] == if i in joints then mode else modes[i]
      {
        assert i in joints <==> i == joints[0] || i in joints[1..];
      }
    }
  }

  /** Idempotence of the arbiter: once the planned write has been carried out,
      every joint is in the target mode, the joints that already were are
      untouched, and planning again issues no write. */
  lemma SetControlModesSettles(modes: seq<ControlMode>, mode: ControlMode)
    ensures var w := PlannedWrite(modes, mode);
            var after := if w.None? then modes else ApplyWrite(modes, w.value.joints, w.value.modes);
            && |after| == |modes|
            && AllInMode(after, mode)
            && (forall i :: 0 <= i < |modes| && modes[i] == mode ==> after[i] == modes[i])
            && PlannedWrite(after, mode).None?
  {
    PlannedWriteExact(modes, mode);
    var w := PlannedWrite(modes, mode);
    var after := if w.None? then modes else ApplyWrite(modes, w.value.joints, w.value.modes);
    if w.Some? {
      ApplyUniformWrite(modes, w.value.joints, w.value.modes, mode);
    }
    assert AllInMode(after, mode);
    PlannedWriteExact(after, mode);
  }

  /** `checkControlModes` succeeds on a reading exactly when `setControlModes`
      would issue no write for that reading. */
  lemma CheckAgreesWithPlannedWrite(modes: seq<ControlMode>, mode: ControlMode)
    ensures AllInMode(modes, mode) <==> PlannedWrite(modes, mode).None?
  {
    PlannedWriteExact(modes, mode);
  }

  /** The control mode a streaming command needs, if the command is supported. */
  function RequiredMode(command: StreamingCommand): (m: Option<ControlMode>)
    ensures m == Some(VelocityMode) <==> command == TwistCmd || command == PoseCmd
    ensures m == Some(PositionDirectMode) <==> command == MoviCmd
    ensures m == None <==> command !in {TwistCmd, PoseCmd, MoviCmd}
  {
    match command
    case TwistCmd => Some(VelocityMode)
    case PoseCmd => Some(VelocityMode)
    case MoviCmd => Some(PositionDirectMode)
    case _ => None
  }

  // ---------------------------------------------------------------------------
  // Isochronous-speed planner

  predicate SpeedsPositive(speeds: seq<real>, n: nat)
    requires n <= |speeds|
  {
    forall j :: 0 <= j < n ==> speeds[j] > 0.0
  }

  /** Time joint `j` needs to cover its distance at its reference speed. */
  function JointTime(speeds: seq<real>, q: seq<real>, qd: seq<real>, j: nat): real
    requires j < |speeds| && j < |q| && j < |qd| && speeds[j] > 0.0
  {
    Abs(qd[j] - q[j]) / speeds[j]
  }

  /** `maxTime` after the planner's first loop has visited joints 0 .. n-1. */
  function MaxTime(speeds: seq<real>, q: seq<real>, qd: seq<real>, n: nat): real
    requires n <= |speeds| && n <= |q| && n <= |qd| && SpeedsPositive(speeds, n)
  {
    if n == 0 then 0.0
    else
      var m := MaxTime(speeds, q, qd, n - 1);
      var t := JointTime(speeds, q, qd, n - 1);
      if t > m then t else m
  }

  /** `maxTime` is the largest joint time (or 0 with no joints). */
  lemma {:induction false} MaxTimeIsMaximum(speeds: seq<real>, q: seq<real>, qd: seq<real>, n: nat)
    requires n <= |speeds| && n <= |q| && n <= |qd| && SpeedsPositive(speeds, n)
    ensures MaxTime(speeds, q, qd, n) >= 0.0
    ensures forall j :: 0 <= j < n ==> JointTime(speeds, q, qd, j) <= MaxTime(speeds, q, qd, n)
    ensures n == 0 || exists j :: 0 <= j < n && JointTime(speeds, q, qd, j) == MaxTime(speeds, q, qd, n)
  {
    if n > 0 {
      MaxTimeIsMaximum(speeds, q, qd, n - 1);
      if n - 1 > 0 && JointTime(speeds, q, qd, n - 1) <= MaxTime(speeds, q, qd, n - 1) {
        var j :| 0 <= j < n - 1 && JointTime(speeds, q, qd, j) == MaxTime(speeds, q, qd, n - 1);
        assert JointTime(speeds, q, qd, j) == MaxTime(speeds, q, qd, n);
      } else {
        assert JointTime(speeds, q, qd, n - 1) == MaxTime(speeds, q, qd, n);
      }
    }
  }

  /** Speed the planner assigns to solver joint `j`. */
  function IsochronousSpeed(speeds: seq<real>, q: seq<real>, qd: seq<real>, n: nat, j: nat): real
    requires n <= |speeds| && n <= |q| && n <= |qd| && SpeedsPositive(speeds, n)
    requires j < n && MaxTime(speeds, q, qd, n) > 0.0
  {
    Abs(qd[j] - q[j]) / MaxTime(speeds, q, qd, n)
  }

  /** No joint exceeds its reference speed, every moving joint arrives exactly
      at `maxTime`, and the slowest joint runs at its reference speed. */
  lemma IsochronousSpeedsSound(speeds: seq<real>, q: seq<real>, qd: seq<real>, n: nat)
    requires n <= |speeds| && n <= |q| && n <= |qd| && SpeedsPositive(speeds, n)
    requires MaxTime(speeds, q, qd, n) > 0.0
    ensures forall j :: 0 <= j < n ==> 0.0 <= IsochronousSpeed(speeds, q, qd, n, j) <= speeds[j]
    ensures forall j :: 0 <= j < n && qd[j] != q[j] ==>
              Abs(qd[j] - q[j]) / IsochronousSpeed(speeds, q, qd, n, j) == MaxTime(speeds, q, qd, n)
    ensures exists j :: 0 <= j < n && IsochronousSpeed(speeds, q, qd, n, j) == speeds[j]
  {
    MaxTimeIsMaximum(speeds, q, qd, n);
    forall j | 0 <= j < n
      ensures 0.0 <= IsochronousSpeed(speeds, q, qd, n, j) <= speeds[j]
    {
      JointSpeedBounded(speeds, q, qd, n, j);
    }
    forall j | 0 <= j < n && qd[j] != q[j]
      ensures Abs(qd[j] - q[j]) / IsochronousSpeed(speeds, q, qd, n, j) == MaxTime(speeds, q, qd, n)
    {
      DivByQuotient(Abs(qd[j] - q[j]), MaxTime(speeds, q, qd, n));
    }
    var k :| 0 <= k < n && JointTime(speeds, q, qd, k) == MaxTime(speeds, q, qd, n);
    SlowestAtRefSpeed(Abs(qd[k] - q[k]), speeds[k], MaxTime(speeds, q, qd, n));
  }

  lemma JointSpeedBounded(speeds: seq<real>, q: seq<real>, qd: seq<real>, n: nat, j: nat)
    requires n <= |speeds| && n <= |q| && n <= |qd| && SpeedsPositive(speeds, n)
    requires MaxTime(speeds, q, qd, n) > 0.0 && j < n
    requires JointTime(speeds, q, qd, j) <= MaxTime(speeds, q, qd, n)
    ensures 0.0 <= IsochronousSpeed(speeds, q, qd, n, j) <= speeds[j]
  {
    SpeedBound(Abs(qd[j] - q[j]), speeds[j], MaxTime(speeds, q, qd, n));
  }

  lemma SpeedBound(d: real, s: real, T: real)
    requires d >= 0.0 && s > 0.0 && T > 0.0 && d / s <= T
    ensures 0.0 <= d / T <= s
  {
    assert d == (d / s) * s;
    assert d <= T * s;
    assert d / T <= (T * s) / T;
  }

  lemma DivByQuotient(d: real, T: real)
    requires d > 0.0 && T > 0.0
    ensures d / T > 0.0 && d / (d / T) == T
  {
  }

  lemma SlowestAtRefSpeed(d: real, s: real, T: real)
    requires s > 0.0 && T > 0.0 && d / s == T
    ensures d / T == s
  {
    assert d == T * s;
  }

  /** The worked example: q = [0, 0], qd = [10, 20], reference speeds [5, 5]
      give maxTime 4 and speeds [2.5, 5]. */
  lemma IsochronousExample()
    ensures MaxTime([5.0, 5.0], [0.0, 0.0], [10.0, 20.0], 2) == 4.0
    ensures IsochronousSpeed([5.0, 5.0], [0.0, 0.0], [10.0, 20.0], 2, 0) == 2.5
    ensures IsochronousSpeed([5.0, 5.0], [0.0, 0.0], [10.0, 20.0], 2, 1) == 5.0
  {
    assert JointTime([5.0, 5.0], [0.0, 0.0], [10.0, 20.0], 0) == 2.0;
    assert JointTime([5.0, 5.0], [0.0, 0.0], [10.0, 20.0], 1) == 4.0;
    assert MaxTime([5.0, 5.0], [0.0, 0.0], [10.0, 20.0], 1) == 2.0;
  }

  // ---------------------------------------------------------------------------

  class BasicCartesianControl {
    const numRobotJoints: nat
    const numSolverJoints: nat
    const qMin: seq<real>
    const qMax: seq<real>
    const qdotMin: seq<real>
    const qdotMax: seq<real>
    const qRefSpeeds: seq<real>

    var currentState: ControlState
    var streamingCommand: StreamingCommand

    /** Every limit vector covers the solver joints, which are a prefix of the robot's joints. */
    ghost predicate Valid()
    {
      && numSolverJoints <= numRobotJoints
      && |qMin| >= numSolverJoints && |qMax| >= numSolverJoints
      && |qdotMin| >= numSolverJoints && |qdotMax| >= numSolverJoints
      && |qRefSpeeds| >= numSolverJoints
    }

    constructor (numRobotJoints: nat, numSolverJoints: nat, qMin: seq<real>, qMax: seq<real>,
                 qdotMin: seq<real>, qdotMax: seq<real>, qRefSpeeds: seq<real>)
      requires numSolverJoints <= numRobotJoints
      requires |qMin| >= numSolverJoints && |qMax| >= numSolverJoints
      requires |qdotMin| >= numSolverJoints && |qdotMax| >= numSolverJoints
      requires |qRefSpeeds| >= numSolverJoints
      ensures Valid()
      ensures this.numRobotJoints == numRobotJoints && this.numSolverJoints == numSolverJoints
      ensures this.qMin == qMin && this.qMax == qMax && this.qdotMin == qdotMin && this.qdotMax == qdotMax
      ensures this.qRefSpeeds == qRefSpeeds
      ensures currentState == NotControlling && streamingCommand == NotSet
    {
      this.numRobotJoints, this.numSolverJoints := numRobotJoints, numSolverJoints;
      this.qMin, this.qMax, this.qdotMin, this.qdotMax := qMin, qMax, qdotMin, qdotMax;
      this.qRefSpeeds := qRefSpeeds;
      currentState, streamingCommand := NotControlling, NotSet;
    }

    method GetCurrentState() returns (state: ControlState)
      ensures state == currentState
    {
      state := currentState;
    }

    /** Every state write invalidates the streaming-command selector. */
    method SetCurrentState(value: ControlState)
      modifies this
      ensures currentState == value && streamingCommand == NotSet
    {
      currentState := value;
      streamingCommand := NotSet;
    }

    // -------------------------------------------------------------------------
    // Joint safety checks

    /** Position `value` of solver joint `j` lies inside its soft band. */
    predicate InSoftBand(j: nat, value: real)
      requires Valid() && j < numSolverJoints
    {
      qMin[j] + Epsilon <= value <= qMax[j] - Epsilon
    }

    predicate WithinSoftLimits(q: seq<real>)
      requires Valid() && |q| >= numSolverJoints
    {
      forall j :: 0 <= j < numSolverJoints ==> InSoftBand(j, q[j])
    }

    function MidRange(j: nat): real
      requires Valid() && j < numSolverJoints
    {
      (qMax[j] + qMin[j]) / 2.0
    }

    /** Joint `j` is outside its soft band and `velocity` does not lead it back
        toward the middle of its range. */
    predicate JointBlocked(j: nat, value: real, velocity: real)
      requires Valid() && j < numSolverJoints
    {
      !InSoftBand(j, value) && Sgn(value - MidRange(j)) == Sgn(velocity)
    }

    predicate VelocityWithinLimits(j: nat, velocity: real)
      requires Valid() && j < numSolverJoints
    {
      qdotMin[j] <= velocity <= qdotMax[j]
    }

    method CheckJointLimits(q: seq<real>) returns (ok: bool)
      requires Valid() && |q| >= numSolverJoints
      ensures ok <==> WithinSoftLimits(q)
    {
      var joint := 0;
      while joint < numSolverJoints
        invariant joint <= numSolverJoints
        invariant forall j :: 0 <= j < joint ==> InSoftBand(j, q[j])
      {
        var value := q[joint];
        if value < qMin[joint] + Epsilon || value > qMax[joint] - Epsilon {
          return false;
        }
        joint := joint + 1;
      }
      return true;
    }

    /** The velocity-aware overload of `checkJointLimits`. */
    method CheckJointLimitsWithVelocity(q: seq<real>, qdot: seq<real>) returns (ok: bool)
      requires Valid() && |q| >= numSolverJoints && |qdot| >= numSolverJoints
      ensures ok <==> forall j :: 0 <= j < numSolverJoints ==> !JointBlocked(j, q[j], qdot[j])
    {
      var joint := 0;
      while joint < numSolverJoints
        invariant joint <= numSolverJoints
        invariant forall j :: 0 <= j < joint ==> !JointBlocked(j, q[j], qdot[j])
      {
        var value := q[joint];
        if value < qMin[joint] + Epsilon || value > qMax[joint] - Epsilon {
          var midRange := (qMax[joint] + qMin[joint]) / 2.0;
          if Sgn(value - midRange) == Sgn(qdot[joint]) {
            return false;
          }
        }
        joint := joint + 1;
      }
      return true;
    }

    method CheckJointVelocities(qdot: seq<real>) returns (ok: bool)
      requires Valid() && |qdot| >= numSolverJoints
      ensures ok <==> forall j :: 0 <= j < numSolverJoints ==> VelocityWithinLimits(j, qdot[j])
    {
      var joint := 0;
      while joint < numSolverJoints
        invariant joint <= numSolverJoints
        invariant forall j :: 0 <= j < joint ==> VelocityWithinLimits(j, qdot[j])
      {
        var value := qdot[joint];
        if value < qdotMin[joint] || value > qdotMax[joint] {
          return false;
        }
        joint := joint + 1;
      }
      return true;
    }

    /** A position strictly inside the soft band of every solver joint passes
        the plain check. */
    lemma StrictInteriorPasses(q: seq<real>)
      requires Valid() && |q| >= numSolverJoints
      requires forall j :: 0 <= j < numSolverJoints ==> qMin[j] + Epsilon < q[j] < qMax[j] - Epsilon
      ensures WithinSoftLimits(q)
    {
    }

    /** A joint inside its soft band never blocks the velocity-aware check, so
        any position that passes the plain check passes it for every velocity. */
    lemma SoftLimitsImplyVelocityAwarePass(q: seq<real>, qdot: seq<real>)
      requires Valid() && |q| >= numSolverJoints && |qdot| >= numSolverJoints
      requires WithinSoftLimits(q)
      ensures forall j :: 0 <= j < numSolverJoints ==> !JointBlocked(j, q[j], qdot[j])
    {
    }

    /** At its upper hard limit a joint with a proper range is blocked exactly
        when it keeps moving up; at its lower limit, exactly when it keeps
        moving down. */
    lemma EscapeFromLimit(j: nat, velocity: real)
      requires Valid() && j < numSolverJoints && qMin[j] < qMax[j]
      ensures JointBlocked(j, qMax[j], velocity) <==> velocity > 0.0
      ensures JointBlocked(j, qMin[j], velocity) <==> velocity < 0.0
    {
      assert qMax[j] - MidRange(j) > 0.0;
      assert qMin[j] - MidRange(j) < 0.0;
    }

    /** A range narrower than two margins has an empty soft band: the plain
        check then rejects every position, and the velocity-aware check blocks
        the joint at its mid range exactly when it is at rest. */
    lemma NarrowRangeBehaviour(j: nat, q: seq<real>, velocity: real)
      requires Valid() && j < numSolverJoints && |q| >= numSolverJoints
      requires qMax[j] - qMin[j] < 2.0 * Epsilon
      ensures !WithinSoftLimits(q)
      ensures JointBlocked(j, MidRange(j), velocity) <==> velocity == 0.0
    {
      assert !InSoftBand(j, q[j]);
    }

    // -------------------------------------------------------------------------
    // Control-mode arbiter

    /** `reading` is the answer of `getControlModes` (None when it fails). */
    method CheckControlModes(mode: ControlMode, reading: Option<seq<ControlMode>>) returns (ok: bool)
      ensures ok <==> reading.Some? && AllInMode(reading.value, mode)
    {
      if reading.None? {
        return false;
      }
      var modes := reading.value;
      ok := forall i | 0 <= i < |modes| :: modes[i] == mode;
    }

    /** `reading` is the answer of `getControlModes`, `writeOk` the answer the
        batched `setControlModes` would give; `write` is the batched write
        issued, if any. */
    method SetControlModes(mode: ControlMode, reading: Option<seq<ControlMode>>, writeOk: bool)
      returns (ok: bool, write: Option<ModeWrite>)
      ensures reading.None? ==> !ok && write.None?
      ensures reading.Some? ==> write == PlannedWrite(reading.value, mode)
      ensures ok <==> reading.Some? && (write.None? || writeOk)
    {
      if reading.None? {
        return false, None;
      }
      var modes := reading.value;
      var jointIds: seq<nat> := [];
      var i := 0;
      while i < |modes|
        invariant i <= |modes|
        invariant jointIds == MismatchedJoints(modes, mode, i)
      {
        if modes[i] != mode {
          jointIds := jointIds + [i];
        }
        i := i + 1;
      }
      write := None;
      if jointIds != [] {
        write := Some(ModeWrite(jointIds, seq(|jointIds|, _ => mode)));
        if !writeOk {
          return false, write;
        }
      }
      ok := true;
    }

    /** Resets the state, then puts the joints in the mode the streaming
        command needs; an unsupported command fails without touching the joints. */
    method PresetStreamingCommand(command: StreamingCommand, reading: Option<seq<ControlMode>>, writeOk: bool)
      returns (ok: bool, write: Option<ModeWrite>)
      modifies this
      ensures currentState == NotControlling && streamingCommand == NotSet
      ensures RequiredMode(command).None? ==> !ok && write.None?
      ensures RequiredMode(command).Some? ==>
                && write == (if reading.None? then None else PlannedWrite(reading.value, RequiredMode(command).value))
                && (ok <==> reading.Some? && (write.None? || writeOk))
    {
      SetCurrentState(NotControlling);
      match command
      case TwistCmd =>
        ok, write := SetControlModes(VelocityMode, reading, writeOk);
      case PoseCmd =>
        ok, write := SetControlModes(VelocityMode, reading, writeOk);
      case MoviCmd =>
        ok, write := SetControlModes(PositionDirectMode, reading, writeOk);
      case _ =>
        ok, write := false, None;
    }

    // -------------------------------------------------------------------------
    // Isochronous-speed planner

    predicate RefSpeedsPositive()
      requires Valid()
    {
      SpeedsPositive(qRefSpeeds, numSolverJoints)
    }

    /** Writes into `qdot` the speed of each solver joint so that all arrive
        together; a non-positive reference speed aborts with nothing written,
        and joints beyond the solver's are never written. */
    method ComputeIsocronousSpeeds(q: seq<real>, qd: seq<real>, qdot: array<real>)
      requires Valid()
      requires |q| >= numSolverJoints && |qd| >= numSolverJoints && qdot.Length >= numSolverJoints
      requires RefSpeedsPositive() && numSolverJoints > 0 ==> MaxTime(qRefSpeeds, q, qd, numSolverJoints) > 0.0
      modifies qdot
      ensures !RefSpeedsPositive() ==> qdot[..] == old(qdot[..])
      ensures RefSpeedsPositive() ==>
                forall j :: 0 <= j < qdot.Length ==>
                  qdot[j] == if j < numSolverJoints then IsochronousSpeed(qRefSpeeds, q, qd, numSolverJoints, j)
                             else old(qdot[j])
    {
      var maxTime := 0.0;
      var joint := 0;
      while joint < numSolverJoints
        invariant joint <= numSolverJoints
        invariant SpeedsPositive(qRefSpeeds, joint)
        invariant maxTime == MaxTime(qRefSpeeds, q, qd, joint)
      {
        if qRefSpeeds[joint] <= 0.0 {
          return;
        }
        var distance := Abs(qd[joint] - q[joint]);
        var targetTime := distance / qRefSpeeds[joint];
        if targetTime > maxTime {
          maxTime := targetTime;
        }
        joint := joint + 1;
      }

      joint := 0;
      while joint < numRobotJoints
        invariant joint <= numRobotJoints
        invariant forall j :: 0 <= j < qdot.Length ==>
                    qdot[j] == if j < joint && j < numSolverJoints
                               then IsochronousSpeed(qRefSpeeds, q, qd, numSolverJoints, j)
                               else old(qdot[j])
      {
        // Joints beyond the solver's are only reported as forced to zero.
        if joint < numSolverJoints {
          qdot[joint] := Abs(qd[joint] - q[joint]) / maxTime;
        }
        joint := joint + 1;
      }
    }
  }
}
