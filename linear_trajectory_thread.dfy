/** The keyboard controller's linear-trajectory thread: it configures either a
    fixed per-tick TCP-frame displacement or a single-segment Cartesian
    trajectory, and on each tick sends an incremental pose command. The
    Cartesian controller, the trajectory object and the clock are oracles:
    their answers are parameters, and the calls issued are returned in order. */
module KeyboardController {
  import opened Vocab

  datatype PathType = Line
  datatype VelocityProfile = Rectangular | Trapezoidal

  /** A call to the Cartesian controller or to the trajectory object. */
  datatype Call =
    | SetParam(request: SetParameter)
    | Stat
    | Destroy
    | AddWaypoint(x: seq<real>, vels: seq<real>)
    | ConfigurePath(path: PathType)
    | ConfigureVelocityProfile(profile: VelocityProfile)
    | Create
    | GetPosition(elapsed: real)
    | Movi(x: seq<real>)

  /** Answers the trajectory object gives to the five build steps. */
  datatype BuildOracle = BuildOracle(destroyOk: bool, addWaypointOk: bool, configurePathOk: bool,
                                     configureProfileOk: bool, createOk: bool)

  /** The five build steps, in the order they are issued. */
  function BuildSteps(x: seq<real>, vels: seq<real>): seq<Call>
  {
    [Destroy, AddWaypoint(x, vels), ConfigurePath(Line), ConfigureVelocityProfile(Rectangular), Create]
  }

  function StepResults(o: BuildOracle): seq<bool>
  {
    [o.destroyOk, o.addWaypointOk, o.configurePathOk, o.configureProfileOk, o.createOk]
  }

  /** Number of leading steps that succeed. */
  function SucceedingPrefix(results: seq<bool>): (k: nat)
    ensures k <= |results|
    ensures forall i :: 0 <= i < k ==> results[i]
    ensures k < |results| ==> !results[k]
  {
    if results == [] || !results[0] then 0 else 1 + SucceedingPrefix(results[1..])
  }

  predicate BuildSucceeds(o: BuildOracle)
  {
    o.destroyOk && o.addWaypointOk && o.configurePathOk && o.configureProfileOk && o.createOk
  }

  /** The build steps the chained `ok = ok && step()` sequence issues: all of
      them, in order, up to and including the first that fails. */
  function BuildCalls(x: seq<real>, vels: seq<real>, o: BuildOracle): (calls: seq<Call>)
    ensures 1 <= |calls| <= 5 && calls == BuildSteps(x, vels)[..|calls|]
    ensures forall i :: 0 <= i < |calls| - 1 ==> StepResults(o)[i]
    ensures |calls| < 5 ==> !StepResults(o)[|calls| - 1]
  {
    var k := SucceedingPrefix(StepResults(o));
    BuildSteps(x, vels)[..if k < 5 then k + 1 else 5]
  }

  /** The build calls, step by step as the chained conjunction issues them. */
  lemma BuildCallsChain(x: seq<real>, vels: seq<real>, o: BuildOracle)
    ensures BuildCalls(x, vels, o) ==
              if !o.destroyOk then [Destroy]
              else if !o.addWaypointOk then [Destroy, AddWaypoint(x, vels)]
              else if !o.configurePathOk then [Destroy, AddWaypoint(x, vels), ConfigurePath(Line)]
              else if !o.configureProfileOk
              then [Destroy, AddWaypoint(x, vels), ConfigurePath(Line), ConfigureVelocityProfile(Rectangular)]
              else BuildSteps(x, vels)
  {
    var r0 := StepResults(o);
    var r1 := [o.addWaypointOk, o.configurePathOk, o.configureProfileOk, o.createOk];
    var r2 := [o.configurePathOk, o.configureProfileOk, o.createOk];
    var r3 := [o.configureProfileOk, o.createOk];
    var r4 := [o.createOk];
    assert r0[1..] == r1 && r1[1..] == r2 && r2[1..] == r3 && r3[1..] == r4 && r4[1..] == [];
    assert SucceedingPrefix(r4) == if o.createOk then 1 else 0;
    assert SucceedingPrefix(r3) == if o.configureProfileOk then 1 + SucceedingPrefix(r4) else 0;
    assert SucceedingPrefix(r2) == if o.configurePathOk then 1 + SucceedingPrefix(r3) else 0;
    assert SucceedingPrefix(r1) == if o.addWaypointOk then 1 + SucceedingPrefix(r2) else 0;
    assert SucceedingPrefix(r0) == if o.destroyOk then 1 + SucceedingPrefix(r1) else 0;
  }

  class LinearTrajectoryThread {
    /** Period of the thread, in milliseconds. */
    const period: int
    const usingTcpFrame: bool
    var usingStreamingCommandConfig: bool
    var deltaX: seq<real>
    var startTime: real

    constructor (period: int, usingTcpFrame: bool)
      ensures this.period == period && this.usingTcpFrame == usingTcpFrame
      ensures startTime == 0.0 && !usingStreamingCommandConfig && deltaX == []
    {
      this.period := period;
      this.usingTcpFrame := usingTcpFrame;
      startTime := 0.0;
      usingStreamingCommandConfig := false;
      deltaX := [];
    }

    /** `params` is the answer of `getParameters` (None when it fails). */
    method CheckStreamingConfig(params: Option<map<ConfigKey, real>>) returns (ok: bool)
      modifies this`usingStreamingCommandConfig
      ensures ok <==> params.Some?
      ensures ok ==> (usingStreamingCommandConfig <==> ConfigStreamingCmd in params.value)
      ensures !ok ==> usingStreamingCommandConfig == old(usingStreamingCommandConfig)
    {
      if params.None? {
        return false;
      }
      usingStreamingCommandConfig := ConfigStreamingCmd in params.value;
      return true;
    }

    /** Calls that precede the frame-specific part of `configure`. */
    function PresetCalls(): seq<Call>
      reads this
    {
      if usingStreamingCommandConfig then [SetParam(SetParameter(ConfigStreamingCmd, Cmd(MoviCmd)))] else []
    }

    /** `presetOk`, `stat`, `build` and `now` are the answers of `setParameter`,
        `stat`, the trajectory's build steps and the clock. */
    method Configure(vels: seq<real>, presetOk: bool, stat: Option<seq<real>>, build: BuildOracle, now: real)
      returns (ok: bool, calls: seq<Call>)
      modifies this`deltaX, this`startTime
      ensures usingStreamingCommandConfig && !presetOk ==>
                !ok && calls == PresetCalls() && deltaX == old(deltaX) && startTime == old(startTime)
      ensures (!usingStreamingCommandConfig || presetOk) && usingTcpFrame ==>
                && ok && calls == PresetCalls() && startTime == old(startTime)
                && |deltaX| == |vels|
                && (forall i :: 0 <= i < |vels| ==> deltaX[i] == vels[i] * ((period as real) / 1000.0))
      ensures (!usingStreamingCommandConfig || presetOk) && !usingTcpFrame && stat.None? ==>
                !ok && calls == PresetCalls() + [Stat] && deltaX == old(deltaX) && startTime == old(startTime)
      ensures (!usingStreamingCommandConfig || presetOk) && !usingTcpFrame && stat.Some? ==>
                && calls == PresetCalls() + [Stat] + BuildCalls(stat.value, vels, build)
                && (ok <==> BuildSucceeds(build))
                && startTime == (if ok then now else old(startTime))
                && deltaX == old(deltaX)
    {
      calls := PresetCalls();
      if usingStreamingCommandConfig && !presetOk {
        return false, calls;
      }

      if usingTcpFrame {
        var factor := (period as real) / 1000.0;
        var d := new real[|vels|];
        var i := 0;
        while i < |vels|
          modifies d
          invariant i <= |vels|
          invariant forall k :: 0 <= k < i ==> d[k] == vels[k] * factor
        {
          d[i] := vels[i] * factor;
          i := i + 1;
        }
        deltaX := d[..];
        return true, calls;
      }

      calls := calls + [Stat];
      if stat.None? {
        return false, calls;
      }
      var x := stat.value;

      ghost var before := calls;
      BuildCallsChain(x, vels, build);
      ok := true;
      if ok { calls := calls + [Destroy]; ok := build.destroyOk; }
      if ok { calls := calls + [AddWaypoint(x, vels)]; ok := build.addWaypointOk; }
      if ok { calls := calls + [ConfigurePath(Line)]; ok := build.configurePathOk; }
      if ok { calls := calls + [ConfigureVelocityProfile(Rectangular)]; ok := build.configureProfileOk; }
      if ok { calls := calls + [Create]; ok := build.createOk; }
      assert calls == before + BuildCalls(x, vels, build);

      if ok {
        startTime := now;
      }
    }

    /** One tick; `now` is the clock and `position` the answer of the
        trajectory's `getPosition`. */
    method Run(now: real, position: Option<seq<real>>) returns (calls: seq<Call>)
      ensures usingTcpFrame ==> calls == [Movi(deltaX)]
      ensures !usingTcpFrame ==>
                calls == [GetPosition(now - startTime)] + (if position.Some? then [Movi(position.value)] else [])
    {
      if usingTcpFrame {
        var delta := deltaX;
        calls := [Movi(delta)];
      } else {
        calls := [GetPosition(now - startTime)];
        if position.Some? {
          calls := calls + [Movi(position.value)];
        }
      }
    }
  }
}
