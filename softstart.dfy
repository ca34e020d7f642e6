/**
 * The soft-start node: its configuration, its live output `currentPower`,
 * the one repeating timer and the data of the ramp that timer drives.
 *
 * The host runtime calls `Input` for each incoming message, `Tick` for each
 * firing of the timer while it runs, and `Close` when the node is removed.
 * The timer is the flag `active`, the context store is the field `stored`,
 * and the message a tick sends is the value `Tick` returns.
 */
module SoftStartNode {
  import opened Wrappers
  import opened RampLaw

  /**
   * The configured mode. A missing or empty setting falls back to
   * "exponential"; every setting other than "exponential" is linear.
   */
  function ModeOf(setting: Option<string>): (m: Mode)
    ensures m == Linear <==> setting.Some? && setting.value != "" && setting.value != "exponential"
  {
    match setting
    case None => Exponential
    case Some(s) => if s == "" || s == "exponential" then Exponential else Linear
  }

  /** The output at construction: the stored value when it is truthy (present and non-zero), the start power otherwise. */
  function InitialPower(persisted: Option<real>, startPower: real): (p: real)
    ensures persisted.Some? && persisted.value != 0.0 ==> p == persisted.value
    ensures persisted.None? || persisted.value == 0.0 ==> p == startPower
  {
    if persisted.Some? && persisted.value != 0.0 then persisted.value else startPower
  }

  /**
   * The input filter: the target of the ramp to start, or None when the
   * payload is missing or equals the live output exactly.
   */
  function Gate(payload: Option<real>, currentPower: real): (t: Option<real>)
    ensures t.None? <==> payload.None? || payload.value == currentPower
    ensures t.Some? ==> t == payload && t.value != currentPower
  {
    match payload
    case None => None
    case Some(v) => if v == currentPower then None else Some(v)
  }

  /**
   * A node re-created from the stored value of its last tick comes back
   * with that value exactly when it is non-zero (or the start power is 0).
   */
  lemma RestartRoundTrip(v: real, startPower: real)
    ensures InitialPower(Some(v), startPower) == v <==> v != 0.0 || startPower == 0.0
  {
  }

  class SoftStart {
    const startPower: real
    const steps: real
    const mode: Mode
    /** Math.pow, applied to 1/steps for the exponential growth rate. */
    const pow: (real, real) -> real

    /** The live output. */
    var currentPower: real
    /** The context store's 'currentPower' entry. */
    var stored: Option<real>
    /** Whether the repeating timer is set. */
    var active: bool

    // The data of the current (or last) ramp.
    var start: real
    var target: real
    var isUp: bool
    var growthRate: real
    var stepCount: nat
    /** The payloads the current (or last) ramp has sent, in order. */
    ghost var sent: seq<real>

    /** The ramp the fields describe. */
    function CurrentRamp(): (r: Ramp)
      reads this
      ensures r.start == start && r.target == target && r.isUp == isUp && r.growthRate == growthRate
    {
      Ramp(mode, steps, start, target, isUp, growthRate)
    }

    /**
     * `pow` raises 1 to the exponent 1/steps to 1, as Math.pow does. While the timer
     * runs, the ramp is the one `Input` started, fewer ticks than its length
     * have fired, the payloads sent so far are the ramp's first `stepCount`
     * values, and the output is the value after `stepCount` ticks.
     */
    ghost predicate Valid()
      reads this
    {
      steps != 0.0 &&
      pow(1.0, 1.0 / steps) == 1.0 &&
      (active ==>
        WellFormed(CurrentRamp()) &&
        growthRate == GrowthRate(mode, steps, pow, start, target) &&
        stepCount < Length(CurrentRamp()) &&
        |sent| == stepCount && (forall i :: 0 <= i < stepCount ==> sent[i] == Value(CurrentRamp(), i + 1)) &&
        currentPower == Value(CurrentRamp(), stepCount))
    }

    /**
     * The node as configured: the mode setting resolved by `ModeOf`, the
     * step count `duration / stepTime`, and the output read back from the
     * context store. `pow` is Math.pow.
     */
    constructor (startPower: real, duration: int, stepTime: int, modeSetting: Option<string>,
                 pow: (real, real) -> real, persisted: Option<real>)
      requires duration != 0 && stepTime != 0
      requires forall e :: pow(1.0, e) == 1.0
      ensures Valid() && !active
      ensures this.startPower == startPower && steps == Steps(duration, stepTime)
      ensures mode == ModeOf(modeSetting) && this.pow == pow
      ensures currentPower == InitialPower(persisted, startPower) && stored == persisted
    {
      this.startPower := startPower;
      steps := Steps(duration, stepTime);
      mode := ModeOf(modeSetting);
      this.pow := pow;
      currentPower := InitialPower(persisted, startPower);
      stored := persisted;
      active := false;
    }

    /**
     * The input handler: a missing payload or one equal to the live output
     * changes nothing; any other payload cancels the running timer and starts
     * a ramp from the live output to it.
     */
    method Input(payload: Option<real>)
      requires Valid()
      modifies this
      ensures Valid()
      ensures Gate(payload, old(currentPower)).None? ==> unchanged(this)
      ensures Gate(payload, old(currentPower)).Some? ==>
        active && stepCount == 0 &&
        start == old(currentPower) && target == payload.value && isUp == (start < target) &&
        growthRate == GrowthRate(mode, steps, pow, start, target) &&
        currentPower == old(currentPower) && stored == old(stored) && sent == []
    {
      if payload.None? {
        return;
      }
      var newTarget := payload.value;
      if newTarget == currentPower {
        return;
      }
      active := false;
      AdjustPower(newTarget);
    }

    /** Starts a ramp from the live output to `newTarget`. */
    method AdjustPower(newTarget: real)
      requires Valid() && !active && newTarget != currentPower
      modifies this
      ensures Valid() && active && stepCount == 0
      ensures start == old(currentPower) && target == newTarget && isUp == (start < target)
      ensures growthRate == GrowthRate(mode, steps, pow, start, target)
      ensures mode == Exponential && start <= 1.0 && target <= 1.0 ==> growthRate == 1.0
      ensures currentPower == old(currentPower) && stored == old(stored) && sent == []
    {
      start := currentPower;
      target := newTarget;
      isUp := start < target;
      growthRate := GrowthRate(mode, steps, pow, start, target);
      stepCount := 0;
      sent := [];
      assert CurrentRamp() == Begin(mode, steps, pow, start, target);
      active := true;
    }

    /**
     * One firing of the timer: the next tick of the ramp. The terminating
     * tick snaps the output to the target and clears the timer; every tick
     * stores the output and sends it.
     */
    method Tick() returns (payload: real)
      requires Valid() && active
      modifies this
      ensures Valid()
      ensures start == old(start) && target == old(target) && isUp == old(isUp) && growthRate == old(growthRate)
      ensures stepCount == old(stepCount) + 1 && stepCount <= Bound(CurrentRamp())
      ensures payload == currentPower == Output(CurrentRamp(), stepCount)
      ensures active <==> !Done(CurrentRamp(), stepCount)
      ensures !active ==> currentPower == target
      ensures stored == Some(payload) && sent == old(sent) + [payload]
      ensures !active ==> sent == Trace(CurrentRamp())
      ensures mode == Linear && isUp ==> old(currentPower) < payload <= target
      ensures mode == Linear && !isUp ==> target <= payload < old(currentPower)
      ensures mode == Exponential && isUp && growthRate > 1.0 ==> old(currentPower) < payload <= target
      ensures mode == Exponential && !isUp && start >= 1.0 && 0.0 < growthRate < 1.0 ==>
        target <= payload < old(currentPower)
    {
      var r := CurrentRamp();
      ghost var k := stepCount;
      ghost var before := sent;
      TickStep(r, k);
      stepCount := stepCount + 1;
      currentPower := Candidate(r, stepCount);
      if (stepCount as real) > steps || (isUp && currentPower >= target) || (!isUp && currentPower <= target) {
        currentPower := target;
        active := false;
      }
      stored := Some(currentPower);
      payload := currentPower;
      sent := sent + [payload];
      assert CurrentRamp() == r && payload == Output(r, k + 1);
      TraceExtend(r, k, before, sent);
    }

    /** The close handler: clears the timer and changes nothing else. */
    method Close()
      requires Valid()
      modifies this
      ensures Valid() && !active
      ensures currentPower == old(currentPower) && stored == old(stored)
      ensures start == old(start) && target == old(target) && isUp == old(isUp)
      ensures growthRate == old(growthRate) && stepCount == old(stepCount) && sent == old(sent)
    {
      active := false;
    }
  }
}
