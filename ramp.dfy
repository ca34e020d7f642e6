/**
 * The per-ramp laws of the soft-start controller, as pure functions over reals.
 *
 * A ramp is fixed when it starts: the live value it starts from, the target,
 * the direction and the growth rate. Tick number k (k >= 1) computes a
 * candidate value by the linear or the exponential law; the ramp ends on the
 * first tick whose number exceeds the configured step count or whose
 * candidate reaches the target, and that tick emits the target exactly.
 */
module RampLaw {

  /** The interpolation law. */
  datatype Mode = Linear | Exponential

  /** Everything a running ramp captured when it started. */
  datatype Ramp = Ramp(mode: Mode, steps: real, start: real, target: real, isUp: bool, growthRate: real)

  function Max(a: real, b: real): (r: real)
    ensures r >= a && r >= b && (r == a || r == b)
  {
    if a >= b then a else b
  }

  /** g raised to a natural power, the value of Math.pow(g, k) for an integer k. */
  function Power(g: real, k: nat): (p: real)
    ensures g > 0.0 ==> p > 0.0
    ensures g == 1.0 ==> p == 1.0
  {
    if k == 0 then 1.0 else g * Power(g, k - 1)
  }

  /** The step count: duration over step time, not rounded. */
  function Steps(duration: int, stepTime: int): (r: real)
    requires stepTime != 0
    ensures r * (stepTime as real) == duration as real
    ensures r != 0.0 <==> duration != 0
  {
    (duration as real) / (stepTime as real)
  }

  /**
   * The growth rate fixed when a ramp starts. `pow` stands for Math.pow; it
   * is applied to the exponent 1/steps, which with the step count unrounded
   * is in general not an integer. Both ends of an exponential ramp are
   * clamped at 1, so a ramp whose ends both lie at or below 1 has ratio 1
   * and, as Math.pow(1, e) is 1, growth rate 1.
   */
  function GrowthRate(mode: Mode, steps: real, pow: (real, real) -> real, start: real, target: real): (g: real)
    requires steps != 0.0
    ensures mode == Linear ==> g * steps == target - start
    ensures mode == Exponential && pow(1.0, 1.0 / steps) == 1.0 && start <= 1.0 && target <= 1.0 ==> g == 1.0
  {
    match mode
    case Exponential => pow(Max(target, 1.0) / Max(start, 1.0), 1.0 / steps)
    case Linear => (target - start) / steps
  }

  /** What every ramp started by the input handler satisfies. */
  ghost predicate WellFormed(r: Ramp)
  {
    r.steps != 0.0 && r.start != r.target && r.isUp == (r.start < r.target) &&
    (r.mode == Linear ==> r.growthRate == (r.target - r.start) / r.steps)
  }

  function Begin(mode: Mode, steps: real, pow: (real, real) -> real, start: real, target: real): (r: Ramp)
    requires steps != 0.0 && start != target
    ensures WellFormed(r)
    ensures r.mode == mode && r.steps == steps && r.start == start && r.target == target
    ensures r.isUp <==> start < target
  {
    var g := GrowthRate(mode, steps, pow, start, target);
    Ramp(mode, steps, start, target, start < target, g)
  }

  /**
   * The value the law gives for tick number k, before the termination check:
   * linearly start + k * (target - start) / steps, exponentially
   * max(start, 1) * growthRate^k, which stays positive for a positive rate.
   */
  function Candidate(r: Ramp, k: nat): (v: real)
    ensures WellFormed(r) && r.mode == Linear ==> v == r.start + (k as real) * ((r.target - r.start) / r.steps)
    ensures r.mode == Linear && k == 0 ==> v == r.start
    ensures r.mode == Exponential && k == 0 ==> v == Max(r.start, 1.0)
    ensures r.mode == Exponential && r.growthRate > 0.0 ==> v > 0.0
  {
    match r.mode
    case Exponential => Max(r.start, 1.0) * Power(r.growthRate, k)
    case Linear => r.start + r.growthRate * (k as real)
  }

  /**
   * Tick number k ends the ramp. Every tick number from the bound on does;
   * a tick that does not lies within the step count and strictly on the
   * start's side of the target.
   */
  predicate Done(r: Ramp, k: nat)
    ensures k >= Bound(r) ==> Done(r, k)
    ensures !Done(r, k) ==> (k as real) <= r.steps
    ensures !Done(r, k) && r.isUp ==> Candidate(r, k) < r.target
    ensures !Done(r, k) && !r.isUp ==> Candidate(r, k) > r.target
  {
    (k as real) > r.steps || (r.isUp && Candidate(r, k) >= r.target) || (!r.isUp && Candidate(r, k) <= r.target)
  }

  /** The value emitted by tick number k, after the snap to the target. */
  function Output(r: Ramp, k: nat): (v: real)
    ensures Done(r, k) ==> v == r.target
    ensures !Done(r, k) ==> v == Candidate(r, k)
  {
    if Done(r, k) then r.target else Candidate(r, k)
  }

  /**
   * The live value after k ticks of the ramp: its start before the first
   * tick, the law's candidate while the ramp runs, the target after its last tick.
   */
  function Value(r: Ramp, k: nat): (v: real)
    ensures k == 0 ==> v == r.start
    ensures 0 < k < Length(r) ==> v == Candidate(r, k)
    ensures k == Length(r) ==> v == r.target
  {
    if k == 0 then r.start else Output(r, k)
  }

  /** The last tick number that can be reached: floor(steps) + 1, or 1 when steps is negative. */
  function Bound(r: Ramp): (n: nat)
    ensures n >= 1 && (n as real) > r.steps
    ensures n == 1 || ((n - 1) as real) <= r.steps
  {
    if r.steps < 0.0 then 1 else (r.steps.Floor + 1) as nat
  }

  /** The first tick number from k on that ends the ramp. */
  function FirstDone(r: Ramp, k: nat): (n: nat)
    requires 1 <= k <= Bound(r)
    ensures k <= n <= Bound(r) && Done(r, n)
    ensures forall j :: k <= j < n ==> !Done(r, j)
    decreases Bound(r) - k
  {
    if Done(r, k) then k
    else if k == Bound(r) then k
    else FirstDone(r, k + 1)
  }

  /** The number of ticks the ramp fires. */
  function Length(r: Ramp): (n: nat)
    ensures 1 <= n <= Bound(r)
    ensures Done(r, n) && forall j :: 1 <= j < n ==> !Done(r, j)
  {
    FirstDone(r, 1)
  }

  /** The values the ramp emits, one per tick. */
  function Trace(r: Ramp): (t: seq<real>)
    ensures |t| == Length(r) && forall i :: 0 <= i < |t| ==> t[i] == Value(r, i + 1)
  {
    seq(Length(r), i requires 0 <= i < Length(r) => Value(r, i + 1))
  }

  /** A sequence holding the ramp's values for ticks 1 to Length(r), in order, is its trace. */
  lemma TraceOfValues(r: Ramp, t: seq<real>)
    requires |t| == Length(r) && forall i :: 0 <= i < |t| ==> t[i] == Value(r, i + 1)
    ensures t == Trace(r)
  {
  }

  /**
   * Extending the values of the first k ticks by the output of tick k + 1
   * gives the values of the first k + 1 ticks; after the last tick that is
   * the trace.
   */
  lemma TraceExtend(r: Ramp, k: nat, t: seq<real>, t': seq<real>)
    requires k < Length(r) && |t| == k && forall i :: 0 <= i < k ==> t[i] == Value(r, i + 1)
    requires t' == t + [Output(r, k + 1)]
    ensures forall i :: 0 <= i < k + 1 ==> t'[i] == Value(r, i + 1)
    ensures k + 1 == Length(r) ==> t' == Trace(r)
  {
    if k + 1 == Length(r) {
      TraceOfValues(r, t');
    }
  }

  /** The last emitted value is the target, exactly. */
  lemma TraceEndsAtTarget(r: Ramp)
    ensures |Trace(r)| <= Bound(r)
    ensures Trace(r)[|Trace(r)| - 1] == r.target
  {
  }

  /** A tick number at which the ramp is still running is at most the step count. */
  lemma RunningTickWithinSteps(r: Ramp, k: nat)
    requires 1 <= k < Length(r)
    ensures (k as real) <= r.steps && r.steps > 0.0
  {
  }

  // ---------------------------------------------------------------- linear law

  /** Before the terminating tick, the linear value is start + k * (target - start) / steps. */
  lemma LinearClosedForm(r: Ramp, k: nat)
    requires WellFormed(r) && r.mode == Linear
    requires k < Length(r)
    ensures Value(r, k) == r.start + (k as real) * ((r.target - r.start) / r.steps)
  {
  }

  /** The linear rate has the sign of the direction once the step count is positive. */
  lemma LinearRateSign(r: Ramp)
    requires WellFormed(r) && r.mode == Linear && r.steps > 0.0
    ensures r.isUp ==> r.growthRate > 0.0
    ensures !r.isUp ==> r.growthRate < 0.0
  {
  }

  /** One linear tick moves strictly towards the target and never passes it. */
  lemma LinearStep(r: Ramp, k: nat)
    requires WellFormed(r) && r.mode == Linear
    requires 1 <= k <= Length(r)
    ensures r.isUp ==> Value(r, k - 1) < Value(r, k) <= r.target
    ensures !r.isUp ==> r.target <= Value(r, k) < Value(r, k - 1)
  {
    if k - 1 >= 1 {
      assert !Done(r, k - 1);
    }
    if !Done(r, k) {
      RunningTickWithinSteps(r, k);
      LinearRateSign(r);
      assert Candidate(r, k) == Candidate(r, k - 1) + r.growthRate;
      if k - 1 == 0 {
        assert Candidate(r, 0) == r.start;
      }
    }
  }

  /** The linear emitted sequence is strictly monotone in the ramp's direction and stays within [start, target]. */
  lemma {:induction false} LinearMonotone(r: Ramp, i: nat, j: nat)
    requires WellFormed(r) && r.mode == Linear
    requires i < j <= Length(r)
    ensures r.isUp ==> r.start <= Value(r, i) < Value(r, j) <= r.target
    ensures !r.isUp ==> r.target <= Value(r, j) < Value(r, i) <= r.start
    decreases j
  {
    LinearStep(r, j);
    if i < j - 1 {
      LinearMonotone(r, i, j - 1);
    } else if i > 0 {
      LinearMonotone(r, 0, i);
    }
  }

  // ----------------------------------------------------------- exponential law

  /** Scaling a positive quantity by a factor above 1 grows it; by a factor below 1 shrinks it. */
  lemma ScaleCompare(q: real, g: real, d: real)
    requires q > 0.0 && d == q * g
    ensures g > 1.0 ==> q < d
    ensures g < 1.0 ==> d < q
  {
    assert d - q == q * (g - 1.0);
  }

  /** Each exponential tick multiplies the candidate by the growth rate. */
  lemma ExpCandidateNext(r: Ramp, k: nat)
    requires r.mode == Exponential
    ensures Candidate(r, k + 1) == Candidate(r, k) * r.growthRate
  {
    var b, p := Max(r.start, 1.0), Power(r.growthRate, k);
    assert Candidate(r, k + 1) == b * (r.growthRate * p);
  }

  /** The exponential candidate grows strictly when the growth rate exceeds 1, and shrinks strictly when it lies in (0, 1). */
  lemma ExpCandidateStep(r: Ramp, k: nat)
    requires r.mode == Exponential && r.growthRate > 0.0
    ensures r.growthRate > 1.0 ==> Candidate(r, k) < Candidate(r, k + 1)
    ensures r.growthRate < 1.0 ==> Candidate(r, k + 1) < Candidate(r, k)
  {
    ExpCandidateNext(r, k);
    ScaleCompare(Candidate(r, k), r.growthRate, Candidate(r, k + 1));
  }

  /** An upward exponential tick with a growth rate above 1 moves strictly up and never passes the target. */
  lemma ExpUpStep(r: Ramp, k: nat)
    requires WellFormed(r) && r.mode == Exponential && r.isUp && r.growthRate > 1.0
    requires 1 <= k <= Length(r)
    ensures Value(r, k - 1) < Value(r, k) <= r.target
  {
    if k - 1 >= 1 {
      assert !Done(r, k - 1);
    }
    if !Done(r, k) {
      ExpCandidateStep(r, k - 1);
      if k - 1 == 0 {
        assert Candidate(r, 0) == Max(r.start, 1.0);
      }
    }
  }

  /**
   * A downward exponential tick from a start of at least 1, with a growth
   * rate in (0, 1), moves strictly down and never passes the target.
   */
  lemma ExpDownStep(r: Ramp, k: nat)
    requires WellFormed(r) && r.mode == Exponential && !r.isUp && r.start >= 1.0
    requires 0.0 < r.growthRate < 1.0
    requires 1 <= k <= Length(r)
    ensures r.target <= Value(r, k) < Value(r, k - 1)
  {
    if k - 1 >= 1 {
      assert !Done(r, k - 1);
    }
    if !Done(r, k) {
      ExpCandidateStep(r, k - 1);
      if k - 1 == 0 {
        assert Candidate(r, 0) == r.start;
      }
    }
  }

  /**
   * Tick k + 1 of a ramp that has fired k < Length(r) ticks: it is within the bound,
   * it stops the ramp exactly when it is the last one, it emits the snapped
   * output, and it moves towards the target without passing it whenever the
   * law is monotone.
   */
  lemma TickStep(r: Ramp, k: nat)
    requires WellFormed(r) && k < Length(r)
    ensures k + 1 <= Bound(r) && (Done(r, k + 1) <==> k + 1 == Length(r)) && Value(r, k + 1) == Output(r, k + 1)
    ensures r.mode == Linear && r.isUp ==> Value(r, k) < Value(r, k + 1) <= r.target
    ensures r.mode == Linear && !r.isUp ==> r.target <= Value(r, k + 1) < Value(r, k)
    ensures r.mode == Exponential && r.isUp && r.growthRate > 1.0 ==> Value(r, k) < Value(r, k + 1) <= r.target
    ensures r.mode == Exponential && !r.isUp && r.start >= 1.0 && 0.0 < r.growthRate < 1.0 ==>
      r.target <= Value(r, k + 1) < Value(r, k)
  {
    if r.mode == Linear {
      LinearStep(r, k + 1);
    } else if r.isUp && r.growthRate > 1.0 {
      ExpUpStep(r, k + 1);
    } else if !r.isUp && r.start >= 1.0 && 0.0 < r.growthRate < 1.0 {
      ExpDownStep(r, k + 1);
    }
  }

  /**
   * The exponential emitted sequence is strictly monotone in the ramp's
   * direction and stays within [start, target] when the growth rate lies on
   * the side of 1 that the direction calls for (and, going down, the start is
   * at least 1, so that the floor of 1 does not lift it).
   */
  lemma {:induction false} ExpMonotone(r: Ramp, i: nat, j: nat)
    requires WellFormed(r) && r.mode == Exponential
    requires (r.isUp && r.growthRate > 1.0) || (!r.isUp && r.start >= 1.0 && 0.0 < r.growthRate < 1.0)
    requires i < j <= Length(r)
    ensures r.isUp ==> r.start <= Value(r, i) < Value(r, j) <= r.target
    ensures !r.isUp ==> r.target <= Value(r, j) < Value(r, i) <= r.start
    decreases j
  {
    if r.isUp {
      ExpUpStep(r, j);
    } else {
      ExpDownStep(r, j);
    }
    if i < j - 1 {
      ExpMonotone(r, i, j - 1);
    } else if i > 0 {
      ExpMonotone(r, 0, i);
    }
  }

  /**
   * An upward exponential ramp to a target of at most 1 has growth rate
   * Math.pow(1, 1/steps) = 1, so its first candidate is 1 and it ends on its
   * first tick.
   */
  lemma ExpUpToAtMostOne(r: Ramp)
    requires WellFormed(r) && r.mode == Exponential && r.isUp && r.target <= 1.0
    requires r.growthRate == 1.0
    ensures Length(r) == 1 && Trace(r) == [r.target]
  {
  }

  /**
   * A downward exponential ramp that starts below 1 has growth rate
   * Math.pow(1, 1/steps) = 1: every tick but the last emits 1, which lies
   * above the start, and the ramp runs until the step count is exceeded.
   */
  lemma ExpDownBelowOne(r: Ramp, k: nat)
    requires WellFormed(r) && r.mode == Exponential && !r.isUp && r.start < 1.0
    requires r.growthRate == 1.0
    requires 1 <= k < Length(r)
    ensures Value(r, k) == 1.0 > r.start
  {
    assert !Done(r, k);
  }

  /** Such a ramp fires the full Bound(r) ticks: it stops only when the step count is exceeded. */
  lemma ExpDownBelowOneRunsFull(r: Ramp)
    requires WellFormed(r) && r.mode == Exponential && !r.isUp && r.start < 1.0
    requires r.growthRate == 1.0
    ensures Length(r) == Bound(r)
  {
    var n := Length(r);
    assert Candidate(r, n) == 1.0 > r.target;
    assert (n as real) > r.steps;
  }

  // ------------------------------------------------------------------ scenario

  /**
   * A linear ramp from 0 to 100 with a step count of 10 (a duration of 1000
   * and a step time of 100) emits 10, 20, ..., 100 over exactly ten ticks.
   */
  lemma LinearScenario(pow: (real, real) -> real)
    ensures var r := Begin(Linear, Steps(1000, 100), pow, 0.0, 100.0);
      Length(r) == 10 && forall k :: 1 <= k <= 10 ==> Value(r, k) == 10.0 * (k as real)
  {
    var r := Begin(Linear, Steps(1000, 100), pow, 0.0, 100.0);
    assert r.steps == 10.0 && r.growthRate == 10.0;
    assert forall j :: 1 <= j < 10 ==> !Done(r, j);
    assert Done(r, 10);
  }

  /**
   * The same ramp retargeted to 0 after its third tick: the new ramp starts
   * from the live value 30, its rate is (0 - 30) / 10 = -3, and it emits
   * 27, 24, ..., 0 over ten ticks.
   */
  lemma RetargetScenario(pow: (real, real) -> real)
    ensures var first := Begin(Linear, Steps(1000, 100), pow, 0.0, 100.0);
      var second := Begin(Linear, Steps(1000, 100), pow, Value(first, 3), 0.0);
      second.start == 30.0 && second.growthRate == -3.0 && Length(second) == 10 &&
      forall k :: 1 <= k <= 10 ==> Value(second, k) == 30.0 - 3.0 * (k as real)
  {
    var first := Begin(Linear, Steps(1000, 100), pow, 0.0, 100.0);
    LinearScenario(pow);
    var second := Begin(Linear, Steps(1000, 100), pow, 30.0, 0.0);
    assert second.steps == 10.0 && second.growthRate == -3.0;
    assert forall j :: 1 <= j < 10 ==> !Done(second, j);
    assert Done(second, 10);
  }
}
