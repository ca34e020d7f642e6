# Soft-start ramp controller

A Dafny model of the `softstart` Node-RED node (`nodes/softstart.js`). The node
holds a live output `currentPower`. When a message brings a new target, it
ramps the output from its live value to the target. It takes one step per
timer firing, by a linear or an exponential law, and stops when the step count
`duration / stepTime` is exceeded or the target is reached. The stopping tick
snaps the output to the target exactly. Every tick writes the output to the
node's context store under `'currentPower'` and sends it as the message payload.
On construction the node reads that stored value back.

Numbers are `real`. The model has three modules:

- `Wrappers` (`wrappers.dfy`): `Option`, for a missing payload or an empty store.
- `RampLaw` (`ramp.dfy`): the pure part. A `Ramp` value holds what a ramp fixes
  when it starts (mode, step count, start, target, direction, growth rate).
  The module gives the candidate value of tick k (`Candidate`), the stop test
  (`Done`), the value emitted after the snap (`Output`), the live value after
  k ticks (`Value`, the start for k = 0), the number of ticks the ramp fires
  (`Length`) and the values `Value(r, 1)`, ..., `Value(r, Length(r))` it
  emits (`Trace`). `WellFormed` is what every ramp started by the input
  handler satisfies: a non-zero step count, a start different from the
  target, the direction `start < target`, and in linear mode the rate
  `(target - start) / steps`. The lemmas about the two laws assume it.
- `SoftStartNode` (`softstart.dfy`): the node itself, as the class `SoftStart`.
  The closure variables become fields. The `setInterval` handle becomes the
  flag `active`, and the context store becomes the field `stored`. The host's
  three callbacks become methods: `Input` for a message, `Tick` for one timer
  firing (callable only while `active`), and `Close` for removal. A tick's
  message is the value `Tick` returns, and the ghost field `sent` records the
  payloads of the current ramp in order. `CurrentRamp()` is the `Ramp` the
  fields describe. The valid state `Valid()` says that `pow(1, 1/steps)` is 1
  (Math.pow's value), and that while the timer runs the fields describe a
  well-formed ramp started by `Input`, fewer ticks than `Length` of that ramp
  have fired, `sent` holds the ramp's first `stepCount` values, and
  `currentPower` is its value after `stepCount` ticks. When `Tick` clears the
  timer, `sent` is the ramp's whole `Trace`.

Behaviour the model follows from the code:

- Equality is exact (`===`): a target equal to the live value is ignored. There is no tolerance.
- `currentPower` starts as `stored || startPower`. A stored 0 therefore falls
  back to `startPower`. Restarting a node whose last emitted value was 0
  gives `startPower`, not 0 (`RestartRoundTrip`).
- The step count `duration / stepTime` is not rounded (neither up nor down).
  A ramp fires at most `Bound` ticks: `floor(steps) + 1` when the step count
  is at least 0, and 1 when it is negative. The code does not
  reject a negative duration or step time: with a negative step count the
  first tick already stops the ramp.
- The exponential law clamps both ends at 1. A downward exponential ramp that
  starts below 1 has growth rate `Math.pow(1, 1/steps) = 1`. It emits 1,
  which lies above its start, on every tick but the last, and runs the full
  `Bound` ticks (`ExpDownBelowOne`, `ExpDownBelowOneRunsFull`).
  Monotonicity of the exponential law is therefore proved only when the
  growth rate is on the right side of 1 and, for a downward ramp, the start is
  at least 1.
- The test `newTarget == NaN` never holds, so a non-numeric payload is not
  filtered by the code. The model has no NaN, and it does not claim that such
  payloads are rejected.

## Model

| member | source | states |
|---|---|---|
| `RampLaw.Steps` | nodes/softstart.js:13 | the step count times the step time is the duration (no rounding), and it is non-zero exactly when the duration is |
| `RampLaw.Max` | nodes/softstart.js:25 | the larger of two numbers: at least both, and equal to one of them |
| `RampLaw.Power` | nodes/softstart.js:36 | Math.pow with the integer tick number as exponent: a positive base gives a positive power, and a base of 1 gives 1 |
| `RampLaw.GrowthRate` | nodes/softstart.js:24-26 | in linear mode the rate times the step count spans the distance from start to target; in exponential mode, with both ends at or below 1 (clamped to 1) and Math.pow(1, 1/steps) = 1, the rate is 1 |
| `RampLaw.Begin` | nodes/softstart.js:21-26 | a ramp starts from the given live value towards the target, with direction `start < target`; it is well formed (non-zero steps, start differs from target, linear rate = (target - start) / steps) |
| `RampLaw.Candidate` | nodes/softstart.js:35-39 | the value the law gives for tick k: in linear mode start + k * (target - start) / steps; before the first tick the start (linear) or the start clamped at 1 (exponential); positive in exponential mode with a positive rate |
| `RampLaw.Done` | nodes/softstart.js:42 | the stop test; it holds at every tick number from the bound on, and a tick that fails it is within the step count and has a candidate strictly on the start's side of the target |
| `RampLaw.Output` | nodes/softstart.js:35-45 | a tick that meets the stop test emits the target exactly; any other tick emits the law's candidate value |
| `RampLaw.Value` | nodes/softstart.js:21-45 | the live value after k ticks: the start for k = 0, the law's candidate while the ramp still runs, and the target after the ramp's last tick |
| `RampLaw.Bound` | nodes/softstart.js:42 | the bound is the least positive tick number that exceeds the step count: floor(steps) + 1, or 1 when steps is negative |
| `RampLaw.FirstDone` | nodes/softstart.js:42-45 | the first tick number from k on that stops the ramp: no earlier one from k stops it, and it is at most the bound |
| `RampLaw.Length` | nodes/softstart.js:33-45 | a ramp fires at least 1 and at most `Bound` ticks (floor(steps) + 1 for steps at least 0, otherwise 1); its last tick stops it and no earlier tick does |
| `RampLaw.Trace` | nodes/softstart.js:33-53 | the values Value(r, 1), ..., Value(r, Length(r)): one per tick of the ramp, the value after that tick |
| `RampLaw.TraceOfValues` | nodes/softstart.js:33-53 | any sequence holding the values of ticks 1 to Length(r) in order is the trace |
| `RampLaw.TraceExtend` | nodes/softstart.js:47-52 | appending the output of tick k + 1 to the values of the first k ticks gives the values of the first k + 1 ticks, and after the last tick the whole trace |
| `RampLaw.TraceEndsAtTarget` | nodes/softstart.js:42-45 | the emitted sequence has at most `Bound` values and its last value is exactly the target |
| `RampLaw.RunningTickWithinSteps` | nodes/softstart.js:42 | a tick after which the ramp still runs has a number no larger than the step count, so the step count is positive |
| `RampLaw.LinearClosedForm` | nodes/softstart.js:26-38 | before the stopping tick, the linear value after k ticks is start + k * (target - start) / steps |
| `RampLaw.LinearRateSign` | nodes/softstart.js:26 | with a positive step count the linear rate is positive for an upward ramp and negative for a downward one |
| `RampLaw.LinearStep` | nodes/softstart.js:38-45 | each linear tick moves strictly towards the target and never past it, the stopping tick included |
| `RampLaw.LinearMonotone` | nodes/softstart.js:38-45 | the linear emitted values are strictly increasing (upward) or decreasing (downward) and stay between start and target |
| `RampLaw.ExpCandidateNext` | nodes/softstart.js:36 | each exponential tick multiplies the candidate by the growth rate |
| `RampLaw.ExpCandidateStep` | nodes/softstart.js:36 | the exponential candidate grows strictly when the growth rate exceeds 1 and shrinks strictly when it lies in (0, 1) |
| `RampLaw.ExpUpStep` | nodes/softstart.js:36-45 | an upward exponential tick with growth rate above 1 moves strictly up and never past the target |
| `RampLaw.ExpDownStep` | nodes/softstart.js:36-45 | a downward exponential tick from a start of at least 1, with growth rate in (0, 1), moves strictly down and never past the target |
| `RampLaw.TickStep` | nodes/softstart.js:33-45 | tick k + 1 of a ramp that has fired k < Length ticks is within the bound, stops the ramp exactly when it is the last tick, emits the snapped output, and moves strictly towards the target without passing it whenever the law is monotone |
| `RampLaw.ExpMonotone` | nodes/softstart.js:36-45 | under those growth-rate conditions the exponential emitted values are strictly monotone in the ramp's direction and stay between start and target |
| `RampLaw.ExpUpToAtMostOne` | nodes/softstart.js:24-45 | an upward exponential ramp to a target of at most 1 (growth rate 1) fires a single tick that emits the target |
| `RampLaw.ExpDownBelowOne` | nodes/softstart.js:24-45 | a downward exponential ramp starting below 1 (growth rate 1) emits 1, above its start, on every tick before the last |
| `RampLaw.ExpDownBelowOneRunsFull` | nodes/softstart.js:24-45 | such a ramp runs the full `Bound` ticks |
| `RampLaw.LinearScenario` | nodes/softstart.js:13-45 | a linear ramp 0 to 100 with duration 1000 and step time 100 emits 10, 20, ..., 100 over exactly ten ticks |
| `RampLaw.RetargetScenario` | nodes/softstart.js:21-26 | retargeting that ramp to 0 after three ticks starts from the live value 30 with rate -3 and emits 27, 24, ..., 0 over ten ticks |
| `SoftStartNode.ModeOf` | nodes/softstart.js:10 | the mode is linear exactly when the setting is present, non-empty and not "exponential" |
| `SoftStartNode.InitialPower` | nodes/softstart.js:16 | the initial output is the stored value when it is present and non-zero, and the start power otherwise |
| `SoftStartNode.Gate` | nodes/softstart.js:58-65 | a payload is rejected exactly when it is missing or equals the live output; an accepted payload is the new target unchanged |
| `SoftStartNode.RestartRoundTrip` | nodes/softstart.js:16-48 | a node re-created from the value its last tick stored comes back with that value exactly when it is non-zero or the start power is 0 |
| `SoftStartNode.SoftStart.CurrentRamp` | nodes/softstart.js:21-29 | the ramp the fields describe: its start, target, direction and growth rate are the fields' |
| `SoftStartNode.SoftStart.constructor` | nodes/softstart.js:7-17 | the node starts idle (no timer), with the mode resolved from its setting by `ModeOf`, steps = duration / stepTime, the store as given and the output read from it |
| `SoftStartNode.SoftStart.Input` | nodes/softstart.js:57-69 | a rejected payload changes nothing; an accepted one cancels any running timer and starts one new ramp with start = the live output (not startPower), target = payload, direction `start < target`, the mode's growth rate and step count 0; output and store are untouched |
| `SoftStartNode.SoftStart.AdjustPower` | nodes/softstart.js:20-33 | it captures start, target, direction and growth rate from the live output and sets the timer; an exponential ramp with both ends at or below 1 gets growth rate 1 |
| `SoftStartNode.SoftStart.Tick` | nodes/softstart.js:33-53 | step count up by exactly one and at most `Bound`; ramp data unchanged; the output and the sent payload are the ramp's emitted value; the timer stays set exactly when the stop test fails, and on stopping the output is the target; the store then holds the sent value, which is appended to `sent`; on stopping, `sent` is the ramp's whole `Trace`; a linear tick (and an exponential one under the growth-rate conditions) moves strictly towards the target without passing it |
| `SoftStartNode.SoftStart.Close` | nodes/softstart.js:72-76 | no timer is left set and nothing else changes |

## Left out

- Node-RED plumbing is not modelled: `RED.nodes.createNode`, `registerType`, registration through `this.on`, the `node.error` debug call and `node.status` with its `toFixed(2)` text. They are host calls without logic.
- Real time is not modelled. Each firing of `setInterval` is a call to `Tick` made by the environment, and `stepTime` matters only through the step count. Scheduler races are out of scope.
- Parsing is not modelled: `parseFloat` and `parseInt` on the configuration and the payload, and the `|| default` fallbacks for `startPower`, `duration` and `stepTime`. The configuration is given as a real start power and non-zero integer duration and step time (the fallbacks never yield 0). The payload is an `Option<real>`.
- IEEE-754 behaviour is not modelled: NaN, infinities and rounding. Non-numeric payloads, which the code lets through as NaN, are therefore not modelled.
- `RampLaw.GrowthRate`: Math.pow applied to the exponent 1/steps is the function-valued parameter `pow`, since real powers with a non-integer exponent are not available. The only property assumed about it is that 1 raised to any power is 1 (a requirement of the constructor). Math.pow with the integer tick number is the exact power `Power`.
- `SoftStartNode.SoftStart.Tick`: the exponential monotonicity clauses hold only under the stated growth-rate conditions, since nothing more is known about `pow`.
- The unused constant `maxDiff` is not modelled.
