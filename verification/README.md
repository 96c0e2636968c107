# PID velocity controller — a Dafny model

This project models `VelocityController` from the multi-agent simulator
VMAS. Each simulation tick the controller reads an agent's desired velocity
`u` and current velocity `vel`. It turns the error between them into a force
with a PID law. It keeps two pieces of state between ticks: the integral
accumulator `accum_errs`, clamped against windup, and the previous error
`prev_err`. It then scales the force by the agent's mass, applies the
optional norm limit `max_f` and the optional per-component limit `f_range`,
and writes the force back into the agent's action.

Everything is over Dafny `real`. A tensor is a `seq<real>`: the agent's
velocity or force tensor flattened over its batch entries and spatial axes.
Each element is called a slot. The PID law, the mass scaling and the range
clamp act on each slot independently. The norm clamp `clamp_with_norm` does
not: it rescales each batch entry's spatial vector, and the flat sequence
does not record which slots form one entry. `ClampOrderMatters`, for
example, reads `[3, 4]` as one entry's 2-D force of norm 5. The controller is an immutable record of gains and memories.
The two step functions `integralError` and `rateError`, and `process_force`,
each return the new controller next to the value they compute. `reset`
returns only the new controller.

Modules:

- `Common`: `Option` and `Result`.
- `Clamping`: `torch.clamp` on one element, and the symmetric clamp used for
  the windup bound and `f_range`.
- `VelocityController`: construction in both parameter forms, reset, the two
  step functions, the per-slot reference controller `SlotTick`, the PID law,
  and `process_force`.
- `Ticks`: the host loop, which calls `process_force` once per tick, and the
  properties that hold over many ticks.

Three points where the code's behaviour is easy to misread, and what the
model follows:

- **Parallel form with `kP == 0`.** The docstring at
  `vmas/simulator/velocity_controller.py:9-20` gives the conversion
  `kD/kP = derv_ts` without saying what a zero gain does. The code divides by `kP` unguarded at line 36. With Python numbers as
  parameters, this raises `ZeroDivisionError`, so construction fails. The
  same happens at line 47 when `dt * kP == 0` and the integrator is on. The
  model returns `Err(ZeroDivision)` in both cases.
- **Where the force is written.** The docstring says the controller reads
  its velocity target from `agent.action.u`. The code then writes the force
  into that same field (line 94), overwriting the target, and `ProcessForce`
  does the same.
- **The windup bound.** The inline comment at line 45 calls the cutoff
  "50% of the agent's max force". What the code bounds is the accumulator.
  Once it saturates, its contribution `kP * I` to the control is at most
  `0.5 * fmax / dt`; `IntegralContributionBound` states this. Line 86 then
  multiplies the control by the agent's mass before any force limit, so the
  integrator's share of the force is at most `0.5 * fmax * mass / dt`. This
  is "50% of the max force" only when `mass == dt`.
  `SaturatedIntegratorScalesWithMass` shows a case with `dt = 1` and mass 2
  where a saturated integrator alone produces the whole limit of 2.

## Model

| member | source | states |
|---|---|---|
| `Clamping.ClampSpec` | vmas/simulator/velocity_controller.py:92 | torch.clamp semantics: the result never exceeds `hi`; with `lo <= hi` it lies in `[lo, hi]`, is `x` when `x` is already inside, and is the nearer bound otherwise; when `lo > hi` it is `hi` |
| `Clamping.SymClampSpec` | vmas/simulator/velocity_controller.py:70 | the symmetric clamp to `[-c, c]` assumed for `clamp_tensor`: with `c >= 0` the result lies in the interval, keeps inside values and saturates at the nearer bound; with `c < 0` it is `c` |
| `Clamping.ClampIdempotent` | vmas/simulator/velocity_controller.py:70 | clamping an already clamped value changes nothing |
| `Clamping.ClampAllBounds` | vmas/simulator/velocity_controller.py:91-92 | with a non-negative range every component of the clamped force lies in the range; the clamp leaves a force unchanged iff it is already inside; clamping twice equals clamping once |
| `VelocityController.ConvertParams` | vmas/simulator/velocity_controller.py:27-38 | an empty list fails at index 0; an unknown form selector fails; a list that is too short fails at the first missing index; standard form takes `[kP, Ti, Td]` as given; parallel form gives `Td * kP == kD`, `Ti == 0` iff `kI == 0`, and `Ti * kI == kP` otherwise; parallel form with `kP == 0` fails with a division by zero; success holds exactly when the list has at least 3 elements (only the first three are read) and the form is valid (with `kP != 0` for parallel) |
| `VelocityController.Configure` | vmas/simulator/velocity_controller.py:22-54 | conversion errors propagate; with the integrator on and `dt * kP == 0` it fails with a division by zero; otherwise it yields a controller with the converted gains and `dt`; `use_integrator` holds iff `integralTs != 0`; the cutoff satisfies `cutoff * (dt * kP) == 0.5 * fmax * integralTs`, where `fmax = max_f`, or 2.0 when there is none; the state is fresh (both memories zero) and satisfies the invariant |
| `VelocityController.StandardAsParallel` | vmas/simulator/velocity_controller.py:25-36 | for `kP != 0`, standard `[kP, Ti, Td]` and parallel `[kP, kP/Ti, kP*Td]` (with `kI = 0` for `Ti = 0`) build identical controllers, so every later tick agrees too |
| `VelocityController.ParallelAsStandard` | vmas/simulator/velocity_controller.py:17-36 | for `kP != 0`, parallel `[kP, kI, kD]` and standard `[kP, kP/kI, kD/kP]` (with `Ti = 0` for `kI = 0`) build identical controllers |
| `VelocityController.DefaultsArePureProportional` | vmas/simulator/velocity_controller.py:22-42 | the default parameters `[1, 0, 0]` in standard form always build a controller with unit gain, no integrator and no derivative term, whose control on every tick (with `dt != 0`) is exactly the error, whatever its memories hold |
| `VelocityController.FormsDisagreeAtZeroGain` | vmas/simulator/velocity_controller.py:28-36 | the `kP != 0` premise is needed: with `kP == 0` and no integrator, standard form succeeds while parallel form fails on the division at line 36 |
| `VelocityController.IntegralContributionBound` | vmas/simulator/velocity_controller.py:45-47 | for a constructed controller with `fmax >= 0`, `dt > 0`, `kP > 0` and `Ti > 0`, an accumulator within the cutoff contributes at most `0.5 * fmax / dt` in magnitude to `kP * (e + I + D)` |
| `VelocityController.Reset` | vmas/simulator/velocity_controller.py:56-58 | both memories become zero and the gains, `dt` and cutoff are kept |
| `VelocityController.ResetRestoresConstruction` | vmas/simulator/velocity_controller.py:50-58 | resetting any controller with a constructed controller's gains gives exactly the constructed controller; reset is idempotent and re-establishes the invariant |
| `VelocityController.IntegralSlotSpec` | vmas/simulator/velocity_controller.py:69-71 | for one slot with the integrator on: with a non-negative cutoff the new accumulator lies in `[-cutoff, cutoff]`; it equals `accum + dt*err` when that is inside, and the bound it crossed otherwise; the returned term times `integralTs` is the new accumulator |
| `VelocityController.RateSlotSpec` | vmas/simulator/velocity_controller.py:73-76 | for one slot: the returned term times `dt` is `derivativeTs * (err - prev)`; it is zero when `derivativeTs == 0` or the error did not change; the new previous error is `err` unconditionally |
| `VelocityController.IntegralError` | vmas/simulator/velocity_controller.py:60-71 | with the integrator off it returns zeros and changes nothing; otherwise every slot of the returned term and of the new accumulator is what `IntegralSlot` gives for that slot alone; the previous error and gains are untouched |
| `VelocityController.RateError` | vmas/simulator/velocity_controller.py:73-76 | every slot of the returned term is what `RateSlot` gives for that slot alone; the previous error becomes `err` and nothing else changes, the accumulator included |
| `VelocityController.ControlLaw` | vmas/simulator/velocity_controller.py:84-85 | one tick of the PID law keeps the gains, makes the error the new previous error, leaves a disabled integrator's accumulator as it was and otherwise gives one accumulator slot per error slot, and leaves the controller ready for the next tick |
| `VelocityController.ControlLawIsIntegralThenRate` | vmas/simulator/velocity_controller.py:60-85 | running `integralError` on the whole tensor, then `rateError` on the whole tensor, then `kP * (err + I + D)` gives exactly the same control and controller as the per-slot PID law |
| `Clamping.ClampAllUpper` | vmas/simulator/velocity_controller.py:91-92 | every component of a range-clamped force is at most the range, and at least its negation when the range is non-negative |
| `VelocityController.ControlLawSplit` | vmas/simulator/velocity_controller.py:84-85 | batch entries do not leak: on a controller whose memories concatenate two others', one tick gives the concatenated controls, and the memories stay concatenated |
| `VelocityController.RangeLimit` | vmas/simulator/velocity_controller.py:91-92 | with an `f_range` every slot of the result is at most `f_range`, and at least `-f_range` when the range is non-negative; without one the force passes unchanged |
| `VelocityController.ProcessForce` | vmas/simulator/velocity_controller.py:79-94 | only the agent's action `u` is written; the controller evolves as the PID law on `u - vel`; with `f_range` every component is at most `f_range` and, for a non-negative range, at least `-f_range`; the written force is the control scaled by the mass, then passed to the norm clamp when `max_f` is present, then range-clamped when `f_range` is present (`LimitForce`) |
| `VelocityController.TickKeepsInvariant` | vmas/simulator/velocity_controller.py:60-71 | a tick keeps the invariant: a disabled integrator's accumulator stays zero, and with a non-negative cutoff every accumulator slot stays within it |
| `VelocityController.NormClampUnusedWithoutMaxForce` | vmas/simulator/velocity_controller.py:89-90 | without `max_f` the result does not depend on the norm clamp |
| `VelocityController.ZeroErrorHoldsAccumulator` | vmas/simulator/velocity_controller.py:69-75 | with zero error and the windup bound holding, the accumulator reads the same after the tick (it does not grow), and the previous error becomes zero |
| `VelocityController.ZeroErrorAtRest` | vmas/simulator/velocity_controller.py:79-94 | from rest (both memories zero), with zero error, a non-negative cutoff and limits that map zero to zero, the force is exactly zero and both memories stay zero |
| `VelocityController.SettledSlotTick` | vmas/simulator/velocity_controller.py:69-76 | one slot with zero error, zero previous error and an accumulator within a non-negative cutoff outputs `kP * (accum / integralTs)` (zero with the integrator off) and keeps both memories |
| `VelocityController.SettledTick` | vmas/simulator/velocity_controller.py:84-85 | a controller whose previous error reads zero and whose accumulator is within a non-negative cutoff, fed zero error, outputs exactly the integral residual `SettledControl` of its accumulator and keeps both memories and the invariant |
| `VelocityController.ZeroErrorSettles` | vmas/simulator/velocity_controller.py:79-94 | from any state within a non-negative windup bound, after one zero-error tick the next zero-error tick's force is the mass-scaled, limited integral residual of the starting accumulator, and the accumulator is unchanged |
| `VelocityController.SaturatedIntegratorScalesWithMass` | vmas/simulator/velocity_controller.py:45-47 | with `dt = 1`, standard `[1, 1, 0]`, the default limit 2 and mass 2, the cutoff is 1, and an accumulator at the cutoff with zero error gives force 2: the mass scaling at line 86 lets a saturated integrator reach the whole limit |
| `VelocityController.WorkedExample` | vmas/simulator/velocity_controller.py:79-94 | with `dt = 0.1`, standard `[1, 5, 0]`, mass 1 and no limits, an error of 1 gives force 1.02, accumulator 0.1 and previous error 1 |
| `VelocityController.ClampOrderMatters` | vmas/simulator/velocity_controller.py:89-92 | a control of `(3, 4)` with `max_f = 1` and `f_range = 0.7` gives `(0.6, 0.7)`; clamping the range first would give `(0.7, 0.7)`, so the order matters |
| `Ticks.Run` | vmas/simulator/velocity_controller.py:79-94 | one force per tick; the gains never change; every tick's force respects that tick's `f_range` upper bound |
| `Ticks.RunKeepsInvariant` | vmas/simulator/velocity_controller.py:60-71 | the invariant holds after any number of ticks, so the windup bound never fails |
| `Ticks.ResetAfterRun` | vmas/simulator/velocity_controller.py:50-58 | after any run from a constructed controller, reset gives back that controller, so the next tick is identical to a fresh controller's first tick |
| `Ticks.ZeroErrorRunIsQuiet` | vmas/simulator/velocity_controller.py:79-94 | from rest, with zero error on every tick, every tick's force is exactly zero and the controller stays at rest |
| `Ticks.SettledRunHoldsForce` | vmas/simulator/velocity_controller.py:79-94 | a settled controller that sees only zero error outputs, on every tick, the limited integral residual of its accumulator, which it keeps |
| `Ticks.ZeroErrorRunSettles` | vmas/simulator/velocity_controller.py:79-94 | from any state within a non-negative windup bound, with zero error on every tick, every force after the first is the limited integral residual of the starting accumulator, and the accumulator ends where it started |
| `Ticks.Track` | vmas/simulator/velocity_controller.py:84-85 | the PID law over many ticks yields one control per tick, each the size of the batch, and keeps the gains |
| `Ticks.BatchIndependence` | vmas/simulator/velocity_controller.py:69-76 | a batched controller fed concatenated error histories produces, tick after tick, the concatenation of what the two parts produce on their own |
| `Ticks.LimitForceSplits` | vmas/simulator/velocity_controller.py:86-92 | without `max_f`, mass scaling and the range clamp of a concatenated control give the concatenation of the two parts' forces |
| `Ticks.ProcessForceSplits` | vmas/simulator/velocity_controller.py:79-94 | one `process_force` tick on a batch made of two parts without `max_f` writes the concatenation of the parts' forces and keeps the memories concatenated |
| `Ticks.RunBatchIndependence` | vmas/simulator/velocity_controller.py:79-94 | for agents without `max_f`, a batched controller run on concatenated agents writes, tick after tick, the concatenation of the forces the two parts write on their own |

## Left out

- `clamp_with_norm` is not part of this model. It lives in the simulator's utilities and needs a Euclidean norm. `ProcessForce` takes it as a function parameter, so only its position in the pipeline is modelled. Lemmas that need it to keep a zero force at zero say so in their premises.
- `clamp_tensor` is not part of this model either. `SymClamp` assumes it behaves like `torch.clamp(x, -c, c)`.
- IEEE floating point is not modelled: rounding, NaN and infinities. The step functions therefore require `dt != 0`. In the source, a tensor divided by `0.0` gives infinities or NaN rather than an error. It gives NaN when the numerator is also zero, as at line 74 with `derivativeTs == 0`.
- Construction errors follow Python numbers as parameters. With tensors or numpy values, the divisions at lines 36 and 47 would give infinities instead of raising `ZeroDivisionError`.
- torch broadcasting is not modelled beyond one special case: a zero memory from reset reads as zeros of any size. `ProcessForce` requires `u` and `vel` to have the same size and the memories to match it.
- The agent object is reduced to a record: `u`, `vel`, `mass` (a scalar), `max_f` and `f_range`. World stepping and the physics that consumes the force are outside this model.
- The controller does not keep a reference to the agent. `Configure` receives the agent's `max_f` as it is at construction, and `ProcessForce` receives the agent as it is at that tick.
- When the integrator is off, the source never sets `integrator_windup_cutoff`. The model sets it to `None`.
- The commented-out fixed-length history integrator (lines 63-67) is dead code and is not modelled.
- Ticks.Run: its contract states only the upper `f_range` bound for each tick. The two-sided bound for one tick is in `ProcessForce`.
- Ticks.RunBatchIndependence: covers only agents without `max_f`. The norm clamp acts on each batch entry's spatial vector. The flat sequence does not record which slots form an entry, and the clamp's body is not part of this model, so nothing states that it splits along a concatenation.
