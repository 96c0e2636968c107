/**
  The PID velocity-tracking controller. Each tick it turns the error between
  an agent's desired and current velocity into a force, keeping an integral
  accumulator (clamped against windup) and the previous error as state.

  The controller is an immutable record; the two step functions and the
  per-tick operation return the new controller beside the value they compute.
  A tensor is a `seq<real>`, the agent's tensor flattened over batch entries
  and spatial axes; each element is a slot. The PID law, the mass scaling and
  the range clamp act on each slot; the norm clamp acts on each batch entry's
  spatial vector, a grouping the flat sequence does not record.
*/
module VelocityController {
  import opened Common
  import opened Clamping

  /** Force limit used for the windup cutoff when the agent has no `max_f`. */
  const DefaultForceLimit: real := 2.0

  /** The parameter list used when the caller gives none: a pure P controller. */
  const DefaultParams: seq<real> := [1.0, 0.0, 0.0]

  /** The parameter form used when the caller gives none. */
  const DefaultForm: string := "standard"

  /** Why construction fails; no controller is produced in either case. */
  datatype ConfigError =
    | UnknownForm              // the form selector is neither "standard" nor "parallel"
    | MissingParam(index: nat) // the parameter list has no element at `index`
    | ZeroDivision             // a construction-time division by zero

  /** The constants fixed at construction. */
  datatype Gains = Gains(
    kP: real,
    integralTs: real,
    derivativeTs: real,
    dt: real,
    useIntegrator: bool,
    windupCutoff: Option<real>)  // set only when the integrator is in use

  /**
    An error memory: the scalar `0.0` that construction and reset store, which
    broadcasts against a tensor of any shape, or one value per slot.
  */
  datatype Memory = Zero | Slots(values: seq<real>)

  datatype Controller = Controller(gains: Gains, accumErrs: Memory, prevErr: Memory)

  /** The part of an agent the controller reads and writes. */
  datatype Agent = Agent(
    u: seq<real>,        // desired velocity on entry, the force on exit
    vel: seq<real>,
    mass: real,
    maxF: Option<real>,
    fRange: Option<real>)

  /**
    The simulator's `clamp_with_norm(tensor, max_norm)`. Its body is not part
    of this model, so it is supplied by the caller.
  */
  type NormClamp = (seq<real>, real) -> seq<real>

  /** What construction guarantees about the gains. */
  predicate WellFormed(g: Gains) {
    && (g.useIntegrator <==> g.integralTs != 0.0)
    && (g.windupCutoff.Some? <==> g.useIntegrator)
  }

  function Cutoff(g: Gains): real
    requires g.windupCutoff.Some?
  {
    g.windupCutoff.value
  }

  function ForceLimit(maxF: Option<real>): real {
    match maxF
    case Some(f) => f
    case None => DefaultForceLimit
  }

  /** The anti-windup bound: half the force limit, times `integralTs / (dt * kP)`. */
  function WindupCutoff(fmax: real, integralTs: real, dt: real, kP: real): real
    requires dt * kP != 0.0
  {
    0.5 * fmax * integralTs / (dt * kP)
  }

  /** The state that construction and reset leave behind. */
  predicate Fresh(c: Controller) {
    c.accumErrs == Zero && c.prevErr == Zero
  }

  /** The memory can be read as a tensor of `n` slots. */
  predicate Fits(m: Memory, n: nat) {
    m.Zero? || |m.values| == n
  }

  function Zeros(n: nat): (v: seq<real>)
    ensures |v| == n
    ensures forall i :: 0 <= i < n ==> v[i] == 0.0
  {
    seq(n, _ => 0.0)
  }

  /** The memory broadcast to `n` slots. */
  function Read(m: Memory, n: nat): (v: seq<real>)
    requires Fits(m, n)
    ensures |v| == n
  {
    match m
    case Zero => Zeros(n)
    case Slots(vs) => vs
  }

  /** Component-wise product with a scalar. */
  function Scale(v: seq<real>, k: real): (r: seq<real>)
    ensures |r| == |v|
    ensures forall i :: 0 <= i < |v| ==> r[i] == v[i] * k
  {
    seq(|v|, i requires 0 <= i < |v| => v[i] * k)
  }

  /** Component-wise sum of two tensors of the same shape. */
  function Add(v: seq<real>, w: seq<real>): (r: seq<real>)
    requires |v| == |w|
    ensures |r| == |v|
    ensures forall i :: 0 <= i < |v| ==> r[i] == v[i] + w[i]
  {
    seq(|v|, i requires 0 <= i < |v| => v[i] + w[i])
  }

  /** A controller that can take a tick over tensors of `n` slots. */
  predicate Ready(c: Controller, n: nat) {
    && WellFormed(c.gains)
    && c.gains.dt != 0.0
    && Fits(c.accumErrs, n)
    && Fits(c.prevErr, n)
  }

  /**
    The state invariant: a disabled integrator never leaves the scalar zero,
    and with a non-negative cutoff every accumulator slot lies within it.
  */
  predicate Invariant(c: Controller) {
    && WellFormed(c.gains)
    && (!c.gains.useIntegrator ==> c.accumErrs == Zero)
    && (c.gains.useIntegrator && 0.0 <= Cutoff(c.gains) && c.accumErrs.Slots? ==>
          Within(c.accumErrs.values, Cutoff(c.gains)))
  }

  // ---------------------------------------------------------------------------
  // Construction
  // ---------------------------------------------------------------------------

  /**
    Reads `[kP, integralTs, derivativeTs]` from the parameter list in the
    chosen form. Standard form takes them as given; parallel form takes
    `[kP, kI, kD]` and converts with `integralTs = kP / kI` (or 0 when
    `kI == 0`) and `derivativeTs = kD / kP`. Elements are read in the
    source's order, so a short list fails at the first missing index.
  */
  function ConvertParams(params: seq<real>, form: string): (r: Result<(real, real, real), ConfigError>)
    ensures |params| == 0 ==> r == Err(MissingParam(0))
    ensures 1 <= |params| && form != "standard" && form != "parallel" ==> r == Err(UnknownForm)
    ensures (form == "standard" || form == "parallel") && 1 <= |params| < 3 ==>
              r == Err(MissingParam(|params|))
    ensures form == "parallel" && 3 <= |params| && params[0] == 0.0 ==> r == Err(ZeroDivision)
    ensures r.Ok? <==> 3 <= |params| && (form == "standard" || (form == "parallel" && params[0] != 0.0))
    ensures r.Ok? ==> r.value.0 == params[0]
    ensures r.Ok? && form == "standard" ==> r.value.1 == params[1] && r.value.2 == params[2]
    ensures r.Ok? && form == "parallel" ==>
              && r.value.2 * params[0] == params[2]
              && (r.value.1 == 0.0 <==> params[1] == 0.0)
              && (params[1] != 0.0 ==> r.value.1 * params[1] == params[0])
  {
    if |params| == 0 then Err(MissingParam(0))
    else
      var kP := params[0];
      if form == "standard" then
        if |params| < 2 then Err(MissingParam(1))
        else if |params| < 3 then Err(MissingParam(2))
        else Ok((kP, params[1], params[2]))
      else if form == "parallel" then
        if |params| < 2 then Err(MissingParam(1))
        else
          var integralTs := if params[1] == 0.0 then 0.0 else kP / params[1];
          if |params| < 3 then Err(MissingParam(2))
          else if kP == 0.0 then Err(ZeroDivision)
          else Ok((kP, integralTs, params[2] / kP))
      else Err(UnknownForm)
  }

  /**
    Builds a controller for an agent whose force limit at construction is
    `maxF`: converts the parameters, enables the integrator exactly when
    `integralTs != 0`, sets the windup cutoff and starts from the fresh state.
  */
  function Configure(maxF: Option<real>, dt: real, params: seq<real>, form: string): (r: Result<Controller, ConfigError>)
    ensures ConvertParams(params, form).Err? ==> r == Err(ConvertParams(params, form).error)
    ensures r.Ok? <==>
              && ConvertParams(params, form).Ok?
              && (ConvertParams(params, form).value.1 == 0.0 || dt * params[0] != 0.0)
    ensures (&& ConvertParams(params, form).Ok?
             && ConvertParams(params, form).value.1 != 0.0
             && dt * params[0] == 0.0) ==> r == Err(ZeroDivision)
    ensures r.Ok? ==>
              && r.value.gains.kP == params[0]
              && r.value.gains.integralTs == ConvertParams(params, form).value.1
              && r.value.gains.derivativeTs == ConvertParams(params, form).value.2
              && r.value.gains.dt == dt
    ensures r.Ok? ==> Fresh(r.value) && Invariant(r.value)
    ensures r.Ok? ==> (r.value.gains.useIntegrator <==> r.value.gains.integralTs != 0.0)
    ensures r.Ok? && r.value.gains.useIntegrator ==>
              Cutoff(r.value.gains) * (dt * params[0]) == 0.5 * ForceLimit(maxF) * r.value.gains.integralTs
  {
    match ConvertParams(params, form)
    case Err(e) => Err(e)
    case Ok(consts) =>
      var (kP, integralTs, derivativeTs) := consts;
      if integralTs == 0.0 then
        Ok(Controller(Gains(kP, integralTs, derivativeTs, dt, false, None), Zero, Zero))
      else if dt * kP == 0.0 then
        Err(ZeroDivision)
      else
        Ok(Controller(Gains(kP, integralTs, derivativeTs, dt, true, Some(WindupCutoff(ForceLimit(maxF), integralTs, dt, kP))), Zero, Zero))
  }

  /** Inverting a quotient twice gives back the divisor. */
  lemma QuotientInverse(a: real, b: real)
    requires a != 0.0 && b != 0.0
    ensures a / b != 0.0 && a / (a / b) == b
  {
    var q := a / b;
    assert q * b == a;
    assert q != 0.0;
    assert a / q == b by {
      assert b * q == a;
    }
  }

  /** Two parameter lists convert to the same constants, so they configure the same controller. */
  lemma SameConstantsSameController(maxF: Option<real>, dt: real, p1: seq<real>, f1: string, p2: seq<real>, f2: string)
    requires ConvertParams(p1, f1) == ConvertParams(p2, f2)
    ensures Configure(maxF, dt, p1, f1) == Configure(maxF, dt, p2, f2)
  {
  }

  /**
    Standard form `[kP, Ti, Td]` and parallel form `[kP, kP/Ti, kP*Td]`
    (with `kI = 0` standing for `Ti = 0`) build the same controller.
  */
  lemma StandardAsParallel(maxF: Option<real>, dt: real, kP: real, ti: real, td: real)
    requires kP != 0.0
    ensures Configure(maxF, dt, [kP, ti, td], "standard")
         == Configure(maxF, dt, [kP, if ti == 0.0 then 0.0 else kP / ti, kP * td], "parallel")
  {
    var kI := if ti == 0.0 then 0.0 else kP / ti;
    if ti != 0.0 {
      QuotientInverse(kP, ti);
    }
    assert kP * td / kP == td;
    assert ConvertParams([kP, kI, kP * td], "parallel") == Ok((kP, ti, td));
    SameConstantsSameController(maxF, dt, [kP, ti, td], "standard", [kP, kI, kP * td], "parallel");
  }

  /**
    Conversely, parallel form `[kP, kI, kD]` builds the same controller as
    standard form `[kP, kP/kI, kD/kP]` (with `Ti = 0` standing for `kI = 0`).
  */
  lemma ParallelAsStandard(maxF: Option<real>, dt: real, kP: real, kI: real, kD: real)
    requires kP != 0.0
    ensures Configure(maxF, dt, [kP, kI, kD], "parallel")
         == Configure(maxF, dt, [kP, if kI == 0.0 then 0.0 else kP / kI, kD / kP], "standard")
  {
    var ti := if kI == 0.0 then 0.0 else kP / kI;
    assert ConvertParams([kP, kI, kD], "parallel") == Ok((kP, ti, kD / kP));
    SameConstantsSameController(maxF, dt, [kP, kI, kD], "parallel", [kP, ti, kD / kP], "standard");
  }

  /**
    Without the `kP != 0` premise the forms differ: standard form accepts a
    zero gain with the integrator off, while parallel form divides by it.
  */
  lemma FormsDisagreeAtZeroGain(maxF: Option<real>, dt: real, td: real)
    ensures Configure(maxF, dt, [0.0, 0.0, td], "standard").Ok?
    ensures Configure(maxF, dt, [0.0, 0.0, 0.0 * td], "parallel") == Err(ZeroDivision)
  {
  }

  /**
    The default parameters build, for any `dt` and force limit, a controller
    with unit gain and both the integrator and the derivative term off; with
    `dt != 0` its control on every tick is exactly the error, whatever the
    memories hold.
  */
  lemma DefaultsArePureProportional(maxF: Option<real>, dt: real, c: Controller, err: seq<real>)
    requires c.gains == Configure(maxF, dt, DefaultParams, DefaultForm).value.gains
    requires dt != 0.0 && Fits(c.accumErrs, |err|) && Fits(c.prevErr, |err|)
    ensures Configure(maxF, dt, DefaultParams, DefaultForm).Ok?
    ensures var g := Configure(maxF, dt, DefaultParams, DefaultForm).value.gains;
            && g.kP == 1.0 && g.derivativeTs == 0.0 && !g.useIntegrator && g.dt == dt
    ensures ControlLaw(c, err).0 == err
  {
    var r := ControlLaw(c, err);
    forall i | 0 <= i < |err|
      ensures r.0[i] == err[i]
    {
      ControlLawPerSlot(c, err, i);
    }
  }

  /**
    With a non-negative force limit, positive gain, positive timestep and
    positive integral time, a saturated accumulator contributes at most
    `0.5 * fmax / dt` to the control, before mass scaling.
  */
  lemma IntegralContributionBound(maxF: Option<real>, dt: real, params: seq<real>, form: string, accum: real)
    requires Configure(maxF, dt, params, form).Ok?
    requires 0.0 <= ForceLimit(maxF) && 0.0 < dt
    requires 0.0 < Configure(maxF, dt, params, form).value.gains.kP
    requires 0.0 < Configure(maxF, dt, params, form).value.gains.integralTs
    requires -Cutoff(Configure(maxF, dt, params, form).value.gains) <= accum
    requires accum <= Cutoff(Configure(maxF, dt, params, form).value.gains)
    ensures var g := Configure(maxF, dt, params, form).value.gains;
            -0.5 * ForceLimit(maxF) / dt <= g.kP * (accum / g.integralTs) <= 0.5 * ForceLimit(maxF) / dt
  {
    var g := Configure(maxF, dt, params, form).value.gains;
    SaturatedTermBound(g.kP, g.integralTs, dt, ForceLimit(maxF), Cutoff(g), accum);
  }

  /** The arithmetic behind `IntegralContributionBound`. */
  lemma SaturatedTermBound(kP: real, ti: real, dt: real, f: real, cut: real, a: real)
    requires 0.0 < kP && 0.0 < ti && 0.0 < dt
    requires cut * (dt * kP) == 0.5 * f * ti
    requires -cut <= a <= cut
    ensures -0.5 * f / dt <= kP * (a / ti) <= 0.5 * f / dt
  {
    var k := kP / ti;
    assert 0.0 < k;
    assert kP * (a / ti) == k * a;
    assert k * cut == 0.5 * f / dt by {
      assert k * ti == kP;
      assert (k * cut) * dt * ti == cut * (dt * kP);
      assert (k * cut) * dt == 0.5 * f;
    }
    assert k * a <= k * cut by {
      assert k * (cut - a) >= 0.0;
    }
    assert -(k * cut) <= k * a by {
      assert k * (a + cut) >= 0.0;
    }
  }

  // ---------------------------------------------------------------------------
  // Reset and the two step functions
  // ---------------------------------------------------------------------------

  /** Clears both error memories and keeps the gains. */
  function Reset(c: Controller): (r: Controller)
    ensures Fresh(r) && r.gains == c.gains
  {
    Controller(c.gains, Zero, Zero)
  }

  /**
    Reset puts any controller back to the one construction produced with the
    same gains; in particular it is idempotent and keeps the invariant.
  */
  lemma ResetRestoresConstruction(maxF: Option<real>, dt: real, params: seq<real>, form: string, c: Controller)
    requires Configure(maxF, dt, params, form).Ok?
    requires c.gains == Configure(maxF, dt, params, form).value.gains
    ensures Reset(c) == Configure(maxF, dt, params, form).value
    ensures Reset(Reset(c)) == Reset(c)
    ensures Invariant(Reset(c))
  {
  }

  /**
    One slot of the integral step: add `dt * err`, clamp the accumulator to
    the windup cutoff, and return the accumulator over `integralTs` beside it.
  */
  function IntegralSlot(g: Gains, accum: real, err: real): (real, real)
    requires WellFormed(g) && g.useIntegrator
  {
    var a := SymClamp(accum + g.dt * err, Cutoff(g));
    ((1.0 / g.integralTs) * a, a)
  }

  /**
    The integral step on one slot keeps the accumulator within a non-negative
    cutoff, leaves it unclamped when it stays inside, pins it to the bound it
    crossed otherwise, and returns it divided by `integralTs`.
  */
  lemma IntegralSlotSpec(g: Gains, accum: real, err: real)
    requires WellFormed(g) && g.useIntegrator
    ensures var r := IntegralSlot(g, accum, err);
            && (0.0 <= Cutoff(g) ==> -Cutoff(g) <= r.1 <= Cutoff(g))
            && r.0 * g.integralTs == r.1
            && (-Cutoff(g) <= accum + g.dt * err <= Cutoff(g) ==> r.1 == accum + g.dt * err)
            && (0.0 <= Cutoff(g) < accum + g.dt * err ==> r.1 == Cutoff(g))
            && (0.0 <= Cutoff(g) && accum + g.dt * err < -Cutoff(g) ==> r.1 == -Cutoff(g))
  {
    SymClampSpec(accum + g.dt * err, Cutoff(g));
  }

  /**
    One slot of the derivative step: the finite difference scaled by
    `derivativeTs`, beside the new previous error, which is always `err`.
  */
  function RateSlot(g: Gains, prev: real, err: real): (real, real)
    requires g.dt != 0.0
  {
    (g.derivativeTs * (err - prev) / g.dt, err)
  }

  /**
    The derivative step on one slot returns the finite difference over `dt`
    scaled by `derivativeTs` (zero when that constant is zero or the error did
    not change) and always remembers `err`.
  */
  lemma RateSlotSpec(g: Gains, prev: real, err: real)
    requires g.dt != 0.0
    ensures var r := RateSlot(g, prev, err);
            && r.1 == err
            && r.0 * g.dt == g.derivativeTs * (err - prev)
            && (g.derivativeTs == 0.0 || err == prev ==> r.0 == 0.0)
  {
  }

  /**
    The integral step over a tensor. A disabled integrator returns zeros and
    leaves the controller untouched; otherwise every slot evolves as
    `IntegralSlot` on that slot alone.
  */
  function IntegralError(c: Controller, err: seq<real>): (r: (seq<real>, Controller))
    requires WellFormed(c.gains) && Fits(c.accumErrs, |err|)
    ensures |r.0| == |err|
    ensures r.1.gains == c.gains && r.1.prevErr == c.prevErr
    ensures !c.gains.useIntegrator ==> r.0 == Zeros(|err|) && r.1 == c
    ensures c.gains.useIntegrator ==> r.1.accumErrs.Slots? && |r.1.accumErrs.values| == |err|
    ensures c.gains.useIntegrator ==> forall i :: 0 <= i < |err| ==>
              && r.0[i] == IntegralSlot(c.gains, Read(c.accumErrs, |err|)[i], err[i]).0
              && r.1.accumErrs.values[i] == IntegralSlot(c.gains, Read(c.accumErrs, |err|)[i], err[i]).1
  {
    if !c.gains.useIntegrator then (Zeros(|err|), c)
    else
      var accum := ClampAll(Add(Read(c.accumErrs, |err|), Scale(err, c.gains.dt)), Cutoff(c.gains));
      var term := Scale(accum, 1.0 / c.gains.integralTs);
      (term, c.(accumErrs := Slots(accum)))
  }

  /**
    The derivative step over a tensor: every slot evolves as `RateSlot`, the
    previous error becomes `err` unconditionally, and the accumulator is
    untouched.
  */
  function RateError(c: Controller, err: seq<real>): (r: (seq<real>, Controller))
    requires c.gains.dt != 0.0 && Fits(c.prevErr, |err|)
    ensures |r.0| == |err|
    ensures r.1 == c.(prevErr := Slots(err))
    ensures forall i :: 0 <= i < |err| ==> r.0[i] == RateSlot(c.gains, Read(c.prevErr, |err|)[i], err[i]).0
  {
    var before := Read(c.prevErr, |err|);
    var term := seq(|err|, i requires 0 <= i < |err| => c.gains.derivativeTs * (err[i] - before[i]) / c.gains.dt);
    (term, c.(prevErr := Slots(err)))
  }

  // ---------------------------------------------------------------------------
  // One tick
  // ---------------------------------------------------------------------------

  /**
    A single-slot controller taking one tick with accumulator `accum`,
    previous error `prev` and error `err`: returns the control
    `kP * (err + I + D)`, the new accumulator and the new previous error.
  */
  function SlotTick(g: Gains, accum: real, prev: real, err: real): (real, real, real)
    requires WellFormed(g) && g.dt != 0.0
  {
    var (i, accum') := if g.useIntegrator then IntegralSlot(g, accum, err) else (0.0, accum);
    var (d, prev') := RateSlot(g, prev, err);
    (Pid(g.kP, err, i, d), accum', prev')
  }

  /** The PID combination `kP * (e + I + D)`. */
  function Pid(kP: real, e: real, i: real, d: real): real {
    kP * (e + i + d)
  }

  /** The velocity error `u - vel`, component by component. */
  function Error(agent: Agent): (e: seq<real>)
    requires |agent.u| == |agent.vel|
    ensures |e| == |agent.u|
  {
    seq(|agent.u|, i requires 0 <= i < |agent.u| => agent.u[i] - agent.vel[i])
  }

  /**
    The PID law over a tensor, `kP * (err + I + D)`: every slot runs as an
    independent single-slot controller (`SlotTick`) on its own memories.
    `ControlLawIsIntegralThenRate` shows this is the tensor-wide integral
    step followed by the tensor-wide derivative step.
  */
  function ControlLaw(c: Controller, err: seq<real>): (r: (seq<real>, Controller))
    requires Ready(c, |err|)
    ensures |r.0| == |err|
    ensures Ready(r.1, |err|)
    ensures r.1.gains == c.gains
    ensures r.1.prevErr == Slots(err)
    ensures !c.gains.useIntegrator ==> r.1.accumErrs == c.accumErrs
    ensures c.gains.useIntegrator ==> r.1.accumErrs.Slots? && |r.1.accumErrs.values| == |err|
  {
    var n := |err|;
    var accum := Read(c.accumErrs, n);
    var prev := Read(c.prevErr, n);
    var ticks := seq(n, i requires 0 <= i < n => SlotTick(c.gains, accum[i], prev[i], err[i]));
    var u := seq(n, i requires 0 <= i < n => ticks[i].0);
    var accum' := if c.gains.useIntegrator then Slots(seq(n, i requires 0 <= i < n => ticks[i].1)) else c.accumErrs;
    (u, Controller(c.gains, accum', Slots(err)))
  }

  /**
    Every slot of the PID law behaves as an independent single-slot
    controller: its control and its new accumulator are what `SlotTick`
    computes from that slot's memories and error alone.
  */
  lemma ControlLawPerSlot(c: Controller, err: seq<real>, i: nat)
    requires Ready(c, |err|) && i < |err|
    ensures var r := ControlLaw(c, err);
            var t := SlotTick(c.gains, Read(c.accumErrs, |err|)[i], Read(c.prevErr, |err|)[i], err[i]);
            && r.0[i] == t.0
            && Read(r.1.accumErrs, |err|)[i] == t.1
  {
  }

  /**
    The source's order of evaluation: `integralError` on the whole tensor,
    then `rateError` on the whole tensor, then `kP * (err + I + D)`, gives
    exactly the per-slot PID law, both the control and the new controller.
  */
  lemma ControlLawIsIntegralThenRate(c: Controller, err: seq<real>)
    requires Ready(c, |err|)
    ensures var (iTerm, c1) := IntegralError(c, err);
            var (dTerm, c2) := RateError(c1, err);
            && ControlLaw(c, err).1 == c2
            && |ControlLaw(c, err).0| == |err|
            && forall i :: 0 <= i < |err| ==>
                 ControlLaw(c, err).0[i] == Pid(c.gains.kP, err[i], iTerm[i], dTerm[i])
  {
    var n := |err|;
    var (iTerm, c1) := IntegralError(c, err);
    var (dTerm, c2) := RateError(c1, err);
    var r := ControlLaw(c, err);
    forall i | 0 <= i < n
      ensures r.0[i] == Pid(c.gains.kP, err[i], iTerm[i], dTerm[i])
      ensures Read(r.1.accumErrs, n)[i] == Read(c2.accumErrs, n)[i]
    {
      ControlLawPerSlot(c, err, i);
    }
    if c.gains.useIntegrator {
      assert r.1.accumErrs.values == c2.accumErrs.values;
    }
  }

  /**
    Slots do not leak into each other: if a controller's memories are
    the concatenation of two smaller controllers' memories, one tick of the
    PID law on the concatenated error gives the concatenated controls, and the
    memories stay concatenated.
  */
  lemma ControlLawSplit(whole: Controller, left: Controller, right: Controller, e1: seq<real>, e2: seq<real>)
    requires Ready(left, |e1|) && Ready(right, |e2|) && Ready(whole, |e1| + |e2|)
    requires left.gains == whole.gains && right.gains == whole.gains
    requires Read(whole.accumErrs, |e1| + |e2|) == Read(left.accumErrs, |e1|) + Read(right.accumErrs, |e2|)
    requires Read(whole.prevErr, |e1| + |e2|) == Read(left.prevErr, |e1|) + Read(right.prevErr, |e2|)
    ensures var w := ControlLaw(whole, e1 + e2);
            var l := ControlLaw(left, e1);
            var r := ControlLaw(right, e2);
            && w.0 == l.0 + r.0
            && Read(w.1.accumErrs, |e1| + |e2|) == Read(l.1.accumErrs, |e1|) + Read(r.1.accumErrs, |e2|)
            && Read(w.1.prevErr, |e1| + |e2|) == Read(l.1.prevErr, |e1|) + Read(r.1.prevErr, |e2|)
  {
    var n1, n2 := |e1|, |e2|;
    var e := e1 + e2;
    var w := ControlLaw(whole, e);
    var l := ControlLaw(left, e1);
    var r := ControlLaw(right, e2);
    var wa, la, ra := Read(whole.accumErrs, n1 + n2), Read(left.accumErrs, n1), Read(right.accumErrs, n2);
    var wp, lp, rp := Read(whole.prevErr, n1 + n2), Read(left.prevErr, n1), Read(right.prevErr, n2);
    forall i | 0 <= i < n1 + n2
      ensures w.0[i] == (l.0 + r.0)[i]
      ensures Read(w.1.accumErrs, n1 + n2)[i] == (Read(l.1.accumErrs, n1) + Read(r.1.accumErrs, n2))[i]
    {
      ControlLawPerSlot(whole, e, i);
      if i < n1 {
        assert wa[i] == la[i] && wp[i] == lp[i] && e[i] == e1[i];
        ControlLawPerSlot(left, e1, i);
      } else {
        var j := i - n1;
        assert wa[i] == ra[j] && wp[i] == rp[j] && e[i] == e2[j];
        ControlLawPerSlot(right, e2, j);
      }
    }
  }

  /** The norm clamp, applied only when the agent has a `max_f`. */
  function NormLimit(f: seq<real>, maxF: Option<real>, normClamp: NormClamp): seq<real> {
    match maxF
    case Some(m) => normClamp(f, m)
    case None => f
  }

  /**
    The per-component range clamp, applied only when the agent has an
    `f_range`: every component ends at most `f_range`, and at least its
    negation when the range is non-negative.
  */
  function RangeLimit(f: seq<real>, fRange: Option<real>): (r: seq<real>)
    ensures fRange.Some? ==> forall i :: 0 <= i < |r| ==>
              && r[i] <= fRange.value
              && (0.0 <= fRange.value ==> -fRange.value <= r[i])
  {
    match fRange
    case Some(c) => ClampAllUpper(f, c); ClampAll(f, c)
    case None => f
  }

  /** The force limits of `process_force` applied to a control tensor: mass scaling, norm clamp, range clamp. */
  function LimitForce(control: seq<real>, agent: Agent, normClamp: NormClamp): seq<real> {
    RangeLimit(NormLimit(Scale(control, agent.mass), agent.maxF, normClamp), agent.fRange)
  }

  /**
    `process_force`: error, PID law, mass scaling, norm clamp, range clamp,
    and the force written back into the agent's action. The range clamp comes
    after the norm clamp, so with an `f_range` every component obeys it; the
    agent's other fields are untouched.
  */
  function ProcessForce(c: Controller, agent: Agent, normClamp: NormClamp): (r: (Controller, Agent))
    requires |agent.u| == |agent.vel| && Ready(c, |agent.u|)
    ensures r.1 == agent.(u := r.1.u)
    ensures r.0 == ControlLaw(c, Error(agent)).1
    ensures Ready(r.0, |agent.u|)
    ensures agent.fRange.Some? ==> forall i :: 0 <= i < |r.1.u| ==>
              && r.1.u[i] <= agent.fRange.value
              && (0.0 <= agent.fRange.value ==> -agent.fRange.value <= r.1.u[i])
    ensures r.1.u == LimitForce(ControlLaw(c, Error(agent)).0, agent, normClamp)
  {
    var (control, c') := ControlLaw(c, Error(agent));
    (c', agent.(u := LimitForce(control, agent, normClamp)))
  }

  /** A tick keeps the state invariant, in particular the windup bound. */
  lemma TickKeepsInvariant(c: Controller, agent: Agent, normClamp: NormClamp)
    requires |agent.u| == |agent.vel| && Ready(c, |agent.u|) && Invariant(c)
    ensures Invariant(ProcessForce(c, agent, normClamp).0)
  {
    var n := |agent.u|;
    var c' := ProcessForce(c, agent, normClamp).0;
    if c.gains.useIntegrator && 0.0 <= Cutoff(c.gains) {
      forall i | 0 <= i < n
        ensures -Cutoff(c.gains) <= c'.accumErrs.values[i] <= Cutoff(c.gains)
      {
        IntegralSlotSpec(c.gains, Read(c.accumErrs, n)[i], Error(agent)[i]);
        assert Read(c'.accumErrs, n)[i] == c'.accumErrs.values[i];
      }
    }
  }

  /** With `max_f` absent the norm clamp is never consulted. */
  lemma NormClampUnusedWithoutMaxForce(c: Controller, agent: Agent, nc1: NormClamp, nc2: NormClamp)
    requires |agent.u| == |agent.vel| && Ready(c, |agent.u|)
    requires agent.maxF.None?
    ensures ProcessForce(c, agent, nc1) == ProcessForce(c, agent, nc2)
  {
  }

  /**
    Zero error keeps the accumulator where it is (it does not grow) as long
    as the windup bound holds, and records zero as the previous error.
  */
  lemma ZeroErrorHoldsAccumulator(c: Controller, agent: Agent, normClamp: NormClamp)
    requires |agent.u| == |agent.vel| && Ready(c, |agent.u|) && Invariant(c)
    requires agent.u == agent.vel
    requires c.gains.useIntegrator ==> 0.0 <= Cutoff(c.gains)
    ensures var c' := ProcessForce(c, agent, normClamp).0;
            && Read(c'.accumErrs, |agent.u|) == Read(c.accumErrs, |agent.u|)
            && c'.prevErr == Slots(Zeros(|agent.u|))
  {
    var n := |agent.u|;
    var err := Error(agent);
    assert err == Zeros(n);
    var c' := ProcessForce(c, agent, normClamp).0;
    forall i | 0 <= i < n
      ensures Read(c'.accumErrs, n)[i] == Read(c.accumErrs, n)[i]
    {
      if c.gains.useIntegrator {
        var a := Read(c.accumErrs, n)[i];
        if c.accumErrs.Slots? {
          assert a == c.accumErrs.values[i];
        }
        assert a + c.gains.dt * err[i] == a;
        IntegralSlotSpec(c.gains, a, err[i]);
      }
    }
  }

  /**
    From rest (both memories reading zero) with zero error and limits that
    map zero to zero, the force is exactly zero and the controller stays at rest.
  */
  lemma ZeroErrorAtRest(c: Controller, agent: Agent, normClamp: NormClamp)
    requires |agent.u| == |agent.vel| && Ready(c, |agent.u|)
    requires Read(c.accumErrs, |agent.u|) == Zeros(|agent.u|)
    requires Read(c.prevErr, |agent.u|) == Zeros(|agent.u|)
    requires agent.u == agent.vel
    requires c.gains.useIntegrator ==> 0.0 <= Cutoff(c.gains)
    requires agent.fRange.Some? ==> 0.0 <= agent.fRange.value
    requires agent.maxF.Some? ==> normClamp(Zeros(|agent.u|), agent.maxF.value) == Zeros(|agent.u|)
    ensures ProcessForce(c, agent, normClamp).1.u == Zeros(|agent.u|)
    ensures Read(ProcessForce(c, agent, normClamp).0.accumErrs, |agent.u|) == Zeros(|agent.u|)
    ensures Read(ProcessForce(c, agent, normClamp).0.prevErr, |agent.u|) == Zeros(|agent.u|)
  {
    var n := |agent.u|;
    var err := Error(agent);
    assert err == Zeros(n);
    var (control, c') := ControlLaw(c, err);
    forall i | 0 <= i < n
      ensures control[i] == 0.0 && Read(c'.accumErrs, n)[i] == 0.0
    {
      assert Read(c.accumErrs, n)[i] == 0.0 && Read(c.prevErr, n)[i] == 0.0;
      if c.gains.useIntegrator {
        IntegralSlotSpec(c.gains, 0.0, err[i]);
      }
    }
    assert control == Zeros(n);
    assert Scale(control, agent.mass) == Zeros(n);
    assert RangeLimit(Zeros(n), agent.fRange) == Zeros(n);
  }

  /**
    The control a settled controller keeps producing under zero error: the
    integral term `kP * (accum / integralTs)` per slot, or zero with the
    integrator off.
  */
  function SettledControl(g: Gains, accum: seq<real>): (r: seq<real>)
    requires WellFormed(g)
    ensures |r| == |accum|
  {
    if g.useIntegrator then seq(|accum|, i requires 0 <= i < |accum| => g.kP * (accum[i] / g.integralTs))
    else Zeros(|accum|)
  }

  /**
    One slot with zero error, zero previous error and an accumulator within a
    non-negative cutoff: the proportional and derivative terms vanish, the
    control is the integral term alone, and both memories stay as they are.
  */
  lemma SettledSlotTick(g: Gains, a: real)
    requires WellFormed(g) && g.dt != 0.0
    requires g.useIntegrator ==> 0.0 <= Cutoff(g) && -Cutoff(g) <= a <= Cutoff(g)
    ensures var t := SlotTick(g, a, 0.0, 0.0);
            && t.0 == (if g.useIntegrator then g.kP * (a / g.integralTs) else 0.0)
            && (g.useIntegrator ==> t.1 == a)
            && t.2 == 0.0
  {
    RateSlotSpec(g, 0.0, 0.0);
    if g.useIntegrator {
      IntegralSlotSpec(g, a, 0.0);
      var i := IntegralSlot(g, a, 0.0).0;
      assert i * g.integralTs == a;
      assert i == a / g.integralTs;
    }
  }

  /**
    A settled controller (previous error zero, accumulator within a
    non-negative cutoff) fed zero error outputs `SettledControl` and stays
    settled with the same accumulator.
  */
  lemma SettledTick(c: Controller, n: nat)
    requires Ready(c, n) && Invariant(c) && Read(c.prevErr, n) == Zeros(n)
    requires c.gains.useIntegrator ==> 0.0 <= Cutoff(c.gains)
    ensures var r := ControlLaw(c, Zeros(n));
            && r.0 == SettledControl(c.gains, Read(c.accumErrs, n))
            && Read(r.1.accumErrs, n) == Read(c.accumErrs, n)
            && Read(r.1.prevErr, n) == Zeros(n)
            && Invariant(r.1)
  {
    var r := ControlLaw(c, Zeros(n));
    var accum := Read(c.accumErrs, n);
    var target := SettledControl(c.gains, accum);
    forall i | 0 <= i < n
      ensures r.0[i] == target[i] && Read(r.1.accumErrs, n)[i] == accum[i]
    {
      if c.gains.useIntegrator && c.accumErrs.Slots? {
        assert accum[i] == c.accumErrs.values[i];
      }
      assert Read(c.prevErr, n)[i] == 0.0;
      ControlLawPerSlot(c, Zeros(n), i);
      SettledSlotTick(c.gains, accum[i]);
    }
    if c.gains.useIntegrator {
      assert r.1.accumErrs.values == accum;
    }
  }

  /**
    Zero error settles the controller: from any state within a non-negative
    windup bound, the first zero-error tick clears the previous error and
    keeps the accumulator, and the next zero-error tick's force is the limited
    `SettledControl` of that accumulator, with the accumulator still held.
  */
  lemma ZeroErrorSettles(c: Controller, first: Agent, second: Agent, normClamp: NormClamp)
    requires |first.u| == |first.vel| && Ready(c, |first.u|) && Invariant(c)
    requires |second.u| == |first.u| && |second.vel| == |first.u|
    requires first.u == first.vel && second.u == second.vel
    requires c.gains.useIntegrator ==> 0.0 <= Cutoff(c.gains)
    ensures var c1 := ProcessForce(c, first, normClamp).0;
            && Ready(c1, |second.u|)
            && var r := ProcessForce(c1, second, normClamp);
               && r.1.u == LimitForce(SettledControl(c.gains, Read(c.accumErrs, |first.u|)), second, normClamp)
               && Read(r.0.accumErrs, |first.u|) == Read(c.accumErrs, |first.u|)
  {
    var n := |first.u|;
    ZeroErrorHoldsAccumulator(c, first, normClamp);
    TickKeepsInvariant(c, first, normClamp);
    var c1 := ProcessForce(c, first, normClamp).0;
    assert Error(second) == Zeros(n);
    SettledTick(c1, n);
  }

  /**
    The windup cutoff bounds the control before mass scaling, not the force:
    with `dt = 1`, standard `[1, 1, 0]`, no `max_f` (limit 2) and mass 2, a
    saturated accumulator and zero error give force 2, the whole limit.
  */
  lemma SaturatedIntegratorScalesWithMass(normClamp: NormClamp)
    ensures Configure(None, 1.0, [1.0, 1.0, 0.0], "standard").Ok?
    ensures var c := Configure(None, 1.0, [1.0, 1.0, 0.0], "standard").value;
            && Cutoff(c.gains) == 1.0
            && ProcessForce(c.(accumErrs := Slots([1.0])), Agent([0.0], [0.0], 2.0, None, None), normClamp).1.u == [2.0]
  {
    var c := Configure(None, 1.0, [1.0, 1.0, 0.0], "standard").value;
    assert Cutoff(c.gains) == 1.0;
    var agent := Agent([0.0], [0.0], 2.0, None, None);
    assert Error(agent) == [0.0];
    var s := c.(accumErrs := Slots([1.0]));
    ControlLawPerSlot(s, [0.0], 0);
    assert ControlLaw(s, [0.0]).0 == [1.0];
    assert Scale([1.0], 2.0) == [2.0];
  }

  /** A worked tick: `dt = 0.1`, standard `[1, 5, 0]`, error 1 gives force 1.02. */
  lemma WorkedExample(normClamp: NormClamp)
    ensures Configure(None, 0.1, [1.0, 5.0, 0.0], "standard").Ok?
    ensures var c := Configure(None, 0.1, [1.0, 5.0, 0.0], "standard").value;
            var r := ProcessForce(c, Agent([1.0], [0.0], 1.0, None, None), normClamp);
            && r.1.u == [1.02]
            && r.0.accumErrs == Slots([0.1])
            && r.0.prevErr == Slots([1.0])
  {
    var c := Configure(None, 0.1, [1.0, 5.0, 0.0], "standard").value;
    assert Cutoff(c.gains) == 50.0;
    var agent := Agent([1.0], [0.0], 1.0, None, None);
    assert Error(agent) == [1.0];
    var (control, c') := ControlLaw(c, [1.0]);
    assert control[0] == 1.02;
  }

  /**
    The range clamp after the norm clamp differs from the reverse order: a
    control of `(3, 4)` with `max_f = 1` and `f_range = 0.7` gives `(0.6, 0.7)`,
    while clamping the range first would give `(0.7, 0.7)`. The premises are
    what `clamp_with_norm` returns on the two vectors involved.
  */
  lemma ClampOrderMatters(normClamp: NormClamp)
    requires normClamp([3.0, 4.0], 1.0) == [0.6, 0.8]
    requires normClamp([0.7, 0.7], 1.0) == [0.7, 0.7]
    ensures var c := Controller(Gains(1.0, 0.0, 0.0, 0.1, false, None), Zero, Zero);
            var agent := Agent([3.0, 4.0], [0.0, 0.0], 1.0, Some(1.0), Some(0.7));
            ProcessForce(c, agent, normClamp).1.u == [0.6, 0.7]
    ensures normClamp(RangeLimit([3.0, 4.0], Some(0.7)), 1.0) == [0.7, 0.7]
  {
    var c := Controller(Gains(1.0, 0.0, 0.0, 0.1, false, None), Zero, Zero);
    var agent := Agent([3.0, 4.0], [0.0, 0.0], 1.0, Some(1.0), Some(0.7));
    assert Error(agent) == [3.0, 4.0];
    var (control, c') := ControlLaw(c, [3.0, 4.0]);
    assert control == [3.0, 4.0];
    assert Scale(control, 1.0) == [3.0, 4.0];
    assert ClampAll([0.6, 0.8], 0.7) == [0.6, 0.7];
    assert ClampAll([3.0, 4.0], 0.7) == [0.7, 0.7];
  }
}
