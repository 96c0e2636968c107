/**
  The controller over many ticks: the host calls `process_force` once per
  tick, in order, each time with the agent as it stands at that tick.
*/
module Ticks {
  import opened Common
  import opened VelocityController

  /** Every agent offers velocity tensors of `n` slots. */
  predicate Shaped(agents: seq<Agent>, n: nat) {
    forall k :: 0 <= k < |agents| ==> |agents[k].u| == n && |agents[k].vel| == n
  }

  /** Every error tensor has `n` slots. */
  predicate Sized(errs: seq<seq<real>>, n: nat) {
    forall k :: 0 <= k < |errs| ==> |errs[k]| == n
  }

  /**
    Runs `process_force` once per agent snapshot, returning each tick's force
    and the final controller. The gains never change, and every force obeys
    the `f_range` of its own tick.
  */
  function Run(c: Controller, agents: seq<Agent>, normClamp: NormClamp, n: nat): (r: (seq<seq<real>>, Controller))
    requires Ready(c, n) && Shaped(agents, n)
    ensures |r.0| == |agents|
    ensures Ready(r.1, n) && r.1.gains == c.gains
    ensures forall k :: 0 <= k < |agents| && agents[k].fRange.Some? ==>
              forall i :: 0 <= i < |r.0[k]| ==> r.0[k][i] <= agents[k].fRange.value
    decreases |agents|
  {
    if |agents| == 0 then ([], c)
    else
      var (c1, agent1) := ProcessForce(c, agents[0], normClamp);
      var (forces, c2) := Run(c1, agents[1..], normClamp, n);
      ([agent1.u] + forces, c2)
  }

  /** The state invariant, and with it the windup bound, holds after any run. */
  lemma {:induction false} RunKeepsInvariant(c: Controller, agents: seq<Agent>, normClamp: NormClamp, n: nat)
    requires Ready(c, n) && Shaped(agents, n) && Invariant(c)
    ensures Invariant(Run(c, agents, normClamp, n).1)
    decreases |agents|
  {
    if |agents| > 0 {
      TickKeepsInvariant(c, agents[0], normClamp);
      var c1 := ProcessForce(c, agents[0], normClamp).0;
      RunKeepsInvariant(c1, agents[1..], normClamp, n);
    }
  }

  /**
    After any run from a freshly built controller, reset gives back exactly
    that controller, so the next tick matches a fresh controller's first tick.
  */
  lemma ResetAfterRun(maxF: Option<real>, dt: real, params: seq<real>, form: string,
                      agents: seq<Agent>, normClamp: NormClamp, n: nat, next: Agent)
    requires Configure(maxF, dt, params, form).Ok?
    requires Ready(Configure(maxF, dt, params, form).value, n) && Shaped(agents, n)
    requires |next.u| == n && |next.vel| == n
    ensures var c0 := Configure(maxF, dt, params, form).value;
            && Reset(Run(c0, agents, normClamp, n).1) == c0
            && ProcessForce(Reset(Run(c0, agents, normClamp, n).1), next, normClamp) == ProcessForce(c0, next, normClamp)
  {
    var c0 := Configure(maxF, dt, params, form).value;
    ResetRestoresConstruction(maxF, dt, params, form, Run(c0, agents, normClamp, n).1);
  }

  /** Both memories read as zero over `n` slots. */
  predicate AtRest(c: Controller, n: nat)
    requires Fits(c.accumErrs, n) && Fits(c.prevErr, n)
  {
    Read(c.accumErrs, n) == Zeros(n) && Read(c.prevErr, n) == Zeros(n)
  }

  /**
    A controller at rest that only ever sees zero error stays at rest and
    produces exactly zero force on every tick, provided the limits map zero
    to zero.
  */
  lemma {:induction false} ZeroErrorRunIsQuiet(c: Controller, agents: seq<Agent>, normClamp: NormClamp, n: nat)
    requires Ready(c, n) && Shaped(agents, n) && AtRest(c, n)
    requires c.gains.useIntegrator ==> 0.0 <= Cutoff(c.gains)
    requires forall k :: 0 <= k < |agents| ==> agents[k].u == agents[k].vel
    requires forall k :: 0 <= k < |agents| && agents[k].fRange.Some? ==> 0.0 <= agents[k].fRange.value
    requires forall k :: 0 <= k < |agents| && agents[k].maxF.Some? ==>
               normClamp(Zeros(n), agents[k].maxF.value) == Zeros(n)
    ensures forall k :: 0 <= k < |agents| ==> Run(c, agents, normClamp, n).0[k] == Zeros(n)
    ensures AtRest(Run(c, agents, normClamp, n).1, n)
    decreases |agents|
  {
    if |agents| > 0 {
      ZeroErrorAtRest(c, agents[0], normClamp);
      var c1 := ProcessForce(c, agents[0], normClamp).0;
      ZeroErrorRunIsQuiet(c1, agents[1..], normClamp, n);
      var forces := Run(c, agents, normClamp, n).0;
      forall k | 0 <= k < |agents|
        ensures forces[k] == Zeros(n)
      {
        if k > 0 {
          assert forces[k] == Run(c1, agents[1..], normClamp, n).0[k - 1];
        }
      }
    }
  }

  /**
    A settled controller (previous error zero, accumulator within a
    non-negative windup bound) that sees only zero error outputs, on every
    tick, the limited `SettledControl` of its accumulator, which it keeps.
  */
  lemma {:induction false} SettledRunHoldsForce(c: Controller, agents: seq<Agent>, normClamp: NormClamp, n: nat)
    requires Ready(c, n) && Shaped(agents, n) && Invariant(c) && Read(c.prevErr, n) == Zeros(n)
    requires c.gains.useIntegrator ==> 0.0 <= Cutoff(c.gains)
    requires forall k :: 0 <= k < |agents| ==> agents[k].u == agents[k].vel
    ensures forall k :: 0 <= k < |agents| ==>
              Run(c, agents, normClamp, n).0[k] == LimitForce(SettledControl(c.gains, Read(c.accumErrs, n)), agents[k], normClamp)
    ensures Read(Run(c, agents, normClamp, n).1.accumErrs, n) == Read(c.accumErrs, n)
    decreases |agents|
  {
    if |agents| > 0 {
      assert Error(agents[0]) == Zeros(n);
      SettledTick(c, n);
      TickKeepsInvariant(c, agents[0], normClamp);
      var c1 := ProcessForce(c, agents[0], normClamp).0;
      SettledRunHoldsForce(c1, agents[1..], normClamp, n);
      var forces := Run(c, agents, normClamp, n).0;
      var target := SettledControl(c.gains, Read(c.accumErrs, n));
      forall k | 0 <= k < |agents|
        ensures forces[k] == LimitForce(target, agents[k], normClamp)
      {
        if k > 0 {
          assert forces[k] == Run(c1, agents[1..], normClamp, n).0[k - 1];
        }
      }
    }
  }

  /**
    Zero error settles the controller over any run: from any state within a
    non-negative windup bound, every force after the first tick is the
    limited integral residual `SettledControl` of the starting accumulator,
    and the accumulator ends where it started.
  */
  lemma ZeroErrorRunSettles(c: Controller, agents: seq<Agent>, normClamp: NormClamp, n: nat)
    requires Ready(c, n) && Shaped(agents, n) && Invariant(c) && 1 <= |agents|
    requires c.gains.useIntegrator ==> 0.0 <= Cutoff(c.gains)
    requires forall k :: 0 <= k < |agents| ==> agents[k].u == agents[k].vel
    ensures forall k :: 1 <= k < |agents| ==>
              Run(c, agents, normClamp, n).0[k] == LimitForce(SettledControl(c.gains, Read(c.accumErrs, n)), agents[k], normClamp)
    ensures Read(Run(c, agents, normClamp, n).1.accumErrs, n) == Read(c.accumErrs, n)
  {
    ZeroErrorHoldsAccumulator(c, agents[0], normClamp);
    TickKeepsInvariant(c, agents[0], normClamp);
    var c1 := ProcessForce(c, agents[0], normClamp).0;
    SettledRunHoldsForce(c1, agents[1..], normClamp, n);
    var forces := Run(c, agents, normClamp, n).0;
    forall k | 1 <= k < |agents|
      ensures forces[k] == LimitForce(SettledControl(c.gains, Read(c.accumErrs, n)), agents[k], normClamp)
    {
      assert forces[k] == Run(c1, agents[1..], normClamp, n).0[k - 1];
    }
  }

  /**
    The PID law alone over many ticks (`process_force` before mass scaling
    and the force limits), returning each tick's control.
  */
  function Track(c: Controller, errs: seq<seq<real>>, n: nat): (r: (seq<seq<real>>, Controller))
    requires Ready(c, n) && Sized(errs, n)
    ensures |r.0| == |errs| && Sized(r.0, n)
    ensures Ready(r.1, n) && r.1.gains == c.gains
    decreases |errs|
  {
    if |errs| == 0 then ([], c)
    else
      var (u, c1) := ControlLaw(c, errs[0]);
      var (us, c2) := Track(c1, errs[1..], n);
      ([u] + us, c2)
  }

  /** Tick-by-tick concatenation of two sequences of tensors. */
  function ConcatTicks(a: seq<seq<real>>, b: seq<seq<real>>): (r: seq<seq<real>>)
    requires |a| == |b|
    ensures |r| == |a|
    ensures forall k :: 0 <= k < |a| ==> r[k] == a[k] + b[k]
  {
    seq(|a|, k requires 0 <= k < |a| => a[k] + b[k])
  }

  /**
    Batch independence: a controller whose memories are the concatenation of
    two others' memories, fed the concatenated errors tick after tick,
    produces exactly the concatenation of what the two produce on their own.
  */
  lemma {:induction false} BatchIndependence(whole: Controller, left: Controller, right: Controller,
                                             errs1: seq<seq<real>>, errs2: seq<seq<real>>, n1: nat, n2: nat)
    requires Ready(left, n1) && Ready(right, n2) && Ready(whole, n1 + n2)
    requires left.gains == whole.gains && right.gains == whole.gains
    requires Sized(errs1, n1) && Sized(errs2, n2) && |errs1| == |errs2|
    requires Read(whole.accumErrs, n1 + n2) == Read(left.accumErrs, n1) + Read(right.accumErrs, n2)
    requires Read(whole.prevErr, n1 + n2) == Read(left.prevErr, n1) + Read(right.prevErr, n2)
    ensures Sized(ConcatTicks(errs1, errs2), n1 + n2)
    ensures Track(whole, ConcatTicks(errs1, errs2), n1 + n2).0
         == ConcatTicks(Track(left, errs1, n1).0, Track(right, errs2, n2).0)
    decreases |errs1|
  {
    var errs := ConcatTicks(errs1, errs2);
    assert Sized(errs, n1 + n2);
    if |errs1| > 0 {
      assert errs[0] == errs1[0] + errs2[0];
      ControlLawSplit(whole, left, right, errs1[0], errs2[0]);
      var w := ControlLaw(whole, errs[0]);
      var l := ControlLaw(left, errs1[0]);
      var r := ControlLaw(right, errs2[0]);
      assert errs[1..] == ConcatTicks(errs1[1..], errs2[1..]);
      BatchIndependence(w.1, l.1, r.1, errs1[1..], errs2[1..], n1, n2);
      var tl := Track(l.1, errs1[1..], n1).0;
      var tr := Track(r.1, errs2[1..], n2).0;
      calc {
        Track(whole, errs, n1 + n2).0;
        [w.0] + Track(w.1, errs[1..], n1 + n2).0;
        [l.0 + r.0] + ConcatTicks(tl, tr);
        { ConcatTicksCons(l.0, r.0, tl, tr); }
        ConcatTicks([l.0] + tl, [r.0] + tr);
      }
    }
  }

  /**
    Tick by tick, `whole` is made of the slots of `left` followed by those of
    `right`: its velocities concatenate theirs, all three share mass and
    `f_range`, and none has a `max_f`, so every force limit acts slot by slot.
  */
  predicate SplitAgents(whole: seq<Agent>, left: seq<Agent>, right: seq<Agent>) {
    && |whole| == |left| == |right|
    && forall k :: 0 <= k < |whole| ==>
         && whole[k].u == left[k].u + right[k].u
         && whole[k].vel == left[k].vel + right[k].vel
         && whole[k].maxF.None? && left[k].maxF.None? && right[k].maxF.None?
         && left[k].mass == whole[k].mass && right[k].mass == whole[k].mass
         && left[k].fRange == whole[k].fRange && right[k].fRange == whole[k].fRange
  }

  /** Mass scaling and the range clamp distribute over a concatenated control. */
  lemma LimitForceSplits(a: seq<real>, b: seq<real>, whole: Agent, left: Agent, right: Agent, normClamp: NormClamp)
    requires whole.maxF.None? && left.maxF.None? && right.maxF.None?
    requires left.mass == whole.mass && right.mass == whole.mass
    requires left.fRange == whole.fRange && right.fRange == whole.fRange
    ensures LimitForce(a + b, whole, normClamp) == LimitForce(a, left, normClamp) + LimitForce(b, right, normClamp)
  {
    var sa, sb := Scale(a, whole.mass), Scale(b, whole.mass);
    forall i | 0 <= i < |a| + |b|
      ensures Scale(a + b, whole.mass)[i] == (sa + sb)[i]
    {
      if i >= |a| {
        assert (a + b)[i] == b[i - |a|];
      }
    }
    assert Scale(a + b, whole.mass) == sa + sb;
    assert RangeLimit(sa + sb, whole.fRange) == RangeLimit(sa, whole.fRange) + RangeLimit(sb, whole.fRange);
  }

  /**
    One tick of `process_force` on agents made of two parts without `max_f`
    writes the concatenation of the parts' forces and leaves the memories
    concatenated.
  */
  lemma ProcessForceSplits(whole: Controller, left: Controller, right: Controller,
                           aw: Agent, al: Agent, ar: Agent, normClamp: NormClamp)
    requires |al.u| == |al.vel| && |ar.u| == |ar.vel|
    requires aw.u == al.u + ar.u && aw.vel == al.vel + ar.vel
    requires aw.maxF.None? && al.maxF.None? && ar.maxF.None?
    requires al.mass == aw.mass && ar.mass == aw.mass && al.fRange == aw.fRange && ar.fRange == aw.fRange
    requires Ready(left, |al.u|) && Ready(right, |ar.u|) && Ready(whole, |aw.u|)
    requires left.gains == whole.gains && right.gains == whole.gains
    requires Read(whole.accumErrs, |aw.u|) == Read(left.accumErrs, |al.u|) + Read(right.accumErrs, |ar.u|)
    requires Read(whole.prevErr, |aw.u|) == Read(left.prevErr, |al.u|) + Read(right.prevErr, |ar.u|)
    ensures var w := ProcessForce(whole, aw, normClamp);
            var l := ProcessForce(left, al, normClamp);
            var r := ProcessForce(right, ar, normClamp);
            && w.1.u == l.1.u + r.1.u
            && Read(w.0.accumErrs, |aw.u|) == Read(l.0.accumErrs, |al.u|) + Read(r.0.accumErrs, |ar.u|)
            && Read(w.0.prevErr, |aw.u|) == Read(l.0.prevErr, |al.u|) + Read(r.0.prevErr, |ar.u|)
  {
    var e1, e2 := Error(al), Error(ar);
    assert Error(aw) == e1 + e2;
    ControlLawSplit(whole, left, right, e1, e2);
    LimitForceSplits(ControlLaw(left, e1).0, ControlLaw(right, e2).0, aw, al, ar, normClamp);
  }

  /**
    Batch independence of the written forces: for agents without `max_f`, a
    controller whose memories concatenate two others', run on the
    concatenated agents, writes tick after tick the concatenation of the
    forces the two write on their own.
  */
  lemma {:induction false} RunBatchIndependence(whole: Controller, left: Controller, right: Controller,
                                                aw: seq<Agent>, al: seq<Agent>, ar: seq<Agent>,
                                                normClamp: NormClamp, n1: nat, n2: nat)
    requires Ready(left, n1) && Ready(right, n2) && Ready(whole, n1 + n2)
    requires left.gains == whole.gains && right.gains == whole.gains
    requires Shaped(al, n1) && Shaped(ar, n2) && SplitAgents(aw, al, ar)
    requires Read(whole.accumErrs, n1 + n2) == Read(left.accumErrs, n1) + Read(right.accumErrs, n2)
    requires Read(whole.prevErr, n1 + n2) == Read(left.prevErr, n1) + Read(right.prevErr, n2)
    ensures Shaped(aw, n1 + n2)
    ensures Run(whole, aw, normClamp, n1 + n2).0 == ConcatTicks(Run(left, al, normClamp, n1).0, Run(right, ar, normClamp, n2).0)
    decreases |aw|
  {
    assert Shaped(aw, n1 + n2) by {
      forall k | 0 <= k < |aw|
        ensures |aw[k].u| == n1 + n2 && |aw[k].vel| == n1 + n2
      {
        assert |al[k].u| == n1 && |ar[k].u| == n2 && |al[k].vel| == n1 && |ar[k].vel| == n2;
      }
    }
    if |aw| > 0 {
      ProcessForceSplits(whole, left, right, aw[0], al[0], ar[0], normClamp);
      var w := ProcessForce(whole, aw[0], normClamp);
      var l := ProcessForce(left, al[0], normClamp);
      var r := ProcessForce(right, ar[0], normClamp);
      assert SplitAgents(aw[1..], al[1..], ar[1..]);
      RunBatchIndependence(w.0, l.0, r.0, aw[1..], al[1..], ar[1..], normClamp, n1, n2);
      var tl := Run(l.0, al[1..], normClamp, n1).0;
      var tr := Run(r.0, ar[1..], normClamp, n2).0;
      calc {
        Run(whole, aw, normClamp, n1 + n2).0;
        [w.1.u] + Run(w.0, aw[1..], normClamp, n1 + n2).0;
        [l.1.u + r.1.u] + ConcatTicks(tl, tr);
        { ConcatTicksCons(l.1.u, r.1.u, tl, tr); }
        ConcatTicks([l.1.u] + tl, [r.1.u] + tr);
      }
    }
  }

  /** `ConcatTicks` of two sequences with a first tick each starts with that tick concatenated. */
  lemma ConcatTicksCons(x: seq<real>, y: seq<real>, a: seq<seq<real>>, b: seq<seq<real>>)
    requires |a| == |b|
    ensures ConcatTicks([x] + a, [y] + b) == [x + y] + ConcatTicks(a, b)
  {
    var lhs, rhs := ConcatTicks([x] + a, [y] + b), [x + y] + ConcatTicks(a, b);
    forall k | 0 <= k < |lhs|
      ensures lhs[k] == rhs[k]
    {
      if k > 0 {
        assert ([x] + a)[k] == a[k - 1] && ([y] + b)[k] == b[k - 1];
      }
    }
  }
}
