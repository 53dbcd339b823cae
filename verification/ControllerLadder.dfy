/** The degradation history is a ladder: its length alone determines all four knobs. */
module ControllerLadder {
  import opened Common
  import opened ControllerSpec

  // -------- the payload target reaches its minimum --------

  lemma {:induction false} ShrinkPositive(n: nat)
    ensures 0.0 < Shrink(n) <= 1.0
  {
    if n > 0 { ShrinkPositive(n - 1); }
  }

  // Bernoulli: 0.9^n (1 + n/9) <= 1.
  lemma {:induction false} ShrinkBound(n: nat)
    ensures Shrink(n) * (9.0 + n as real) <= 9.0
  {
    if n > 0 {
      ShrinkBound(n - 1);
      ShrinkPositive(n - 1);
      var s, m := Shrink(n - 1), n as real - 1.0;
      assert s * (9.0 + m) <= 9.0;
      assert (0.9 * s) * (10.0 + m) == s * (9.0 + m) - 0.1 * (s * m);
      assert s * m >= 0.0;
    }
  }

  lemma RoundMonotone(x: real, y: real)
    requires x <= y
    ensures RoundHalfEven(x) <= RoundHalfEven(y)
  {}

  lemma RoundNear(x: real)
    ensures -0.5 <= RoundHalfEven(x) as real - x <= 0.5
  {}

  lemma ScaledLess(b: real, s: real)
    requires b >= 0.0 && s >= 0.0
    ensures b * (0.9 * s) <= b * s
  {
    var p := b * s;
    assert p >= 0.0;
    assert b * (0.9 * s) == 0.9 * p;
  }

  lemma ReducedMonotone(base: nat, step: nat)
    ensures Reduced(base, step + 1) <= Reduced(base, step)
  {
    ShrinkPositive(step);
    ScaledLess(base as real, Shrink(step));
  }

  lemma TargetMonotone(base: nat, step: nat)
    ensures PayloadTarget(base, step + 1) <= PayloadTarget(base, step)
  {
    hide RoundHalfEven, Reduced;
    ReducedMonotone(base, step);
    RoundMonotone(Reduced(base, step + 1), Reduced(base, step));
  }

  lemma TargetReachesMinimum(base: nat)
    ensures PayloadTarget(base, 9 * base) == MINIMUM_PAYLOAD
  {
    hide RoundHalfEven;
    ReducedSmall(base);
    RoundNear(Reduced(base, 9 * base));
  }

  lemma ReducedSmall(base: nat)
    ensures Reduced(base, 9 * base) <= 1.0
  {
    var b, s := base as real, Shrink(9 * base);
    ShrinkBound(9 * base);
    ShrinkPositive(9 * base);
    assert (9 * base) as real == 9.0 * b;
    assert s * (9.0 + 9.0 * b) == 9.0 * s + 9.0 * (b * s);
  }

  // The first step at which the target is the minimum, at or below a step where it is.
  ghost function LeastFrom(base: nat, n: nat): (p: nat)
    requires PayloadTarget(base, n) == MINIMUM_PAYLOAD
    ensures PayloadTarget(base, p) == MINIMUM_PAYLOAD && p <= n
    ensures p > 0 ==> PayloadTarget(base, p - 1) != MINIMUM_PAYLOAD
  {
    if n > 0 && PayloadTarget(base, n - 1) == MINIMUM_PAYLOAD then LeastFrom(base, n - 1) else n
  }

  // How often the payload can be reduced.
  ghost function PayloadSteps(base: nat): (p: nat)
    ensures p <= 9 * base
    ensures PayloadTarget(base, p) == MINIMUM_PAYLOAD
  {
    TargetReachesMinimum(base);
    LeastFrom(base, 9 * base)
  }

  lemma {:induction false} StaysAtMinimum(base: nat, p: nat, q: nat)
    requires p <= q && PayloadTarget(base, p) == MINIMUM_PAYLOAD
    ensures PayloadTarget(base, q) == MINIMUM_PAYLOAD
    decreases q
  {
    if p < q {
      StaysAtMinimum(base, p, q - 1);
      TargetMonotone(base, q - 1);
    }
  }

  /** The target is the minimum from step `PayloadSteps` on and above it before. */
  lemma AtMinimumExactly(base: nat, step: nat)
    ensures PayloadTarget(base, step) == MINIMUM_PAYLOAD <==> step >= PayloadSteps(base)
  {
    var p := PayloadSteps(base);
    TargetReachesMinimum(base);
    if step >= p {
      StaysAtMinimum(base, p, step);
    } else if PayloadTarget(base, step) == MINIMUM_PAYLOAD {
      StaysAtMinimum(base, step, p - 1);
      assert false;
    }
  }

  // -------- the ladder --------

  function Clamp(n: int, high: nat): nat { if n < 0 then 0 else if n > high then high else n }

  ghost function MaxDepth(base: nat): nat { LAST_CAP + LAST_THRESHOLD + PayloadSteps(base) + LAST_PROFILE }

  // The knob turned at depth `i`.
  ghost function KnobAt(base: nat, i: nat): Knob {
    if i < LAST_CAP then Emphasis
    else if i < LAST_CAP + LAST_THRESHOLD then Threshold
    else if i < LAST_CAP + LAST_THRESHOLD + PayloadSteps(base) then Payload
    else Profile
  }

  datatype Levels = Levels(cap: nat, threshold: nat, payload: nat, profile: nat)

  function LevelsOf(c: Controller): Levels { Levels(c.autoIndex, c.thresholdIndex, c.payloadStep, c.profileIndex) }

  // All four knobs as a function of depth.
  ghost function LevelsAt(base: nat, depth: nat): Levels {
    Levels(Clamp(depth, LAST_CAP), Clamp(depth - LAST_CAP, LAST_THRESHOLD),
           Clamp(depth - LAST_CAP - LAST_THRESHOLD, PayloadSteps(base)),
           Clamp(depth - LAST_CAP - LAST_THRESHOLD - PayloadSteps(base), LAST_PROFILE))
  }

  // History is emphasis* threshold* payload* profile*, each stage full before the next begins.
  ghost predicate Ladder(c: Controller) {
    && |c.history| <= MaxDepth(c.base)
    && LevelsOf(c) == LevelsAt(c.base, |c.history|)
    && (forall i :: 0 <= i < |c.history| ==> c.history[i].knob == KnobAt(c.base, i))
  }

  /** Degrading climbs one rung, and does nothing exactly at the top. */
  lemma DegradeClimbs(c: Controller, now: int)
    requires Ladder(c)
    ensures var (d, action) := Degrade(c, now);
            && Ladder(d) && d.base == c.base
            && (action == NoAction <==> |c.history| == MaxDepth(c.base))
            && (action == NoAction ==> d == c)
            && (action != NoAction ==>
                  && action == Reduce(KnobAt(c.base, |c.history|))
                  && d.history == c.history + [Applied(KnobAt(c.base, |c.history|), now)]
                  && d.lastAction == Some(now))
  {
    AtMinimumExactly(c.base, c.payloadStep);
  }

  /** Restoring descends one rung to the levels of the depth below. */
  lemma RelaxDescends(c: Controller, now: int)
    requires Ladder(c)
    ensures var (d, action) := Relax(c, now);
            && Ladder(d) && d.base == c.base
            && (action == NoAction <==> !RestoreDue(c, now))
            && (action == NoAction ==> d == c)
            && (action != NoAction ==>
                  && action == Restore(KnobAt(c.base, |c.history| - 1))
                  && d.history == c.history[..|c.history| - 1]
                  && d.lastAction == Some(now) && d.lastRestoration == Some(now))
  {}

  /** A restore exactly undoes the degrade before it. */
  lemma RestoreUndoesDegrade(c: Controller, now: int, later: int)
    requires Ladder(c) && Degrade(c, now).1 != NoAction && RestoreDue(Degrade(c, now).0, later)
    ensures var d := Relax(Degrade(c, now).0, later).0;
            LevelsOf(d) == LevelsOf(c) && d.history == c.history
  {
    DegradeClimbs(c, now);
    var e := Degrade(c, now).0;
    RelaxDescends(e, later);
    assert e.history[..|e.history| - 1] == c.history;
  }

  /** The unusable test, which does not look at the threshold, means full depth. */
  lemma UnusableIsFullDepth(c: Controller)
    requires Ladder(c)
    ensures AtUnusableLevels(c) <==> |c.history| == MaxDepth(c.base)
  {
    AtMinimumExactly(c.base, c.payloadStep);
  }

  lemma DecideLadder(c: Controller, t: Tick)
    requires Ladder(c)
    ensures Ladder(Decide(c, t).0) && Decide(c, t).0.base == c.base
  {
    hide Ladder, Degrade, Relax;
    var (d, first) := Transition(Observe(c, t), t);
    var (e, second) := CheckUnusable(d, t, first);
    SameLadder(c, e);
    DegradeClimbs(e, t.now);
    RelaxDescends(e, t.now);
  }

  lemma SameLadder(c: Controller, d: Controller)
    requires Ladder(c) && d.base == c.base && d.history == c.history && LevelsOf(d) == LevelsOf(c)
    ensures Ladder(d)
  {}
}
