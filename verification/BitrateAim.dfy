/** What the bitrate search aims at: the request at which an encoder that answers in proportion would hit the target. */
module BitrateAim {
  import opened Common
  import opened BitrateSearch

  function Gap(a: real, b: real): real { if a < b then b - a else a - b }

  // A request the search may still make.
  predicate Open(c: int, attempted: set<int>) { 100000 <= c <= 20000000 && c !in attempted }

  lemma RoundNear(x: real)
    ensures Gap(RoundHalfEven(x) as real, x) <= 0.5
  {}

  lemma RoundUnique(x: real, c: int)
    requires Gap(c as real, x) < 0.5
    ensures RoundHalfEven(x) == c
  {
    RoundNear(x);
    var d := RoundHalfEven(x) - c;
    assert -1.0 < d as real < 1.0;
  }

  // Where the proportion points.
  function Aim(requested: int, measured: real, target: real): real
    requires measured > 0.0
  {
    requested as real * target / measured
  }

  lemma ProposalIsAim(requested: int, measured: real, target: real)
    requires measured > 0.0
    ensures var x, p := Aim(requested, measured, target), Proposal(requested, measured, target);
            && 100000 <= p <= 20000000
            && (x <= 100000.0 ==> p == 100000) && (x >= 20000000.0 ==> p == 20000000)
            && (100000.0 <= x <= 20000000.0 ==> p == RoundHalfEven(x))
  {
    var x := Aim(requested, measured, target);
    RoundNear(x);
    assert x >= 100000.0 ==> RoundHalfEven(x) >= 100000;
    assert x <= 20000000.0 ==> RoundHalfEven(x) <= 20000000;
  }

  /** The next request is an open rate that no other open rate beats by more than one in nearness to requested * target
      / measured; it is the one within a half of that, if that is open; and the lowest, or the highest, if that lies
      outside the limits. */
  lemma NextRateAims(requested: int, measured: real, target: real, attempted: set<int>)
    requires requested > 0 && measured > 0.0 && |attempted| <= 1024
    ensures var x := requested as real * target / measured;
            var next := NextRate(requested, Mbps(measured), target, attempted);
            && next.Ok? && Open(next.value, attempted)
            && (100000.0 <= x <= 20000000.0 ==>
                  && (forall c :: Open(c, attempted) ==> Gap(next.value as real, x) <= Gap(c as real, x) + 1.0)
                  && (forall c :: Open(c, attempted) && Gap(c as real, x) < 0.5 ==> next.value == c))
            && (x <= 100000.0 ==> forall c :: Open(c, attempted) ==> next.value <= c)
            && (x >= 20000000.0 ==> forall c :: Open(c, attempted) ==> next.value >= c)
  {
    hide Proposal, NextRate, RoundHalfEven;
    NextRateExactly(requested, Mbps(measured), target, attempted);
    ProposalIsAim(requested, measured, target);
    var x := Aim(requested, measured, target);
    RoundNear(x);
    var rate := NextRate(requested, Mbps(measured), target, attempted).value;
    forall c | Open(c, attempted)
      ensures Nearer(rate, c, Proposal(requested, measured, target))
      ensures Gap(c as real, x) < 0.5 ==> RoundHalfEven(x) == c
    {
      assert Free(c, attempted);
      if Gap(c as real, x) < 0.5 { RoundUnique(x, c); }
    }
  }

  /** A measurement above the target asks for less, one below it for more, when the rate aimed at is within the limits
      and open. */
  lemma NextRateCorrects(requested: int, measured: real, target: real, attempted: set<int>, c: int)
    requires requested > 0 && measured > 0.0 && target > 0.0 && |attempted| <= 1024 && requested in attempted
    requires var x := requested as real * target / measured;
             100000.0 <= x <= 20000000.0 && Open(c, attempted) && Gap(c as real, x) < 0.5
    ensures NextRate(requested, Mbps(measured), target, attempted) == Ok(c)
    ensures measured > target ==> c < requested
    ensures measured < target ==> c > requested
  {
    hide NextRate;
    NextRateAims(requested, measured, target, attempted);
    var x := requested as real * target / measured;
    assert x * measured == requested as real * target;
    Compare(requested as real, x, measured, target);
  }

  lemma Compare(a: real, x: real, measured: real, target: real)
    requires a > 0.0 && measured > 0.0 && target > 0.0 && x * measured == a * target
    ensures measured > target ==> x < a
    ensures measured < target ==> x > a
  {
    if measured > target {
      assert a * (measured - target) > 0.0;
      assert (x - a) * measured < 0.0;
    } else if measured < target {
      assert a * (target - measured) > 0.0;
      assert (x - a) * measured > 0.0;
    }
  }

  /** When the rate aimed at has been attempted the search goes one below it, even if one above is nearer to the
      quotient. */
  lemma DisplacedGoesBelow()
    ensures NextRate(1000000, Mbps(1.0), 1.0000004, {1000000}) == Ok(999999)
    ensures Gap(1000001.0, 1000000.0 * 1.0000004 / 1.0) < Gap(999999.0, 1000000.0 * 1.0000004 / 1.0)
  {
    var x := 1000000.0 * 1.0000004 / 1.0;
    assert x == 1000000.4;
    RoundUnique(x, 1000000);
    assert Proposal(1000000, 1.0, 1.0000004) == 1000000;
    assert !Free(1000000, {1000000}) && Free(999999, {1000000});
    assert Scan(1000000, {1000000}, 1) == Some(999999);
  }

  /** A stream matches exactly when its rate is within two per cent, and a trillionth, of the target. */
  lemma MatchesExactly(rate: real, target: real)
    requires target > 0.0
    ensures Matches(Mbps(rate), target)
            <==> target - 0.020000000001 * target <= rate <= target + 0.020000000001 * target
  {
    var gap := if rate < target then target - rate else rate - target;
    Quotient(gap, target, 0.020000000001);
  }

  lemma Quotient(a: real, t: real, q: real)
    requires t > 0.0
    ensures a / t <= q <==> a <= q * t
    ensures q <= a / t <==> q * t <= a
  {
    var d := a / t - q;
    assert d * t == a - q * t;
    assert d > 0.0 ==> d * t > 0.0;
    assert d < 0.0 ==> d * t < 0.0;
  }

  // -------- an encoder that answers in proportion --------

  // What the encoder measures at a request of r, in megabits a second.
  function Answer(k: real, r: int): real { k * r as real }

  // Rounding the right request is well within the tolerance.
  lemma RoundedMatches(k: real, target: real, r: int)
    requires k > 0.0 && target > 0.0 && target >= 100000.0 * k && Gap(r as real, target / k) <= 0.5
    ensures Matches(Mbps(k * r as real), target)
  {
    var x := target / k;
    assert x * k == target;
    var d := r as real - x;
    assert k * r as real == target + k * d;
    Bounded(k, d);
    MatchesExactly(k * r as real, target);
  }

  lemma Bounded(k: real, d: real)
    requires k > 0.0 && -0.5 <= d <= 0.5
    ensures -0.5 * k <= k * d <= 0.5 * k
  {
    assert k * (d + 0.5) >= 0.0 && k * (0.5 - d) >= 0.0;
  }

  lemma AimIsTarget(k: real, target: real, r: int)
    requires k > 0.0 && target > 0.0 && r > 0
    ensures k * r as real > 0.0 && r as real * target / (k * r as real) == target / k
  {
    var a := r as real;
    assert k * a > 0.0;
    var x := target / k;
    assert x * k == target;
    assert x * (k * a) == a * target;
  }

  // The request aimed at, whatever was requested before.
  lemma Aimed(k: real, target: real, r: int, m: real) returns (c: int)
    requires k > 0.0 && target > 0.0 && r > 0 && 100000.0 * k <= target <= 20000000.0 * k
    requires m == k * r as real && m > 0.0
    ensures c == Proposal(r, m, target) && 100000 <= c <= 20000000 && Gap(c as real, target / k) <= 0.5
  {
    hide Proposal, RoundHalfEven;
    var x := target / k;
    Quotient(target, k, 100000.0);
    Quotient(target, k, 20000000.0);
    AimIsTarget(k, target, r);
    assert Aim(r, m, target) == x;
    ProposalIsAim(r, m, target);
    RoundNear(x);
    assert 100000.0 <= x;
    assert x <= 20000000.0;
    c := Proposal(r, m, target);
    assert c == RoundHalfEven(x);
  }

  /** An encoder whose rate is in proportion to its request, and whose right request lies within the limits, is matched
      by the first trial or by the second. */
  lemma ProportionalEncoderMatches(k: real, target: real)
    requires k > 0.0 && target > 0.0 && 100000.0 * k <= target <= 20000000.0 * k && FirstRequest(target) > 0
    ensures var first := Tried(Evidence(Mbps(Answer(k, FirstRequest(target))), true));
            var s := Run(target, [first]);
            || s.step == Finish(Passed)
            || (s.step.Request?
                && Run(target, [first, Tried(Evidence(Mbps(Answer(k, s.step.rate)), true))]).step == Finish(Passed))
  {
    hide NextRate, Matches, RoundHalfEven, Proposal, Gap, Run, Answer;
    var r0 := FirstRequest(target);
    var m0 := Answer(k, r0);
    var first := Tried(Evidence(Mbps(m0), true));
    Passes(target, first);
    if !Matches(Mbps(m0), target) {
      assert m0 == k * r0 as real && m0 > 0.0 by { AnswerIs(k, r0); AimIsTarget(k, target, r0); }
      var c := Aimed(k, target, r0, m0);
      AnswerIs(k, c);
      if c == r0 { RoundedMatches(k, target, r0); }
      RoundedMatches(k, target, c);
      SecondTrial(k, target, r0, m0, c);
    }
  }

  lemma AnswerIs(k: real, r: int)
    ensures Answer(k, r) == k * r as real
  {}

  lemma OneTrial(target: real, first: Event)
    requires target > 0.0 && first.Tried?
    ensures Run(target, [first]) == After(target, Search([], Request(FirstRequest(target))), first)
  {
    hide After, RoundHalfEven;
    assert [first][..0] == [];
  }

  lemma Passes(target: real, first: Event)
    requires target > 0.0 && first.Tried? && first.trial.Evidence? && first.trial.verifies
    ensures Matches(first.trial.measured, target) ==> Run(target, [first]).step == Finish(Passed)
  {
    hide Matches, RoundHalfEven;
    OneTrial(target, first);
  }

  lemma SecondTrial(k: real, target: real, r0: int, m0: real, c: int)
    requires k > 0.0 && target > 0.0 && r0 == FirstRequest(target) > 0 && c != r0 && 100000 <= c <= 20000000
    requires m0 > 0.0 && !Matches(Mbps(m0), target) && Matches(Mbps(Answer(k, c)), target)
    requires Proposal(r0, m0, target) == c
    ensures var first := Tried(Evidence(Mbps(m0), true));
            && Run(target, [first]).step == Request(c)
            && Run(target, [first, Tried(Evidence(Mbps(Answer(k, c)), true))]).step == Finish(Passed)
  {
    hide Matches, RoundHalfEven, Proposal, Answer;
    var first, second := Tried(Evidence(Mbps(m0), true)), Tried(Evidence(Mbps(Answer(k, c)), true));
    OneTrial(target, first);
    assert Rates([]) + {r0} == {r0};
    assert Scan(c, {r0}, 0) == Some(c);
    assert [first, second][..1] == [first];
    assert Run(target, [first, second]) == After(target, Run(target, [first]), second);
  }
}
