/** The search for the encoder request whose measured rate hits a target: at most four trials, kept across restarts. */
module BitrateSearch {
  import opened Common

  const MAXIMUM_ATTEMPTS: nat := 4
  const MINIMUM_REQUESTED: int := 100_000
  const MAXIMUM_REQUESTED: int := 20_000_000
  const REACH: nat := 1024
  const TARGETS: seq<real> := [0.5, 0.75, 1.0, 2.0, 4.0]

  // A measured rate; floats that are infinite or not a number are NotFinite.
  datatype Measurement = NotFinite | Mbps(rate: real)

  datatype Failure = MeasurementInvalid | NoUniqueRequest | AttemptCountInvalid | CheckpointInvalid

  type Result<T> = Fallible<T, Failure>

  predicate InLimits(rate: int) { MINIMUM_REQUESTED <= rate <= MAXIMUM_REQUESTED }
  predicate Free(rate: int, attempted: set<int>) { InLimits(rate) && rate !in attempted }
  predicate Positive(m: Measurement) { m.Mbps? && m.rate > 0.0 }

  function Distance(a: int, b: int): nat { if a < b then b - a else a - b }

  function Proposal(requested: int, measured: real, target: real): int
    requires measured > 0.0
  {
    var proposed := RoundHalfEven(requested as real * target / measured);
    if proposed < MINIMUM_REQUESTED then MINIMUM_REQUESTED
    else if proposed > MAXIMUM_REQUESTED then MAXIMUM_REQUESTED
    else proposed
  }

  // From distance d outwards, below before above.
  function Scan(proposed: int, attempted: set<int>, d: nat): Option<int>
    decreases REACH + 1 - d
  {
    if d > REACH then None
    else if Free(proposed - d, attempted) then Some(proposed - d)
    else if Free(proposed + d, attempted) then Some(proposed + d)
    else Scan(proposed, attempted, d + 1)
  }

  function NextRate(requested: int, measured: Measurement, target: real, attempted: set<int>): Result<int> {
    if requested <= 0 || !Positive(measured) then Err(MeasurementInvalid)
    else
      match Scan(Proposal(requested, measured.rate, target), attempted, 0)
      case Some(rate) => Ok(rate)
      case None => Err(NoUniqueRequest)
  }

  method NextRequestedRate(requested: int, measured: Measurement, target: real, attempted: set<int>)
    returns (r: Result<int>)
    ensures r == NextRate(requested, measured, target, attempted)
  {
    if requested <= 0 || !Positive(measured) {
      return Err(MeasurementInvalid);
    }
    var proposed := Proposal(requested, measured.rate, target);
    if proposed !in attempted {
      return Ok(proposed);
    }
    for distance := 1 to REACH + 1
      invariant Scan(proposed, attempted, 0) == Scan(proposed, attempted, distance)
    {
      if Free(proposed - distance, attempted) {
        return Ok(proposed - distance);
      }
      if Free(proposed + distance, attempted) {
        return Ok(proposed + distance);
      }
    }
    r := Err(NoUniqueRequest);
  }

  // -------- the choice is the nearest free rate --------

  // At least as near as c, and the lower of two equally near.
  predicate Nearer(rate: int, c: int, proposed: int) {
    Distance(rate, proposed) < Distance(c, proposed) || (Distance(rate, proposed) == Distance(c, proposed) && rate <= c)
  }

  lemma {:induction false} ScanIsNearest(proposed: int, attempted: set<int>, d: nat)
    ensures match Scan(proposed, attempted, d)
            case Some(rate) => Free(rate, attempted) && d <= Distance(rate, proposed) <= REACH
              && (forall c :: Free(c, attempted) && Distance(c, proposed) >= d ==> Nearer(rate, c, proposed))
            case None => forall c :: d <= Distance(c, proposed) <= REACH ==> !Free(c, attempted)
    decreases REACH + 1 - d
  {
    if d <= REACH && !Free(proposed - d, attempted) && !Free(proposed + d, attempted) {
      ScanIsNearest(proposed, attempted, d + 1);
      forall c | Distance(c, proposed) == d ensures !Free(c, attempted) {
        assert c == proposed - d || c == proposed + d;
      }
    }
  }

  function Interval(low: int, n: nat): (s: set<int>)
    ensures forall i :: i in s <==> low <= i < low + n
    ensures |s| == n
    decreases n
  {
    if n == 0 then {} else Interval(low, n - 1) + {low + n - 1}
  }

  lemma SubsetSize(a: set<int>, b: set<int>)
    requires a <= b
    ensures |a| <= |b|
  {
    assert b == a + (b - a);
  }

  // More places than attempts, so one place is free.
  lemma Pigeonhole(proposed: int, attempted: set<int>) returns (free: int)
    requires InLimits(proposed) && |attempted| <= REACH
    ensures Free(free, attempted) && Distance(free, proposed) <= REACH
  {
    var low := if InLimits(proposed + REACH) then proposed else proposed - REACH;
    var places := Interval(low, REACH + 1);
    if places <= attempted {
      SubsetSize(places, attempted);
      assert false;
    }
    free :| free in places && free !in attempted;
  }

  /** The next request is the free rate nearest the proposal, the lower of two; with at most 1024 rates attempted there
      always is one, so the search can only be refused for its measurement. */
  lemma NextRateExactly(requested: int, measured: Measurement, target: real, attempted: set<int>)
    ensures requested > 0 && Positive(measured) && |attempted| <= REACH ==>
              NextRate(requested, measured, target, attempted).Ok?
    ensures match NextRate(requested, measured, target, attempted)
            case Err(MeasurementInvalid) => requested <= 0 || !Positive(measured)
            case Err(f) => f == NoUniqueRequest && |attempted| > REACH && requested > 0 && Positive(measured)
            case Ok(rate) =>
              && requested > 0 && Positive(measured) && Free(rate, attempted)
              && forall c :: Free(c, attempted) ==> Nearer(rate, c, Proposal(requested, measured.rate, target))
  {
    if requested > 0 && Positive(measured) {
      var proposed := Proposal(requested, measured.rate, target);
      ScanIsNearest(proposed, attempted, 0);
      if |attempted| <= REACH {
        var free := Pigeonhole(proposed, attempted);
      }
    }
  }

  // -------- the search --------

  datatype Attempt = Attempt(requested: int, measured: Option<Measurement>, passed: bool)

  // What one trial brings: no evidence, or a rate and whether the matched stream then verifies.
  datatype Trial = NoEvidence | Evidence(measured: Measurement, verifies: bool)

  datatype Verdict = Passed | MatchedTrialInterrupted | NativeTrialFailed | VerificationFailed | RateTargetUnmatchable

  datatype Step = Request(rate: int) | Finish(verdict: Verdict) | Raise(failure: Failure)

  const TOLERANCE: real := 0.02 + 0.000000000001

  predicate Matches(m: Measurement, target: real)
    requires target > 0.0
  {
    m.Mbps? && (if m.rate < target then target - m.rate else m.rate - target) / target <= TOLERANCE
  }

  function Rates(attempts: seq<Attempt>): set<int> { set a | a in attempts :: a.requested }

  function Last(attempts: seq<Attempt>): Attempt
    requires attempts != []
  {
    attempts[|attempts| - 1]
  }

  function FirstRequest(target: real): int { RoundHalfEven(target * 1_000_000.0) }

  function Onward(attempts: seq<Attempt>, next: Result<int>): Step {
    match next
    case Err(f) => Raise(f)
    case Ok(rate) => if |attempts| < MAXIMUM_ATTEMPTS then Request(rate) else Finish(RateTargetUnmatchable)
  }

  // Where a start finds itself with the attempts on disk.
  function Resume(target: real, attempts: seq<Attempt>): Step
    requires target > 0.0
  {
    if |attempts| > MAXIMUM_ATTEMPTS then Raise(AttemptCountInvalid)
    else if attempts == [] then Request(FirstRequest(target))
    else
      var last := Last(attempts);
      if !last.passed then Onward(attempts, Ok(last.requested))
      else if last.measured.None? then Raise(CheckpointInvalid)
      else if Matches(last.measured.value, target) then Finish(MatchedTrialInterrupted)
      else Onward(attempts, NextRate(last.requested, last.measured.value, target, Rates(attempts)))
  }

  function Try(target: real, attempts: seq<Attempt>, rate: int, trial: Trial): (seq<Attempt>, Step)
    requires target > 0.0
  {
    match trial
    case NoEvidence =>
      var after := attempts + [Attempt(rate, None, false)];
      (after, if |after| < MAXIMUM_ATTEMPTS then Request(rate) else Finish(NativeTrialFailed))
    case Evidence(measured, verifies) =>
      if Matches(measured, target) then
        (attempts + [Attempt(rate, Some(measured), verifies)], Finish(if verifies then Passed else VerificationFailed))
      else
        var after := attempts + [Attempt(rate, Some(measured), true)];
        (after, Onward(after, NextRate(rate, measured, target, Rates(attempts) + {rate})))
  }

  // To the verdict or the error, with what each further trial brings.
  function Drive(target: real, attempts: seq<Attempt>, step: Step, trials: seq<Trial>): (seq<Attempt>, Step)
    requires target > 0.0 && |trials| >= MAXIMUM_ATTEMPTS
    decreases MAXIMUM_ATTEMPTS - |attempts|
  {
    if !step.Request? || |attempts| >= MAXIMUM_ATTEMPTS then (attempts, step)
    else
      var (after, next) := Try(target, attempts, step.rate, trials[|attempts|]);
      Drive(target, after, next, trials)
  }

  method RunTargetSearch(target: real, stored: seq<Attempt>, trials: seq<Trial>)
    returns (attempts: seq<Attempt>, end: Step)
    requires target > 0.0 && |trials| >= MAXIMUM_ATTEMPTS
    ensures (attempts, end) == Drive(target, stored, Resume(target, stored), trials)
  {
    hide NextRate, Matches;
    attempts := stored;
    if |attempts| > MAXIMUM_ATTEMPTS {
      return attempts, Raise(AttemptCountInvalid);
    }
    var attempted := Rates(attempts);
    var requested := FirstRequest(target);
    if attempts != [] {
      var previous := Last(attempts);
      if !previous.passed {
        requested := previous.requested;
      } else if previous.measured.None? {
        return attempts, Raise(CheckpointInvalid);
      } else if Matches(previous.measured.value, target) {
        return attempts, Finish(MatchedTrialInterrupted);
      } else {
        var next := NextRequestedRate(previous.requested, previous.measured.value, target, attempted);
        if next.Err? {
          return attempts, Raise(next.failure);
        }
        requested := next.value;
      }
    }
    assert Resume(target, stored)
        == if |stored| < MAXIMUM_ATTEMPTS then Request(requested) else Finish(RateTargetUnmatchable);
    ghost var whole := Drive(target, stored, Resume(target, stored), trials);
    while |attempts| < MAXIMUM_ATTEMPTS
      invariant |attempts| <= MAXIMUM_ATTEMPTS && attempted == Rates(attempts)
      invariant whole == Drive(target, attempts,
                               if |attempts| < MAXIMUM_ATTEMPTS then Request(requested)
                               else Finish(RateTargetUnmatchable), trials)
      decreases MAXIMUM_ATTEMPTS - |attempts|
    {
      var trial := trials[|attempts|];
      RatesSnoc(attempts, requested, trial, target);
      attempted := attempted + {requested};
      match trial {
        case NoEvidence =>
          attempts := attempts + [Attempt(requested, None, false)];
          if |attempts| >= MAXIMUM_ATTEMPTS {
            return attempts, Finish(NativeTrialFailed);
          }
        case Evidence(measured, verifies) =>
          if Matches(measured, target) {
            attempts := attempts + [Attempt(requested, Some(measured), verifies)];
            return attempts, Finish(if verifies then Passed else VerificationFailed);
          }
          attempts := attempts + [Attempt(requested, Some(measured), true)];
          var next := NextRequestedRate(requested, measured, target, attempted);
          if next.Err? {
            return attempts, Raise(next.failure);
          }
          requested := next.value;
      }
    }
    end := Finish(RateTargetUnmatchable);
  }

  lemma RatesSnoc(attempts: seq<Attempt>, rate: int, trial: Trial, target: real)
    requires target > 0.0
    ensures Rates(Try(target, attempts, rate, trial).0) == Rates(attempts) + {rate}
  {
    hide Matches, NextRate;
    var after := Try(target, attempts, rate, trial).0;
    assert after == attempts + [Last(after)] && Last(after).requested == rate;
    forall r | r in Rates(attempts) + {rate} ensures r in Rates(after) {
      if r == rate {
        assert Last(after) in after;
      } else {
        var a :| a in attempts && a.requested == r;
        assert a in after;
      }
    }
  }

  // -------- every run, with restarts anywhere --------

  // A restart comes at any point: before a trial is recorded, or after it but before a verdict is.
  datatype Event = Tried(trial: Trial) | Restarted

  datatype Search = Search(attempts: seq<Attempt>, step: Step)

  function After(target: real, s: Search, e: Event): Search
    requires target > 0.0
  {
    match e
    case Restarted => Search(s.attempts, Resume(target, s.attempts))
    case Tried(trial) =>
      if !s.step.Request? then s
      else
        var (after, next) := Try(target, s.attempts, s.step.rate, trial);
        Search(after, next)
  }

  function Run(target: real, events: seq<Event>): Search
    requires target > 0.0
    decreases |events|
  {
    if events == [] then Search([], Resume(target, []))
    else After(target, Run(target, events[..|events| - 1]), events[|events| - 1])
  }

  // A rate comes back only straight after an invalid attempt at it.
  ghost predicate MayRequest(attempts: seq<Attempt>, rate: int) {
    rate in Rates(attempts) ==> !Last(attempts).passed && Last(attempts).requested == rate
  }

  ghost predicate InRange(target: real, rate: int) { rate == FirstRequest(target) || InLimits(rate) }

  ghost predicate AttemptAt(target: real, attempts: seq<Attempt>, j: nat)
    requires j < |attempts|
  {
    && MayRequest(attempts[..j], attempts[j].requested) && InRange(target, attempts[j].requested)
    && (attempts[j].passed ==> attempts[j].measured.Some?)
  }

  ghost predicate StepFits(target: real, s: Search)
    requires target > 0.0
  {
    match s.step
    case Request(rate) => |s.attempts| < MAXIMUM_ATTEMPTS && MayRequest(s.attempts, rate) && InRange(target, rate)
    case Finish(verdict) =>
      s.attempts != [] &&
      (verdict == Passed || verdict == MatchedTrialInterrupted ==>
         Last(s.attempts).passed && Last(s.attempts).measured.Some? && Matches(Last(s.attempts).measured.value, target))
    case Raise(f) =>
      f == MeasurementInvalid && s.attempts != [] && Last(s.attempts).measured.Some?
      && (Last(s.attempts).requested <= 0 || !Positive(Last(s.attempts).measured.value))
  }

  ghost predicate Kept(target: real, s: Search)
    requires target > 0.0
  {
    && |s.attempts| <= MAXIMUM_ATTEMPTS && StepFits(target, s)
    && (forall j :: 0 <= j < |s.attempts| ==> AttemptAt(target, s.attempts, j))
  }

  lemma {:induction false} RatesBounded(attempts: seq<Attempt>)
    ensures |Rates(attempts)| <= |attempts|
    decreases |attempts|
  {
    if attempts != [] {
      var front := attempts[..|attempts| - 1];
      RatesBounded(front);
      assert Rates(attempts) == Rates(front) + {Last(attempts).requested} by {
        assert attempts == front + [Last(attempts)];
        forall r | r in Rates(front) ensures r in Rates(attempts) {
          var a :| a in front && a.requested == r;
          assert a in attempts;
        }
        assert Last(attempts) in attempts;
      }
    }
  }

  lemma OnwardFits(target: real, attempts: seq<Attempt>, m: Measurement)
    requires target > 0.0 && attempts != [] && |attempts| <= MAXIMUM_ATTEMPTS && Last(attempts).measured == Some(m)
    ensures var next := NextRate(Last(attempts).requested, m, target, Rates(attempts));
            StepFits(target, Search(attempts, Onward(attempts, next)))
  {
    hide Scan, Matches, Positive, Rates, Proposal, NextRate;
    RatesBounded(attempts);
    NextRateExactly(Last(attempts).requested, m, target, Rates(attempts));
  }

  lemma AfterKeeps(target: real, s: Search, e: Event)
    requires target > 0.0 && Kept(target, s)
    ensures Kept(target, After(target, s, e))
  {
    hide NextRate, Matches, Rates, RoundHalfEven, Positive;
    if e.Tried? && s.step.Request? {
      var rate := s.step.rate;
      RatesSnoc(s.attempts, rate, e.trial, target);
      var t := After(target, s, e);
      assert t.attempts[..|s.attempts|] == s.attempts;
      forall j | 0 <= j < |t.attempts| ensures AttemptAt(target, t.attempts, j) {
        if j < |s.attempts| {
          assert AttemptAt(target, s.attempts, j);
          assert t.attempts[..j] == s.attempts[..j];
        }
      }
      if e.trial.Evidence? && !Matches(e.trial.measured, target) {
        OnwardFits(target, t.attempts, e.trial.measured);
      }
    } else if e.Restarted? && s.attempts != [] {
      var last := Last(s.attempts);
      assert AttemptAt(target, s.attempts, |s.attempts| - 1);
      if last.passed && !Matches(last.measured.value, target) {
        OnwardFits(target, s.attempts, last.measured.value);
      }
    } else if e.Restarted? {
      NoRates();
    }
  }

  lemma NoRates()
    ensures Rates([]) == {}
  {}

  lemma {:induction false} RunKeeps(target: real, events: seq<Event>)
    requires target > 0.0
    ensures Kept(target, Run(target, events))
    decreases |events|
  {
    if events == [] {
      NoRates();
    } else {
      RunKeeps(target, events[..|events| - 1]);
      AfterKeeps(target, Run(target, events[..|events| - 1]), events[|events| - 1]);
    }
  }

  /** Over every run with restarts anywhere: at most four attempts; every request but the first within the limits; a
      rate comes back only straight after an invalid attempt at it; and the search is never refused for want of a free
      rate. */
  lemma SearchSafe(target: real, events: seq<Event>)
    requires target > 0.0
    ensures var s := Run(target, events);
            && |s.attempts| <= 4
            && (s.step.Request? ==> |s.attempts| < 4)
            && (forall j :: 0 <= j < |s.attempts| ==>
                  s.attempts[j].requested == FirstRequest(target) || 100000 <= s.attempts[j].requested <= 20000000)
            && (forall i, j :: 0 <= i < j < |s.attempts| && s.attempts[i].requested == s.attempts[j].requested ==>
                  !s.attempts[j - 1].passed && s.attempts[j - 1].requested == s.attempts[j].requested)
            && (s.step.Raise? ==> s.step.failure == MeasurementInvalid)
  {
    hide Rates, RoundHalfEven, Run;
    RunKeeps(target, events);
    var s := Run(target, events);
    forall j | 0 <= j < |s.attempts|
      ensures s.attempts[j].requested == FirstRequest(target) || 100000 <= s.attempts[j].requested <= 20000000
    {
      assert AttemptAt(target, s.attempts, j);
    }
    forall i, j | 0 <= i < j < |s.attempts| && s.attempts[i].requested == s.attempts[j].requested
      ensures !s.attempts[j - 1].passed && s.attempts[j - 1].requested == s.attempts[j].requested
    {
      assert AttemptAt(target, s.attempts, j);
      RateOf(s.attempts[..j], i);
    }
  }

  lemma RateOf(attempts: seq<Attempt>, i: nat)
    requires i < |attempts|
    ensures attempts[i].requested in Rates(attempts)
  {
    assert attempts[i] in attempts;
  }

  /** The five targets start within the limits, so every request of theirs is. */
  lemma TargetsWithinLimits(k: nat)
    requires k < |TARGETS|
    ensures InLimits(FirstRequest(TARGETS[k]))
  {
    assert TARGETS[k] in [0.5, 0.75, 1.0, 2.0, 4.0];
    assert (500_000.0).Floor == 500_000 && (750_000.0).Floor == 750_000 && (1_000_000.0).Floor == 1_000_000;
    assert (2_000_000.0).Floor == 2_000_000 && (4_000_000.0).Floor == 4_000_000;
  }

  /** A restart changes nothing while the search is under way: it asks for the rate the interrupted run was about to ask
      for. */
  lemma {:induction false} RestartAsksTheSame(target: real, events: seq<Event>)
    requires target > 0.0 && Run(target, events).step.Request?
    ensures Run(target, events + [Restarted]) == Run(target, events)
    decreases |events|
  {
    hide NextRate, Matches, Rates, RoundHalfEven;
    var all := events + [Restarted];
    assert all[..|all| - 1] == events && all[|all| - 1] == Restarted;
    RequestIsResume(target, events);
  }

  lemma {:induction false} RequestIsResume(target: real, events: seq<Event>)
    requires target > 0.0 && Run(target, events).step.Request?
    ensures Resume(target, Run(target, events).attempts) == Run(target, events).step
    decreases |events|
  {
    hide NextRate, Matches, Rates, RoundHalfEven;
    if events != [] {
      var s, e := Run(target, events[..|events| - 1]), events[|events| - 1];
      if e.Tried? && s.step.Request? {
        RatesSnoc(s.attempts, s.step.rate, e.trial, target);
      }
    }
  }

  /** Restarting right after a trial was recorded, before the verdict was, agrees with going on exactly when the verdict
      was not about that last trial: a matched stream loses its pass, a failed verification is tried again. */
  lemma RestartAgreesExactly(target: real, attempts: seq<Attempt>, rate: int, trial: Trial)
    requires target > 0.0 && |attempts| < MAXIMUM_ATTEMPTS
    ensures var (after, next) := Try(target, attempts, rate, trial);
            Resume(target, after) == next <==>
            match trial
            case NoEvidence => |attempts| + 1 < MAXIMUM_ATTEMPTS
            case Evidence(measured, _) => !Matches(measured, target)
  {
    hide NextRate, Matches, Rates, RoundHalfEven;
    RatesSnoc(attempts, rate, trial, target);
  }

  /** The search raises exactly when an unmatched measurement, or the rate it was asked at, is not positive. */
  lemma TryRaisesExactly(target: real, attempts: seq<Attempt>, rate: int, trial: Trial)
    requires target > 0.0 && |attempts| < MAXIMUM_ATTEMPTS
    ensures Try(target, attempts, rate, trial).1.Raise? <==>
            trial.Evidence? && !Matches(trial.measured, target) && (rate <= 0 || !Positive(trial.measured))
  {
    hide Scan, Matches, Positive, Rates, Proposal, NextRate;
    RatesSnoc(attempts, rate, trial, target);
    if trial.Evidence? {
      var after := Try(target, attempts, rate, trial).0;
      RatesBounded(after);
      NextRateExactly(rate, trial.measured, target, Rates(after));
    }
  }

  /** One call of the search is part of such a run, and ends in a verdict or an error. */
  lemma {:induction false} DriveIsRun(target: real, events: seq<Event>, trials: seq<Trial>) returns (all: seq<Event>)
    requires target > 0.0 && |trials| >= MAXIMUM_ATTEMPTS
    ensures var s := Run(target, events); var (attempts, end) := Drive(target, s.attempts, s.step, trials);
            Run(target, all) == Search(attempts, end) && !end.Request?
    decreases MAXIMUM_ATTEMPTS - |Run(target, events).attempts|
  {
    hide Try, Resume, Kept, StepFits;
    var s := Run(target, events);
    SearchSafe(target, events);
    all := events;
    if s.step.Request? {
      var trial := trials[|s.attempts|];
      var more := events + [Tried(trial)];
      assert more[..|more| - 1] == events && more[|more| - 1] == Tried(trial);
      assert Run(target, more) == After(target, s, Tried(trial));
      TryAppends(target, s.attempts, s.step.rate, trial);
      all := DriveIsRun(target, more, trials);
    }
  }

  lemma TryAppends(target: real, attempts: seq<Attempt>, rate: int, trial: Trial)
    requires target > 0.0
    ensures |Try(target, attempts, rate, trial).0| == |attempts| + 1
  {
    hide NextRate, Matches, Rates;
  }

  /** A matched and verified stream: the search passes, and does not if it is restarted before the verdict is
      written. */
  lemma RestartLosesPass()
    ensures var hit := Tried(Evidence(Mbps(1.0), true));
            && Run(1.0, [hit]).step == Finish(Passed)
            && Run(1.0, [hit, Restarted]).step == Finish(MatchedTrialInterrupted)
  {
    var hit := Tried(Evidence(Mbps(1.0), true));
    assert [hit][..0] == [] && [hit, Restarted][..1] == [hit];
    assert Matches(Mbps(1.0), 1.0);
    var s := Run(1.0, []);
    assert Run(1.0, [hit]) == After(1.0, s, hit);
    assert Run(1.0, [hit, Restarted]) == After(1.0, Run(1.0, [hit]), Restarted);
  }
}
