/** `ControllerReplay` and its estimators as the mutable objects they are, proved to compute the specification. */
module RateController {
  import opened Common
  import opened ControllerSpec
  import opened ControllerMeters
  import opened ControllerLadder
  import Runs = ControllerRuns

  class RateEstimator {
    var previousCounter: Option<nat>
    var previousTime: Option<int>
    var estimate: Option<Estimate>

    ghost predicate Valid() reads this { previousCounter.Some? <==> previousTime.Some? }

    function Value(): (r: Rate)
      reads this
    {
      Rate(if previousCounter.Some?
           && previousTime.Some? then Some(Seen(previousCounter.value, previousTime.value)) else None, estimate)
    }

    constructor ()
      ensures Valid() && Value() == NoRate
    {
      previousCounter, previousTime, estimate := None, None, None;
    }

    method Update(counter: nat, now: int, scale: real, decay: Decay) returns (r: Result<bool>)
      requires Valid()
      modifies this
      ensures Valid()
      ensures match RateUpdate(old(Value()), counter, now, scale, decay)
              case Ok((after, reset)) => r == Ok(reset) && Value() == after
              case Err(f) => r == Err(f) && Value() == old(Value())
    {
      if previousCounter.None? || previousTime.None? {
        previousCounter, previousTime := Some(counter), Some(now);
        return Ok(false);
      }
      if now <= previousTime.value {
        return Err(CounterTimeNotIncreasing);
      }
      if counter < previousCounter.value {
        previousCounter, previousTime, estimate := Some(counter), Some(now), None;
        return Ok(true);
      }
      var dt := now - previousTime.value;
      var sample := Sample(counter - previousCounter.value, scale, dt);
      if estimate.None? {
        estimate := Some(Estimate(sample, sample));
      } else {
        estimate := Some(Estimate(Ewma(estimate.value.one, sample, dt, 1000, decay),
                                  Ewma(estimate.value.five, sample, dt, 5000, decay)));
      }
      previousCounter, previousTime := Some(counter), Some(now);
      r := Ok(false);
    }
  }

  class GaugeEstimator {
    var previousTime: Option<int>
    var estimate: Option<Estimate>

    ghost predicate Valid() reads this { previousTime.Some? ==> estimate.Some? }

    function Value(): (g: Gauge)
      reads this
    {
      Gauge(previousTime, estimate)
    }

    constructor ()
      ensures Valid() && Value() == NoGauge
    {
      previousTime, estimate := None, None;
    }

    method Update(sample: real, now: int, decay: Decay) returns (r: Result<bool>)
      requires Valid()
      modifies this
      ensures Valid()
      ensures match GaugeUpdate(old(Value()), sample, now, decay)
              case Ok(after) => r == Ok(true) && Value() == after
              case Err(f) => r == Err(f) && Value() == old(Value())
    {
      if sample < 0.0 {
        return Err(NotFiniteNonnegative);
      }
      if previousTime.None? {
        previousTime, estimate := Some(now), Some(Estimate(sample, sample));
        return Ok(true);
      }
      if now < previousTime.value {
        return Err(GaugeTimeRegressed);
      }
      var dt := now - previousTime.value;
      estimate := Some(Estimate(Ewma(estimate.value.one, sample, dt, 1000, decay),
                                Ewma(estimate.value.five, sample, dt, 5000, decay)));
      previousTime := Some(now);
      r := Ok(true);
    }
  }

  class ControllerReplay {
    const base: nat
    var state: LinkState
    var autoIndex: nat
    var thresholdIndex: nat
    var payloadStep: nat
    var profileIndex: nat
    var pressureTicks: nat
    var recoverySince: Option<int>
    var stableSince: Option<int>
    var unusableSince: Option<int>
    var lastAction: Option<int>
    var lastRestoration: Option<int>
    var history: seq<Applied>
    var lastTickSequence: Option<nat>
    var lastTickTime: Option<int>
    var lastFeedbackSequence: Option<nat>
    var lastFeedbackTime: Option<int>
    const elementary: RateEstimator
    const wire: RateEstimator
    const retransmission: RateEstimator
    const delivered: RateEstimator
    const queueAge: GaugeEstimator
    const loss: GaugeEstimator
    const rtt: GaugeEstimator
    var latestLoss: Option<Reading>
    var latestRtt: Option<Reading>
    var latestRemb: Option<Reading>

    function Core(): (c: Controller)
      reads this
    {
      Controller(base, state, autoIndex, thresholdIndex, payloadStep, profileIndex, pressureTicks, recoverySince,
                 stableSince,
                 unusableSince, lastAction, lastRestoration, history)
    }

    // Seven estimators, no two the same.
    ghost predicate Apart() {
      && elementary != wire && elementary != retransmission && elementary != delivered && wire != retransmission
      && wire != delivered && retransmission != delivered
      && queueAge != loss && queueAge != rtt && loss != rtt
    }

    ghost predicate Metering()
      reads elementary, wire, retransmission, delivered, queueAge, loss, rtt
    {
      && Apart() && elementary.Valid() && wire.Valid() && retransmission.Valid() && delivered.Valid()
      && queueAge.Valid() && loss.Valid() && rtt.Valid()
    }

    function MetersNow(): (m: Meters)
      reads this, elementary, wire, retransmission, delivered, queueAge, loss, rtt
    {
      Meters(lastTickSequence, lastTickTime, lastFeedbackSequence, lastFeedbackTime, elementary.Value(), wire.Value(),
             retransmission.Value(), delivered.Value(), queueAge.Value(), loss.Value(), rtt.Value(), latestLoss,
             latestRtt, latestRemb)
    }

    constructor (target: nat)
      requires target >= MINIMUM_PAYLOAD
      ensures Core() == Initial(target) && MetersNow() == Unmetered && Ladder(Core()) && Metering()
      ensures fresh(elementary) && fresh(wire) && fresh(retransmission) && fresh(delivered)
      ensures fresh(queueAge) && fresh(loss) && fresh(rtt)
    {
      elementary := new RateEstimator();
      wire := new RateEstimator();
      retransmission := new RateEstimator();
      delivered := new RateEstimator();
      queueAge := new GaugeEstimator();
      loss := new GaugeEstimator();
      rtt := new GaugeEstimator();
      lastTickSequence, lastTickTime, lastFeedbackSequence, lastFeedbackTime := None, None, None, None;
      latestLoss, latestRtt, latestRemb := None, None, None;
      base, state := target, Stable;
      autoIndex, thresholdIndex, payloadStep, profileIndex, pressureTicks := 0, 0, 0, 0, 0;
      recoverySince, stableSince, unusableSince, lastAction, lastRestoration := None, None, None, None, None;
      history := [];
    }

    method DegradeStep(now: int) returns (action: Action)
      modifies `autoIndex, `thresholdIndex, `payloadStep, `profileIndex, `history, `lastAction
      ensures (Core(), action) == Degrade(old(Core()), now)
    {
      action := NoAction;
      if autoIndex + 1 <= LAST_CAP {
        autoIndex := autoIndex + 1;
        action := Reduce(Emphasis);
      } else if thresholdIndex + 1 <= LAST_THRESHOLD {
        thresholdIndex := thresholdIndex + 1;
        action := Reduce(Threshold);
      } else if PayloadTarget(base, payloadStep) != MINIMUM_PAYLOAD {
        payloadStep := payloadStep + 1;
        action := Reduce(Payload);
      } else if profileIndex + 1 <= LAST_PROFILE {
        profileIndex := profileIndex + 1;
        action := Reduce(Profile);
      }
      if action != NoAction {
        history := history + [Applied(action.knob, now)];
        lastAction := Some(now);
      }
    }

    method RestoreStep(now: int) returns (action: Action)
      requires Ladder(Core())
      modifies `autoIndex, `thresholdIndex, `payloadStep, `profileIndex, `history, `lastAction, `lastRestoration
      ensures (Core(), action) == Relax(old(Core()), now)
    {
      if history == [] {
        return NoAction;
      }
      var applied := history[|history| - 1];
      if now - applied.at < 2000 {
        return NoAction;
      }
      if lastRestoration.Some? && now - lastRestoration.value < 2000 {
        return NoAction;
      }
      assert applied.knob == KnobAt(base, |history| - 1);
      history := history[..|history| - 1];
      match applied.knob {
        case Profile => profileIndex := profileIndex - 1;
        case Payload => payloadStep := payloadStep - 1;
        case Threshold => thresholdIndex := thresholdIndex - 1;
        case Emphasis => autoIndex := autoIndex - 1;
      }
      lastAction, lastRestoration := Some(now), Some(now);
      action := Restore(applied.knob);
    }

    // The counters a tick updates first.
    method ObserveTick(t: Tick)
      modifies `pressureTicks, `recoverySince, `stableSince
      ensures Core() == Observe(old(Core()), t)
    {
      pressureTicks := if t.pressure then pressureTicks + 1 else 0;
      if t.compliant {
        if recoverySince.None? { recoverySince := Some(t.now); }
      } else {
        recoverySince, stableSince := None, None;
      }
    }

    method ChangeState(t: Tick) returns (action: Action)
      modifies `state, `stableSince, `lastRestoration
      ensures (Core(), action) == Transition(old(Core()), t)
    {
      action := NoAction;
      if state != Unusable {
        if t.hard {
          state, stableSince := Congested, None;
        } else if (state == Stable || state == Recovery) && pressureTicks >= 3 {
          state, stableSince := RatePressure, None;
        } else if (state == RatePressure || state == Congested) && recoverySince.Some?
        && t.now - recoverySince.value >= 1000 {
          state, stableSince, lastRestoration := Recovery, recoverySince, Some(t.now);
          action := RequestRecoveryIdr;
        } else if state == Recovery && stableSince.Some? && t.now - stableSince.value >= 5000 {
          state := Stable;
        }
      }
    }

    method StopIfUnusable(t: Tick, before: Action) returns (action: Action)
      modifies `state, `unusableSince
      ensures (Core(), action) == CheckUnusable(old(Core()), t, before)
    {
      hide AtUnusableLevels;
      action := before;
      if state != Unusable && AtUnusableLevels(Core()) && t.hard {
        if unusableSince.None? { unusableSince := Some(t.now); }
        if t.now - unusableSince.value >= 3000 {
          state := Unusable;
          action := StopUnusableLink;
        }
      } else {
        unusableSince := None;
      }
    }

    // The state machine of one tick, once its predicates are known.
    method DecideTick(t: Tick) returns (action: Action)
      requires Ladder(Core())
      modifies `state, `autoIndex, `thresholdIndex, `payloadStep, `profileIndex, `pressureTicks, `recoverySince
      modifies `stableSince, `unusableSince, `lastAction, `lastRestoration, `history
      ensures (Core(), action) == Decide(old(Core()), t) && Ladder(Core())
    {
      hide Degrade, Relax, AtUnusableLevels, Ladder;
      DecideLadder(Core(), t);
      ObserveTick(t);
      action := ChangeState(t);
      action := StopIfUnusable(t, action);
      SameLadder(old(Core()), Core());
      if action == NoAction && (state == RatePressure || state == Congested)
         && (lastAction.None? || t.now - lastAction.value >= 500) {
        action := DegradeStep(t.now);
      } else if action == NoAction && t.compliant && (state == Recovery || state == Stable) {
        action := RestoreStep(t.now);
      }
    }

    method SampleLoss(f: Feedback, decay: Decay) returns (failure: Option<Failure>)
      requires Metering()
      modifies `latestLoss, loss
      ensures Metering() && Metered(MetersNow(), failure) == TakeLoss(old(MetersNow()), f, decay)
    {
      hide GaugeUpdate;
      if f.loss.None? {
        return None;
      }
      var updated := loss.Update(f.loss.value, f.at, decay);
      if updated.Err? {
        return Some(updated.failure);
      }
      latestLoss := Some(Reading(f.loss.value, f.at));
      failure := None;
    }

    method SampleRtt(f: Feedback, decay: Decay) returns (failure: Option<Failure>)
      requires Metering()
      modifies `latestRtt, rtt
      ensures Metering() && Metered(MetersNow(), failure) == TakeRtt(old(MetersNow()), f, decay)
    {
      hide GaugeUpdate;
      if f.rtt.None? {
        return None;
      }
      var updated := rtt.Update(f.rtt.value, f.at, decay);
      if updated.Err? {
        return Some(updated.failure);
      }
      latestRtt := Some(Reading(f.rtt.value, f.at));
      failure := None;
    }

    // One feedback event, after the checks on its order.
    method TakeEvent(f: Feedback, sequence: nat, now: int, decay: Decay) returns (failure: Option<Failure>)
      requires Metering()
      modifies `lastFeedbackSequence, `lastFeedbackTime, `latestLoss, `latestRtt, `latestRemb, loss, rtt
      ensures Metering() && Metered(MetersNow(), failure) == TakeFeedback(old(MetersNow()), f, sequence, now, decay)
    {
      hide TakeLoss, TakeRtt;
      if f.sequence >= sequence || f.at > now {
        return Some(FutureFeedback);
      }
      if lastFeedbackSequence.Some? && f.sequence <= lastFeedbackSequence.value {
        return Some(FeedbackSequenceNotIncreasing);
      }
      if lastFeedbackTime.Some? && f.at < lastFeedbackTime.value {
        return Some(FeedbackTimeRegressed);
      }
      lastFeedbackSequence, lastFeedbackTime := Some(f.sequence), Some(f.at);
      failure := SampleLoss(f, decay);
      if failure.Some? {
        return;
      }
      failure := SampleRtt(f, decay);
      if failure.None? && f.remb.Some? && f.rembValid {
        latestRemb := Some(Reading(f.remb.value, f.at));
      }
    }

    // The feedback consumed by a record, event by event.
    method TakeEach(r: Record, decay: Decay) returns (failure: Option<Failure>)
      requires Metering()
      modifies `lastFeedbackSequence, `lastFeedbackTime, `latestLoss, `latestRtt, `latestRemb, loss, rtt
      ensures Metering()
      ensures Metered(MetersNow(), failure) == TakeAll(old(MetersNow()), r.feedback, r.sequence, r.now, decay)
    {
      hide TakeFeedback;
      ghost var whole := TakeAll(MetersNow(), r.feedback, r.sequence, r.now, decay);
      var i := 0;
      assert r.feedback[0..] == r.feedback;
      while i < |r.feedback|
        invariant 0 <= i <= |r.feedback| && Metering()
        invariant whole == TakeAll(MetersNow(), r.feedback[i..], r.sequence, r.now, decay)
      {
        assert r.feedback[i..][0] == r.feedback[i] && r.feedback[i..][1..] == r.feedback[i + 1..];
        failure := TakeEvent(r.feedback[i], r.sequence, r.now, decay);
        if failure.Some? {
          return;
        }
        i := i + 1;
      }
      assert r.feedback[i..] == [];
      failure := None;
    }

    // The counters of a record.
    method Count(r: Record, decay: Decay) returns (failure: Option<Failure>)
      requires Metering()
      modifies elementary, wire, retransmission, delivered, queueAge
      ensures Metering() && Metered(MetersNow(), failure) == TakeCounters(old(MetersNow()), r, decay)
    {
      hide RateUpdate, GaugeUpdate;
      var first := elementary.Update(r.elementaryBytes, r.now, 8.0, decay);
      if first.Err? {
        return Some(first.failure);
      }
      var second := wire.Update(r.wireBytes, r.now, 8.0, decay);
      if second.Err? {
        return Some(second.failure);
      }
      var third := retransmission.Update(r.retransmissionBytes, r.now, 8.0, decay);
      if third.Err? {
        return Some(third.failure);
      }
      var fourth := delivered.Update(r.deliveredFrames, r.now, 1.0, decay);
      if fourth.Err? {
        return Some(fourth.failure);
      }
      var fifth := queueAge.Update(r.oldestAge, r.now, decay);
      if fifth.Err? {
        return Some(fifth.failure);
      }
      failure := None;
    }

    // Everything a record measures, in the order it is taken in.
    method IngestRecord(r: Record, decay: Decay) returns (failure: Option<Failure>)
      requires Metering()
      modifies `lastTickSequence, `lastTickTime, `lastFeedbackSequence, `lastFeedbackTime
      modifies `latestLoss, `latestRtt, `latestRemb
      modifies elementary, wire, retransmission, delivered, queueAge, loss, rtt
      ensures Metering() && Metered(MetersNow(), failure) == Ingest(old(MetersNow()), r, decay)
    {
      hide TakeAll, TakeCounters;
      if lastTickSequence.Some? && r.sequence <= lastTickSequence.value {
        return Some(TickSequenceNotIncreasing);
      }
      if lastTickTime.Some? && r.now <= lastTickTime.value {
        return Some(TickTimeNotIncreasing);
      }
      lastTickSequence, lastTickTime := Some(r.sequence), Some(r.now);
      failure := TakeEach(r, decay);
      if failure.None? {
        failure := Count(r, decay);
      }
    }

    /** One record of the trace: the whole new controller and meters, whether it is refused or decided on. */
    method ProcessRecord(r: Record, decay: Decay) returns (outcome: Result<Action>)
      requires Ladder(Core()) && Metering()
      modifies this, elementary, wire, retransmission, delivered, queueAge, loss, rtt
      ensures Ladder(Core()) && Metering()
      ensures Processed(Core(), MetersNow(), outcome) == Process(old(Core()), old(MetersNow()), r, decay)
    {
      hide Ingest, Evaluate, Decide, Ladder;
      var failure := IngestRecord(r, decay);
      if failure.Some? {
        return Err(failure.value);
      }
      var action := DecideTick(Evaluate(Core(), MetersNow(), r));
      outcome := Ok(action);
    }
  }

  /** A controller at its initial levels, or a base target below the minimum refused. */
  method NewReplay(target: nat) returns (r: Option<ControllerReplay>)
    ensures r.Some? <==> target >= MINIMUM_PAYLOAD
    ensures r.Some? ==> r.value.Core() == Initial(target) && Ladder(r.value.Core())
    ensures r.Some? ==> r.value.MetersNow() == Unmetered && r.value.Metering()
  {
    if target < MINIMUM_PAYLOAD {
      return None;
    }
    var replay := new ControllerReplay(target);
    r := Some(replay);
  }

  // -------- replays are runs --------

  datatype Replay = Replay(trace: Runs.Trace, meters: Meters)

  // The records of a trace file, replayed from the start.
  function ReplayTrace(base: nat, records: seq<Record>, decay: Decay): Result<Replay> {
    if records == [] then Ok(Replay(Runs.Trace([Initial(base)], [], []), Unmetered))
    else
      var before := ReplayTrace(base, records[..|records| - 1], decay);
      if before.Err? || |before.value.trace.states| == 0 then before
      else
        var t, r := before.value.trace, records[|records| - 1];
        var c := t.states[|t.states| - 1];
        match Process(c, before.value.meters, r, decay)
        case Processed(_, _, Err(f)) => Err(f)
        case Processed(d, m, Ok(action)) =>
          Ok(Replay(Runs.Trace(t.states + [d], t.ticks + [Evaluate(c, m, r)], t.actions + [action]), m))
  }

  lemma {:induction false} TakeAllTimes(m: Meters, feedback: seq<Feedback>, sequence: nat, now: int, decay: Decay)
    ensures TakeAll(m, feedback, sequence, now, decay).meters.lastTime == m.lastTime
    decreases feedback
  {
    if feedback != [] {
      var first := TakeFeedback(m, feedback[0], sequence, now, decay);
      if first.failure.None? {
        TakeAllTimes(first.meters, feedback[1..], sequence, now, decay);
      }
    }
  }

  lemma IngestTimes(m: Meters, r: Record, decay: Decay)
    ensures Ingest(m, r, decay).failure.None? ==>
              && Ingest(m, r, decay).meters.lastTime == Some(r.now)
              && (m.lastTime.Some? ==> m.lastTime.value < r.now)
  {
    TakeAllTimes(m.(lastSequence := Some(r.sequence), lastTime := Some(r.now)), r.feedback, r.sequence, r.now, decay);
  }

  /** Every trace the replay accepts is a run, so all the run theorems hold of it. */
  lemma {:induction false} ReplayIsRun(base: nat, records: seq<Record>, decay: Decay)
    requires ReplayTrace(base, records, decay).Ok?
    ensures var replay := ReplayTrace(base, records, decay).value;
            && Runs.Run(replay.trace) && replay.trace.states[0] == Initial(base) && |replay.trace.ticks| == |records|
            && replay.meters.lastTime == (if records == [] then None else Some(records[|records| - 1].now))
            && (forall i :: 0 <= i < |records| ==> replay.trace.ticks[i].now == records[i].now)
            && (forall i :: 0 <= i < |records| && replay.trace.ticks[i].hard && replay.trace.ticks[i].compliant ==>
                  records[i].pacerQueueBytes >= PACER_LIMIT)
  {
    hide Ingest, Decide, Evaluate;
    if records != [] {
      var n := |records| - 1;
      ReplayIsRun(base, records[..n], decay);
      var before := ReplayTrace(base, records[..n], decay).value;
      var t, r := before.trace, records[n];
      IngestTimes(before.meters, r, decay);
      EvaluateAt(t.states[n], Ingest(before.meters, r, decay).meters, r);
      var after := ReplayTrace(base, records, decay).value.trace;
      forall i | 0 <= i < |after.ticks|
        ensures Runs.Stepped(after, i)
      {
        if i < n {
          assert Runs.Stepped(t, i);
        }
      }
    }
  }

  lemma EvaluateAt(c: Controller, m: Meters, r: Record)
    ensures Evaluate(c, m, r).now == r.now
    ensures Evaluate(c, m, r).hard && Evaluate(c, m, r).compliant ==> r.pacerQueueBytes >= PACER_LIMIT
  {
    HardAndCompliant(c, m, r);
  }

  /** While the pacer queue stays below 4 MiB, a replayed link enters RECOVERY only after at least 1000 ms without a
      hard tick. */
  lemma RecoveryAfterQuiet(base: nat, records: seq<Record>, decay: Decay, i: nat) returns (k: nat)
    requires ReplayTrace(base, records, decay).Ok? && i < |records|
    requires forall m :: 0 <= m <= i ==> records[m].pacerQueueBytes < PACER_LIMIT
    requires var t := ReplayTrace(base, records, decay).value.trace;
             && |t.states| == |records| + 1 && t.states[i].state != Recovery && t.states[i + 1].state == Recovery
    ensures k <= i && records[i].now - records[k].now >= 1000
    ensures var t := ReplayTrace(base, records, decay).value.trace;
            |t.ticks| == |records| && forall m :: k <= m <= i ==> !t.ticks[m].hard && t.ticks[m].compliant
  {
    hide ReplayTrace;
    ReplayIsRun(base, records, decay);
    var t := ReplayTrace(base, records, decay).value.trace;
    Runs.RecoveryEntry(t, i);
    k :| 0 <= k <= i && t.ticks[i].now - t.ticks[k].now >= 1000 && forall m :: k <= m <= i ==> t.ticks[m].compliant;
  }
}
