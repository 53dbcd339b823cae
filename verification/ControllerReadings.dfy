/** What a tick's predicates mean in terms of the trace: the feedback, the counters and the caps that were recorded. */
module ControllerReadings {
  import opened Common
  import opened ControllerSpec
  import opened ControllerLadder
  import opened ControllerMeters
  import opened RateController

  // -------- smoothing --------

  /** A gauge and a rate move towards each sample by exactly what the decay leaves: the one-second estimate with the
      time constant of 1000 ms, the five-second estimate with 5000 ms. */
  lemma StepResponse(before: Estimate, sample: real, dt: int, decay: Decay)
    ensures var after := Smooth(Some(before), sample, dt, decay);
            && after.one - sample == decay(dt, 1000) * (before.one - sample)
            && after.five - sample == decay(dt, 5000) * (before.five - sample)
  {}

  // -------- what was recorded --------

  ghost predicate LossWithin(records: seq<Record>, low: real, high: real) {
    forall i, k :: 0 <= i < |records| && 0 <= k < |records[i].feedback| && records[i].feedback[k].loss.Some? ==>
      low <= records[i].feedback[k].loss.value <= high
  }

  ghost predicate RttWithin(records: seq<Record>, low: real, high: real) {
    forall i, k :: 0 <= i < |records| && 0 <= k < |records[i].feedback| && records[i].feedback[k].rtt.Some? ==>
      low <= records[i].feedback[k].rtt.value <= high
  }

  // Every bandwidth estimate that counts is at least x.
  ghost predicate RembAtLeast(records: seq<Record>, x: real) {
    forall i, k :: 0 <= i < |records| && 0 <= k < |records[i].feedback| && Counts(records[i].feedback[k]) ==>
      x <= records[i].feedback[k].remb.value
  }

  predicate Counts(f: Feedback) { f.remb.Some? && f.rembValid }

  // Between neighbouring records whose wire counter did not go back, the rate in bits per second lies in the range.
  ghost predicate WireWithin(records: seq<Record>, low: real, high: real) {
    forall i :: 0 < i < |records| ==> RateWithin(records[i - 1], records[i], low, high)
  }

  ghost predicate RateWithin(p: Record, q: Record, low: real, high: real) {
    p.wireBytes <= q.wireBytes && p.now < q.now ==>
      var ms, bits := (q.now - p.now) as real, 8.0 * (q.wireBytes - p.wireBytes) as real;
      low * ms <= 1000.0 * bits <= high * ms
  }

  // The last loss and the last round trip reported.
  function LastLossIn(feedback: seq<Feedback>): Option<Reading>
    decreases |feedback|
  {
    if feedback == [] then None
    else
      var f := feedback[|feedback| - 1];
      if f.loss.Some? then Some(Reading(f.loss.value, f.at)) else LastLossIn(feedback[..|feedback| - 1])
  }

  function LastRttIn(feedback: seq<Feedback>): Option<Reading>
    decreases |feedback|
  {
    if feedback == [] then None
    else
      var f := feedback[|feedback| - 1];
      if f.rtt.Some? then Some(Reading(f.rtt.value, f.at)) else LastRttIn(feedback[..|feedback| - 1])
  }

  // All feedback of a trace, in order.
  function AllFeedback(records: seq<Record>): seq<Feedback>
    decreases |records|
  {
    if records == [] then [] else AllFeedback(records[..|records| - 1]) + records[|records| - 1].feedback
  }

  // -------- the meters after a trace --------

  // Bounds on everything a trace reports.
  datatype Bounds = Bounds(lossLow: real, lossHigh: real, rttLow: real, rttHigh: real, remb: real, wireLow: real,
                           wireHigh: real)

  ghost predicate FeedbackBounded(f: Feedback, b: Bounds) {
    && (f.loss.Some? ==> b.lossLow <= f.loss.value <= b.lossHigh)
    && (f.rtt.Some? ==> b.rttLow <= f.rtt.value <= b.rttHigh)
    && (Counts(f) ==> b.remb <= f.remb.value)
  }

  ghost predicate GaugesBounded(m: Meters, b: Bounds) {
    && Within(m.loss.estimate, b.lossLow, b.lossHigh) && Within(m.rtt.estimate, b.rttLow, b.rttHigh)
    && (m.loss.previous.Some? <==> m.loss.estimate.Some?) && (m.rtt.previous.Some? <==> m.rtt.estimate.Some?)
    && (m.latestLoss.Some? ==> m.loss.estimate.Some?) && (m.latestRtt.Some? ==> m.rtt.estimate.Some?)
    && (m.latestRemb.Some? ==> b.remb <= m.latestRemb.value.value)
  }

  lemma GaugeBounded(g: Gauge, sample: real, now: int, decay: Decay, low: real, high: real)
    requires IsDecay(decay) && Within(g.estimate, low, high) && low <= sample <= high
    requires g.previous.Some? <==> g.estimate.Some?
    ensures var r := GaugeUpdate(g, sample, now, decay);
            r.Ok? ==> Within(r.value.estimate, low, high) && r.value.previous.Some? && r.value.estimate.Some?
  {
    hide Smooth;
    if g.previous.Some? && now >= g.previous.value {
      SmoothWithin(g.estimate, sample, now - g.previous.value, decay, low, high);
    }
  }

  lemma TakeBounded(m: Meters, f: Feedback, sequence: nat, now: int, decay: Decay, b: Bounds)
    requires IsDecay(decay) && GaugesBounded(m, b) && FeedbackBounded(f, b)
    ensures var r := TakeFeedback(m, f, sequence, now, decay);
            r.failure.None? ==>
              && GaugesBounded(r.meters, b) && r.meters.wire == m.wire
              && r.meters.latestLoss == (if f.loss.Some? then Some(Reading(f.loss.value, f.at)) else m.latestLoss)
              && r.meters.latestRtt == (if f.rtt.Some? then Some(Reading(f.rtt.value, f.at)) else m.latestRtt)
              && f.at <= now
  {
    hide GaugeUpdate;
    if f.loss.Some? { GaugeBounded(m.loss, f.loss.value, f.at, decay, b.lossLow, b.lossHigh); }
    if f.rtt.Some? { GaugeBounded(m.rtt, f.rtt.value, f.at, decay, b.rttLow, b.rttHigh); }
  }

  ghost predicate AllBounded(feedback: seq<Feedback>, b: Bounds) {
    forall k :: 0 <= k < |feedback| ==> FeedbackBounded(feedback[k], b)
  }

  // A later reading if there is one.
  function Or(later: Option<Reading>, before: Option<Reading>): Option<Reading> { if later.Some? then later
                                                                                 else before }

  lemma LastHead(f: Feedback, rest: seq<Feedback>)
    ensures LastLossIn([f] + rest)
            == Or(LastLossIn(rest), if f.loss.Some? then Some(Reading(f.loss.value, f.at)) else None)
    ensures LastRttIn([f] + rest) == Or(LastRttIn(rest), if f.rtt.Some? then Some(Reading(f.rtt.value, f.at)) else None)
    decreases |rest|
  {
    var all := [f] + rest;
    if rest == [] {
      assert all[..0] == [];
    } else {
      assert all[..|all| - 1] == [f] + rest[..|rest| - 1];
      LastHead(f, rest[..|rest| - 1]);
    }
  }

  lemma {:induction false} LastAppend(xs: seq<Feedback>, ys: seq<Feedback>)
    ensures LastLossIn(xs + ys) == Or(LastLossIn(ys), LastLossIn(xs))
    ensures LastRttIn(xs + ys) == Or(LastRttIn(ys), LastRttIn(xs))
    decreases |ys|
  {
    if ys == [] {
      assert xs + ys == xs;
    } else {
      var n := |ys| - 1;
      assert (xs + ys)[..|xs + ys| - 1] == xs + ys[..n];
      LastAppend(xs, ys[..n]);
    }
  }

  lemma {:induction false} TakeAllBounded(m: Meters, feedback: seq<Feedback>, sequence: nat, now: int, decay: Decay,
                                          b: Bounds)
    requires IsDecay(decay) && GaugesBounded(m, b) && AllBounded(feedback, b)
    ensures var r := TakeAll(m, feedback, sequence, now, decay);
            r.failure.None? ==>
              && GaugesBounded(r.meters, b) && r.meters.wire == m.wire
              && r.meters.latestLoss == Or(LastLossIn(feedback), m.latestLoss)
              && r.meters.latestRtt == Or(LastRttIn(feedback), m.latestRtt)
              && (forall k :: 0 <= k < |feedback| ==> feedback[k].at <= now)
    decreases feedback
  {
    hide TakeFeedback, GaugesBounded, FeedbackBounded;
    if feedback != [] {
      var f, rest := feedback[0], feedback[1..];
      assert feedback == [f] + rest;
      TakeBounded(m, f, sequence, now, decay, b);
      var first := TakeFeedback(m, f, sequence, now, decay);
      if first.failure.None? {
        TakeAllBounded(first.meters, rest, sequence, now, decay, b);
        LastHead(f, rest);
      }
    }
  }

  ghost predicate WireBounded(m: Meters, records: seq<Record>, b: Bounds) {
    && Within(m.wire.estimate, b.wireLow, b.wireHigh)
    && m.wire.previous == (if records == [] then None
                           else Some(Seen(records[|records| - 1].wireBytes, records[|records| - 1].now)))
    && (|records| >= 2 ==>
          (m.wire.estimate.Some? <== records[|records| - 2].wireBytes <= records[|records| - 1].wireBytes))
    && (m.wire.estimate.Some? ==>
          |records| >= 2 && records[|records| - 2].wireBytes <= records[|records| - 1].wireBytes)
  }

  ghost predicate Bounded(records: seq<Record>, b: Bounds) {
    && LossWithin(records, b.lossLow, b.lossHigh) && RttWithin(records, b.rttLow, b.rttHigh)
    && RembAtLeast(records, b.remb) && WireWithin(records, b.wireLow, b.wireHigh)
  }

  // One reading of the wire counter.
  lemma WireStep(rate: Rate, last: Seen, now: Seen, decay: Decay, b: Bounds)
    requires IsDecay(decay) && Within(rate.estimate, b.wireLow, b.wireHigh) && rate.previous == Some(last)
    requires last.at < now.at && last.counter <= now.counter ==>
               var ms, bits := (now.at - last.at) as real, 8.0 * (now.counter - last.counter) as real;
               b.wireLow * ms <= 1000.0 * bits <= b.wireHigh * ms
    ensures var r := RateUpdate(rate, now.counter, now.at, 8.0, decay);
            r.Ok? ==>
              && r.value.0.previous == Some(now) && Within(r.value.0.estimate, b.wireLow, b.wireHigh)
              && (r.value.0.estimate.Some? <==> last.counter <= now.counter)
  {
    hide Smooth;
    if last.at < now.at && last.counter <= now.counter {
      var dt := now.at - last.at;
      SampleWithin(now.counter - last.counter, dt, b.wireLow, b.wireHigh);
      SmoothWithin(rate.estimate, Sample(now.counter - last.counter, 8.0, dt), dt, decay, b.wireLow, b.wireHigh);
    }
  }

  lemma SampleWithin(delta: nat, dt: int, low: real, high: real)
    requires dt > 0 && low * dt as real <= 1000.0 * (8.0 * delta as real) <= high * dt as real
    ensures low <= Sample(delta, 8.0, dt) <= high
  {
    var x, ms := Sample(delta, 8.0, dt), dt as real;
    assert x * ms == delta as real * 8.0 * 1000.0;
    assert x < low ==> (low - x) * ms > 0.0;
    assert x > high ==> (x - high) * ms > 0.0;
  }

  lemma CountKeeps(m: Meters, r: Record, decay: Decay)
    ensures var c := TakeCounters(m, r, decay);
            c.failure.None? ==>
              && c.meters.loss == m.loss && c.meters.rtt == m.rtt && c.meters.latestLoss == m.latestLoss
              && c.meters.latestRtt == m.latestRtt && c.meters.latestRemb == m.latestRemb
              && RateUpdate(m.wire, r.wireBytes, r.now, 8.0, decay).Ok?
              && c.meters.wire == RateUpdate(m.wire, r.wireBytes, r.now, 8.0, decay).value.0
  {
    hide RateUpdate, GaugeUpdate;
  }

  ghost predicate MetersTell(m: Meters, records: seq<Record>, b: Bounds) {
    && GaugesBounded(m, b) && WireBounded(m, records, b)
    && m.latestLoss == LastLossIn(AllFeedback(records)) && m.latestRtt == LastRttIn(AllFeedback(records))
  }

  // The meters once the feedback of a record is taken in.
  lemma FedTells(m: Meters, records: seq<Record>, r: Record, decay: Decay, b: Bounds)
    requires IsDecay(decay) && MetersTell(m, records, b) && Bounded(records + [r], b)
    ensures var started := m.(lastSequence := Some(r.sequence), lastTime := Some(r.now));
            var fed := TakeAll(started, r.feedback, r.sequence, r.now, decay);
            fed.failure.None? ==>
              && GaugesBounded(fed.meters, b) && fed.meters.wire == m.wire
              && fed.meters.latestLoss == LastLossIn(AllFeedback(records + [r]))
              && fed.meters.latestRtt == LastRttIn(AllFeedback(records + [r]))
  {
    hide TakeAll, GaugesBounded, WireBounded;
    var all := records + [r];
    assert all[|records|] == r && all[..|all| - 1] == records;
    var started := m.(lastSequence := Some(r.sequence), lastTime := Some(r.now));
    assert GaugesBounded(started, b) by { SameGauges(m, started, b); }
    assert AllBounded(r.feedback, b) by { LastFeedback(all, b); }
    TakeAllBounded(started, r.feedback, r.sequence, r.now, decay, b);
    LastAppend(AllFeedback(records), r.feedback);
  }

  lemma WireTells(m: Meters, after: Meters, records: seq<Record>, r: Record, decay: Decay, b: Bounds)
    requires IsDecay(decay) && WireBounded(m, records, b) && Bounded(records + [r], b)
    requires RateUpdate(m.wire, r.wireBytes, r.now, 8.0, decay).Ok?
    requires after.wire == RateUpdate(m.wire, r.wireBytes, r.now, 8.0, decay).value.0
    ensures WireBounded(after, records + [r], b)
  {
    hide RateUpdate, Within, LossWithin, RttWithin, RembAtLeast;
    var all, n := records + [r], |records|;
    assert all[n] == r;
    if n == 0 {
      assert all == [r];
      FirstWire(m, after, r, decay, b);
    } else {
      assert all[n - 1] == records[n - 1] && RateWithin(all[n - 1], all[n], b.wireLow, b.wireHigh);
      WireStep(m.wire, Seen(records[n - 1].wireBytes, records[n - 1].now), Seen(r.wireBytes, r.now), decay, b);
    }
  }

  lemma IngestTells(m: Meters, records: seq<Record>, r: Record, decay: Decay, b: Bounds)
    requires IsDecay(decay) && MetersTell(m, records, b) && Bounded(records + [r], b)
    ensures var i := Ingest(m, r, decay); i.failure.None? ==> MetersTell(i.meters, records + [r], b)
  {
    hide TakeAll, TakeCounters, GaugesBounded, WireBounded, RateUpdate, Bounded, AllFeedback, LastLossIn, LastRttIn;
    FedTells(m, records, r, decay, b);
    var fed := TakeAll(m.(lastSequence := Some(r.sequence), lastTime := Some(r.now)), r.feedback, r.sequence, r.now,
                       decay);
    CountKeeps(fed.meters, r, decay);
    var counted := TakeCounters(fed.meters, r, decay);
    if fed.failure.None? && counted.failure.None? {
      SameGauges(fed.meters, counted.meters, b);
      assert WireBounded(fed.meters, records, b) by { SameWire(m, fed.meters, records, b); }
      WireTells(fed.meters, counted.meters, records, r, decay, b);
    }
  }

  lemma SameWire(m: Meters, after: Meters, records: seq<Record>, b: Bounds)
    requires WireBounded(m, records, b) && after.wire == m.wire
    ensures WireBounded(after, records, b)
  {}

  lemma FirstWire(m: Meters, after: Meters, r: Record, decay: Decay, b: Bounds)
    requires m.wire.previous.None? && WireBounded(m, [], b)
    requires RateUpdate(m.wire, r.wireBytes, r.now, 8.0, decay).Ok?
    requires after.wire == RateUpdate(m.wire, r.wireBytes, r.now, 8.0, decay).value.0
    ensures WireBounded(after, [r], b)
  {}

  lemma SameGauges(m: Meters, after: Meters, b: Bounds)
    requires GaugesBounded(m, b) && after.loss == m.loss && after.rtt == m.rtt
    requires after.latestLoss == m.latestLoss && after.latestRtt == m.latestRtt && after.latestRemb == m.latestRemb
    ensures GaugesBounded(after, b)
  {}

  lemma LastFeedback(records: seq<Record>, b: Bounds)
    requires records != [] && Bounded(records, b)
    ensures AllBounded(records[|records| - 1].feedback, b)
  {}

  lemma BoundedPrefix(records: seq<Record>, b: Bounds)
    requires records != [] && Bounded(records, b)
    ensures Bounded(records[..|records| - 1], b)
  {}

  /** After every accepted trace the smoothed loss, round trip and wire rate lie within the range of what was recorded,
      the latest loss and round trip are the last ones reported, and there is a wire rate exactly if the last two
      counters show one. */
  lemma {:induction false} ReplayTells(base: nat, records: seq<Record>, decay: Decay, b: Bounds)
    requires IsDecay(decay) && ReplayTrace(base, records, decay).Ok? && Bounded(records, b)
    ensures MetersTell(ReplayTrace(base, records, decay).value.meters, records, b)
    decreases |records|
  {
    hide Ingest, Decide, Evaluate, MetersTell, Bounded;
    if records == [] {
      assert MetersTell(Unmetered, [], b) by { NothingTold(b); }
    } else {
      var n := |records| - 1;
      var front, r := records[..n], records[n];
      BoundedPrefix(records, b);
      ReplayTells(base, front, decay, b);
      ReplayIsRun(base, front, decay);
      assert front + [r] == records;
      IngestTells(ReplayTrace(base, front, decay).value.meters, front, r, decay, b);
    }
  }

  lemma NothingTold(b: Bounds)
    ensures MetersTell(Unmetered, [], b)
  {}

  // The last tick of a trace is evaluated on the meters after it.
  lemma LastTick(base: nat, records: seq<Record>, decay: Decay)
    requires records != [] && ReplayTrace(base, records, decay).Ok?
    ensures var t := ReplayTrace(base, records, decay).value.trace; var n := |records| - 1;
            && |t.ticks| == n + 1 && |t.states| == n + 2 && t.states[n].base == base
            && t.ticks[n] == Evaluate(t.states[n], ReplayTrace(base, records, decay).value.meters, records[n])
  {
    hide Ingest, Decide, Evaluate;
    ReplayIsRun(base, records, decay);
    ReplayIsRun(base, records[..|records| - 1], decay);
    Runs.RunLadder(ReplayTrace(base, records, decay).value.trace, |records| - 1);
  }

  // -------- the predicates --------

  // A loss, a round trip: reported within the last two seconds.
  predicate Recent(r: Option<Reading>, now: int) { r.Some? && r.value.at <= now <= r.value.at + 2000 }

  // The wire counter of the last two records shows a rate.
  predicate Measured(records: seq<Record>) {
    |records| >= 2 && records[|records| - 2].wireBytes <= records[|records| - 1].wireBytes
  }

  function Last(records: seq<Record>): Record
    requires records != []
  {
    records[|records| - 1]
  }

  ghost predicate Replayed(base: nat, records: seq<Record>, decay: Decay, b: Bounds) {
    && IsDecay(decay) && base >= 100000 && records != [] && ReplayTrace(base, records, decay).Ok? && Bounded(records, b)
  }

  // The tick of the last record.
  function TickOf(base: nat, records: seq<Record>, decay: Decay): Tick
    requires records != [] && ReplayTrace(base, records, decay).Ok?
  {
    LastTick(base, records, decay);
    ReplayTrace(base, records, decay).value.trace.ticks[|records| - 1]
  }

  lemma TargetBelow(base: nat, step: nat)
    requires base >= 100000
    ensures 100000 <= PayloadTarget(base, step) <= base
  {
    ShrinkPositive(step);
    var s := Shrink(step);
    assert base as real * s <= base as real * 1.0;
    RoundMonotone(Reduced(base, step), base as real);
    assert RoundHalfEven(base as real) == base;
  }

  // What the last tick is evaluated on.
  lemma Basis(base: nat, records: seq<Record>, decay: Decay, b: Bounds) returns (c: Controller, m: Meters)
    requires Replayed(base, records, decay, b)
    ensures records != []
    ensures TickOf(base, records, decay) == Evaluate(c, m, Last(records)) && MetersTell(m, records, b)
    ensures 100000 <= PayloadTarget(c.base, c.payloadStep) <= base
    ensures var t := ReplayTrace(base, records, decay).value.trace;
            |t.states| == |records| + 1 && c == t.states[|records| - 1]
            && m == ReplayTrace(base, records, decay).value.meters
  {
    hide ReplayTrace, Evaluate, MetersTell, PayloadTarget;
    LastTick(base, records, decay);
    ReplayTells(base, records, decay, b);
    var replay := ReplayTrace(base, records, decay).value;
    c, m := replay.trace.states[|records| - 1], replay.meters;
    TargetBelow(base, c.payloadStep);
  }

  /** If no loss recorded is above 0.03, no round trip above 250 ms, no rate on the wire above 0.95 of a cap that
      neither the user nor 0.9 of any bandwidth estimate goes below, the oldest media is at most 50 ms old, and the
      target fits the cap less its reserve of a tenth and at least 64000, then the tick is not pressured. */
  lemma QuietTick(base: nat, records: seq<Record>, decay: Decay, b: Bounds, cap: real)
    requires Replayed(base, records, decay, b)
    requires b.lossHigh <= 0.03 && b.rttHigh <= 250.0 && b.wireHigh <= 0.95 * cap && Last(records).oldestAge <= 50.0
    requires Last(records).userWireCap as real >= cap && 0.9 * b.remb >= cap
    requires base as real <= cap - 64000.0 && base as real <= cap - 0.1 * cap
    ensures !TickOf(base, records, decay).pressure
  {
    hide Replayed, ReplayTrace, PayloadTarget, AllFeedback, LastLossIn, LastRttIn, TickOf;
    var c, m := Basis(base, records, decay, b);
    assert EffectiveCap(m, Last(records)) >= cap;
  }

  /** If no rate on the wire is above 1.1 of such a cap, the oldest media is younger than 100 ms and the pacer holds
      less than 4 MiB, the tick is not hard. */
  lemma SoftTick(base: nat, records: seq<Record>, decay: Decay, b: Bounds, cap: real)
    requires Replayed(base, records, decay, b)
    requires b.wireHigh <= 1.1 * cap && Last(records).oldestAge < 100.0 && Last(records).pacerQueueBytes < 4194304
    requires Last(records).userWireCap as real >= cap && 0.9 * b.remb >= cap
    ensures !TickOf(base, records, decay).hard
  {
    hide Replayed, ReplayTrace, PayloadTarget, AllFeedback, LastLossIn, LastRttIn, TickOf;
    var c, m := Basis(base, records, decay, b);
    assert EffectiveCap(m, Last(records)) >= cap;
  }

  /** If the wire shows a rate, every rate is below 0.85 of such a cap, no loss recorded reaches 0.01 and the oldest
      media is younger than a frame at 30 frames a second, the tick is compliant. */
  lemma CompliantTick(base: nat, records: seq<Record>, decay: Decay, b: Bounds, cap: real)
    requires Replayed(base, records, decay, b) && Measured(records)
    requires b.wireHigh < 0.85 * cap && b.lossHigh < 0.01 && Last(records).oldestAge * 30.0 < 1000.0
    requires Last(records).userWireCap as real >= cap && 0.9 * b.remb >= cap
    ensures TickOf(base, records, decay).compliant
  {
    hide Replayed, ReplayTrace, PayloadTarget, AllFeedback, LastLossIn, LastRttIn, TickOf;
    var c, m := Basis(base, records, decay, b);
    assert EffectiveCap(m, Last(records)) >= cap;
    FrameTime(c.profileIndex);
  }

  lemma FrameTime(profile: nat)
    ensures var f := 1000.0 / FramesPerSecond(profile) as real;
            f == (if profile == 0 then 1000.0 / 30.0 else if profile == 1 then 1000.0 / 24.0 else 1000.0 / 15.0)
  {}

  /** The tick is pressured if every loss recorded is above 0.03 and one is recent, or every round trip above 250 ms and
      one is recent, or every rate on the wire above 0.95 of the user's cap and there is one, or the oldest media is
      above 50 ms old, or
      the user's cap leaves no room for the least target. */
  lemma PressedTick(base: nat, records: seq<Record>, decay: Decay, b: Bounds)
    requires Replayed(base, records, decay, b)
    requires var r := Last(records);
             || (b.lossLow > 0.03 && Recent(LastLossIn(AllFeedback(records)), r.now))
             || (b.rttLow > 250.0 && Recent(LastRttIn(AllFeedback(records)), r.now))
             || (b.wireLow > 0.95 * r.userWireCap as real && Measured(records))
             || r.oldestAge > 50.0
             || r.userWireCap < 164000
    ensures TickOf(base, records, decay).pressure
  {
    hide Replayed, ReplayTrace, PayloadTarget, AllFeedback, LastLossIn, LastRttIn, TickOf;
    var c, m := Basis(base, records, decay, b);
    assert EffectiveCap(m, Last(records)) <= Last(records).userWireCap as real;
  }

  /** The tick is hard if every rate on the wire is above 1.1 of the user's cap and there is one, or the oldest media is
      100 ms old, or the pacer holds 4 MiB. */
  lemma HardTick(base: nat, records: seq<Record>, decay: Decay, b: Bounds)
    requires Replayed(base, records, decay, b)
    requires var r := Last(records);
             || (b.wireLow > 1.1 * r.userWireCap as real && Measured(records))
             || r.oldestAge >= 100.0
             || r.pacerQueueBytes >= 4194304
    ensures TickOf(base, records, decay).hard
  {
    hide Replayed, ReplayTrace, PayloadTarget, AllFeedback, LastLossIn, LastRttIn, TickOf;
    var c, m := Basis(base, records, decay, b);
    assert EffectiveCap(m, Last(records)) <= Last(records).userWireCap as real;
  }

  /** The tick is not compliant if the wire shows no rate, or every rate is at least 0.85 of the user's cap, or every
      loss recorded is at least 0.01 and one is recent, or the oldest media is as old as a frame at 15 frames a second.
      */
  lemma LaxTick(base: nat, records: seq<Record>, decay: Decay, b: Bounds)
    requires Replayed(base, records, decay, b)
    requires var r := Last(records);
             || !Measured(records)
             || b.wireLow >= 0.85 * r.userWireCap as real
             || (b.lossLow >= 0.01 && Recent(LastLossIn(AllFeedback(records)), r.now))
             || r.oldestAge * 15.0 >= 1000.0
    ensures !TickOf(base, records, decay).compliant
  {
    hide Replayed, ReplayTrace, PayloadTarget, AllFeedback, LastLossIn, LastRttIn, TickOf;
    var c, m := Basis(base, records, decay, b);
    assert EffectiveCap(m, Last(records)) <= Last(records).userWireCap as real;
    FrameTime(c.profileIndex);
  }

  // -------- equivalences on the meters --------

  // The cap is the user's, or 0.9 of a bandwidth estimate of the last two seconds if that is lower.
  predicate IsCap(cap: real, m: Meters, r: Record) {
    var recent := m.latestRemb.Some? && m.latestRemb.value.at <= r.now <= m.latestRemb.value.at + 2000;
    && cap <= r.userWireCap as real
    && (recent ==> cap <= 0.9 * m.latestRemb.value.value)
    && (cap == r.userWireCap as real || (recent && cap == 0.9 * m.latestRemb.value.value))
  }

  /** Each predicate is exactly the disjunction, or the conjunction, of its limits, whatever the cap is called. */
  lemma PredicatesExactly(c: Controller, m: Meters, r: Record, cap: real)
    requires IsCap(cap, m, r)
    ensures var t := Evaluate(c, m, r);
            var wire := m.wire.estimate.Some?;
            var loss := m.loss.estimate.Some? && Recent(m.latestLoss, r.now);
            var rtt := m.rtt.estimate.Some? && Recent(m.latestRtt, r.now);
            && t.now == r.now
            && (t.pressure <==>
                  || (wire && m.wire.estimate.value.one > 0.95 * cap)
                  || r.oldestAge > 50.0
                  || (loss && m.loss.estimate.value.one > 0.03)
                  || (rtt && m.rtt.estimate.value.one > 250.0)
                  || PayloadTarget(c.base, c.payloadStep) as real > cap - 64000.0
                  || PayloadTarget(c.base, c.payloadStep) as real > cap - 0.1 * cap)
            && (t.hard <==>
                  || (wire && m.wire.estimate.value.one > 1.1 * cap)
                  || r.oldestAge >= 100.0
                  || r.pacerQueueBytes >= 4194304)
            && (t.compliant <==>
                  && wire && m.wire.estimate.value.one < 0.85 * cap
                  && r.oldestAge < 1000.0 / (if c.profileIndex == 0 then 30.0 else if c.profileIndex == 1 then 24.0
                                             else 15.0)
                  && (loss ==> m.loss.estimate.value.one < 0.01))
  {
    hide PayloadTarget;
    TargetPositive(c.base, c.payloadStep);
    assert EffectiveCap(m, r) == cap;
  }

  lemma TargetPositive(base: nat, step: nat)
    ensures PayloadTarget(base, step) >= 100000
  {}

  // At least as bad in every respect: nothing measured is lower, nothing is unknown that was known, and the cap is no
  // higher.
  ghost predicate Worse(m: Meters, r: Record, cap: real, m': Meters, r': Record, cap': real) {
    && cap' <= cap && r'.oldestAge >= r.oldestAge && r'.pacerQueueBytes >= r.pacerQueueBytes
    && (m.wire.estimate.Some? ==>
          m'.wire.estimate.Some? && m'.wire.estimate.value.one >= m.wire.estimate.value.one)
    && (m.loss.estimate.Some? && Recent(m.latestLoss, r.now) ==>
          && m'.loss.estimate.Some? && Recent(m'.latestLoss, r'.now)
          && m'.loss.estimate.value.one >= m.loss.estimate.value.one)
    && (m.rtt.estimate.Some? && Recent(m.latestRtt, r.now) ==>
          && m'.rtt.estimate.Some? && Recent(m'.latestRtt, r'.now)
          && m'.rtt.estimate.value.one >= m.rtt.estimate.value.one)
  }

  /** Higher loss, round trip, wire rate or age, or a lower cap, never turns pressure or hardness off, and, with a rate
      on the wire, never turns compliance on. */
  lemma PredicatesMonotone(c: Controller, m: Meters, r: Record, cap: real, m': Meters, r': Record, cap': real)
    requires IsCap(cap, m, r) && IsCap(cap', m', r') && Worse(m, r, cap, m', r', cap')
    ensures Evaluate(c, m, r).pressure ==> Evaluate(c, m', r').pressure
    ensures Evaluate(c, m, r).hard ==> Evaluate(c, m', r').hard
    ensures m.wire.estimate.Some? && Evaluate(c, m', r').compliant ==> Evaluate(c, m, r).compliant
  {
    hide Evaluate, IsCap;
    PredicatesExactly(c, m, r, cap);
    PredicatesExactly(c, m', r', cap');
    assert r.userWireCap >= 0 && r'.userWireCap >= 0;
    CapPositive(m', r', cap');
  }

  lemma CapPositive(m: Meters, r: Record, cap: real)
    requires IsCap(cap, m, r)
    ensures cap >= 0.0
  {}

  /** Every tick of a replay is the last tick of the trace up to it, so the laws above hold of each. */
  lemma {:induction false} EveryTick(base: nat, records: seq<Record>, decay: Decay, i: nat)
    requires ReplayTrace(base, records, decay).Ok? && i < |records|
    ensures ReplayTrace(base, records[..i + 1], decay).Ok?
    ensures var t := ReplayTrace(base, records, decay).value.trace;
            |t.ticks| == |records| && t.ticks[i] == TickOf(base, records[..i + 1], decay)
    decreases |records|
  {
    hide Process, Evaluate;
    ReplayIsRun(base, records, decay);
    var n := |records| - 1;
    if i == n {
      assert records[..i + 1] == records;
    } else {
      EveryTick(base, records[..n], decay, i);
      assert records[..n][..i + 1] == records[..i + 1];
      ReplayIsRun(base, records[..n], decay);
    }
  }
}
