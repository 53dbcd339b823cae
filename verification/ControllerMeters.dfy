/** What the controller measures: smoothed rates and gauges, feedback, and the predicates a tick is decided on. */
module ControllerMeters {
  import opened Common
  import opened ControllerSpec

  datatype Failure =
    | CounterTimeNotIncreasing | NotFiniteNonnegative | GaugeTimeRegressed | TickSequenceNotIncreasing
    | TickTimeNotIncreasing
    | FutureFeedback | FeedbackSequenceNotIncreasing | FeedbackTimeRegressed

  type Result<T> = Fallible<T, Failure>

  // exp(-dt / tau), of which only the range matters.
  type Decay = (int, int) -> real

  ghost predicate IsDecay(decay: Decay) { forall dt, tau :: dt >= 0 && tau > 0 ==> 0.0 < decay(dt, tau) <= 1.0 }

  datatype Estimate = Estimate(one: real, five: real)

  function Ewma(previous: real, sample: real, dt: int, tau: int, decay: Decay): real {
    var alpha := 1.0 - decay(dt, tau);
    alpha * sample + (1.0 - alpha) * previous
  }

  function Smooth(e: Option<Estimate>, sample: real, dt: int, decay: Decay): Estimate {
    if e.None? then Estimate(sample, sample)
    else Estimate(Ewma(e.value.one, sample, dt, 1000, decay), Ewma(e.value.five, sample, dt, 5000, decay))
  }

  datatype Seen = Seen(counter: nat, at: int)
  datatype Rate = Rate(previous: Option<Seen>, estimate: Option<Estimate>)
  datatype Gauge = Gauge(previous: Option<int>, estimate: Option<Estimate>)

  // The rate a counter shows between two readings, per second.
  function Sample(delta: nat, scale: real, dt: int): real
    requires dt > 0
  {
    delta as real * scale * 1000.0 / dt as real
  }

  // The new estimator and whether the counter was found reset.
  function RateUpdate(r: Rate, counter: nat, now: int, scale: real, decay: Decay): Result<(Rate, bool)> {
    if r.previous.None? then Ok((r.(previous := Some(Seen(counter, now))), false))
    else if now <= r.previous.value.at then Err(CounterTimeNotIncreasing)
    else if counter < r.previous.value.counter then Ok((Rate(Some(Seen(counter, now)), None), true))
    else
      var dt := now - r.previous.value.at;
      var sample := Sample(counter - r.previous.value.counter, scale, dt);
      Ok((Rate(Some(Seen(counter, now)), Some(Smooth(r.estimate, sample, dt, decay))), false))
  }

  function GaugeUpdate(g: Gauge, sample: real, now: int, decay: Decay): Result<Gauge> {
    if sample < 0.0 then Err(NotFiniteNonnegative)
    else if g.previous.None? then Ok(Gauge(Some(now), Some(Estimate(sample, sample))))
    else if now < g.previous.value then Err(GaugeTimeRegressed)
    else Ok(Gauge(Some(now), Some(Smooth(g.estimate, sample, now - g.previous.value, decay))))
  }

  // -------- smoothing never leaves the range of what was measured --------

  ghost predicate Within(e: Option<Estimate>, low: real, high: real) {
    e.Some? ==> low <= e.value.one <= high && low <= e.value.five <= high
  }

  lemma Product(a: real, b: real)
    requires 0.0 <= a && 0.0 <= b
    ensures 0.0 <= a * b
  {}

  lemma Mix(a: real, b: real, x: real, y: real, low: real, high: real)
    requires 0.0 <= a && 0.0 <= b && a + b == 1.0 && low <= x <= high && low <= y <= high
    ensures low <= a * x + b * y <= high
  {
    Product(a, x - low);
    Product(b, y - low);
    Product(a, high - x);
    Product(b, high - y);
    assert a * x + b * y - (a * (x - low) + b * (y - low)) == (a + b) * low;
    assert a * x + b * y + (a * (high - x) + b * (high - y)) == (a + b) * high;
  }

  lemma EwmaWithin(previous: real, sample: real, dt: int, tau: int, decay: Decay, low: real, high: real)
    requires IsDecay(decay) && dt >= 0 && tau > 0
    requires low <= previous <= high && low <= sample <= high
    ensures low <= Ewma(previous, sample, dt, tau, decay) <= high
  {
    var a := 1.0 - decay(dt, tau);
    var b := 1.0 - a;
    assert 0.0 <= a && 0.0 <= b;
    Mix(a, b, sample, previous, low, high);
  }

  lemma SmoothWithin(e: Option<Estimate>, sample: real, dt: int, decay: Decay, low: real, high: real)
    requires IsDecay(decay) && dt >= 0 && Within(e, low, high) && low <= sample <= high
    ensures Within(Some(Smooth(e, sample, dt, decay)), low, high)
  {
    if e.Some? {
      EwmaWithin(e.value.one, sample, dt, 1000, decay, low, high);
      EwmaWithin(e.value.five, sample, dt, 5000, decay, low, high);
    }
  }

  // Readings of one counter, in order.
  function RateRun(readings: seq<Seen>, scale: real, decay: Decay): Result<Rate> {
    if readings == [] then Ok(Rate(None, None))
    else
      var before := RateRun(readings[..|readings| - 1], scale, decay);
      if before.Err? then before
      else
        var last := readings[|readings| - 1];
        var r := RateUpdate(before.value, last.counter, last.at, scale, decay);
        if r.Err? then Err(r.failure) else Ok(r.value.0)
  }

  // Every rate between neighbouring readings that is not a reset lies in the range.
  ghost predicate RatesWithin(readings: seq<Seen>, scale: real, low: real, high: real) {
    forall i ::
      0 < i < |readings| && readings[i - 1].at < readings[i].at && readings[i - 1].counter <= readings[i].counter ==>
      low <= Sample(readings[i].counter - readings[i - 1].counter, scale, readings[i].at - readings[i - 1].at) <= high
  }

  /** Both smoothed rates stay within the range of the rates measured, whatever the gaps between readings. */
  lemma {:induction false} SmoothedRateWithin(readings: seq<Seen>, scale: real, decay: Decay, low: real, high: real)
    requires IsDecay(decay) && RatesWithin(readings, scale, low, high) && RateRun(readings, scale, decay).Ok?
    ensures var r := RateRun(readings, scale, decay).value;
            && Within(r.estimate, low, high)
            && r.previous == (if readings == [] then None else Some(readings[|readings| - 1]))
  {
    hide Sample, Smooth;
    if readings != [] {
      var n := |readings| - 1;
      var before := readings[..n];
      assert RatesWithin(before, scale, low, high);
      SmoothedRateWithin(before, scale, decay, low, high);
      var r := RateRun(before, scale, decay).value;
      if n > 0 && readings[n - 1].counter <= readings[n].counter {
        var dt := readings[n].at - readings[n - 1].at;
        SmoothWithin(r.estimate, Sample(readings[n].counter - readings[n - 1].counter, scale, dt), dt, decay, low,
                     high);
      }
    }
  }

  // -------- a tick --------

  // Numbers of a record are finite and nonnegative once parsed.
  type Amount = x: real | x >= 0.0

  datatype Feedback = Feedback(
    sequence: nat,
    at: int,
    loss: Option<Amount>,
    rtt: Option<Amount>,
    remb: Option<Amount>,
    rembValid: bool)

  datatype Record = Record(
    sequence: nat,
    now: int,
    feedback: seq<Feedback>,
    elementaryBytes: nat,
    wireBytes: nat,
    retransmissionBytes: nat,
    deliveredFrames: nat,
    oldestAge: Amount,
    pacerQueueBytes: nat,
    userWireCap: nat)

  datatype Reading = Reading(value: Amount, at: int)

  datatype Meters = Meters(
    lastSequence: Option<nat>,
    lastTime: Option<int>,
    lastFeedbackSequence: Option<nat>,
    lastFeedbackTime: Option<int>,
    elementary: Rate,
    wire: Rate,
    retransmission: Rate,
    delivered: Rate,
    queueAge: Gauge,
    loss: Gauge,
    rtt: Gauge,
    latestLoss: Option<Reading>,
    latestRtt: Option<Reading>,
    latestRemb: Option<Reading>)

  const NoRate := Rate(None, None)
  const NoGauge := Gauge(None, None)
  const Unmetered := Meters(None, None, None, None, NoRate, NoRate, NoRate, NoRate, NoGauge, NoGauge, NoGauge, None,
                            None, None)

  // The meters after taking something in, which may have been refused on the way.
  datatype Metered = Metered(meters: Meters, failure: Option<Failure>)

  function TakeLoss(m: Meters, f: Feedback, decay: Decay): Metered {
    if f.loss.None? then Metered(m, None)
    else
      match GaugeUpdate(m.loss, f.loss.value, f.at, decay)
      case Err(e) => Metered(m, Some(e))
      case Ok(g) => Metered(m.(loss := g, latestLoss := Some(Reading(f.loss.value, f.at))), None)
  }

  function TakeRtt(m: Meters, f: Feedback, decay: Decay): Metered {
    if f.rtt.None? then Metered(m, None)
    else
      match GaugeUpdate(m.rtt, f.rtt.value, f.at, decay)
      case Err(e) => Metered(m, Some(e))
      case Ok(g) => Metered(m.(rtt := g, latestRtt := Some(Reading(f.rtt.value, f.at))), None)
  }

  function TakeFeedback(m: Meters, f: Feedback, sequence: nat, now: int, decay: Decay): Metered {
    if f.sequence >= sequence || f.at > now then Metered(m, Some(FutureFeedback))
    else if m.lastFeedbackSequence.Some? && f.sequence <= m.lastFeedbackSequence.value then
      Metered(m, Some(FeedbackSequenceNotIncreasing))
    else if m.lastFeedbackTime.Some? && f.at < m.lastFeedbackTime.value then Metered(m, Some(FeedbackTimeRegressed))
    else
      var a := TakeLoss(m.(lastFeedbackSequence := Some(f.sequence), lastFeedbackTime := Some(f.at)), f, decay);
      if a.failure.Some? then a
      else
        var b := TakeRtt(a.meters, f, decay);
        if b.failure.Some? || f.remb.None? || !f.rembValid then b
        else Metered(b.meters.(latestRemb := Some(Reading(f.remb.value, f.at))), None)
  }

  function TakeAll(m: Meters, feedback: seq<Feedback>, sequence: nat, now: int, decay: Decay): Metered
    decreases feedback
  {
    if feedback == [] then Metered(m, None)
    else
      var first := TakeFeedback(m, feedback[0], sequence, now, decay);
      if first.failure.Some? then first else TakeAll(first.meters, feedback[1..], sequence, now, decay)
  }

  // The four counters and the queue age, each refused where it is met.
  function TakeCounters(m: Meters, r: Record, decay: Decay): Metered {
    match RateUpdate(m.elementary, r.elementaryBytes, r.now, 8.0, decay)
    case Err(e) => Metered(m, Some(e))
    case Ok((elementary, _)) =>
      var m1 := m.(elementary := elementary);
      match RateUpdate(m1.wire, r.wireBytes, r.now, 8.0, decay)
      case Err(e) => Metered(m1, Some(e))
      case Ok((wire, _)) =>
        var m2 := m1.(wire := wire);
        match RateUpdate(m2.retransmission, r.retransmissionBytes, r.now, 8.0, decay)
        case Err(e) => Metered(m2, Some(e))
        case Ok((retransmission, _)) =>
          var m3 := m2.(retransmission := retransmission);
          match RateUpdate(m3.delivered, r.deliveredFrames, r.now, 1.0, decay)
          case Err(e) => Metered(m3, Some(e))
          case Ok((delivered, _)) =>
            var m4 := m3.(delivered := delivered);
            match GaugeUpdate(m4.queueAge, r.oldestAge, r.now, decay)
            case Err(e) => Metered(m4, Some(e))
            case Ok(age) => Metered(m4.(queueAge := age), None)
  }

  function Ingest(m: Meters, r: Record, decay: Decay): Metered {
    if m.lastSequence.Some? && r.sequence <= m.lastSequence.value then Metered(m, Some(TickSequenceNotIncreasing))
    else if m.lastTime.Some? && r.now <= m.lastTime.value then Metered(m, Some(TickTimeNotIncreasing))
    else
      var fed := TakeAll(m.(lastSequence := Some(r.sequence), lastTime := Some(r.now)), r.feedback, r.sequence, r.now,
                         decay);
      if fed.failure.Some? then fed else TakeCounters(fed.meters, r, decay)
  }

  const PACER_LIMIT: nat := 4 * 1024 * 1024

  predicate Fresh(r: Option<Reading>, now: int) { r.Some? && now >= r.value.at && now - r.value.at <= 2000 }

  function EffectiveCap(m: Meters, r: Record): real {
    var cap := r.userWireCap as real;
    if Fresh(m.latestRemb, r.now) && 0.9 * m.latestRemb.value.value < cap then 0.9 * m.latestRemb.value.value else cap
  }

  function PayloadBudget(cap: real): real {
    var reserve := if 0.1 * cap < 64000.0 then 64000.0 else 0.1 * cap;
    if cap - reserve < 0.0 then 0.0 else cap - reserve
  }

  function OneSecond(e: Option<Estimate>): Option<real> { if e.None? then None else Some(e.value.one) }

  predicate Above(x: Option<real>, limit: real) { x.Some? && x.value > limit }

  function FramesPerSecond(profile: nat): nat { if profile == 0 then 30 else if profile == 1 then 24 else 15 }

  // The limits of a tick: shares of the cap, ages in milliseconds, a fraction of packets, a round trip in milliseconds.
  const WIRE_PRESSURED: real := 0.95
  const WIRE_HARD: real := 1.1
  const WIRE_COMPLIANT: real := 0.85
  const AGE_PRESSURED: real := 50.0
  const AGE_HARD: real := 100.0
  const LOSS_PRESSURED: real := 0.03
  const LOSS_COMPLIANT: real := 0.01
  const RTT_PRESSURED: real := 250.0

  // The three predicates of a tick, on the meters as they stand after it.
  function Evaluate(c: Controller, m: Meters, r: Record): Tick {
    var cap := EffectiveCap(m, r);
    var wire := OneSecond(m.wire.estimate);
    var loss := if Fresh(m.latestLoss, r.now) then OneSecond(m.loss.estimate) else None;
    var rtt := if Fresh(m.latestRtt, r.now) then OneSecond(m.rtt.estimate) else None;
    Tick(r.now,
         Above(wire, WIRE_PRESSURED * cap) || r.oldestAge > AGE_PRESSURED || Above(loss, LOSS_PRESSURED)
         || Above(rtt, RTT_PRESSURED) || PayloadTarget(c.base, c.payloadStep) as real > PayloadBudget(cap),
         Above(wire, WIRE_HARD * cap) || r.oldestAge >= AGE_HARD || r.pacerQueueBytes >= PACER_LIMIT,
         wire.Some? && wire.value < WIRE_COMPLIANT * cap
         && r.oldestAge < 1000.0 / FramesPerSecond(c.profileIndex) as real
         && (loss.None? || loss.value < LOSS_COMPLIANT))
  }

  // A hard tick can be compliant only because of the pacer queue.
  lemma HardAndCompliant(c: Controller, m: Meters, r: Record)
    ensures Evaluate(c, m, r).hard && Evaluate(c, m, r).compliant ==> r.pacerQueueBytes >= PACER_LIMIT
  {
    assert 1000.0 / FramesPerSecond(c.profileIndex) as real <= 67.0;
  }

  // One record: the controller decides only if everything was taken in.
  datatype Processed = Processed(core: Controller, meters: Meters, outcome: Result<Action>)

  function Process(c: Controller, m: Meters, r: Record, decay: Decay): Processed {
    var ingested := Ingest(m, r, decay);
    if ingested.failure.Some? then Processed(c, ingested.meters, Err(ingested.failure.value))
    else
      var (d, action) := Decide(c, Evaluate(c, ingested.meters, r));
      Processed(d, ingested.meters, Ok(action))
  }
}
