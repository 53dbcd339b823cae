/** Which traces the replay accepts, and what each of its meters counts. */
module ControllerTrace {
  import opened Common
  import opened ControllerSpec
  import opened ControllerMeters
  import opened RateController
  import opened ControllerReadings

  // -------- the counters --------

  // One counter's step: the rate between its two readings, in units a second, is what its estimates move towards.
  ghost predicate Counted(before: Rate, after: Rate, counter: nat, now: int, scale: real, decay: Decay) {
    && after.previous == Some(Seen(counter, now))
    && (before.previous.None? ==> after.estimate == before.estimate)
    && (before.previous.Some? ==>
          var last := before.previous.value;
          && (counter < last.counter ==> after.estimate.None?)
          && (counter >= last.counter ==>
                && after.estimate.Some? && last.at < now
                && var rate := scale * (counter - last.counter) as real / ((now - last.at) as real / 1000.0);
                   Towards(before.estimate, after.estimate.value, rate, now - last.at, decay)))
  }

  ghost predicate Towards(before: Option<Estimate>, after: Estimate, rate: real, dt: int, decay: Decay) {
    if before.None? then after == Estimate(rate, rate)
    else
      && after.one - rate == decay(dt, 1000) * (before.value.one - rate)
      && after.five - rate == decay(dt, 5000) * (before.value.five - rate)
  }

  lemma UpdateCounts(before: Rate, counter: nat, now: int, scale: real, decay: Decay)
    requires RateUpdate(before, counter, now, scale, decay).Ok?
    ensures Counted(before, RateUpdate(before, counter, now, scale, decay).value.0, counter, now, scale, decay)
  {
    if before.previous.Some? && counter >= before.previous.value.counter {
      var last := before.previous.value;
      var dt := now - last.at;
      PerSecond(counter - last.counter, scale, dt);
      var rate := Sample(counter - last.counter, scale, dt);
      assert Towards(before.estimate, RateUpdate(before, counter, now, scale, decay).value.0.estimate.value, rate, dt,
                     decay);
    }
  }

  lemma PerSecond(delta: nat, scale: real, dt: int)
    requires dt > 0
    ensures Sample(delta, scale, dt) == scale * delta as real / (dt as real / 1000.0)
  {
    var x, y := Sample(delta, scale, dt), scale * delta as real / (dt as real / 1000.0);
    assert x * dt as real == delta as real * scale * 1000.0;
    assert y * (dt as real / 1000.0) == scale * delta as real;
    assert (x - y) * dt as real == 0.0;
  }

  /** Each of the four counters of a record moves its own estimate, bytes as bits and frames as frames, and the queue
      age its gauge. */
  lemma CountersExactly(m: Meters, r: Record, decay: Decay)
    requires TakeCounters(m, r, decay).failure.None?
    ensures var after := TakeCounters(m, r, decay).meters;
            && Counted(m.elementary, after.elementary, r.elementaryBytes, r.now, 8.0, decay)
            && Counted(m.wire, after.wire, r.wireBytes, r.now, 8.0, decay)
            && Counted(m.retransmission, after.retransmission, r.retransmissionBytes, r.now, 8.0, decay)
            && Counted(m.delivered, after.delivered, r.deliveredFrames, r.now, 1.0, decay)
            && after.queueAge.previous == Some(r.now) && after.queueAge.estimate.Some?
            && (m.queueAge.previous.None? ==> after.queueAge.estimate.value == Estimate(r.oldestAge, r.oldestAge))
            && (m.queueAge.previous.Some? ==>
                  Towards(m.queueAge.estimate, after.queueAge.estimate.value, r.oldestAge,
                          r.now - m.queueAge.previous.value, decay))
  {
    hide RateUpdate, Counted;
    var a := RateUpdate(m.elementary, r.elementaryBytes, r.now, 8.0, decay);
    UpdateCounts(m.elementary, r.elementaryBytes, r.now, 8.0, decay);
    UpdateCounts(m.wire, r.wireBytes, r.now, 8.0, decay);
    UpdateCounts(m.retransmission, r.retransmissionBytes, r.now, 8.0, decay);
    UpdateCounts(m.delivered, r.deliveredFrames, r.now, 1.0, decay);
  }

  // -------- which traces are accepted --------

  // The order a trace keeps: sequences and times of its records, and of the feedback they consume.
  ghost predicate FeedbackFits(f: Feedback, r: Record) { f.sequence < r.sequence && f.at <= r.now }

  ghost predicate Follows(f: Feedback, g: Feedback) { f.sequence < g.sequence && f.at <= g.at }

  ghost predicate InOrder(feedback: seq<Feedback>) {
    forall i :: 0 < i < |feedback| ==> Follows(feedback[i - 1], feedback[i])
  }

  ghost predicate RecordFits(records: seq<Record>, i: nat)
    requires i < |records|
  {
    && (i > 0 ==> records[i - 1].sequence < records[i].sequence && records[i - 1].now < records[i].now)
    && forall k :: 0 <= k < |records[i].feedback| ==> FeedbackFits(records[i].feedback[k], records[i])
  }

  ghost predicate Ordered(records: seq<Record>) {
    (forall i :: 0 <= i < |records| ==> RecordFits(records, i)) && InOrder(AllFeedback(records))
  }

  // The meters remember the last feedback and the last record, and no meter runs ahead of them.
  ghost predicate Remembers(m: Meters, fed: seq<Feedback>) {
    && m.lastFeedbackSequence == (if fed == [] then None else Some(fed[|fed| - 1].sequence))
    && m.lastFeedbackTime == (if fed == [] then None else Some(fed[|fed| - 1].at))
    && (m.loss.previous.Some? ==> fed != [] && m.loss.previous.value <= fed[|fed| - 1].at)
    && (m.rtt.previous.Some? ==> fed != [] && m.rtt.previous.value <= fed[|fed| - 1].at)
  }

  ghost predicate Clocks(m: Meters, records: seq<Record>) {
    var last := if records == [] then None else Some(records[|records| - 1]);
    && m.lastSequence == (if last.None? then None else Some(last.value.sequence))
    && m.lastTime == (if last.None? then None else Some(last.value.now))
    && ReadAt(m.elementary, last) && ReadAt(m.wire, last) && ReadAt(m.retransmission, last) && ReadAt(m.delivered, last)
    && m.queueAge.previous == m.lastTime
  }

  ghost predicate ReadAt(rate: Rate, last: Option<Record>) {
    if last.None? then rate.previous.None? else rate.previous.Some? && rate.previous.value.at == last.value.now
  }

  lemma TakesExactly(m: Meters, fed: seq<Feedback>, f: Feedback, r: Record, decay: Decay)
    requires Remembers(m, fed)
    ensures var t := TakeFeedback(m, f, r.sequence, r.now, decay);
            && (t.failure.None? <==> FeedbackFits(f, r) && (fed != [] ==> Follows(fed[|fed| - 1], f)))
            && (t.failure.None? ==> Remembers(t.meters, fed + [f]) && SameCounters(m, t.meters))
  {
    var all := fed + [f];
    assert all[|all| - 1] == f;
  }

  // What feedback leaves alone.
  ghost predicate SameCounters(m: Meters, t: Meters) {
    && t.lastSequence == m.lastSequence && t.lastTime == m.lastTime && t.elementary == m.elementary && t.wire == m.wire
    && t.retransmission == m.retransmission && t.delivered == m.delivered && t.queueAge == m.queueAge
  }

  lemma InOrderSnoc(fed: seq<Feedback>, f: Feedback)
    ensures InOrder(fed + [f]) <==> InOrder(fed) && (fed != [] ==> Follows(fed[|fed| - 1], f))
  {
    hide Follows;
    var all, n := fed + [f], |fed|;
    assert all[n] == f && forall i :: 0 <= i < n ==> all[i] == fed[i];
    if InOrder(all) {
      forall i | 0 < i < n ensures Follows(fed[i - 1], fed[i]) { assert Follows(all[i - 1], all[i]); }
      if n > 0 { assert Follows(all[n - 1], all[n]); }
    }
  }

  lemma {:induction false} TakesAllExactly(m: Meters, fed: seq<Feedback>, feedback: seq<Feedback>, r: Record,
                                           decay: Decay)
    requires Remembers(m, fed) && InOrder(fed)
    ensures var t := TakeAll(m, feedback, r.sequence, r.now, decay);
            && (t.failure.None? <==> InOrder(fed + feedback) && forall k :: 0 <= k < |feedback| ==>
                  FeedbackFits(feedback[k], r))
            && (t.failure.None? ==> Remembers(t.meters, fed + feedback) && SameCounters(m, t.meters))
    decreases feedback
  {
    hide TakeFeedback, Remembers, FeedbackFits, Follows;
    if feedback == [] {
      assert fed + feedback == fed;
    } else {
      var f, rest := feedback[0], feedback[1..];
      assert fed + feedback == fed + [f] + rest;
      assert feedback == [f] + rest;
      TakesExactly(m, fed, f, r, decay);
      InOrderSnoc(fed, f);
      var first := TakeFeedback(m, f, r.sequence, r.now, decay);
      if first.failure.None? {
        TakesAllExactly(first.meters, fed + [f], rest, r, decay);
      } else if InOrder(fed + feedback) {
        InOrderPrefix(fed + [f], rest);
      }
    }
  }

  lemma InOrderPrefix(xs: seq<Feedback>, ys: seq<Feedback>)
    requires InOrder(xs + ys)
    ensures InOrder(xs)
  {
    hide Follows;
    forall i | 0 < i < |xs| ensures Follows(xs[i - 1], xs[i]) {
      assert (xs + ys)[i - 1] == xs[i - 1] && (xs + ys)[i] == xs[i];
      assert Follows((xs + ys)[i - 1], (xs + ys)[i]);
    }
  }

  lemma CountsAlways(t: Meters, records: seq<Record>, r: Record, decay: Decay)
    requires t.lastSequence == Some(r.sequence) && t.lastTime == Some(r.now)
    requires var last := if records == [] then None else Some(records[|records| - 1]);
             && ReadAt(t.elementary, last) && ReadAt(t.wire, last) && ReadAt(t.retransmission, last)
             && ReadAt(t.delivered, last) && t.queueAge.previous == (if last.None? then None else Some(last.value.now))
    requires records != [] ==> records[|records| - 1].now < r.now
    ensures var c := TakeCounters(t, r, decay);
            && c.failure.None? && Clocks(c.meters, records + [r])
            && c.meters.lastFeedbackSequence == t.lastFeedbackSequence
               && c.meters.lastFeedbackTime == t.lastFeedbackTime
            && c.meters.loss == t.loss && c.meters.rtt == t.rtt
  {
    hide Smooth, Sample;
  }

  // Once its feedback is taken, a record that is in time is counted.
  lemma CountsTell(m: Meters, t: Meters, records: seq<Record>, r: Record, decay: Decay)
    requires Clocks(m, records) && SameCounters(m.(lastSequence := Some(r.sequence), lastTime := Some(r.now)), t)
    requires records != [] ==> records[|records| - 1].now < r.now
    requires Remembers(t, AllFeedback(records + [r]))
    ensures var c := TakeCounters(t, r, decay);
            c.failure.None? && Clocks(c.meters, records + [r]) && Remembers(c.meters, AllFeedback(records + [r]))
  {
    hide TakeCounters, Remembers, AllFeedback;
    CountsAlways(t, records, r, decay);
    StillRemembers(t, TakeCounters(t, r, decay).meters, AllFeedback(records + [r]));
  }

  lemma IngestExactly(m: Meters, records: seq<Record>, r: Record, decay: Decay)
    requires Clocks(m, records) && Remembers(m, AllFeedback(records)) && Ordered(records)
    ensures var i := Ingest(m, r, decay);
            && (i.failure.None? <==> Ordered(records + [r]))
            && (i.failure.None? ==> Clocks(i.meters, records + [r]) && Remembers(i.meters, AllFeedback(records + [r])))
  {
    hide TakeAll, TakeCounters, FeedbackFits, Follows, Clocks, Remembers, RecordFits;
    hide SameCounters, AllFeedback, InOrder;
    assert AllFeedback(records + [r]) == AllFeedback(records) + r.feedback by { ConsumedSnoc(records, r); }
    OrderedSnoc(records, r);
    LastOf(m, records);
    var started := m.(lastSequence := Some(r.sequence), lastTime := Some(r.now));
    StillRemembers(m, started, AllFeedback(records));
    TakesAllExactly(started, AllFeedback(records), r.feedback, r, decay);
    var fed := TakeAll(started, r.feedback, r.sequence, r.now, decay);
    if fed.failure.None? && (records != [] ==> records[|records| - 1].now < r.now) {
      CountsTell(m, fed.meters, records, r, decay);
    }
  }

  lemma ConsumedSnoc(records: seq<Record>, r: Record)
    ensures AllFeedback(records + [r]) == AllFeedback(records) + r.feedback
  {
    assert (records + [r])[..|records|] == records;
  }

  lemma LastOf(m: Meters, records: seq<Record>)
    requires Clocks(m, records)
    ensures m.lastSequence == (if records == [] then None else Some(records[|records| - 1].sequence))
    ensures m.lastTime == (if records == [] then None else Some(records[|records| - 1].now))
  {}

  lemma StillRemembers(m: Meters, t: Meters, fed: seq<Feedback>)
    requires Remembers(m, fed)
    requires t.lastFeedbackSequence == m.lastFeedbackSequence && t.lastFeedbackTime == m.lastFeedbackTime
    requires t.loss == m.loss && t.rtt == m.rtt
    ensures Remembers(t, fed)
  {}

  lemma OrderedSnoc(records: seq<Record>, r: Record)
    requires Ordered(records)
    ensures var n := |records|;
            Ordered(records + [r]) <==>
            && (n > 0 ==> records[n - 1].sequence < r.sequence && records[n - 1].now < r.now)
            && (forall k :: 0 <= k < |r.feedback| ==> FeedbackFits(r.feedback[k], r))
            && InOrder(AllFeedback(records) + r.feedback)
  {
    hide FeedbackFits, InOrder;
    var all, n := records + [r], |records|;
    assert all[n] == r && all[..|all| - 1] == records && forall i :: 0 <= i < n ==> all[i] == records[i];
    forall i | 0 <= i < n ensures RecordFits(all, i) { assert RecordFits(records, i); }
    if Ordered(all) { assert RecordFits(all, n); }
  }

  /** A trace is accepted if and only if the sequences and the times of its records increase strictly, every feedback it
      consumes came before the record that consumes it, and all feedback, in the order of consumption, has increasing
      sequences and times that
      do not go back; no other check can fail. */
  lemma {:induction false} AcceptedExactly(base: nat, records: seq<Record>, decay: Decay)
    ensures ReplayTrace(base, records, decay).Ok? <==> Ordered(records)
    ensures ReplayTrace(base, records, decay).Ok? ==>
              var m := ReplayTrace(base, records, decay).value.meters;
              Clocks(m, records) && Remembers(m, AllFeedback(records))
    decreases |records|
  {
    hide Ingest, Decide, Evaluate, Clocks, Remembers, Ordered;
    if records == [] {
      NothingOrdered();
    } else {
      var n := |records| - 1;
      AcceptedExactly(base, records[..n], decay);
      assert records[..n] + [records[n]] == records;
      if ReplayTrace(base, records[..n], decay).Ok? {
        ReplayIsRun(base, records[..n], decay);
        IngestExactly(ReplayTrace(base, records[..n], decay).value.meters, records[..n], records[n], decay);
      } else if Ordered(records) {
        OrderedPrefix(records);
      }
    }
  }

  lemma NothingOrdered()
    ensures Ordered([]) && Clocks(Unmetered, []) && Remembers(Unmetered, AllFeedback([]))
  {}

  lemma OrderedPrefix(records: seq<Record>)
    requires records != [] && Ordered(records)
    ensures Ordered(records[..|records| - 1])
  {
    hide FeedbackFits, Follows;
    var front := records[..|records| - 1];
    forall i | 0 <= i < |front| ensures RecordFits(front, i) { assert RecordFits(records, i); }
    InOrderPrefix(AllFeedback(front), records[|records| - 1].feedback);
  }
}
