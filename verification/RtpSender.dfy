/** The loopback sender's frame loop, and the separate validator of the trace it reports. */
module RtpSender {
  import opened Common

  const INITIAL_TIMESTAMP: nat := 0x1_0000_0000 - 3000
  const INITIAL_EPOCH: nat := 1

  // What parsing an access unit shows. The frame table numbers its rows from zero, so a frame is its position.
  datatype AccessUnit = Unparsable | Ordinary | Recovery

  datatype Failure =
    | FrameRangeInvalid | FirstUnitInvalid | AccessUnitInvalid | RecoveryUnavailable | EpochNotAdmitted | SendFailed
    | FeedbackFlood | Interrupted | SourceExhausted | InjectedPliIgnored | LossNotRecovered

  type Result<T> = Fallible<T, Failure>

  datatype Arguments = Arguments(
    start: nat,
    count: nat,
    framesPerSecond: nat,
    injectPliAfter: Option<nat>,
    faultLossSequence: Option<nat>)

  // What `parse_arguments` lets through.
  predicate Accepted(a: Arguments) {
    && a.count > 0 && 0 < a.framesPerSecond <= 60
    && (a.injectPliAfter.Some? ==> 0 < a.injectPliAfter.value < a.count)
    && (a.faultLossSequence.Some? ==> 65534 <= a.faultLossSequence.value <= 65536)
  }

  // What one turn of the loop meets: a stop seen at its head, a recovery request, and how the foreign calls go.
  datatype Turn = Turn(stop: bool, requested: bool, admitted: bool, sends: bool)

  // What is seen after the loop: the flags, the recovery diagnostics and the fate of the suppressed packet.
  datatype Ending = Ending(
    flooded: bool,
    stop: bool,
    idrRequests: nat,
    suppressed: bool,
    retransmitted: bool,
    identical: bool,
    retransmissions: nat)

  datatype SentFrame = SentFrame(frame: nat, epoch: nat, timestamp: nat)

  datatype Sender = Sender(table: nat, epoch: nat, timestamp: nat, recoveries: nat, injected: bool,
                           trace: seq<SentFrame>)

  datatype Report = Report(
    start: nat,
    requested: nat,
    sent: nat,
    recoveries: nat,
    lastTimestamp: int,
    trace: seq<SentFrame>)

  // The first unit from `begin` on that is not ordinary decides.
  function NextRecovery(units: seq<AccessUnit>, begin: nat): Result<nat>
    requires begin <= |units|
    decreases |units| - begin
  {
    if begin == |units| then Err(RecoveryUnavailable)
    else match units[begin]
      case Unparsable => Err(AccessUnitInvalid)
      case Recovery => Ok(begin)
      case Ordinary => NextRecovery(units, begin + 1)
  }

  /** The search finds the first recovery point, with only ordinary units before it. */
  lemma {:induction false} NextRecoveryExactly(units: seq<AccessUnit>, begin: nat, i: nat)
    requires begin <= |units|
    ensures NextRecovery(units, begin) == Ok(i) <==>
            begin <= i < |units| && units[i] == Recovery && (forall j :: begin <= j < i ==> units[j] == Ordinary)
    ensures NextRecovery(units, begin) == Err(RecoveryUnavailable) <==>
            forall j :: begin <= j < |units| ==> units[j] == Ordinary
    decreases |units| - begin
  {
    if begin < |units| && units[begin] == Ordinary {
      NextRecoveryExactly(units, begin + 1, i);
    }
  }

  method FindNextRecovery(units: seq<AccessUnit>, begin: nat) returns (r: Result<nat>)
    requires begin <= |units|
    ensures r == NextRecovery(units, begin)
  {
    for index := begin to |units|
      invariant NextRecovery(units, begin) == NextRecovery(units, index)
    {
      if units[index].Unparsable? {
        return Err(AccessUnitInvalid);
      }
      if units[index].Recovery? {
        return Ok(index);
      }
    }
    r := Err(RecoveryUnavailable);
  }

  // -------- the frame loop --------

  function Interval(a: Arguments): nat
    requires Accepted(a)
  {
    90000 / a.framesPerSecond
  }

  function Begin(a: Arguments): Sender { Sender(a.start, INITIAL_EPOCH, INITIAL_TIMESTAMP, 0, false, []) }

  // The picture-loss indication is injected once, at its frame; whether it leads to a request is up to the recovery
  // state.
  function Inject(s: Sender, a: Arguments): Sender {
    if a.injectPliAfter.Some? && !s.injected && |s.trace| == a.injectPliAfter.value then s.(injected := true) else s
  }

  // Recovery, if one is asked for.
  function Recover(s: Sender, units: seq<AccessUnit>, turn: Turn): Result<Sender>
    requires s.table <= |units|
  {
    if !turn.requested then Ok(s)
    else
      match NextRecovery(units, s.table)
      case Err(f) => Err(f)
      case Ok(i) =>
        if !turn.admitted then Err(EpochNotAdmitted)
        else Ok(s.(table := i, epoch := s.epoch + 1, recoveries := s.recoveries + 1))
  }

  function SendOne(s: Sender, a: Arguments): Sender
    requires Accepted(a)
  {
    s.(table := s.table + 1, timestamp := s.timestamp + Interval(a),
       trace := s.trace + [SentFrame(s.table, s.epoch, s.timestamp)])
  }

  lemma {:induction false} NextRecoveryInside(units: seq<AccessUnit>, begin: nat)
    requires begin <= |units|
    ensures NextRecovery(units, begin).Ok? ==>
              begin <= NextRecovery(units, begin).value < |units| && units[NextRecovery(units, begin).value] == Recovery
    decreases |units| - begin
  {
    if begin < |units| && units[begin] == Ordinary {
      NextRecoveryInside(units, begin + 1);
    }
  }

  predicate LoopOver(s: Sender, units: seq<AccessUnit>, a: Arguments, turns: seq<Turn>) {
    |s.trace| >= a.count || |s.trace| >= |turns| || s.table >= |units| || turns[|s.trace|].stop
  }

  function Loop(s: Sender, units: seq<AccessUnit>, a: Arguments, turns: seq<Turn>): (r: Result<Sender>)
    requires Accepted(a) && |turns| >= a.count && s.table <= |units|
    decreases a.count - |s.trace|
  {
    if LoopOver(s, units, a, turns) then Ok(s)
    else
      var turn := turns[|s.trace|];
      match Recover(Inject(s, a), units, turn)
      case Err(f) => Err(f)
      case Ok(recovered) =>
        NextRecoveryInside(units, s.table);
        if !turn.sends then Err(SendFailed) else Loop(SendOne(recovered, a), units, a, turns)
  }

  predicate Recovered(ending: Ending) {
    ending.suppressed && ending.retransmitted && ending.identical && ending.retransmissions > 0
  }

  function Finish(s: Sender, a: Arguments, ending: Ending, stopped: bool): Result<Report>
    requires Accepted(a)
  {
    if ending.flooded then Err(FeedbackFlood)
    else if stopped || ending.stop || |s.trace| == 0 then Err(Interrupted)
    else if |s.trace| != a.count then Err(SourceExhausted)
    else if a.injectPliAfter.Some? && (!s.injected || s.recoveries == 0 || ending.idrRequests < 2) then
      Err(InjectedPliIgnored)
    else if a.faultLossSequence.Some? && !Recovered(ending) then Err(LossNotRecovered)
    else Ok(Report(a.start, a.count, |s.trace|, s.recoveries, s.timestamp - Interval(a), s.trace))
  }

  function StoppedAt(s: Sender, a: Arguments, turns: seq<Turn>): bool
    requires |turns| >= a.count
  {
    |s.trace| < a.count && turns[|s.trace|].stop
  }

  function Send(units: seq<AccessUnit>, a: Arguments, turns: seq<Turn>, ending: Ending): Result<Report>
    requires Accepted(a) && |turns| >= a.count
  {
    if a.start >= |units| || a.count > |units| - a.start then Err(FrameRangeInvalid)
    else if units[a.start] != Recovery then Err(FirstUnitInvalid)
    else
      match Loop(Begin(a), units, a, turns)
      case Err(f) => Err(f)
      case Ok(s) => Finish(s, a, ending, StoppedAt(s, a, turns))
  }

  method RunSender(units: seq<AccessUnit>, a: Arguments, turns: seq<Turn>, ending: Ending) returns (r: Result<Report>)
    requires Accepted(a) && |turns| >= a.count
    ensures r == Send(units, a, turns, ending)
  {
    if a.start >= |units| || a.count > |units| - a.start {
      return Err(FrameRangeInvalid);
    }
    if units[a.start] != Recovery {
      return Err(FirstUnitInvalid);
    }
    var epoch: nat, timestamp: nat := INITIAL_EPOCH, INITIAL_TIMESTAMP;
    var sent: nat, recoveries: nat, table: nat := 0, 0, a.start;
    var trace, injected := [], false;
    while sent < a.count && table < |units| && !turns[sent].stop
      invariant sent == |trace| <= a.count && table <= |units|
      invariant Loop(Sender(table, epoch, timestamp, recoveries, injected, trace), units, a, turns)
                == Loop(Begin(a), units, a, turns)
      decreases a.count - sent
    {
      var turn := turns[sent];
      if a.injectPliAfter.Some? && !injected && sent == a.injectPliAfter.value {
        injected := true;
      }
      if turn.requested {
        var next := FindNextRecovery(units, table);
        if next.Err? {
          return Err(next.failure);
        }
        NextRecoveryInside(units, table);
        table := next.value;
        epoch := epoch + 1;
        if !turn.admitted {
          return Err(EpochNotAdmitted);
        }
        recoveries := recoveries + 1;
      }
      if !turn.sends {
        return Err(SendFailed);
      }
      trace := trace + [SentFrame(table, epoch, timestamp)];
      sent := sent + 1;
      table := table + 1;
      timestamp := timestamp + 90000 / a.framesPerSecond;
    }
    var stopped := sent < a.count && turns[sent].stop;
    if ending.flooded {
      return Err(FeedbackFlood);
    }
    if stopped || ending.stop || sent == 0 {
      return Err(Interrupted);
    }
    if sent != a.count {
      return Err(SourceExhausted);
    }
    if a.injectPliAfter.Some? && (!injected || recoveries == 0 || ending.idrRequests < 2) {
      return Err(InjectedPliIgnored);
    }
    if a.faultLossSequence.Some?
       && (!ending.suppressed || !ending.retransmitted || !ending.identical || ending.retransmissions == 0) {
      return Err(LossNotRecovered);
    }
    r := Ok(Report(a.start, a.count, sent, recoveries, timestamp - 90000 / a.framesPerSecond, trace));
  }

  // -------- the validator --------

  // The validator's own idea of the first timestamp, 3000 short of 2 to the 32nd.
  const VALID_START: nat := 4294964296

  predicate FrameValid(report: Report, i: nat)
    requires i < |report.trace|
  {
    var frame := report.trace[i];
    && frame.frame >= report.start && (i == 0 || frame.frame > report.trace[i - 1].frame)
    && frame.timestamp == VALID_START + i * 3000
    && (i == 0 || frame.epoch >= report.trace[i - 1].epoch)
  }

  ghost predicate TraceValid(report: Report) {
    && report.sent == report.requested && |report.trace| == report.sent > 0
    && (forall i :: 0 <= i < |report.trace| ==> FrameValid(report, i))
    && report.trace[|report.trace| - 1].timestamp == report.lastTimestamp >= 4294967296
  }

  method ValidateTrace(report: Report) returns (ok: bool)
    ensures ok <==> TraceValid(report)
  {
    if report.sent != report.requested || |report.trace| != report.sent {
      return false;
    }
    for i := 0 to |report.trace|
      invariant forall j :: 0 <= j < i ==> FrameValid(report, j)
    {
      var frame := report.trace[i];
      if frame.frame < report.start || (i > 0 && frame.frame <= report.trace[i - 1].frame) {
        assert !FrameValid(report, i);
        return false;
      }
      if frame.timestamp != VALID_START + i * 3000 {
        assert !FrameValid(report, i);
        return false;
      }
      if i > 0 && frame.epoch < report.trace[i - 1].epoch {
        assert !FrameValid(report, i);
        return false;
      }
    }
    ok := |report.trace| > 0 && report.trace[|report.trace| - 1].timestamp == report.lastTimestamp
          && report.lastTimestamp >= 4294967296;
  }

  // -------- what every run of the loop reports --------

  function Requests(turns: seq<Turn>, n: nat): nat
    requires n <= |turns|
  {
    if n == 0 then 0 else Requests(turns, n - 1) + (if turns[n - 1].requested then 1 else 0)
  }

  // The i-th frame sent, told from the turns alone.
  ghost predicate SentRight(trace: seq<SentFrame>, units: seq<AccessUnit>, a: Arguments, turns: seq<Turn>, i: nat)
    requires Accepted(a) && i < |trace| <= |turns|
  {
    var from := if i == 0 then a.start else trace[i - 1].frame + 1;
    && from <= trace[i].frame < |units|
    && trace[i].epoch == INITIAL_EPOCH + Requests(turns, i + 1)
    && trace[i].timestamp == INITIAL_TIMESTAMP + i * Interval(a)
    && (if turns[i].requested
        then units[trace[i].frame] == Recovery && forall j :: from <= j < trace[i].frame ==> units[j] == Ordinary
        else trace[i].frame == from)
  }

  ghost predicate Sending(s: Sender, units: seq<AccessUnit>, a: Arguments, turns: seq<Turn>)
    requires Accepted(a)
  {
    && |s.trace| <= a.count <= |turns| && s.table <= |units|
    && s.table == (if s.trace == [] then a.start else s.trace[|s.trace| - 1].frame + 1)
    && s.epoch == INITIAL_EPOCH + Requests(turns, |s.trace|) && s.recoveries == Requests(turns, |s.trace|)
    && s.timestamp == INITIAL_TIMESTAMP + |s.trace| * Interval(a)
    && (s.injected <==> a.injectPliAfter.Some? && a.injectPliAfter.value < |s.trace|)
    && (forall i :: 0 <= i < |s.trace| ==> SentRight(s.trace, units, a, turns, i))
  }

  lemma TurnKeeps(s: Sender, units: seq<AccessUnit>, a: Arguments, turns: seq<Turn>)
    requires Accepted(a) && Sending(s, units, a, turns) && !LoopOver(s, units, a, turns)
    requires Recover(Inject(s, a), units, turns[|s.trace|]).Ok?
    ensures Sending(SendOne(Recover(Inject(s, a), units, turns[|s.trace|]).value, a), units, a, turns)
  {
    var n := |s.trace|;
    var t := SendOne(Recover(Inject(s, a), units, turns[n]).value, a);
    NextRecoveryInside(units, s.table);
    if turns[n].requested {
      NextRecoveryExactly(units, s.table, t.trace[n].frame);
    }
    assert (n + 1) * Interval(a) == n * Interval(a) + Interval(a);
    forall i | 0 <= i < n + 1 ensures SentRight(t.trace, units, a, turns, i) {
      if i < n {
        assert SentRight(s.trace, units, a, turns, i);
        assert t.trace[i] == s.trace[i] && (i > 0 ==> t.trace[i - 1] == s.trace[i - 1]);
      }
    }
  }

  lemma {:induction false} LoopKeeps(s: Sender, units: seq<AccessUnit>, a: Arguments, turns: seq<Turn>)
    requires Accepted(a) && Sending(s, units, a, turns)
    ensures Loop(s, units, a, turns).Ok? ==> Sending(Loop(s, units, a, turns).value, units, a, turns)
    decreases a.count - |s.trace|
  {
    hide Sending, SendOne, Recover;
    if !LoopOver(s, units, a, turns) && Recover(Inject(s, a), units, turns[|s.trace|]).Ok? {
      TurnKeeps(s, units, a, turns);
      Grows(s, units, a, turns);
      LoopKeeps(SendOne(Recover(Inject(s, a), units, turns[|s.trace|]).value, a), units, a, turns);
    }
  }

  lemma Grows(s: Sender, units: seq<AccessUnit>, a: Arguments, turns: seq<Turn>)
    requires Accepted(a) && Sending(s, units, a, turns) && !LoopOver(s, units, a, turns)
    requires Recover(Inject(s, a), units, turns[|s.trace|]).Ok?
    ensures |SendOne(Recover(Inject(s, a), units, turns[|s.trace|]).value, a).trace| == |s.trace| + 1
  {
    hide NextRecovery;
  }

  /** Every completed run reports exactly the frames its recovery requests call for: each frame follows the last, except
      that a request skips to the first recovery point and opens a new epoch there; timestamps advance evenly from the
      seed. */
  lemma CompletedTrace(units: seq<AccessUnit>, a: Arguments, turns: seq<Turn>, ending: Ending)
    requires Accepted(a) && |turns| >= a.count && Send(units, a, turns, ending).Ok?
    ensures var report := Send(units, a, turns, ending).value;
            && report.start == a.start && report.requested == report.sent == |report.trace| == a.count
            && report.recoveries == Requests(turns, a.count)
            && report.lastTimestamp == INITIAL_TIMESTAMP + (a.count - 1) * Interval(a)
            && (forall i :: 0 <= i < a.count ==> SentRight(report.trace, units, a, turns, i))
  {
    hide Loop, NextRecovery, Recover;
    assert Sending(Begin(a), units, a, turns);
    LoopKeeps(Begin(a), units, a, turns);
    assert a.count * Interval(a) == (a.count - 1) * Interval(a) + Interval(a);
  }

  lemma IntervalExactly(a: Arguments)
    requires Accepted(a)
    ensures Interval(a) == 3000 <==> a.framesPerSecond == 30
    ensures Interval(a) >= 1500
  {}

  /** A completed run's report passes the trace checks exactly when it sent at 30 frames a second, at least two of them:
      source order, epochs and the last timestamp hold at any rate, the timestamp checks only there. */
  lemma ReportValidExactly(units: seq<AccessUnit>, a: Arguments, turns: seq<Turn>, ending: Ending)
    requires Accepted(a) && |turns| >= a.count && Send(units, a, turns, ending).Ok?
    ensures TraceValid(Send(units, a, turns, ending).value) <==> a.framesPerSecond == 30 && a.count >= 2
  {
    hide Send, NextRecovery, Interval;
    CompletedTrace(units, a, turns, ending);
    IntervalExactly(a);
    var report := Send(units, a, turns, ending).value;
    assert SentRight(report.trace, units, a, turns, a.count - 1);
    if a.count >= 2 {
      assert SentRight(report.trace, units, a, turns, 1);
      if Interval(a) == 3000 {
        assert (a.count - 1) * 3000 >= 3000;
        forall i | 0 <= i < a.count ensures FrameValid(report, i) {
          SentIsValid(report, units, a, turns, i);
        }
      } else {
        assert !FrameValid(report, 1);
      }
    }
  }

  lemma SentIsValid(report: Report, units: seq<AccessUnit>, a: Arguments, turns: seq<Turn>, i: nat)
    requires Accepted(a) && i < |report.trace| <= |turns| && report.start == a.start && Interval(a) == 3000
    requires forall j :: 0 <= j < |report.trace| ==> SentRight(report.trace, units, a, turns, j)
    ensures FrameValid(report, i)
  {
    hide Interval;
    assert SentRight(report.trace, units, a, turns, i);
    Later(report.trace, units, a, turns, i);
    if i > 0 {
      assert SentRight(report.trace, units, a, turns, i - 1);
    }
  }

  lemma {:induction false} Later(trace: seq<SentFrame>, units: seq<AccessUnit>, a: Arguments, turns: seq<Turn>, i: nat)
    requires Accepted(a) && i < |trace| <= |turns|
    requires forall j :: 0 <= j < |trace| ==> SentRight(trace, units, a, turns, j)
    ensures trace[i].frame >= a.start + i
  {
    assert SentRight(trace, units, a, turns, i);
    if i > 0 {
      Later(trace, units, a, turns, i - 1);
    }
  }

  /** Each epoch increase lands on a parameter-set-plus-IDR frame, is by one, and answers a request at that turn. */
  lemma EpochsOpenOnRecovery(units: seq<AccessUnit>, a: Arguments, turns: seq<Turn>, ending: Ending, i: nat)
    requires Accepted(a) && |turns| >= a.count && Send(units, a, turns, ending).Ok? && 0 < i < a.count
    ensures var trace := Send(units, a, turns, ending).value.trace;
            && |trace| == a.count && trace[i].frame < |units|
            && (trace[i].epoch > trace[i - 1].epoch <==> turns[i].requested)
            && (trace[i].epoch > trace[i - 1].epoch ==>
                  trace[i].epoch == trace[i - 1].epoch + 1 && units[trace[i].frame] == Recovery)
            && (trace[i].epoch <= trace[i - 1].epoch ==>
                  trace[i].frame == trace[i - 1].frame + 1 && trace[i].epoch == trace[i - 1].epoch)
  {
    hide Send, NextRecovery, Interval;
    CompletedTrace(units, a, turns, ending);
    var trace := Send(units, a, turns, ending).value.trace;
    assert SentRight(trace, units, a, turns, i) && SentRight(trace, units, a, turns, i - 1);
  }

  /** No two frames share an epoch and a timestamp, at any rate, so those two identify a frame. */
  lemma KeysDistinct(units: seq<AccessUnit>, a: Arguments, turns: seq<Turn>, ending: Ending, i: nat, j: nat)
    requires Accepted(a) && |turns| >= a.count && Send(units, a, turns, ending).Ok? && i < j < a.count
    ensures var trace := Send(units, a, turns, ending).value.trace;
            |trace| == a.count && trace[i].timestamp < trace[j].timestamp
  {
    hide Send, NextRecovery, Interval;
    CompletedTrace(units, a, turns, ending);
    var trace := Send(units, a, turns, ending).value.trace;
    assert SentRight(trace, units, a, turns, i) && SentRight(trace, units, a, turns, j);
    IntervalExactly(a);
    Evenly(i, j, Interval(a));
  }

  lemma Evenly(i: nat, j: nat, step: nat)
    requires i < j && step > 0
    ensures i * step < j * step
  {
    assert j * step == i * step + (j - i) * step;
  }

  lemma {:induction false} RequestsGrow(turns: seq<Turn>, m: nat, n: nat)
    requires m <= n <= |turns|
    ensures Requests(turns, m) <= Requests(turns, n)
    ensures Requests(turns, m) < Requests(turns, n) <==> exists k :: m <= k < n && turns[k].requested
    decreases n
  {
    if m < n {
      RequestsGrow(turns, m, n - 1);
    }
  }

  // The validator's further check on a run with an injected picture-loss indication.
  ghost predicate EpochRises(trace: seq<SentFrame>) { exists i :: 0 <= i < |trace| && trace[i].epoch > trace[0].epoch }

  /** The epoch is seen to rise exactly when a request is honoured after the first frame; the sender's own check, that
      some recovery happened, is also met by one before it. */
  lemma EpochRisesExactly(units: seq<AccessUnit>, a: Arguments, turns: seq<Turn>, ending: Ending)
    requires Accepted(a) && |turns| >= a.count && Send(units, a, turns, ending).Ok?
    ensures var report := Send(units, a, turns, ending).value;
            && (EpochRises(report.trace) <==> exists k :: 1 <= k < a.count && turns[k].requested)
            && (report.recoveries >= 1 <==> exists k :: 0 <= k < a.count && turns[k].requested)
  {
    hide Send, NextRecovery, Interval;
    CompletedTrace(units, a, turns, ending);
    var trace := Send(units, a, turns, ending).value.trace;
    assert SentRight(trace, units, a, turns, 0) && SentRight(trace, units, a, turns, a.count - 1);
    RequestsGrow(turns, 0, a.count);
    RequestsGrow(turns, 1, a.count);
    if EpochRises(trace) {
      var i :| 0 <= i < |trace| && trace[i].epoch > trace[0].epoch;
      assert SentRight(trace, units, a, turns, i);
      RequestsGrow(turns, 1, i + 1);
    }
  }

  /** A recovery answered before the first frame satisfies the sender although the injected indication led to none: its
      report is valid and its epoch never rises. */
  lemma EarlyRecoveryPasses()
    ensures var a := Arguments(0, 2, 30, Some(1), None);
            var turns := [Turn(false, true, true, true), Turn(false, false, true, true)];
            var r := Send([Recovery, Ordinary], a, turns, Ending(false, false, 2, false, false, false, 0));
            r.Ok? && TraceValid(r.value) && !EpochRises(r.value.trace)
  {
    var units, a := [Recovery, Ordinary], Arguments(0, 2, 30, Some(1), None);
    var turns := [Turn(false, true, true, true), Turn(false, false, true, true)];
    var ending := Ending(false, false, 2, false, false, false, 0);
    var s1 := Sender(1, 2, INITIAL_TIMESTAMP + 3000, 1, false, [SentFrame(0, 2, INITIAL_TIMESTAMP)]);
    var two := s1.trace + [SentFrame(1, 2, INITIAL_TIMESTAMP + 3000)];
    var s2 := Sender(2, 2, INITIAL_TIMESTAMP + 6000, 1, true, two);
    assert NextRecovery(units, 0) == Ok(0);
    assert Begin(a).trace + s1.trace == s1.trace;
    assert SendOne(Recover(Inject(Begin(a), a), units, turns[0]).value, a) == s1;
    assert SendOne(Recover(Inject(s1, a), units, turns[1]).value, a) == s2;
    assert Loop(s2, units, a, turns) == Ok(s2);
    assert Loop(s1, units, a, turns) == Ok(s2);
    assert Loop(Begin(a), units, a, turns) == Ok(s2);
    ReportValidExactly(units, a, turns, ending);
    EpochRisesExactly(units, a, turns, ending);
  }

  /** A run told to lose a packet completes exactly when the same run without the loss would, and the packet was
      suppressed, asked for again, and sent again unchanged; and a run told to inject an indication only if a recovery
      followed two requests. */
  lemma FaultRunExactly(units: seq<AccessUnit>, a: Arguments, turns: seq<Turn>, ending: Ending)
    requires Accepted(a) && |turns| >= a.count
    ensures var plain := a.(faultLossSequence := None);
            Send(units, a, turns, ending).Ok? <==>
            && Send(units, plain, turns, ending).Ok?
            && (a.faultLossSequence.Some? ==>
                  ending.suppressed && ending.retransmitted && ending.identical && ending.retransmissions > 0)
    ensures a.injectPliAfter.Some? && Send(units, a, turns, ending).Ok? ==>
              ending.idrRequests >= 2 && Send(units, a, turns, ending).value.recoveries >= 1
  {
    hide Loop;
    if a.start < |units| {
      SameLoop(units, a, a.(faultLossSequence := None), turns, Begin(a));
    }
  }

  // The loop does not look at the loss.
  lemma {:induction false} SameLoop(units: seq<AccessUnit>, a: Arguments, b: Arguments, turns: seq<Turn>, s: Sender)
    requires Accepted(a) && |turns| >= a.count && b == a.(faultLossSequence := None) && s.table <= |units|
    ensures Loop(s, units, a, turns) == Loop(s, units, b, turns)
    decreases a.count - |s.trace|
  {
    hide NextRecovery;
    if !LoopOver(s, units, a, turns) {
      NextRecoveryInside(units, s.table);
      var r := Recover(Inject(s, a), units, turns[|s.trace|]);
      if r.Ok? && turns[|s.trace|].sends {
        SameLoop(units, a, b, turns, SendOne(r.value, a));
      }
    }
  }
}
