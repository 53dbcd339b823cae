/** The sliding one-second limit on messages, which forgets admissions as they age, against one that remembers them
    all. */
module RateLimit {
  import opened Common

  const WINDOW: real := 1000.0

  // A clock reading in milliseconds; NotFinite where the value is not a finite number.
  datatype Reading = NotFinite | At(milliseconds: real)

  predicate ValidTime(now: Reading) { now.At? && now.milliseconds >= 0.0 }

  // The admissions less than a second old.
  function Recent(times: seq<real>, now: real): seq<real> {
    if times == [] then []
    else if now - times[0] < WINDOW then [times[0]] + Recent(times[1..], now)
    else Recent(times[1..], now)
  }

  // `admit`: the new list and the decision.
  function Admit(maximum: nat, times: seq<real>, now: Reading): (seq<real>, bool) {
    if !ValidTime(now) then (times, false)
    else
      var kept := Recent(times, now.milliseconds);
      if |kept| >= maximum then (kept, false) else (kept + [now.milliseconds], true)
  }

  class SlidingControlRateLimit {
    const maximum: nat
    var times: seq<real>

    ghost predicate Valid() { 1 <= maximum <= 100 }

    constructor (limit: nat)
      requires 1 <= limit <= 100
      ensures Valid() && maximum == limit && times == []
    {
      maximum, times := limit, [];
    }

    method AdmitNow(now: Reading) returns (admitted: bool)
      requires Valid()
      modifies this
      ensures (times, admitted) == Admit(maximum, old(times), now)
    {
      if !ValidTime(now) {
        return false;
      }
      times := KeepRecent(times, now.milliseconds);
      if |times| >= maximum {
        return false;
      }
      times := times + [now.milliseconds];
      admitted := true;
    }
  }

  method NewLimit(maximum: int) returns (r: Option<SlidingControlRateLimit>)
    ensures r.Some? <==> 1 <= maximum <= 100
    ensures r.Some? ==> r.value.Valid() && r.value.maximum == maximum && r.value.times == []
  {
    if maximum < 1 || maximum > 100 {
      return None;
    }
    var limit := new SlidingControlRateLimit(maximum);
    r := Some(limit);
  }

  lemma {:induction false} RecentSnoc(times: seq<real>, last: real, now: real)
    ensures Recent(times + [last], now) == Recent(times, now) + (if now - last < WINDOW then [last] else [])
  {
    if times != [] {
      assert (times + [last])[1..] == times[1..] + [last];
      RecentSnoc(times[1..], last, now);
    }
  }

  method KeepRecent(times: seq<real>, now: real) returns (kept: seq<real>)
    ensures kept == Recent(times, now)
  {
    kept := [];
    for i := 0 to |times|
      invariant kept == Recent(times[..i], now)
    {
      RecentSnoc(times[..i], times[i], now);
      assert times[..i] + [times[i]] == times[..i + 1];
      if now - times[i] < WINDOW {
        kept := kept + [times[i]];
      }
    }
    assert times[..|times|] == times;
  }

  // -------- runs --------

  // The limiter after some calls, and what it answered to each.
  function Pruned(maximum: nat, calls: seq<Reading>): (seq<real>, seq<bool>)
    decreases |calls|
  {
    if calls == [] then ([], [])
    else
      var (times, answers) := Pruned(maximum, calls[..|calls| - 1]);
      var (after, admitted) := Admit(maximum, times, calls[|calls| - 1]);
      (after, answers + [admitted])
  }

  // The plain rule: keep every admission, and admit when fewer than `maximum` of them lie in the last second.
  predicate WithinLimit(maximum: nat, log: seq<real>, now: real) { |Recent(log, now)| < maximum }

  function Remembering(maximum: nat, calls: seq<Reading>): (seq<real>, seq<bool>)
    decreases |calls|
  {
    if calls == [] then ([], [])
    else
      var (log, answers) := Remembering(maximum, calls[..|calls| - 1]);
      var now := calls[|calls| - 1];
      if ValidTime(now) && WithinLimit(maximum, log, now.milliseconds) then (log + [now.milliseconds], answers + [true])
      else (log, answers + [false])
  }

  function Log(maximum: nat, calls: seq<Reading>): seq<real> { Remembering(maximum, calls).0 }

  ghost predicate Nondecreasing(calls: seq<Reading>) {
    forall i, j :: 0 <= i < j < |calls| && ValidTime(calls[i]) && ValidTime(calls[j]) ==>
      calls[i].milliseconds <= calls[j].milliseconds
  }

  // The latest valid reading so far.
  function Latest(calls: seq<Reading>): real
    decreases |calls|
  {
    if calls == [] then 0.0
    else if ValidTime(calls[|calls| - 1]) then calls[|calls| - 1].milliseconds
    else Latest(calls[..|calls| - 1])
  }

  lemma {:induction false} LatestBefore(calls: seq<Reading>, now: Reading)
    requires Nondecreasing(calls + [now]) && ValidTime(now)
    ensures Nondecreasing(calls) && Latest(calls) <= now.milliseconds
    decreases |calls|
  {
    var all := calls + [now];
    assert forall i :: 0 <= i < |calls| ==> all[i] == calls[i];
    assert all[|calls|] == now;
    if calls != [] && !ValidTime(calls[|calls| - 1]) {
      var front := calls[..|calls| - 1];
      forall i, j | 0 <= i < j < |front| + 1 && ValidTime((front + [now])[i]) && ValidTime((front + [now])[j])
        ensures (front + [now])[i].milliseconds <= (front + [now])[j].milliseconds
      {
        var k := if j == |front| then |calls| else j;
        assert all[i] == (front + [now])[i] && all[k] == (front + [now])[j];
      }
      LatestBefore(front, now);
    }
  }

  // What is too old stays too old.
  lemma {:induction false} RecentTwice(times: seq<real>, a: real, b: real)
    requires a <= b
    ensures Recent(Recent(times, a), b) == Recent(times, b)
  {
    if times != [] {
      RecentTwice(times[1..], a, b);
      if a - times[0] < WINDOW {
        assert Recent(times, a)[1..] == Recent(times[1..], a);
      }
    }
  }

  lemma Unsnoc(calls: seq<Reading>)
    requires calls != [] && Nondecreasing(calls)
    ensures Nondecreasing(calls[..|calls| - 1])
    ensures ValidTime(calls[|calls| - 1]) ==> Latest(calls[..|calls| - 1]) <= calls[|calls| - 1].milliseconds
  {
    var front, now := calls[..|calls| - 1], calls[|calls| - 1];
    assert calls == front + [now];
    if ValidTime(now) {
      LatestBefore(front, now);
    }
  }

  /** On a clock that never goes back, forgetting aged admissions changes no decision: the limiter answers every call as
      one that remembers them all. */
  lemma {:induction false} ForgettingIsSafe(maximum: nat, calls: seq<Reading>)
    requires maximum >= 1 && Nondecreasing(calls)
    ensures Pruned(maximum, calls).1 == Remembering(maximum, calls).1
    ensures Recent(Log(maximum, calls), Latest(calls)) == Recent(Pruned(maximum, calls).0, Latest(calls))
            == Pruned(maximum, calls).0
    decreases |calls|
  {
    if calls != [] {
      var front, now := calls[..|calls| - 1], calls[|calls| - 1];
      Unsnoc(calls);
      ForgettingIsSafe(maximum, front);
      if ValidTime(now) {
        var (times, log) := (Pruned(maximum, front).0, Log(maximum, front));
        var t := now.milliseconds;
        RecentTwice(log, Latest(front), t);
        RecentTwice(log, t, t);
        assert Recent(times, t) == Recent(log, t);
        RecentSnoc(log, t, t);
        RecentSnoc(Recent(log, t), t, t);
      }
    }
  }

  ghost predicate Sorted(log: seq<real>) { forall i, j :: 0 <= i < j < |log| ==> log[i] <= log[j] }

  // In a sorted log the recent admissions are its tail.
  lemma {:induction false} RecentIsTail(log: seq<real>, now: real)
    requires Sorted(log)
    ensures |Recent(log, now)| <= |log|
    ensures forall i :: 0 <= i < |log| ==> (now - log[i] < WINDOW <==> i >= |log| - |Recent(log, now)|)
  {
    if log != [] {
      RecentIsTail(log[1..], now);
      forall i | 0 <= i < |log| ensures now - log[i] < WINDOW <==> i >= |log| - |Recent(log, now)| {
        if i > 0 {
          assert log[1..][i - 1] == log[i];
        } else if now - log[0] < WINDOW {
          forall j | 0 <= j < |log| - 1 ensures now - log[1..][j] < WINDOW { assert log[0] <= log[j + 1]; }
          if |log| > 1 { assert now - log[1..][0] < WINDOW; }
        }
      }
    }
  }

  // The maximum-th latest admission decides alone.
  predicate Room(maximum: nat, log: seq<real>, now: real)
  {
    |log| < maximum || maximum == 0 || now - log[|log| - maximum] >= 1000.0
  }

  ghost predicate Spaced(maximum: nat, log: seq<real>) {
    forall i, j :: 0 <= i && j == i + maximum && j < |log| ==> log[j] - log[i] >= 1000.0
  }

  lemma {:induction false} LogSorted(maximum: nat, calls: seq<Reading>)
    requires maximum >= 1 && Nondecreasing(calls)
    ensures Sorted(Log(maximum, calls))
    ensures forall i :: 0 <= i < |Log(maximum, calls)| ==> Log(maximum, calls)[i] <= Latest(calls)
    ensures Spaced(maximum, Log(maximum, calls))
    decreases |calls|
  {
    if calls != [] {
      var front, now := calls[..|calls| - 1], calls[|calls| - 1];
      Unsnoc(calls);
      LogSorted(maximum, front);
      if ValidTime(now) {
        var log := Log(maximum, front);
        RecentIsTail(log, now.milliseconds);
        assert WithinLimit(maximum, log, now.milliseconds) ==> Room(maximum, log, now.milliseconds);
      }
    }
  }

  /** Each call is admitted exactly when its reading is valid and the admission `maximum` places back, if there is one,
      is a full second old. */
  lemma AdmittedExactly(maximum: nat, calls: seq<Reading>, now: Reading)
    requires maximum >= 1 && Nondecreasing(calls + [now])
    ensures Pruned(maximum, calls + [now]).1 == Pruned(maximum, calls).1 +
            [ValidTime(now) && Room(maximum, Log(maximum, calls), now.milliseconds)]
  {
    hide Nondecreasing;
    var all := calls + [now];
    assert all[..|all| - 1] == calls && all[|all| - 1] == now;
    Unsnoc(all);
    ForgettingIsSafe(maximum, all);
    ForgettingIsSafe(maximum, calls);
    if ValidTime(now) {
      LogSorted(maximum, calls);
      RecentIsTail(Log(maximum, calls), now.milliseconds);
    }
  }

  /** No second holds more than `maximum` admissions: any admission and the one `maximum` places later are at least 1000
      ms apart. */
  lemma AdmissionsSpaced(maximum: nat, calls: seq<Reading>, i: nat)
    requires maximum >= 1 && Nondecreasing(calls) && i + maximum < |Log(maximum, calls)|
    ensures Log(maximum, calls)[i + maximum] - Log(maximum, calls)[i] >= 1000.0
  {
    LogSorted(maximum, calls);
  }

  // What is recent at one time is recent at any earlier one.
  lemma {:induction false} RecentBack(times: seq<real>, a: real, b: real)
    requires b <= a
    ensures Recent(Recent(times, a), b) == Recent(times, a) && |Recent(times, a)| <= |Recent(times, b)|
  {
    if times != [] {
      RecentBack(times[1..], a, b);
      if a - times[0] < WINDOW {
        assert Recent(times, a)[1..] == Recent(times[1..], a);
      }
    }
  }

  /** On a call whose reading goes back, the two limiters agree if and only if it is not the case that the limit is free
      at the latest reading but taken at this one: then the limiter admits what the one that remembers refuses. */
  lemma AgreeExactly(maximum: nat, calls: seq<Reading>, now: Reading)
    requires maximum >= 1 && Nondecreasing(calls) && ValidTime(now)
    ensures var (log, t) := (Log(maximum, calls), now.milliseconds);
            Pruned(maximum, calls + [now]).1 == Remembering(maximum, calls + [now]).1 <==>
            t >= Latest(calls) || !(|Recent(log, Latest(calls))| < maximum <= |Recent(log, t)|)
  {
    hide Pruned, Remembering, Nondecreasing, Latest;
    var (log, t) := (Log(maximum, calls), now.milliseconds);
    ForgettingIsSafe(maximum, calls);
    CallSnoc(maximum, calls, now);
    if t >= Latest(calls) {
      RecentTwice(log, Latest(calls), t);
    } else {
      RecentBack(log, Latest(calls), t);
    }
    var before := Pruned(maximum, calls).1;
    var p, q := Admit(maximum, Pruned(maximum, calls).0, now).1, WithinLimit(maximum, log, t);
    assert (before + [p])[|before|] == p && (before + [q])[|before|] == q;
    assert Pruned(maximum, calls + [now]).1 == before + [p] && Remembering(maximum, calls + [now]).1 == before + [q];
  }

  /** Sharpness of the monotone clock: an input on which they differ. */
  lemma BackwardClockAdmits()
    ensures Pruned(2, [At(0.0), At(2000.0), At(500.0)]).1 == [true, true, true]
    ensures Remembering(2, [At(0.0), At(2000.0), At(500.0)]).1 == [true, true, false]
  {
    hide Pruned, Remembering, Recent;
    var one, two := [At(0.0)], [At(0.0), At(2000.0)];
    Windows();
    FirstCall(2, At(0.0));
    CallSnoc(2, one, At(2000.0));
    assert one + [At(2000.0)] == two;
    assert Pruned(2, two).0 == [2000.0] && Pruned(2, two).1 == [true, true];
    assert Remembering(2, two).0 == [0.0, 2000.0] && Remembering(2, two).1 == [true, true];
    CallSnoc(2, two, At(500.0));
    assert two + [At(500.0)] == [At(0.0), At(2000.0), At(500.0)];
  }

  lemma Windows()
    ensures Recent([0.0], 2000.0) == [] && Recent([2000.0], 500.0) == [2000.0]
    ensures Recent([0.0, 2000.0], 500.0) == [0.0, 2000.0]
  {
    assert [0.0][1..] == [] && [0.0, 2000.0][1..] == [2000.0];
  }

  lemma FirstCall(maximum: nat, now: Reading)
    requires maximum >= 1 && ValidTime(now)
    ensures Pruned(maximum, [now]) == Remembering(maximum, [now]) == ([now.milliseconds], [true])
  {
    assert [now][..0] == [];
    assert [] + [now.milliseconds] == [now.milliseconds] && [] + [true] == [true];
  }

  lemma CallSnoc(maximum: nat, calls: seq<Reading>, now: Reading)
    ensures Pruned(maximum, calls + [now]) ==
            (Admit(maximum, Pruned(maximum, calls).0, now).0,
             Pruned(maximum, calls).1 + [Admit(maximum, Pruned(maximum, calls).0, now).1])
    ensures var (log, answers) := Remembering(maximum, calls);
            Remembering(maximum, calls + [now]) ==
            if ValidTime(now)
            && WithinLimit(maximum, log, now.milliseconds) then (log + [now.milliseconds], answers + [true])
            else (log, answers + [false])
  {
    var all := calls + [now];
    assert all[..|all| - 1] == calls && all[|all| - 1] == now;
  }
}
