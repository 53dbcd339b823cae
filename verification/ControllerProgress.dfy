/** What the controller must do: each state and each action of a run, told from its ticks. */
module ControllerProgress {
  import opened Common
  import opened ControllerSpec
  import opened ControllerLadder
  import opened ControllerRuns
  import opened ControllerStability

  // -------- what the counters and timers mean --------

  // How many ticks in a row, up to the n-th, were pressured.
  function Pressed(ticks: seq<Tick>, n: nat): (k: nat)
    requires n <= |ticks|
    ensures k <= n
  {
    if n == 0 || !ticks[n - 1].pressure then 0 else Pressed(ticks, n - 1) + 1
  }

  lemma PressedThrice(ticks: seq<Tick>, i: nat)
    requires i < |ticks|
    ensures Pressed(ticks, i + 1) >= 3 <==> Thrice(ticks, i)
  {
    if i >= 2 {
      assert Pressed(ticks, i + 1) >= 3 <==> ticks[i].pressure && Pressed(ticks, i) >= 2;
      assert Pressed(ticks, i) >= 2 <==> ticks[i - 1].pressure && Pressed(ticks, i - 1) >= 1;
    }
  }

  predicate Thrice(ticks: seq<Tick>, i: nat)
    requires i < |ticks|
  {
    i >= 2 && ticks[i].pressure && ticks[i - 1].pressure && ticks[i - 2].pressure
  }

  lemma {:induction false} PressureExactly(t: Trace, n: nat)
    requires Run(t) && n <= |t.ticks|
    ensures t.states[n].pressureTicks == Pressed(t.ticks, n)
  {
    hide Decide;
    if n > 0 {
      PressureExactly(t, n - 1);
      assert Stepped(t, n - 1);
      RunLadder(t, n - 1);
      TimersAfter(t.states[n - 1], t.ticks[n - 1]);
    }
  }

  ghost predicate Full(c: Controller) { |c.history| == MaxDepth(c.base) }

  // The first tick of the present stretch of hard ticks met at full depth.
  ghost function HardStart(t: Trace, i: nat): (k: nat)
    requires Run(t) && i < |t.ticks| && t.ticks[i].hard && Full(t.states[i])
    ensures k <= i && forall m :: k <= m <= i ==> t.ticks[m].hard && Full(t.states[m])
    ensures k > 0 ==> !t.ticks[k - 1].hard || !Full(t.states[k - 1])
    decreases i
  {
    if i > 0 && t.ticks[i - 1].hard && Full(t.states[i - 1]) then HardStart(t, i - 1) else i
  }

  lemma UnusableTimer(c: Controller, t: Tick)
    requires Ladder(c) && c.state != Unusable
    ensures var d := Decide(c, t).0;
            d.unusableSince == if t.hard
            && Full(c) then Some(if c.unusableSince.Some? then c.unusableSince.value else t.now)
                               else None
  {
    hide AtUnusableLevels, Degrade, Relax, Ladder;
    var (d, first) := Transition(Observe(c, t), t);
    SameLadder(c, d);
    UnusableIsFullDepth(d);
    var (e, second) := CheckUnusable(d, t, first);
    AdjustFrame(e, t, second);
  }

  /** The unusable timer is the time of the first tick of the present stretch of hard ticks at full depth. */
  lemma {:induction false} UnusableSinceExactly(t: Trace, i: nat)
    requires Run(t) && i < |t.ticks| && t.states[i].state != Unusable
    ensures t.states[i + 1].unusableSince
            == if t.ticks[i].hard && Full(t.states[i]) then Some(t.ticks[HardStart(t, i)].now) else None
    decreases i
  {
    hide Decide, Full;
    assert Stepped(t, i);
    RunLadder(t, i);
    UnusableTimer(t.states[i], t.ticks[i]);
    if i > 0 {
      assert t.states[i - 1].state != Unusable by {
        if t.states[i - 1].state == Unusable { UnusableAbsorbs(t, i - 1, i); }
      }
      UnusableSinceExactly(t, i - 1);
    }
  }

  // -------- states --------

  lemma NextState(c: Controller, t: Tick)
    requires Ladder(c)
    ensures var d, p := Decide(c, t).0, if t.pressure then c.pressureTicks + 1 else 0;
            var since := if !t.compliant then None else if c.recoverySince.None? then Some(t.now) else c.recoverySince;
            var hard := if c.unusableSince.Some? then c.unusableSince.value else t.now;
            d.state ==
            if c.state == Unusable then Unusable
            else if t.hard then (if Full(c) && t.now - hard >= 3000 then Unusable else Congested)
            else if c.state == RatePressure
            || c.state == Congested then (if Elapsed(since, t.now, 1000) then Recovery else c.state)
            else if p >= 3 then RatePressure
            else if c.state == Recovery && t.compliant && Elapsed(c.stableSince, t.now, 5000) then Stable
            else c.state
  {
    hide AtUnusableLevels, Degrade, Relax, Ladder;
    var (d, first) := Transition(Observe(c, t), t);
    SameLadder(c, d);
    UnusableIsFullDepth(d);
    var (e, second) := CheckUnusable(d, t, first);
    AdjustFrame(e, t, second);
  }

  /** The state after every tick, told from the ticks: UNUSABLE for good; else on a hard tick UNUSABLE once the link has
      been hard at full depth for 3000 ms, CONGESTED otherwise; else out of RATE_PRESSURE and CONGESTED to RECOVERY once
      it has been compliant
      for 1000 ms; else into RATE_PRESSURE on the third pressured tick in a row; else out of RECOVERY to STABLE when the
      stable timer
      has run 5000 ms; else unchanged. */
  lemma StateExactly(t: Trace, i: nat)
    requires Run(t) && i < |t.ticks|
    ensures var s, tick := t.states[i].state, t.ticks[i];
            t.states[i + 1].state ==
            if s == Unusable then Unusable
            else if tick.hard then
              (if Full(t.states[i]) && tick.now - t.ticks[HardStart(t, i)].now >= 3000 then Unusable else Congested)
            else if s == RatePressure || s == Congested then
              (if tick.compliant && tick.now - t.ticks[StreakStart(t.ticks, i)].now >= 1000 then Recovery else s)
            else if Thrice(t.ticks, i) then RatePressure
            else if s == Recovery && tick.compliant && Elapsed(t.states[i].stableSince, tick.now, 5000) then Stable
            else s
  {
    hide Decide, Full, Thrice;
    assert Stepped(t, i);
    RunLadder(t, i);
    NextState(t.states[i], t.ticks[i]);
    PressureExactly(t, i);
    PressedThrice(t.ticks, i);
    SinceAfter(t.states[i], t.ticks[i]);
    RecoverySinceExactly(t, i);
    if t.states[i].state != Unusable {
      UnusableTimer(t.states[i], t.ticks[i]);
      UnusableSinceExactly(t, i);
    }
  }

  // -------- actions --------

  // The time of the latest of the first n ticks whose action satisfies p.
  function Latest(t: Trace, n: nat, p: Action -> bool): Option<int>
    requires |t.actions| == |t.ticks| && n <= |t.ticks|
  {
    if n == 0 then None else if p(t.actions[n - 1]) then Some(t.ticks[n - 1].now) else Latest(t, n - 1, p)
  }

  // No action satisfying p for so long.
  ghost predicate QuietFor(t: Trace, i: nat, p: Action -> bool, d: int)
    requires |t.actions| == |t.ticks| && i < |t.ticks|
  {
    forall j :: 0 <= j < i && p(t.actions[j]) ==> t.ticks[i].now - t.ticks[j].now >= d
  }

  lemma {:induction false} QuietLatest(t: Trace, n: nat, i: nat, p: Action -> bool, d: int)
    requires Run(t) && n <= i < |t.ticks|
    ensures (forall j :: 0 <= j < n && p(t.actions[j]) ==> t.ticks[i].now - t.ticks[j].now >= d)
        <==> (Latest(t, n, p).Some? ==> t.ticks[i].now - Latest(t, n, p).value >= d)
    decreases n
  {
    if n > 0 {
      QuietLatest(t, n - 1, i, p, d);
      if p(t.actions[n - 1]) {
        assert forall j :: 0 <= j < n - 1 ==> t.ticks[j].now < t.ticks[n - 1].now;
      }
    }
  }

  const LevelChange: Action -> bool := (a: Action) => a.Reduce? || a.Restore?
  const RestoreOrEntry: Action -> bool := (a: Action) => a.Restore? || a == RequestRecoveryIdr

  // Before the levels are adjusted.
  lemma Prior(c: Controller, t: Tick)
    requires Ladder(c)
    ensures var (d, first) := Transition(Observe(c, t), t);
            var (e, second) := CheckUnusable(d, t, first);
            && Ladder(e) && e.history == c.history && e.base == c.base && e.lastAction == c.lastAction
            && (second == NoAction || second == RequestRecoveryIdr || second == StopUnusableLink)
            && (second == RequestRecoveryIdr <==> e.state == Recovery && c.state != Recovery)
            && (second == RequestRecoveryIdr ==> c.state == RatePressure || c.state == Congested)
            && (second == StopUnusableLink <==> e.state == Unusable && c.state != Unusable)
            && e.lastRestoration == (if second == RequestRecoveryIdr then Some(t.now) else c.lastRestoration)
            && Decide(c, t) == Adjust(e, t, second)
            && ((e.state == Stable || e.state == Recovery) && second == NoAction ==>
                  c.state == Recovery || c.state == Stable)
  {
    hide AtUnusableLevels, Ladder, Adjust;
    var (d, first) := Transition(Observe(c, t), t);
    SameLadder(c, d);
    var (e, second) := CheckUnusable(d, t, first);
    SameLadder(c, e);
  }

  lemma DegradeTimes(c: Controller, now: int)
    ensures var (d, a) := Degrade(c, now);
            && d.lastRestoration == c.lastRestoration && d.state == c.state
            && (a.Reduce? || a == NoAction)
            && d.lastAction == (if a.Reduce? then Some(now) else c.lastAction)
  {
    hide PayloadTarget;
  }

  lemma RelaxTimes(c: Controller, now: int)
    ensures var (d, a) := Relax(c, now);
            && d.lastRestoration == (if a.Restore? then Some(now) else c.lastRestoration) && d.state == c.state
            && (a.Restore? || a == NoAction)
            && d.lastAction == (if a.Restore? then Some(now) else c.lastAction)
  {}

  lemma ActionTimes(c: Controller, t: Tick)
    requires Ladder(c)
    ensures var (d, a) := Decide(c, t);
            && d.lastAction == (if LevelChange(a) then Some(t.now) else c.lastAction)
            && d.lastRestoration == (if RestoreOrEntry(a) then Some(t.now) else c.lastRestoration)
  {
    hide Decide, Degrade, Relax, Ladder, Transition, Observe, CheckUnusable;
    Prior(c, t);
    var (d, first) := Transition(Observe(c, t), t);
    var (e, second) := CheckUnusable(d, t, first);
    DegradeTimes(e, t.now);
    RelaxTimes(e, t.now);
  }

  /** The two action timers are the times of the latest level change and of the latest restoration or recovery entry. */
  lemma {:induction false} ActionTimesExactly(t: Trace, n: nat)
    requires Run(t) && n <= |t.ticks|
    ensures t.states[n].lastAction == Latest(t, n, LevelChange)
    ensures t.states[n].lastRestoration == Latest(t, n, RestoreOrEntry)
    decreases n
  {
    hide Decide;
    if n > 0 {
      ActionTimesExactly(t, n - 1);
      assert Stepped(t, n - 1);
      RunLadder(t, n - 1);
      ActionTimes(t.states[n - 1], t.ticks[n - 1]);
    }
  }

  // What one tick does to the levels.
  lemma NextAction(c: Controller, t: Tick)
    requires Ladder(c)
    ensures var (d, a) := Decide(c, t);
            && (a.Reduce? <==>
                  && (d.state == RatePressure || d.state == Congested) && !Full(c)
                  && (c.lastAction.Some? ==> t.now - c.lastAction.value >= 500))
            && (a.Reduce? ==>
                  a.knob == KnobAt(c.base, |c.history|) && d.history == c.history + [Applied(a.knob, t.now)])
            && (a.Restore? <==>
                  && t.compliant && (d.state == Recovery || d.state == Stable)
                     && (c.state == Recovery || c.state == Stable)
                  && RestoreDue(c, t.now))
            && (a.Restore? ==> c.history != [] && a.knob == c.history[|c.history| - 1].knob
                               && d.history == c.history[..|c.history| - 1])
            && (a == RequestRecoveryIdr <==> d.state == Recovery && c.state != Recovery)
            && (a == StopUnusableLink <==> d.state == Unusable && c.state != Unusable)
            && (a == NoAction || a == RequestRecoveryIdr || a == StopUnusableLink ==> d.history == c.history)
  {
    hide Decide, Degrade, Relax, Ladder, RestoreDue, Transition, Observe, CheckUnusable, Pushed;
    Prior(c, t);
    var (d, first) := Transition(Observe(c, t), t);
    var (e, second) := CheckUnusable(d, t, first);
    DegradeClimbs(e, t.now);
    RelaxDescends(e, t.now);
    DegradeTimes(e, t.now);
    RelaxTimes(e, t.now);
    DueSame(c, e, t.now);
    assert RestoreDue(c, t.now) ==> c.history != [] by { DueSame(c, c, t.now); }
    if c.history != [] {
      TopKnob(c);
    }
  }

  lemma TopKnob(c: Controller)
    requires Ladder(c) && c.history != []
    ensures c.history[|c.history| - 1].knob == KnobAt(c.base, |c.history| - 1)
  {}

  lemma DueSame(c: Controller, e: Controller, now: int)
    requires e.history == c.history
    ensures e.lastRestoration == c.lastRestoration ==> (RestoreDue(e, now) <==> RestoreDue(c, now))
    ensures RestoreDue(e, now) ==> e.history != []
  {}

  /** A tick degrades if and only if it leaves the link in RATE_PRESSURE or CONGESTED, the stack is not at full depth
      and no level has changed for 500 ms; and then by the next rung. */
  lemma DegradeExactly(t: Trace, i: nat)
    requires Run(t) && i < |t.ticks|
    ensures var c := t.states[i];
            && (t.actions[i].Reduce? <==>
                  && (t.states[i + 1].state == RatePressure || t.states[i + 1].state == Congested) && !Full(c)
                  && forall j :: 0 <= j < i && (t.actions[j].Reduce? || t.actions[j].Restore?) ==>
                       t.ticks[i].now - t.ticks[j].now >= 500)
            && (t.actions[i].Reduce? ==> t.actions[i].knob == KnobAt(c.base, |c.history|)
                                         && |t.states[i + 1].history| == |c.history| + 1)
  {
    hide Decide, Full;
    assert Stepped(t, i);
    RunLadder(t, i);
    NextAction(t.states[i], t.ticks[i]);
    ActionTimesExactly(t, i);
    QuietLatest(t, i, i, LevelChange, 500);
  }

  lemma DueByTimers(c: Controller, before: int, now: int)
    requires Clocked(c, before) && before < now
    ensures RestoreDue(c, now) <==>
            && c.history != []
            && (c.lastAction.Some? ==> now - c.lastAction.value >= 2000)
            && (c.lastRestoration.Some? ==> now - c.lastRestoration.value >= 2000)
  {
    hide Relax;
    ClockedLater(c, c, before, now);
    RelaxClocked(c, now);
  }

  /** A tick restores if and only if it is compliant, the link is in RECOVERY or STABLE before and after it, something
      is left to restore, and for 2000 ms no level has changed and no recovery begun; and then the last rung. */
  lemma RestoreExactly(t: Trace, i: nat)
    requires Run(t) && i < |t.ticks|
    ensures var c, d := t.states[i], t.states[i + 1];
            && (t.actions[i].Restore? <==>
                  && t.ticks[i].compliant && c.history != []
                  && (c.state == Recovery || c.state == Stable) && (d.state == Recovery || d.state == Stable)
                  && forall j ::
                       0 <= j < i && (t.actions[j].Reduce? || t.actions[j].Restore?
                                      || t.actions[j] == RequestRecoveryIdr) ==>
                         t.ticks[i].now - t.ticks[j].now >= 2000)
            && (t.actions[i].Restore? ==> c.history != [] && t.actions[i].knob == c.history[|c.history| - 1].knob
                                          && d.history == c.history[..|c.history| - 1])
  {
    hide Decide, Full, Clocked, RestoreDue;
    assert Stepped(t, i);
    RunLadder(t, i);
    RunClocked(t, i);
    NextAction(t.states[i], t.ticks[i]);
    ActionTimesExactly(t, i);
    QuietLatest(t, i, i, LevelChange, 2000);
    QuietLatest(t, i, i, RestoreOrEntry, 2000);
    assert Before(t, i) < t.ticks[i].now;
    DueByTimers(t.states[i], Before(t, i), t.ticks[i].now);
  }

  /** The other two actions are the entries: an IDR is requested exactly on entering RECOVERY, and the link stopped
      exactly on entering UNUSABLE. */
  lemma EntriesExactly(t: Trace, i: nat)
    requires Run(t) && i < |t.ticks|
    ensures t.actions[i] == RequestRecoveryIdr <==> t.states[i + 1].state == Recovery && t.states[i].state != Recovery
    ensures t.actions[i] == StopUnusableLink <==> t.states[i + 1].state == Unusable && t.states[i].state != Unusable
  {
    hide Decide, Full;
    assert Stepped(t, i);
    RunLadder(t, i);
    NextAction(t.states[i], t.ticks[i]);
  }

  // -------- a link that stays hard --------

  // Hard ticks from tick e on, at most `gap` apart.
  ghost predicate HardFrom(t: Trace, e: nat, n: nat, gap: int)
    requires n <= |t.ticks|
  {
    forall m :: e <= m < n ==> t.ticks[m].hard && (m > e ==> t.ticks[m].now - t.ticks[m - 1].now <= gap)
  }

  // How far down a link is that has been hard since `start`, at time `now`, after `steps` degrades.
  ghost predicate OnTheWayDown(c: Controller, start: int, steps: nat, gap: int, now: int) {
    && c.state == Congested && steps <= |c.history| <= MaxDepth(c.base)
    && (c.lastAction.Some? ==> c.lastAction.value <= start + steps * (500 + gap))
    && (!Full(c) ==> c.lastAction.Some? && now < c.lastAction.value + 500)
    && (Full(c) ==>
          || (c.unusableSince.None? && now <= start + MaxDepth(c.base) * (500 + gap))
          || (c.unusableSince.Some? && now < c.unusableSince.value + 3000
              && c.unusableSince.value <= start + MaxDepth(c.base) * (500 + gap) + gap))
  }

  ghost predicate Descending(c: Controller, start: int, gap: int, now: int) {
    exists steps: nat :: OnTheWayDown(c, start, steps, gap, now)
  }

  // What a hard tick does outside UNUSABLE.
  lemma HardTick(c: Controller, t: Tick)
    requires Ladder(c) && c.state != Unusable && t.hard
    ensures var d := Decide(c, t).0;
            && d.base == c.base && Ladder(d)
            && (Full(c) ==>
                  var since := if c.unusableSince.Some? then c.unusableSince.value else t.now;
                  && d.history == c.history && d.lastAction == c.lastAction && d.unusableSince == Some(since)
                  && d.state == (if t.now - since >= 3000 then Unusable else Congested))
            && (!Full(c) ==>
                  && d.state == Congested && d.unusableSince.None?
                  && if c.lastAction.Some? && t.now - c.lastAction.value < 500
                     then d.history == c.history && d.lastAction == c.lastAction
                     else |d.history| == |c.history| + 1 && d.lastAction == Some(t.now))
  {
    hide Decide, Ladder;
    NextState(c, t);
    NextAction(c, t);
    UnusableTimer(c, t);
    ActionTimes(c, t);
    DecideLadder(c, t);
  }

  lemma Product(a: nat, b: nat, x: int)
    requires a <= b && x >= 0
    ensures a * x <= b * x && (a + 1) * x == a * x + x
  {}

  lemma HardStep(c: Controller, t: Tick, start: int, steps: nat, gap: int, before: int)
    requires Ladder(c) && OnTheWayDown(c, start, steps, gap, before) && start <= before
    requires t.hard && before < t.now <= before + gap
    ensures var d := Decide(c, t).0;
            d.state == Unusable || Descending(d, start, gap, t.now)
  {
    hide Decide, Ladder;
    HardTick(c, t);
    DepthBound(c);
    DepthBound(Decide(c, t).0);
    var d := Decide(c, t).0;
    Product(steps, MaxDepth(c.base), 500 + gap);
    if d.state != Unusable {
      if |d.history| == |c.history| + 1 {
        Product(steps + 1, MaxDepth(c.base), 500 + gap);
        assert OnTheWayDown(d, start, steps + 1, gap, t.now);
      } else {
        assert OnTheWayDown(d, start, steps, gap, t.now);
      }
    }
  }

  lemma DepthBound(c: Controller)
    requires Ladder(c)
    ensures |c.history| <= MaxDepth(c.base)
  {}

  lemma HardBegins(c: Controller, t: Tick, gap: int, before: int)
    requires Ladder(c) && Clocked(c, before) && before < t.now && c.state != Unusable && t.hard && gap >= 0
    requires c.unusableSince.Some? ==> c.unusableSince.value <= t.now
    ensures var d := Decide(c, t).0;
            d.state == Unusable || Descending(d, t.now, gap, t.now)
  {
    hide Decide, Ladder;
    HardTick(c, t);
    DepthBound(c);
    DepthBound(Decide(c, t).0);
    var d := Decide(c, t).0;
    Product(0, MaxDepth(c.base), 500 + gap);
    Product(1, MaxDepth(c.base) + 1, 500 + gap);
    if d.state != Unusable {
      if |d.history| == |c.history| + 1 {
        Product(1, MaxDepth(c.base), 500 + gap);
        assert OnTheWayDown(d, t.now, 1, gap, t.now);
      } else {
        assert OnTheWayDown(d, t.now, 0, gap, t.now);
      }
    }
  }

  lemma {:induction false} GoingDown(t: Trace, e: nat, n: nat, gap: int)
    requires Run(t) && e < n <= |t.ticks| && gap >= 0 && t.states[e].state != Unusable && HardFrom(t, e, n, gap)
    ensures t.states[n].state == Unusable
            || Descending(t.states[n], t.ticks[e].now, gap, t.ticks[n - 1].now)
    decreases n
  {
    hide Decide, Ladder, OnTheWayDown, Clocked;
    assert Stepped(t, n - 1);
    RunLadder(t, n - 1);
    if n == e + 1 {
      RunClocked(t, e);
      assert Before(t, e) < t.ticks[e].now;
      SinceEarlier(t, e);
      HardBegins(t.states[e], t.ticks[e], gap, Before(t, e));
    } else {
      GoingDown(t, e, n - 1, gap);
      if t.states[n - 1].state == Unusable {
        UnusableAbsorbs(t, n - 1, n);
      } else {
        var steps: nat :| OnTheWayDown(t.states[n - 1], t.ticks[e].now, steps, gap, t.ticks[n - 2].now);
        assert t.ticks[e].now <= t.ticks[n - 2].now < t.ticks[n - 1].now;
        HardStep(t.states[n - 1], t.ticks[n - 1], t.ticks[e].now, steps, gap, t.ticks[n - 2].now);
      }
    }
  }

  lemma SinceEarlier(t: Trace, e: nat)
    requires Run(t) && e < |t.ticks| && t.states[e].state != Unusable
    ensures t.states[e].unusableSince.Some? ==> t.states[e].unusableSince.value <= t.ticks[e].now
  {
    if e > 0 {
      assert t.states[e - 1].state != Unusable by {
        if t.states[e - 1].state == Unusable { UnusableAbsorbs(t, e - 1, e); }
      }
      UnusableSinceExactly(t, e - 1);
    }
  }

  /** A link that stays hard, its ticks at most `gap` apart, is at full depth maxDepth (500 + gap) ms after the first of
      them at the latest, and UNUSABLE 3000 + gap ms after that. */
  lemma HardLinkStops(t: Trace, e: nat, n: nat, gap: int)
    requires Run(t) && e < n <= |t.ticks| && gap >= 0 && t.states[e].state != Unusable && HardFrom(t, e, n, gap)
    ensures var passed, down := t.ticks[n - 1].now - t.ticks[e].now, MaxDepth(t.states[0].base) * (500 + gap);
            && (passed >= down ==> Full(t.states[n]))
            && (passed >= down + 3000 + gap ==> t.states[n].state == Unusable)
  {
    hide Decide, Ladder;
    GoingDown(t, e, n, gap);
    RunLadder(t, n);
    DepthBound(t.states[n]);
    if t.states[n].state == Unusable {
      UnusableFull(t, n);
    } else {
      var steps: nat :| OnTheWayDown(t.states[n], t.ticks[e].now, steps, gap, t.ticks[n - 1].now);
      Product(steps, MaxDepth(t.states[0].base), 500 + gap);
      if !Full(t.states[n]) {
        Product(steps + 1, MaxDepth(t.states[0].base), 500 + gap);
      }
    }
  }

  // A stopped link stands at full depth.
  lemma {:induction false} UnusableFull(t: Trace, n: nat)
    requires Run(t) && n <= |t.ticks| && t.states[n].state == Unusable
    ensures Full(t.states[n])
    decreases n
  {
    hide Decide, Ladder, Full;
    if n > 0 {
      RunLadder(t, n - 1);
      RunLadder(t, n);
      if t.states[n - 1].state == Unusable {
        UnusableFull(t, n - 1);
        UnusableAbsorbs(t, n - 1, n);
        SameFull(t.states[n - 1], t.states[n]);
      } else {
        StateExactly(t, n - 1);
        EntriesExactly(t, n - 1);
        assert Stepped(t, n - 1);
        NextAction(t.states[n - 1], t.ticks[n - 1]);
        SameFull(t.states[n - 1], t.states[n]);
      }
    }
  }

  lemma SameFull(c: Controller, d: Controller)
    requires c.base == d.base && c.history == d.history
    ensures Full(c) <==> Full(d)
  {}

  // -------- the ladder in figures --------

  /** Whatever the run, the number of rungs descended tells the four knobs: first up to four of emphasis, then up to
      three of the threshold, then the payload steps down to 100000, then up to two profiles; and nothing beyond. */
  lemma KnobsExactly(t: Trace, n: nat)
    requires Run(t) && n <= |t.ticks|
    ensures var c := t.states[n]; var depth, steps := |c.history|, PayloadSteps(c.base);
            && c.autoIndex == Clamp(depth, 4) && c.thresholdIndex == Clamp(depth - 4, 3)
            && c.payloadStep == Clamp(depth - 7, steps) && c.profileIndex == Clamp(depth - 7 - steps, 2)
            && depth <= 9 + steps
            && (PayloadTarget(c.base, c.payloadStep) == 100000 <==> c.payloadStep >= steps)
  {
    RunLadder(t, n);
    AtMinimumExactly(t.states[n].base, t.states[n].payloadStep);
  }

  /** Each payload step takes a tenth off the target before rounding, down to 100000. */
  lemma TargetExactly(base: nat, step: nat)
    ensures Reduced(base, 0) == base as real && Reduced(base, step + 1) == 0.9 * Reduced(base, step)
    ensures Reduced(base, step) <= 100000.0 ==> PayloadTarget(base, step) == 100000
    ensures Reduced(base, step) >= 100000.0 ==> -0.5 <= PayloadTarget(base, step) as real - Reduced(base, step) <= 0.5
  {
    RoundNear(Reduced(base, step));
    if Reduced(base, step) <= 100000.0 {
      RoundMonotone(Reduced(base, step), 100000.0);
    } else {
      RoundMonotone(100000.0, Reduced(base, step));
    }
    assert RoundHalfEven(100000.0) == 100000;
  }
}
