/** Runs of the controller: any ticks, at strictly increasing times, from the initial state. */
module ControllerRuns {
  import opened Common
  import opened ControllerSpec
  import opened ControllerLadder

  datatype Trace = Trace(states: seq<Controller>, ticks: seq<Tick>, actions: seq<Action>)

  ghost predicate Stepped(t: Trace, i: nat)
    requires |t.states| == |t.ticks| + 1 && |t.actions| == |t.ticks| && i < |t.ticks|
  {
    Decide(t.states[i], t.ticks[i]) == (t.states[i + 1], t.actions[i])
  }

  ghost predicate Run(t: Trace) {
    && |t.states| == |t.ticks| + 1
    && |t.actions| == |t.ticks|
    && t.states[0] == Initial(t.states[0].base)
    && (forall i :: 0 <= i < |t.ticks| ==> Stepped(t, i))
    && (forall i, j :: 0 <= i < j < |t.ticks| ==> t.ticks[i].now < t.ticks[j].now)
  }

  predicate ChangesLevel(a: Action) { a.Reduce? || a.Restore? }

  // Turning knobs leaves the state and the timers alone.
  lemma AdjustFrame(c: Controller, t: Tick, action: Action)
    ensures var (d, a) := Adjust(c, t, action);
            && d.state == c.state && d.base == c.base && d.pressureTicks == c.pressureTicks
            && d.recoverySince == c.recoverySince && d.stableSince == c.stableSince
               && d.unusableSince == c.unusableSince
            && (a != action ==> ChangesLevel(a) && action == NoAction)
            && (!ChangesLevel(a) ==> d == c)
  {}

  /** Every reachable controller stands on the ladder. */
  lemma {:induction false} RunLadder(t: Trace, i: nat)
    requires Run(t) && i <= |t.ticks|
    ensures Ladder(t.states[i]) && t.states[i].base == t.states[0].base
  {
    hide Decide;
    if i > 0 {
      RunLadder(t, i - 1);
      assert Stepped(t, i - 1);
      DecideLadder(t.states[i - 1], t.ticks[i - 1]);
    }
  }

  // -------- dwell times --------

  // What holds at time `now`, after the tick of that time.
  ghost predicate Clocked(c: Controller, now: int) {
    && (c.lastAction.None? ==> c.history == [])
    && (c.lastAction.Some? ==> c.lastAction.value <= now)
    && (c.lastRestoration.Some? ==> c.lastRestoration.value <= now)
    && (c.history != [] ==> c.lastAction.Some? && c.history[|c.history| - 1].at <= c.lastAction.value)
    && (c.lastAction.Some? ==>
          || (c.history != [] && c.history[|c.history| - 1].at == c.lastAction.value)
          || (c.lastRestoration.Some? && c.lastRestoration.value >= c.lastAction.value))
    && (forall i, j :: 0 <= i < j < |c.history| ==> c.history[j].at - c.history[i].at >= 500 * (j - i))
  }

  lemma DegradeClocked(c: Controller, now: int)
    requires Clocked(c, now) && (c.lastAction.Some? ==> now - c.lastAction.value >= 500)
    ensures Clocked(Degrade(c, now).0, now)
  {
    var d := Degrade(c, now).0;
    if d != c {
      var n := |c.history|;
      assert d.history == c.history + [Applied(d.history[n].knob, now)];
      forall i | 0 <= i < n
        ensures now - c.history[i].at >= 500 * (n - i)
      {
        if i < n - 1 {
          assert c.history[n - 1].at - c.history[i].at >= 500 * (n - 1 - i);
        }
      }
    }
  }

  lemma RelaxClocked(c: Controller, now: int)
    requires Clocked(c, now)
    ensures Clocked(Relax(c, now).0, now)
    ensures RestoreDue(c, now) ==> c.lastAction.Some? && now - c.lastAction.value >= 2000
  {
    if RestoreDue(c, now) {
      var n := |c.history| - 1;
      assert n > 0 ==> c.history[n].at - c.history[n - 1].at >= 500 * (n - (n - 1));
    }
  }

  // A tick decides the state and the timers first; history and its times are untouched until then.
  lemma BeforeAdjust(c: Controller, t: Tick)
    ensures var (d, first) := Transition(Observe(c, t), t);
            var (e, second) := CheckUnusable(d, t, first);
            && e.history == c.history && e.lastAction == c.lastAction && !ChangesLevel(second)
            && (e.lastRestoration == c.lastRestoration || (e.lastRestoration == Some(t.now) && second != NoAction))
  {
    hide AtUnusableLevels;
  }

  lemma ClockedLater(c: Controller, e: Controller, before: int, now: int)
    requires Clocked(c, before) && before < now && e.history == c.history && e.lastAction == c.lastAction
    requires e.lastRestoration == c.lastRestoration || e.lastRestoration == Some(now)
    ensures Clocked(e, now)
  {}

  lemma AdjustClocked(c: Controller, t: Tick, action: Action)
    requires Clocked(c, t.now) && !ChangesLevel(action)
    ensures var (d, a) := Adjust(c, t, action);
            && Clocked(d, t.now)
            && d.lastAction == (if ChangesLevel(a) then Some(t.now) else c.lastAction)
            && (a.Reduce? && c.lastAction.Some? ==> t.now - c.lastAction.value >= 500)
            && (a.Restore? ==> c.lastAction.Some? && t.now - c.lastAction.value >= 2000)
  {
    if c.lastAction.Some? ==> t.now - c.lastAction.value >= 500 {
      DegradeClocked(c, t.now);
    }
    RelaxClocked(c, t.now);
  }

  lemma DecideClocked(c: Controller, t: Tick, before: int)
    requires Clocked(c, before) && before < t.now
    ensures var (d, action) := Decide(c, t);
            && Clocked(d, t.now)
            && d.lastAction == (if ChangesLevel(action) then Some(t.now) else c.lastAction)
            && (action.Reduce? && c.lastAction.Some? ==> t.now - c.lastAction.value >= 500)
            && (action.Restore? ==> c.lastAction.Some? && t.now - c.lastAction.value >= 2000)
  {
    hide Adjust, Clocked, CheckUnusable, Transition;
    BeforeAdjust(c, t);
    var (d, first) := Transition(Observe(c, t), t);
    var (e, second) := CheckUnusable(d, t, first);
    ClockedLater(c, e, before, t.now);
    AdjustClocked(e, t, second);
  }

  // The time of the last tick before state `i`.
  function Before(t: Trace, i: nat): int
    requires |t.ticks| >= i
  {
    if i == 0 then (if |t.ticks| == 0 then 0 else t.ticks[0].now - 1) else t.ticks[i - 1].now
  }

  lemma {:induction false} RunClocked(t: Trace, i: nat)
    requires Run(t) && i <= |t.ticks|
    ensures Clocked(t.states[i], Before(t, i))
  {
    hide Decide;
    if i > 0 {
      RunClocked(t, i - 1);
      assert Stepped(t, i - 1);
      DecideClocked(t.states[i - 1], t.ticks[i - 1], Before(t, i - 1));
    }
  }

  lemma {:induction false} LastActionCovers(t: Trace, i: nat, j: nat)
    requires Run(t) && i < j <= |t.ticks| && ChangesLevel(t.actions[i])
    ensures t.states[j].lastAction.Some? && t.ticks[i].now <= t.states[j].lastAction.value
    decreases j
  {
    hide Decide, Clocked;
    RunClocked(t, j - 1);
    assert Stepped(t, j - 1);
    DecideClocked(t.states[j - 1], t.ticks[j - 1], Before(t, j - 1));
    if i < j - 1 {
      LastActionCovers(t, i, j - 1);
    }
  }

  /** A degrade comes at least 500 ms, a restore at least 2000 ms, after every earlier level change. */
  lemma DwellTimes(t: Trace, i: nat, j: nat)
    requires Run(t) && i < j < |t.ticks| && ChangesLevel(t.actions[i])
    ensures t.actions[j].Reduce? ==> t.ticks[j].now - t.ticks[i].now >= 500
    ensures t.actions[j].Restore? ==> t.ticks[j].now - t.ticks[i].now >= 2000
  {
    hide Decide, Clocked;
    LastActionCovers(t, i, j);
    RunClocked(t, j);
    assert Stepped(t, j);
    DecideClocked(t.states[j], t.ticks[j], Before(t, j));
  }

  // -------- what the timers stand for --------

  // Every tick from the one at time `since` to tick `i` satisfied the recovery predicate.
  ghost predicate CompliantSince(t: Trace, i: nat, since: int)
    requires i < |t.ticks|
  {
    exists k :: 0 <= k <= i && t.ticks[k].now == since && forall m :: k <= m <= i ==> t.ticks[m].compliant
  }

  // Every tick from the one at time `since` to tick `i` was hard and met the controller at full depth.
  ghost predicate DesperateSince(t: Trace, i: nat, since: int)
    requires Run(t) && i < |t.ticks|
  {
    exists k :: 0 <= k <= i && t.ticks[k].now == since
      && forall m :: k <= m <= i ==> t.ticks[m].hard && |t.states[m].history| == MaxDepth(t.states[m].base)
  }

  // The timers after tick `i` measure what they are named for.
  ghost predicate Meant(t: Trace, i: nat)
    requires Run(t) && i < |t.ticks|
  {
    var c := t.states[i + 1];
    && (c.recoverySince.Some? ==> CompliantSince(t, i, c.recoverySince.value))
    && (c.stableSince.Some? ==> CompliantSince(t, i, c.stableSince.value))
    && (c.unusableSince.Some? ==> DesperateSince(t, i, c.unusableSince.value))
    && c.pressureTicks <= i + 1
    && (forall m :: i + 1 - c.pressureTicks <= m <= i ==> t.ticks[m].pressure)
  }

  lemma {:induction false} RunMeant(t: Trace, i: nat)
    requires Run(t) && i < |t.ticks|
    ensures Meant(t, i)
  {
    hide Degrade, Relax;
    var c, tick := t.states[i], t.ticks[i];
    if i > 0 {
      RunMeant(t, i - 1);
    }
    RunLadder(t, i);
    TimersAfter(c, tick);
    assert Stepped(t, i);
    TimersMean(t, i);
  }

  // How one tick moves the timers.
  lemma TimersAfter(c: Controller, t: Tick)
    requires Ladder(c)
    ensures var d := Decide(c, t).0;
            && (d.recoverySince.Some? ==>
                  t.compliant && (d.recoverySince == c.recoverySince || d.recoverySince.value == t.now))
            && (d.stableSince.Some? ==>
                  t.compliant && (d.stableSince == c.stableSince || d.stableSince == d.recoverySince))
            && (d.unusableSince.Some? ==>
                  && t.hard && |c.history| == MaxDepth(c.base)
                  && (d.unusableSince == c.unusableSince || d.unusableSince.value == t.now))
            && d.pressureTicks == (if t.pressure then c.pressureTicks + 1 else 0)
  {
    hide Adjust, AtUnusableLevels, Ladder;
    var (d, first) := Transition(Observe(c, t), t);
    SameLadder(c, d);
    UnusableIsFullDepth(d);
    var (e, second) := CheckUnusable(d, t, first);
    AdjustFrame(e, t, second);
  }

  lemma TimersMean(t: Trace, i: nat)
    requires Run(t) && i < |t.ticks| && (i > 0 ==> Meant(t, i - 1))
    requires var c, d, tick := t.states[i], t.states[i + 1], t.ticks[i];
             && (d.recoverySince.Some? ==>
                   tick.compliant && (d.recoverySince == c.recoverySince || d.recoverySince.value == tick.now))
             && (d.stableSince.Some? ==>
                   tick.compliant && (d.stableSince == c.stableSince || d.stableSince == d.recoverySince))
             && (d.unusableSince.Some? ==>
                   && tick.hard && |c.history| == MaxDepth(c.base)
                   && (d.unusableSince == c.unusableSince || d.unusableSince.value == tick.now))
             && d.pressureTicks == (if tick.pressure then c.pressureTicks + 1 else 0)
    ensures Meant(t, i)
  {
    hide Decide, MaxDepth;
    var c, d, tick := t.states[i], t.states[i + 1], t.ticks[i];
    if d.recoverySince.Some? {
      ExtendCompliant(t, i, c.recoverySince, d.recoverySince.value);
    }
    if d.stableSince.Some? && d.stableSince == c.stableSince {
      ExtendCompliant(t, i, c.stableSince, d.stableSince.value);
    }
    if d.unusableSince.Some? {
      if i > 0 && d.unusableSince == c.unusableSince {
        assert DesperateSince(t, i - 1, d.unusableSince.value);
        var k :| 0 <= k <= i - 1 && t.ticks[k].now == d.unusableSince.value
          && forall m :: k <= m <= i - 1 ==> t.ticks[m].hard && |t.states[m].history| == MaxDepth(t.states[m].base);
        assert forall m :: k <= m <= i ==> t.ticks[m].hard && |t.states[m].history| == MaxDepth(t.states[m].base);
      } else {
        assert t.ticks[i].now == d.unusableSince.value;
      }
    }
  }

  lemma ExtendCompliant(t: Trace, i: nat, before: Option<int>, since: int)
    requires i < |t.ticks| && t.ticks[i].compliant
    requires since == t.ticks[i].now || (before == Some(since) && i > 0 && CompliantSince(t, i - 1, since))
    ensures CompliantSince(t, i, since)
  {
    if since == t.ticks[i].now {
      assert forall m :: i <= m <= i ==> t.ticks[m].compliant;
    } else {
      var k :| 0 <= k <= i - 1 && t.ticks[k].now == since && forall m :: k <= m <= i - 1 ==> t.ticks[m].compliant;
      assert forall m :: k <= m <= i ==> t.ticks[m].compliant;
    }
  }

  // Which change of state needs what.
  lemma EntryNeeds(c: Controller, t: Tick)
    requires Ladder(c)
    ensures var d := Decide(c, t).0;
            && (d.state == RatePressure && c.state != RatePressure ==> d.pressureTicks >= 3)
            && (d.state == Recovery && c.state != Recovery ==> Elapsed(d.recoverySince, t.now, 1000))
            && (d.state == Stable && c.state != Stable ==> Elapsed(d.stableSince, t.now, 5000))
            && (d.state == Unusable && c.state != Unusable ==> Elapsed(d.unusableSince, t.now, 3000))
  {
    hide Adjust, AtUnusableLevels;
    var (d, first) := Transition(Observe(c, t), t);
    var (e, second) := CheckUnusable(d, t, first);
    AdjustFrame(e, t, second);
  }

  /** RATE_PRESSURE is entered only at the end of three consecutive pressured ticks. */
  lemma PressureEntry(t: Trace, i: nat)
    requires Run(t) && i < |t.ticks| && t.states[i].state != RatePressure && t.states[i + 1].state == RatePressure
    ensures i >= 2 && t.ticks[i].pressure && t.ticks[i - 1].pressure && t.ticks[i - 2].pressure
  {
    hide Decide;
    RunMeant(t, i);
    RunLadder(t, i);
    assert Stepped(t, i);
    EntryNeeds(t.states[i], t.ticks[i]);
  }

  /** RECOVERY is entered only after at least 1000 ms of uninterrupted compliance. */
  lemma RecoveryEntry(t: Trace, i: nat)
    requires Run(t) && i < |t.ticks| && t.states[i].state != Recovery && t.states[i + 1].state == Recovery
    ensures exists k :: 0 <= k <= i && t.ticks[i].now - t.ticks[k].now >= 1000
              && forall m :: k <= m <= i ==> t.ticks[m].compliant
  {
    hide Decide;
    RunMeant(t, i);
    RunLadder(t, i);
    assert Stepped(t, i);
    EntryNeeds(t.states[i], t.ticks[i]);
  }

  /** STABLE is re-entered only after at least 5000 ms of uninterrupted compliance. */
  lemma StableEntry(t: Trace, i: nat)
    requires Run(t) && i < |t.ticks| && t.states[i].state != Stable && t.states[i + 1].state == Stable
    ensures exists k :: 0 <= k <= i && t.ticks[i].now - t.ticks[k].now >= 5000
              && forall m :: k <= m <= i ==> t.ticks[m].compliant
  {
    hide Decide;
    RunMeant(t, i);
    RunLadder(t, i);
    assert Stepped(t, i);
    EntryNeeds(t.states[i], t.ticks[i]);
  }

  // -------- UNUSABLE --------

  /** UNUSABLE is entered only after at least 3000 ms of consecutive hard ticks, each met at full depth. */
  lemma UnusableEntry(t: Trace, i: nat) returns (k: nat)
    requires Run(t) && i < |t.ticks| && t.states[i].state != Unusable && t.states[i + 1].state == Unusable
    ensures k <= i && t.ticks[i].now - t.ticks[k].now >= 3000
    ensures forall m :: k <= m <= i ==> t.ticks[m].hard && |t.states[m].history| == MaxDepth(t.states[m].base)
  {
    hide Decide;
    RunMeant(t, i);
    RunLadder(t, i);
    assert Stepped(t, i);
    EntryNeeds(t.states[i], t.ticks[i]);
    var since := t.states[i + 1].unusableSince.value;
    assert DesperateSince(t, i, since);
    k :| 0 <= k <= i && t.ticks[k].now == since
      && forall m :: k <= m <= i ==> t.ticks[m].hard && |t.states[m].history| == MaxDepth(t.states[m].base);
  }

  lemma UnusableStep(c: Controller, t: Tick)
    ensures var (d, action) := Decide(c, t);
            && (c.state == Unusable ==>
                  d.state == Unusable && action == NoAction && LevelsOf(d) == LevelsOf(c) && d.history == c.history)
            && (action == StopUnusableLink <==> c.state != Unusable && d.state == Unusable)
  {
    hide AtUnusableLevels, Degrade, Relax;
    var (d, first) := Transition(Observe(c, t), t);
    var (e, second) := CheckUnusable(d, t, first);
    AdjustFrame(e, t, second);
  }

  /** UNUSABLE is absorbing with the levels frozen, and nothing is emitted from it. */
  lemma {:induction false} UnusableAbsorbs(t: Trace, i: nat, j: nat)
    requires Run(t) && i <= j <= |t.ticks| && t.states[i].state == Unusable
    ensures t.states[j].state == Unusable && LevelsOf(t.states[j]) == LevelsOf(t.states[i])
    ensures t.states[j].history == t.states[i].history
    ensures forall m :: i <= m < j ==> t.actions[m] == NoAction
    decreases j
  {
    hide Decide;
    if i < j {
      UnusableAbsorbs(t, i, j - 1);
      assert Stepped(t, j - 1);
      UnusableStep(t.states[j - 1], t.ticks[j - 1]);
    }
  }

  /** STOP_UNUSABLE_LINK is emitted on a tick if and only if that tick enters UNUSABLE, and on no other tick of the
      run. */
  lemma StopOnce(t: Trace, i: nat)
    requires Run(t) && i < |t.ticks|
    ensures t.actions[i] == StopUnusableLink <==> t.states[i].state != Unusable && t.states[i + 1].state == Unusable
    ensures t.actions[i] == StopUnusableLink ==>
              forall j :: 0 <= j < |t.ticks| && j != i ==> t.actions[j] != StopUnusableLink
  {
    hide Decide;
    assert Stepped(t, i);
    UnusableStep(t.states[i], t.ticks[i]);
    if t.actions[i] == StopUnusableLink {
      forall j | 0 <= j < |t.ticks| && j != i ensures t.actions[j] != StopUnusableLink {
        assert Stepped(t, j);
        UnusableStep(t.states[j], t.ticks[j]);
        if i < j {
          UnusableAbsorbs(t, i + 1, j);
        } else if t.actions[j] == StopUnusableLink {
          UnusableAbsorbs(t, j + 1, i);
        }
      }
    }
  }

  lemma HistoryStep(c: Controller, t: Tick)
    ensures var (d, action) := Decide(c, t);
            && (action.Reduce? ==> d.history == c.history + [Applied(action.knob, t.now)])
            && (!action.Reduce? ==> d.history <= c.history)
  {
    hide AtUnusableLevels, CheckUnusable, Transition, Adjust;
    BeforeAdjust(c, t);
    var (d, first) := Transition(Observe(c, t), t);
    var (e, second) := CheckUnusable(d, t, first);
    AdjustHistory(e, t, second);
  }

  lemma AdjustHistory(c: Controller, t: Tick, action: Action)
    requires !ChangesLevel(action)
    ensures var (d, a) := Adjust(c, t, action);
            && (a.Reduce? ==> d.history == c.history + [Applied(a.knob, t.now)])
            && (!a.Reduce? ==> d.history <= c.history)
  {
    hide PayloadTarget;
  }

  // Every entry of the history was applied at or after the first degrade of the run.
  lemma {:induction false} SinceFirstDegrade(t: Trace, f: nat, i: nat)
    requires Run(t) && f < |t.ticks| && i <= |t.ticks|
    requires t.actions[f].Reduce? && forall m :: 0 <= m < f ==> !t.actions[m].Reduce?
    ensures i <= f ==> t.states[i].history == []
    ensures forall n :: 0 <= n < |t.states[i].history| ==> t.ticks[f].now <= t.states[i].history[n].at
  {
    hide Decide;
    if i > 0 {
      SinceFirstDegrade(t, f, i - 1);
      assert Stepped(t, i - 1);
      HistoryStep(t.states[i - 1], t.ticks[i - 1]);
    }
  }

  /** UNUSABLE comes no sooner than 500 (maxDepth - 1) + 3000 ms after the first degrade. */
  lemma UnusableNotBefore(t: Trace, f: nat, i: nat)
    requires Run(t) && f < |t.ticks| && i < |t.ticks|
    requires t.actions[f].Reduce? && forall m :: 0 <= m < f ==> !t.actions[m].Reduce?
    requires t.states[i].state != Unusable && t.states[i + 1].state == Unusable
    ensures t.ticks[i].now - t.ticks[f].now >= 500 * (MaxDepth(t.states[0].base) - 1) + 3000
  {
    hide Decide;
    var k := UnusableEntry(t, i);
    var depth := MaxDepth(t.states[k].base);
    RunLadder(t, k);
    RunClocked(t, k);
    SinceFirstDegrade(t, f, k);
    var history := t.states[k].history;
    assert |history| == depth >= 9;
    assert history[depth - 1].at - history[0].at >= 500 * (depth - 1 - 0);
  }

  // -------- recovery --------

  // Every tick after tick `e` is compliant, unpressured, not hard, and at most `gap` after the one before it.
  ghost predicate CalmAfter(t: Trace, e: nat, gap: int) {
    forall m :: e < m < |t.ticks| ==>
      t.ticks[m].compliant && !t.ticks[m].pressure && !t.ticks[m].hard && t.ticks[m].now - t.ticks[m - 1].now <= gap
  }

  // After `n` restorations since an entry at `entry`: the last came in its window, and the next is not overdue.
  ghost predicate OnSchedule(c: Controller, entry: int, depth: nat, gap: int, now: int) {
    && (c.state == Recovery || c.state == Stable)
    && |c.history| <= depth
    && c.lastRestoration.Some?
    && var n := depth - |c.history|;
    && entry + 2000 * n <= c.lastRestoration.value <= entry + n * (2000 + gap)
    && c.lastRestoration.value <= now
    && (c.history != [] ==> now - c.lastRestoration.value < 2000)
    && (forall i :: 0 <= i < |c.history| ==> c.history[i].at <= entry)
  }

  lemma EntryOnSchedule(c: Controller, t: Tick, before: int, gap: int)
    requires Clocked(c, before) && before < t.now && Decide(c, t).1 == RequestRecoveryIdr
    ensures var d := Decide(c, t).0;
            && OnSchedule(d, t.now, |d.history|, gap, t.now)
            && d.state == Recovery && d.stableSince.Some? && t.now - d.stableSince.value >= 1000
  {
    hide AtUnusableLevels, Adjust;
    var (d, first) := Transition(Observe(c, t), t);
    var (e, second) := CheckUnusable(d, t, first);
    AdjustFrame(e, t, second);
    var n := |c.history|;
    forall i | 0 <= i < n
      ensures c.history[i].at <= t.now
    {
      if i < n - 1 {
        assert c.history[n - 1].at - c.history[i].at >= 500 * (n - 1 - i);
      }
    }
  }

  // A calm tick settles the state without an action of its own.
  lemma CalmBefore(c: Controller, t: Tick)
    requires (c.state == Recovery || c.state == Stable) && t.compliant && !t.pressure && !t.hard
    ensures var (d, first) := Transition(Observe(c, t), t);
            var (e, second) := CheckUnusable(d, t, first);
            && second == NoAction
            && e.state == (if c.state == Stable || Elapsed(c.stableSince, t.now, 5000) then Stable else Recovery)
            && e.stableSince == c.stableSince && e.history == c.history
            && e.lastRestoration == c.lastRestoration
  {
    hide AtUnusableLevels;
  }

  lemma CalmAdjust(c: Controller, t: Tick)
    requires (c.state == Recovery || c.state == Stable) && t.compliant
    ensures var (d, action) := Adjust(c, t, NoAction);
            && d.state == c.state && d.stableSince == c.stableSince
            && (action == NoAction || action.Restore?)
            && (action.Restore? <==> RestoreDue(c, t.now))
            && (action.Restore? ==> d.history == c.history[..|c.history| - 1] && d.lastRestoration == Some(t.now))
            && (!action.Restore? ==> d == c)
  {
    hide Degrade;
  }

  // What a calm tick does in RECOVERY or STABLE.
  lemma CalmTick(c: Controller, t: Tick)
    requires (c.state == Recovery || c.state == Stable) && t.compliant && !t.pressure && !t.hard
    ensures var (d, action) := Decide(c, t);
            && d.state == (if c.state == Stable || Elapsed(c.stableSince, t.now, 5000) then Stable else Recovery)
            && d.stableSince == c.stableSince
            && (action == NoAction || action.Restore?)
            && (action.Restore? <==> RestoreDue(c, t.now))
            && (action.Restore? ==> d.history == c.history[..|c.history| - 1] && d.lastRestoration == Some(t.now))
            && (!action.Restore? ==> d.history == c.history && d.lastRestoration == c.lastRestoration)
  {
    hide Transition, CheckUnusable, Adjust, Observe;
    CalmBefore(c, t);
    var (d, first) := Transition(Observe(c, t), t);
    var (e, second) := CheckUnusable(d, t, first);
    CalmAdjust(e, t);
  }

  lemma CalmStep(c: Controller, t: Tick, entry: int, depth: nat, gap: int, before: int)
    requires OnSchedule(c, entry, depth, gap, before) && before < t.now && t.now - before <= gap && entry <= before
    requires t.compliant && !t.pressure && !t.hard
    ensures var (d, action) := Decide(c, t);
            && OnSchedule(d, entry, depth, gap, t.now)
            && (action.Restore? ==>
                  var n := depth - |d.history|; 2000 * n <= t.now - entry <= n * (2000 + gap))
  {
    hide Decide;
    CalmTick(c, t);
    var n := depth - |c.history|;
    assert (n + 1) * (2000 + gap) == n * (2000 + gap) + (2000 + gap);
  }

  lemma {:induction false} RecoveryOnSchedule(t: Trace, e: nat, gap: int, i: nat)
    requires Run(t) && e < i <= |t.ticks| && t.actions[e] == RequestRecoveryIdr && CalmAfter(t, e, gap)
    ensures OnSchedule(t.states[i], t.ticks[e].now, |t.states[e + 1].history|, gap, t.ticks[i - 1].now)
    decreases i
  {
    hide Decide, OnSchedule;
    assert Stepped(t, i - 1);
    if i == e + 1 {
      RunClocked(t, e);
      EntryOnSchedule(t.states[e], t.ticks[e], Before(t, e), gap);
    } else {
      RecoveryOnSchedule(t, e, gap, i - 1);
      CalmStep(t.states[i - 1], t.ticks[i - 1], t.ticks[e].now, |t.states[e + 1].history|, gap, t.ticks[i - 2].now);
    }
  }

  /** After a recovery entry followed only by calm ticks at most `gap` apart, the n-th restoration comes between 2000 n
      and n (2000 + gap) ms after the entry, n being the number of rungs descended by then. */
  lemma NthRestoration(t: Trace, e: nat, gap: int, i: nat)
    requires Run(t) && e < i < |t.ticks| && t.actions[e] == RequestRecoveryIdr && CalmAfter(t, e, gap)
    requires t.actions[i].Restore?
    ensures var n := |t.states[e + 1].history| - |t.states[i + 1].history|;
            1 <= n && 2000 * n <= t.ticks[i].now - t.ticks[e].now <= n * (2000 + gap)
  {
    hide Decide, OnSchedule;
    RecoveryOnSchedule(t, e, gap, i);
    assert Stepped(t, i);
    CalmStep(t.states[i], t.ticks[i], t.ticks[e].now, |t.states[e + 1].history|, gap, t.ticks[i - 1].now);
    OneRungDown(t.states[i], t.ticks[i], t.ticks[e].now, |t.states[e + 1].history|, gap, t.ticks[i - 1].now);
  }

  lemma OneRungDown(c: Controller, t: Tick, entry: int, depth: nat, gap: int, before: int)
    requires OnSchedule(c, entry, depth, gap, before) && t.compliant && !t.pressure && !t.hard
    requires Decide(c, t).1.Restore?
    ensures |Decide(c, t).0.history| < |c.history| <= depth
  {
    hide Decide;
    CalmTick(c, t);
  }

  lemma Windows(depth: nat, left: nat, window: int)
    requires left <= depth && window >= 0
    ensures depth * window == (depth - left) * window + left * window
    ensures left > 0 ==> left * window >= window
  {}

  /** Hence depth (2000 + gap) ms after the entry every knob is back where it started. */
  lemma FullyRestored(t: Trace, e: nat, gap: int, i: nat)
    requires Run(t) && e < i <= |t.ticks| && t.actions[e] == RequestRecoveryIdr && CalmAfter(t, e, gap) && gap >= 0
    requires t.ticks[i - 1].now - t.ticks[e].now >= |t.states[e + 1].history| * (2000 + gap)
    ensures t.states[i].history == [] && LevelsOf(t.states[i]) == Levels(0, 0, 0, 0)
  {
    hide Decide;
    RecoveryOnSchedule(t, e, gap, i);
    RunLadder(t, i);
    Windows(|t.states[e + 1].history|, |t.states[i].history|, 2000 + gap);
  }

  /** And 4000 ms after the entry the link is STABLE again. */
  lemma {:induction false} StableAgain(t: Trace, e: nat, gap: int, i: nat)
    requires Run(t) && e < i <= |t.ticks| && t.actions[e] == RequestRecoveryIdr && CalmAfter(t, e, gap)
    ensures t.states[i].state == Stable
            || (t.states[i].stableSince.Some? && t.states[i].stableSince.value <= t.ticks[e].now - 1000)
    ensures t.ticks[i - 1].now - t.ticks[e].now >= 4000 ==> t.states[i].state == Stable
    decreases i
  {
    hide Decide, OnSchedule, Clocked;
    assert Stepped(t, i - 1);
    if i == e + 1 {
      RunClocked(t, e);
      EntryOnSchedule(t.states[e], t.ticks[e], Before(t, e), gap);
    } else {
      StableAgain(t, e, gap, i - 1);
      RecoveryOnSchedule(t, e, gap, i - 1);
      Restful(t.states[i - 1], t.ticks[e].now, |t.states[e + 1].history|, gap, t.ticks[i - 2].now);
      CalmTick(t.states[i - 1], t.ticks[i - 1]);
    }
  }

  lemma Restful(c: Controller, entry: int, depth: nat, gap: int, now: int)
    requires OnSchedule(c, entry, depth, gap, now)
    ensures c.state == Recovery || c.state == Stable
  {}
}
