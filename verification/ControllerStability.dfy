/** Exactly when a link in RECOVERY becomes STABLE again. */
module ControllerStability {
  import opened Common
  import opened ControllerSpec
  import opened ControllerLadder
  import opened ControllerRuns

  // The first tick of the stretch of compliance that tick i belongs to.
  function StreakStart(ticks: seq<Tick>, i: nat): (k: nat)
    requires i < |ticks| && ticks[i].compliant
    ensures k <= i && (forall m :: k <= m <= i ==> ticks[m].compliant) && (k > 0 ==> !ticks[k - 1].compliant)
    decreases i
  {
    if i > 0 && ticks[i - 1].compliant then StreakStart(ticks, i - 1) else i
  }

  lemma SinceAfter(c: Controller, t: Tick)
    ensures Decide(c, t).0.recoverySince
            == if !t.compliant then None else if c.recoverySince.None? then Some(t.now) else c.recoverySince
  {
    hide Degrade, Relax, AtUnusableLevels;
    var (d, first) := Transition(Observe(c, t), t);
    var (e, second) := CheckUnusable(d, t, first);
    AdjustFrame(e, t, second);
  }

  /** The recovery timer is the time of the first tick of the present stretch of compliance. */
  lemma {:induction false} RecoverySinceExactly(t: Trace, i: nat)
    requires Run(t) && i < |t.ticks|
    ensures t.states[i + 1].recoverySince
            == if t.ticks[i].compliant then Some(t.ticks[StreakStart(t.ticks, i)].now) else None
    decreases i
  {
    hide Decide;
    assert Stepped(t, i);
    SinceAfter(t.states[i], t.ticks[i]);
    if i > 0 {
      RecoverySinceExactly(t, i - 1);
    }
  }

  // A recovery entry starts the stable timer where the recovery timer stood.
  lemma EntryStable(c: Controller, t: Tick)
    requires Decide(c, t).1 == RequestRecoveryIdr
    ensures var d := Decide(c, t).0; t.compliant && d.state == Recovery && d.stableSince == d.recoverySince
  {
    hide Degrade, Relax, AtUnusableLevels;
    var (d, first) := Transition(Observe(c, t), t);
    var (e, second) := CheckUnusable(d, t, first);
    AdjustFrame(e, t, second);
  }

  // Within RECOVERY the stable timer is kept by compliance and cleared by its absence.
  lemma RecoveryStays(c: Controller, t: Tick)
    requires c.state == Recovery && Decide(c, t).0.state == Recovery
    ensures Decide(c, t).0.stableSince == if t.compliant then c.stableSince else None
  {
    hide Degrade, Relax, AtUnusableLevels;
    var (d, first) := Transition(Observe(c, t), t);
    var (e, second) := CheckUnusable(d, t, first);
    AdjustFrame(e, t, second);
  }

  ghost predicate StaysInRecovery(t: Trace, e: nat, i: nat)
    requires Run(t) && i <= |t.ticks|
  {
    forall m :: e < m <= i ==> t.states[m].state == Recovery
  }

  ghost predicate CompliantBetween(t: Trace, e: nat, i: nat)
    requires i <= |t.ticks|
  {
    forall m :: e < m < i ==> t.ticks[m].compliant
  }

  /** While the link stays in RECOVERY, the stable timer runs from the start of the compliance that led there if and
      only if every tick since the entry was compliant; otherwise it is cleared. */
  lemma {:induction false} StableSinceExactly(t: Trace, e: nat, i: nat)
    requires Run(t) && e < i <= |t.ticks| && t.actions[e] == RequestRecoveryIdr && StaysInRecovery(t, e, i)
    ensures t.ticks[e].compliant
    ensures t.states[i].stableSince
            == if CompliantBetween(t, e, i) then Some(t.ticks[StreakStart(t.ticks, e)].now) else None
    decreases i
  {
    hide Decide;
    assert Stepped(t, i - 1);
    if i == e + 1 {
      EntryStable(t.states[e], t.ticks[e]);
      RecoverySinceExactly(t, e);
    } else {
      StableSinceExactly(t, e, i - 1);
      RecoveryStays(t.states[i - 1], t.ticks[i - 1]);
      assert CompliantBetween(t, e, i) <==> CompliantBetween(t, e, i - 1) && t.ticks[i - 1].compliant;
    }
  }

  ghost predicate CalmFrom(t: Trace, i: nat, j: nat)
    requires j <= |t.ticks|
  {
    forall m :: i <= m < j ==> t.ticks[m].compliant && !t.ticks[m].pressure && !t.ticks[m].hard
  }

  // Calm ticks in RECOVERY: the timer decides.
  lemma {:induction false} CalmStable(t: Trace, i: nat, j: nat)
    requires Run(t) && i < j <= |t.ticks| && t.states[i].state == Recovery && CalmFrom(t, i, j)
    ensures t.states[j].state == if Elapsed(t.states[i].stableSince, t.ticks[j - 1].now, 5000) then Stable else Recovery
    ensures t.states[j].stableSince == t.states[i].stableSince
    decreases j
  {
    hide Decide;
    assert Stepped(t, j - 1);
    if i < j - 1 {
      CalmStable(t, i, j - 1);
      assert t.ticks[j - 2].now < t.ticks[j - 1].now;
    }
    CalmTick(t.states[j - 1], t.ticks[j - 1]);
  }

  /** After a recovery entry the link stays in RECOVERY for a while, and then only calm ticks come. It is STABLE after
      them if and only if every tick of that while was compliant and 5000 ms have passed since the compliance that led
      to the entry began;
      otherwise it is still in RECOVERY. */
  lemma StableExactly(t: Trace, e: nat, i: nat, j: nat)
    requires Run(t) && e < i < j <= |t.ticks| && t.actions[e] == RequestRecoveryIdr
    requires StaysInRecovery(t, e, i) && CalmFrom(t, i, j)
    ensures t.ticks[e].compliant
    ensures t.states[j].state
            == if CompliantBetween(t, e, i) && t.ticks[j - 1].now - t.ticks[StreakStart(t.ticks, e)].now >= 5000
               then Stable else Recovery
  {
    StableSinceExactly(t, e, i);
    CalmStable(t, i, j);
  }

  /** So one non-compliant tick in RECOVERY is enough: however long and calm the link is afterwards, it is not
      STABLE. */
  lemma StuckInRecovery(t: Trace, e: nat, i: nat, j: nat, m: nat)
    requires Run(t) && e < i < j <= |t.ticks| && t.actions[e] == RequestRecoveryIdr
    requires StaysInRecovery(t, e, i) && CalmFrom(t, i, j) && e < m < i && !t.ticks[m].compliant
    ensures t.states[j].state == Recovery
  {
    StableExactly(t, e, i, j);
  }

  // -------- a run that gets stuck --------

  lemma Then(t: Trace, tick: Tick) returns (t': Trace)
    requires Run(t) && (t.ticks != [] ==> t.ticks[|t.ticks| - 1].now < tick.now)
    ensures var (c, action) := Decide(t.states[|t.ticks|], tick);
            t' == Trace(t.states + [c], t.ticks + [tick], t.actions + [action])
    ensures Run(t')
  {
    hide Decide;
    var (c, action) := Decide(t.states[|t.ticks|], tick);
    t' := Trace(t.states + [c], t.ticks + [tick], t.actions + [action]);
    forall i | 0 <= i < |t'.ticks| ensures Stepped(t', i) {
      if i < |t.ticks| { assert Stepped(t, i); }
    }
    forall i, j | 0 <= i < j < |t'.ticks| ensures t'.ticks[i].now < t'.ticks[j].now {
      if j == |t.ticks| && i < j - 1 { assert t.ticks[i].now < t.ticks[j - 1].now; }
    }
  }

  const Hard := Tick(0, true, true, false)

  function Calm(now: int): Tick { Tick(now, false, false, true) }
  function Lapse(now: int): Tick { Tick(now, false, false, false) }

  lemma Enters() returns (t: Trace)
    ensures Run(t) && t.ticks == [Hard, Calm(1000), Calm(2000), Lapse(3000)]
    ensures t.actions[2] == RequestRecoveryIdr && t.states[3].state == Recovery && t.states[4].state == Recovery
  {
    t := Trace([Initial(MINIMUM_PAYLOAD)], [], []);
    t := Then(t, Hard);
    var c1 := t.states[1];
    assert c1.state == Congested && c1.autoIndex == 1 && c1.recoverySince == None;
    t := Then(t, Calm(1000));
    var c2 := t.states[2];
    assert c2.state == Congested && c2.autoIndex == 2 && c2.recoverySince == Some(1000);
    t := Then(t, Calm(2000));
    assert t.actions[2] == RequestRecoveryIdr && t.states[3].state == Recovery && t.states[3].autoIndex == 2;
    assert t.states[3].pressureTicks == 0;
    t := Then(t, Lapse(3000));
  }

  /** A hard tick, two compliant ones, a lapse, and then calm for as long as one likes: the link is still in
      RECOVERY. */
  lemma {:induction false} StuckRun(n: nat) returns (t: Trace)
    ensures Run(t) && |t.ticks| == 4 + n && t.actions[2] == RequestRecoveryIdr
    ensures t.ticks[..4] == [Hard, Calm(1000), Calm(2000), Lapse(3000)]
    ensures forall m :: 4 <= m < 4 + n ==> t.ticks[m] == Calm(1000 * m)
    ensures t.states[3].state == Recovery && t.states[4].state == Recovery && t.states[4 + n].state == Recovery
    decreases n
  {
    hide Decide;
    if n == 0 {
      t := Enters();
      assert t.ticks[..4] == t.ticks;
    } else {
      t := StuckRun(n - 1);
      assert n >= 2 ==> t.ticks[2 + n] == Calm(1000 * (2 + n));
      assert n == 1 ==> t.ticks[3] == t.ticks[..4][3] == Lapse(3000);
      t := Then(t, Calm(1000 * (3 + n)));
      assert t.ticks[3] == t.ticks[..4][3] == Lapse(3000);
      StuckInRecovery(t, 2, 4, 4 + n, 3);
    }
  }
}
