/** The decision logic of the adaptive rate controller, on values. Times are integer milliseconds; the payload target is
    computed over the reals and rounded half to even. */
module ControllerSpec {
  import opened Common

  const MINIMUM_PAYLOAD: int := 100000
  const LAST_CAP: nat := 4
  const LAST_THRESHOLD: nat := 3
  const LAST_PROFILE: nat := 2

  // The four knobs, in the order in which they are turned down.
  datatype Knob = Emphasis | Threshold | Payload | Profile

  datatype Action = NoAction | Reduce(knob: Knob) | Restore(knob: Knob) | RequestRecoveryIdr | StopUnusableLink

  datatype LinkState = Stable | RatePressure | Congested | Recovery | Unusable

  datatype Applied = Applied(knob: Knob, at: int)

  datatype Controller = Controller(
    base: nat,
    state: LinkState,
    autoIndex: nat,
    thresholdIndex: nat,
    payloadStep: nat,
    profileIndex: nat,
    pressureTicks: nat,
    recoverySince: Option<int>,
    stableSince: Option<int>,
    unusableSince: Option<int>,
    lastAction: Option<int>,
    lastRestoration: Option<int>,
    history: seq<Applied>)

  // What one tick tells the controller.
  datatype Tick = Tick(now: int, pressure: bool, hard: bool, compliant: bool)

  function Initial(base: nat): Controller {
    Controller(base, Stable, 0, 0, 0, 0, 0, None, None, None, None, None, [])
  }

  // 0.9 to the n-th power.
  function Shrink(n: nat): real { if n == 0 then 1.0 else 0.9 * Shrink(n - 1) }

  function Reduced(base: nat, step: nat): real { base as real * Shrink(step) }

  function PayloadTarget(base: nat, step: nat): int {
    var rounded := RoundHalfEven(Reduced(base, step));
    if rounded < MINIMUM_PAYLOAD then MINIMUM_PAYLOAD else rounded
  }

  predicate AtUnusableLevels(c: Controller) {
    c.autoIndex == LAST_CAP && PayloadTarget(c.base, c.payloadStep) == MINIMUM_PAYLOAD && c.profileIndex == LAST_PROFILE
  }

  function Pushed(c: Controller, knob: Knob, now: int): (Controller, Action) {
    (c.(history := c.history + [Applied(knob, now)], lastAction := Some(now)), Reduce(knob))
  }

  function Degrade(c: Controller, now: int): (Controller, Action) {
    if c.autoIndex < LAST_CAP then Pushed(c.(autoIndex := c.autoIndex + 1), Emphasis, now)
    else if c.thresholdIndex < LAST_THRESHOLD then Pushed(c.(thresholdIndex := c.thresholdIndex + 1), Threshold, now)
    else if PayloadTarget(c.base, c.payloadStep) != MINIMUM_PAYLOAD
    then Pushed(c.(payloadStep := c.payloadStep + 1), Payload, now)
    else if c.profileIndex < LAST_PROFILE then Pushed(c.(profileIndex := c.profileIndex + 1), Profile, now)
    else (c, NoAction)
  }

  predicate RestoreDue(c: Controller, now: int) {
    && c.history != []
    && now - c.history[|c.history| - 1].at >= 2000
    && (c.lastRestoration.Some? ==> now - c.lastRestoration.value >= 2000)
  }

  // A knob that is restored has been turned down before; the index is a natural number by the invariant.
  function Lowered(n: nat): nat { if n == 0 then 0 else n - 1 }

  function Relax(c: Controller, now: int): (Controller, Action) {
    if !RestoreDue(c, now) then (c, NoAction)
    else
      var last := |c.history| - 1;
      var knob := c.history[last].knob;
      var popped := c.(history := c.history[..last], lastAction := Some(now), lastRestoration := Some(now));
      (match knob
       case Profile => popped.(profileIndex := Lowered(c.profileIndex))
       case Payload => popped.(payloadStep := Lowered(c.payloadStep))
       case Threshold => popped.(thresholdIndex := Lowered(c.thresholdIndex))
       case Emphasis => popped.(autoIndex := Lowered(c.autoIndex)),
       Restore(knob))
  }

  // -------- one tick --------

  // The counters the tick updates before anything is decided.
  function Observe(c: Controller, t: Tick): Controller {
    var d := c.(pressureTicks := if t.pressure then c.pressureTicks + 1 else 0);
    if t.compliant then (if d.recoverySince.None? then d.(recoverySince := Some(t.now)) else d)
    else d.(recoverySince := None, stableSince := None)
  }

  function Elapsed(since: Option<int>, now: int, atLeast: int): bool { since.Some? && now - since.value >= atLeast }

  function Transition(c: Controller, t: Tick): (Controller, Action) {
    if c.state == Unusable then (c, NoAction)
    else if t.hard then (c.(state := Congested, stableSince := None), NoAction)
    else if (c.state == Stable || c.state == Recovery) && c.pressureTicks >= 3 then
      (c.(state := RatePressure, stableSince := None), NoAction)
    else if (c.state == RatePressure || c.state == Congested) && Elapsed(c.recoverySince, t.now, 1000) then
      (c.(state := Recovery, stableSince := c.recoverySince, lastRestoration := Some(t.now)), RequestRecoveryIdr)
    else if c.state == Recovery && Elapsed(c.stableSince, t.now, 5000) then (c.(state := Stable), NoAction)
    else (c, NoAction)
  }

  function CheckUnusable(c: Controller, t: Tick, action: Action): (Controller, Action) {
    if c.state != Unusable && AtUnusableLevels(c) && t.hard then
      var d := if c.unusableSince.None? then c.(unusableSince := Some(t.now)) else c;
      if Elapsed(d.unusableSince, t.now, 3000) then (d.(state := Unusable), StopUnusableLink) else (d, action)
    else (c.(unusableSince := None), action)
  }

  function Adjust(c: Controller, t: Tick, action: Action): (Controller, Action) {
    if action == NoAction && (c.state == RatePressure || c.state == Congested)
       && (c.lastAction.Some? ==> t.now - c.lastAction.value >= 500)
    then Degrade(c, t.now)
    else if action == NoAction && t.compliant && (c.state == Recovery || c.state == Stable) then Relax(c, t.now)
    else (c, action)
  }

  function Decide(c: Controller, t: Tick): (Controller, Action) {
    var (d, first) := Transition(Observe(c, t), t);
    var (e, second) := CheckUnusable(d, t, first);
    Adjust(e, t, second)
  }
}
