/** Runs of the store from empty: events in any order and any number, none of them throwing. */
module StoreRuns {
  import opened Common
  import opened SignalingTypes
  import opened SessionTransitions
  import opened StoreSpec
  import opened StoreInvariant

  datatype Trace = Trace(states: seq<Store>, events: seq<Event>, answers: seq<Response>)

  ghost predicate StepAt(t: Trace, i: nat)
    requires |t.states| == |t.events| + 1 && |t.answers| == |t.events| && i < |t.events|
  {
    && Admissible(t.states[i], t.events[i])
    && Apply(t.states[i], t.events[i]) == (t.states[i + 1], t.answers[i])
    && t.answers[i].Response?
  }

  ghost predicate Run(t: Trace) {
    && |t.states| == |t.events| + 1
    && |t.answers| == |t.events|
    && t.states[0] == Empty(t.states[0].maximum)
    && forall i :: 0 <= i < |t.events| ==> StepAt(t, i)
  }

  /** Every state of every run is valid. */
  lemma {:induction false} RunValid(t: Trace, i: nat)
    requires Run(t) && i <= |t.events|
    ensures Valid(t.states[i])
  {
    hide Apply, Coherent;
    if i > 0 {
      RunValid(t, i - 1);
      assert StepAt(t, i - 1);
      ApplyKeeps(t.states[i - 1], t.events[i - 1]);
    }
  }

  // -------- generations --------

  // A binding issued before the step matches afterwards only if it matched before.
  ghost predicate SamePeers(st: Store, after: Store) {
    forall b: Binding :: b.generation < st.nextGeneration && Matches(after, b) ==> Matches(st, b)
  }

  lemma SettleSamePeers(st: Store, id: string, after: Option<Session>)
    requires Valid(st) && id in st.sessions && Kept(st.sessions[id], after)
    ensures SamePeers(st, Settle(st, id, after)) && Settle(st, id, after).nextGeneration == st.nextGeneration
  {}

  lemma {:induction false} TickSamePeers(st: Store, order: seq<string>, now: Time, late: map<string, Time>)
    requires Valid(st)
    ensures var after := TickPass(st, order, now, late).0;
            SamePeers(st, after) && after.nextGeneration == st.nextGeneration
  {
    if order != [] {
      var before := order[..|order| - 1];
      TickSamePeers(st, before, now, late);
      TickPassKeeps(st, before, now, late);
      var mid := TickPass(st, before, now, late).0;
      var id := order[|order| - 1];
      if id in mid.sessions && id in late {
        TickKeeps(mid.sessions[id], now, late[id]);
        SettleSamePeers(mid, id, TickSession(mid.sessions[id], now, late[id]).0);
      }
    }
  }

  lemma BoundSamePeers(st: Store, b: Binding, m: Message, clock: Clock, e: Entropy)
    requires Valid(st)
    ensures var (after, r) := HandleBound(st, b, m, clock, e);
            SamePeers(st, after) && after.nextGeneration == st.nextGeneration && r.Response? && r.binding.None?
  {
    hide OwnerMessage, ReceiverMessage, Coherent;
    if b.sessionId in st.sessions {
      var s := st.sessions[b.sessionId];
      MessageSound(s, b, m, clock, e.capability);
      var o := if b.role == Owner then OwnerMessage(s, b, m, clock, e.capability) else ReceiverMessage(s, b, m, clock);
      SettleSamePeers(st, b.sessionId, o.session);
    }
  }

  /** No event re-issues a generation: a binding already issued matches afterwards only if it matched before,
      and a binding handed out by the event carries a generation no earlier binding can have. */
  lemma ApplySamePeers(st: Store, e: Event)
    requires Valid(st) && Apply(st, e).1.Response?
    ensures var (after, r) := Apply(st, e);
            && SamePeers(st, after)
            && st.nextGeneration <= after.nextGeneration
            && (r.binding.Some? ==> r.binding.value.generation == st.nextGeneration < after.nextGeneration
                                    && Matches(after, r.binding.value))
  {
    hide HandleBound, TickPass, Coherent;
    match e
    case Arrival(c, b, m, clock, entropy) =>
      if b.Some? {
        BoundSamePeers(st, b.value, m, clock, entropy);
      } else {
        FirstFreeIsFree(entropy.ids, st.sessions.Keys);
      }
    case Departure(b, reason, now) =>
      if Matches(st, b) {
        DetachKeeps(st.sessions[b.sessionId], reason, false, now);
        SettleSamePeers(st, b.sessionId,
                        if b.role == Owner then None
                        else Some(DetachReceiver(st.sessions[b.sessionId], reason, false, now).0));
      }
    case Timer(now, order, late) => TickSamePeers(st, order, now, late);
  }

  /** A binding that has been issued and no longer matches never matches again, and disconnecting it
      changes nothing and emits nothing. */
  lemma {:induction false} StaleForever(t: Trace, i: nat, j: nat, b: Binding)
    requires Run(t) && i <= j <= |t.events|
    requires b.generation < t.states[i].nextGeneration && !Matches(t.states[i], b)
    ensures b.generation < t.states[j].nextGeneration && !Matches(t.states[j], b)
    ensures forall reason, now :: Disconnect(t.states[j], b, reason, now) == (t.states[j], [])
    decreases j
  {
    hide Apply, Valid;
    if i < j {
      StaleForever(t, i, j - 1, b);
      RunValid(t, j - 1);
      assert StepAt(t, j - 1);
      ApplySamePeers(t.states[j - 1], t.events[j - 1]);
    }
  }

  /** Bindings handed out at two different steps of a run differ in generation. */
  lemma GenerationsNeverReused(t: Trace, i: nat, j: nat)
    requires Run(t) && i < j < |t.events|
    requires t.answers[i].Response? && t.answers[i].binding.Some? && t.answers[j].Response?
    requires t.answers[j].binding.Some?
    ensures t.answers[i].binding.value.generation < t.answers[j].binding.value.generation
  {
    hide Apply, Valid;
    assert StepAt(t, i) && StepAt(t, j);
    RunValid(t, i);
    RunValid(t, j);
    ApplySamePeers(t.states[i], t.events[i]);
    ApplySamePeers(t.states[j], t.events[j]);
    GenerationsGrow(t, i + 1, j);
  }

  lemma {:induction false} GenerationsGrow(t: Trace, i: nat, j: nat)
    requires Run(t) && i <= j <= |t.events|
    ensures t.states[i].nextGeneration <= t.states[j].nextGeneration
    decreases j
  {
    hide Apply, Valid;
    if i < j {
      GenerationsGrow(t, i, j - 1);
      RunValid(t, j - 1);
      assert StepAt(t, j - 1);
      ApplySamePeers(t.states[j - 1], t.events[j - 1]);
    }
  }

  // -------- one-time joins --------

  predicate IsCreateJoin(e: Event, r: Response, id: string) {
    && e.Arrival? && e.binding.Some? && e.binding.value.sessionId == id && e.message.body.CreateJoin?
    && r.Response? && r.accepted
  }

  predicate IsReserve(e: Event, r: Response, id: string) {
    && e.Arrival? && e.binding.None? && e.message.body.ReserveJoin? && e.message.body.sessionId == id
    && r.Response? && r.accepted
  }

  // The join of session `id` that is open in `st`: its capability digest and its expiry.
  function OpenJoinOf(st: Store, id: string): Option<(Digest, Time)> {
    if id in st.sessions && st.sessions[id].phase == JoinOpen && st.sessions[id].joinHash.Some?
       && st.sessions[id].joinExpires.Some?
    then Some((st.sessions[id].joinHash.value, st.sessions[id].joinExpires.value)) else None
  }

  // A JOIN_CREATED notice hands out this capability with this expiry.
  ghost predicate Announced(actions: seq<Action>, capability: string, expires: Time) {
    exists i ::
      0 <= i < |actions| && actions[i].Send? && actions[i].envelope.notice == NoticeJoinCreated(capability, expires)
  }

  // A join is open afterwards only if it was open before or the step is an accepted CREATE_JOIN issuing it.
  lemma JoinOpensOnlyByCreate(st: Store, e: Event, id: string)
    requires Valid(st) && Apply(st, e).1.Response?
    ensures var (after, r) := Apply(st, e);
            OpenJoinOf(after, id).Some? ==>
              || OpenJoinOf(after, id) == OpenJoinOf(st, id)
              || (&& IsCreateJoin(e, r, id)
                  && OpenJoinOf(after, id).value.0 == Digest(JoinKey, id, e.entropy.capability)
                  && Announced(r.actions, e.entropy.capability, OpenJoinOf(after, id).value.1)
                  && OpenJoinOf(after, id).value.1
                     == Min(e.clock.late + JOIN_CAPABILITY_LIFETIME, after.sessions[id].absoluteDeadline))
  {
    hide OwnerMessage, ReceiverMessage, TickPass;
    match e
    case Arrival(c, b, m, clock, entropy) =>
      if b.Some? && b.value.sessionId in st.sessions {
        BoundJoin(st.sessions[b.value.sessionId], b.value, m, clock, entropy.capability);
      } else if b.None? {
        FirstFreeIsFree(entropy.ids, st.sessions.Keys);
      }
    case Departure(b, reason, now) =>
    case Timer(now, order, late) => TickJoin(st, order, now, late, id);
  }

  // The join a record leaves open after a step: none, the old one, or one just issued.
  ghost predicate JoinFrom(s: Session, after: Option<Session>) {
    after.Some? && after.value.phase == JoinOpen ==>
      s.phase == JoinOpen && after.value.joinHash == s.joinHash && after.value.joinExpires == s.joinExpires
  }

  lemma OverdueJoin(s: Session, now: Time, late: Time)
    requires Coherent(s)
    ensures var d := Overdue(s, now, late); !d.Gone? ==> JoinFrom(s, Some(d.session))
  {}

  lemma OpenJoinAnnounces(s: Session, capability: string, now: Time)
    ensures var o := OpenJoin(s, capability, now);
            o.session.Some? ==>
              && o.accepted && o.session.value.joinHash == Some(Digest(JoinKey, s.id, capability))
              && o.session.value.joinExpires.Some?
                 && Announced(o.actions, capability, o.session.value.joinExpires.value)
              && o.session.value.joinExpires.value
                 == Min(now + JOIN_CAPABILITY_LIFETIME, o.session.value.absoluteDeadline)
  {
    var o := OpenJoin(s, capability, now);
    if o.session.Some? {
      assert o.actions[0].envelope.notice == NoticeJoinCreated(capability, o.session.value.joinExpires.value);
    }
  }

  lemma BoundJoin(s: Session, b: Binding, m: Message, clock: Clock, capability: string)
    requires Coherent(s)
    ensures var o := if b.role == Owner then OwnerMessage(s, b, m, clock, capability)
            else ReceiverMessage(s, b, m, clock);
            || JoinFrom(s, o.session)
            || (&& m.body.CreateJoin? && o.accepted && o.session.Some?
                && o.session.value.joinHash == Some(Digest(JoinKey, s.id, capability))
                && o.session.value.joinExpires.Some?
                && Announced(o.actions, capability, o.session.value.joinExpires.value)
                && o.session.value.joinExpires.value
                   == Min(clock.late + JOIN_CAPABILITY_LIFETIME, o.session.value.absoluteDeadline))
  {
    hide Overdue, OpenJoin;
    OverdueJoin(s, clock.check, clock.act);
    OverdueKeeps(s, clock.check, clock.act);
    var d := Overdue(s, clock.check, clock.act);
    if b.role == Owner && d.Stays? && OwnerAdmits(d.session, b, m) && m.body.CreateJoin? {
      var t := d.session;
      var u := t.(owner := t.owner.(expectedClient := t.owner.expectedClient + 1, lastActivity := clock.act));
      OpenJoinAnnounces(u, capability, clock.late);
    }
  }

  lemma TickSessionJoin(s: Session, now: Time, late: Time)
    requires Coherent(s)
    ensures JoinFrom(s, TickSession(s, now, late).0)
  {
    hide Overdue;
    OverdueJoin(s, now, late);
  }

  lemma {:induction false} TickJoin(st: Store, order: seq<string>, now: Time, late: map<string, Time>, id: string)
    requires Valid(st)
    ensures var after := TickPass(st, order, now, late).0;
            OpenJoinOf(after, id).Some? ==> OpenJoinOf(after, id) == OpenJoinOf(st, id)
  {
    hide TickSession;
    if order != [] {
      var before := order[..|order| - 1];
      TickJoin(st, before, now, late, id);
      TickPassKeeps(st, before, now, late);
      var mid := TickPass(st, before, now, late).0;
      var last := order[|order| - 1];
      if last in mid.sessions && last in late {
        TickSessionJoin(mid.sessions[last], now, late[last]);
      }
    }
  }

  // Where the join open at step `j` was issued, when none was open at step `i`.
  lemma {:induction false} JoinIssuedAt(t: Trace, i: nat, j: nat, id: string) returns (k: nat)
    requires Run(t) && i <= j <= |t.events|
    requires OpenJoinOf(t.states[i], id).None? && OpenJoinOf(t.states[j], id).Some?
    ensures i <= k < j && IsCreateJoin(t.events[k], t.answers[k], id)
    ensures var open := OpenJoinOf(t.states[j], id).value;
            && open.0 == Digest(JoinKey, id, t.events[k].entropy.capability)
            && Announced(t.answers[k].actions, t.events[k].entropy.capability, open.1)
            && id in t.states[k + 1].sessions
            && open.1 == Min(t.events[k].clock.late + JOIN_CAPABILITY_LIFETIME,
                             t.states[k + 1].sessions[id].absoluteDeadline)
    decreases j
  {
    hide Apply, Valid;
    RunValid(t, j - 1);
    assert StepAt(t, j - 1);
    JoinOpensOnlyByCreate(t.states[j - 1], t.events[j - 1], id);
    if OpenJoinOf(t.states[j], id) == OpenJoinOf(t.states[j - 1], id) {
      k := JoinIssuedAt(t, i, j - 1, id);
    } else {
      k := j - 1;
    }
  }

  /** Between two accepted reservations of a session lies an accepted CREATE_JOIN; the later reservation presents
      the capability that CREATE_JOIN issued and comes before the expiry it announced. */
  lemma JoinsAreOneTime(t: Trace, i: nat, j: nat, id: string) returns (k: nat, expires: Time)
    requires Run(t) && i < j < |t.events|
    requires IsReserve(t.events[i], t.answers[i], id) && IsReserve(t.events[j], t.answers[j], id)
    ensures i < k < j && IsCreateJoin(t.events[k], t.answers[k], id)
    ensures t.events[j].message.body.joinCapability == t.events[k].entropy.capability
    ensures Announced(t.answers[k].actions, t.events[k].entropy.capability, expires)
    ensures t.events[j].clock.check < expires
    ensures expires <= t.events[k].clock.late + JOIN_CAPABILITY_LIFETIME
    ensures id in t.states[k + 1].sessions && expires <= t.states[k + 1].sessions[id].absoluteDeadline
  {
    assert StepAt(t, i) && StepAt(t, j);
    k := JoinIssuedAt(t, i + 1, j, id);
    expires := OpenJoinOf(t.states[j], id).value.1;
  }

  /** The first reservation of a session is no exception. */
  lemma ReservationFollowsCreate(t: Trace, j: nat, id: string) returns (k: nat, expires: Time)
    requires Run(t) && j < |t.events| && IsReserve(t.events[j], t.answers[j], id)
    ensures k < j && IsCreateJoin(t.events[k], t.answers[k], id)
    ensures t.events[j].message.body.joinCapability == t.events[k].entropy.capability
    ensures Announced(t.answers[k].actions, t.events[k].entropy.capability, expires)
    ensures t.events[j].clock.check < expires
    ensures expires <= t.events[k].clock.late + JOIN_CAPABILITY_LIFETIME
    ensures id in t.states[k + 1].sessions && expires <= t.states[k + 1].sessions[id].absoluteDeadline
  {
    assert StepAt(t, j);
    k := JoinIssuedAt(t, 0, j, id);
    expires := OpenJoinOf(t.states[j], id).value.1;
  }
}
