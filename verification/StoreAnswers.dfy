/** When each message is accepted, and what it does to its session. */
module StoreAnswers {
  import opened Common
  import opened SignalingTypes
  import opened SessionTransitions
  import opened StoreSpec
  import opened StoreInvariant
  import opened StoreRuns
  import opened StoreShares
  import opened StoreActivity
  import opened StoreRemovals
  import opened StoreHeartbeats
  import opened Negotiation
  import opened Relay

  function Answered(s: Session, b: Binding, m: Message, clock: Clock, capability: string): Outcome {
    if b.role == Owner then OwnerMessage(s, b, m, clock, capability) else ReceiverMessage(s, b, m, clock)
  }

  // What each request needs; relayed messages are in turn, and a candidate after the offer.
  predicate InPlace(s: Session, body: Body) {
    match body
    case CreateJoin(_, _) => s.phase == OwnerOnly
    case OwnerHeartbeatAck(_, _, n) => n > 0 && n == s.owner.heartbeat
    case ReceiverHeartbeatAck(_, n) => n > 0 && s.receiver.Some? && n == s.receiver.value.heartbeat
    case OwnerStop(_, _) => true
    case OwnerRevoke(_, _) => true
    case ReceiverIce(_, _) => s.phase == Connected
    case _ => Said(body).Some? && s.receiver.Some? && InTurn(Kind(Said(body).value.1).value, Stage(s))
  }

  // The requests that end a session, and those that end a seat.
  predicate EndsSession(body: Body) { body.OwnerStop? || body.OwnerRevoke? }
  predicate EndsSeat(body: Body) { body.ReceiverIce? && (body.iceState.IceFailed? || body.iceState.IceClosed?) }

  lemma OwnerRequestEffect(s: Session, body: Body, now: Time, capability: string)
    requires Coherent(s) && body.HasOwnerCapability()
    ensures var o := OwnerRequest(s, body, now, capability);
            && (o.accepted <==> InPlace(s, body))
            && (o.accepted ==>
                  && (o.session.None? <==> EndsSession(body))
                  && (o.session.Some? ==> (o.session.value.receiver.Some? <==> s.receiver.Some?)))
            && (!o.accepted ==> o.session.None?)
  {
    hide Revoke;
  }

  lemma ReceiverRequestEffect(s: Session, body: Body, now: Time)
    requires Coherent(s) && s.receiver.Some? && !body.HasOwnerCapability()
    ensures var o := ReceiverRequest(s, body, now);
            && (o.accepted <==> InPlace(s, body))
            && (o.accepted ==> o.session.Some? && (o.session.value.receiver.None? <==> EndsSeat(body)))
            && (!o.accepted ==>
                  if body.ReceiverIce? then o.session.None? else o.session.Some? && o.session.value.receiver.None?)
            && (o.accepted && EndsSeat(body) ==>
                  Tells(o.actions, s, NoticeReceiverDisconnected(if body.iceState.IceFailed? then IceFailedReason
                                                                 else IceClosedReason)))
  {
    hide Revoke, DetachReceiver;
    if s.phase == Connected && EndsSeat(body) {
      var reason := if body.iceState.IceFailed? then IceFailedReason else IceClosedReason;
      DetachTells(s, reason, true, now, NoticeReceiverDisconnected(reason));
      DetachAlone(s, reason, now);
    }
    forall reason ensures DetachReceiver(s, reason, true, now).0.receiver.None? { DetachAlone(s, reason, now); }
  }

  lemma DetachAlone(s: Session, reason: Reason, now: Time)
    ensures DetachReceiver(s, reason, true, now).0.receiver.None?
  {}

  /** A message to a session inside its deadlines is accepted if and only if it passes its peer's gate and its request
      is in place. An accepted one ends the session exactly if it stops or revokes it, and the seat exactly if it
      reports the link failed or
      closed; a refused one costs an owner its session, and a receiver its seat, or the session if it was about the
      link. */
  lemma MessageEffect(s: Session, b: Binding, m: Message, clock: Clock, capability: string)
    requires Coherent(s) && clock.Ordered() && Inside(s, clock.check)
    ensures var o := Answered(s, b, m, clock, capability);
            && (o.accepted <==> Admitted(s, b, m) && InPlace(s, m.body))
            && (o.accepted ==>
                  && (o.session.None? <==> EndsSession(m.body))
                  && (o.session.Some? ==>
                        (o.session.value.receiver.Some? <==> s.receiver.Some? && !EndsSeat(m.body))))
            && (!o.accepted ==>
                  if b.role == Owner || (Admitted(s, b, m) && m.body.ReceiverIce?) then o.session.None?
                  else o.session.Some? && o.session.value.receiver.None?)
  {
    hide Overdue, Inside, Coherent, OwnerRequest, ReceiverRequest, Revoke, DetachReceiver, InPlace;
    OverdueInside(s, clock.check, clock.act);
    DetachAlone(s, ReceiverProtocolFailure, clock.act);
    if b.role == Owner && OwnerAdmits(s, b, m) {
      var u := s.(owner := s.owner.(expectedClient := s.owner.expectedClient + 1, lastActivity := clock.act));
      HeardCoherent(s, clock.act);
      OwnerRequestEffect(u, m.body, clock.late, capability);
      SamePlace(s, u, m.body);
    } else if b.role == Receiver && ReceiverAdmits(s, b, m) {
      var peer := s.receiver.value;
      var u := s.(receiver := Some(peer.(expectedClient := peer.expectedClient + 1, lastActivity := clock.act)));
      ReceiverCoherent(s, clock.act);
      ReceiverRequestEffect(u, m.body, clock.late);
      SamePlace(s, u, m.body);
    }
  }

  lemma ReceiverCoherent(t: Session, act: Time)
    requires Coherent(t) && t.receiver.Some?
    ensures var peer := t.receiver.value;
            Coherent(t.(receiver := Some(peer.(expectedClient := peer.expectedClient + 1, lastActivity := act))))
  {}

  lemma SamePlace(s: Session, u: Session, body: Body)
    requires u == s.(owner := u.owner, receiver := u.receiver) && u.owner.heartbeat == s.owner.heartbeat
    requires u.receiver.Some? <==> s.receiver.Some?
    requires s.receiver.Some? ==> u.receiver.value.heartbeat == s.receiver.value.heartbeat
    ensures InPlace(u, body) <==> InPlace(s, body)
  {}

  // -------- messages without a binding --------

  /** An unbound CREATE_SESSION is accepted exactly if it is numbered one and there is room; an unbound RESERVE_JOIN
      exactly if it is numbered one and presents the capability of the open join before it expires; nothing else unbound
      is accepted, and
      what is refused changes nothing. */
  lemma UnboundExactly(st: Store, c: nat, m: Message, clock: Clock, e: Entropy)
    requires Valid(st) && Handle(st, c, None, m, clock, e).1.Response?
    ensures var (after, r) := Handle(st, c, None, m, clock, e);
            && (r.accepted <==>
                  if m.body.CreateSession? then m.sequence == 1 && |st.sessions| < st.maximum
                  else if m.body.ReserveJoin? then
                    var open := OpenJoinOf(st, m.body.sessionId);
                    && m.sequence == 1 && open.Some? && clock.check < open.value.1
                    && open.value.0 == Digest(JoinKey, m.body.sessionId, m.body.joinCapability)
                  else false)
            && (!r.accepted ==> after == st && r.actions == [])
            && (r.accepted && m.body.ReserveJoin? ==>
                  var id, s := m.body.sessionId, st.sessions[m.body.sessionId];
                  r.actions ==
                  [Send(c, Envelope(id, 1, NoticeJoinReserved(Some(Min(clock.check + 30000.0, s.absoluteDeadline))))),
                   Send(s.owner.connectionId, Envelope(id, s.owner.nextServer, NoticeReceiverReserved))])
  {
    if m.body.ReserveJoin? && m.body.sessionId in st.sessions {
      Keyed(st, m.body.sessionId);
    }
  }

  /** A bound message to a session that is gone is refused and changes nothing. */
  lemma GoneExactly(st: Store, b: Binding, m: Message, clock: Clock, e: Entropy)
    requires b.sessionId !in st.sessions
    ensures HandleBound(st, b, m, clock, e) == (st, Refused(AuthenticationFailed))
  {}

  /** An accepted CREATE_JOIN leaves exactly the join it announces open. */
  lemma CreateJoinOpens(s: Session, b: Binding, m: Message, clock: Clock, capability: string)
    requires Coherent(s) && m.body.CreateJoin? && Answered(s, b, m, clock, capability).accepted
    ensures var o := Answered(s, b, m, clock, capability);
            var expires := Min(clock.late + 600000.0, s.absoluteDeadline);
            && o.session.Some? && o.session.value.phase == JoinOpen && o.session.value.joinExpires == Some(expires)
            && o.session.value.joinHash == Some(Digest(JoinKey, s.id, capability))
            && o.actions == [Send(s.owner.connectionId,
                                  Envelope(s.id, s.owner.nextServer, NoticeJoinCreated(capability, expires)))]
  {
    hide Overdue;
    OverdueKeeps(s, clock.check, clock.act);
    OverdueSame(s, clock.check, clock.act);
  }

  // -------- how long an owner may stay alone --------

  // The clock readings an event takes for a session.
  predicate Reads(e: Event, id: string, x: Time) {
    match e
    case Arrival(_, _, _, clock, _) => x == clock.check || x == clock.act || x == clock.late
    case Departure(_, _, at) => x == at
    case Timer(now, _, late) => x == now || (id in late && x == late[id])
  }

  ghost predicate AloneSince(id: string, deadline: Option<Time>, absolute: Time, e: Event) {
    exists x :: Reads(e, id, x) && deadline == Some(Min(x + 900000.0, absolute))
  }

  // The time `s` may stay alone runs from event `e`.
  ghost predicate AloneFrom(s: Session, e: Event) { AloneSince(s.id, s.phaseDeadline, s.absoluteDeadline, e) }

  // An event that leaves the owner alone sets the time it may stay so, unless it was alone before.
  ghost predicate Lonely(s: Session, t: Session, e: Event) {
    t.phase == OwnerOnly ==> (s.phase == OwnerOnly && t.phaseDeadline == s.phaseDeadline) || AloneFrom(t, e)
  }

  lemma OverdueLonely(s: Session, now: Time, late: Time, e: Event)
    requires Coherent(s) && Reads(e, s.id, now) && Reads(e, s.id, late)
    ensures var d := Overdue(s, now, late);
            !d.Gone? ==> d.session.id == s.id && Lonely(s, d.session, e)
  {}

  // Nothing about being alone changes.
  predicate SameLoneliness(s: Session, t: Session) {
    && t.id == s.id && t.absoluteDeadline == s.absoluteDeadline
    && (t.phase == OwnerOnly ==> s.phase == OwnerOnly && t.phaseDeadline == s.phaseDeadline)
  }

  lemma LonelyThen(s: Session, t: Session, u: Session, e: Event)
    requires Lonely(s, t, e) && SameLoneliness(t, u)
    ensures Lonely(s, u, e)
  {
    hide AloneSince;
  }

  lemma OwnerRequestLonely(s: Session, body: Body, now: Time, capability: string)
    requires Coherent(s)
    ensures var o := OwnerRequest(s, body, now, capability); o.session.Some? ==> SameLoneliness(s, o.session.value)
  {
    hide Revoke;
  }

  lemma OwnerLonely(s: Session, e: Event)
    requires Coherent(s) && e.Arrival? && e.binding.Some?
    ensures var o := OwnerMessage(s, e.binding.value, e.message, e.clock, e.entropy.capability);
            o.session.Some? ==> Lonely(s, o.session.value, e)
  {
    hide Overdue, Coherent, AloneSince, OwnerRequest, Lonely, Revoke;
    OverdueLonely(s, e.clock.check, e.clock.act, e);
    OverdueKeeps(s, e.clock.check, e.clock.act);
    var d := Overdue(s, e.clock.check, e.clock.act);
    if d.Stays? && OwnerAdmits(d.session, e.binding.value, e.message) {
      var t := d.session;
      var u := t.(owner := t.owner.(expectedClient := t.owner.expectedClient + 1, lastActivity := e.clock.act));
      HeardCoherent(t, e.clock.act);
      OwnerRequestLonely(u, e.message.body, e.clock.late, e.entropy.capability);
      var o := OwnerRequest(u, e.message.body, e.clock.late, e.entropy.capability);
      if o.session.Some? { LonelyThen(s, t, o.session.value, e); }
    }
  }

  lemma DetachLonely(s: Session, reason: Reason, close: bool, now: Time, e: Event)
    requires Reads(e, s.id, now)
    ensures AloneFrom(DetachReceiver(s, reason, close, now).0, e)
  {
    var t := DetachReceiver(s, reason, close, now).0;
    assert Reads(e, t.id, now) && t.phaseDeadline == Some(Min(now + 900000.0, t.absoluteDeadline));
  }

  lemma ReceiverLonely(s: Session, e: Event)
    requires Coherent(s) && e.Arrival? && e.binding.Some?
    ensures var o := ReceiverMessage(s, e.binding.value, e.message, e.clock);
            o.session.Some? ==> Lonely(s, o.session.value, e)
  {
    hide Overdue, Coherent, ReceiverRequest, AloneSince, DetachReceiver;
    OverdueLonely(s, e.clock.check, e.clock.act, e);
    var d := Overdue(s, e.clock.check, e.clock.act);
    if d.Stays? {
      DetachLonely(d.session, ReceiverProtocolFailure, true, e.clock.act, e);
      if ReceiverAdmits(d.session, e.binding.value, e.message) {
        var t, peer := d.session, d.session.receiver.value;
        var u := t.(receiver := Some(peer.(expectedClient := peer.expectedClient + 1, lastActivity := e.clock.act)));
        RequestLonely(u, e.message.body, e.clock.late, e);
        var o := ReceiverRequest(u, e.message.body, e.clock.late);
        if o.session.Some? && SameLoneliness(u, o.session.value) { LonelyThen(s, t, o.session.value, e); }
      }
    }
  }

  lemma RequestLonely(s: Session, body: Body, now: Time, e: Event)
    requires s.receiver.Some? && Reads(e, s.id, now)
    ensures var o := ReceiverRequest(s, body, now);
            o.session.Some? ==> SameLoneliness(s, o.session.value) || AloneFrom(o.session.value, e)
  {
    hide DetachReceiver, AloneSince;
    forall reason
      ensures AloneFrom(DetachReceiver(s, reason, true, now).0, e) && DetachReceiver(s, reason, true, now).0.id == s.id
    {
      DetachLonely(s, reason, true, now, e);
      DetachNamed(s, reason, now);
    }
  }

  lemma DetachNamed(s: Session, reason: Reason, now: Time)
    ensures DetachReceiver(s, reason, true, now).0.id == s.id
  {}

  lemma TickLonely(s: Session, now: Time, late: Time, e: Event)
    requires Coherent(s) && Reads(e, s.id, now) && Reads(e, s.id, late)
    ensures TickSession(s, now, late).0.Some? ==> Lonely(s, TickSession(s, now, late).0.value, e)
  {
    hide Overdue, Coherent, AloneSince, Lonely;
    OverdueLonely(s, now, late, e);
    var d, after := Overdue(s, now, late), TickSession(s, now, late).0;
    if d.Stays? { LonelyThen(s, d.session, after.value, e); }
  }

  lemma SeatedLonely(s: Session, c: nat, g: nat, now: Time, e: Event)
    ensures Lonely(s, Seated(s, c, g, now).0, e)
  {}

  lemma ShareLonely(st: Store, e: Event, s: Session)
    requires Coherent(s) && ShareOf(st, e, s).session.Some?
    ensures Lonely(s, ShareOf(st, e, s).session.value, e)
  {
    hide OwnerMessage, ReceiverMessage, Coherent, TickSession, AloneSince, DetachReceiver, Seated;
    match e
    case Timer(now, order, late) =>
      if s.id in late { TickLonely(s, now, late[s.id], e); }
    case Departure(b, reason, now) => DetachLonely(s, reason, false, now, e);
    case Arrival(c, b, m, clock, entropy) =>
      if b.Some? {
        OwnerLonely(s, e);
        ReceiverLonely(s, e);
      } else {
        SeatedLonely(s, c, st.nextGeneration, clock.check, e);
      }
  }

  /** In every state of every run an owner alone may stay so until 900000 ms after a reading of the event that left it
      alone, and not past the absolute deadline. */
  lemma {:induction false} AloneExactly(t: Trace, n: nat, id: string) returns (k: nat)
    requires Run(t) && n <= |t.events| && id in t.states[n].sessions && t.states[n].sessions[id].phase == OwnerOnly
    ensures k < n && AloneFrom(t.states[n].sessions[id], t.events[k])
    ensures forall m :: k < m <= n ==> id in t.states[m].sessions && t.states[m].sessions[id].phase == OwnerOnly
    decreases n
  {
    hide Apply, Coherent, Valid, ShareOf, AloneFrom;
    assert StepAt(t, n - 1);
    RunValid(t, n - 1);
    var st, e := t.states[n - 1], t.events[n - 1];
    k := n - 1;
    if id in st.sessions {
      Keyed(st, id);
      var pre, post := EventSplit(st, e, id);
      ShareLonely(st, e, st.sessions[id]);
      if !AloneFrom(t.states[n].sessions[id], e) {
        k := AloneExactly(t, n - 1, id);
        ShareFounding(st, e, st.sessions[id]);
        SameDeadline(st, e, st.sessions[id]);
        SameAlone(st.sessions[id], t.states[n].sessions[id], t.events[k]);
      }
    } else {
      NewAlone(st, e, id);
      FoundedAlone(st, e, id);
    }
  }

  lemma SameAlone(s: Session, t: Session, e: Event)
    requires AloneFrom(s, e) && t.id == s.id && t.phaseDeadline == s.phaseDeadline
    requires t.absoluteDeadline == s.absoluteDeadline
    ensures AloneFrom(t, e)
  {}

  lemma SameDeadline(st: Store, e: Event, s: Session)
    requires Coherent(s) && ShareOf(st, e, s).session.Some?
    ensures ShareOf(st, e, s).session.value.absoluteDeadline == s.absoluteDeadline
  {
    hide OwnerMessage, ReceiverMessage, TickSession, Coherent;
    match e
    case Timer(now, order, late) =>
      if s.id in late { TickKeeps(s, now, late[s.id]); }
    case Departure(b, reason, now) =>
    case Arrival(c, b, m, clock, entropy) =>
      if b.Some? { MessageSound(s, b.value, m, clock, entropy.capability); }
  }

  lemma FoundedAlone(st: Store, e: Event, id: string)
    requires Valid(st) && Admissible(st, e) && Apply(st, e).1.Response? && id !in st.sessions
    requires id in Apply(st, e).0.sessions
    requires e.Arrival?
    ensures AloneFrom(Apply(st, e).0.sessions[id], e)
  {
    hide HandleBound, Coherent, Valid;
    if e.binding.Some? { BoundNoNew(st, e.binding.value, e.message, e.clock, e.entropy, id); }
    var s := Apply(st, e).0.sessions[id];
    assert Reads(e, s.id, e.clock.check);
    assert s.phaseDeadline == Some(Min(e.clock.check + 900000.0, s.absoluteDeadline));
  }

  // -------- what a heartbeat says --------

  /** Every heartbeat a visit sends bears the next number of its peer, under its next server number, and the deadline
      5000 ms on or the session's, whichever is earlier. */
  lemma HeartbeatSays(s: Session, now: Time, late: Time)
    requires Coherent(s) && Separate(s)
    ensures var actions := TickSession(s, now, late).1; var deadline := Min(now + 5000.0, s.absoluteDeadline);
            forall i :: 0 <= i < |actions| && actions[i].Send? && actions[i].envelope.notice.NoticeHeartbeat? ==>
              || actions[i] == Send(s.owner.connectionId,
                                    Envelope(s.id, s.owner.nextServer,
                                             NoticeHeartbeat(s.owner.heartbeat + 1, deadline)))
              || (&& s.receiver.Some?
                  && actions[i] == Send(s.receiver.value.connectionId,
                                        Envelope(s.id, s.receiver.value.nextServer,
                                                 NoticeHeartbeat(s.receiver.value.heartbeat + 1, deadline))))
  {
    hide Overdue, Coherent;
    OverdueNoBeat(s, now, late, 0);
    OverdueDeadline(s, now, late);
  }

  ghost predicate NoHeartbeat(actions: seq<Action>) {
    forall i :: 0 <= i < |actions| && actions[i].Send? ==> !actions[i].envelope.notice.NoticeHeartbeat?
  }

  lemma PartingNoHeartbeat(s: Session, reason: Reason, now: Time)
    ensures NoHeartbeat(Revoke(s, reason, true)) && NoHeartbeat(Expire(s, reason))
    ensures NoHeartbeat(DetachReceiver(s, reason, true, now).1)
  {}

  lemma OverdueDeadline(s: Session, now: Time, late: Time)
    ensures var d := Overdue(s, now, late);
            if d.Stays? then d.session.absoluteDeadline == s.absoluteDeadline else NoHeartbeat(d.actions)
  {
    hide Revoke, Expire, DetachReceiver, NoHeartbeat;
    forall t: Session, reason
      ensures NoHeartbeat(Revoke(t, reason, true)) && NoHeartbeat(Expire(t, reason))
      ensures NoHeartbeat(DetachReceiver(t, reason, true, late).1)
    {
      PartingNoHeartbeat(t, reason, late);
    }
  }
}
