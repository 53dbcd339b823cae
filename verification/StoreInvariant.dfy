/** What every reachable store satisfies, and what a timer tick guarantees. */
module StoreInvariant {
  import opened Common
  import opened SignalingTypes
  import opened SessionTransitions
  import opened StoreSpec

  // One record: which fields go with which phase, and where its deadlines lie.
  ghost predicate Coherent(s: Session) {
    && (s.receiver.Some? <==> s.phase == JoinReserved || s.phase == Connected)
    && (s.joinHash.Some? <==> s.phase == JoinOpen)
    && (s.joinExpires.Some? <==> s.phase == JoinOpen)
    && (s.answerSeen <==> s.phase == Connected)
    && (s.offerSeen ==> s.receiver.Some?)
    && (s.answerSeen ==> s.offerSeen)
    && (s.restartPending ==> s.phase == Connected)
    && (s.iceDeadline.Some? ==> s.phase == Connected && s.iceDeadline.value <= s.absoluteDeadline)
    && (s.phaseDeadline.None? <==> s.phase == Connected)
    && (s.phaseDeadline.Some? ==> s.phaseDeadline.value <= s.absoluteDeadline)
    && (s.phase == JoinOpen ==> s.joinExpires == s.phaseDeadline && s.joinHash.value.role == JoinKey)
    && s.absoluteDeadline == s.createdAt + ABSOLUTE_SESSION_LIFETIME
    && 1 <= s.owner.nextServer && 2 <= s.owner.expectedClient
    && (s.receiver.Some? ==> 1 <= s.receiver.value.nextServer && 2 <= s.receiver.value.expectedClient)
    && (s.receiver.Some? ==> s.owner.generation < s.receiver.value.generation)
  }

  // The generations a record holds were handed out before `next`.
  ghost predicate Issued(s: Session, next: nat) {
    && s.owner.generation < next
    && (s.receiver.Some? ==> s.receiver.value.generation < next)
  }

  ghost predicate Holds(s: Session, generation: nat) {
    s.owner.generation == generation || (s.receiver.Some? && s.receiver.value.generation == generation)
  }

  ghost predicate Valid(st: Store) {
    && |st.sessions| <= st.maximum
    && (forall id :: id in st.sessions ==>
          st.sessions[id].id == id && Coherent(st.sessions[id]) && Issued(st.sessions[id], st.nextGeneration))
    && (forall id, id', g ::
          id in st.sessions && id' in st.sessions && Holds(st.sessions[id], g) && Holds(st.sessions[id'], g) ==>
            id == id')
  }

  // `after` is the same session: same identity, same owner, and either the same receiver or none.
  ghost predicate Continues(s: Session, after: Session) {
    && after.id == s.id
    && after.createdAt == s.createdAt
    && after.absoluteDeadline == s.absoluteDeadline
    && after.ownerHash == s.ownerHash
    && after.owner.connectionId == s.owner.connectionId
    && after.owner.generation == s.owner.generation
    && (after.receiver.Some? ==>
          && s.receiver.Some?
          && after.receiver.value.connectionId == s.receiver.value.connectionId
          && after.receiver.value.generation == s.receiver.value.generation)
  }

  ghost predicate Kept(s: Session, after: Option<Session>) {
    after.Some? ==> Coherent(after.value) && Continues(s, after.value)
  }

  lemma SendKeeps(s: Session, role: Role, notice: Notice)
    requires Coherent(s)
    ensures var t := SendTo(s, role, notice).0;
            Coherent(t) && Continues(s, t) && (role == Owner ==> t.receiver == s.receiver)
    ensures role == Owner || s.receiver.Some? ==> SendTo(s, role, notice).1 != []
  {}

  lemma DetachKeeps(s: Session, reason: Reason, close: bool, now: Time)
    requires Coherent(s)
    ensures var t := DetachReceiver(s, reason, close, now).0; Coherent(t) && Continues(s, t) && t.receiver.None?
  {}

  lemma OverdueKeeps(s: Session, now: Time, late: Time)
    requires Coherent(s)
    ensures var d := Overdue(s, now, late); !d.Gone? ==> Coherent(d.session) && Continues(s, d.session)
  {
    var t := if s.phase == JoinOpen && Passed(s.joinExpires, now) then ExpireJoin(s, now) else s;
    assert Coherent(t) && Continues(s, t);
    DetachKeeps(t, JoinReservationTimeout, true, late);
    DetachKeeps(t, ReceiverHeartbeatTimeout, true, late);
    DetachKeeps(t, IceDisconnectedTimeout, true, late);
  }

  lemma BeatKeeps(s: Session, now: Time)
    requires Coherent(s)
    ensures var t := BeatOwner(s, now).0; Coherent(t) && Continues(s, t)
    ensures var t := BeatReceiver(s, now).0; Coherent(t) && Continues(s, t)
  {}

  lemma TickKeeps(s: Session, now: Time, late: Time)
    requires Coherent(s)
    ensures Kept(s, TickSession(s, now, late).0)
  {
    OverdueKeeps(s, now, late);
    var d := Overdue(s, now, late);
    if d.Stays? {
      BeatKeeps(d.session, now);
      BeatKeeps(BeatOwner(d.session, now).0, now);
    }
  }

  // A transition that keeps the record and does not report a missing destination.
  ghost predicate Sound(s: Session, o: Outcome) {
    Kept(s, o.session) && o.reason != SignalDestinationMissing
  }

  lemma ForwardSound(s: Session, role: Role, notice: Notice, now: Time)
    requires Coherent(s) && (role == Receiver ==> s.receiver.Some?)
    ensures Sound(s, Forward(s, role, notice, now))
  {
    SendKeeps(s, role, notice);
  }

  lemma OpenJoinSound(s: Session, capability: string, now: Time)
    requires Coherent(s)
    ensures Sound(s, OpenJoin(s, capability, now))
  {}

  lemma AnswerSound(s: Session, sdp: string, restart: bool, now: Time)
    requires Coherent(s)
    ensures Sound(s, Answer(s, sdp, restart, now))
  {
    if restart && s.phase == Connected {
      ForwardSound(s.(restartPending := false), Receiver, NoticeOwnerRestartAnswer(sdp), now);
    } else if !restart && s.phase == JoinReserved && s.offerSeen {
      ForwardSound(s.(answerSeen := true, phase := Connected, phaseDeadline := None), Receiver, NoticeOwnerAnswer(sdp),
                   now);
    }
  }

  lemma IceSound(s: Session, state: IceState, now: Time)
    requires Coherent(s)
    ensures Sound(s, IceChange(s, state, now))
  {
    DetachKeeps(s, IceFailedReason, true, now);
    DetachKeeps(s, IceClosedReason, true, now);
  }

  lemma OwnerRequestSound(s: Session, body: Body, now: Time, capability: string)
    requires Coherent(s)
    ensures Sound(s, OwnerRequest(s, body, now, capability))
  {
    match body
    case CreateJoin(_, _) => OpenJoinSound(s, capability, now);
    case OwnerAnswer(_, _, sdp) => AnswerSound(s, sdp, false, now);
    case OwnerRestartAnswer(_, _, sdp) => AnswerSound(s, sdp, true, now);
    case OwnerCandidate(_, _, candidate) =>
      if s.receiver.Some? {
        ForwardSound(s, Receiver, NoticeOwnerCandidate(candidate), now);
      }
    case _ =>
  }

  lemma ReceiverRequestSound(s: Session, body: Body, now: Time)
    requires Coherent(s)
    ensures Sound(s, ReceiverRequest(s, body, now))
  {
    DetachKeeps(s, ReceiverRoleOrStateInvalid, true, now);
    DetachKeeps(s, HeartbeatAckInvalid, true, now);
    match body
    case ReceiverOffer(_, sdp) =>
      if s.phase == JoinReserved {
        ForwardSound(s.(offerSeen := true), Owner, NoticeReceiverOffer(sdp), now);
      }
    case ReceiverRestartOffer(_, sdp) =>
      if s.phase == Connected {
        ForwardSound(s.(restartPending := true), Owner, NoticeReceiverRestartOffer(sdp), now);
      }
    case ReceiverCandidate(_, candidate) => ForwardSound(s, Owner, NoticeReceiverCandidate(candidate), now);
    case ReceiverIce(_, state) => IceSound(s, state, now);
    case _ =>
  }

  lemma OwnerMessageSound(s: Session, b: Binding, m: Message, clock: Clock, capability: string)
    requires Coherent(s)
    ensures Sound(s, OwnerMessage(s, b, m, clock, capability))
  {
    hide OwnerRequest, Overdue, Revoke;
    OverdueKeeps(s, clock.check, clock.act);
    var d := Overdue(s, clock.check, clock.act);
    if d.Stays? && OwnerAdmits(d.session, b, m) {
      var t := d.session;
      var u := t.(owner := t.owner.(expectedClient := t.owner.expectedClient + 1, lastActivity := clock.act));
      OwnerRequestSound(u, m.body, clock.late, capability);
    }
  }

  lemma ReceiverMessageSound(s: Session, b: Binding, m: Message, clock: Clock)
    requires Coherent(s)
    ensures Sound(s, ReceiverMessage(s, b, m, clock))
  {
    hide ReceiverRequest, Overdue, DetachReceiver;
    OverdueKeeps(s, clock.check, clock.act);
    var d := Overdue(s, clock.check, clock.act);
    if d.Stays? {
      var t := d.session;
      DetachKeeps(t, ReceiverProtocolFailure, true, clock.act);
      if ReceiverAdmits(t, b, m) {
        var peer := t.receiver.value;
        var u := t.(receiver := Some(peer.(expectedClient := peer.expectedClient + 1, lastActivity := clock.act)));
        ReceiverRequestSound(u, m.body, clock.late);
      }
    }
  }

  // Either kind of bound message.
  lemma MessageSound(s: Session, b: Binding, m: Message, clock: Clock, capability: string)
    requires Coherent(s)
    ensures Sound(s, if b.role == Owner then OwnerMessage(s, b, m, clock, capability)
                  else ReceiverMessage(s, b, m, clock))
  {
    OwnerMessageSound(s, b, m, clock, capability);
    ReceiverMessageSound(s, b, m, clock);
  }

  // Replacing one record by a continuation of itself keeps the store valid.
  lemma SettleKeeps(st: Store, id: string, after: Option<Session>)
    requires Valid(st) && id in st.sessions
    requires Kept(st.sessions[id], after)
    ensures Valid(Settle(st, id, after))
  {
    var st' := Settle(st, id, after);
    if after.Some? {
      assert st'.sessions.Keys == st.sessions.Keys;
      assert forall g :: Holds(after.value, g) ==> Holds(st.sessions[id], g);
    } else {
      assert st'.sessions.Keys == st.sessions.Keys - {id};
    }
    assert |st'.sessions| == |st'.sessions.Keys| <= |st.sessions.Keys|;
  }

  // A record whose new generation has never been handed out.
  lemma AdmitKeeps(st: Store, id: string, s: Session)
    requires Valid(st)
    requires s.id == id && Coherent(s) && Issued(s, st.nextGeneration + 1)
    requires id in st.sessions || |st.sessions| < st.maximum
    requires forall g :: Holds(s, g) ==> g == st.nextGeneration || (id in st.sessions && Holds(st.sessions[id], g))
    ensures Valid(Settle(st, id, Some(s)).(nextGeneration := st.nextGeneration + 1))
  {
    hide Coherent;
    var sessions' := st.sessions[id := s];
    assert sessions'.Keys == st.sessions.Keys + {id};
    if id in st.sessions {
      assert sessions'.Keys == st.sessions.Keys;
    }
    assert |sessions'| == |sessions'.Keys|;
    assert |st.sessions| == |st.sessions.Keys|;
  }

  lemma FirstFreeIsFree(ids: seq<string>, taken: set<string>)
    ensures var id := FirstFree(ids, taken); id.Some? ==> id.value in ids && id.value !in taken
  {}

  lemma BoundKeeps(st: Store, b: Binding, m: Message, clock: Clock, e: Entropy)
    requires Valid(st)
    ensures Valid(HandleBound(st, b, m, clock, e).0)
  {
    hide OwnerMessage, ReceiverMessage, Coherent;
    if b.sessionId in st.sessions {
      var s := st.sessions[b.sessionId];
      MessageSound(s, b, m, clock, e.capability);
      var o := if b.role == Owner then OwnerMessage(s, b, m, clock, e.capability) else ReceiverMessage(s, b, m, clock);
      SettleKeeps(st, b.sessionId, o.session);
    }
  }

  lemma HandleKeeps(st: Store, c: nat, b: Option<Binding>, m: Message, clock: Clock, e: Entropy)
    requires Valid(st)
    ensures Handle(st, c, b, m, clock, e).1.Response? ==> Valid(Handle(st, c, b, m, clock, e).0)
  {
    hide HandleBound;
    if b.Some? {
      BoundKeeps(st, b.value, m, clock, e);
    } else if m.body.CreateSession? {
      var id := FirstFree(e.ids, st.sessions.Keys);
      FirstFreeIsFree(e.ids, st.sessions.Keys);
      if m.sequence == 1 && |st.sessions| < st.maximum && id.Some? {
        AdmitKeeps(st, id.value, Created(st, c, id.value, e.capability, clock.check).0);
      }
    } else if m.body.ReserveJoin? && ReserveAdmits(st, m, clock.check) {
      var id := m.body.sessionId;
      AdmitKeeps(st, id, Seated(st.sessions[id], c, st.nextGeneration, clock.check).0);
    }
  }

  lemma DisconnectKeeps(st: Store, b: Binding, reason: Reason, now: Time)
    requires Valid(st)
    ensures Valid(Disconnect(st, b, reason, now).0)
  {
    if Matches(st, b) {
      var s := st.sessions[b.sessionId];
      SettleKeeps(st, b.sessionId,
                  if b.role == Owner then None else Some(DetachReceiver(s, reason, false, now).0));
    }
  }

  lemma {:induction false} TickPassKeeps(st: Store, order: seq<string>, now: Time, late: map<string, Time>)
    requires Valid(st)
    ensures Valid(TickPass(st, order, now, late).0)
  {
    if order != [] {
      var before := order[..|order| - 1];
      TickPassKeeps(st, before, now, late);
      var mid := TickPass(st, before, now, late).0;
      var id := order[|order| - 1];
      if id in mid.sessions && id in late {
        TickKeeps(mid.sessions[id], now, late[id]);
        SettleKeeps(mid, id, TickSession(mid.sessions[id], now, late[id]).0);
      }
    }
  }

  /** Every event that does not throw keeps the store valid. */
  lemma ApplyKeeps(st: Store, e: Event)
    requires Valid(st)
    ensures Apply(st, e).1.Response? ==> Valid(Apply(st, e).0)
  {
    match e
    case Arrival(c, b, m, clock, entropy) => HandleKeeps(st, c, b, m, clock, entropy);
    case Departure(b, reason, now) => DisconnectKeeps(st, b, reason, now);
    case Timer(now, order, late) => TickPassKeeps(st, order, now, late);
  }

  /** The one way validity is lost: a reservation is admitted when the generations are exhausted. */
  lemma ApplyKeepsExactly(st: Store, e: Event)
    requires Valid(st)
    ensures Valid(Apply(st, e).0) <==>
            !(e.Arrival? && e.binding.None? && e.message.body.ReserveJoin?
              && ReserveAdmits(st, e.message, e.clock.check) && st.nextGeneration >= MAX_SAFE_INTEGER)
  {
    ApplyKeeps(st, e);
    if e.Arrival? && e.binding.None? && e.message.body.ReserveJoin? && ReserveAdmits(st, e.message, e.clock.check)
       && st.nextGeneration >= MAX_SAFE_INTEGER {
      var id := e.message.body.sessionId;
      assert Apply(st, e).0.sessions[id] == Consumed(st.sessions[id], e.clock.check);
      assert !Coherent(Apply(st, e).0.sessions[id]);
    }
  }

  /** A message never finds its destination missing: both branches that report it are unreachable. */
  lemma DestinationNeverMissing(st: Store, c: nat, b: Option<Binding>, m: Message, clock: Clock, e: Entropy)
    requires Valid(st)
    ensures var r := Handle(st, c, b, m, clock, e).1;
            r.Response? ==> r.reason != SignalDestinationMissing
  {
    if b.Some? && b.value.sessionId in st.sessions {
      MessageSound(st.sessions[b.value.sessionId], b.value, m, clock, e.capability);
    }
  }

  // Strictly inside every deadline that applies to the record.
  ghost predicate Inside(s: Session, now: Time) {
    && now < s.absoluteDeadline
    && now - s.owner.lastActivity < PEER_ACTIVITY_TIMEOUT
    && !Passed(s.joinExpires, now)
    && !Passed(s.phaseDeadline, now)
    && !Passed(s.iceDeadline, now)
    && (s.receiver.Some? ==> now - s.receiver.value.lastActivity < PEER_ACTIVITY_TIMEOUT)
  }

  // The deadlines whose passing deletes the record.
  predicate Doomed(s: Session, now: Time) {
    || now >= s.absoluteDeadline
    || now - s.owner.lastActivity >= PEER_ACTIVITY_TIMEOUT
    || (s.phase == OwnerOnly && Passed(s.phaseDeadline, now))
  }

  lemma OverdueInside(s: Session, now: Time, late: Time)
    requires Coherent(s) && now <= late
    ensures var d := Overdue(s, now, late);
            && (d.Gone? <==> Doomed(s, now))
            && (!d.Gone? ==> Inside(d.session, now))
            && (Inside(s, now) ==> d == Stays(s))
  {
    OverdueKeeps(s, now, late);
  }

  /** A message under a receiver binding that no longer matches is not harmless: it is refused, but it detaches whoever
      holds the seat and withdraws an open join, leaving the session with its owner only. */
  lemma StaleMessageDetaches(s: Session, b: Binding, m: Message, clock: Clock)
    requires Coherent(s) && clock.Ordered() && Inside(s, clock.check) && b.role == Receiver && !ReceiverMatches(s, b)
    ensures var o := ReceiverMessage(s, b, m, clock);
            && !o.accepted && o.session.Some? && Coherent(o.session.value) && Continues(s, o.session.value)
            && o.session.value.phase == OwnerOnly && o.session.value.receiver.None? && o.session.value.joinHash.None?
            && (s.receiver.Some? ==> Close(s.receiver.value.connectionId, ReceiverProtocolFailure) in o.actions)
  {
    hide Overdue, Coherent, Inside;
    OverdueInside(s, clock.check, clock.act);
    DetachKeeps(s, ReceiverProtocolFailure, true, clock.act);
    var actions := DetachReceiver(s, ReceiverProtocolFailure, true, clock.act).1;
    assert s.receiver.Some? ==> actions[0] == Close(s.receiver.value.connectionId, ReceiverProtocolFailure);
  }

  lemma BeatInside(s: Session, now: Time)
    requires Inside(s, now)
    ensures Inside(BeatOwner(s, now).0, now) && Inside(BeatReceiver(s, now).0, now)
  {}

  lemma TickSessionInside(s: Session, now: Time, late: Time)
    requires Coherent(s) && now <= late
    ensures var after := TickSession(s, now, late).0;
            && (after.None? <==> Doomed(s, now))
            && (after.Some? ==> Inside(after.value, now))
  {
    OverdueInside(s, now, late);
    var d := Overdue(s, now, late);
    if d.Stays? {
      BeatInside(d.session, now);
      BeatInside(BeatOwner(d.session, now).0, now);
    }
  }

  lemma {:induction false} TickPassInside(st: Store, order: seq<string>, now: Time, late: map<string, Time>)
    requires Valid(st)
    requires forall i, j :: 0 <= i < j < |order| ==> order[i] != order[j]
    requires forall id :: id in order ==> id in st.sessions && id in late && now <= late[id]
    ensures var after := TickPass(st, order, now, late).0;
            && (forall id :: id in order && id in after.sessions ==> Inside(after.sessions[id], now))
            && (forall id :: id in order ==> (id in after.sessions <==> !Doomed(st.sessions[id], now)))
            && (forall id :: id !in order ==> (id in after.sessions <==> id in st.sessions))
            && (forall id :: id !in order && id in st.sessions ==> after.sessions[id] == st.sessions[id])
  {
    hide Coherent, Inside, TickSession;
    if order != [] {
      var before := order[..|order| - 1];
      var id := order[|order| - 1];
      TickPassInside(st, before, now, late);
      var mid := TickPass(st, before, now, late).0;
      assert id !in before;
      assert order == before + [id];
      TickSessionInside(st.sessions[id], now, late[id]);
    }
  }

  /** After a tick exactly the sessions with no fatal deadline behind them survive, and every survivor
      is strictly inside all its deadlines at the instant of the tick. */
  lemma TickLeavesSessionsInside(st: Store, now: Time, order: seq<string>, late: map<string, Time>)
    requires Valid(st) && TimerReady(st, now, order, late)
    ensures var after := TickPass(st, order, now, late).0;
            && (forall id :: id in after.sessions <==> id in st.sessions && !Doomed(st.sessions[id], now))
            && (forall id :: id in after.sessions ==> Inside(after.sessions[id], now))
  {
    TickPassInside(st, order, now, late);
  }
}
