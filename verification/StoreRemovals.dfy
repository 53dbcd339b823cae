/** When and why a peer is removed, told from the events of the run, and what it is told when it goes. */
module StoreRemovals {
  import opened Common
  import opened SignalingTypes
  import opened SessionTransitions
  import opened StoreSpec
  import opened StoreInvariant
  import opened StoreRuns
  import opened StoreShares
  import opened StoreActivity

  // The owner of `s` is sent this notice.
  ghost predicate Tells(actions: seq<Action>, s: Session, notice: Notice) {
    exists i :: 0 <= i < |actions| && TellsAt(actions[i], s, notice)
  }

  predicate TellsAt(a: Action, s: Session, notice: Notice) {
    && a.Send? && a.connectionId == s.owner.connectionId && a.envelope.sessionId == s.id && a.envelope.notice == notice
  }

  const Absolute := NoticeSessionExpired(AbsoluteExpiry)
  const OwnerSilent := NoticeSessionRevoked(OwnerHeartbeatTimeout)
  const LeftAlone := NoticeSessionExpired(OwnerOnlyExpiry)
  const SeatUnused := NoticeReceiverDisconnected(JoinReservationTimeout)
  const ReceiverSilent := NoticeReceiverDisconnected(ReceiverHeartbeatTimeout)
  const LinkLost := NoticeReceiverDisconnected(IceDisconnectedTimeout)

  predicate TimerNotice(n: Notice) {
    n == Absolute || n == OwnerSilent || n == LeftAlone || n == SeatUnused || n == ReceiverSilent || n == LinkLost
  }

  function Acts(d: Due): seq<Action> { if d.Stays? then [] else d.actions }

  ghost predicate NoTimer(actions: seq<Action>) {
    forall i :: 0 <= i < |actions| && actions[i].Send? ==> !TimerNotice(actions[i].envelope.notice)
  }

  // -------- one session --------

  // A revocation, an expiry or a detachment tells the owner its reason and nothing else.
  lemma RevokeTells(s: Session, reason: Reason, notice: Notice)
    ensures Tells(Revoke(s, reason, true), s, notice) <==> notice == NoticeSessionRevoked(reason)
    ensures Tells(Expire(s, reason), s, notice) <==> notice == NoticeSessionExpired(reason)
  {
    var r, e := Revoke(s, reason, true), Expire(s, reason);
    assert TellsAt(r[|r| - 2], s, NoticeSessionRevoked(reason));
    assert TellsAt(e[|e| - 2], s, NoticeSessionExpired(reason));
  }

  lemma DetachTells(s: Session, reason: Reason, close: bool, now: Time, notice: Notice)
    ensures Tells(DetachReceiver(s, reason, close, now).1, s, notice) <==> notice == NoticeReceiverDisconnected(reason)
  {
    var d := DetachReceiver(s, reason, close, now).1;
    assert TellsAt(d[|d| - 1], s, NoticeReceiverDisconnected(reason));
  }

  // The reasons of `Overdue`, one condition each.
  lemma OverdueReasons(s: Session, now: Time, late: Time)
    requires Coherent(s)
    ensures var acts := Acts(Overdue(s, now, late));
            var alive := now < s.absoluteDeadline && now - s.owner.lastActivity < 5000.0;
            var unused := s.phase == JoinReserved && Passed(s.phaseDeadline, now);
            var silent := s.receiver.Some? && now - s.receiver.value.lastActivity >= 5000.0;
            && (Tells(acts, s, Absolute) <==> now >= s.absoluteDeadline)
            && (Tells(acts, s, OwnerSilent) <==> now < s.absoluteDeadline && now - s.owner.lastActivity >= 5000.0)
            && (Tells(acts, s, LeftAlone) <==> alive && s.phase == OwnerOnly && Passed(s.phaseDeadline, now))
            && (Tells(acts, s, SeatUnused) <==> alive && unused)
            && (Tells(acts, s, ReceiverSilent) <==> alive && !unused && silent)
            && (Tells(acts, s, LinkLost) <==> alive && !unused && !silent && Passed(s.iceDeadline, now))
  {
    hide Revoke, Expire, DetachReceiver, Tells;
    var t := if s.phase == JoinOpen && Passed(s.joinExpires, now) then ExpireJoin(s, now) else s;
    forall notice
      ensures Tells(Revoke(s, OwnerHeartbeatTimeout, true), s, notice) <==> notice == OwnerSilent
      ensures Tells(Expire(s, AbsoluteExpiry), s, notice) <==> notice == Absolute
      ensures Tells(Expire(t, OwnerOnlyExpiry), s, notice) <==> notice == LeftAlone
      ensures Tells(DetachReceiver(t, JoinReservationTimeout, true, late).1, s, notice) <==> notice == SeatUnused
      ensures Tells(DetachReceiver(t, ReceiverHeartbeatTimeout, true, late).1, s, notice) <==> notice == ReceiverSilent
      ensures Tells(DetachReceiver(t, IceDisconnectedTimeout, true, late).1, s, notice) <==> notice == LinkLost
    {
      RevokeTells(s, OwnerHeartbeatTimeout, notice);
      RevokeTells(s, AbsoluteExpiry, notice);
      RevokeTells(t, OwnerOnlyExpiry, notice);
      DetachTells(t, JoinReservationTimeout, true, late, notice);
      DetachTells(t, ReceiverHeartbeatTimeout, true, late, notice);
      DetachTells(t, IceDisconnectedTimeout, true, late, notice);
      SameOwner(s, t, notice);
    }
    NothingTold(s);
  }

  lemma SameOwner(s: Session, t: Session, notice: Notice)
    requires t.id == s.id && t.owner.connectionId == s.owner.connectionId
    ensures forall acts :: Tells(acts, s, notice) <==> Tells(acts, t, notice)
  {
    forall a: Action ensures TellsAt(a, s, notice) <==> TellsAt(a, t, notice) {}
  }

  lemma NothingTold(s: Session)
    ensures forall notice :: !Tells([], s, notice)
  {}

  predicate TimerReason(r: Reason) {
    || r == AbsoluteExpiry || r == OwnerHeartbeatTimeout || r == OwnerOnlyExpiry || r == JoinReservationTimeout
    || r == ReceiverHeartbeatTimeout || r == IceDisconnectedTimeout
  }

  lemma RevokeNoTimer(s: Session, reason: Reason, closeOwner: bool)
    requires !TimerReason(reason)
    ensures NoTimer(Revoke(s, reason, closeOwner))
  {}

  lemma DetachNoTimer(s: Session, reason: Reason, close: bool, now: Time)
    requires !TimerReason(reason)
    ensures NoTimer(DetachReceiver(s, reason, close, now).1)
  {}

  lemma OwnerRequestNoTimer(s: Session, body: Body, now: Time, capability: string)
    ensures NoTimer(OwnerRequest(s, body, now, capability).actions)
  {
    hide Revoke, DetachReceiver;
    forall t: Session, reason | !TimerReason(reason) ensures NoTimer(Revoke(t, reason, true)) {
      RevokeNoTimer(t, reason, true);
    }
    forall t: Session, reason | !TimerReason(reason) ensures NoTimer(DetachReceiver(t, reason, true, now).1) {
      DetachNoTimer(t, reason, true, now);
    }
  }

  lemma ReceiverRequestNoTimer(s: Session, body: Body, now: Time)
    ensures NoTimer(ReceiverRequest(s, body, now).actions)
  {
    hide Revoke, DetachReceiver;
    forall t: Session, reason | !TimerReason(reason) ensures NoTimer(Revoke(t, reason, true)) {
      RevokeNoTimer(t, reason, true);
    }
    forall t: Session, reason | !TimerReason(reason) ensures NoTimer(DetachReceiver(t, reason, true, now).1) {
      DetachNoTimer(t, reason, true, now);
    }
  }

  lemma OwnerTimer(s: Session, b: Binding, m: Message, clock: Clock, capability: string)
    ensures var acts := Acts(Overdue(s, clock.check, clock.act));
            || OwnerMessage(s, b, m, clock, capability).actions == acts
            || (acts == [] && NoTimer(OwnerMessage(s, b, m, clock, capability).actions))
  {
    hide Overdue, Revoke, OwnerRequest, NoTimer;
    var d := Overdue(s, clock.check, clock.act);
    if d.Stays? {
      var t := d.session;
      RevokeNoTimer(t, OwnerProtocolFailure, true);
      var u := t.(owner := t.owner.(expectedClient := t.owner.expectedClient + 1, lastActivity := clock.act));
      OwnerRequestNoTimer(u, m.body, clock.late, capability);
    }
  }

  lemma ReceiverTimer(s: Session, b: Binding, m: Message, clock: Clock)
    ensures var acts := Acts(Overdue(s, clock.check, clock.act));
            || ReceiverMessage(s, b, m, clock).actions == acts
            || (acts == [] && NoTimer(ReceiverMessage(s, b, m, clock).actions))
  {
    hide Overdue, DetachReceiver, ReceiverRequest, NoTimer;
    var d := Overdue(s, clock.check, clock.act);
    if d.Stays? {
      var t := d.session;
      DetachNoTimer(t, ReceiverProtocolFailure, true, clock.act);
      if t.receiver.Some? {
        var peer := t.receiver.value;
        var v := t.(receiver := Some(peer.(expectedClient := peer.expectedClient + 1, lastActivity := clock.act)));
        ReceiverRequestNoTimer(v, m.body, clock.late);
      }
    }
  }

  lemma TickTimer(s: Session, now: Time, late: Time)
    ensures var acts := Acts(Overdue(s, now, late));
            TickSession(s, now, late).1 == acts || (acts == [] && NoTimer(TickSession(s, now, late).1))
  {
    hide Overdue;
  }

  // When an event holds a session against its deadlines.
  function CheckedAt(e: Event, id: string): Option<(Time, Time)> {
    match e
    case Timer(now, _, late) => if id in late then Some((now, late[id])) else None
    case Arrival(_, b, _, clock, _) => if b.Some?
    && b.value.sessionId == id then Some((clock.check, clock.act)) else None
    case Departure(_, _, _) => None
  }

  // What a session's share of an event says of the timers is what its deadlines demand.
  lemma ShareTimer(st: Store, e: Event, s: Session)
    requires e.Departure? ==> e.cause.External?
    ensures var acts := match CheckedAt(e, s.id) case Some((now, late)) => Acts(Overdue(s, now, late)) case None => [];
            ShareOf(st, e, s).actions == acts || (acts == [] && NoTimer(ShareOf(st, e, s).actions))
  {
    hide Overdue, OwnerMessage, ReceiverMessage, TickSession, Revoke, DetachReceiver;
    match e
    case Timer(now, order, late) =>
      if s.id in late { TickTimer(s, now, late[s.id]); }
    case Departure(b, reason, now) =>
      RevokeNoTimer(s, reason, false);
      DetachNoTimer(s, reason, false, now);
    case Arrival(c, b, m, clock, entropy) =>
      if b.Some? {
        OwnerTimer(s, b.value, m, clock, entropy.capability);
        ReceiverTimer(s, b.value, m, clock);
      }
  }

  lemma TellsShare(pre: seq<Action>, mine: seq<Action>, post: seq<Action>, s: Session, notice: Notice)
    requires NotAbout(pre, s.id) && NotAbout(post, s.id)
    ensures Tells(pre + mine + post, s, notice) <==> Tells(mine, s, notice)
  {
    var all := pre + mine + post;
    if Tells(all, s, notice) {
      var i :| 0 <= i < |all| && TellsAt(all[i], s, notice);
      assert |pre| <= i < |pre| + |mine|;
      assert all[i] == mine[i - |pre|];
    }
    if Tells(mine, s, notice) {
      var i :| 0 <= i < |mine| && TellsAt(mine[i], s, notice);
      assert all[|pre| + i] == mine[i];
    }
  }

  lemma NoTimerTold(actions: seq<Action>, s: Session, notice: Notice)
    requires NoTimer(actions) && TimerNotice(notice)
    ensures !Tells(actions, s, notice)
  {}

  // What an event says of the timers to the owner of a session is what that session's deadlines demand.
  lemma EventTimer(st: Store, e: Event, id: string, notice: Notice)
    requires Valid(st) && Admissible(st, e) && Apply(st, e).1.Response? && id in st.sessions
    requires TimerNotice(notice) && (e.Departure? ==> e.cause.External?)
    ensures var s := st.sessions[id];
            Tells(Apply(st, e).1.actions, s, notice) <==>
            match CheckedAt(e, id)
            case Some((now, late)) => Tells(Acts(Overdue(s, now, late)), s, notice)
            case None => false
  {
    hide Apply, Valid, Coherent, ShareOf, Overdue, Tells, TimerNotice, NoTimer;
    var s := st.sessions[id];
    Keyed(st, id);
    var pre, post := EventSplit(st, e, id);
    var mine := ShareOf(st, e, s).actions;
    TellsShare(pre, mine, post, s, notice);
    ShareTimer(st, e, s);
    NothingTold(s);
    if NoTimer(mine) { NoTimerTold(mine, s, notice); }
  }

  // -------- runs --------

  /** Over every run, each removal by the clock, told from the events alone. A session checked at `now` is removed
      as expired exactly from 8 hours after its creation; else for a silent owner exactly when the owner's last accepted
      message,
      or its creation, is 5000 ms old; else its receiver, for an unused seat exactly when it was reserved 30000 ms ago
      and has
      not been answered; else for silence exactly when the receiver's last accepted message, or its reservation, is 5000
      ms old;
      else for a lost link exactly when it has been reported lost for 5000 ms. */
  lemma RemovedExactly(t: Trace, i: nat, id: string)
    requires Run(t) && i < |t.events| && id in t.states[i].sessions && t.answers[i].Response?
    requires t.events[i].Departure? ==> t.events[i].cause.External?
    ensures var s, acts := t.states[i].sessions[id], t.answers[i].actions;
            var ow := History(t, s.owner.generation, i);
            && ow.Some?
            && match CheckedAt(t.events[i], id)
               case None => !Tells(acts, s, Absolute) && !Tells(acts, s, OwnerSilent) && !Tells(acts, s, SeatUnused)
                            && !Tells(acts, s, ReceiverSilent) && !Tells(acts, s, LinkLost)
               case Some((now, _)) =>
                 var alive := now < s.createdAt + 28800000.0 && now < ow.value.heard + 5000.0;
                 && (Tells(acts, s, Absolute) <==> now >= s.createdAt + 28800000.0)
                 && (Tells(acts, s, OwnerSilent) <==> now < s.createdAt + 28800000.0 && now >= ow.value.heard + 5000.0)
                 && (s.receiver.None? ==>
                       !Tells(acts, s, SeatUnused) && !Tells(acts, s, ReceiverSilent) && !Tells(acts, s, LinkLost))
                 && (s.receiver.Some? ==>
                       var re := History(t, s.receiver.value.generation, i);
                       && re.Some?
                       && var unused := s.phase == JoinReserved && now >= re.value.seated + 30000.0;
                          var silent := now >= re.value.heard + 5000.0;
                          var lost := re.value.iceLost.Some? && now >= re.value.iceLost.value + 5000.0;
                       && (Tells(acts, s, SeatUnused) <==> alive && unused)
                       && (Tells(acts, s, ReceiverSilent) <==> alive && !unused && silent)
                       && (Tells(acts, s, LinkLost) <==> alive && !unused && !silent && lost))
  {
    hide Apply, Valid, Overdue, Tells, Acts, History;
    assert StepAt(t, i);
    RunValid(t, i);
    var st, e := t.states[i], t.events[i];
    var s := st.sessions[id];
    Keyed(st, id);
    HistoryTells(t, i, id);
    EventTimer(st, e, id, Absolute);
    EventTimer(st, e, id, OwnerSilent);
    EventTimer(st, e, id, SeatUnused);
    EventTimer(st, e, id, ReceiverSilent);
    EventTimer(st, e, id, LinkLost);
    var at := CheckedAt(e, id);
    if at.Some? {
      OverdueReasons(s, at.value.0, at.value.1);
    }
  }

  // -------- nobody leaves silently --------

  // The peer at `c` is told, under number `n`, that session `id` is over and why, and then closed for that reason.
  ghost predicate Dismissed(actions: seq<Action>, c: nat, id: string, n: nat) {
    exists i, j :: 0 <= i < j < |actions| && DismissedBy(actions[i], actions[j], c, id, n)
  }

  predicate DismissedBy(a: Action, b: Action, c: nat, id: string, n: nat) {
    && a.Send? && a.connectionId == c && a.envelope.sessionId == id && a.envelope.sequence == n
    && b.Close? && b.connectionId == c
    && (a.envelope.notice == NoticeSessionRevoked(b.reason) || a.envelope.notice == NoticeSessionExpired(b.reason))
  }

  // The owner is told that its receiver is gone and why, and the receiver is closed for that reason if it did not leave
  // itself.
  ghost predicate ReceiverDismissed(actions: seq<Action>, s: Session, left: bool)
    requires s.receiver.Some?
  {
    exists reason ::
      && Tells(actions, s, NoticeReceiverDisconnected(reason))
      && (left || Close(s.receiver.value.connectionId, reason) in actions)
  }

  // What becomes of the peers of `s`.
  ghost predicate Dismisses(s: Session, after: Option<Session>, actions: seq<Action>, left: bool) {
    && (after.None? && s.receiver.Some? ==>
          Dismissed(actions, s.receiver.value.connectionId, s.id, s.receiver.value.nextServer))
    && (after.None? && !left ==> Dismissed(actions, s.owner.connectionId, s.id, s.owner.nextServer))
    && (after.Some? && s.receiver.Some? && after.value.receiver.None? ==> ReceiverDismissed(actions, s, left))
  }

  lemma RevokeDismisses(s: Session, reason: Reason, closeOwner: bool)
    ensures Dismisses(s, None, Revoke(s, reason, closeOwner), !closeOwner)
    ensures Dismisses(s, None, Expire(s, reason), false)
  {
    var r, e := Revoke(s, reason, closeOwner), Expire(s, reason);
    if s.receiver.Some? {
      var p := s.receiver.value;
      assert DismissedBy(r[0], r[1], p.connectionId, s.id, p.nextServer);
      assert DismissedBy(e[0], e[1], p.connectionId, s.id, p.nextServer);
    }
    assert DismissedBy(e[|e| - 2], e[|e| - 1], s.owner.connectionId, s.id, s.owner.nextServer);
    if closeOwner {
      assert DismissedBy(r[|r| - 2], r[|r| - 1], s.owner.connectionId, s.id, s.owner.nextServer);
    }
  }

  lemma DetachDismisses(s: Session, reason: Reason, close: bool, now: Time)
    ensures var (t, actions) := DetachReceiver(s, reason, close, now); Dismisses(s, Some(t), actions, !close)
  {
    var actions := DetachReceiver(s, reason, close, now).1;
    DetachTells(s, reason, close, now, NoticeReceiverDisconnected(reason));
    if s.receiver.Some? && close {
      assert actions[0] == Close(s.receiver.value.connectionId, reason);
    }
  }

  // The same peers under the same numbers.
  ghost predicate SamePeers(s: Session, t: Session) {
    && t.id == s.id && t.owner.connectionId == s.owner.connectionId && t.owner.nextServer == s.owner.nextServer
    && (s.receiver.Some? <==> t.receiver.Some?)
    && (s.receiver.Some? ==>
          && t.receiver.value.connectionId == s.receiver.value.connectionId
          && t.receiver.value.nextServer == s.receiver.value.nextServer)
  }

  lemma SameDismisses(s: Session, t: Session, after: Option<Session>, actions: seq<Action>, left: bool)
    requires SamePeers(s, t) && Dismisses(t, after, actions, left)
    ensures Dismisses(s, after, actions, left)
  {
    hide Dismissed;
    if after.Some? && s.receiver.Some? && after.value.receiver.None? {
      var reason :| Tells(actions, t, NoticeReceiverDisconnected(reason))
        && (left || Close(t.receiver.value.connectionId, reason) in actions);
      SameOwner(t, s, NoticeReceiverDisconnected(reason));
    }
  }

  lemma OverdueDismisses(s: Session, now: Time, late: Time)
    ensures match Overdue(s, now, late)
            case Gone(actions) => Dismisses(s, None, actions, false)
            case Detached(t, actions) => Dismisses(s, Some(t), actions, false)
            case Stays(t) => SamePeers(s, t)
  {
    hide Revoke, Expire, DetachReceiver, Dismisses;
    var t := if s.phase == JoinOpen && Passed(s.joinExpires, now) then ExpireJoin(s, now) else s;
    RevokeDismisses(s, OwnerHeartbeatTimeout, true);
    RevokeDismisses(s, AbsoluteExpiry, true);
    RevokeDismisses(t, OwnerOnlyExpiry, true);
    DetachDismisses(t, JoinReservationTimeout, true, late);
    DetachDismisses(t, ReceiverHeartbeatTimeout, true, late);
    DetachDismisses(t, IceDisconnectedTimeout, true, late);
    var d := Overdue(s, now, late);
    if !d.Stays? && now < s.absoluteDeadline && now - s.owner.lastActivity < PEER_ACTIVITY_TIMEOUT {
      SameDismisses(s, t, if d.Gone? then None else Some(d.session), d.actions, false);
    }
  }

  lemma TickDismisses(s: Session, now: Time, late: Time)
    ensures var (after, actions) := TickSession(s, now, late); Dismisses(s, after, actions, false)
  {
    hide Overdue, Dismissed, ReceiverDismissed;
    OverdueDismisses(s, now, late);
  }

  lemma OwnerRequestDismisses(s: Session, body: Body, now: Time, capability: string)
    ensures var o := OwnerRequest(s, body, now, capability); Dismisses(s, o.session, o.actions, false)
  {
    hide Revoke, DetachReceiver, Dismissed, ReceiverDismissed;
    forall reason ensures Dismisses(s, None, Revoke(s, reason, true), false) { RevokeDismisses(s, reason, true); }
  }

  lemma ReceiverRequestDismisses(s: Session, body: Body, now: Time)
    ensures var o := ReceiverRequest(s, body, now); Dismisses(s, o.session, o.actions, false)
  {
    hide Revoke, DetachReceiver, Dismissed, ReceiverDismissed;
    forall reason ensures Dismisses(s, None, Revoke(s, reason, true), false) { RevokeDismisses(s, reason, true); }
    forall reason
      ensures Dismisses(s, Some(DetachReceiver(s, reason, true, now).0), DetachReceiver(s, reason, true, now).1, false)
    {
      DetachDismisses(s, reason, true, now);
    }
  }

  lemma MessageDismisses(s: Session, b: Binding, m: Message, clock: Clock, capability: string)
    ensures var o := OwnerMessage(s, b, m, clock, capability); Dismisses(s, o.session, o.actions, false)
    ensures var o := ReceiverMessage(s, b, m, clock); Dismisses(s, o.session, o.actions, false)
  {
    hide Overdue, Revoke, DetachReceiver, OwnerRequest, ReceiverRequest, Dismisses;
    OverdueDismisses(s, clock.check, clock.act);
    var d := Overdue(s, clock.check, clock.act);
    if d.Stays? {
      var t := d.session;
      RevokeDismisses(t, OwnerProtocolFailure, true);
      SameDismisses(s, t, None, Revoke(t, OwnerProtocolFailure, true), false);
      DetachDismisses(t, ReceiverProtocolFailure, true, clock.act);
      var (v, told) := DetachReceiver(t, ReceiverProtocolFailure, true, clock.act);
      SameDismisses(s, t, Some(v), told, false);
      var u := t.(owner := t.owner.(expectedClient := t.owner.expectedClient + 1, lastActivity := clock.act));
      OwnerRequestDismisses(u, m.body, clock.late, capability);
      var o := OwnerRequest(u, m.body, clock.late, capability);
      SameDismisses(s, u, o.session, o.actions, false);
      if t.receiver.Some? {
        var peer := t.receiver.value;
        var x := t.(receiver := Some(peer.(expectedClient := peer.expectedClient + 1, lastActivity := clock.act)));
        ReceiverRequestDismisses(x, m.body, clock.late);
        var q := ReceiverRequest(x, m.body, clock.late);
        SameDismisses(s, x, q.session, q.actions, false);
      }
    }
  }

  lemma ShareDismisses(st: Store, e: Event, s: Session)
    ensures var share := ShareOf(st, e, s); Dismisses(s, share.session, share.actions, e.Departure?)
  {
    hide OwnerMessage, ReceiverMessage, TickSession, Revoke, DetachReceiver, Dismissed, ReceiverDismissed;
    match e
    case Timer(now, order, late) =>
      if s.id in late { TickDismisses(s, now, late[s.id]); }
    case Departure(b, reason, now) =>
      RevokeDismisses(s, reason, false);
      DetachDismisses(s, reason, false, now);
    case Arrival(c, b, m, clock, entropy) =>
      if b.Some? { MessageDismisses(s, b.value, m, clock, entropy.capability); }
  }

  lemma DismissedShare(pre: seq<Action>, mine: seq<Action>, post: seq<Action>, c: nat, id: string, n: nat)
    requires Dismissed(mine, c, id, n)
    ensures Dismissed(pre + mine + post, c, id, n)
  {
    var i, j :| 0 <= i < j < |mine| && DismissedBy(mine[i], mine[j], c, id, n);
    var all := pre + mine + post;
    assert all[|pre| + i] == mine[i] && all[|pre| + j] == mine[j];
  }

  /** Whatever event ends a session, its receiver and, unless it left itself, its owner are told under their next
      numbers and closed for the same reason; whatever event costs a receiver its seat, its owner is told why, and the
      receiver is closed
      unless it left itself. */
  lemma NobodyLeavesSilently(st: Store, e: Event, id: string)
    requires Valid(st) && Admissible(st, e) && Apply(st, e).1.Response? && id in st.sessions
    ensures var (after, r) := Apply(st, e);
            Dismisses(st.sessions[id], if id in after.sessions then Some(after.sessions[id])
                      else None, r.actions, e.Departure?)
  {
    hide Apply, Valid, Coherent, ShareOf, Dismissed, Tells;
    var s := st.sessions[id];
    Keyed(st, id);
    var pre, post := EventSplit(st, e, id);
    ShareDismisses(st, e, s);
    var share := ShareOf(st, e, s);
    var all := pre + share.actions + post;
    if share.session.None? {
      if s.receiver.Some? {
        DismissedShare(pre, share.actions, post, s.receiver.value.connectionId, s.id, s.receiver.value.nextServer);
      }
      if !e.Departure? {
        DismissedShare(pre, share.actions, post, s.owner.connectionId, s.id, s.owner.nextServer);
      }
    } else if s.receiver.Some? && share.session.value.receiver.None? {
      var reason :| Tells(share.actions, s, NoticeReceiverDisconnected(reason))
        && (e.Departure? || Close(s.receiver.value.connectionId, reason) in share.actions);
      TellsShare(pre, share.actions, post, s, NoticeReceiverDisconnected(reason));
    }
  }
}
