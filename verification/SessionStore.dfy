/** `SignalingSessionStore`: the mutable store, proved to compute the store specification. */
module SessionStore {
  import opened Common
  import opened SignalingTypes
  import opened SessionTransitions
  import StoreSpec

  class SignalingSessionStore {
    var sessions: map<string, Session>
    var nextGeneration: nat
    const maximumSessions: nat

    function State(): (st: StoreSpec.Store)
      reads this
    {
      StoreSpec.Store(sessions, nextGeneration, maximumSessions)
    }

    constructor (maximum: nat)
      requires 1 <= maximum <= 1024
      ensures State() == StoreSpec.Empty(maximum)
    {
      sessions, nextGeneration, maximumSessions := map[], 1, maximum;
    }

    method UniqueSessionId(ids: seq<string>) returns (id: Option<string>)
      ensures id == StoreSpec.FirstFree(ids, sessions.Keys)
    {
      var i := 0;
      while i < |ids|
        invariant 0 <= i <= |ids|
        invariant StoreSpec.FirstFree(ids, sessions.Keys) == StoreSpec.FirstFree(ids[i..], sessions.Keys)
      {
        if ids[i] !in sessions.Keys {
          return Some(ids[i]);
        }
        assert ids[i..][1..] == ids[i + 1..];
        i := i + 1;
      }
      id := None;
    }

    // Hands out the next generation, or reports that they are exhausted.
    method Generation() returns (generation: Option<nat>)
      modifies `nextGeneration
      ensures if old(nextGeneration) >= MAX_SAFE_INTEGER
              then generation == None && nextGeneration == old(nextGeneration)
              else generation == Some(old(nextGeneration)) && nextGeneration == old(nextGeneration) + 1
    {
      if nextGeneration >= MAX_SAFE_INTEGER {
        return None;
      }
      generation := Some(nextGeneration);
      nextGeneration := nextGeneration + 1;
    }

    method CreateSession(connectionId: nat, m: Message, now: Time, e: StoreSpec.Entropy) returns (r: StoreSpec.Response)
      requires |e.ids| == StoreSpec.ID_ATTEMPTS
      modifies this
      ensures (State(), r) == StoreSpec.HandleCreate(old(State()), connectionId, m, now, e)
    {
      if m.sequence != 1 || |sessions| >= maximumSessions {
        return StoreSpec.Refused(SessionCreationRejected);
      }
      var id := UniqueSessionId(e.ids);
      if id.None? {
        return StoreSpec.Thrown;
      }
      var generation := Generation();
      if generation.None? {
        return StoreSpec.Thrown;
      }
      var s := Session(id.value, OwnerOnly, now, now + ABSOLUTE_SESSION_LIFETIME, Some(now + OWNER_ONLY_LIFETIME), None,
                       Digest(OwnerKey, id.value, e.capability), None,
                       NewPeer(connectionId, generation.value, 2, now), None,
                       false, false, false, None);
      var (t, actions) := SendTo(s, Owner, NoticeSessionCreated(e.capability, s.absoluteDeadline));
      sessions := sessions[id.value := t];
      r := StoreSpec.Response(true, SessionCreated, Some(Binding(connectionId, Owner, id.value, generation.value)),
                              actions);
    }

    method ReserveJoin(connectionId: nat, m: Message, now: Time) returns (r: StoreSpec.Response)
      requires m.body.ReserveJoin?
      modifies this
      ensures (State(), r) == StoreSpec.HandleReserve(old(State()), connectionId, m, now)
    {
      if !StoreSpec.ReserveAdmits(State(), m, now) {
        return StoreSpec.Refused(AuthenticationFailed);
      }
      var id := m.body.sessionId;
      var s := sessions[id];
      sessions := sessions[id := s.(joinHash := None, joinExpires := None, phase := JoinReserved,
        phaseDeadline := Some(Min(now + JOIN_RESERVATION_LIFETIME, s.absoluteDeadline)))];
      var generation := Generation();
      if generation.None? {
        return StoreSpec.Thrown;
      }
      var seat := sessions[id].(receiver := Some(NewPeer(connectionId, generation.value, 2, now)),
                                offerSeen := false, answerSeen := false, restartPending := false);
      var (t, first) := SendTo(seat, Receiver, NoticeJoinReserved(seat.phaseDeadline));
      var (u, second) := SendTo(t, Owner, NoticeReceiverReserved);
      assert sessions[id := u] == old(sessions)[id := u];
      sessions := sessions[id := u];
      r := StoreSpec.Response(true, JoinReservedOk, Some(Binding(connectionId, Receiver, s.id, generation.value)),
                              first + second);
    }

    // -------- one record, changed in place --------

    // Writes a record's fields back under its identifier.
    method Write(id: string, s: Session)
      modifies `sessions
      ensures sessions == old(sessions)[id := s]
    {
      sessions := sessions[id := s];
    }

    method Delete(id: string)
      modifies `sessions
      ensures sessions == old(sessions) - {id}
    {
      sessions := sessions - {id};
    }

    /** `#send`: the peer, if there is one, takes the next server number. */
    method Emit(id: string, role: Role, notice: Notice) returns (actions: seq<Action>)
      requires id in sessions
      modifies `sessions
      ensures var (t, sent) := SendTo(old(sessions)[id], role, notice);
              sessions == old(sessions)[id := t] && actions == sent
    {
      var s := sessions[id];
      if role == Owner {
        Write(id, s.(owner := s.owner.(nextServer := s.owner.nextServer + 1)));
        actions := [Send(s.owner.connectionId, Envelope(s.id, s.owner.nextServer, notice))];
      } else if s.receiver.Some? {
        var peer := s.receiver.value;
        Write(id, s.(receiver := Some(peer.(nextServer := peer.nextServer + 1))));
        actions := [Send(peer.connectionId, Envelope(s.id, peer.nextServer, notice))];
      } else {
        assert sessions == old(sessions)[id := s];
        actions := [];
      }
    }

    /** `#detachReceiver`: the seat is cleared with everything negotiated, and the owner is told. */
    method DropReceiver(id: string, reason: Reason, closeReceiver: bool, now: Time) returns (actions: seq<Action>)
      requires id in sessions
      modifies `sessions
      ensures var (t, told) := DetachReceiver(old(sessions)[id], reason, closeReceiver, now);
              sessions == old(sessions)[id := t] && actions == told
    {
      var s := sessions[id];
      actions := [];
      if s.receiver.Some? && closeReceiver {
        actions := actions + [Close(s.receiver.value.connectionId, reason)];
      }
      s := s.(receiver := None, phase := OwnerOnly);
      s := s.(phaseDeadline := Some(Min(now + OWNER_ONLY_LIFETIME, s.absoluteDeadline)));
      s := s.(joinHash := None, joinExpires := None);
      s := s.(offerSeen := false, answerSeen := false, restartPending := false, iceDeadline := None);
      Write(id, s);
      var told := Emit(id, Owner, NoticeReceiverDisconnected(reason));
      actions := actions + told;
    }

    // A last message to one peer, and its close.
    method TakeLeave(id: string, role: Role, notice: Notice, reason: Reason) returns (actions: seq<Action>)
      requires id in sessions
      modifies `sessions
      ensures actions == Farewell(old(sessions)[id], role, notice, reason)
      ensures id in sessions && sessions == old(sessions)[id := SendTo(old(sessions)[id], role, notice).0]
    {
      actions := Emit(id, role, notice);
      if role == Owner {
        actions := actions + [Close(sessions[id].owner.connectionId, reason)];
      } else if sessions[id].receiver.Some? {
        actions := actions + [Close(sessions[id].receiver.value.connectionId, reason)];
      }
    }

    /** `#revoke`: the receiver and, if asked, the owner are told and closed, and the record is deleted. */
    method RevokeSession(id: string, reason: Reason, closeOwner: bool) returns (actions: seq<Action>)
      requires id in sessions
      modifies `sessions
      ensures sessions == old(sessions) - {id} && actions == Revoke(old(sessions)[id], reason, closeOwner)
    {
      actions := TakeLeave(id, Receiver, NoticeSessionRevoked(reason), reason);
      if closeOwner {
        var more := TakeLeave(id, Owner, NoticeSessionRevoked(reason), reason);
        actions := actions + more;
      }
      Delete(id);
    }

    method ExpireSession(id: string, reason: Reason) returns (actions: seq<Action>)
      requires id in sessions
      modifies `sessions
      ensures sessions == old(sessions) - {id} && actions == Expire(old(sessions)[id], reason)
    {
      actions := TakeLeave(id, Receiver, NoticeSessionExpired(reason), reason);
      var more := TakeLeave(id, Owner, NoticeSessionExpired(reason), reason);
      actions := actions + more;
      Delete(id);
    }

    // What one transition leaves in the map.
    ghost function Left(before: map<string, Session>, id: string, after: Option<Session>): map<string, Session> {
      if after.Some? then before[id := after.value] else before - {id}
    }

    ghost predicate Does(before: map<string, Session>, id: string, o: Outcome, r: StoreSpec.Response)
      reads this
    {
      sessions == Left(before, id, o.session) && r == StoreSpec.Response(o.accepted, o.reason, None, o.actions)
    }

    method FailOwner(id: string, reason: Reason) returns (r: StoreSpec.Response)
      requires id in sessions
      modifies `sessions
      ensures Does(old(sessions), id, OwnerStateFailure(old(sessions)[id], reason), r)
    {
      var actions := RevokeSession(id, reason, true);
      r := StoreSpec.Response(false, reason, None, actions);
    }

    method FailReceiver(id: string, result: Reason, reason: Reason, now: Time) returns (r: StoreSpec.Response)
      requires id in sessions
      modifies `sessions
      ensures Does(old(sessions), id, ReceiverFailure(old(sessions)[id], result, reason, now), r)
    {
      var actions := DropReceiver(id, reason, true, now);
      r := StoreSpec.Response(false, result, None, actions);
    }

    /** `#forward`: to the other peer, or a failure when nobody is there. */
    method ForwardNotice(id: string, role: Role, notice: Notice, now: Time) returns (r: StoreSpec.Response)
      requires id in sessions
      modifies `sessions
      ensures Does(old(sessions), id, Forward(old(sessions)[id], role, notice, now), r)
    {
      hide Revoke, DetachReceiver, SendTo;
      var actions := Emit(id, role, notice);
      NothingSent(sessions, old(sessions), id, role, notice);
      if actions == [] {
        if role == Owner {
          r := FailOwner(id, SignalDestinationMissing);
        } else {
          r := FailReceiver(id, SignalDestinationMissing, SignalDestinationMissing, now);
        }
      } else {
        r := StoreSpec.Response(true, SignalForwarded, None, actions);
      }
    }

    lemma NothingSent(after: map<string, Session>, before: map<string, Session>, id: string, role: Role, notice: Notice)
      requires id in before && after == before[id := SendTo(before[id], role, notice).0]
      ensures SendTo(before[id], role, notice).1 == [] ==> after == before
    {
    }

    method CreateJoin(id: string, capability: string, now: Time) returns (r: StoreSpec.Response)
      requires id in sessions
      modifies `sessions
      ensures Does(old(sessions), id, OpenJoin(old(sessions)[id], capability, now), r)
    {
      hide Revoke;
      var s := sessions[id];
      if s.phase != OwnerOnly || s.receiver.Some? || s.joinHash.Some? {
        r := FailOwner(id, CreateJoinStateInvalid);
        return;
      }
      s := s.(joinHash := Some(Digest(JoinKey, s.id, capability)));
      s := s.(joinExpires := Some(Min(now + JOIN_CAPABILITY_LIFETIME, s.absoluteDeadline)));
      s := s.(phase := JoinOpen, phaseDeadline := s.joinExpires);
      Write(id, s);
      var actions := Emit(id, Owner, NoticeJoinCreated(capability, s.joinExpires.value));
      r := StoreSpec.Response(true, JoinCreated, None, actions);
    }

    method AnswerOffer(id: string, sdp: string, restart: bool, now: Time) returns (r: StoreSpec.Response)
      requires id in sessions
      modifies `sessions
      ensures Does(old(sessions), id, Answer(old(sessions)[id], sdp, restart, now), r)
    {
      hide Revoke, Forward;
      var s := sessions[id];
      if s.receiver.None?
         || (restart && (s.phase != Connected || !s.restartPending))
         || (!restart && (s.phase != JoinReserved || !s.offerSeen || s.answerSeen)) {
        r := FailOwner(id, OwnerAnswerStateInvalid);
        return;
      }
      if !restart {
        s := s.(answerSeen := true, phase := Connected, phaseDeadline := None);
      } else {
        s := s.(restartPending := false);
      }
      Write(id, s);
      r := ForwardNotice(id, Receiver, if restart then NoticeOwnerRestartAnswer(sdp) else NoticeOwnerAnswer(sdp), now);
      Rewritten(old(sessions), id, s);
    }

    // Writing a record twice is writing it once.
    lemma Rewritten(before: map<string, Session>, id: string, s: Session)
      requires id in before
      ensures forall after :: Left(before[id := s], id, after) == Left(before, id, after)
    {
      forall after: Option<Session> ensures Left(before[id := s], id, after) == Left(before, id, after) {
        if after.None? {
          assert before[id := s] - {id} == before - {id};
        }
      }
    }

    lemma Overwritten(before: map<string, Session>, id: string, s: Session, t: Session)
      requires id in before
      ensures before[id := s] - {id} == before - {id}
      ensures before[id := s][id := t] == before[id := t]
    {
    }

    method ChangeIce(id: string, state: IceState, now: Time) returns (r: StoreSpec.Response)
      requires id in sessions
      modifies `sessions
      ensures Does(old(sessions), id, IceChange(old(sessions)[id], state, now), r)
    {
      hide Revoke, DetachReceiver;
      var s := sessions[id];
      if s.receiver.None? || s.phase != Connected {
        r := FailOwner(id, ReceiverIceStateInvalid);
      } else if state.IceConnected? {
        Write(id, s.(iceDeadline := None));
        r := StoreSpec.Response(true, IceConnectedOk, None, []);
      } else if state.IceDisconnected? {
        Write(id, s.(iceDeadline := Some(Min(now + ICE_DISCONNECTED_GRACE, s.absoluteDeadline))));
        r := StoreSpec.Response(true, IceDisconnectedGrace, None, []);
      } else {
        var actions := DropReceiver(id, if state.IceFailed? then IceFailedReason else IceClosedReason, true, now);
        r := StoreSpec.Response(true, ReceiverDisconnectedOk, None, actions);
      }
    }

    method AcknowledgeHeartbeat(id: string, role: Role, heartbeat: nat, now: Time) returns (r: StoreSpec.Response)
      requires id in sessions
      modifies `sessions
      ensures Does(old(sessions), id, AckHeartbeat(old(sessions)[id], role, heartbeat, now), r)
    {
      hide Revoke, DetachReceiver;
      var s := sessions[id];
      var peer := if role == Owner then Some(s.owner) else s.receiver;
      if peer.None? || heartbeat != peer.value.heartbeat || heartbeat == 0 {
        if role == Owner {
          r := FailOwner(id, HeartbeatAckInvalid);
        } else {
          r := FailReceiver(id, HeartbeatAckInvalid, HeartbeatAckInvalid, now);
        }
      } else {
        assert sessions == old(sessions)[id := s];
        r := StoreSpec.Response(true, HeartbeatAcknowledged, None, []);
      }
    }

    ghost predicate Settles(before: map<string, Session>, id: string, due: Due, expired: Option<seq<Action>>)
      reads this
    {
      match due
      case Gone(actions) => sessions == before - {id} && expired == Some(actions)
      case Detached(t, actions) => sessions == before[id := t] && expired == Some(actions)
      case Stays(t) => sessions == before[id := t] && expired == None
    }

    /** `#expireBeforeMessage`, and the same checks of a timer visit: what the deadlines demand. */
    method ExpireOverdue(id: string, now: Time, late: Time) returns (expired: Option<seq<Action>>)
      requires id in sessions
      modifies `sessions
      ensures Settles(old(sessions), id, Overdue(old(sessions)[id], now, late), expired)
    {
      hide Revoke, Expire, DetachReceiver;
      var s := sessions[id];
      if now >= s.absoluteDeadline {
        var actions := ExpireSession(id, AbsoluteExpiry);
        return Some(actions);
      }
      if now - s.owner.lastActivity >= PEER_ACTIVITY_TIMEOUT {
        var actions := RevokeSession(id, OwnerHeartbeatTimeout, true);
        return Some(actions);
      }
      if s.phase == JoinOpen && Passed(s.joinExpires, now) {
        s := s.(joinHash := None, joinExpires := None, phase := OwnerOnly);
        s := s.(phaseDeadline := Some(Min(now + OWNER_ONLY_LIFETIME, s.absoluteDeadline)));
      }
      Write(id, s);
      Overwritten(old(sessions), id, s, s);
      if s.phase == OwnerOnly && Passed(s.phaseDeadline, now) {
        var actions := ExpireSession(id, OwnerOnlyExpiry);
        return Some(actions);
      }
      if s.phase == JoinReserved && Passed(s.phaseDeadline, now) {
        var actions := DropReceiver(id, JoinReservationTimeout, true, late);
        Overwritten(old(sessions), id, s, sessions[id]);
        return Some(actions);
      }
      if s.receiver.Some? && now - s.receiver.value.lastActivity >= PEER_ACTIVITY_TIMEOUT {
        var actions := DropReceiver(id, ReceiverHeartbeatTimeout, true, late);
        Overwritten(old(sessions), id, s, sessions[id]);
        return Some(actions);
      }
      if Passed(s.iceDeadline, now) {
        var actions := DropReceiver(id, IceDisconnectedTimeout, true, late);
        Overwritten(old(sessions), id, s, sessions[id]);
        return Some(actions);
      }
      expired := None;
    }

    method HandleOwner(b: Binding, m: Message, clock: Clock, capability: string) returns (r: StoreSpec.Response)
      requires b.sessionId in sessions
      modifies `sessions
      ensures Does(old(sessions), b.sessionId, OwnerMessage(old(sessions)[b.sessionId], b, m, clock, capability), r)
    {
      hide Overdue, OwnerRequest, Revoke;
      var id := b.sessionId;
      var expired := ExpireOverdue(id, clock.check, clock.act);
      if expired.Some? {
        return StoreSpec.Response(false, SessionExpiredReason, None, expired.value);
      }
      var s := sessions[id];
      Rewritten(old(sessions), id, s);
      if !OwnerAdmits(s, b, m) {
        var actions := RevokeSession(id, OwnerProtocolFailure, true);
        return StoreSpec.Response(false, AuthenticationFailed, None, actions);
      }
      s := s.(owner := s.owner.(expectedClient := s.owner.expectedClient + 1, lastActivity := clock.act));
      Write(id, s);
      Rewritten(old(sessions), id, s);
      assert sessions == old(sessions)[id := s];
      r := ServeOwner(id, m.body, clock.late, capability);
    }

    method ServeOwner(id: string, body: Body, now: Time, capability: string) returns (r: StoreSpec.Response)
      requires id in sessions
      modifies `sessions
      ensures Does(old(sessions), id, OwnerRequest(old(sessions)[id], body, now, capability), r)
    {
      hide Revoke, Forward, Answer, OpenJoin, AckHeartbeat;
      match body {
        case CreateJoin(_, _) => r := CreateJoin(id, capability, now);
        case OwnerAnswer(_, _, sdp) => r := AnswerOffer(id, sdp, false, now);
        case OwnerRestartAnswer(_, _, sdp) => r := AnswerOffer(id, sdp, true, now);
        case OwnerCandidate(_, _, candidate) =>
          if sessions[id].receiver.None? || !sessions[id].offerSeen {
            r := FailOwner(id, OwnerCandidateStateInvalid);
          } else {
            r := ForwardNotice(id, Receiver, NoticeOwnerCandidate(candidate), now);
          }
        case OwnerHeartbeatAck(_, _, heartbeat) => r := AcknowledgeHeartbeat(id, Owner, heartbeat, now);
        case OwnerStop(_, _) =>
          var actions := RevokeSession(id, OwnerStopped, true);
          r := StoreSpec.Response(true, SessionRevokedOk, None, actions);
        case OwnerRevoke(_, _) =>
          var actions := RevokeSession(id, OwnerRevoked, true);
          r := StoreSpec.Response(true, SessionRevokedOk, None, actions);
        case _ =>
          var actions := RevokeSession(id, OwnerRoleConfusion, true);
          r := StoreSpec.Response(false, OwnerMessageInvalid, None, actions);
      }
    }

    method HandleReceiver(b: Binding, m: Message, clock: Clock) returns (r: StoreSpec.Response)
      requires b.sessionId in sessions
      modifies `sessions
      ensures Does(old(sessions), b.sessionId, ReceiverMessage(old(sessions)[b.sessionId], b, m, clock), r)
    {
      hide Overdue, ReceiverRequest, DetachReceiver;
      var id := b.sessionId;
      var expired := ExpireOverdue(id, clock.check, clock.act);
      if expired.Some? {
        return StoreSpec.Response(false, SessionExpiredReason, None, expired.value);
      }
      var s := sessions[id];
      Rewritten(old(sessions), id, s);
      if !ReceiverAdmits(s, b, m) {
        r := FailReceiver(id, AuthenticationFailed, ReceiverProtocolFailure, clock.act);
        return;
      }
      var peer := s.receiver.value;
      s := s.(receiver := Some(peer.(expectedClient := peer.expectedClient + 1, lastActivity := clock.act)));
      Write(id, s);
      Rewritten(old(sessions), id, s);
      assert sessions == old(sessions)[id := s];
      r := ServeReceiver(id, m.body, clock.late);
    }

    method ServeReceiver(id: string, body: Body, now: Time) returns (r: StoreSpec.Response)
      requires id in sessions
      modifies `sessions
      ensures Does(old(sessions), id, ReceiverRequest(old(sessions)[id], body, now), r)
    {
      hide Forward, DetachReceiver, IceChange, AckHeartbeat;
      var s := sessions[id];
      match body {
        case ReceiverOffer(_, sdp) =>
          if s.phase == JoinReserved && !s.offerSeen {
            s := s.(offerSeen := true);
            Write(id, s);
            Rewritten(old(sessions), id, s);
            r := ForwardNotice(id, Owner, NoticeReceiverOffer(sdp), now);
            return;
          }
        case ReceiverRestartOffer(_, sdp) =>
          if s.phase == Connected && !s.restartPending {
            s := s.(restartPending := true);
            Write(id, s);
            Rewritten(old(sessions), id, s);
            r := ForwardNotice(id, Owner, NoticeReceiverRestartOffer(sdp), now);
            return;
          }
        case ReceiverCandidate(_, candidate) =>
          if s.offerSeen {
            r := ForwardNotice(id, Owner, NoticeReceiverCandidate(candidate), now);
            return;
          }
        case ReceiverHeartbeatAck(_, heartbeat) =>
          r := AcknowledgeHeartbeat(id, Receiver, heartbeat, now);
          return;
        case ReceiverIce(_, state) =>
          r := ChangeIce(id, state, now);
          return;
        case _ =>
      }
      r := FailReceiver(id, ReceiverMessageInvalid, ReceiverRoleOrStateInvalid, now);
    }

    /** A message under a binding: its session, if it exists, is checked, served and written back, or deleted. */
    method HandleBound(b: Binding, m: Message, clock: Clock, e: StoreSpec.Entropy) returns (r: StoreSpec.Response)
      modifies `sessions
      ensures (State(), r) == StoreSpec.HandleBound(old(State()), b, m, clock, e)
    {
      hide OwnerMessage, ReceiverMessage;
      if b.sessionId !in sessions {
        return StoreSpec.Refused(AuthenticationFailed);
      }
      if b.role == Owner {
        r := HandleOwner(b, m, clock, e.capability);
      } else {
        r := HandleReceiver(b, m, clock);
      }
    }

    /** `#heartbeatActions`: each peer whose heartbeat is due, owner first. */
    method Beat(id: string, now: Time) returns (actions: seq<Action>)
      requires id in sessions
      modifies `sessions
      ensures var (t, first) := BeatOwner(old(sessions)[id], now);
              var (u, second) := BeatReceiver(t, now);
              sessions == old(sessions)[id := u] && actions == first + second
    {
      var s := sessions[id];
      actions := [];
      if now >= s.owner.nextHeartbeat {
        s := s.(owner := s.owner.(heartbeat := s.owner.heartbeat + 1, nextHeartbeat := now + HEARTBEAT_INTERVAL));
        Write(id, s);
        actions := Emit(id, Owner,
                        NoticeHeartbeat(s.owner.heartbeat, Min(now + PEER_ACTIVITY_TIMEOUT, s.absoluteDeadline)));
      }
      s := sessions[id];
      if s.receiver.Some? && now >= s.receiver.value.nextHeartbeat {
        var peer := s.receiver.value;
        s := s.(receiver := Some(peer.(heartbeat := peer.heartbeat + 1, nextHeartbeat := now + HEARTBEAT_INTERVAL)));
        Write(id, s);
        var more := Emit(id, Receiver,
                         NoticeHeartbeat(peer.heartbeat + 1, Min(now + PEER_ACTIVITY_TIMEOUT, s.absoluteDeadline)));
        actions := actions + more;
      }
      assert sessions == old(sessions)[id := sessions[id]];
    }

    // One session's share of a timer tick.
    method Visit(id: string, now: Time, late: Time) returns (actions: seq<Action>)
      requires id in sessions
      modifies `sessions
      ensures var (after, emitted) := TickSession(old(sessions)[id], now, late);
              sessions == Left(old(sessions), id, after) && actions == emitted
    {
      hide Overdue, BeatOwner, BeatReceiver;
      var expired := ExpireOverdue(id, now, late);
      if expired.Some? {
        return expired.value;
      }
      ghost var s := sessions[id];
      actions := Beat(id, now);
      Rewritten(old(sessions), id, s);
    }

    method Handle(connectionId: nat, binding: Option<Binding>, m: Message, clock: Clock, e: StoreSpec.Entropy)
      returns (r: StoreSpec.Response)
      requires |e.ids| == StoreSpec.ID_ATTEMPTS
      modifies this
      ensures (State(), r) == StoreSpec.Handle(old(State()), connectionId, binding, m, clock, e)
    {
      if binding.Some? {
        r := HandleBound(binding.value, m, clock, e);
      } else if m.body.CreateSession? {
        r := CreateSession(connectionId, m, clock.check, e);
      } else if m.body.ReserveJoin? {
        r := ReserveJoin(connectionId, m, clock.check);
      } else {
        r := StoreSpec.Refused(AuthenticationFailed);
      }
    }

    method Disconnect(b: Binding, reason: Reason, now: Time) returns (actions: seq<Action>)
      modifies `sessions
      ensures (State(), actions) == StoreSpec.Disconnect(old(State()), b, reason, now)
    {
      hide Revoke, DetachReceiver;
      if b.sessionId !in sessions {
        return [];
      }
      if b.role == Owner {
        if !OwnerMatches(sessions[b.sessionId], b) {
          return [];
        }
        actions := RevokeSession(b.sessionId, reason, false);
      } else {
        if !ReceiverMatches(sessions[b.sessionId], b) {
          return [];
        }
        actions := DropReceiver(b.sessionId, reason, false, now);
      }
    }

    method Tick(now: Time, order: seq<string>, late: map<string, Time>) returns (actions: seq<Action>)
      requires StoreSpec.TimerReady(State(), now, order, late)
      modifies `sessions
      ensures (State(), actions) == StoreSpec.TickPass(old(State()), order, now, late)
    {
      actions := [];
      var i := 0;
      while i < |order|
        invariant 0 <= i <= |order|
        invariant (State(), actions) == StoreSpec.TickPass(old(State()), order[..i], now, late)
        invariant forall j :: i <= j < |order| ==> order[j] in sessions
      {
        hide TickSession;
        var id := order[i];
        var more := Visit(id, now, late[id]);
        actions := actions + more;
        assert order[..i + 1][..i] == order[..i];
        i := i + 1;
      }
      assert order[..i] == order;
    }
  }

  /** A store for 1 to 1024 sessions with a key of at least 32 bytes, or a refused configuration. */
  method NewStore(maximum: int, hashKeyBytes: nat) returns (r: Option<SignalingSessionStore>)
    ensures r.Some? <==> 1 <= maximum <= 1024 && hashKeyBytes >= 32
    ensures r.Some? ==> r.value.State() == StoreSpec.Empty(maximum)
  {
    if hashKeyBytes < 32 || maximum < 1 || maximum > 1024 {
      return None;
    }
    var store := new SignalingSessionStore(maximum);
    r := Some(store);
  }
}
