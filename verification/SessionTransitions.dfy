/** The private transitions of one session record. Each returns the record it leaves behind
    and the actions it emits, in the order they are emitted. */
module SessionTransitions {
  import opened Common
  import opened SignalingTypes

  function NewPeer(connectionId: nat, generation: nat, expected: nat, now: Time): Peer {
    Peer(connectionId, generation, expected, 1, now, now + HEARTBEAT_INTERVAL, 0)
  }

  // The peer, if any, takes the next server number.
  function SendTo(s: Session, role: Role, notice: Notice): (Session, seq<Action>) {
    match role
    case Owner =>
      (s.(owner := s.owner.(nextServer := s.owner.nextServer + 1)),
       [Send(s.owner.connectionId, Envelope(s.id, s.owner.nextServer, notice))])
    case Receiver =>
      if s.receiver.None? then (s, []) else
      var peer := s.receiver.value;
      (s.(receiver := Some(peer.(nextServer := peer.nextServer + 1))),
       [Send(peer.connectionId, Envelope(s.id, peer.nextServer, notice))])
  }

  function DetachReceiver(s: Session, reason: Reason, closeReceiver: bool, now: Time): (Session, seq<Action>) {
    var closing := if s.receiver.Some? && closeReceiver then [Close(s.receiver.value.connectionId, reason)] else [];
    var bare := s.(receiver := None, phase := OwnerOnly,
                   phaseDeadline := Some(Min(now + OWNER_ONLY_LIFETIME, s.absoluteDeadline)),
                   joinHash := None, joinExpires := None,
                   offerSeen := false, answerSeen := false, restartPending := false, iceDeadline := None);
    var (after, told) := SendTo(bare, Owner, NoticeReceiverDisconnected(reason));
    (after, closing + told)
  }

  function Farewell(s: Session, role: Role, notice: Notice, reason: Reason): seq<Action> {
    match role
    case Owner => SendTo(s, Owner, notice).1 + [Close(s.owner.connectionId, reason)]
    case Receiver =>
      if s.receiver.None? then []
      else SendTo(s, Receiver, notice).1 + [Close(s.receiver.value.connectionId, reason)]
  }

  // The session is deleted; the record's own later state is not observable.
  function Revoke(s: Session, reason: Reason, closeOwner: bool): seq<Action> {
    Farewell(s, Receiver, NoticeSessionRevoked(reason), reason)
    + (if closeOwner then Farewell(s, Owner, NoticeSessionRevoked(reason), reason) else [])
  }

  function Expire(s: Session, reason: Reason): seq<Action> {
    Farewell(s, Receiver, NoticeSessionExpired(reason), reason)
    + Farewell(s, Owner, NoticeSessionExpired(reason), reason)
  }

  function ExpireJoin(s: Session, now: Time): Session {
    s.(joinHash := None, joinExpires := None, phase := OwnerOnly,
       phaseDeadline := Some(Min(now + OWNER_ONLY_LIFETIME, s.absoluteDeadline)))
  }

  predicate Passed(deadline: Option<Time>, now: Time) { deadline.Some? && now >= deadline.value }

  // What the deadlines demand at an instant, shared by the timer and by message handling.
  datatype Due = Stays(session: Session) | Detached(session: Session, actions: seq<Action>) | Gone(actions: seq<Action>)

  function Overdue(s: Session, now: Time, late: Time): Due {
    if now >= s.absoluteDeadline then Gone(Expire(s, AbsoluteExpiry))
    else if now - s.owner.lastActivity >= PEER_ACTIVITY_TIMEOUT then Gone(Revoke(s, OwnerHeartbeatTimeout, true))
    else
      var t := if s.phase == JoinOpen && Passed(s.joinExpires, now) then ExpireJoin(s, now) else s;
      if t.phase == OwnerOnly && Passed(t.phaseDeadline, now) then Gone(Expire(t, OwnerOnlyExpiry))
      else if t.phase == JoinReserved && Passed(t.phaseDeadline, now) then Detach(t, JoinReservationTimeout, late)
      else if t.receiver.Some? && now - t.receiver.value.lastActivity >= PEER_ACTIVITY_TIMEOUT then
        Detach(t, ReceiverHeartbeatTimeout, late)
      else if Passed(t.iceDeadline, now) then Detach(t, IceDisconnectedTimeout, late)
      else Stays(t)
  }

  function Detach(s: Session, reason: Reason, late: Time): Due {
    var (t, actions) := DetachReceiver(s, reason, true, late);
    Detached(t, actions)
  }

  function BeatOwner(s: Session, now: Time): (Session, seq<Action>) {
    if now < s.owner.nextHeartbeat then (s, []) else
    var p := s.owner.(heartbeat := s.owner.heartbeat + 1, nextHeartbeat := now + HEARTBEAT_INTERVAL);
    SendTo(s.(owner := p), Owner, NoticeHeartbeat(p.heartbeat, Min(now + PEER_ACTIVITY_TIMEOUT, s.absoluteDeadline)))
  }

  function BeatReceiver(s: Session, now: Time): (Session, seq<Action>) {
    if s.receiver.None? || now < s.receiver.value.nextHeartbeat then (s, []) else
    var p := s.receiver.value.(heartbeat := s.receiver.value.heartbeat + 1, nextHeartbeat := now + HEARTBEAT_INTERVAL);
    SendTo(s.(receiver := Some(p)), Receiver,
           NoticeHeartbeat(p.heartbeat, Min(now + PEER_ACTIVITY_TIMEOUT, s.absoluteDeadline)))
  }

  // One session's share of a timer tick; `None` is a deleted session.
  function TickSession(s: Session, now: Time, late: Time): (Option<Session>, seq<Action>) {
    match Overdue(s, now, late)
    case Gone(actions) => (None, actions)
    case Detached(t, actions) => (Some(t), actions)
    case Stays(t) =>
      var (u, first) := BeatOwner(t, now);
      var (v, second) := BeatReceiver(u, now);
      (Some(v), first + second)
  }

  function OwnerStateFailure(s: Session, reason: Reason): Outcome {
    Outcome(None, false, reason, Revoke(s, reason, true))
  }

  function ReceiverFailure(s: Session, result: Reason, reason: Reason, now: Time): Outcome {
    var (t, actions) := DetachReceiver(s, reason, true, now);
    Outcome(Some(t), false, result, actions)
  }

  function Forward(s: Session, role: Role, notice: Notice, now: Time): Outcome {
    var (t, actions) := SendTo(s, role, notice);
    if actions != [] then Outcome(Some(t), true, SignalForwarded, actions)
    else if role == Owner then OwnerStateFailure(s, SignalDestinationMissing)
    else ReceiverFailure(s, SignalDestinationMissing, SignalDestinationMissing, now)
  }

  function OpenJoin(s: Session, capability: string, now: Time): Outcome {
    if s.phase != OwnerOnly || s.receiver.Some? || s.joinHash.Some? then OwnerStateFailure(s, CreateJoinStateInvalid)
    else
      var expires := Min(now + JOIN_CAPABILITY_LIFETIME, s.absoluteDeadline);
      var open := s.(joinHash := Some(Digest(JoinKey, s.id, capability)), joinExpires := Some(expires),
                       phase := JoinOpen, phaseDeadline := Some(expires));
      var (t, actions) := SendTo(open, Owner, NoticeJoinCreated(capability, expires));
      Outcome(Some(t), true, JoinCreated, actions)
  }

  function Answer(s: Session, sdp: string, restart: bool, now: Time): Outcome {
    if s.receiver.None?
       || (if restart then s.phase != Connected || !s.restartPending
           else s.phase != JoinReserved || !s.offerSeen || s.answerSeen)
    then OwnerStateFailure(s, OwnerAnswerStateInvalid)
    else if restart then
      Forward(s.(restartPending := false), Receiver, NoticeOwnerRestartAnswer(sdp), now)
    else
      Forward(s.(answerSeen := true, phase := Connected, phaseDeadline := None), Receiver, NoticeOwnerAnswer(sdp), now)
  }

  function IceChange(s: Session, state: IceState, now: Time): Outcome {
    if s.receiver.None? || s.phase != Connected then OwnerStateFailure(s, ReceiverIceStateInvalid)
    else match state
      case IceConnected => Outcome(Some(s.(iceDeadline := None)), true, IceConnectedOk, [])
      case IceDisconnected =>
        Outcome(Some(s.(iceDeadline := Some(Min(now + ICE_DISCONNECTED_GRACE, s.absoluteDeadline)))),
                true, IceDisconnectedGrace, [])
      case _ =>
        var (t, actions) := DetachReceiver(s, if state.IceFailed? then IceFailedReason else IceClosedReason, true, now);
        Outcome(Some(t), true, ReceiverDisconnectedOk, actions)
  }

  function AckHeartbeat(s: Session, role: Role, heartbeat: nat, now: Time): Outcome {
    var peer := if role == Owner then Some(s.owner) else s.receiver;
    if peer.None? || heartbeat != peer.value.heartbeat || heartbeat == 0 then
      if role == Owner then OwnerStateFailure(s, HeartbeatAckInvalid)
      else ReceiverFailure(s, HeartbeatAckInvalid, HeartbeatAckInvalid, now)
    else Outcome(Some(s), true, HeartbeatAcknowledged, [])
  }

  predicate OwnerMatches(s: Session, b: Binding) {
    b == Binding(s.owner.connectionId, Owner, s.id, s.owner.generation)
  }

  predicate ReceiverMatches(s: Session, b: Binding) {
    s.receiver.Some? && b == Binding(s.receiver.value.connectionId, Receiver, s.id, s.receiver.value.generation)
  }

  predicate OwnerAdmits(s: Session, b: Binding, m: Message) {
    && OwnerMatches(s, b)
    && m.body.HasOwnerCapability()
    && m.body.sessionId == s.id
    && s.ownerHash == Digest(OwnerKey, s.id, m.body.ownerCapability)
    && m.sequence == s.owner.expectedClient
  }

  predicate ReceiverAdmits(s: Session, b: Binding, m: Message) {
    && ReceiverMatches(s, b)
    && !m.body.CreateSession?
    && !m.body.HasOwnerCapability()
    && m.body.sessionId == s.id
    && m.sequence == s.receiver.value.expectedClient
  }

  function OwnerMessage(s: Session, b: Binding, m: Message, clock: Clock, capability: string): Outcome {
    match Overdue(s, clock.check, clock.act)
    case Gone(actions) => Outcome(None, false, SessionExpiredReason, actions)
    case Detached(t, actions) => Outcome(Some(t), false, SessionExpiredReason, actions)
    case Stays(t) =>
      if !OwnerAdmits(t, b, m) then
        Outcome(None, false, AuthenticationFailed, Revoke(t, OwnerProtocolFailure, true))
      else
        OwnerRequest(t.(owner := t.owner.(expectedClient := t.owner.expectedClient + 1, lastActivity := clock.act)),
                     m.body, clock.late, capability)
  }

  function OwnerRequest(s: Session, body: Body, now: Time, capability: string): Outcome {
    match body
    case CreateJoin(_, _) => OpenJoin(s, capability, now)
    case OwnerAnswer(_, _, sdp) => Answer(s, sdp, false, now)
    case OwnerRestartAnswer(_, _, sdp) => Answer(s, sdp, true, now)
    case OwnerCandidate(_, _, candidate) =>
      if s.receiver.None? || !s.offerSeen then OwnerStateFailure(s, OwnerCandidateStateInvalid)
      else Forward(s, Receiver, NoticeOwnerCandidate(candidate), now)
    case OwnerHeartbeatAck(_, _, heartbeat) => AckHeartbeat(s, Owner, heartbeat, now)
    case OwnerStop(_, _) => Outcome(None, true, SessionRevokedOk, Revoke(s, OwnerStopped, true))
    case OwnerRevoke(_, _) => Outcome(None, true, SessionRevokedOk, Revoke(s, OwnerRevoked, true))
    case _ => Outcome(None, false, OwnerMessageInvalid, Revoke(s, OwnerRoleConfusion, true))
  }

  function ReceiverMessage(s: Session, b: Binding, m: Message, clock: Clock): Outcome {
    match Overdue(s, clock.check, clock.act)
    case Gone(actions) => Outcome(None, false, SessionExpiredReason, actions)
    case Detached(t, actions) => Outcome(Some(t), false, SessionExpiredReason, actions)
    case Stays(t) =>
      if !ReceiverAdmits(t, b, m) then ReceiverFailure(t, AuthenticationFailed, ReceiverProtocolFailure, clock.act)
      else
        var peer := t.receiver.value;
        ReceiverRequest(t.(receiver := Some(peer.(expectedClient := peer.expectedClient + 1,
                                                  lastActivity := clock.act))),
                        m.body, clock.late)
  }

  function ReceiverRequest(s: Session, body: Body, now: Time): Outcome {
    match body
    case ReceiverOffer(_, sdp) =>
      if s.phase != JoinReserved || s.offerSeen then
        ReceiverFailure(s, ReceiverMessageInvalid, ReceiverRoleOrStateInvalid, now)
      else Forward(s.(offerSeen := true), Owner, NoticeReceiverOffer(sdp), now)
    case ReceiverRestartOffer(_, sdp) =>
      if s.phase != Connected || s.restartPending then
        ReceiverFailure(s, ReceiverMessageInvalid, ReceiverRoleOrStateInvalid, now)
      else Forward(s.(restartPending := true), Owner, NoticeReceiverRestartOffer(sdp), now)
    case ReceiverCandidate(_, candidate) =>
      if !s.offerSeen then ReceiverFailure(s, ReceiverMessageInvalid, ReceiverRoleOrStateInvalid, now)
      else Forward(s, Owner, NoticeReceiverCandidate(candidate), now)
    case ReceiverHeartbeatAck(_, heartbeat) => AckHeartbeat(s, Receiver, heartbeat, now)
    case ReceiverIce(_, state) => IceChange(s, state, now)
    case _ => ReceiverFailure(s, ReceiverMessageInvalid, ReceiverRoleOrStateInvalid, now)
  }
}
