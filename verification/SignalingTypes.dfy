/** Values exchanged with and kept by the signaling session store.
    Messages are taken after field validation; capability digests are symbolic. */
module SignalingTypes {
  import opened Common

  // Milliseconds read from a monotonic clock.
  type Time = real

  const JOIN_CAPABILITY_LIFETIME: Time := 600000.0
  const OWNER_ONLY_LIFETIME: Time := 900000.0
  const JOIN_RESERVATION_LIFETIME: Time := 30000.0
  const ICE_DISCONNECTED_GRACE: Time := 5000.0
  const ABSOLUTE_SESSION_LIFETIME: Time := 28800000.0
  const HEARTBEAT_INTERVAL: Time := 2000.0
  const PEER_ACTIVITY_TIMEOUT: Time := 5000.0

  const MAX_SAFE_INTEGER: nat := 9007199254740991

  function Min(a: Time, b: Time): Time { if a <= b then a else b }

  datatype Phase = OwnerOnly | JoinOpen | JoinReserved | Connected
  datatype Role = Owner | Receiver
  datatype Binding = Binding(connectionId: nat, role: Role, sessionId: string, generation: nat)

  // A keyed hash, taken to be injective: a digest is the tuple it was computed from.
  datatype DigestRole = OwnerKey | JoinKey
  datatype Digest = Digest(role: DigestRole, sessionId: string, capability: string)

  datatype IceState = IceConnected | IceDisconnected | IceFailed | IceClosed

  datatype Body =
    | CreateSession
    | ReserveJoin(sessionId: string, joinCapability: string)
    | CreateJoin(sessionId: string, ownerCapability: string)
    | OwnerAnswer(sessionId: string, ownerCapability: string, sdp: string)
    | OwnerRestartAnswer(sessionId: string, ownerCapability: string, sdp: string)
    | OwnerCandidate(sessionId: string, ownerCapability: string, candidate: string)
    | OwnerStop(sessionId: string, ownerCapability: string)
    | OwnerRevoke(sessionId: string, ownerCapability: string)
    | OwnerHeartbeatAck(sessionId: string, ownerCapability: string, heartbeat: nat)
    | ReceiverOffer(sessionId: string, sdp: string)
    | ReceiverRestartOffer(sessionId: string, sdp: string)
    | ReceiverCandidate(sessionId: string, candidate: string)
    | ReceiverHeartbeatAck(sessionId: string, heartbeat: nat)
    | ReceiverIce(sessionId: string, iceState: IceState)
  {
    predicate HasOwnerCapability() {
      CreateJoin? || OwnerAnswer? || OwnerRestartAnswer? || OwnerCandidate? || OwnerStop? || OwnerRevoke?
      || OwnerHeartbeatAck?
    }
  }

  datatype Message = Message(sequence: nat, body: Body)

  datatype Reason =
    | AuthenticationFailed | SessionCreationRejected | SessionCreated | JoinCreated | JoinReservedOk
    | SignalForwarded | SessionExpiredReason | SessionRevokedOk | HeartbeatAcknowledged
    | IceConnectedOk | IceDisconnectedGrace | ReceiverDisconnectedOk
    | OwnerMessageInvalid | ReceiverMessageInvalid
    | AbsoluteExpiry | OwnerHeartbeatTimeout | OwnerOnlyExpiry | JoinReservationTimeout
    | ReceiverHeartbeatTimeout | IceDisconnectedTimeout
    | OwnerProtocolFailure | ReceiverProtocolFailure | OwnerRoleConfusion | ReceiverRoleOrStateInvalid
    | CreateJoinStateInvalid | OwnerAnswerStateInvalid | OwnerCandidateStateInvalid
    | ReceiverIceStateInvalid | HeartbeatAckInvalid | SignalDestinationMissing
    | OwnerStopped | OwnerRevoked | IceFailedReason | IceClosedReason
    | External(text: string)

  datatype Notice =
    | NoticeSessionCreated(ownerCapability: string, absoluteDeadline: Time)
    | NoticeJoinCreated(joinCapability: string, joinExpires: Time)
    | NoticeJoinReserved(reservationDeadline: Option<Time>)
    | NoticeReceiverReserved
    | NoticeReceiverOffer(sdp: string)
    | NoticeReceiverRestartOffer(sdp: string)
    | NoticeReceiverCandidate(candidate: string)
    | NoticeOwnerAnswer(sdp: string)
    | NoticeOwnerRestartAnswer(sdp: string)
    | NoticeOwnerCandidate(candidate: string)
    | NoticeHeartbeat(heartbeat: nat, deadline: Time)
    | NoticeReceiverDisconnected(reason: Reason)
    | NoticeSessionRevoked(reason: Reason)
    | NoticeSessionExpired(reason: Reason)

  datatype Envelope = Envelope(sessionId: string, sequence: nat, notice: Notice)

  datatype Action =
    | Send(connectionId: nat, envelope: Envelope)
    | Close(connectionId: nat, reason: Reason)

  datatype Peer = Peer(
    connectionId: nat,
    generation: nat,
    expectedClient: nat,
    nextServer: nat,
    lastActivity: Time,
    nextHeartbeat: Time,
    heartbeat: nat)

  datatype Session = Session(
    id: string,
    phase: Phase,
    createdAt: Time,
    absoluteDeadline: Time,
    phaseDeadline: Option<Time>,
    joinExpires: Option<Time>,
    ownerHash: Digest,
    joinHash: Option<Digest>,
    owner: Peer,
    receiver: Option<Peer>,
    offerSeen: bool,
    answerSeen: bool,
    restartPending: bool,
    iceDeadline: Option<Time>)

  // The clock readings one message can take, in the order the code takes them.
  datatype Clock = Clock(check: Time, act: Time, late: Time) {
    predicate Ordered() { check <= act <= late }
  }

  // What one message does to one session; `None` is a session deleted from the store.
  datatype Outcome = Outcome(session: Option<Session>, accepted: bool, reason: Reason, actions: seq<Action>)
}
