/** The session store as a function of its value: what `handle`, `disconnect` and `tick` leave
    behind and answer. Clock readings and random draws are arguments. */
module StoreSpec {
  import opened Common
  import opened SignalingTypes
  import opened SessionTransitions

  datatype Store = Store(sessions: map<string, Session>, nextGeneration: nat, maximum: nat)

  // `Thrown` is an exception escaping the call; the store keeps what was written before it.
  datatype Response =
    | Response(accepted: bool, reason: Reason, binding: Option<Binding>, actions: seq<Action>)
    | Thrown

  const ID_ATTEMPTS: nat := 16

  // The identifiers the generator would try in turn, and the capability it would draw.
  datatype Entropy = Entropy(ids: seq<string>, capability: string)

  datatype Event =
    | Arrival(connectionId: nat, binding: Option<Binding>, message: Message, clock: Clock, entropy: Entropy)
    | Departure(left: Binding, cause: Reason, at: Time)
    | Timer(now: Time, order: seq<string>, late: map<string, Time>)

  function Empty(maximum: nat): Store { Store(map[], 1, maximum) }

  // Write one record back, or delete it.
  function Settle(st: Store, id: string, after: Option<Session>): Store {
    st.(sessions := if after.Some? then st.sessions[id := after.value] else st.sessions - {id})
  }

  function FirstFree(ids: seq<string>, taken: set<string>): Option<string> {
    if ids == [] then None
    else if ids[0] !in taken then Some(ids[0])
    else FirstFree(ids[1..], taken)
  }

  function Refused(reason: Reason): Response { Response(false, reason, None, []) }

  function Created(st: Store, connectionId: nat, id: string, capability: string, now: Time): (Session, seq<Action>) {
    var s := Session(id, OwnerOnly, now, now + ABSOLUTE_SESSION_LIFETIME, Some(now + OWNER_ONLY_LIFETIME), None,
                     Digest(OwnerKey, id, capability), None, NewPeer(connectionId, st.nextGeneration, 2, now), None,
                     false, false, false, None);
    SendTo(s, Owner, NoticeSessionCreated(capability, s.absoluteDeadline))
  }

  function HandleCreate(st: Store, connectionId: nat, m: Message, now: Time, e: Entropy): (Store, Response) {
    if m.sequence != 1 || |st.sessions| >= st.maximum then (st, Refused(SessionCreationRejected))
    else
      var id := FirstFree(e.ids, st.sessions.Keys);
      if id.None? || st.nextGeneration >= MAX_SAFE_INTEGER then (st, Thrown)
      else
        var (s, actions) := Created(st, connectionId, id.value, e.capability, now);
        (Settle(st, id.value, Some(s)).(nextGeneration := st.nextGeneration + 1),
         Response(true, SessionCreated, Some(Binding(connectionId, Owner, id.value, st.nextGeneration)), actions))
  }

  predicate ReserveAdmits(st: Store, m: Message, now: Time)
    requires m.body.ReserveJoin?
  {
    && m.sequence == 1
    && m.body.sessionId in st.sessions
    && var s := st.sessions[m.body.sessionId];
    && s.phase == JoinOpen
    && s.receiver.None?
    && s.joinHash.Some?
    && s.joinExpires.Some?
    && now < s.joinExpires.value
    && now < s.absoluteDeadline
    && !Passed(s.phaseDeadline, now)
    && s.joinHash.value == Digest(JoinKey, m.body.sessionId, m.body.joinCapability)
  }

  // The record as written before a generation is drawn.
  function Consumed(s: Session, now: Time): Session {
    s.(joinHash := None, joinExpires := None, phase := JoinReserved,
       phaseDeadline := Some(Min(now + JOIN_RESERVATION_LIFETIME, s.absoluteDeadline)))
  }

  function Seated(s: Session, connectionId: nat, generation: nat, now: Time): (Session, seq<Action>) {
    var seat := Consumed(s, now).(receiver := Some(NewPeer(connectionId, generation, 2, now)),
                                  offerSeen := false, answerSeen := false, restartPending := false);
    var (t, first) := SendTo(seat, Receiver, NoticeJoinReserved(seat.phaseDeadline));
    var (u, second) := SendTo(t, Owner, NoticeReceiverReserved);
    (u, first + second)
  }

  function HandleReserve(st: Store, connectionId: nat, m: Message, now: Time): (Store, Response)
    requires m.body.ReserveJoin?
  {
    if !ReserveAdmits(st, m, now) then (st, Refused(AuthenticationFailed))
    else
      var id := m.body.sessionId;
      var s := st.sessions[id];
      if st.nextGeneration >= MAX_SAFE_INTEGER then (Settle(st, id, Some(Consumed(s, now))), Thrown)
      else
        var (t, actions) := Seated(s, connectionId, st.nextGeneration, now);
        (Settle(st, id, Some(t)).(nextGeneration := st.nextGeneration + 1),
         Response(true, JoinReservedOk, Some(Binding(connectionId, Receiver, s.id, st.nextGeneration)), actions))
  }

  function HandleBound(st: Store, b: Binding, m: Message, clock: Clock, e: Entropy): (Store, Response) {
    if b.sessionId !in st.sessions then (st, Refused(AuthenticationFailed))
    else
      var s := st.sessions[b.sessionId];
      var o := if b.role == Owner then OwnerMessage(s, b, m, clock, e.capability) else ReceiverMessage(s, b, m, clock);
      (Settle(st, b.sessionId, o.session), Response(o.accepted, o.reason, None, o.actions))
  }

  function Handle(st: Store, connectionId: nat, binding: Option<Binding>, m: Message, clock: Clock, e: Entropy)
    : (Store, Response)
  {
    if binding.Some? then HandleBound(st, binding.value, m, clock, e)
    else if m.body.CreateSession? then HandleCreate(st, connectionId, m, clock.check, e)
    else if m.body.ReserveJoin? then HandleReserve(st, connectionId, m, clock.check)
    else (st, Refused(AuthenticationFailed))
  }

  predicate Matches(st: Store, b: Binding) {
    && b.sessionId in st.sessions
    && (if b.role == Owner then OwnerMatches(st.sessions[b.sessionId], b)
        else ReceiverMatches(st.sessions[b.sessionId], b))
  }

  function Disconnect(st: Store, b: Binding, reason: Reason, now: Time): (Store, seq<Action>) {
    if !Matches(st, b) then (st, [])
    else
      var s := st.sessions[b.sessionId];
      if b.role == Owner then (Settle(st, b.sessionId, None), Revoke(s, reason, false))
      else
        var (t, actions) := DetachReceiver(s, reason, false, now);
        (Settle(st, b.sessionId, Some(t)), actions)
  }

  function TickOne(st: Store, id: string, now: Time, late: Time): (Store, seq<Action>)
    requires id in st.sessions
  {
    var (after, actions) := TickSession(st.sessions[id], now, late);
    (Settle(st, id, after), actions)
  }

  // The sessions named in `order`, one after the other.
  function TickPass(st: Store, order: seq<string>, now: Time, late: map<string, Time>): (Store, seq<Action>) {
    if order == [] then (st, [])
    else
      var (mid, before) := TickPass(st, order[..|order| - 1], now, late);
      var id := order[|order| - 1];
      if id !in mid.sessions || id !in late then (mid, before)
      else
        var (after, actions) := TickOne(mid, id, now, late[id]);
        (after, before + actions)
  }

  ghost predicate Enumerates(order: seq<string>, ids: set<string>) {
    && (forall i, j :: 0 <= i < j < |order| ==> order[i] != order[j])
    && (forall id :: id in order <==> id in ids)
  }

  // A timer pass visits every session once, in some order; its later clock readings are not earlier.
  ghost predicate TimerReady(st: Store, now: Time, order: seq<string>, late: map<string, Time>) {
    && Enumerates(order, st.sessions.Keys)
    && late.Keys == st.sessions.Keys
    && forall id :: id in late ==> now <= late[id]
  }

  ghost predicate Admissible(st: Store, e: Event) {
    match e
    case Arrival(_, _, _, clock, _) => clock.Ordered()
    case Departure(_, _, _) => true
    case Timer(now, order, late) => TimerReady(st, now, order, late)
  }

  function Apply(st: Store, e: Event): (Store, Response) {
    match e
    case Arrival(c, b, m, clock, entropy) => Handle(st, c, b, m, clock, entropy)
    case Departure(b, reason, now) =>
      var (after, actions) := Disconnect(st, b, reason, now);
      (after, Response(true, reason, None, actions))
    case Timer(now, order, late) =>
      var (after, actions) := TickPass(st, order, now, late);
      (after, Response(true, SignalForwarded, None, actions))
  }
}
