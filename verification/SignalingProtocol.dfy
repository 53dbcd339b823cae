/** The store, the server's dispatch and any number of receiver clients joined by lossless first-in first-out
    sockets, on runs in which no send meets backpressure. Owners and strangers may send anything. */
module SignalingProtocol {
  import opened Common
  import opened SignalingTypes
  import opened SessionTransitions
  import opened StoreSpec
  import opened StoreInvariant

  // A page running the receiver script, or any other client.
  datatype Client =
    | ReceiverClient(sessionId: string, clientSequence: nat, serverSequence: nat, ended: bool)
    | OtherClient

  // One socket: `up` and `down` are the messages in flight. `open` is cleared when the server closes the
  // socket (it then sends no more), `gone` is set once the close event has removed the connection.
  datatype Link = Link(binding: Option<Binding>, open: bool, gone: bool, up: seq<Message>, down: seq<Envelope>,
                       client: Client)

  datatype World = World(store: Store, links: map<nat, Link>)

  datatype Move =
    | Connect(c: nat, client: Client)
    | ClientSends(c: nat, body: Body)
    | OtherSends(c: nat, message: Message)
    | ServerReads(c: nat, clock: Clock, entropy: Entropy)
    | ServerFails(c: nat, drop: bool, cause: Reason, at: Time)
    | ServerCloses(c: nat)
    | SocketClosed(c: nat, at: Time)
    | ServerTicks(now: Time, order: seq<string>, late: map<string, Time>)
    | ClientReads(c: nat)
    | ClientEnds(c: nat)

  function Start(maximum: nat): World { World(Empty(maximum), map[]) }

  // -------- the server --------

  function DispatchOne(links: map<nat, Link>, a: Action): map<nat, Link> {
    if a.connectionId !in links || links[a.connectionId].gone then links
    else
      var l := links[a.connectionId];
      match a
      case Close(c, _) => links[c := l.(open := false)]
      case Send(c, e) => if l.open then links[c := l.(down := l.down + [e])] else links
  }

  function Dispatch(links: map<nat, Link>, actions: seq<Action>): map<nat, Link> {
    if actions == [] then links
    else DispatchOne(Dispatch(links, actions[..|actions| - 1]), actions[|actions| - 1])
  }

  function Shut(links: map<nat, Link>, c: nat): map<nat, Link>
    requires c in links
  {
    links[c := links[c].(open := false)]
  }

  // -------- the receiver script --------

  predicate ClientAccepts(client: Client, e: Envelope)
    requires client.ReceiverClient?
  {
    e.sessionId == client.sessionId && e.sequence == client.serverSequence + 1
  }

  // The message types after which the script goes on.
  predicate Serves(n: Notice) {
    n.NoticeJoinReserved? || n.NoticeOwnerAnswer? || n.NoticeOwnerRestartAnswer? || n.NoticeOwnerCandidate?
    || n.NoticeHeartbeat?
  }

  function ClientTakes(client: Client, e: Envelope): Client {
    if client.OtherClient? then client
    else if !ClientAccepts(client, e) then client.(ended := true)
    else client.(serverSequence := e.sequence, ended := client.ended || !Serves(e.notice))
  }

  // The script opens with RESERVE_JOIN and sends only receiver messages of its own session afterwards.
  predicate ClientMay(client: Client, body: Body) {
    && client.ReceiverClient? && !client.ended
    && !body.CreateSession? && !body.HasOwnerCapability()
    && body.sessionId == client.sessionId
    && (body.ReserveJoin? <==> client.clientSequence == 0)
  }

  ghost predicate Enabled(w: World, move: Move) {
    match move
    case Connect(c, client) =>
      c !in w.links
      && (client.ReceiverClient? ==> client.clientSequence == 0 && client.serverSequence == 0 && !client.ended)
    case ClientSends(c, body) => c in w.links && ClientMay(w.links[c].client, body)
    case OtherSends(c, _) => c in w.links && w.links[c].client.OtherClient?
    case ServerReads(c, clock, e) =>
      && c in w.links && !w.links[c].gone && w.links[c].up != [] && clock.Ordered()
      && Handle(w.store, c, w.links[c].binding, w.links[c].up[0], clock, e).1.Response?
    case ServerFails(c, drop, _, _) => c in w.links && !w.links[c].gone && (drop ==> w.links[c].up != [])
    case ServerCloses(c) => c in w.links
    case SocketClosed(c, _) => c in w.links && !w.links[c].gone
    case ServerTicks(now, order, late) => TimerReady(w.store, now, order, late)
    case ClientReads(c) => c in w.links && w.links[c].down != []
    case ClientEnds(c) => c in w.links && w.links[c].client.ReceiverClient?
  }

  // The connection leaves: its binding is disconnected and the resulting actions are dispatched.
  function Drop(w: World, links: map<nat, Link>, c: nat, reason: Reason, now: Time): World
    requires c in links
  {
    if links[c].binding.None? then World(w.store, links)
    else
      var (store, actions) := Disconnect(w.store, links[c].binding.value, reason, now);
      World(store, Dispatch(links, actions))
  }

  lemma DispatchKeys(links: map<nat, Link>, actions: seq<Action>)
    ensures Dispatch(links, actions).Keys == links.Keys
  {}

  function Take(l: Link): Link
    requires l.up != []
  {
    l.(up := l.up[1..])
  }

  function Read(w: World, c: nat, clock: Clock, e: Entropy): World
    requires c in w.links && w.links[c].up != []
    requires Handle(w.store, c, w.links[c].binding, w.links[c].up[0], clock, e).1.Response?
  {
    var l := w.links[c];
    var (store, r) := Handle(w.store, c, l.binding, l.up[0], clock, e);
    var bound := Take(l).(binding := if r.binding.Some? then r.binding else l.binding);
    var links := Dispatch(w.links[c := bound], r.actions);
    DispatchKeys(w.links[c := bound], r.actions);
    World(store, if r.accepted then links else Shut(links, c))
  }

  ghost function After(w: World, move: Move): World
    requires Enabled(w, move)
  {
    match move
    case Connect(c, client) => World(w.store, w.links[c := Link(None, true, false, [], [], client)])
    case ClientSends(c, body) =>
      var l := w.links[c];
      var n := l.client.clientSequence + 1;
      World(w.store, w.links[c := l.(client := l.client.(clientSequence := n),
                                     up := if l.gone then l.up else l.up + [Message(n, body)])])
    case OtherSends(c, m) => World(w.store, w.links[c := w.links[c].(up := w.links[c].up + [m])])
    case ServerReads(c, clock, e) => Read(w, c, clock, e)
    case ServerFails(c, drop, reason, now) =>
      var links := if drop then w.links[c := Take(w.links[c])] else w.links;
      var after := Drop(w, links, c, reason, now);
      DispatchKeys(links, if links[c].binding.None? then []
                   else Disconnect(w.store, links[c].binding.value, reason, now).1);
      World(after.store, Shut(after.links, c))
    case ServerCloses(c) => World(w.store, Shut(w.links, c))
    case SocketClosed(c, now) =>
      Drop(w, w.links[c := w.links[c].(gone := true, open := false, up := [])], c, External("SIGNALING_CLOSED"), now)
    case ServerTicks(now, order, late) =>
      var (store, actions) := TickPass(w.store, order, now, late);
      World(store, Dispatch(w.links, actions))
    case ClientReads(c) =>
      var l := w.links[c];
      World(w.store, w.links[c := l.(down := l.down[1..], client := ClientTakes(l.client, l.down[0]))])
    case ClientEnds(c) => World(w.store, w.links[c := w.links[c].(client := w.links[c].client.(ended := true))])
  }

  // -------- the invariant --------

  // What holds of a socket whatever the store says of it.
  ghost predicate LinkOk(c: nat, l: Link, next: nat) {
    && (l.binding.Some? ==> l.binding.value.connectionId == c && l.binding.value.generation < next)
    && (l.client.ReceiverClient? ==>
          && (l.binding.Some? ==> l.binding.value.role == Receiver && l.binding.value.sessionId == l.client.sessionId)
          && (l.binding.None? ==> l.down == [] && l.client.serverSequence == 0)
          && (forall i :: 0 <= i < |l.down| ==>
                l.down[i].sequence == l.client.serverSequence + 1 + i && l.down[i].sessionId == l.client.sessionId)
          && (l.gone ==> l.up == [])
          && |l.up| <= l.client.clientSequence
          && (forall i :: 0 <= i < |l.up| ==> l.up[i].sequence == l.client.clientSequence - |l.up| + 1 + i)
          && (forall i :: 0 <= i < |l.up| ==>
                && !l.up[i].body.CreateSession? && !l.up[i].body.HasOwnerCapability()
                && l.up[i].body.sessionId == l.client.sessionId))
  }

  // What is in flight down to the receiver ends at the last number the store used.
  ghost predicate DownSynced(l: Link, nextServer: nat) {
    l.client.ReceiverClient? && l.open ==> l.client.serverSequence + |l.down| + 1 == nextServer
  }

  // What is in flight up from the receiver starts at the number the store expects.
  ghost predicate UpSynced(l: Link, expected: nat) {
    l.client.ReceiverClient? ==> l.client.clientSequence - |l.up| + 1 == expected
  }

  ghost predicate OwnerLinked(links: map<nat, Link>, s: Session) {
    && s.owner.connectionId in links
    && !links[s.owner.connectionId].gone
    && links[s.owner.connectionId].binding == Some(Binding(s.owner.connectionId, Owner, s.id, s.owner.generation))
  }

  ghost predicate ReceiverLinked(links: map<nat, Link>, s: Session) {
    s.receiver.Some? ==>
      var r := s.receiver.value;
      && r.connectionId in links
      && !links[r.connectionId].gone
      && links[r.connectionId].binding == Some(Binding(r.connectionId, Receiver, s.id, r.generation))
      && DownSynced(links[r.connectionId], r.nextServer)
  }

  ghost predicate ReceiverHeard(links: map<nat, Link>, s: Session) {
    s.receiver.Some? ==>
      && s.receiver.value.connectionId in links
      && UpSynced(links[s.receiver.value.connectionId], s.receiver.value.expectedClient)
  }

  ghost predicate SessionOk(links: map<nat, Link>, s: Session) {
    OwnerLinked(links, s) && ReceiverLinked(links, s) && ReceiverHeard(links, s)
  }

  ghost predicate Linked(w: World) {
    && Valid(w.store)
    && (forall c :: c in w.links ==> LinkOk(c, w.links[c], w.store.nextGeneration))
    && (forall id :: id in w.store.sessions ==> SessionOk(w.links, w.store.sessions[id]))
  }

  // -------- what one session's actions do to the sockets --------

  function SendsTo(actions: seq<Action>, c: nat): seq<Envelope> {
    if actions == [] then []
    else
      var before := SendsTo(actions[..|actions| - 1], c);
      var a := actions[|actions| - 1];
      if a.Send? && a.connectionId == c then before + [a.envelope] else before
  }

  lemma {:induction false} SendsToAppend(xs: seq<Action>, ys: seq<Action>, c: nat)
    ensures SendsTo(xs + ys, c) == SendsTo(xs, c) + SendsTo(ys, c)
  {
    if ys == [] {
      assert xs + ys == xs;
    } else {
      var n := |ys| - 1;
      assert (xs + ys)[..|xs + ys| - 1] == xs + ys[..n];
      SendsToAppend(xs, ys[..n], c);
    }
  }

  lemma SendsToOne(a: Action, c: nat)
    ensures SendsTo([a], c) == if a.Send? && a.connectionId == c then [a.envelope] else []
  {
    assert [a][..0] == [];
  }

  lemma {:induction false} SendsToNobody(actions: seq<Action>, c: nat)
    requires forall i :: 0 <= i < |actions| ==> actions[i].connectionId != c
    ensures SendsTo(actions, c) == []
  {
    if actions != [] {
      SendsToNobody(actions[..|actions| - 1], c);
    }
  }

  /** Dispatching appends to each open socket exactly the sends addressed to it, and nothing once it is closed. */
  lemma {:induction false} DispatchEffect(links: map<nat, Link>, actions: seq<Action>, c: nat)
    requires c in links
    ensures c in Dispatch(links, actions)
    ensures var l, l' := links[c], Dispatch(links, actions)[c];
            && l' == l.(open := l'.open, down := l'.down)
            && (l'.open ==> l.open)
            && l.down <= l'.down <= l.down + SendsTo(actions, c)
            && (l'.open && !l.gone ==> l'.down == l.down + SendsTo(actions, c))
  {
    if actions != [] {
      DispatchEffect(links, actions[..|actions| - 1], c);
    }
  }

  lemma {:induction false} DispatchAppend(links: map<nat, Link>, xs: seq<Action>, ys: seq<Action>)
    ensures Dispatch(links, xs + ys) == Dispatch(Dispatch(links, xs), ys)
  {
    if ys == [] {
      assert xs + ys == xs;
    } else {
      var n := |ys| - 1;
      assert (xs + ys)[..|xs + ys| - 1] == xs + ys[..n];
      DispatchAppend(links, xs, ys[..n]);
    }
  }

  // A transition of one session speaks only to its own peers, and gives the receiver at most one message,
  // bearing the receiver's next number.
  ghost predicate Numbered(s: Session, after: Option<Session>, actions: seq<Action>) {
    && (forall i :: 0 <= i < |actions| ==>
          || actions[i].connectionId == s.owner.connectionId
          || (s.receiver.Some? && actions[i].connectionId == s.receiver.value.connectionId))
    && (s.receiver.Some? ==>
          var r := s.receiver.value;
          var sent := SendsTo(actions, r.connectionId);
          && |sent| <= 1
          && (|sent| == 1 ==> sent[0].sequence == r.nextServer && sent[0].sessionId == s.id)
          && (after.Some? && after.value.receiver.Some? ==>
                after.value.receiver.value.nextServer == r.nextServer + |sent|))
  }

  ghost predicate Apart(s: Session) {
    s.receiver.Some? ==> s.receiver.value.connectionId != s.owner.connectionId
  }

  lemma {:induction false} SendsToClosers(actions: seq<Action>, c: nat)
    requires forall i :: 0 <= i < |actions| && actions[i].Send? ==> actions[i].connectionId != c
    ensures SendsTo(actions, c) == []
  {
    if actions != [] {
      SendsToClosers(actions[..|actions| - 1], c);
    }
  }

  // No send to `c` at all, or only the one at position `at`.
  ghost predicate OnlySend(actions: seq<Action>, c: nat, at: int) {
    && -1 <= at < |actions|
    && (at >= 0 ==> actions[at].Send? && actions[at].connectionId == c)
    && (forall i :: 0 <= i < |actions| && i != at && actions[i].Send? ==> actions[i].connectionId != c)
  }

  lemma OnlySendCounts(actions: seq<Action>, c: nat, at: int)
    requires OnlySend(actions, c, at)
    ensures SendsTo(actions, c) == if at < 0 then [] else [actions[at].envelope]
  {
    if at < 0 {
      SendsToClosers(actions, c);
    } else {
      assert actions == actions[..at] + ([actions[at]] + actions[at + 1..]);
      SendsToAppend(actions[..at], [actions[at]] + actions[at + 1..], c);
      SendsToAppend([actions[at]], actions[at + 1..], c);
      SendsToOne(actions[at], c);
      SendsToClosers(actions[..at], c);
      SendsToClosers(actions[at + 1..], c);
    }
  }

  ghost predicate Own(s: Session, actions: seq<Action>) {
    forall i :: 0 <= i < |actions| ==>
      || actions[i].connectionId == s.owner.connectionId
      || (s.receiver.Some? && actions[i].connectionId == s.receiver.value.connectionId)
  }

  // The shape from which `Numbered` follows.
  ghost predicate Shaped(s: Session, after: Option<Session>, actions: seq<Action>, at: int) {
    && Own(s, actions)
    && (s.receiver.Some? ==>
          var r := s.receiver.value;
          && OnlySend(actions, r.connectionId, at)
          && (at >= 0 ==> actions[at].envelope.sequence == r.nextServer && actions[at].envelope.sessionId == s.id)
          && (after.Some? && after.value.receiver.Some? ==>
                after.value.receiver.value.nextServer == r.nextServer + (if at >= 0 then 1 else 0)))
  }

  lemma ShapedNumbered(s: Session, after: Option<Session>, actions: seq<Action>, at: int)
    requires Shaped(s, after, actions, at)
    ensures Numbered(s, after, actions)
  {
    if s.receiver.Some? {
      OnlySendCounts(actions, s.receiver.value.connectionId, at);
    }
  }

  lemma RevokeNumbered(s: Session, reason: Reason, closeOwner: bool)
    requires Apart(s)
    ensures Numbered(s, None, Revoke(s, reason, closeOwner)) && Numbered(s, None, Expire(s, reason))
  {
    ShapedNumbered(s, None, Revoke(s, reason, closeOwner), if s.receiver.Some? then 0 else -1);
    ShapedNumbered(s, None, Expire(s, reason), if s.receiver.Some? then 0 else -1);
  }

  lemma DetachNumbered(s: Session, reason: Reason, close: bool, now: Time)
    requires Apart(s)
    ensures var (t, actions) := DetachReceiver(s, reason, close, now);
            t.receiver.None? && t.id == s.id && Numbered(s, Some(t), actions)
  {
    var (t, actions) := DetachReceiver(s, reason, close, now);
    ShapedNumbered(s, Some(t), actions, -1);
  }

  // The receiver, if it stays, is expected to continue where it was.
  ghost predicate HeardSame(s: Session, after: Option<Session>) {
    after.Some? && after.value.receiver.Some? ==>
      s.receiver.Some? && after.value.receiver.value.expectedClient == s.receiver.value.expectedClient
  }

  // Same peers, so the same actions are numbered.
  lemma SamePeersNumbered(s: Session, t: Session, after: Option<Session>, actions: seq<Action>)
    requires t.id == s.id && t.owner.connectionId == s.owner.connectionId && t.receiver == s.receiver
    requires Numbered(t, after, actions)
    ensures Numbered(s, after, actions)
  {}

  lemma OverdueNumbered(s: Session, now: Time, late: Time)
    requires Apart(s)
    ensures var d := Overdue(s, now, late);
            match d
            case Gone(actions) => Numbered(s, None, actions)
            case Detached(t, actions) => t.receiver.None? && Numbered(s, Some(t), actions)
            case Stays(t) => t.id == s.id && t.owner == s.owner && t.receiver == s.receiver
  {
    hide Revoke, Expire, DetachReceiver, Numbered;
    var t := if s.phase == JoinOpen && Passed(s.joinExpires, now) then ExpireJoin(s, now) else s;
    RevokeNumbered(s, OwnerHeartbeatTimeout, true);
    RevokeNumbered(s, AbsoluteExpiry, true);
    RevokeNumbered(t, OwnerOnlyExpiry, true);
    DetachNumbered(t, JoinReservationTimeout, true, late);
    DetachNumbered(t, ReceiverHeartbeatTimeout, true, late);
    DetachNumbered(t, IceDisconnectedTimeout, true, late);
    var d := Overdue(s, now, late);
    if !d.Stays? {
      SamePeersNumbered(s, t, if d.Gone? then None else Some(d.session), d.actions);
    }
  }

  lemma BeatsNumbered(s: Session, now: Time)
    requires Apart(s)
    ensures var (u, first) := BeatOwner(s, now);
            var (v, second) := BeatReceiver(u, now);
            Numbered(s, Some(v), first + second) && HeardSame(s, Some(v))
  {
    var (u, first) := BeatOwner(s, now);
    var (v, second) := BeatReceiver(u, now);
    ShapedNumbered(s, Some(v), first + second, if second == [] then -1 else |first|);
  }

  lemma TickNumbered(s: Session, now: Time, late: Time)
    requires Apart(s)
    ensures var (after, actions) := TickSession(s, now, late); Numbered(s, after, actions) && HeardSame(s, after)
  {
    hide Overdue, BeatOwner, BeatReceiver, Numbered;
    OverdueNumbered(s, now, late);
    var d := Overdue(s, now, late);
    if d.Stays? {
      var t := d.session;
      BeatsNumbered(t, now);
      var (u, first) := BeatOwner(t, now);
      var (v, second) := BeatReceiver(u, now);
      SamePeersNumbered(s, t, Some(v), first + second);
    }
  }

  lemma ForwardNumbered(s: Session, role: Role, notice: Notice, now: Time)
    requires Apart(s) && (role == Receiver ==> s.receiver.Some?)
    ensures var o := Forward(s, role, notice, now); Numbered(s, o.session, o.actions) && HeardSame(s, o.session)
  {
    var (t, actions) := SendTo(s, role, notice);
    ShapedNumbered(s, Some(t), actions, if role == Receiver then 0 else -1);
  }

  lemma OpenJoinNumbered(s: Session, capability: string, now: Time)
    requires Apart(s)
    ensures var o := OpenJoin(s, capability, now); Numbered(s, o.session, o.actions) && HeardSame(s, o.session)
  {
    RevokeNumbered(s, CreateJoinStateInvalid, true);
    var o := OpenJoin(s, capability, now);
    if o.session.Some? {
      ShapedNumbered(s, o.session, o.actions, -1);
    }
  }

  lemma SilentNumbered(s: Session, after: Session)
    requires Apart(s) && after.receiver == s.receiver
    ensures Numbered(s, Some(after), []) && HeardSame(s, Some(after))
  {
    ShapedNumbered(s, Some(after), [], -1);
  }

  lemma OwnerRequestNumbered(s: Session, body: Body, now: Time, capability: string)
    requires Apart(s)
    ensures var o := OwnerRequest(s, body, now, capability);
            Numbered(s, o.session, o.actions) && HeardSame(s, o.session)
  {
    hide Revoke, Numbered, Forward, OpenJoin;
    forall reason ensures Numbered(s, None, Revoke(s, reason, true)) { RevokeNumbered(s, reason, true); }
    SilentNumbered(s, s);
    match body
    case CreateJoin(_, _) => OpenJoinNumbered(s, capability, now);
    case OwnerAnswer(_, _, sdp) =>
      if s.receiver.Some? {
        var t := s.(answerSeen := true, phase := Connected, phaseDeadline := None);
        ForwardNumbered(t, Receiver, NoticeOwnerAnswer(sdp), now);
        var o := Forward(t, Receiver, NoticeOwnerAnswer(sdp), now);
        SamePeersNumbered(s, t, o.session, o.actions);
      }
    case OwnerRestartAnswer(_, _, sdp) =>
      if s.receiver.Some? {
        var t := s.(restartPending := false);
        ForwardNumbered(t, Receiver, NoticeOwnerRestartAnswer(sdp), now);
        var o := Forward(t, Receiver, NoticeOwnerRestartAnswer(sdp), now);
        SamePeersNumbered(s, t, o.session, o.actions);
      }
    case OwnerCandidate(_, _, candidate) =>
      if s.receiver.Some? {
        ForwardNumbered(s, Receiver, NoticeOwnerCandidate(candidate), now);
      }
    case _ =>
  }

  lemma ReceiverRequestNumbered(s: Session, body: Body, now: Time)
    requires Apart(s) && s.receiver.Some?
    ensures var o := ReceiverRequest(s, body, now); Numbered(s, o.session, o.actions) && HeardSame(s, o.session)
  {
    hide Revoke, Numbered, Forward, DetachReceiver;
    RevokeNumbered(s, ReceiverIceStateInvalid, true);
    forall reason
      ensures var (t, actions) := DetachReceiver(s, reason, true, now);
              t.receiver.None? && Numbered(s, Some(t), actions)
    {
      DetachNumbered(s, reason, true, now);
    }
    match body
    case ReceiverOffer(_, sdp) =>
      var t := s.(offerSeen := true);
      ForwardNumbered(t, Owner, NoticeReceiverOffer(sdp), now);
      var o := Forward(t, Owner, NoticeReceiverOffer(sdp), now);
      SamePeersNumbered(s, t, o.session, o.actions);
    case ReceiverRestartOffer(_, sdp) =>
      var t := s.(restartPending := true);
      ForwardNumbered(t, Owner, NoticeReceiverRestartOffer(sdp), now);
      var o := Forward(t, Owner, NoticeReceiverRestartOffer(sdp), now);
      SamePeersNumbered(s, t, o.session, o.actions);
    case ReceiverCandidate(_, candidate) => ForwardNumbered(s, Owner, NoticeReceiverCandidate(candidate), now);
    case ReceiverHeartbeatAck(_, _) => SilentNumbered(s, s);
    case ReceiverIce(_, _) =>
      SilentNumbered(s, s.(iceDeadline := None));
      SilentNumbered(s, s.(iceDeadline := Some(Min(now + ICE_DISCONNECTED_GRACE, s.absoluteDeadline))));
    case _ =>
  }

  lemma OwnerMessageNumbered(s: Session, b: Binding, m: Message, clock: Clock, capability: string)
    requires Apart(s)
    ensures var o := OwnerMessage(s, b, m, clock, capability);
            Numbered(s, o.session, o.actions) && HeardSame(s, o.session)
  {
    hide Overdue, OwnerRequest, Numbered, Revoke;
    OverdueNumbered(s, clock.check, clock.act);
    var d := Overdue(s, clock.check, clock.act);
    if d.Stays? {
      var t := d.session;
      if OwnerAdmits(t, b, m) {
        var u := t.(owner := t.owner.(expectedClient := t.owner.expectedClient + 1, lastActivity := clock.act));
        OwnerRequestNumbered(u, m.body, clock.late, capability);
        var o := OwnerRequest(u, m.body, clock.late, capability);
        SamePeersNumbered(s, u, o.session, o.actions);
      } else {
        RevokeNumbered(t, OwnerProtocolFailure, true);
        SamePeersNumbered(s, t, None, Revoke(t, OwnerProtocolFailure, true));
      }
    }
  }

  /** A receiver's message either costs it its seat or was the one expected, and then the next is expected. */
  lemma ReceiverMessageNumbered(s: Session, b: Binding, m: Message, clock: Clock)
    requires Apart(s)
    ensures var o := ReceiverMessage(s, b, m, clock);
            && Numbered(s, o.session, o.actions)
            && (o.session.Some? && o.session.value.receiver.Some? ==>
                  && ReceiverMatches(s, b)
                  && m.sequence == s.receiver.value.expectedClient
                  && o.session.value.receiver.value.expectedClient == s.receiver.value.expectedClient + 1)
  {
    hide Overdue, ReceiverRequest, Numbered, DetachReceiver;
    OverdueNumbered(s, clock.check, clock.act);
    var d := Overdue(s, clock.check, clock.act);
    if d.Stays? {
      var t := d.session;
      if ReceiverAdmits(t, b, m) {
        var peer := t.receiver.value;
        var u := t.(receiver := Some(peer.(expectedClient := peer.expectedClient + 1, lastActivity := clock.act)));
        ReceiverRequestNumbered(u, m.body, clock.late);
        var o := ReceiverRequest(u, m.body, clock.late);
        SameWireNumbered(s, u, o.session, o.actions);
      } else {
        DetachNumbered(t, ReceiverProtocolFailure, true, clock.act);
        var (v, actions) := DetachReceiver(t, ReceiverProtocolFailure, true, clock.act);
        SamePeersNumbered(s, t, Some(v), actions);
      }
    }
  }

  // Numbering depends on the receiver's connection and next number only.
  lemma SameWireNumbered(s: Session, t: Session, after: Option<Session>, actions: seq<Action>)
    requires t.id == s.id && t.owner.connectionId == s.owner.connectionId && s.receiver.Some? && t.receiver.Some?
    requires t.receiver.value.connectionId == s.receiver.value.connectionId
    requires t.receiver.value.nextServer == s.receiver.value.nextServer
    requires Numbered(t, after, actions)
    ensures Numbered(s, after, actions)
  {}
}
