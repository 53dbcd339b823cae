/** A run of the protocol: a receiver page more than one heartbeat interval away loses its seat although it acknowledges
    everything it is sent, and what it still had in flight then evicts the page that follows it. */
module SignalingWitness {
  import opened Common
  import opened SignalingTypes
  import opened SessionTransitions
  import opened StoreSpec
  import opened StoreInvariant
  import opened SignalingProtocol
  import opened SequenceAgreement
  import opened StoreRuns
  import opened SignalDispatch
  import opened BackpressureTick

  const ID: string := "s"
  const OwnerBinding := Binding(1, Owner, ID, 1)
  const Page := ReceiverClient(ID, 0, 0, false)

  // The record after each message the store handles.
  const Created0 := Session(ID, OwnerOnly, 0.0, 28800000.0, Some(900000.0), None, Digest(OwnerKey, ID, "o"), None,
                            Peer(1, 1, 2, 2, 0.0, 2000.0, 0), None, false, false, false, None)
  const Open0 := Created0.(phase := JoinOpen, phaseDeadline := Some(600000.0), joinExpires := Some(600000.0),
                           joinHash := Some(Digest(JoinKey, ID, "j")), owner := Peer(1, 1, 3, 3, 0.0, 2000.0, 0))
  const Seated0 := Created0.(phase := JoinReserved, phaseDeadline := Some(30000.0),
                             owner := Peer(1, 1, 3, 4, 0.0, 2000.0, 0),
                             receiver := Some(Peer(2, 2, 2, 2, 0.0, 2000.0, 0)))
  const Beaten1 := Seated0.(owner := Peer(1, 1, 3, 5, 0.0, 4000.0, 1),
                            receiver := Some(Peer(2, 2, 2, 3, 0.0, 4000.0, 1)))
  const Beaten2 := Seated0.(owner := Peer(1, 1, 3, 6, 0.0, 6000.0, 2),
                            receiver := Some(Peer(2, 2, 2, 4, 0.0, 6000.0, 2)))
  const Alone := Created0.(phaseDeadline := Some(904500.0), owner := Peer(1, 1, 3, 7, 0.0, 6000.0, 2))
  const Open1 := Created0.(phase := JoinOpen, phaseDeadline := Some(604500.0), joinExpires := Some(604500.0),
                           joinHash := Some(Digest(JoinKey, ID, "k")), owner := Peer(1, 1, 4, 8, 4500.0, 6000.0, 2))
  const Seated1 := Created0.(phase := JoinReserved, phaseDeadline := Some(34500.0),
                             owner := Peer(1, 1, 4, 9, 4500.0, 6000.0, 2),
                             receiver := Some(Peer(3, 3, 2, 2, 4500.0, 6500.0, 0)))
  const Evicted := Created0.(phaseDeadline := Some(904500.0), owner := Peer(1, 1, 4, 10, 4500.0, 6000.0, 2))

  function At(t: Time): Clock { Clock(t, t, t) }
  function Ack(n: nat): Body { ReceiverHeartbeatAck(ID, n) }
  function ToPage(n: nat, notice: Notice): Envelope { Envelope(ID, n, notice) }

  const Welcome := ToPage(1, NoticeJoinReserved(Some(30000.0)))
  const First := ToPage(2, NoticeHeartbeat(1, 7000.0))
  const Second := ToPage(3, NoticeHeartbeat(2, 9000.0))

  // The second socket, the first page's, as the run goes on.
  function Socket2(open: bool, up: seq<Message>, down: seq<Envelope>, sent: nat, seen: nat): Link {
    Link(Some(Binding(2, Receiver, ID, 2)), open, false, up, down, ReceiverClient(ID, sent, seen, false))
  }

  // The world, but for what is in flight down to the owner.
  ghost predicate Stage(w: World, s: Session, g: nat, up: seq<Message>, l2: Option<Link>, l3: Option<Link>) {
    && w.store == Store(map[ID := s], g, 64)
    && w.links.Keys == {1} + (if l2.Some? then {2} else {}) + (if l3.Some? then {3} else {})
    && w.links[1] == Link(Some(OwnerBinding), true, false, up, w.links[1].down, OtherClient)
    && (l2.Some? ==> w.links[2] == l2.value)
    && (l3.Some? ==> w.links[3] == l3.value)
  }

  lemma DispatchedOne(links: map<nat, Link>, a: Action)
    ensures Dispatch(links, [a]) == DispatchOne(links, a)
  {
    assert [a][..0] == [];
  }

  lemma DispatchedTwo(links: map<nat, Link>, a: Action, b: Action)
    ensures Dispatch(links, [a, b]) == DispatchOne(DispatchOne(links, a), b)
  {
    assert [a, b][..1] == [a];
    DispatchedOne(links, a);
  }

  const Unread := World(Empty(64), map[1 := Link(None, true, false, [Message(1, CreateSession)], [], OtherClient)])

  lemma FirstRead()
    ensures Enabled(Unread, ServerReads(1, At(0.0), Entropy([ID], "o")))
    ensures Stage(After(Unread, ServerReads(1, At(0.0), Entropy([ID], "o"))), Created0, 2, [], None, None)
  {
    assert FirstFree([ID], {}) == Some(ID);
    var (store, r) := Handle(Empty(64), 1, None, Message(1, CreateSession), At(0.0), Entropy([ID], "o"));
    assert store == Store(map[ID := Created0], 2, 64);
    DispatchedOne(Unread.links[1 := Take(Unread.links[1]).(binding := r.binding)], r.actions[0]);
  }

  lemma Creates() returns (worlds: seq<World>, moves: seq<Move>)
    ensures |worlds| == 4 && |moves| == 3 && worlds[0] == Start(64)
    ensures forall i :: 0 <= i < 3 ==> Enabled(worlds[i], moves[i]) && worlds[i + 1] == After(worlds[i], moves[i])
    ensures Stage(worlds[3], Created0, 2, [], None, None)
  {
    hide Handle, Stage, Read;
    var w0 := Start(64);
    var m0 := Connect(1, OtherClient);
    var w1 := After(w0, m0);
    var m1 := OtherSends(1, Message(1, CreateSession));
    var w2 := After(w1, m1);
    assert [] + [Message(1, CreateSession)] == [Message(1, CreateSession)];
    assert w2.links == Unread.links && w2.store == Unread.store;
    FirstRead();
    var m2 := ServerReads(1, At(0.0), Entropy([ID], "o"));
    worlds, moves := [w0, w1, w2, After(w2, m2)], [m0, m1, m2];
  }

  // A message read from a bound socket, and what it does to the one session there is.
  lemma BoundRead(w: World, c: nat, clock: Clock, e: Entropy, s: Session, o: Outcome)
    requires c in w.links && !w.links[c].gone && w.links[c].up != [] && clock.Ordered() && w.links[c].binding.Some?
    requires w.store.sessions == map[ID := s] && w.links[c].binding.value.sessionId == ID && o.session.Some?
    requires var b := w.links[c].binding.value;
             o == if b.role == Owner then OwnerMessage(s, b, w.links[c].up[0], clock, e.capability)
                  else ReceiverMessage(s, b, w.links[c].up[0], clock)
    ensures Enabled(w, ServerReads(c, clock, e))
    ensures var links := Dispatch(w.links[c := Take(w.links[c])], o.actions);
            && links.Keys == w.links.Keys
            && After(w, ServerReads(c, clock, e))
               == World(w.store.(sessions := map[ID := o.session.value]), if o.accepted then links else Shut(links, c))
  {
    hide OwnerMessage, ReceiverMessage, Dispatch;
    DispatchKeys(w.links[c := Take(w.links[c])], o.actions);
    assert w.store.sessions[ID := o.session.value] == map[ID := o.session.value];
    assert Take(w.links[c]).(binding := w.links[c].binding) == Take(w.links[c]);
  }

  lemma SendsToOwner(w: World, s: Session, g: nat, up: seq<Message>, l2: Option<Link>, l3: Option<Link>, m: Message)
    requires Stage(w, s, g, up, l2, l3)
    ensures Enabled(w, OtherSends(1, m)) && Stage(After(w, OtherSends(1, m)), s, g, up + [m], l2, l3)
  {}

  lemma Opens0(w: World)
    requires Stage(w, Created0, 2, [Message(2, CreateJoin(ID, "o"))], None, None)
    ensures Enabled(w, ServerReads(1, At(0.0), Entropy([], "j")))
    ensures Stage(After(w, ServerReads(1, At(0.0), Entropy([], "j"))), Open0, 2, [], None, None)
  {
    var m := w.links[1].up[0];
    assert Overdue(Created0, 0.0, 0.0) == Stays(Created0);
    var o := OwnerMessage(Created0, OwnerBinding, m, At(0.0), "j");
    assert o.session == Some(Open0) && |o.actions| == 1;
    BoundRead(w, 1, At(0.0), Entropy([], "j"), Created0, o);
    assert o.actions == [o.actions[0]];
    DispatchedOne(w.links[1 := Take(w.links[1])], o.actions[0]);
  }

  lemma Joins0(w: World)
    requires Stage(w, Open0, 2, [], None, None)
    ensures Enabled(w, Connect(2, Page))
    ensures var u := After(w, Connect(2, Page));
            && Enabled(u, ClientSends(2, ReserveJoin(ID, "j")))
            && Stage(After(u, ClientSends(2, ReserveJoin(ID, "j"))), Open0, 2, [],
                     Some(Link(None, true, false, [Message(1, ReserveJoin(ID, "j"))], [],
                               Page.(clientSequence := 1))), None)
  {}

  lemma Seats0(w: World)
    requires Stage(w, Open0, 2, [],
                   Some(Link(None, true, false, [Message(1, ReserveJoin(ID, "j"))], [],
                             Page.(clientSequence := 1))), None)
    ensures Enabled(w, ServerReads(2, At(0.0), Entropy([], "")))
    ensures Stage(After(w, ServerReads(2, At(0.0), Entropy([], ""))), Seated0, 3, [],
                  Some(Socket2(true, [], [Welcome], 1, 0)), None)
  {
    var l := w.links[2];
    var (store, r) := Handle(w.store, 2, None, l.up[0], At(0.0), Entropy([], ""));
    assert store.sessions == map[ID := Seated0];
    var bound := Take(l).(binding := r.binding);
    assert r.actions == [r.actions[0], r.actions[1]];
    DispatchedTwo(w.links[2 := bound], r.actions[0], r.actions[1]);
  }

  // A tick that sends both heartbeats.
  lemma Beats(w: World, s: Session, t: Session, g: nat, now: Time, l: Link, e: Envelope)
    requires Stage(w, s, g, [], Some(l), None) && l.open && !l.gone
    requires TickSession(s, now, now).0 == Some(t)
    requires var actions := TickSession(s, now, now).1;
             |actions| == 2 && actions[0].Send? && actions[0].connectionId == 1 && actions[1] == Send(2, e)
    ensures var move := ServerTicks(now, [ID], map[ID := now]);
            && Enabled(w, move)
            && Stage(After(w, move), t, g, [], Some(l.(down := l.down + [e])), None)
  {
    hide TickSession;
    var order := [ID];
    assert order[..0] == [];
    assert TickPass(w.store, [], now, map[ID := now]) == (w.store, []);
    var (store, actions) := TickOne(w.store, ID, now, now);
    assert store.sessions == map[ID := t];
    assert [] + actions == actions == [actions[0], actions[1]];
    assert TickPass(w.store, order, now, map[ID := now]) == (store, actions);
    DispatchedTwo(w.links, actions[0], actions[1]);
  }

  lemma Beat1(w: World)
    requires Stage(w, Seated0, 3, [], Some(Socket2(true, [], [Welcome], 1, 0)), None)
    ensures var move := ServerTicks(2000.0, [ID], map[ID := 2000.0]);
            Enabled(w, move)
            && Stage(After(w, move), Beaten1, 3, [], Some(Socket2(true, [], [Welcome, First], 1, 0)), None)
  {
    assert Overdue(Seated0, 2000.0, 2000.0) == Stays(Seated0);
    Beats(w, Seated0, Beaten1, 3, 2000.0, Socket2(true, [], [Welcome], 1, 0), First);
    assert [Welcome] + [First] == [Welcome, First];
  }

  lemma Beat2(w: World)
    requires Stage(w, Beaten1, 3, [], Some(Socket2(true, [], [Welcome, First], 1, 0)), None)
    ensures var move := ServerTicks(4000.0, [ID], map[ID := 4000.0]);
            Enabled(w, move)
            && Stage(After(w, move), Beaten2, 3, [], Some(Socket2(true, [], [Welcome, First, Second], 1, 0)), None)
  {
    assert Overdue(Beaten1, 4000.0, 4000.0) == Stays(Beaten1);
    Beats(w, Beaten1, Beaten2, 3, 4000.0, Socket2(true, [], [Welcome, First], 1, 0), Second);
    assert [Welcome, First] + [Second] == [Welcome, First, Second];
  }

  // The page reads its next message.
  lemma PageReads(w: World, s: Session, down: seq<Envelope>, seen: nat)
    requires down != [] && Stage(w, s, 3, [], Some(Socket2(true, [], down, 1, seen)), None)
    requires down[0].sequence == seen + 1 && down[0].sessionId == ID && Serves(down[0].notice)
    ensures Enabled(w, ClientReads(2))
    ensures Stage(After(w, ClientReads(2)), s, 3, [], Some(Socket2(true, [], down[1..], 1, seen + 1)), None)
  {}

  // The page acknowledges a heartbeat it has read.
  lemma PageAcks(w: World, s: Session, up: seq<Message>, sent: nat, n: nat)
    requires sent > 0 && Stage(w, s, 3, [], Some(Socket2(true, up, [], sent, 3)), None)
    ensures Enabled(w, ClientSends(2, Ack(n)))
    ensures Stage(After(w, ClientSends(2, Ack(n))), s, 3, [],
                  Some(Socket2(true, up + [Message(sent + 1, Ack(n))], [], sent + 1, 3)), None)
  {}

  // The first acknowledgement comes after the second heartbeat went out: the page loses its seat.
  lemma LateAck(w: World)
    requires Stage(w, Beaten2, 3, [], Some(Socket2(true, [Message(2, Ack(1)), Message(3, Ack(2))], [], 3, 3)), None)
    ensures Enabled(w, ServerReads(2, At(4500.0), Entropy([], "")))
    ensures Stage(After(w, ServerReads(2, At(4500.0), Entropy([], ""))), Alone, 3, [],
                  Some(Socket2(false, [Message(3, Ack(2))], [], 3, 3)), None)
  {
    var b := Binding(2, Receiver, ID, 2);
    var m := w.links[2].up[0];
    assert Overdue(Beaten2, 4500.0, 4500.0) == Stays(Beaten2);
    var o := ReceiverMessage(Beaten2, b, m, At(4500.0));
    assert o.session == Some(Alone) && !o.accepted && o.actions[0] == Close(2, HeartbeatAckInvalid);
    BoundRead(w, 2, At(4500.0), Entropy([], ""), Beaten2, o);
    assert o.actions == [o.actions[0], o.actions[1]];
    DispatchedTwo(w.links[2 := Take(w.links[2])], o.actions[0], o.actions[1]);
    assert [Message(2, Ack(1)), Message(3, Ack(2))][1..] == [Message(3, Ack(2))];
  }

  const Stale2 := Socket2(false, [Message(3, Ack(2))], [], 3, 3)

  lemma Opens1(w: World)
    requires Stage(w, Alone, 3, [Message(3, CreateJoin(ID, "o"))], Some(Stale2), None)
    ensures Enabled(w, ServerReads(1, At(4500.0), Entropy([], "k")))
    ensures Stage(After(w, ServerReads(1, At(4500.0), Entropy([], "k"))), Open1, 3, [], Some(Stale2), None)
  {
    var m := w.links[1].up[0];
    assert Overdue(Alone, 4500.0, 4500.0) == Stays(Alone);
    var o := OwnerMessage(Alone, OwnerBinding, m, At(4500.0), "k");
    assert o.session == Some(Open1) && |o.actions| == 1;
    BoundRead(w, 1, At(4500.0), Entropy([], "k"), Alone, o);
    assert o.actions == [o.actions[0]];
    DispatchedOne(w.links[1 := Take(w.links[1])], o.actions[0]);
  }

  const Knocking := Link(None, true, false, [Message(1, ReserveJoin(ID, "k"))], [], Page.(clientSequence := 1))

  lemma Joins1(w: World)
    requires Stage(w, Open1, 3, [], Some(Stale2), None)
    ensures Enabled(w, Connect(3, Page))
    ensures var u := After(w, Connect(3, Page));
            && Enabled(u, ClientSends(3, ReserveJoin(ID, "k")))
            && Stage(After(u, ClientSends(3, ReserveJoin(ID, "k"))), Open1, 3, [], Some(Stale2), Some(Knocking))
  {}

  const Seated3 := Link(Some(Binding(3, Receiver, ID, 3)), true, false, [],
                        [ToPage(1, NoticeJoinReserved(Some(34500.0)))],
                        Page.(clientSequence := 1))

  lemma Seats1(w: World)
    requires Stage(w, Open1, 3, [], Some(Stale2), Some(Knocking))
    ensures Enabled(w, ServerReads(3, At(4500.0), Entropy([], "")))
    ensures Stage(After(w, ServerReads(3, At(4500.0), Entropy([], ""))), Seated1, 4, [], Some(Stale2), Some(Seated3))
  {
    var l := w.links[3];
    var (store, r) := Handle(w.store, 3, None, l.up[0], At(4500.0), Entropy([], ""));
    assert store.sessions == map[ID := Seated1];
    var bound := Take(l).(binding := r.binding);
    assert r.actions == [r.actions[0], r.actions[1]];
    DispatchedTwo(w.links[3 := bound], r.actions[0], r.actions[1]);
  }

  // What the first page still had in flight evicts the second.
  lemma Evicts(w: World)
    requires Stage(w, Seated1, 4, [], Some(Stale2), Some(Seated3))
    ensures Enabled(w, ServerReads(2, At(4500.0), Entropy([], "")))
    ensures var v := After(w, ServerReads(2, At(4500.0), Entropy([], "")));
            && v.store.sessions == map[ID := Evicted] && 3 in v.links && !v.links[3].open
  {
    var b := Binding(2, Receiver, ID, 2);
    var m := w.links[2].up[0];
    assert Overdue(Seated1, 4500.0, 4500.0) == Stays(Seated1);
    var o := ReceiverMessage(Seated1, b, m, At(4500.0));
    assert o.session == Some(Evicted) && !o.accepted && o.actions[0] == Close(3, ReceiverProtocolFailure);
    BoundRead(w, 2, At(4500.0), Entropy([], ""), Seated1, o);
    assert o.actions == [o.actions[0], o.actions[1]];
    DispatchedTwo(w.links[2 := Take(w.links[2])], o.actions[0], o.actions[1]);
  }

  // -------- the run --------

  function Now(worlds: seq<World>): World
    requires worlds != []
  {
    worlds[|worlds| - 1]
  }

  lemma Extend(worlds: seq<World>, moves: seq<Move>, move: Move) returns (worlds': seq<World>, moves': seq<Move>)
    requires Reachable(worlds, moves) && Enabled(Now(worlds), move)
    ensures worlds' == worlds + [After(Now(worlds), move)] && moves' == moves + [move]
    ensures Reachable(worlds', moves')
  {
    hide Enabled, After;
    worlds', moves' := worlds + [After(Now(worlds), move)], moves + [move];
  }

  /** The first page takes its seat. */
  lemma SeatReached() returns (worlds: seq<World>, moves: seq<Move>)
    ensures Reachable(worlds, moves)
    ensures Stage(Now(worlds), Seated0, 3, [], Some(Socket2(true, [], [Welcome], 1, 0)), None)
  {
    hide Enabled, After;
    worlds, moves := Creates();
    SendsToOwner(Now(worlds), Created0, 2, [], None, None, Message(2, CreateJoin(ID, "o")));
    assert [] + [Message(2, CreateJoin(ID, "o"))] == [Message(2, CreateJoin(ID, "o"))];
    worlds, moves := Extend(worlds, moves, OtherSends(1, Message(2, CreateJoin(ID, "o"))));
    Opens0(Now(worlds));
    worlds, moves := Extend(worlds, moves, ServerReads(1, At(0.0), Entropy([], "j")));
    Joins0(Now(worlds));
    worlds, moves := Extend(worlds, moves, Connect(2, Page));
    worlds, moves := Extend(worlds, moves, ClientSends(2, ReserveJoin(ID, "j")));
    Seats0(Now(worlds));
    worlds, moves := Extend(worlds, moves, ServerReads(2, At(0.0), Entropy([], "")));
  }

  /** Two heartbeats later the page has read both and acknowledged both. */
  lemma AcksReached() returns (worlds: seq<World>, moves: seq<Move>)
    ensures Reachable(worlds, moves)
    ensures Stage(Now(worlds), Beaten2, 3, [],
                  Some(Socket2(true, [Message(2, Ack(1)), Message(3, Ack(2))], [], 3, 3)), None)
  {
    hide Enabled, After;
    worlds, moves := SeatReached();
    Beat1(Now(worlds));
    worlds, moves := Extend(worlds, moves, ServerTicks(2000.0, [ID], map[ID := 2000.0]));
    Beat2(Now(worlds));
    worlds, moves := Extend(worlds, moves, ServerTicks(4000.0, [ID], map[ID := 4000.0]));
    PageReads(Now(worlds), Beaten2, [Welcome, First, Second], 0);
    worlds, moves := Extend(worlds, moves, ClientReads(2));
    assert [Welcome, First, Second][1..] == [First, Second];
    PageReads(Now(worlds), Beaten2, [First, Second], 1);
    worlds, moves := Extend(worlds, moves, ClientReads(2));
    assert [First, Second][1..] == [Second];
    PageReads(Now(worlds), Beaten2, [Second], 2);
    worlds, moves := Extend(worlds, moves, ClientReads(2));
    assert [Second][1..] == [];
    PageAcks(Now(worlds), Beaten2, [], 1, 1);
    assert [] + [Message(2, Ack(1))] == [Message(2, Ack(1))];
    worlds, moves := Extend(worlds, moves, ClientSends(2, Ack(1)));
    PageAcks(Now(worlds), Beaten2, [Message(2, Ack(1))], 2, 2);
    assert [Message(2, Ack(1))] + [Message(3, Ack(2))] == [Message(2, Ack(1)), Message(3, Ack(2))];
    worlds, moves := Extend(worlds, moves, ClientSends(2, Ack(2)));
  }

  /** In a reachable world a page that has acknowledged every heartbeat it was sent, in order, loses its seat. */
  lemma LateAckReachable() returns (worlds: seq<World>, moves: seq<Move>)
    ensures Reachable(worlds, moves) && |moves| > 0
    ensures moves[|moves| - 1] == ServerReads(2, At(4500.0), Entropy([], ""))
    ensures var before := worlds[|worlds| - 2];
            && ID in before.store.sessions && before.store.sessions[ID].receiver.Some?
            && before.store.sessions[ID].receiver.value.connectionId == 2
            && 2 in before.links && before.links[2].up == [Message(2, Ack(1)), Message(3, Ack(2))]
    ensures Stage(Now(worlds), Alone, 3, [], Some(Stale2), None)
  {
    hide Enabled, After;
    worlds, moves := AcksReached();
    LateAck(Now(worlds));
    worlds, moves := Extend(worlds, moves, ServerReads(2, At(4500.0), Entropy([], "")));
  }

  /** And what that page still had in flight, read from its closed but not yet gone socket, evicts the next receiver. */
  lemma EvictionReachable() returns (worlds: seq<World>, moves: seq<Move>)
    ensures Reachable(worlds, moves) && |moves| > 0
    ensures moves[|moves| - 1] == ServerReads(2, At(4500.0), Entropy([], ""))
    ensures var before := worlds[|worlds| - 2];
            && ID in before.store.sessions && before.store.sessions[ID].receiver.Some?
            && before.store.sessions[ID].receiver.value.connectionId == 3
            && {2, 3} <= before.links.Keys && !before.links[2].open && !before.links[2].gone && before.links[3].open
            && before.links[2].binding.Some? && !Matches(before.store, before.links[2].binding.value)
    ensures var after := Now(worlds);
            && ID in after.store.sessions && after.store.sessions[ID].receiver.None?
            && 3 in after.links && !after.links[3].open
  {
    hide Enabled, After;
    worlds, moves := LateAckReachable();
    var join := Message(3, CreateJoin(ID, "o"));
    SendsToOwner(Now(worlds), Alone, 3, [], Some(Stale2), None, join);
    assert [] + [join] == [join];
    worlds, moves := Extend(worlds, moves, OtherSends(1, join));
    Opens1(Now(worlds));
    worlds, moves := Extend(worlds, moves, ServerReads(1, At(4500.0), Entropy([], "k")));
    Joins1(Now(worlds));
    worlds, moves := Extend(worlds, moves, Connect(3, Page));
    worlds, moves := Extend(worlds, moves, ClientSends(3, ReserveJoin(ID, "k")));
    Seats1(Now(worlds));
    worlds, moves := Extend(worlds, moves, ServerReads(3, At(4500.0), Entropy([], "")));
    Evicts(Now(worlds));
    worlds, moves := Extend(worlds, moves, ServerReads(2, At(4500.0), Entropy([], "")));
  }

  // -------- backpressure --------

  /** With the owner's socket full and the page's not, the tick at two seconds breaks the numbering of a reachable
      world. */
  lemma OvertakingReachable() returns (worlds: seq<World>, moves: seq<Move>)
    ensures Reachable(worlds, moves)
    ensures var w := Now(worlds); var pressure := (c: nat, n: nat) => c == 1;
            && ID in w.store.sessions && Overtaken(w, ID, 2000.0, pressure)
            && forall clock :: !AllInOrder(TickUnder(w, [ID], 2000.0, map[ID := 2000.0], pressure, clock).links)
  {
    hide Enabled, After, Linked, TickUnder, AllInOrder;
    worlds, moves := SeatReached();
    var w := Now(worlds);
    var pressure := (c: nat, n: nat) => c == 1;
    ReachableLinked(worlds, moves, |worlds| - 1);
    assert Overtaken(w, ID, 2000.0, pressure);
    forall clock ensures !AllInOrder(TickUnder(w, [ID], 2000.0, map[ID := 2000.0], pressure, clock).links) {
      TickOrderExactly(w, [ID], 2000.0, map[ID := 2000.0], pressure, clock);
    }
  }

  // -------- the end of the generations --------

  /** A session is created and its owner leaves: the store is empty again, one generation later. */
  lemma ComesAndGoes(g: nat)
    requires 1 <= g < MAX_SAFE_INTEGER
    ensures var arrival := Arrival(1, None, Message(1, CreateSession), At(0.0), Entropy([ID], "o"));
            var (mid, r) := Apply(Store(map[], g, 64), arrival);
            && r.Response? && Admissible(Store(map[], g, 64), arrival)
            && mid == Store(map[ID := Created0.(owner := Peer(1, g, 2, 2, 0.0, 2000.0, 0))], g + 1, 64)
            && var departure := Departure(Binding(1, Owner, ID, g), External("left"), 0.0);
               Apply(mid, departure).0 == Store(map[], g + 1, 64) && Apply(mid, departure).1.Response?
  {
    assert FirstFree([ID], {}) == Some(ID);
    var arrival := Arrival(1, None, Message(1, CreateSession), At(0.0), Entropy([ID], "o"));
    var mid := Apply(Store(map[], g, 64), arrival).0;
    assert mid.sessions == map[ID := Created0.(owner := Peer(1, g, 2, 2, 0.0, 2000.0, 0))];
    assert mid.sessions - {ID} == map[];
  }

  lemma Grow(t: Trace, e: Event) returns (t': Trace)
    requires Run(t) && Admissible(t.states[|t.events|], e) && Apply(t.states[|t.events|], e).1.Response?
    ensures Run(t') && |t'.events| == |t.events| + 1
    ensures t'.states[|t'.events|] == Apply(t.states[|t.events|], e).0
  {
    hide Apply, Admissible;
    var (after, r) := Apply(t.states[|t.events|], e);
    t' := Trace(t.states + [after], t.events + [e], t.answers + [r]);
    forall i | 0 <= i < |t'.events| ensures StepAt(t', i) {
      if i < |t.events| { assert StepAt(t, i); }
    }
  }

  lemma {:induction false} GenerationReached(g: nat) returns (t: Trace)
    requires 1 <= g <= MAX_SAFE_INTEGER
    ensures Run(t) && t.states[|t.events|] == Store(map[], g, 64)
    decreases g
  {
    hide Apply;
    if g == 1 {
      t := Trace([Empty(64)], [], []);
    } else {
      t := GenerationReached(g - 1);
      ComesAndGoes(g - 1);
      t := Grow(t, Arrival(1, None, Message(1, CreateSession), At(0.0), Entropy([ID], "o")));
      t := Grow(t, Departure(Binding(1, Owner, ID, g - 1), External("left"), 0.0));
    }
  }

  /** After enough sessions a run comes to a valid store in which an admitted reservation leaves an incoherent record
      behind. */
  lemma GenerationsRunOut() returns (t: Trace, e: Event)
    ensures Run(t) && Valid(t.states[|t.events|]) && Admissible(t.states[|t.events|], e)
    ensures Apply(t.states[|t.events|], e).1 == Thrown && !Valid(Apply(t.states[|t.events|], e).0)
  {
    hide Apply, Valid;
    var g := MAX_SAFE_INTEGER - 1;
    t := GenerationReached(g);
    ComesAndGoes(g);
    t := Grow(t, Arrival(1, None, Message(1, CreateSession), At(0.0), Entropy([ID], "o")));
    var s := Created0.(owner := Peer(1, g, 2, 2, 0.0, 2000.0, 0));
    LastJoin(s, g);
    t := Grow(t, Arrival(1, Some(Binding(1, Owner, ID, g)), Message(2, CreateJoin(ID, "o")), At(0.0),
                                   Entropy([], "j")));
    RunValid(t, |t.events|);
    e := Arrival(2, None, Message(1, ReserveJoin(ID, "j")), At(0.0), Entropy([], ""));
    LastReserve(t.states[|t.events|], s, g, e);
    ApplyKeepsExactly(t.states[|t.events|], e);
  }

  lemma LastJoin(s: Session, g: nat)
    requires s == Created0.(owner := Peer(1, g, 2, 2, 0.0, 2000.0, 0))
    ensures var st := Store(map[ID := s], g + 1, 64);
            var e := Arrival(1, Some(Binding(1, Owner, ID, g)), Message(2, CreateJoin(ID, "o")), At(0.0),
                                       Entropy([], "j"));
            && Admissible(st, e) && Apply(st, e).1.Response?
            && Apply(st, e).0 == Store(map[ID := Open0.(owner := Peer(1, g, 3, 3, 0.0, 2000.0, 0))], g + 1, 64)
  {
    var st := Store(map[ID := s], g + 1, 64);
    assert Overdue(s, 0.0, 0.0) == Stays(s);
    var o := OwnerMessage(s, Binding(1, Owner, ID, g), Message(2, CreateJoin(ID, "o")), At(0.0), "j");
    var t := Open0.(owner := Peer(1, g, 3, 3, 0.0, 2000.0, 0));
    assert o.session == Some(t);
    assert st.sessions[ID := t] == map[ID := t];
  }

  lemma LastReserve(st: Store, s: Session, g: nat, e: Event)
    requires st == Store(map[ID := Open0.(owner := Peer(1, g, 3, 3, 0.0, 2000.0, 0))], g + 1, 64)
    requires g + 1 == MAX_SAFE_INTEGER
    requires e == Arrival(2, None, Message(1, ReserveJoin(ID, "j")), At(0.0), Entropy([], ""))
    ensures Admissible(st, e) && Apply(st, e).1 == Thrown && ReserveAdmits(st, e.message, e.clock.check)
  {}
}
