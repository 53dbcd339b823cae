/** Runs of the store, the server and any number of receiver pages in which any socket may be full at any moment. */
module BackpressureRuns {
  import opened Common
  import opened SignalingTypes
  import opened SessionTransitions
  import opened StoreSpec
  import opened StoreInvariant
  import opened SignalingProtocol
  import opened SequenceAgreement
  import opened SignalDispatch
  import opened Backpressure
  import opened BackpressureTick

  // -------- every other event dispatches an orderly list --------

  // If the receiver keeps its seat, at most one message goes out.
  ghost predicate Terse(o: Outcome) {
    o.session.Some? && o.session.value.receiver.Some? ==>
      |o.actions| <= 1 && forall i :: 0 <= i < |o.actions| ==> o.actions[i].Send?
  }

  lemma OwnerRequestTerse(s: Session, body: Body, now: Time, capability: string)
    requires Coherent(s)
    ensures Terse(OwnerRequest(s, body, now, capability))
  {}

  lemma ReceiverRequestTerse(s: Session, body: Body, now: Time)
    requires Coherent(s)
    ensures Terse(ReceiverRequest(s, body, now))
  {}

  lemma MessageTerse(s: Session, b: Binding, m: Message, clock: Clock, capability: string)
    requires Coherent(s)
    ensures Terse(if b.role == Owner then OwnerMessage(s, b, m, clock, capability) else ReceiverMessage(s, b, m, clock))
  {
    hide Overdue, OwnerRequest, ReceiverRequest, Coherent;
    OverdueKeeps(s, clock.check, clock.act);
    OverdueAlone(s, clock.check, clock.act);
    var d := Overdue(s, clock.check, clock.act);
    if d.Stays? {
      var t := d.session;
      if b.role == Owner && OwnerAdmits(t, b, m) {
        var u := t.(owner := t.owner.(expectedClient := t.owner.expectedClient + 1, lastActivity := clock.act));
        Heard(t, u);
        OwnerRequestTerse(u, m.body, clock.late, capability);
      } else if b.role == Receiver && ReceiverAdmits(t, b, m) {
        var peer := t.receiver.value;
        var u := t.(receiver := Some(peer.(expectedClient := peer.expectedClient + 1, lastActivity := clock.act)));
        Heard(t, u);
        ReceiverRequestTerse(u, m.body, clock.late);
      }
    }
  }

  lemma OverdueAlone(s: Session, now: Time, late: Time)
    ensures Overdue(s, now, late).Detached? ==> Overdue(s, now, late).session.receiver.None?
  {}

  lemma Heard(t: Session, u: Session)
    requires Coherent(t)
    requires u == t.(owner := u.owner, receiver := u.receiver)
    requires u.owner == t.owner.(expectedClient := u.owner.expectedClient, lastActivity := u.owner.lastActivity)
    requires u.receiver.Some? <==> t.receiver.Some?
    requires u.receiver.Some? ==>
               var p, q := t.receiver.value, u.receiver.value;
               q == p.(expectedClient := q.expectedClient, lastActivity := q.lastActivity)
    requires u.owner.expectedClient >= t.owner.expectedClient
    requires u.receiver.Some? ==> u.receiver.value.expectedClient >= t.receiver.value.expectedClient
    ensures Coherent(u)
  {}

  // One session changed, and spoke only to its own peers.
  lemma UpdateOrderly(w: World, id: string, after: Option<Session>, actions: seq<Action>)
    requires Linked(w) && id in w.store.sessions && Own(w.store.sessions[id], actions)
    requires after.Some? ==> PoliteTo(after.value, actions)
    ensures Orderly(Settle(w.store, id, after), actions)
  {
    hide Linked, PoliteTo;
    SessionFacts(w, id);
    var store := Settle(w.store, id, after);
    forall k | k in store.sessions ensures PoliteTo(store.sessions[k], actions) {
      if k != id {
        OthersPolite(w, w.store.sessions[id], actions, k);
      }
    }
  }

  lemma BoundOrderly(w: World, b: Binding, m: Message, clock: Clock, e: Entropy)
    requires Linked(w)
    ensures var (store, r) := HandleBound(w.store, b, m, clock, e); r.Response? && Orderly(store, r.actions)
  {
    hide Linked, PoliteTo, OwnerMessage, ReceiverMessage, Coherent;
    if b.sessionId in w.store.sessions {
      var s := w.store.sessions[b.sessionId];
      SessionFacts(w, b.sessionId);
      SocketsApart(w.links, s, s);
      MessageTerse(s, b, m, clock, e.capability);
      OwnerMessageNumbered(s, b, m, clock, e.capability);
      ReceiverMessageNumbered(s, b, m, clock);
      var o := if b.role == Owner then OwnerMessage(s, b, m, clock, e.capability) else ReceiverMessage(s, b, m, clock);
      if o.session.Some? {
        if o.session.value.receiver.Some? { ShortPolite(o.session.value, o.actions); }
        else { AlonePolite(o.session.value, o.actions); }
      }
      UpdateOrderly(w, b.sessionId, o.session, o.actions);
    } else {
      NothingOrderly(w.store);
    }
  }

  lemma NothingOrderly(store: Store)
    ensures Orderly(store, [])
  {}

  lemma ReserveOrderly(w: World, c: nat, m: Message, now: Time)
    requires Linked(w) && c in w.links && w.links[c].binding.None? && m.body.ReserveJoin?
    requires HandleReserve(w.store, c, m, now).1.Response?
    ensures var (store, r) := HandleReserve(w.store, c, m, now); Orderly(store, r.actions)
  {
    hide Linked, Coherent, LinkOk;
    if ReserveAdmits(w.store, m, now) {
      var id := m.body.sessionId;
      var s := w.store.sessions[id];
      var (store, r) := HandleReserve(w.store, c, m, now);
      UnmatchedUnseated(w, c);
      SessionFacts(w, id);
      forall k | k in store.sessions ensures PoliteTo(store.sessions[k], r.actions) {
        if k != id {
          var t := w.store.sessions[k];
          SessionFacts(w, k);
          SocketsApart(w.links, t, s);
          assert PoliteTo(t, []);
          PoliteInsert(t, r.actions, []);
          assert r.actions + [] == r.actions;
        }
      }
    }
  }

  lemma CreateOrderly(w: World, c: nat, m: Message, now: Time, e: Entropy)
    requires Linked(w) && c in w.links && w.links[c].binding.None? && HandleCreate(w.store, c, m, now, e).1.Response?
    ensures var (store, r) := HandleCreate(w.store, c, m, now, e); Orderly(store, r.actions)
  {
    hide Linked, Coherent, LinkOk;
    var (store, r) := HandleCreate(w.store, c, m, now, e);
    forall k | k in store.sessions ensures PoliteTo(store.sessions[k], r.actions) {
      ShortPolite(store.sessions[k], r.actions);
    }
  }

  lemma HandleOrderly(w: World, c: nat, m: Message, clock: Clock, e: Entropy)
    requires Linked(w) && c in w.links && Handle(w.store, c, w.links[c].binding, m, clock, e).1.Response?
    ensures var (store, r) := Handle(w.store, c, w.links[c].binding, m, clock, e); Orderly(store, r.actions)
  {
    hide Linked, Orderly, HandleBound, HandleCreate, HandleReserve;
    var b := w.links[c].binding;
    NothingOrderly(w.store);
    if b.Some? {
      BoundOrderly(w, b.value, m, clock, e);
    } else if m.body.CreateSession? {
      CreateOrderly(w, c, m, clock.check, e);
    } else if m.body.ReserveJoin? {
      ReserveOrderly(w, c, m, clock.check);
    }
  }

  lemma DisconnectOrderly(w: World, b: Binding, reason: Reason, now: Time)
    requires Linked(w)
    ensures var (store, actions) := Disconnect(w.store, b, reason, now); Orderly(store, actions)
  {
    hide Linked, Orderly, PoliteTo;
    if Matches(w.store, b) {
      var s := w.store.sessions[b.sessionId];
      var t := DetachReceiver(s, reason, false, now).0;
      AlonePolite(t, DetachReceiver(s, reason, false, now).1);
      UpdateOrderly(w, b.sessionId, if b.role == Owner then None else Some(t), Disconnect(w.store, b, reason, now).1);
    } else {
      NothingOrderly(w.store);
    }
  }

  // -------- moves --------

  // Which sockets are full, and what the clean-ups read from the clock.
  datatype Weather = Weather(pressure: Pressure, clock: Readings)

  function ReadUnder(w: World, c: nat, clock: Clock, e: Entropy, weather: Weather): World
    requires c in w.links && w.links[c].up != []
    requires Handle(w.store, c, w.links[c].binding, w.links[c].up[0], clock, e).1.Response?
  {
    var (store, r) := Handle(w.store, c, w.links[c].binding, w.links[c].up[0], clock, e);
    var after := DispatchUnder(World(store, w.links[c := Rebound(w.links[c], r)]), r.actions, weather.pressure,
                               weather.clock);
    if r.accepted then after else World(after.store, Shut(after.links, c))
  }

  function DropUnder(w: World, links: map<nat, Link>, c: nat, reason: Reason, now: Time,
                     weather: Weather): (after: World)
    requires c in links
    ensures after.links.Keys == links.Keys
  {
    if links[c].binding.None? then World(w.store, links)
    else
      var (store, actions) := Disconnect(w.store, links[c].binding.value, reason, now);
      DispatchUnder(World(store, links), actions, weather.pressure, weather.clock)
  }

  // A move as in the plain protocol, but every dispatch may meet full sockets.
  ghost function AfterUnder(w: World, move: Move, weather: Weather): World
    requires Enabled(w, move)
  {
    match move
    case ServerReads(c, clock, e) => ReadUnder(w, c, clock, e, weather)
    case ServerFails(c, drop, reason, now) =>
      var after := DropUnder(w, if drop then w.links[c := Take(w.links[c])] else w.links, c, reason, now, weather);
      World(after.store, Shut(after.links, c))
    case SocketClosed(c, now) =>
      DropUnder(w, w.links[c := w.links[c].(gone := true, open := false, up := [])], c, External("SIGNALING_CLOSED"),
                now, weather)
    case ServerTicks(now, order, late) => TickUnder(w, order, now, late, weather.pressure, weather.clock)
    case _ => After(w, move)
  }

  // The one kind of move that breaks the order: a tick on which a session is overtaken.
  ghost predicate Overtakes(w: World, move: Move, weather: Weather) {
    move.ServerTicks? && exists id :: id in w.store.sessions && Overtaken(w, id, move.now, weather.pressure)
  }

  lemma ReadUnderKeeps(w: World, c: nat, clock: Clock, e: Entropy, weather: Weather)
    requires Linked(w) && Enabled(w, ServerReads(c, clock, e))
    ensures Linked(ReadUnder(w, c, clock, e, weather))
  {
    hide Linked, Dispatch, DispatchUnder, Handle, Orderly, Rebound;
    var (store, r) := Handle(w.store, c, w.links[c].binding, w.links[c].up[0], clock, e);
    ReadDispatches(w, c, clock, e);
    HandleOrderly(w, c, w.links[c].up[0], clock, e);
    var mid := World(store, w.links[c := Rebound(w.links[c], r)]);
    UnderKeeps(mid, r.actions, weather.pressure, weather.clock);
    ShutKeeps(DispatchUnder(mid, r.actions, weather.pressure, weather.clock), c);
  }

  lemma DropUnderKeeps(w: World, c: nat, l: Link, reason: Reason, now: Time, weather: Weather)
    requires Linked(w) && c in w.links && LinkOk(c, l, w.store.nextGeneration) && l.binding == w.links[c].binding
    ensures Linked(DropUnder(w, w.links[c := l], c, reason, now, weather))
  {
    hide Linked, Dispatch, DispatchUnder, Disconnect, Orderly, LinkOk;
    DropKeeps(w, c, l, reason, now);
    if l.binding.Some? {
      DisconnectOrderly(w, l.binding.value, reason, now);
      var (store, actions) := Disconnect(w.store, l.binding.value, reason, now);
      UnderKeeps(World(store, w.links[c := l]), actions, weather.pressure, weather.clock);
    }
  }

  /** Every move under any backpressure keeps the two sides in step, except a tick on which a session is overtaken. */
  lemma MoveUnderKeeps(w: World, move: Move, weather: Weather)
    requires Linked(w) && Enabled(w, move) && !Overtakes(w, move, weather)
    ensures Linked(AfterUnder(w, move, weather))
  {
    hide Linked, ReadUnder, DropUnder, TickUnder, LinkOk, Overtaken, AllInOrder;
    match move
    case ServerReads(c, clock, e) => ReadUnderKeeps(w, c, clock, e, weather);
    case ServerFails(c, drop, reason, now) =>
      LinkedLink(w, c);
      var l := if drop then Take(w.links[c]) else w.links[c];
      if drop { TakeOk(c, w.links[c], w.store.nextGeneration); }
      assert w.links[c := w.links[c]] == w.links;
      DropUnderKeeps(w, c, l, reason, now, weather);
      ShutKeeps(DropUnder(w, w.links[c := l], c, reason, now, weather), c);
    case SocketClosed(c, now) =>
      LinkedLink(w, c);
      var l := w.links[c].(gone := true, open := false, up := []);
      GoneOk(c, w.links[c], w.store.nextGeneration);
      DropUnderKeeps(w, c, l, External("SIGNALING_CLOSED"), now, weather);
    case ServerTicks(now, order, late) =>
      TickOrderExactly(w, order, now, late, weather.pressure, weather.clock);
    case _ => MoveKeeps(w, move);
  }

  lemma GoneOk(c: nat, l: Link, next: nat)
    requires LinkOk(c, l, next)
    ensures LinkOk(c, l.(gone := true, open := false, up := []), next)
  {}

  /** A move under backpressure leaves every receiver page's messages in order if and only if it is not a tick on which
      a session is overtaken. */
  lemma MoveOrderExactly(w: World, move: Move, weather: Weather)
    requires Linked(w) && Enabled(w, move)
    ensures AllInOrder(AfterUnder(w, move, weather).links) <==> !Overtakes(w, move, weather)
  {
    hide Linked, TickUnder, ReadUnder, DropUnder, Overtaken, AllInOrder;
    if Overtakes(w, move, weather) {
      TickOrderExactly(w, move.order, move.now, move.late, weather.pressure, weather.clock);
    } else {
      MoveUnderKeeps(w, move, weather);
      LinkedInOrder(AfterUnder(w, move, weather));
    }
  }

  // -------- runs --------

  ghost predicate StepUnder(worlds: seq<World>, moves: seq<Move>, weather: seq<Weather>, i: nat)
    requires |worlds| == |moves| + 1 && |weather| == |moves| && i < |moves|
  {
    Enabled(worlds[i], moves[i]) && worlds[i + 1] == AfterUnder(worlds[i], moves[i], weather[i])
  }

  ghost predicate ReachableUnder(worlds: seq<World>, moves: seq<Move>, weather: seq<Weather>) {
    && |worlds| == |moves| + 1 && |weather| == |moves|
    && worlds[0] == Start(worlds[0].store.maximum)
    && forall i :: 0 <= i < |moves| ==> StepUnder(worlds, moves, weather, i)
  }

  ghost predicate CalmUntil(worlds: seq<World>, moves: seq<Move>, weather: seq<Weather>, n: nat)
    requires ReachableUnder(worlds, moves, weather) && n <= |moves|
  {
    forall i :: 0 <= i < n ==> !Overtakes(worlds[i], moves[i], weather[i])
  }

  lemma {:induction false} ReachableUnderLinked(worlds: seq<World>, moves: seq<Move>, weather: seq<Weather>, n: nat)
    requires ReachableUnder(worlds, moves, weather) && n <= |moves| && CalmUntil(worlds, moves, weather, n)
    ensures Linked(worlds[n])
    decreases n
  {
    hide Linked, AfterUnder, Overtakes, Enabled;
    if n == 0 {
      StartLinked(worlds[0].store.maximum);
    } else {
      ReachableUnderLinked(worlds, moves, weather, n - 1);
      assert StepUnder(worlds, moves, weather, n - 1);
      MoveUnderKeeps(worlds[n - 1], moves[n - 1], weather[n - 1]);
    }
  }

  lemma StartLinked(maximum: nat)
    ensures Linked(Start(maximum))
  {}

  ghost predicate OrderedUntil(worlds: seq<World>, n: nat) {
    forall i :: 0 <= i <= n && i < |worlds| ==> AllInOrder(worlds[i].links)
  }

  /** Over every run under any backpressure: the messages in flight to every receiver page are consecutive, from the
      number it expects, in all worlds up to any point if and only if no tick before it overtook a session. */
  lemma {:induction false} NumberingExactly(worlds: seq<World>, moves: seq<Move>, weather: seq<Weather>, n: nat)
    requires ReachableUnder(worlds, moves, weather) && n <= |moves|
    ensures OrderedUntil(worlds, n) <==> CalmUntil(worlds, moves, weather, n)
    decreases n
  {
    hide Linked, AfterUnder, Overtakes, Enabled, AllInOrder;
    if n == 0 {
      StartLinked(worlds[0].store.maximum);
      LinkedInOrder(worlds[0]);
    } else {
      NumberingExactly(worlds, moves, weather, n - 1);
      if CalmUntil(worlds, moves, weather, n - 1) {
        ReachableUnderLinked(worlds, moves, weather, n - 1);
        assert StepUnder(worlds, moves, weather, n - 1);
        MoveOrderExactly(worlds[n - 1], moves[n - 1], weather[n - 1]);
      }
    }
  }

  /** Until then, in both directions the messages in flight are numbered exactly from the consumer's next expected
      number to the producer's last, full sockets or not. */
  lemma InFlightUnder(worlds: seq<World>, moves: seq<Move>, weather: seq<Weather>, n: nat, id: string)
    requires ReachableUnder(worlds, moves, weather) && n <= |moves| && CalmUntil(worlds, moves, weather, n)
    requires id in worlds[n].store.sessions && worlds[n].store.sessions[id].receiver.Some?
    ensures var r := worlds[n].store.sessions[id].receiver.value;
            && r.connectionId in worlds[n].links
            && var l := worlds[n].links[r.connectionId];
            && l.client.ReceiverClient? ==>
                 && |l.up| == l.client.clientSequence + 1 - r.expectedClient
                 && (forall k :: 0 <= k < |l.up| ==> l.up[k].sequence == r.expectedClient + k)
                 && (l.open ==> |l.down| == r.nextServer - 1 - l.client.serverSequence)
                 && (forall k :: 0 <= k < |l.down| ==> l.down[k].sequence == l.client.serverSequence + 1 + k)
  {
    hide Valid, AfterUnder, Overtakes, Enabled;
    ReachableUnderLinked(worlds, moves, weather, n);
    var w := worlds[n];
    assert SessionOk(w.links, w.store.sessions[id]);
    var c := w.store.sessions[id].receiver.value.connectionId;
    assert LinkOk(c, w.links[c], w.store.nextGeneration);
  }
}
