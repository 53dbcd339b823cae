/** A timer tick with full sockets: exactly when the receivers' messages stay in order. */
module BackpressureTick {
  import opened Common
  import opened SignalingTypes
  import opened SessionTransitions
  import opened StoreSpec
  import opened StoreInvariant
  import opened SignalingProtocol
  import opened SequenceAgreement
  import opened SignalDispatch
  import opened Backpressure

  // The tick as the server runs it: every session is visited, then everything is dispatched.
  function TickUnder(w: World, order: seq<string>, now: Time, late: map<string, Time>, pressure: Pressure,
                     clock: Readings): World {
    var (store, actions) := TickPass(w.store, order, now, late);
    DispatchUnder(World(store, w.links), actions, pressure, clock)
  }

  // One session visited and dispatched on its own.
  function VisitUnder(w: World, id: string, now: Time, late: Time, pressure: Pressure, clock: Readings): World
    requires id in w.store.sessions
  {
    var (store, actions) := TickOne(w.store, id, now, late);
    DispatchUnder(World(store, w.links), actions, pressure, clock)
  }

  // The sessions visited and dispatched one after the other.
  function Interleaved(w: World, order: seq<string>, now: Time, late: map<string, Time>, pressure: Pressure,
                       clock: Readings)
    : World
    decreases |order|
  {
    if order == [] then w
    else
      var v := Interleaved(w, order[..|order| - 1], now, late, pressure, clock);
      var id := order[|order| - 1];
      if id !in v.store.sessions || id !in late then v else VisitUnder(v, id, now, late[id], pressure, clock)
  }

  // -------- dispatch stays within a session --------

  ghost predicate NotOf(l: Link, id: string) { l.binding.Some? ==> l.binding.value.sessionId != id }

  ghost predicate PeersAway(links: map<nat, Link>, s: Session, id: string) {
    && (s.owner.connectionId in links ==> NotOf(links[s.owner.connectionId], id))
    && (s.receiver.Some? && s.receiver.value.connectionId in links ==> NotOf(links[s.receiver.value.connectionId], id))
  }

  // Nothing here can reach session `id`.
  ghost predicate Away(w: World, actions: seq<Action>, id: string) {
    && (forall i :: 0 <= i < |actions| && actions[i].connectionId in w.links ==>
          NotOf(w.links[actions[i].connectionId], id))
    && (forall id' :: id' in w.store.sessions && id' != id ==> PeersAway(w.links, w.store.sessions[id'], id))
  }

  lemma SettleSwap(st: Store, a: string, x: Option<Session>, b: string, y: Option<Session>)
    requires a != b
    ensures Settle(Settle(st, a, x), b, y) == Settle(Settle(st, b, y), a, x)
  {
    assert Settle(Settle(st, a, x), b, y).sessions == Settle(Settle(st, b, y), a, x).sessions;
  }

  lemma DisconnectAway(st: Store, b: Binding, reason: Reason, now: Time, id: string, x: Option<Session>)
    requires b.sessionId != id
    ensures Disconnect(Settle(st, id, x), b, reason, now)
            == (Settle(Disconnect(st, b, reason, now).0, id, x), Disconnect(st, b, reason, now).1)
  {
    hide Revoke, DetachReceiver;
    if Matches(st, b) {
      var s := st.sessions[b.sessionId];
      var y := if b.role == Owner then None else Some(DetachReceiver(s, reason, false, now).0);
      SettleSwap(st, id, x, b.sessionId, y);
    }
  }

  // What a clean-up leaves is as far away.
  lemma CleanUpAway(w: World, actions: seq<Action>, id: string, c: nat, clock: Readings)
    requires Away(w, actions, id) && c in w.links && NotOf(w.links[c], id)
    ensures var (mid, nested) := CleanUp(w, c, clock);
            && Away(mid, nested, id) && Away(mid, actions, id)
            && (id in mid.store.sessions <==> id in w.store.sessions)
            && (id in w.store.sessions ==> mid.store.sessions[id] == w.store.sessions[id])
  {
    var (mid, nested) := CleanUp(w, c, clock);
    if w.links[c].binding.Some? && Matches(w.store, w.links[c].binding.value) {
      var k := w.links[c].binding.value.sessionId;
      assert PeersAway(w.links, w.store.sessions[k], id);
      forall id' | id' in mid.store.sessions && id' != id
        ensures PeersAway(mid.links, mid.store.sessions[id'], id)
      {
        assert PeersAway(w.links, w.store.sessions[id'], id);
      }
    }
  }

  lemma OneAway(w: World, actions: seq<Action>, id: string)
    requires Away(w, actions, id) && actions != []
    ensures Away(World(w.store, DispatchOne(w.links, actions[0])), actions[1..], id)
  {
    var next := World(w.store, DispatchOne(w.links, actions[0]));
    forall id' | id' in next.store.sessions && id' != id
      ensures PeersAway(next.links, next.store.sessions[id'], id)
    {
      assert PeersAway(w.links, w.store.sessions[id'], id);
    }
  }

  ghost predicate Untouched(w: World, v: World, id: string) {
    && (id in v.store.sessions <==> id in w.store.sessions)
    && (id in w.store.sessions ==> v.store.sessions[id] == w.store.sessions[id])
    && v.links.Keys == w.links.Keys
    && (forall c :: c in w.links && !NotOf(w.links[c], id) ==> v.links[c] == w.links[c])
  }

  // A dispatch away from a session neither touches it nor depends on it.
  lemma {:induction false} DispatchAway(w: World, actions: seq<Action>, id: string, x: Option<Session>,
                                        pressure: Pressure, clock: Readings)
    requires Away(w, actions, id)
    ensures var v := DispatchUnder(w, actions, pressure, clock);
            && Untouched(w, v, id) && Away(v, [], id)
            && DispatchUnder(World(Settle(w.store, id, x), w.links), actions, pressure, clock)
               == World(Settle(v.store, id, x), v.links)
    decreases Attached(w.store), |actions|
  {
    hide Settle, CleanUp, Attached, Disconnect;
    var w' := World(Settle(w.store, id, x), w.links);
    if actions == [] {
    } else if !Blocked(w, actions[0], pressure) {
      OneAway(w, actions, id);
      DispatchAway(World(w.store, DispatchOne(w.links, actions[0])), actions[1..], id, x, pressure, clock);
    } else {
      var c := actions[0].connectionId;
      CleanUpDetaches(w, c, clock);
      CleanUpAway(w, actions, id, c, clock);
      CleanUpSwap(w, c, id, x, clock);
      var (mid, nested) := CleanUp(w, c, clock);
      DispatchAway(mid, nested, id, x, pressure, clock);
      var inner := DispatchUnder(mid, nested, pressure, clock);
      RestAway(w, mid, inner, actions, id, pressure, clock, nested, c);
      DispatchAway(inner, actions[1..], id, x, pressure, clock);
    }
  }

  lemma CleanUpSwap(w: World, c: nat, id: string, x: Option<Session>, clock: Readings)
    requires c in w.links && NotOf(w.links[c], id)
    ensures var (mid, nested) := CleanUp(w, c, clock);
            && CleanUp(World(Settle(w.store, id, x), w.links), c, clock)
               == (World(Settle(mid.store, id, x), mid.links), nested)
            && mid.links == Shut(w.links, c)
  {
    hide Settle, Disconnect;
    if w.links[c].binding.Some? {
      DisconnectAway(w.store, w.links[c].binding.value, External("SIGNAL_BACKPRESSURE"), clock(c), id, x);
    }
  }

  // The rest of the list after the clean-up has been dispatched.
  lemma RestAway(w: World, mid: World, inner: World, actions: seq<Action>, id: string, pressure: Pressure,
                 clock: Readings,
                 nested: seq<Action>, c: nat)
    requires actions != [] && c in w.links && mid.links == Shut(w.links, c) && NotOf(w.links[c], id)
    requires Away(w, actions, id) && inner == DispatchUnder(mid, nested, pressure, clock) && Away(inner, [], id)
    requires Untouched(mid, inner, id)
    ensures Away(inner, actions[1..], id)
    ensures forall e :: e in w.links && !NotOf(w.links[e], id) ==> inner.links[e] == w.links[e]
  {
    forall i | 0 <= i < |actions[1..]| && actions[1..][i].connectionId in inner.links
      ensures NotOf(inner.links[actions[1..][i].connectionId], id)
    {
      var e := actions[1..][i].connectionId;
      assert actions[1..][i] == actions[i + 1];
      ClosedStays(mid, nested, pressure, clock, e);
    }
  }

  // A linked session's actions stay within it.
  lemma VisitAway(w: World, id': string, now: Time, late: Time, id: string)
    requires Linked(w) && id' in w.store.sessions && id' != id
    ensures var (store, actions) := TickOne(w.store, id', now, late); Away(World(store, w.links), actions, id)
  {
    hide TickSession, Coherent, LinkOk;
    var s := w.store.sessions[id'];
    SessionFacts(w, id');
    SocketsApart(w.links, s, s);
    TickKeeps(s, now, late);
    TickNumbered(s, now, late);
    var (store, actions) := TickOne(w.store, id', now, late);
    assert PeersAway(w.links, s, id);
    forall k | k in store.sessions && k != id
      ensures PeersAway(w.links, store.sessions[k], id)
    {
      SessionFacts(w, k);
    }
  }

  ghost predicate Distinct(order: seq<string>) { forall i, j :: 0 <= i < j < |order| ==> order[i] != order[j] }

  lemma {:induction false} PassElsewhere(st: Store, order: seq<string>, now: Time, late: map<string, Time>, id: string)
    requires id !in order
    ensures var after := TickPass(st, order, now, late).0;
            && (id in after.sessions <==> id in st.sessions)
            && (id in st.sessions ==> after.sessions[id] == st.sessions[id])
    decreases |order|
  {
    hide TickSession;
    if order != [] {
      PassElsewhere(st, order[..|order| - 1], now, late, id);
    }
  }

  // A pass over other sessions stays away from this one.
  lemma {:induction false} PassAway(w: World, order: seq<string>, now: Time, late: map<string, Time>, id: string)
    requires Linked(w) && Distinct(order) && id !in order
    ensures var (store, actions) := TickPass(w.store, order, now, late); Away(World(store, w.links), actions, id)
    decreases |order|
  {
    hide TickSession, Linked, PeersAway, NotOf;
    if order == [] {
      AllAway(w, id);
    } else {
      var front, last := order[..|order| - 1], order[|order| - 1];
      PassAway(w, front, now, late, id);
      assert last !in front;
      PassElsewhere(w.store, front, now, late, last);
      var (mid, acts) := TickPass(w.store, front, now, late);
      if last in mid.sessions && last in late {
        VisitAway(w, last, now, late[last], id);
        SameVisit(w.store, mid, last, now, late[last]);
        var (store, more) := TickOne(mid, last, now, late[last]);
        forall i | 0 <= i < |acts + more| && (acts + more)[i].connectionId in w.links
          ensures NotOf(w.links[(acts + more)[i].connectionId], id)
        {
          if i >= |acts| { assert (acts + more)[i] == more[i - |acts|]; }
        }
        forall k | k in store.sessions && k != id
          ensures PeersAway(w.links, store.sessions[k], id)
        {
          if k != last { assert store.sessions[k] == mid.sessions[k]; }
        }
      }
    }
  }

  lemma AllAway(w: World, id: string)
    requires Linked(w)
    ensures Away(w, [], id)
  {
    hide Coherent, LinkOk;
    forall k | k in w.store.sessions && k != id
      ensures PeersAway(w.links, w.store.sessions[k], id)
    {
      SessionFacts(w, k);
    }
  }

  // A visit depends on its own session only.
  lemma SameVisit(st: Store, mid: Store, id: string, now: Time, late: Time)
    requires id in st.sessions && id in mid.sessions && st.sessions[id] == mid.sessions[id]
    ensures TickOne(mid, id, now, late)
            == (Settle(mid, id, TickSession(st.sessions[id], now, late).0), TickOne(st, id, now, late).1)
    ensures var after := TickSession(st.sessions[id], now, late).0;
            && (id in TickOne(st, id, now, late).0.sessions <==> after.Some?)
            && (id in TickOne(mid, id, now, late).0.sessions <==> after.Some?)
            && (after.Some? ==> TickOne(st, id, now, late).0.sessions[id] == TickOne(mid, id, now, late).0.sessions[id])
  {
    hide TickSession;
  }

  /** Sessions keep to their own sockets, so the tick is the same as visiting and dispatching them one after the
      other. */
  lemma {:induction false} TickInterleaves(w: World, order: seq<string>, now: Time, late: map<string, Time>,
                                           pressure: Pressure, clock: Readings)
    requires Linked(w) && Distinct(order)
    ensures TickUnder(w, order, now, late, pressure, clock) == Interleaved(w, order, now, late, pressure, clock)
    decreases |order|
  {
    hide TickSession, Linked, DispatchUnder, Settle;
    if order == [] {
      UnderNothing(w, pressure, clock);
    } else {
      var front, id := order[..|order| - 1], order[|order| - 1];
      TickInterleaves(w, front, now, late, pressure, clock);
      assert id !in front;
      var (mid, acts) := TickPass(w.store, front, now, late);
      var v := DispatchUnder(World(mid, w.links), acts, pressure, clock);
      PassElsewhere(w.store, front, now, late, id);
      PassAway(w, front, now, late, id);
      DispatchAway(World(mid, w.links), acts, id, None, pressure, clock);
      if id in mid.sessions && id in late {
        var (x, more) := TickSession(mid.sessions[id], now, late[id]);
        SameVisit(mid, v.store, id, now, late[id]);
        UnderAppend(World(Settle(mid, id, x), w.links), acts, more, pressure, clock);
        DispatchAway(World(mid, w.links), acts, id, x, pressure, clock);
      }
    }
  }

  lemma UnderNothing(w: World, pressure: Pressure, clock: Readings)
    ensures DispatchUnder(w, [], pressure, clock) == w
  {}

  // -------- one visit --------

  // Both heartbeats are due to a session inside its deadlines.
  ghost predicate BothDue(s: Session, now: Time) {
    && Inside(s, now) && s.receiver.Some?
    && now >= s.owner.nextHeartbeat && now >= s.receiver.value.nextHeartbeat
  }

  predicate Full(links: map<nat, Link>, c: nat, pressure: Pressure) {
    c in links && links[c].open && pressure(c, |links[c].down|)
  }

  // SESSION_REVOKED overtakes the heartbeat: the owner's socket is full, the receiver page's is open and is not.
  ghost predicate Overtaken(w: World, id: string, now: Time, pressure: Pressure)
    requires id in w.store.sessions
  {
    var s := w.store.sessions[id];
    && BothDue(s, now) && Full(w.links, s.owner.connectionId, pressure)
    && var r := s.receiver.value.connectionId;
    && r in w.links && w.links[r].open && w.links[r].client.ReceiverClient? && !pressure(r, |w.links[r].down|)
  }

  // A visit that leaves a receiver sends at most one message, or both heartbeats.
  lemma TickShape(s: Session, now: Time, late: Time)
    requires Coherent(s) && now <= late
    ensures var (after, actions) := TickSession(s, now, late);
            after.Some? && after.value.receiver.Some? ==>
              && (forall i :: 0 <= i < |actions| ==> actions[i].Send?)
              && (|actions| <= 1 || BothDue(s, now))
  {
    OverdueInside(s, now, late);
  }

  lemma BothBeats(s: Session, now: Time, late: Time)
    requires Coherent(s) && BothDue(s, now) && now <= late
    ensures var (after, actions) := TickSession(s, now, late);
            && after.Some? && after.value.receiver.Some? && |actions| == 2
            && after.value.id == s.id
            && after.value.owner.connectionId == s.owner.connectionId
               && after.value.owner.generation == s.owner.generation
            && after.value.receiver.value.connectionId == s.receiver.value.connectionId
            && after.value.receiver.value.generation == s.receiver.value.generation
            && after.value.receiver.value.nextServer == s.receiver.value.nextServer + 1
            && actions[0].Send? && actions[0].connectionId == s.owner.connectionId
            && actions[1].Send? && actions[1].connectionId == s.receiver.value.connectionId
            && actions[1].envelope.sequence == s.receiver.value.nextServer
  {
    OverdueInside(s, now, late);
  }

  // One session's actions do not concern the others.
  lemma OthersPolite(w: World, s: Session, actions: seq<Action>, id: string)
    requires Linked(w) && s.id in w.store.sessions && w.store.sessions[s.id] == s && Own(s, actions)
    requires id in w.store.sessions && id != s.id
    ensures PoliteTo(w.store.sessions[id], actions)
  {
    hide Linked, LinkOk, Coherent;
    var t := w.store.sessions[id];
    SessionFacts(w, id);
    SessionFacts(w, s.id);
    SocketsApart(w.links, t, s);
    assert PoliteTo(t, []);
    PoliteInsert(t, actions, []);
    assert actions + [] == actions;
  }

  lemma ShortPolite(s: Session, actions: seq<Action>)
    requires |actions| <= 1 && forall i :: 0 <= i < |actions| ==> actions[i].Send?
    ensures PoliteTo(s, actions)
  {}

  lemma QuietVisit(w: World, id: string, now: Time, late: Time, pressure: Pressure, clock: Readings)
    requires Linked(w) && id in w.store.sessions && now <= late && !BothDue(w.store.sessions[id], now)
    ensures Linked(VisitUnder(w, id, now, late, pressure, clock))
  {
    hide Linked, TickSession, Dispatch, DispatchUnder, PoliteTo, BothDue;
    var s := w.store.sessions[id];
    SessionFacts(w, id);
    SocketsApart(w.links, s, s);
    TickNumbered(s, now, late);
    TickShape(s, now, late);
    TickOneKeeps(w, id, now, late);
    var (store, actions) := TickOne(w.store, id, now, late);
    forall k | k in store.sessions ensures PoliteTo(store.sessions[k], actions) {
      if k == id {
        var t := store.sessions[id];
        if t.receiver.Some? { ShortPolite(t, actions); } else { AlonePolite(t, actions); }
      } else {
        OthersPolite(w, s, actions, k);
      }
    }
    UnderKeeps(World(store, w.links), actions, pressure, clock);
  }

  lemma UnderOne(w: World, a: Action, pressure: Pressure, clock: Readings)
    ensures DispatchUnder(w, [a], pressure, clock)
            == if !Blocked(w, a, pressure) then World(w.store, DispatchOne(w.links, a))
               else DispatchUnder(CleanUp(w, a.connectionId, clock).0, CleanUp(w, a.connectionId, clock).1, pressure,
                                  clock)
  {
    assert [a][1..] == [];
    if Blocked(w, a, pressure) {
      CleanUpDetaches(w, a.connectionId, clock);
      var (mid, nested) := CleanUp(w, a.connectionId, clock);
      UnderNothing(DispatchUnder(mid, nested, pressure, clock), pressure, clock);
    }
  }

  lemma {:induction false} UnderClosed(w: World, actions: seq<Action>, c: nat, pressure: Pressure, clock: Readings)
    requires c in w.links && !w.links[c].open && forall i :: 0 <= i < |actions| ==> actions[i].connectionId == c
    ensures DispatchUnder(w, actions, pressure, clock) == w
    decreases |actions|
  {
    if actions != [] {
      assert w.links[c := w.links[c].(open := false)] == w.links;
      assert DispatchOne(w.links, actions[0]) == w.links;
      UnderClosed(w, actions[1..], c, pressure, clock);
    }
  }

  // What a last message, a close and one message too many leave of a socket no session uses.
  function Left(l: Link, full: bool, e: Envelope): Link {
    if !l.open then l else if full then l.(open := false) else l.(open := false, down := l.down + [e])
  }

  lemma Leaving(w: World, r: nat, e: Envelope, reason: Reason, more: seq<Action>, pressure: Pressure, clock: Readings)
    requires r in w.links && !w.links[r].gone
    requires (w.links[r].binding.Some? ==> !Matches(w.store, w.links[r].binding.value))
    requires forall i :: 0 <= i < |more| ==> more[i].connectionId == r
    ensures DispatchUnder(w, [Send(r, e), Close(r, reason)] + more, pressure, clock)
            == World(w.store, w.links[r := Left(w.links[r], pressure(r, |w.links[r].down|), e)])
  {
    hide DispatchUnder;
    var list := [Send(r, e), Close(r, reason)] + more;
    var rest := [Close(r, reason)] + more;
    assert list == [Send(r, e)] + rest;
    UnderAppend(w, [Send(r, e)], rest, pressure, clock);
    UnderOne(w, Send(r, e), pressure, clock);
    var w1 := DispatchUnder(w, [Send(r, e)], pressure, clock);
    if Blocked(w, Send(r, e), pressure) {
      if w.links[r].binding.Some? {
        DisconnectDetaches(w.store, w.links[r].binding.value, External("SIGNAL_BACKPRESSURE"), clock(r));
      }
      UnderNothing(World(w.store, Shut(w.links, r)), pressure, clock);
      UnderClosed(w1, rest, r, pressure, clock);
    } else if !w.links[r].open {
      assert w.links[r := w.links[r]] == w.links;
      UnderClosed(w1, rest, r, pressure, clock);
    } else {
      UnderAppend(w1, [Close(r, reason)], more, pressure, clock);
      UnderOne(w1, Close(r, reason), pressure, clock);
      var w2 := DispatchUnder(w1, [Close(r, reason)], pressure, clock);
      assert w2 == World(w.store, w.links[r := Left(w.links[r], false, e)]);
      UnderClosed(w2, more, r, pressure, clock);
    }
  }

  // Both heartbeats due and the owner's socket full: the session is gone, and this is what its sockets are left with.
  lemma BlockedBeats(w: World, id: string, now: Time, late: Time, pressure: Pressure, clock: Readings)
    returns (e: Envelope)
    requires Linked(w) && id in w.store.sessions && now <= late && BothDue(w.store.sessions[id], now)
    requires Full(w.links, w.store.sessions[id].owner.connectionId, pressure)
    ensures var s := w.store.sessions[id];
            var o, r := s.owner.connectionId, s.receiver.value.connectionId;
            && o != r && o in w.links && r in w.links
            && e.sequence == s.receiver.value.nextServer + 1
            && VisitUnder(w, id, now, late, pressure, clock)
               == World(Settle(w.store, id, None),
                        Shut(w.links, o)[r := Left(w.links[r], pressure(r, |w.links[r].down|), e)])
  {
    hide Linked, TickSession, DispatchUnder, Coherent, LinkOk;
    var s := w.store.sessions[id];
    SessionFacts(w, id);
    SocketsApart(w.links, s, s);
    BothBeats(s, now, late);
    var o, r := s.owner.connectionId, s.receiver.value.connectionId;
    var (store, actions) := TickOne(w.store, id, now, late);
    var start := World(store, w.links);
    var t := store.sessions[id];
    var reason := External("SIGNAL_BACKPRESSURE");
    assert actions == [actions[0]] + [actions[1]];
    UnderAppend(start, [actions[0]], [actions[1]], pressure, clock);
    UnderOne(start, actions[0], pressure, clock);
    var (mid, nested) := CleanUp(start, o, clock);
    e := Envelope(t.id, t.receiver.value.nextServer, NoticeSessionRevoked(reason));
    assert nested == [Send(r, e), Close(r, reason)];
    assert mid.store == Settle(w.store, id, None) by { assert mid.store.sessions == w.store.sessions - {id}; }
    UnderAppend(mid, nested, [actions[1]], pressure, clock);
    Leaving(mid, r, e, reason, [actions[1]], pressure, clock);
  }

  lemma BeatsVisit(w: World, id: string, now: Time, late: Time, pressure: Pressure, clock: Readings)
    requires Linked(w) && id in w.store.sessions && now <= late && BothDue(w.store.sessions[id], now)
    requires !Full(w.links, w.store.sessions[id].owner.connectionId, pressure)
    ensures Linked(VisitUnder(w, id, now, late, pressure, clock))
  {
    hide Linked, TickSession, Dispatch, Coherent, LinkOk, PoliteTo;
    var s := w.store.sessions[id];
    SessionFacts(w, id);
    SocketsApart(w.links, s, s);
    BothBeats(s, now, late);
    TickOneKeeps(w, id, now, late);
    var (store, actions) := TickOne(w.store, id, now, late);
    DispatchHead(w.links, actions);
    forall k | k in store.sessions ensures PoliteTo(store.sessions[k], actions[1..]) {
      ShortPolite(store.sessions[k], actions[1..]);
    }
    UnderKeeps(World(store, DispatchOne(w.links, actions[0])), actions[1..], pressure, clock);
  }

  lemma LeftAlike(c: nat, l: Link, full: bool, e: Envelope, next: nat)
    requires LinkOk(c, l, next) && (l.client.ReceiverClient? && l.open ==> full)
    ensures Alike(c, l, Left(l, full, e), next)
  {}

  lemma BlockedVisit(w: World, id: string, now: Time, late: Time, pressure: Pressure, clock: Readings)
    requires Linked(w) && id in w.store.sessions && now <= late && BothDue(w.store.sessions[id], now)
    requires Full(w.links, w.store.sessions[id].owner.connectionId, pressure) && !Overtaken(w, id, now, pressure)
    ensures Linked(VisitUnder(w, id, now, late, pressure, clock))
  {
    hide Linked, TickSession, VisitUnder, LinkOk;
    var s := w.store.sessions[id];
    var e := BlockedBeats(w, id, now, late, pressure, clock);
    var o, r := s.owner.connectionId, s.receiver.value.connectionId;
    var full := pressure(r, |w.links[r].down|);
    var links := Shut(w.links, o)[r := Left(w.links[r], full, e)];
    GoneKept(s);
    Shrinks(w.store, w.links, id, None);
    var store := Settle(w.store, id, None);
    forall c | c in w.links ensures Alike(c, w.links[c], links[c], store.nextGeneration) {
      LinkedLink(w, c);
      if c == r {
        LeftAlike(c, w.links[c], full, e, store.nextGeneration);
      } else if c == o {
        ShutOk(c, w.links[c], links[c], store.nextGeneration);
      }
    }
    Transfer(store, w.links, links);
  }

  lemma VisitKeeps(w: World, id: string, now: Time, late: Time, pressure: Pressure, clock: Readings)
    requires Linked(w) && id in w.store.sessions && now <= late && !Overtaken(w, id, now, pressure)
    ensures Linked(VisitUnder(w, id, now, late, pressure, clock))
  {
    hide Linked, VisitUnder, Inside;
    if !BothDue(w.store.sessions[id], now) {
      QuietVisit(w, id, now, late, pressure, clock);
    } else if Full(w.links, w.store.sessions[id].owner.connectionId, pressure) {
      BlockedVisit(w, id, now, late, pressure, clock);
    } else {
      BeatsVisit(w, id, now, late, pressure, clock);
    }
  }

  ghost predicate InOrder(l: Link) {
    l.client.ReceiverClient? ==> forall i :: 0 <= i < |l.down| ==> l.down[i].sequence == l.client.serverSequence + 1 + i
  }

  lemma OvertakenVisit(w: World, id: string, now: Time, late: Time, pressure: Pressure, clock: Readings)
    requires Linked(w) && id in w.store.sessions && now <= late && Overtaken(w, id, now, pressure)
    ensures w.store.sessions[id].receiver.Some?
    ensures var r := w.store.sessions[id].receiver.value.connectionId;
            var after := VisitUnder(w, id, now, late, pressure, clock);
            r in after.links && !after.links[r].open && !InOrder(after.links[r])
  {
    hide Linked, TickSession, VisitUnder, LinkOk, Inside;
    var s := w.store.sessions[id];
    var e := BlockedBeats(w, id, now, late, pressure, clock);
    var r := s.receiver.value.connectionId;
    SessionFacts(w, id);
    var l := Left(w.links[r], false, e);
    assert l.down[|w.links[r].down|] == e;
  }

  // -------- the whole tick --------

  lemma VisitElsewhere(w: World, id': string, now: Time, late: Time, id: string, pressure: Pressure, clock: Readings)
    requires Linked(w) && id' in w.store.sessions && id' != id
    ensures Untouched(w, VisitUnder(w, id', now, late, pressure, clock), id)
  {
    hide Linked, TickSession, DispatchUnder;
    VisitAway(w, id', now, late, id);
    var (store, actions) := TickOne(w.store, id', now, late);
    DispatchAway(World(store, w.links), actions, id, None, pressure, clock);
  }

  // A session whose record and sockets are as they were is overtaken or not as it was.
  lemma SameOvertaken(w: World, v: World, id: string, now: Time, pressure: Pressure)
    requires Linked(w) && Untouched(w, v, id) && id in w.store.sessions
    ensures id in v.store.sessions && (Overtaken(v, id, now, pressure) <==> Overtaken(w, id, now, pressure))
  {
    hide Linked, LinkOk, Inside, Coherent;
    SessionFacts(w, id);
  }

  lemma {:induction false} InterleavedKeeps(w: World, order: seq<string>, now: Time, late: map<string, Time>,
                                            pressure: Pressure, clock: Readings)
    requires Linked(w) && Distinct(order)
    requires forall id :: id in order ==> id in w.store.sessions && id in late && now <= late[id]
    requires forall id :: id in order ==> !Overtaken(w, id, now, pressure)
    ensures var v := Interleaved(w, order, now, late, pressure, clock);
            Linked(v) && forall id :: id in w.store.sessions && id !in order ==> Untouched(w, v, id)
    decreases |order|
  {
    hide Linked, VisitUnder, Overtaken;
    if order != [] {
      var front, id := order[..|order| - 1], order[|order| - 1];
      InterleavedKeeps(w, front, now, late, pressure, clock);
      var u := Interleaved(w, front, now, late, pressure, clock);
      assert id !in front;
      assert id in order;
      SameOvertaken(w, u, id, now, pressure);
      VisitKeeps(u, id, now, late[id], pressure, clock);
      var v := VisitUnder(u, id, now, late[id], pressure, clock);
      forall k | k in w.store.sessions && k !in order
        ensures Untouched(w, v, k)
      {
        assert k !in front && k != id;
        VisitElsewhere(u, id, now, late[id], k, pressure, clock);
        UntouchedTwice(w, u, v, k);
      }
    }
  }

  lemma UntouchedTwice(w: World, u: World, v: World, id: string)
    requires Untouched(w, u, id) && Untouched(u, v, id)
    ensures Untouched(w, v, id)
  {}

  // A socket closed during the tick is left alone by the rest of it.
  lemma {:induction false} InterleavedClosed(w: World, order: seq<string>, n: nat, now: Time, late: map<string, Time>,
                                             pressure: Pressure, clock: Readings, c: nat)
    requires n <= |order|
    requires var v := Interleaved(w, order[..n], now, late, pressure, clock); c in v.links && !v.links[c].open
    ensures var v := Interleaved(w, order[..n], now, late, pressure, clock);
            c in Interleaved(w, order, now, late, pressure, clock).links
            && Interleaved(w, order, now, late, pressure, clock).links[c] == v.links[c]
    decreases |order| - n
  {
    hide TickSession, DispatchUnder;
    if n == |order| {
      assert order[..n] == order;
    } else {
      var u := Interleaved(w, order[..n], now, late, pressure, clock);
      assert order[..n + 1][..n] == order[..n] && order[..n + 1][n] == order[n];
      var id := order[n];
      if id in u.store.sessions && id in late {
        var (store, actions) := TickOne(u.store, id, now, late[id]);
        ClosedStays(World(store, u.links), actions, pressure, clock, c);
      }
      InterleavedClosed(w, order, n + 1, now, late, pressure, clock, c);
    }
  }

  ghost predicate AllInOrder(links: map<nat, Link>) { forall c :: c in links ==> InOrder(links[c]) }

  lemma LinkedInOrder(w: World)
    requires Linked(w)
    ensures AllInOrder(w.links)
  {
    hide Valid, SessionOk;
  }

  // The first overtaken session leaves its mark.
  lemma {:induction false} FirstOvertaken(w: World, order: seq<string>, now: Time, late: map<string, Time>,
                                          pressure: Pressure, clock: Readings, n: nat)
    requires Linked(w) && Distinct(order) && n < |order|
    requires forall id :: id in order ==> id in w.store.sessions && id in late && now <= late[id]
    requires Overtaken(w, order[n], now, pressure)
    requires forall m :: 0 <= m < n ==> !Overtaken(w, order[m], now, pressure)
    ensures !AllInOrder(Interleaved(w, order, now, late, pressure, clock).links)
  {
    hide Linked, VisitUnder, Overtaken, InOrder;
    var front, id := order[..n], order[n];
    InterleavedKeeps(w, front, now, late, pressure, clock);
    var u := Interleaved(w, front, now, late, pressure, clock);
    assert id !in front;
    SameOvertaken(w, u, id, now, pressure);
    OvertakenVisit(u, id, now, late[id], pressure, clock);
    assert order[..n + 1][..n] == front && order[..n + 1][n] == id;
    var r := u.store.sessions[id].receiver.value.connectionId;
    InterleavedClosed(w, order, n + 1, now, late, pressure, clock, r);
  }

  /** After a tick under any backpressure, every receiver page's messages are in order if and only if no session had
      both heartbeats due with its owner's socket full and its receiver's open and not full; and then the two sides are
      in step. */
  lemma TickOrderExactly(w: World, order: seq<string>, now: Time, late: map<string, Time>, pressure: Pressure,
                         clock: Readings)
    requires Linked(w) && TimerReady(w.store, now, order, late)
    ensures var after := TickUnder(w, order, now, late, pressure, clock);
            && (AllInOrder(after.links) <==> forall id :: id in w.store.sessions ==> !Overtaken(w, id, now, pressure))
            && (AllInOrder(after.links) <==> Linked(after))
  {
    hide Linked, TickUnder, Overtaken, AllInOrder, Interleaved;
    TickInterleaves(w, order, now, late, pressure, clock);
    if n :| 0 <= n < |order| && Overtaken(w, order[n], now, pressure) {
      var k := Least(w, order, now, pressure, n);
      FirstOvertaken(w, order, now, late, pressure, clock, k);
      if Linked(Interleaved(w, order, now, late, pressure, clock)) {
        LinkedInOrder(Interleaved(w, order, now, late, pressure, clock));
      }
      assert order[n] in order;
    } else {
      forall id | id in order ensures !Overtaken(w, id, now, pressure) {
        var i :| 0 <= i < |order| && order[i] == id;
      }
      InterleavedKeeps(w, order, now, late, pressure, clock);
      LinkedInOrder(Interleaved(w, order, now, late, pressure, clock));
    }
  }

  lemma {:induction false} Least(w: World, order: seq<string>, now: Time, pressure: Pressure, n: nat) returns (k: nat)
    requires n < |order| && forall id :: id in order ==> id in w.store.sessions
    requires Overtaken(w, order[n], now, pressure)
    ensures k <= n && Overtaken(w, order[k], now, pressure)
    ensures forall m :: 0 <= m < k ==> !Overtaken(w, order[m], now, pressure)
    decreases n
  {
    hide Overtaken;
    k := n;
    if m :| 0 <= m < n && Overtaken(w, order[m], now, pressure) {
      k := Least(w, order, now, pressure, m);
    }
  }
}
