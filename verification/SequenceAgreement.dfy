/** Every reachable world keeps the sequence numbers of the store and of the receiver clients in step. */
module SequenceAgreement {
  import opened Common
  import opened SignalingTypes
  import opened SessionTransitions
  import opened StoreSpec
  import opened StoreInvariant
  import opened SignalingProtocol

  ghost predicate AllLinksOk(links: map<nat, Link>, next: nat) {
    forall c :: c in links ==> LinkOk(c, links[c], next)
  }

  ghost predicate OthersOk(store: Store, links: map<nat, Link>, id: string) {
    forall id' :: id' in store.sessions && id' != id ==> SessionOk(links, store.sessions[id'])
  }

  // Two sessions never share a socket, and one session's peers have different sockets.
  lemma SocketsApart(links: map<nat, Link>, s: Session, t: Session)
    requires OwnerLinked(links, s) && ReceiverLinked(links, s)
    requires OwnerLinked(links, t) && ReceiverLinked(links, t)
    ensures Apart(s)
    ensures s.id != t.id ==>
              && s.owner.connectionId != t.owner.connectionId
              && (t.receiver.Some? ==> s.owner.connectionId != t.receiver.value.connectionId)
              && (s.receiver.Some? ==> s.receiver.value.connectionId != t.owner.connectionId)
              && (s.receiver.Some? && t.receiver.Some? ==>
                    s.receiver.value.connectionId != t.receiver.value.connectionId)
  {}

  // One socket through a dispatch of at most one correctly numbered send.
  lemma DispatchLink(links: map<nat, Link>, actions: seq<Action>, c: nat, next: nat)
    requires c in links && LinkOk(c, links[c], next)
    requires var sent := SendsTo(actions, c);
             links[c].client.ReceiverClient? ==>
               || sent == []
               || (&& |sent| == 1 && links[c].binding.Some?
                   && sent[0].sessionId == links[c].client.sessionId
                   && (links[c].open ==> sent[0].sequence == links[c].client.serverSequence + |links[c].down| + 1))
    ensures c in Dispatch(links, actions) && LinkOk(c, Dispatch(links, actions)[c], next)
  {
    DispatchEffect(links, actions, c);
    var l, l' := links[c], Dispatch(links, actions)[c];
    var sent := SendsTo(actions, c);
    if l.client.ReceiverClient? && |sent| == 1 {
      ClosedDispatch(links, actions, c);
      if l.open {
        assert forall i :: 0 <= i < |l.down + sent| ==> (l.down + sent)[i].sequence == l.client.serverSequence + 1 + i;
      }
      assert l'.down == l.down || l'.down == l.down + sent;
    }
  }

  lemma {:induction false} ClosedDispatch(links: map<nat, Link>, actions: seq<Action>, c: nat)
    requires c in links
    ensures c in Dispatch(links, actions)
    ensures !links[c].open ==> Dispatch(links, actions)[c] == links[c]
  {
    if actions != [] {
      ClosedDispatch(links, actions[..|actions| - 1], c);
    }
  }

  lemma DispatchSame(links: map<nat, Link>, actions: seq<Action>, c: nat)
    requires c in links && (forall i :: 0 <= i < |actions| ==> actions[i].connectionId != c)
    ensures c in Dispatch(links, actions) && Dispatch(links, actions)[c].down == links[c].down
  {
    DispatchEffect(links, actions, c);
    SendsToNobody(actions, c);
  }

  // A session none of whose peers is spoken to.
  lemma BystanderOk(links: map<nat, Link>, actions: seq<Action>, s: Session)
    requires SessionOk(links, s)
    requires forall i :: 0 <= i < |actions| ==> s.receiver.Some? ==>
               actions[i].connectionId != s.receiver.value.connectionId
    ensures SessionOk(Dispatch(links, actions), s)
  {
    DispatchEffect(links, actions, s.owner.connectionId);
    if s.receiver.Some? {
      DispatchEffect(links, actions, s.receiver.value.connectionId);
      DispatchSame(links, actions, s.receiver.value.connectionId);
    }
  }

  // The session acted upon, if it survives.
  lemma ActorOk(links: map<nat, Link>, s: Session, after: Session, actions: seq<Action>)
    requires OwnerLinked(links, s) && ReceiverLinked(links, s)
    requires ReceiverHeard(links, after)
    requires Continues(s, after) && Numbered(s, Some(after), actions)
    ensures SessionOk(Dispatch(links, actions), after)
  {
    DispatchEffect(links, actions, s.owner.connectionId);
    if after.receiver.Some? {
      DispatchEffect(links, actions, s.receiver.value.connectionId);
    }
  }

  lemma LinksAfter(links: map<nat, Link>, s: Session, after: Option<Session>, actions: seq<Action>, next: nat)
    requires AllLinksOk(links, next)
    requires OwnerLinked(links, s) && ReceiverLinked(links, s) && Numbered(s, after, actions)
    ensures AllLinksOk(Dispatch(links, actions), next)
  {
    DispatchKeys(links, actions);
    forall c | c in links
      ensures LinkOk(c, Dispatch(links, actions)[c], next)
    {
      if s.receiver.None? || c != s.receiver.value.connectionId {
        if c != s.owner.connectionId {
          SendsToNobody(actions, c);
        }
      }
      DispatchLink(links, actions, c, next);
    }
  }

  /** One session changes and its actions are dispatched. */
  lemma UpdateKeeps(store: Store, links: map<nat, Link>, id: string, after: Option<Session>, actions: seq<Action>)
    requires Valid(store) && id in store.sessions
    requires AllLinksOk(links, store.nextGeneration) && OthersOk(store, links, id)
    requires OwnerLinked(links, store.sessions[id]) && ReceiverLinked(links, store.sessions[id])
    requires Kept(store.sessions[id], after) && Numbered(store.sessions[id], after, actions)
    requires after.Some? ==> ReceiverHeard(links, after.value)
    ensures Linked(World(Settle(store, id, after), Dispatch(links, actions)))
  {
    hide Coherent, LinkOk, Dispatch, SessionOk;
    var s := store.sessions[id];
    SettleKeeps(store, id, after);
    LinksAfter(links, s, after, actions, store.nextGeneration);
    var store' := Settle(store, id, after);
    forall id' | id' in store'.sessions
      ensures SessionOk(Dispatch(links, actions), store'.sessions[id'])
    {
      if id' == id {
        ActorOk(links, s, after.value, actions);
      } else {
        var t := store.sessions[id'];
        assert SessionOk(links, t);
        Linkage(links, t);
        SocketsApart(links, t, s);
        BystanderOk(links, actions, t);
      }
    }
  }

  lemma Linkage(links: map<nat, Link>, s: Session)
    requires SessionOk(links, s)
    ensures OwnerLinked(links, s) && ReceiverLinked(links, s) && ReceiverHeard(links, s)
  {}

  // -------- the moves --------

  lemma TickOneKeeps(w: World, id: string, now: Time, late: Time)
    requires Linked(w) && id in w.store.sessions
    ensures var (store, actions) := TickOne(w.store, id, now, late); Linked(World(store, Dispatch(w.links, actions)))
  {
    hide TickSession, Coherent, LinkOk, Numbered, Dispatch;
    var s := w.store.sessions[id];
    assert SessionOk(w.links, s);
    SocketsApart(w.links, s, s);
    TickKeeps(s, now, late);
    TickNumbered(s, now, late);
    var (after, actions) := TickSession(s, now, late);
    UpdateKeeps(w.store, w.links, id, after, actions);
  }

  lemma {:induction false} TickPassLinked(w: World, order: seq<string>, now: Time, late: map<string, Time>)
    requires Linked(w)
    ensures var (store, actions) := TickPass(w.store, order, now, late);
            Linked(World(store, Dispatch(w.links, actions)))
  {
    hide TickOne, Linked, Dispatch;
    if order == [] {
      assert Dispatch(w.links, []) == w.links by { DispatchNothing(w.links); }
    } else {
      var before := order[..|order| - 1];
      TickPassLinked(w, before, now, late);
      var (mid, acts) := TickPass(w.store, before, now, late);
      var id := order[|order| - 1];
      if id in mid.sessions && id in late {
        TickOneKeeps(World(mid, Dispatch(w.links, acts)), id, now, late[id]);
        DispatchAppend(w.links, acts, TickOne(mid, id, now, late[id]).1);
      }
    }
  }

  lemma DispatchNothing(links: map<nat, Link>)
    ensures Dispatch(links, []) == links
  {}

  // No peer of any session uses socket `c`.
  ghost predicate Unseated(store: Store, c: nat) {
    forall id :: id in store.sessions ==>
      && store.sessions[id].owner.connectionId != c
      && (store.sessions[id].receiver.Some? ==> store.sessions[id].receiver.value.connectionId != c)
  }

  lemma UnmatchedUnseated(w: World, c: nat)
    requires Linked(w) && c in w.links
    requires w.links[c].binding.Some? ==> !Matches(w.store, w.links[c].binding.value)
    ensures Unseated(w.store, c)
  {
    hide Coherent, LinkOk;
    forall id | id in w.store.sessions
      ensures w.store.sessions[id].owner.connectionId != c
      ensures w.store.sessions[id].receiver.Some? ==> w.store.sessions[id].receiver.value.connectionId != c
    {
      assert SessionOk(w.links, w.store.sessions[id]);
    }
  }

  // A socket no session uses may change in any way its own invariant allows.
  lemma RelinkKeeps(w: World, c: nat, l: Link)
    requires Linked(w) && Unseated(w.store, c) && LinkOk(c, l, w.store.nextGeneration)
    ensures Linked(World(w.store, w.links[c := l]))
  {
    hide Coherent, LinkOk;
    forall id | id in w.store.sessions
      ensures SessionOk(w.links[c := l], w.store.sessions[id])
    {
      assert SessionOk(w.links, w.store.sessions[id]);
    }
  }

  // Any socket may stop being open.
  lemma ShutKeeps(w: World, c: nat)
    requires Linked(w) && c in w.links
    ensures Linked(World(w.store, Shut(w.links, c)))
  {
    hide Valid;
    forall id | id in w.store.sessions
      ensures SessionOk(Shut(w.links, c), w.store.sessions[id])
    {
      assert SessionOk(w.links, w.store.sessions[id]);
    }
  }

  lemma {:induction false} DispatchCommutes(links: map<nat, Link>, actions: seq<Action>, c: nat, l: Link)
    requires c in links && (forall i :: 0 <= i < |actions| ==> actions[i].connectionId != c)
    ensures Dispatch(links[c := l], actions) == Dispatch(links, actions)[c := l]
  {
    if actions != [] {
      DispatchCommutes(links, actions[..|actions| - 1], c, l);
    }
  }

  // Disconnecting a binding never speaks to the connection that left.
  lemma DepartureSilent(store: Store, b: Binding, reason: Reason, now: Time)
    requires Matches(store, b) && Apart(store.sessions[b.sessionId])
    ensures forall i :: 0 <= i < |Disconnect(store, b, reason, now).1| ==>
              Disconnect(store, b, reason, now).1[i].connectionId != b.connectionId
  {}

  lemma DisconnectLinked(w: World, c: nat, b: Binding, reason: Reason, now: Time)
    requires Linked(w) && c in w.links && w.links[c].binding == Some(b)
    ensures var (store, actions) := Disconnect(w.store, b, reason, now);
            && Linked(World(store, Dispatch(w.links, actions)))
            && Unseated(store, c)
            && store.nextGeneration == w.store.nextGeneration
            && (forall i :: 0 <= i < |actions| ==> actions[i].connectionId != c)
  {
    hide Coherent, LinkOk, Numbered, Dispatch, Revoke, DetachReceiver, Linked;
    var (store, actions) := Disconnect(w.store, b, reason, now);
    if Matches(w.store, b) {
      MatchedDisconnect(w, c, b, reason, now);
    } else {
      DispatchNothing(w.links);
    }
    DispatchKeys(w.links, actions);
    DispatchEffect(w.links, actions, c);
    DisconnectedStale(w.store, b, reason, now, w);
    UnmatchedUnseated(World(store, Dispatch(w.links, actions)), c);
  }

  lemma DisconnectedStale(store: Store, b: Binding, reason: Reason, now: Time, w: World)
    requires Linked(w) && w.store == store
    ensures !Matches(Disconnect(store, b, reason, now).0, b)
  {}

  lemma MatchedDisconnect(w: World, c: nat, b: Binding, reason: Reason, now: Time)
    requires Linked(w) && c in w.links && w.links[c].binding == Some(b) && Matches(w.store, b)
    ensures var (store, actions) := Disconnect(w.store, b, reason, now);
            && Linked(World(store, Dispatch(w.links, actions)))
            && (forall i :: 0 <= i < |actions| ==> actions[i].connectionId != c)
  {
    hide Coherent, LinkOk, Numbered, Dispatch, Revoke, DetachReceiver;
    var s := w.store.sessions[b.sessionId];
    assert SessionOk(w.links, s);
    SocketsApart(w.links, s, s);
    RevokeNumbered(s, reason, false);
    DetachNumbered(s, reason, false, now);
    DetachKeeps(s, reason, false, now);
    var (t, told) := DetachReceiver(s, reason, false, now);
    DepartureSilent(w.store, b, reason, now);
    if b.role == Owner {
      UpdateKeeps(w.store, w.links, b.sessionId, None, Revoke(s, reason, false));
    } else {
      UpdateKeeps(w.store, w.links, b.sessionId, Some(t), told);
    }
  }

  lemma DropKeeps(w: World, c: nat, l: Link, reason: Reason, now: Time)
    requires Linked(w) && c in w.links && LinkOk(c, l, w.store.nextGeneration) && l.binding == w.links[c].binding
    ensures Linked(Drop(w, w.links[c := l], c, reason, now))
  {
    hide Linked, Disconnect, Dispatch, LinkOk;
    if l.binding.None? {
      UnmatchedUnseated(w, c);
      RelinkKeeps(w, c, l);
    } else {
      var b := l.binding.value;
      DisconnectLinked(w, c, b, reason, now);
      var (store, actions) := Disconnect(w.store, b, reason, now);
      DispatchCommutes(w.links, actions, c, l);
      RelinkKeeps(World(store, Dispatch(w.links, actions)), c, l);
    }
  }

  // -------- messages --------

  lemma TakeOk(c: nat, l: Link, next: nat)
    requires LinkOk(c, l, next) && l.up != []
    ensures LinkOk(c, Take(l), next)
  {}

  // Reading a message moves the number expected next from a receiver client, if the store moves it too.
  lemma TakeHeard(links: map<nat, Link>, c: nat, s: Session, after: Session)
    requires c in links && links[c].up != []
    requires |links[c].up| <= (if links[c].client.ReceiverClient? then links[c].client.clientSequence
                               else |links[c].up|)
    requires SessionOk(links, s) && Continues(s, after)
    requires after.receiver.Some? ==>
               after.receiver.value.expectedClient
               == s.receiver.value.expectedClient + (if c == s.receiver.value.connectionId then 1 else 0)
    ensures ReceiverHeard(links[c := Take(links[c])], after)
  {}

  lemma TakeOthers(w: World, c: nat, id: string)
    requires Linked(w) && c in w.links && w.links[c].up != []
    requires forall id' :: id' in w.store.sessions && id' != id ==>
               (w.store.sessions[id'].receiver.Some? ==> w.store.sessions[id'].receiver.value.connectionId != c)
    ensures OthersOk(w.store, w.links[c := Take(w.links[c])], id)
    ensures AllLinksOk(w.links[c := Take(w.links[c])], w.store.nextGeneration)
  {
    hide Coherent, LinkOk;
    TakeOk(c, w.links[c], w.store.nextGeneration);
    forall id' | id' in w.store.sessions && id' != id
      ensures SessionOk(w.links[c := Take(w.links[c])], w.store.sessions[id'])
    {
      assert SessionOk(w.links, w.store.sessions[id']);
    }
  }

  lemma BoundReadKeeps(w: World, c: nat, b: Binding, clock: Clock, e: Entropy)
    requires Linked(w) && c in w.links && !w.links[c].gone && w.links[c].up != [] && w.links[c].binding == Some(b)
    requires b.sessionId in w.store.sessions
    ensures var (store, r) := HandleBound(w.store, b, w.links[c].up[0], clock, e);
            Linked(World(store, Dispatch(w.links[c := Take(w.links[c])], r.actions)))
  {
    hide Coherent, LinkOk, Numbered, Dispatch, OwnerMessage, ReceiverMessage, Take;
    var m := w.links[c].up[0];
    var id := b.sessionId;
    var s := w.store.sessions[id];
    var links := w.links[c := Take(w.links[c])];
    assert SessionOk(w.links, s);
    SocketsApart(w.links, s, s);
    MessageSound(s, b, m, clock, e.capability);
    BoundHere(w, c, b);
    TakeOthers(w, c, id);
    TakeSame(w.links[c]);
    if b.role == Owner {
      var o := OwnerMessage(s, b, m, clock, e.capability);
      OwnerMessageNumbered(s, b, m, clock, e.capability);
      if o.session.Some? {
        TakeHeard(w.links, c, s, o.session.value);
      }
      UpdateKeeps(w.store, links, id, o.session, o.actions);
    } else {
      var o := ReceiverMessage(s, b, m, clock);
      ReceiverMessageNumbered(s, b, m, clock);
      if o.session.Some? {
        TakeHeard(w.links, c, s, o.session.value);
      }
      UpdateKeeps(w.store, links, id, o.session, o.actions);
    }
  }

  lemma TakeSame(l: Link)
    requires l.up != []
    ensures Take(l).binding == l.binding && Take(l).gone == l.gone && Take(l).open == l.open
    ensures Take(l).down == l.down && Take(l).client == l.client
  {}

  // Facts a bound socket has by virtue of its binding.
  lemma BoundHere(w: World, c: nat, b: Binding)
    requires Linked(w) && c in w.links && w.links[c].binding == Some(b)
    ensures b.connectionId == c
    ensures forall id :: id in w.store.sessions && id != b.sessionId ==>
              (w.store.sessions[id].receiver.Some? ==> w.store.sessions[id].receiver.value.connectionId != c)
    ensures b.role == Owner && b.sessionId in w.store.sessions && w.store.sessions[b.sessionId].receiver.Some? ==>
              w.store.sessions[b.sessionId].receiver.value.connectionId != c
    ensures w.links[c].client.ReceiverClient? ==> |w.links[c].up| <= w.links[c].client.clientSequence
  {
    assert LinkOk(c, w.links[c], w.store.nextGeneration);
    forall id | id in w.store.sessions && w.store.sessions[id].receiver.Some?
      ensures w.store.sessions[id].receiver.value.connectionId == c ==> id == b.sessionId && b.role == Receiver
    {
      assert SessionOk(w.links, w.store.sessions[id]);
    }
  }

  // A new seat: the record before its first send is already linked, so the sends are an ordinary update.
  lemma AdmissionKeeps(w: World, c: nat, bound: Link, id: string, seat: Session, after: Session, actions: seq<Action>)
    requires Linked(w) && c in w.links && w.links[c].binding.None?
    requires var next := w.store.nextGeneration + 1;
             && Valid(Settle(w.store, id, Some(seat)).(nextGeneration := next))
             && LinkOk(c, bound, next)
             && OwnerLinked(w.links[c := bound], seat) && ReceiverLinked(w.links[c := bound], seat)
             && ReceiverHeard(w.links[c := bound], after)
    requires Kept(seat, Some(after)) && Numbered(seat, Some(after), actions)
    ensures Linked(World(Settle(w.store, id, Some(after)).(nextGeneration := w.store.nextGeneration + 1),
                         Dispatch(w.links[c := bound], actions)))
  {
    hide Coherent, Numbered, Dispatch, Valid;
    var store := Settle(w.store, id, Some(seat)).(nextGeneration := w.store.nextGeneration + 1);
    var links := w.links[c := bound];
    UnmatchedUnseated(w, c);
    forall id' | id' in store.sessions && id' != id
      ensures SessionOk(links, store.sessions[id'])
    {
      assert SessionOk(w.links, w.store.sessions[id']);
    }
    UpdateKeeps(store, links, id, Some(after), actions);
    assert Settle(store, id, Some(after)).sessions == w.store.sessions[id := after];
  }

  // The reserved record before its two sends.
  function Seat(s: Session, c: nat, g: nat, now: Time): Session {
    Consumed(s, now).(receiver := Some(NewPeer(c, g, 2, now)), offerSeen := false, answerSeen := false,
                      restartPending := false)
  }

  lemma SeatSound(s: Session, c: nat, g: nat, now: Time)
    requires Coherent(s) && s.phase == JoinOpen && s.owner.generation < g && c != s.owner.connectionId
    ensures var (after, actions) := Seated(s, c, g, now);
            && Coherent(Seat(s, c, g, now)) && Kept(Seat(s, c, g, now), Some(after))
            && Numbered(Seat(s, c, g, now), Some(after), actions)
            && after.receiver.Some? && after.receiver.value.connectionId == c
               && after.receiver.value.expectedClient == 2
  {
    var (after, actions) := Seated(s, c, g, now);
    ShapedNumbered(Seat(s, c, g, now), Some(after), actions, 0);
  }

  lemma SeatLinked(links: map<nat, Link>, c: nat, s: Session, g: nat, now: Time)
    requires c in links && links[c].binding.None? && !links[c].gone && links[c].up != [] && LinkOk(c, links[c], g)
    requires OwnerLinked(links, s) && links[c].up[0].sequence == 1 && links[c].up[0].body.ReserveJoin?
    requires links[c].up[0].body.sessionId == s.id
    ensures var bound := Take(links[c]).(binding := Some(Binding(c, Receiver, s.id, g)));
            && c != s.owner.connectionId
            && LinkOk(c, bound, g + 1)
            && OwnerLinked(links[c := bound], Seat(s, c, g, now))
               && ReceiverLinked(links[c := bound], Seat(s, c, g, now))
            && UpSynced(bound, 2)
  {}

  lemma SeatValid(st: Store, id: string, c: nat, now: Time)
    requires Valid(st) && id in st.sessions && st.sessions[id].phase == JoinOpen
    requires c != st.sessions[id].owner.connectionId
    ensures var s, g := st.sessions[id], st.nextGeneration;
            && s.id == id
            && Valid(Settle(st, id, Some(Seat(s, c, g, now))).(nextGeneration := g + 1))
            && var (after, actions) := Seated(s, c, g, now);
            && Kept(Seat(s, c, g, now), Some(after)) && Numbered(Seat(s, c, g, now), Some(after), actions)
            && after.receiver.Some? && after.receiver.value.connectionId == c
               && after.receiver.value.expectedClient == 2
  {
    hide Coherent, Seated, Numbered, Consumed;
    SeatSound(st.sessions[id], c, st.nextGeneration, now);
    SeatFields(st.sessions[id], c, st.nextGeneration, now);
    AdmitKeeps(st, id, Seat(st.sessions[id], c, st.nextGeneration, now));
  }

  lemma SeatFields(s: Session, c: nat, g: nat, now: Time)
    ensures var seat := Seat(s, c, g, now);
            && seat.id == s.id && seat.owner == s.owner && seat.receiver.Some? && seat.receiver.value.generation == g
  {}

  lemma ReserveReadKeeps(w: World, c: nat, clock: Clock)
    requires Linked(w) && c in w.links && !w.links[c].gone && w.links[c].up != [] && w.links[c].binding.None?
    requires w.links[c].up[0].body.ReserveJoin? && ReserveAdmits(w.store, w.links[c].up[0], clock.check)
    requires w.store.nextGeneration < MAX_SAFE_INTEGER
    ensures var (store, r) := HandleReserve(w.store, c, w.links[c].up[0], clock.check);
            Linked(World(store, Dispatch(w.links[c := Take(w.links[c]).(binding := r.binding)], r.actions)))
  {
    hide Dispatch, Numbered, Seated, Seat, Valid, LinkOk, Take, Kept;
    var m, now, g := w.links[c].up[0], clock.check, w.store.nextGeneration;
    var id := m.body.sessionId;
    var s := w.store.sessions[id];
    assert s.id == id by { ValidId(w.store, id); }
    assert SessionOk(w.links, s) && LinkOk(c, w.links[c], g);
    SeatLinked(w.links, c, s, g, now);
    SeatValid(w.store, id, c, now);
    var (after, actions) := Seated(s, c, g, now);
    var bound := Take(w.links[c]).(binding := Some(Binding(c, Receiver, s.id, g)));
    AdmissionKeeps(w, c, bound, id, Seat(s, c, g, now), after, actions);
  }

  lemma ValidId(st: Store, id: string)
    requires Valid(st) && id in st.sessions
    ensures st.sessions[id].id == id
  {}

  lemma CreateReadKeeps(w: World, c: nat, id: string, clock: Clock, e: Entropy)
    requires Linked(w) && c in w.links && !w.links[c].gone && w.links[c].up != [] && w.links[c].binding.None?
    requires w.links[c].up[0].body.CreateSession? && |w.store.sessions| < w.store.maximum && id !in w.store.sessions
    ensures var g := w.store.nextGeneration;
            var (s, actions) := Created(w.store, c, id, e.capability, clock.check);
            Linked(World(Settle(w.store, id, Some(s)).(nextGeneration := g + 1),
                         Dispatch(w.links[c := Take(w.links[c]).(binding := Some(Binding(c, Owner, id, g)))], actions)))
  {
    hide Dispatch, Numbered;
    var g := w.store.nextGeneration;
    var (after, actions) := Created(w.store, c, id, e.capability, clock.check);
    var seat := after.(owner := after.owner.(nextServer := 1));
    var bound := Take(w.links[c]).(binding := Some(Binding(c, Owner, id, g)));
    assert LinkOk(c, w.links[c], g);
    AdmitKeeps(w.store, id, seat);
    ShapedNumbered(seat, Some(after), actions, -1);
    AdmissionKeeps(w, c, bound, id, seat, after, actions);
  }

  // The socket a message was read from, with the binding it may have been given.
  function Rebound(l: Link, r: Response): Link
    requires l.up != [] && r.Response?
  {
    Take(l).(binding := if r.binding.Some? then r.binding else l.binding)
  }

  lemma ReadDispatches(w: World, c: nat, clock: Clock, e: Entropy)
    requires Linked(w) && Enabled(w, ServerReads(c, clock, e))
    ensures var (store, r) := Handle(w.store, c, w.links[c].binding, w.links[c].up[0], clock, e);
            Linked(World(store, Dispatch(w.links[c := Rebound(w.links[c], r)], r.actions)))
  {
    hide Linked, Dispatch, HandleBound, Take, Created;
    var l := w.links[c];
    var m := l.up[0];
    var (store, r) := Handle(w.store, c, l.binding, m, clock, e);
    TakeSame(l);
    if l.binding.Some? && l.binding.value.sessionId in w.store.sessions {
      BoundReadKeeps(w, c, l.binding.value, clock, e);
      BoundUnbound(w.store, l.binding.value, m, clock, e);
      assert Rebound(l, r) == Take(l);
    } else if l.binding.None? && m.body.CreateSession? && r.accepted {
      FirstFreeIsFree(e.ids, w.store.sessions.Keys);
      CreateReadKeeps(w, c, FirstFree(e.ids, w.store.sessions.Keys).value, clock, e);
    } else if l.binding.None? && m.body.ReserveJoin? && r.accepted {
      ReserveReadKeeps(w, c, clock);
    } else {
      Ignored(w, c, clock, e);
      assert Rebound(l, r) == Take(l);
    }
  }

  lemma ReadKeeps(w: World, c: nat, clock: Clock, e: Entropy)
    requires Linked(w) && Enabled(w, ServerReads(c, clock, e))
    ensures Linked(Read(w, c, clock, e))
  {
    hide Linked, Dispatch, Handle, Take;
    ReadDispatches(w, c, clock, e);
    var (store, r) := Handle(w.store, c, w.links[c].binding, w.links[c].up[0], clock, e);
    var links := w.links[c := Rebound(w.links[c], r)];
    DispatchKeys(links, r.actions);
    ShutKeeps(World(store, Dispatch(links, r.actions)), c);
  }

  lemma BoundUnbound(st: Store, b: Binding, m: Message, clock: Clock, e: Entropy)
    ensures var r := HandleBound(st, b, m, clock, e).1; r.Response? && r.binding.None?
  {}

  // A message that reaches no session changes nothing but the socket it came from.
  lemma Ignored(w: World, c: nat, clock: Clock, e: Entropy)
    requires Linked(w) && Enabled(w, ServerReads(c, clock, e))
    requires w.links[c].binding.Some? ==> w.links[c].binding.value.sessionId !in w.store.sessions
    requires w.links[c].binding.None? ==> !Handle(w.store, c, None, w.links[c].up[0], clock, e).1.accepted
    ensures var (store, r) := Handle(w.store, c, w.links[c].binding, w.links[c].up[0], clock, e);
            && store == w.store && r.actions == [] && r.binding.None?
            && Linked(World(store, Dispatch(w.links[c := Take(w.links[c])], r.actions)))
  {
    hide Linked, Coherent, Dispatch, Take;
    var links := w.links[c := Take(w.links[c])];
    DispatchNothing(links);
    assert LinkOk(c, w.links[c], w.store.nextGeneration) by { LinkedLink(w, c); }
    TakeOk(c, w.links[c], w.store.nextGeneration);
    UnmatchedUnseated(w, c);
    RelinkKeeps(w, c, Take(w.links[c]));
  }

  lemma LinkedLink(w: World, c: nat)
    requires Linked(w) && c in w.links
    ensures LinkOk(c, w.links[c], w.store.nextGeneration)
  {}

  // -------- the clients --------

  lemma ClientSendsKeeps(w: World, c: nat, body: Body)
    requires Linked(w) && Enabled(w, ClientSends(c, body))
    ensures Linked(After(w, ClientSends(c, body)))
  {
    hide Valid;
    var w' := After(w, ClientSends(c, body));
    var l := w.links[c];
    assert LinkOk(c, l, w.store.nextGeneration);
    assert LinkOk(c, w'.links[c], w.store.nextGeneration);
    forall id | id in w.store.sessions
      ensures SessionOk(w'.links, w.store.sessions[id])
    {
      assert SessionOk(w.links, w.store.sessions[id]);
    }
  }

  lemma ClientReadsKeeps(w: World, c: nat)
    requires Linked(w) && c in w.links && w.links[c].down != []
    ensures w.links[c].client.ReceiverClient? ==> ClientAccepts(w.links[c].client, w.links[c].down[0])
    ensures Linked(After(w, ClientReads(c)))
  {
    hide Valid;
    var w' := After(w, ClientReads(c));
    var l := w.links[c];
    assert LinkOk(c, l, w.store.nextGeneration);
    assert LinkOk(c, w'.links[c], w.store.nextGeneration);
    forall id | id in w.store.sessions
      ensures SessionOk(w'.links, w.store.sessions[id])
    {
      assert SessionOk(w.links, w.store.sessions[id]);
    }
  }

  lemma ConnectKeeps(w: World, c: nat, client: Client)
    requires Linked(w) && Enabled(w, Connect(c, client))
    ensures Linked(After(w, Connect(c, client)))
  {
    hide Valid;
    forall id | id in w.store.sessions
      ensures SessionOk(w.links[c := Link(None, true, false, [], [], client)], w.store.sessions[id])
    {
      assert SessionOk(w.links, w.store.sessions[id]);
    }
  }

  // A change to a socket that leaves its binding, its flags and its counts alone.
  lemma TouchKeeps(w: World, c: nat, l: Link)
    requires Linked(w) && c in w.links && LinkOk(c, l, w.store.nextGeneration)
    requires l.binding == w.links[c].binding && l.gone == w.links[c].gone && l.open == w.links[c].open
    requires l.client.OtherClient? <==> w.links[c].client.OtherClient?
    requires l.client.ReceiverClient? ==>
               && |l.down| == |w.links[c].down| && |l.up| == |w.links[c].up|
               && l.client == w.links[c].client.(ended := l.client.ended)
    ensures Linked(World(w.store, w.links[c := l]))
  {
    hide Coherent, LinkOk;
    forall id | id in w.store.sessions
      ensures SessionOk(w.links[c := l], w.store.sessions[id])
    {
      assert SessionOk(w.links, w.store.sessions[id]);
    }
  }

  /** Every move keeps the two sides in step. */
  lemma MoveKeeps(w: World, move: Move)
    requires Linked(w) && Enabled(w, move)
    ensures Linked(After(w, move))
  {
    hide Linked, Read, Drop, TickPass, Dispatch;
    match move
    case ServerReads(c, clock, e) => ReadKeeps(w, c, clock, e);
    case ServerFails(c, drop, reason, now) => FailKeeps(w, c, drop, reason, now);
    case ServerCloses(c) => ShutKeeps(w, c);
    case SocketClosed(c, now) => ClosedKeeps(w, c, now);
    case ServerTicks(now, order, late) => TickPassLinked(w, order, now, late);
    case ClientSends(c, body) => ClientSendsKeeps(w, c, body);
    case ClientReads(c) => ClientReadsKeeps(w, c);
    case Connect(c, client) => ConnectKeeps(w, c, client);
    case OtherSends(c, m) =>
      LinkedLink(w, c);
      TouchKeeps(w, c, w.links[c].(up := w.links[c].up + [m]));
    case ClientEnds(c) =>
      LinkedLink(w, c);
      TouchKeeps(w, c, w.links[c].(client := w.links[c].client.(ended := true)));
  }

  lemma FailKeeps(w: World, c: nat, drop: bool, reason: Reason, now: Time)
    requires Linked(w) && Enabled(w, ServerFails(c, drop, reason, now))
    ensures Linked(After(w, ServerFails(c, drop, reason, now)))
  {
    hide Linked, LinkOk, Dispatch, Disconnect;
    LinkedLink(w, c);
    var l := if drop then Take(w.links[c]) else w.links[c];
    if drop {
      TakeOk(c, w.links[c], w.store.nextGeneration);
    }
    assert w.links[c := w.links[c]] == w.links;
    DropKeeps(w, c, l, reason, now);
    var after := Drop(w, w.links[c := l], c, reason, now);
    DispatchKeys(w.links[c := l], if l.binding.None? then [] else Disconnect(w.store, l.binding.value, reason, now).1);
    ShutKeeps(after, c);
  }

  lemma ClosedKeeps(w: World, c: nat, now: Time)
    requires Linked(w) && Enabled(w, SocketClosed(c, now))
    ensures Linked(After(w, SocketClosed(c, now)))
  {
    hide Valid;
    LinkedLink(w, c);
    DropKeeps(w, c, w.links[c].(gone := true, open := false, up := []), External("SIGNALING_CLOSED"), now);
  }

  ghost predicate Reachable(worlds: seq<World>, moves: seq<Move>) {
    && |worlds| == |moves| + 1
    && worlds[0] == Start(worlds[0].store.maximum)
    && forall i :: 0 <= i < |moves| ==> Enabled(worlds[i], moves[i]) && worlds[i + 1] == After(worlds[i], moves[i])
  }

  lemma {:induction false} ReachableLinked(worlds: seq<World>, moves: seq<Move>, i: nat)
    requires Reachable(worlds, moves) && i < |worlds|
    ensures Linked(worlds[i])
  {
    if i > 0 {
      ReachableLinked(worlds, moves, i - 1);
      MoveKeeps(worlds[i - 1], moves[i - 1]);
    }
  }

  /** In every reachable world, for every session whose receiver is a receiver client: the messages in flight up are
      numbered exactly from the number the store expects to the last the client used, and, while the server has not
      closed the socket, the messages in flight down exactly from the number the client expects to the last the store
      used. */
  lemma InFlightExactly(worlds: seq<World>, moves: seq<Move>, i: nat, id: string)
    requires Reachable(worlds, moves) && i < |worlds|
    requires id in worlds[i].store.sessions && worlds[i].store.sessions[id].receiver.Some?
    ensures var r := worlds[i].store.sessions[id].receiver.value;
            && r.connectionId in worlds[i].links
            && var l := worlds[i].links[r.connectionId];
            && l.client.ReceiverClient? ==>
                 && |l.up| == l.client.clientSequence + 1 - r.expectedClient
                 && (forall k :: 0 <= k < |l.up| ==> l.up[k].sequence == r.expectedClient + k)
                 && (l.open ==> |l.down| == r.nextServer - 1 - l.client.serverSequence)
                 && (forall k :: 0 <= k < |l.down| ==> l.down[k].sequence == l.client.serverSequence + 1 + k)
  {
    ReachableLinked(worlds, moves, i);
    var w := worlds[i];
    assert SessionOk(w.links, w.store.sessions[id]);
    var c := w.store.sessions[id].receiver.value.connectionId;
    assert LinkOk(c, w.links[c], w.store.nextGeneration);
  }

  /** No receiver client ever meets a message it must refuse, bound or not. */
  lemma ClientNeverRefuses(worlds: seq<World>, moves: seq<Move>, i: nat, c: nat)
    requires Reachable(worlds, moves) && i < |worlds|
    requires c in worlds[i].links && worlds[i].links[c].client.ReceiverClient? && worlds[i].links[c].down != []
    ensures ClientAccepts(worlds[i].links[c].client, worlds[i].links[c].down[0])
  {
    ReachableLinked(worlds, moves, i);
    ClientReadsKeeps(worlds[i], c);
  }

  /** The store never refuses a bound receiver client's message at its gate: the binding matches, the session is the
      one it names and the number is the one expected. */
  lemma StoreNeverRefuses(worlds: seq<World>, moves: seq<Move>, i: nat, c: nat)
    requires Reachable(worlds, moves) && i < |worlds|
    requires var w := worlds[i];
             && c in w.links && w.links[c].client.ReceiverClient? && w.links[c].up != []
             && w.links[c].binding.Some? && Matches(w.store, w.links[c].binding.value)
    ensures var w := worlds[i];
            var b := w.links[c].binding.value;
            b.role == Receiver && ReceiverAdmits(w.store.sessions[b.sessionId], b, w.links[c].up[0])
  {
    ReachableLinked(worlds, moves, i);
    var w := worlds[i];
    assert LinkOk(c, w.links[c], w.store.nextGeneration);
    var b := w.links[c].binding.value;
    assert SessionOk(w.links, w.store.sessions[b.sessionId]);
  }

  /** A seated page's heartbeat acknowledgement is accepted if and only if it names the latest heartbeat issued to it;
      naming an earlier one, as a page does whose acknowledgement is overtaken by the next heartbeat, costs it the
      seat. */
  lemma HeartbeatAckExactly(worlds: seq<World>, moves: seq<Move>, i: nat, c: nat, clock: Clock, e: Entropy)
    requires Reachable(worlds, moves) && i < |worlds|
    requires var w := worlds[i];
             && c in w.links && w.links[c].client.ReceiverClient? && w.links[c].up != [] && clock.Ordered()
             && w.links[c].up[0].body.ReceiverHeartbeatAck?
             && w.links[c].binding.Some? && Matches(w.store, w.links[c].binding.value)
             && Inside(w.store.sessions[w.links[c].binding.value.sessionId], clock.check)
    ensures var w := worlds[i];
            var id := w.links[c].binding.value.sessionId;
            var s := w.store.sessions[id];
            var n := w.links[c].up[0].body.heartbeat;
            var (store, r) := Handle(w.store, c, w.links[c].binding, w.links[c].up[0], clock, e);
            && s.receiver.Some? && r.Response? && id in store.sessions
            && (r.accepted <==> n == s.receiver.value.heartbeat && n > 0)
            && (r.accepted <==> store.sessions[id].receiver.Some?)
  {
    hide Valid, Overdue, Coherent, Inside, LinkOk;
    StoreNeverRefuses(worlds, moves, i, c);
    ReachableLinked(worlds, moves, i);
    var w := worlds[i];
    var id := w.links[c].binding.value.sessionId;
    assert Coherent(w.store.sessions[id]) by { ValidCoherent(w.store, id); }
    OverdueInside(w.store.sessions[id], clock.check, clock.act);
  }

  lemma ValidCoherent(st: Store, id: string)
    requires Valid(st) && id in st.sessions
    ensures Coherent(st.sessions[id])
  {}
}
