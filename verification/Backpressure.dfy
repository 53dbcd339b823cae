/** Dispatch with full sockets keeps the two sides in step, as long as no send to an owner precedes one to its
    receiver. */
module Backpressure {
  import opened Common
  import opened SignalingTypes
  import opened SessionTransitions
  import opened StoreSpec
  import opened StoreInvariant
  import opened SignalingProtocol
  import opened SequenceAgreement
  import opened SignalDispatch

  // -------- one socket's share of a plain dispatch --------

  function ReceivesOne(l: Link, a: Action, c: nat): Link {
    if a.connectionId != c || l.gone then l
    else if a.Close? then l.(open := false)
    else if l.open then l.(down := l.down + [a.envelope])
    else l
  }

  function Receives(l: Link, actions: seq<Action>, c: nat): Link
    decreases |actions|
  {
    if actions == [] then l else Receives(ReceivesOne(l, actions[0], c), actions[1..], c)
  }

  lemma DispatchHead(links: map<nat, Link>, actions: seq<Action>)
    requires actions != []
    ensures Dispatch(links, actions) == Dispatch(DispatchOne(links, actions[0]), actions[1..])
  {
    assert actions == [actions[0]] + actions[1..];
    DispatchAppend(links, [actions[0]], actions[1..]);
    assert [actions[0]][..0] == [];
  }

  lemma {:induction false} DispatchAt(links: map<nat, Link>, actions: seq<Action>, c: nat)
    requires c in links
    ensures c in Dispatch(links, actions) && Dispatch(links, actions)[c] == Receives(links[c], actions, c)
    decreases |actions|
  {
    if actions == [] {
      DispatchNothing(links);
    } else {
      DispatchHead(links, actions);
      var next := DispatchOne(links, actions[0]);
      assert c in next && next[c] == ReceivesOne(links[c], actions[0], c);
      DispatchAt(next, actions[1..], c);
    }
  }

  lemma {:induction false} ReceivesAppend(l: Link, xs: seq<Action>, ys: seq<Action>, c: nat)
    ensures Receives(l, xs + ys, c) == Receives(Receives(l, xs, c), ys, c)
    decreases |xs|
  {
    if xs == [] {
      assert xs + ys == ys;
    } else {
      assert (xs + ys)[0] == xs[0] && (xs + ys)[1..] == xs[1..] + ys;
      ReceivesAppend(ReceivesOne(l, xs[0], c), xs[1..], ys, c);
    }
  }

  ghost predicate Unaddressed(actions: seq<Action>, c: nat) {
    forall i :: 0 <= i < |actions| ==> actions[i].connectionId != c
  }

  lemma {:induction false} ReceivesNothing(l: Link, actions: seq<Action>, c: nat)
    requires Unaddressed(actions, c) || !l.open
    ensures Receives(l, actions, c) == l
    decreases |actions|
  {
    if actions != [] {
      ReceivesNothing(l, actions[1..], c);
    }
  }

  lemma {:induction false} ReceivesExtends(l: Link, actions: seq<Action>, c: nat)
    ensures var l' := Receives(l, actions, c);
            l' == l.(open := l'.open, down := l'.down) && l.down <= l'.down && (l'.open ==> l.open)
    decreases |actions|
  {
    if actions != [] {
      ReceivesExtends(ReceivesOne(l, actions[0], c), actions[1..], c);
    }
  }

  // -------- what may be pending --------

  // Nothing pending closes the session's receiver, and nothing pending for it comes after something for its owner.
  ghost predicate PoliteTo(s: Session, pending: seq<Action>) {
    s.receiver.Some? ==>
      var o, r := s.owner.connectionId, s.receiver.value.connectionId;
      && (forall i :: 0 <= i < |pending| && pending[i].Close? ==> pending[i].connectionId != r)
      && (forall i, j ::
            0 <= i < j < |pending| && pending[i].Send? && pending[i].connectionId == o && pending[j].Send? ==>
              pending[j].connectionId != r)
  }

  ghost predicate Orderly(store: Store, pending: seq<Action>) {
    forall id :: id in store.sessions ==> PoliteTo(store.sessions[id], pending)
  }

  lemma PoliteTail(s: Session, pending: seq<Action>)
    requires PoliteTo(s, pending) && pending != []
    ensures PoliteTo(s, pending[1..])
  {
    if s.receiver.Some? {
      var rest := pending[1..];
      assert forall i :: 0 <= i < |rest| ==> rest[i] == pending[i + 1];
    }
  }

  // Something for others first changes nothing.
  lemma PoliteInsert(s: Session, first: seq<Action>, rest: seq<Action>)
    requires PoliteTo(s, rest) && Unaddressed(first, s.owner.connectionId)
    requires s.receiver.Some? ==> Unaddressed(first, s.receiver.value.connectionId)
    ensures PoliteTo(s, first + rest)
  {
    if s.receiver.Some? {
      var all, n := first + rest, |first|;
      var o, r := s.owner.connectionId, s.receiver.value.connectionId;
      forall i | 0 <= i < |all| && all[i].Close? ensures all[i].connectionId != r {
        if i >= n { assert all[i] == rest[i - n]; }
      }
      forall i, j | 0 <= i < j < |all| && all[i].Send? && all[i].connectionId == o && all[j].Send?
        ensures all[j].connectionId != r
      {
        if i >= n { assert all[i] == rest[i - n] && all[j] == rest[j - n]; }
      }
    }
  }

  // -------- comparing two states of the sockets --------

  // The same socket, open only if it was, and with as much in flight if it is.
  ghost predicate Alike(c: nat, l: Link, l': Link, next: nat) {
    && l' == l.(open := l'.open, down := l'.down)
    && LinkOk(c, l', next)
    && (l'.client.ReceiverClient? && l'.open ==> l.open && |l'.down| == |l.down|)
  }

  lemma Transfer(store: Store, links: map<nat, Link>, links': map<nat, Link>)
    requires Linked(World(store, links)) && links'.Keys == links.Keys
    requires forall c :: c in links ==> Alike(c, links[c], links'[c], store.nextGeneration)
    ensures Linked(World(store, links'))
  {
    hide Valid, LinkOk;
    forall id | id in store.sessions
      ensures SessionOk(links', store.sessions[id])
    {
      assert SessionOk(links, store.sessions[id]);
    }
  }

  // A session may go, or lose its receiver.
  lemma Shrinks(store: Store, links: map<nat, Link>, id: string, after: Option<Session>)
    requires Linked(World(store, links)) && id in store.sessions && Kept(store.sessions[id], after)
    requires after.Some? ==> after.value.receiver.None?
    ensures Linked(World(Settle(store, id, after), links))
  {
    hide Coherent, LinkOk, Valid;
    SettleKeeps(store, id, after);
    var store' := Settle(store, id, after);
    forall id' | id' in store'.sessions
      ensures SessionOk(links, store'.sessions[id'])
    {
      assert SessionOk(links, store.sessions[id']);
      assert SessionOk(links, store.sessions[id]);
    }
  }

  // A closed socket with less in flight.
  lemma ShutOk(c: nat, l: Link, l': Link, next: nat)
    requires LinkOk(c, l, next) && l' == l.(open := false, down := l'.down) && l'.down <= l.down
    ensures LinkOk(c, l', next)
  {}

  // -------- a blocked send --------

  // What a blocked send finds: its socket as the pending dispatch would leave it, but for what is pending to it.
  lemma BlockedLink(w: World, pending: seq<Action>, c: nat, l: Link)
    requires Linked(World(w.store, Dispatch(w.links, pending))) && c in w.links && l == w.links[c].(open := false)
    ensures c in Dispatch(w.links, pending) && Alike(c, Dispatch(w.links, pending)[c], l, w.store.nextGeneration)
  {
    hide Valid, LinkOk, SessionOk;
    DispatchAt(w.links, pending, c);
    ReceivesExtends(w.links[c], pending, c);
    DispatchKeys(w.links, pending);
    assert LinkOk(c, Dispatch(w.links, pending)[c], w.store.nextGeneration);
    ShutOk(c, Dispatch(w.links, pending)[c], l, w.store.nextGeneration);
  }

  // The sockets after a blocked send to `c`, when its clean-up speaks to `d` alone.
  lemma BlockedAlike(w: World, pending: seq<Action>, nested: seq<Action>, c: nat, d: nat)
    requires Linked(World(w.store, Dispatch(w.links, pending)))
    requires pending != [] && pending[0].connectionId == c && c in w.links && c != d
    requires forall i :: 0 <= i < |nested| ==> nested[i].connectionId == d
    requires d in w.links ==>
               && d in Dispatch(w.links, pending)
               && Alike(d, Dispatch(w.links, pending)[d], Receives(w.links[d], nested + pending[1..], d),
                        w.store.nextGeneration)
    ensures Linked(World(w.store, Dispatch(Shut(w.links, c), nested + pending[1..])))
  {
    hide Linked, LinkOk, Dispatch;
    var links := Shut(w.links, c);
    var list := nested + pending[1..];
    var before, after := Dispatch(w.links, pending), Dispatch(links, list);
    DispatchKeys(w.links, pending);
    DispatchKeys(links, list);
    forall e | e in before
      ensures Alike(e, before[e], after[e], w.store.nextGeneration)
    {
      DispatchAt(w.links, pending, e);
      DispatchAt(links, list, e);
      if e == c {
        BlockedLink(w, pending, c, links[c]);
        ReceivesNothing(links[c], list, c);
      } else if e != d {
        ReceivesAppend(links[e], nested, pending[1..], e);
        ReceivesNothing(links[e], nested, e);
        LinkedLink(World(w.store, before), e);
      }
    }
    Transfer(w.store, before, after);
  }

  // The binding a socket has now is the one it keeps.
  lemma BlockedBinding(w: World, pending: seq<Action>, c: nat)
    requires Linked(World(w.store, Dispatch(w.links, pending))) && c in w.links
    ensures w.links[c].binding.Some? ==> w.links[c].binding.value.connectionId == c
    ensures c in Dispatch(w.links, pending) && Dispatch(w.links, pending)[c].binding == w.links[c].binding
    ensures Dispatch(w.links, pending)[c].client == w.links[c].client
  {
    hide Valid, SessionOk;
    DispatchAt(w.links, pending, c);
    ReceivesExtends(w.links[c], pending, c);
    DispatchKeys(w.links, pending);
    assert LinkOk(c, Dispatch(w.links, pending)[c], w.store.nextGeneration);
  }

  // An owner's socket is no receiver page's, so what it is sent is not numbered here.
  lemma OwnerAlike(w: World, pending: seq<Action>, list: seq<Action>, s: Session)
    requires Linked(World(w.store, Dispatch(w.links, pending))) && s.owner.connectionId in w.links
    requires OwnerLinked(Dispatch(w.links, pending), s)
    ensures var o := s.owner.connectionId;
            Alike(o, Dispatch(w.links, pending)[o], Receives(w.links[o], list, o), w.store.nextGeneration)
  {
    hide Valid, SessionOk;
    var o := s.owner.connectionId;
    DispatchAt(w.links, pending, o);
    ReceivesExtends(w.links[o], pending, o);
    ReceivesExtends(w.links[o], list, o);
    DispatchKeys(w.links, pending);
    assert LinkOk(o, Dispatch(w.links, pending)[o], w.store.nextGeneration);
  }

  // A last message under the next number, then nothing more.
  lemma Parting(r: nat, l: Link, e: Envelope, reason: Reason, rest: seq<Action>, next: nat)
    requires LinkOk(r, l, next) && l.binding.Some? && DownSynced(l, e.sequence)
    requires e.sessionId == l.binding.value.sessionId && !l.gone
    ensures Alike(r, l, Receives(l, [Send(r, e), Close(r, reason)] + rest, r), next)
  {
    var two := [Send(r, e), Close(r, reason)];
    ReceivesAppend(l, two, rest, r);
    assert two[1..] == [Close(r, reason)] && two[1..][1..] == [];
    var l' := ReceivesOne(ReceivesOne(l, two[0], r), two[1], r);
    assert Receives(l, two, r) == Receives(ReceivesOne(l, two[0], r), two[1..], r) == Receives(l', two[1..][1..], r)
           == l';
    ReceivesNothing(l', rest, r);
  }

  // The receiver of an owner whose send is blocked: the next number, and closed.
  lemma ReceiverAlike(w: World, pending: seq<Action>, s: Session, e: Envelope, reason: Reason)
    requires Linked(World(w.store, Dispatch(w.links, pending)))
    requires OwnerLinked(Dispatch(w.links, pending), s) && ReceiverLinked(Dispatch(w.links, pending), s)
    requires s.receiver.Some? && PoliteTo(s, pending) && pending != []
    requires pending[0].Send? && pending[0].connectionId == s.owner.connectionId
    requires s.receiver.value.connectionId in w.links
    requires e.sequence == s.receiver.value.nextServer && e.sessionId == s.id
    ensures var r := s.receiver.value.connectionId;
            && r in Dispatch(w.links, pending)
            && Alike(r, Dispatch(w.links, pending)[r],
                     Receives(w.links[r], [Send(r, e), Close(r, reason)] + pending[1..], r),
                     w.store.nextGeneration)
  {
    hide Valid, SessionOk, LinkOk, Receives, Dispatch;
    var r := s.receiver.value.connectionId;
    SocketsApart(Dispatch(w.links, pending), s, s);
    DispatchAt(w.links, pending, r);
    assert Unaddressed(pending, r);
    ReceivesNothing(w.links[r], pending, r);
    LinkedLink(World(w.store, Dispatch(w.links, pending)), r);
    Parting(r, w.links[r], e, reason, pending[1..], w.store.nextGeneration);
  }

  // The sockets and the pending list after a blocked send.
  ghost predicate Resumes(w: World, pending: seq<Action>) {
    Linked(World(w.store, Dispatch(w.links, pending))) && Orderly(w.store, pending)
  }

  lemma UnmatchedResumes(w: World, pending: seq<Action>, c: nat)
    requires Resumes(w, pending) && pending != [] && pending[0].connectionId == c && c in w.links
    ensures Resumes(World(w.store, Shut(w.links, c)), pending[1..])
  {
    hide Linked, Dispatch, PoliteTo, LinkOk;
    assert [] + pending[1..] == pending[1..];
    var d := c + 1;
    if d in w.links {
      DispatchAt(w.links, pending, d);
      ReceivesNothing(w.links[d], [pending[0]], d);
      ReceivesAppend(w.links[d], [pending[0]], pending[1..], d);
      assert [pending[0]] + pending[1..] == pending;
      LinkedLink(World(w.store, Dispatch(w.links, pending)), d);
    }
    BlockedAlike(w, pending, [], c, d);
    forall id | id in w.store.sessions ensures PoliteTo(w.store.sessions[id], pending[1..]) {
      PoliteTail(w.store.sessions[id], pending);
    }
  }

  // Another session's clean-up comes first: still orderly.
  lemma OrderlyAfter(w: World, pending: seq<Action>, nested: seq<Action>, s: Session, after: Option<Session>)
    requires Resumes(w, pending) && pending != [] && s.id in w.store.sessions && w.store.sessions[s.id] == s
    requires after.Some? ==> after.value.receiver.None?
    requires Own(s, nested)
    ensures Orderly(Settle(w.store, s.id, after), nested + pending[1..])
  {
    hide Valid, LinkOk, Dispatch, PoliteTo;
    var store := Settle(w.store, s.id, after);
    forall id | id in store.sessions
      ensures PoliteTo(store.sessions[id], nested + pending[1..])
    {
      if id == s.id {
        assert PoliteTo(after.value, nested + pending[1..]) by { AlonePolite(after.value, nested + pending[1..]); }
      } else {
        var t := w.store.sessions[id];
        assert SessionOk(Dispatch(w.links, pending), t) && SessionOk(Dispatch(w.links, pending), s);
        assert t.id != s.id by { ValidId(w.store, id); }
        SocketsApart(Dispatch(w.links, pending), t, s);
        PoliteTail(t, pending);
        PoliteInsert(t, nested, pending[1..]);
      }
    }
  }

  lemma AlonePolite(s: Session, pending: seq<Action>)
    requires s.receiver.None?
    ensures PoliteTo(s, pending)
  {}

  lemma ReceiverBlockedResumes(w: World, pending: seq<Action>, c: nat, b: Binding, now: Time)
    requires Resumes(w, pending) && pending != [] && pending[0].connectionId == c && c in w.links
    requires w.links[c].binding == Some(b) && b.role == Receiver && Matches(w.store, b)
    ensures var (store, nested) := Disconnect(w.store, b, External("SIGNAL_BACKPRESSURE"), now);
            Resumes(World(store, Shut(w.links, c)), nested + pending[1..])
  {
    hide Linked, Dispatch, PoliteTo, LinkOk, Orderly, Kept;
    var s := w.store.sessions[b.sessionId];
    var D := Dispatch(w.links, pending);
    assert SessionOk(D, s) && s.id == b.sessionId by { SessionFacts(World(w.store, D), b.sessionId); }
    BlockedBinding(w, pending, c);
    SocketsApart(D, s, s);
    DispatchKeys(w.links, pending);
    var reason := External("SIGNAL_BACKPRESSURE");
    var (t, nested) := DetachReceiver(s, reason, false, now);
    assert nested == [Send(s.owner.connectionId, nested[0].envelope)];
    OwnerAlike(w, pending, nested + pending[1..], s);
    BlockedAlike(w, pending, nested, c, s.owner.connectionId);
    assert Kept(s, Some(t)) by { DetachKept(World(w.store, D), b.sessionId, reason, now); }
    Shrinks(w.store, Dispatch(Shut(w.links, c), nested + pending[1..]), b.sessionId, Some(t));
    OrderlyAfter(w, pending, nested, s, Some(t));
  }

  lemma SessionFacts(w: World, id: string)
    requires Linked(w) && id in w.store.sessions
    ensures SessionOk(w.links, w.store.sessions[id]) && w.store.sessions[id].id == id && Coherent(w.store.sessions[id])
  {}

  lemma DetachKept(w: World, id: string, reason: Reason, now: Time)
    requires Linked(w) && id in w.store.sessions
    ensures Kept(w.store.sessions[id], Some(DetachReceiver(w.store.sessions[id], reason, false, now).0))
  {
    hide Linked, DetachReceiver, Coherent;
    SessionFacts(w, id);
    DetachKeeps(w.store.sessions[id], reason, false, now);
  }

  lemma OwnerBlockedResumes(w: World, pending: seq<Action>, c: nat, b: Binding, now: Time)
    requires Resumes(w, pending) && pending != [] && pending[0].Send? && pending[0].connectionId == c && c in w.links
    requires w.links[c].binding == Some(b) && b.role == Owner && Matches(w.store, b)
    ensures var (store, nested) := Disconnect(w.store, b, External("SIGNAL_BACKPRESSURE"), now);
            Resumes(World(store, Shut(w.links, c)), nested + pending[1..])
  {
    hide Linked, Dispatch, LinkOk, Kept;
    var id := b.sessionId;
    var s := w.store.sessions[id];
    var D := Dispatch(w.links, pending);
    assert SessionOk(D, s) && s.id == id by { SessionFacts(World(w.store, D), id); }
    BlockedBinding(w, pending, c);
    SocketsApart(D, s, s);
    DispatchKeys(w.links, pending);
    var reason := External("SIGNAL_BACKPRESSURE");
    var nested := Revoke(s, reason, false);
    if s.receiver.Some? {
      var r := s.receiver.value.connectionId;
      var e := Envelope(s.id, s.receiver.value.nextServer, NoticeSessionRevoked(reason));
      assert nested == [Send(r, e), Close(r, reason)];
      ReceiverAlike(w, pending, s, e, reason);
      BlockedAlike(w, pending, nested, c, r);
    } else {
      assert nested == [] && [] + pending[1..] == pending[1..];
      UnmatchedResumes(w, pending, c);
    }
    assert Kept(s, None) by { GoneKept(s); }
    Shrinks(w.store, Dispatch(Shut(w.links, c), nested + pending[1..]), id, None);
    OrderlyAfter(w, pending, nested, s, None);
  }

  lemma GoneKept(s: Session)
    ensures Kept(s, None)
  {}

  lemma BlockedResumes(w: World, pending: seq<Action>, pressure: Pressure, clock: Readings)
    requires Resumes(w, pending) && pending != [] && Blocked(w, pending[0], pressure)
    ensures var (mid, nested) := CleanUp(w, pending[0].connectionId, clock); Resumes(mid, nested + pending[1..])
  {
    hide Resumes, Disconnect;
    var c := pending[0].connectionId;
    var b := w.links[c].binding;
    if b.Some? && Matches(w.store, b.value) {
      if b.value.role == Owner {
        OwnerBlockedResumes(w, pending, c, b.value, clock(c));
      } else {
        ReceiverBlockedResumes(w, pending, c, b.value, clock(c));
      }
    } else {
      if b.Some? {
        DisconnectDetaches(w.store, b.value, External("SIGNAL_BACKPRESSURE"), clock(c));
      }
      assert [] + pending[1..] == pending[1..];
      UnmatchedResumes(w, pending, c);
    }
  }

  /** Whatever sockets are full, dispatching an orderly list leaves the store and the receiver pages in step: a blocked
      send costs its peer the seat, and what the clean-up sends bears the next number. */
  lemma {:induction false} UnderKeeps(w: World, pending: seq<Action>, pressure: Pressure, clock: Readings)
    requires Linked(World(w.store, Dispatch(w.links, pending))) && Orderly(w.store, pending)
    ensures Linked(DispatchUnder(w, pending, pressure, clock))
    decreases Attached(w.store), |pending|
  {
    hide Linked, Dispatch, PoliteTo, CleanUp, Attached;
    if pending == [] {
      DispatchNothing(w.links);
    } else if !Blocked(w, pending[0], pressure) {
      DispatchHead(w.links, pending);
      forall id | id in w.store.sessions ensures PoliteTo(w.store.sessions[id], pending[1..]) {
        PoliteTail(w.store.sessions[id], pending);
      }
      UnderKeeps(World(w.store, DispatchOne(w.links, pending[0])), pending[1..], pressure, clock);
    } else {
      var c := pending[0].connectionId;
      CleanUpDetaches(w, c, clock);
      BlockedResumes(w, pending, pressure, clock);
      var (mid, nested) := CleanUp(w, c, clock);
      UnderAppend(mid, nested, pending[1..], pressure, clock);
      UnderKeeps(mid, nested + pending[1..], pressure, clock);
    }
  }
}
