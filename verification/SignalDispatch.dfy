/** The server's `dispatch` with backpressure: a send to a full socket disconnects its peer and dispatches the
    resulting clean-up before the rest of the list. */
module SignalDispatch {
  import opened Common
  import opened SignalingTypes
  import opened SessionTransitions
  import opened StoreSpec
  import opened StoreInvariant
  import opened SignalingProtocol
  import opened SequenceAgreement
  import opened SessionStore

  // Whether a socket with so many messages queued is over the buffered limit.
  type Pressure = (nat, nat) -> bool

  // The clock as the clean-up of each connection reads it. A dispatch cleans up a connection at most once, so this is
  // any reading for every one of them.
  type Readings = nat -> Time

  function Seats(st: Store): set<string> { set id | id in st.sessions && st.sessions[id].receiver.Some? }

  // The peers attached to the store: one owner a session, and the receivers.
  function Attached(st: Store): nat { |st.sessions.Keys| + |Seats(st)| }

  /** Disconnecting a matching binding detaches at least one peer; any other binding changes nothing. */
  lemma DisconnectDetaches(st: Store, b: Binding, reason: Reason, now: Time)
    ensures var (after, actions) := Disconnect(st, b, reason, now);
            if Matches(st, b) then Attached(after) < Attached(st) else after == st && actions == []
  {
    if Matches(st, b) {
      var after := Disconnect(st, b, reason, now).0;
      if b.role == Owner {
        assert after.sessions.Keys == st.sessions.Keys - {b.sessionId};
        assert Seats(after) <= Seats(st);
        Smaller(Seats(after), Seats(st));
      } else {
        assert after.sessions.Keys == st.sessions.Keys;
        assert Seats(after) == Seats(st) - {b.sessionId};
      }
    }
  }

  lemma Smaller<T>(a: set<T>, b: set<T>)
    requires a <= b
    ensures |a| <= |b|
  {
    assert b == a + (b - a);
  }

  predicate Blocked(w: World, a: Action, pressure: Pressure) {
    && a.Send? && a.connectionId in w.links && !w.links[a.connectionId].gone && w.links[a.connectionId].open
    && pressure(a.connectionId, |w.links[a.connectionId].down|)
  }

  // The clean-up of a blocked send: what disconnecting its peer leaves and emits.
  function CleanUp(w: World, c: nat, clock: Readings): (World, seq<Action>)
    requires c in w.links
  {
    var (store, actions) :=
      if w.links[c].binding.Some?
      then Disconnect(w.store, w.links[c].binding.value, External("SIGNAL_BACKPRESSURE"), clock(c))
      else (w.store, []);
    (World(store, Shut(w.links, c)), actions)
  }

  lemma CleanUpDetaches(w: World, c: nat, clock: Readings)
    requires c in w.links
    ensures var (after, actions) := CleanUp(w, c, clock);
            (Attached(after.store) < Attached(w.store)) || (after.store == w.store && actions == [])
  {
    if w.links[c].binding.Some? {
      DisconnectDetaches(w.store, w.links[c].binding.value, External("SIGNAL_BACKPRESSURE"), clock(c));
    }
  }

  /** The recursion ends: every nested call with anything to do has detached a peer. */
  function DispatchUnder(w: World, actions: seq<Action>, pressure: Pressure, clock: Readings): (after: World)
    ensures Attached(after.store) <= Attached(w.store)
    ensures after.links.Keys == w.links.Keys
    decreases Attached(w.store), |actions|
  {
    if actions == [] then w
    else if !Blocked(w, actions[0], pressure) then
      DispatchUnder(World(w.store, DispatchOne(w.links, actions[0])), actions[1..], pressure, clock)
    else
      CleanUpDetaches(w, actions[0].connectionId, clock);
      var (mid, nested) := CleanUp(w, actions[0].connectionId, clock);
      DispatchUnder(DispatchUnder(mid, nested, pressure, clock), actions[1..], pressure, clock)
  }

  class V1SignalingServer {
    const sessions: SignalingSessionStore
    var links: map<nat, Link>

    function World(): (w: World)
      reads this, sessions
    {
      SignalingProtocol.World(sessions.State(), links)
    }

    constructor (store: SignalingSessionStore)
      ensures sessions == store && links == map[]
    {
      sessions, links := store, map[];
    }

    method Dispatch(actions: seq<Action>, pressure: Pressure, clock: Readings)
      modifies this, sessions
      ensures World() == DispatchUnder(old(World()), actions, pressure, clock)
      decreases Attached(sessions.State()), |actions|
    {
      var i := 0;
      assert actions[0..] == actions;
      while i < |actions|
        invariant 0 <= i <= |actions|
        invariant Attached(sessions.State()) <= Attached(old(sessions.State()))
        invariant DispatchUnder(World(), actions[i..], pressure, clock)
                  == DispatchUnder(old(World()), actions, pressure, clock)
      {
        var a := actions[i];
        var c := a.connectionId;
        ghost var before := World();
        assert actions[i..][0] == a && actions[i..][1..] == actions[i + 1..];
        if c in links && !links[c].gone {
          if a.Close? {
            links := links[c := links[c].(open := false)];
          } else if links[c].open {
            if pressure(c, |links[c].down|) {
              CleanUpDetaches(before, c, clock);
              var nested := [];
              if links[c].binding.Some? {
                nested := sessions.Disconnect(links[c].binding.value, External("SIGNAL_BACKPRESSURE"), clock(c));
              }
              links := links[c := links[c].(open := false)];
              assert (World(), nested) == CleanUp(before, c, clock);
              Dispatch(nested, pressure, clock);
            } else {
              links := links[c := links[c].(down := links[c].down + [a.envelope])];
            }
          }
        }
        i := i + 1;
      }
      assert actions[i..] == [];
    }

    // A connection is failed: its peer is disconnected, the others are told, its socket is closed.
    method FailConnection(c: nat, reason: Reason, now: Time, pressure: Pressure, clock: Readings)
      requires c in links
      modifies this, sessions
      ensures var (store, actions) :=
                if old(links[c].binding).Some?
                then Disconnect(old(sessions.State()), old(links[c].binding).value, reason, now)
                else (old(sessions.State()), []);
              var after := DispatchUnder(SignalingProtocol.World(store, old(links)), actions, pressure, clock);
              World() == SignalingProtocol.World(after.store, Shut(after.links, c))
    {
      var actions := [];
      if links[c].binding.Some? {
        actions := sessions.Disconnect(links[c].binding.value, reason, now);
      }
      Dispatch(actions, pressure, clock);
      links := links[c := links[c].(open := false)];
    }
  }

  /** The store stays valid through any nesting. */
  lemma {:induction false} DispatchKeepsValid(w: World, actions: seq<Action>, pressure: Pressure, clock: Readings)
    requires Valid(w.store)
    ensures Valid(DispatchUnder(w, actions, pressure, clock).store)
    decreases Attached(w.store), |actions|
  {
    hide Valid;
    if actions == [] {
    } else if !Blocked(w, actions[0], pressure) {
      DispatchKeepsValid(World(w.store, DispatchOne(w.links, actions[0])), actions[1..], pressure, clock);
    } else {
      var c := actions[0].connectionId;
      CleanUpDetaches(w, c, clock);
      var (mid, nested) := CleanUp(w, c, clock);
      if w.links[c].binding.Some? {
        DisconnectKeeps(w.store, w.links[c].binding.value, External("SIGNAL_BACKPRESSURE"), clock(c));
      }
      DispatchKeepsValid(mid, nested, pressure, clock);
      DispatchKeepsValid(DispatchUnder(mid, nested, pressure, clock), actions[1..], pressure, clock);
    }
  }

  /** A socket closed to sends stays closed and receives nothing more, and one that is still open at the end was never
      blocked on the way. */
  lemma {:induction false} ClosedStays(w: World, actions: seq<Action>, pressure: Pressure, clock: Readings, c: nat)
    requires c in w.links
    ensures var after := DispatchUnder(w, actions, pressure, clock);
            && (!w.links[c].open ==> after.links[c] == w.links[c])
            && (after.links[c].open ==> w.links[c].open)
            && after.links[c] == w.links[c].(open := after.links[c].open, down := after.links[c].down)
            && w.links[c].down <= after.links[c].down
    decreases Attached(w.store), |actions|
  {
    if actions == [] {
    } else if !Blocked(w, actions[0], pressure) {
      ClosedStays(World(w.store, DispatchOne(w.links, actions[0])), actions[1..], pressure, clock, c);
    } else {
      CleanUpDetaches(w, actions[0].connectionId, clock);
      var (mid, nested) := CleanUp(w, actions[0].connectionId, clock);
      ClosedStays(mid, nested, pressure, clock, c);
      ClosedStays(DispatchUnder(mid, nested, pressure, clock), actions[1..], pressure, clock, c);
    }
  }

  /** Dispatching two lists is dispatching one after the other. */
  lemma {:induction false} UnderAppend(w: World, xs: seq<Action>, ys: seq<Action>, pressure: Pressure, clock: Readings)
    ensures DispatchUnder(w, xs + ys, pressure, clock)
            == DispatchUnder(DispatchUnder(w, xs, pressure, clock), ys, pressure, clock)
    decreases Attached(w.store), |xs|
  {
    if xs == [] {
      assert xs + ys == ys;
    } else {
      assert (xs + ys)[0] == xs[0] && (xs + ys)[1..] == xs[1..] + ys;
      if Blocked(w, xs[0], pressure) {
        CleanUpDetaches(w, xs[0].connectionId, clock);
        var (mid, nested) := CleanUp(w, xs[0].connectionId, clock);
        UnderAppend(DispatchUnder(mid, nested, pressure, clock), xs[1..], ys, pressure, clock);
      } else {
        UnderAppend(World(w.store, DispatchOne(w.links, xs[0])), xs[1..], ys, pressure, clock);
      }
    }
  }

  // No send of the list is blocked when its turn comes.
  ghost predicate Flows(w: World, actions: seq<Action>, pressure: Pressure) {
    forall i :: 0 <= i < |actions| ==> !Blocked(World(w.store, Dispatch(w.links, actions[..i])), actions[i], pressure)
  }

  /** Without a blocked send, dispatch is the plain loop of the protocol model and never touches the store. */
  lemma {:induction false} UnblockedDispatch(w: World, actions: seq<Action>, pressure: Pressure, clock: Readings)
    requires Flows(w, actions, pressure)
    ensures DispatchUnder(w, actions, pressure, clock) == World(w.store, Dispatch(w.links, actions))
    decreases |actions|
  {
    if actions != [] {
      var n := |actions| - 1;
      var front, last := actions[..n], actions[n];
      forall i | 0 <= i < n
        ensures !Blocked(World(w.store, Dispatch(w.links, front[..i])), front[i], pressure)
      {
        assert front[..i] == actions[..i] && front[i] == actions[i];
      }
      UnblockedDispatch(w, front, pressure, clock);
      UnderAppend(w, front, [last], pressure, clock);
      assert actions == front + [last];
      var mid := World(w.store, Dispatch(w.links, front));
      assert [last][1..] == [];
      assert DispatchUnder(mid, [last], pressure, clock)
          == DispatchUnder(World(w.store, DispatchOne(mid.links, last)), [], pressure, clock);
    }
  }
}
