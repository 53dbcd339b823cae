/** What a record's timers mean: the times of the messages and events that set them, over every run. */
module StoreActivity {
  import opened Common
  import opened SignalingTypes
  import opened SessionTransitions
  import opened StoreSpec
  import opened StoreInvariant
  import opened StoreRuns
  import opened StoreShares

  // What the events tell of one peer: when it sat down, when it was last heard, and since when its link has been lost.
  datatype Mark = Mark(seated: Time, heard: Time, iceLost: Option<Time>)

  // Event `e`, answered by `r`, is an accepted message of the peer of generation `g`.
  predicate Speaks(e: Event, r: Response, g: nat) {
    e.Arrival? && r.Response? && r.accepted && e.binding.Some? && e.binding.value.generation == g
  }

  predicate Sits(e: Event, r: Response, g: nat) {
    e.Arrival? && r.Response? && r.binding.Some? && r.binding.value.generation == g
  }

  function Later(before: Option<Mark>, e: Event, r: Response, g: nat): Option<Mark> {
    if Sits(e, r, g) then Some(Mark(e.clock.check, e.clock.check, None))
    else if before.Some? && Speaks(e, r, g) then
      Some(before.value.(heard := e.clock.act,
                         iceLost := if !e.message.body.ReceiverIce? then before.value.iceLost
                                    else if e.message.body.iceState.IceDisconnected? then Some(e.clock.late)
                                    else None))
    else before
  }

  // The peer of generation `g` after the first `n` events of a run.
  function History(t: Trace, g: nat, n: nat): Option<Mark>
    requires |t.answers| == |t.events| && n <= |t.events|
    decreases n
  {
    if n == 0 then None else Later(History(t, g, n - 1), t.events[n - 1], t.answers[n - 1], g)
  }

  // -------- one session --------

  ghost predicate SameClocks(s: Session, t: Session) {
    && t.absoluteDeadline == s.absoluteDeadline
    && t.owner.generation == s.owner.generation && t.owner.lastActivity == s.owner.lastActivity
    && (t.receiver.Some? ==>
          && s.receiver.Some? && t.receiver.value.generation == s.receiver.value.generation
          && t.receiver.value.lastActivity == s.receiver.value.lastActivity
          && t.iceDeadline == s.iceDeadline
          && (t.phase == JoinReserved ==> s.phase == JoinReserved && t.phaseDeadline == s.phaseDeadline))
  }

  lemma OverdueClocks(s: Session, now: Time, late: Time)
    requires Coherent(s)
    ensures var d := Overdue(s, now, late); !d.Gone? ==> SameClocks(s, d.session)
  {}

  lemma TickClocks(s: Session, now: Time, late: Time)
    requires Coherent(s)
    ensures var after := TickSession(s, now, late).0; after.Some? ==> SameClocks(s, after.value)
  {
    hide Overdue, Coherent;
    OverdueClocks(s, now, late);
  }

  // An owner's message starts the owner's activity anew and touches nothing of the receiver's.
  lemma OwnerClocks(s: Session, b: Binding, m: Message, clock: Clock, capability: string)
    requires Coherent(s)
    ensures var o := OwnerMessage(s, b, m, clock, capability);
            && (o.accepted ==> OwnerMatches(s, b))
            && (o.session.Some? ==>
                  var t := o.session.value;
                  && t.owner.lastActivity == (if o.accepted then clock.act else s.owner.lastActivity)
                  && SameClocks(s, t.(owner := t.owner.(lastActivity := s.owner.lastActivity))))
  {
    hide Overdue, Coherent;
    OverdueClocks(s, clock.check, clock.act);
    OverdueSame(s, clock.check, clock.act);
  }

  lemma OverdueSame(s: Session, now: Time, late: Time)
    requires Coherent(s)
    ensures var d := Overdue(s, now, late);
            && (d.Stays? ==> d.session.owner == s.owner && d.session.receiver == s.receiver && d.session.id == s.id)
            && (d.Detached? ==> d.session.receiver.None?)
  {}

  lemma RequestClocks(s: Session, body: Body, now: Time)
    requires s.receiver.Some?
    ensures var o := ReceiverRequest(s, body, now);
            o.session.Some? ==>
              var t := o.session.value;
              && t.owner.lastActivity == s.owner.lastActivity && t.owner.generation == s.owner.generation
              && t.absoluteDeadline == s.absoluteDeadline
              && (t.receiver.Some? ==>
                    && o.accepted
                    && t.receiver.value.generation == s.receiver.value.generation
                    && t.receiver.value.lastActivity == s.receiver.value.lastActivity
                    && (t.phase == JoinReserved ==> s.phase == JoinReserved && t.phaseDeadline == s.phaseDeadline)
                    && t.iceDeadline == (if !body.ReceiverIce? then s.iceDeadline
                                         else if body.iceState.IceDisconnected?
                                         then Some(Min(now + 5000.0, s.absoluteDeadline)) else None))
  {}

  // A receiver that keeps its seat after a message had it accepted, and its activity starts anew.
  lemma ReceiverClocks(s: Session, b: Binding, m: Message, clock: Clock)
    requires Coherent(s)
    ensures var o := ReceiverMessage(s, b, m, clock);
            && (o.accepted ==> ReceiverMatches(s, b))
            && (o.session.Some? ==>
                  var t := o.session.value;
                  && t.owner.lastActivity == s.owner.lastActivity && t.owner.generation == s.owner.generation
                  && t.absoluteDeadline == s.absoluteDeadline
                  && (t.receiver.Some? ==>
                        && o.accepted && s.receiver.Some?
                        && t.receiver.value.generation == s.receiver.value.generation
                        && t.receiver.value.lastActivity == clock.act
                        && (t.phase == JoinReserved ==> s.phase == JoinReserved && t.phaseDeadline == s.phaseDeadline)
                        && t.iceDeadline == (if !m.body.ReceiverIce? then s.iceDeadline
                                             else if m.body.iceState.IceDisconnected?
                                             then Some(Min(clock.late + 5000.0, s.absoluteDeadline)) else None)))
  {
    hide Overdue, Coherent, ReceiverRequest;
    OverdueClocks(s, clock.check, clock.act);
    OverdueSame(s, clock.check, clock.act);
    var d := Overdue(s, clock.check, clock.act);
    if d.Stays? && ReceiverAdmits(d.session, b, m) {
      var t, peer := d.session, d.session.receiver.value;
      var u := t.(receiver := Some(peer.(expectedClient := peer.expectedClient + 1, lastActivity := clock.act)));
      RequestClocks(u, m.body, clock.late);
    }
  }

  // -------- runs --------

  ghost predicate OwnerTold(s: Session, mark: Option<Mark>) {
    mark.Some? && mark.value.heard == s.owner.lastActivity
  }

  ghost predicate ReceiverTold(s: Session, mark: Option<Mark>)
    requires s.receiver.Some?
  {
    && mark.Some? && mark.value.heard == s.receiver.value.lastActivity
    && s.iceDeadline == (if mark.value.iceLost.None? then None
                         else Some(Min(mark.value.iceLost.value + 5000.0, s.absoluteDeadline)))
    && (s.phase == JoinReserved ==> s.phaseDeadline == Some(Min(mark.value.seated + 30000.0, s.absoluteDeadline)))
  }

  ghost predicate Told(t: Trace, n: nat, s: Session)
    requires |t.answers| == |t.events| && n <= |t.events|
  {
    && OwnerTold(s, History(t, s.owner.generation, n))
    && (s.receiver.Some? ==> ReceiverTold(s, History(t, s.receiver.value.generation, n)))
  }

  // A message under another generation, or none, is no word of this peer.
  lemma Unspoken(before: Option<Mark>, e: Event, r: Response, g: nat)
    requires !Speaks(e, r, g) && !Sits(e, r, g)
    ensures Later(before, e, r, g) == before
  {}

  // What an event leaves of a session it finds is told by the history it leaves.
  lemma ShareTold(st: Store, e: Event, s: Session, t: Session, r: Response, ow: Option<Mark>, re: Option<Mark>)
    requires Valid(st) && s.id in st.sessions && st.sessions[s.id] == s && Admissible(st, e)
    requires Apply(st, e).1 == r && r.Response? && ShareOf(st, e, s).session == Some(t)
    requires OwnerTold(s, ow) && (s.receiver.Some? ==> ReceiverTold(s, re))
    ensures t.owner.generation == s.owner.generation && OwnerTold(t, Later(ow, e, r, s.owner.generation))
    ensures t.receiver.Some? && s.receiver.Some? ==> t.receiver.value.generation == s.receiver.value.generation
    ensures t.receiver.Some? && s.receiver.Some? ==> ReceiverTold(t, Later(re, e, r, s.receiver.value.generation))
    ensures t.receiver.Some? && s.receiver.None? ==>
              ReceiverTold(t, Later(None, e, r, t.receiver.value.generation))
  {
    hide OwnerMessage, ReceiverMessage, TickSession, Coherent, Valid;
    Keyed(st, s.id);
    assert s.owner.generation < st.nextGeneration by { IssuedAt(st, s.id); }
    assert s.receiver.Some? ==>
             s.owner.generation < s.receiver.value.generation < st.nextGeneration by { IssuedAt(st, s.id); }
    ApplySamePeers(st, e);
    match e
    case Timer(now, order, late) =>
      if s.id in late {
        TickClocks(s, now, late[s.id]);
      }
    case Departure(b, reason, now) =>
      Unspoken(ow, e, r, s.owner.generation);
    case Arrival(c, b, m, clock, entropy) =>
      if b.Some? {
        ArrivalTold(st, c, b.value, m, clock, entropy, s, t, r, ow, re);
      }
  }

  lemma IssuedAt(st: Store, id: string)
    requires Valid(st) && id in st.sessions
    ensures var s := st.sessions[id];
            && s.owner.generation < st.nextGeneration
            && (s.receiver.Some? ==> s.owner.generation < s.receiver.value.generation < st.nextGeneration)
  {}

  lemma HeldApart(st: Store, id: string, id': string, g: nat)
    requires Valid(st) && id in st.sessions && id' in st.sessions && id != id'
    ensures !(Holds(st.sessions[id], g) && Holds(st.sessions[id'], g))
  {}

  // An accepted bound message comes from the peer its binding names.
  lemma AcceptedMatches(st: Store, b: Binding, m: Message, clock: Clock, entropy: Entropy)
    requires Valid(st) && HandleBound(st, b, m, clock, entropy).1.Response?
    requires HandleBound(st, b, m, clock, entropy).1.accepted
    ensures Matches(st, b)
  {
    hide OwnerMessage, ReceiverMessage, Coherent, Valid;
    Keyed(st, b.sessionId);
    OwnerClocks(st.sessions[b.sessionId], b, m, clock, entropy.capability);
    ReceiverClocks(st.sessions[b.sessionId], b, m, clock);
  }

  lemma ArrivalTold(st: Store, c: nat, b: Binding, m: Message, clock: Clock, entropy: Entropy, s: Session, t: Session,
                    r: Response, ow: Option<Mark>, re: Option<Mark>)
    requires Valid(st) && s.id in st.sessions && st.sessions[s.id] == s
    requires r == HandleBound(st, b, m, clock, entropy).1 && r.Response? && r.binding.None?
    requires ShareOf(st, Arrival(c, Some(b), m, clock, entropy), s).session == Some(t)
    requires OwnerTold(s, ow) && (s.receiver.Some? ==> ReceiverTold(s, re))
    ensures var e := Arrival(c, Some(b), m, clock, entropy);
            && t.owner.generation == s.owner.generation && OwnerTold(t, Later(ow, e, r, s.owner.generation))
            && (t.receiver.Some? ==>
                  && s.receiver.Some? && t.receiver.value.generation == s.receiver.value.generation
                  && ReceiverTold(t, Later(re, e, r, s.receiver.value.generation)))
  {
    hide OwnerMessage, ReceiverMessage, Coherent, Valid;
    Keyed(st, s.id);
    IssuedAt(st, s.id);
    if r.accepted {
      AcceptedMatches(st, b, m, clock, entropy);
      if b.sessionId != s.id {
        HeldApart(st, s.id, b.sessionId, b.generation);
      }
    }
    if b.sessionId == s.id {
      OwnerClocks(s, b, m, clock, entropy.capability);
      ReceiverClocks(s, b, m, clock);
    }
  }

  /** In every state of every run a peer's activity time is that of its last accepted message, or of its taking its
      seat; the link's grace ends 5000 ms after the receiver last reported it lost, and the reservation 30000 ms after
      it was made, neither
      past the absolute deadline. */
  lemma {:induction false} HistoryTells(t: Trace, n: nat, id: string)
    requires Run(t) && n <= |t.events| && id in t.states[n].sessions
    ensures Told(t, n, t.states[n].sessions[id])
    decreases n
  {
    hide Apply, Coherent, Valid, ShareOf, OwnerTold, ReceiverTold, Later;
    if n > 0 {
      var st, e, r, after := t.states[n - 1], t.events[n - 1], t.answers[n - 1], t.states[n];
      assert StepAt(t, n - 1);
      RunValid(t, n - 1);
      if id in st.sessions {
        HistoryTells(t, n - 1, id);
        var s, u := st.sessions[id], after.sessions[id];
        Keyed(st, id);
        var pre, post := EventSplit(st, e, id);
        var re := if s.receiver.Some? then History(t, s.receiver.value.generation, n - 1) else None;
        ShareTold(st, e, s, u, r, History(t, s.owner.generation, n - 1), re);
        if u.receiver.Some? && s.receiver.None? {
          NewSeat(t, n - 1, id);
        }
      } else {
        Founded(t, n - 1, id);
      }
    }
  }

  // A generation not handed out yet has no history.
  lemma {:induction false} NoHistory(t: Trace, g: nat, n: nat)
    requires Run(t) && n <= |t.events| && g >= t.states[n].nextGeneration
    ensures History(t, g, n) == None
    decreases n
  {
    hide Apply, Coherent, Valid;
    if n > 0 {
      assert StepAt(t, n - 1);
      RunValid(t, n - 1);
      ApplySamePeers(t.states[n - 1], t.events[n - 1]);
      NoHistory(t, g, n - 1);
    }
  }

  // A receiver that appears takes the next generation.
  lemma NewSeat(t: Trace, n: nat, id: string)
    requires Run(t) && n < |t.events| && id in t.states[n].sessions && id in t.states[n + 1].sessions
    requires t.states[n].sessions[id].receiver.None? && t.states[n + 1].sessions[id].receiver.Some?
    ensures History(t, t.states[n + 1].sessions[id].receiver.value.generation, n) == None
  {
    hide Apply, Coherent, Valid, ShareOf;
    assert StepAt(t, n);
    RunValid(t, n);
    Keyed(t.states[n], id);
    var pre, post := EventSplit(t.states[n], t.events[n], id);
    SeatIsNext(t.states[n], t.events[n], t.states[n].sessions[id]);
    NoHistory(t, t.states[n].nextGeneration, n);
  }

  lemma SeatIsNext(st: Store, e: Event, s: Session)
    requires Coherent(s) && s.receiver.None?
    requires ShareOf(st, e, s).session.Some? && ShareOf(st, e, s).session.value.receiver.Some?
    ensures ShareOf(st, e, s).session.value.receiver.value.generation == st.nextGeneration
  {
    hide OwnerMessage, ReceiverMessage, TickSession, Coherent;
    match e
    case Timer(now, order, late) =>
      if s.id in late { TickClocks(s, now, late[s.id]); }
    case Departure(_, _, _) =>
    case Arrival(c, b, m, clock, entropy) =>
      if b.Some? {
        OwnerClocks(s, b.value, m, clock, entropy.capability);
        ReceiverClocks(s, b.value, m, clock);
      }
  }

  // A session that appears is one just created.
  lemma Founded(t: Trace, n: nat, id: string)
    requires Run(t) && n < |t.events| && id !in t.states[n].sessions && id in t.states[n + 1].sessions
    ensures Told(t, n + 1, t.states[n + 1].sessions[id])
  {
    hide HandleBound, TickPass, Coherent, Valid;
    assert StepAt(t, n);
    RunValid(t, n);
    var st, e := t.states[n], t.events[n];
    match e
    case Timer(now, order, late) => PassNoNew(st, order, now, late, id);
    case Departure(b, _, _) =>
    case Arrival(c, b, m, clock, entropy) =>
      if b.Some? { BoundNoNew(st, b.value, m, clock, entropy, id); }
  }

  lemma BoundNoNew(st: Store, b: Binding, m: Message, clock: Clock, e: Entropy, id: string)
    ensures id in HandleBound(st, b, m, clock, e).0.sessions ==> id in st.sessions
  {
    hide OwnerMessage, ReceiverMessage;
  }

  lemma {:induction false} PassNoNew(st: Store, order: seq<string>, now: Time, late: map<string, Time>, id: string)
    ensures id in TickPass(st, order, now, late).0.sessions ==> id in st.sessions
    decreases |order|
  {
    hide TickSession;
    if order != [] {
      PassNoNew(st, order[..|order| - 1], now, late, id);
    }
  }
}
