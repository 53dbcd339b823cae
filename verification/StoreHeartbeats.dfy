/** Who may speak for a session, and when its peers are sent a heartbeat, told from the events of the run. */
module StoreHeartbeats {
  import opened Common
  import opened SignalingTypes
  import opened SessionTransitions
  import opened StoreSpec
  import opened StoreInvariant
  import opened StoreRuns
  import opened StoreShares
  import opened StoreActivity

  // -------- the owner's authority --------

  // The same session, as far as its owner and its founding are concerned.
  ghost predicate SameFounding(s: Session, t: Session) {
    && t.id == s.id && t.createdAt == s.createdAt && t.ownerHash == s.ownerHash
    && t.owner.connectionId == s.owner.connectionId && t.owner.generation == s.owner.generation
  }

  lemma ShareFounding(st: Store, e: Event, s: Session)
    requires Coherent(s)
    ensures ShareOf(st, e, s).session.Some? ==> SameFounding(s, ShareOf(st, e, s).session.value)
  {
    hide OwnerMessage, ReceiverMessage, TickSession, Coherent;
    match e
    case Timer(now, order, late) =>
      if s.id in late { TickKeeps(s, now, late[s.id]); }
    case Departure(b, reason, now) =>
      DetachKeeps(s, reason, false, now);
    case Arrival(c, b, m, clock, entropy) =>
      if b.Some? { MessageSound(s, b.value, m, clock, entropy.capability); }
  }

  predicate Founds(e: Event, r: Response, s: Session) {
    && e.Arrival? && e.message.body.CreateSession? && r.Response? && r.accepted
    && r.binding == Some(Binding(s.owner.connectionId, Owner, s.id, s.owner.generation))
    && e.clock.check == s.createdAt && s.ownerHash == Digest(OwnerKey, s.id, e.entropy.capability)
    && r.actions == [Send(s.owner.connectionId,
                          Envelope(s.id, 1, NoticeSessionCreated(e.entropy.capability, s.createdAt + 28800000.0)))]
  }

  /** Every session of every run was founded by one accepted CREATE_SESSION, whose answer told its capability to the
      connection that owns it. */
  lemma {:induction false} FoundedAt(t: Trace, n: nat, id: string) returns (k: nat)
    requires Run(t) && n <= |t.events| && id in t.states[n].sessions
    ensures k < n && Founds(t.events[k], t.answers[k], t.states[n].sessions[id])
    decreases n
  {
    hide Apply, Coherent, Valid, ShareOf;
    assert StepAt(t, n - 1);
    RunValid(t, n - 1);
    var st := t.states[n - 1];
    if id in st.sessions {
      k := FoundedAt(t, n - 1, id);
      Keyed(st, id);
      var pre, post := EventSplit(st, t.events[n - 1], id);
      ShareFounding(st, t.events[n - 1], st.sessions[id]);
    } else {
      k := n - 1;
      FoundedNow(st, t.events[n - 1], id);
    }
  }

  lemma FoundedNow(st: Store, e: Event, id: string)
    requires Valid(st) && Admissible(st, e) && Apply(st, e).1.Response? && id !in st.sessions
    requires id in Apply(st, e).0.sessions
    ensures Founds(e, Apply(st, e).1, Apply(st, e).0.sessions[id])
  {
    hide HandleBound, TickPass, Coherent, Valid;
    match e
    case Timer(now, order, late) => PassNoNew(st, order, now, late, id);
    case Departure(b, _, _) =>
    case Arrival(c, b, m, clock, entropy) =>
      if b.Some? { BoundNoNew(st, b.value, m, clock, entropy, id); }
  }

  lemma AcceptedPresents(s: Session, b: Binding, m: Message, clock: Clock, capability: string)
    requires Coherent(s) && OwnerMessage(s, b, m, clock, capability).accepted
    ensures m.body.HasOwnerCapability() && s.ownerHash == Digest(OwnerKey, s.id, m.body.ownerCapability)
    ensures OwnerMatches(s, b) && m.sequence == s.owner.expectedClient
  {
    hide Overdue, OwnerRequest;
    OverdueKeeps(s, clock.check, clock.act);
    OverdueSame(s, clock.check, clock.act);
  }

  /** An owner's message is accepted only from the connection that founded the session and with the capability its
      founding was answered with. */
  lemma OwnerAuthority(t: Trace, i: nat) returns (k: nat)
    requires Run(t) && i < |t.events| && t.events[i].Arrival? && t.answers[i].Response? && t.answers[i].accepted
    requires t.events[i].binding.Some? && t.events[i].binding.value.role == Owner
    ensures k < i && t.events[i].message.body.HasOwnerCapability()
    ensures var id := t.events[i].binding.value.sessionId;
            && id in t.states[i].sessions && Founds(t.events[k], t.answers[k], t.states[i].sessions[id])
            && t.events[i].message.body.ownerCapability == t.events[k].entropy.capability
            && t.answers[k].binding == t.events[i].binding
  {
    hide Valid, Coherent, OwnerMessage, ReceiverMessage;
    assert StepAt(t, i);
    RunValid(t, i);
    var e := t.events[i];
    var id := e.binding.value.sessionId;
    Keyed(t.states[i], id);
    AcceptedPresents(t.states[i].sessions[id], e.binding.value, e.message, e.clock, e.entropy.capability);
    k := FoundedAt(t, i, id);
  }

  // -------- heartbeats --------

  // A connection without a binding is nobody's peer.
  ghost predicate Fresh(st: Store, e: Event) {
    e.Arrival? && e.binding.None? ==>
      forall id :: id in st.sessions ==>
        && st.sessions[id].owner.connectionId != e.connectionId
        && (st.sessions[id].receiver.Some? ==> st.sessions[id].receiver.value.connectionId != e.connectionId)
  }

  ghost predicate Honest(t: Trace)
    requires Run(t)
  {
    forall i :: 0 <= i < |t.events| ==> Fresh(t.states[i], t.events[i])
  }

  predicate Separate(s: Session) { s.receiver.Some? ==> s.receiver.value.connectionId != s.owner.connectionId }

  lemma ShareSeparate(st: Store, e: Event, s: Session)
    requires Coherent(s) && Separate(s) && Fresh(st, e) && s.id in st.sessions && st.sessions[s.id] == s
    ensures ShareOf(st, e, s).session.Some? ==> Separate(ShareOf(st, e, s).session.value)
  {
    hide OwnerMessage, ReceiverMessage, TickSession, Coherent;
    match e
    case Timer(now, order, late) =>
      if s.id in late { TickKeeps(s, now, late[s.id]); }
    case Departure(b, reason, now) =>
    case Arrival(c, b, m, clock, entropy) =>
      if b.Some? { MessageSound(s, b.value, m, clock, entropy.capability); }
  }

  lemma {:induction false} RunSeparate(t: Trace, n: nat, id: string)
    requires Run(t) && Honest(t) && n <= |t.events| && id in t.states[n].sessions
    ensures Separate(t.states[n].sessions[id])
    decreases n
  {
    hide Apply, Coherent, Valid, ShareOf;
    assert StepAt(t, n - 1);
    RunValid(t, n - 1);
    var st := t.states[n - 1];
    if id in st.sessions {
      RunSeparate(t, n - 1, id);
      Keyed(st, id);
      var pre, post := EventSplit(st, t.events[n - 1], id);
      ShareSeparate(st, t.events[n - 1], st.sessions[id]);
    } else {
      NewAlone(st, t.events[n - 1], id);
    }
  }

  lemma NewAlone(st: Store, e: Event, id: string)
    requires Valid(st) && Admissible(st, e) && Apply(st, e).1.Response? && id !in st.sessions
    requires id in Apply(st, e).0.sessions
    ensures var s := Apply(st, e).0.sessions[id];
            && s.receiver.None? && s.owner.heartbeat == 0 && s.owner.nextHeartbeat == s.createdAt + 2000.0
            && s.owner.generation == st.nextGeneration
            && e.Arrival? && Apply(st, e).1.binding == Some(Binding(e.connectionId, Owner, id, st.nextGeneration))
            && s.owner.connectionId == e.connectionId && s.createdAt == e.clock.check
  {
    hide HandleBound, TickPass, Coherent, Valid;
    match e
    case Timer(now, order, late) => PassNoNew(st, order, now, late, id);
    case Departure(b, _, _) =>
    case Arrival(c, b, m, clock, entropy) =>
      if b.Some? { BoundNoNew(st, b.value, m, clock, entropy, id); }
  }

  // A heartbeat of session `id` to connection `c`.
  predicate IsBeat(a: Action, id: string, c: nat) {
    a.Send? && a.connectionId == c && a.envelope.sessionId == id && a.envelope.notice.NoticeHeartbeat?
  }

  ghost predicate Beats(actions: seq<Action>, id: string, c: nat) {
    exists i :: 0 <= i < |actions| && IsBeat(actions[i], id, c)
  }

  // What the events tell of a peer's heartbeats: how many it was sent, and when the last one, or when it sat down.
  datatype Pulse = Pulse(binding: Binding, last: Time, count: nat)

  ghost function Next(before: Option<Pulse>, e: Event, r: Response, g: nat): Option<Pulse> {
    if Sits(e, r, g) then Some(Pulse(r.binding.value, e.clock.check, 0))
    else if before.Some? && e.Timer? && r.Response?
            && Beats(r.actions, before.value.binding.sessionId, before.value.binding.connectionId) then
      Some(before.value.(last := e.now, count := before.value.count + 1))
    else before
  }

  ghost function PulseOf(t: Trace, g: nat, n: nat): Option<Pulse>
    requires |t.answers| == |t.events| && n <= |t.events|
    decreases n
  {
    if n == 0 then None else Next(PulseOf(t, g, n - 1), t.events[n - 1], t.answers[n - 1], g)
  }

  ghost predicate Counted(id: string, p: Peer, pulse: Option<Pulse>) {
    && pulse.Some? && pulse.value.binding.sessionId == id && pulse.value.binding.connectionId == p.connectionId
    && p.heartbeat == pulse.value.count && p.nextHeartbeat == pulse.value.last + 2000.0
  }

  // One peer across an event: beaten and counted, or left alone.
  ghost predicate Kept(p: Peer, q: Peer, beaten: bool, now: Time) {
    && q.connectionId == p.connectionId && q.generation == p.generation
    && q.heartbeat == p.heartbeat + (if beaten then 1 else 0)
    && q.nextHeartbeat == (if beaten then now + 2000.0 else p.nextHeartbeat)
  }

  lemma NoBeat(actions: seq<Action>, id: string, c: nat)
    requires forall i :: 0 <= i < |actions| && actions[i].Send? ==> !actions[i].envelope.notice.NoticeHeartbeat?
    ensures !Beats(actions, id, c)
  {}

  lemma DetachNoBeat(s: Session, reason: Reason, now: Time, c: nat)
    ensures var (t, actions) := DetachReceiver(s, reason, true, now);
            !Beats(actions, s.id, c) && Kept(s.owner, t.owner, false, now) && t.receiver.None?
  {
    NoBeat(DetachReceiver(s, reason, true, now).1, s.id, c);
  }

  lemma OverdueNoBeat(s: Session, now: Time, late: Time, c: nat)
    requires Coherent(s)
    ensures match Overdue(s, now, late)
            case Gone(_) => true
            case Detached(t, actions) =>
              !Beats(actions, s.id, c) && Kept(s.owner, t.owner, false, now) && t.receiver.None? && s.receiver.Some?
            case Stays(t) => t.owner == s.owner && t.receiver == s.receiver && t.id == s.id
  {
    hide DetachReceiver, Beats;
    var t := if s.phase == JoinOpen && Passed(s.joinExpires, now) then ExpireJoin(s, now) else s;
    DetachNoBeat(t, JoinReservationTimeout, late, c);
    DetachNoBeat(t, ReceiverHeartbeatTimeout, late, c);
    DetachNoBeat(t, IceDisconnectedTimeout, late, c);
  }

  // A visit that leaves both peers beats each exactly when it is due.
  lemma TickBeats(s: Session, now: Time, late: Time)
    requires Coherent(s) && Separate(s)
    ensures var (after, actions) := TickSession(s, now, late);
            after.Some? ==>
              var beaten := Beats(actions, s.id, s.owner.connectionId);
              && Kept(s.owner, after.value.owner, beaten, now)
              && (after.value.receiver.Some? ==>
                    && s.receiver.Some?
                    && Kept(s.receiver.value, after.value.receiver.value,
                            Beats(actions, s.id, s.receiver.value.connectionId), now)
                    && (Beats(actions, s.id, s.receiver.value.connectionId) <==> now >= s.receiver.value.nextHeartbeat))
              && (after.value.receiver.Some? || s.receiver.None? ==> (beaten <==> now >= s.owner.nextHeartbeat))
  {
    hide Overdue, Coherent;
    OverdueNoBeat(s, now, late, s.owner.connectionId);
    var (after, actions) := TickSession(s, now, late);
    if Overdue(s, now, late).Stays? {
      if now >= s.owner.nextHeartbeat {
        assert IsBeat(actions[0], s.id, s.owner.connectionId);
      }
      if s.receiver.Some? && now >= s.receiver.value.nextHeartbeat {
        assert IsBeat(actions[|actions| - 1], s.id, s.receiver.value.connectionId);
      }
    }
  }

  lemma BeatsShare(pre: seq<Action>, mine: seq<Action>, post: seq<Action>, id: string, c: nat)
    requires NotAbout(pre, id) && NotAbout(post, id)
    ensures Beats(pre + mine + post, id, c) <==> Beats(mine, id, c)
  {
    var all := pre + mine + post;
    if Beats(all, id, c) {
      var i :| 0 <= i < |all| && IsBeat(all[i], id, c);
      assert |pre| <= i < |pre| + |mine|;
      assert all[i] == mine[i - |pre|];
    }
    if Beats(mine, id, c) {
      var i :| 0 <= i < |mine| && IsBeat(mine[i], id, c);
      assert all[|pre| + i] == mine[i];
    }
  }

  // No other event touches a peer's heartbeats.
  lemma QuietShare(st: Store, e: Event, s: Session)
    requires Coherent(s) && !e.Timer? && ShareOf(st, e, s).session.Some? && s.id in st.sessions
    requires st.sessions[s.id] == s
    ensures var t := ShareOf(st, e, s).session.value;
            && Kept(s.owner, t.owner, false, 0.0)
            && (t.receiver.Some? && s.receiver.Some? ==> Kept(s.receiver.value, t.receiver.value, false, 0.0))
            && (t.receiver.Some? && s.receiver.None? ==>
                  && e.Arrival? && t.receiver.value.generation == st.nextGeneration
                  && t.receiver.value.connectionId == e.connectionId && t.receiver.value.heartbeat == 0
                  && t.receiver.value.nextHeartbeat == e.clock.check + 2000.0
                  && e.binding.None? && e.message.body.ReserveJoin? && e.message.body.sessionId == s.id
                  && ReserveAdmits(st, e.message, e.clock.check))
  {
    hide OwnerMessage, ReceiverMessage, Coherent;
    match e
    case Departure(b, reason, now) =>
    case Arrival(c, b, m, clock, entropy) =>
      if b.Some? {
        OwnerPulse(s, b.value, m, clock, entropy.capability);
        ReceiverPulse(s, b.value, m, clock);
      }
  }

  lemma OwnerPulse(s: Session, b: Binding, m: Message, clock: Clock, capability: string)
    requires Coherent(s)
    ensures var o := OwnerMessage(s, b, m, clock, capability);
            o.session.Some? ==>
              && Kept(s.owner, o.session.value.owner, false, 0.0)
              && (o.session.value.receiver.Some? ==>
                    s.receiver.Some? && Kept(s.receiver.value, o.session.value.receiver.value, false, 0.0))
  {
    hide Overdue, Coherent;
    OverdueNoBeat(s, clock.check, clock.act, 0);
  }

  lemma ReceiverPulse(s: Session, b: Binding, m: Message, clock: Clock)
    requires Coherent(s)
    ensures var o := ReceiverMessage(s, b, m, clock);
            o.session.Some? ==>
              && Kept(s.owner, o.session.value.owner, false, 0.0)
              && (o.session.value.receiver.Some? ==>
                    s.receiver.Some? && Kept(s.receiver.value, o.session.value.receiver.value, false, 0.0))
  {
    hide Overdue, Coherent, ReceiverRequest;
    OverdueNoBeat(s, clock.check, clock.act, 0);
    var d := Overdue(s, clock.check, clock.act);
    if d.Stays? && ReceiverAdmits(d.session, b, m) {
      var t, peer := d.session, d.session.receiver.value;
      var u := t.(receiver := Some(peer.(expectedClient := peer.expectedClient + 1, lastActivity := clock.act)));
      RequestPulse(u, m.body, clock.late);
    }
  }

  lemma RequestPulse(s: Session, body: Body, now: Time)
    requires s.receiver.Some?
    ensures var o := ReceiverRequest(s, body, now);
            o.session.Some? ==>
              && Kept(s.owner, o.session.value.owner, false, 0.0)
              && (o.session.value.receiver.Some? ==> Kept(s.receiver.value, o.session.value.receiver.value, false, 0.0))
  {}

  ghost predicate AllCounted(t: Trace, n: nat, s: Session)
    requires |t.answers| == |t.events| && n <= |t.events|
  {
    && Counted(s.id, s.owner, PulseOf(t, s.owner.generation, n))
    && (s.receiver.Some? ==> Counted(s.id, s.receiver.value, PulseOf(t, s.receiver.value.generation, n)))
  }

  lemma {:induction false} NoPulse(t: Trace, g: nat, n: nat)
    requires Run(t) && n <= |t.events| && g >= t.states[n].nextGeneration
    ensures PulseOf(t, g, n) == None
    decreases n
  {
    hide Apply, Coherent, Valid, Beats;
    if n > 0 {
      assert StepAt(t, n - 1);
      RunValid(t, n - 1);
      ApplySamePeers(t.states[n - 1], t.events[n - 1]);
      NoPulse(t, g, n - 1);
    }
  }

  lemma CountedNext(id: string, p: Peer, q: Peer, pulse: Option<Pulse>, e: Event, r: Response, beaten: bool)
    requires Counted(id, p, pulse) && r.Response? && !Sits(e, r, p.generation)
    requires beaten <==> e.Timer? && Beats(r.actions, id, p.connectionId)
    requires Kept(p, q, beaten, if e.Timer? then e.now else 0.0)
    ensures Counted(id, q, Next(pulse, e, r, p.generation))
  {
    hide Beats;
  }

  /** In every state of every run, a peer's heartbeat number is the number of heartbeats it was sent since it sat down,
      and the next is due 2000 ms after the last, or after it sat down. */
  lemma {:induction false} PulseTells(t: Trace, n: nat, id: string)
    requires Run(t) && Honest(t) && n <= |t.events| && id in t.states[n].sessions
    ensures AllCounted(t, n, t.states[n].sessions[id])
    decreases n
  {
    hide Apply, Coherent, Valid, ShareOf, Counted, Beats, Next, Kept;
    if n > 0 {
      var st, e, r, after := t.states[n - 1], t.events[n - 1], t.answers[n - 1], t.states[n];
      assert StepAt(t, n - 1);
      RunValid(t, n - 1);
      if id in st.sessions {
        PulseTells(t, n - 1, id);
        PulseStep(t, n - 1, id);
      } else {
        NewAlone(st, e, id);
        RunValid(t, n);
        Keyed(after, id);
        FirstPulse(r, e, after.sessions[id].owner, id, PulseOf(t, st.nextGeneration, n - 1));
      }
    }
  }

  lemma FirstPulse(r: Response, e: Event, p: Peer, id: string, before: Option<Pulse>)
    requires e.Arrival? && r.Response? && r.binding.Some? && r.binding.value.sessionId == id
    requires r.binding.value.connectionId == p.connectionId && r.binding.value.generation == p.generation
    requires p.heartbeat == 0 && p.nextHeartbeat == e.clock.check + 2000.0
    ensures Counted(id, p, Next(before, e, r, p.generation))
  {}

  lemma PulseStep(t: Trace, n: nat, id: string)
    requires Run(t) && Honest(t) && n < |t.events| && id in t.states[n].sessions && id in t.states[n + 1].sessions
    requires AllCounted(t, n, t.states[n].sessions[id])
    ensures AllCounted(t, n + 1, t.states[n + 1].sessions[id])
  {
    hide Apply, Coherent, Valid, ShareOf, Counted, Beats, Next, Kept, Sits;
    var st, e, r, after := t.states[n], t.events[n], t.answers[n], t.states[n + 1];
    assert StepAt(t, n);
    RunValid(t, n);
    var s, u := st.sessions[id], after.sessions[id];
    Keyed(st, id);
    IssuedAt(st, id);
    RunSeparate(t, n, id);
    var pre, post := EventSplit(st, e, id);
    ApplySamePeers(st, e);
    ShareFounding(st, e, s);
    assert !Sits(e, r, s.owner.generation) by { NotYet(st, e, r, s.owner.generation); }
    var beaten := e.Timer? && Beats(r.actions, id, s.owner.connectionId);
    var mine := ShareOf(st, e, s).actions;
    BeatsShare(pre, mine, post, id, s.owner.connectionId);
    if s.receiver.Some? {
      BeatsShare(pre, mine, post, id, s.receiver.value.connectionId);
      assert !Sits(e, r, s.receiver.value.generation) by { NotYet(st, e, r, s.receiver.value.generation); }
    }
    if e.Timer? {
      TimerShare(st, e, s);
      TickBeats(s, e.now, e.late[id]);
    } else {
      QuietShare(st, e, s);
    }
    CountedNext(id, s.owner, u.owner, PulseOf(t, s.owner.generation, n), e, r, beaten);
    assert u.owner.generation == s.owner.generation;
    if u.receiver.Some? {
      if s.receiver.Some? {
        var b := e.Timer? && Beats(r.actions, id, s.receiver.value.connectionId);
        CountedNext(id, s.receiver.value, u.receiver.value, PulseOf(t, s.receiver.value.generation, n), e, r, b);
        assert u.receiver.value.generation
               == s.receiver.value.generation by { KeptGeneration(s.receiver.value, u.receiver.value); }
      } else {
        SeatResponse(st, e, id);
        FirstPulse(r, e, u.receiver.value, id, PulseOf(t, u.receiver.value.generation, n));
      }
    }
  }

  lemma KeptGeneration(p: Peer, q: Peer)
    ensures forall beaten, now :: Kept(p, q, beaten, now) ==> q.generation == p.generation
  {}

  lemma NotYet(st: Store, e: Event, r: Response, g: nat)
    requires g < st.nextGeneration && r.Response?
    requires r.binding.Some? ==> r.binding.value.generation == st.nextGeneration
    ensures !Sits(e, r, g)
  {}

  lemma TimerShare(st: Store, e: Event, s: Session)
    requires e.Timer? && Admissible(st, e) && s.id in st.sessions
    ensures s.id in e.late
    ensures ShareOf(st, e, s) == Share(TickSession(s, e.now, e.late[s.id]).0, TickSession(s, e.now, e.late[s.id]).1)
  {
    hide TickSession;
  }

  lemma SeatResponse(st: Store, e: Event, id: string)
    requires Valid(st) && e.Arrival? && e.binding.None? && e.message.body.ReserveJoin? && e.message.body.sessionId == id
    requires id in st.sessions && ReserveAdmits(st, e.message, e.clock.check) && Apply(st, e).1.Response?
    ensures Apply(st, e).1.binding == Some(Binding(e.connectionId, Receiver, id, st.nextGeneration))
  {
    hide Coherent, Seated, Valid;
    Keyed(st, id);
  }

  /** A tick that leaves a session its peers sends each of them a heartbeat if and only if 2000 ms have passed since its
      last one, or since it sat down. */
  lemma HeartbeatExactly(t: Trace, i: nat, id: string)
    requires Run(t) && Honest(t) && i < |t.events| && t.events[i].Timer? && t.answers[i].Response?
    requires id in t.states[i].sessions && id in t.states[i + 1].sessions
    requires t.states[i].sessions[id].receiver.Some? ==> t.states[i + 1].sessions[id].receiver.Some?
    ensures var s, now, acts := t.states[i].sessions[id], t.events[i].now, t.answers[i].actions;
            && PulseOf(t, s.owner.generation, i).Some?
            && (Beats(acts, id, s.owner.connectionId) <==>
                  now >= PulseOf(t, s.owner.generation, i).value.last + 2000.0)
            && (s.receiver.Some? ==>
                  && PulseOf(t, s.receiver.value.generation, i).Some?
                  && (Beats(acts, id, s.receiver.value.connectionId) <==>
                        now >= PulseOf(t, s.receiver.value.generation, i).value.last + 2000.0))
  {
    hide Apply, Coherent, Valid, ShareOf, Beats, PulseOf, Kept;
    var st, e := t.states[i], t.events[i];
    assert StepAt(t, i);
    RunValid(t, i);
    var s := st.sessions[id];
    Keyed(st, id);
    RunSeparate(t, i, id);
    PulseTells(t, i, id);
    var pre, post := EventSplit(st, e, id);
    TimerShare(st, e, s);
    TickBeats(s, e.now, e.late[id]);
    var mine := ShareOf(st, e, s).actions;
    BeatsShare(pre, mine, post, id, s.owner.connectionId);
    if s.receiver.Some? {
      BeatsShare(pre, mine, post, id, s.receiver.value.connectionId);
    }
  }
}
