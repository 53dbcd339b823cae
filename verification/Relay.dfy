/** The relay is faithful: what is forwarded is exactly what was said, once, in order, to the other peer. */
module Relay {
  import opened Common
  import opened SignalingTypes
  import opened SessionTransitions
  import opened StoreSpec
  import opened StoreInvariant
  import opened StoreRuns
  import opened StoreShares
  import opened Negotiation

  // What a peer says to the other, with its text, and to whom.
  function Said(body: Body): Option<(Role, Notice)> {
    match body
    case OwnerAnswer(_, _, sdp) => Some((Receiver, NoticeOwnerAnswer(sdp)))
    case OwnerRestartAnswer(_, _, sdp) => Some((Receiver, NoticeOwnerRestartAnswer(sdp)))
    case OwnerCandidate(_, _, candidate) => Some((Receiver, NoticeOwnerCandidate(candidate)))
    case ReceiverOffer(_, sdp) => Some((Owner, NoticeReceiverOffer(sdp)))
    case ReceiverRestartOffer(_, sdp) => Some((Owner, NoticeReceiverRestartOffer(sdp)))
    case ReceiverCandidate(_, candidate) => Some((Owner, NoticeReceiverCandidate(candidate)))
    case _ => None
  }

  // A forwarded message as it leaves: to which connection, under which number, with which text.
  datatype Relayed = Relayed(connectionId: nat, sequence: nat, notice: Notice)

  function PeerOf(s: Session, role: Role): Option<Peer> { if role == Owner then Some(s.owner) else s.receiver }

  function Carried(a: Action, id: string): seq<Relayed> {
    if a.Send? && a.envelope.sessionId == id && Kind(a.envelope.notice).Some?
    then [Relayed(a.connectionId, a.envelope.sequence, a.envelope.notice)] else []
  }

  // The forwarded messages of session `id` among some actions, whole and in order.
  function Relays(actions: seq<Action>, id: string): seq<Relayed>
    decreases |actions|
  {
    if actions == [] then [] else Relays(actions[..|actions| - 1], id) + Carried(actions[|actions| - 1], id)
  }

  lemma {:induction false} RelaysAppend(xs: seq<Action>, ys: seq<Action>, id: string)
    ensures Relays(xs + ys, id) == Relays(xs, id) + Relays(ys, id)
    decreases |ys|
  {
    if ys == [] {
      assert xs + ys == xs;
    } else {
      var n := |ys| - 1;
      assert (xs + ys)[..|xs + ys| - 1] == xs + ys[..n];
      RelaysAppend(xs, ys[..n], id);
    }
  }

  lemma {:induction false} RelaysNothing(actions: seq<Action>, id: string)
    requires NoneFor(actions, id)
    ensures Relays(actions, id) == []
    decreases |actions|
  {
    if actions != [] {
      RelaysNothing(actions[..|actions| - 1], id);
    }
  }

  lemma RelaysOne(a: Action, id: string)
    ensures Relays([a], id) == Carried(a, id)
  {
    assert [a][..0] == [];
  }

  // What an accepted message makes the store forward for session `s`.
  function Due(s: Session, body: Body, accepted: bool): seq<Relayed> {
    if accepted && Said(body).Some? && PeerOf(s, Said(body).value.0).Some? then
      var (role, notice) := Said(body).value;
      [Relayed(PeerOf(s, role).value.connectionId, PeerOf(s, role).value.nextServer, notice)]
    else []
  }

  ghost predicate Faithful(s: Session, body: Body, o: Outcome) {
    && Relays(o.actions, s.id) == Due(s, body, o.accepted)
    && (o.accepted && Said(body).Some? ==> PeerOf(s, Said(body).value.0).Some?)
  }

  lemma QuietFaithful(s: Session, body: Body, o: Outcome)
    requires NoneForwarded(o.actions) && (!o.accepted || Said(body).None?)
    ensures Faithful(s, body, o)
  {
    RelaysNothing(o.actions, s.id);
  }

  lemma ForwardFaithful(s: Session, t: Session, body: Body, now: Time)
    requires Said(body).Some? && PeerOf(s, Said(body).value.0).Some? && t.id == s.id
    requires t.owner == s.owner && t.receiver == s.receiver
    ensures var (role, notice) := Said(body).value;
            var o := Forward(t, role, notice, now); o.accepted && Faithful(s, body, o)
  {
    var (role, notice) := Said(body).value;
    var o := Forward(t, role, notice, now);
    assert o.actions == [o.actions[0]];
    RelaysOne(o.actions[0], s.id);
  }

  lemma OwnerRequestFaithful(s: Session, body: Body, now: Time, capability: string)
    requires Coherent(s) && body.HasOwnerCapability()
    ensures Faithful(s, body, OwnerRequest(s, body, now, capability))
  {
    hide Forward, Revoke, Faithful, Coherent;
    var o := OwnerRequest(s, body, now, capability);
    forall reason ensures NoneForwarded(Revoke(s, reason, true)) { RevokeQuiet(s, reason); }
    if Said(body).Some? && o.accepted {
      assert s.receiver.Some? by { AcceptedHasReceiver(s, body, now, capability); }
      ForwardFaithful(s, s, body, now);
      ForwardFaithful(s, s.(answerSeen := true, phase := Connected, phaseDeadline := None), body, now);
      ForwardFaithful(s, s.(restartPending := false), body, now);
    } else {
      assert NoneForwarded(o.actions) by { RefusedQuiet(s, body, now, capability); }
      QuietFaithful(s, body, o);
    }
  }

  lemma AcceptedHasReceiver(s: Session, body: Body, now: Time, capability: string)
    requires Said(body).Some? && body.HasOwnerCapability() && OwnerRequest(s, body, now, capability).accepted
    ensures s.receiver.Some?
  {}

  lemma RefusedQuiet(s: Session, body: Body, now: Time, capability: string)
    requires body.HasOwnerCapability() && (Said(body).None? || !OwnerRequest(s, body, now, capability).accepted)
    ensures NoneForwarded(OwnerRequest(s, body, now, capability).actions)
  {
    hide Revoke;
    forall reason ensures NoneForwarded(Revoke(s, reason, true)) { RevokeQuiet(s, reason); }
    if s.receiver.Some? && Said(body).Some? {
      ForwardFaithful(s, s, body, now);
      ForwardFaithful(s, s.(answerSeen := true, phase := Connected, phaseDeadline := None), body, now);
      ForwardFaithful(s, s.(restartPending := false), body, now);
    }
  }

  lemma ReceiverRequestFaithful(s: Session, body: Body, now: Time)
    requires s.receiver.Some? && !body.HasOwnerCapability()
    ensures Faithful(s, body, ReceiverRequest(s, body, now))
  {
    hide Revoke, DetachReceiver, Faithful, Forward;
    var o := ReceiverRequest(s, body, now);
    RevokeQuiet(s, ReceiverIceStateInvalid);
    forall reason ensures NoneForwarded(DetachReceiver(s, reason, true, now).1) { DetachQuiet(s, reason, now); }
    if Said(body).Some? {
      ForwardFaithful(s, s, body, now);
      ForwardFaithful(s, s.(offerSeen := true), body, now);
      ForwardFaithful(s, s.(restartPending := true), body, now);
      if !o.accepted {
        QuietFaithful(s, body, o);
      }
    } else {
      QuietFaithful(s, body, o);
    }
  }

  lemma SameFaithful(s: Session, t: Session, body: Body, o: Outcome)
    requires Faithful(t, body, o) && t.id == s.id
    requires t.owner.connectionId == s.owner.connectionId && t.owner.nextServer == s.owner.nextServer
    requires t.receiver.Some? <==> s.receiver.Some?
    requires t.receiver.Some? ==> t.receiver.value.connectionId == s.receiver.value.connectionId
                                  && t.receiver.value.nextServer == s.receiver.value.nextServer
    ensures Faithful(s, body, o)
  {}

  lemma MessageFaithful(s: Session, b: Binding, m: Message, clock: Clock, capability: string)
    requires Coherent(s)
    ensures Faithful(s, m.body, if b.role == Owner then OwnerMessage(s, b, m, clock, capability)
                                else ReceiverMessage(s, b, m, clock))
  {
    hide Overdue, OwnerRequest, ReceiverRequest, Revoke, DetachReceiver, Faithful, Coherent;
    var o := if b.role == Owner then OwnerMessage(s, b, m, clock, capability) else ReceiverMessage(s, b, m, clock);
    OverdueQuiet(s, clock.check, clock.act);
    OverdueKeeps(s, clock.check, clock.act);
    OverduePeers(s, clock.check, clock.act);
    var d := Overdue(s, clock.check, clock.act);
    if !d.Stays? {
      QuietFaithful(s, m.body, o);
    } else {
      var t := d.session;
      RevokeQuiet(t, OwnerProtocolFailure);
      DetachQuiet(t, ReceiverProtocolFailure, clock.act);
      if b.role == Owner && OwnerAdmits(t, b, m) {
        var u := t.(owner := t.owner.(expectedClient := t.owner.expectedClient + 1, lastActivity := clock.act));
        assert Coherent(u) by { HeardCoherent(t, clock.act); }
        OwnerRequestFaithful(u, m.body, clock.late, capability);
        SameFaithful(s, u, m.body, o);
      } else if b.role == Receiver && ReceiverAdmits(t, b, m) {
        var peer := t.receiver.value;
        var u := t.(receiver := Some(peer.(expectedClient := peer.expectedClient + 1, lastActivity := clock.act)));
        ReceiverRequestFaithful(u, m.body, clock.late);
        SameFaithful(s, u, m.body, o);
      } else {
        QuietFaithful(s, m.body, o);
      }
    }
  }

  lemma HeardCoherent(t: Session, act: Time)
    requires Coherent(t)
    ensures Coherent(t.(owner := t.owner.(expectedClient := t.owner.expectedClient + 1, lastActivity := act)))
  {}

  lemma OverduePeers(s: Session, now: Time, late: Time)
    ensures var d := Overdue(s, now, late);
            d.Stays? ==> d.session.owner == s.owner && d.session.receiver == s.receiver && d.session.id == s.id
  {}

  // -------- events and runs --------

  // What an event, answered so, makes the store forward for session `id`.
  function Expected(st: Store, e: Event, r: Response, id: string): seq<Relayed> {
    if e.Arrival? && r.Response? && e.binding.Some? && e.binding.value.sessionId == id && id in st.sessions
    then Due(st.sessions[id], e.message.body, r.accepted) else []
  }

  lemma QuietShare(st: Store, e: Event, s: Session)
    requires Coherent(s) && (e.Arrival? ==> e.binding.None? || e.binding.value.sessionId != s.id)
    ensures NoneForwarded(ShareOf(st, e, s).actions)
  {
    hide TickSession;
    match e
    case Timer(now, order, late) =>
      if s.id in late { TickQuiet(s, now, late[s.id]); }
    case Departure(b, reason, now) =>
    case Arrival(_, _, _, _, _) =>
  }

  /** An accepted message of one peer is forwarded to the other peer's connection, under its next number, with the very
      text that was said; nothing else is forwarded, by any event. */
  lemma RelayExactly(st: Store, e: Event, id: string)
    requires Valid(st) && Admissible(st, e) && Apply(st, e).1.Response?
    ensures Relays(Apply(st, e).1.actions, id) == Expected(st, e, Apply(st, e).1, id)
  {
    hide Apply, Valid, Coherent, ShareOf, Relays, Faithful, Due;
    var r := Apply(st, e).1;
    if id in st.sessions {
      var s := st.sessions[id];
      Keyed(st, id);
      var pre, post := EventSplit(st, e, id);
      var mine := ShareOf(st, e, s).actions;
      RelaysAppend(pre + mine, post, id);
      RelaysAppend(pre, mine, id);
      RelaysNothing(pre, id);
      RelaysNothing(post, id);
      assert Relays(r.actions, id) == Relays(mine, id);
      if e.Arrival? && e.binding.Some? && e.binding.value.sessionId == id {
        MessageFaithful(s, e.binding.value, e.message, e.clock, e.entropy.capability);
        BoundShare(st, e, s);
      } else {
        QuietShare(st, e, s);
        RelaysNothing(mine, id);
      }
    } else {
      StrangerQuiet(st, e, id);
      RelaysNothing(r.actions, id);
    }
  }

  lemma BoundShare(st: Store, e: Event, s: Session)
    requires e.Arrival? && e.binding.Some? && e.binding.value.sessionId == s.id && s.id in st.sessions
    requires st.sessions[s.id] == s
    ensures var b := e.binding.value;
            var o := if b.role == Owner then OwnerMessage(s, b, e.message, e.clock, e.entropy.capability)
                     else ReceiverMessage(s, b, e.message, e.clock);
            && ShareOf(st, e, s).actions == o.actions
            && Apply(st, e).1.Response? && Apply(st, e).1.accepted == o.accepted
            && (Faithful(s, e.message.body, o) ==> Relays(o.actions, s.id) == Due(s, e.message.body, o.accepted))
  {
    hide OwnerMessage, ReceiverMessage, Relays;
  }

  // Nothing is forwarded for a session that is not there.
  lemma StrangerQuiet(st: Store, e: Event, id: string)
    requires Valid(st) && Admissible(st, e) && Apply(st, e).1.Response? && id !in st.sessions
    ensures NoneFor(Apply(st, e).1.actions, id)
  {
    hide OwnerMessage, ReceiverMessage, TickPass, Coherent, Valid;
    match e
    case Timer(now, order, late) => PassQuiet(st, order, now, late);
    case Departure(b, reason, now) =>
    case Arrival(c, b, m, clock, entropy) =>
      if b.Some? && b.value.sessionId in st.sessions {
        Keyed(st, b.value.sessionId);
        MessageAbout(st.sessions[b.value.sessionId], b.value, m, clock, entropy.capability);
      }
  }

  lemma PassQuiet(st: Store, order: seq<string>, now: Time, late: map<string, Time>)
    requires Valid(st)
    ensures NoneForwarded(TickPass(st, order, now, late).1)
  {
    TickCalm(st, order, now, late);
  }

  // What was forwarded for generation `g` of session `id` in the first `n` steps, and what was said.
  ghost function Delivered(t: Trace, id: string, g: nat, n: nat): seq<Relayed>
    requires Run(t) && n <= |t.events|
    decreases n
  {
    if n == 0 then []
    else
      assert StepAt(t, n - 1);
      Delivered(t, id, g, n - 1)
      + (if HasReceiver(t.states[n - 1], id, g) then Relays(t.answers[n - 1].actions, id) else [])
  }

  // The accepted messages that say something to the other peer, as they ought to arrive.
  ghost function Spoken(t: Trace, id: string, g: nat, n: nat): seq<Relayed>
    requires Run(t) && n <= |t.events|
    decreases n
  {
    if n == 0 then []
    else
      Spoken(t, id, g, n - 1)
      + (if HasReceiver(t.states[n - 1], id, g) then Expected(t.states[n - 1], t.events[n - 1], t.answers[n - 1], id)
         else [])
  }

  /** Over every run and for every receiver generation, what is forwarded is what was said: the accepted offers,
      answers, restarts and candidates of either peer, each once, in order, with their texts, to the connection of the
      other. */
  lemma {:induction false} DeliveredIsSpoken(t: Trace, id: string, g: nat, n: nat)
    requires Run(t) && n <= |t.events|
    ensures Delivered(t, id, g, n) == Spoken(t, id, g, n)
    decreases n
  {
    hide Apply, Valid, Relays, Expected;
    if n > 0 {
      DeliveredIsSpoken(t, id, g, n - 1);
      assert StepAt(t, n - 1);
      RunValid(t, n - 1);
      RelayExactly(t.states[n - 1], t.events[n - 1], id);
    }
  }

  // A message that passes the gate of its peer.
  predicate Admitted(s: Session, b: Binding, m: Message) {
    if b.role == Owner then OwnerAdmits(s, b, m) else ReceiverAdmits(s, b, m)
  }

  // The stage at which each is in turn.
  predicate InTurn(kind: Forwarded, stage: nat) {
    match kind
    case Offer => stage == 0
    case AnswerTo => stage == 1
    case RestartOffer => stage == 2
    case RestartAnswer => stage == 3
    case Candidate => stage >= 1
  }

  lemma AcceptedInTurn(s: Session, b: Binding, m: Message, clock: Clock, capability: string)
    requires Coherent(s) && clock.Ordered() && Inside(s, clock.check) && s.receiver.Some? && Admitted(s, b, m)
    requires Said(m.body).Some?
    ensures Kind(Said(m.body).value.1).Some?
    ensures var o := if b.role == Owner then OwnerMessage(s, b, m, clock, capability)
            else ReceiverMessage(s, b, m, clock);
            o.accepted <==> InTurn(Kind(Said(m.body).value.1).value, Stage(s))
  {
    hide Overdue, Inside;
    OverdueInside(s, clock.check, clock.act);
  }

  /** While its session is inside its deadlines, a message that passes the gate is accepted if and only if it is the
      next in OFFER ANSWER (RESTART_OFFER RESTART_ANSWER)* after what has been forwarded for this receiver, or a
      candidate after the
      OFFER. */
  lemma AcceptedExactly(t: Trace, i: nat, id: string, g: nat)
    requires Run(t) && i < |t.events| && t.events[i].Arrival? && t.events[i].binding.Some? && t.answers[i].Response?
    requires t.events[i].binding.value.sessionId == id && HasReceiver(t.states[i], id, g)
    requires Inside(t.states[i].sessions[id], t.events[i].clock.check)
    requires Admitted(t.states[i].sessions[id], t.events[i].binding.value, t.events[i].message)
    requires Said(t.events[i].message.body).Some?
    ensures var kind := Kind(Said(t.events[i].message.body).value.1);
            var n := |Descriptions(Log(t, id, g, i))|;
            && kind.Some?
            && (t.answers[i].accepted <==> if kind.value == Candidate then n >= 1 else kind.value == Scheduled(n))
  {
    hide Apply, Valid, Coherent, Inside, Admitted, Said, Log, Descriptions;
    assert StepAt(t, i);
    RunValid(t, i);
    var st, e := t.states[i], t.events[i];
    var s := st.sessions[id];
    Keyed(st, id);
    LogAgrees(t, id, g, i);
    AcceptedInTurn(s, e.binding.value, e.message, e.clock, e.entropy.capability);
    BoundShare(st, e, s);
  }
}
