/** What the store forwards for one receiver: at most one offer is outstanding (section 4 of RFC 3264). */
module Negotiation {
  import opened Common
  import opened SignalingTypes
  import opened SessionTransitions
  import opened StoreSpec
  import opened StoreInvariant
  import opened StoreRuns

  datatype Forwarded = Offer | AnswerTo | RestartOffer | RestartAnswer | Candidate

  function Kind(n: Notice): Option<Forwarded> {
    match n
    case NoticeReceiverOffer(_) => Some(Offer)
    case NoticeOwnerAnswer(_) => Some(AnswerTo)
    case NoticeReceiverRestartOffer(_) => Some(RestartOffer)
    case NoticeOwnerRestartAnswer(_) => Some(RestartAnswer)
    case NoticeReceiverCandidate(_) => Some(Candidate)
    case NoticeOwnerCandidate(_) => Some(Candidate)
    case _ => None
  }

  // The forwarded messages of session `id` among `actions`, in order.
  function ForwardedIn(actions: seq<Action>, id: string): seq<Forwarded> {
    if actions == [] then []
    else
      var before := ForwardedIn(actions[..|actions| - 1], id);
      var a := actions[|actions| - 1];
      if a.Send? && a.envelope.sessionId == id && Kind(a.envelope.notice).Some?
      then before + [Kind(a.envelope.notice).value] else before
  }

  predicate HasReceiver(st: Store, id: string, g: nat) {
    id in st.sessions && st.sessions[id].receiver.Some? && st.sessions[id].receiver.value.generation == g
  }

  // Everything forwarded for generation `g` of session `id` in the first `n` steps.
  ghost function Log(t: Trace, id: string, g: nat, n: nat): seq<Forwarded>
    requires Run(t) && n <= |t.events|
  {
    if n == 0 then []
    else
      assert StepAt(t, n - 1);
      Log(t, id, g, n - 1)
      + (if HasReceiver(t.states[n - 1], id, g) then ForwardedIn(t.answers[n - 1].actions, id) else [])
  }

  function Descriptions(log: seq<Forwarded>): seq<Forwarded> {
    if log == [] then []
    else
      var before := Descriptions(log[..|log| - 1]);
      if log[|log| - 1] == Candidate then before else before + [log[|log| - 1]]
  }

  // The n-th session description of OFFER ANSWER (RESTART_OFFER RESTART_ANSWER)*.
  function Scheduled(n: nat): Forwarded {
    if n == 0 then Offer else if n == 1 then AnswerTo else if n % 2 == 0 then RestartOffer else RestartAnswer
  }

  ghost predicate WellNegotiated(log: seq<Forwarded>) {
    && (forall n :: 0 <= n < |Descriptions(log)| ==> Descriptions(log)[n] == Scheduled(n))
    && (log != [] ==> log[0] == Offer)
  }

  // How far a record says the exchange has come, and how far a log says so.
  function Stage(s: Session): nat {
    if !s.offerSeen then 0 else if !s.answerSeen then 1 else if !s.restartPending then 2 else 3
  }

  function StageOf(log: seq<Forwarded>): nat {
    var n := |Descriptions(log)|;
    if n < 2 then n else if n % 2 == 0 then 2 else 3
  }

  // One forwarded message, if any, moves the exchange from stage `from` to stage `to`.
  predicate Moves(from: nat, sent: seq<Forwarded>, to: nat) {
    || (sent == [] && to == from)
    || (sent == [Candidate] && from >= 1 && to == from)
    || (sent == [Offer] && from == 0 && to == 1)
    || (sent == [AnswerTo] && from == 1 && to == 2)
    || (sent == [RestartOffer] && from == 2 && to == 3)
    || (sent == [RestartAnswer] && from == 3 && to == 2)
  }

  // Nothing is forwarded, or the session keeps its receiver and one scheduled message is.
  ghost predicate Advances(s: Session, after: Option<Session>, actions: seq<Action>, id: string) {
    var sent := ForwardedIn(actions, id);
    if after.Some? && after.value.receiver.Some? then Moves(Stage(s), sent, Stage(after.value)) else sent == []
  }

  ghost predicate NoneForwarded(actions: seq<Action>) {
    forall i :: 0 <= i < |actions| && actions[i].Send? ==> Kind(actions[i].envelope.notice).None?
  }

  // Sends carry the identifier of the session they belong to.
  ghost predicate Addressed(actions: seq<Action>, id: string) {
    forall i :: 0 <= i < |actions| && actions[i].Send? ==> actions[i].envelope.sessionId == id
  }

  ghost predicate NoneFor(actions: seq<Action>, id: string) {
    forall i :: 0 <= i < |actions| && actions[i].Send? ==>
      actions[i].envelope.sessionId != id || Kind(actions[i].envelope.notice).None?
  }

  lemma {:induction false} NothingIn(actions: seq<Action>, id: string)
    requires NoneFor(actions, id)
    ensures ForwardedIn(actions, id) == []
  {
    if actions != [] {
      NothingIn(actions[..|actions| - 1], id);
    }
  }

  lemma RevokeQuiet(s: Session, reason: Reason)
    ensures NoneForwarded(Revoke(s, reason, true)) && Addressed(Revoke(s, reason, true), s.id)
    ensures NoneForwarded(Expire(s, reason)) && Addressed(Expire(s, reason), s.id)
  {}

  lemma DetachQuiet(s: Session, reason: Reason, now: Time)
    ensures var (t, actions) := DetachReceiver(s, reason, true, now);
            NoneForwarded(actions) && Addressed(actions, s.id) && t.receiver.None?
  {}

  lemma OverdueQuiet(s: Session, now: Time, late: Time)
    requires Coherent(s)
    ensures var d := Overdue(s, now, late);
            && (d.Stays? ==> Stage(d.session) == Stage(s))
            && (!d.Stays? ==> NoneForwarded(d.actions))
            && (d.Detached? ==> d.session.receiver.None?)
            && (!d.Stays? ==> Addressed(d.actions, s.id))
  {
    hide Revoke, Expire, DetachReceiver;
    var t := if s.phase == JoinOpen && Passed(s.joinExpires, now) then ExpireJoin(s, now) else s;
    RevokeQuiet(s, OwnerHeartbeatTimeout);
    RevokeQuiet(s, AbsoluteExpiry);
    RevokeQuiet(t, OwnerOnlyExpiry);
    DetachQuiet(t, JoinReservationTimeout, late);
    DetachQuiet(t, ReceiverHeartbeatTimeout, late);
    DetachQuiet(t, IceDisconnectedTimeout, late);
  }

  lemma TickQuiet(s: Session, now: Time, late: Time)
    requires Coherent(s)
    ensures var (after, actions) := TickSession(s, now, late);
            && NoneForwarded(actions)
            && (after.Some? && after.value.receiver.Some? ==> Stage(after.value) == Stage(s))
  {
    hide Overdue;
    OverdueQuiet(s, now, late);
  }

  // A request either forwards nothing or forwards its one message in turn.
  ghost predicate Turn(s: Session, o: Outcome) {
    || (NoneForwarded(o.actions)
        && (o.session.Some? && o.session.value.receiver.Some? ==> Stage(o.session.value) == Stage(s)))
    || (|o.actions| == 1 && o.actions[0].Send? && o.actions[0].envelope.sessionId == s.id
        && Kind(o.actions[0].envelope.notice).Some?
        && o.session.Some? && o.session.value.receiver.Some?
        && Moves(Stage(s), [Kind(o.actions[0].envelope.notice).value], Stage(o.session.value)))
  }

  lemma OwnerRequestTurn(s: Session, body: Body, now: Time, capability: string)
    requires Coherent(s)
    ensures var o := OwnerRequest(s, body, now, capability); Turn(s, o) && Addressed(o.actions, s.id)
  {
    hide Revoke, DetachReceiver;
    forall reason ensures NoneForwarded(Revoke(s, reason, true)) && Addressed(Revoke(s, reason, true), s.id) {
      RevokeQuiet(s, reason);
    }
  }

  lemma ReceiverRequestTurn(s: Session, body: Body, now: Time)
    requires Coherent(s) && s.receiver.Some?
    ensures var o := ReceiverRequest(s, body, now); Turn(s, o) && Addressed(o.actions, s.id)
  {
    hide Revoke, DetachReceiver;
    RevokeQuiet(s, ReceiverIceStateInvalid);
    forall reason
      ensures var (t, actions) := DetachReceiver(s, reason, true, now);
              NoneForwarded(actions) && Addressed(actions, s.id) && t.receiver.None?
    {
      DetachQuiet(s, reason, now);
    }
  }

  lemma OwnerMessageTurn(s: Session, b: Binding, m: Message, clock: Clock, capability: string)
    requires Coherent(s)
    ensures var o := OwnerMessage(s, b, m, clock, capability); Turn(s, o) && Addressed(o.actions, s.id)
  {
    hide OwnerRequest, Overdue;
    OverdueQuiet(s, clock.check, clock.act);
    OverdueKeeps(s, clock.check, clock.act);
    var d := Overdue(s, clock.check, clock.act);
    if d.Stays? && OwnerAdmits(d.session, b, m) {
      var t := d.session;
      var u := t.(owner := t.owner.(expectedClient := t.owner.expectedClient + 1, lastActivity := clock.act));
      OwnerRequestTurn(u, m.body, clock.late, capability);
    }
  }

  lemma ReceiverMessageTurn(s: Session, b: Binding, m: Message, clock: Clock)
    requires Coherent(s)
    ensures var o := ReceiverMessage(s, b, m, clock); Turn(s, o) && Addressed(o.actions, s.id)
  {
    hide ReceiverRequest, Overdue;
    OverdueQuiet(s, clock.check, clock.act);
    OverdueKeeps(s, clock.check, clock.act);
    var d := Overdue(s, clock.check, clock.act);
    if d.Stays? && ReceiverAdmits(d.session, b, m) {
      var t := d.session;
      var peer := t.receiver.value;
      var u := t.(receiver := Some(peer.(expectedClient := peer.expectedClient + 1, lastActivity := clock.act)));
      ReceiverRequestTurn(u, m.body, clock.late);
    }
  }

  lemma TurnAdvances(s: Session, o: Outcome)
    requires Turn(s, o)
    ensures Advances(s, o.session, o.actions, s.id)
  {
    if NoneForwarded(o.actions) {
      NothingIn(o.actions, s.id);
    } else {
      assert o.actions[..0] == [];
      assert ForwardedIn(o.actions[..0], s.id) == [];
    }
  }

  // What any event does to the exchange of session `id`: a receiver that stays moves it by what was
  // forwarded, a receiver that goes leaves nothing forwarded, a receiver that comes starts it.
  ghost predicate Progress(st: Store, after: Store, actions: seq<Action>, id: string) {
    && (id in st.sessions && st.sessions[id].receiver.Some? ==>
          Advances(st.sessions[id],
                   if HasReceiver(after, id, st.sessions[id].receiver.value.generation) then Some(after.sessions[id])
                   else None,
                   actions, id))
    && (id !in st.sessions || st.sessions[id].receiver.None? ==> ForwardedIn(actions, id) == [])
    && (id in after.sessions && after.sessions[id].receiver.Some?
        && !HasReceiver(st, id, after.sessions[id].receiver.value.generation) ==>
          Stage(after.sessions[id]) == 0 && after.sessions[id].receiver.value.generation == st.nextGeneration)
  }

  lemma BoundProgress(st: Store, b: Binding, m: Message, clock: Clock, e: Entropy, id: string)
    requires Valid(st)
    ensures var (after, r) := HandleBound(st, b, m, clock, e); Progress(st, after, r.actions, id)
  {
    hide OwnerMessage, ReceiverMessage, Coherent, Stage, Moves, Turn, ForwardedIn;
    if b.sessionId in st.sessions {
      var s := st.sessions[b.sessionId];
      MessageSound(s, b, m, clock, e.capability);
      OwnerMessageTurn(s, b, m, clock, e.capability);
      ReceiverMessageTurn(s, b, m, clock);
      var o := if b.role == Owner then OwnerMessage(s, b, m, clock, e.capability) else ReceiverMessage(s, b, m, clock);
      TurnAdvances(s, o);
      if id != b.sessionId {
        NothingIn(o.actions, id);
        SameStage(st, id);
      }
    } else {
      NothingIn([], id);
      SameStage(st, id);
    }
  }

  lemma SameStage(st: Store, id: string)
    ensures id in st.sessions ==> Moves(Stage(st.sessions[id]), [], Stage(st.sessions[id]))
  {}

  // No forwarded message, and no receiver that was not there before at the same stage.
  ghost predicate Calm(st: Store, after: Store, actions: seq<Action>) {
    && NoneForwarded(actions)
    && forall id :: id in after.sessions && after.sessions[id].receiver.Some? ==>
         HasReceiver(st, id, after.sessions[id].receiver.value.generation)
         && Stage(after.sessions[id]) == Stage(st.sessions[id])
  }

  lemma CalmProgress(st: Store, after: Store, actions: seq<Action>, id: string)
    requires Calm(st, after, actions)
    ensures Progress(st, after, actions, id)
  {
    NothingIn(actions, id);
  }

  lemma {:induction false} TickCalm(st: Store, order: seq<string>, now: Time, late: map<string, Time>)
    requires Valid(st)
    ensures var (after, actions) := TickPass(st, order, now, late); Calm(st, after, actions)
  {
    hide TickSession, Coherent, Stage;
    if order != [] {
      var before := order[..|order| - 1];
      TickCalm(st, before, now, late);
      TickPassKeeps(st, before, now, late);
      var mid := TickPass(st, before, now, late).0;
      var id := order[|order| - 1];
      if id in mid.sessions && id in late {
        TickQuiet(mid.sessions[id], now, late[id]);
        TickKeeps(mid.sessions[id], now, late[id]);
      }
    }
  }

  lemma SeatedProgress(st: Store, c: nat, m: Message, now: Time, id: string)
    requires Valid(st) && m.body.ReserveJoin? && HandleReserve(st, c, m, now).1.Response?
    ensures var (after, r) := HandleReserve(st, c, m, now); Progress(st, after, r.actions, id)
  {
    hide ForwardedIn;
    var (after, r) := HandleReserve(st, c, m, now);
    NothingIn(r.actions, id);
    SameStage(st, id);
  }

  lemma CreatedProgress(st: Store, c: nat, m: Message, now: Time, e: Entropy, id: string)
    requires Valid(st) && HandleCreate(st, c, m, now, e).1.Response?
    ensures var (after, r) := HandleCreate(st, c, m, now, e); Progress(st, after, r.actions, id)
  {
    hide ForwardedIn;
    FirstFreeIsFree(e.ids, st.sessions.Keys);
    var (after, r) := HandleCreate(st, c, m, now, e);
    NothingIn(r.actions, id);
    SameStage(st, id);
  }

  lemma ApplyProgress(st: Store, e: Event, id: string)
    requires Valid(st) && Apply(st, e).1.Response?
    ensures var (after, r) := Apply(st, e); Progress(st, after, r.actions, id)
  {
    hide HandleBound, HandleCreate, HandleReserve, TickPass, Coherent, Progress;
    match e
    case Arrival(c, b, m, clock, entropy) =>
      if b.Some? {
        BoundProgress(st, b.value, m, clock, entropy, id);
      } else if m.body.CreateSession? {
        CreatedProgress(st, c, m, clock.check, entropy, id);
      } else if m.body.ReserveJoin? {
        SeatedProgress(st, c, m, clock.check, id);
      } else {
        CalmProgress(st, st, [], id);
      }
    case Departure(b, reason, now) =>
      var (after, actions) := Disconnect(st, b, reason, now);
      CalmProgress(st, after, actions, id);
    case Timer(now, order, late) =>
      TickCalm(st, order, now, late);
      var (after, actions) := TickPass(st, order, now, late);
      CalmProgress(st, after, actions, id);
  }

  lemma MovesLog(log: seq<Forwarded>, sent: seq<Forwarded>, to: nat)
    requires WellNegotiated(log) && Moves(StageOf(log), sent, to)
    ensures WellNegotiated(log + sent) && StageOf(log + sent) == to
  {
    if sent == [] {
      assert log + sent == log;
    } else {
      assert (log + sent)[..|log + sent| - 1] == log;
    }
  }

  // The log agrees with the record that holds the generation; later generations have none.
  ghost predicate Agrees(t: Trace, id: string, g: nat, n: nat)
    requires Run(t) && n <= |t.events|
  {
    var log := Log(t, id, g, n);
    && WellNegotiated(log)
    && (HasReceiver(t.states[n], id, g) ==> StageOf(log) == Stage(t.states[n].sessions[id]))
    && (g >= t.states[n].nextGeneration ==> log == [])
  }

  lemma {:induction false} LogAgrees(t: Trace, id: string, g: nat, n: nat)
    requires Run(t) && n <= |t.events|
    ensures Agrees(t, id, g, n)
  {
    hide Apply, Valid;
    if n > 0 {
      LogAgrees(t, id, g, n - 1);
      RunValid(t, n - 1);
      assert StepAt(t, n - 1);
      ApplySamePeers(t.states[n - 1], t.events[n - 1]);
      LogStep(t, id, g, n);
    }
  }

  lemma LogStep(t: Trace, id: string, g: nat, n: nat)
    requires Run(t) && 0 < n <= |t.events| && Agrees(t, id, g, n - 1)
    requires Valid(t.states[n - 1]) && StepAt(t, n - 1)
    requires t.states[n - 1].nextGeneration <= t.states[n].nextGeneration
    ensures Agrees(t, id, g, n)
  {
    hide Apply, Coherent, Stage, StageOf, WellNegotiated, Moves, ForwardedIn;
    var st, after, actions := t.states[n - 1], t.states[n], t.answers[n - 1].actions;
    var log := Log(t, id, g, n - 1);
    ApplyProgress(st, t.events[n - 1], id);
    var sent := if HasReceiver(st, id, g) then ForwardedIn(actions, id) else [];
    if HasReceiver(st, id, g) {
      if HasReceiver(after, id, g) {
        MovesLog(log, sent, Stage(after.sessions[id]));
      } else {
        assert log + sent == log;
      }
    } else {
      assert log + sent == log;
      if HasReceiver(after, id, g) {
        EmptyStage();
      }
    }
  }

  lemma EmptyStage()
    ensures StageOf([]) == 0
  {}

  /** For every receiver generation of every run, the forwarded session descriptions are a prefix of
      OFFER ANSWER (RESTART_OFFER RESTART_ANSWER)*, and the first forwarded message is the OFFER. */
  lemma OneOutstandingOffer(t: Trace, id: string, g: nat)
    requires Run(t)
    ensures var log := Log(t, id, g, |t.events|);
            && (forall n :: 0 <= n < |Descriptions(log)| ==> Descriptions(log)[n] == Scheduled(n))
            && (log != [] ==> log[0] == Offer)
  {
    LogAgrees(t, id, g, |t.events|);
  }
}
