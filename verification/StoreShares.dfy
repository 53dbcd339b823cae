/** What one event does to one session: the record it leaves and the part of the actions that is about it. */
module StoreShares {
  import opened Common
  import opened SignalingTypes
  import opened SessionTransitions
  import opened StoreSpec
  import opened StoreInvariant

  datatype Share = Share(session: Option<Session>, actions: seq<Action>)

  // Session `s` of the store under event `e`.
  function ShareOf(st: Store, e: Event, s: Session): Share {
    match e
    case Timer(now, order, late) =>
      if s.id !in late then Share(Some(s), [])
      else var (after, actions) := TickSession(s, now, late[s.id]); Share(after, actions)
    case Departure(b, reason, now) =>
      if b.sessionId != s.id || !Matches(st, b) then Share(Some(s), [])
      else if b.role == Owner then Share(None, Revoke(s, reason, false))
      else var (t, actions) := DetachReceiver(s, reason, false, now); Share(Some(t), actions)
    case Arrival(c, binding, m, clock, entropy) =>
      if binding.Some? then
        if binding.value.sessionId != s.id then Share(Some(s), [])
        else
          var o := if binding.value.role == Owner then OwnerMessage(s, binding.value, m, clock, entropy.capability)
                   else ReceiverMessage(s, binding.value, m, clock);
          Share(o.session, o.actions)
      else if m.body.ReserveJoin? && m.body.sessionId == s.id && ReserveAdmits(st, m, clock.check) then
        var (t, actions) := Seated(s, c, st.nextGeneration, clock.check); Share(Some(t), actions)
      else Share(Some(s), [])
  }

  // Nothing here is sent for session `id`.
  ghost predicate NotAbout(actions: seq<Action>, id: string) {
    forall i :: 0 <= i < |actions| && actions[i].Send? ==> actions[i].envelope.sessionId != id
  }

  ghost predicate About(actions: seq<Action>, id: string) {
    forall i :: 0 <= i < |actions| && actions[i].Send? ==> actions[i].envelope.sessionId == id
  }

  lemma RevokeAbout(s: Session, reason: Reason, closeOwner: bool)
    ensures About(Revoke(s, reason, closeOwner), s.id) && About(Expire(s, reason), s.id)
  {}

  lemma DetachAbout(s: Session, reason: Reason, close: bool, now: Time)
    ensures About(DetachReceiver(s, reason, close, now).1, s.id)
  {}

  lemma OverdueAbout(s: Session, now: Time, late: Time)
    ensures var d := Overdue(s, now, late);
            match d
            case Gone(actions) => About(actions, s.id)
            case Detached(t, actions) => About(actions, s.id)
            case Stays(t) => t.id == s.id
  {
    hide Revoke, Expire, DetachReceiver;
    var t := if s.phase == JoinOpen && Passed(s.joinExpires, now) then ExpireJoin(s, now) else s;
    RevokeAbout(s, OwnerHeartbeatTimeout, true);
    RevokeAbout(s, AbsoluteExpiry, true);
    RevokeAbout(t, OwnerOnlyExpiry, true);
    DetachAbout(t, JoinReservationTimeout, true, late);
    DetachAbout(t, ReceiverHeartbeatTimeout, true, late);
    DetachAbout(t, IceDisconnectedTimeout, true, late);
  }

  lemma TickAbout(s: Session, now: Time, late: Time)
    ensures About(TickSession(s, now, late).1, s.id)
  {
    hide Overdue;
    OverdueAbout(s, now, late);
  }

  // The actions of a pass: others', this session's, others'.
  lemma {:induction false} PassSplit(st: Store, order: seq<string>, now: Time, late: map<string, Time>, id: string)
    returns (pre: seq<Action>, post: seq<Action>)
    requires Valid(st) && (forall i, j :: 0 <= i < j < |order| ==> order[i] != order[j])
    requires id in st.sessions && id in late
    ensures NotAbout(pre, id) && NotAbout(post, id)
    ensures var (after, actions) := TickPass(st, order, now, late);
            if id in order
            then && actions == pre + TickSession(st.sessions[id], now, late[id]).1 + post
                 && (id in after.sessions <==> TickSession(st.sessions[id], now, late[id]).0.Some?)
                 && (id in after.sessions ==> TickSession(st.sessions[id], now, late[id]).0 == Some(after.sessions[id]))
            else actions == pre + post && id in after.sessions && after.sessions[id] == st.sessions[id]
    decreases |order|
  {
    hide TickSession, Valid, Coherent;
    pre, post := [], [];
    if order != [] {
      var front, last := order[..|order| - 1], order[|order| - 1];
      pre, post := PassSplit(st, front, now, late, id);
      var (mid, acts) := TickPass(st, front, now, late);
      assert last !in front;
      if last in mid.sessions && last in late {
        TickPassKeeps(st, front, now, late);
        assert mid.sessions[last].id == last by { Keyed(mid, last); }
        TickAbout(mid.sessions[last], now, late[last]);
        var more := TickSession(mid.sessions[last], now, late[last]).1;
        if last == id {
          pre, post := pre + post, [];
          assert pre + more + [] == pre + more;
        } else {
          post := post + more;
          if id in front {
            var mine := TickSession(st.sessions[id], now, late[id]).1;
            assert acts + more == pre + mine + post;
          } else {
            assert acts + more == pre + post;
          }
        }
      }
    }
  }

  lemma Keyed(st: Store, id: string)
    requires Valid(st) && id in st.sessions
    ensures st.sessions[id].id == id && Coherent(st.sessions[id])
  {}

  /** An event does to a session what its share says, and sends for it only what its share says. */
  lemma EventSplit(st: Store, e: Event, id: string) returns (pre: seq<Action>, post: seq<Action>)
    requires Valid(st) && Admissible(st, e) && Apply(st, e).1.Response? && id in st.sessions
    ensures NotAbout(pre, id) && NotAbout(post, id)
    ensures var (after, r) := Apply(st, e);
            var share := ShareOf(st, e, st.sessions[id]);
            && r.actions == pre + share.actions + post
            && (id in after.sessions <==> share.session.Some?)
            && (id in after.sessions ==> share.session == Some(after.sessions[id]))
  {
    hide TickSession, OwnerMessage, ReceiverMessage, Coherent, DetachReceiver, Revoke, Seated;
    var s := st.sessions[id];
    var actions := Apply(st, e).1.actions;
    assert s.id == id by { Keyed(st, id); }
    pre, post := [], [];
    match e
    case Timer(now, order, late) =>
      pre, post := PassSplit(st, order, now, late, id);
    case Departure(b, reason, now) =>
      if Matches(st, b) && b.sessionId != id {
        var other := st.sessions[b.sessionId];
        Keyed(st, b.sessionId);
        RevokeAbout(other, reason, false);
        DetachAbout(other, reason, false, now);
        pre := actions;
      }
    case Arrival(c, b, m, clock, entropy) =>
      if b.Some? && b.value.sessionId in st.sessions && b.value.sessionId != id {
        Keyed(st, b.value.sessionId);
        MessageAbout(st.sessions[b.value.sessionId], b.value, m, clock, entropy.capability);
        pre := actions;
      } else if b.None? && m.body.CreateSession? {
        FirstFreeIsFree(entropy.ids, st.sessions.Keys);
        pre := actions;
      } else if b.None? && m.body.ReserveJoin? && m.body.sessionId != id && ReserveAdmits(st, m, clock.check) {
        Keyed(st, m.body.sessionId);
        SeatedAbout(st.sessions[m.body.sessionId], c, st.nextGeneration, clock.check);
        pre := actions;
      }
    assert actions == pre + ShareOf(st, e, s).actions + post;
  }

  lemma SeatedAbout(s: Session, c: nat, g: nat, now: Time)
    ensures About(Seated(s, c, g, now).1, s.id)
  {}

  lemma MessageAbout(s: Session, b: Binding, m: Message, clock: Clock, capability: string)
    ensures About(OwnerMessage(s, b, m, clock, capability).actions, s.id)
    ensures About(ReceiverMessage(s, b, m, clock).actions, s.id)
  {
    hide Overdue, Revoke, DetachReceiver;
    OverdueAbout(s, clock.check, clock.act);
    var d := Overdue(s, clock.check, clock.act);
    if d.Stays? {
      var t := d.session;
      RevokeAbout(t, OwnerProtocolFailure, true);
      DetachAbout(t, ReceiverProtocolFailure, true, clock.act);
      var u := t.(owner := t.owner.(expectedClient := t.owner.expectedClient + 1, lastActivity := clock.act));
      OwnerRequestAbout(u, m.body, clock.late, capability);
      if t.receiver.Some? {
        var peer := t.receiver.value;
        var v := t.(receiver := Some(peer.(expectedClient := peer.expectedClient + 1, lastActivity := clock.act)));
        ReceiverRequestAbout(v, m.body, clock.late);
      }
    }
  }

  lemma OwnerRequestAbout(s: Session, body: Body, now: Time, capability: string)
    ensures About(OwnerRequest(s, body, now, capability).actions, s.id)
  {
    hide Revoke, DetachReceiver;
    forall reason ensures About(Revoke(s, reason, true), s.id) { RevokeAbout(s, reason, true); }
    forall t: Session, reason | t.id
    == s.id ensures About(Revoke(t, reason, true), s.id) { RevokeAbout(t, reason, true); }
    forall t: Session, reason | t.id == s.id ensures About(DetachReceiver(t, reason, true, now).1, s.id) {
      DetachAbout(t, reason, true, now);
    }
  }

  lemma ReceiverRequestAbout(s: Session, body: Body, now: Time)
    ensures About(ReceiverRequest(s, body, now).actions, s.id)
  {
    hide Revoke, DetachReceiver;
    forall t: Session, reason | t.id
    == s.id ensures About(Revoke(t, reason, true), s.id) { RevokeAbout(t, reason, true); }
    forall t: Session, reason | t.id == s.id ensures About(DetachReceiver(t, reason, true, now).1, s.id) {
      DetachAbout(t, reason, true, now);
    }
  }
}
