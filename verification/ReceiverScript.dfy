/** The receiver page's signaling half: its counters, its one offer and the candidates it holds back for it. */
module ReceiverScript {
  import opened Common
  import opened SignalingTypes
  import opened SignalingProtocol

  // The candidates among some messages, in order.
  function Candidates(messages: seq<Message>): seq<string> {
    if messages == [] then []
    else
      var before := Candidates(messages[..|messages| - 1]);
      var last := messages[|messages| - 1].body;
      if last.ReceiverCandidate? then before + [last.candidate] else before
  }

  lemma CandidatesSnoc(messages: seq<Message>, m: Message)
    ensures Candidates(messages + [m])
            == Candidates(messages) + (if m.body.ReceiverCandidate? then [m.body.candidate] else [])
  {
    assert (messages + [m])[..|messages|] == messages;
  }

  // Messages numbered from one.
  ghost predicate FromOne(messages: seq<Message>) {
    forall i :: 0 <= i < |messages| ==> messages[i].sequence == i + 1
  }

  ghost predicate HasOffer(messages: seq<Message>) {
    exists i :: 0 <= i < |messages| && messages[i].body.ReceiverOffer?
  }

  // Every candidate comes after an offer.
  ghost predicate OfferFirst(messages: seq<Message>) {
    forall i :: 0 <= i < |messages| && messages[i].body.ReceiverCandidate? ==> HasOffer(messages[..i])
  }

  lemma OfferFirstSnoc(messages: seq<Message>, m: Message)
    requires OfferFirst(messages) && (m.body.ReceiverCandidate? ==> HasOffer(messages))
    ensures OfferFirst(messages + [m])
    ensures HasOffer(messages) || m.body.ReceiverOffer? ==> HasOffer(messages + [m])
  {
    var all := messages + [m];
    forall i | 0 <= i < |all| && all[i].body.ReceiverCandidate? ensures HasOffer(all[..i]) {
      if i < |messages| {
        assert messages[i].body.ReceiverCandidate?;
        assert all[..i] == messages[..i];
      } else {
        assert all[..i] == messages;
      }
    }
    if HasOffer(messages) {
      var i :| 0 <= i < |messages| && messages[i].body.ReceiverOffer?;
      assert all[i].body.ReceiverOffer?;
    } else if m.body.ReceiverOffer? {
      assert all[|messages|].body.ReceiverOffer?;
    }
  }

  class V1Receiver {
    const sessionId: string
    var socketOpen: bool
    var peerConnection: bool
    var clientSequence: nat
    var serverSequence: nat
    var offerSent: bool
    var ended: bool
    var pendingCandidates: seq<string>
    // What the socket was given, from the first message on.
    var sent: seq<Message>

    function Value(): (client: Client)
      reads this
      ensures client.ReceiverClient?
    {
      ReceiverClient(sessionId, clientSequence, serverSequence, ended)
    }

    // Every candidate gathered: sent already, or held back.
    function Gathered(): (candidates: seq<string>)
      reads this
    {
      Candidates(sent) + pendingCandidates
    }

    ghost predicate Valid()
      reads this
    {
      && clientSequence == |sent| && FromOne(sent) && OfferFirst(sent)
      && (forall i :: 0 <= i < |sent| ==> ClientMay(ReceiverClient(sessionId, i, 0, false), sent[i].body))
      && (offerSent ==> HasOffer(sent) && pendingCandidates == [])
      && (peerConnection ==> |sent| >= 1)
      && (ended ==> !socketOpen)
    }

    constructor (session: string)
      ensures Valid() && Value() == ReceiverClient(session, 0, 0, false) && Gathered() == [] && !offerSent
      ensures !socketOpen
    {
      sessionId, socketOpen, peerConnection, clientSequence, serverSequence := session, false, false, 0, 0;
      offerSent, ended, pendingCandidates, sent := false, false, [], [];
    }

    /** `sendSignal`: one more message under the next number, or an exception and no number used. */
    method SendSignal(body: Body) returns (ok: bool)
      requires Valid() && ClientMay(ReceiverClient(sessionId, clientSequence, serverSequence, false), body)
      requires body.ReceiverCandidate? ==> HasOffer(sent)
      modifies `clientSequence, `sent
      ensures Valid() && ok == (socketOpen && !ended)
      ensures sent == old(sent) + (if ok then [Message(old(clientSequence) + 1, body)] else [])
      ensures ok && body.ReceiverOffer? ==> HasOffer(sent)
      ensures Candidates(sent)
              == old(Candidates(sent)) + (if ok && body.ReceiverCandidate? then [body.candidate] else [])
    {
      if !socketOpen || ended {
        return false;
      }
      OfferFirstSnoc(sent, Message(clientSequence + 1, body));
      CandidatesSnoc(sent, Message(clientSequence + 1, body));
      clientSequence := clientSequence + 1;
      sent := sent + [Message(clientSequence, body)];
      ok := true;
    }

    /** The socket opens: the one RESERVE_JOIN goes out first. */
    method Opened(joinCapability: string) returns (ok: bool)
      requires Valid() && sent == [] && !ended
      modifies this
      ensures Valid() && ok && sent == [Message(1, ReserveJoin(sessionId, joinCapability))]
      ensures Value() == ReceiverClient(sessionId, 1, old(serverSequence), false) && Gathered() == old(Gathered())
    {
      socketOpen := true;
      ok := SendSignal(ReserveJoin(sessionId, joinCapability));
    }

    method ClearReceiver()
      requires Valid()
      modifies this
      ensures Valid() && Value() == ReceiverClient(sessionId, old(clientSequence), old(serverSequence), true)
      ensures sent == old(sent)
      ensures Gathered() == if old(ended) then old(Gathered()) else Candidates(sent)
    {
      if !ended {
        ended, socketOpen := true, false;
        pendingCandidates := [];
      }
    }

    /** A local candidate: sent at once after the offer, held back before it; lost only when the socket no longer takes
        it. */
    method LocalCandidate(candidate: string)
      requires Valid() && peerConnection
      modifies `clientSequence, `sent, `pendingCandidates
      ensures Valid()
      ensures Gathered() == old(Gathered()) + (if offerSent && !(socketOpen && !ended) then [] else [candidate])
      ensures offerSent || sent == old(sent)
    {
      if offerSent {
        var ok := SendSignal(ReceiverCandidate(sessionId, candidate));
      } else {
        pendingCandidates := pendingCandidates + [candidate];
      }
    }

    /** The end of `createReceiverOffer`: the offer, then everything held back, in the order it was gathered. */
    method SendOffer(sdp: string)
      requires Valid() && peerConnection
      modifies this
      ensures Valid()
      ensures if old(socketOpen && !ended)
              then && offerSent && pendingCandidates == [] && Candidates(sent) == Gathered() == old(Gathered())
                   && old(sent) + [Message(old(clientSequence) + 1, ReceiverOffer(sessionId, sdp))] <= sent
                   && |sent| == |old(sent)| + 1 + |old(pendingCandidates)|
              else ended && sent == old(sent)
    {
      hide Candidates, HasOffer, OfferFirst, FromOne;
      var ok := SendSignal(ReceiverOffer(sessionId, sdp));
      if !ok {
        ClearReceiver();
        return;
      }
      ghost var transcript := sent;
      var held := pendingCandidates;
      pendingCandidates := [];
      offerSent := true;
      for i := 0 to |held|
        invariant Valid() && offerSent && socketOpen && !ended && pendingCandidates == [] && peerConnection
        invariant transcript <= sent && |sent| == |transcript| + i
        invariant Candidates(sent) == Candidates(transcript) + held[..i]
      {
        var sentOne := SendSignal(ReceiverCandidate(sessionId, held[i]));
      }
      assert held[..|held|] == held;
    }

    /** `handleSignalMessage`: the counters move as the protocol's client does; a heartbeat is acknowledged under the
        next number. `works` says whether the browser calls it makes succeed. */
    method HandleSignalMessage(e: Envelope, works: bool)
      requires Valid() && |sent| >= 1
      modifies this
      ensures Valid()
      ensures var taken := ClientTakes(old(Value()), e);
              var accepted := ClientAccepts(old(Value()), e);
              var acknowledges := accepted && e.notice.NoticeHeartbeat?;
              && serverSequence == taken.serverSequence
              && (taken.ended ==> ended)
              && (ended && !taken.ended ==> (acknowledges && !old(socketOpen)) || !works || !old(peerConnection))
              && sent == old(sent) + (if acknowledges && old(socketOpen && !ended)
                                      then [Message(old(clientSequence) + 1,
                                                    ReceiverHeartbeatAck(sessionId, e.notice.heartbeat))] else [])
              && (!ended ==> Gathered() == old(Gathered()))
    {
      hide Candidates, HasOffer, OfferFirst, FromOne;
      if !ClientAccepts(Value(), e) {
        ClearReceiver();
        return;
      }
      serverSequence := e.sequence;
      match e.notice {
        case NoticeJoinReserved(_) =>
          if !works {
            ClearReceiver();
          } else {
            peerConnection := true;
          }
        case NoticeHeartbeat(heartbeat, _) =>
          var ok := SendSignal(ReceiverHeartbeatAck(sessionId, heartbeat));
          if !ok {
            ClearReceiver();
          }
        case _ =>
          if !Serves(e.notice) || !peerConnection || !works {
            ClearReceiver();
          }
      }
    }
  }
}
