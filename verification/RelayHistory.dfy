// What never changes while a call lives, and where media packets may go, over
// every run of the media relay.
module RelayHistory {
  import opened RelayLaws
  import opened RelayModel
  import opened Text

  // --- One state is a later state of the same relay ---

  // A leg keeps its socket and addresses, and its observed source once it has one.
  ghost predicate KeepsLeg(a: Leg, b: Leg) {
    SameLeg(a, b) && (a.observed.Some? ==> b.observed == a.observed)
  }

  ghost predicate KeepsCall(x: Session, y: Session) {
    && x.fromTag == y.fromTag && KeepsLeg(x.offer, y.offer)
    && (x.answer.Some? ==> y.answer.Some? && KeepsLeg(x.answer.value, y.answer.value) && y.toTag == x.toTag)
  }

  // A call is recognised by its sockets, which are never reused.
  ghost predicate Later(s: State, t: State) {
    && s.nextSock <= t.nextSock
    && (forall sock :: sock in t.open && sock < s.nextSock ==> sock in s.open)
    && (forall k, sock :: k in s.sessions && sock in SocksOf(s.sessions[k]) && sock in t.open ==>
          k in t.sessions && KeepsCall(s.sessions[k], t.sessions[k]))
  }

  lemma SocketsBelowNext(s: State, cfg: Config, k: string, sock: nat)
    requires Inv(s, cfg) && k in s.sessions && sock in SocksOf(s.sessions[k])
    ensures sock in s.open && sock < s.nextSock
  {
    var place := Place(k, sock == s.sessions[k].offer.sock);
    assert Placed(s, place) && LegOf(s, place).sock == sock;
  }

  lemma KeepsCallTransitive(x: Session, y: Session, z: Session)
    requires KeepsCall(x, y)
    ensures SocksOf(x) <= SocksOf(y)
    ensures KeepsCall(y, z) ==> KeepsCall(x, z)
  {
  }

  lemma LaterTransitive(s: State, t: State, u: State, cfg: Config)
    requires Inv(s, cfg) && Later(s, t) && Later(t, u)
    ensures Later(s, u)
  {
    hide Inv, KeepsCall, SocksOf;
    forall k, sock | k in s.sessions && sock in SocksOf(s.sessions[k]) && sock in u.open
      ensures k in u.sessions && KeepsCall(s.sessions[k], u.sessions[k])
    {
      SocketsBelowNext(s, cfg, k, sock);
      assert sock in t.open;
      KeepsCallTransitive(s.sessions[k], t.sessions[k], if k in u.sessions then u.sessions[k] else t.sessions[k]);
      assert sock in SocksOf(t.sessions[k]);
    }
  }

  lemma DeleteAllLater(s: State, cfg: Config, calls: set<string>)
    requires Inv(s, cfg)
    ensures Later(s, DeleteAll(s, calls))
  {
    hide Inv, SocksOf;
    var t := DeleteAll(s, calls);
    forall k, sock | k in s.sessions && sock in SocksOf(s.sessions[k]) && sock in t.open
      ensures k in t.sessions && t.sessions[k] == s.sessions[k]
    {
      assert k in calls ==> sock in SocksOfCalls(s, calls);
    }
  }

  lemma DeleteLater(s: State, cfg: Config, callId: string)
    requires Inv(s, cfg)
    ensures Later(s, Delete(s, callId))
  {
    hide Inv;
    var t := Delete(s, callId);
    forall k, sock | k in s.sessions && sock in SocksOf(s.sessions[k]) && sock in t.open
      ensures k in t.sessions && t.sessions[k] == s.sessions[k]
    {
    }
  }

  // Opening a leg, or only using up a socket number, keeps every call.
  lemma AddLegLater(s: State, t: State, cfg: Config)
    requires Inv(s, cfg) && s.nextSock <= t.nextSock
    requires forall sock :: sock in t.open && sock < s.nextSock ==> sock in s.open
    requires forall k :: k in s.sessions ==> k in t.sessions && KeepsCall(s.sessions[k], t.sessions[k])
    ensures Later(s, t)
  {
  }

  lemma OfferLater(s: State, cfg: Config, callId: string, fromTag: string, sdp: string, now: real, host: Host)
    requires Inv(s, cfg)
    ensures Later(s, Offer(s, cfg, callId, fromTag, sdp, now, host).0)
  {
    hide Inv, Later, Offer, Delete;
    var cleared := Delete(s, callId);
    DeleteLater(s, cfg, callId);
    DeleteKeepsInv(s, cfg, callId);
    OfferAfterDelete(s, cfg, callId, fromTag, sdp, now, host);
    LaterTransitive(s, cleared, Offer(s, cfg, callId, fromTag, sdp, now, host).0, cfg);
  }

  lemma OfferAfterDelete(s: State, cfg: Config, callId: string, fromTag: string, sdp: string, now: real, host: Host)
    requires Inv(Delete(s, callId), cfg)
    ensures Later(Delete(s, callId), Offer(s, cfg, callId, fromTag, sdp, now, host).0)
  {
    hide PrepareLeg, SdpReply, ErrorReply, Inv;
    var cleared, t := Delete(s, callId), Offer(s, cfg, callId, fromTag, sdp, now, host).0;
    PrepareLegEffect(cleared, cfg, sdp, host);
    var (u, r) := PrepareLeg(cleared, cfg, sdp, host);
    assert callId !in cleared.sessions;
    hide Delete;
    assert t.open == if |cleared.sessions| >= cfg.maxSessions then cleared.open else u.open;
    AddLegLater(cleared, t, cfg);
  }

  lemma AnswerLater(s: State, cfg: Config, callId: string, fromTag: string, toTag: string, sdp: string, now: real, host: Host)
    requires Inv(s, cfg)
    ensures Later(s, Answer(s, cfg, callId, fromTag, toTag, sdp, now, host).0)
  {
    hide PrepareLeg, SdpReply, ErrorReply, Inv;
    PrepareLegEffect(s, cfg, sdp, host);
    var (u, r) := PrepareLeg(s, cfg, sdp, host);
    var t := Answer(s, cfg, callId, fromTag, toTag, sdp, now, host).0;
    assert t.open == s.open || t.open == u.open;
    AddLegLater(s, t, cfg);
  }

  lemma MediaLater(s: State, cfg: Config, sock: nat, data: bytes, source: Endpoint, now: real)
    requires Inv(s, cfg)
    ensures Later(s, HandleMedia(s, sock, data, source, now).0)
  {
    hide Inv, Received, ValidRtp;
    var t := HandleMedia(s, sock, data, source, now).0;
    forall k | k in s.sessions ensures k in t.sessions && KeepsCall(s.sessions[k], t.sessions[k]) {
    }
    AddLegLater(s, t, cfg);
  }

  lemma PayloadLater(s: State, cfg: Config, payload: bytes, now: real, host: Host)
    requires Inv(s, cfg)
    ensures Later(s, HandlePayload(s, cfg, payload, now, host).0)
  {
    hide Inv, Later, ReadCommand, Offer, Answer, Delete, Send;
    var command := ReadCommand(payload);
    LaterReflexive(s, cfg);
    if command.Ok? {
      match command.value
      case Ping =>
      case DeleteCall(callId) => DeleteLater(s, cfg, callId);
      case OfferCall(callId, fromTag, sdp) => OfferLater(s, cfg, callId, fromTag, sdp, now, host);
      case AnswerCall(callId, fromTag, toTag, sdp) => AnswerLater(s, cfg, callId, fromTag, toTag, sdp, now, host);
      case Unsupported =>
    }
  }

  lemma ControlLater(s: State, cfg: Config, data: bytes, allowed: bool, now: real, host: Host)
    requires Inv(s, cfg)
    ensures Later(s, HandleControl(s, cfg, data, allowed, now, host).0)
  {
    hide Inv, Later, HandlePayload, HandleControl;
    LaterReflexive(s, cfg);
    ControlIsPayload(s, cfg, data, allowed, now, host);
    var t := HandleControl(s, cfg, data, allowed, now, host).0;
    if t != s {
      var payload :| t == HandlePayload(s, cfg, payload, now, host).0;
      PayloadLater(s, cfg, payload, now, host);
    }
  }

  lemma NextIsLater(s: State, cfg: Config, e: Event)
    requires Inv(s, cfg)
    ensures Later(s, Next(s, cfg, e))
  {
    hide Inv, Later, HandleControl, HandleMedia, DeleteAll;
    match e
    case Control(data, allowed, now, host) => ControlLater(s, cfg, data, allowed, now, host);
    case Media(sock, data, source, now) => MediaLater(s, cfg, sock, data, source, now);
    case Tick(now) => DeleteAllLater(s, cfg, Overdue(s, cfg, now));
    case Shutdown => DeleteAllLater(s, cfg, s.sessions.Keys);
  }

  lemma LaterReflexive(s: State, cfg: Config)
    requires Inv(s, cfg)
    ensures Later(s, s)
  {
  }

  ghost function After(cfg: Config, es: seq<Event>, n: nat): State
    requires n <= |es|
  {
    Run(INITIAL, cfg, es[..n])
  }

  lemma Reachable(cfg: Config, es: seq<Event>, n: nat)
    requires n <= |es|
    ensures Inv(After(cfg, es, n), cfg)
  {
    assert Answered(INITIAL.sessions) == {};
    RunKeepsInv(INITIAL, cfg, es[..n]);
  }

  lemma {:induction false} RunIsLater(cfg: Config, es: seq<Event>, i: nat, j: nat)
    requires i <= j <= |es|
    ensures Later(After(cfg, es, i), After(cfg, es, j))
  {
    hide Inv, Later, Next;
    Reachable(cfg, es, i);
    if i == j {
      LaterReflexive(After(cfg, es, i), cfg);
    } else {
      RunIsLater(cfg, es, i, j - 1);
      Reachable(cfg, es, j - 1);
      assert es[..j][..j - 1] == es[..j - 1];
      NextIsLater(After(cfg, es, j - 1), cfg, es[j - 1]);
      LaterTransitive(After(cfg, es, i), After(cfg, es, j - 1), After(cfg, es, j), cfg);
    }
  }

  // --- Main results ---

  // A leg's observed source is written once: while its socket stays open it never
  // changes, and the leg never changes call or side.
  lemma LatchedForGood(cfg: Config, es: seq<Event>, i: nat, j: nat, place: Place)
    requires i <= j <= |es|
    requires Placed(After(cfg, es, i), place)
    requires LegOf(After(cfg, es, i), place).sock in After(cfg, es, j).open
    ensures var s, t := After(cfg, es, i), After(cfg, es, j);
      Placed(t, place) && KeepsLeg(LegOf(s, place), LegOf(t, place))
  {
    hide Inv, Next, Run;
    var s, t := After(cfg, es, i), After(cfg, es, j);
    RunIsLater(cfg, es, i, j);
    var sock := LegOf(s, place).sock;
    assert sock in SocksOf(s.sessions[place.callId]);
  }

  // A call is answered at most once: its second leg stays the same for its life,
  // and a further answer is refused without any effect.
  lemma AnsweredOnce(cfg: Config, es: seq<Event>, i: nat, j: nat, k: string)
    requires i <= j <= |es|
    requires AnsweredAt(After(cfg, es, i), k)
    requires After(cfg, es, i).sessions[k].offer.sock in After(cfg, es, j).open
    ensures var s, t := After(cfg, es, i), After(cfg, es, j);
      && AnsweredAt(t, k)
      && KeepsLeg(s.sessions[k].answer.value, t.sessions[k].answer.value)
      && (forall fromTag, toTag, sdp, now, host ::
            Answer(t, cfg, k, fromTag, toTag, sdp, now, host) == (t, ErrorReply("unknown-or-reused-dialog")))
  {
    hide Inv, Next, Run, ErrorReply;
    RunIsLater(cfg, es, i, j);
    var s := After(cfg, es, i);
    assert s.sessions[k].offer.sock in SocksOf(s.sessions[k]);
  }

  // The source a leg accepts: any while unlatched, then only the latched one.
  predicate Accepts(leg: Leg, source: Endpoint) {
    leg.observed.None? || leg.observed.value == source
  }

  lemma OnePlace(s: State, cfg: Config, sock: nat, p: Place, q: Place)
    requires Inv(s, cfg) && Holds(s, p, sock) && Holds(s, q, sock)
    ensures p == q
  {
    assert Placed(s, p) && Placed(s, q) && LegOf(s, p).sock == LegOf(s, q).sock;
  }

  // A packet is handled for the one leg whose socket it arrived on.
  lemma MediaAtPlace(s: State, cfg: Config, place: Place, sock: nat, data: bytes, source: Endpoint, now: real)
    requires Inv(s, cfg) && Holds(s, place, sock)
    ensures Placed(s, place)
    ensures HandleMedia(s, sock, data, source, now) == RelayPacket(s, place, Received(data), source, now)
  {
    hide RelayPacket, Received;
    var chosen :| Holds(s, chosen, sock)
      && HandleMedia(s, sock, data, source, now) == RelayPacket(s, chosen, Received(data), source, now);
    OnePlace(s, cfg, sock, place, chosen);
  }

  lemma MediaNowhere(s: State, sock: nat, data: bytes, source: Endpoint, now: real)
    requires forall place :: !Holds(s, place, sock)
    ensures HandleMedia(s, sock, data, source, now) == (s, None)
  {
  }

  // A packet leaves only by the peer leg of the call it arrived on, to that leg's
  // latched source or else its announced address; it does so exactly when it is a
  // version-2 packet from an accepted source and the call has both legs.
  lemma MediaIsolation(s: State, cfg: Config, place: Place, sock: nat, data: bytes, source: Endpoint, now: real)
    requires Inv(s, cfg) && Holds(s, place, sock)
    ensures var (t, sent) := HandleMedia(s, sock, data, source, now);
      var x := s.sessions[place.callId];
      var leg, peer := LegOf(s, place), PeerOf(x, place.isOffer);
      && (sent.Some? <==> ValidRtp(Received(data)) && Accepts(leg, source) && peer.Some?)
      && (sent.Some? ==>
            && sent.value.packet == Received(data)
            && Holds(s, Place(place.callId, !place.isOffer), sent.value.sock)
            && sent.value.sock in s.open && sent.value.sock != sock
            && sent.value.destination
               == if peer.value.observed.Some? then peer.value.observed.value else peer.value.advertised)
      && (ValidRtp(Received(data)) && Accepts(leg, source) ==>
            Placed(t, place) && LegOf(t, place).observed == Some(source))
      && (!(ValidRtp(Received(data)) && Accepts(leg, source)) ==> t == s)
      && (forall k :: k in s.sessions && k != place.callId ==> k in t.sessions && t.sessions[k] == s.sessions[k])
  {
    hide Received, ValidRtp;
    MediaAtPlace(s, cfg, place, sock, data, source, now);
    var other := Place(place.callId, !place.isOffer);
    assert Placed(s, place) && LegOf(s, place).sock == sock;
    if Placed(s, other) {
      assert Holds(s, other, LegOf(s, other).sock);
      assert LegOf(s, other).sock == sock ==> other == place;
    }
  }

  // A packet on a socket that is no leg goes nowhere.
  lemma NoLegNoMedia(s: State, cfg: Config, sock: nat, data: bytes, source: Endpoint, now: real)
    requires Inv(s, cfg) && sock !in s.open
    ensures HandleMedia(s, sock, data, source, now) == (s, None)
  {
    forall place ensures !Holds(s, place, sock) {
      assert Placed(s, place) ==> LegOf(s, place).sock in s.open;
    }
  }
}
