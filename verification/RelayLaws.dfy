// Conservation of sockets and ports, and isolation of calls, over every run of
// the media relay.
module RelayLaws {
  import opened RelayModel
  import opened Sdp
  import opened Text

  // --- The invariant ---

  ghost predicate AnsweredAt(s: State, k: string) { k in s.sessions && s.sessions[k].answer.Some? }

  function Answered(sessions: map<string, Session>): set<string> {
    set k | k in sessions && sessions[k].answer.Some?
  }

  ghost predicate Placed(s: State, place: Place) {
    place.callId in s.sessions && (place.isOffer || s.sessions[place.callId].answer.Some?)
  }

  function LegOf(s: State, place: Place): Leg
    requires Placed(s, place)
  {
    if place.isOffer then s.sessions[place.callId].offer else s.sessions[place.callId].answer.value
  }

  // Open sockets are exactly the legs of live sessions, each bound to its leg's port.
  ghost predicate SocketsAreLegs(s: State) {
    && (forall place :: Placed(s, place) ==>
          var leg := LegOf(s, place); leg.sock in s.open && s.open[leg.sock] == leg.port)
    && (forall sock :: sock in s.open ==> exists place :: Holds(s, place, sock))
  }

  // No socket serves two legs and no port is bound twice.
  ghost predicate NothingShared(s: State) {
    && (forall p, q :: Placed(s, p) && Placed(s, q) && LegOf(s, p).sock == LegOf(s, q).sock ==> p == q)
    && (forall x, y :: x in s.open && y in s.open && s.open[x] == s.open[y] ==> x == y)
  }

  ghost predicate WithinLimits(s: State, cfg: Config) {
    && |s.sessions| <= cfg.maxSessions
    && (forall x :: x in s.open ==> x < s.nextSock && cfg.mediaMin <= s.open[x] <= cfg.mediaMax)
  }

  ghost predicate Inv(s: State, cfg: Config) {
    && SocketsAreLegs(s) && NothingShared(s) && WithinLimits(s, cfg)
    && |s.open| == |s.sessions| + |Answered(s.sessions)|
  }

  // --- Deleting ---

  lemma DeleteKeepsInv(s: State, cfg: Config, callId: string)
    requires Inv(s, cfg)
    ensures Inv(Delete(s, callId), cfg)
    ensures Delete(s, callId).nextSock == s.nextSock && |Delete(s, callId).sessions| <= |s.sessions|
  {
    if callId in s.sessions {
      hide SocketsAreLegs, NothingShared, Answered;
      DeleteCounts(s, cfg, callId);
      DeleteKeepsSockets(s, callId);
    }
  }

  // The other legs stay where they are, on sockets the deleted call did not have.
  lemma OtherPlaces(s: State, callId: string, place: Place)
    requires SocketsAreLegs(s) && NothingShared(s) && callId in s.sessions
    requires Placed(s, place) && place.callId != callId
    ensures LegOf(s, place).sock !in SocksOf(s.sessions[callId])
  {
    var x := s.sessions[callId];
    assert Placed(s, Place(callId, true)) && LegOf(s, Place(callId, true)) == x.offer;
    assert x.answer.Some? ==> Placed(s, Place(callId, false)) && LegOf(s, Place(callId, false)) == x.answer.value;
  }

  lemma DeleteKeepsSockets(s: State, callId: string)
    requires SocketsAreLegs(s) && NothingShared(s) && callId in s.sessions
    ensures SocketsAreLegs(Delete(s, callId)) && NothingShared(Delete(s, callId))
  {
    var t := Delete(s, callId);
    assert t.sessions.Keys == s.sessions.Keys - {callId};
    forall place | Placed(t, place)
      ensures Placed(s, place) && place.callId != callId && LegOf(t, place) == LegOf(s, place)
      ensures LegOf(s, place).sock in t.open
    {
      OtherPlaces(s, callId, place);
    }
    forall sock | sock in t.open ensures exists place :: Holds(t, place, sock) {
      var place :| Holds(s, place, sock);
      assert Holds(t, place, sock);
    }
  }

  lemma MapMinusSize<K, V>(m: map<K, V>, ks: set<K>)
    requires ks <= m.Keys
    ensures |m - ks| == |m| - |ks|
  {
    assert (m - ks).Keys == m.Keys - ks;
    assert |(m - ks).Keys| == |m - ks| && |m.Keys| == |m|;
  }

  lemma MapPlusSize<K, V>(m: map<K, V>, k: K, v: V)
    requires k !in m
    ensures |m[k := v]| == |m| + 1
  {
    assert m[k := v].Keys == m.Keys + {k};
    assert |m[k := v].Keys| == |m[k := v]| && |m.Keys| == |m|;
  }

  lemma LegsOfCall(s: State, callId: string)
    requires SocketsAreLegs(s) && NothingShared(s) && callId in s.sessions
    ensures SocksOf(s.sessions[callId]) <= s.open.Keys
    ensures |SocksOf(s.sessions[callId])| == if s.sessions[callId].answer.Some? then 2 else 1
  {
    var x := s.sessions[callId];
    assert Placed(s, Place(callId, true)) && LegOf(s, Place(callId, true)) == x.offer;
    if x.answer.Some? {
      assert Placed(s, Place(callId, false)) && LegOf(s, Place(callId, false)) == x.answer.value;
      assert x.offer.sock != x.answer.value.sock;
    }
  }

  lemma DeleteCounts(s: State, cfg: Config, callId: string)
    requires Inv(s, cfg) && callId in s.sessions
    ensures var t := Delete(s, callId);
      && |t.sessions| == |s.sessions| - 1
      && |t.open| == |t.sessions| + |Answered(t.sessions)|
  {
    var t, x := Delete(s, callId), s.sessions[callId];
    LegsOfCall(s, callId);
    MapMinusSize(s.open, SocksOf(x));
    MapMinusSize(s.sessions, {callId});
    AnsweredAfterDelete(s.sessions, callId);
  }

  lemma AnsweredAfterDelete(sessions: map<string, Session>, callId: string)
    requires callId in sessions
    ensures |Answered(sessions - {callId})|
      == |Answered(sessions)| - if sessions[callId].answer.Some? then 1 else 0
  {
    assert Answered(sessions - {callId}) == Answered(sessions) - {callId};
  }

  // --- Opening a leg ---

  lemma AllocateEffect(s: State, cfg: Config, host: Host)
    requires Inv(s, cfg)
    ensures var (t, port) := Allocate(s, cfg, host);
      && t.sessions == s.sessions && s.nextSock <= t.nextSock && s.nextSock !in s.open
      && (port.Err? ==> t.open == s.open)
      && (port.Ok? ==>
            && t.nextSock == s.nextSock + 1
            && t.open == s.open[s.nextSock := port.value]
            && cfg.mediaMin <= port.value <= cfg.mediaMax
            && forall x :: x in s.open ==> s.open[x] != port.value)
  {
    forall x | x in s.open ensures s.open[x] in s.open.Values {
    }
  }

  // The ways preparing a leg can end, in terms of the allocation it makes.
  lemma PrepareLegCases(s: State, cfg: Config, sdp: string, host: Host)
    ensures var (t, r) := PrepareLeg(s, cfg, sdp, host);
      var (bound, port) := Allocate(s, cfg, host);
      || (t == s && r.Err?)
      || (t == bound && port.Err? && r.Err?)
      || (t == bound.(open := bound.open - {s.nextSock}) && port.Ok? && r.Err?)
      || (t == bound && port.Ok? && r.Ok?
          && r.value.leg == Leg(s.nextSock, port.value, r.value.leg.advertised, None))
  {
    hide ParseSdp, RewriteSdp, FirstFree;
  }

  // Preparing a leg opens exactly one fresh socket on a fresh port, or nothing.
  lemma PrepareLegEffect(s: State, cfg: Config, sdp: string, host: Host)
    requires Inv(s, cfg)
    ensures var (t, r) := PrepareLeg(s, cfg, sdp, host);
      && t.sessions == s.sessions && s.nextSock <= t.nextSock
      && (r.Err? ==> t.open == s.open)
      && (r.Ok? ==>
            var leg := r.value.leg;
            && leg.sock == s.nextSock < t.nextSock && leg.observed.None?
            && t.open == s.open[leg.sock := leg.port]
            && FreshLeg(s, cfg, leg))
  {
    hide PrepareLeg, Allocate, Inv;
    AllocateEffect(s, cfg, host);
    PrepareLegCases(s, cfg, sdp, host);
    var (bound, port) := Allocate(s, cfg, host);
    if port.Ok? { assert bound.open - {s.nextSock} == s.open; }
  }

  ghost predicate FreshLeg(s: State, cfg: Config, leg: Leg) {
    && leg.sock !in s.open && cfg.mediaMin <= leg.port <= cfg.mediaMax
    && forall x :: x in s.open ==> s.open[x] != leg.port
  }

  // A call whose new leg is open joins the others, or gains its second leg.
  lemma AddLegKeepsInv(s: State, t: State, cfg: Config, callId: string, x: Session, leg: Leg)
    requires Inv(s, cfg) && FreshLeg(s, cfg, leg) && leg.sock == s.nextSock < t.nextSock
    requires t.open == s.open[leg.sock := leg.port] && t.sessions == s.sessions[callId := x]
    requires if callId in s.sessions then
               s.sessions[callId].answer.None? && x.offer == s.sessions[callId].offer && x.answer == Some(leg)
             else |s.sessions| < cfg.maxSessions && x.offer == leg && x.answer.None?
    ensures Inv(t, cfg)
  {
    hide Answered;
    AddLegKeepsSockets(s, t, cfg, callId, x, leg);
    hide SocketsAreLegs, NothingShared;
    AddLegCounts(s, t, callId, x, leg);
  }

  lemma AddLegKeepsSockets(s: State, t: State, cfg: Config, callId: string, x: Session, leg: Leg)
    requires SocketsAreLegs(s) && NothingShared(s) && FreshLeg(s, cfg, leg)
    requires t.open == s.open[leg.sock := leg.port] && t.sessions == s.sessions[callId := x]
    requires if callId in s.sessions then
               s.sessions[callId].answer.None? && x.offer == s.sessions[callId].offer && x.answer == Some(leg)
             else x.offer == leg && x.answer.None?
    ensures SocketsAreLegs(t) && NothingShared(t)
  {
    var mine := Place(callId, callId !in s.sessions);
    assert Holds(t, mine, leg.sock);
    forall place | Placed(t, place)
      ensures place == mine || (Placed(s, place) && LegOf(t, place) == LegOf(s, place))
      ensures place == mine ==> LegOf(t, place) == leg
    {
    }
    forall sock | sock in t.open ensures exists place :: Holds(t, place, sock) {
      if sock != leg.sock {
        var place :| Holds(s, place, sock);
        assert Holds(t, place, sock);
      }
    }
  }

  lemma AddLegCounts(s: State, t: State, callId: string, x: Session, leg: Leg)
    requires leg.sock !in s.open
    requires t.open == s.open[leg.sock := leg.port] && t.sessions == s.sessions[callId := x]
    requires if callId in s.sessions then s.sessions[callId].answer.None? && x.answer.Some? else x.answer.None?
    ensures |t.open| == |s.open| + 1
    ensures |t.sessions| + |Answered(t.sessions)| == |s.sessions| + |Answered(s.sessions)| + 1
    ensures |t.sessions| == |s.sessions| + if callId in s.sessions then 0 else 1
  {
    MapPlusSize(s.open, leg.sock, leg.port);
    if callId in s.sessions {
      assert t.sessions.Keys == s.sessions.Keys;
      assert |t.sessions.Keys| == |t.sessions| && |s.sessions.Keys| == |s.sessions|;
      assert Answered(t.sessions) == Answered(s.sessions) + {callId};
    } else {
      MapPlusSize(s.sessions, callId, x);
      assert Answered(t.sessions) == Answered(s.sessions);
    }
  }

  lemma NextSockKeepsInv(s: State, t: State, cfg: Config)
    requires Inv(s, cfg) && t.sessions == s.sessions && t.open == s.open && s.nextSock <= t.nextSock
    ensures Inv(t, cfg)
  {
    forall place | Placed(t, place) ensures Placed(s, place) && LegOf(t, place) == LegOf(s, place) {
    }
    forall sock | sock in t.open ensures exists place :: Holds(t, place, sock) {
      var place :| Holds(s, place, sock);
      assert Holds(t, place, sock);
    }
  }

  lemma OfferKeepsInv(s: State, cfg: Config, callId: string, fromTag: string, sdp: string, now: real, host: Host)
    requires Inv(s, cfg)
    ensures Inv(Offer(s, cfg, callId, fromTag, sdp, now, host).0, cfg)
  {
    hide PrepareLeg, SdpReply, ErrorReply, Inv;
    var cleared := Delete(s, callId);
    DeleteKeepsInv(s, cfg, callId);
    if |cleared.sessions| < cfg.maxSessions {
      var (t, r) := PrepareLeg(cleared, cfg, sdp, host);
      PrepareLegEffect(cleared, cfg, sdp, host);
      if r.Err? {
        NextSockKeepsInv(cleared, t, cfg);
      } else {
        var x := Session(fromTag, r.value.leg, "", None, now);
        AddLegKeepsInv(cleared, t.(sessions := t.sessions[callId := x]), cfg, callId, x, r.value.leg);
      }
    }
  }

  lemma AnswerKeepsInv(s: State, cfg: Config, callId: string, fromTag: string, toTag: string, sdp: string, now: real, host: Host)
    requires Inv(s, cfg)
    ensures Inv(Answer(s, cfg, callId, fromTag, toTag, sdp, now, host).0, cfg)
  {
    hide PrepareLeg, SdpReply, ErrorReply, Inv;
    if callId in s.sessions && s.sessions[callId].fromTag == fromTag && s.sessions[callId].answer.None? {
      var (t, r) := PrepareLeg(s, cfg, sdp, host);
      PrepareLegEffect(s, cfg, sdp, host);
      if r.Err? {
        NextSockKeepsInv(s, t, cfg);
      } else {
        var x := s.sessions[callId].(toTag := toTag, answer := Some(r.value.leg), lastActivity := now);
        AddLegKeepsInv(s, t.(sessions := t.sessions[callId := x]), cfg, callId, x, r.value.leg);
      }
    }
  }

  // --- Media ---

  // Nothing but observed sources and activity times differs.
  ghost predicate SameLegs(s: State, t: State) {
    && t.open == s.open && t.nextSock == s.nextSock && t.sessions.Keys == s.sessions.Keys
    && forall k :: k in s.sessions ==> SameLegsOf(s.sessions[k], t.sessions[k])
  }

  ghost predicate SameLegsOf(x: Session, y: Session) {
    && SameLeg(x.offer, y.offer)
    && (x.answer.Some? <==> y.answer.Some?)
    && (x.answer.Some? ==> SameLeg(x.answer.value, y.answer.value))
  }

  ghost predicate SameLeg(a: Leg, b: Leg) {
    a.sock == b.sock && a.port == b.port && a.advertised == b.advertised
  }

  lemma SameLegsKeepInv(s: State, t: State, cfg: Config)
    requires Inv(s, cfg) && SameLegs(s, t)
    ensures Inv(t, cfg)
  {
    forall place | Placed(t, place) ensures Placed(s, place) && SameLeg(LegOf(s, place), LegOf(t, place)) {
      assert place.callId in s.sessions;
    }
    forall sock | sock in t.open ensures exists place :: Holds(t, place, sock) {
      var place :| Holds(s, place, sock);
      assert Holds(t, place, sock);
    }
    assert Answered(t.sessions) == Answered(s.sessions);
    assert |t.sessions.Keys| == |t.sessions| && |s.sessions.Keys| == |s.sessions|;
  }

  lemma RelayPacketSameLegs(s: State, place: Place, packet: bytes, source: Endpoint, now: real)
    requires Placed(s, place)
    ensures SameLegs(s, RelayPacket(s, place, packet, source, now).0)
  {
  }

  // --- Expiry and shutdown ---

  lemma SocksStep(s: State, calls: set<string>, k: string)
    requires k in calls && k in s.sessions
    ensures SocksOfCalls(s, calls) == SocksOf(s.sessions[k]) + SocksOfCalls(Delete(s, k), calls - {k})
  {
    hide SocksOf;
    var t := Delete(s, k);
    var a, b := SocksOfCalls(s, calls), SocksOfCalls(t, calls - {k});
    forall x | x in a ensures x in SocksOf(s.sessions[k]) + b {
      var c :| c in calls && c in s.sessions && x in SocksOf(s.sessions[c]);
      if c != k { assert c in t.sessions && t.sessions[c] == s.sessions[c]; }
    }
    forall x | x in SocksOf(s.sessions[k]) + b ensures x in a {
      if x in b {
        var c :| c in calls - {k} && c in t.sessions && x in SocksOf(t.sessions[c]);
        assert c in s.sessions && s.sessions[c] == t.sessions[c];
      }
    }
  }

  lemma DeleteAllStep(s: State, cfg: Config, calls: set<string>, k: string)
    requires k in calls
    ensures DeleteAll(s, calls) == DeleteAll(Delete(s, k), calls - {k})
  {
    hide SocksOf, SocksOfCalls;
    var t := Delete(s, k);
    assert s.sessions - calls == t.sessions - (calls - {k});
    if k in s.sessions {
      SocksStep(s, calls, k);
      assert s.open - SocksOfCalls(s, calls) == t.open - SocksOfCalls(t, calls - {k});
    } else {
      SocksWithout(s, calls, k);
    }
  }

  lemma SocksWithout(s: State, calls: set<string>, k: string)
    requires k !in s.sessions
    ensures SocksOfCalls(s, calls) == SocksOfCalls(s, calls - {k})
  {
    hide SocksOf;
    forall x | x in SocksOfCalls(s, calls) ensures x in SocksOfCalls(s, calls - {k}) {
      var c :| c in calls && c in s.sessions && x in SocksOf(s.sessions[c]);
      assert c in calls - {k};
    }
  }

  lemma DeleteNone(s: State)
    ensures DeleteAll(s, {}) == s
  {
    assert SocksOfCalls(s, {}) == {};
    assert s.sessions - {} == s.sessions && s.open - {} == s.open;
  }

  lemma {:induction false} DeleteAllKeepsInv(s: State, cfg: Config, calls: set<string>)
    requires Inv(s, cfg)
    ensures Inv(DeleteAll(s, calls), cfg)
    decreases |calls|
  {
    hide Inv, Delete, DeleteAll;
    if calls == {} {
      DeleteNone(s);
    } else {
      var k :| k in calls;
      DeleteKeepsInv(s, cfg, k);
      DeleteAllStep(s, cfg, calls, k);
      DeleteAllKeepsInv(Delete(s, k), cfg, calls - {k});
    }
  }

  // --- Runs ---

  datatype Event =
    | Control(data: bytes, allowed: bool, now: real, host: Host)
    | Media(sock: nat, data: bytes, source: Endpoint, now: real)
    | Tick(now: real)
    | Shutdown

  ghost function Next(s: State, cfg: Config, e: Event): State {
    match e
    case Control(data, allowed, now, host) => HandleControl(s, cfg, data, allowed, now, host).0
    case Media(sock, data, source, now) => HandleMedia(s, sock, data, source, now).0
    case Tick(now) => Expire(s, cfg, now)
    case Shutdown => Close(s)
  }

  // A datagram on the control socket does nothing or what its command does.
  lemma ControlIsPayload(s: State, cfg: Config, data: bytes, allowed: bool, now: real, host: Host)
    ensures var t := HandleControl(s, cfg, data, allowed, now, host).0;
      t == s || exists payload :: t == HandlePayload(s, cfg, payload, now, host).0
  {
    hide HandlePayload;
  }

  lemma ControlKeepsInv(s: State, cfg: Config, data: bytes, allowed: bool, now: real, host: Host)
    requires Inv(s, cfg)
    ensures Inv(HandleControl(s, cfg, data, allowed, now, host).0, cfg)
  {
    hide HandlePayload, HandleControl, Inv;
    ControlIsPayload(s, cfg, data, allowed, now, host);
    var t := HandleControl(s, cfg, data, allowed, now, host).0;
    if t != s {
      var payload :| t == HandlePayload(s, cfg, payload, now, host).0;
      PayloadKeepsInv(s, cfg, payload, now, host);
    }
  }

  lemma PayloadKeepsInv(s: State, cfg: Config, payload: bytes, now: real, host: Host)
    requires Inv(s, cfg)
    ensures Inv(HandlePayload(s, cfg, payload, now, host).0, cfg)
  {
    hide ReadCommand, Inv, Offer, Answer, Delete, Send;
    var command := ReadCommand(payload);
    if command.Ok? {
      match command.value
      case Ping =>
      case DeleteCall(callId) => DeleteKeepsInv(s, cfg, callId);
      case OfferCall(callId, fromTag, sdp) => OfferKeepsInv(s, cfg, callId, fromTag, sdp, now, host);
      case AnswerCall(callId, fromTag, toTag, sdp) =>
        AnswerKeepsInv(s, cfg, callId, fromTag, toTag, sdp, now, host);
      case Unsupported =>
    }
  }

  lemma MediaKeepsInv(s: State, cfg: Config, sock: nat, data: bytes, source: Endpoint, now: real)
    requires Inv(s, cfg)
    ensures Inv(HandleMedia(s, sock, data, source, now).0, cfg)
    ensures SameLegs(s, HandleMedia(s, sock, data, source, now).0)
  {
    hide RelayPacket, Inv;
    if exists place :: Holds(s, place, sock) {
      var place :| Holds(s, place, sock)
        && HandleMedia(s, sock, data, source, now) == RelayPacket(s, place, Received(data), source, now);
      RelayPacketSameLegs(s, place, Received(data), source, now);
      SameLegsKeepInv(s, RelayPacket(s, place, Received(data), source, now).0, cfg);
    }
  }

  lemma NextKeepsInv(s: State, cfg: Config, e: Event)
    requires Inv(s, cfg)
    ensures Inv(Next(s, cfg, e), cfg)
  {
    hide Inv;
    match e
    case Control(data, allowed, now, host) => ControlKeepsInv(s, cfg, data, allowed, now, host);
    case Media(sock, data, source, now) => MediaKeepsInv(s, cfg, sock, data, source, now);
    case Tick(now) => DeleteAllKeepsInv(s, cfg, Overdue(s, cfg, now));
    case Shutdown => DeleteAllKeepsInv(s, cfg, s.sessions.Keys);
  }

  ghost function Run(s: State, cfg: Config, es: seq<Event>): State {
    if es == [] then s else Next(Run(s, cfg, es[..|es| - 1]), cfg, es[|es| - 1])
  }

  lemma {:induction false} RunKeepsInv(s: State, cfg: Config, es: seq<Event>)
    requires Inv(s, cfg)
    ensures Inv(Run(s, cfg, es), cfg)
  {
    hide Inv, Next;
    if es == [] {
    } else {
      RunKeepsInv(s, cfg, es[..|es| - 1]);
      NextKeepsInv(Run(s, cfg, es[..|es| - 1]), cfg, es[|es| - 1]);
    }
  }

  // Conservation: in every reachable state the open media sockets are exactly the
  // legs of live sessions, on distinct ports of the range, and the ports in use
  // are one per session plus one per answered session, at most twice the limit.
  lemma PortsConserved(cfg: Config, es: seq<Event>)
    ensures var s := Run(INITIAL, cfg, es);
      && SocketsAreLegs(s) && NothingShared(s) && |s.sessions| <= cfg.maxSessions
      && |s.open.Values| == |s.open| == |s.sessions| + |Answered(s.sessions)|
      && (forall port :: port in s.open.Values ==> cfg.mediaMin <= port <= cfg.mediaMax)
  {
    assert Answered(INITIAL.sessions) == {};
    RunKeepsInv(INITIAL, cfg, es);
    InjectiveValues(Run(INITIAL, cfg, es).open);
  }

  lemma {:induction false} InjectiveValues(m: map<nat, int>)
    requires forall x, y :: x in m && y in m && m[x] == m[y] ==> x == y
    ensures |m.Values| == |m|
    decreases |m|
  {
    if m != map[] {
      var k :| k in m;
      var rest := m - {k};
      MapMinusSize(m, {k});
      InjectiveValues(rest);
      forall v | v in m.Values ensures v in rest.Values + {m[k]} {
        var x :| x in m && m[x] == v;
        if x != k { assert x in rest && rest[x] == v; }
      }
      forall v | v in rest.Values ensures v in m.Values && v != m[k] {
        var x :| x in rest && rest[x] == v;
        assert m[x] == v;
      }
      assert m[k] in m.Values;
      assert m.Values == rest.Values + {m[k]};
    } else {
      assert m.Values == {};
    }
  }

  // Shutting down leaves nothing open.
  lemma ShutdownClosesAll(cfg: Config, es: seq<Event>)
    ensures Run(INITIAL, cfg, es + [Shutdown]).open == map[]
    ensures Run(INITIAL, cfg, es + [Shutdown]).sessions == map[]
  {
    assert (es + [Shutdown])[..|es|] == es;
    PortsConserved(cfg, es + [Shutdown]);
  }
}
