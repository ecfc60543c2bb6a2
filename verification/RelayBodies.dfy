// Where media goes before a leg has been heard from: to the address in the body of
// the offer or answer that opened the leg, over every run of the relay.
module RelayBodies {
  import opened PythonInt
  import opened RelayHistory
  import opened RelayLaws
  import opened RelayModel
  import opened Sdp
  import opened SdpLaws
  import opened Text

  // --- The endpoint a body announces ---

  // The address on the only routable connection line and the port on the only audio
  // line.
  ghost predicate AnnouncedAt(lines: seq<string>, c: nat, m: nat, ip: Resolver, e: Endpoint) {
    && c < |lines| && m < |lines|
    && OnlyConnection(lines, |lines|, Some(c), ip) && OnlyAudio(lines, |lines|, Some(m))
    && |lines[c]| >= 9 && ip(lines[c][9..]).Some? && e.host == ip(lines[c][9..]).value.text
    && |Words(lines[m])| >= 4 && PyInt(Words(lines[m])[1]) == Some(e.port) && 1 <= e.port <= 65535
  }

  ghost predicate Announces(ip: Resolver, body: string, e: Endpoint) {
    exists c: nat, m: nat :: AnnouncedAt(SplitLines(body), c, m, ip, e)
  }

  lemma AnnouncesOne(ip: Resolver, body: string, e: Endpoint, f: Endpoint)
    requires Announces(ip, body, e) && Announces(ip, body, f)
    ensures e == f
  {
    hide SplitLines, Words, PyInt, IsConnection, IsAudio, AudioPort;
    var lines := SplitLines(body);
    var c, m :| AnnouncedAt(lines, c, m, ip, e);
    var d, n :| AnnouncedAt(lines, d, n, ip, f);
    assert Some(c) == Some(d) && Some(m) == Some(n);
  }

  lemma ParsedIsAnnounced(body: string, ip: Resolver)
    requires ParseSdp(body, ip).Ok?
    ensures Announces(ip, body, Endpoint(ParseSdp(body, ip).value.address, ParseSdp(body, ip).value.port))
  {
    var lines := SplitLines(body);
    var c, m := ScanFinds(lines, |lines|, ip);
    PortOnLine(lines[m.value]);
    AddressOnLine(lines[c.value], ip);
    hide SplitLines, Words, PyInt, IsConnection, IsAudio, AudioPort, Scan, AddressOf;
    assert AnnouncedAt(lines, c.value, m.value, ip,
                       Endpoint(ParseSdp(body, ip).value.address, ParseSdp(body, ip).value.port));
  }

  lemma PortOnLine(line: string)
    requires AudioPort(line).Ok?
    ensures |Words(line)| >= 4 && PyInt(Words(line)[1]) == Some(AudioPort(line).value) && 1 <= AudioPort(line).value <= 65535
  {
    hide Words, PyInt;
  }

  lemma AddressOnLine(line: string, ip: Resolver)
    requires IsConnection(line)
    ensures |line| >= 9 && AddressOf(line, ip) == ip(line[9..])
  {
  }

  // A body is accepted if and only if it is of 1 to 65535 characters without NUL,
  // starts with a version line, and announces an endpoint; it is read as that one.
  lemma BodyAcceptedIff(body: string, ip: Resolver)
    ensures ParseSdp(body, ip).Ok?
      <==> && 1 <= |body| <= 65535 && '\0' !in body && |body| >= 5 && body[..5] == "v=0\r\n"
           && exists e :: Announces(ip, body, e)
    ensures ParseSdp(body, ip).Ok? ==>
      Announces(ip, body, Endpoint(ParseSdp(body, ip).value.address, ParseSdp(body, ip).value.port))
  {
    hide SplitLines, Words, PyInt, IsConnection, IsAudio, AudioPort, Scan, Announces, AnnouncedAt;
    if ParseSdp(body, ip).Ok? {
      ParsedIsAnnounced(body, ip);
    }
    if e :| Announces(ip, body, e) {
      AnnouncedScans(SplitLines(body), ip, e, body);
    }
  }

  lemma AnnouncedScans(lines: seq<string>, ip: Resolver, e: Endpoint, body: string)
    requires lines == SplitLines(body) && Announces(ip, body, e)
    ensures Scan(lines, |lines|, ip).Ok?
    ensures Scan(lines, |lines|, ip).value.media.Some? && Scan(lines, |lines|, ip).value.connection.Some?
  {
    hide SplitLines, Words, PyInt, IsConnection, IsAudio, AudioPort, Scan;
    var c: nat, m: nat :| AnnouncedAt(lines, c, m, ip, e);
    ScanAccepts(lines, |lines|, Some(c), Some(m), ip);
  }

  // An audio line is usable if and only if it has four words and the second is a
  // number from 1 to 65535.
  lemma AudioPortIff(line: string)
    ensures AudioPort(line).Ok?
      <==> |Words(line)| >= 4 && PyInt(Words(line)[1]).Some? && 1 <= PyInt(Words(line)[1]).value <= 65535
  {
    hide Words, PyInt;
  }

  lemma PreparedIsAnnounced(s: State, cfg: Config, sdp: string, host: Host)
    requires PrepareLeg(s, cfg, sdp, host).1.Ok?
    ensures Announces(cfg.ip, sdp, PrepareLeg(s, cfg, sdp, host).1.value.leg.advertised)
  {
    hide ParseSdp, RewriteSdp, Allocate, Announces;
    ParsedIsAnnounced(sdp, cfg.ip);
  }

  // --- The command that opens a leg ---

  // The command a datagram carries, if it is taken at all.
  function CommandIn(e: Event): Option<Command> {
    if !e.Control? || !e.allowed then None
    else
      var parts := ControlParts(ReceivedControl(e.data));
      if parts.None? then None
      else
        var command := ReadCommand(parts.value.1);
        if command.Err? then None else Some(command.value)
  }

  // The event opens the leg's socket for that place, and its body announces the
  // leg's address.
  ghost predicate Opens(cfg: Config, s: State, e: Event, t: State, place: Place, leg: Leg) {
    && leg.sock !in s.open && leg.sock in t.open && leg.observed.None?
    && CommandIn(e).Some?
    && match CommandIn(e).value
       case OfferCall(callId, _, sdp) => place == Place(callId, true) && Announces(cfg.ip, sdp, leg.advertised)
       case AnswerCall(callId, _, _, sdp) => place == Place(callId, false) && Announces(cfg.ip, sdp, leg.advertised)
       case _ => false
  }

  // A leg in the new state was there, or was opened by this event.
  ghost predicate Accounted(cfg: Config, s: State, e: Event, t: State, place: Place)
    requires Placed(t, place)
  {
    || (Placed(s, place) && KeepsLeg(LegOf(s, place), LegOf(t, place)))
    || Opens(cfg, s, e, t, place, LegOf(t, place))
  }

  lemma DeletedLegs(s: State, callId: string, place: Place)
    requires Placed(Delete(s, callId), place)
    ensures Placed(s, place) && LegOf(Delete(s, callId), place) == LegOf(s, place)
  {
  }

  lemma OfferedLegs(s: State, cfg: Config, callId: string, fromTag: string, sdp: string, now: real, host: Host, place: Place)
    requires Inv(s, cfg) && Placed(Offer(s, cfg, callId, fromTag, sdp, now, host).0, place)
    ensures var t := Offer(s, cfg, callId, fromTag, sdp, now, host).0;
      || (Placed(s, place) && LegOf(t, place) == LegOf(s, place))
      || (place == Place(callId, true) && Announces(cfg.ip, sdp, LegOf(t, place).advertised)
          && LegOf(t, place).sock in t.open && LegOf(t, place).sock !in s.open && LegOf(t, place).observed.None?)
  {
    hide PrepareLeg, SdpReply, ErrorReply, Inv, Announces;
    var cleared, t := Delete(s, callId), Offer(s, cfg, callId, fromTag, sdp, now, host).0;
    DeleteKeepsInv(s, cfg, callId);
    PrepareLegEffect(cleared, cfg, sdp, host);
    var (u, r) := PrepareLeg(cleared, cfg, sdp, host);
    if place == Place(callId, true) && |cleared.sessions| < cfg.maxSessions && r.Ok? {
      PreparedIsAnnounced(cleared, cfg, sdp, host);
      SocketsBelow(s, cfg, cleared.nextSock);
    } else {
      assert Placed(cleared, place) && LegOf(t, place) == LegOf(cleared, place);
      DeletedLegs(s, callId, place);
    }
  }

  lemma SocketsBelow(s: State, cfg: Config, sock: nat)
    requires Inv(s, cfg) && sock >= s.nextSock
    ensures sock !in s.open
  {
  }

  lemma AnsweredLegs(s: State, cfg: Config, callId: string, fromTag: string, toTag: string, sdp: string, now: real,
                     host: Host, place: Place)
    requires Inv(s, cfg) && Placed(Answer(s, cfg, callId, fromTag, toTag, sdp, now, host).0, place)
    ensures var t := Answer(s, cfg, callId, fromTag, toTag, sdp, now, host).0;
      || (Placed(s, place) && LegOf(t, place) == LegOf(s, place))
      || (place == Place(callId, false) && Announces(cfg.ip, sdp, LegOf(t, place).advertised)
          && LegOf(t, place).sock in t.open && LegOf(t, place).sock !in s.open && LegOf(t, place).observed.None?)
  {
    hide PrepareLeg, SdpReply, ErrorReply, Inv, Announces;
    PrepareLegEffect(s, cfg, sdp, host);
    var (u, r) := PrepareLeg(s, cfg, sdp, host);
    if r.Ok? { PreparedIsAnnounced(s, cfg, sdp, host); }
    SocketsBelow(s, cfg, s.nextSock);
  }

  lemma PayloadLegs(s: State, cfg: Config, payload: bytes, now: real, host: Host, place: Place, e: Event)
    requires Inv(s, cfg) && Placed(HandlePayload(s, cfg, payload, now, host).0, place)
    requires CommandIn(e) == if ReadCommand(payload).Ok? then Some(ReadCommand(payload).value) else None
    ensures Accounted(cfg, s, e, HandlePayload(s, cfg, payload, now, host).0, place)
  {
    hide Inv, ReadCommand, Offer, Answer, Delete, Send, Announces, CommandIn;
    var command := ReadCommand(payload);
    if command.Ok? {
      match command.value
      case Ping =>
      case DeleteCall(callId) => DeletedLegs(s, callId, place);
      case OfferCall(callId, fromTag, sdp) => OfferedLegs(s, cfg, callId, fromTag, sdp, now, host, place);
      case AnswerCall(callId, fromTag, toTag, sdp) => AnsweredLegs(s, cfg, callId, fromTag, toTag, sdp, now, host, place);
      case Unsupported =>
    }
  }

  lemma ControlLegs(s: State, cfg: Config, e: Event, place: Place)
    requires Inv(s, cfg) && e.Control? && Placed(Next(s, cfg, e), place)
    ensures Accounted(cfg, s, e, Next(s, cfg, e), place)
  {
    hide Inv, ReadCommand, HandlePayload, ControlParts, ReceivedControl, Opens;
    var parts := ControlParts(ReceivedControl(e.data));
    if e.allowed && parts.Some? {
      PayloadLegs(s, cfg, parts.value.1, e.now, e.host, place, e);
    }
  }

  lemma MediaLegs(s: State, cfg: Config, sock: nat, data: bytes, source: Endpoint, now: real, place: Place)
    requires Inv(s, cfg) && Placed(HandleMedia(s, sock, data, source, now).0, place)
    ensures Placed(s, place) && KeepsLeg(LegOf(s, place), LegOf(HandleMedia(s, sock, data, source, now).0, place))
  {
    hide Inv, Received, ValidRtp;
  }

  lemma ClearedLegs(s: State, calls: set<string>, place: Place)
    requires Placed(DeleteAll(s, calls), place)
    ensures Placed(s, place) && LegOf(DeleteAll(s, calls), place) == LegOf(s, place)
  {
  }

  lemma StepLegs(s: State, cfg: Config, e: Event, place: Place)
    requires Inv(s, cfg) && Placed(Next(s, cfg, e), place)
    ensures Accounted(cfg, s, e, Next(s, cfg, e), place)
  {
    hide Inv, HandleControl, HandleMedia, Opens;
    match e
    case Control(_, _, _, _) => ControlLegs(s, cfg, e, place);
    case Media(sock, data, source, now) => MediaLegs(s, cfg, sock, data, source, now, place);
    case Tick(now) => ClearedLegs(s, Overdue(s, cfg, now), place);
    case Shutdown => ClearedLegs(s, s.sessions.Keys, place);
  }

  // --- Over runs ---

  // Every leg of every reachable state was opened by an offer or answer for its call
  // and side, whose body announces its address.
  lemma {:induction false} LegOpened(cfg: Config, es: seq<Event>, n: nat, place: Place) returns (i: nat, first: Leg)
    requires n <= |es| && Placed(After(cfg, es, n), place)
    ensures i < n && Opens(cfg, After(cfg, es, i), es[i], After(cfg, es, i + 1), place, first)
    ensures KeepsLeg(first, LegOf(After(cfg, es, n), place))
  {
    hide Inv, Next, Opens;
    if n == 0 {
      assert false;
    } else {
      var s, t := After(cfg, es, n - 1), After(cfg, es, n);
      assert es[..n][..n - 1] == es[..n - 1];
      Reachable(cfg, es, n - 1);
      StepLegs(s, cfg, es[n - 1], place);
      if Opens(cfg, s, es[n - 1], t, place, LegOf(t, place)) {
        i, first := n - 1, LegOf(t, place);
      } else {
        i, first := LegOpened(cfg, es, n - 1, place);
      }
    }
  }

  // The body by which a leg was opened.
  function BodyIn(e: Event): string {
    if CommandIn(e).Some? && CommandIn(e).value.OfferCall? then CommandIn(e).value.sdp
    else if CommandIn(e).Some? && CommandIn(e).value.AnswerCall? then CommandIn(e).value.sdp
    else ""
  }

  // A packet forwarded to a leg not yet heard from goes to the address in the body
  // of the offer, or of the answer, that opened that leg of the same call.
  lemma ForwardedWhereAnnounced(cfg: Config, es: seq<Event>, n: nat, place: Place, sock: nat, data: bytes,
                                source: Endpoint, now: real) returns (i: nat)
    requires n <= |es| && Holds(After(cfg, es, n), place, sock)
    requires HandleMedia(After(cfg, es, n), sock, data, source, now).1.Some?
    ensures var s, peer := After(cfg, es, n), Place(place.callId, !place.isOffer);
      var sent := HandleMedia(s, sock, data, source, now).1.value;
      && Placed(s, peer) && sent.sock == LegOf(s, peer).sock
      && (LegOf(s, peer).observed.Some? ==> sent.destination == LegOf(s, peer).observed.value)
      && i < n && CommandIn(es[i]).Some?
      && (match CommandIn(es[i]).value
          case OfferCall(callId, _, _) => callId == place.callId && !place.isOffer
          case AnswerCall(callId, _, _, _) => callId == place.callId && place.isOffer
          case _ => false)
      && sent.sock !in After(cfg, es, i).open && sent.sock in After(cfg, es, i + 1).open
      && (LegOf(s, peer).observed.None? ==> Announces(cfg.ip, BodyIn(es[i]), sent.destination))
  {
    hide Inv, Next, Run, Announces, CommandIn, Received, ValidRtp;
    Reachable(cfg, es, n);
    MediaIsolation(After(cfg, es, n), cfg, place, sock, data, source, now);
    var first: Leg;
    i, first := LegOpened(cfg, es, n, Place(place.callId, !place.isOffer));
  }
}
