// The media relay of media/rtp_module.py as a state machine on values: sessions
// by call, the sockets they hold, and what each control command or media packet
// does to them.
module RelayModel {
  import opened Bencode
  import opened Sdp
  import opened Text

  const MAX_MEDIA_PACKET := 8192
  const MAX_CALL_ID := 512
  const MAX_TAG := 256

  datatype Endpoint = Endpoint(host: string, port: int)

  // A socket is known by a number that is never used again.
  datatype Leg = Leg(sock: nat, port: int, advertised: Endpoint, observed: Option<Endpoint>)

  datatype Session = Session(fromTag: string, offer: Leg, toTag: string, answer: Option<Leg>, lastActivity: real)

  // `open` gives the port each open media socket is bound to.
  datatype State = State(sessions: map<string, Session>, open: map<nat, int>, nextSock: nat)

  const INITIAL := State(map[], map[], 0)

  datatype Config = Config(mediaIp: string, mediaMin: int, mediaMax: int, maxSessions: nat, timeout: real, ip: Resolver)

  predicate ValidConfig(cfg: Config) {
    && 1 <= cfg.mediaMin <= cfg.mediaMax <= 65535
    && 1 <= cfg.maxSessions <= 1_000_000
    && 1.0 <= cfg.timeout <= 86400.0
    && cfg.ip(cfg.mediaIp).Some? && cfg.ip(cfg.mediaIp).value.text == cfg.mediaIp
  }

  // --- Sockets ---

  // The lowest port of the range that binds: neither ours nor held by others.
  function FirstFree(from: int, last: int, taken: set<int>): (port: Option<int>)
    ensures port.Some? ==> from <= port.value <= last && port.value !in taken
    ensures port.None? ==> forall p :: from <= p <= last ==> p in taken
    decreases last - from + 1
  {
    if from > last then None
    else if from !in taken then Some(from)
    else FirstFree(from + 1, last, taken)
  }

  // The machine the relay runs on: the ports other programs hold, the error it gives
  // when it can make no socket, and the longest datagram it sends.
  datatype Host = Host(held: set<int>, refusal: Option<string>, largest: nat)

  function Allocate(s: State, cfg: Config, host: Host): (State, Result<int>) {
    if host.refusal.Some? then (s, Err(host.refusal.value))
    else
      var port := FirstFree(cfg.mediaMin, cfg.mediaMax, s.open.Values + host.held);
      if port.None? then (s.(nextSock := s.nextSock + 1), Err("media port range exhausted"))
      else (s.(open := s.open[s.nextSock := port.value], nextSock := s.nextSock + 1), Ok(port.value))
  }

  function SocksOf(x: Session): set<nat> {
    {x.offer.sock} + if x.answer.Some? then {x.answer.value.sock} else {}
  }

  function Delete(s: State, callId: string): State {
    if callId !in s.sessions then s
    else s.(sessions := s.sessions - {callId}, open := s.open - SocksOf(s.sessions[callId]))
  }

  // --- Replies ---

  function ErrorReply(reason: string): Value {
    Dict([Entry(Ascii("result"), Bytes(Ascii("error"))),
          Entry(Ascii("error-reason"), Bytes(Ascii(if |reason| <= 128 then reason else reason[..128])))])
  }

  function SdpReply(sdp: string): Value {
    Dict([Entry(Ascii("result"), Bytes(Ascii("ok"))), Entry(Ascii("sdp"), Bytes(Ascii(sdp)))])
  }

  const OK_REPLY := Dict([Entry(Ascii("result"), Bytes(Ascii("ok")))])

  // --- Offer and answer ---

  // Bind a socket and rewrite the body for it; on failure nothing stays open.
  datatype Prepared = Prepared(leg: Leg, rewritten: string)

  function PrepareLeg(s: State, cfg: Config, sdp: string, host: Host): (State, Result<Prepared>) {
    var description := ParseSdp(sdp, cfg.ip);
    if description.Err? then (s, Err(description.error))
    else
      var (bound, port) := Allocate(s, cfg, host);
      if port.Err? then (bound, Err(port.error))
      else
        var rewritten := RewriteSdp(sdp, cfg.mediaIp, port.value, cfg.ip);
        if rewritten.Err? then (bound.(open := bound.open - {s.nextSock}), Err(rewritten.error))
        else
          var advertised := Endpoint(description.value.address, description.value.port);
          (bound, Ok(Prepared(Leg(s.nextSock, port.value, advertised, None), rewritten.value)))
  }

  function Offer(s: State, cfg: Config, callId: string, fromTag: string, sdp: string, now: real, host: Host)
    : (State, Value)
  {
    var cleared := Delete(s, callId);
    if |cleared.sessions| >= cfg.maxSessions then (cleared, ErrorReply("capacity-exhausted"))
    else
      var (t, prepared) := PrepareLeg(cleared, cfg, sdp, host);
      if prepared.Err? then (t, ErrorReply(prepared.error))
      else
        (t.(sessions := t.sessions[callId := Session(fromTag, prepared.value.leg, "", None, now)]),
         SdpReply(prepared.value.rewritten))
  }

  function Answer(s: State, cfg: Config, callId: string, fromTag: string, toTag: string, sdp: string, now: real,
                  host: Host): (State, Value)
  {
    if callId !in s.sessions || s.sessions[callId].fromTag != fromTag || s.sessions[callId].answer.Some? then
      (s, ErrorReply("unknown-or-reused-dialog"))
    else
      var (t, prepared) := PrepareLeg(s, cfg, sdp, host);
      if prepared.Err? then (t, ErrorReply(prepared.error))
      else
        var x := s.sessions[callId].(toTag := toTag, answer := Some(prepared.value.leg), lastActivity := now);
        (t.(sessions := t.sessions[callId := x]), SdpReply(prepared.value.rewritten))
  }

  // --- Control commands ---

  function Field(items: seq<Entry<Value>>, key: string): Option<Value> {
    if items == [] then None
    else if items[0].key == Ascii(key) then Some(items[0].value)
    else Field(items[1..], key)
  }

  predicate IsSdpText(b: bytes) {
    forall i :: 0 <= i < |b| ==> 0x20 <= b[i] < 0x7F || b[i] in {0x09, 0x0A, 0x0D}
  }

  function TextField(value: Option<Value>, field: string, limit: nat): Result<string> {
    if value.Some? && value.value.Bytes? && 1 <= |value.value.b| <= limit && IsPrintableAscii(value.value.b) then
      Ok(Latin(value.value.b))
    else Err("invalid " + field)
  }

  function SdpField(value: Option<Value>): Result<string> {
    if value.Some? && value.value.Bytes? && 1 <= |value.value.b| <= MAX_SDP && IsSdpText(value.value.b) then
      Ok(Latin(value.value.b))
    else Err("invalid sdp")
  }

  // A control command once its fields are read.
  datatype Command =
    | Ping
    | DeleteCall(callId: string)
    | OfferCall(callId: string, fromTag: string, sdp: string)
    | AnswerCall(callId: string, fromTag: string, toTag: string, sdp: string)
    | Unsupported

  function ReadCommand(payload: bytes): Result<Command> {
    var command := BdecodeDict(payload);
    if command.Err? then Err(command.error)
    else
      var items := command.value.items;
      var name := TextField(Field(items, "command"), "command", 32);
      if name.Err? then Err(name.error)
      else if Lower(name.value) == "ping" then Ok(Ping)
      else
        var callId := TextField(Field(items, "call-id"), "call-id", MAX_CALL_ID);
        if callId.Err? then Err(callId.error)
        else if Lower(name.value) == "delete" then Ok(DeleteCall(callId.value))
        else
          var fromTag := TextField(Field(items, "from-tag"), "from-tag", MAX_TAG);
          if fromTag.Err? then Err(fromTag.error)
          else
            var sdp := SdpField(Field(items, "sdp"));
            if sdp.Err? then Err(sdp.error)
            else if Lower(name.value) == "offer" then Ok(OfferCall(callId.value, fromTag.value, sdp.value))
            else if Lower(name.value) == "answer" then
              var toTag := TextField(Field(items, "to-tag"), "to-tag", MAX_TAG);
              if toTag.Err? then Err(toTag.error)
              else Ok(AnswerCall(callId.value, fromTag.value, toTag.value, sdp.value))
            else Ok(Unsupported)
  }

  function Perform(s: State, cfg: Config, command: Command, now: real, host: Host): (State, Value) {
    match command
    case Ping => (s, OK_REPLY)
    case DeleteCall(callId) => (Delete(s, callId), OK_REPLY)
    case OfferCall(callId, fromTag, sdp) => Offer(s, cfg, callId, fromTag, sdp, now, host)
    case AnswerCall(callId, fromTag, toTag, sdp) => Answer(s, cfg, callId, fromTag, toTag, sdp, now, host)
    case Unsupported => (s, ErrorReply("unsupported-command"))
  }

  // A reply too long to send turns into an error reply; what was done stays done.
  function Send(reply: Value): bytes {
    var encoded := BencodeDict(reply);
    if encoded.Ok? then encoded.value else Encode(ErrorReply(encoded.error))
  }

  function HandlePayload(s: State, cfg: Config, payload: bytes, now: real, host: Host): (State, bytes) {
    var command := ReadCommand(payload);
    if command.Err? then (s, Send(ErrorReply(command.error)))
    else
      var (t, reply) := Perform(s, cfg, command.value, now, host);
      (t, Send(reply))
  }

  const MAX_COOKIE := 64

  // The cookie and the command of a control packet.
  function ControlParts(packet: bytes): Option<(bytes, bytes)> {
    var blank := FindByte(packet, 32, 0);
    if blank == 0 || blank + 1 >= |packet| || blank > MAX_COOKIE then None
    else Some((packet[..blank], packet[blank + 1..]))
  }

  function ReceivedControl(data: bytes): bytes {
    if |data| <= MAX_CONTROL_PACKET then data else data[..MAX_CONTROL_PACKET]
  }

  // A datagram on the control socket: cut to what is received at once, dropped when
  // its source is not allowed or it holds no cookie and command.  The response goes
  // back under the cookie unless it is too long to send.
  function HandleControl(s: State, cfg: Config, data: bytes, allowed: bool, now: real, host: Host)
    : (State, Option<bytes>)
  {
    var parts := ControlParts(ReceivedControl(data));
    if !allowed || parts.None? then (s, None)
    else
      var (t, response) := HandlePayload(s, cfg, parts.value.1, now, host);
      var reply := parts.value.0 + [32] + response;
      (t, if |reply| <= host.largest then Some(reply) else None)
  }

  // --- Media ---

  predicate ValidRtp(packet: bytes) {
    12 <= |packet| <= MAX_MEDIA_PACKET && packet[0] / 64 == 2
  }

  datatype Sent = Sent(sock: nat, packet: bytes, destination: Endpoint)

  // One of the two legs of a call.
  datatype Place = Place(callId: string, isOffer: bool)

  ghost predicate Holds(s: State, place: Place, sock: nat) {
    && place.callId in s.sessions
    && var x := s.sessions[place.callId];
       if place.isOffer then x.offer.sock == sock else x.answer.Some? && x.answer.value.sock == sock
  }

  function PeerOf(x: Session, isOffer: bool): Option<Leg> {
    if isOffer then x.answer else Some(x.offer)
  }

  function Latch(x: Session, isOffer: bool, source: Endpoint, now: real): Session
    requires isOffer || x.answer.Some?
  {
    if isOffer then x.(offer := x.offer.(observed := Some(source)), lastActivity := now)
    else x.(answer := Some(x.answer.value.(observed := Some(source))), lastActivity := now)
  }

  function Destination(leg: Leg): Endpoint {
    if leg.observed.Some? then leg.observed.value else leg.advertised
  }

  // A packet arriving on one leg of a call.
  function RelayPacket(s: State, place: Place, packet: bytes, source: Endpoint, now: real): (State, Option<Sent>)
    requires place.callId in s.sessions && (place.isOffer || s.sessions[place.callId].answer.Some?)
  {
    var x := s.sessions[place.callId];
    var leg := if place.isOffer then x.offer else x.answer.value;
    if !ValidRtp(packet) || (leg.observed.Some? && leg.observed.value != source) then (s, None)
    else
      var peer := PeerOf(x, place.isOffer);
      (s.(sessions := s.sessions[place.callId := Latch(x, place.isOffer, source, now)]),
       if peer.None? then None else Some(Sent(peer.value.sock, packet, Destination(peer.value))))
  }

  function Received(data: bytes): bytes {
    if |data| <= MAX_MEDIA_PACKET then data else data[..MAX_MEDIA_PACKET]
  }

  ghost function HandleMedia(s: State, sock: nat, data: bytes, source: Endpoint, now: real): (State, Option<Sent>) {
    if exists place :: Holds(s, place, sock) then
      var place :| Holds(s, place, sock);
      RelayPacket(s, place, Received(data), source, now)
    else (s, None)
  }

  // --- Expiry and shutdown ---

  function Overdue(s: State, cfg: Config, now: real): set<string> {
    set k | k in s.sessions && s.sessions[k].lastActivity <= now - cfg.timeout
  }

  ghost function SocksOfCalls(s: State, calls: set<string>): set<nat> {
    set k, x | k in calls && k in s.sessions && x in SocksOf(s.sessions[k]) :: x
  }

  ghost function DeleteAll(s: State, calls: set<string>): State {
    s.(sessions := s.sessions - calls, open := s.open - SocksOfCalls(s, calls))
  }

  ghost function Expire(s: State, cfg: Config, now: real): State { DeleteAll(s, Overdue(s, cfg, now)) }

  ghost function Close(s: State): State { DeleteAll(s, s.sessions.Keys) }
}
