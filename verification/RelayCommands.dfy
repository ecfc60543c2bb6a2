// How control commands are read from their octets, and what each of them does.
module RelayCommands {
  import opened Bencode
  import opened BencodeLaws
  import opened RelayHistory
  import opened RelayLaws
  import opened RelayModel
  import opened RelayReplies
  import opened Sdp
  import opened SdpLaws
  import opened Text

  // --- Reading ---

  predicate IsPrintable(s: string) { forall i :: 0 <= i < |s| ==> ' ' <= s[i] <= '~' }

  predicate IsBodyText(s: string) { forall i :: 0 <= i < |s| ==> ' ' <= s[i] <= '~' || s[i] == '\r' || s[i] == '\n' }

  lemma TextRead(text: string, field: string, limit: nat)
    requires IsPrintable(text) && 1 <= |text| <= limit
    ensures TextField(Some(Bytes(Ascii(text))), field, limit) == Ok(text)
  {
    LatinOfAscii(text);
  }

  lemma BodyRead(text: string)
    requires IsBodyText(text) && 1 <= |text| <= MAX_SDP
    ensures SdpField(Some(Bytes(Ascii(text)))) == Ok(text)
  {
    LatinOfAscii(text);
  }

  lemma DecodedItems(v: Value) returns (items: seq<Entry<Value>>)
    requires BdecodeDict(Encode(v)).Ok?
    ensures BdecodeDict(Encode(v)) == Ok(Dict(items))
  {
    hide Encode, Decode;
    items := BdecodeDict(Encode(v)).value.items;
  }

  lemma {:induction false} FieldIndex(items: seq<Entry<Value>>, key: string) returns (i: nat)
    requires Field(items, key).Some?
    ensures i < |items| && items[i].key == Ascii(key) && items[i].value == Field(items, key).value
  {
    if items[0].key == Ascii(key) {
      i := 0;
    } else {
      i := FieldIndex(items[1..], key);
      i := i + 1;
    }
  }

  // A dictionary sent is read with every text under its key, however its keys came.
  lemma FieldsRead(items: seq<Entry<Value>>) returns (decoded: seq<Entry<Value>>)
    requires Within(Dict(items), 0) && |Encode(Dict(items))| <= MAX_CONTROL_PACKET
    ensures BdecodeDict(Encode(Dict(items))) == Ok(Dict(decoded))
    ensures forall key :: Field(items, key).Some? && Field(items, key).value.Bytes? ==> Field(decoded, key) == Field(items, key)
  {
    hide Encode, BdecodeDict, Equal, Within, Ascii;
    SentReplyDecodes(Dict(items));
    decoded := DecodedItems(Dict(items));
    forall key | Field(items, key).Some? && Field(items, key).value.Bytes? ensures Field(decoded, key) == Field(items, key) {
      var i := FieldIndex(items, key);
      FieldOfEqual(Dict(items), Dict(decoded), key, i);
    }
  }

  // A field of the dictionary holds this text.
  predicate Says(items: seq<Entry<Value>>, key: string, text: string) { Field(items, key) == Some(Bytes(Ascii(text))) }

  // A dictionary that can be sent.
  ghost predicate Sendable(items: seq<Entry<Value>>) {
    Within(Dict(items), 0) && |Encode(Dict(items))| <= MAX_CONTROL_PACKET
  }

  // Any offer whose fields are within their limits and whose octets fit is read back
  // from them, whatever else the dictionary holds and however its name is cased.
  lemma OfferRead(items: seq<Entry<Value>>, name: string, callId: string, fromTag: string, sdp: string)
    requires Sendable(items) && IsPrintable(name) && |name| <= 32 && Lower(name) == "offer"
    requires 1 <= |callId| <= MAX_CALL_ID && 1 <= |fromTag| <= MAX_TAG && 1 <= |sdp| <= MAX_SDP
    requires IsPrintable(callId) && IsPrintable(fromTag) && IsBodyText(sdp)
    requires Says(items, "command", name) && Says(items, "call-id", callId)
    requires Says(items, "from-tag", fromTag) && Says(items, "sdp", sdp)
    ensures ReadCommand(Encode(Dict(items))) == Ok(OfferCall(callId, fromTag, sdp))
  {
    hide BdecodeDict, Field, TextField, SdpField, Encode, Within;
    var decoded := FieldsRead(items);
    TextRead(name, "command", 32);
    TextRead(callId, "call-id", MAX_CALL_ID);
    TextRead(fromTag, "from-tag", MAX_TAG);
    BodyRead(sdp);
  }

  lemma AnswerRead(items: seq<Entry<Value>>, name: string, callId: string, fromTag: string, toTag: string, sdp: string)
    requires Sendable(items) && IsPrintable(name) && |name| <= 32 && Lower(name) == "answer"
    requires 1 <= |callId| <= MAX_CALL_ID && 1 <= |fromTag| <= MAX_TAG && 1 <= |toTag| <= MAX_TAG && 1 <= |sdp| <= MAX_SDP
    requires IsPrintable(callId) && IsPrintable(fromTag) && IsPrintable(toTag) && IsBodyText(sdp)
    requires Says(items, "command", name) && Says(items, "call-id", callId) && Says(items, "from-tag", fromTag)
    requires Says(items, "to-tag", toTag) && Says(items, "sdp", sdp)
    ensures ReadCommand(Encode(Dict(items))) == Ok(AnswerCall(callId, fromTag, toTag, sdp))
  {
    hide BdecodeDict, Field, TextField, SdpField, Encode, Within;
    var decoded := FieldsRead(items);
    TextRead(name, "command", 32);
    TextRead(callId, "call-id", MAX_CALL_ID);
    TextRead(fromTag, "from-tag", MAX_TAG);
    TextRead(toTag, "to-tag", MAX_TAG);
    BodyRead(sdp);
  }

  lemma DeleteRead(items: seq<Entry<Value>>, name: string, callId: string)
    requires Sendable(items) && IsPrintable(name) && |name| <= 32 && Lower(name) == "delete"
    requires 1 <= |callId| <= MAX_CALL_ID && IsPrintable(callId)
    requires Says(items, "command", name) && Says(items, "call-id", callId)
    ensures ReadCommand(Encode(Dict(items))) == Ok(DeleteCall(callId))
  {
    hide BdecodeDict, Field, TextField, SdpField, Encode, Within;
    var decoded := FieldsRead(items);
    TextRead(name, "command", 32);
    TextRead(callId, "call-id", MAX_CALL_ID);
  }

  lemma PingRead(items: seq<Entry<Value>>, name: string)
    requires Sendable(items) && IsPrintable(name) && |name| <= 32 && Lower(name) == "ping" && Says(items, "command", name)
    ensures ReadCommand(Encode(Dict(items))) == Ok(Ping)
  {
    hide BdecodeDict, Field, TextField, SdpField, Encode, Within;
    var decoded := FieldsRead(items);
    TextRead(name, "command", 32);
  }

  // --- Offers ---

  // A body that can be read can be rewritten.
  lemma ReadCanBeRewritten(sdp: string, advertised: string, port: int, ip: Resolver)
    requires ParseSdp(sdp, ip).Ok? && ip(advertised).Some? && 1 <= port <= 65535
    ensures RewriteSdp(sdp, advertised, port, ip).Ok?
  {
    var lines := SplitLines(sdp);
    var c, m := ScanFinds(lines, |lines|, ip);
    AudioHasFour(lines[m.value]);
    hide IsConnection, IsAudio, AudioPort, Words, SplitLines, Scan, AddressOf;
    var at := FirstAudio(lines);
    assert at < |lines| && Some(at) == m;
  }

  lemma AudioHasFour(line: string)
    requires AudioPort(line).Ok?
    ensures |Words(line)| >= 4
  {
  }

  // The machine gives a socket, and some port of the range is held by nobody.
  ghost predicate PortFree(s: State, cfg: Config, host: Host, port: int) {
    cfg.mediaMin <= port <= cfg.mediaMax && port !in host.held && forall x :: x in s.open ==> s.open[x] != port
  }

  // A leg is prepared if and only if the body can be read and a socket and a port
  // are to be had; the port is then the lowest.
  lemma PreparedIff(s: State, cfg: Config, sdp: string, host: Host)
    requires ValidConfig(cfg)
    ensures var r := PrepareLeg(s, cfg, sdp, host).1;
      && (r.Ok? <==> ParseSdp(sdp, cfg.ip).Ok? && host.refusal.None? && exists p :: PortFree(s, cfg, host, p))
      && (r.Ok? ==>
            && PortFree(s, cfg, host, r.value.leg.port)
            && forall p :: PortFree(s, cfg, host, p) ==> r.value.leg.port <= p)
  {
    var port := FirstFree(cfg.mediaMin, cfg.mediaMax, s.open.Values + host.held);
    FirstFreeLowest(cfg.mediaMin, cfg.mediaMax, s.open.Values + host.held);
    forall p ensures PortFree(s, cfg, host, p)
      <==> cfg.mediaMin <= p <= cfg.mediaMax && p !in s.open.Values + host.held
    {
      assert p in s.open.Values <==> exists x :: x in s.open && s.open[x] == p;
    }
    hide PortFree;
    if port.Some? && ParseSdp(sdp, cfg.ip).Ok? { ReadCanBeRewritten(sdp, cfg.mediaIp, port.value, cfg.ip); }
    hide ParseSdp, RewriteSdp, FirstFree;
    if port.Some? { assert PortFree(s, cfg, host, port.value); }
    assert (exists p :: PortFree(s, cfg, host, p)) <==> port.Some?;
  }

  lemma {:induction false} FirstFreeLowest(first: int, last: int, taken: set<int>)
    ensures var port := FirstFree(first, last, taken);
      port.Some? ==> forall p :: first <= p < port.value ==> p in taken
    decreases last - first + 1
  {
    if first > last || first !in taken {
    } else {
      FirstFreeLowest(first + 1, last, taken);
    }
  }

  // What stays of the others when one call goes.
  ghost predicate OthersStay(s: State, t: State, callId: string) {
    && (forall k :: k != callId ==> (k in t.sessions <==> k in s.sessions))
    && (forall k :: k != callId && k in s.sessions && k in t.sessions ==> t.sessions[k] == s.sessions[k])
  }

  // A delete removes exactly its call and closes exactly that call's sockets.
  lemma DeleteExact(s: State, cfg: Config, callId: string, now: real, host: Host)
    ensures var (t, reply) := Perform(s, cfg, DeleteCall(callId), now, host);
      && reply == OK_REPLY && callId !in t.sessions && OthersStay(s, t, callId)
      && (forall x :: x in t.open <==>
            x in s.open && !(callId in s.sessions
              && (x == s.sessions[callId].offer.sock
                  || (s.sessions[callId].answer.Some? && x == s.sessions[callId].answer.value.sock))))
      && (forall x :: x in t.open ==> t.open[x] == s.open[x])
  {
    hide OK_REPLY;
  }

  // An offer ends any call of its name and opens a new one if and only if there is
  // room, its body can be read and a port is to be had.
  lemma OfferOpensIff(s: State, cfg: Config, callId: string, fromTag: string, sdp: string, now: real, host: Host)
    requires Inv(s, cfg) && ValidConfig(cfg)
    ensures var t := Perform(s, cfg, OfferCall(callId, fromTag, sdp), now, host).0;
      && OthersStay(s, t, callId)
      && (callId in t.sessions <==>
            && |s.sessions.Keys - {callId}| < cfg.maxSessions
            && ParseSdp(sdp, cfg.ip).Ok? && host.refusal.None? && exists p :: PortFree(Delete(s, callId), cfg, host, p))
  {
    hide PrepareLeg, ParseSdp, SdpReply, ErrorReply, Inv, PortFree, Offer, Delete, FreshLeg, OthersStay;
    var without, t := Delete(s, callId), Perform(s, cfg, OfferCall(callId, fromTag, sdp), now, host).0;
    WithoutSize(s, callId);
    DeleteKeepsInv(s, cfg, callId);
    PreparedIff(without, cfg, sdp, host);
    PreparedSessionsStay(without, cfg, sdp, host);
    DeletedStay(s, callId);
    OfferCases(s, cfg, callId, fromTag, sdp, now, host);
    StayWith(s, without, t, callId);
  }

  lemma PreparedSessionsStay(s: State, cfg: Config, sdp: string, host: Host)
    ensures PrepareLeg(s, cfg, sdp, host).0.sessions == s.sessions
  {
    hide ParseSdp, RewriteSdp, FirstFree;
  }

  lemma StayWith(s: State, without: State, t: State, callId: string)
    requires OthersStay(s, without, callId)
    requires t.sessions == without.sessions
      || (callId in t.sessions && t.sessions == without.sessions[callId := t.sessions[callId]])
    ensures OthersStay(s, t, callId)
  {
  }

  // The new call is as offered, used just now and not answered, on the lowest port,
  // and its body goes back rewritten for that port.
  ghost predicate OfferedAs(s: State, t: State, cfg: Config, callId: string, fromTag: string, sdp: string, now: real,
                            host: Host, reply: Value)
    requires callId in t.sessions
  {
    var x, without := t.sessions[callId], Delete(s, callId);
    && x.fromTag == fromTag && x.toTag == "" && x.answer.None? && x.lastActivity == now
    && x.offer.observed.None? && x.offer.sock !in s.open && t.open == without.open[x.offer.sock := x.offer.port]
    && PortFree(without, cfg, host, x.offer.port)
    && (forall p :: PortFree(without, cfg, host, p) ==> x.offer.port <= p)
    && RewriteSdp(sdp, cfg.mediaIp, x.offer.port, cfg.ip).Ok?
    && reply == SdpReply(RewriteSdp(sdp, cfg.mediaIp, x.offer.port, cfg.ip).value)
  }

  lemma OfferExact(s: State, cfg: Config, callId: string, fromTag: string, sdp: string, now: real, host: Host)
    requires Inv(s, cfg) && ValidConfig(cfg)
    ensures var (t, reply) := Perform(s, cfg, OfferCall(callId, fromTag, sdp), now, host);
      if callId in t.sessions then OfferedAs(s, t, cfg, callId, fromTag, sdp, now, host, reply)
      else t.open == Delete(s, callId).open && exists reason :: reply == ErrorReply(reason)
  {
    hide PrepareLeg, ParseSdp, RewriteSdp, SdpReply, ErrorReply, Inv, PortFree, Offer, Delete, FreshLeg;
    var without := Delete(s, callId);
    DeleteKeepsInv(s, cfg, callId);
    PreparedIff(without, cfg, sdp, host);
    PrepareLegEffect(without, cfg, sdp, host);
    if PrepareLeg(without, cfg, sdp, host).1.Ok? { PreparedBody(without, cfg, sdp, host); }
    OpenBelow(s, cfg);
    DeletedStay(s, callId);
    OfferCases(s, cfg, callId, fromTag, sdp, now, host);
  }

  lemma DeletedStay(s: State, callId: string)
    ensures OthersStay(s, Delete(s, callId), callId) && callId !in Delete(s, callId).sessions
    ensures Delete(s, callId).nextSock == s.nextSock
  {
  }

  lemma OfferCases(s: State, cfg: Config, callId: string, fromTag: string, sdp: string, now: real, host: Host)
    ensures var (t, reply) := Offer(s, cfg, callId, fromTag, sdp, now, host);
      var without := Delete(s, callId);
      var (u, r) := PrepareLeg(without, cfg, sdp, host);
      if |without.sessions| < cfg.maxSessions then
        if r.Ok? then
          && t.sessions == u.sessions[callId := Session(fromTag, r.value.leg, "", None, now)]
          && t.open == u.open && reply == SdpReply(r.value.rewritten)
        else t == u && reply == ErrorReply(r.error)
      else t == without && reply == ErrorReply("capacity-exhausted")
  {
    hide PrepareLeg, SdpReply, ErrorReply, Delete;
    var without := Delete(s, callId);
    var (u, r) := PrepareLeg(without, cfg, sdp, host);
    if |without.sessions| < cfg.maxSessions && r.Err? {
      assert Offer(s, cfg, callId, fromTag, sdp, now, host) == (u, ErrorReply(r.error));
    }
  }

  lemma OpenBelow(s: State, cfg: Config)
    requires Inv(s, cfg)
    ensures s.nextSock !in s.open
  {
  }

  lemma PreparedBody(s: State, cfg: Config, sdp: string, host: Host)
    requires PrepareLeg(s, cfg, sdp, host).1.Ok?
    ensures var prepared := PrepareLeg(s, cfg, sdp, host).1.value;
      RewriteSdp(sdp, cfg.mediaIp, prepared.leg.port, cfg.ip) == Ok(prepared.rewritten)
  {
    hide ParseSdp, RewriteSdp, FirstFree;
  }

  lemma WithoutSize(s: State, callId: string)
    ensures |Delete(s, callId).sessions| == |s.sessions.Keys - {callId}|
    ensures Delete(s, callId).sessions.Keys == s.sessions.Keys - {callId}
  {
    var t := Delete(s, callId);
    assert t.sessions.Keys == s.sessions.Keys - {callId};
    assert |t.sessions| == |t.sessions.Keys|;
  }

  // An answer is taken if and only if its call is there with its tag and not yet
  // answered, its body can be read and a port is to be had; it then gives the call
  // its second leg and tag, and nothing else of it changes but the time of use.
  lemma AnswerExact(s: State, cfg: Config, callId: string, fromTag: string, toTag: string, sdp: string, now: real, host: Host)
    requires Inv(s, cfg) && ValidConfig(cfg)
    ensures var (t, reply) := Perform(s, cfg, AnswerCall(callId, fromTag, toTag, sdp), now, host);
      var taken := callId in s.sessions && s.sessions[callId].fromTag == fromTag && s.sessions[callId].answer.None?
        && ParseSdp(sdp, cfg.ip).Ok? && host.refusal.None? && exists p :: PortFree(s, cfg, host, p);
      && OthersStay(s, t, callId) && (callId in t.sessions <==> callId in s.sessions)
      && (taken ==>
            var x, y := s.sessions[callId], t.sessions[callId];
            && y.offer == x.offer && y.fromTag == fromTag && y.toTag == toTag && y.lastActivity == now
            && y.answer.Some? && y.answer.value.observed.None? && y.answer.value.sock !in s.open
            && PortFree(s, cfg, host, y.answer.value.port)
            && t.open == s.open[y.answer.value.sock := y.answer.value.port]
            && RewriteSdp(sdp, cfg.mediaIp, y.answer.value.port, cfg.ip).Ok?
            && reply == SdpReply(RewriteSdp(sdp, cfg.mediaIp, y.answer.value.port, cfg.ip).value))
      && (!taken ==> t.sessions == s.sessions && t.open == s.open && exists reason :: reply == ErrorReply(reason))
  {
    hide PrepareLeg, ParseSdp, RewriteSdp, SdpReply, ErrorReply, Inv, PortFree, Answer;
    PreparedIff(s, cfg, sdp, host);
    PrepareLegEffect(s, cfg, sdp, host);
    OpenBelow(s, cfg);
    if PrepareLeg(s, cfg, sdp, host).1.Ok? { PreparedBody(s, cfg, sdp, host); }
    AnswerCases(s, cfg, callId, fromTag, toTag, sdp, now, host);
  }

  lemma AnswerCases(s: State, cfg: Config, callId: string, fromTag: string, toTag: string, sdp: string, now: real, host: Host)
    ensures var (t, reply) := Answer(s, cfg, callId, fromTag, toTag, sdp, now, host);
      var (u, r) := PrepareLeg(s, cfg, sdp, host);
      if callId in s.sessions && s.sessions[callId].fromTag == fromTag && s.sessions[callId].answer.None? then
        if r.Ok? then
          && t.sessions == u.sessions[callId :=
               s.sessions[callId].(toTag := toTag, answer := Some(r.value.leg), lastActivity := now)]
          && t.open == u.open && reply == SdpReply(r.value.rewritten)
        else t == u && reply == ErrorReply(r.error)
      else t == s && reply == ErrorReply("unknown-or-reused-dialog")
  {
    hide PrepareLeg, SdpReply, ErrorReply;
    var (u, r) := PrepareLeg(s, cfg, sdp, host);
    if callId in s.sessions && s.sessions[callId].fromTag == fromTag && s.sessions[callId].answer.None? && r.Err? {
      assert Answer(s, cfg, callId, fromTag, toTag, sdp, now, host) == (u, ErrorReply(r.error));
    }
  }

  // --- Refusals ---

  // Why no leg could be prepared.
  function PrepareReason(sdp: string, cfg: Config, host: Host): string {
    if ParseSdp(sdp, cfg.ip).Err? then ParseSdp(sdp, cfg.ip).error
    else if host.refusal.Some? then host.refusal.value
    else "media port range exhausted"
  }

  lemma PrepareFails(s: State, cfg: Config, sdp: string, host: Host)
    requires ValidConfig(cfg) && PrepareLeg(s, cfg, sdp, host).1.Err?
    ensures PrepareLeg(s, cfg, sdp, host).1.error == PrepareReason(sdp, cfg, host)
  {
    var port := FirstFree(cfg.mediaMin, cfg.mediaMax, s.open.Values + host.held);
    if port.Some? && ParseSdp(sdp, cfg.ip).Ok? { ReadCanBeRewritten(sdp, cfg.mediaIp, port.value, cfg.ip); }
    hide ParseSdp, RewriteSdp, FirstFree;
  }

  // An offer that opens no call is told that there is no room, or why it got no leg.
  lemma OfferReason(s: State, cfg: Config, callId: string, fromTag: string, sdp: string, now: real, host: Host)
    requires Inv(s, cfg) && ValidConfig(cfg)
    requires callId !in Perform(s, cfg, OfferCall(callId, fromTag, sdp), now, host).0.sessions
    ensures Perform(s, cfg, OfferCall(callId, fromTag, sdp), now, host).1
      == ErrorReply(if |s.sessions.Keys - {callId}| >= cfg.maxSessions then "capacity-exhausted"
                    else PrepareReason(sdp, cfg, host))
  {
    hide PrepareLeg, ParseSdp, RewriteSdp, SdpReply, ErrorReply, Inv, PortFree, Offer, Delete, PrepareReason;
    var without := Delete(s, callId);
    WithoutSize(s, callId);
    if PrepareLeg(without, cfg, sdp, host).1.Err? { PrepareFails(without, cfg, sdp, host); }
    OfferCases(s, cfg, callId, fromTag, sdp, now, host);
  }

  // An answer that is not taken is told that its dialog is unknown or answered, or
  // why it got no leg.
  lemma AnswerReason(s: State, cfg: Config, callId: string, fromTag: string, toTag: string, sdp: string, now: real, host: Host)
    requires ValidConfig(cfg)
    requires var open := callId in s.sessions && s.sessions[callId].fromTag == fromTag && s.sessions[callId].answer.None?;
      !open || PrepareLeg(s, cfg, sdp, host).1.Err?
    ensures Perform(s, cfg, AnswerCall(callId, fromTag, toTag, sdp), now, host).1
      == ErrorReply(if callId in s.sessions && s.sessions[callId].fromTag == fromTag && s.sessions[callId].answer.None?
                    then PrepareReason(sdp, cfg, host) else "unknown-or-reused-dialog")
  {
    hide PrepareLeg, ParseSdp, RewriteSdp, SdpReply, ErrorReply, Answer, PrepareReason;
    if PrepareLeg(s, cfg, sdp, host).1.Err? { PrepareFails(s, cfg, sdp, host); }
    AnswerCases(s, cfg, callId, fromTag, toTag, sdp, now, host);
  }

  // The peer reads the reason, up to 128 characters of it.
  lemma ReasonRead(reason: string)
    ensures var r := BdecodeDict(Send(ErrorReply(reason)));
      && r.Ok? && ResultIs(r.value, "error")
      && Field(r.value.items, "error-reason") == Some(Bytes(Ascii(if |reason| <= 128 then reason else reason[..128])))
  {
    var v := ErrorReply(reason);
    AsciiKeysDiffer();
    assert v.items[0].key == Ascii("result") && v.items[1].key == Ascii("error-reason");
    ErrorReplyFits(reason);
    hide Encode, Decode, Within, BdecodeDict, Ascii, ErrorReply;
    SentReplyDecodes(v);
    FieldOfEqual(v, BdecodeDict(Encode(v)).value, "result", 0);
    FieldOfEqual(v, BdecodeDict(Encode(v)).value, "error-reason", 1);
  }

  lemma PingExact(s: State, cfg: Config, now: real, host: Host)
    ensures Perform(s, cfg, Ping, now, host) == (s, OK_REPLY)
  {
  }

  // --- Use and expiry ---

  // A media packet is a use of its call if and only if it is one of version 2 and of
  // 12 to 8192 octets, from the source the leg accepts; then the source is latched.
  lemma MediaUse(s: State, cfg: Config, place: Place, sock: nat, data: bytes, source: Endpoint, now: real)
    requires Inv(s, cfg) && Holds(s, place, sock) && |data| <= MAX_MEDIA_PACKET
    ensures Placed(s, place)
    ensures var t := HandleMedia(s, sock, data, source, now).0;
      var leg := LegOf(s, place);
      if |data| >= 12 && 128 <= data[0] < 192 && (leg.observed.None? || leg.observed.value == source) then
        && place.callId in t.sessions && t.sessions[place.callId].lastActivity == now
        && Placed(t, place) && LegOf(t, place) == leg.(observed := Some(source))
        && t.open == s.open && OthersStay(s, t, place.callId)
        && SameFields(s.sessions[place.callId], t.sessions[place.callId], place.isOffer)
      else t == s
  {
    MediaAtPlace(s, cfg, place, sock, data, source, now);
  }

  // Apart from the leg the packet came to and the time, the call is as before.
  predicate SameFields(x: Session, y: Session, isOffer: bool) {
    && y.fromTag == x.fromTag && y.toTag == x.toTag
    && (if isOffer then y.answer == x.answer else y.offer == x.offer)
  }

  // A tick keeps a call if and only if it was used less than the timeout ago, and
  // closes exactly the sockets of the others.
  lemma TickExact(s: State, cfg: Config, now: real)
    requires Inv(s, cfg)
    ensures var t := Expire(s, cfg, now);
      && (forall k :: k in t.sessions <==> k in s.sessions && now - s.sessions[k].lastActivity < cfg.timeout)
      && (forall k :: k in t.sessions ==> t.sessions[k] == s.sessions[k])
      && (forall x :: x in t.open <==> x in s.open && exists place :: Holds(t, place, x))
      && (forall x :: x in t.open ==> t.open[x] == s.open[x])
  {
    var t := Expire(s, cfg, now);
    var gone := Overdue(s, cfg, now);
    DeleteAllKeepsInv(s, cfg, gone);
    forall x ensures x in t.open <==> x in s.open && exists place :: Holds(t, place, x) {
      if x in t.open {
        assert SocketsAreLegs(t);
      }
      if place :| Holds(t, place, x) {
        assert Placed(t, place) && LegOf(t, place).sock == x;
        assert SocketsAreLegs(t);
      }
    }
  }
}
