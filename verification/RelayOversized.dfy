// Offers that fit a datagram and whose replies do not: the media address is a long
// IPv6 one, and the body nearly fills the packet.
module RelayOversized {
  import opened Bencode
  import opened BencodeLaws
  import opened RelayCommands
  import opened RelayModel
  import opened RelayReplies
  import opened Sdp
  import opened SdpExamples
  import opened SdpLaws
  import opened Text

  // --- Lengths ---

  lemma {:induction false} DecAtLeast(n: nat, k: nat)
    requires n >= PowTen(k)
    ensures |Dec(n)| >= k + 1
  {
    if k == 0 {
    } else {
      DecAtLeast(n / 10, k - 1);
    }
  }

  lemma FiveDigits(n: nat)
    requires 10000 <= n <= 65535
    ensures |Dec(n)| == 5
  {
    assert PowTen(4) == 10 * (10 * (10 * (10 * PowTen(0))));
    DecAtLeast(n, 4);
    DecAtMostFive(n);
  }

  lemma ShortBytesSize(b: bytes)
    requires |b| < 10
    ensures |EncodeBytes(b)| == |b| + 2
  {
  }

  lemma LongBytesSize(b: bytes)
    requires |b| >= 10000
    ensures |EncodeBytes(b)| >= |b| + 6
    ensures |b| <= 65535 ==> |EncodeBytes(b)| == |b| + 6
  {
    assert PowTen(4) == 10 * (10 * (10 * (10 * PowTen(0))));
    DecAtLeast(|b|, 4);
    if |b| <= 65535 { FiveDigits(|b|); }
  }

  lemma ReplySize(rewritten: string)
    requires |rewritten| >= 10000
    ensures |Encode(SdpReply(rewritten))| >= 25 + |rewritten|
    ensures |rewritten| <= 65535 ==> |Encode(SdpReply(rewritten))| == 25 + |rewritten|
  {
    hide EncodeBytes, Encode;
    var items := SdpReply(rewritten).items;
    TwoEntriesSize(items);
    ShortBytesSize(items[0].key);
    ShortBytesSize(items[0].value.b);
    ShortBytesSize(items[1].key);
    LongBytesSize(items[1].value.b);
  }

  // --- The command ---

  function TextEntry(key: string, text: string): Entry<Value> { Entry(Ascii(key), Bytes(Ascii(text))) }

  function OfferItems(callId: string, fromTag: string, sdp: string): seq<Entry<Value>> {
    [TextEntry("command", "offer"), TextEntry("call-id", callId), TextEntry("from-tag", fromTag), TextEntry("sdp", sdp)]
  }

  function OfferPayload(callId: string, fromTag: string, sdp: string): bytes {
    Encode(Dict(OfferItems(callId, fromTag, sdp)))
  }

  lemma PayloadSize(callId: string, fromTag: string, sdp: string)
    requires |callId| == 1 && |fromTag| == 1 && 10000 <= |sdp| <= 65535
    ensures |OfferPayload(callId, fromTag, sdp)| == 54 + |sdp|
  {
    hide EncodeBytes, Encode, Ascii;
    var items := OfferItems(callId, fromTag, sdp);
    DictSize(items);
    assert items == [items[0]] + items[1..] && items[1..] == [items[1]] + items[2..];
    assert items[2..] == [items[2]] + items[3..] && items[3..] == [items[3]] + [];
    ItemsSize(items[0], items[1..]);
    ItemsSize(items[1], items[2..]);
    ItemsSize(items[2], items[3..]);
    ItemsSize(items[3], []);
    NoItems();
    ShortBytesSize(Ascii("command"));
    ShortBytesSize(Ascii("offer"));
    ShortBytesSize(Ascii("call-id"));
    ShortBytesSize(Ascii(callId));
    ShortBytesSize(Ascii("from-tag"));
    ShortBytesSize(Ascii(fromTag));
    ShortBytesSize(Ascii("sdp"));
    LongBytesSize(Ascii(sdp));
  }

  lemma KeysDiffer()
    ensures Ascii("command")[1] == 111 && Ascii("call-id")[1] == 97
    ensures Ascii("from-tag")[1] == 114 && Ascii("sdp")[1] == 100
  {
  }

  lemma OfferWithin(callId: string, fromTag: string, sdp: string)
    requires |callId| <= MAX_CALL_ID && |fromTag| <= MAX_TAG && |sdp| <= MAX_SDP
    ensures Within(Dict(OfferItems(callId, fromTag, sdp)), 0)
  {
    KeysDiffer();
    hide Ascii;
    var items := OfferItems(callId, fromTag, sdp);
    assert DistinctKeys(items);
    forall i | 0 <= i < |items|
      ensures |items[i].key| <= MAX_CONTROL_PACKET && Within(items[i].value, 1)
    {
      assert items[i].value.Bytes? && |items[i].value.b| <= 65535;
    }
  }

  // The octets of such an offer are read back as it.
  lemma OfferReadBack(callId: string, fromTag: string, sdp: string)
    requires 1 <= |callId| <= MAX_CALL_ID && 1 <= |fromTag| <= MAX_TAG && 1 <= |sdp| <= MAX_SDP
    requires |OfferPayload(callId, fromTag, sdp)| <= MAX_CONTROL_PACKET
    requires IsPrintable(callId) && IsPrintable(fromTag) && IsBodyText(sdp)
    ensures ReadCommand(OfferPayload(callId, fromTag, sdp)) == Ok(OfferCall(callId, fromTag, sdp))
  {
    var items := OfferItems(callId, fromTag, sdp);
    OfferWithin(callId, fromTag, sdp);
    KeysDiffer();
    hide Encode, ReadCommand, Within, IsPrintable, IsBodyText, Ascii, Lower;
    FieldFinds(items, "command", 0);
    FieldFinds(items, "call-id", 1);
    FieldFinds(items, "from-tag", 2);
    FieldFinds(items, "sdp", 3);
    LowerOffer();
    PrintableOffer();
    OfferRead(items, "offer", callId, fromTag, sdp);
  }

  lemma LowerOffer()
    ensures Lower("offer") == "offer"
  {
  }

  lemma PrintableOffer()
    ensures IsPrintable("offer")
  {
  }

  // --- Offers of a call on hold ---

  function HeldSdp(n: nat): string { JoinLines(HeldBody(HELD6, Zeros(n))) }

  function HeldPacket(n: nat): bytes { [99, 32] + OfferPayload("c", "f", HeldSdp(n)) }

  lemma {:induction false} JoinedIsBodyText(lines: seq<string>)
    requires forall i :: 0 <= i < |lines| ==> IsPrintable(lines[i])
    ensures IsBodyText(JoinLines(lines))
  {
    if |lines| <= 1 {
    } else {
      JoinedIsBodyText(lines[1..]);
      assert JoinLines(lines) == lines[0] + CRLF + JoinLines(lines[1..]);
    }
  }

  lemma PrintableConstants()
    ensures IsPrintable("v=0") && IsPrintable(ROUTED) && IsPrintable(HELD6)
  {
  }

  lemma PrintableAudio(n: nat)
    ensures IsPrintable(Audio(Zeros(n)))
  {
    assert IsPrintable("m=audio 1 RTP/AVP ") && IsPrintable(Zeros(n));
  }

  lemma HeldLines(n: nat)
    requires n > 0
    ensures FourLines(HeldBody(HELD6, Zeros(n)), Zeros(n))
    ensures |HeldSdp(n)| == 54 + n && IsBodyText(HeldSdp(n))
  {
    HeldBodyIs(HELD6, Zeros(n));
    FourLinesSize(HeldBody(HELD6, Zeros(n)));
    hide IsPrintable, FourLines;
    PrintableConstants();
    PrintableAudio(n);
    JoinedIsBodyText(HeldBody(HELD6, Zeros(n)));
  }

  // A relay on ports of five digits whose resolver knows the two addresses.
  ghost predicate FiveDigitRelay(cfg: Config) {
    && ValidConfig(cfg) && cfg.mediaMin >= 10000
    && cfg.ip("1.1.1.1").Some? && cfg.ip("::").None?
  }

  lemma HeldRead(ip: Resolver, n: nat)
    requires ip("1.1.1.1").Some? && ip("::").None? && 0 < n <= 65417
    ensures ParseSdp(HeldSdp(n), ip).Ok?
  {
    HeldLines(n);
    Connections();
    var lines := HeldBody(HELD6, Zeros(n));
    assert Routable(lines, 3, ip) && !Routable(lines, 1, ip);
    FourLinesRead(lines, Zeros(n), 3, ip);
  }

  lemma HeldRewritten(cfg: Config, port: int, n: nat)
    requires FiveDigitRelay(cfg) && 10000 <= port <= 65535 && 0 < n
    ensures var r := RewriteSdp(HeldSdp(n), cfg.mediaIp, port, cfg.ip);
      r.Ok? && |r.value| == 56 + |cfg.mediaIp| + n
  {
    HeldLines(n);
    var lines := HeldBody(HELD6, Zeros(n));
    assert |lines[3]| == 16 && |Zeros(n)| == n;
    hide HeldBody, FourLines, RewriteSdp, JoinLines, Dec, AudioLine, ConnectionLine;
    FourLinesRewritten(lines, Zeros(n), cfg.mediaIp, port, cfg.ip);
    FiveDigits(port);
  }

  lemma HeldLeg(cfg: Config, host: Host, n: nat)
    requires FiveDigitRelay(cfg) && 0 < n <= 65417 && host.held == {} && host.refusal.None?
    ensures var (t, r) := PrepareLeg(INITIAL, cfg, HeldSdp(n), host);
      && r.Ok? && |r.value.rewritten| == 56 + |cfg.mediaIp| + n
      && t == State(map[], map[0 := cfg.mediaMin], 1)
  {
    HeldRead(cfg.ip, n);
    HeldRewritten(cfg, cfg.mediaMin, n);
    hide HeldSdp, ParseSdp, RewriteSdp;
    assert FirstFree(cfg.mediaMin, cfg.mediaMax, {}) == Some(cfg.mediaMin);
    assert INITIAL.open.Values + {} == {};
    assert INITIAL.open[0 := cfg.mediaMin] == map[0 := cfg.mediaMin];
  }

  lemma SendSize(v: Value)
    ensures |Encode(v)| <= MAX_CONTROL_PACKET ==> Send(v) == Encode(v)
    ensures |Encode(v)| > MAX_CONTROL_PACKET ==> Send(v) == Encode(ErrorReply("control response too large"))
  {
    hide Encode, ErrorReply;
  }

  lemma ReplyOfSize(rewritten: string)
    requires |rewritten| >= 10000
    ensures var response, full := Send(SdpReply(rewritten)), 25 + |rewritten|;
      && (full <= MAX_CONTROL_PACKET ==> |response| == full)
      && (full > MAX_CONTROL_PACKET ==>
            BdecodeDict(response).Ok? && ResultIs(BdecodeDict(response).value, "error") && |response| <= 400)
  {
    hide Send, Encode, SdpReply, ErrorReply, BdecodeDict, ResultIs, Within;
    ReplySize(rewritten);
    SendSize(SdpReply(rewritten));
    ErrorReplyFits("control response too large");
    ErrorReplySent("control response too large");
  }

  // An offer made before any other is answered from the leg prepared for it.
  lemma FirstOffer(cfg: Config, payload: bytes, sdp: string, now: real, host: Host)
    requires cfg.maxSessions > 0 && ReadCommand(payload) == Ok(OfferCall("c", "f", sdp))
    requires PrepareLeg(INITIAL, cfg, sdp, host).1.Ok?
    ensures var (t, response) := HandlePayload(INITIAL, cfg, payload, now, host);
      var (u, r) := PrepareLeg(INITIAL, cfg, sdp, host);
      && t.sessions == u.sessions["c" := Session("f", r.value.leg, "", None, now)] && t.open == u.open
      && response == Send(SdpReply(r.value.rewritten))
  {
    hide ReadCommand, PrepareLeg, Send, SdpReply, ErrorReply;
    assert Delete(INITIAL, "c") == INITIAL;
  }

  lemma HeldReceived(n: nat)
    requires 10000 <= n <= 65417
    ensures var payload := OfferPayload("c", "f", HeldSdp(n));
      |payload| == 108 + n && ReadCommand(payload) == Ok(OfferCall("c", "f", HeldSdp(n)))
  {
    HeldLines(n);
    hide HeldSdp, OfferPayload, ReadCommand, IsBodyText;
    PayloadSize("c", "f", HeldSdp(n));
    OfferReadBack("c", "f", HeldSdp(n));
  }

  // Such an offer opens its session; its payload and its full reply have these sizes.
  lemma HeldOffer(cfg: Config, now: real, host: Host, n: nat)
    requires FiveDigitRelay(cfg) && 10000 <= n <= 65417 && host.held == {} && host.refusal.None?
    ensures var payload := OfferPayload("c", "f", HeldSdp(n));
      var (t, response) := HandlePayload(INITIAL, cfg, payload, now, host);
      && |payload| == 108 + n && t.sessions.Keys == {"c"} && t.open == map[0 := cfg.mediaMin]
      && (81 + |cfg.mediaIp| + n <= MAX_CONTROL_PACKET ==> |response| == 81 + |cfg.mediaIp| + n)
      && (81 + |cfg.mediaIp| + n > MAX_CONTROL_PACKET ==>
            BdecodeDict(response).Ok? && ResultIs(BdecodeDict(response).value, "error") && |response| <= 400)
  {
    var sdp, payload := HeldSdp(n), OfferPayload("c", "f", HeldSdp(n));
    hide HeldSdp, OfferPayload, ReadCommand, PrepareLeg, Send, SdpReply, BdecodeDict, ResultIs, HandlePayload;
    HeldReceived(n);
    HeldLeg(cfg, host, n);
    FirstOffer(cfg, payload, sdp, now, host);
    ReplyOfSize(PrepareLeg(INITIAL, cfg, sdp, host).1.value.rewritten);
  }

  // --- Two datagrams that can arrive ---

  // The longest datagrams of UDP over IPv4 and over IPv6.
  const LARGEST_V4 := 65507
  const LARGEST_V6 := 65527

  lemma PacketParts(n: nat)
    requires 10000 <= n <= 65417
    ensures |HeldPacket(n)| == 110 + n
    ensures ReceivedControl(HeldPacket(n)) == HeldPacket(n)
    ensures ControlParts(HeldPacket(n)) == Some(([99], OfferPayload("c", "f", HeldSdp(n))))
  {
    HeldLines(n);
    hide HeldSdp, OfferPayload, IsBodyText, ControlParts;
    var payload := OfferPayload("c", "f", HeldSdp(n));
    PayloadSize("c", "f", HeldSdp(n));
    assert HeldPacket(n) == [99] + [32] + payload;
    PartsOfPacket(HeldPacket(n), [99], payload);
  }

  // One that fills an IPv6 datagram opens its session and is answered with an error,
  // because the full reply would not fit a control packet.
  lemma OversizedOffer(cfg: Config, now: real, host: Host)
    requires FiveDigitRelay(cfg) && |cfg.mediaIp| >= 38
    requires host == Host({}, None, LARGEST_V6)
    ensures var (t, reply) := HandleControl(INITIAL, cfg, HeldPacket(65417), true, now, host);
      && |HeldPacket(65417)| == LARGEST_V6
      && t.sessions.Keys == {"c"} && t.open == map[0 := cfg.mediaMin]
      && reply.Some? && |reply.value| > 2 && reply.value[..2] == [99, 32]
      && BdecodeDict(reply.value[2..]).Ok? && ResultIs(BdecodeDict(reply.value[2..]).value, "error")
  {
    PacketParts(65417);
    HeldOffer(cfg, now, host, 65417);
    hide HeldPacket, HeldSdp, OfferPayload, HandlePayload, ControlParts, ReceivedControl, BdecodeDict, ResultIs;
    var response := HandlePayload(INITIAL, cfg, OfferPayload("c", "f", HeldSdp(65417)), now, host).1;
    var reply := [99] + [32] + response;
    assert reply[..2] == [99, 32] && reply[2..] == response;
    NotEmptyReply(response);
  }

  lemma NotEmptyReply(response: bytes)
    requires BdecodeDict(response).Ok?
    ensures response != []
  {
  }

  // One that fills an IPv4 datagram opens its session and is not answered at all,
  // because its reply fits a control packet and not the datagram.
  lemma UnansweredOffer(cfg: Config, now: real, host: Host)
    requires FiveDigitRelay(cfg) && 28 <= |cfg.mediaIp| <= 57
    requires host == Host({}, None, LARGEST_V4)
    ensures var (t, reply) := HandleControl(INITIAL, cfg, HeldPacket(65397), true, now, host);
      && |HeldPacket(65397)| == LARGEST_V4
      && t.sessions.Keys == {"c"} && t.open == map[0 := cfg.mediaMin] && reply.None?
  {
    PacketParts(65397);
    HeldOffer(cfg, now, host, 65397);
    hide HeldPacket, HeldSdp, OfferPayload, HandlePayload, ControlParts, ReceivedControl;
  }
}
