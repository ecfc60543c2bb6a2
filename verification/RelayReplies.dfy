// What the relay's control replies say: every payload gets a decodable reply, and
// an accepted body advertises exactly the port that was bound for it.
module RelayReplies {
  import opened Bencode
  import opened BencodeLaws
  import opened RelayLaws
  import opened RelayModel
  import opened Sdp
  import opened SdpLaws
  import opened Text

  // --- Field lookup does not depend on order ---

  lemma {:induction false} FieldFinds(items: seq<Entry<Value>>, key: string, i: nat)
    requires DistinctKeys(items) && i < |items| && items[i].key == Ascii(key)
    ensures Field(items, key) == Some(items[i].value)
  {
    if i == 0 {
    } else {
      assert items[0].key != items[i].key;
      FieldFinds(items[1..], key, i - 1);
    }
  }

  // A bytes field of an equal dictionary is found again.
  lemma FieldOfEqual(v: Value, w: Value, key: string, i: nat)
    requires Equal(v, w) && v.Dict? && i < |v.items| && v.items[i].key == Ascii(key) && v.items[i].value.Bytes?
    ensures Field(w.items, key) == Some(v.items[i].value)
  {
    var j :| 0 <= j < |w.items| && w.items[j].key == v.items[i].key && Equal(v.items[i].value, w.items[j].value);
    FieldFinds(w.items, key, j);
  }

  // --- Replies ---

  ghost predicate IsReply(v: Value) {
    || v == OK_REPLY
    || (exists sdp :: v == SdpReply(sdp))
    || (exists reason :: v == ErrorReply(reason))
  }

  predicate ResultIs(v: Value, result: string) {
    v.Dict? && Field(v.items, "result") == Some(Bytes(Ascii(result)))
  }

  lemma AsciiKeysDiffer()
    ensures Ascii("result") != Ascii("sdp") && Ascii("result") != Ascii("error-reason")
  {
    assert Ascii("result")[0] == 114 && Ascii("sdp")[0] == 115 && Ascii("error-reason")[0] == 101;
  }

  lemma EncodeBytesSize(b: bytes)
    requires |b| <= MAX_CONTROL_PACKET
    ensures |EncodeBytes(b)| <= |b| + 6
  {
    LengthText(|b|);
  }

  lemma ErrorReplyFits(reason: string)
    ensures |Encode(ErrorReply(reason))| <= 400 && Within(ErrorReply(reason), 0)
  {
    hide EncodeBytes, Dec;
    var text := Ascii(if |reason| <= 128 then reason else reason[..128]);
    var items := [Entry(Ascii("result"), Bytes(Ascii("error"))), Entry(Ascii("error-reason"), Bytes(text))];
    AsciiKeysDiffer();
    EncodeBytesSize(Ascii("result"));
    EncodeBytesSize(Ascii("error"));
    EncodeBytesSize(Ascii("error-reason"));
    EncodeBytesSize(text);
    TwoEntriesSize(items);
  }

  // --- Sizes of encoded dictionaries ---

  function EntrySize(e: Entry<bytes>): nat { |EncodeBytes(e.key)| + |e.value| }

  function EntriesSize(entries: seq<Entry<bytes>>): nat {
    if entries == [] then 0 else EntrySize(entries[0]) + EntriesSize(entries[1..])
  }

  lemma {:induction false} JoinSize(entries: seq<Entry<bytes>>)
    ensures |JoinEntries(entries)| == EntriesSize(entries)
  {
    hide EncodeBytes;
    if entries == [] {
    } else {
      JoinSize(entries[1..]);
    }
  }

  lemma {:induction false} InsertSize(item: Entry<bytes>, sorted: seq<Entry<bytes>>)
    ensures EntriesSize(InsertByKey(item, sorted)) == EntrySize(item) + EntriesSize(sorted)
  {
    hide EncodeBytes, KeyLess, EntrySize;
    if sorted == [] || KeyLess(item.key, sorted[0].key) {
      assert ([item] + sorted)[1..] == sorted;
    } else {
      InsertSize(item, sorted[1..]);
      assert ([sorted[0]] + InsertByKey(item, sorted[1..]))[1..] == InsertByKey(item, sorted[1..]);
    }
  }

  lemma {:induction false} SizeOfFirsts(entries: seq<Entry<bytes>>)
    requires entries != []
    ensures EntriesSize(entries) == EntriesSize(entries[..|entries| - 1]) + EntrySize(entries[|entries| - 1])
  {
    hide EntrySize;
    if |entries| == 1 {
      assert entries[1..] == [] && entries[..0] == [];
    } else {
      SizeOfFirsts(entries[1..]);
      assert entries[1..][..|entries| - 2] == entries[..|entries| - 1][1..];
    }
  }

  lemma {:induction false} SortSize(entries: seq<Entry<bytes>>)
    ensures EntriesSize(SortByKey(entries)) == EntriesSize(entries)
  {
    hide EntrySize;
    if entries == [] {
    } else {
      var n := |entries| - 1;
      SortSize(entries[..n]);
      InsertSize(entries[n], SortByKey(entries[..n]));
      SizeOfFirsts(entries);
    }
  }

  // However its keys are sorted, a dictionary's encoding is as long as its parts.
  lemma DictSize(items: seq<Entry<Value>>)
    ensures |Encode(Dict(items))| == 2 + EntriesSize(EncodeItems(items))
  {
    hide JoinEntries, SortByKey, EntriesSize, EncodeItems;
    SortSize(EncodeItems(items));
    JoinSize(SortByKey(EncodeItems(items)));
  }

  lemma ItemsSize(item: Entry<Value>, rest: seq<Entry<Value>>)
    requires item.value.Bytes?
    ensures EntriesSize(EncodeItems([item] + rest))
         == |EncodeBytes(item.key)| + |EncodeBytes(item.value.b)| + EntriesSize(EncodeItems(rest))
  {
    hide EncodeBytes;
    assert ([item] + rest)[1..] == rest;
    var first := Entry(item.key, Encode(item.value));
    assert ([first] + EncodeItems(rest))[1..] == EncodeItems(rest);
  }

  lemma TwoEntriesSize(items: seq<Entry<Value>>)
    requires |items| == 2 && items[0].value.Bytes? && items[1].value.Bytes?
    ensures |Encode(Dict(items))|
      == 2 + |EncodeBytes(items[0].key)| + |EncodeBytes(items[0].value.b)|
           + |EncodeBytes(items[1].key)| + |EncodeBytes(items[1].value.b)|
  {
    hide EncodeBytes, Encode;
    DictSize(items);
    assert items == [items[0]] + [items[1]] && [items[1]] == [items[1]] + [];
    ItemsSize(items[0], [items[1]]);
    ItemsSize(items[1], []);
    NoItems();
  }

  lemma NoItems()
    ensures EntriesSize(EncodeItems([])) == 0
  {
  }

  // What the peer decodes is a dictionary equal to the reply.
  lemma SentReplyDecodes(v: Value)
    requires v.Dict? && Within(v, 0) && |Encode(v)| <= MAX_CONTROL_PACKET
    ensures BdecodeDict(Encode(v)).Ok? && Equal(v, BdecodeDict(Encode(v)).value)
  {
    hide Encode, Decode, Equal, Within;
    DecodeOfEncode(v, []);
    assert Encode(v) + [] == Encode(v);
    DictEqualIsDict(v);
    assert BdecodeDict(Encode(v)) == Ok(Canon(v)) by { ControlRoundTrip(v); }
  }

  lemma DictEqualIsDict(v: Value)
    requires v.Dict?
    ensures Canon(v).Dict?
  {
  }

  lemma ErrorReplySent(reason: string)
    ensures var r := BdecodeDict(Encode(ErrorReply(reason)));
      r.Ok? && ResultIs(r.value, "error")
  {
    hide Encode, Within, Dec;
    ErrorReplyFits(reason);
    SentReplyDecodes(ErrorReply(reason));
    FieldOfEqual(ErrorReply(reason), BdecodeDict(Encode(ErrorReply(reason))).value, "result", 0);
  }

  // A reply within the size limit decodes to its own result; a larger one is
  // replaced by an error.
  lemma SdpReplySent(sdp: string)
    ensures var r := BdecodeDict(Send(SdpReply(sdp)));
      r.Ok? && if BencodeDict(SdpReply(sdp)).Ok? then
        ResultIs(r.value, "ok") && Field(r.value.items, "sdp") == Some(Bytes(Ascii(sdp)))
      else ResultIs(r.value, "error")
  {
    var v := SdpReply(sdp);
    if BencodeDict(v).Ok? {
      AsciiKeysDiffer();
      assert v.items[0].key == Ascii("result") && v.items[1].key == Ascii("sdp");
      SdpReplyWithin(sdp);
      SentReplyDecodes(v);
      hide Encode, Decode, Within;
      FieldOfEqual(v, BdecodeDict(Encode(v)).value, "result", 0);
      FieldOfEqual(v, BdecodeDict(Encode(v)).value, "sdp", 1);
    } else {
      ErrorReplySent("control response too large");
    }
  }

  lemma SdpReplyWithin(sdp: string)
    requires |Encode(SdpReply(sdp))| <= MAX_CONTROL_PACKET
    ensures Within(SdpReply(sdp), 0)
  {
    hide Encode, EncodeBytes;
    AsciiKeysDiffer();
    TwoEntriesSize(SdpReply(sdp).items);
    assert |EncodeBytes(Ascii(sdp))| >= |Ascii(sdp)| by { EncodeBytesAtLeast(Ascii(sdp)); }
  }

  lemma EncodeBytesAtLeast(b: bytes)
    ensures |EncodeBytes(b)| >= |b|
  {
  }

  lemma OkReplySent()
    ensures BdecodeDict(Send(OK_REPLY)).Ok? && ResultIs(BdecodeDict(Send(OK_REPLY)).value, "ok")
  {
    hide Dec;
    assert OK_REPLY.items[1..] == [];
    var e := Entry(Ascii("result"), Encode(Bytes(Ascii("ok"))));
    assert EncodeItems(OK_REPLY.items) == [e];
    assert SortByKey([e]) == [e] by { assert [e][..0] == []; }
    assert JoinEntries([e]) == EncodeBytes(e.key) + e.value by { assert [e][1..] == []; }
    EncodeBytesSize(Ascii("result"));
    EncodeBytesSize(Ascii("ok"));
    SentReplyDecodes(OK_REPLY);
    FieldOfEqual(OK_REPLY, BdecodeDict(Encode(OK_REPLY)).value, "result", 0);
  }

  // Every control payload, well formed or not, gets a reply that decodes to a
  // dictionary whose result is "ok" or "error".
  lemma EveryPayloadAnswered(s: State, cfg: Config, payload: bytes, now: real, host: Host)
    ensures var r := BdecodeDict(HandlePayload(s, cfg, payload, now, host).1);
      r.Ok? && (ResultIs(r.value, "ok") || ResultIs(r.value, "error"))
  {
    hide BdecodeDict, ReadCommand, ResultIs, Encode;
    var command := ReadCommand(payload);
    if command.Err? {
      SentError(command.error);
    } else {
      PerformReplies(s, cfg, command.value, now, host);
      hide Perform;
      var reply := Perform(s, cfg, command.value, now, host).1;
      if reply == OK_REPLY {
        OkReplySent();
      } else if sdp :| reply == SdpReply(sdp) {
        SdpReplySent(sdp);
      } else {
        var reason :| reply == ErrorReply(reason);
        SentError(reason);
      }
    }
  }

  lemma SentError(reason: string)
    ensures var r := BdecodeDict(Send(ErrorReply(reason))); r.Ok? && ResultIs(r.value, "error")
  {
    hide BdecodeDict, Encode, ErrorReply, ResultIs;
    ErrorReplyFits(reason);
    ErrorReplySent(reason);
  }

  lemma PerformReplies(s: State, cfg: Config, command: Command, now: real, host: Host)
    ensures IsReply(Perform(s, cfg, command, now, host).1)
  {
    hide PrepareLeg, SdpReply, ErrorReply, Delete;
    var reply := Perform(s, cfg, command, now, host).1;
    match command
    case Ping =>
    case DeleteCall(_) =>
    case Unsupported =>
      assert reply == ErrorReply("unsupported-command");
    case OfferCall(callId, fromTag, sdp) =>
      var cleared := Delete(s, callId);
      if |cleared.sessions| >= cfg.maxSessions {
        assert reply == ErrorReply("capacity-exhausted");
      } else {
        PreparedReply(PrepareLeg(cleared, cfg, sdp, host).1, reply);
      }
    case AnswerCall(callId, fromTag, toTag, sdp) =>
      if callId !in s.sessions || s.sessions[callId].fromTag != fromTag || s.sessions[callId].answer.Some? {
        assert reply == ErrorReply("unknown-or-reused-dialog");
      } else {
        PreparedReply(PrepareLeg(s, cfg, sdp, host).1, reply);
      }
  }

  lemma PreparedReply(prepared: Result<Prepared>, reply: Value)
    requires reply == if prepared.Err? then ErrorReply(prepared.error) else SdpReply(prepared.value.rewritten)
    ensures IsReply(reply)
  {
  }

  // --- Datagrams on the control socket ---

  // A cookie of one to 64 octets without blanks, a blank, and a command.
  ghost predicate IsControlPacket(packet: bytes, cookie: bytes, payload: bytes) {
    1 <= |cookie| <= MAX_COOKIE && 32 !in cookie && payload != [] && packet == cookie + [32] + payload
  }

  lemma PartsOfPacket(packet: bytes, cookie: bytes, payload: bytes)
    ensures IsControlPacket(packet, cookie, payload) <==> ControlParts(packet) == Some((cookie, payload))
  {
    var blank := FindByte(packet, 32, 0);
    if IsControlPacket(packet, cookie, payload) {
      FindByteIs(packet, 32, 0, |cookie|);
      assert packet[..|cookie|] == cookie && packet[|cookie| + 1..] == payload;
    }
    if ControlParts(packet) == Some((cookie, payload)) {
      assert packet == packet[..blank] + [packet[blank]] + packet[blank + 1..];
    }
  }

  // A datagram is answered if and only if its source is allowed, it holds a cookie
  // and a command, and the answer is not too long to send; the answer is one
  // decodable reply under the same cookie.  What is not a packet changes nothing.
  lemma EveryPacketAnswered(s: State, cfg: Config, data: bytes, allowed: bool, now: real, host: Host)
    ensures var (t, reply) := HandleControl(s, cfg, data, allowed, now, host);
      var packet := ReceivedControl(data);
      if allowed && ControlParts(packet).Some? then
        var (cookie, payload) := ControlParts(packet).value;
        var (u, response) := HandlePayload(s, cfg, payload, now, host);
        var r := BdecodeDict(response);
        && IsControlPacket(packet, cookie, payload) && t == u
        && (reply.Some? <==> |cookie| + 1 + |response| <= host.largest)
        && (reply.Some? ==> reply.value == cookie + [32] + response)
        && r.Ok? && (ResultIs(r.value, "ok") || ResultIs(r.value, "error"))
      else t == s && reply.None?
    ensures (exists cookie, payload :: IsControlPacket(ReceivedControl(data), cookie, payload))
      <==> ControlParts(ReceivedControl(data)).Some?
  {
    hide HandlePayload, ControlParts, ReceivedControl, BdecodeDict, ResultIs, IsControlPacket;
    var packet := ReceivedControl(data);
    var parts := ControlParts(packet);
    if parts.Some? {
      PartsOfPacket(packet, parts.value.0, parts.value.1);
      EveryPayloadAnswered(s, cfg, parts.value.1, now, host);
    }
    forall cookie, payload | IsControlPacket(packet, cookie, payload) ensures parts.Some? {
      PartsOfPacket(packet, cookie, payload);
    }
  }

  // --- An accepted body whose reply does not fit ---

  // The reply to an accepted body of a call already in the table.
  ghost predicate RepliedBySize(response: bytes, rewritten: string) {
    var r := BdecodeDict(response);
    && r.Ok?
    && (ResultIs(r.value, "error") <==> |Encode(SdpReply(rewritten))| > MAX_CONTROL_PACKET)
    && (|Encode(SdpReply(rewritten))| <= MAX_CONTROL_PACKET <==>
          ResultIs(r.value, "ok") && Field(r.value.items, "sdp") == Some(Bytes(Ascii(rewritten))))
  }

  lemma ReplyBySize(rewritten: string)
    ensures RepliedBySize(Send(SdpReply(rewritten)), rewritten)
  {
    hide BdecodeDict, Encode, Send;
    SdpReplySent(rewritten);
    assert Ascii("ok")[0] != Ascii("error")[0];
    BencodeFits(SdpReply(rewritten));
  }

  lemma BencodeFits(v: Value)
    ensures BencodeDict(v).Ok? <==> |Encode(v)| <= MAX_CONTROL_PACKET
  {
  }

  // An offer whose leg is prepared leaves its session in the table, whatever is
  // replied; the reply says error if and only if the full one is too long to send.
  lemma OfferStaysWhateverReplied(s: State, cfg: Config, payload: bytes, now: real, host: Host,
                                  callId: string, fromTag: string, sdp: string)
    requires ReadCommand(payload) == Ok(OfferCall(callId, fromTag, sdp))
    requires |Delete(s, callId).sessions| < cfg.maxSessions
    requires PrepareLeg(Delete(s, callId), cfg, sdp, host).1.Ok?
    ensures var (t, response) := HandlePayload(s, cfg, payload, now, host);
      var prepared := PrepareLeg(Delete(s, callId), cfg, sdp, host).1.value;
      && callId in t.sessions && t.sessions[callId] == Session(fromTag, prepared.leg, "", None, now)
      && RepliedBySize(response, prepared.rewritten)
  {
    hide ReadCommand, PrepareLeg, Delete, Send, SdpReply, RepliedBySize;
    ReplyBySize(PrepareLeg(Delete(s, callId), cfg, sdp, host).1.value.rewritten);
  }

  // So does an answer: the call counts as answered.
  lemma AnswerStaysWhateverReplied(s: State, cfg: Config, payload: bytes, now: real, host: Host,
                                   callId: string, fromTag: string, toTag: string, sdp: string)
    requires ReadCommand(payload) == Ok(AnswerCall(callId, fromTag, toTag, sdp))
    requires callId in s.sessions && s.sessions[callId].fromTag == fromTag && s.sessions[callId].answer.None?
    requires PrepareLeg(s, cfg, sdp, host).1.Ok?
    ensures var (t, response) := HandlePayload(s, cfg, payload, now, host);
      var prepared := PrepareLeg(s, cfg, sdp, host).1.value;
      && callId in t.sessions && t.sessions[callId].answer == Some(prepared.leg)
      && RepliedBySize(response, prepared.rewritten)
  {
    hide ReadCommand, PrepareLeg, Send, SdpReply, RepliedBySize;
    ReplyBySize(PrepareLeg(s, cfg, sdp, host).1.value.rewritten);
  }

  // --- The body sent back ---

  // An accepted body, when the connection line replaced is the one that routes,
  // reads as the relay's own address and exactly the port bound for the new leg.
  lemma AcceptedBodyAdvertisesLeg(s: State, cfg: Config, sdp: string, host: Host)
    requires CanonicalAt(cfg.ip, cfg.mediaIp) && ValidConfig(cfg) && PrepareLeg(s, cfg, sdp, host).1.Ok?
    requires |PrepareLeg(s, cfg, sdp, host).1.value.rewritten| <= MAX_SDP
    requires ConnectionAt(sdp) < |SplitLines(sdp)| && Routable(SplitLines(sdp), ConnectionAt(sdp), cfg.ip)
    ensures var prepared := PrepareLeg(s, cfg, sdp, host).1.value;
      var read := ParseSdp(prepared.rewritten, cfg.ip);
      && read.Ok? && read.value.address == cfg.mediaIp && read.value.port == prepared.leg.port
      && s.nextSock in PrepareLeg(s, cfg, sdp, host).0.open
      && PrepareLeg(s, cfg, sdp, host).0.open[s.nextSock] == prepared.leg.port
  {
    hide ParseSdp, RewriteSdp, FirstFree, SplitLines;
    PrepareLegCases(s, cfg, sdp, host);
    var (bound, port) := Allocate(s, cfg, host);
    RewriteThenParse(sdp, cfg.mediaIp, port.value, cfg.ip);
  }
}
