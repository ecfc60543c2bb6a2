// What every answer of the lab HSS satisfies (section 6.2 of RFC 6733), and when
// a Cx request succeeds.
module HssAnswers {
  import opened Diameter
  import opened Hss
  import opened HssApplication
  import opened Text

  predicate ValidConfig(cfg: Config) {
    |cfg.originHost| <= MAX_AVP_VALUE && |cfg.originRealm| <= MAX_AVP_VALUE
  }

  predicate AllPrintable(avps: seq<Avp>) {
    forall i :: 0 <= i < |avps| ==> Printable(avps[i])
  }

  // --- Sizes ---

  function ValueSum(avps: seq<Avp>): nat {
    if avps == [] then 0 else |avps[0].value| + ValueSum(avps[1..])
  }

  lemma {:induction false} WireAllSize(avps: seq<Avp>)
    requires forall a :: a in avps ==> Representable(a)
    ensures |WireAll(avps)| <= ValueSum(avps) + 15 * |avps|
  {
    if avps == [] {
    } else {
      WireLength(avps[0]);
      WireAllSize(avps[1..]);
    }
  }

  lemma {:induction false} ValueSumBound(avps: seq<Avp>)
    requires AllPrintable(avps)
    ensures ValueSum(avps) <= MAX_AVP_VALUE * |avps|
  {
    if avps == [] {
    } else {
      assert AllPrintable(avps[1..]);
      ValueSumBound(avps[1..]);
    }
  }

  lemma GroupSize(children: seq<Avp>)
    requires AllPrintable(children)
    ensures |Group(children)| <= ValueSum(children) + 15 * |children|
  {
    PrintAvpsIsWire(children);
    WireAllSize(children);
  }

  lemma ApplicationPrintable(application: nat)
    requires application < U32_LIMIT
    ensures Printable(VendorSpecificApplication(application))
  {
    var children := [Plain(266, U32(THREEGPP_VENDOR)), Plain(258, U32(application))];
    GroupSize(children);
    assert children[1..][1..] == [];
    assert ValueSum(children[1..]) == 4 + ValueSum([]);
  }

  lemma VectorPrintable(index: nat, d: Draw, xres: bytes)
    requires index < U32_LIMIT && |d.rand| == 16 && |d.autn| == 16 && |xres| <= 128
    ensures Printable(VectorAvp(index, d, xres))
  {
    var children := [Vendor(613, U32(index)), Vendor(608, Ascii("Digest-AKAv1-MD5")),
                     Vendor(609, d.rand + d.autn), Vendor(610, xres)];
    GroupSize(children);
    assert ValueSum(children[2..]) == |children[2].value| + ValueSum(children[3..]);
    assert children[3..][1..] == [];
    assert ValueSum(children) <= 4 + 16 + 32 + 128;
  }

  lemma {:induction false} ElementsSize(open: bytes, values: seq<bytes>, close: bytes, each: nat)
    requires forall i :: 0 <= i < |values| ==> |open| + |values[i]| + |close| <= each
    ensures |Elements(open, values, close)| <= |values| * each
  {
    if values == [] {
    } else {
      ElementsSize(open, values[1..], close, each);
      assert |values| * each == each + |values[1..]| * each;
    }
  }

  lemma ListOfSize(p: Profile, key: ProfileKey)
    requires ValidProfile(p)
    ensures |ListOf(p, key)| <= 8
    ensures forall i :: 0 <= i < |ListOf(p, key)| ==> |ListOf(p, key)[i]| <= 2048
  {
    if p != [] && p[0].0 != key && |p| == 2 {
      assert p[1..][0] == p[1];
      assert p[1..][1..] == [];
    }
  }

  lemma CxDocumentPrintable(s: Subscriber)
    requires ValidSubscriber(s)
    ensures Printable(Vendor(606, CxDocument(s)))
  {
    ListOfSize(s.profile, AssociatedUris);
    ListOfSize(s.profile, InitialFilterCriteria);
    var open := Start("PublicIdentity") + Start("Identity");
    var close := Start("/Identity") + Start("/PublicIdentity") + Ascii("\n");
    ElementsSize(Ascii(INDENT) + open, [s.publicId], close, 2200);
    ElementsSize(Ascii(INDENT) + open, ListOf(s.profile, AssociatedUris), close, 2200);
    ElementsSize(Ascii(INDENT) + Start("InitialFilterCriteria"), ListOf(s.profile, InitialFilterCriteria),
                 Start("/InitialFilterCriteria") + Ascii("\n"), 2200);
  }

  // One list of a profile takes up at most this much of the document.
  lemma ShEntrySize(p: Profile)
    requires p != [] && ValidList(p[0].0, p[0].1)
    ensures |ShEntries(p)| <= |p[0].1| * 2100 + 64 + |ShEntries(p[1..])|
  {
    ElementsSize(Ascii("<item>"), p[0].1, Ascii("</item>"), 2100);
  }

  lemma ShDocumentPrintable(p: Profile)
    requires ValidProfile(p)
    ensures Printable(Vendor(606, ShDocument(p)))
  {
    hide ShEntries, Elements;
    NoEntries();
    if p != [] {
      ShEntrySize(p);
      if |p| == 2 {
        assert p[1..][0] == p[1] && p[1..][1..] == [];
        ShEntrySize(p[1..]);
      } else {
        assert p[1..] == [];
      }
    }
    assert |ShDocument(p)| <= 24 * 2100 + 256;
  }

  lemma NoEntries()
    ensures ShEntries([]) == []
  {
  }

  // --- Profile updates keep the store valid ---

  lemma {:induction false} UpdateKeepsProfile(p: Profile, key: ProfileKey, values: seq<bytes>)
    requires ValidProfile(p) && ValidList(key, values)
    ensures ValidProfile(UpdateProfile(p, key, values))
  {
    if p != [] && p[0].0 != key {
      if |p| == 2 {
        assert p[1].0 == key && p[1..] == [p[1]];
      } else {
        assert p[1..] == [];
      }
    }
  }

  lemma {:induction false} MergeKeepsProfile(p: Profile, updates: Profile)
    requires ValidProfile(p) && ValidProfile(updates)
    ensures ValidProfile(MergeProfile(p, updates))
    decreases |updates|
  {
    if updates == [] {
    } else {
      UpdateKeepsProfile(p, updates[0].0, updates[0].1);
      MergeKeepsProfile(UpdateProfile(p, updates[0].0, updates[0].1), updates[1..]);
    }
  }

  // --- An answer made of printable AVPs ---

  ghost predicate HeaderOk(m: Message) {
    HeaderInRange(m.command, m.application, m.hopByHop, m.endToEnd)
  }

  lemma AnswerParses(request: Message, avps: seq<Avp>)
    requires HeaderOk(request) && AllPrintable(avps) && |avps| <= 15
    ensures var out := PrintAnswer(request, avps);
      && out.Answer?
      && ParseMessage(out.octets) == Ok(Message(ClearR(request.flags), request.command, request.application,
                                                request.hopByHop, request.endToEnd, avps))
      && |out.octets| % 4 == 0
  {
    PrintThenParse(avps);
    PrintAvpsIsWire(avps);
    WireAllSize(avps);
    ValueSumBound(avps);
    var body := PrintAvps(avps).value;
    BuildThenParse(ClearR(request.flags), request.command, request.application,
                   request.hopByHop, request.endToEnd, body);
    ParseThenBuild(PrintAnswer(request, avps).octets);
  }

  predicate SessionTooLong(request: Message) {
    request.Find(263, None).Some? && |request.Find(263, None).value| > MAX_AVP_VALUE
  }

  lemma CommonPrintable(cfg: Config, request: Message, result: nat)
    requires ValidConfig(cfg) && result < U32_LIMIT && !SessionTooLong(request)
    ensures AllPrintable(CommonAvps(cfg, request, result)) && |CommonAvps(cfg, request, result)| <= 6
    ensures FindAvp(CommonAvps(cfg, request, result), 268, None) == Some(U32(result))
  {
    ApplicationPrintable(CX_APPLICATION);
    var avps := CommonAvps(cfg, request, result);
    var at := if request.Find(263, None).Some? then 3 else 2;
    assert avps[at] == Plain(268, U32(result));
    FindAt(avps, 268, None, at);
  }

  lemma {:induction false} FindAt(avps: seq<Avp>, code: nat, vendor: Option<nat>, at: nat)
    requires at < |avps| && avps[at].code == code && avps[at].vendor == vendor
    requires forall i :: 0 <= i < at ==> avps[i].code != code
    ensures FindAvp(avps, code, vendor) == Some(avps[at].value)
  {
    if at == 0 {
    } else {
      FindAt(avps[1..], code, vendor, at - 1);
    }
  }

  lemma {:induction false} FindInFront(avps: seq<Avp>, rest: seq<Avp>, code: nat, vendor: Option<nat>)
    requires FindAvp(avps, code, vendor).Some?
    ensures FindAvp(avps + rest, code, vendor) == FindAvp(avps, code, vendor)
  {
    assert (avps + rest)[1..] == avps[1..] + rest;
    if !(avps[0].code == code && avps[0].vendor == vendor) {
      FindInFront(avps[1..], rest, code, vendor);
    }
  }

  // An answer by code is well shaped and carries that code, unless the echoed
  // Session-Id is too long to print.
  lemma AnswerWithShape(cfg: Config, request: Message, result: nat, extra: seq<Avp>)
    requires ValidConfig(cfg) && HeaderOk(request) && result < U32_LIMIT
    requires AllPrintable(extra) && |extra| <= 5
    ensures var out := AnswerWith(cfg, request, result, extra);
      && (SessionTooLong(request) ==> out.Raised?)
      && (!SessionTooLong(request) ==>
            && out.Answer?
            && ParseMessage(out.octets).Ok?
            && var a := ParseMessage(out.octets).value;
               && SameExchange(request, a) && |out.octets| % 4 == 0
               && a.avps == CommonAvps(cfg, request, result) + extra
               && a.Find(268, None) == Some(U32(result)))
  {
    if !SessionTooLong(request) {
      CommonPrintable(cfg, request, result);
      FindInFront(CommonAvps(cfg, request, result), extra, 268, None);
      AnswerParses(request, CommonAvps(cfg, request, result) + extra);
    }
  }

  predicate SameExchange(request: Message, answer: Message) {
    && answer.command == request.command && answer.application == request.application
    && answer.hopByHop == request.hopByHop && answer.endToEnd == request.endToEnd
    && answer.flags == ClearR(request.flags) && answer.flags < 0x80
  }

  // --- Every outcome of the handler ---

  // Outside capability exchange, handling ends in one answer by result code.
  ghost predicate AnswersWith(cfg: Config, request: Message, out: Outcome, result: nat, extra: seq<Avp>) {
    result < U32_LIMIT && AllPrintable(extra) && |extra| <= 5 && out == AnswerWith(cfg, request, result, extra)
  }

  lemma MarShape(cfg: Config, s: State, request: Message, xres: bytes, privateId: bytes, draws: seq<Draw>)
    returns (result: nat, extra: seq<Avp>)
    requires ValidDraws(draws) && |xres| <= 128
    ensures AnswersWith(cfg, request, HandleMar(cfg, s, request, xres, privateId, draws).1, result, extra)
    ensures result == RESULT_SUCCESS <==> JudgeMar(s.lastRand, MarItem(request), privateId).Issue?
    ensures HandleMar(cfg, s, request, xres, privateId, draws).0.store == s.store
  {
    var verdict := JudgeMar(s.lastRand, MarItem(request), privateId);
    if verdict.Refuse? {
      result, extra := verdict.result, [];
    } else {
      var some := draws[..MarCount(request)];
      result, extra := RESULT_SUCCESS, VectorAvps(some, xres);
      forall i | 0 <= i < |extra| ensures Printable(extra[i]) {
        VectorPrintable(i, some[i], xres);
      }
    }
  }

  // A profile update of a stored identity whose text the decoder fails on.
  predicate DecoderFails(s: State, request: Message, decode: bytes -> Decoded) {
    && IsRequest(request) && request.application == SH_APPLICATION && request.command == 307
    && PublicIdOf(request) != [] && Find(s.store, PublicIdOf(request), None).Some?
    && var data := request.Find(606, Some(THREEGPP_VENDOR));
       data.Some? && |data.value| <= MAX_PROFILE_BYTES && decode(data.value).Escapes?
  }

  lemma ShEscapes(cfg: Config, s: State, request: Message, draws: seq<Draw>, decode: bytes -> Decoded)
    requires ValidDraws(draws) && DecoderFails(s, request, decode)
    ensures Dispatch(cfg, s, request, draws, decode) == (s, Raised)
  {
    hide SafeAscii;
  }

  lemma ShShape(cfg: Config, s: State, request: Message, decode: bytes -> Decoded)
    returns (result: nat, extra: seq<Avp>)
    requires ValidStore(s.store) && IsRequest(request) && request.application == SH_APPLICATION
    requires !DecoderFails(s, request, decode)
    ensures AnswersWith(cfg, request, HandleSh(cfg, s, request, decode).1, result, extra)
    ensures ValidStore(HandleSh(cfg, s, request, decode).0.store)
  {
    hide ShDocument, SafeAscii, ReadU32, CommonAvps, PrintAnswer, MergeProfile, ValidProfile;
    var (t, out) := HandleSh(cfg, s, request, decode);
    var publicId := PublicIdOf(request);
    var at := if publicId == [] then |s.store| else FindIndex(s.store, publicId, None);
    result, extra := RESULT_SUCCESS, [];
    if out == AnswerWith(cfg, request, RESULT_UNKNOWN_USER, []) {
      result := RESULT_UNKNOWN_USER;
    } else if out == AnswerWith(cfg, request, RESULT_UNSUPPORTED, []) {
      result := RESULT_UNSUPPORTED;
    } else if request.command == 306 {
      extra := [Vendor(606, ShDocument(s.store[at].profile))];
      ShDocumentPrintable(s.store[at].profile);
    }
    if t.store != s.store {
      var data := request.Find(606, Some(THREEGPP_VENDOR)).value;
      MergeKeepsProfile(s.store[at].profile, decode(data).candidate);
    }
  }

  lemma CxSubscriberStored(s: State, request: Message)
    requires CxSubscriber(s, request).Some?
    ensures CxSubscriber(s, request).value in s.store && CxSubscriber(s, request).value.enabled
    ensures CxSubscriber(s, request).value.publicId == PublicIdOf(request)
    ensures PrivateIdOf(request) != [] ==> CxSubscriber(s, request).value.privateId == PrivateIdOf(request)
  {
  }

  lemma CxShape(cfg: Config, s: State, request: Message, draws: seq<Draw>)
    returns (result: nat, extra: seq<Avp>)
    requires ValidDraws(draws) && ValidStore(s.store)
    ensures AnswersWith(cfg, request, HandleCx(cfg, s, request, draws).1, result, extra)
    ensures HandleCx(cfg, s, request, draws).0.store == s.store
    ensures result == RESULT_SUCCESS <==> CxSucceeds(s, request)
  {
    hide CxDocument, SafeAscii, CommonAvps, PrintAnswer, JudgeMar, HandleMar;
    var found := CxSubscriber(s, request);
    result, extra := RESULT_UNKNOWN_USER, [];
    if found.Some? && ServerAccepted(request, found.value) {
      CxSubscriberStored(s, request);
      if request.command == 303 {
        result, extra := MarShape(cfg, s, request, found.value.xres, PrivateIdOf(request), draws);
      } else if request.command == 301 {
        result, extra := RESULT_SUCCESS, [Vendor(602, found.value.serverName), Vendor(606, CxDocument(found.value))];
        CxDocumentPrintable(found.value);
      } else if request.command in {300, 302} {
        result, extra := RESULT_SUCCESS, [Vendor(602, found.value.serverName)];
      } else {
        result := RESULT_UNSUPPORTED;
      }
    }
  }

  // When a Cx request is to succeed.
  predicate CxSucceeds(s: State, request: Message) {
    var found := CxSubscriber(s, request);
    && found.Some?
    && ServerAccepted(request, found.value)
    && (request.command in {300, 301, 302}
        || (request.command == 303 && JudgeMar(s.lastRand, MarItem(request), PrivateIdOf(request)).Issue?))
  }

  predicate IsCx(request: Message) {
    IsRequest(request) && request.application == CX_APPLICATION
  }

  lemma DispatchShape(cfg: Config, s: State, request: Message, draws: seq<Draw>, decode: bytes -> Decoded)
    returns (result: nat, extra: seq<Avp>)
    requires ValidDraws(draws) && ValidStore(s.store) && !IsCapabilities(request)
    requires !DecoderFails(s, request, decode)
    ensures AnswersWith(cfg, request, Dispatch(cfg, s, request, draws, decode).1, result, extra)
    ensures ValidStore(Dispatch(cfg, s, request, draws, decode).0.store)
    ensures IsCx(request) ==> (result == RESULT_SUCCESS <==> CxSucceeds(s, request))
  {
    if request.command == 280 && request.application == 0 && IsRequest(request) {
      result, extra := RESULT_SUCCESS, [];
    } else if !IsRequest(request) {
      result, extra := RESULT_UNSUPPORTED, [];
    } else if request.application == SH_APPLICATION && 306 <= request.command <= 309 {
      result, extra := ShShape(cfg, s, request, decode);
    } else if request.application != CX_APPLICATION {
      result, extra := RESULT_UNSUPPORTED, [];
    } else {
      result, extra := CxShape(cfg, s, request, draws);
    }
  }

  lemma CapabilitiesPrintable(cfg: Config)
    requires ValidConfig(cfg)
    ensures AllPrintable(CapabilitiesAvps(cfg)) && |CapabilitiesAvps(cfg)| == 10
  {
    ApplicationPrintable(CX_APPLICATION);
    ApplicationPrintable(SH_APPLICATION);
  }

  lemma ParsedHeaderOk(raw: bytes)
    requires ParseMessage(raw).Ok?
    ensures HeaderOk(ParseMessage(raw).value)
  {
  }

  // Input that does not parse gets no answer.  Everything else gets one parseable
  // answer in the same exchange with the R bit clear, except exactly the requests
  // whose Session-Id is longer than an AVP can be printed and the profile updates on
  // which the JSON decoder fails.
  lemma EveryRequestAnswered(cfg: Config, s: State, input: Input)
    requires ValidConfig(cfg) && ValidStore(s.store) && ValidDraws(input.draws)
    ensures var (t, out) := Handle(cfg, s, input);
      var parsed := ParseMessage(input.raw);
      && ValidStore(t.store)
      && (out.NoAnswer? <==> parsed.Err?)
      && (out.Raised? <==>
            && parsed.Ok? && !IsCapabilities(parsed.value)
            && (SessionTooLong(parsed.value) || DecoderFails(s, parsed.value, input.decode)))
      && (out.Answer? ==>
            && ParseMessage(out.octets).Ok?
            && SameExchange(parsed.value, ParseMessage(out.octets).value)
            && |out.octets| % 4 == 0)
  {
    var parsed := ParseMessage(input.raw);
    if parsed.Ok? {
      ParsedHeaderOk(input.raw);
      if IsCapabilities(parsed.value) {
        CapabilitiesPrintable(cfg);
        AnswerParses(parsed.value, CapabilitiesAvps(cfg));
      } else if DecoderFails(s, parsed.value, input.decode) {
        ShEscapes(cfg, s, parsed.value, input.draws, input.decode);
      } else {
        var result, extra := DispatchShape(cfg, s, parsed.value, input.draws, input.decode);
        AnswerWithShape(cfg, parsed.value, result, extra);
      }
    }
  }

  // Such requests can arrive: every Session-Id of this length that fits a message
  // makes one.
  lemma LongSessionRaises(cfg: Config, s: State, draws: seq<Draw>, decode: bytes -> Decoded, session: bytes)
    requires ValidConfig(cfg) && ValidStore(s.store) && ValidDraws(draws)
    requires MAX_AVP_VALUE < |session| <= MAX_DIAMETER - 32
    ensures Representable(Avp(263, 0x40, None, session))
    ensures var raw := BuildMessage(0x80, 303, CX_APPLICATION, 0, 0, Wire(Avp(263, 0x40, None, session)));
      raw.Ok? && Handle(cfg, s, Input(raw.value, draws, decode)).1.Raised?
  {
    hide Handle, ParseAvps, Wire, ValidConfig, ValidStore, Dispatch;
    var a := Avp(263, 0x40, None, session);
    WireLength(a);
    assert WireAll([a]) == Wire(a) by { assert [a][1..] == []; }
    ParseOfWireAll([a]);
    var raw := BuildMessage(0x80, 303, CX_APPLICATION, 0, 0, Wire(a));
    BuildThenParse(0x80, 303, CX_APPLICATION, 0, 0, Wire(a));
    var m := ParseMessage(raw.value).value;
    assert m.avps == [a];
    assert m.Find(263, None) == Some(session);
    EveryRequestAnswered(cfg, s, Input(raw.value, draws, decode));
  }

  // A profile update for one identity, as it is received.
  function UpdateRequest(publicId: bytes, data: bytes): Result<bytes> {
    var body := PrintAvps(UpdateAvps(publicId, data));
    if body.Err? then body else BuildMessage(0x80, 307, SH_APPLICATION, 0, 0, body.value)
  }

  function UpdateAvps(publicId: bytes, data: bytes): seq<Avp> { [Vendor(601, publicId), Vendor(606, data)] }

  // A JSON object whose only value is a list nested this deep.
  function NestedObject(depth: nat): bytes { [123, 34, 97, 34, 58] + seq(depth, _ => 91) }

  lemma UpdateReceived(publicId: bytes, data: bytes)
    requires 1 <= |publicId| <= 2048 && |data| <= MAX_PROFILE_BYTES
    ensures AllPrintable(UpdateAvps(publicId, data))
    ensures var raw := UpdateRequest(publicId, data);
      raw.Ok? && ParseMessage(raw.value) == Ok(Message(0x80, 307, SH_APPLICATION, 0, 0, UpdateAvps(publicId, data)))
  {
    hide ParseAvps, ParseMessage;
    var avps := UpdateAvps(publicId, data);
    PrintThenParse(avps);
    PrintAvpsIsWire(avps);
    WireAllSize(avps);
    ValueSumBound(avps);
    BuildThenParse(0x80, 307, SH_APPLICATION, 0, 0, PrintAvps(avps).value);
  }

  // A JSON text nested too deep for the decoder, short as it is, raises for any
  // stored identity.
  lemma DeepUpdateRaises(cfg: Config, s: State, draws: seq<Draw>, decode: bytes -> Decoded, publicId: bytes, depth: nat)
    requires ValidConfig(cfg) && ValidStore(s.store) && ValidDraws(draws)
    requires 1 <= |publicId| <= 2048 && IsPrintableAscii(publicId) && Find(s.store, publicId, None).Some?
    requires depth <= MAX_PROFILE_BYTES - 5 && decode(NestedObject(depth)).Escapes?
    ensures var raw := UpdateRequest(publicId, NestedObject(depth));
      raw.Ok? && Handle(cfg, s, Input(raw.value, draws, decode)) == (s, Raised)
  {
    hide UpdateRequest, ParseMessage, Dispatch, ValidConfig, ValidStore, NestedObject;
    var data := NestedObject(depth);
    NestedSize(depth);
    UpdateReceived(publicId, data);
    var m := ParseMessage(UpdateRequest(publicId, data).value).value;
    assert m.Find(601, Some(THREEGPP_VENDOR)) == Some(publicId);
    FindAt(m.avps, 606, Some(THREEGPP_VENDOR), 1);
    assert DecoderFails(s, m, decode);
    ShEscapes(cfg, s, m, draws, decode);
  }

  lemma NestedSize(depth: nat)
    ensures |NestedObject(depth)| == depth + 5
  {
  }

  // A Cx request is answered with success exactly when its subscriber is stored,
  // enabled and served by the named server, and a MAR also names a usable RAND.
  lemma CxSuccessIff(cfg: Config, s: State, input: Input)
    requires ValidConfig(cfg) && ValidStore(s.store) && ValidDraws(input.draws)
    requires ParseMessage(input.raw).Ok? && IsCx(ParseMessage(input.raw).value)
    requires Handle(cfg, s, input).1.Answer?
    ensures var request := ParseMessage(input.raw).value;
      var answer := ParseMessage(Handle(cfg, s, input).1.octets);
      && answer.Ok?
      && (answer.value.Find(268, None) == Some(U32(RESULT_SUCCESS)) <==> CxSucceeds(s, request))
      && (CxSucceeds(s, request) ==>
            exists item :: item in s.store && item.enabled && item.publicId == PublicIdOf(request)
              && (PrivateIdOf(request) != [] ==> item.privateId == PrivateIdOf(request))
              && ServerAccepted(request, item))
  {
    var request := ParseMessage(input.raw).value;
    ParsedHeaderOk(input.raw);
    var result, extra := DispatchShape(cfg, s, request, input.draws, input.decode);
    AnswerWithShape(cfg, request, result, extra);
    U32RoundTrip(result);
    U32RoundTrip(RESULT_SUCCESS);
    if CxSucceeds(s, request) { CxSubscriberStored(s, request); }
  }
}
