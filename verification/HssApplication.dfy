// Request handling of the lab HSS (lab/ims_hss.py, class HssApplication).
module HssApplication {
  import opened Diameter
  import opened Hss
  import opened Text

  // --- Printed AVPs, as the adapter's helpers make them ---

  function Plain(code: nat, value: bytes): Avp { Avp(code, 0x40, None, value) }

  function Vendor(code: nat, value: bytes): Avp { Avp(code, 0xC0, Some(THREEGPP_VENDOR), value) }

  // The octets of a grouped AVP's children; the callers only group printable ones.
  function Group(children: seq<Avp>): bytes {
    var printed := PrintAvps(children);
    if printed.Ok? then printed.value else []
  }

  function VendorSpecificApplication(application: nat): Avp
    requires application < U32_LIMIT
  {
    Plain(260, Group([Plain(266, U32(THREEGPP_VENDOR)), Plain(258, U32(application))]))
  }

  // --- Profile documents ---

  function KeyName(key: ProfileKey): bytes {
    if key.AssociatedUris? then Ascii("associated_uris") else Ascii("initial_filter_criteria")
  }

  function Elements(open: bytes, values: seq<bytes>, close: bytes): bytes {
    if values == [] then [] else open + values[0] + close + Elements(open, values[1..], close)
  }

  function ShEntries(p: Profile): bytes {
    if p == [] then []
    else
      Ascii("<") + KeyName(p[0].0) + Ascii(">")
      + Elements(Ascii("<item>"), p[0].1, Ascii("</item>"))
      + Ascii("</") + KeyName(p[0].0) + Ascii(">") + ShEntries(p[1..])
  }

  function XmlHead(): bytes { Ascii("<?xml version=\"1.0\"") + Ascii(" encoding=\"UTF-8\"?>") }

  function ShDocument(p: Profile): bytes {
    XmlHead() + Ascii("<Sh-Data>") + ShEntries(p) + Ascii("</Sh-Data>")
  }

  function ListOf(p: Profile, key: ProfileKey): seq<bytes> {
    if p == [] then [] else if p[0].0 == key then p[0].1 else ListOf(p[1..], key)
  }

  function Start(tag: string): bytes { Ascii("<" + tag + ">") }

  const INDENT := "    "

  function CxDocument(s: Subscriber): bytes {
    var open := Start("PublicIdentity") + Start("Identity");
    var close := Start("/Identity") + Start("/PublicIdentity") + Ascii("\n");
    XmlHead() + Ascii("\n") + Start("IMSSubscription") + Ascii("\n  ")
    + (open + s.publicId + close) + Ascii("  ") + Start("ServiceProfile") + Ascii("\n")
    + Elements(Ascii(INDENT) + open, [s.publicId], close)
    + Elements(Ascii(INDENT) + open, ListOf(s.profile, AssociatedUris), close)
    + Elements(Ascii(INDENT) + Start("InitialFilterCriteria"), ListOf(s.profile, InitialFilterCriteria),
               Start("/InitialFilterCriteria") + Ascii("\n"))
    + Ascii("  ") + Start("/ServiceProfile") + Ascii("\n") + Start("/IMSSubscription")
  }

  // --- State and inputs ---

  datatype Config = Config(originHost: bytes, originRealm: bytes)

  datatype State = State(
    store: seq<Subscriber>, lastRand: map<bytes, bytes>, shSubscriptions: map<(bytes, nat), set<bytes>>)

  // One random challenge: RAND and the AUTN-like tag.
  datatype Draw = Draw(rand: bytes, autn: bytes)

  // What comes of decoding a Sh profile update: text that is no JSON object, one
  // of the errors the handler catches, a profile, or an error it does not catch, as
  // when the JSON is nested deeper than the decoder can follow.
  datatype Decoded = Opaque | Malformed | Json(candidate: Profile, jsonLength: nat) | Escapes

  // One request with everything nondeterministic about handling it.
  datatype Input = Input(raw: bytes, draws: seq<Draw>, decode: bytes -> Decoded)

  // Raised: an error escapes the handler and the connection ends unanswered.
  datatype Outcome = NoAnswer | Answer(octets: bytes) | Raised

  predicate ValidDraws(draws: seq<Draw>) {
    |draws| == 5 && forall i :: 0 <= i < 5 ==> |draws[i].rand| == 16 && |draws[i].autn| == 16
  }

  // --- Answers ---

  function ClearR(flags: byte): byte { if flags >= 0x80 then flags - 0x80 else flags }

  function CommonAvps(cfg: Config, request: Message, result: nat): seq<Avp>
    requires result < U32_LIMIT
  {
    var session := request.Find(263, None);
    (if session.Some? then [Plain(263, session.value)] else [])
    + [Plain(264, cfg.originHost), Plain(296, cfg.originRealm), Plain(268, U32(result)), Plain(277, U32(1))]
    + (if request.application == CX_APPLICATION then [VendorSpecificApplication(CX_APPLICATION)] else [])
  }

  function PrintAnswer(request: Message, avps: seq<Avp>): Outcome {
    var body := PrintAvps(avps);
    if body.Err? then Raised
    else
      var message := BuildMessage(ClearR(request.flags), request.command, request.application,
                                  request.hopByHop, request.endToEnd, body.value);
      if message.Err? then Raised else Answer(message.value)
  }

  function AnswerWith(cfg: Config, request: Message, result: nat, extra: seq<Avp>): Outcome
    requires result < U32_LIMIT
  {
    PrintAnswer(request, CommonAvps(cfg, request, result) + extra)
  }

  function CapabilitiesAvps(cfg: Config): seq<Avp> {
    [Plain(264, cfg.originHost), Plain(296, cfg.originRealm), Plain(268, U32(RESULT_SUCCESS)),
     Plain(257, [0, 1, 0x7f, 0, 0, 1]), Plain(265, U32(THREEGPP_VENDOR)), Plain(266, U32(THREEGPP_VENDOR)),
     Plain(269, Ascii("madis-lab-hss")), Plain(258, U32(4)),
     VendorSpecificApplication(CX_APPLICATION), VendorSpecificApplication(SH_APPLICATION)]
  }

  // --- Authentication vectors ---

  function VectorAvp(index: nat, d: Draw, xres: bytes): Avp
    requires index < U32_LIMIT
  {
    Vendor(612, Group([Vendor(613, U32(index)), Vendor(608, Ascii("Digest-AKAv1-MD5")),
                       Vendor(609, d.rand + d.autn), Vendor(610, xres)]))
  }

  function VectorAvps(draws: seq<Draw>, xres: bytes): seq<Avp>
    requires |draws| < U32_LIMIT
  {
    seq(|draws|, i requires 0 <= i < |draws| => VectorAvp(i, draws[i], xres))
  }

  function Remember(lastRand: map<bytes, bytes>, privateId: bytes, rand: bytes): map<bytes, bytes> {
    if privateId == [] then lastRand else lastRand[privateId := rand]
  }

  // Fields of the SIP-Auth-Data-Item in a MAR; the last of each kind counts.
  datatype AuthItem = AuthItem(scheme: bytes, authenticate: Option<bytes>, authorization: Option<bytes>)

  function AuthItemOf(nested: seq<Avp>): AuthItem {
    if nested == [] then AuthItem([], None, None)
    else
      var before, last := AuthItemOf(nested[..|nested| - 1]), nested[|nested| - 1];
      if last.vendor != Some(THREEGPP_VENDOR) then before
      else if last.code == 608 then before.(scheme := SafeAscii(Some(last.value), 128))
      else if last.code == 609 then before.(authenticate := Some(last.value))
      else if last.code == 610 then before.(authorization := Some(last.value))
      else before
  }

  function MarItem(request: Message): AuthItem {
    var item := request.Find(612, Some(THREEGPP_VENDOR));
    if item.None? then AuthItem([], None, None)
    else
      var nested := ParseAvps(item.value);
      if nested.Err? then AuthItem([], None, None) else AuthItemOf(nested.value)
  }

  function MarCount(request: Message): (count: nat)
    ensures 1 <= count <= 5
  {
    var raw := request.Find(607, Some(THREEGPP_VENDOR));
    if raw.None? || |raw.value| != 4 then 1
    else
      var value := ReadU32(raw.value);
      if value < 1 then 1 else if value > 5 then 5 else value
  }

  datatype MarVerdict = Refuse(result: nat) | Issue

  function FirstSixteen(b: bytes): bytes { if |b| >= 16 then b[..16] else b }

  // Resynchronisation must name the RAND last issued to this private identity.
  function JudgeMar(lastRand: map<bytes, bytes>, item: AuthItem, privateId: bytes): MarVerdict {
    if item.scheme != Ascii("Digest-AKAv1-MD5") then Refuse(RESULT_UNSUPPORTED)
    else if item.authorization.Some? && item.authorization.value != [] then
      if !(8 <= |item.authorization.value| <= 32) then Refuse(RESULT_UNSUPPORTED)
      else if item.authenticate.None? || !(8 <= |item.authenticate.value| <= 64) then Refuse(RESULT_UNSUPPORTED)
      else if privateId !in lastRand || lastRand[privateId] != FirstSixteen(item.authenticate.value) then
        Refuse(RESULT_UNKNOWN_USER)
      else Issue
    else Issue
  }

  // --- The handler ---

  function HandleMar(cfg: Config, s: State, request: Message, xres: bytes, privateId: bytes, draws: seq<Draw>): (State, Outcome)
    requires ValidDraws(draws)
  {
    var verdict := JudgeMar(s.lastRand, MarItem(request), privateId);
    if verdict.Refuse? && verdict.result < U32_LIMIT then (s, AnswerWith(cfg, request, verdict.result, []))
    else
      var count := MarCount(request);
      (s.(lastRand := Remember(s.lastRand, privateId, draws[0].rand)),
       AnswerWith(cfg, request, RESULT_SUCCESS, VectorAvps(draws[..count], xres)))
  }

  function HandleSh(cfg: Config, s: State, request: Message, decode: bytes -> Decoded): (State, Outcome) {
    var publicId := SafeAscii(request.Find(601, Some(THREEGPP_VENDOR)), 2048);
    var at := if publicId == [] then |s.store| else FindIndex(s.store, publicId, None);
    if request.command == 309 then (s, AnswerWith(cfg, request, RESULT_SUCCESS, []))
    else if at == |s.store| then (s, AnswerWith(cfg, request, RESULT_UNKNOWN_USER, []))
    else
      var item := s.store[at];
      if request.command == 306 then
        (s, AnswerWith(cfg, request, RESULT_SUCCESS, [Vendor(606, ShDocument(item.profile))]))
      else if request.command == 307 then
        var data := request.Find(606, Some(THREEGPP_VENDOR));
        if data.None? || |data.value| > MAX_PROFILE_BYTES then
          (s, AnswerWith(cfg, request, RESULT_UNSUPPORTED, []))
        else
          match decode(data.value)
          case Opaque => (s, AnswerWith(cfg, request, RESULT_SUCCESS, []))
          case Malformed => (s, AnswerWith(cfg, request, RESULT_UNSUPPORTED, []))
          case Escapes => (s, Raised)
          case Json(candidate, jsonLength) =>
            if !ValidProfile(candidate) || jsonLength > MAX_PROFILE_BYTES then
              (s, AnswerWith(cfg, request, RESULT_UNSUPPORTED, []))
            else
              (s.(store := s.store[at := item.(profile := MergeProfile(item.profile, candidate))]),
               AnswerWith(cfg, request, RESULT_SUCCESS, []))
      else
        var reference := request.Find(703, Some(THREEGPP_VENDOR));
        var key := (publicId, if reference.Some? && |reference.value| == 4 then ReadU32(reference.value) else 0);
        var indication := SafeAscii(request.Find(704, Some(THREEGPP_VENDOR)), 256);
        var existing := if key in s.shSubscriptions then s.shSubscriptions[key] else {};
        var updated := if indication == [] then existing else existing + {indication};
        (s.(shSubscriptions := s.shSubscriptions[key := updated]), AnswerWith(cfg, request, RESULT_SUCCESS, []))
  }

  function PrivateIdOf(request: Message): bytes { SafeAscii(request.Find(1, None), 1024) }

  function PublicIdOf(request: Message): bytes {
    SafeAscii(request.Find(601, Some(THREEGPP_VENDOR)), 2048)
  }

  function ServerOf(request: Message): bytes {
    SafeAscii(request.Find(602, Some(THREEGPP_VENDOR)), 2048)
  }

  // The subscriber a Cx request is about; with a private identity it must match.
  function CxSubscriber(s: State, request: Message): Option<Subscriber> {
    var privateId := PrivateIdOf(request);
    var item := Find(s.store, PublicIdOf(request), if privateId == [] then None else Some(privateId));
    if item.None? || !item.value.enabled then None else item
  }

  predicate ServerAccepted(request: Message, item: Subscriber) {
    request.command in {300, 301} && ServerOf(request) != [] ==> ServerOf(request) == item.serverName
  }

  function HandleCx(cfg: Config, s: State, request: Message, draws: seq<Draw>): (State, Outcome)
    requires ValidDraws(draws)
  {
    var found := CxSubscriber(s, request);
    if found.None? then (s, AnswerWith(cfg, request, RESULT_UNKNOWN_USER, []))
    else
      var item := found.value;
      if !ServerAccepted(request, item) then (s, AnswerWith(cfg, request, RESULT_UNKNOWN_USER, []))
      else if request.command == 300 || request.command == 302 then
        (s, AnswerWith(cfg, request, RESULT_SUCCESS, [Vendor(602, item.serverName)]))
      else if request.command == 301 then
        (s, AnswerWith(cfg, request, RESULT_SUCCESS, [Vendor(602, item.serverName), Vendor(606, CxDocument(item))]))
      else if request.command == 303 then HandleMar(cfg, s, request, item.xres, PrivateIdOf(request), draws)
      else (s, AnswerWith(cfg, request, RESULT_UNSUPPORTED, []))
  }

  predicate IsRequest(m: Message) { m.flags >= 0x80 }

  predicate IsCapabilities(m: Message) { m.command == 257 && m.application == 0 && IsRequest(m) }

  function Dispatch(cfg: Config, s: State, request: Message, draws: seq<Draw>, decode: bytes -> Decoded): (State, Outcome)
    requires ValidDraws(draws)
  {
    if IsCapabilities(request) then (s, PrintAnswer(request, CapabilitiesAvps(cfg)))
    else if request.command == 280 && request.application == 0 && IsRequest(request) then
      (s, AnswerWith(cfg, request, RESULT_SUCCESS, []))
    else if !IsRequest(request) then (s, AnswerWith(cfg, request, RESULT_UNSUPPORTED, []))
    else if request.application == SH_APPLICATION && 306 <= request.command <= 309 then
      HandleSh(cfg, s, request, decode)
    else if request.application != CX_APPLICATION then (s, AnswerWith(cfg, request, RESULT_UNSUPPORTED, []))
    else HandleCx(cfg, s, request, draws)
  }

  function Handle(cfg: Config, s: State, input: Input): (State, Outcome)
    requires ValidDraws(input.draws)
  {
    var request := ParseMessage(input.raw);
    if request.Err? then (s, NoAnswer)
    else Dispatch(cfg, s, request.value, input.draws, input.decode)
  }

  // --- The handler as the adapter runs it ---

  class Application {
    const cfg: Config
    const store: HssStore
    var lastRand: map<bytes, bytes>
    var shSubscriptions: map<(bytes, nat), set<bytes>>

    constructor (store: HssStore, cfg: Config)
      ensures this.store == store && this.cfg == cfg && lastRand == map[] && shSubscriptions == map[]
    {
      this.store, this.cfg := store, cfg;
      lastRand, shSubscriptions := map[], map[];
    }

    ghost function View(): State
      reads this, store
    {
      State(store.items, lastRand, shSubscriptions)
    }

    method IssueVectors(privateId: bytes, xres: bytes, count: nat, draws: seq<Draw>) returns (avps: seq<Avp>)
      requires 1 <= count <= 5 && ValidDraws(draws)
      modifies this`lastRand
      ensures avps == VectorAvps(draws[..count], xres)
      ensures lastRand == Remember(old(lastRand), privateId, draws[0].rand)
    {
      avps := [];
      var firstRand: Option<bytes> := None;
      var index := 0;
      while index < count
        invariant 0 <= index <= count
        invariant avps == VectorAvps(draws[..index], xres)
        invariant firstRand == if index == 0 then None else Some(draws[0].rand)
      {
        if firstRand.None? { firstRand := Some(draws[index].rand); }
        avps := avps + [VectorAvp(index, draws[index], xres)];
        index := index + 1;
      }
      if firstRand.Some? && privateId != [] {
        lastRand := lastRand[privateId := firstRand.value];
      }
    }

    method ReadAuthItem(nested: seq<Avp>) returns (item: AuthItem)
      ensures item == AuthItemOf(nested)
    {
      item := AuthItem([], None, None);
      var i := 0;
      while i < |nested|
        invariant 0 <= i <= |nested| && item == AuthItemOf(nested[..i])
      {
        assert nested[..i + 1][..i] == nested[..i];
        var avp := nested[i];
        if avp.vendor == Some(THREEGPP_VENDOR) {
          if avp.code == 608 { item := item.(scheme := SafeAscii(Some(avp.value), 128)); }
          else if avp.code == 609 { item := item.(authenticate := Some(avp.value)); }
          else if avp.code == 610 { item := item.(authorization := Some(avp.value)); }
        }
        i := i + 1;
      }
      assert nested[..i] == nested;
    }

    method HandleMarRequest(request: Message, item: Subscriber, privateId: bytes, draws: seq<Draw>) returns (out: Outcome)
      requires ValidDraws(draws)
      modifies this`lastRand
      ensures (View(), out) == HandleMar(cfg, old(View()), request, item.xres, privateId, draws)
    {
      hide AnswerWith, VectorAvps, ParseAvps, AuthItemOf, MarCount, Ascii;
      var authItem := AuthItem([], None, None);
      var raw := request.Find(612, Some(THREEGPP_VENDOR));
      if raw.Some? {
        var nested := ParseAvpsLoop(raw.value);
        if nested.Ok? { authItem := ReadAuthItem(nested.value); }
      }
      if authItem.scheme != Ascii("Digest-AKAv1-MD5") { return AnswerWith(cfg, request, RESULT_UNSUPPORTED, []); }
      var count := MarCount(request);
      if authItem.authorization.Some? && |authItem.authorization.value| > 0 {
        var auts := authItem.authorization.value;
        if !(8 <= |auts| <= 32) { return AnswerWith(cfg, request, RESULT_UNSUPPORTED, []); }
        if authItem.authenticate.None? || !(8 <= |authItem.authenticate.value| <= 64) {
          return AnswerWith(cfg, request, RESULT_UNSUPPORTED, []);
        }
        var rand := FirstSixteen(authItem.authenticate.value);
        if privateId !in lastRand || lastRand[privateId] != rand {
          return AnswerWith(cfg, request, RESULT_UNKNOWN_USER, []);
        }
      }
      var vectors := IssueVectors(privateId, item.xres, count, draws);
      return AnswerWith(cfg, request, RESULT_SUCCESS, vectors);
    }

    method HandleShRequest(request: Message, decode: bytes -> Decoded) returns (out: Outcome)
      modifies this`shSubscriptions, store
      ensures (View(), out) == HandleSh(cfg, old(View()), request, decode)
    {
      var publicId := PublicIdOf(request);
      var at := |store.items|;
      if publicId != [] { at := FindIndex(store.items, publicId, None); }
      if request.command == 309 { return AnswerWith(cfg, request, RESULT_SUCCESS, []); }
      if at == |store.items| { return AnswerWith(cfg, request, RESULT_UNKNOWN_USER, []); }
      var item := store.items[at];
      if request.command == 306 {
        return AnswerWith(cfg, request, RESULT_SUCCESS, [Vendor(606, ShDocument(item.profile))]);
      }
      if request.command == 307 {
        var data := request.Find(606, Some(THREEGPP_VENDOR));
        if data.None? || |data.value| > MAX_PROFILE_BYTES { return AnswerWith(cfg, request, RESULT_UNSUPPORTED, []); }
        match decode(data.value) {
          case Opaque =>
          case Malformed => return AnswerWith(cfg, request, RESULT_UNSUPPORTED, []);
          case Escapes => return Raised;
          case Json(candidate, jsonLength) =>
            if !ValidProfile(candidate) || jsonLength > MAX_PROFILE_BYTES {
              return AnswerWith(cfg, request, RESULT_UNSUPPORTED, []);
            }
            store.items := store.items[at := item.(profile := MergeProfile(item.profile, candidate))];
        }
        return AnswerWith(cfg, request, RESULT_SUCCESS, []);
      }
      var reference := request.Find(703, Some(THREEGPP_VENDOR));
      var dataRef := if reference.Some? && |reference.value| == 4 then ReadU32(reference.value) else 0;
      var indication := SafeAscii(request.Find(704, Some(THREEGPP_VENDOR)), 256);
      var key := (publicId, dataRef);
      if key !in shSubscriptions { shSubscriptions := shSubscriptions[key := {}]; }
      if indication != [] { shSubscriptions := shSubscriptions[key := shSubscriptions[key] + {indication}]; }
      assert shSubscriptions == old(shSubscriptions)[key := shSubscriptions[key]];
      return AnswerWith(cfg, request, RESULT_SUCCESS, []);
    }

    method HandleRequest(input: Input) returns (out: Outcome)
      requires ValidDraws(input.draws)
      modifies this, store
      ensures (View(), out) == Handle(cfg, old(View()), input)
    {
      hide AnswerWith, PrintAnswer, HandleCx, HandleSh, CapabilitiesAvps, ParseMessage;
      var parsed := ParseMessage(input.raw);
      if parsed.Err? { return NoAnswer; }
      var request := parsed.value;
      if IsCapabilities(request) { return PrintAnswer(request, CapabilitiesAvps(cfg)); }
      if request.command == 280 && request.application == 0 && IsRequest(request) {
        return AnswerWith(cfg, request, RESULT_SUCCESS, []);
      }
      if !IsRequest(request) { return AnswerWith(cfg, request, RESULT_UNSUPPORTED, []); }
      if request.application == SH_APPLICATION && 306 <= request.command <= 309 {
        out := HandleShRequest(request, input.decode);
        return;
      }
      if request.application != CX_APPLICATION { return AnswerWith(cfg, request, RESULT_UNSUPPORTED, []); }
      out := HandleCxRequest(request, input.draws);
    }

    method HandleCxRequest(request: Message, draws: seq<Draw>) returns (out: Outcome)
      requires ValidDraws(draws)
      modifies this`lastRand
      ensures (View(), out) == HandleCx(cfg, old(View()), request, draws)
    {
      hide AnswerWith, HandleMar, SafeAscii, CxDocument;
      var privateId := PrivateIdOf(request);
      var found := store.Lookup(PublicIdOf(request), if privateId == [] then None else Some(privateId));
      if found.None? || !found.value.enabled { return AnswerWith(cfg, request, RESULT_UNKNOWN_USER, []); }
      var item := found.value;
      if !ServerAccepted(request, item) { return AnswerWith(cfg, request, RESULT_UNKNOWN_USER, []); }
      if request.command == 300 || request.command == 302 {
        return AnswerWith(cfg, request, RESULT_SUCCESS, [Vendor(602, item.serverName)]);
      }
      if request.command == 301 {
        return AnswerWith(cfg, request, RESULT_SUCCESS, [Vendor(602, item.serverName), Vendor(606, CxDocument(item))]);
      }
      if request.command == 303 {
        out := HandleMarRequest(request, item, privateId, draws);
        return;
      }
      return AnswerWith(cfg, request, RESULT_UNSUPPORTED, []);
    }
  }
}
