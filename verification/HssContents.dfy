// What the answers of the lab HSS carry, read back from their octets: who answers,
// the vectors of an authentication answer, the server and the profile documents;
// and what a profile update stores.
module HssContents {
  import opened Diameter
  import opened Hss
  import opened HssAnswers
  import opened HssApplication
  import opened Text

  const VENDOR: Option<nat> := Some(10415)

  // --- Reading AVPs ---

  // The values of every AVP of a kind, in order.
  function Values(avps: seq<Avp>, code: nat, vendor: Option<nat>): seq<bytes> {
    if avps == [] then []
    else (if avps[0].code == code && avps[0].vendor == vendor then [avps[0].value] else []) + Values(avps[1..], code, vendor)
  }

  lemma {:induction false} ValuesConcat(a: seq<Avp>, b: seq<Avp>, code: nat, vendor: Option<nat>)
    ensures Values(a + b, code, vendor) == Values(a, code, vendor) + Values(b, code, vendor)
  {
    if a == [] {
      assert a + b == b;
    } else {
      assert (a + b)[1..] == a[1..] + b;
      ValuesConcat(a[1..], b, code, vendor);
    }
  }

  lemma {:induction false} NoValues(avps: seq<Avp>, code: nat, vendor: Option<nat>)
    requires forall i :: 0 <= i < |avps| ==> avps[i].code != code
    ensures Values(avps, code, vendor) == []
  {
    if avps == [] {
    } else {
      NoValues(avps[1..], code, vendor);
    }
  }

  lemma {:induction false} FindIsFirstValue(avps: seq<Avp>, code: nat, vendor: Option<nat>)
    ensures FindAvp(avps, code, vendor)
      == if Values(avps, code, vendor) == [] then None else Some(Values(avps, code, vendor)[0])
  {
    if avps == [] {
    } else {
      FindIsFirstValue(avps[1..], code, vendor);
    }
  }

  lemma GroupReads(children: seq<Avp>)
    requires AllPrintable(children)
    ensures ParseAvps(Group(children)) == Ok(children)
  {
    PrintThenParse(children);
  }

  // --- The fields every answer carries ---

  // Four octets, most significant first.
  predicate Spells(octets: bytes, v: nat) {
    |octets| == 4 && v == ((octets[0] as int * 256 + octets[1] as int) * 256 + octets[2] as int) * 256 + octets[3] as int
  }

  lemma U32Spells(v: nat)
    requires v < U32_LIMIT
    ensures Spells(U32(v), v)
  {
    assert U32(v)[1..] == U24(v % 16777216);
    var low := v % 16777216;
    assert U32(v)[1] as int == low / 65536 && U32(v)[2] as int == low / 256 % 256 && U32(v)[3] as int == low % 256;
    assert low / 256 == low / 65536 * 256 + low / 256 % 256;
    assert low == low / 256 * 256 + low % 256;
  }

  // The answer echoes the session, names its origin, and says that no state is kept;
  // on Cx it names vendor and application.
  ghost predicate CommonFields(cfg: Config, request: Message, answer: Message) {
    && answer.Find(263, None) == request.Find(263, None)
    && answer.Find(264, None) == Some(cfg.originHost) && answer.Find(296, None) == Some(cfg.originRealm)
    && answer.Find(277, None).Some? && Spells(answer.Find(277, None).value, 1)
    && (request.application == 16777216 ==>
          && answer.Find(260, None).Some? && ParseAvps(answer.Find(260, None).value).Ok?
          && var group := ParseAvps(answer.Find(260, None).value).value;
             && FindAvp(group, 266, None).Some? && Spells(FindAvp(group, 266, None).value, 10415)
             && FindAvp(group, 258, None).Some? && Spells(FindAvp(group, 258, None).value, 16777216))
  }

  lemma ApplicationReads(application: nat)
    requires application < U32_LIMIT
    ensures var value := VendorSpecificApplication(application).value;
      && ParseAvps(value).Ok?
      && var group := ParseAvps(value).value;
         && FindAvp(group, 266, None) == Some(U32(THREEGPP_VENDOR)) && FindAvp(group, 258, None) == Some(U32(application))
  {
    var children := [Plain(266, U32(THREEGPP_VENDOR)), Plain(258, U32(application))];
    GroupReads(children);
    FindAt(children, 266, None, 0);
    FindAt(children, 258, None, 1);
  }

  lemma CommonRead(cfg: Config, request: Message, result: nat, extra: seq<Avp>)
    requires result < U32_LIMIT && forall i :: 0 <= i < |extra| ==> extra[i].vendor.Some?
    ensures var answer := Message(ClearR(request.flags), request.command, request.application, request.hopByHop,
                                  request.endToEnd, CommonAvps(cfg, request, result) + extra);
      CommonFields(cfg, request, answer)
  {
    var avps := CommonAvps(cfg, request, result) + extra;
    var shift := if request.Find(263, None).Some? then 1 else 0;
    assert avps[shift] == Plain(264, cfg.originHost) && avps[shift + 1] == Plain(296, cfg.originRealm);
    assert avps[shift + 2] == Plain(268, U32(result)) && avps[shift + 3] == Plain(277, U32(1));
    if shift == 1 {
      assert avps[0] == Plain(263, request.Find(263, None).value);
      FindAt(avps, 263, None, 0);
    } else {
      SessionAbsent(avps);
    }
    FindAt(avps, 264, None, shift);
    FindAt(avps, 296, None, shift + 1);
    FindAt(avps, 277, None, shift + 3);
    U32Spells(1);
    if request.application == CX_APPLICATION {
      assert avps[shift + 4] == VendorSpecificApplication(CX_APPLICATION);
      FindAt(avps, 260, None, shift + 4);
      ApplicationReads(CX_APPLICATION);
      U32Spells(THREEGPP_VENDOR);
      U32Spells(CX_APPLICATION);
    }
  }

  lemma {:induction false} SessionAbsent(avps: seq<Avp>)
    requires forall i :: 0 <= i < |avps| ==> avps[i].code != 263 || avps[i].vendor.Some?
    ensures FindAvp(avps, 263, None) == None
  {
    if avps == [] {
    } else {
      SessionAbsent(avps[1..]);
    }
  }

  // --- Authentication vectors ---

  // One vector as it is sent: its number, scheme, challenge and secret.
  ghost predicate IsVector(octets: bytes, number: nat, secret: bytes, draw: Draw) {
    && ParseAvps(octets).Ok?
    && var children := ParseAvps(octets).value;
       && FindAvp(children, 613, VENDOR).Some? && Spells(FindAvp(children, 613, VENDOR).value, number)
       && FindAvp(children, 608, VENDOR) == Some(Ascii("Digest-AKAv1-MD5"))
       && FindAvp(children, 610, VENDOR) == Some(secret)
       && FindAvp(children, 609, VENDOR).Some?
       && var challenge := FindAvp(children, 609, VENDOR).value;
          |challenge| == 32 && challenge[..16] == draw.rand && challenge[16..] == draw.autn
  }

  lemma VectorReads(number: nat, d: Draw, secret: bytes)
    requires number < U32_LIMIT && |d.rand| == 16 && |d.autn| == 16 && |secret| <= 128
    ensures IsVector(VectorAvp(number, d, secret).value, number, secret, d)
  {
    var children := [Vendor(613, U32(number)), Vendor(608, Ascii("Digest-AKAv1-MD5")),
                     Vendor(609, d.rand + d.autn), Vendor(610, secret)];
    assert |Ascii("Digest-AKAv1-MD5")| == 16;
    hide Ascii, Spells;
    GroupReads(children);
    U32Spells(number);
    FindAt(children, 613, VENDOR, 0);
    FindAt(children, 608, VENDOR, 1);
    FindAt(children, 609, VENDOR, 2);
    FindAt(children, 610, VENDOR, 3);
  }

  lemma VectorKind(number: nat, d: Draw, secret: bytes)
    requires number < U32_LIMIT
    ensures VectorAvp(number, d, secret).code == 612 && VectorAvp(number, d, secret).vendor == VENDOR
  {
  }

  lemma {:induction false} VectorsRead(draws: seq<Draw>, secret: bytes, from: nat)
    requires from <= |draws| <= 5 && |secret| <= 128
    requires forall i :: 0 <= i < |draws| ==> |draws[i].rand| == 16 && |draws[i].autn| == 16
    ensures var values := Values(VectorAvps(draws, secret)[from..], 612, VENDOR);
      && |values| == |draws| - from
      && forall i :: 0 <= i < |values| ==> IsVector(values[i], from + i, secret, draws[from + i])
    decreases |draws| - from
  {
    hide IsVector, VectorAvp;
    var avps := VectorAvps(draws, secret);
    if from == |draws| {
    } else {
      VectorsRead(draws, secret, from + 1);
      VectorReads(from, draws[from], secret);
      VectorKind(from, draws[from], secret);
      assert avps[from] == VectorAvp(from, draws[from], secret);
      hide VectorAvps;
      assert avps[from..][1..] == avps[from + 1..] && avps[from..][0] == avps[from];
      var values, rest := Values(avps[from..], 612, VENDOR), Values(avps[from + 1..], 612, VENDOR);
      assert values == [avps[from].value] + rest;
      forall i | 0 <= i < |values| ensures IsVector(values[i], from + i, secret, draws[from + i]) {
        if i > 0 { assert values[i] == rest[i - 1]; }
      }
    }
  }

  // A successful authentication request, and what is done for it.
  lemma MarOutcome(cfg: Config, s: State, request: Message, draws: seq<Draw>, decode: bytes -> Decoded)
    requires ValidDraws(draws) && IsCx(request) && request.command == 303 && CxSucceeds(s, request)
    ensures Dispatch(cfg, s, request, draws, decode)
      == (s.(lastRand := Remember(s.lastRand, PrivateIdOf(request), draws[0].rand)),
          AnswerWith(cfg, request, RESULT_SUCCESS,
                     VectorAvps(draws[..MarCount(request)], CxSubscriber(s, request).value.xres)))
  {
    hide AnswerWith, VectorAvps, MarCount, MarItem, SafeAscii, CxSubscriber;
  }

  lemma SentWith(cfg: Config, request: Message, result: nat, extra: seq<Avp>)
    requires ValidConfig(cfg) && HeaderOk(request) && result < U32_LIMIT
    requires AllPrintable(extra) && |extra| <= 5 && forall i :: 0 <= i < |extra| ==> extra[i].vendor.Some?
    requires AnswerWith(cfg, request, result, extra).Answer?
    ensures var answer := ParseMessage(AnswerWith(cfg, request, result, extra).octets);
      && answer.Ok? && SameExchange(request, answer.value)
      && answer.value.avps == CommonAvps(cfg, request, result) + extra
      && answer.value.Find(268, None) == Some(U32(result)) && CommonFields(cfg, request, answer.value)
  {
    hide CommonFields, CommonAvps, PrintAnswer, AnswerWith;
    AnswerWithShape(cfg, request, result, extra);
    CommonRead(cfg, request, result, extra);
    var answer := ParseMessage(AnswerWith(cfg, request, result, extra).octets).value;
    assert answer == Message(ClearR(request.flags), request.command, request.application, request.hopByHop,
                             request.endToEnd, CommonAvps(cfg, request, result) + extra);
  }

  lemma NoVectorsInFront(cfg: Config, request: Message, result: nat, extra: seq<Avp>)
    requires result < U32_LIMIT
    ensures Values(CommonAvps(cfg, request, result) + extra, 612, VENDOR) == Values(extra, 612, VENDOR)
  {
    NoValues(CommonAvps(cfg, request, result), 612, VENDOR);
    ValuesConcat(CommonAvps(cfg, request, result), extra, 612, VENDOR);
  }

  // How many vectors are asked for: one, or the number given, from one to five.
  predicate Asks(request: Message, count: nat) {
    var raw := request.Find(607, VENDOR);
    if raw.None? || |raw.value| != 4 then count == 1
    else
      var b := raw.value;
      if b[0] == 0 && b[1] == 0 && b[2] == 0 && b[3] <= 5 then count == (if b[3] == 0 then 1 else b[3]) else count == 5
  }

  lemma CountIsAsked(request: Message)
    ensures Asks(request, MarCount(request))
  {
    var raw := request.Find(607, VENDOR);
    if raw.Some? && |raw.value| == 4 {
      var b := raw.value;
      assert b[1..][0] == b[1] && b[1..][1] == b[2] && b[1..][2] == b[3];
      assert ReadU32(b) == b[0] as int * 16777216 + b[1] as int * 65536 + b[2] as int * 256 + b[3] as int;
    }
  }

  // Every successful authentication answer carries as many vectors as were asked for,
  // numbered from zero: the stored secret, and the RAND followed by the AUTN of its own draw.
  // What is remembered for a named identity is the start of the first challenge sent.
  lemma VectorsOnWire(cfg: Config, s: State, input: Input)
    requires ValidConfig(cfg) && ValidStore(s.store) && ValidDraws(input.draws)
    requires ParseMessage(input.raw).Ok? && Handle(cfg, s, input).1.Answer?
    requires var request := ParseMessage(input.raw).value;
      IsCx(request) && request.command == 303 && CxSucceeds(s, request)
    ensures var (t, out) := Handle(cfg, s, input);
      var request := ParseMessage(input.raw).value;
      && ParseMessage(out.octets).Ok? && CxSubscriber(s, request).Some?
      && var vectors := Values(ParseMessage(out.octets).value.avps, 612, VENDOR);
         && Asks(request, |vectors|) && 1 <= |vectors| <= 5
         && (forall i :: 0 <= i < |vectors| ==>
               IsVector(vectors[i], i, CxSubscriber(s, request).value.xres, input.draws[i]))
         && (PrivateIdOf(request) != [] ==>
               && PrivateIdOf(request) in t.lastRand
               && t.lastRand[PrivateIdOf(request)] == FirstChallenge(vectors[0])[..16])
         && t.store == s.store && t.shSubscriptions == s.shSubscriptions
  {
    assert RESULT_SUCCESS == 2001 && U32_LIMIT > 5;
    hide *;
    DrawSizes(input.draws);
    var request := ParseMessage(input.raw).value;
    ParsedHeaderOk(input.raw);
    HandleIsDispatch(cfg, s, input);
    CountIsAsked(request);
    MarOutcome(cfg, s, request, input.draws, input.decode);
    SubscriberSecret(s, request);
    var secret, some := CxSubscriber(s, request).value.xres, input.draws[..MarCount(request)];
    var extra := VectorAvps(some, secret);
    VectorsPrintable(some, secret);
    SentWith(cfg, request, RESULT_SUCCESS, extra);
    NoVectorsInFront(cfg, request, RESULT_SUCCESS, extra);
    assert extra[0..] == extra;
    VectorsRead(some, secret, 0);
    var vectors := Values(extra, 612, VENDOR);
    ChallengeOf(vectors[0], 0, secret, some[0]);
    Remembered(s.lastRand, PrivateIdOf(request), input.draws[0].rand);
  }

  lemma DrawSizes(draws: seq<Draw>)
    requires ValidDraws(draws)
    ensures |draws| == 5 && forall i :: 0 <= i < |draws| ==> |draws[i].rand| == 16 && |draws[i].autn| == 16
  {
  }

  lemma Remembered(lastRand: map<bytes, bytes>, privateId: bytes, rand: bytes)
    ensures privateId != [] ==> privateId in Remember(lastRand, privateId, rand) && Remember(lastRand, privateId, rand)[privateId] == rand
  {
  }

  lemma VectorsPrintable(draws: seq<Draw>, secret: bytes)
    requires |draws| <= 5 && |secret| <= 128
    requires forall i :: 0 <= i < |draws| ==> |draws[i].rand| == 16 && |draws[i].autn| == 16
    ensures var extra := VectorAvps(draws, secret);
      AllPrintable(extra) && |extra| == |draws| && forall i :: 0 <= i < |extra| ==> extra[i].vendor.Some?
  {
    hide Group;
    forall i | 0 <= i < |draws| ensures Printable(VectorAvp(i, draws[i], secret)) {
      VectorPrintable(i, draws[i], secret);
    }
  }

  lemma SubscriberSecret(s: State, request: Message)
    requires ValidStore(s.store) && CxSucceeds(s, request)
    ensures CxSubscriber(s, request).Some? && |CxSubscriber(s, request).value.xres| <= 128
  {
    CxSubscriberStored(s, request);
  }

  // The challenge in a vector's octets.
  function FirstChallenge(octets: bytes): (challenge: bytes)
    ensures |challenge| >= 16
  {
    var children := ParseAvps(octets);
    var none := seq(16, _ => 0);
    if children.Err? || FindAvp(children.value, 609, VENDOR).None? || |FindAvp(children.value, 609, VENDOR).value| < 16 then none
    else FindAvp(children.value, 609, VENDOR).value
  }

  lemma ChallengeOf(octets: bytes, number: nat, secret: bytes, draw: Draw)
    requires IsVector(octets, number, secret, draw)
    ensures |FirstChallenge(octets)| == 32 && FirstChallenge(octets)[..16] == draw.rand
  {
  }

  // --- When a Cx request succeeds, in full ---

  // The AVP's value where it is 1 to `limit` octets of printable ASCII, else nothing.
  function PrintableText(value: Option<bytes>, limit: nat): bytes {
    if value.Some? && 1 <= |value.value| <= limit && forall i :: 0 <= i < |value.value| ==> 0x20 <= value.value[i] <= 0x7E
    then value.value else []
  }

  function NamedPublic(request: Message): bytes { PrintableText(request.Find(601, VENDOR), 2048) }

  function NamedPrivate(request: Message): bytes { PrintableText(request.Find(1, None), 1024) }

  function NamedServer(request: Message): bytes { PrintableText(request.Find(602, VENDOR), 2048) }

  lemma NamesAre(request: Message)
    ensures NamedPublic(request) == PublicIdOf(request) && NamedPrivate(request) == PrivateIdOf(request)
    ensures NamedServer(request) == ServerOf(request)
  {
  }

  // The first stored subscriber with the public identity and, if given, the private one.
  ghost predicate FirstMatch(store: seq<Subscriber>, publicId: bytes, privateId: bytes, i: nat) {
    && i < |store| && Fits(store[i], publicId, privateId)
    && forall j: nat :: j < i ==> !Fits(store[j], publicId, privateId)
  }

  predicate Fits(s: Subscriber, publicId: bytes, privateId: bytes) {
    s.publicId == publicId && (privateId != [] ==> s.privateId == privateId)
  }

  // The value of the last AVP of a kind.
  function LastValue(avps: seq<Avp>, code: nat): Option<bytes> {
    var values := Values(avps, code, VENDOR);
    if values == [] then None else Some(values[|values| - 1])
  }

  // The scheme is the lab's, and either no AUTS is given, or the AUTS has 8 to 32
  // octets and comes with the remembered RAND of that identity.
  predicate MarAllowed(lastRand: map<bytes, bytes>, privateId: bytes, request: Message) {
    var item := request.Find(612, VENDOR);
    item.Some? && ParseAvps(item.value).Ok? &&
    var children := ParseAvps(item.value).value;
    var auts, rand := LastValue(children, 610), LastValue(children, 609);
    && LastValue(children, 608) == Some(Ascii("Digest-AKAv1-MD5"))
    && (auts.None? || auts.value == []
        || (8 <= |auts.value| <= 32 && rand.Some? && 8 <= |rand.value| <= 64 && privateId in lastRand
            && lastRand[privateId] == if |rand.value| >= 16 then rand.value[..16] else rand.value))
  }

  lemma {:induction false} ItemIsLastOfEach(nested: seq<Avp>)
    ensures var item := AuthItemOf(nested);
      && item.scheme == (if LastValue(nested, 608).None? then [] else SafeAscii(LastValue(nested, 608), 128))
      && item.authenticate == LastValue(nested, 609) && item.authorization == LastValue(nested, 610)
  {
    hide SafeAscii;
    if nested == [] {
    } else {
      hide LastValue;
      var before, last := nested[..|nested| - 1], nested[|nested| - 1];
      ItemIsLastOfEach(before);
      LastAppended(before, last, 608);
      LastAppended(before, last, 609);
      LastAppended(before, last, 610);
      assert nested == before + [last];
    }
  }

  lemma LastAppended(before: seq<Avp>, last: Avp, code: nat)
    ensures LastValue(before + [last], code)
      == if last.code == code && last.vendor == VENDOR then Some(last.value) else LastValue(before, code)
  {
    ValuesConcat(before, [last], code, VENDOR);
    assert [last][1..] == [];
  }

  lemma SchemeText()
    ensures |Ascii("Digest-AKAv1-MD5")| == 16 && IsPrintableAscii(Ascii("Digest-AKAv1-MD5"))
  {
  }

  lemma MarAllowedIff(lastRand: map<bytes, bytes>, privateId: bytes, request: Message)
    ensures JudgeMar(lastRand, MarItem(request), privateId).Issue? <==> MarAllowed(lastRand, privateId, request)
  {
    SchemeText();
    hide Ascii, LastValue, ParseAvps;
    var item := request.Find(612, VENDOR);
    if item.Some? && ParseAvps(item.value).Ok? {
      ItemIsLastOfEach(ParseAvps(item.value).value);
      hide AuthItemOf;
    }
  }

  // Registered and enabled, asking for its own server if for any, by a command of
  // the interface, and when it asks for vectors allowed to.
  ghost predicate CxAllowed(s: State, request: Message) {
    exists i: nat ::
      && FirstMatch(s.store, NamedPublic(request), NamedPrivate(request), i) && s.store[i].enabled
      && (request.command in {300, 301} && NamedServer(request) != [] ==> NamedServer(request) == s.store[i].serverName)
      && (request.command in {300, 301, 302}
          || (request.command == 303 && MarAllowed(s.lastRand, NamedPrivate(request), request)))
  }

  lemma MatchIsFound(s: State, request: Message)
    ensures var i := FindIndex(s.store, NamedPublic(request),
                               if NamedPrivate(request) == [] then None else Some(NamedPrivate(request)));
      && (i < |s.store| <==> FirstMatch(s.store, NamedPublic(request), NamedPrivate(request), i))
      && (forall j: nat :: FirstMatch(s.store, NamedPublic(request), NamedPrivate(request), j) ==> j == i)
      && CxSubscriber(s, request) == if i < |s.store| && s.store[i].enabled then Some(s.store[i]) else None
  {
    NamesAre(request);
    hide PublicIdOf, PrivateIdOf, NamedPublic, NamedPrivate;
  }

  lemma CxAllowedIff(s: State, request: Message)
    ensures CxSucceeds(s, request) <==> CxAllowed(s, request)
  {
    NamesAre(request);
    MatchIsFound(s, request);
    MarAllowedIff(s.lastRand, NamedPrivate(request), request);
    hide PublicIdOf, PrivateIdOf, NamedPublic, NamedPrivate, NamedServer, ServerOf, CxSubscriber, FirstMatch, MarAllowed, JudgeMar, MarItem;
    var i := FindIndex(s.store, NamedPublic(request),
                       if NamedPrivate(request) == [] then None else Some(NamedPrivate(request)));
    if CxSucceeds(s, request) {
      assert FirstMatch(s.store, NamedPublic(request), NamedPrivate(request), i);
    }
  }

  // Answered, a Cx request reports success if and only if it is allowed; what succeeds
  // names the stored server, and a registration gets the subscriber's own document.
  lemma CxAnswers(cfg: Config, s: State, input: Input) returns (i: nat)
    requires ValidConfig(cfg) && ValidStore(s.store) && ValidDraws(input.draws)
    requires ParseMessage(input.raw).Ok? && IsCx(ParseMessage(input.raw).value)
    requires Handle(cfg, s, input).1.Answer?
    ensures var request, answer := ParseMessage(input.raw).value, ParseMessage(Handle(cfg, s, input).1.octets);
      && answer.Ok? && answer.value.Find(268, None).Some?
      && (Spells(answer.value.Find(268, None).value, 2001) <==> CxAllowed(s, request))
      && (CxAllowed(s, request) ==> FirstMatch(s.store, NamedPublic(request), NamedPrivate(request), i))
      && (CxAllowed(s, request) && request.command in {300, 301, 302} ==>
            answer.value.Find(602, VENDOR) == Some(s.store[i].serverName))
      && (CxAllowed(s, request) && request.command == 301 ==>
            answer.value.Find(606, VENDOR) == Some(CxDocument(s.store[i])))
  {
    var request := ParseMessage(input.raw).value;
    i := FindIndex(s.store, NamedPublic(request), if NamedPrivate(request) == [] then None else Some(NamedPrivate(request)));
    ParsedHeaderOk(input.raw);
    CxSuccessIff(cfg, s, input);
    CxAllowedIff(s, request);
    MatchIsFound(s, request);
    U32Spells(RESULT_SUCCESS);
    CxCodes(cfg, s, input);
    if CxAllowed(s, request) && request.command in {300, 301, 302} {
      CxDocumentSent(cfg, s, input);
    }
    hide CxAllowed, CxSucceeds, Handle, ParseMessage, FirstMatch, CxDocument, Spells;
  }

  // The code is one of three.
  lemma CxCodes(cfg: Config, s: State, input: Input)
    requires ValidConfig(cfg) && ValidStore(s.store) && ValidDraws(input.draws)
    requires ParseMessage(input.raw).Ok? && IsCx(ParseMessage(input.raw).value)
    requires Handle(cfg, s, input).1.Answer?
    ensures var answer := ParseMessage(Handle(cfg, s, input).1.octets);
      && answer.Ok? && answer.value.Find(268, None).Some?
      && (Spells(answer.value.Find(268, None).value, 2001) <==> answer.value.Find(268, None) == Some(U32(RESULT_SUCCESS)))
  {
    var request := ParseMessage(input.raw).value;
    ParsedHeaderOk(input.raw);
    hide ParseMessage, AnswerWith, Dispatch, DecoderFails;
    NoDecoder(s, request, input.decode);
    var result, extra := DispatchShape(cfg, s, request, input.draws, input.decode);
    AnswerWithShape(cfg, request, result, extra);
    U32Spells(result);
    U32Spells(RESULT_SUCCESS);
    SpellsOne(U32(result), U32(RESULT_SUCCESS));
  }

  lemma SpellsOne(a: bytes, b: bytes)
    requires Spells(b, 2001) && |a| == 4
    ensures Spells(a, 2001) <==> a == b
  {
  }

  lemma NoDecoder(s: State, request: Message, decode: bytes -> Decoded)
    requires IsCx(request)
    ensures !DecoderFails(s, request, decode)
  {
  }

  lemma CxDocumentSent(cfg: Config, s: State, input: Input)
    requires ValidConfig(cfg) && ValidStore(s.store) && ValidDraws(input.draws)
    requires ParseMessage(input.raw).Ok? && Handle(cfg, s, input).1.Answer?
    requires var request := ParseMessage(input.raw).value;
      IsCx(request) && request.command in {300, 301, 302} && CxSucceeds(s, request)
    ensures var request, answer := ParseMessage(input.raw).value, ParseMessage(Handle(cfg, s, input).1.octets);
      && answer.Ok? && CxSubscriber(s, request).Some?
      && answer.value.Find(602, VENDOR) == Some(CxSubscriber(s, request).value.serverName)
      && (request.command == 301 ==> answer.value.Find(606, VENDOR) == Some(CxDocument(CxSubscriber(s, request).value)))
  {
    assert RESULT_SUCCESS == 2001;
    hide *;
    var request := ParseMessage(input.raw).value;
    ParsedHeaderOk(input.raw);
    SubscriberSecret(s, request);
    CxSubscriberStored(s, request);
    var item := CxSubscriber(s, request).value;
    var extra := CxExtra(request, item);
    ExtraPrintable(s, request, item);
    HandleIsDispatch(cfg, s, input);
    CxOutcome(cfg, s, request, input.draws, input.decode);
    SentWith(cfg, request, RESULT_SUCCESS, extra);
    ExtraBehind(cfg, request, item, ParseMessage(AnswerWith(cfg, request, RESULT_SUCCESS, extra).octets).value);
  }

  lemma HandleIsDispatch(cfg: Config, s: State, input: Input)
    requires ValidDraws(input.draws) && ParseMessage(input.raw).Ok?
    ensures Handle(cfg, s, input) == Dispatch(cfg, s, ParseMessage(input.raw).value, input.draws, input.decode)
    ensures RESULT_SUCCESS < U32_LIMIT
  {
    hide Dispatch, ParseMessage;
  }

  lemma ExtraPrintable(s: State, request: Message, item: Subscriber)
    requires ValidStore(s.store) && item in s.store
    ensures var extra := CxExtra(request, item);
      AllPrintable(extra) && |extra| <= 5 && forall i :: 0 <= i < |extra| ==> extra[i].vendor.Some?
  {
    hide CxDocument, ValidStore, ValidSubscriber;
    StoredSizes(s, item);
    CxDocumentPrintable(item);
  }

  lemma ExtraBehind(cfg: Config, request: Message, item: Subscriber, answer: Message)
    requires answer.avps == CommonAvps(cfg, request, RESULT_SUCCESS) + CxExtra(request, item)
    ensures answer.Find(602, VENDOR) == Some(item.serverName)
    ensures request.command == 301 ==> answer.Find(606, VENDOR) == Some(CxDocument(item))
  {
    hide CommonAvps, CxDocument;
    BehindCommon(cfg, request, CxExtra(request, item), 0);
    if request.command == 301 { BehindCommon(cfg, request, CxExtra(request, item), 1); }
  }

  function CxExtra(request: Message, item: Subscriber): seq<Avp> {
    [Vendor(602, item.serverName)] + if request.command == 301 then [Vendor(606, CxDocument(item))] else []
  }

  lemma CxOutcome(cfg: Config, s: State, request: Message, draws: seq<Draw>, decode: bytes -> Decoded)
    requires ValidDraws(draws) && IsCx(request) && request.command in {300, 301, 302} && CxSucceeds(s, request)
    ensures Dispatch(cfg, s, request, draws, decode)
      == (s, AnswerWith(cfg, request, RESULT_SUCCESS, CxExtra(request, CxSubscriber(s, request).value)))
  {
    hide AnswerWith, CxDocument, CxSubscriber, SafeAscii;
    var item := CxSubscriber(s, request).value;
    var none: seq<Avp> := [];
    assert [Vendor(602, item.serverName)] + none == [Vendor(602, item.serverName)];
    assert [Vendor(602, item.serverName)] + [Vendor(606, CxDocument(item))]
        == [Vendor(602, item.serverName), Vendor(606, CxDocument(item))];
  }

  lemma StoredSizes(s: State, item: Subscriber)
    requires ValidStore(s.store) && item in s.store
    ensures ValidSubscriber(item) && |item.serverName| <= 2048
  {
  }

  lemma BehindCommon(cfg: Config, request: Message, extra: seq<Avp>, at: nat)
    requires at < |extra| && extra[at].vendor == VENDOR
    requires extra[at].code == 602 || extra[at].code == 606
    requires forall i :: 0 <= i < at ==> extra[i].code != extra[at].code
    ensures FindAvp(CommonAvps(cfg, request, RESULT_SUCCESS) + extra, extra[at].code, VENDOR) == Some(extra[at].value)
  {
    var common := CommonAvps(cfg, request, RESULT_SUCCESS);
    FindAt(common + extra, extra[at].code, VENDOR, |common| + at);
  }
}
