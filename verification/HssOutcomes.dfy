// The answers of the lab HSS that report no Cx or Sh success: capabilities, the
// watchdog, and the code of every refusal.
module HssOutcomes {
  import opened Diameter
  import opened Hss
  import opened HssAnswers
  import opened HssApplication
  import opened HssContents
  import opened HssShAnswers
  import opened Text

  // A capabilities answer names its origin, its product, the vendor and both
  // applications (section 5.3.2 of RFC 6733).
  lemma CapabilitiesSent(cfg: Config, s: State, input: Input)
    requires ValidConfig(cfg) && ValidDraws(input.draws) && ParseMessage(input.raw).Ok?
    requires var request := ParseMessage(input.raw).value;
      request.command == 257 && request.application == 0 && request.flags >= 128
    ensures var (t, out) := Handle(cfg, s, input);
      && t == s && Reports(out, 2001)
      && var answer := ParseMessage(out.octets).value;
         && SameExchange(ParseMessage(input.raw).value, answer)
         && answer.Find(264, None) == Some(cfg.originHost) && answer.Find(296, None) == Some(cfg.originRealm)
         && answer.Find(257, None) == Some([0, 1, 127, 0, 0, 1]) && answer.Find(269, None) == Some(Ascii("madis-lab-hss"))
         && answer.Find(266, None).Some? && Spells(answer.Find(266, None).value, 10415)
         && answer.Find(265, None).Some? && Spells(answer.Find(265, None).value, 10415)
         && answer.Find(258, None).Some? && Spells(answer.Find(258, None).value, 4)
         && var groups := Values(answer.avps, 260, None);
            |groups| == 2 && NamesApplication(groups[0], 16777216) && NamesApplication(groups[1], 16777217)
  {
    var request := ParseMessage(input.raw).value;
    ParsedHeaderOk(input.raw);
    CapabilitiesPrintable(cfg);
    AnswerParses(request, CapabilitiesAvps(cfg));
    CapabilitiesFound(cfg);
    U32Spells(2001);
    U32Spells(10415);
    U32Spells(4);
    hide ParseMessage, CapabilitiesAvps, Spells, NamesApplication, Ascii, PrintAnswer;
  }

  ghost predicate NamesApplication(group: bytes, application: nat) {
    && ParseAvps(group).Ok?
    && var children := ParseAvps(group).value;
       && FindAvp(children, 266, None).Some? && Spells(FindAvp(children, 266, None).value, 10415)
       && FindAvp(children, 258, None).Some? && Spells(FindAvp(children, 258, None).value, application)
  }

  lemma GroupNames(application: nat)
    requires application < U32_LIMIT
    ensures NamesApplication(VendorSpecificApplication(application).value, application)
  {
    ApplicationReads(application);
    U32Spells(THREEGPP_VENDOR);
    U32Spells(application);
  }

  lemma CapabilitiesFound(cfg: Config)
    ensures var avps := CapabilitiesAvps(cfg);
      && FindAvp(avps, 264, None) == Some(cfg.originHost) && FindAvp(avps, 296, None) == Some(cfg.originRealm)
      && FindAvp(avps, 268, None) == Some(U32(2001)) && FindAvp(avps, 257, None) == Some([0, 1, 127, 0, 0, 1])
      && FindAvp(avps, 265, None) == Some(U32(10415)) && FindAvp(avps, 266, None) == Some(U32(10415))
      && FindAvp(avps, 269, None) == Some(Ascii("madis-lab-hss")) && FindAvp(avps, 258, None) == Some(U32(4))
      && var groups := Values(avps, 260, None);
         |groups| == 2 && NamesApplication(groups[0], 16777216) && NamesApplication(groups[1], 16777217)
  {
    hide Ascii, NamesApplication, Group;
    var avps := CapabilitiesAvps(cfg);
    FindAt(avps, 264, None, 0);
    FindAt(avps, 296, None, 1);
    FindAt(avps, 268, None, 2);
    FindAt(avps, 257, None, 3);
    FindAt(avps, 265, None, 4);
    FindAt(avps, 266, None, 5);
    FindAt(avps, 269, None, 6);
    FindAt(avps, 258, None, 7);
    var front, groups := avps[..8], avps[8..];
    assert avps == front + groups;
    NoValues(front, 260, None);
    ValuesConcat(front, groups, 260, None);
    var cx, sh := VendorSpecificApplication(CX_APPLICATION), VendorSpecificApplication(SH_APPLICATION);
    assert groups == [cx, sh] && [cx, sh][1..] == [sh] && [sh][1..] == [];
    assert Values([sh], 260, None) == [sh.value];
    GroupNames(CX_APPLICATION);
    GroupNames(SH_APPLICATION);
  }

  // The watchdog is answered with success; an answer sent to the server, and a
  // request for another application or an unknown Sh command, with 3001.
  lemma OtherRequests(cfg: Config, s: State, input: Input)
    requires ValidConfig(cfg) && ValidDraws(input.draws) && ParseMessage(input.raw).Ok?
    requires !SessionTooLong(ParseMessage(input.raw).value)
    ensures var (t, out) := Handle(cfg, s, input);
      var request := ParseMessage(input.raw).value;
      var capabilities := request.command == 257 && request.application == 0 && request.flags >= 128;
      var watchdog := request.command == 280 && request.application == 0 && request.flags >= 128;
      && (watchdog ==> Reports(out, 2001) && t == s)
      && (request.flags < 128 ==> Reports(out, 3001) && t == s)
      && (request.flags >= 128 && !capabilities && !watchdog && request.application != 16777216 && !IsSh(request) ==>
            Reports(out, 3001) && t == s)
  {
    var request := ParseMessage(input.raw).value;
    ParsedHeaderOk(input.raw);
    ReportsPlain(cfg, request, 2001);
    ReportsPlain(cfg, request, 3001);
    hide ParseMessage, AnswerWith, Reports, SessionTooLong, HandleSh, HandleCx, PrintAnswer, CapabilitiesAvps;
  }

  // What refuses an authentication request for itself rather than for its subscriber.
  predicate MarMalformed(request: Message) {
    var item := request.Find(612, VENDOR);
    item.None? || ParseAvps(item.value).Err? ||
    var children := ParseAvps(item.value).value;
    var auts, rand := LastValue(children, 610), LastValue(children, 609);
    || LastValue(children, 608) != Some(Ascii("Digest-AKAv1-MD5"))
    || (auts.Some? && auts.value != [] && !(8 <= |auts.value| <= 32 && rand.Some? && 8 <= |rand.value| <= 64))
  }

  // A Cx request that is not allowed: 5001 when no enabled subscriber is stored under
  // its identities, it names another server, or its AUTS names a RAND not remembered;
  // 3001 when its command is none of the interface's or its authentication item is
  // malformed.  Nothing changes.
  lemma CxRefusals(cfg: Config, s: State, input: Input)
    requires ValidConfig(cfg) && ValidStore(s.store) && ValidDraws(input.draws)
    requires ParseMessage(input.raw).Ok? && IsCx(ParseMessage(input.raw).value)
    requires !SessionTooLong(ParseMessage(input.raw).value) && !CxAllowed(s, ParseMessage(input.raw).value)
    ensures var (t, out) := Handle(cfg, s, input);
      var request := ParseMessage(input.raw).value;
      && t == s
      && (if (exists i: nat ::
                && FirstMatch(s.store, NamedPublic(request), NamedPrivate(request), i) && s.store[i].enabled
                && (request.command in {300, 301} && NamedServer(request) != [] ==> NamedServer(request) == s.store[i].serverName))
             && (request.command == 303 ==> MarMalformed(request))
          then Reports(out, 3001) else Reports(out, 5001))
  {
    var request := ParseMessage(input.raw).value;
    ParsedHeaderOk(input.raw);
    ReportsPlain(cfg, request, 3001);
    ReportsPlain(cfg, request, 5001);
    CxAllowedIff(s, request);
    NamesAre(request);
    MatchIsFound(s, request);
    MarVerdict(s.lastRand, NamedPrivate(request), request);
    CxRefused(cfg, s, request, input.draws, input.decode);
    hide ParseMessage, AnswerWith, Reports, SessionTooLong, Dispatch, NamedPublic, NamedPrivate, NamedServer, PublicIdOf, PrivateIdOf, ServerOf, CxSubscriber, FirstMatch, MarMalformed, CxAllowed, CxSucceeds, JudgeMar, MarItem, ValidStore;
    var at := FindIndex(s.store, NamedPublic(request), if NamedPrivate(request) == [] then None else Some(NamedPrivate(request)));
    if CxSubscriber(s, request).Some? {
      assert FirstMatch(s.store, NamedPublic(request), NamedPrivate(request), at);
    }
  }

  lemma CxRefused(cfg: Config, s: State, request: Message, draws: seq<Draw>, decode: bytes -> Decoded)
    requires ValidDraws(draws) && IsCx(request) && !CxSucceeds(s, request)
    ensures var found := CxSubscriber(s, request);
      Dispatch(cfg, s, request, draws, decode)
        == (s, AnswerWith(cfg, request,
                 if found.None? || !ServerAccepted(request, found.value) then 5001
                 else if request.command == 303 then
                   (var verdict := JudgeMar(s.lastRand, MarItem(request), PrivateIdOf(request));
                    if verdict.Refuse? && verdict.result < U32_LIMIT then verdict.result else 0)
                 else 3001, []))
  {
    MarVerdict(s.lastRand, PrivateIdOf(request), request);
    hide AnswerWith, CxSubscriber, SafeAscii, JudgeMar, MarItem, ServerAccepted, MarMalformed, MarAllowed;
  }

  lemma MarVerdict(lastRand: map<bytes, bytes>, privateId: bytes, request: Message)
    ensures var verdict := JudgeMar(lastRand, MarItem(request), privateId);
      && (verdict.Issue? <==> MarAllowed(lastRand, privateId, request))
      && (verdict.Refuse? ==> verdict.result == if MarMalformed(request) then 3001 else 5001)
      && (verdict.Issue? ==> !MarMalformed(request))
  {
    MarAllowedIff(lastRand, privateId, request);
    SchemeText();
    hide Ascii, LastValue, ParseAvps;
    var item := request.Find(612, VENDOR);
    if item.Some? && ParseAvps(item.value).Ok? {
      ItemIsLastOfEach(ParseAvps(item.value).value);
      hide AuthItemOf;
    }
  }
}
