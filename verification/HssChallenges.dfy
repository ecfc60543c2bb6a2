// Resynchronisation in terms of what was sent: the RAND it must name is the start of
// the challenge in the latest answer to the same private identity, and naming it
// suffices.
module HssChallenges {
  import opened Diameter
  import opened Hss
  import opened HssAnswers
  import opened HssApplication
  import opened HssContents
  import opened HssResync
  import opened Text

  // The event is an answered request for vectors for this identity, and these are the
  // octets of the first vector in its answer.
  ghost predicate SentTo(cfg: Config, s: State, e: Event, privateId: bytes, vector: bytes) {
    && e.Received? && ValidDraws(e.input.draws) && ParseMessage(e.input.raw).Ok?
    && var request, out := ParseMessage(e.input.raw).value, Handle(cfg, s, e.input).1;
       && IsCx(request) && request.command == 303 && NamedPrivate(request) == privateId && privateId != []
       && out.Answer? && ParseMessage(out.octets).Ok?
       && var vectors := Values(ParseMessage(out.octets).value.avps, 612, VENDOR);
          vectors != [] && vectors[0] == vector
  }

  // The stores stay valid in between, as every change to them keeps them.
  ghost predicate ValidStores(ss: seq<State>) {
    forall i :: 0 <= i < |ss| ==> ValidStore(ss[i].store)
  }

  // What was sent to the identity starts with the RAND of the batch remembered for it.
  lemma SentIsBatch(cfg: Config, s: State, e: Event, privateId: bytes, vector: bytes)
    requires ValidConfig(cfg) && ValidStore(s.store) && SentTo(cfg, s, e, privateId, vector)
    requires CxAllowed(s, ParseMessage(e.input.raw).value)
    ensures BatchOf(s, e) == Some(Batch(privateId, FirstChallenge(vector)[..16])) && |FirstChallenge(vector)| == 32
  {
    var request := ParseMessage(e.input.raw).value;
    CxAllowedIff(s, request);
    NamesAre(request);
    VectorsOnWire(cfg, s, e.input);
    hide ParseMessage, CxSucceeds, CxAllowed, IsVector, Handle, NamedPrivate, PrivateIdOf, ValidStore, CxSubscriber;
    ChallengeOf(vector, 0, CxSubscriber(s, request).value.xres, e.input.draws[0]);
  }

  // Only an allowed request is sent any vector.
  lemma SentIsAllowed(cfg: Config, s: State, e: Event, privateId: bytes, vector: bytes)
    requires ValidConfig(cfg) && ValidStore(s.store) && SentTo(cfg, s, e, privateId, vector)
    ensures CxAllowed(s, ParseMessage(e.input.raw).value)
  {
    var request := ParseMessage(e.input.raw).value;
    ParsedHeaderOk(e.input.raw);
    CxAllowedIff(s, request);
    if !CxSucceeds(s, request) {
      RefusedCarriesNone(cfg, s, e.input);
    }
  }

  lemma RefusedCarriesNone(cfg: Config, s: State, input: Input)
    requires ValidConfig(cfg) && ValidStore(s.store) && ValidDraws(input.draws) && ParseMessage(input.raw).Ok?
    requires var request := ParseMessage(input.raw).value;
      IsCx(request) && request.command == 303 && !CxSucceeds(s, request)
    requires Handle(cfg, s, input).1.Answer?
    ensures ParseMessage(Handle(cfg, s, input).1.octets).Ok?
    ensures Values(ParseMessage(Handle(cfg, s, input).1.octets).value.avps, 612, VENDOR) == []
  {
    var request := ParseMessage(input.raw).value;
    ParsedHeaderOk(input.raw);
    hide ParseMessage, AnswerWith, CommonAvps, CommonFields, CxSucceeds;
    var result := RefusedWith(cfg, s, request, input.draws, input.decode);
    SentWith(cfg, request, result, []);
    NoVectorsInFront(cfg, request, result, []);
  }

  lemma RefusedWith(cfg: Config, s: State, request: Message, draws: seq<Draw>, decode: bytes -> Decoded) returns (result: nat)
    requires ValidDraws(draws) && IsCx(request) && request.command == 303 && !CxSucceeds(s, request)
    ensures result < U32_LIMIT && Dispatch(cfg, s, request, draws, decode) == (s, AnswerWith(cfg, request, result, []))
  {
    hide AnswerWith, CxSubscriber, SafeAscii, MarItem, ServerAccepted;
    var found := CxSubscriber(s, request);
    if found.None? || !ServerAccepted(request, found.value) {
      result := RESULT_UNKNOWN_USER;
    } else {
      result := JudgeMar(s.lastRand, MarItem(request), PrivateIdOf(request)).result;
    }
  }

  // The batch remembered is the one sent.
  lemma BatchIsSent(cfg: Config, s: State, e: Event, privateId: bytes, rand: bytes) returns (vector: bytes)
    requires ValidConfig(cfg) && ValidStore(s.store) && e.Received? && ValidDraws(e.input.draws)
    requires BatchOf(s, e) == Some(Batch(privateId, rand))
    ensures Handle(cfg, s, e.input).1.Answer? ==>
      SentTo(cfg, s, e, privateId, vector) && rand == FirstChallenge(vector)[..16]
  {
    vector := [];
    var request := ParseMessage(e.input.raw).value;
    NamesAre(request);
    BatchParts(s, e);
    hide ParseMessage, CxSucceeds, IsVector, Handle, NamedPrivate, PrivateIdOf, ValidStore, CxSubscriber, BatchOf;
    if Handle(cfg, s, e.input).1.Answer? {
      VectorsOnWire(cfg, s, e.input);
      vector := Values(ParseMessage(Handle(cfg, s, e.input).1.octets).value.avps, 612, VENDOR)[0];
      ChallengeOf(vector, 0, CxSubscriber(s, request).value.xres, e.input.draws[0]);
    }
  }

  lemma BatchParts(s: State, e: Event)
    requires BatchOf(s, e).Some?
    ensures e.Received? && e.input.draws != [] && ParseMessage(e.input.raw).Ok?
    ensures var request := ParseMessage(e.input.raw).value;
      && IsCx(request) && request.command == 303 && CxSucceeds(s, request)
      && BatchOf(s, e).value == Batch(PrivateIdOf(request), e.input.draws[0].rand) && PrivateIdOf(request) != []
  {
    hide ParseMessage, CxSucceeds, PrivateIdOf;
  }

  lemma RunLength(cfg: Config, ss: seq<State>, es: seq<Event>)
    requires Run(cfg, ss, es)
    ensures |ss| == |es| + 1
  {
  }

  lemma StepAt(cfg: Config, ss: seq<State>, es: seq<Event>, k: nat)
    requires ValidStores(ss) && Run(cfg, ss, es) && k < |es|
    ensures ValidStore(ss[k].store) && (es[k].Received? ==> ValidDraws(es[k].input.draws))
  {
    hide ValidStore, ValidDraws, Handle;
    assert Step(cfg, ss[k], es[k], ss[k + 1]);
  }

  // A resynchronisation that succeeds names the first 16 octets of the challenge in
  // the latest answer with vectors to its identity, unless that answer was too long
  // to be sent.
  lemma ResyncNamesSent(cfg: Config, ss: seq<State>, es: seq<Event>, i: nat) returns (k: nat, vector: bytes)
    requires ValidConfig(cfg) && ValidStores(ss) && Run(cfg, ss, es) && i < |es| && Resyncs(ss[i], es[i])
    ensures k < i && BatchOf(ss[i], es[i]).Some? && es[k].Received? && ValidDraws(es[k].input.draws)
    ensures var privateId := BatchOf(ss[i], es[i]).value.privateId;
      && (Handle(cfg, ss[k], es[k].input).1.Answer? ==>
            SentTo(cfg, ss[k], es[k], privateId, vector) && NamedRand(es[i]) == FirstChallenge(vector)[..16])
      && forall j :: k < j < i ==> !To(BatchOf(ss[j], es[j]), privateId)
  {
    RunLength(cfg, ss, es);
    hide *;
    k := ResyncNamesLatest(cfg, ss, es, i);
    var privateId := BatchOf(ss[i], es[i]).value.privateId;
    BatchParts(ss[k], es[k]);
    StepAt(cfg, ss, es, k);
    vector := BatchIsSent(cfg, ss[k], es[k], privateId, NamedRand(es[i]));
  }

  // The next request of the identity: stored and enabled, with the scheme, an AUTS and
  // these octets of a challenge.
  ghost predicate AsksToResync(s: State, request: Message, privateId: bytes, challenge: bytes) {
    && IsCx(request) && request.command == 303 && NamedPrivate(request) == privateId
    && (exists i: nat :: FirstMatch(s.store, NamedPublic(request), privateId, i) && s.store[i].enabled)
    && request.Find(612, VENDOR).Some? && ParseAvps(request.Find(612, VENDOR).value).Ok?
    && var children := ParseAvps(request.Find(612, VENDOR).value).value;
       && LastValue(children, 608) == Some(Ascii("Digest-AKAv1-MD5"))
       && LastValue(children, 609) == Some(challenge)
       && LastValue(children, 610).Some? && 8 <= |LastValue(children, 610).value| <= 32
  }

  // What is remembered for the identity is the start of what was last sent to it.
  lemma SentIsRemembered(cfg: Config, ss: seq<State>, es: seq<Event>, k: nat, i: nat, privateId: bytes, vector: bytes)
    requires ValidConfig(cfg) && ValidStores(ss) && Run(cfg, ss, es) && k < i <= |es|
    requires SentTo(cfg, ss[k], es[k], privateId, vector)
    requires forall j :: k < j < i ==> !To(BatchOf(ss[j], es[j]), privateId)
    ensures privateId in ss[i].lastRand && ss[i].lastRand[privateId] == FirstChallenge(vector)[..16]
  {
    RunLength(cfg, ss, es);
    hide *;
    StepAt(cfg, ss, es, k);
    SentIsAllowed(cfg, ss[k], es[k], privateId, vector);
    SentIsBatch(cfg, ss[k], es[k], privateId, vector);
    RunIsReplay(cfg, ss, es, i);
    var log := Log(ss, es);
    LogAt(ss, es);
    LatestOf(log[..i], k, privateId, FirstChallenge(vector)[..16]);
  }

  lemma LogAt(ss: seq<State>, es: seq<Event>)
    requires |es| <= |ss|
    ensures |Log(ss, es)| == |es| && forall j :: 0 <= j < |es| ==> Log(ss, es)[j] == BatchOf(ss[j], es[j])
  {
    hide BatchOf;
  }

  lemma LatestOf(log: seq<Option<Batch>>, k: nat, privateId: bytes, rand: bytes)
    requires k < |log| && log[k] == Some(Batch(privateId, rand))
    requires forall j :: k < j < |log| ==> !To(log[j], privateId)
    ensures privateId in Replay(log) && Replay(log)[privateId] == rand
  {
    ReplayIsLatest(log, privateId);
    hide Replay;
    assert To(log[k], privateId);
    NoneIfNone(log, k, privateId);
  }

  lemma {:induction false} NoneIfNone(log: seq<Option<Batch>>, k: nat, privateId: bytes)
    requires k < |log| && To(log[k], privateId)
    ensures LatestBatch(log, privateId).Some? && LatestBatch(log, privateId).value >= k
  {
    if To(log[|log| - 1], privateId) {
    } else {
      NoneIfNone(log[..|log| - 1], k, privateId);
    }
  }

  lemma ResyncAllowed(s: State, request: Message, privateId: bytes, challenge: bytes)
    requires AsksToResync(s, request, privateId, challenge) && 16 <= |challenge| <= 64
    requires privateId in s.lastRand && s.lastRand[privateId] == challenge[..16]
    ensures CxAllowed(s, request)
  {
    hide Fits, NamedPublic, NamedPrivate, NamedServer, LastValue, ParseAvps, Ascii;
    var at: nat :| FirstMatch(s.store, NamedPublic(request), privateId, at) && s.store[at].enabled;
  }

  // Naming what was sent suffices: after an answer with vectors to an identity, and no
  // later batch for it, a resynchronisation with that challenge is allowed.
  lemma ResyncOfSentAllowed(cfg: Config, ss: seq<State>, es: seq<Event>, k: nat, i: nat, privateId: bytes, vector: bytes,
                            challenge: bytes)
    requires ValidConfig(cfg) && ValidStores(ss) && Run(cfg, ss, es) && k < i < |es|
    requires SentTo(cfg, ss[k], es[k], privateId, vector)
    requires forall j :: k < j < i ==> !To(BatchOf(ss[j], es[j]), privateId)
    requires es[i].Received? && ParseMessage(es[i].input.raw).Ok?
    requires AsksToResync(ss[i], ParseMessage(es[i].input.raw).value, privateId, challenge)
    requires 16 <= |challenge| <= 64 && challenge[..16] == FirstChallenge(vector)[..16]
    ensures CxAllowed(ss[i], ParseMessage(es[i].input.raw).value)
  {
    RunLength(cfg, ss, es);
    hide *;
    SentIsRemembered(cfg, ss, es, k, i, privateId, vector);
    ResyncAllowed(ss[i], ParseMessage(es[i].input.raw).value, privateId, challenge);
  }
}
