// Which RAND an AUTS resynchronisation may name, over any sequential run of
// requests mixed with changes to the subscriber store.
module HssResync {
  import opened Diameter
  import opened HssAnswers
  import opened HssApplication
  import opened Text

  // --- The remembered RANDs as a log of issued batches ---

  // A batch of vectors issued to an identity, by the first RAND in it.
  datatype Batch = Batch(privateId: bytes, rand: bytes)

  function Apply(remembered: map<bytes, bytes>, batch: Option<Batch>): map<bytes, bytes> {
    if batch.None? then remembered else remembered[batch.value.privateId := batch.value.rand]
  }

  predicate To(batch: Option<Batch>, privateId: bytes) {
    batch.Some? && batch.value.privateId == privateId
  }

  // The latest batch issued to the identity.
  function LatestBatch(log: seq<Option<Batch>>, privateId: bytes): Option<nat> {
    if log == [] then None
    else if To(log[|log| - 1], privateId) then Some(|log| - 1)
    else LatestBatch(log[..|log| - 1], privateId)
  }

  function Replay(log: seq<Option<Batch>>): map<bytes, bytes> {
    if log == [] then map[] else Apply(Replay(log[..|log| - 1]), log[|log| - 1])
  }

  // Per identity, the map holds the first RAND of the latest batch issued to it,
  // and nothing else.
  lemma {:induction false} ReplayIsLatest(log: seq<Option<Batch>>, privateId: bytes)
    ensures var k := LatestBatch(log, privateId);
      && (privateId in Replay(log) <==> k.Some?)
      && (k.Some? ==>
            && k.value < |log| && To(log[k.value], privateId)
            && (forall i :: k.value < i < |log| ==> !To(log[i], privateId))
            && Replay(log)[privateId] == log[k.value].value.rand)
  {
    if log == [] {
    } else {
      ReplayIsLatest(log[..|log| - 1], privateId);
    }
  }

  // --- Runs of the handler ---

  datatype Event = Received(input: Input) | StoreChanged

  ghost predicate Step(cfg: Config, s: State, e: Event, t: State) {
    match e
    case Received(input) => ValidDraws(input.draws) && t == Handle(cfg, s, input).0
    case StoreChanged => t.lastRand == s.lastRand
  }

  ghost predicate Run(cfg: Config, ss: seq<State>, es: seq<Event>) {
    && |ss| == |es| + 1
    && ss[0].lastRand == map[]
    && forall i :: 0 <= i < |es| ==> Step(cfg, ss[i], es[i], ss[i + 1])
  }

  // A multimedia authentication request that succeeds and so issues vectors.
  predicate IssuesVectors(s: State, e: Event) {
    e.Received? && e.input.draws != [] && ParseMessage(e.input.raw).Ok? &&
    var request := ParseMessage(e.input.raw).value;
    IsCx(request) && request.command == 303 && CxSucceeds(s, request)
  }

  function BatchOf(s: State, e: Event): Option<Batch> {
    if !IssuesVectors(s, e) then None
    else
      var privateId := PrivateIdOf(ParseMessage(e.input.raw).value);
      if privateId == [] then None else Some(Batch(privateId, e.input.draws[0].rand))
  }

  // A resynchronisation: vectors are issued in answer to an AUTS.
  predicate Resyncs(s: State, e: Event) {
    IssuesVectors(s, e) &&
    var item := MarItem(ParseMessage(e.input.raw).value);
    item.authorization.Some? && item.authorization.value != []
  }

  function NamedRand(e: Event): bytes {
    if e.Received? && ParseMessage(e.input.raw).Ok?
       && MarItem(ParseMessage(e.input.raw).value).authenticate.Some? then
      FirstSixteen(MarItem(ParseMessage(e.input.raw).value).authenticate.value)
    else []
  }

  // A step remembers exactly the RAND it issues, for exactly one identity.
  lemma StepRand(cfg: Config, s: State, e: Event, t: State)
    requires Step(cfg, s, e, t)
    ensures t.lastRand == Apply(s.lastRand, BatchOf(s, e))
  {
    if e.Received? && ParseMessage(e.input.raw).Ok? {
      var request := ParseMessage(e.input.raw).value;
      if IsCx(request) {
        CxRand(cfg, s, request, e.input.draws);
      } else {
        OthersKeepRand(cfg, s, request, e.input.draws, e.input.decode);
      }
    }
  }

  lemma CxRand(cfg: Config, s: State, request: Message, draws: seq<Draw>)
    requires ValidDraws(draws) && IsCx(request)
    ensures HandleCx(cfg, s, request, draws).0.lastRand
      == if request.command == 303 && CxSucceeds(s, request)
         then Remember(s.lastRand, PrivateIdOf(request), draws[0].rand) else s.lastRand
  {
  }

  lemma OthersKeepRand(cfg: Config, s: State, request: Message, draws: seq<Draw>, decode: bytes -> Decoded)
    requires ValidDraws(draws) && !IsCx(request)
    ensures Dispatch(cfg, s, request, draws, decode).0.lastRand == s.lastRand
  {
  }

  function Log(ss: seq<State>, es: seq<Event>): seq<Option<Batch>>
    requires |es| <= |ss|
  {
    seq(|es|, i requires 0 <= i < |es| => BatchOf(ss[i], es[i]))
  }

  lemma {:induction false} RunIsReplay(cfg: Config, ss: seq<State>, es: seq<Event>, n: nat)
    requires Run(cfg, ss, es) && n <= |es|
    ensures ss[n].lastRand == Replay(Log(ss, es)[..n])
  {
    if n == 0 {
    } else {
      RunIsReplay(cfg, ss, es, n - 1);
      assert Step(cfg, ss[n - 1], es[n - 1], ss[n - 1 + 1]);
      StepRand(cfg, ss[n - 1], es[n - 1], ss[n]);
      assert Log(ss, es)[..n][..n - 1] == Log(ss, es)[..n - 1];
    }
  }

  // What a resynchronisation needs of the state it meets, and what it leaves.
  lemma ResyncNeeds(s: State, e: Event)
    requires Resyncs(s, e)
    ensures var privateId := PrivateIdOf(ParseMessage(e.input.raw).value);
      && privateId in s.lastRand && s.lastRand[privateId] == NamedRand(e)
      && (privateId != [] ==> BatchOf(s, e) == Some(Batch(privateId, e.input.draws[0].rand)))
  {
  }

  // A resynchronisation names the first RAND of the latest batch issued to the
  // same private identity.
  lemma ResyncNamesLatest(cfg: Config, ss: seq<State>, es: seq<Event>, i: nat) returns (k: nat)
    requires Run(cfg, ss, es) && i < |es| && Resyncs(ss[i], es[i])
    ensures k < i && BatchOf(ss[k], es[k]).Some? && BatchOf(ss[i], es[i]).Some?
    ensures var privateId := BatchOf(ss[i], es[i]).value.privateId;
      && BatchOf(ss[k], es[k]) == Some(Batch(privateId, NamedRand(es[i])))
      && (forall j :: k < j < i ==> !To(BatchOf(ss[j], es[j]), privateId))
  {
    var log, privateId := Log(ss, es), PrivateIdOf(ParseMessage(es[i].input.raw).value);
    ResyncNeeds(ss[i], es[i]);
    RunIsReplay(cfg, ss, es, i);
    ReplayIsLatest(log[..i], privateId);
    k := LatestBatch(log[..i], privateId).value;
    assert log[..i][k] == BatchOf(ss[k], es[k]);
    forall j | k < j < i ensures !To(BatchOf(ss[j], es[j]), privateId) {
      assert log[..i][j] == BatchOf(ss[j], es[j]);
    }
    BatchesNameSomeone(ss[k], es[k]);
  }

  lemma BatchesNameSomeone(s: State, e: Event)
    ensures BatchOf(s, e).Some? ==> BatchOf(s, e).value.privateId != []
  {
  }

  // Different batches start with different RANDs.
  ghost predicate DistinctRands(ss: seq<State>, es: seq<Event>)
    requires |es| <= |ss|
  {
    forall k, l :: 0 <= k < l < |es| && BatchOf(ss[k], es[k]).Some? && BatchOf(ss[l], es[l]).Some? ==>
      BatchOf(ss[k], es[k]).value.rand != BatchOf(ss[l], es[l]).value.rand
  }

  // With distinct draws one RAND is good for at most one resynchronisation, by
  // whatever identity.
  lemma OneResyncPerRand(cfg: Config, ss: seq<State>, es: seq<Event>, i: nat, j: nat)
    requires Run(cfg, ss, es) && i < j < |es| && DistinctRands(ss, es)
    requires Resyncs(ss[i], es[i]) && Resyncs(ss[j], es[j])
    ensures NamedRand(es[i]) != NamedRand(es[j])
  {
    var k := ResyncNamesLatest(cfg, ss, es, i);
    var l := ResyncNamesLatest(cfg, ss, es, j);
    if k == l {
      // Both name one batch, but event i issued a later one to the same identity.
      assert To(BatchOf(ss[i], es[i]), BatchOf(ss[j], es[j]).value.privateId);
    }
  }
}
