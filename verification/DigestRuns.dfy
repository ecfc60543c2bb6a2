// What credential checking guarantees over whole runs of the worker.
module DigestRuns {
  import opened Digest
  import opened RingCache
  import opened Text
  import Queue = BoundedRing

  // --- The worker's two rings never interfere ---

  lemma WorkerRingsOk()
    ensures RINGS.Ok()
  {
    CountsWellFormed();
    UsedWellFormed();
    CountsAndUsedDisjoint();
  }

  lemma CountsWellFormed()
    ensures COUNTS.WellFormed()
  {
    DifferAt("nonce_nc|", "nonce_nc_ring|", 8);
    DifferAt("nonce_nc_seq", "nonce_nc|", 8);
    DifferAt("nonce_nc_seq", "nonce_nc_ring|", 9);
  }

  lemma UsedWellFormed()
    ensures USED.WellFormed()
  {
    DifferAt("nonce_used|", "auth_used_ring|", 0);
    DifferAt("ims-aka-used|", "auth_used_ring|", 0);
    DifferAt("auth_used_seq", "nonce_used|", 0);
    DifferAt("auth_used_seq", "ims-aka-used|", 0);
    DifferAt("auth_used_seq", "auth_used_ring|", 10);
    DifferAt("nonce_used|", "ims-aka-used|", 0);
  }

  lemma CountsAndUsedDisjoint()
    ensures DisjointDomains(COUNTS, USED)
  {
    forall p, q | p in COUNTS.Words() && q in USED.Words() ensures Incomparable(p, q) {
      if q == "nonce_used|" { DifferAt(p, q, 6); } else { DifferAt(p, q, 0); }
    }
  }

  lemma KeysOwned(r: Rings, c: Credentials, method_: string)
    requires r.Ok()
    ensures r.counts.Owns(CountKey(r, c.nonce)) && r.used.Owns(UsedKey(r, c, method_))
  {
    assert CountKey(r, c.nonce)[..|r.countPrefix|] == r.countPrefix;
    assert UsedKey(r, c, method_)[..|r.usedPrefix|] == r.usedPrefix;
    assert HasPrefix(CountKey(r, c.nonce), r.countPrefix);
    assert HasPrefix(UsedKey(r, c, method_), r.usedPrefix);
  }

  // --- One credential check, seen by the replay ring ---

  function KeyOf(r: Rings, req: Request): string {
    if req.header.Some? then UsedKey(r, req.header.value, req.method_) else ""
  }

  ghost predicate Healthy(r: Rings, m: Cache) {
    r.Ok() && Sound(Shared(m), r.counts) && Sound(Shared(m), r.used)
  }

  ghost function UsedView(r: Rings, m: Cache): Queue.State<string>
    requires Healthy(r, m)
  {
    View(Shared(m), r.used)
  }

  lemma SetInEffect(m: Cache, d: Domain, e: Domain, key: string, value: string)
    requires Sound(Shared(m), d) && Sound(Shared(m), e) && d.Owns(key) && DisjointDomains(d, e)
    ensures var n := SetIn(m, d, key, value);
      && Sound(Shared(n), d) && View(Shared(n), d) == Queue.Insert(View(Shared(m), d), key, d.ring.capacity)
      && Sound(Shared(n), e) && View(Shared(n), e) == View(Shared(m), e)
      && AgreeOn(Shared(m), Shared(n), e)
  {
    SetBeside(Shared(m), d, e, key, value);
    SetInIsShared(m, d, key, value);
  }

  lemma SetInIsShared(m: Cache, d: Domain, key: string, value: string)
    requires d.ring.capacity > 0
    ensures BoundedStateSet(Shared(m), d.ring, key, value) == Shared(SetIn(m, d, key, value))
  {
  }

  lemma CountStepEffect(r: Rings, m: Cache, c: Credentials)
    requires Healthy(r, m) && CountStep(r, m, c).Some?
    ensures var n := CountStep(r, m, c).value;
      && Healthy(r, n) && UsedView(r, n) == UsedView(r, m)
      && AgreeOn(Shared(m), Shared(n), r.used)
  {
    if |c.nc| == 8 {
      KeysOwned(r, c, "");
      SetInEffect(m, r.counts, r.used, CountKey(r, c.nonce), IntText(HexValue(Lower(c.nc))));
    }
  }

  lemma MarkEffect(r: Rings, m: Cache, key: string, usedAt: int)
    requires Healthy(r, m) && r.used.Owns(key)
    ensures var n := SetIn(m, r.used, key, IntText(usedAt));
      && Healthy(r, n)
      && UsedView(r, n) == Queue.Insert(UsedView(r, m), key, r.used.ring.capacity)
  {
    assert DisjointDomains(r.used, r.counts);
    SetInEffect(m, r.used, r.counts, key, IntText(usedAt));
  }

  // Acceptance needs an unused tuple and marks it used; nothing else does.
  lemma ConcludeEffect(r: Rings, m: Cache, c: Credentials, method_: string, proved: bool, usedAt: int)
    requires Healthy(r, m)
    ensures var (n, verdict) := Conclude(r, m, c, method_, proved, usedAt);
      && Healthy(r, n)
      && (verdict == Accepted ==>
            && UsedKey(r, c, method_) !in UsedView(r, m).live
            && UsedView(r, n) == Queue.Insert(UsedView(r, m), UsedKey(r, c, method_), r.used.ring.capacity))
      && (verdict != Accepted ==> UsedView(r, n) == UsedView(r, m))
  {
    var counted := CountStep(r, m, c);
    if counted.Some? {
      CountStepEffect(r, m, c);
      KeysOwned(r, c, method_);
      MarkEffect(r, counted.value, UsedKey(r, c, method_), usedAt);
    }
  }

  lemma CheckEffect(r: Rings, m: Cache, req: Request, w: World)
    requires Healthy(r, m)
    ensures var (n, verdict) := Check(r, m, req, w);
      && Healthy(r, n)
      && (verdict == Accepted && w.dbOk ==>
            && KeyOf(r, req) !in UsedView(r, m).live
            && UsedView(r, n) == Queue.Insert(UsedView(r, m), KeyOf(r, req), r.used.ring.capacity))
      && (!(verdict == Accepted && w.dbOk) ==> UsedView(r, n) == UsedView(r, m))
  {
    if w.dbOk && req.header.Some? && WellFormedHeader(req.header.value) {
      var c := req.header.value;
      ConcludeEffect(r, m, c, req.method_, Proved(c, req, w), w.usedAt);
    }
  }

  // --- Runs: credential checks mixed with any other code ---

  // MarkUsed is the IMS AKA code writing its own keys into the same ring.
  datatype Event =
    | Credential(req: Request, w: World, verdict: Verdict)
    | MarkUsed(key: string, at: int)
    | Elsewhere
  {
    // Accepted on the strength of the credential, with the database up.
    predicate Admits() { Credential? && w.dbOk && verdict == Accepted }
  }

  // Other code writes its own keys; it leaves these two rings alone.
  ghost predicate Step(r: Rings, m: Cache, e: Event, n: Cache) {
    match e
    case Credential(req, w, verdict) => (n, verdict) == Check(r, m, req, w)
    case MarkUsed(key, at) => r.used.Owns(key) && n == SetIn(m, r.used, key, IntText(at))
    case Elsewhere => AgreeOn(Shared(m), Shared(n), r.counts) && AgreeOn(Shared(m), Shared(n), r.used)
  }

  ghost predicate Run(r: Rings, ms: seq<Cache>, es: seq<Event>) {
    && |ms| == |es| + 1
    && Healthy(r, ms[0])
    && forall i :: 0 <= i < |es| ==> Step(r, ms[i], es[i], ms[i + 1])
  }

  // The key an event puts into the replay ring, if any.
  function RingKey(r: Rings, e: Event): seq<string> {
    if e.Admits() then [KeyOf(r, e.req)] else if e.MarkUsed? then [e.key] else []
  }

  function RingKeys(r: Rings, es: seq<Event>): seq<string> {
    if es == [] then [] else RingKeys(r, es[..|es| - 1]) + RingKey(r, es[|es| - 1])
  }

  lemma StepEffect(r: Rings, m: Cache, e: Event, n: Cache)
    requires Healthy(r, m) && Step(r, m, e, n)
    ensures Healthy(r, n)
    ensures UsedView(r, n) == Queue.InsertAll(UsedView(r, m), RingKey(r, e), r.used.ring.capacity)
    ensures e.Admits() ==> KeyOf(r, e.req) !in UsedView(r, m).live
  {
    var keys := RingKey(r, e);
    if keys != [] {
      assert keys[..0] == [];
      assert Queue.InsertAll(UsedView(r, m), keys, r.used.ring.capacity)
        == Queue.Insert(UsedView(r, m), keys[0], r.used.ring.capacity);
    }
    match e
    case Credential(req, w, verdict) => CheckEffect(r, m, req, w);
    case MarkUsed(key, at) => MarkEffect(r, m, key, at);
    case Elsewhere =>
      AgreeSameView(Shared(m), Shared(n), r.counts);
      AgreeSameView(Shared(m), Shared(n), r.used);
  }

  // Over a run the replay ring is the queue of the keys put into it, and every
  // accepted tuple is new to it.
  lemma {:induction false} UsedIsQueue(r: Rings, ms: seq<Cache>, es: seq<Event>, q: seq<string>)
    requires Run(r, ms, es)
    requires Queue.Fifo(UsedView(r, ms[0]), r.used.ring.capacity, q)
    ensures Healthy(r, ms[|es|])
    ensures Queue.Fifo(UsedView(r, ms[|es|]), r.used.ring.capacity,
                       Queue.FifoAll(q, RingKeys(r, es), r.used.ring.capacity))
    ensures (forall e :: e in es ==> !e.MarkUsed?) ==>
      Queue.NewKeys(q, RingKeys(r, es), r.used.ring.capacity) == |RingKeys(r, es)|
  {
    hide Step, KeyOf, Sound, View, Queue.Fifo, Queue.Insert, Queue.FifoSet;
    if es == [] {
    } else {
      var n, cap := |es| - 1, r.used.ring.capacity;
      var before, last := es[..n], es[n];
      UsedIsQueue(r, ms[..|es|], before, q);
      assert Step(r, ms[n], last, ms[n + 1]);
      StepEffect(r, ms[n], last, ms[n + 1]);
      AppendKeys(UsedView(r, ms[n]), q, RingKeys(r, before), RingKey(r, last), cap);
    }
  }

  // Adding at most one key to the queue.
  lemma AppendKeys(a: Queue.State<string>, q: seq<string>, before: seq<string>, added: seq<string>, cap: nat)
    requires |added| <= 1 && Queue.Fifo(a, cap, Queue.FifoAll(q, before, cap))
    ensures Queue.Fifo(Queue.InsertAll(a, added, cap), cap, Queue.FifoAll(q, before + added, cap))
    ensures Queue.NewKeys(q, before + added, cap)
      == Queue.NewKeys(q, before, cap) + if added == [] || added[0] in a.live then 0 else 1
  {
    if added == [] {
      assert before + added == before;
    } else {
      assert (before + added)[..|before|] == before;
      assert added[..0] == [];
      Queue.FifoStep(a, cap, Queue.FifoAll(q, before, cap), added[0]);
    }
  }

  // The newest entry outlives fewer than `cap` later keys; as many as `cap` keys,
  // all of them new, push it out.
  lemma LaterKeys(q: seq<string>, keys: seq<string>, cap: nat)
    requires Queue.Distinct(q) && 0 < |q| <= cap && |keys| <= cap
    ensures |keys| < cap ==> q[|q| - 1] in Queue.FifoAll(q, keys, cap)
    ensures |keys| == cap == Queue.NewKeys(q, keys, cap) ==> q[|q| - 1] !in Queue.FifoAll(q, keys, cap)
  {
    NewKeysAtMost(q, keys, cap);
    Queue.NewestSurvivesExactly(q, keys, cap, q[|q| - 1]);
    if |keys| == cap {
      var before, last := keys[..cap - 1], keys[cap - 1];
      assert keys == before + [last];
      NewKeysAtMost(q, before, cap);
      Queue.NewestSurvivesExactly(q, before, cap, last);
    }
  }

  lemma {:induction false} NewKeysAtMost(q: seq<string>, keys: seq<string>, capacity: nat)
    ensures Queue.NewKeys(q, keys, capacity) <= |keys|
  {
    if keys == [] {
    } else {
      NewKeysAtMost(q, keys[..|keys| - 1], capacity);
    }
  }

  lemma RunParts(r: Rings, ms: seq<Cache>, es: seq<Event>, i: nat)
    requires Run(r, ms, es) && i <= |es|
    ensures Run(r, ms[..i + 1], es[..i])
    ensures Healthy(r, ms[i]) ==> Run(r, ms[i..], es[i..])
  {
    forall k | 0 <= k < |es[i..]| ensures Step(r, ms[i..][k], es[i..][k], ms[i..][k + 1]) {
      assert Step(r, ms[i + k], es[i + k], ms[i + k + 1]);
    }
  }

  // The state after an acceptance: its tuple is the newest in the queue.
  lemma AcceptanceQueued(r: Rings, ms: seq<Cache>, es: seq<Event>, i: nat, q: seq<string>) returns (q1: seq<string>)
    requires Run(r, ms, es) && i < |es| && es[i].Admits()
    requires Queue.Fifo(UsedView(r, ms[0]), r.used.ring.capacity, q)
    ensures q1 != [] && q1[|q1| - 1] == KeyOf(r, es[i].req)
    ensures Run(r, ms[i + 1..], es[i + 1..])
    ensures Queue.Fifo(UsedView(r, ms[i + 1]), r.used.ring.capacity, q1)
  {
    RunParts(r, ms, es, i);
    UsedIsQueue(r, ms[..i + 1], es[..i], q);
    var qi := Queue.FifoAll(q, RingKeys(r, es[..i]), r.used.ring.capacity);
    q1 := AcceptanceStep(r, ms[i], es[i], ms[i + 1], qi);
    RunParts(r, ms, es, i + 1);
  }

  lemma AcceptanceStep(r: Rings, m: Cache, e: Event, n: Cache, q: seq<string>) returns (q1: seq<string>)
    requires Healthy(r, m) && Step(r, m, e, n) && e.Admits()
    requires Queue.Fifo(UsedView(r, m), r.used.ring.capacity, q)
    ensures q1 != [] && q1[|q1| - 1] == KeyOf(r, e.req)
    ensures Healthy(r, n) && Queue.Fifo(UsedView(r, n), r.used.ring.capacity, q1)
  {
    hide Step, KeyOf, Sound, View, Queue.Insert;
    var key := KeyOf(r, e.req);
    StepEffect(r, m, e, n);
    AppendKeys(UsedView(r, m), q, [], [key], r.used.ring.capacity);
    q1 := Queue.FifoSet(q, key, r.used.ring.capacity);
    assert ([] + [key])[..0] == [];
  }

  // An accepted credential tuple is never accepted again while fewer keys than
  // the ring holds have entered it since.
  lemma ReplayRejected(r: Rings, ms: seq<Cache>, es: seq<Event>, i: nat, j: nat, q: seq<string>)
    requires Run(r, ms, es) && i < j < |es|
    requires Queue.Fifo(UsedView(r, ms[0]), r.used.ring.capacity, q)
    requires es[i].Admits() && es[j].Credential? && KeyOf(r, es[j].req) == KeyOf(r, es[i].req)
    requires |RingKeys(r, es[i + 1..j])| < r.used.ring.capacity
    ensures !es[j].Admits()
  {
    hide Step, KeyOf, RingKeys, Sound, View, RingKey;
    var q1 := AcceptanceQueued(r, ms, es, i, q);
    UsedIsQueue(r, ms[i + 1..j + 1], es[i + 1..j], q1);
    LaterKeys(q1, RingKeys(r, es[i + 1..j]), r.used.ring.capacity);
    assert Step(r, ms[j], es[j], ms[j + 1]);
    StepEffect(r, ms[j], es[j], ms[j + 1]);
  }

  // The same nonce, user, method, URI and count, by the same client nonce.
  predicate SameTuple(a: Request, b: Request) {
    && a.header.Some? && b.header.Some? && a.method_ == b.method_
    && var c, d := a.header.value, b.header.value;
       && c.nonce == d.nonce && c.username == d.username && c.uri == d.uri
       && (c.qop == "" <==> d.qop == "") && c.nc == d.nc && c.cnonce == d.cnonce
  }

  lemma SameTupleSameKey(r: Rings, a: Request, b: Request)
    requires SameTuple(a, b)
    ensures KeyOf(r, a) == KeyOf(r, b)
  {
  }

  // From an empty cache, whatever proof, realm or response a later request with the
  // tuple of an accepted one carries, it is refused inside that window.
  lemma ReplayedTupleRejected(r: Rings, ms: seq<Cache>, es: seq<Event>, i: nat, j: nat)
    requires Run(r, ms, es) && ms[0] == map[] && i < j < |es|
    requires es[i].Admits() && es[j].Credential? && SameTuple(es[j].req, es[i].req)
    requires |RingKeys(r, es[i + 1..j])| < r.used.ring.capacity
    ensures !es[j].Admits()
  {
    hide Step, KeyOf, RingKeys, Sound, View, RingKey, Queue.Fifo, SameTuple;
    EmptyCacheIsEmptyQueue(r.used);
    SameTupleSameKey(r, es[j].req, es[i].req);
    ReplayRejected(r, ms, es, i, j, []);
  }

  // A credential that passes every test before the stateful ones.
  predicate Reaches(m: Cache, req: Request, w: World) {
    && w.dbOk && req.header.Some? && WellFormedHeader(req.header.value)
    && NonceKnown(m, req.header.value)
    && w.now - ParseInt(m["nonce|" + req.header.value.nonce]).value <= NonceTtl(w)
  }

  // With the database up a request is accepted exactly when it gets that far, its
  // count is let through, its proof holds and its tuple is not remembered.
  lemma AcceptedIff(r: Rings, m: Cache, req: Request, w: World)
    requires Healthy(r, m) && w.dbOk
    ensures Check(r, m, req, w).1 == Accepted
      <==> && Reaches(m, req, w) && CountStep(r, m, req.header.value).Some?
           && Proved(req.header.value, req, w) && KeyOf(r, req) !in UsedView(r, m).live
  {
    hide WellFormedHeader, NonceKnown, NonceTtl, Proved, Sound, CountStep, UsedKey;
    if Reaches(m, req, w) && CountStep(r, m, req.header.value).Some? {
      CountStepEffect(r, m, req.header.value);
      KeysOwned(r, req.header.value, req.method_);
      var counted := CountStep(r, m, req.header.value).value;
      assert KeyOf(r, req) in UsedView(r, counted).live <==> KeyOf(r, req) in counted;
    }
  }

  // The bound is exact: once as many keys as the ring has slots have entered it, all
  // of them new, the tuple is no longer in it, and sending it again is accepted by
  // the same tests as a first time.
  lemma ReplayForgotten(r: Rings, ms: seq<Cache>, es: seq<Event>, i: nat, j: nat, q: seq<string>, req: Request, w: World)
    requires Run(r, ms, es) && i < j <= |es|
    requires Queue.Fifo(UsedView(r, ms[0]), r.used.ring.capacity, q)
    requires es[i].Admits() && KeyOf(r, req) == KeyOf(r, es[i].req) && w.dbOk
    requires forall e :: e in es[i + 1..j] ==> !e.MarkUsed?
    requires |RingKeys(r, es[i + 1..j])| == r.used.ring.capacity
    ensures Healthy(r, ms[j]) && KeyOf(r, req) !in UsedView(r, ms[j]).live
    ensures Check(r, ms[j], req, w).1 == Accepted
      <==> && Reaches(ms[j], req, w) && CountStep(r, ms[j], req.header.value).Some?
           && Proved(req.header.value, req, w)
  {
    hide Step, KeyOf, RingKeys, Sound, View, RingKey, Check, Reaches, Proved;
    var q1 := AcceptanceQueued(r, ms, es, i, q);
    UsedIsQueue(r, ms[i + 1..j + 1], es[i + 1..j], q1);
    LaterKeys(q1, RingKeys(r, es[i + 1..j]), r.used.ring.capacity);
    AcceptedIff(r, ms[j], req, w);
  }
}
