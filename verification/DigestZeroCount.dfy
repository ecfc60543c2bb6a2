// A nonce count of zero, seen by the whole credential check of the worker.
module DigestZeroCount {
  import opened Digest
  import opened DigestCounts
  import opened DigestRuns
  import opened RingCache
  import opened Text
  import opened WorkerRings
  import Queue = BoundedRing

  // Writing to either ring of the check leaves every stored nonce as it was.
  lemma NonceKept(m: Cache, d: Domain, key: string, value: string, nonce: string)
    requires Healthy(RINGS, m) && (d == COUNTS || d == USED) && d.Owns(key)
    ensures var n := SetIn(m, d, key, value);
      && ("nonce|" + nonce in n <==> "nonce|" + nonce in m)
      && Get(n, "nonce|" + nonce) == Get(m, "nonce|" + nonce)
  {
    hide BoundedStateSet, SetIn, DisjointDomains, Sound;
    NoncesBesideCounts();
    NoncesBesideUsed();
    SetFrame(Shared(m), d, NONCES, key, value);
    SetInIsShared(m, d, key, value);
    assert HasPrefix("nonce|" + nonce, "nonce|");
    assert NONCES.Names("nonce|" + nonce);
  }

  // A proved, unused request with count zero is accepted and resets the counter.
  lemma ZeroCountAccepted(m: Cache, req: Request, w: World)
    requires Healthy(RINGS, m) && Reaches(m, req, w) && Proved(req.header.value, req, w)
    requires |req.header.value.nc| == 8 && HexValue(Lower(req.header.value.nc)) == 0
    requires KeyOf(RINGS, req) !in m
    ensures var (n, verdict) := Check(RINGS, m, req, w);
      var nonce := req.header.value.nonce;
      && verdict == Accepted && Healthy(RINGS, n) && LastCount(RINGS, n, nonce) == 0
      && ("nonce|" + nonce in n <==> "nonce|" + nonce in m)
      && Get(n, "nonce|" + nonce) == Get(m, "nonce|" + nonce)
      && (forall k :: USED.Owns(k) && k !in m && k != KeyOf(RINGS, req) ==> k !in n)
  {
    hide WellFormedHeader, NonceKnown, NonceTtl, Proved, HexValue, SetIn, UsedKey, CountKey, BoundedStateSet, Sound, LastCount;
    var c := req.header.value;
    var key := CountKey(RINGS, c.nonce);
    CountOwned(RINGS, c.nonce);
    KeysOwned(RINGS, c, req.method_);
    CountStepEffect(RINGS, m, c);
    var counted := CountStep(RINGS, m, c).value;
    NonceKept(m, COUNTS, key, IntText(0), c.nonce);
    AcceptedIff(RINGS, m, req, w);
    var used := UsedKey(RINGS, c, req.method_);
    var n := SetIn(counted, USED, used, IntText(w.usedAt));
    assert Check(RINGS, m, req, w) == (n, Accepted);
    NonceKept(counted, USED, used, IntText(w.usedAt), c.nonce);
    MarkEffect(RINGS, counted, used, w.usedAt);
    MarkLeavesCounts(RINGS, counted, used, w.usedAt);
    AgreeSameCount(RINGS, counted, n, c.nonce);
    StoreEffect(Shared(m), COUNTS, key, IntText(0), key);
    SetInIsShared(m, COUNTS, key, IntText(0));
    CountStepCount(RINGS, m, c, c.nonce);
    OnlyOneMarked(m, n, used);
  }

  lemma OnlyOneMarked(m: Cache, n: Cache, used: string)
    requires Healthy(RINGS, m) && Healthy(RINGS, n)
    requires UsedView(RINGS, n) == Queue.Insert(UsedView(RINGS, m), used, USED.ring.capacity)
    ensures forall k :: USED.Owns(k) && k !in m && k != used ==> k !in n
  {
    hide IntText, ParseInt;
    forall k | USED.Owns(k) && k !in m && k != used ensures k !in n {
      assert k in UsedView(RINGS, n).live <==> k in n;
      assert k in UsedView(RINGS, m).live <==> k in m;
    }
  }

  // So accepted counts need not increase: a count that is refused now is accepted
  // after a request with count zero.
  lemma ZeroThenLowerAccepted(m: Cache, zero: Request, zeroWorld: World, low: Request, lowWorld: World)
    requires Healthy(RINGS, m) && Reaches(m, zero, zeroWorld) && Reaches(m, low, lowWorld)
    requires Proved(zero.header.value, zero, zeroWorld) && Proved(low.header.value, low, lowWorld)
    requires KeyOf(RINGS, zero) !in m && KeyOf(RINGS, low) !in m && KeyOf(RINGS, zero) != KeyOf(RINGS, low)
    requires var c, d := zero.header.value, low.header.value;
      && c.nonce == d.nonce && |c.nc| == 8 == |d.nc| && HexValue(Lower(c.nc)) == 0
      && 0 < HexValue(Lower(d.nc)) <= LastCount(RINGS, m, d.nonce)
    ensures var (n, verdict) := Check(RINGS, m, zero, zeroWorld);
      && verdict == Accepted
      && Check(RINGS, m, low, lowWorld).1 == Rejected
      && Check(RINGS, n, low, lowWorld).1 == Accepted
  {
    hide WellFormedHeader, NonceTtl, Proved, HexValue, SetIn, Sound, Check, KeyOf, LastCount;
    ZeroCountAccepted(m, zero, zeroWorld);
    var n := Check(RINGS, m, zero, zeroWorld).0;
    AcceptedIff(RINGS, m, low, lowWorld);
    AcceptedIff(RINGS, n, low, lowWorld);
    LowKeyOwned(low);
    assert Reaches(n, low, lowWorld);
    RefusedCount(m, low, lowWorld);
  }

  lemma LowKeyOwned(req: Request)
    requires req.header.Some?
    ensures USED.Owns(KeyOf(RINGS, req))
  {
    WorkerRingsOk();
    KeysOwned(RINGS, req.header.value, req.method_);
  }

  lemma RefusedCount(m: Cache, req: Request, w: World)
    requires Reaches(m, req, w) && |req.header.value.nc| == 8
    requires 0 < HexValue(Lower(req.header.value.nc)) <= LastCount(RINGS, m, req.header.value.nonce)
    ensures Check(RINGS, m, req, w).1 == Rejected
  {
    hide WellFormedHeader, NonceKnown, NonceTtl, Proved, HexValue, LastCount;
  }
}
