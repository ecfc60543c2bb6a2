// The per-nonce request counter of digest authentication (section 3.4 of
// RFC 7616): what the hexadecimal loop computes, and how the remembered count
// moves over whole runs.
module DigestCounts {
  import opened Digest
  import opened DigestRuns
  import opened RingCache
  import opened Text

  // --- The hexadecimal value ---

  function Power16(k: nat): nat {
    if k == 0 then 1 else 16 * Power16(k - 1)
  }

  // Each digit weighted by its place, read from the left.
  function PlaceValue(s: string): nat {
    if s == [] then 0 else HexDigit(s[0]) * Power16(|s| - 1) + PlaceValue(s[1..])
  }

  lemma {:induction false} HexValueFirstDigit(c: char, t: string)
    ensures HexValue([c] + t) == HexDigit(c) * Power16(|t|) + HexValue(t)
  {
    var s := [c] + t;
    if t == [] {
      assert s[..0] == [];
    } else {
      var n := |t| - 1;
      HexValueFirstDigit(c, t[..n]);
      assert s[..|s| - 1] == [c] + t[..n];
      ScaleBy16(HexDigit(c), Power16(n));
    }
  }

  lemma ScaleBy16(d: nat, p: nat)
    ensures d * (16 * p) == 16 * (d * p)
  {
  }

  lemma {:induction false} HexValueIsPlaceValue(s: string)
    ensures HexValue(s) == PlaceValue(s)
  {
    if s == [] {
    } else {
      HexValueIsPlaceValue(s[1..]);
      HexValueFirstDigit(s[0], s[1..]);
      assert s == [s[0]] + s[1..];
    }
  }

  // Hex counts of one length are equal only when written the same.
  lemma {:induction false} HexValueInjective(s: string, t: string)
    requires |s| == |t| && HexValue(s) == HexValue(t)
    requires forall i :: 0 <= i < |s| ==> IsHexLower(s[i]) && IsHexLower(t[i])
    ensures s == t
  {
    if s == [] {
    } else {
      var n := |s| - 1;
      HexValueInjective(s[..n], t[..n]);
      assert s == s[..n] + [s[n]] && t == t[..n] + [t[n]];
    }
  }

  // --- One step ---

  // A request that reaches the counter of `nonce` if it gets that far.
  predicate CountsOn(e: Event, nonce: string) {
    e.Credential? && e.req.header.Some? && e.req.header.value.nonce == nonce && |e.req.header.value.nc| == 8
  }

  function CountOf(e: Event): nat
    requires e.Credential? && e.req.header.Some?
  {
    HexValue(Lower(e.req.header.value.nc))
  }

  ghost predicate CountMoves(r: Rings, m: Cache, e: Event, n: Cache, nonce: string) {
    || LastCount(r, n, nonce) == LastCount(r, m, nonce)
    || (CountsOn(e, nonce) && LastCount(r, n, nonce) == CountOf(e)
        && (CountOf(e) == 0 || CountOf(e) > LastCount(r, m, nonce)))
  }

  lemma CountKeyInjective(r: Rings, a: string, b: string)
    requires CountKey(r, a) == CountKey(r, b)
    ensures a == b
  {
    assert CountKey(r, a)[|r.countPrefix|..] == a && CountKey(r, b)[|r.countPrefix|..] == b;
  }

  lemma CountOwned(r: Rings, nonce: string)
    requires r.Ok()
    ensures r.counts.Owns(CountKey(r, nonce)) && !r.counts.IsBookkeeping(CountKey(r, nonce))
  {
    assert HasPrefix(CountKey(r, nonce), r.countPrefix);
    OwnedNotBookkeeping(r.counts, CountKey(r, nonce));
  }

  // What a counted request leaves in the counter of any nonce still remembered.
  lemma CountStepCount(r: Rings, m: Cache, c: Credentials, nonce: string)
    requires Healthy(r, m) && CountStep(r, m, c).Some?
    requires CountKey(r, nonce) in CountStep(r, m, c).value
    ensures LastCount(r, CountStep(r, m, c).value, nonce)
      == if c.nonce == nonce && |c.nc| == 8 then HexValue(Lower(c.nc)) else LastCount(r, m, nonce)
  {
    if |c.nc| == 8 {
      var key, value := CountKey(r, c.nonce), IntText(HexValue(Lower(c.nc)));
      CountOwned(r, c.nonce);
      CountOwned(r, nonce);
      StoreEffect(Shared(m), r.counts, key, value, CountKey(r, nonce));
      SetInIsShared(m, r.counts, key, value);
      ParseIntText(HexValue(Lower(c.nc)));
      if CountKey(r, nonce) == key { CountKeyInjective(r, nonce, c.nonce); }
    }
  }

  lemma AgreeSameCount(r: Rings, m: Cache, n: Cache, nonce: string)
    requires r.Ok() && AgreeOn(Shared(m), Shared(n), r.counts)
    ensures LastCount(r, n, nonce) == LastCount(r, m, nonce)
    ensures CountKey(r, nonce) in m <==> CountKey(r, nonce) in n
  {
    CountOwned(r, nonce);
  }

  lemma MarkLeavesCounts(r: Rings, m: Cache, key: string, at: int)
    requires Healthy(r, m) && r.used.Owns(key)
    ensures AgreeOn(Shared(m), Shared(SetIn(m, r.used, key, IntText(at))), r.counts)
  {
    assert DisjointDomains(r.used, r.counts);
    SetInEffect(m, r.used, r.counts, key, IntText(at));
  }

  lemma ConcludeCount(r: Rings, m: Cache, c: Credentials, method_: string, proved: bool, usedAt: int, nonce: string)
    requires Healthy(r, m)
    requires CountKey(r, nonce) in Conclude(r, m, c, method_, proved, usedAt).0
    ensures var (n, verdict) := Conclude(r, m, c, method_, proved, usedAt);
      var here := c.nonce == nonce && |c.nc| == 8;
      var count := HexValue(Lower(c.nc));
      && (LastCount(r, n, nonce) == LastCount(r, m, nonce)
          || (here && LastCount(r, n, nonce) == count && (count == 0 || count > LastCount(r, m, nonce))))
      && (verdict == Accepted && here ==>
            LastCount(r, n, nonce) == count && (count == 0 || count > LastCount(r, m, nonce)))
  {
    var counted := CountStep(r, m, c);
    if counted.Some? {
      CountStepEffect(r, m, c);
      var key := UsedKey(r, c, method_);
      KeysOwned(r, c, method_);
      MarkLeavesCounts(r, counted.value, key, usedAt);
      AgreeSameCount(r, counted.value, SetIn(counted.value, r.used, key, IntText(usedAt)), nonce);
      CountStepCount(r, m, c, nonce);
    }
  }

  // A check either stops before the stateful part or is that part.
  ghost predicate StoppedOrConcluded(r: Rings, m: Cache, e: Event, n: Cache)
    requires e.Credential?
  {
    || (n == m && !e.Admits())
    || (e.req.header.Some?
        && exists proved: bool ::
          (n, e.verdict) == Conclude(r, m, e.req.header.value, e.req.method_, proved, e.w.usedAt))
  }

  lemma CheckShape(r: Rings, m: Cache, e: Event, n: Cache)
    requires e.Credential? && (n, e.verdict) == Check(r, m, e.req, e.w)
    ensures StoppedOrConcluded(r, m, e, n)
  {
    if e.w.dbOk && e.req.header.Some? && WellFormedHeader(e.req.header.value) {
      var proved := Proved(e.req.header.value, e.req, e.w);
      assert (n == m && !e.Admits())
        || (n, e.verdict) == Conclude(r, m, e.req.header.value, e.req.method_, proved, e.w.usedAt);
    }
  }

  lemma CheckCount(r: Rings, m: Cache, e: Event, n: Cache, nonce: string)
    requires Healthy(r, m) && CountKey(r, nonce) in n
    requires e.Credential? && StoppedOrConcluded(r, m, e, n)
    ensures CountMoves(r, m, e, n, nonce)
    ensures e.Admits() && CountsOn(e, nonce) ==>
      LastCount(r, n, nonce) == CountOf(e) && (CountOf(e) == 0 || CountOf(e) > LastCount(r, m, nonce))
  {
    if !(n == m && !e.Admits()) {
      var c := e.req.header.value;
      var proved: bool :| (n, e.verdict) == Conclude(r, m, c, e.req.method_, proved, e.w.usedAt);
      ConcludeCount(r, m, c, e.req.method_, proved, e.w.usedAt, nonce);
    }
  }

  lemma StepCount(r: Rings, m: Cache, e: Event, n: Cache, nonce: string)
    requires Healthy(r, m) && Step(r, m, e, n) && CountKey(r, nonce) in n
    ensures CountMoves(r, m, e, n, nonce)
    ensures e.Admits() && CountsOn(e, nonce) ==>
      LastCount(r, n, nonce) == CountOf(e) && (CountOf(e) == 0 || CountOf(e) > LastCount(r, m, nonce))
  {
    match e
    case Credential(req, w, verdict) =>
      CheckShape(r, m, e, n);
      CheckCount(r, m, e, n, nonce);
    case MarkUsed(key, at) =>
      MarkLeavesCounts(r, m, key, at);
      AgreeSameCount(r, m, n, nonce);
    case Elsewhere =>
      AgreeSameCount(r, m, n, nonce);
  }

  // --- Runs ---

  lemma {:induction false} HealthyThroughout(r: Rings, ms: seq<Cache>, es: seq<Event>, i: nat)
    requires Run(r, ms, es) && i <= |es|
    ensures Healthy(r, ms[i])
  {
    if i == 0 {
    } else {
      HealthyThroughout(r, ms, es, i - 1);
      assert Step(r, ms[i - 1], es[i - 1], ms[i]);
      StepEffect(r, ms[i - 1], es[i - 1], ms[i]);
    }
  }

  // While its entry is kept and no request says count zero, the counter of a
  // nonce never goes down, failed attempts included.
  lemma {:induction false} CountNeverFalls(r: Rings, ms: seq<Cache>, es: seq<Event>, i: nat, j: nat, nonce: string)
    requires Run(r, ms, es) && i <= j <= |es|
    requires forall k :: i < k <= j ==> CountKey(r, nonce) in ms[k]
    requires forall k :: i <= k < j && CountsOn(es[k], nonce) ==> CountOf(es[k]) > 0
    ensures LastCount(r, ms[i], nonce) <= LastCount(r, ms[j], nonce)
  {
    hide Healthy, Step, LastCount, CountKey, HexValue;
    if i == j {
    } else {
      CountNeverFalls(r, ms, es, i, j - 1, nonce);
      HealthyThroughout(r, ms, es, j - 1);
      assert Step(r, ms[j - 1], es[j - 1], ms[j]);
      StepCount(r, ms[j - 1], es[j - 1], ms[j], nonce);
    }
  }

  // Accepted counts on one nonce strictly increase under the same conditions.
  lemma AcceptedCountsIncrease(r: Rings, ms: seq<Cache>, es: seq<Event>, i: nat, j: nat, nonce: string)
    requires Run(r, ms, es) && i < j < |es|
    requires forall k :: i < k <= j + 1 ==> CountKey(r, nonce) in ms[k]
    requires forall k :: i <= k <= j && CountsOn(es[k], nonce) ==> CountOf(es[k]) > 0
    requires es[i].Admits() && CountsOn(es[i], nonce)
    requires es[j].Admits() && CountsOn(es[j], nonce)
    ensures CountOf(es[i]) < CountOf(es[j])
  {
    HealthyThroughout(r, ms, es, i);
    HealthyThroughout(r, ms, es, j);
    assert Step(r, ms[i], es[i], ms[i + 1]) && Step(r, ms[j], es[j], ms[j + 1]);
    StepCount(r, ms[i], es[i], ms[i + 1], nonce);
    CountNeverFalls(r, ms, es, i + 1, j, nonce);
    StepCount(r, ms[j], es[j], ms[j + 1], nonce);
  }

  // The stored count falls exactly when a request with count zero reaches it.
  lemma CountFallsIff(r: Rings, m: Cache, e: Event, n: Cache, nonce: string)
    requires Healthy(r, m) && Step(r, m, e, n) && CountKey(r, nonce) in n
    ensures LastCount(r, n, nonce) < LastCount(r, m, nonce)
      <==> && CountsOn(e, nonce) && Reaches(m, e.req, e.w) && CountOf(e) == 0 && LastCount(r, m, nonce) > 0
  {
    hide Reaches, LastCount, CountKey, Healthy, Check;
    StepCount(r, m, e, n, nonce);
    if CountsOn(e, nonce) {
      if Reaches(m, e.req, e.w) && CountOf(e) == 0 {
        ZeroIsStored(r, m, e, n, nonce);
      } else if !Reaches(m, e.req, e.w) {
        StoppedBefore(r, m, e.req, e.w);
      }
    }
  }

  // A request that does not get as far as the counter changes nothing.
  lemma StoppedBefore(r: Rings, m: Cache, req: Request, w: World)
    requires !Reaches(m, req, w)
    ensures Check(r, m, req, w).0 == m
  {
    hide WellFormedHeader, NonceKnown, NonceTtl;
  }

  lemma ZeroIsStored(r: Rings, m: Cache, e: Event, n: Cache, nonce: string)
    requires Healthy(r, m) && CountsOn(e, nonce) && (n, e.verdict) == Check(r, m, e.req, e.w)
    requires Reaches(m, e.req, e.w) && CountOf(e) == 0 && CountKey(r, nonce) in n
    ensures LastCount(r, n, nonce) == 0
  {
    hide WellFormedHeader, NonceKnown, NonceTtl, Proved, HexValue, Sound, SetIn, UsedKey, CountKey;
    var c := e.req.header.value;
    var counted := CountStep(r, m, c).value;
    var key := UsedKey(r, c, e.req.method_);
    CountStepEffect(r, m, c);
    KeysOwned(r, c, e.req.method_);
    MarkLeavesCounts(r, counted, key, e.w.usedAt);
    AgreeSameCount(r, counted, SetIn(counted, r.used, key, IntText(e.w.usedAt)), nonce);
    CountStepCount(r, m, c, nonce);
  }

  // Without the second condition it fails: a request with count zero is let
  // through at any time and lets every lower count in again.
  lemma ZeroCountReopens(r: Rings, m: Cache, zero: Credentials, low: Credentials)
    requires Healthy(r, m) && zero.nonce == low.nonce && |zero.nc| == 8 == |low.nc|
    requires HexValue(Lower(zero.nc)) == 0
    requires 0 < HexValue(Lower(low.nc)) <= LastCount(r, m, low.nonce)
    ensures CountStep(r, m, low).None?
    ensures CountStep(r, m, zero).Some?
    ensures CountStep(r, CountStep(r, m, zero).value, low).Some?
  {
    var key := CountKey(r, zero.nonce);
    CountOwned(r, zero.nonce);
    StoreEffect(Shared(m), r.counts, key, IntText(0), key);
    SetInIsShared(m, r.counts, key, IntText(0));
    CountStepCount(r, m, zero, low.nonce);
  }
}
