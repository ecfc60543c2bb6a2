// The per-user token bucket (dialplan.mko, db_rate_ok), kept as text in the
// ring-bounded cache: one token per 10 ms, at most `limit` of them.
module RateLimit {
  import opened RingCache
  import opened Text

  const RATE := Domain(Ring("rate_seq", "rate_ring|", 16384), {"rl|"}, false)

  const LIMIT_KEY := "rl_limit"
  const MAX_LIMIT := 1000000

  function BucketKey(user: string): string { "rl|" + user }

  datatype Bucket = Bucket(tokens: int, last: int)

  function BucketText(b: Bucket): string {
    IntText(b.tokens) + "|" + IntText(b.last)
  }

  // The limit in force: the cached one, or the environment's on first use.
  function LimitOf(m: Cache, env: string): int {
    var parsed := ParseInt(if LIMIT_KEY in m then m[LIMIT_KEY] else env);
    var limit := if parsed.Some? then parsed.value else 100;
    if LIMIT_KEY !in m && limit > MAX_LIMIT then MAX_LIMIT else limit
  }

  function CacheLimit(m: Cache, env: string): Cache {
    if LIMIT_KEY in m then m else m[LIMIT_KEY := IntText(LimitOf(m, env))]
  }

  // Tokens available at `now`.
  function Refill(b: Bucket, now: int, limit: int): int {
    var refilled := b.tokens + TruncDiv(now - b.last, 10);
    if refilled > limit then limit else refilled
  }

  // One call: a token is taken if there is one; a refusal changes nothing.
  function Take(b: Bucket, now: int, limit: int): (Bucket, bool) {
    var available := Refill(b, now, limit);
    if available <= 0 then (b, false) else (Bucket(available - 1, now), true)
  }

  function ParseBucket(text: string): Option<Bucket> {
    var pipe := FindChar(text, '|', 0);
    if pipe == |text| then None
    else
      var tokens, last := ParseInt(text[..pipe]), ParseInt(text[pipe + 1..]);
      if tokens.None? || last.None? then None else Some(Bucket(tokens.value, last.value))
  }

  function RateStep(d: Domain, m: Cache, user: string, now: int, env: string): (Cache, bool) {
    var limit, key := LimitOf(m, env), BucketKey(user);
    var n := CacheLimit(m, env);
    if limit <= 0 || d.ring.capacity == 0 then (n, true)
    else if key !in n then
      (BoundedStateSet(Shared(n), d.ring, key, BucketText(Bucket(limit - 1, now))).m, true)
    else
      var bucket := ParseBucket(n[key]);
      if bucket.None? then (n, true)
      else
        var (left, ok) := Take(bucket.value, now, limit);
        if !ok then (n, false)
        else (BoundedStateSet(Shared(n), d.ring, key, BucketText(left)).m, true)
  }

  method CurrentLimit(cache: CMap, env: string) returns (limit: int)
    modifies cache
    ensures limit == LimitOf(old(cache.m), env) && cache.m == CacheLimit(old(cache.m), env)
  {
    limit := 100;
    if LIMIT_KEY in cache.m {
      var v := ParseInt(cache.m[LIMIT_KEY]);
      if v.Some? { limit := v.value; }
    } else {
      var v := ParseInt(env);
      if v.Some? { limit := v.value; }
      if limit > MAX_LIMIT { limit := MAX_LIMIT; }
      cache.Set(LIMIT_KEY, IntText(limit));
    }
  }

  method DbRateOk(d: Domain, user: string, cache: CMap, now: int, env: string) returns (ok: bool)
    requires d.ring.capacity > 0
    modifies cache
    ensures (cache.m, ok) == RateStep(d, old(cache.m), user, now, env)
  {
    hide LimitOf, CacheLimit, BoundedStateSet, ParseBucket, IntText, BucketKey;
    var limit := CurrentLimit(cache, env);
    if limit <= 0 { return true; }
    var key := BucketKey(user);
    if key !in cache.m {
      BoundedStateSetInPlace(cache, cache, d.ring, key, BucketText(Bucket(limit - 1, now)));
      return true;
    }
    var stored := ParseBucket(cache.m[key]);
    if stored.None? { return true; }
    var tokens := stored.value.tokens + TruncDiv(now - stored.value.last, 10);
    if tokens > limit { tokens := limit; }
    if tokens <= 0 { return false; }
    tokens := tokens - 1;
    BoundedStateSetInPlace(cache, cache, d.ring, key, BucketText(Bucket(tokens, now)));
    return true;
  }

  // --- The stored bucket ---

  lemma ParseBucketText(b: Bucket)
    ensures ParseBucket(BucketText(b)) == Some(b)
  {
    var text, number := BucketText(b), IntText(b.tokens);
    IntTextHasNoPipe(b.tokens);
    assert text == number + ("|" + IntText(b.last));
    FindCharIs(text, '|', 0, |number|);
    assert text[..|number|] == number && text[|number| + 1..] == IntText(b.last);
    ParseIntText(b.tokens);
    ParseIntText(b.last);
  }

  lemma IntTextHasNoPipe(i: int)
    ensures forall k :: 0 <= k < |IntText(i)| ==> IntText(i)[k] != '|'
  {
    DecShape(if i < 0 then -i else i);
    var digits := Dec(if i < 0 then -i else i);
    forall k | 0 <= k < |IntText(i)| ensures IntText(i)[k] != '|' {
      assert IntText(i)[k] == if i >= 0 then digits[k] else if k == 0 then '-' else digits[k - 1];
    }
  }

  // The bucket a call finds: the stored one, or a full one for a new user.
  ghost predicate Finds(m: Cache, user: string, now: int, limit: int, b: Bucket) {
    if BucketKey(user) in m then m[BucketKey(user)] == BucketText(b) else b == Bucket(limit, now)
  }

  ghost predicate Stores(m: Cache, user: string, b: Bucket) {
    BucketKey(user) in m && m[BucketKey(user)] == BucketText(b)
  }

  // A call on the cache is one call on the bucket.
  lemma RateStepIsTake(d: Domain, m: Cache, user: string, now: int, env: string, b: Bucket)
    requires d.ring.capacity > 0 && LimitOf(m, env) > 0 && Finds(m, user, now, LimitOf(m, env), b)
    ensures var (n, ok) := RateStep(d, m, user, now, env);
      && Take(b, now, LimitOf(m, env)).1 == ok
      && Stores(n, user, Take(b, now, LimitOf(m, env)).0)
  {
    assert BucketKey(user)[2] == '|' && LIMIT_KEY[2] == '_';
    ParseBucketText(b);
  }

  // --- Calls on one bucket ---

  function After(b: Bucket, times: seq<int>, limit: int): Bucket {
    if times == [] then b
    else Take(After(b, times[..|times| - 1], limit), times[|times| - 1], limit).0
  }

  predicate Admitted(b: Bucket, times: seq<int>, limit: int, i: nat)
    requires i < |times|
  {
    Take(After(b, times[..i], limit), times[i], limit).1
  }

  function Admissions(b: Bucket, times: seq<int>, limit: int): nat {
    if times == [] then 0
    else
      var n := |times| - 1;
      Admissions(b, times[..n], limit) + if Admitted(b, times, limit, n) then 1 else 0
  }

  predicate Increasing(times: seq<int>, gap: int) {
    forall i :: 0 < i < |times| ==> times[i - 1] + gap <= times[i]
  }

  // From an admitted call on, the tokens left and the admissions so far are paid
  // for by the limit and the time passed.
  lemma {:induction false} Budget(b: Bucket, times: seq<int>, limit: int)
    requires limit > 0 && b.tokens >= 0 && times != [] && b.last <= times[0]
    requires Increasing(times, 0) && Admitted(b, times, limit, 0)
    ensures var after := After(b, times, limit);
      && after.tokens >= 0 && times[0] <= after.last <= times[|times| - 1]
      && after.tokens + Admissions(b, times, limit) <= limit + (after.last - times[0]) / 10
      && (Admitted(b, times, limit, |times| - 1) ==> after.last == times[|times| - 1])
  {
    var n := |times| - 1;
    assert times[..0] == [];
    if n > 0 {
      assert times[..n][..0] == times[..0];
      Budget(b, times[..n], limit);
      var before, now := After(b, times[..n], limit), times[n];
      assert (now - before.last) / 10 + (before.last - times[0]) / 10 <= (now - times[0]) / 10;
    } else {
      assert Admissions(b, times[..0], limit) == 0;
    }
  }

  // Calls at least 10 ms apart always find a token.
  lemma {:induction false} PacedAlwaysAdmitted(b: Bucket, times: seq<int>, limit: int)
    requires limit > 0 && b.tokens >= 0 && Increasing(times, 10)
    requires times != [] ==> (b.last + 10 <= times[0] || b == Bucket(limit, times[0]))
    ensures forall i :: 0 <= i < |times| ==> Admitted(b, times, limit, i)
    ensures times != [] ==>
      After(b, times, limit).tokens >= 0 && After(b, times, limit).last == times[|times| - 1]
  {
    if times == [] {
    } else {
      var n := |times| - 1;
      PacedAlwaysAdmitted(b, times[..n], limit);
      forall i | 0 <= i < n ensures Admitted(b, times, limit, i) {
        assert times[..n][..i] == times[..i];
        assert Admitted(b, times[..n], limit, i);
      }
    }
  }

  // The bound is reached: of calls at one instant on a full bucket, exactly the
  // first `limit` are admitted.
  lemma {:induction false} BurstIsExactlyLimit(times: seq<int>, limit: int, now: int)
    requires limit > 0 && forall i :: 0 <= i < |times| ==> times[i] == now
    ensures After(Bucket(limit, now), times, limit)
      == Bucket(if |times| < limit then limit - |times| else 0, now)
    ensures forall i :: 0 <= i < |times| ==> (Admitted(Bucket(limit, now), times, limit, i) <==> i < limit)
  {
    if times == [] {
    } else {
      var n := |times| - 1;
      BurstIsExactlyLimit(times[..n], limit, now);
      forall i | 0 <= i < n ensures Admitted(Bucket(limit, now), times, limit, i) <==> i < limit {
        assert times[..n][..i] == times[..i];
        assert Admitted(Bucket(limit, now), times[..n], limit, i) <==> i < limit;
      }
    }
  }

  // --- Runs of one user's calls on the worker's cache ---

  datatype Call = Call(before: Cache, now: int, after: Cache, ok: bool)

  ghost predicate Performed(d: Domain, user: string, env: string, limit: int, c: Call) {
    (c.after, c.ok) == RateStep(d, c.before, user, c.now, env) && LimitOf(c.before, env) == limit
  }

  // Between two calls anything may happen except to this user's bucket.
  ghost predicate SameBucket(user: string, a: Call, b: Call) {
    && BucketKey(user) in a.after && BucketKey(user) in b.before
    && a.after[BucketKey(user)] == b.before[BucketKey(user)]
  }

  ghost predicate Run(d: Domain, user: string, env: string, limit: int, calls: seq<Call>) {
    && d.ring.capacity > 0 && limit > 0
    && (forall i :: 0 <= i < |calls| ==> Performed(d, user, env, limit, calls[i]))
    && (forall i :: 0 <= i < |calls| - 1 ==> SameBucket(user, calls[i], calls[i + 1]))
  }

  function Times(calls: seq<Call>): seq<int> {
    seq(|calls|, i requires 0 <= i < |calls| => calls[i].now)
  }

  function OkCount(calls: seq<Call>): nat {
    if calls == [] then 0 else OkCount(calls[..|calls| - 1]) + if calls[|calls| - 1].ok then 1 else 0
  }

  lemma SubRun(d: Domain, user: string, env: string, limit: int, calls: seq<Call>, i: nat, j: nat)
    requires Run(d, user, env, limit, calls) && i <= j <= |calls|
    ensures Run(d, user, env, limit, calls[i..j])
    ensures Times(calls[i..j]) == Times(calls)[i..j]
  {
    forall k | 0 <= k < j - i - 1 ensures SameBucket(user, calls[i..j][k], calls[i..j][k + 1]) {
      assert SameBucket(user, calls[i + k], calls[i + k + 1]);
    }
  }

  lemma AdmittedInPrefix(b: Bucket, times: seq<int>, limit: int, n: nat, i: nat)
    requires i < n <= |times|
    ensures Admitted(b, times[..n], limit, i) == Admitted(b, times, limit, i)
  {
    assert times[..n][..i] == times[..i];
  }

  // One more call of the run is one more call on the bucket.
  lemma CallIsTake(d: Domain, user: string, env: string, limit: int, calls: seq<Call>, i: nat, b: Bucket)
    requires Run(d, user, env, limit, calls) && i < |calls|
    requires if i == 0 then Finds(calls[0].before, user, calls[0].now, limit, b)
             else Stores(calls[i - 1].after, user, b)
    ensures Take(b, calls[i].now, limit).1 == calls[i].ok
    ensures Stores(calls[i].after, user, Take(b, calls[i].now, limit).0)
    ensures Finds(calls[i].before, user, calls[i].now, limit, b)
  {
    assert Performed(d, user, env, limit, calls[i]);
    if i > 0 { assert SameBucket(user, calls[i - 1], calls[i - 1 + 1]); }
    RateStepIsTake(d, calls[i].before, user, calls[i].now, env, b);
  }

  // A run on the cache is a run on one bucket.
  lemma {:induction false} RunIsBucket(d: Domain, user: string, env: string, limit: int, calls: seq<Call>, b: Bucket)
    requires Run(d, user, env, limit, calls) && calls != []
    requires Finds(calls[0].before, user, calls[0].now, limit, b)
    ensures Stores(calls[|calls| - 1].after, user, After(b, Times(calls), limit))
    ensures OkCount(calls) == Admissions(b, Times(calls), limit)
    ensures forall i :: 0 <= i < |calls| ==> (calls[i].ok <==> Admitted(b, Times(calls), limit, i))
  {
    var n, times := |calls| - 1, Times(calls);
    if n > 0 {
      SubRun(d, user, env, limit, calls, 0, n);
      assert calls[0..n] == calls[..n] && times[0..n] == times[..n];
      RunIsBucket(d, user, env, limit, calls[..n], b);
      forall i | 0 <= i < n ensures calls[i].ok <==> Admitted(b, times, limit, i) {
        AdmittedInPrefix(b, times, limit, n, i);
      }
    } else {
      assert times[..0] == [] && calls[..0] == [];
    }
    CallIsTake(d, user, env, limit, calls, n, After(b, times[..n], limit));
  }

  // Between two admitted calls, both included, there are never more admissions
  // than the limit plus one for every full 10 ms between them.
  lemma AdmissionsBounded(d: Domain, user: string, env: string, limit: int, calls: seq<Call>, b: Bucket)
    requires Run(d, user, env, limit, calls) && calls != []
    requires Finds(calls[0].before, user, calls[0].now, limit, b) && b.tokens >= 0 && b.last <= calls[0].now
    requires Increasing(Times(calls), 0)
    requires calls[0].ok && calls[|calls| - 1].ok
    ensures OkCount(calls) <= limit + (calls[|calls| - 1].now - calls[0].now) / 10
  {
    RunIsBucket(d, user, env, limit, calls, b);
    Budget(b, Times(calls), limit);
  }

  // A user who leaves 10 ms between calls is never refused.
  lemma PacedNeverRefused(d: Domain, user: string, env: string, limit: int, calls: seq<Call>, b: Bucket)
    requires Run(d, user, env, limit, calls) && calls != []
    requires Finds(calls[0].before, user, calls[0].now, limit, b) && b.tokens >= 0
    requires BucketKey(user) in calls[0].before ==> b.last + 10 <= calls[0].now
    requires Increasing(Times(calls), 10)
    ensures forall i :: 0 <= i < |calls| ==> calls[i].ok
  {
    RunIsBucket(d, user, env, limit, calls, b);
    PacedAlwaysAdmitted(b, Times(calls), limit);
  }

  // Any window of a run starts from a bucket without debt, so both bounds apply
  // to every window.
  lemma {:induction false} WindowStart(d: Domain, user: string, env: string, limit: int, calls: seq<Call>, b: Bucket, i: nat)
    returns (w: Bucket)
    requires Run(d, user, env, limit, calls) && i < |calls|
    requires Finds(calls[0].before, user, calls[0].now, limit, b) && b.tokens >= 0 && b.last <= calls[0].now
    requires Increasing(Times(calls), 0)
    ensures Run(d, user, env, limit, calls[i..])
    ensures Finds(calls[i].before, user, calls[i].now, limit, w) && w.tokens >= 0 && w.last <= calls[i].now
  {
    SubRun(d, user, env, limit, calls, i, |calls|);
    assert calls[i..|calls|] == calls[i..];
    if i == 0 {
      w := b;
    } else {
      var v := WindowStart(d, user, env, limit, calls, b, i - 1);
      w := Take(v, calls[i - 1].now, limit).0;
      RateStepIsTake(d, calls[i - 1].before, user, calls[i - 1].now, env, v);
      assert Performed(d, user, env, limit, calls[i - 1]);
      CallIsTake(d, user, env, limit, calls, i, w);
      assert Times(calls)[i - 1] + 0 <= Times(calls)[i];
    }
  }
}
