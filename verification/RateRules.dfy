// One call of the rate check in full: which limit is in force and for how long, who
// is never limited, and what a bucket admits.
module RateRules {
  import opened RateLimit
  import opened RingCache
  import opened Text

  // The number a text holds, or another one.
  predicate IsNumber(text: string, otherwise: int, n: int) {
    var parsed := ParseInt(text);
    n == if parsed.Some? then parsed.value else otherwise
  }

  // The limit is the cached one, uncapped; on first use it is the environment's, a
  // hundred when that is no number, and a million at most.
  lemma LimitIs(m: Cache, env: string, n: int)
    ensures "rl_limit" in m && IsNumber(m["rl_limit"], 100, n) ==> LimitOf(m, env) == n
    ensures "rl_limit" !in m && IsNumber(env, 100, n) && n <= 1000000 ==> LimitOf(m, env) == n
    ensures "rl_limit" !in m && IsNumber(env, 100, n) && n > 1000000 ==> LimitOf(m, env) == 1000000
  {
    hide ParseInt;
  }

  // The first use fixes it for good: whatever the environment says later, the limit
  // stays as long as it stays cached, and nothing else is touched.
  lemma FirstUseFixesLimit(m: Cache, env: string, later: string)
    ensures var n := CacheLimit(m, env);
      && "rl_limit" in n && LimitOf(n, later) == LimitOf(m, env)
      && forall k :: k != "rl_limit" ==> (k in n <==> k in m) && Get(n, k) == Get(m, k)
  {
    ParseIntText(LimitOf(m, env));
    hide ParseInt, IntText;
  }

  // With no positive limit everyone passes and no bucket is kept.
  lemma Unlimited(d: Domain, m: Cache, user: string, now: int, env: string)
    requires d.ring.capacity > 0 && LimitOf(m, env) <= 0
    ensures RateStep(d, m, user, now, env) == (CacheLimit(m, env), true)
  {
    hide LimitOf;
  }

  // A bucket that cannot be read limits nobody, and stays as it is.
  lemma UnreadableBucket(d: Domain, m: Cache, user: string, now: int, env: string)
    requires d.ring.capacity > 0 && LimitOf(m, env) > 0 && "rl|" + user in m && ParseBucket(m["rl|" + user]).None?
    ensures RateStep(d, m, user, now, env) == (CacheLimit(m, env), true)
  {
    hide LimitOf, ParseBucket;
    assert ("rl|" + user)[2] == '|' && LIMIT_KEY[2] == '_';
  }

  // What a bucket of so many tokens holds after a time: one more each ten
  // milliseconds, up to the limit; a clock that ran back takes them away alike.
  predicate Holds(tokens: int, last: int, now: int, limit: int, available: int) {
    && (now >= last ==> available == if tokens + (now - last) / 10 <= limit then tokens + (now - last) / 10 else limit)
    && (now < last ==> available == if tokens - (last - now) / 10 <= limit then tokens - (last - now) / 10 else limit)
  }

  // A call of a user with a bucket passes if and only if the bucket holds a token; it
  // then takes one and notes the time, and a refusal leaves the bucket alone.  A user
  // without one passes, and gets a bucket that is one short of full.
  lemma RateExact(d: Domain, m: Cache, user: string, now: int, env: string, tokens: int, last: int, available: int)
    requires d.ring.capacity > 0 && LimitOf(m, env) > 0
    requires "rl|" + user in m ==>
      m["rl|" + user] == IntText(tokens) + "|" + IntText(last) && Holds(tokens, last, now, LimitOf(m, env), available)
    ensures var (n, ok) := RateStep(d, m, user, now, env);
      var key, limit := "rl|" + user, LimitOf(m, env);
      && key in n
      && (key in m ==>
            && (ok <==> available >= 1)
            && n[key] == if ok then IntText(available - 1) + "|" + IntText(now) else m[key])
      && (key !in m ==> ok && n[key] == IntText(limit - 1) + "|" + IntText(now))
  {
    hide LimitOf, IntText, ParseInt, RateStep;
    var b := if "rl|" + user in m then Bucket(tokens, last) else Bucket(LimitOf(m, env), now);
    RateStepIsTake(d, m, user, now, env, b);
  }
}
