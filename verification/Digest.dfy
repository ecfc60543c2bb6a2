// Digest credential checking and its replay state (auth.mko): nonce lifetime,
// the per-nonce request counter, and the ring of credentials already used.
module Digest {
  import opened RingCache
  import opened Text
  import Queue = BoundedRing

  const REPLAY_WINDOW: nat := 65536

  const COUNTS := Domain(Ring("nonce_nc_seq", "nonce_nc_ring|", REPLAY_WINDOW), {"nonce_nc|"}, false)
  const USED :=
    Domain(Ring("auth_used_seq", "auth_used_ring|", REPLAY_WINDOW), {"nonce_used|", "ims-aka-used|"}, false)

  // The two rings the check writes, and the prefixes it writes under.  The IMS
  // AKA code marks its own keys in the second ring.
  datatype Rings = Rings(counts: Domain, countPrefix: string, used: Domain, usedPrefix: string) {
    ghost predicate Ok() {
      && counts.WellFormed() && used.WellFormed()
      && DisjointDomains(counts, used)
      && countPrefix in counts.prefixes && usedPrefix in used.prefixes
      && !counts.stamped && !used.stamped
    }
  }

  const RINGS := Rings(COUNTS, "nonce_nc|", USED, "nonce_used|")

  // The parameters of one Authorization header; absent ones are empty.
  datatype Credentials = Credentials(
    username: string, realm: string, nonce: string, uri: string, response: string,
    algorithm: string, qop: string, nc: string, cnonce: string)

  datatype Request = Request(header: Option<Credentials>, method_: string, requestUri: string, body: string)

  // What the check reads from outside the cache: database, clock, settings and
  // the hash and URI builtins.
  datatype World = World(
    dbOk: bool, row: string, now: int, usedAt: int, ttlSetting: string,
    md5: string -> string, sha256: string -> string,
    uriUser: string -> string, uriHost: string -> string)

  datatype Verdict = Rejected | Accepted | Stale

  // --- The pure parts of the check ---

  predicate IsHexLower(c: char) {
    '0' <= c <= '9' || 'a' <= c <= 'f'
  }

  // Digits of a nonce count; anything that is not a hex digit counts as zero.
  function HexDigit(c: char): (d: nat)
    ensures d < 16
  {
    if '0' <= c <= '9' then c as int - 48
    else if 'a' <= c <= 'f' then c as int - 87
    else 0
  }

  function HexValue(s: string): nat {
    if s == [] then 0 else HexValue(s[..|s| - 1]) * 16 + HexDigit(s[|s| - 1])
  }

  function Algorithm(c: Credentials): string {
    if c.algorithm == "" then "md5" else Lower(c.algorithm)
  }

  predicate WellFormedHeader(c: Credentials) {
    && c.username != "" && c.nonce != "" && c.uri != "" && c.response != ""
    && Algorithm(c) in ["md5", "md5-sess", "sha-256", "sha-256-sess"]
    && (c.qop != "" ==>
          && Lower(c.qop) in ["auth", "auth-int"]
          && c.cnonce != "" && |c.nc| == 8
          && forall i :: 0 <= i < |c.nc| ==> IsHexLower(Lower(c.nc)[i]))
    && (HasSuffix(Algorithm(c), "-sess") ==> c.cnonce != "")
  }

  function NonceTtl(w: World): int {
    var configured := ParseInt(w.ttlSetting);
    var ttl := if configured.Some? then configured.value * 1000 else 120000;
    if ttl < 30000 then 30000 else if ttl > 600000 then 600000 else ttl
  }

  function Hash(w: World, value: string, algorithm: string): string {
    if HasPrefix(Lower(algorithm), "sha-256") then w.sha256(value) else w.md5(value)
  }

  function Ha1(c: Credentials, w: World): string {
    var parts := Split(w.row, '|');
    if HasPrefix(Algorithm(c), "sha-256") && |parts| >= 2 && |parts[1]| == 64 then parts[1] else parts[0]
  }

  function Expected(c: Credentials, req: Request, w: World): string {
    var alg, ha1 := Algorithm(c), Ha1(c, w);
    var session := if HasSuffix(alg, "-sess") then Hash(w, ha1 + ":" + c.nonce + ":" + c.cnonce, alg) else ha1;
    var target := req.method_ + ":" + c.uri;
    if c.qop != "" then
      var qop := Lower(c.qop);
      var ha2 := Hash(w, if qop == "auth-int" then target + ":" + Hash(w, req.body, alg) else target, alg);
      Hash(w, session + ":" + c.nonce + ":" + c.nc + ":" + c.cnonce + ":" + qop + ":" + ha2, alg)
    else Hash(w, session + ":" + c.nonce + ":" + Hash(w, target, alg), alg)
  }

  predicate SecretUsable(c: Credentials, w: World) {
    if HasPrefix(Algorithm(c), "sha-256") then |Ha1(c, w)| == 64 else |Ha1(c, w)| == 32
  }

  predicate DigestMatches(c: Credentials, req: Request, w: World) {
    Expected(c, req, w) != "" && Lower(Expected(c, req, w)) == Lower(c.response)
  }

  predicate UriMatches(c: Credentials, req: Request, w: World) {
    || req.requestUri == "" || c.uri == req.requestUri
    || (w.uriUser(c.uri) == w.uriUser(req.requestUri)
        && Lower(w.uriHost(c.uri)) == Lower(w.uriHost(req.requestUri)))
  }

  function CountKey(r: Rings, nonce: string): string { r.countPrefix + nonce }

  function UsedKey(r: Rings, c: Credentials, method_: string): string {
    var tuple := r.usedPrefix + (c.nonce + "|" + c.username + "|" + method_ + "|" + c.uri);
    if c.qop != "" then tuple + ("|" + c.nc + "|" + c.cnonce) else tuple
  }

  // --- The check as a step on the cache ---

  function SetIn(m: Cache, d: Domain, key: string, value: string): Cache {
    if d.ring.capacity == 0 then m else BoundedStateSet(Shared(m), d.ring, key, value).m
  }

  function LastCount(r: Rings, m: Cache, nonce: string): int {
    var stored := ParseInt(Get(m, CountKey(r, nonce)));
    if stored.Some? then stored.value else 0
  }

  // None when the nonce count is a repeat; otherwise the cache that remembers it.
  function CountStep(r: Rings, m: Cache, c: Credentials): Option<Cache> {
    if |c.nc| != 8 then Some(m)
    else
      var count := HexValue(Lower(c.nc));
      if count > 0 && count <= LastCount(r, m, c.nonce) then None
      else Some(SetIn(m, r.counts, CountKey(r, c.nonce), IntText(count)))
  }

  function UseStep(r: Rings, m: Cache, key: string, usedAt: int): (Cache, Verdict) {
    if key in m then (m, Rejected) else (SetIn(m, r.used, key, IntText(usedAt)), Accepted)
  }

  predicate NonceKnown(m: Cache, c: Credentials) {
    "nonce|" + c.nonce in m && ParseInt(m["nonce|" + c.nonce]).Some?
  }

  // The stateful end of the check, once it is known whether the proof holds.
  function Conclude(r: Rings, m: Cache, c: Credentials, method_: string, proved: bool, usedAt: int): (Cache, Verdict) {
    var counted := CountStep(r, m, c);
    if counted.None? then (m, Rejected)
    else if !proved then (counted.value, Rejected)
    else UseStep(r, counted.value, UsedKey(r, c, method_), usedAt)
  }

  predicate Proved(c: Credentials, req: Request, w: World) {
    SecretUsable(c, w) && DigestMatches(c, req, w) && UriMatches(c, req, w)
  }

  function Check(r: Rings, m: Cache, req: Request, w: World): (Cache, Verdict) {
    if !w.dbOk then (m, Accepted)
    else if req.header.None? || !WellFormedHeader(req.header.value) then (m, Rejected)
    else
      var c := req.header.value;
      if !NonceKnown(m, c) then (m, Rejected)
      else if w.now - ParseInt(m["nonce|" + c.nonce]).value > NonceTtl(w) then (m, Stale)
      else Conclude(r, m, c, req.method_, Proved(c, req, w), w.usedAt)
  }

  // --- The worker's code, loops included ---

  // Bitwise difference as the constant-time comparison accumulates it.
  function BitXor(a: nat, b: nat): nat {
    if a == 0 && b == 0 then 0
    else (if a % 2 != b % 2 then 1 else 0) + 2 * BitXor(a / 2, b / 2)
  }

  function BitOr(a: nat, b: nat): nat {
    if a == 0 && b == 0 then 0
    else (if a % 2 == 1 || b % 2 == 1 then 1 else 0) + 2 * BitOr(a / 2, b / 2)
  }

  lemma {:induction false} BitXorZero(a: nat, b: nat)
    ensures BitXor(a, b) == 0 <==> a == b
  {
    if !(a == 0 && b == 0) { BitXorZero(a / 2, b / 2); }
  }

  lemma {:induction false} BitOrZero(a: nat, b: nat)
    ensures BitOr(a, b) == 0 <==> a == 0 && b == 0
  {
    if !(a == 0 && b == 0) { BitOrZero(a / 2, b / 2); }
  }

  method SameDigest(expected: string, response: string) returns (same: bool)
    ensures same <==> expected != "" && Lower(expected) == Lower(response)
  {
    var expLow, respLow := Lower(expected), Lower(response);
    same := false;
    if |expLow| > 0 && |expLow| == |respLow| {
      var diff: nat, di := 0, 0;
      while di < |expLow|
        invariant 0 <= di <= |expLow|
        invariant diff == 0 <==> expLow[..di] == respLow[..di]
      {
        var x := BitXor(expLow[di] as int, respLow[di] as int);
        BitXorZero(expLow[di] as int, respLow[di] as int);
        BitOrZero(diff, x);
        assert expLow[..di + 1] == expLow[..di] + [expLow[di]];
        assert respLow[..di + 1] == respLow[..di] + [respLow[di]];
        diff := BitOr(diff, x);
        di := di + 1;
      }
      assert expLow[..di] == expLow && respLow[..di] == respLow;
      same := diff == 0;
    }
  }

  method HexCount(nc: string) returns (value: nat)
    ensures value == HexValue(Lower(nc))
  {
    var low := Lower(nc);
    value := 0;
    var hi := 0;
    while hi < |low|
      invariant 0 <= hi <= |low|
      invariant value == HexValue(low[..hi])
    {
      var hc := low[hi] as int;
      value := value * 16;
      if hc >= 48 && hc <= 57 { value := value + (hc - 48); }
      else if hc >= 97 && hc <= 102 { value := value + (hc - 87); }
      assert low[..hi + 1][..hi] == low[..hi];
      hi := hi + 1;
    }
    assert low[..hi] == low;
  }

  method AllHex(nc: string) returns (ok: bool)
    ensures ok <==> forall i :: 0 <= i < |nc| ==> IsHexLower(Lower(nc)[i])
  {
    var ni := 0;
    while ni < |nc|
      invariant 0 <= ni <= |nc|
      invariant forall i :: 0 <= i < ni ==> IsHexLower(Lower(nc)[i])
    {
      var ch := Lower(nc)[ni] as int;
      if !((ch >= 48 && ch <= 57) || (ch >= 97 && ch <= 102)) { return false; }
      ni := ni + 1;
    }
    return true;
  }

  method HeaderOk(c: Credentials) returns (ok: bool)
    ensures ok <==> WellFormedHeader(c)
  {
    if c.username == "" || c.nonce == "" || c.uri == "" || c.response == "" { return false; }
    var algorithm := Lower(c.algorithm);
    if |algorithm| == 0 { algorithm := "md5"; }
    if algorithm !in ["md5", "md5-sess", "sha-256", "sha-256-sess"] { return false; }
    if c.qop != "" {
      if Lower(c.qop) !in ["auth", "auth-int"] { return false; }
      if |c.cnonce| == 0 || |c.nc| != 8 { return false; }
      var hex := AllHex(c.nc);
      if !hex { return false; }
    }
    if HasSuffix(algorithm, "-sess") && |c.cnonce| == 0 { return false; }
    return true;
  }

  method BoundedCacheSet(cache: CMap, d: Domain, key: string, value: string)
    requires d.ring.capacity > 0
    modifies cache
    ensures cache.m == SetIn(old(cache.m), d, key, value)
  {
    BoundedStateSetInPlace(cache, cache, d.ring, key, value);
  }

  method DbDigestValid(r: Rings, cache: CMap, req: Request, w: World) returns (verdict: Verdict)
    requires r.counts.ring.capacity > 0 && r.used.ring.capacity > 0
    modifies cache
    ensures (cache.m, verdict) == Check(r, old(cache.m), req, w)
  {
    if !w.dbOk { return Accepted; }
    if req.header.None? { return Rejected; }
    var c := req.header.value;
    var wellFormed := HeaderOk(c);
    if !wellFormed { return Rejected; }
    if "nonce|" + c.nonce !in cache.m { return Rejected; }
    var nonceAt := ParseInt(cache.m["nonce|" + c.nonce]);
    if nonceAt.None? { return Rejected; }
    if w.now - nonceAt.value > NonceTtl(w) { return Stale; }
    if |c.nc| == 8 {
      var lastNc := LastCount(r, cache.m, c.nonce);
      var thisNc := HexCount(c.nc);
      if thisNc > 0 && thisNc <= lastNc { return Rejected; }
      BoundedCacheSet(cache, r.counts, CountKey(r, c.nonce), IntText(thisNc));
    }
    if !SecretUsable(c, w) { return Rejected; }
    var digestMatch := SameDigest(Expected(c, req, w), c.response);
    if digestMatch {
      if !UriMatches(c, req, w) { return Rejected; }
      var usedKey := UsedKey(r, c, req.method_);
      if usedKey in cache.m { return Rejected; }
      BoundedCacheSet(cache, r.used, usedKey, IntText(w.usedAt));
      return Accepted;
    }
    return Rejected;
  }
}
