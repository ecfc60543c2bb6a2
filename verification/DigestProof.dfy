// What an accepted digest proves (section 3.4.1 of RFC 7616): the response is the
// one of the RFC, and with collision-free hashes it fixes the stored secret, the
// nonce, the method, the URI and, where they take part, the count, the client nonce
// and the body.
module DigestProof {
  import opened Digest
  import opened DigestCounts
  import opened DigestRuns
  import opened RingCache
  import opened Text

  // --- The response as the RFC defines it ---

  // The algorithm a header names, "md5" when it names none.
  function Named(algorithm: string): string { if algorithm == "" then "md5" else Lower(algorithm) }

  predicate IsSha(name: string) { name == "sha-256" || name == "sha-256-sess" }

  predicate IsSession(name: string) { name == "md5-sess" || name == "sha-256-sess" }

  function H(name: string, w: World, data: string): string {
    if IsSha(name) then w.sha256(data) else w.md5(data)
  }

  // KD(secret, data) = H(secret ":" data).
  function KD(name: string, w: World, secret: string, data: string): string {
    H(name, w, secret + ":" + data)
  }

  // The row holds the MD5 secret and the SHA-256 one, separated by a bar; a row
  // without the second falls back to the first.
  function StoredSecret(name: string, row: string): string {
    var parts := Split(row, '|');
    if IsSha(name) && |parts| > 1 && |parts[1]| == 64 then parts[1] else parts[0]
  }

  function SessionSecret(name: string, w: World, c: Credentials): string {
    if IsSession(name) then KD(name, w, StoredSecret(name, w.row), c.nonce + ":" + c.cnonce)
    else StoredSecret(name, w.row)
  }

  function A2(name: string, w: World, c: Credentials, req: Request): string {
    if Lower(c.qop) == "auth-int" then req.method_ + ":" + c.uri + ":" + H(name, w, req.body)
    else req.method_ + ":" + c.uri
  }

  function RequestDigest(w: World, c: Credentials, req: Request): string {
    var name := Named(c.algorithm);
    var proof := H(name, w, A2(name, w, c, req));
    KD(name, w, SessionSecret(name, w, c),
       if c.qop == "" then c.nonce + ":" + proof
       else c.nonce + ":" + (c.nc + ":" + (c.cnonce + ":" + (Lower(c.qop) + ":" + proof))))
  }

  lemma SuffixOf(name: string)
    ensures name == "md5" ==> !HasSuffix(name, "-sess") && !HasPrefix(name, "sha-256")
    ensures name == "md5-sess" ==> HasSuffix(name, "-sess") && !HasPrefix(name, "sha-256")
    ensures name == "sha-256" ==> !HasSuffix(name, "-sess") && HasPrefix(name, "sha-256")
    ensures name == "sha-256-sess" ==> HasSuffix(name, "-sess") && HasPrefix(name, "sha-256")
  {
    assert "md5"[..] == "md5" && "md5-sess"[3..] == "-sess" && "sha-256-sess"[7..] == "-sess";
    assert "sha-256"[2..] == "a-256" && "sha-256-sess"[..7] == "sha-256" && "sha-256"[..7] == "sha-256";
    assert "md5-sess"[..7] != "sha-256" by { assert "md5-sess"[..7][0] == 'm'; }
    assert "sha-256"[2..][0] != "-sess"[0];
  }

  lemma LowerTwice(s: string)
    ensures Lower(Lower(s)) == Lower(s)
  {
  }

  lemma KnownAlgorithm(c: Credentials)
    requires Algorithm(c) in ["md5", "md5-sess", "sha-256", "sha-256-sess"]
    ensures var name := Named(c.algorithm);
      && name == Algorithm(c) == Lower(name)
      && (HasPrefix(name, "sha-256") <==> IsSha(name)) && (HasSuffix(name, "-sess") <==> IsSession(name))
  {
    SuffixOf(Algorithm(c));
    LowerTwice(c.algorithm);
    assert Lower("md5") == "md5";
  }

  lemma ExpectedIsRequestDigest(c: Credentials, req: Request, w: World)
    requires Algorithm(c) in ["md5", "md5-sess", "sha-256", "sha-256-sess"]
    requires c.qop == "" || Lower(c.qop) == "auth" || Lower(c.qop) == "auth-int"
    ensures Expected(c, req, w) == RequestDigest(w, c, req)
    ensures Ha1(c, w) == StoredSecret(Named(c.algorithm), w.row)
  {
    KnownAlgorithm(c);
    assert c.qop == "" ==> Lower(c.qop) != "auth-int";
    hide Lower, HasPrefix, HasSuffix, Split, IsSha, IsSession;
    var name := Algorithm(c);
    HashIsH(name, w, c);
    SecretIsStored(c, w);
    hide Algorithm, Named, Ha1, StoredSecret, Hash, H;
    ColonsAssociate(Ha1(c, w), c.nonce, c.cnonce);
    var session, proof := SessionSecret(name, w, c), H(name, w, A2(name, w, c, req));
    ColonsAssociate(session, c.nonce, proof);
    SixAssociate(session, c.nonce, c.nc, c.cnonce, Lower(c.qop), proof);
  }

  lemma SecretIsStored(c: Credentials, w: World)
    requires HasPrefix(Algorithm(c), "sha-256") <==> IsSha(Named(c.algorithm))
    ensures Ha1(c, w) == StoredSecret(Named(c.algorithm), w.row)
  {
    hide Algorithm, Named, HasPrefix, IsSha, Split;
  }

  lemma ColonsAssociate(a: string, b: string, c: string)
    ensures a + ":" + b + ":" + c == a + ":" + (b + ":" + c)
  {
  }

  lemma SixAssociate(a: string, b: string, c: string, d: string, e: string, f: string)
    ensures a + ":" + b + ":" + c + ":" + d + ":" + e + ":" + f
         == a + ":" + (b + ":" + (c + ":" + (d + ":" + (e + ":" + f))))
  {
  }

  lemma HashIsH(name: string, w: World, c: Credentials)
    requires name == Algorithm(c) == Named(c.algorithm) == Lower(name)
    requires HasPrefix(name, "sha-256") <==> IsSha(name)
    ensures forall data :: Hash(w, data, name) == H(name, w, data)
  {
    hide Lower, HasPrefix, IsSha;
  }

  // --- Texts put together with colons ---

  lemma CutAtColon(a: string, x: string, b: string, y: string)
    requires a + (":" + x) == b + (":" + y) && ':' !in a && ':' !in b
    ensures a == b && x == y
  {
    var s := a + (":" + x);
    FindCharIs(s, ':', 0, |a|);
    FindCharIs(s, ':', 0, |b|);
    assert a == s[..|a|] && b == s[..|b|];
    assert x == s[|a| + 1..] && y == s[|b| + 1..];
  }

  lemma CutAtLastColon(a: string, x: string, b: string, y: string)
    requires a + (":" + x) == b + (":" + y) && ':' !in x && ':' !in y
    ensures a == b && x == y
  {
    var s := a + (":" + x);
    assert s[|a|] == ':' && s[|b|] == ':';
    assert forall i :: |a| < i < |s| ==> s[i] == x[i - |a| - 1] && s[i] != ':';
    assert forall i :: |b| < i < |s| ==> s[i] == y[i - |b| - 1] && s[i] != ':';
    assert a == s[..|a|] && b == s[..|b|];
    assert x == s[|a| + 1..] && y == s[|b| + 1..];
  }

  lemma CutAtLength(a: string, x: string, b: string, y: string)
    requires a + (":" + x) == b + (":" + y) && |a| == |b|
    ensures a == b && x == y
  {
    var s := a + (":" + x);
    assert a == s[..|a|] && b == s[..|b|];
    assert x == s[|a| + 1..] && y == s[|b| + 1..];
  }

  // --- What an accepted response fixes ---

  // Without collisions, and written in lower-case letters and digits.
  ghost predicate CollisionFree(h: string -> string) {
    && (forall x, y :: h(x) == h(y) ==> x == y)
    && (forall x :: Lower(h(x)) == h(x) && ':' !in h(x))
  }

  // What is sent apart from the URI holds no colon.
  predicate NoColons(req: Request) {
    && req.header.Some? && ':' !in req.method_
    && ':' !in req.header.value.nonce && ':' !in req.header.value.cnonce
  }

  // Accepted with the database up, that is on the strength of the response.
  ghost predicate Admitted(r: Rings, m: Cache, req: Request, w: World) {
    w.dbOk && Check(r, m, req, w).1 == Accepted
  }

  lemma AdmittedIsProved(r: Rings, m: Cache, req: Request, w: World)
    requires Admitted(r, m, req, w)
    ensures req.header.Some?
    ensures WellFormedHeader(req.header.value) && Proved(req.header.value, req, w)
  {
    hide WellFormedHeader, Proved, NonceKnown, NonceTtl, CountStep;
  }

  // The response is the one of the RFC for the stored secret, letter case apart.
  lemma AdmittedResponse(r: Rings, m: Cache, req: Request, w: World)
    requires Admitted(r, m, req, w)
    ensures req.header.Some?
    ensures var c, name := req.header.value, Named(req.header.value.algorithm);
      && name in {"md5", "md5-sess", "sha-256", "sha-256-sess"}
      && Lower(c.response) == Lower(RequestDigest(w, c, req)) && c.response != ""
      && |StoredSecret(name, w.row)| == (if IsSha(name) then 64 else 32)
      && (c.qop != "" ==> (Lower(c.qop) == "auth" || Lower(c.qop) == "auth-int") && |c.nc| == 8 && c.cnonce != "")
      && (IsSession(name) ==> c.cnonce != "")
  {
    AdmittedIsProved(r, m, req, w);
    var c := req.header.value;
    KnownAlgorithm(c);
    ExpectedIsRequestDigest(c, req, w);
    hide Expected, RequestDigest, StoredSecret, Check, UriMatches, IsSha, IsSession, Named, Lower;
  }

  // The text that is hashed last.
  function ProofText(name: string, w: World, c: Credentials, req: Request): string {
    var proof := H(name, w, A2(name, w, c, req));
    c.nonce + (":" + (if c.qop == "" then proof
                      else c.nc + (":" + (c.cnonce + (":" + (Lower(c.qop) + (":" + proof)))))))
  }

  lemma DigestOfProofText(w: World, c: Credentials, req: Request)
    ensures var name := Named(c.algorithm);
      RequestDigest(w, c, req) == H(name, w, SessionSecret(name, w, c) + (":" + ProofText(name, w, c, req)))
  {
    var name := Named(c.algorithm);
    var proof := H(name, w, A2(name, w, c, req));
    var session, text := SessionSecret(name, w, c), ProofText(name, w, c, req);
    hide H, A2, SessionSecret, Named, Lower;
    if c.qop == "" {
      assert text == c.nonce + ":" + proof;
    } else {
      assert text == c.nonce + ":" + (c.nc + ":" + (c.cnonce + ":" + (Lower(c.qop) + ":" + proof)));
    }
    assert session + ":" + text == session + (":" + text);
  }

  // Same A2: same method, URI and, under auth-int, body.
  lemma SameA2(name: string, w: World, c: Credentials, req: Request, v: World, d: Credentials, other: Request)
    requires H(name, w, A2(name, w, c, req)) == H(name, v, A2(name, v, d, other))
    requires w.md5 == v.md5 && w.sha256 == v.sha256 && CollisionFree(w.md5) && CollisionFree(w.sha256)
    requires (Lower(c.qop) == "auth-int") == (Lower(d.qop) == "auth-int")
    requires ':' !in req.method_ && ':' !in other.method_
    ensures req.method_ == other.method_ && c.uri == d.uri
    ensures Lower(c.qop) == "auth-int" ==> req.body == other.body
  {
    hide Lower;
    assert A2(name, w, c, req) == A2(name, v, d, other);
    if Lower(c.qop) == "auth-int" {
      var a, b := H(name, w, req.body), H(name, v, other.body);
      assert req.method_ + ":" + c.uri + (":" + a) == A2(name, w, c, req);
      assert other.method_ + ":" + d.uri + (":" + b) == A2(name, v, d, other);
      CutAtLastColon(req.method_ + ":" + c.uri, a, other.method_ + ":" + d.uri, b);
    }
    assert req.method_ + ":" + c.uri == req.method_ + (":" + c.uri);
    assert other.method_ + ":" + d.uri == other.method_ + (":" + d.uri);
    CutAtColon(req.method_, c.uri, other.method_, d.uri);
  }

  lemma Hashed(name: string, w: World, a: string, b: string)
    requires CollisionFree(w.md5) && CollisionFree(w.sha256)
    ensures H(name, w, a) == H(name, w, b) ==> a == b
    ensures ':' !in H(name, w, a) && Lower(H(name, w, a)) == H(name, w, a)
  {
  }

  // Same hashed text: same nonce, and the same of everything that takes part.
  lemma SameProofText(name: string, w: World, c: Credentials, req: Request, v: World, d: Credentials, other: Request)
    requires ProofText(name, w, c, req) == ProofText(name, v, d, other)
    requires w.md5 == v.md5 && w.sha256 == v.sha256 && CollisionFree(w.md5) && CollisionFree(w.sha256)
    requires ':' !in c.nonce && ':' !in c.cnonce && ':' !in req.method_
    requires ':' !in d.nonce && ':' !in d.cnonce && ':' !in other.method_
    requires c.qop == "" || ((Lower(c.qop) == "auth" || Lower(c.qop) == "auth-int") && |c.nc| == 8)
    requires d.qop == "" || ((Lower(d.qop) == "auth" || Lower(d.qop) == "auth-int") && |d.nc| == 8)
    ensures c.nonce == d.nonce && req.method_ == other.method_ && c.uri == d.uri && (c.qop == "" <==> d.qop == "")
    ensures c.qop != "" ==> c.nc == d.nc && c.cnonce == d.cnonce && Lower(c.qop) == Lower(d.qop)
    ensures Lower(c.qop) == "auth-int" ==> req.body == other.body
  {
    assert c.qop == "" ==> Lower(c.qop) != "auth-int";
    assert d.qop == "" ==> Lower(d.qop) != "auth-int";
    hide Lower;
    var a, b := H(name, w, A2(name, w, c, req)), H(name, v, A2(name, v, d, other));
    Hashed(name, w, A2(name, w, c, req), "");
    Hashed(name, v, A2(name, v, d, other), "");
    hide H, A2;
    var x := if c.qop == "" then a else c.nc + (":" + (c.cnonce + (":" + (Lower(c.qop) + (":" + a)))));
    var y := if d.qop == "" then b else d.nc + (":" + (d.cnonce + (":" + (Lower(d.qop) + (":" + b)))));
    CutAtColon(c.nonce, x, d.nonce, y);
    assert c.qop != "" ==> x[8] == ':';
    assert d.qop != "" ==> y[8] == ':';
    if c.qop != "" {
      CutAtLength(c.nc, c.cnonce + (":" + (Lower(c.qop) + (":" + a))), d.nc, d.cnonce + (":" + (Lower(d.qop) + (":" + b))));
      CutAtColon(c.cnonce, Lower(c.qop) + (":" + a), d.cnonce, Lower(d.qop) + (":" + b));
      CutAtLastColon(Lower(c.qop), a, Lower(d.qop), b);
    }
    SameA2(name, w, c, req, v, d, other);
  }

  // Same session secret: same stored secret and, in a session, same client nonce.
  lemma SameSession(name: string, w: World, c: Credentials, v: World, d: Credentials)
    requires SessionSecret(name, w, c) == SessionSecret(name, v, d)
    requires w.md5 == v.md5 && w.sha256 == v.sha256 && CollisionFree(w.md5) && CollisionFree(w.sha256)
    requires ':' !in c.nonce && ':' !in d.nonce
    requires |StoredSecret(name, w.row)| == |StoredSecret(name, v.row)|
    ensures StoredSecret(name, w.row) == StoredSecret(name, v.row)
    ensures IsSession(name) ==> c.nonce == d.nonce && c.cnonce == d.cnonce
  {
    hide StoredSecret;
    var a, b := StoredSecret(name, w.row), StoredSecret(name, v.row);
    if IsSession(name) {
      var x, y := c.nonce + ":" + c.cnonce, d.nonce + ":" + d.cnonce;
      Hashed(name, w, a + ":" + x, b + ":" + y);
      assert a + ":" + x == a + (":" + x) && b + ":" + y == b + (":" + y);
      CutAtLength(a, x, b, y);
      assert x == c.nonce + (":" + c.cnonce) && y == d.nonce + (":" + d.cnonce);
      CutAtColon(c.nonce, c.cnonce, d.nonce, d.cnonce);
    }
  }

  lemma SessionLength(name: string, w: World, c: Credentials)
    requires CollisionFree(w.md5) && CollisionFree(w.sha256)
    ensures IsSession(name) ==> ':' !in SessionSecret(name, w, c)
    ensures !IsSession(name) ==> SessionSecret(name, w, c) == StoredSecret(name, w.row)
  {
  }

  // One response under one algorithm proves one thing: two requests admitted with it
  // have the same stored secret, nonce, method and URI; the same count, client nonce
  // and protection where the header asks for one; and the same body under auth-int.
  lemma ResponseFixesRequest(r: Rings, m: Cache, req: Request, w: World, n: Cache, other: Request, v: World)
    requires Admitted(r, m, req, w) && Admitted(r, n, other, v) && NoColons(req) && NoColons(other)
    requires w.md5 == v.md5 && w.sha256 == v.sha256 && CollisionFree(w.md5) && CollisionFree(w.sha256)
    requires Lower(req.header.value.response) == Lower(other.header.value.response)
    requires Named(req.header.value.algorithm) == Named(other.header.value.algorithm)
    ensures var c, d := req.header.value, other.header.value;
      && StoredSecret(Named(c.algorithm), w.row) == StoredSecret(Named(d.algorithm), v.row)
      && c.nonce == d.nonce && c.uri == d.uri && req.method_ == other.method_ && (c.qop == "" <==> d.qop == "")
      && (c.qop != "" ==> c.nc == d.nc && c.cnonce == d.cnonce && Lower(c.qop) == Lower(d.qop))
      && (IsSession(Named(c.algorithm)) ==> c.cnonce == d.cnonce)
      && (Lower(c.qop) == "auth-int" ==> req.body == other.body)
  {
    hide Check, Lower, StoredSecret, SessionSecret, RequestDigest, ProofText, CollisionFree, H, IsSha, IsSession, Named;
    var c, d := req.header.value, other.header.value;
    var name := Named(c.algorithm);
    AdmittedResponse(r, m, req, w);
    AdmittedResponse(r, n, other, v);
    DigestOfProofText(w, c, req);
    DigestOfProofText(v, d, other);
    var a, b := SessionSecret(name, w, c), SessionSecret(name, v, d);
    var x, y := ProofText(name, w, c, req), ProofText(name, v, d, other);
    SameFunctions(name, w, v);
    Hashed(name, w, a + (":" + x), b + (":" + y));
    Hashed(name, w, b + (":" + y), "");
    SessionLength(name, w, c);
    SessionLength(name, v, d);
    if IsSession(name) { CutAtColon(a, x, b, y); } else { CutAtLength(a, x, b, y); }
    SameSession(name, w, c, v, d);
    SameProofText(name, w, c, req, v, d, other);
  }

  lemma SameFunctions(name: string, w: World, v: World)
    requires w.md5 == v.md5 && w.sha256 == v.sha256
    ensures forall data :: H(name, w, data) == H(name, v, data)
  {
  }

  // An admitted request goes where its credential says: to the same URI, or to the
  // same user at the same host in any case of letters, unless it names no URI.
  lemma AdmittedGoesThere(r: Rings, m: Cache, req: Request, w: World)
    requires Admitted(r, m, req, w)
    ensures req.header.Some?
    ensures var uri := req.header.value.uri;
      || req.requestUri == "" || uri == req.requestUri
      || (w.uriUser(uri) == w.uriUser(req.requestUri) && Lower(w.uriHost(uri)) == Lower(w.uriHost(req.requestUri)))
  {
    AdmittedIsProved(r, m, req, w);
    hide Lower, Check;
  }

  // --- The whole condition ---

  predicate HexDigits(s: string) { forall i :: 0 <= i < |s| ==> s[i] in "0123456789abcdefABCDEF" }

  lemma HexEitherCase(s: string)
    ensures HexDigits(s) <==> forall i :: 0 <= i < |s| ==> IsHexLower(Lower(s)[i])
  {
    forall i | 0 <= i < |s| ensures s[i] in "0123456789abcdefABCDEF" <==> IsHexLower(Lower(s)[i]) {
      HexChar(s[i]);
    }
  }

  lemma HexChar(c: char)
    ensures c in "0123456789abcdefABCDEF" <==> IsHexLower(LowerChar(c))
  {
    var hex := "0123456789abcdefABCDEF";
    assert '0' <= c <= '9' ==> hex[c as int - 48] == c;
    assert 'a' <= c <= 'f' ==> hex[c as int - 87] == c;
    assert 'A' <= c <= 'F' ==> hex[c as int - 49] == c;
  }

  predicate HeaderComplete(c: Credentials) {
    && c.username != "" && c.nonce != "" && c.uri != "" && c.response != ""
    && Named(c.algorithm) in {"md5", "md5-sess", "sha-256", "sha-256-sess"}
    && (IsSession(Named(c.algorithm)) ==> c.cnonce != "")
    && (c.qop != "" ==>
          (Lower(c.qop) == "auth" || Lower(c.qop) == "auth-int") && c.cnonce != "" && |c.nc| == 8 && HexDigits(c.nc))
  }

  lemma CompleteIsWellFormed(c: Credentials)
    ensures HeaderComplete(c) <==> WellFormedHeader(c)
  {
    HexEitherCase(c.nc);
    hide HexDigits, IsHexLower;
    if Algorithm(c) in ["md5", "md5-sess", "sha-256", "sha-256-sess"] { KnownAlgorithm(c); }
    hide Lower, HasSuffix, HasPrefix;
  }

  // A nonce lives for the configured time, but no less than 30 seconds and no more
  // than ten minutes.
  predicate NonceLives(m: Cache, nonce: string, w: World) {
    && "nonce|" + nonce in m && ParseInt(m["nonce|" + nonce]).Some?
    && var age := w.now - ParseInt(m["nonce|" + nonce]).value;
       var configured := ParseInt(w.ttlSetting);
       age <= 30000 || (age <= 600000 && age <= if configured.Some? then configured.value * 1000 else 120000)
  }

  // A count goes up, or is absent or zero.
  predicate CountFresh(r: Rings, m: Cache, c: Credentials) {
    |c.nc| == 8 && PlaceValue(Lower(c.nc)) != 0 ==>
      var stored := ParseInt(Get(m, r.countPrefix + c.nonce));
      PlaceValue(Lower(c.nc)) > if stored.Some? then stored.value else 0
  }

  // The right secret, and a URI that fits.
  predicate Proves(c: Credentials, req: Request, w: World) {
    && |StoredSecret(Named(c.algorithm), w.row)| == (if IsSha(Named(c.algorithm)) then 64 else 32)
    && RequestDigest(w, c, req) != "" && Lower(c.response) == Lower(RequestDigest(w, c, req))
    && (|| req.requestUri == "" || c.uri == req.requestUri
        || (w.uriUser(c.uri) == w.uriUser(req.requestUri) && Lower(w.uriHost(c.uri)) == Lower(w.uriHost(req.requestUri))))
  }

  lemma ProvesIsProved(c: Credentials, req: Request, w: World)
    requires WellFormedHeader(c)
    ensures Proves(c, req, w) <==> Proved(c, req, w)
  {
    KnownAlgorithm(c);
    ExpectedIsRequestDigest(c, req, w);
    hide Expected, RequestDigest, StoredSecret, IsSha, Lower, Named;
  }

  // With the database up, a request is admitted if and only if all of this holds.
  lemma AdmittedIff(r: Rings, m: Cache, req: Request, w: World)
    requires Healthy(r, m) && w.dbOk
    ensures Check(r, m, req, w).1 == Accepted
      <==> && req.header.Some? && HeaderComplete(req.header.value)
           && NonceLives(m, req.header.value.nonce, w) && CountFresh(r, m, req.header.value)
           && Proves(req.header.value, req, w) && UsedKey(r, req.header.value, req.method_) !in m
  {
    AcceptedIff(r, m, req, w);
    if req.header.Some? {
      var c := req.header.value;
      CompleteIsWellFormed(c);
      HexValueIsPlaceValue(Lower(c.nc));
      KeysOwned(r, c, req.method_);
      LivesIff(m, c, w);
      if WellFormedHeader(c) { ProvesIsProved(c, req, w); }
      CountFreshIff(r, m, c);
      hide HeaderComplete, WellFormedHeader, NonceLives, CountFresh, Proves, Proved, NonceTtl, CountStep, Check, UsedKey, Sound;
      assert KeyOf(r, req) in UsedView(r, m).live <==> UsedKey(r, c, req.method_) in m;
    }
  }

  lemma LivesIff(m: Cache, c: Credentials, w: World)
    ensures NonceLives(m, c.nonce, w)
      <==> NonceKnown(m, c) && w.now - ParseInt(m["nonce|" + c.nonce]).value <= NonceTtl(w)
  {
    hide ParseInt;
  }

  lemma CountFreshIff(r: Rings, m: Cache, c: Credentials)
    ensures CountFresh(r, m, c) <==> CountStep(r, m, c).Some?
  {
    HexValueIsPlaceValue(Lower(c.nc));
    hide ParseInt, HexValue, PlaceValue, SetIn;
  }

  // The sender is told its nonce is stale if and only if everything before the age of
  // the nonce is in order and the nonce no longer lives.
  lemma StaleIff(r: Rings, m: Cache, req: Request, w: World)
    ensures Check(r, m, req, w).1 == Stale
      <==> && w.dbOk && req.header.Some? && HeaderComplete(req.header.value)
           && "nonce|" + req.header.value.nonce in m && ParseInt(m["nonce|" + req.header.value.nonce]).Some?
           && !NonceLives(m, req.header.value.nonce, w)
  {
    if req.header.Some? {
      CompleteIsWellFormed(req.header.value);
      LivesIff(m, req.header.value, w);
    }
    hide HeaderComplete, WellFormedHeader, NonceLives, NonceTtl, ParseInt, Proved;
  }

  // --- Different tuples do not block each other ---

  predicate NoBars(c: Credentials, method_: string) {
    && !Contains(c.nonce, '|') && !Contains(c.username, '|') && !Contains(method_, '|')
    && !Contains(c.uri, '|') && !Contains(c.nc, '|') && !Contains(c.cnonce, '|')
  }

  function TupleParts(c: Credentials, method_: string): seq<string> {
    [c.nonce, c.username, method_, c.uri] + if c.qop != "" then [c.nc, c.cnonce] else []
  }

  lemma {:induction false} JoinAppended(parts: seq<string>, last: string, sep: string)
    requires parts != []
    ensures Join(parts + [last], sep) == Join(parts, sep) + sep + last
  {
    if |parts| == 1 {
      assert (parts + [last])[1..] == [last];
    } else {
      assert (parts + [last])[1..] == parts[1..] + [last];
      JoinAppended(parts[1..], last, sep);
      assert parts[0] + sep + (Join(parts[1..], sep) + sep + last) == parts[0] + sep + Join(parts[1..], sep) + sep + last;
    }
  }

  lemma KeyOfParts(r: Rings, c: Credentials, method_: string)
    ensures UsedKey(r, c, method_) == r.usedPrefix + Join(TupleParts(c, method_), "|")
  {
    var four := [c.nonce, c.username, method_, c.uri];
    JoinAppended([c.nonce], c.username, "|");
    JoinAppended([c.nonce, c.username], method_, "|");
    JoinAppended([c.nonce, c.username, method_], c.uri, "|");
    assert [c.nonce] + [c.username] == [c.nonce, c.username];
    assert [c.nonce, c.username] + [method_] == [c.nonce, c.username, method_];
    assert [c.nonce, c.username, method_] + [c.uri] == four;
    var text := c.nonce + "|" + c.username + "|" + method_ + "|" + c.uri;
    assert Join(four, "|") == text;
    if c.qop != "" {
      JoinAppended(four, c.nc, "|");
      JoinAppended(four + [c.nc], c.cnonce, "|");
      assert four + [c.nc] + [c.cnonce] == TupleParts(c, method_);
      assert r.usedPrefix + text + ("|" + c.nc + "|" + c.cnonce) == r.usedPrefix + (text + "|" + c.nc + "|" + c.cnonce);
    } else {
      assert TupleParts(c, method_) == four;
    }
  }

  // The replay key holds the whole tuple, so no request is taken for another's replay.
  lemma KeyFixesTuple(r: Rings, c: Credentials, method_: string, d: Credentials, other: string)
    requires NoBars(c, method_) && NoBars(d, other) && UsedKey(r, c, method_) == UsedKey(r, d, other)
    ensures c.nonce == d.nonce && c.username == d.username && method_ == other && c.uri == d.uri
    ensures (c.qop == "" <==> d.qop == "") && (c.qop != "" ==> c.nc == d.nc && c.cnonce == d.cnonce)
  {
    KeyOfParts(r, c, method_);
    KeyOfParts(r, d, other);
    var a, b := TupleParts(c, method_), TupleParts(d, other);
    hide Contains, Split, Join;
    assert (r.usedPrefix + Join(a, "|"))[|r.usedPrefix|..] == Join(a, "|");
    assert (r.usedPrefix + Join(b, "|"))[|r.usedPrefix|..] == Join(b, "|");
    SplitOfJoin(a, '|');
    SplitOfJoin(b, '|');
    assert a == b && a[0] == b[0] && a[1] == b[1] && a[2] == b[2] && a[3] == b[3] && |a| == |b|;
    if c.qop != "" { assert a[4] == b[4] && a[5] == b[5]; }
  }
}
