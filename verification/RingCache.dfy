// The worker's string cache (CMap) and the fixed ring that keeps attacker-chosen
// keys in it bounded (auth.mko).  A ring is three things inside one flat map: a
// counter under `seqKey`, slot entries under `prefix + slot`, and the live keys
// themselves.  The lemmas show that this imitates a bounded queue of distinct
// keys, and what is left of that when other code deletes keys behind its back.
module RingCache {
  import opened Arithmetic
  import opened Text
  import Queue = BoundedRing

  type Cache = map<string, string>

  // --- Builtins of the cache ---

  function Get(m: Cache, key: string): string {
    if key in m then m[key] else ""
  }

  function Counter(m: Cache, key: string): int {
    var parsed := ParseInt(Get(m, key));
    if parsed.Some? then parsed.value else 0
  }

  class CMap {
    var m: Cache

    constructor ()
      ensures m == map[]
    {
      m := map[];
    }

    method Set(key: string, value: string)
      modifies this
      ensures m == old(m)[key := value]
    {
      m := m[key := value];
    }

    method Del(key: string)
      modifies this
      ensures m == old(m) - {key}
    {
      m := m - {key};
    }

    method Incr(key: string, delta: int) returns (value: int)
      modifies this
      ensures value == Counter(old(m), key) + delta
      ensures m == old(m)[key := IntText(value)]
    {
      value := Counter(m, key) + delta;
      m := m[key := IntText(value)];
    }
  }

  // --- What one ring insertion does ---

  // The store and its index are usually the same map; keep both cases.
  datatype Maps = Shared(m: Cache) | Separate(s: Cache, i: Cache) {
    function Store(): Cache { if Shared? then m else s }
    function Index(): Cache { if Shared? then m else i }
    function PutStore(key: string, value: string): Maps {
      if Shared? then Shared(m[key := value]) else Separate(s[key := value], i)
    }
    function PutIndex(key: string, value: string): Maps {
      if Shared? then Shared(m[key := value]) else Separate(s, i[key := value])
    }
    function DelStore(key: string): Maps {
      if Shared? then Shared(m - {key}) else Separate(s - {key}, i)
    }
  }

  datatype Ring = Ring(seqKey: string, prefix: string, capacity: nat) {
    function SlotKey(slot: int): string { prefix + IntText(slot) }
  }

  // The worker's integer division truncates toward zero.
  function TruncDiv(a: int, b: int): int
    requires b > 0
  {
    if a >= 0 then a / b else -(-a / b)
  }

  function SlotOf(count: int, capacity: int): int
    requires capacity > 0
  {
    count - TruncDiv(count, capacity) * capacity
  }

  function BoundedStateSet(s: Maps, r: Ring, key: string, value: string): Maps
    requires r.capacity > 0
  {
    if key in s.Store() then s.PutStore(key, value)
    else
      var count := Counter(s.Index(), r.seqKey) + 1;
      var counted := s.PutIndex(r.seqKey, IntText(count));
      var slotKey := r.SlotKey(SlotOf(count, r.capacity));
      var old_ := Get(counted.Index(), slotKey);
      var evicted := if old_ != "" && old_ != key then counted.DelStore(old_) else counted;
      evicted.PutIndex(slotKey, key).PutStore(key, value)
  }

  ghost function MapsOf(store: CMap, index: CMap): Maps
    reads store, index
  {
    if store == index then Shared(store.m) else Separate(store.m, index.m)
  }

  method BoundedStateSetInPlace(store: CMap, index: CMap, r: Ring, key: string, value: string)
    requires r.capacity > 0
    modifies store, index
    ensures MapsOf(store, index) == BoundedStateSet(old(MapsOf(store, index)), r, key, value)
  {
    hide IntText, ParseInt;
    if key in store.m {
      store.Set(key, value);
      return;
    }
    var count := index.Incr(r.seqKey, 1);
    var slot := count - TruncDiv(count, r.capacity) * r.capacity;
    var ringKey := r.prefix + IntText(slot);
    if ringKey in index.m {
      var oldKey := index.m[ringKey];
      if |oldKey| > 0 && oldKey != key {
        store.Del(oldKey);
      }
    }
    index.Set(ringKey, key);
    store.Set(key, value);
  }

  // --- Ownership: which keys a ring is responsible for ---

  const STAMP := "|at"

  predicate IsStamp(key: string) {
    |key| >= |STAMP| && key[|key| - |STAMP|..] == STAMP
  }

  predicate Incomparable(p: string, q: string) {
    !HasPrefix(p, q) && !HasPrefix(q, p)
  }

  // The live keys of a ring start with one of `prefixes`; `stamped` rings keep a
  // second entry key + "|at" beside every live key.
  datatype Domain = Domain(ring: Ring, prefixes: set<string>, stamped: bool) {
    ghost predicate Names(key: string) { exists p :: p in prefixes && HasPrefix(key, p) }

    ghost predicate Owns(key: string) { Names(key) && !(stamped && IsStamp(key)) }

    predicate IsBookkeeping(key: string) {
      key == ring.seqKey || HasPrefix(key, ring.prefix)
    }

    // Everything the ring writes starts with one of these.
    function Words(): set<string> { {ring.seqKey, ring.prefix} + prefixes }

    ghost predicate WellFormed() {
      && ring.capacity > 0
      && ring.seqKey != ring.prefix && ring.seqKey !in prefixes && ring.prefix !in prefixes
      && forall p, q :: p in Words() && q in Words() && p != q ==> Incomparable(p, q)
    }
  }

  ghost predicate DisjointDomains(d: Domain, e: Domain) {
    forall p, q :: p in d.Words() && q in e.Words() ==> Incomparable(p, q)
  }

  // No key starts with words of two disjoint domains.
  lemma DisjointKeys(d: Domain, e: Domain, key: string)
    requires DisjointDomains(d, e) && (d.Names(key) || d.IsBookkeeping(key))
    ensures !e.Names(key) && !e.IsBookkeeping(key)
  {
    var p :| p in d.Words() && HasPrefix(key, p);
    if e.Names(key) || e.IsBookkeeping(key) {
      var q :| q in e.Words() && HasPrefix(key, q);
      IncomparablePrefixes(p, q, key);
    }
  }

  lemma DifferAt(p: string, q: string, i: nat)
    requires i < |p| && i < |q| && p[i] != q[i]
    ensures Incomparable(p, q)
  {
    assert |q| <= |p| ==> p[..|q|][i] == p[i];
    assert |p| <= |q| ==> q[..|p|][i] == q[i];
  }

  lemma PrefixOfPrefix(p: string, q: string, key: string)
    requires HasPrefix(key, p) && HasPrefix(key, q) && |p| <= |q|
    ensures HasPrefix(q, p)
  {
    assert q[..|p|] == key[..|q|][..|p|] == key[..|p|];
  }

  lemma IncomparablePrefixes(p: string, q: string, key: string)
    requires Incomparable(p, q)
    ensures !(HasPrefix(key, p) && HasPrefix(key, q))
  {
    if HasPrefix(key, p) && HasPrefix(key, q) {
      if |p| <= |q| { PrefixOfPrefix(p, q, key); } else { PrefixOfPrefix(q, p, key); }
    }
  }

  lemma OwnedNotBookkeeping(d: Domain, k: string)
    requires d.WellFormed() && d.Names(k)
    ensures !d.IsBookkeeping(k) && k != ""
  {
    var p :| p in d.prefixes && HasPrefix(k, p);
    IncomparablePrefixes(p, d.ring.prefix, k);
    assert Incomparable(p, d.ring.seqKey) && !HasPrefix(d.ring.seqKey, p);
  }

  lemma UnnamedKeys(d: Domain)
    requires d.WellFormed()
    ensures !d.Names(d.ring.seqKey) && !d.Names("")
  {
    if d.Names(d.ring.seqKey) { OwnedNotBookkeeping(d, d.ring.seqKey); }
    if d.Names("") { OwnedNotBookkeeping(d, ""); }
  }

  lemma SlotKeysDistinct(r: Ring, a: nat, b: nat)
    requires r.SlotKey(a) == r.SlotKey(b)
    ensures a == b
  {
    assert r.SlotKey(a)[|r.prefix|..] == Dec(a);
    assert r.SlotKey(b)[|r.prefix|..] == Dec(b);
    DecInjective(a, b);
  }

  lemma SlotKeyHasPrefix(r: Ring, slot: int)
    ensures HasPrefix(r.SlotKey(slot), r.prefix)
  {
    assert r.SlotKey(slot)[..|r.prefix|] == r.prefix;
  }

  lemma SlotKeyIsBookkeeping(d: Domain, slot: int)
    requires d.WellFormed()
    ensures HasPrefix(d.ring.SlotKey(slot), d.ring.prefix)
    ensures !d.Names(d.ring.SlotKey(slot))
    ensures d.ring.SlotKey(slot) != d.ring.seqKey
  {
    SlotKeyHasPrefix(d.ring, slot);
    assert Incomparable(d.ring.seqKey, d.ring.prefix);
    if d.Names(d.ring.SlotKey(slot)) { OwnedNotBookkeeping(d, d.ring.SlotKey(slot)); }
  }

  lemma SlotInRange(n: nat, capacity: nat)
    requires capacity > 0
    ensures SlotOf(n, capacity) == Wrap(n, capacity)
  {
    WrapIsRemainder(n, capacity);
  }

  // --- The cache as a ring of keys ---

  // Nothing but this domain's own keys was ever written to its slots.
  ghost predicate Sound(s: Maps, d: Domain) {
    && d.WellFormed()
    && Counter(s.Index(), d.ring.seqKey) >= 0
    && (forall slot: nat :: slot < d.ring.capacity && d.ring.SlotKey(slot) in s.Index()
          ==> d.Owns(s.Index()[d.ring.SlotKey(slot)]))
  }

  ghost function Slots(index: Cache, r: Ring): map<nat, string> {
    map slot: nat | slot < r.capacity && r.SlotKey(slot) in index :: index[r.SlotKey(slot)]
  }

  ghost function View(s: Maps, d: Domain): Queue.State<string>
    requires Sound(s, d)
  {
    Queue.State(
      Counter(s.Index(), d.ring.seqKey),
      Slots(s.Index(), d.ring),
      set k | k in s.Store() && d.Owns(k))
  }

  ghost function Next(s: Maps, d: Domain): nat
    requires Sound(s, d)
  {
    Queue.NextSlot(View(s, d), d.ring.capacity)
  }

  // The key that the next insertion's slot still names, or "".
  ghost function Victim(s: Maps, d: Domain): string
    requires Sound(s, d)
  {
    Get(s.Index(), d.ring.SlotKey(Next(s, d)))
  }

  // An insertion of a new key, without its branches.
  lemma NewKeyEffect(s: Maps, d: Domain, key: string, value: string)
    requires Sound(s, d) && d.Owns(key) && key !in s.Store()
    ensures
      var n := Counter(s.Index(), d.ring.seqKey) + 1;
      var counted := s.PutIndex(d.ring.seqKey, IntText(n));
      var victim := Victim(s, d);
      var evicted := if victim != "" && victim in s.Store() then counted.DelStore(victim) else counted;
      && BoundedStateSet(s, d.ring, key, value)
         == evicted.PutIndex(d.ring.SlotKey(Next(s, d)), key).PutStore(key, value)
      && (victim == "" || d.Owns(victim))
  {
    hide IntText, ParseInt;
    var n := Counter(s.Index(), d.ring.seqKey) + 1;
    SlotInRange(n, d.ring.capacity);
    SlotKeyIsBookkeeping(d, Next(s, d));
    var counted := s.PutIndex(d.ring.seqKey, IntText(n));
    assert Get(counted.Index(), d.ring.SlotKey(Next(s, d))) == Victim(s, d);
    VictimOwned(s, d);
    UnnamedKeys(d);
    if Victim(s, d) != "" && Victim(s, d) !in s.Store() {
      assert counted.DelStore(Victim(s, d)) == counted;
    }
  }

  lemma StoreEffect(s: Maps, d: Domain, key: string, value: string, k: string)
    requires Sound(s, d) && d.Owns(key) && !d.IsBookkeeping(k)
    ensures var t := BoundedStateSet(s, d.ring, key, value).Store();
      && (k in t <==> k == key || (k in s.Store() && !(key !in s.Store() && k == Victim(s, d) && k != "")))
      && (k in t ==> t[k] == if k == key then value else s.Store()[k])
  {
    if key !in s.Store() {
      NewKeyEffect(s, d, key, value);
      SlotKeyIsBookkeeping(d, Next(s, d));
    }
  }

  lemma IndexEffect(s: Maps, d: Domain, key: string, value: string, k: string)
    requires Sound(s, d) && d.Owns(key) && !d.Names(k)
    ensures var t := BoundedStateSet(s, d.ring, key, value).Index();
      if key !in s.Store() && k == d.ring.SlotKey(Next(s, d)) then k in t && t[k] == key
      else if key !in s.Store() && k == d.ring.seqKey then
        k in t && t[k] == IntText(Counter(s.Index(), k) + 1)
      else (k in t <==> k in s.Index()) && Get(t, k) == Get(s.Index(), k)
  {
    hide IntText, ParseInt, SlotOf, Next, Victim, Counter;
    if key !in s.Store() {
      NewKeyEffect(s, d, key, value);
      SlotKeyIsBookkeeping(d, Next(s, d));
      hide BoundedStateSet;
    }
  }

  lemma CounterEffect(s: Maps, d: Domain, key: string, value: string)
    requires Sound(s, d) && d.Owns(key)
    ensures Counter(BoundedStateSet(s, d.ring, key, value).Index(), d.ring.seqKey)
      == Counter(s.Index(), d.ring.seqKey) + if key in s.Store() then 0 else 1
  {
    UnnamedKeys(d);
    IndexEffect(s, d, key, value, d.ring.seqKey);
    SlotKeyIsBookkeeping(d, Next(s, d));
    ParseIntText(Counter(s.Index(), d.ring.seqKey) + 1);
  }

  lemma SlotEffect(s: Maps, d: Domain, key: string, value: string, slot: nat)
    requires Sound(s, d) && d.Owns(key)
    ensures var t := BoundedStateSet(s, d.ring, key, value).Index();
      var name := d.ring.SlotKey(slot);
      if key !in s.Store() && slot == Next(s, d) then name in t && t[name] == key
      else (name in t <==> name in s.Index()) && Get(t, name) == Get(s.Index(), name)
  {
    SlotKeyIsBookkeeping(d, slot);
    IndexEffect(s, d, key, value, d.ring.SlotKey(slot));
    if d.ring.SlotKey(slot) == d.ring.SlotKey(Next(s, d)) { SlotKeysDistinct(d.ring, slot, Next(s, d)); }
  }

  lemma SetSound(s: Maps, d: Domain, key: string, value: string)
    requires Sound(s, d) && d.Owns(key)
    ensures Sound(BoundedStateSet(s, d.ring, key, value), d)
  {
    var t := BoundedStateSet(s, d.ring, key, value);
    CounterEffect(s, d, key, value);
    forall slot: nat | slot < d.ring.capacity && d.ring.SlotKey(slot) in t.Index()
      ensures d.Owns(t.Index()[d.ring.SlotKey(slot)])
    {
      SlotEffect(s, d, key, value, slot);
    }
  }

  // `slot` names the new key if it is the one written, and is as before if not.
  ghost predicate SlotWritten(before: Cache, after: Cache, r: Ring, written: bool, next: nat, key: string, slot: nat) {
    var name := r.SlotKey(slot);
    if written && slot == next then name in after && after[name] == key
    else (name in after <==> name in before) && Get(after, name) == Get(before, name)
  }

  ghost predicate LiveAfter(s: Maps, t: Maps, d: Domain, key: string, k: string)
    requires Sound(s, d)
  {
    k in t.Store() <==> k == key || (k in s.Store() && !(key !in s.Store() && k == Victim(s, d)))
  }

  lemma SlotsStep(before: Cache, after: Cache, r: Ring, written: bool, next: nat, key: string)
    requires next < r.capacity
    requires forall slot: nat :: slot < r.capacity ==> SlotWritten(before, after, r, written, next, key, slot)
    ensures Slots(after, r) == if written then Slots(before, r)[next := key] else Slots(before, r)
  {
    forall slot: nat | slot < r.capacity
      ensures slot in Slots(after, r) <==> slot in Slots(before, r) || (written && slot == next)
      ensures slot in Slots(after, r) ==>
        Slots(after, r)[slot] == if written && slot == next then key else Slots(before, r)[slot]
    {
      assert SlotWritten(before, after, r, written, next, key, slot);
    }
  }

  lemma LiveStep(s: Maps, t: Maps, d: Domain, key: string)
    requires Sound(s, d) && Sound(t, d) && d.Owns(key)
    requires forall k :: d.Owns(k) ==> LiveAfter(s, t, d, key, k)
    ensures View(t, d).live
      == if key in s.Store() then View(s, d).live else (View(s, d).live - {Victim(s, d)}) + {key}
  {
    var before, after := View(s, d).live, View(t, d).live;
    forall k | d.Owns(k)
      ensures k in after <==> k == key || (k in before && !(key !in s.Store() && k == Victim(s, d)))
    {
      assert LiveAfter(s, t, d, key, k);
    }
  }

  lemma VictimIsNamed(s: Maps, d: Domain)
    requires Sound(s, d)
    ensures View(s, d).live - {Victim(s, d)} == View(s, d).live - Queue.Victims(View(s, d), d.ring.capacity)
  {
    var a := View(s, d);
    UnnamedKeys(d);
    if Next(s, d) !in a.slots {
      assert "" !in a.live;
    }
  }

  // The string-keyed insertion is one step of the ring.
  lemma SetRefinesInsert(s: Maps, d: Domain, key: string, value: string)
    requires Sound(s, d) && d.Owns(key)
    ensures Sound(BoundedStateSet(s, d.ring, key, value), d)
    ensures View(BoundedStateSet(s, d.ring, key, value), d) == Queue.Insert(View(s, d), key, d.ring.capacity)
  {
    var t := BoundedStateSet(s, d.ring, key, value);
    SetSound(s, d, key, value);
    CounterEffect(s, d, key, value);
    var written, next := key !in s.Store(), Next(s, d);
    forall slot: nat | slot < d.ring.capacity
      ensures SlotWritten(s.Index(), t.Index(), d.ring, written, next, key, slot)
    {
      SlotEffect(s, d, key, value, slot);
    }
    forall k | d.Owns(k) ensures LiveAfter(s, t, d, key, k) {
      OwnedNotBookkeeping(d, k);
      StoreEffect(s, d, key, value, k);
    }
    SlotsStep(s.Index(), t.Index(), d.ring, written, next, key);
    LiveStep(s, t, d, key);
    VictimIsNamed(s, d);
  }

  // Two states that agree on everything a domain reads.
  ghost predicate AgreeOn(s: Maps, t: Maps, e: Domain) {
    && (forall k :: e.IsBookkeeping(k)
          ==> (k in s.Index() <==> k in t.Index()) && Get(s.Index(), k) == Get(t.Index(), k))
    && (forall k :: e.Names(k)
          ==> (k in s.Store() <==> k in t.Store()) && Get(s.Store(), k) == Get(t.Store(), k))
  }

  lemma AgreeSameView(s: Maps, t: Maps, e: Domain)
    requires Sound(s, e) && AgreeOn(s, t, e)
    ensures Sound(t, e) && View(t, e) == View(s, e)
  {
    hide IntText, ParseInt;
    forall slot: nat ensures e.IsBookkeeping(e.ring.SlotKey(slot)) {
      SlotKeyIsBookkeeping(e, slot);
    }
    assert e.IsBookkeeping(e.ring.seqKey);
    forall slot: nat | slot < e.ring.capacity && e.ring.SlotKey(slot) in t.Index()
      ensures t.Index()[e.ring.SlotKey(slot)] == s.Index()[e.ring.SlotKey(slot)]
    {
      assert Get(t.Index(), e.ring.SlotKey(slot)) == Get(s.Index(), e.ring.SlotKey(slot));
    }
    assert View(t, e).slots == View(s, e).slots;
    assert View(t, e).live == View(s, e).live;
  }

  // An insertion leaves everything of a disjoint domain alone.
  lemma SetFrame(s: Maps, d: Domain, e: Domain, key: string, value: string)
    requires Sound(s, d) && d.Owns(key) && DisjointDomains(d, e)
    ensures AgreeOn(s, BoundedStateSet(s, d.ring, key, value), e)
  {
    hide BoundedStateSet, Next, Victim;
    var t := BoundedStateSet(s, d.ring, key, value);
    forall k | e.IsBookkeeping(k)
      ensures (k in s.Index() <==> k in t.Index()) && Get(s.Index(), k) == Get(t.Index(), k)
    {
      DisjointKeys(e, d, k);
      SlotKeyIsBookkeeping(d, Next(s, d));
      IndexEffect(s, d, key, value, k);
    }
    forall k | e.Names(k)
      ensures (k in s.Store() <==> k in t.Store()) && Get(s.Store(), k) == Get(t.Store(), k)
    {
      DisjointKeys(e, d, k);
      VictimOwned(s, d);
      StoreEffect(s, d, key, value, k);
    }
  }

  // A write to one of two disjoint rings is one step of that ring and nothing
  // to the other.
  lemma SetBeside(s: Maps, d: Domain, e: Domain, key: string, value: string)
    requires Sound(s, d) && Sound(s, e) && d.Owns(key) && DisjointDomains(d, e)
    ensures var t := BoundedStateSet(s, d.ring, key, value);
      && Sound(t, d) && View(t, d) == Queue.Insert(View(s, d), key, d.ring.capacity)
      && Sound(t, e) && View(t, e) == View(s, e) && AgreeOn(s, t, e)
  {
    var t := BoundedStateSet(s, d.ring, key, value);
    SetRefinesInsert(s, d, key, value);
    SetFrame(s, d, e, key, value);
    AgreeSameView(s, t, e);
  }

  // --- Outside deletes ---

  function DeleteFromStore(s: Maps, keys: set<string>): Maps {
    if s.Shared? then Shared(s.m - keys) else Separate(s.s - keys, s.i)
  }

  // Other code that deletes a ring's live keys leaves its slots and counter alone.
  lemma DeleteIsOutsideDelete(s: Maps, d: Domain, keys: set<string>)
    requires Sound(s, d) && forall k :: k in keys ==> d.Owns(k)
    ensures var t := DeleteFromStore(s, keys);
      && Sound(t, d) && Queue.OutsideDelete(View(s, d), View(t, d))
      && View(t, d).live == View(s, d).live - keys
  {
    hide IntText, ParseInt;
    var t := DeleteFromStore(s, keys);
    forall k | k in keys ensures !d.IsBookkeeping(k) { OwnedNotBookkeeping(d, k); }
    forall slot: nat ensures d.IsBookkeeping(d.ring.SlotKey(slot)) { SlotKeyIsBookkeeping(d, slot); }
    assert d.IsBookkeeping(d.ring.seqKey);
    assert View(t, d).slots == View(s, d).slots;
    assert View(t, d).live == View(s, d).live - keys;
  }

  // --- Whole runs over several rings in the same maps ---

  datatype Write = Write(domain: nat, key: string, value: string)

  ghost predicate PairwiseDisjoint(ds: seq<Domain>) {
    forall i, j :: 0 <= i < |ds| && 0 <= j < |ds| && i != j ==> DisjointDomains(ds[i], ds[j])
  }

  ghost predicate AllSound(s: Maps, ds: seq<Domain>) {
    forall i :: 0 <= i < |ds| ==> Sound(s, ds[i])
  }

  ghost predicate Owned(ds: seq<Domain>, ws: seq<Write>) {
    forall i :: 0 <= i < |ws| ==> ws[i].domain < |ds| && ds[ws[i].domain].Owns(ws[i].key)
  }

  ghost function RunWrites(s: Maps, ds: seq<Domain>, ws: seq<Write>): Maps
    requires forall i :: 0 <= i < |ds| ==> ds[i].ring.capacity > 0
    requires Owned(ds, ws)
  {
    if ws == [] then s
    else
      var w := ws[|ws| - 1];
      BoundedStateSet(RunWrites(s, ds, ws[..|ws| - 1]), ds[w.domain].ring, w.key, w.value)
  }

  // The keys written to one domain, in order.
  function KeysOf(ws: seq<Write>, domain: nat): seq<string> {
    if ws == [] then []
    else
      var w := ws[|ws| - 1];
      KeysOf(ws[..|ws| - 1], domain) + if w.domain == domain then [w.key] else []
  }

  // Every domain sees only its own writes: no ring ever evicts from another.
  lemma {:induction false} DomainsIndependent(s: Maps, ds: seq<Domain>, ws: seq<Write>)
    requires PairwiseDisjoint(ds) && AllSound(s, ds) && Owned(ds, ws)
    ensures AllSound(RunWrites(s, ds, ws), ds)
    ensures forall j :: 0 <= j < |ds| ==>
      View(RunWrites(s, ds, ws), ds[j]) == Queue.InsertAll(View(s, ds[j]), KeysOf(ws, j), ds[j].ring.capacity)
  {
    if ws == [] {
    } else {
      var before, w := ws[..|ws| - 1], ws[|ws| - 1];
      DomainsIndependent(s, ds, before);
      var mid, t := RunWrites(s, ds, before), RunWrites(s, ds, ws);
      forall j | 0 <= j < |ds|
        ensures Sound(t, ds[j])
        ensures View(t, ds[j]) == Queue.InsertAll(View(s, ds[j]), KeysOf(ws, j), ds[j].ring.capacity)
      {
        if j == w.domain {
          SetRefinesInsert(mid, ds[j], w.key, w.value);
          assert KeysOf(ws, j)[..|KeysOf(ws, j)| - 1] == KeysOf(before, j);
        } else {
          SetFrame(mid, ds[w.domain], ds[j], w.key, w.value);
          AgreeSameView(mid, t, ds[j]);
          assert KeysOf(ws, j) == KeysOf(before, j);
        }
      }
    }
  }

  // From an empty cache, the live keys of each domain are exactly its own queue.
  lemma RunIsQueue(s: Maps, ds: seq<Domain>, ws: seq<Write>, j: nat, q: seq<string>)
    requires PairwiseDisjoint(ds) && AllSound(s, ds) && Owned(ds, ws) && j < |ds|
    requires Queue.Fifo(View(s, ds[j]), ds[j].ring.capacity, q)
    ensures AllSound(RunWrites(s, ds, ws), ds)
    ensures forall k :: ds[j].Owns(k) ==>
      (k in RunWrites(s, ds, ws).Store() <==> k in Queue.FifoAll(q, KeysOf(ws, j), ds[j].ring.capacity))
  {
    DomainsIndependent(s, ds, ws);
    Queue.FifoRun(View(s, ds[j]), q, KeysOf(ws, j), ds[j].ring.capacity);
    var v := View(RunWrites(s, ds, ws), ds[j]);
    assert forall k :: k in v.live <==> k in RunWrites(s, ds, ws).Store() && ds[j].Owns(k);
  }

  // After writing `key`, fewer than `capacity` new keys of its own domain never
  // remove it, whatever the other domains write; the next new key after
  // `capacity - 1` of them does.
  lemma WrittenKeySurvives(s: Maps, ds: seq<Domain>, w: Write, ws: seq<Write>, q: seq<string>)
    requires PairwiseDisjoint(ds) && AllSound(s, ds) && Owned(ds, ws)
    requires w.domain < |ds| && ds[w.domain].Owns(w.key)
    requires Queue.Fifo(View(s, ds[w.domain]), ds[w.domain].ring.capacity, q) && w.key !in q
    ensures var d := ds[w.domain];
      var t := BoundedStateSet(s, d.ring, w.key, w.value);
      var q1 := Queue.FifoSet(q, w.key, d.ring.capacity);
      var fresh_ := Queue.NewKeys(q1, KeysOf(ws, w.domain), d.ring.capacity);
      && AllSound(t, ds)
      && (fresh_ < d.ring.capacity ==> w.key in RunWrites(t, ds, ws).Store())
      && (forall last: Write ::
            && fresh_ == d.ring.capacity - 1 && last.domain == w.domain && d.Owns(last.key)
            && last.key !in RunWrites(t, ds, ws).Store()
            ==> w.key !in BoundedStateSet(RunWrites(t, ds, ws), d.ring, last.key, last.value).Store())
  {
    hide BoundedStateSet, Queue.Insert;
    var d, cap := ds[w.domain], ds[w.domain].ring.capacity;
    var t, q1 := BoundedStateSet(s, d.ring, w.key, w.value), Queue.FifoSet(q, w.key, cap);
    forall j | 0 <= j < |ds| ensures Sound(t, ds[j]) {
      if j == w.domain { SetRefinesInsert(s, d, w.key, w.value); }
      else { SetFrame(s, d, ds[j], w.key, w.value); AgreeSameView(s, t, ds[j]); }
    }
    SetRefinesInsert(s, d, w.key, w.value);
    Queue.FifoStep(View(s, d), cap, q, w.key);
    RunIsQueue(t, ds, ws, w.domain, q1);
    var keys := KeysOf(ws, w.domain);
    forall last: Write
      | Queue.NewKeys(q1, keys, cap) == cap - 1 && last.domain == w.domain && d.Owns(last.key)
        && last.key !in RunWrites(t, ds, ws).Store()
      ensures w.key !in BoundedStateSet(RunWrites(t, ds, ws), d.ring, last.key, last.value).Store()
    {
      Queue.NewestSurvivesExactly(q1, keys, cap, last.key);
      var ws' := ws + [last];
      assert ws'[..|ws|] == ws;
      assert KeysOf(ws', w.domain) == keys + [last.key];
      RunIsQueue(t, ds, ws', w.domain, q1);
    }
    Queue.NewestSurvivesExactly(q1, keys, cap, w.key);
  }

  // --- Rings that keep a time stamp beside each key (bounded_cache_pair_set) ---

  function BoundedPairSet(m: Cache, r: Ring, key: string, value: string, at: int): Cache
    requires r.capacity > 0
  {
    if key in m then m[key := value][key + STAMP := IntText(at)]
    else
      var n := Counter(m, r.seqKey) + 1;
      var counted := m[r.seqKey := IntText(n)];
      var slotKey := r.SlotKey(SlotOf(n, r.capacity));
      var oldKey := Get(counted, slotKey);
      var evicted := if oldKey != "" && oldKey != key then counted - {oldKey} - {oldKey + STAMP} else counted;
      evicted[slotKey := key][key := value][key + STAMP := IntText(at)]
  }

  method BoundedPairSetInPlace(cache: CMap, r: Ring, key: string, value: string, at: int)
    requires r.capacity > 0
    modifies cache
    ensures cache.m == BoundedPairSet(old(cache.m), r, key, value, at)
  {
    hide IntText, ParseInt;
    if key in cache.m {
      cache.Set(key, value);
      cache.Set(key + "|at", IntText(at));
      return;
    }
    var n := cache.Incr(r.seqKey, 1);
    var slot := n - TruncDiv(n, r.capacity) * r.capacity;
    var ringKey := r.prefix + IntText(slot);
    if ringKey in cache.m {
      var oldKey := cache.m[ringKey];
      if |oldKey| > 0 && oldKey != key {
        cache.Del(oldKey);
        cache.Del(oldKey + "|at");
      }
    }
    cache.Set(ringKey, key);
    cache.Set(key, value);
    cache.Set(key + "|at", IntText(at));
  }

  // Key and stamp are always both present or both absent.
  ghost predicate Stamped(m: Cache, d: Domain) {
    forall k :: d.Owns(k) ==> (k in m <==> k + STAMP in m)
  }

  lemma StampKeys(d: Domain, k: string, other: string)
    requires d.WellFormed() && d.stamped && d.Owns(k)
    ensures IsStamp(k + STAMP) && d.Names(k + STAMP)
    ensures !d.Owns(k + STAMP) && !d.IsBookkeeping(k + STAMP) && k + STAMP != ""
    ensures k + STAMP == other + STAMP ==> k == other
  {
    assert (k + STAMP)[|k|..] == STAMP;
    var p :| p in d.prefixes && HasPrefix(k, p);
    assert (k + STAMP)[..|p|] == k[..|p|];
    assert HasPrefix(k + STAMP, p);
    OwnedNotBookkeeping(d, k + STAMP);
    if k + STAMP == other + STAMP { assert (k + STAMP)[..|k|] == (other + STAMP)[..|other|]; }
  }

  // The stamped insertion is the plain one plus the two stamp updates.
  lemma PairSetIsSetPlusStamps(m: Cache, d: Domain, key: string, value: string, at: int)
    requires Sound(Shared(m), d) && d.stamped && d.Owns(key)
    ensures
      var t := BoundedStateSet(Shared(m), d.ring, key, value).m;
      var victim := Victim(Shared(m), d);
      var dropped := if key !in m && victim != "" then {victim + STAMP} else {};
      BoundedPairSet(m, d.ring, key, value, at) == (t - dropped)[key + STAMP := IntText(at)]
  {
    if key !in m {
      var victim, slotKey := NewSlotFacts(m, d, key);
      var counted := m[d.ring.seqKey := IntText(Counter(m, d.ring.seqKey) + 1)];
      PairSetOfNewKey(m, d.ring, key, value, at, victim, slotKey, counted);
      StampUpdatesCommute(counted, slotKey, key, value, victim, IntText(at));
    }
  }

  lemma NewSlotFacts(m: Cache, d: Domain, key: string) returns (victim: string, slotKey: string)
    requires Sound(Shared(m), d) && d.stamped && d.Owns(key) && key !in m
    ensures victim == Victim(Shared(m), d)
    ensures slotKey == d.ring.SlotKey(SlotOf(Counter(m, d.ring.seqKey) + 1, d.ring.capacity))
    ensures victim == Get(m[d.ring.seqKey := IntText(Counter(m, d.ring.seqKey) + 1)], slotKey)
    ensures victim != "" ==> victim + STAMP != slotKey && victim + STAMP != key
  {
    var next := Next(Shared(m), d);
    victim, slotKey := Victim(Shared(m), d), d.ring.SlotKey(next);
    SlotInRange(Counter(m, d.ring.seqKey) + 1, d.ring.capacity);
    SlotKeyIsBookkeeping(d, next);
    VictimOwned(Shared(m), d);
    if victim != "" { StampKeys(d, victim, key); }
  }

  lemma PairSetOfNewKey(m: Cache, r: Ring, key: string, value: string, at: int,
                        victim: string, slotKey: string, counted: Cache)
    requires r.capacity > 0 && key !in m
    requires counted == m[r.seqKey := IntText(Counter(m, r.seqKey) + 1)]
    requires slotKey == r.SlotKey(SlotOf(Counter(m, r.seqKey) + 1, r.capacity))
    requires victim == Get(counted, slotKey)
    ensures
      var evicted := if victim != "" && victim != key then counted - {victim} else counted;
      var both := if victim != "" && victim != key then counted - {victim} - {victim + STAMP} else counted;
      && BoundedStateSet(Shared(m), r, key, value).m == evicted[slotKey := key][key := value]
      && BoundedPairSet(m, r, key, value, at) == both[slotKey := key][key := value][key + STAMP := IntText(at)]
  {
  }

  lemma StampUpdatesCommute(m: Cache, slotKey: string, key: string, value: string, victim: string, stamp: string)
    requires victim != "" ==> victim + STAMP != slotKey && victim + STAMP != key
    ensures
      var evicted := if victim != "" && victim != key then m - {victim} else m;
      var both := if victim != "" && victim != key then m - {victim} - {victim + STAMP} else m;
      var dropped := if victim != "" then {victim + STAMP} else {};
      both[slotKey := key][key := value][key + STAMP := stamp]
        == (evicted[slotKey := key][key := value] - dropped)[key + STAMP := stamp]
  {
  }

  lemma PairSetRefinesInsert(m: Cache, d: Domain, key: string, value: string, at: int)
    requires Sound(Shared(m), d) && d.stamped && d.Owns(key) && Stamped(m, d)
    ensures var t := BoundedPairSet(m, d.ring, key, value, at);
      && Sound(Shared(t), d) && Stamped(t, d)
      && View(Shared(t), d) == Queue.Insert(View(Shared(m), d), key, d.ring.capacity)
      && t[key] == value && t[key + STAMP] == IntText(at)
  {
    assert d.ring.capacity > 0;
    hide BoundedStateSet, BoundedPairSet, View, Sound, Queue.Insert, IntText;
    var t := BoundedPairSet(m, d.ring, key, value, at);
    SetRefinesInsert(Shared(m), d, key, value);
    PairSetSameView(m, d, key, value, at);
    forall k | d.Owns(k) ensures k in t <==> k + STAMP in t {
      PairSetKeepsStamps(m, d, key, value, at, k);
    }
    PairSetValues(m, d, key, value, at);
  }

  lemma PairSetSameView(m: Cache, d: Domain, key: string, value: string, at: int)
    requires Sound(Shared(m), d) && d.stamped && d.Owns(key)
    requires Sound(BoundedStateSet(Shared(m), d.ring, key, value), d)
    ensures var u, t := BoundedStateSet(Shared(m), d.ring, key, value), Shared(BoundedPairSet(m, d.ring, key, value, at));
      Sound(t, d) && View(t, d) == View(u, d)
  {
    var s, u := Shared(m), BoundedStateSet(Shared(m), d.ring, key, value);
    assert u.Shared?;
    hide BoundedStateSet, BoundedPairSet, Next, Victim, IntText;
    PairSetIsSetPlusStamps(m, d, key, value, at);
    StampKeys(d, key, key);
    VictimOwned(s, d);
    if Victim(s, d) != "" { StampKeys(d, Victim(s, d), key); }
    OnlyStampsDiffer(u, Shared(BoundedPairSet(m, d.ring, key, value, at)), d);
  }

  lemma PairSetValues(m: Cache, d: Domain, key: string, value: string, at: int)
    requires Sound(Shared(m), d) && d.stamped && d.Owns(key)
    ensures var t := BoundedPairSet(m, d.ring, key, value, at);
      key in t && t[key] == value && key + STAMP in t && t[key + STAMP] == IntText(at)
  {
    hide IntText, ParseInt;
    StampKeys(d, key, key);
  }

  lemma VictimOwned(s: Maps, d: Domain)
    requires Sound(s, d)
    ensures Victim(s, d) == "" || d.Owns(Victim(s, d))
  {
  }

  // Changing stamps changes nothing the ring reads.
  lemma OnlyStampsDiffer(u: Maps, t: Maps, d: Domain)
    requires Sound(u, d) && u.Shared? && t.Shared?
    requires forall k :: d.Owns(k) || d.IsBookkeeping(k) ==> (k in t.m <==> k in u.m) && Get(t.m, k) == Get(u.m, k)
    ensures Sound(t, d) && View(t, d) == View(u, d)
  {
    forall slot: nat ensures d.IsBookkeeping(d.ring.SlotKey(slot)) {
      SlotKeyIsBookkeeping(d, slot);
    }
    assert d.IsBookkeeping(d.ring.seqKey);
    forall slot: nat | d.ring.SlotKey(slot) in t.m
      ensures t.m[d.ring.SlotKey(slot)] == u.m[d.ring.SlotKey(slot)]
    {
      assert Get(t.m, d.ring.SlotKey(slot)) == Get(u.m, d.ring.SlotKey(slot));
    }
    assert View(t, d).slots == View(u, d).slots;
    assert View(t, d).live == View(u, d).live;
  }

  lemma PairSetKeepsStamps(m: Cache, d: Domain, key: string, value: string, at: int, k: string)
    requires Sound(Shared(m), d) && d.stamped && d.Owns(key) && d.Owns(k) && Stamped(m, d)
    ensures var t := BoundedPairSet(m, d.ring, key, value, at); k in t <==> k + STAMP in t
  {
    var s := Shared(m);
    PairSetIsSetPlusStamps(m, d, key, value, at);
    VictimOwned(s, d);
    StampKeys(d, k, key);
    StampKeys(d, key, k);
    StampKeys(d, k, Victim(s, d));
    if Victim(s, d) != "" { StampKeys(d, Victim(s, d), k); }
    OwnedNotBookkeeping(d, k);
    StoreEffect(s, d, key, value, k);
    StoreEffect(s, d, key, value, k + STAMP);
  }

  // --- Starting point ---

  lemma EmptyCacheIsEmptyQueue(d: Domain)
    requires d.WellFormed()
    ensures Sound(Shared(map[]), d)
    ensures Queue.Fifo(View(Shared(map[]), d), d.ring.capacity, [])
  {
  }
}
