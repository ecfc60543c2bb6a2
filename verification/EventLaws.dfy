// What the subscription scans do: who is notified and how often, which pending
// marks go, and which subscriptions a sweep removes.
module EventLaws {
  import opened Events
  import opened RingCache
  import opened Text

  function DataKey(key: string): string { SUBSCRIPTION + key }

  function MarkKey(key: string): string { PENDING + key }

  lemma KeyPartOf(key: string)
    ensures KeyPart(DataKey(key)) == key
  {
  }

  lemma DataKeyOf(dataKey: string)
    requires HasPrefix(dataKey, SUBSCRIPTION)
    ensures DataKey(KeyPart(dataKey)) == dataKey
  {
  }

  lemma DataKeyInjective(a: string, b: string)
    ensures DataKey(a) == DataKey(b) <==> a == b
    ensures MarkKey(a) == MarkKey(b) <==> a == b
  {
    KeyPartOf(a);
    KeyPartOf(b);
    assert MarkKey(a)[|PENDING|..] == a && MarkKey(b)[|PENDING|..] == b;
  }

  lemma MarkIsNoData(a: string, b: string)
    ensures MarkKey(a) != DataKey(b)
  {
    assert MarkKey(a)[4] == 'p' && DataKey(b)[4] == 's';
  }

  // --- Packing ---

  lemma {:induction false} SplitClean(s: string, sep: char)
    ensures forall i :: 0 <= i < |Split(s, sep)| ==> !Contains(Split(s, sep)[i], sep)
  {
    var at := FindChar(s, sep, 0);
    if at == |s| {
    } else {
      SplitClean(s[at + 1..], sep);
    }
  }

  lemma {:induction false} DecClean(n: nat)
    ensures forall i :: 0 <= i < |Dec(n)| ==> IsDigit(Dec(n)[i])
  {
    DecShape(n);
  }

  lemma IntTextClean(i: int)
    ensures !Contains(IntText(i), '\n')
  {
    DecClean(if i < 0 then -i else i);
  }

  predicate Clean(s: Sub) {
    && !Contains(s.fromUri, '\n') && !Contains(s.resource, '\n') && !Contains(s.event, '\n') && !Contains(s.fromTag, '\n')
    && !Contains(s.toTag, '\n') && !Contains(s.callId, '\n') && !Contains(s.contact, '\n')
  }

  // Fields free of line ends are read back exactly.
  lemma ReadOfPack(s: Sub)
    requires Clean(s)
    ensures Read(Pack(s)) == s && Pack(s) != ""
  {
    hide IntText, ParseInt, Split, Contains;
    var parts := [s.fromUri, s.resource, s.event, IntText(s.expiresAt), s.fromTag, s.toTag, s.callId, IntText(s.cseq), s.contact];
    IntTextClean(s.expiresAt);
    IntTextClean(s.cseq);
    SplitOfJoin(parts, '\n');
    ParseIntText(s.expiresAt);
    ParseIntText(s.cseq);
    PackNotEmpty(s);
  }

  lemma PackNotEmpty(s: Sub)
    ensures Pack(s) != ""
  {
    hide IntText;
    var rest := [s.resource, s.event, IntText(s.expiresAt), s.fromTag, s.toTag, s.callId, IntText(s.cseq), s.contact];
    assert [s.fromUri] + rest
        == [s.fromUri, s.resource, s.event, IntText(s.expiresAt), s.fromTag, s.toTag, s.callId, IntText(s.cseq), s.contact];
    assert ([s.fromUri] + rest)[1..] == rest;
    assert Pack(s) == s.fromUri + "\n" + Join(rest, "\n");
  }

  // What is read is always free of line ends, so renewing keeps every other field.
  lemma ReadIsClean(packed: string)
    ensures Clean(Read(packed))
  {
    hide Split, ParseInt;
    SplitClean(packed, '\n');
    assert !Contains("", '\n');
  }

  lemma RenewedReads(packed: string)
    ensures Read(Pack(Renewed(Read(packed)))) == Renewed(Read(packed)) && Pack(Renewed(Read(packed))) != ""
  {
    hide Read, Pack;
    ReadIsClean(packed);
    ReadOfPack(Renewed(Read(packed)));
  }

  // --- The shape the scans rely on ---

  predicate IsSubscriptionRing(r: Ring) {
    r.seqKey == SUBSCRIPTIONS.seqKey && r.prefix == SUBSCRIPTIONS.prefix && r.capacity > 0
  }

  // Slots name subscriptions only, and no stored subscription is empty.
  ghost predicate Orderly(m: Cache, r: Ring) {
    && IsSubscriptionRing(r)
    && (forall i: nat :: i < r.capacity && r.SlotKey(i) in m ==> HasPrefix(m[r.SlotKey(i)], SUBSCRIPTION))
    && (forall key :: DataKey(key) in m ==> m[DataKey(key)] != "")
  }

  function SubAt(m: Cache, key: string): Sub
    requires DataKey(key) in m
  {
    Read(m[DataKey(key)])
  }

  ghost predicate SameSlots(m: Cache, t: Cache, r: Ring) {
    forall i: nat :: i < r.capacity ==>
      (r.SlotKey(i) in t <==> r.SlotKey(i) in m) && (r.SlotKey(i) in t ==> t[r.SlotKey(i)] == m[r.SlotKey(i)])
  }

  ghost predicate Names(m: Cache, r: Ring, key: string, i: nat) {
    r.SlotKey(i) in m && m[r.SlotKey(i)] == DataKey(key)
  }

  // How many slots from i up to n name the key.
  ghost function Naming(m: Cache, r: Ring, key: string, i: nat, n: nat): nat
    decreases n - i
  {
    if i >= n then 0 else (if Names(m, r, key, i) then 1 else 0) + Naming(m, r, key, i + 1, n)
  }

  lemma {:induction false} NamingSame(m: Cache, t: Cache, r: Ring, key: string, i: nat, n: nat)
    requires SameSlots(m, t, r) && n <= r.capacity
    ensures Naming(t, r, key, i, n) == Naming(m, r, key, i, n)
    decreases n - i
  {
    if i >= n {
    } else {
      NamingSame(m, t, r, key, i + 1, n);
    }
  }

  lemma {:induction false} NamingPositive(m: Cache, r: Ring, key: string, i: nat, n: nat)
    ensures Naming(m, r, key, i, n) > 0 <==> exists j: nat :: i <= j < n && Names(m, r, key, j)
    decreases n - i
  {
    if i >= n {
    } else {
      NamingPositive(m, r, key, i + 1, n);
    }
  }

  lemma {:induction false} NamingOnce(m: Cache, r: Ring, key: string, i: nat, n: nat, at: nat)
    requires Names(m, r, key, at) && forall j: nat :: Names(m, r, key, j) && j < n ==> j == at
    ensures Naming(m, r, key, i, n) == if i <= at < n then 1 else 0
    decreases n - i
  {
    if i >= n {
    } else {
      NamingOnce(m, r, key, i + 1, n, at);
    }
  }

  function CountFor(sent: seq<Notice>, key: string): nat {
    if sent == [] then 0 else (if sent[0].key == key then 1 else 0) + CountFor(sent[1..], key)
  }

  lemma {:induction false} CountForConcat(a: seq<Notice>, b: seq<Notice>, key: string)
    ensures CountFor(a + b, key) == CountFor(a, key) + CountFor(b, key)
  {
    if a == [] {
      assert a + b == b;
    } else {
      CountForConcat(a[1..], b, key);
      assert (a + b)[1..] == a[1..] + b;
    }
  }

  // --- One hit ---

  // Keys this module's rings and entries use.
  predicate Ours(x: string) { |x| >= 4 && x[0] == 'e' && x[1] == 'v' && x[2] == 't' && x[3] == '_' }

  lemma OursAre(r: Ring, i: nat, key: string)
    requires IsSubscriptionRing(r)
    ensures Ours(r.SlotKey(i)) && Ours(DataKey(key)) && Ours(MarkKey(key)) && Ours(r.seqKey)
    ensures r.SlotKey(i) != DataKey(key) && r.SlotKey(i) != MarkKey(key)
    ensures r.seqKey != DataKey(key) && r.seqKey != MarkKey(key)
  {
    hide IntText;
    assert r.SlotKey(i)[8] == 'r' && r.SlotKey(i)[4] == 's' && r.SlotKey(i)[7] == '_';
    assert DataKey(key)[7] == '|' && MarkKey(key)[4] == 'p';
    assert r.seqKey[7] == '_' && r.seqKey[4] == 's';
  }

  lemma HitEntries(m: Cache, r: Ring, key: string, terminated: bool, now: int, x: string)
    requires r.capacity > 0 && DataKey(key) in m && m[DataKey(key)] != "" && Ours(x)
    ensures var p := Hit(m, r, DataKey(key), terminated, now);
      && (x in p.m <==> x in m && !(terminated && x == DataKey(key)))
      && (x in p.m && x != DataKey(key) ==> p.m[x] == m[x])
      && (!terminated && x == DataKey(key) ==> p.m[x] == Pack(Renewed(SubAt(m, key))))
  {
    hide Read, Pack, IntText, ParseInt;
    KeyPartOf(key);
    assert (VERSION + SubAt(m, key).resource)[0] == 'd';
    assert DataKey(key)[0] == 'e';
  }

  // One notice is sent, numbered one above the last.
  lemma HitSends(m: Cache, r: Ring, key: string, terminated: bool, now: int)
    requires r.capacity > 0 && DataKey(key) in m && m[DataKey(key)] != ""
    ensures var p, s := Hit(m, r, DataKey(key), terminated, now), SubAt(m, key);
      && p.hits == 1
      && p.sent == [Notice(key, s.callId, s.cseq + 1, s.contact, if terminated then None else Some(Remaining(s.expiresAt, now)))]
  {
    hide Read, Pack, BoundedStateSet, BodyBuilt;
    KeyPartOf(key);
  }

  // Everything is as before except that `key` went out once: renewed, or removed.
  ghost predicate OnlyHit(m: Cache, t: Cache, r: Ring, key: string, terminated: bool) {
    && Orderly(t, r) && SameSlots(m, t, r)
    && (forall k :: DataKey(k) in t <==> DataKey(k) in m && !(terminated && k == key))
    && (forall k :: DataKey(k) in t ==> SubAt(t, k) == if k == key then Renewed(SubAt(m, k)) else SubAt(m, k))
    && (forall k :: MarkKey(k) in t <==> MarkKey(k) in m)
    && SameElse(m, t)
  }

  // Entries of this module other than subscriptions and pending marks.
  predicate IsElse(x: string) { Ours(x) && !HasPrefix(x, SUBSCRIPTION) && !HasPrefix(x, PENDING) }

  ghost predicate SameElse(m: Cache, t: Cache) {
    forall x :: IsElse(x) ==> (x in t <==> x in m) && (x in t ==> t[x] == m[x])
  }

  lemma HitEffect(m: Cache, r: Ring, key: string, terminated: bool, now: int)
    requires Orderly(m, r) && DataKey(key) in m
    ensures OnlyHit(m, Hit(m, r, DataKey(key), terminated, now).m, r, key, terminated)
  {
    hide Hit, Read, Pack, IntText;
    var t := Hit(m, r, DataKey(key), terminated, now).m;
    RenewedReads(m[DataKey(key)]);
    forall i: nat | i < r.capacity
      ensures (r.SlotKey(i) in t <==> r.SlotKey(i) in m) && (r.SlotKey(i) in t ==> t[r.SlotKey(i)] == m[r.SlotKey(i)])
    {
      OursAre(r, i, key);
      HitEntries(m, r, key, terminated, now, r.SlotKey(i));
    }
    forall k
      ensures DataKey(k) in t <==> DataKey(k) in m && !(terminated && k == key)
      ensures DataKey(k) in t ==> t[DataKey(k)] != ""
      ensures DataKey(k) in t ==> SubAt(t, k) == if k == key then Renewed(SubAt(m, k)) else SubAt(m, k)
      ensures MarkKey(k) in t <==> MarkKey(k) in m
    {
      OursAre(r, 0, k);
      DataKeyInjective(k, key);
      MarkIsNoData(k, key);
      HitEntries(m, r, key, terminated, now, DataKey(k));
      HitEntries(m, r, key, terminated, now, MarkKey(k));
    }
    forall x | IsElse(x) ensures (x in t <==> x in m) && (x in t ==> t[x] == m[x]) {
      HitEntries(m, r, key, terminated, now, x);
    }
  }

  // The subscription a slot names, if it is still there.
  lemma SlotNames(m: Cache, r: Ring, i: nat) returns (key: string)
    requires Orderly(m, r) && i < r.capacity && SlotEntry(m, r, i).Some?
    ensures SlotEntry(m, r, i) == Some(DataKey(key)) && DataKey(key) in m && Names(m, r, key, i)
    ensures KeyPart(DataKey(key)) == key
  {
    key := KeyPart(SlotEntry(m, r, i).value);
    DataKeyOf(SlotEntry(m, r, i).value);
    KeyPartOf(key);
  }

  lemma SlotEntryOf(m: Cache, r: Ring, i: nat, key: string)
    requires Names(m, r, key, i) && DataKey(key) in m
    ensures SlotEntry(m, r, i) == Some(DataKey(key))
  {
  }

  // --- Notifying ---

  predicate Wanted(m: Cache, key: string, event: string, resource: string, now: int) {
    && DataKey(key) in m
    && SubAt(m, key).event == event && SubAt(m, key).resource == resource && SubAt(m, key).expiresAt > now
  }

  // No subscription comes, goes or changes but for its CSeq, which counts what was sent.
  ghost predicate OnlyCounted(m: Cache, t: Cache, key: string, count: nat) {
    && (DataKey(key) in t <==> DataKey(key) in m)
    && (DataKey(key) in t ==> SubAt(t, key) == SubAt(m, key).(cseq := SubAt(m, key).cseq + count))
  }

  ghost predicate SameBookkeeping(m: Cache, t: Cache, r: Ring) {
    SameSlots(m, t, r) && SameElse(m, t)
  }

  lemma NotifySlotEffect(m: Cache, r: Ring, i: nat, event: string, resource: string, now: int, key: string)
    requires Orderly(m, r) && i < r.capacity
    ensures var p := NotifySlot(m, r, i, event, resource, now);
      && Orderly(p.m, r) && SameBookkeeping(m, p.m, r) && p.hits == |p.sent|
      && CountFor(p.sent, key) == (if Wanted(m, key, event, resource, now) && Names(m, r, key, i) then 1 else 0)
      && OnlyCounted(m, p.m, key, CountFor(p.sent, key))
      && (MarkKey(key) in p.m <==> MarkKey(key) in m)
  {
    hide Hit, Read;
    if SlotEntry(m, r, i).Some? {
      var named := SlotNames(m, r, i);
      DataKeyInjective(named, key);
      if Wanted(m, named, event, resource, now) {
        HitEffect(m, r, named, false, now);
        HitSends(m, r, named, false, now);
        OneNotice(Hit(m, r, DataKey(named), false, now).sent, named, key);
      }
    } else if Names(m, r, key, i) && DataKey(key) in m {
      SlotEntryOf(m, r, i, key);
    }
  }

  lemma OneNotice(sent: seq<Notice>, key: string, other: string)
    requires |sent| == 1 && sent[0].key == key
    ensures CountFor(sent, other) == if other == key then 1 else 0
  {
    assert sent[1..] == [];
  }

  // A scan notifies each matching live subscription once per slot that names it,
  // and nobody else.
  lemma {:induction false} NotifyScanEffect(m: Cache, r: Ring, i: nat, n: nat, event: string, resource: string, now: int, key: string)
    requires Orderly(m, r) && n <= r.capacity
    ensures var p := NotifyScan(m, r, i, n, event, resource, now);
      && Orderly(p.m, r) && SameBookkeeping(m, p.m, r) && p.hits == |p.sent|
      && CountFor(p.sent, key) == (if Wanted(m, key, event, resource, now) then Naming(m, r, key, i, n) else 0)
      && OnlyCounted(m, p.m, key, CountFor(p.sent, key))
      && (MarkKey(key) in p.m <==> MarkKey(key) in m)
    decreases n - i
  {
    hide NotifySlot, Read, Names, Orderly, Ours;
    if i >= n {
    } else {
      var here := NotifySlot(m, r, i, event, resource, now);
      NotifySlotEffect(m, r, i, event, resource, now, key);
      NotifyScanEffect(here.m, r, i + 1, n, event, resource, now, key);
      NamingSame(m, here.m, r, key, i + 1, n);
      CountForConcat(here.sent, NotifyScan(here.m, r, i + 1, n, event, resource, now).sent, key);
    }
  }

  // --- Flushing first notifications ---

  lemma UnmarkEffect(m: Cache, r: Ring, key: string)
    requires Orderly(m, r)
    ensures var t := m - {MarkKey(key)};
      && Orderly(t, r) && SameBookkeeping(m, t, r)
      && (forall k :: DataKey(k) in t <==> DataKey(k) in m)
      && (forall k :: DataKey(k) in t ==> t[DataKey(k)] == m[DataKey(k)])
      && (forall k :: MarkKey(k) in t <==> MarkKey(k) in m && k != key)
  {
    hide IntText;
    forall i: nat ensures r.SlotKey(i) != MarkKey(key) && r.seqKey != MarkKey(key) { OursAre(r, i, key); }
    OursAre(r, 0, key);
    forall k ensures DataKey(k) != MarkKey(key) && (MarkKey(k) == MarkKey(key) <==> k == key) {
      MarkIsNoData(key, k);
      DataKeyInjective(k, key);
    }
  }

  predicate Marked(m: Cache, key: string) { DataKey(key) in m && MarkKey(key) in m }

  lemma FlushSlotEffect(m: Cache, r: Ring, i: nat, now: int, key: string)
    requires Orderly(m, r) && i < r.capacity
    ensures var p := FlushSlot(m, r, i, now);
      var due := Marked(m, key) && Names(m, r, key, i);
      && Orderly(p.m, r) && SameBookkeeping(m, p.m, r) && p.hits == |p.sent|
      && CountFor(p.sent, key) == (if due then 1 else 0)
      && OnlyCounted(m, p.m, key, CountFor(p.sent, key))
      && (MarkKey(key) in p.m <==> MarkKey(key) in m && !due)
  {
    hide Hit, Read;
    if SlotEntry(m, r, i).Some? {
      var named := SlotNames(m, r, i);
      DataKeyInjective(named, key);
      if MarkKey(named) in m {
        var unmarked := m - {MarkKey(named)};
        UnmarkEffect(m, r, named);
        HitEffect(unmarked, r, named, false, now);
        HitSends(unmarked, r, named, false, now);
        OneNotice(Hit(unmarked, r, DataKey(named), false, now).sent, named, key);
      }
    } else if Names(m, r, key, i) && DataKey(key) in m {
      SlotEntryOf(m, r, i, key);
    }
  }

  // Each live subscription that is marked and named by some slot is notified once,
  // and its mark goes; every other mark stays.
  lemma {:induction false} FlushScanEffect(m: Cache, r: Ring, i: nat, n: nat, now: int, key: string)
    requires Orderly(m, r) && n <= r.capacity
    ensures var p := FlushScan(m, r, i, n, now);
      var due := Marked(m, key) && Naming(m, r, key, i, n) > 0;
      && Orderly(p.m, r) && SameBookkeeping(m, p.m, r) && p.hits == |p.sent|
      && CountFor(p.sent, key) == (if due then 1 else 0)
      && OnlyCounted(m, p.m, key, CountFor(p.sent, key))
      && (MarkKey(key) in p.m <==> MarkKey(key) in m && !due)
    decreases n - i
  {
    hide FlushSlot, Read, Names, Orderly, Ours;
    if i >= n {
    } else {
      var here := FlushSlot(m, r, i, now);
      FlushSlotEffect(m, r, i, now, key);
      FlushScanEffect(here.m, r, i + 1, n, now, key);
      NamingSame(m, here.m, r, key, i + 1, n);
      CountForConcat(here.sent, FlushScan(here.m, r, i + 1, n, now).sent, key);
    }
  }

  // --- Sweeping ---

  predicate Old(m: Cache, key: string, now: int) { DataKey(key) in m && 0 < SubAt(m, key).expiresAt <= now }

  // Only expired subscriptions go, each with one notice; the rest is untouched.
  ghost predicate Swept(m: Cache, t: Cache, sent: seq<Notice>, key: string, now: int) {
    && (DataKey(key) in t ==> DataKey(key) in m && SubAt(t, key) == SubAt(m, key))
    && (DataKey(key) in m && DataKey(key) !in t ==> Old(m, key, now))
    && CountFor(sent, key) == (if DataKey(key) in m && DataKey(key) !in t then 1 else 0)
  }

  lemma SweepSlotEffect(m: Cache, r: Ring, i: nat, now: int, key: string)
    requires Orderly(m, r) && i < r.capacity
    ensures var p := SweepSlot(m, r, i, now);
      && Orderly(p.m, r) && SameBookkeeping(m, p.m, r) && p.hits == |p.sent| <= 1
      && Swept(m, p.m, p.sent, key, now)
      && (Old(m, key, now) && Names(m, r, key, i) ==> DataKey(key) !in p.m)
  {
    hide Hit, Read;
    if SlotEntry(m, r, i).Some? {
      var named := SlotNames(m, r, i);
      DataKeyInjective(named, key);
      if Old(m, named, now) {
        HitEffect(m, r, named, true, now);
        HitSends(m, r, named, true, now);
        OneNotice(Hit(m, r, DataKey(named), true, now).sent, named, key);
      }
    } else if Names(m, r, key, i) && DataKey(key) in m {
      SlotEntryOf(m, r, i, key);
    }
  }

  // A pass that did not use up its room leaves no expired subscription that a slot
  // it looked at names, and a pass never removes more than its room.
  lemma {:induction false} SweepScanEffect(m: Cache, r: Ring, i: nat, n: nat, now: int, room: nat, key: string)
    requires Orderly(m, r) && n <= r.capacity
    ensures var p := SweepScan(m, r, i, n, now, room);
      && Orderly(p.m, r) && SameBookkeeping(m, p.m, r) && p.hits == |p.sent| <= room
      && Swept(m, p.m, p.sent, key, now)
      && (p.hits < room && Old(m, key, now) && Naming(m, r, key, i, n) > 0 ==> DataKey(key) !in p.m)
    decreases n - i
  {
    hide SweepSlot, Read, Names, Orderly, Swept, SameBookkeeping, CountFor;
    if i < n && room > 0 {
      var here := SweepSlot(m, r, i, now);
      SweepSlotEffect(m, r, i, now, key);
      SweepScanEffect(here.m, r, i + 1, n, now, room - here.hits, key);
      var later := SweepScan(here.m, r, i + 1, n, now, room - here.hits);
      SameBookkeepingChain(m, here.m, later.m, r, key, i + 1, n);
      SweptChain(m, here.m, later.m, here.sent, later.sent, key, now);
    } else {
      NothingSwept(m, r, key, now);
    }
  }

  lemma SameBookkeepingChain(m: Cache, t: Cache, u: Cache, r: Ring, key: string, i: nat, n: nat)
    requires SameBookkeeping(m, t, r) && SameBookkeeping(t, u, r) && n <= r.capacity
    ensures SameBookkeeping(m, u, r) && Naming(t, r, key, i, n) == Naming(m, r, key, i, n)
  {
    NamingSame(m, t, r, key, i, n);
  }

  lemma SweptChain(m: Cache, t: Cache, u: Cache, before: seq<Notice>, after: seq<Notice>, key: string, now: int)
    requires Swept(m, t, before, key, now) && Swept(t, u, after, key, now)
    ensures Swept(m, u, before + after, key, now)
    ensures DataKey(key) !in t ==> DataKey(key) !in u
    ensures DataKey(key) in t ==> (Old(t, key, now) <==> Old(m, key, now))
  {
    hide Read;
    CountForConcat(before, after, key);
  }

  lemma NothingSwept(m: Cache, r: Ring, key: string, now: int)
    ensures Swept(m, m, [], key, now) && SameBookkeeping(m, m, r)
  {
    hide Read;
  }
}
