// Subscriptions over whole runs: subscribing, unsubscribing, notifying, flushing
// and sweeping in any order, from an empty cache.
module EventRuns {
  import opened EventLaws
  import opened Events
  import opened RingCache
  import opened Text
  import Queue = BoundedRing

  // --- The two rings as domains of the cache ---

  function SubDomain(subs: Ring): Domain { Domain(subs, {SUBSCRIPTION}, false) }

  function MarkDomain(marks: Ring): Domain { Domain(marks, {PENDING}, false) }

  predicate IsMarkRing(r: Ring) { r.seqKey == MARKS.seqKey && r.prefix == MARKS.prefix && r.capacity > 0 }

  lemma SubDomainFits(subs: Ring)
    requires IsSubscriptionRing(subs)
    ensures SubDomain(subs).WellFormed()
  {
    DifferAt(subs.seqKey, subs.prefix, 8);
    DifferAt(subs.seqKey, SUBSCRIPTION, 7);
    DifferAt(subs.prefix, SUBSCRIPTION, 7);
  }

  lemma MarkDomainFits(marks: Ring)
    requires IsMarkRing(marks)
    ensures MarkDomain(marks).WellFormed()
  {
    DifferAt(marks.seqKey, marks.prefix, 12);
    DifferAt(marks.seqKey, PENDING, 12);
    DifferAt(marks.prefix, PENDING, 12);
  }

  lemma DomainsFit(subs: Ring, marks: Ring)
    requires IsSubscriptionRing(subs) && IsMarkRing(marks)
    ensures SubDomain(subs).WellFormed() && MarkDomain(marks).WellFormed()
    ensures DisjointDomains(SubDomain(subs), MarkDomain(marks)) && DisjointDomains(MarkDomain(marks), SubDomain(subs))
  {
    SubDomainFits(subs);
    MarkDomainFits(marks);
    hide Incomparable;
    forall p, q | p in SubDomain(subs).Words() && q in MarkDomain(marks).Words()
      ensures Incomparable(p, q) && Incomparable(q, p)
    {
      FourthDiffers(p, q);
    }
  }

  lemma FourthDiffers(p: string, q: string)
    requires |p| > 4 && |q| > 4 && p[4] != q[4]
    ensures Incomparable(p, q) && Incomparable(q, p)
  {
    DifferAt(p, q, 4);
    DifferAt(q, p, 4);
  }

  lemma OwnedKeys(subs: Ring, marks: Ring, key: string)
    ensures SubDomain(subs).Owns(DataKey(key)) && MarkDomain(marks).Owns(MarkKey(key))
  {
    assert HasPrefix(DataKey(key), SUBSCRIPTION) && HasPrefix(MarkKey(key), PENDING);
  }

  ghost predicate Registered(m: Cache, subs: Ring, marks: Ring) {
    && Orderly(m, subs) && IsMarkRing(marks)
    && Sound(Shared(m), SubDomain(subs)) && Sound(Shared(m), MarkDomain(marks))
    && Queue.Located(View(Shared(m), SubDomain(subs)), subs.capacity)
  }

  lemma EmptyRegistered(subs: Ring, marks: Ring)
    requires IsSubscriptionRing(subs) && IsMarkRing(marks)
    ensures Registered(map[], subs, marks)
  {
    DomainsFit(subs, marks);
    EmptyCacheIsEmptyQueue(SubDomain(subs));
    EmptyCacheIsEmptyQueue(MarkDomain(marks));
  }

  // --- Scans keep the registration ---

  lemma PrefixIsOurs(p: string, x: string)
    requires Ours(p) && HasPrefix(x, p)
    ensures Ours(x)
  {
    assert x[..|p|][0] == x[0] && x[..|p|][1] == x[1] && x[..|p|][2] == x[2] && x[..|p|][3] == x[3];
  }

  lemma RingsAreOurs(subs: Ring, marks: Ring)
    requires IsSubscriptionRing(subs) && IsMarkRing(marks)
    ensures Ours(subs.seqKey) && Ours(subs.prefix) && Ours(marks.seqKey) && Ours(marks.prefix)
  {
  }

  lemma BookkeepingIsElse(subs: Ring, marks: Ring, x: string)
    requires IsSubscriptionRing(subs) && IsMarkRing(marks)
    requires SubDomain(subs).IsBookkeeping(x) || MarkDomain(marks).IsBookkeeping(x)
    ensures IsElse(x)
  {
    var p := if x == subs.seqKey then subs.seqKey else if HasPrefix(x, subs.prefix) then subs.prefix
             else if x == marks.seqKey then marks.seqKey else marks.prefix;
    assert HasPrefix(x, p);
    RingsAreOurs(subs, marks);
    PrefixIsOurs(p, x);
    hide Ours, HasPrefix;
    DomainsFit(subs, marks);
    assert Incomparable(p, SUBSCRIPTION) && Incomparable(p, PENDING) by {
      assert SUBSCRIPTION in SubDomain(subs).Words() && PENDING in MarkDomain(marks).Words();
      assert p in SubDomain(subs).Words() || p in MarkDomain(marks).Words();
      assert p != SUBSCRIPTION && p != PENDING;
    }
    IncomparablePrefixes(p, SUBSCRIPTION, x);
    IncomparablePrefixes(p, PENDING, x);
  }

  lemma KeepsSound(m: Cache, t: Cache, subs: Ring, marks: Ring, d: Domain)
    requires IsSubscriptionRing(subs) && IsMarkRing(marks) && (d == SubDomain(subs) || d == MarkDomain(marks))
    requires Sound(Shared(m), d) && SameElse(m, t)
    ensures Sound(Shared(t), d)
    ensures View(Shared(t), d).count == View(Shared(m), d).count && View(Shared(t), d).slots == View(Shared(m), d).slots
  {
    hide ParseInt, IntText;
    assert d.IsBookkeeping(d.ring.seqKey);
    BookkeepingIsElse(subs, marks, d.ring.seqKey);
    forall i: nat ensures IsElse(d.ring.SlotKey(i)) {
      SlotKeyHasPrefix(d.ring, i);
      BookkeepingIsElse(subs, marks, d.ring.SlotKey(i));
    }
  }

  // Renewing, unmarking and removing subscriptions keeps every survivor in a slot.
  lemma ScanKeepsRegistered(m: Cache, t: Cache, subs: Ring, marks: Ring)
    requires Registered(m, subs, marks) && Orderly(t, subs) && SameElse(m, t)
    requires forall k :: DataKey(k) in t ==> DataKey(k) in m
    ensures Registered(t, subs, marks)
  {
    hide Sound, Orderly, SameElse, Queue.Located;
    OrderlyRing(m, subs);
    KeepsSound(m, t, subs, marks, SubDomain(subs));
    KeepsSound(m, t, subs, marks, MarkDomain(marks));
    var a, b := View(Shared(m), SubDomain(subs)), View(Shared(t), SubDomain(subs));
    forall k | k in b.live ensures k in a.live {
      DataKeyOf(k);
      assert DataKey(KeyPart(k)) in t;
    }
    StillLocated(a, b, subs.capacity);
  }

  lemma StillLocated(a: Queue.State<string>, b: Queue.State<string>, capacity: nat)
    requires Queue.Located(a, capacity) && b.slots == a.slots && b.live <= a.live
    ensures Queue.Located(b, capacity)
  {
    forall k | k in b.live ensures exists slot: nat :: Queue.InSlot(b, k, slot) {
      var slot: nat :| Queue.InSlot(a, k, slot);
      assert Queue.InSlot(b, k, slot);
    }
  }

  lemma OrderlyRing(m: Cache, subs: Ring)
    requires Orderly(m, subs)
    ensures IsSubscriptionRing(subs)
  {
  }

  // --- Subscribing keeps the registration ---

  lemma OrderlyFromSound(m: Cache, subs: Ring)
    requires IsSubscriptionRing(subs) && Sound(Shared(m), SubDomain(subs))
    requires forall key :: DataKey(key) in m ==> m[DataKey(key)] != ""
    ensures Orderly(m, subs)
  {
    forall i: nat | i < subs.capacity && subs.SlotKey(i) in m ensures HasPrefix(m[subs.SlotKey(i)], SUBSCRIPTION) {
      assert SubDomain(subs).Owns(m[subs.SlotKey(i)]);
    }
  }

  lemma StoreKeepsRegistered(m: Cache, subs: Ring, marks: Ring, key: string, value: string)
    requires Registered(m, subs, marks) && value != ""
    ensures var t := BoundedStateSet(Shared(m), subs, DataKey(key), value).m;
      && Registered(t, subs, marks) && BoundedStateSet(Shared(m), subs, DataKey(key), value).Shared?
      && View(Shared(t), SubDomain(subs)) == Queue.Insert(View(Shared(m), SubDomain(subs)), DataKey(key), subs.capacity)
  {
    hide BoundedStateSet, Sound, Queue.Insert, Queue.Located;
    var d, e := SubDomain(subs), MarkDomain(marks);
    DomainsFit(subs, marks);
    OwnedKeys(subs, marks, key);
    var s := BoundedStateSet(Shared(m), subs, DataKey(key), value);
    StaysShared(m, subs, DataKey(key), value);
    SetBeside(Shared(m), d, e, DataKey(key), value);
    Queue.LocatedInsert(View(Shared(m), d), DataKey(key), subs.capacity);
    forall k | DataKey(k) in s.m ensures s.m[DataKey(k)] != "" {
      OwnedKeys(subs, marks, k);
      OwnedNotBookkeeping(d, DataKey(k));
      StoreEffect(Shared(m), d, DataKey(key), value, DataKey(k));
    }
    OrderlyFromSound(s.m, subs);
  }

  lemma StaysShared(m: Cache, r: Ring, key: string, value: string)
    requires r.capacity > 0
    ensures BoundedStateSet(Shared(m), r, key, value).Shared?
  {
    hide IntText, ParseInt;
  }

  lemma MarkKeepsRegistered(m: Cache, subs: Ring, marks: Ring, key: string, value: string)
    requires Registered(m, subs, marks)
    ensures var t := BoundedStateSet(Shared(m), marks, MarkKey(key), value).m;
      Registered(t, subs, marks) && View(Shared(t), SubDomain(subs)) == View(Shared(m), SubDomain(subs))
  {
    hide BoundedStateSet, Sound, Queue.Insert, Queue.Located;
    var d, e := MarkDomain(marks), SubDomain(subs);
    DomainsFit(subs, marks);
    OwnedKeys(subs, marks, key);
    var s := BoundedStateSet(Shared(m), marks, MarkKey(key), value);
    StaysShared(m, marks, MarkKey(key), value);
    SetBeside(Shared(m), d, e, MarkKey(key), value);
    forall k | DataKey(k) in s.m ensures s.m[DataKey(k)] != "" {
      OwnedKeys(subs, marks, k);
      assert e.Names(DataKey(k));
      assert Get(s.m, DataKey(k)) == Get(m, DataKey(k));
    }
    OrderlyFromSound(s.m, subs);
  }

  // --- Events ---

  datatype Event =
    | Subscribe(key: string, s: Sub, expires: int, most: int, now: int)
    | NotifyAll(event: string, resource: string, now: int)
    | Flush(now: int)
    | SweepOld(now: int)
    | Elsewhere(others: Cache)

  // Other modules may change every entry of the shared cache that is not ours.
  function OthersChanged(m: Cache, others: Cache): Cache {
    map x | x in m.Keys + others.Keys && (if Ours(x) then x in m else x in others) :: if Ours(x) then m[x] else others[x]
  }

  function Step(m: Cache, subs: Ring, marks: Ring, e: Event): Cache
    requires subs.capacity > 0 && marks.capacity > 0
  {
    match e
    case Subscribe(key, s, expires, most, now) => Subscribed(m, subs, marks, key, s, expires, most, now).0
    case NotifyAll(event, resource, now) => NotifyScan(m, subs, 0, subs.capacity, event, resource, now).m
    case Flush(now) => FlushScan(m, subs, 0, subs.capacity, now).m
    case SweepOld(now) => SweepScan(m, subs, 0, subs.capacity, now, SWEEP_LIMIT).m
    case Elsewhere(others) => OthersChanged(m, others)
  }

  lemma OthersKeepOurs(m: Cache, others: Cache, subs: Ring)
    requires Orderly(m, subs)
    ensures var t := OthersChanged(m, others);
      && Orderly(t, subs) && SameElse(m, t)
      && forall k :: DataKey(k) in t <==> DataKey(k) in m
  {
    var t := OthersChanged(m, others);
    forall k ensures Ours(DataKey(k)) && (DataKey(k) in t <==> DataKey(k) in m) { assert DataKey(k)[0] == 'e'; }
    forall i: nat ensures Ours(subs.SlotKey(i)) { assert subs.SlotKey(i)[0] == 'e'; }
  }

  lemma UnsubscribeKeepsRegistered(m: Cache, subs: Ring, marks: Ring, key: string, now: int)
    requires Registered(m, subs, marks)
    ensures var (t, sent) := SendNotify(m, subs, key, true, now);
      && Registered(t, subs, marks) && SameElse(m, t) && DataKey(key) !in t
      && |sent| == (if DataKey(key) in m then 1 else 0)
  {
    hide Sound, Read;
    if DataKey(key) in m {
      HitEffect(m, subs, key, true, now);
      HitSends(m, subs, key, true, now);
      KeyPartOf(key);
      ScanKeepsRegistered(m, SendNotify(m, subs, key, true, now).0, subs, marks);
    }
  }

  lemma ScansKeepRegistered(m: Cache, subs: Ring, marks: Ring, e: Event)
    requires Registered(m, subs, marks) && !e.Subscribe?
    ensures Registered(Step(m, subs, marks, e), subs, marks) && SameElse(m, Step(m, subs, marks, e))
  {
    hide Registered, NotifyScan, FlushScan, SweepScan, Orderly, SameElse, Swept;
    RegisteredOrderly(m, subs, marks);
    var t := Step(m, subs, marks, e);
    if e.Elsewhere? { OthersKeepOurs(m, e.others, subs); }
    hide OthersChanged;
    forall k ensures DataKey(k) in t ==> DataKey(k) in m
      ensures Orderly(t, subs) && SameElse(m, t)
    {
      match e
      case NotifyAll(event, resource, now) => NotifyScanEffect(m, subs, 0, subs.capacity, event, resource, now, k);
      case Flush(now) => FlushScanEffect(m, subs, 0, subs.capacity, now, k);
      case SweepOld(now) =>
        SweepScanEffect(m, subs, 0, subs.capacity, now, SWEEP_LIMIT, k);
        SweptOnlyRemoves(m, t, SweepScan(m, subs, 0, subs.capacity, now, SWEEP_LIMIT).sent, k, now);
      case Elsewhere(_) =>
    }
    assert Orderly(t, subs) && SameElse(m, t) by { assert DataKey("") in t ==> DataKey("") in m; }
    ScanKeepsRegistered(m, t, subs, marks);
  }

  lemma SweptOnlyRemoves(m: Cache, t: Cache, sent: seq<Notice>, key: string, now: int)
    requires Swept(m, t, sent, key, now)
    ensures DataKey(key) in t ==> DataKey(key) in m
  {
  }

  lemma RegisteredOrderly(m: Cache, subs: Ring, marks: Ring)
    requires Registered(m, subs, marks)
    ensures Orderly(m, subs) && IsSubscriptionRing(subs) && IsMarkRing(marks)
  {
  }

  lemma StepKeepsRegistered(m: Cache, subs: Ring, marks: Ring, e: Event)
    requires Registered(m, subs, marks)
    ensures Registered(Step(m, subs, marks, e), subs, marks)
  {
    hide Registered, NotifyScan, FlushScan, SweepScan, SendNotify, Pack, BoundedStateSet;
    RegisteredOrderly(m, subs, marks);
    match e
    case Subscribe(key, s, expires, most, now) =>
      if expires == 0 {
        UnsubscribeKeepsRegistered(m, subs, marks, key, now);
      } else {
        var value := Pack(s.(expiresAt := now + Clamped(expires, most) * 1000));
        PackNotEmpty(s.(expiresAt := now + Clamped(expires, most) * 1000));
        StoreKeepsRegistered(m, subs, marks, key, value);
        var t := BoundedStateSet(Shared(m), subs, DataKey(key), value).m;
        MarkKeepsRegistered(t, subs, marks, key, "1");
      }
    case _ => ScansKeepRegistered(m, subs, marks, e);
  }

  function Run(m: Cache, subs: Ring, marks: Ring, es: seq<Event>): Cache
    requires subs.capacity > 0 && marks.capacity > 0
  {
    if es == [] then m else Step(Run(m, subs, marks, es[..|es| - 1]), subs, marks, es[|es| - 1])
  }

  lemma {:induction false} RunKeepsRegistered(m: Cache, subs: Ring, marks: Ring, es: seq<Event>)
    requires subs.capacity > 0 && marks.capacity > 0 && Registered(m, subs, marks)
    ensures Registered(Run(m, subs, marks, es), subs, marks)
  {
    hide Registered, Step;
    if es == [] {
    } else {
      RunKeepsRegistered(m, subs, marks, es[..|es| - 1]);
      StepKeepsRegistered(Run(m, subs, marks, es[..|es| - 1]), subs, marks, es[|es| - 1]);
    }
  }

  // --- Main results ---

  // Every stored subscription is found by a scan of all slots.
  lemma LiveIsNamed(m: Cache, subs: Ring, marks: Ring, key: string)
    requires Registered(m, subs, marks) && DataKey(key) in m
    ensures Naming(m, subs, key, 0, subs.capacity) > 0
  {
    hide Orderly;
    OwnedKeys(subs, marks, key);
    var view := View(Shared(m), SubDomain(subs));
    assert DataKey(key) in view.live;
    var slot: nat :| Queue.InSlot(view, DataKey(key), slot);
    assert Names(m, subs, key, slot);
    NamingPositive(m, subs, key, 0, subs.capacity);
  }

  // After any history of subscribing, unsubscribing and scanning, a notification
  // reaches every live, unexpired, matching subscription at least once, once per
  // slot naming it, and reaches nobody else.
  lemma NotifyReachesAll(subs: Ring, marks: Ring, es: seq<Event>, event: string, resource: string, now: int, key: string)
    requires IsSubscriptionRing(subs) && IsMarkRing(marks)
    ensures var m := Run(map[], subs, marks, es);
      var p := NotifyScan(m, subs, 0, subs.capacity, event, resource, now);
      var wanted := DataKey(key) in m
        && SubAt(m, key).event == event && SubAt(m, key).resource == resource && SubAt(m, key).expiresAt > now;
      && (wanted ==> CountFor(p.sent, key) == Naming(m, subs, key, 0, subs.capacity) >= 1)
      && (!wanted ==> CountFor(p.sent, key) == 0)
      && OnlyCounted(m, p.m, key, CountFor(p.sent, key))
  {
    hide Registered, NotifyScan, Step, Run, Orderly, Read;
    EmptyRegistered(subs, marks);
    RunKeepsRegistered(map[], subs, marks, es);
    var m := Run(map[], subs, marks, es);
    RegisteredOrderly(m, subs, marks);
    NotifyScanEffect(m, subs, 0, subs.capacity, event, resource, now, key);
    if Wanted(m, key, event, resource, now) {
      LiveIsNamed(m, subs, marks, key);
    }
  }

  // A flush sends each marked live subscription exactly one first notification and
  // leaves no live subscription marked.
  lemma FlushSendsEachOnce(subs: Ring, marks: Ring, es: seq<Event>, now: int, key: string)
    requires IsSubscriptionRing(subs) && IsMarkRing(marks)
    ensures var m := Run(map[], subs, marks, es);
      var p := FlushScan(m, subs, 0, subs.capacity, now);
      && CountFor(p.sent, key) == (if Marked(m, key) then 1 else 0)
      && !Marked(p.m, key) && (DataKey(key) in p.m <==> DataKey(key) in m)
  {
    hide Registered, FlushScan, Step, Run, Orderly, Read;
    EmptyRegistered(subs, marks);
    RunKeepsRegistered(map[], subs, marks, es);
    var m := Run(map[], subs, marks, es);
    RegisteredOrderly(m, subs, marks);
    FlushScanEffect(m, subs, 0, subs.capacity, now, key);
    if DataKey(key) in m {
      LiveIsNamed(m, subs, marks, key);
    }
  }

  // A sweep that reports fewer than its limit leaves no subscription past its
  // expiry; no sweep removes one that is not, and each one removed is told once.
  lemma SweepRemovesExpired(subs: Ring, marks: Ring, es: seq<Event>, now: int, key: string)
    requires IsSubscriptionRing(subs) && IsMarkRing(marks)
    ensures var m := Run(map[], subs, marks, es);
      var p := SweepScan(m, subs, 0, subs.capacity, now, SWEEP_LIMIT);
      && p.hits <= 256
      && (p.hits < 256 && DataKey(key) in p.m ==> !(0 < SubAt(p.m, key).expiresAt <= now))
      && (DataKey(key) in m && !(0 < SubAt(m, key).expiresAt <= now) ==>
            DataKey(key) in p.m && SubAt(p.m, key) == SubAt(m, key))
      && CountFor(p.sent, key) == (if DataKey(key) in m && DataKey(key) !in p.m then 1 else 0)
  {
    hide Registered, SweepScan, Step, Run, Orderly, Read;
    EmptyRegistered(subs, marks);
    RunKeepsRegistered(map[], subs, marks, es);
    var m := Run(map[], subs, marks, es);
    RegisteredOrderly(m, subs, marks);
    SweepScanEffect(m, subs, 0, subs.capacity, now, SWEEP_LIMIT, key);
    if DataKey(key) in m {
      LiveIsNamed(m, subs, marks, key);
    }
  }

  // --- When a notification is sent exactly once ---

  ghost predicate OneSlotEach(m: Cache, subs: Ring) {
    forall i: nat, j: nat :: i < j < subs.capacity && subs.SlotKey(i) in m && subs.SlotKey(j) in m ==>
      m[subs.SlotKey(i)] != m[subs.SlotKey(j)]
  }

  // The new subscription is stored already, or no slot still names its key.
  ghost predicate NotReinserted(m: Cache, subs: Ring, e: Event) {
    e.Subscribe? && e.expires != 0 && DataKey(e.key) !in m ==>
      forall i: nat :: i < subs.capacity ==> !Names(m, subs, e.key, i)
  }

  ghost predicate NeverReinserted(m: Cache, subs: Ring, marks: Ring, es: seq<Event>)
    requires subs.capacity > 0 && marks.capacity > 0
  {
    es != [] ==>
      && NeverReinserted(m, subs, marks, es[..|es| - 1])
      && NotReinserted(Run(m, subs, marks, es[..|es| - 1]), subs, es[|es| - 1])
  }

  ghost predicate DistinctSlots(v: Queue.State<string>) {
    forall i, j :: i in v.slots && j in v.slots && v.slots[i] == v.slots[j] ==> i == j
  }

  lemma SlotsOfView(m: Cache, subs: Ring, marks: Ring)
    requires Registered(m, subs, marks)
    ensures OneSlotEach(m, subs) <==> DistinctSlots(View(Shared(m), SubDomain(subs)))
  {
    hide Orderly, Queue.Located;
    var v := View(Shared(m), SubDomain(subs));
    if OneSlotEach(m, subs) {
      forall i, j | i in v.slots && j in v.slots && v.slots[i] == v.slots[j] ensures i == j {
        assert m[subs.SlotKey(i)] == m[subs.SlotKey(j)];
      }
    }
    if DistinctSlots(v) {
      forall i: nat, j: nat | i < j < subs.capacity && subs.SlotKey(i) in m && subs.SlotKey(j) in m
        ensures m[subs.SlotKey(i)] != m[subs.SlotKey(j)]
      {
        assert i in v.slots && j in v.slots;
      }
    }
  }

  lemma StepKeepsOneSlot(m: Cache, subs: Ring, marks: Ring, e: Event)
    requires Registered(m, subs, marks) && OneSlotEach(m, subs) && NotReinserted(m, subs, e)
    ensures OneSlotEach(Step(m, subs, marks, e), subs)
  {
    hide Registered, NotifyScan, FlushScan, SweepScan, SendNotify, Pack, BoundedStateSet, OneSlotEach, SameElse;
    RegisteredOrderly(m, subs, marks);
    if e.Subscribe? && e.expires != 0 {
      var t, value := StepStores(m, subs, marks, e);
      StoreKeepsOneSlot(m, t, Step(m, subs, marks, e), subs, marks, e.key, value);
    } else {
      if e.Subscribe? { UnsubscribeKeepsRegistered(m, subs, marks, e.key, e.now); }
      else { ScansKeepRegistered(m, subs, marks, e); }
      SameSlotsOneSlot(m, Step(m, subs, marks, e), subs, marks);
    }
  }

  lemma SameSlotsOneSlot(m: Cache, t: Cache, subs: Ring, marks: Ring)
    requires Registered(m, subs, marks) && Registered(t, subs, marks) && SameElse(m, t) && OneSlotEach(m, subs)
    ensures OneSlotEach(t, subs)
  {
    hide Registered, SameElse, OneSlotEach, Sound;
    SlotsOfView(m, subs, marks);
    SlotsOfView(t, subs, marks);
    RegisteredSound(m, subs, marks);
    RegisteredOrderly(m, subs, marks);
    KeepsSound(m, t, subs, marks, SubDomain(subs));
  }

  lemma StoreKeepsOneSlot(m: Cache, t: Cache, u: Cache, subs: Ring, marks: Ring, key: string, value: string)
    requires Registered(m, subs, marks) && OneSlotEach(m, subs) && value != "" && subs.capacity > 0 && marks.capacity > 0
    requires DataKey(key) !in m ==> forall i: nat :: i < subs.capacity ==> !Names(m, subs, key, i)
    requires Shared(t) == BoundedStateSet(Shared(m), subs, DataKey(key), value)
    requires Shared(u) == BoundedStateSet(Shared(t), marks, MarkKey(key), "1")
    ensures OneSlotEach(u, subs)
  {
    hide Registered, BoundedStateSet, OneSlotEach, Sound, Queue.Insert;
    RegisteredOrderly(m, subs, marks);
    StoreKeepsRegistered(m, subs, marks, key, value);
    MarkKeepsRegistered(t, subs, marks, key, "1");
    SlotsOfView(m, subs, marks);
    SlotsOfView(u, subs, marks);
    RegisteredSound(m, subs, marks);
    InsertKeepsDistinct(m, subs, marks, key);
  }

  lemma StepStores(m: Cache, subs: Ring, marks: Ring, e: Event) returns (t: Cache, value: string)
    requires subs.capacity > 0 && marks.capacity > 0 && e.Subscribe? && e.expires != 0
    ensures value != "" && Shared(t) == BoundedStateSet(Shared(m), subs, DataKey(e.key), value)
    ensures Shared(Step(m, subs, marks, e)) == BoundedStateSet(Shared(t), marks, MarkKey(e.key), "1")
  {
    hide BoundedStateSet, Pack;
    var s := e.s.(expiresAt := e.now + Clamped(e.expires, e.most) * 1000);
    value := Pack(s);
    PackNotEmpty(s);
    StaysShared(m, subs, DataKey(e.key), value);
    t := BoundedStateSet(Shared(m), subs, DataKey(e.key), value).m;
    StaysShared(t, marks, MarkKey(e.key), "1");
  }

  lemma RegisteredSound(m: Cache, subs: Ring, marks: Ring)
    requires Registered(m, subs, marks)
    ensures Sound(Shared(m), SubDomain(subs))
  {
  }

  lemma InsertKeepsDistinct(m: Cache, subs: Ring, marks: Ring, key: string)
    requires Registered(m, subs, marks) && DistinctSlots(View(Shared(m), SubDomain(subs)))
    requires DataKey(key) !in m ==> forall i: nat :: i < subs.capacity ==> !Names(m, subs, key, i)
    ensures DistinctSlots(Queue.Insert(View(Shared(m), SubDomain(subs)), DataKey(key), subs.capacity))
  {
    hide Orderly, Queue.Located;
    var v := View(Shared(m), SubDomain(subs));
    OwnedKeys(subs, marks, key);
    forall i | i in v.slots && DataKey(key) !in m ensures v.slots[i] != DataKey(key) {
      assert !Names(m, subs, key, i);
    }
  }

  lemma {:induction false} RunKeepsOneSlot(m: Cache, subs: Ring, marks: Ring, es: seq<Event>)
    requires subs.capacity > 0 && marks.capacity > 0
    requires Registered(m, subs, marks) && OneSlotEach(m, subs) && NeverReinserted(m, subs, marks, es)
    ensures OneSlotEach(Run(m, subs, marks, es), subs)
  {
    hide Registered, Step, OneSlotEach, NotReinserted;
    if es == [] {
    } else {
      RunKeepsRegistered(m, subs, marks, es[..|es| - 1]);
      RunKeepsOneSlot(m, subs, marks, es[..|es| - 1]);
      StepKeepsOneSlot(Run(m, subs, marks, es[..|es| - 1]), subs, marks, es[|es| - 1]);
    }
  }

  // If no key was stored again while an old slot still named it, a notification
  // reaches each live, unexpired, matching subscription exactly once.
  lemma NotifyReachesEachOnce(subs: Ring, marks: Ring, es: seq<Event>, event: string, resource: string, now: int, key: string)
    requires IsSubscriptionRing(subs) && IsMarkRing(marks) && NeverReinserted(map[], subs, marks, es)
    ensures var m := Run(map[], subs, marks, es);
      CountFor(NotifyScan(m, subs, 0, subs.capacity, event, resource, now).sent, key)
        == if DataKey(key) in m && SubAt(m, key).event == event && SubAt(m, key).resource == resource
              && SubAt(m, key).expiresAt > now then 1 else 0
  {
    hide Registered, NotifyScan, Step, Run, Orderly, Read, NeverReinserted;
    EmptyRegistered(subs, marks);
    RunKeepsRegistered(map[], subs, marks, es);
    RunKeepsOneSlot(map[], subs, marks, es);
    NotifyReachesAll(subs, marks, es, event, resource, now, key);
    var m := Run(map[], subs, marks, es);
    if Wanted(m, key, event, resource, now) {
      LiveIsNamed(m, subs, marks, key);
      NamingPositive(m, subs, key, 0, subs.capacity);
      var at: nat :| at < subs.capacity && Names(m, subs, key, at);
      forall j: nat | Names(m, subs, key, j) && j < subs.capacity ensures j == at {
        assert m[subs.SlotKey(j)] == m[subs.SlotKey(at)];
      }
      NamingOnce(m, subs, key, 0, subs.capacity, at);
    }
  }

  // --- What a SUBSCRIBE is answered and what it leaves ---

  // A new subscription is stored as packed, with its mark.
  lemma SubscribeStores(m: Cache, subs: Ring, marks: Ring, key: string, s: Sub, expires: int, most: int, now: int)
    requires Registered(m, subs, marks) && expires != 0
    ensures var t := Subscribed(m, subs, marks, key, s, expires, most, now).0;
      && MarkKey(key) in t && DataKey(key) in t
      && t[DataKey(key)] == Pack(s.(expiresAt := now + Clamped(expires, most) * 1000))
  {
    hide BoundedStateSet, Sound, Queue.Insert, Queue.Located, View, Pack, Orderly;
    RegisteredSound(m, subs, marks);
    DomainsFit(subs, marks) by { RegisteredOrderly(m, subs, marks); }
    OwnedKeys(subs, marks, key);
    var value := Pack(s.(expiresAt := now + Clamped(expires, most) * 1000));
    PackNotEmpty(s.(expiresAt := now + Clamped(expires, most) * 1000));
    var d, e := SubDomain(subs), MarkDomain(marks);
    OwnedNotBookkeeping(d, DataKey(key));
    StoreEffect(Shared(m), d, DataKey(key), value, DataKey(key));
    StaysShared(m, subs, DataKey(key), value);
    StoreKeepsRegistered(m, subs, marks, key, value);
    var stored := BoundedStateSet(Shared(m), subs, DataKey(key), value);
    RegisteredSound(stored.m, subs, marks);
    OwnedNotBookkeeping(e, MarkKey(key));
    StoreEffect(stored, e, MarkKey(key), "1", MarkKey(key));
    StaysShared(stored.m, marks, MarkKey(key), "1");
    SetFrame(stored, e, d, MarkKey(key), "1");
    assert d.Names(DataKey(key));
  }

  // Whatever SUBSCRIBE arrives after whatever history: it is left to others, refused
  // without effect, or accepted.  Accepted with expiry 0 it leaves no subscription,
  // and one last notice went out if there was one.  Accepted with any other, the
  // answer names exactly the lifetime and tag of the subscription now stored, which
  // is marked for its first notification.
  lemma SubscribeAnswered(subs: Ring, marks: Ring, es: seq<Event>, setup: Setup, request: Request, entropy: Entropy, now: int)
    requires IsSubscriptionRing(subs) && IsMarkRing(marks)
    ensures var m := Run(map[], subs, marks, es);
      var (t, sent, response) := Handled(m, subs, marks, setup, request, entropy, now);
      var key := SubKey(request, entropy);
      && (response.Unhandled? <==> !Enabled(setup))
      && (response.Accepted? <==> Enabled(setup) && Supported(setup, request))
      && (!response.Accepted? ==> t == m && sent == [])
      && (response.Accepted? ==>
            && (response.expires == 0 <==> ExpiresOf(request) == 0)
            && (response.expires == 0 ==> DataKey(key) !in t && |sent| == if DataKey(key) in m then 1 else 0)
            && (response.expires != 0 ==>
                  && 60 <= response.expires <= LongestExpiry(setup) && sent == []
                  && Marked(t, key) && t[DataKey(key)]
                     == Pack(Asked(request, response.toTag).(expiresAt := now + response.expires * 1000))))
  {
    hide Registered, Run, SendNotify, BoundedStateSet, Supported, Enabled, TagOf, SubKey, Asked, Pack, ExpiresOf, ParseInt;
    EmptyRegistered(subs, marks);
    RunKeepsRegistered(map[], subs, marks, es);
    var m := Run(map[], subs, marks, es);
    var key, tag, expires := SubKey(request, entropy), TagOf(m, request, entropy), ExpiresOf(request);
    if Enabled(setup) && Supported(setup, request) {
      if expires == 0 {
        UnsubscribeKeepsRegistered(m, subs, marks, key, now);
      } else {
        SubscribeStores(m, subs, marks, key, Asked(request, tag), expires, LongestExpiry(setup), now);
        hide Subscribed;
      }
    }
  }

  // And when the header values hold no line ends, that subscription reads back as asked.
  lemma SubscriptionReadsBack(request: Request, toTag: string, expiresAt: int)
    requires Clean(Asked(request, toTag))
    ensures Read(Pack(Asked(request, toTag).(expiresAt := expiresAt))) == Asked(request, toTag).(expiresAt := expiresAt)
  {
    hide Asked;
    ReadOfPack(Asked(request, toTag).(expiresAt := expiresAt));
  }

  // --- A subscription dropped and renewed is lost early ---

  function Subscriptions(keys: seq<string>, s: Sub, expires: int, most: int, now: int): seq<Event> {
    seq(|keys|, i requires 0 <= i < |keys| => Subscribe(keys[i], s, expires, most, now))
  }

  function DataKeys(keys: seq<string>): seq<string> {
    seq(|keys|, i requires 0 <= i < |keys| => DataKey(keys[i]))
  }

  lemma SubscribeIsInsert(m: Cache, subs: Ring, marks: Ring, e: Event)
    requires Registered(m, subs, marks) && e.Subscribe? && e.expires != 0
    ensures var t := Step(m, subs, marks, e);
      && Registered(t, subs, marks)
      && View(Shared(t), SubDomain(subs)) == Queue.Insert(View(Shared(m), SubDomain(subs)), DataKey(e.key), subs.capacity)
  {
    hide Registered, BoundedStateSet, Sound, Queue.Insert, View;
    RegisteredOrderly(m, subs, marks);
    RegisteredSound(m, subs, marks);
    var t, value := StepStores(m, subs, marks, e);
    StoreKeepsRegistered(m, subs, marks, e.key, value);
    MarkKeepsRegistered(t, subs, marks, e.key, "1");
    RegisteredSound(Step(m, subs, marks, e), subs, marks);
  }

  lemma UnsubscribeIsDelete(m: Cache, subs: Ring, marks: Ring, e: Event)
    requires Registered(m, subs, marks) && e.Subscribe? && e.expires == 0
    ensures var t, a := Step(m, subs, marks, e), View(Shared(m), SubDomain(subs));
      && Registered(t, subs, marks)
      && View(Shared(t), SubDomain(subs)).count == a.count && View(Shared(t), SubDomain(subs)).slots == a.slots
      && DataKey(e.key) !in t && (forall k :: DataKey(k) in t ==> DataKey(k) in m)
  {
    hide Registered, Sound, View, SameElse, SendNotify;
    RegisteredOrderly(m, subs, marks);
    RegisteredSound(m, subs, marks);
    UnsubscribeKeepsRegistered(m, subs, marks, e.key, e.now);
    KeepsSound(m, Step(m, subs, marks, e), subs, marks, SubDomain(subs));
    RegisteredSound(Step(m, subs, marks, e), subs, marks);
    OnlyThatGoes(m, subs, marks, e.key, e.now);
  }

  lemma OnlyThatGoes(m: Cache, subs: Ring, marks: Ring, key: string, now: int)
    requires Registered(m, subs, marks)
    ensures forall k :: DataKey(k) in SendNotify(m, subs, key, true, now).0 ==> DataKey(k) in m
  {
    hide Sound, Read;
    if DataKey(key) in m {
      HitEffect(m, subs, key, true, now);
      KeyPartOf(key);
    }
  }

  lemma {:induction false} SubscriptionsAreInserts(m: Cache, subs: Ring, marks: Ring, keys: seq<string>, s: Sub,
                                                  expires: int, most: int, now: int)
    requires Registered(m, subs, marks) && expires != 0 && subs.capacity > 0 && marks.capacity > 0
    ensures var t := Run(m, subs, marks, Subscriptions(keys, s, expires, most, now));
      && Registered(t, subs, marks)
      && View(Shared(t), SubDomain(subs))
         == Queue.InsertAll(View(Shared(m), SubDomain(subs)), DataKeys(keys), subs.capacity)
  {
    hide Registered, View, Sound, Step, Queue.Insert;
    RegisteredSound(m, subs, marks);
    if keys == [] {
    } else {
      var before, es := keys[..|keys| - 1], Subscriptions(keys, s, expires, most, now);
      SubscriptionsAreInserts(m, subs, marks, before, s, expires, most, now);
      assert es[..|es| - 1] == Subscriptions(before, s, expires, most, now);
      assert DataKeys(keys)[..|keys| - 1] == DataKeys(before);
      SubscribeIsInsert(Run(m, subs, marks, es[..|es| - 1]), subs, marks, es[|es| - 1]);
      RegisteredSound(Run(m, subs, marks, es), subs, marks);
    }
  }

  // Subscribed, unsubscribed and subscribed again, the one subscription of a worker.
  function Resubscribed(subs: Ring, marks: Ring, key: string, s: Sub, expires: int, most: int, now: int): Cache
    requires subs.capacity > 0 && marks.capacity > 0
  {
    var on, off := Subscribe(key, s, expires, most, now), Subscribe(key, s, 0, most, now);
    Step(Step(Step(map[], subs, marks, on), subs, marks, off), subs, marks, on)
  }

  lemma ResubscribedView(subs: Ring, marks: Ring, key: string, s: Sub, expires: int, most: int, now: int)
    requires IsSubscriptionRing(subs) && IsMarkRing(marks) && expires != 0
    ensures var m := Resubscribed(subs, marks, key, s, expires, most, now);
      && Registered(m, subs, marks)
      && View(Shared(m), SubDomain(subs)) == Queue.Reinserted(DataKey(key), subs.capacity)
  {
    hide Registered, Step, Sound;
    var d := SubDomain(subs);
    var on, off := Subscribe(key, s, expires, most, now), Subscribe(key, s, 0, most, now);
    EmptyRegistered(subs, marks);
    RegisteredSound(map[], subs, marks);
    assert View(Shared(map[]), d) == Queue.State(0, map[], {});
    var m1 := Step(map[], subs, marks, on);
    SubscribeIsInsert(map[], subs, marks, on);
    RegisteredSound(m1, subs, marks);
    var m2 := Step(m1, subs, marks, off);
    UnsubscribeIsDelete(m1, subs, marks, off);
    RegisteredSound(m2, subs, marks);
    assert View(Shared(m2), d).live == {} by {
      forall k | k in View(Shared(m2), d).live ensures k in View(Shared(m1), d).live - {DataKey(key)} {
        DataKeyOf(k);
        assert DataKey(KeyPart(k)) in m2;
      }
    }
    SubscribeIsInsert(m2, subs, marks, on);
    RegisteredSound(Step(m2, subs, marks, on), subs, marks);
  }

  // Its place in the ring is that of the first time: the capacity less one other
  // subscriptions drop it, where a subscription made once would stay.
  lemma ResubscriptionLostEarly(subs: Ring, marks: Ring, key: string, others: seq<string>, s: Sub,
                                expires: int, most: int, now: int)
    requires IsSubscriptionRing(subs) && IsMarkRing(marks) && expires != 0 && subs.capacity >= 2
    requires Queue.Distinct(others) && key !in others && |others| < subs.capacity
    ensures var m := Run(Resubscribed(subs, marks, key, s, expires, most, now), subs, marks,
                         Subscriptions(others, s, expires, most, now));
      DataKey(key) in m <==> |others| < subs.capacity - 1
  {
    hide Registered, Sound, Step, Run, Resubscribed, Queue.InsertAll, Queue.Reinserted;
    var m := Resubscribed(subs, marks, key, s, expires, most, now);
    ResubscribedView(subs, marks, key, s, expires, most, now);
    SubscriptionsAreInserts(m, subs, marks, others, s, expires, most, now);
    var t := Run(m, subs, marks, Subscriptions(others, s, expires, most, now));
    RegisteredSound(t, subs, marks);
    OwnedKeys(subs, marks, key);
    DistinctDataKeys(key, others);
    Queue.ReinsertedKeyLeavesEarly(DataKey(key), DataKeys(others), subs.capacity);
    assert DataKey(key) in View(Shared(t), SubDomain(subs)).live <==> DataKey(key) in t;
  }

  lemma DistinctDataKeys(key: string, others: seq<string>)
    requires Queue.Distinct(others) && key !in others
    ensures Queue.Distinct(DataKeys(others)) && DataKey(key) !in DataKeys(others)
  {
    forall i | 0 <= i < |others| ensures DataKeys(others)[i] != DataKey(key) {
      DataKeyInjective(others[i], key);
    }
    forall i, j | 0 <= i < j < |others| ensures DataKeys(others)[i] != DataKeys(others)[j] {
      DataKeyInjective(others[i], others[j]);
    }
  }
}
