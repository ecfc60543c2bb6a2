// The ring discipline of auth.mko and b2bua.mko without its string encoding: a
// counter, the key last written to each slot, and the set of live keys.
module BoundedRing {
  import opened Arithmetic
  import opened Text

  datatype State<K> = State(count: nat, slots: map<nat, K>, live: set<K>)

  // A new key takes the next slot and drops whatever key that slot still names.
  function Insert<K(==)>(a: State<K>, key: K, capacity: nat): State<K>
    requires capacity > 0
  {
    if key in a.live then a
    else
      var slot := NextSlot(a, capacity);
      State(a.count + 1, a.slots[slot := key], (a.live - Victims(a, capacity)) + {key})
  }

  function NextSlot<K>(a: State<K>, capacity: nat): nat
    requires capacity > 0
  {
    Wrap(a.count + 1, capacity)
  }

  function Victims<K(==)>(a: State<K>, capacity: nat): set<K>
    requires capacity > 0
  {
    var slot := NextSlot(a, capacity);
    if slot in a.slots then {a.slots[slot]} else {}
  }

  // --- With arbitrary outside deletes: every live key still sits in a slot ---

  ghost predicate InSlot<K>(a: State<K>, key: K, slot: nat) {
    slot in a.slots && a.slots[slot] == key
  }

  ghost predicate Located<K>(a: State<K>, capacity: nat) {
    && (forall slot :: slot in a.slots ==> slot < capacity)
    && (forall key :: key in a.live ==> exists slot: nat :: InSlot(a, key, slot))
  }

  lemma LocatedInsert<K>(a: State<K>, key: K, capacity: nat)
    requires capacity > 0 && Located(a, capacity)
    ensures Located(Insert(a, key, capacity), capacity)
  {
    var b := Insert(a, key, capacity);
    forall k | k in b.live ensures exists slot: nat :: InSlot(b, k, slot) {
      if k in a.live {
        var slot: nat :| InSlot(a, k, slot);
        assert InSlot(b, k, slot);
      } else {
        assert InSlot(b, k, NextSlot(a, capacity));
      }
    }
  }

  // At most `capacity` keys are live, whatever was deleted outside.
  lemma LiveKeysBounded<K>(a: State<K>, capacity: nat)
    requires Located(a, capacity)
    ensures |a.live| <= capacity
  {
    if a.live != {} {
      var any :| any in a.live;
      var slots := seq(capacity, i requires 0 <= i < capacity => if i in a.slots then a.slots[i] else any);
      forall k | k in a.live ensures k in slots {
        var slot: nat :| InSlot(a, k, slot);
        assert slots[slot] == k;
      }
      SlotsBound(a.live, slots);
    }
  }

  // Other code may delete live keys but never touches the ring's own entries.
  ghost predicate OutsideDelete<K>(a: State<K>, b: State<K>) {
    b.count == a.count && b.slots == a.slots && b.live <= a.live
  }

  // Anything that can happen to a ring: an insertion, or other code deleting keys.
  datatype Event<K> = Insertion(key: K) | Deletion(gone: set<K>)

  function Apply<K(==)>(a: State<K>, e: Event<K>, capacity: nat): State<K>
    requires capacity > 0
  {
    match e
    case Insertion(key) => Insert(a, key, capacity)
    case Deletion(gone) => a.(live := a.live - gone)
  }

  function Run<K(==)>(a: State<K>, es: seq<Event<K>>, capacity: nat): State<K>
    requires capacity > 0
  {
    if es == [] then a else Apply(Run(a, es[..|es| - 1], capacity), es[|es| - 1], capacity)
  }

  lemma RunOfNone<K>(a: State<K>, capacity: nat)
    requires capacity > 0
    ensures Run(a, [], capacity) == a
  {
  }

  lemma RunOfOne<K>(a: State<K>, e: Event<K>, capacity: nat)
    requires capacity > 0
    ensures Run(a, [e], capacity) == Apply(a, e, capacity)
  {
    assert [e][..0] == [];
  }

  lemma {:induction false} RunConcat<K>(a: State<K>, es: seq<Event<K>>, later: seq<Event<K>>, capacity: nat)
    requires capacity > 0
    ensures Run(a, es + later, capacity) == Run(Run(a, es, capacity), later, capacity)
  {
    if later == [] {
      assert es + later == es;
    } else {
      var n := |later| - 1;
      RunConcat(a, es, later[..n], capacity);
      assert (es + later)[..|es + later| - 1] == es + later[..n];
    }
  }

  // Every outside delete is such an event.
  lemma OutsideDeleteIsEvent<K>(a: State<K>, b: State<K>, capacity: nat)
    requires capacity > 0 && OutsideDelete(a, b)
    ensures b == Apply(a, Deletion(a.live - b.live), capacity)
  {
    assert a.live - (a.live - b.live) == b.live;
  }

  lemma LocatedOutsideDelete<K>(a: State<K>, b: State<K>, capacity: nat)
    requires Located(a, capacity) && OutsideDelete(a, b)
    ensures Located(b, capacity)
  {
    forall k | k in b.live ensures exists slot: nat :: InSlot(b, k, slot) {
      var slot: nat :| InSlot(a, k, slot);
      assert InSlot(b, k, slot);
    }
  }

  lemma {:induction false} RunLocated<K>(a: State<K>, es: seq<Event<K>>, capacity: nat)
    requires capacity > 0 && Located(a, capacity)
    ensures Located(Run(a, es, capacity), capacity)
  {
    hide Located;
    if es == [] {
    } else {
      var before, e := Run(a, es[..|es| - 1], capacity), es[|es| - 1];
      RunLocated(a, es[..|es| - 1], capacity);
      match e
      case Insertion(key) => LocatedInsert(before, key, capacity);
      case Deletion(gone) => LocatedOutsideDelete(before, Apply(before, e, capacity), capacity);
    }
  }

  // From the empty ring, over any interleaving of insertions and outside deletes,
  // every live key sits in some slot and at most `capacity` keys are live.
  lemma RunBounded<K>(es: seq<Event<K>>, capacity: nat)
    requires capacity > 0
    ensures var a := Run(State(0, map[], {}), es, capacity);
      Located(a, capacity) && |a.live| <= capacity
  {
    RunLocated(State(0, map[], {}), es, capacity);
    LiveKeysBounded(Run(State(0, map[], {}), es, capacity), capacity);
  }

  // Which slots the next insertions of new keys overwrite decides, exactly,
  // whether a live key outlives them.
  lemma {:induction false} SurvivesRunIff<K>(a: State<K>, k: K, keys: seq<K>, capacity: nat)
    requires 0 < capacity && k in a.live && k !in keys && AllNew(a, keys, capacity)
    ensures var b := InsertAll(a, keys, capacity);
      && b.count == a.count + |keys|
      && (forall slot: nat :: InSlot(b, k, slot) <==> InSlot(a, k, slot) && !Overwrites(a, |keys|, slot, capacity))
      && (k in b.live <==> NotNamed(a, k, |keys|, capacity))
  {
    if keys == [] {
    } else {
      var n, before := |keys|, keys[..|keys| - 1];
      SurvivesRunIff(a, k, before, capacity);
      var slot := Wrap(a.count + n, capacity);
      var mid, b := InsertAll(a, before, capacity), InsertAll(a, keys, capacity);
      assert NextSlot(mid, capacity) == slot;
      forall s: nat ensures Overwrites(a, n, s, capacity) <==> Overwrites(a, n - 1, s, capacity) || s == slot {
        if s == slot { assert a.count < a.count + n <= a.count + n; }
      }
      assert k in b.live <==> k in mid.live && !InSlot(mid, k, slot);
      assert NotNamed(a, k, n, capacity) <==> NotNamed(a, k, n - 1, capacity) && !InSlot(a, k, slot);
    }
  }

  // None of the next `n` slots to be overwritten names k.
  ghost predicate NotNamed<K>(a: State<K>, k: K, n: nat, capacity: nat)
    requires capacity > 0
  {
    forall c: nat :: a.count < c <= a.count + n ==> !InSlot(a, k, Wrap(c, capacity))
  }

  ghost predicate AllNew<K>(a: State<K>, keys: seq<K>, capacity: nat)
    requires capacity > 0
  {
    keys != [] ==>
      && AllNew(a, keys[..|keys| - 1], capacity)
      && keys[|keys| - 1] !in InsertAll(a, keys[..|keys| - 1], capacity).live
  }

  ghost predicate Overwrites<K>(a: State<K>, n: nat, slot: nat, capacity: nat)
    requires capacity > 0
  {
    exists c: nat :: a.count < c <= a.count + n && Wrap(c, capacity) == slot
  }

  // A key stored, deleted by other code and stored again, before anything else.
  function Reinserted<K(==)>(k: K, capacity: nat): State<K>
    requires capacity > 0
  {
    var once := Insert(State(0, map[], {}), k, capacity);
    Insert(once.(live := once.live - {k}), k, capacity)
  }

  lemma {:induction false} AllNewOfDistinct<K>(a: State<K>, keys: seq<K>, capacity: nat)
    requires capacity > 0 && Distinct(keys) && forall i :: 0 <= i < |keys| ==> keys[i] !in a.live
    ensures AllNew(a, keys, capacity)
    ensures forall k :: k in InsertAll(a, keys, capacity).live ==> k in a.live || k in keys
  {
    if keys == [] {
    } else {
      AllNewOfDistinct(a, keys[..|keys| - 1], capacity);
    }
  }

  // It is named by two slots, and the older one takes it out when as few as
  // `capacity - 1` newer keys have come; one key fewer leaves it in.
  lemma ReinsertedKeyLeavesEarly<K>(k: K, keys: seq<K>, capacity: nat)
    requires capacity >= 2 && Distinct(keys) && k !in keys && |keys| < capacity
    ensures k in InsertAll(Reinserted(k, capacity), keys, capacity).live <==> |keys| < capacity - 1
  {
    var a := Reinserted(k, capacity);
    assert a.count == 2 && a.live == {k};
    assert a.slots == map[1 := k][Wrap(2, capacity) := k];
    AllNewOfDistinct(a, keys, capacity);
    SurvivesRunIff(a, k, keys, capacity);
    assert Wrap(capacity + 1, capacity) == 1;
    forall c: nat | 2 < c <= capacity ensures !InSlot(a, k, Wrap(c, capacity)) {
    }
    if |keys| == capacity - 1 { assert InSlot(a, k, Wrap(capacity + 1, capacity)); }
  }

  // --- With no outside deletes: a queue of distinct keys, oldest first ---

  function FifoSet<K(==)>(q: seq<K>, key: K, capacity: nat): seq<K> {
    if key in q then q
    else if |q| < capacity then q + [key]
    else if q == [] then q
    else q[1..] + [key]
  }

  ghost predicate Distinct<K>(q: seq<K>) {
    forall i, j :: 0 <= i < j < |q| ==> q[i] != q[j]
  }

  // Queue entry `i` was the insertion number `count - |q| + 1 + i`.
  ghost predicate Holds<K>(a: State<K>, capacity: nat, q: seq<K>, i: nat)
    requires i < |q| <= a.count && capacity > 0
  {
    InSlot(a, q[i], Wrap(a.count - |q| + 1 + i, capacity))
  }

  ghost predicate Fifo<K>(a: State<K>, capacity: nat, q: seq<K>) {
    && capacity > 0
    && |q| == (if a.count < capacity then a.count else capacity)
    && Distinct(q)
    && (forall i: nat :: i < |q| ==> Holds(a, capacity, q, i))
    && (forall slot :: slot in a.slots ==> slot < capacity && (a.count < capacity ==> 0 < slot <= a.count))
    && (forall k :: k in a.live ==> k in q) && (forall k :: k in q ==> k in a.live)
  }

  // The slot an insertion takes is free until the ring is full, and then holds
  // the oldest queue entry.
  lemma VictimIsOldest<K>(a: State<K>, capacity: nat, q: seq<K>)
    requires Fifo(a, capacity, q)
    ensures |q| < capacity ==> Victims(a, capacity) == {}
    ensures |q| == capacity ==> Victims(a, capacity) == {q[0]}
  {
    if |q| == capacity {
      assert Holds(a, capacity, q, 0);
    } else if a.count + 1 == capacity {
      assert Wrap(capacity, capacity) == Wrap(0, capacity) == 0;
    }
  }

  // One insertion is one queue step.
  lemma FifoStep<K>(a: State<K>, capacity: nat, q: seq<K>, key: K)
    requires Fifo(a, capacity, q)
    ensures Fifo(Insert(a, key, capacity), capacity, FifoSet(q, key, capacity))
  {
    if key !in q {
      var b, q' := Insert(a, key, capacity), FifoSet(q, key, capacity);
      VictimIsOldest(a, capacity, q);
      forall k | k in b.live ensures k in q' { QueueMembers(q, key, capacity, k); }
      forall k | k in q' ensures k in b.live { QueueMembers(q, key, capacity, k); }
      forall i: nat | i < |q'| ensures Holds(b, capacity, q', i) {
        EntryStaysPut(a, capacity, q, key, i);
      }
      assert Distinct(q');
    }
  }

  lemma QueueMembers<K>(q: seq<K>, key: K, capacity: nat, k: K)
    requires Distinct(q) && capacity > 0 && |q| <= capacity
    ensures k in FifoSet(q, key, capacity)
      <==> k == key || (k in q && (key in q || |q| < capacity || k != q[0]))
  {
    if k in q && k != q[0] {
      var i :| 0 <= i < |q| && q[i] == k;
      assert q[1..][i - 1] == k;
    }
  }

  lemma EntryStaysPut<K>(a: State<K>, capacity: nat, q: seq<K>, key: K, i: nat)
    requires Fifo(a, capacity, q) && key !in q
    requires i < |FifoSet(q, key, capacity)|
    ensures Holds(Insert(a, key, capacity), capacity, FifoSet(q, key, capacity), i)
  {
    var q' := FifoSet(q, key, capacity);
    if i < |q'| - 1 {
      var j: nat := if |q| < capacity then i else i + 1;
      assert Holds(a, capacity, q, j);
      WrapDistinct(a.count + 1 - |q'| + 1 + i, a.count + 1, capacity);
    }
  }

  // --- Whole runs of insertions ---

  function InsertAll<K(==)>(a: State<K>, keys: seq<K>, capacity: nat): State<K>
    requires capacity > 0
  {
    if keys == [] then a
    else Insert(InsertAll(a, keys[..|keys| - 1], capacity), keys[|keys| - 1], capacity)
  }

  function FifoAll<K(==)>(q: seq<K>, keys: seq<K>, capacity: nat): seq<K> {
    if keys == [] then q
    else FifoSet(FifoAll(q, keys[..|keys| - 1], capacity), keys[|keys| - 1], capacity)
  }

  // How many of the insertions were of a key that was not live at that point.
  function NewKeys<K(==)>(q: seq<K>, keys: seq<K>, capacity: nat): nat {
    if keys == [] then 0
    else
      var before := keys[..|keys| - 1];
      NewKeys(q, before, capacity) + if keys[|keys| - 1] in FifoAll(q, before, capacity) then 0 else 1
  }

  lemma {:induction false} FifoRun<K>(a: State<K>, q: seq<K>, keys: seq<K>, capacity: nat)
    requires Fifo(a, capacity, q)
    ensures Fifo(InsertAll(a, keys, capacity), capacity, FifoAll(q, keys, capacity))
  {
    if keys == [] {
    } else {
      FifoRun(a, q, keys[..|keys| - 1], capacity);
      FifoStep(InsertAll(a, keys[..|keys| - 1], capacity), capacity,
               FifoAll(q, keys[..|keys| - 1], capacity), keys[|keys| - 1]);
    }
  }

  // Queue entry i is still queued, moved toward the front by exactly the number
  // of new keys beyond the free room, while fewer than `capacity` keys are newer.
  lemma {:induction false} EntrySurvives<K>(q: seq<K>, i: nat, keys: seq<K>, capacity: nat)
    requires Distinct(q) && i < |q| <= capacity
    requires |q| - 1 - i + NewKeys(q, keys, capacity) < capacity
    ensures var r := FifoAll(q, keys, capacity);
      && Distinct(r) && |q| <= |r| <= capacity
      && (var at := |r| - 1 - (|q| - 1 - i + NewKeys(q, keys, capacity)); at >= 0 && r[at] == q[i])
      && (|r| == |q| + NewKeys(q, keys, capacity) || |r| == capacity)
  {
    hide Insert, InSlot;
    if keys == [] {
    } else {
      EntrySurvives(q, i, keys[..|keys| - 1], capacity);
    }
  }

  // The newest key survives the next capacity - 1 new keys and goes with the one
  // after; re-inserting a live key never moves it.
  lemma NewestSurvivesExactly<K>(q: seq<K>, keys: seq<K>, capacity: nat, last: K)
    requires Distinct(q) && 0 < |q| <= capacity
    ensures NewKeys(q, keys, capacity) < capacity ==> q[|q| - 1] in FifoAll(q, keys, capacity)
    ensures NewKeys(q, keys, capacity) == capacity - 1 && last !in FifoAll(q, keys, capacity)
      ==> q[|q| - 1] !in FifoAll(q, keys + [last], capacity)
  {
    if NewKeys(q, keys, capacity) < capacity {
      EntrySurvives(q, |q| - 1, keys, capacity);
      var r := FifoAll(q, keys, capacity);
      if NewKeys(q, keys, capacity) == capacity - 1 && last !in r {
        assert (keys + [last])[..|keys|] == keys;
        assert r[0] == q[|q| - 1];
        QueueMembers(r, last, capacity, q[|q| - 1]);
      }
    }
  }
}
