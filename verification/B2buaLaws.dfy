// Coherence of the B2BUA leg table over whole runs: a session's fields are all
// there or all gone, the downstream index is the inverse of the stored Call-IDs,
// and the ring bounds the sessions.
module B2buaLaws {
  import opened Arithmetic
  import opened B2bua
  import opened RingCache
  import opened Text
  import Queue = BoundedRing

  // --- The invariant ---

  predicate Live(m: Table, k: string) { Field(Status, k) in m }

  // All fields or none, and a live session is found again by its downstream Call-ID.
  ghost predicate SessionOk(m: Table, k: string) {
    && (forall name: FieldName :: Field(name, k) in m <==> Live(m, k))
    && (Live(m, k) ==>
          && k != "" && m[Field(OutCid, k)] != ""
          && OutKey(m[Field(OutCid, k)]) in m && m[OutKey(m[Field(OutCid, k)])] == k)
  }

  ghost predicate IndexOk(m: Table, cid: string) {
    OutKey(cid) in m ==> Live(m, m[OutKey(cid)]) && Lookup(m, Field(OutCid, m[OutKey(cid)])) == cid
  }

  ghost predicate InRing(m: Table, k: string, slot: nat) {
    slot < CAPACITY && Slot(slot) in m && m[Slot(slot)] == k
  }

  ghost predicate RingOk(m: Table) {
    && NextCount(m) > 0
    && (forall slot :: Slot(slot) in m ==> 0 <= slot < CAPACITY && m[Slot(slot)] != "")
    && (forall k :: Live(m, k) ==> exists slot: nat :: InRing(m, k, slot))
  }

  ghost predicate Coherent(m: Table) {
    (forall k :: SessionOk(m, k)) && (forall cid :: IndexOk(m, cid)) && RingOk(m)
  }

  // A session and its index entry are untouched.
  ghost predicate SameSession(m: Table, t: Table, k: string) {
    && (forall name: FieldName :: Field(name, k) in t <==> Field(name, k) in m)
    && (forall name: FieldName :: Field(name, k) in t ==> t[Field(name, k)] == m[Field(name, k)])
  }

  ghost predicate SameRing(m: Table, t: Table) {
    && NextCount(t) == NextCount(m)
    && (forall slot :: Slot(slot) in t <==> Slot(slot) in m)
    && (forall slot :: Slot(slot) in t ==> t[Slot(slot)] == m[Slot(slot)])
  }

  // --- Cleaning up ---

  lemma CleanedEntries(m: Table, key: string, k: CacheKey)
    requires key != ""
    ensures var outCid := Lookup(m, Field(OutCid, key));
      && (k in Cleaned(m, key) <==> k in m && !IsFieldOf(k, key) && !(outCid != "" && k == OutKey(outCid)))
      && (k in Cleaned(m, key) ==> Cleaned(m, key)[k] == m[k])
  {
  }

  lemma CleanedSameRing(m: Table, key: string)
    ensures SameRing(m, Cleaned(m, key))
  {
    hide Cleaned, ParseInt;
    if key != "" {
      forall k: CacheKey | k.Slot? || k.Sequence?
        ensures k in Cleaned(m, key) <==> k in m
        ensures k in m ==> Cleaned(m, key)[k] == m[k]
      {
        CleanedEntries(m, key, k);
      }
    } else {
      assert Cleaned(m, key) == m by { CleanedNothing(m); }
    }
  }

  lemma CleanedNothing(m: Table)
    ensures Cleaned(m, "") == m
  {
  }

  lemma CleanedOthers(m: Table, key: string, k: string)
    requires k != key
    ensures SameSession(m, Cleaned(m, key), k)
  {
    hide Cleaned;
    if key == "" { CleanedNothing(m); }
    else {
      forall name: FieldName
        ensures Field(name, k) in Cleaned(m, key) <==> Field(name, k) in m
        ensures Field(name, k) in m ==> Cleaned(m, key)[Field(name, k)] == m[Field(name, k)]
      {
        CleanedEntries(m, key, Field(name, k));
      }
    }
  }

  lemma CleanedSession(m: Table, key: string, k: string)
    requires Coherent(m)
    ensures SessionOk(Cleaned(m, key), k) && (k == key ==> !Live(Cleaned(m, key), k))
  {
    hide Cleaned, RingOk;
    var t := Cleaned(m, key);
    assert SessionOk(m, k) && SessionOk(m, key);
    if key == "" {
      CleanedNothing(m);
    } else if k == key {
      forall name: FieldName ensures Field(name, k) !in t { CleanedEntries(m, key, Field(name, k)); }
    } else {
      CleanedOthers(m, key, k);
      if Live(m, k) { CleanedEntries(m, key, OutKey(m[Field(OutCid, k)])); }
    }
  }

  lemma CleanedIndex(m: Table, key: string, cid: string)
    requires Coherent(m)
    ensures IndexOk(Cleaned(m, key), cid)
    ensures OutKey(cid) in Cleaned(m, key) ==> OutKey(cid) in m && Cleaned(m, key)[OutKey(cid)] == m[OutKey(cid)] != key
  {
    hide Cleaned, RingOk;
    assert IndexOk(m, cid) && SessionOk(m, key);
    if key == "" {
      CleanedNothing(m);
      assert OutKey(cid) in m ==> SessionOk(m, m[OutKey(cid)]);
    } else {
      CleanedEntries(m, key, OutKey(cid));
      if OutKey(cid) in Cleaned(m, key) { CleanedOthers(m, key, m[OutKey(cid)]); }
    }
  }

  lemma SameRingKeeps(m: Table, t: Table)
    requires RingOk(m) && SameRing(m, t) && forall k :: Live(t, k) ==> Live(m, k)
    ensures RingOk(t)
  {
    hide ParseInt;
    forall k | Live(t, k) ensures exists slot: nat :: InRing(t, k, slot) {
      var slot: nat :| InRing(m, k, slot);
      assert InRing(t, k, slot);
    }
  }

  // Cleanup leaves nothing of the session: no field and no index entry. Every
  // other session keeps every field.
  lemma CleanupEffect(m: Table, key: string)
    requires Coherent(m)
    ensures var t := Cleaned(m, key);
      && Coherent(t) && SameRing(m, t)
      && (forall name: FieldName :: Field(name, key) !in t)
      && (forall cid :: OutKey(cid) in t ==> OutKey(cid) in m && t[OutKey(cid)] == m[OutKey(cid)] != key)
      && (forall k :: k != key ==> SameSession(m, t, k))
  {
    hide Cleaned, RingOk, SessionOk, IndexOk, SameRing;
    var t := Cleaned(m, key);
    forall k ensures SessionOk(t, k) { CleanedSession(m, key, k); }
    forall cid ensures IndexOk(t, cid)
      ensures OutKey(cid) in t ==> OutKey(cid) in m && t[OutKey(cid)] == m[OutKey(cid)] != key
    {
      CleanedIndex(m, key, cid);
    }
    CleanedSession(m, key, key);
    NoneOf(t, key);
    CleanedSameRing(m, key);
    forall k | k != key ensures SameSession(m, t, k) { CleanedOthers(m, key, k); }
    forall k | Live(t, k) ensures Live(m, k) {
      assert k != key;
      assert SameSession(m, t, k);
    }
    SameRingKeeps(m, t);
  }

  lemma NoneOf(t: Table, key: string)
    requires SessionOk(t, key) && !Live(t, key)
    ensures forall name: FieldName :: Field(name, key) !in t
  {
  }

  // --- Storing ---

  // The session that the next slot still names, or "".
  function SlotOwner(m: Table): string { Lookup(m, Slot(SlotOf(NextCount(m), CAPACITY))) }

  lemma CountedUp(m: Table)
    requires RingOk(m)
    ensures var n := NextCount(m);
      var counted := m[Sequence := IntText(n)];
      && SlotOf(n, CAPACITY) == Wrap(n, CAPACITY) && NextCount(counted) == n + 1
      && Lookup(counted, Slot(Wrap(n, CAPACITY))) == Lookup(m, Slot(Wrap(n, CAPACITY)))
  {
    hide ParseInt, IntText;
    SlotInRange(NextCount(m), CAPACITY);
    ParseIntText(NextCount(m));
  }

  lemma CountedCoherent(m: Table, n: int, t: Table)
    requires Coherent(m) && n > 0 && t == m[Sequence := IntText(n)]
    ensures Coherent(t) && forall k :: SameSession(m, t, k)
  {
    hide ParseInt, IntText;
    ParseIntText(n);
    forall k ensures SessionOk(t, k) && SameSession(m, t, k) { assert SessionOk(m, k); }
    forall cid ensures IndexOk(t, cid) { assert IndexOk(m, cid); }
    forall k | Live(t, k) ensures exists slot: nat :: InRing(t, k, slot) {
      assert Live(m, k);
      var slot: nat :| InRing(m, k, slot);
      assert InRing(t, k, slot);
    }
  }

  // Room is made: the slot's old session is gone, and everything else is as before.
  lemma EvictedEffect(m: Table, key: string) returns (room: Table)
    requires Coherent(m) && key != "" && !Live(m, key)
    ensures Coherent(room) && !Live(room, key)
    ensures var n := NextCount(m);
      && Evicted(m, key) == room[Slot(Wrap(n, CAPACITY)) := key]
      && NextCount(room) == n + 1
      && (forall slot :: Slot(slot) in room <==> Slot(slot) in m)
      && (forall slot :: Slot(slot) in room ==> room[Slot(slot)] == m[Slot(slot)])
    ensures !Live(room, SlotOwner(m))
    ensures forall k :: k != SlotOwner(m) ==> SameSession(m, room, k)
    ensures forall cid :: OutKey(cid) in room ==> OutKey(cid) in m
  {
    hide Coherent, Cleaned, RingOk, ParseInt, IntText;
    assert RingOk(m) by { CoherentParts(m); }
    var n := NextCount(m);
    assert n > 0 by { CoherentParts(m); }
    CountedUp(m);
    var counted := m[Sequence := IntText(n)];
    CountedCoherent(m, n, counted);
    var old_ := SlotOwner(m);
    if old_ != "" && old_ != key {
      CleanupEffect(counted, old_);
      room := Cleaned(counted, old_);
      assert SessionGone(room, old_);
      assert SameSession(counted, room, key) && SameSession(m, counted, key);
      forall k | k != old_ ensures SameSession(m, room, k) {
        assert SameSession(m, counted, k) && SameSession(counted, room, k);
      }
    } else {
      assert SameSession(m, counted, key);
      room := counted;
      if old_ == "" { NoEmptySession(counted); }
    }
    assert Evicted(m, key) == room[Slot(Wrap(n, CAPACITY)) := key];
  }

  ghost predicate SessionGone(t: Table, k: string) { forall name: FieldName :: Field(name, k) !in t }

  lemma CoherentParts(m: Table)
    requires Coherent(m)
    ensures RingOk(m) && NextCount(m) > 0
  {
  }

  lemma NoEmptySession(m: Table)
    requires Coherent(m)
    ensures !Live(m, "")
  {
    assert SessionOk(m, "");
  }

  lemma WrittenEntries(m: Table, key: string, legs: Legs, now: int, k: CacheKey)
    ensures var t := Written(m, key, legs, now);
      && (k in t <==> k in m || IsFieldOf(k, key) || k == OutKey(legs.outCid))
      && (k in t ==> t[k] == if IsFieldOf(k, key) then InitialValue(k.name, legs, now)
                             else if k == OutKey(legs.outCid) then key else m[k])
  {
    hide InitialValue;
  }

  // Writing a session under a fresh downstream Call-ID keeps the table coherent.
  lemma WrittenCoherent(m: Table, room: Table, slot: nat, key: string, legs: Legs, now: int)
    requires Coherent(room) && !Live(room, key) && Storable(key, legs) && slot < CAPACITY
    requires OutKey(legs.outCid) !in room && m == room[Slot(slot) := key]
    requires forall k :: Live(room, k) ==> exists s: nat :: s != slot && InRing(room, k, s)
    ensures Coherent(Written(m, key, legs, now))
    ensures forall k :: k != key ==> SameSession(room, Written(m, key, legs, now), k)
    ensures forall k :: Live(Written(m, key, legs, now), k) <==> k == key || Live(room, k)
  {
    hide Written, Coherent, RingOk, ParseInt, IntText;
    var t := Written(m, key, legs, now);
    forall k
      ensures SessionOk(t, k) && (k != key ==> SameSession(room, t, k))
      ensures Live(t, k) <==> k == key || Live(room, k)
    {
      WrittenSession(m, room, slot, key, legs, now, k);
    }
    forall cid ensures IndexOk(t, cid) { WrittenIndex(m, room, slot, key, legs, now, cid); }
    assert RingOk(t) by { WrittenRing(m, room, slot, key, legs, now); }
    FromParts(t);
  }

  lemma FromParts(t: Table)
    requires (forall k :: SessionOk(t, k)) && (forall cid :: IndexOk(t, cid)) && RingOk(t)
    ensures Coherent(t)
  {
  }

  lemma SessionIndexOf(m: Table, k: string, cid: string)
    requires Coherent(m)
    ensures SessionOk(m, k) && IndexOk(m, cid)
  {
  }

  lemma WrittenSession(m: Table, room: Table, slot: nat, key: string, legs: Legs, now: int, k: string)
    requires Coherent(room) && !Live(room, key) && Storable(key, legs)
    requires OutKey(legs.outCid) !in room && m == room[Slot(slot) := key]
    ensures var t := Written(m, key, legs, now);
      && SessionOk(t, k) && (k != key ==> SameSession(room, t, k))
      && (Live(t, k) <==> k == key || Live(room, k))
  {
    hide Written, Coherent, IntText;
    SessionIndexOf(room, k, "");
    forall name: FieldName
      ensures var t := Written(m, key, legs, now);
        && (Field(name, k) in t <==> k == key || Field(name, k) in room)
        && (Field(name, k) in t ==> t[Field(name, k)] == if k == key then InitialValue(name, legs, now) else room[Field(name, k)])
    {
      WrittenEntries(m, key, legs, now, Field(name, k));
    }
    if k == key {
      WrittenEntries(m, key, legs, now, OutKey(legs.outCid));
    } else if Live(room, k) {
      WrittenEntries(m, key, legs, now, OutKey(room[Field(OutCid, k)]));
    }
  }

  lemma WrittenIndex(m: Table, room: Table, slot: nat, key: string, legs: Legs, now: int, cid: string)
    requires Coherent(room) && !Live(room, key) && Storable(key, legs)
    requires OutKey(legs.outCid) !in room && m == room[Slot(slot) := key]
    ensures IndexOk(Written(m, key, legs, now), cid)
  {
    hide Written, Coherent, IntText;
    SessionIndexOf(room, key, cid);
    WrittenEntries(m, key, legs, now, OutKey(cid));
    var owner := if cid == legs.outCid then key else Lookup(room, OutKey(cid));
    WrittenEntries(m, key, legs, now, Field(OutCid, owner));
    WrittenEntries(m, key, legs, now, Field(Status, owner));
  }

  lemma WrittenRing(m: Table, room: Table, slot: nat, key: string, legs: Legs, now: int)
    requires Coherent(room) && key != "" && slot < CAPACITY && m == room[Slot(slot) := key]
    requires forall k :: Live(room, k) ==> exists s: nat :: s != slot && InRing(room, k, s)
    ensures RingOk(Written(m, key, legs, now))
  {
    hide Written, InitialValue, ParseInt, IntText;
    var t := Written(m, key, legs, now);
    WrittenEntries(m, key, legs, now, Sequence);
    forall s ensures Slot(s) in t <==> Slot(s) in room || s == slot
      ensures Slot(s) in t ==> t[Slot(s)] == if s == slot then key else room[Slot(s)]
    {
      WrittenEntries(m, key, legs, now, Slot(s));
    }
    forall k | Live(t, k) ensures exists s: nat :: InRing(t, k, s) {
      WrittenEntries(m, key, legs, now, Field(Status, k));
      if k == key {
        assert InRing(t, k, slot);
      } else {
        assert Live(room, k);
        var s: nat :| s != slot && InRing(room, k, s);
        assert InRing(t, k, s);
      }
    }
  }

  // --- What storing does ---

  lemma RoomSlots(m: Table, room: Table, slot: nat)
    requires Coherent(m) && Coherent(room) && slot == SlotOf(NextCount(m), CAPACITY)
    requires forall s :: Slot(s) in room ==> Slot(s) in m && room[Slot(s)] == m[Slot(s)]
    requires !Live(room, SlotOwner(m))
    ensures forall k :: Live(room, k) ==> exists s: nat :: s != slot && InRing(room, k, s)
  {
    hide ParseInt;
    forall k | Live(room, k) ensures exists s: nat :: s != slot && InRing(room, k, s) {
      var s: nat :| InRing(room, k, s);
      assert s == slot ==> k == SlotOwner(m);
    }
  }

  // A stored session is complete and found from both sides; the session its ring
  // slot named is gone, and no other session is touched.
  lemma StoredEffect(m: Table, key: string, legs: Legs, now: int)
    requires Coherent(m) && !Live(m, key) && OutKey(legs.outCid) !in m && Storable(key, legs)
    ensures var (t, ok) := Stored(m, key, legs, now);
      && ok && Coherent(t)
      && (forall name: FieldName :: Field(name, key) in t && t[Field(name, key)] == InitialValue(name, legs, now))
      && OutKey(legs.outCid) in t && t[OutKey(legs.outCid)] == key
      && (forall k :: k != key && k != SlotOwner(m) ==> SameSession(m, t, k))
      && (SlotOwner(m) != key ==> !Live(t, SlotOwner(m)))
      && (forall k :: Live(t, k) <==> k == key || (Live(m, k) && k != SlotOwner(m)))
      && NextCount(t) == NextCount(m) + 1
      && (forall s :: Slot(s) in t <==> Slot(s) in m || s == Wrap(NextCount(m), CAPACITY))
      && (forall s :: Slot(s) in t ==> t[Slot(s)] == if s == Wrap(NextCount(m), CAPACITY) then key else m[Slot(s)])
  {
    hide Coherent, Evicted, Written, RingOk, ParseInt, IntText, InitialValue;
    CoherentParts(m);
    CountedUp(m);
    var slot: nat := Wrap(NextCount(m), CAPACITY);
    var room := EvictedEffect(m, key);
    RoomSlots(m, room, slot);
    var mid := room[Slot(slot) := key];
    WrittenCoherent(mid, room, slot, key, legs, now);
    var t := Written(mid, key, legs, now);
    WrittenEntries(mid, key, legs, now, OutKey(legs.outCid));
    WrittenEntries(mid, key, legs, now, Sequence);
    forall name: FieldName
      ensures Field(name, key) in t && t[Field(name, key)] == InitialValue(name, legs, now)
    {
      WrittenEntries(mid, key, legs, now, Field(name, key));
    }
    forall s ensures Slot(s) in t <==> Slot(s) in m || s == slot
      ensures Slot(s) in t ==> t[Slot(s)] == if s == slot then key else m[Slot(s)]
    {
      WrittenEntries(mid, key, legs, now, Slot(s));
    }
    forall k | k != key && k != SlotOwner(m) ensures SameSession(m, t, k) {
      assert SameSession(m, room, k) && SameSession(room, t, k);
    }
    forall k ensures Live(t, k) <==> k == key || (Live(m, k) && k != SlotOwner(m)) {
      assert k != SlotOwner(m) ==> SameSession(m, room, k);
    }
  }
}
