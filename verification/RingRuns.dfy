// One ring of the cache over whole runs in which other code deletes its keys.
module RingRuns {
  import opened RingCache
  import Queue = BoundedRing

  // What can happen to the maps a ring lives in: it is written, its keys are
  // deleted, or anything else of theirs changes.
  datatype Event = Written(key: string, value: string) | Deleted(keys: set<string>) | Elsewhere

  ghost predicate Step(d: Domain, s: Maps, e: Event, t: Maps)
    requires d.ring.capacity > 0
  {
    match e
    case Written(key, value) => d.Owns(key) && t == BoundedStateSet(s, d.ring, key, value)
    case Deleted(keys) => (forall k :: k in keys ==> d.Owns(k)) && t == DeleteFromStore(s, keys)
    case Elsewhere => AgreeOn(s, t, d)
  }

  ghost predicate Run(d: Domain, ss: seq<Maps>, es: seq<Event>) {
    && d.WellFormed() && |ss| == |es| + 1
    && forall i :: 0 <= i < |es| ==> Step(d, ss[i], es[i], ss[i + 1])
  }

  // A step is an event of the abstract ring, or none.
  lemma StepIsRun(d: Domain, s: Maps, e: Event, t: Maps) returns (qs: seq<Queue.Event<string>>)
    requires d.WellFormed() && Sound(s, d) && Step(d, s, e, t)
    ensures Sound(t, d) && |qs| <= 1 && View(t, d) == Queue.Run(View(s, d), qs, d.ring.capacity)
  {
    hide Sound, View, AgreeOn, BoundedStateSet, DeleteFromStore, Queue.Insert, Queue.OutsideDelete;
    match e
    case Written(key, value) =>
      SetRefinesInsert(s, d, key, value);
      qs := [Queue.Insertion(key)];
      Queue.RunOfOne(View(s, d), qs[0], d.ring.capacity);
    case Deleted(keys) =>
      DeleteIsOutsideDelete(s, d, keys);
      Queue.OutsideDeleteIsEvent(View(s, d), View(t, d), d.ring.capacity);
      qs := [Queue.Deletion(View(s, d).live - View(t, d).live)];
      Queue.RunOfOne(View(s, d), qs[0], d.ring.capacity);
    case Elsewhere =>
      AgreeSameView(s, t, d);
      qs := [];
  }

  // Whatever is written, deleted by other code or changed elsewhere, and in whatever
  // order, the ring in the cache runs as the abstract ring does.
  lemma {:induction false} CacheRunIsRun(d: Domain, ss: seq<Maps>, es: seq<Event>) returns (qs: seq<Queue.Event<string>>)
    requires Run(d, ss, es) && Sound(ss[0], d)
    ensures Sound(ss[|es|], d) && View(ss[|es|], d) == Queue.Run(View(ss[0], d), qs, d.ring.capacity)
  {
    hide Sound, View, Step, Queue.Run;
    if es == [] {
      qs := [];
      Queue.RunOfNone(View(ss[0], d), d.ring.capacity);
    } else {
      var n := |es| - 1;
      var before := CacheRunIsRun(d, ss[..n + 1], es[..n]);
      var last := StepIsRun(d, ss[n], es[n], ss[n + 1]);
      qs := before + last;
      Queue.RunConcat(View(ss[0], d), before, last, d.ring.capacity);
    }
  }

  // So every live key still sits in some slot, and at most `capacity` keys are live.
  lemma LiveKeysBounded(d: Domain, ss: seq<Maps>, es: seq<Event>)
    requires Run(d, ss, es) && Sound(ss[0], d) && Queue.Located(View(ss[0], d), d.ring.capacity)
    ensures Sound(ss[|es|], d) && Queue.Located(View(ss[|es|], d), d.ring.capacity)
    ensures |View(ss[|es|], d).live| <= d.ring.capacity
  {
    hide Sound, View, Step, Queue.Run, Queue.Located;
    var qs := CacheRunIsRun(d, ss, es);
    Queue.RunLocated(View(ss[0], d), qs, d.ring.capacity);
    Queue.LiveKeysBounded(View(ss[|es|], d), d.ring.capacity);
  }

  // In particular from the empty cache on.
  lemma BoundedFromEmpty(d: Domain, ss: seq<Maps>, es: seq<Event>)
    requires Run(d, ss, es) && ss[0] == Shared(map[])
    ensures Sound(ss[|es|], d) && |View(ss[|es|], d).live| <= d.ring.capacity
  {
    hide Sound, View, Step, Queue.Run;
    EmptyView(d);
    var qs := CacheRunIsRun(d, ss, es);
    Queue.RunBounded(qs, d.ring.capacity);
  }

  lemma EmptyView(d: Domain)
    requires d.WellFormed()
    ensures Sound(Shared(map[]), d) && View(Shared(map[]), d) == Queue.State(0, map[], {})
  {
  }
}
