// Whole runs of the B2BUA leg table: invitations, lookups, requests, responses,
// idle expiry and eviction, in any order.
module B2buaRuns {
  import opened Arithmetic
  import opened B2bua
  import opened B2buaLaws
  import opened RingCache
  import opened Text
  import Queue = BoundedRing

  // --- Using a session ---

  ghost predicate SameIndex(m: Table, t: Table) {
    forall cid :: OutKey(cid) in t ==> OutKey(cid) in m && t[OutKey(cid)] == m[OutKey(cid)]
  }

  // Every session but `key` keeps every field.
  ghost predicate SameOthers(m: Table, t: Table, key: string) { forall k :: k != key ==> SameSession(m, t, k) }

  // `key` keeps every field outside `names`.
  ghost predicate SameBut(m: Table, t: Table, key: string, names: set<FieldName>) {
    forall name: FieldName :: name !in names ==>
      (Field(name, key) in t <==> Field(name, key) in m)
      && (Field(name, key) in t ==> t[Field(name, key)] == m[Field(name, key)])
  }

  lemma UpdateEffect(m: Table, key: string, name: FieldName, value: string, t: Table)
    requires Coherent(m) && Live(m, key) && name != OutCid && t == m[Field(name, key) := value]
    ensures Coherent(t) && SameRing(m, t) && SameIndex(m, t) && SameOthers(m, t, key)
    ensures Live(t, key) && SameBut(m, t, key, {name}) && t[Field(name, key)] == value
  {
    hide RingOk, ParseInt;
    assert SessionOk(m, key);
    forall k ensures SessionOk(t, k) { assert SessionOk(m, k); }
    forall cid ensures IndexOk(t, cid) { SessionIndexOf(m, if OutKey(cid) in m then m[OutKey(cid)] else key, cid); }
    SameRingKeeps(m, t);
  }

  // Using a session leaves everything as it was but its time stamp; an idle one
  // is gone without trace.
  lemma TouchEffect(m: Table, key: string, now: Clock, ttl: int)
    requires Coherent(m)
    ensures var (t, active) := Touched(m, key, now, ttl);
      && Coherent(t) && SameRing(m, t) && SameIndex(m, t) && SameOthers(m, t, key)
      && (active <==> Live(m, key) && !Idle(m, key, now.first, ttl))
      && (active <==> Live(t, key))
      && (active ==> SameBut(m, t, key, {Created}) && t[Field(Created, key)] == IntText(now.second))
      && (!active ==> forall name: FieldName :: Field(name, key) !in t)
  {
    hide RingOk, ParseInt, IntText, Cleaned, Idle, SessionOk, IndexOk;
    SessionIndexOf(m, key, "");
    var (t, active) := Touched(m, key, now, ttl);
    if active {
      hide Coherent;
      UpdateEffect(m, key, Created, IntText(now.second), t);
    } else if Live(m, key) && key != "" {
      hide Coherent;
      CleanupEffect(m, key);
    } else {
      if key == "" { NoEmptySession(m); }
      NoneOf(m, key);
    }
  }

  // --- Events ---

  datatype Event =
    | Invite(key: string, legs: Legs, valid: bool, now: Clock)
    | In(key: string, now: Clock)
    | Out(cid: string, now: Clock)
    | Drop(key: string)
    | InDialog(key: string, method_: string, requestCseq: string, rewritten: string, now: Clock)
    | Response(key: string, toInvite: bool, remoteTo: Option<string>, code: int, now: Clock)
    | ToPeer(key: string, method_: string, now: Clock)

  ghost function Step(m: Table, e: Event, ttl: int): Table {
    match e
    case Invite(key, legs, valid, now) => Invited(m, key, legs, valid, now, ttl).0
    case In(key, now) => LookedUpIn(m, key, now, ttl).0
    case Out(cid, now) => LookedUpOut(m, cid, now, ttl).0
    case Drop(key) => Cleaned(m, key)
    case InDialog(key, method_, requestCseq, rewritten, now) => SentInDialog(m, key, method_, requestCseq, rewritten, now, ttl).0
    case Response(key, toInvite, remoteTo, code, now) => Translated(m, key, toInvite, remoteTo, code, now, ttl).0
    case ToPeer(key, method_, now) => SentToPeer(m, key, method_, now, ttl).0
  }

  // The session an event is about.
  function KeyOf(m: Table, e: Event): string {
    if e.Out? then Lookup(m, OutKey(e.cid)) else e.key
  }

  // Downstream Call-IDs are drawn at random: a new one is never in use.
  predicate FreshCid(m: Table, e: Event) {
    e.Invite? ==> OutKey(e.legs.outCid) !in m
  }

  const MUTABLE: set<FieldName> :=
    {Status, Created, RemoteTo, PendingInvite, OutCseq, PeerCseq, PendingMethod, PendingInCseq, PendingOutCseq}

  // The fields an event may change in its own session.
  function Changes(e: Event): set<FieldName> {
    match e
    case InDialog(_, _, _, _, _) => {Created, OutCseq, PendingMethod, PendingInCseq, PendingOutCseq, PendingInvite}
    case Response(_, _, _, _, _) => {Created, RemoteTo, Status}
    case ToPeer(_, _, _) => {Created, PeerCseq}
    case _ => {Created}
  }

  // What one event may do: keep the table coherent, change the changeable fields
  // of its own session, remove sessions, and bring one in by an invitation.
  ghost predicate Allowed(m: Table, t: Table, e: Event) {
    && Coherent(t)
    && (forall k :: Live(t, k) && k != KeyOf(m, e) ==> SameSession(m, t, k))
    && (Live(t, KeyOf(m, e)) && !e.Invite? ==>
          Live(m, KeyOf(m, e)) && SameBut(m, t, KeyOf(m, e), Changes(e)))
  }

  lemma AllowedWhenQuiet(m: Table, t: Table, e: Event, names: set<FieldName>)
    requires Coherent(t) && SameOthers(m, t, KeyOf(m, e)) && names <= Changes(e)
    requires Live(t, KeyOf(m, e)) ==> Live(m, KeyOf(m, e)) && SameBut(m, t, KeyOf(m, e), names)
    ensures Allowed(m, t, e)
  {
    hide Coherent;
  }

  lemma SameButChain(m: Table, t: Table, u: Table, key: string, a: set<FieldName>, b: set<FieldName>)
    requires SameBut(m, t, key, a) && SameBut(t, u, key, b)
    ensures SameBut(m, u, key, a + b)
  {
  }

  lemma SameOthersChain(m: Table, t: Table, u: Table, key: string)
    requires SameOthers(m, t, key) && SameOthers(t, u, key)
    ensures SameOthers(m, u, key)
  {
    forall k | k != key ensures SameSession(m, u, k) {
      assert SameSession(m, t, k) && SameSession(t, u, k);
    }
  }

  lemma AlsoUpdate(m: Table, t: Table, key: string, names: set<FieldName>, name: FieldName, value: string, u: Table)
    requires Coherent(t) && Live(t, key) && SameOthers(m, t, key) && SameBut(m, t, key, names)
    requires name != OutCid && u == t[Field(name, key) := value]
    ensures Coherent(u) && Live(u, key) && SameOthers(m, u, key) && SameBut(m, u, key, names + {name})
    ensures SameBut(t, u, key, {name}) && u[Field(name, key)] == value
  {
    hide Coherent, SameBut, SameOthers, SameRing, SameIndex;
    UpdateEffect(t, key, name, value, u);
    SameOthersChain(m, t, u, key);
    SameButChain(m, t, u, key, names, {name});
  }

  lemma InviteAllowed(m: Table, e: Event, ttl: int)
    requires Coherent(m) && e.Invite? && FreshCid(m, e)
    ensures Allowed(m, Step(m, e, ttl), e)
  {
    hide Coherent, Touched, Stored, SameBut, Storable, SameRing, RingOk;
    var (t, active) := Touched(m, e.key, e.now, ttl);
    TouchEffect(m, e.key, e.now, ttl);
    SelfAllowed(m, e);
    if Step(m, e, ttl) == m {
    } else if Step(m, e, ttl) == t {
      AllowedWhenQuiet(m, t, e, {Created});
    } else {
      assert !active;
      StoreAllowed(m, t, e);
    }
  }

  lemma SelfAllowed(m: Table, e: Event)
    requires Coherent(m)
    ensures Allowed(m, m, e)
  {
    hide Coherent;
  }

  lemma StoreAllowed(m: Table, t: Table, e: Event)
    requires Coherent(t) && e.Invite? && SameOthers(m, t, e.key) && !Live(t, e.key) && SameIndex(m, t)
    requires OutKey(e.legs.outCid) !in m
    ensures Allowed(m, Stored(t, e.key, e.legs, e.now.second).0, e)
  {
    hide Coherent, Stored, Storable, SameRing, RingOk, SameBut, ParseInt;
    var u := Stored(t, e.key, e.legs, e.now.second).0;
    if Storable(e.key, e.legs) {
      StoredEffect(t, e.key, e.legs, e.now.second);
      forall k | Live(u, k) && k != e.key ensures SameSession(m, u, k) {
        assert k != SlotOwner(t);
        assert SameSession(m, t, k) && SameSession(t, u, k);
      }
    } else {
      NotStored(t, e);
    }
  }

  lemma NotStored(t: Table, e: Event)
    requires e.Invite? && !Storable(e.key, e.legs)
    ensures Stored(t, e.key, e.legs, e.now.second).0 == t
  {
  }

  function Renumbered(t: Table, key: string, method_: string, requestCseq: string): Table {
    var cseq := NextOutCseq(t, key, requestCseq);
    t[Field(OutCseq, key) := cseq][Field(PendingMethod, key) := method_]
     [Field(PendingInCseq, key) := requestCseq][Field(PendingOutCseq, key) := cseq]
  }

  lemma RenumberedEffect(m: Table, t: Table, key: string, method_: string, requestCseq: string)
    requires Coherent(t) && Live(t, key) && SameOthers(m, t, key) && SameBut(m, t, key, {Created})
    ensures var u := Renumbered(t, key, method_, requestCseq);
      && Coherent(u) && Live(u, key) && SameOthers(m, u, key)
      && SameBut(m, u, key, {Created, OutCseq, PendingMethod, PendingInCseq, PendingOutCseq})
  {
    hide Coherent, SameBut, SameOthers, Live, NextOutCseq;
    var cseq := NextOutCseq(t, key, requestCseq);
    var t1 := t[Field(OutCseq, key) := cseq];
    var t2 := t1[Field(PendingMethod, key) := method_];
    var t3 := t2[Field(PendingInCseq, key) := requestCseq];
    AlsoUpdate(m, t, key, {Created}, OutCseq, cseq, t1);
    AlsoUpdate(m, t1, key, {Created} + {OutCseq}, PendingMethod, method_, t2);
    AlsoUpdate(m, t2, key, {Created} + {OutCseq} + {PendingMethod}, PendingInCseq, requestCseq, t3);
    AlsoUpdate(m, t3, key, {Created} + {OutCseq} + {PendingMethod} + {PendingInCseq}, PendingOutCseq, cseq,
               t3[Field(PendingOutCseq, key) := cseq]);
    assert {Created} + {OutCseq} + {PendingMethod} + {PendingInCseq} + {PendingOutCseq}
        == {Created, OutCseq, PendingMethod, PendingInCseq, PendingOutCseq};
  }

  // The three ways an in-dialog request ends.
  lemma DialogShape(m: Table, e: Event, ttl: int)
    requires e.InDialog?
    ensures var (t, active) := Touched(m, e.key, e.now, ttl);
      var u, r := Step(m, e, ttl), Renumbered(t, e.key, e.method_, e.requestCseq);
      u == t || (active && (u == r || u == r[Field(PendingInvite, e.key) := e.rewritten]))
  {
    hide Touched, NextOutCseq;
  }

  lemma DialogAllowed(m: Table, e: Event, ttl: int)
    requires Coherent(m) && e.InDialog?
    ensures Allowed(m, Step(m, e, ttl), e)
  {
    hide Coherent, Touched, SameBut, SameOthers, SameRing, SameIndex, Renumbered, Step;
    TouchEffect(m, e.key, e.now, ttl);
    DialogShape(m, e, ttl);
    var (t, active) := Touched(m, e.key, e.now, ttl);
    var u, r := Step(m, e, ttl), Renumbered(t, e.key, e.method_, e.requestCseq);
    if u == t {
      AllowedWhenQuiet(m, t, e, {Created});
    } else {
      var names := {Created, OutCseq, PendingMethod, PendingInCseq, PendingOutCseq};
      RenumberedEffect(m, t, e.key, e.method_, e.requestCseq);
      if u == r {
        AllowedWhenQuiet(m, r, e, names);
      } else {
        AlsoUpdate(m, r, e.key, names, PendingInvite, e.rewritten, u);
        AllowedWhenQuiet(m, u, e, names + {PendingInvite});
      }
    }
  }

  lemma ResponseAllowed(m: Table, e: Event, ttl: int)
    requires Coherent(m) && e.Response?
    ensures Allowed(m, Step(m, e, ttl), e)
  {
    hide Coherent, Touched, SameBut, SameOthers, SameRing, SameIndex;
    TouchEffect(m, e.key, e.now, ttl);
    var (t, active) := Touched(m, e.key, e.now, ttl);
    var u := Step(m, e, ttl);
    if !active || !e.toInvite {
      AllowedWhenQuiet(m, t, e, {Created});
    } else {
      var t1 := if e.remoteTo.Some? then t[Field(RemoteTo, e.key) := e.remoteTo.value] else t;
      var names := if e.remoteTo.Some? then {Created} + {RemoteTo} else {Created};
      if e.remoteTo.Some? { AlsoUpdate(m, t, e.key, {Created}, RemoteTo, e.remoteTo.value, t1); }
      if u == t1 {
        AllowedWhenQuiet(m, t1, e, names);
      } else {
        AlsoUpdate(m, t1, e.key, names, Status, "confirmed", u);
        AllowedWhenQuiet(m, u, e, names + {Status});
      }
    }
  }

  lemma PeerAllowed(m: Table, e: Event, ttl: int)
    requires Coherent(m) && e.ToPeer?
    ensures Allowed(m, Step(m, e, ttl), e)
  {
    hide Coherent, Touched, SameBut, SameOthers, SameRing, SameIndex, IntText, ParseInt;
    TouchEffect(m, e.key, e.now, ttl);
    var (t, active) := Touched(m, e.key, e.now, ttl);
    var u := Step(m, e, ttl);
    if u == t {
      AllowedWhenQuiet(m, t, e, {Created});
    } else {
      AlsoUpdate(m, t, e.key, {Created}, PeerCseq, IntText(PeerNumbered(t, e.key).1 + 1), u);
      AllowedWhenQuiet(m, u, e, {Created} + {PeerCseq});
    }
  }

  lemma LookupAllowed(m: Table, e: Event, ttl: int)
    requires Coherent(m) && (e.In? || e.Out? || e.Drop?)
    ensures Allowed(m, Step(m, e, ttl), e)
  {
    hide Coherent, Touched, Cleaned, SameBut, SameRing, SameIndex;
    if e.Drop? {
      CleanupEffect(m, e.key);
      assert SessionGone(Step(m, e, ttl), e.key);
      AllowedWhenQuiet(m, Step(m, e, ttl), e, {});
    } else if e.Out? && (e.cid == "" || OutKey(e.cid) !in m) {
      SelfAllowed(m, e);
      SameSelf(m, KeyOf(m, e));
    } else {
      TouchEffect(m, KeyOf(m, e), e.now, ttl);
      AllowedWhenQuiet(m, Step(m, e, ttl), e, {Created});
    }
  }

  lemma SameSelf(m: Table, key: string)
    ensures forall names :: SameBut(m, m, key, names)
  {
  }

  lemma StepAllowed(m: Table, e: Event, ttl: int)
    requires Coherent(m) && FreshCid(m, e)
    ensures Allowed(m, Step(m, e, ttl), e)
  {
    hide Coherent, Step, Allowed;
    match e
    case Invite(_, _, _, _) => InviteAllowed(m, e, ttl);
    case In(_, _) => LookupAllowed(m, e, ttl);
    case Out(_, _) => LookupAllowed(m, e, ttl);
    case Drop(_) => LookupAllowed(m, e, ttl);
    case InDialog(_, _, _, _, _) => DialogAllowed(m, e, ttl);
    case Response(_, _, _, _, _) => ResponseAllowed(m, e, ttl);
    case ToPeer(_, _, _) => PeerAllowed(m, e, ttl);
  }

  // --- Runs ---

  ghost function Run(m: Table, es: seq<Event>, ttl: int): Table {
    if es == [] then m else Step(Run(m, es[..|es| - 1], ttl), es[|es| - 1], ttl)
  }

  ghost predicate FreshRun(m: Table, es: seq<Event>, ttl: int) {
    es != [] ==> FreshRun(m, es[..|es| - 1], ttl) && FreshCid(Run(m, es[..|es| - 1], ttl), es[|es| - 1])
  }

  // Over every run from an empty table with fresh downstream Call-IDs, fields are
  // all there or all gone, the two indexes are inverse, and every live session
  // sits in a ring slot.
  lemma {:induction false} RunCoherent(m: Table, es: seq<Event>, ttl: int)
    requires Coherent(m) && FreshRun(m, es, ttl)
    ensures Coherent(Run(m, es, ttl))
  {
    hide Coherent, Step, FreshCid;
    if es == [] {
    } else {
      RunCoherent(m, es[..|es| - 1], ttl);
      StepAllowed(Run(m, es[..|es| - 1], ttl), es[|es| - 1], ttl);
    }
  }

  lemma EmptyCoherent()
    ensures Coherent(map[])
  {
  }

  // --- The ring bounds the sessions ---

  ghost function Sessions(m: Table): set<string> { set k | k in m && k.Field? && k.name == Status :: k.session }

  ghost function RingView(m: Table): Queue.State<string>
    requires RingOk(m)
  {
    Queue.State(NextCount(m) - 1, map slot: nat | slot < CAPACITY && Slot(slot) in m :: m[Slot(slot)], Sessions(m))
  }

  lemma SessionsAre(m: Table, k: string)
    ensures k in Sessions(m) <==> Live(m, k)
  {
    if Live(m, k) { assert Field(Status, k) in m; }
  }

  lemma LiveSessionsBounded(es: seq<Event>, ttl: int)
    requires FreshRun(map[], es, ttl)
    ensures |Sessions(Run(map[], es, ttl))| <= CAPACITY
  {
    hide Step, Run, FreshRun, ParseInt;
    EmptyCoherent();
    RunCoherent(map[], es, ttl);
    var m := Run(map[], es, ttl);
    var view := RingView(m);
    forall k | k in view.live ensures exists slot: nat :: Queue.InSlot(view, k, slot) {
      SessionsAre(m, k);
      var slot: nat :| InRing(m, k, slot);
      assert Queue.InSlot(view, k, slot);
    }
    Queue.LiveKeysBounded(view, CAPACITY);
  }

  // A stored session enters the ring as the bounded queue's insertion does.
  lemma StoreIsInsert(m: Table, key: string, legs: Legs, now: int)
    requires Coherent(m) && !Live(m, key) && OutKey(legs.outCid) !in m && Storable(key, legs)
    ensures var t := Stored(m, key, legs, now).0;
      Coherent(t) && RingView(t) == Queue.Insert(RingView(m), key, CAPACITY)
  {
    hide Stored, ParseInt, IntText, InitialValue, SameSession, SessionOk, IndexOk;
    StoredEffect(m, key, legs, now);
    var t := Stored(m, key, legs, now).0;
    SlotInRange(NextCount(m), CAPACITY);
    var slot: nat := Wrap(NextCount(m), CAPACITY);
    var a, b := RingView(m), RingView(t);
    SessionsAre(m, key);
    assert b.slots == a.slots[slot := key];
    assert Queue.NextSlot(a, CAPACITY) == slot;
    forall k ensures k in b.live <==> k in (a.live - Queue.Victims(a, CAPACITY)) + {key} {
      SessionsAre(m, k);
      SessionsAre(t, k);
      NoEmptySession(m);
    }
  }

  // --- A session's identity and its CSeq numbers ---

  ghost predicate NotInvited(es: seq<Event>, key: string) {
    forall i :: 0 <= i < |es| && es[i].Invite? ==> es[i].key != key
  }

  // While a session lives its Call-IDs, addresses, tags, targets and original
  // INVITE never change; once gone it does not come back uninvited.
  lemma {:induction false} IdentityFixed(m: Table, es: seq<Event>, key: string, ttl: int)
    requires Coherent(m) && FreshRun(m, es, ttl) && NotInvited(es, key)
    requires Live(Run(m, es, ttl), key)
    ensures Live(m, key) && SameBut(m, Run(m, es, ttl), key, MUTABLE)
  {
    hide Coherent, Step, FreshCid, SameBut, SameSession;
    if es == [] {
      SameSelf(m, key);
    } else {
      var before, e := es[..|es| - 1], es[|es| - 1];
      var mid := Run(m, before, ttl);
      RunCoherent(m, before, ttl);
      StepAllowed(mid, e, ttl);
      OneStepIdentity(mid, Step(mid, e, ttl), e, key);
      IdentityFixed(m, before, key, ttl);
      SameButChain(m, mid, Step(mid, e, ttl), key, MUTABLE, MUTABLE);
      assert MUTABLE + MUTABLE == MUTABLE;
    }
  }

  lemma OneStepIdentity(m: Table, t: Table, e: Event, key: string)
    requires Allowed(m, t, e) && Live(t, key) && (e.Invite? ==> e.key != key)
    ensures Live(m, key) && SameBut(m, t, key, MUTABLE)
  {
    hide Coherent;
    if key != KeyOf(m, e) { assert SameSession(m, t, key); }
  }

  // A request within the dialog is numbered one above the last, up to the largest
  // CSeq; past it the request keeps its own number.
  lemma DialogCseqStep(m: Table, key: string, method_: string, requestCseq: string, rewritten: string, now: Clock, ttl: int)
    requires Coherent(m) && Live(m, key) && !Idle(m, key, now.first, ttl) && method_ in {"BYE", "INVITE"}
    ensures var (t, cseq) := SentInDialog(m, key, method_, requestCseq, rewritten, now, ttl);
      var last := ParseInt(Lookup(m, Field(OutCseq, key)));
      && Live(t, key) && cseq == Some(Lookup(t, Field(OutCseq, key)))
      && Lookup(t, Field(PendingOutCseq, key)) == cseq.value && Lookup(t, Field(PendingInCseq, key)) == requestCseq
      && (last.Some? && last.value < MAX_CSEQ ==> ParseInt(cseq.value) == Some(last.value + 1))
      && (last.None? || last.value >= MAX_CSEQ ==> cseq.value == requestCseq)
  {
    hide Coherent, Touched, IntText, ParseInt, Idle;
    TouchEffect(m, key, now, ttl);
    SessionOfLive(m, key);
    var last := ParseInt(Lookup(m, Field(OutCseq, key)));
    if last.Some? { ParseIntText(last.value + 1); }
  }

  // A call can start at the largest number: the first BYE or INVITE within it then
  // goes out under the number its sender chose.
  lemma LargestCseqRepeats(e: Event, method_: string, requestCseq: string, rewritten: string, later: Clock, ttl: int)
    requires e.Invite? && e.valid && Storable(e.key, e.legs) && e.legs.inviteCseq == IntText(MAX_CSEQ)
    requires e.legs.target != "" && !Contains(e.legs.target, ',') && method_ in {"BYE", "INVITE"}
    requires e.now.second > 0 && 0 <= later.first - e.now.second <= ttl
    ensures SentInDialog(Step(map[], e, ttl), e.key, method_, requestCseq, rewritten, later, ttl).1 == Some(requestCseq)
  {
    hide Touched, Stored, ParseInt, IntText, RingOk, SameRing, Coherent, SentInDialog;
    var m := Step(map[], e, ttl);
    EmptyCoherent();
    TouchEffect(map[], e.key, e.now, ttl);
    StoredEffect(map[], e.key, e.legs, e.now.second);
    NumberNotEmpty(MAX_CSEQ);
    FirstInvitation(e, ttl);
    ParseIntText(e.now.second);
    ParseIntText(MAX_CSEQ);
    DialogCseqStep(m, e.key, method_, requestCseq, rewritten, later, ttl);
  }

  lemma NumberNotEmpty(n: nat)
    ensures IntText(n) != ""
  {
    DecShape(n);
  }

  lemma FirstInvitation(e: Event, ttl: int)
    requires e.Invite? && e.valid && Storable(e.key, e.legs) && e.legs.inviteCseq != ""
    requires e.legs.target != "" && !Contains(e.legs.target, ',')
    ensures Step(map[], e, ttl) == Stored(map[], e.key, e.legs, e.now.second).0
  {
  }

  lemma SessionOfLive(m: Table, key: string)
    requires Coherent(m) && Live(m, key)
    ensures forall name: FieldName :: Field(name, key) in m
  {
    assert SessionOk(m, key);
  }

  // Requests toward the caller are numbered 1, 2, 3, and stay at the largest CSeq.
  lemma PeerCseqStep(m: Table, key: string, now: Clock, ttl: int)
    requires Coherent(m) && Live(m, key) && !Idle(m, key, now.first, ttl)
    ensures var (t, cseq) := SentToPeer(m, key, "BYE", now, ttl);
      var last := Number(m, Field(PeerCseq, key), 1);
      && cseq == Some(if last < 1 then 1 else last) && Live(t, key)
      && (1 <= last < MAX_CSEQ ==> Number(t, Field(PeerCseq, key), 1) == last + 1)
      && (last >= MAX_CSEQ ==> Number(t, Field(PeerCseq, key), 1) == last)
  {
    hide Coherent, Touched, IntText, ParseInt, Idle;
    TouchEffect(m, key, now, ttl);
    SessionOfLive(m, key);
    var last := Number(m, Field(PeerCseq, key), 1);
    ParseIntText(if last < 1 then 2 else last + 1);
  }

  // --- Finding a session, and idle expiry ---

  // A live session is found from both sides exactly while it was used within the
  // idle time.
  lemma FoundIffRecent(m: Table, key: string, now: Clock, ttl: int)
    requires Coherent(m) && Live(m, key)
    ensures var used := Number(m, Field(Created, key), 0);
      && (LookedUpIn(m, key, now, ttl).1 == key <==> 0 < used && now.first - used <= ttl)
      && LookedUpOut(m, Lookup(m, Field(OutCid, key)), now, ttl) == LookedUpIn(m, key, now, ttl)
  {
    hide ParseInt;
    assert SessionOk(m, key);
  }

  // Each successful use restarts the idle time; an unused session times out and a
  // lookup then leaves nothing of it.
  lemma UseRefreshes(m: Table, key: string, now: Clock, later: Clock, ttl: int)
    requires Coherent(m) && now.second > 0 && LookedUpIn(m, key, now, ttl).1 == key && key != ""
    ensures var t := LookedUpIn(m, key, now, ttl).0;
      && (LookedUpIn(t, key, later, ttl).1 == key <==> later.first - now.second <= ttl)
      && (later.first - now.second > ttl ==> forall name: FieldName :: Field(name, key) !in LookedUpIn(t, key, later, ttl).0)
  {
    hide Coherent, Touched, ParseInt, IntText;
    TouchEffect(m, key, now, ttl);
    var t := Touched(m, key, now, ttl).0;
    ParseIntText(now.second);
    assert Field(Created, key) in t by { SessionOfLive(t, key); }
    assert Number(t, Field(Created, key), 0) == now.second;
    TouchEffect(t, key, later, ttl);
  }

  // A freshly accepted invitation is found from both sides while it is recent.
  lemma InviteThenFound(m: Table, e: Event, later: Clock, ttl: int)
    requires Coherent(m) && e.Invite? && FreshCid(m, e) && e.now.second > 0 && 0 <= later.first - e.now.second <= ttl
    requires Invited(m, e.key, e.legs, e.valid, e.now, ttl).1
    ensures var t := Step(m, e, ttl);
      && LookedUpIn(t, e.key, later, ttl).1 == e.key
      && LookedUpOut(t, e.legs.outCid, later, ttl).1 == e.key
      && Lookup(t, Field(InCid, e.key)) == e.legs.inCid
  {
    hide Touched, Stored, ParseInt, IntText, RingOk, SameRing, Coherent;
    TouchEffect(m, e.key, e.now, ttl);
    var mid := Touched(m, e.key, e.now, ttl).0;
    if !Storable(e.key, e.legs) { NotStoredFails(mid, e); }
    StoredEffect(mid, e.key, e.legs, e.now.second);
    var t := Stored(mid, e.key, e.legs, e.now.second).0;
    assert Field(Created, e.key) in t && Field(OutCid, e.key) in t && Field(InCid, e.key) in t && Field(Status, e.key) in t;
    ParseIntText(e.now.second);
    FoundIffRecent(t, e.key, later, ttl);
  }

  lemma NotStoredFails(t: Table, e: Event)
    requires e.Invite?
    ensures !Storable(e.key, e.legs) ==> !Stored(t, e.key, e.legs, e.now.second).1
  {
  }

  // --- CSeq numbers over runs ---

  // How many requests of the run went out within the dialog, ACKs apart.
  ghost function Requests(m: Table, es: seq<Event>, key: string, ttl: int): nat {
    if es == [] then 0
    else
      var before, e := es[..|es| - 1], es[|es| - 1];
      Requests(m, before, key, ttl)
      + if e.InDialog? && e.key == key && e.method_ in {"BYE", "INVITE"}
           && Touched(Run(m, before, ttl), key, e.now, ttl).1 then 1 else 0
  }

  lemma OneStepCseq(m: Table, e: Event, key: string, ttl: int)
    requires Coherent(m) && FreshCid(m, e) && (e.Invite? ==> e.key != key) && Live(Step(m, e, ttl), key)
    ensures var last := ParseInt(Lookup(m, Field(OutCseq, key)));
      var next := ParseInt(Lookup(Step(m, e, ttl), Field(OutCseq, key)));
      if Requests(m, [e], key, ttl) == 1 then last.Some? && last.value < MAX_CSEQ ==> next == Some(last.value + 1)
      else next == last
  {
    hide Coherent, Touched, IntText, ParseInt, Idle, SameSession, Changes;
    assert [e][..0] == [] && Requests(m, [], key, ttl) == 0 && Run(m, [], ttl) == m;
    StepAllowed(m, e, ttl);
    TouchEffect(m, key, if e.Drop? then Clock(0, 0) else e.now, ttl);
    if Requests(m, [e], key, ttl) == 1 {
      DialogCseqStep(m, key, e.method_, e.requestCseq, e.rewritten, e.now, ttl);
    } else {
      OutCseqKept(m, e, key, ttl);
    }
  }

  lemma OutCseqKept(m: Table, e: Event, key: string, ttl: int)
    requires Coherent(m) && Allowed(m, Step(m, e, ttl), e) && (e.Invite? ==> e.key != key)
    requires Live(Step(m, e, ttl), key)
    requires !(e.InDialog? && e.key == key && e.method_ in {"BYE", "INVITE"} && Touched(m, key, e.now, ttl).1)
    ensures Lookup(Step(m, e, ttl), Field(OutCseq, key)) == Lookup(m, Field(OutCseq, key))
  {
    hide Coherent, Touched, IntText, ParseInt;
    if key != KeyOf(m, e) {
      assert SameSession(m, Step(m, e, ttl), key);
    } else if e.InDialog? {
      TouchEffect(m, key, e.now, ttl);
    } else {
      assert OutCseq !in Changes(e);
    }
  }

  // Over any run in which the session stays, the n-th request within the dialog
  // goes out n above the INVITE's number, up to the largest CSeq.
  lemma {:induction false} CseqCountsUp(m: Table, es: seq<Event>, key: string, first: int, ttl: int)
    requires Coherent(m) && FreshRun(m, es, ttl) && NotInvited(es, key) && Live(Run(m, es, ttl), key)
    requires ParseInt(Lookup(m, Field(OutCseq, key))) == Some(first)
    requires first + Requests(m, es, key, ttl) <= MAX_CSEQ
    ensures ParseInt(Lookup(Run(m, es, ttl), Field(OutCseq, key))) == Some(first + Requests(m, es, key, ttl))
  {
    hide Coherent, Step, FreshCid, Touched, ParseInt;
    if es == [] {
    } else {
      var before, e := es[..|es| - 1], es[|es| - 1];
      var mid := Run(m, before, ttl);
      RunCoherent(m, before, ttl);
      StepAllowed(mid, e, ttl);
      OneStepIdentity(mid, Step(mid, e, ttl), e, key);
      CseqCountsUp(m, before, key, first, ttl);
      OneStepCseq(mid, e, key, ttl);
      assert [e][..0] == [] && Requests(mid, [], key, ttl) == 0 && Run(mid, [], ttl) == mid;
    }
  }
}
