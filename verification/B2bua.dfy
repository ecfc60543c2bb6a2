// The leg table of b2bua.mko: twenty-two parallel fields per session, an index
// from downstream Call-ID to session, and a ring of session keys, all in one cache.
module B2bua {
  import opened Text
  import opened RingCache

  const CAPACITY := 4096
  const MAX_INVITE := 32768
  const MAX_CSEQ := 2147483647

  datatype FieldName =
    | Status | Created | InCid | OutCid | InFrom | InTo | InVia | InTag | OutTag | RemoteTo | OutInvite
    | PendingInvite | Target | Transport | Peer | PeerTransport | InviteCseq | OutCseq | PeerCseq
    | PendingMethod | PendingInCseq | PendingOutCseq

  // The cache entries this module writes.
  datatype CacheKey = Sequence | Slot(slot: int) | OutKey(cid: string) | Field(name: FieldName, session: string)

  type Table = map<CacheKey, string>

  function Lookup(m: Table, key: CacheKey): string {
    if key in m then m[key] else ""
  }

  function Number(m: Table, key: CacheKey, otherwise: int): int {
    var parsed := ParseInt(Lookup(m, key));
    if parsed.Some? then parsed.value else otherwise
  }

  // --- Writing and removing one session ---

  datatype Legs = Legs(
    inCid: string, outCid: string, from: string, to: string, via: string, inTag: string, outTag: string,
    invite: string, target: string, transport: string, peer: string, peerTransport: string, inviteCseq: string)

  function InitialValue(name: FieldName, legs: Legs, now: int): string {
    match name
    case Status => "early"
    case Created => IntText(now)
    case InCid => legs.inCid
    case OutCid => legs.outCid
    case InFrom => legs.from
    case InTo => legs.to
    case InVia => legs.via
    case InTag => legs.inTag
    case OutTag => legs.outTag
    case RemoteTo => legs.to
    case OutInvite => legs.invite
    case PendingInvite => legs.invite
    case Target => legs.target
    case Transport => legs.transport
    case Peer => legs.peer
    case PeerTransport => legs.peerTransport
    case InviteCseq => legs.inviteCseq
    case OutCseq => legs.inviteCseq
    case PeerCseq => "1"
    case PendingMethod => "INVITE"
    case PendingInCseq => legs.inviteCseq
    case PendingOutCseq => legs.inviteCseq
  }

  predicate IsFieldOf(k: CacheKey, key: string) { k.Field? && k.session == key }

  ghost function FieldsOf(key: string): (fields: set<CacheKey>)
    ensures forall k :: k in fields <==> IsFieldOf(k, key)
  {
    set name: FieldName :: Field(name, key)
  }

  ghost function WithoutFields(m: Table, key: string): Table {
    map k | k in m && !IsFieldOf(k, key) :: m[k]
  }

  ghost function WithFields(m: Table, key: string, legs: Legs, now: int): Table {
    map k | k in m.Keys + FieldsOf(key) :: if IsFieldOf(k, key) then InitialValue(k.name, legs, now) else m[k]
  }

  ghost function Cleaned(m: Table, key: string): Table {
    if key == "" then m
    else
      var outCid := Lookup(m, Field(OutCid, key));
      WithoutFields(if outCid == "" then m else m - {OutKey(outCid)}, key)
  }

  ghost function Written(m: Table, key: string, legs: Legs, now: int): Table {
    WithFields(m[OutKey(legs.outCid) := key], key, legs, now)
  }

  // The fields in the groups they are written in.
  datatype Group = Identity | Caller | Callee | Routing | Numbers | Pending

  function NamesIn(group: Group): set<FieldName> {
    match group
    case Identity => {Status, Created, InCid, OutCid}
    case Caller => {InFrom, InTo, InVia, InTag}
    case Callee => {OutTag, RemoteTo, OutInvite, PendingInvite}
    case Routing => {Target, Transport, Peer, PeerTransport}
    case Numbers => {InviteCseq, OutCseq, PeerCseq}
    case Pending => {PendingMethod, PendingInCseq, PendingOutCseq}
  }

  function AllNames(): set<FieldName> {
    NamesIn(Identity) + NamesIn(Caller) + NamesIn(Callee) + NamesIn(Routing) + NamesIn(Numbers) + NamesIn(Pending)
  }

  lemma EveryName(name: FieldName)
    ensures name in AllNames()
  {
    match name
    case Status | Created | InCid | OutCid => assert name in NamesIn(Identity);
    case InFrom | InTo | InVia | InTag => assert name in NamesIn(Caller);
    case OutTag | RemoteTo | OutInvite | PendingInvite => assert name in NamesIn(Callee);
    case Target | Transport | Peer | PeerTransport => assert name in NamesIn(Routing);
    case InviteCseq | OutCseq | PeerCseq => assert name in NamesIn(Numbers);
    case PendingMethod | PendingInCseq | PendingOutCseq => assert name in NamesIn(Pending);
  }

  lemma IdentityValues(legs: Legs, now: int)
    ensures InitialValue(Status, legs, now) == "early"
    ensures InitialValue(Created, legs, now) == IntText(now)
    ensures InitialValue(InCid, legs, now) == legs.inCid
    ensures InitialValue(OutCid, legs, now) == legs.outCid
  {
  }

  lemma CallerValues(legs: Legs, now: int)
    ensures InitialValue(InFrom, legs, now) == legs.from
    ensures InitialValue(InTo, legs, now) == legs.to
    ensures InitialValue(InVia, legs, now) == legs.via
    ensures InitialValue(InTag, legs, now) == legs.inTag
  {
  }

  lemma CalleeValues(legs: Legs, now: int)
    ensures InitialValue(OutTag, legs, now) == legs.outTag
    ensures InitialValue(RemoteTo, legs, now) == legs.to
    ensures InitialValue(OutInvite, legs, now) == legs.invite
    ensures InitialValue(PendingInvite, legs, now) == legs.invite
  {
  }

  lemma RoutingValues(legs: Legs, now: int)
    ensures InitialValue(Target, legs, now) == legs.target
    ensures InitialValue(Transport, legs, now) == legs.transport
    ensures InitialValue(Peer, legs, now) == legs.peer
    ensures InitialValue(PeerTransport, legs, now) == legs.peerTransport
  {
  }

  lemma NumbersValues(legs: Legs, now: int)
    ensures InitialValue(InviteCseq, legs, now) == legs.inviteCseq
    ensures InitialValue(OutCseq, legs, now) == legs.inviteCseq
    ensures InitialValue(PeerCseq, legs, now) == "1"
  {
  }

  lemma PendingValues(legs: Legs, now: int)
    ensures InitialValue(PendingMethod, legs, now) == "INVITE"
    ensures InitialValue(PendingInCseq, legs, now) == legs.inviteCseq
    ensures InitialValue(PendingOutCseq, legs, now) == legs.inviteCseq
  {
  }

  predicate IsAmong(k: CacheKey, key: string, names: set<FieldName>) { IsFieldOf(k, key) && k.name in names }

  ghost predicate Dropped(m: Table, t: Table, key: string, names: set<FieldName>) {
    forall k :: (k in t <==> k in m && !IsAmong(k, key, names)) && (k in t ==> t[k] == m[k])
  }

  ghost predicate Filled(m: Table, t: Table, key: string, names: set<FieldName>, legs: Legs, now: int) {
    forall k ::
      && (k in t <==> k in m || IsAmong(k, key, names))
      && (k in t ==> t[k] == if IsAmong(k, key, names) then InitialValue(k.name, legs, now) else m[k])
  }

  lemma DropMore(m: Table, t: Table, u: Table, key: string, a: set<FieldName>, b: set<FieldName>)
    requires Dropped(m, t, key, a) && Dropped(t, u, key, b)
    ensures Dropped(m, u, key, a + b)
  {
  }

  lemma FillMore(m: Table, t: Table, u: Table, key: string, a: set<FieldName>, b: set<FieldName>, legs: Legs, now: int)
    requires Filled(m, t, key, a, legs, now) && Filled(t, u, key, b, legs, now)
    ensures Filled(m, u, key, a + b, legs, now)
  {
    hide InitialValue;
  }

  lemma AllDropped(m: Table, t: Table, key: string, names: set<FieldName>)
    requires Dropped(m, t, key, names) && names == AllNames()
    ensures t == WithoutFields(m, key)
  {
    hide AllNames;
    forall name: FieldName ensures name in names { EveryName(name); }
  }

  lemma AllFilled(m: Table, t: Table, key: string, names: set<FieldName>, legs: Legs, now: int)
    requires Filled(m, t, key, names, legs, now) && names == AllNames()
    ensures t == WithFields(m, key, legs, now)
  {
    hide InitialValue, AllNames;
    forall name: FieldName ensures name in names { EveryName(name); }
  }

  // --- Storing: the ring slot's old session makes room ---

  predicate Storable(key: string, legs: Legs) {
    key != "" && legs.inCid != "" && legs.outCid != "" && |legs.invite| <= MAX_INVITE
  }

  function NextCount(m: Table): int { Number(m, Sequence, 0) + 1 }

  ghost function Evicted(m: Table, key: string): Table {
    var count := NextCount(m);
    var counted := m[Sequence := IntText(count)];
    var slot := Slot(SlotOf(count, CAPACITY));
    var old_ := Lookup(counted, slot);
    (if old_ != "" && old_ != key then Cleaned(counted, old_) else counted)[slot := key]
  }

  ghost function Stored(m: Table, key: string, legs: Legs, now: int): (Table, bool) {
    if !Storable(key, legs) then (m, false)
    else if NextCount(m) < 0 then (m[Sequence := IntText(NextCount(m))], false)
    else (Written(Evicted(m, key), key, legs, now), true)
  }

  // --- Using a session: idle ones go, others are refreshed ---

  predicate Idle(m: Table, key: string, now: int, ttl: int) {
    Number(m, Field(Created, key), 0) <= 0 || now - Number(m, Field(Created, key), 0) > ttl
  }

  // One event reads the clock at most twice: to judge the idle time, and to stamp.
  datatype Clock = Clock(first: int, second: int)

  ghost function Touched(m: Table, key: string, now: Clock, ttl: int): (Table, bool) {
    if key == "" || Field(Status, key) !in m then (m, false)
    else if Idle(m, key, now.first, ttl) then (Cleaned(m, key), false)
    else (m[Field(Created, key) := IntText(now.second)], true)
  }

  ghost function LookedUpIn(m: Table, key: string, now: Clock, ttl: int): (Table, string) {
    var (t, active) := Touched(m, key, now, ttl);
    (t, if active then key else "")
  }

  ghost function LookedUpOut(m: Table, cid: string, now: Clock, ttl: int): (Table, string) {
    if cid == "" || OutKey(cid) !in m then (m, "")
    else LookedUpIn(m, m[OutKey(cid)], now, ttl)
  }

  // --- Requests and responses ---

  // A new INVITE. `key` is the digest of its Call-ID and From tag, `legs` what the
  // request and the fresh identifiers give, and `valid` whether its rewritten form
  // parses.
  ghost function Invited(m: Table, key: string, legs: Legs, valid: bool, now: Clock, ttl: int): (Table, bool) {
    if legs.target == "" || Contains(legs.target, ',') || key == "" || legs.inviteCseq == "" then (m, false)
    else
      var (t, active) := Touched(m, key, now, ttl);
      if active || !valid then (t, false) else Stored(t, key, legs, now.second)
  }

  function NextOutCseq(m: Table, key: string, requestCseq: string): string {
    var current := ParseInt(Lookup(m, Field(OutCseq, key)));
    if current.Some? && current.value < MAX_CSEQ then IntText(current.value + 1) else requestCseq
  }

  // An ACK, BYE or INVITE within the dialog; `rewritten` is its downstream form,
  // or "" when it cannot be built. The result is the CSeq number it goes out with.
  ghost function SentInDialog(m: Table, key: string, method_: string, requestCseq: string, rewritten: string, now: Clock, ttl: int)
    : (Table, Option<string>)
  {
    var (t, active) := Touched(m, key, now, ttl);
    if !active || method_ !in {"ACK", "BYE", "INVITE"} then (t, None)
    else if method_ == "ACK" then (t, Some(Lookup(t, Field(InviteCseq, key))))
    else
      var cseq := NextOutCseq(t, key, requestCseq);
      var u := t[Field(OutCseq, key) := cseq][Field(PendingMethod, key) := method_]
                [Field(PendingInCseq, key) := requestCseq][Field(PendingOutCseq, key) := cseq];
      (if method_ == "INVITE" && rewritten != "" then u[Field(PendingInvite, key) := rewritten] else u, Some(cseq))
  }

  // A response to an INVITE; `remoteTo` is the tagged address to remember, if the
  // response had a To tag.
  ghost function Translated(m: Table, key: string, toInvite: bool, remoteTo: Option<string>, code: int, now: Clock, ttl: int)
    : (Table, bool)
  {
    var (t, active) := Touched(m, key, now, ttl);
    if !active || !toInvite then (t, false)
    else
      var u := if remoteTo.Some? then t[Field(RemoteTo, key) := remoteTo.value] else t;
      if Lookup(u, Field(InVia, key)) == "" then (u, false)
      else (if 200 <= code < 300 then u[Field(Status, key) := "confirmed"] else u, true)
  }

  ghost function PeerNumbered(m: Table, key: string): (Table, int) {
    var current := Number(m, Field(PeerCseq, key), 1);
    var value := if current < 1 then 1 else current;
    (if value < MAX_CSEQ then m[Field(PeerCseq, key) := IntText(value + 1)] else m, value)
  }

  // A BYE from the downstream side, numbered for the caller-facing dialog.
  ghost function SentToPeer(m: Table, key: string, method_: string, now: Clock, ttl: int): (Table, Option<int>) {
    var (t, active) := Touched(m, key, now, ttl);
    if !active || method_ != "BYE" then (t, None)
    else
      var (u, value) := PeerNumbered(t, key);
      (u, Some(value))
  }

  // --- The worker's own table, updated in place ---

  class LegTable {
    var m: Table

    constructor ()
      ensures m == map[]
    {
      m := map[];
    }

    method Set(key: CacheKey, value: string)
      modifies this
      ensures m == old(m)[key := value]
    {
      m := m[key := value];
    }

    method Del(key: CacheKey)
      modifies this
      ensures m == old(m) - {key}
    {
      m := m - {key};
    }

    method DelIdentity(key: string)
      modifies this
      ensures Dropped(old(m), m, key, NamesIn(Identity))
    {
      Del(Field(Status, key));
      Del(Field(Created, key));
      Del(Field(InCid, key));
      Del(Field(OutCid, key));
    }

    method DelCaller(key: string)
      modifies this
      ensures Dropped(old(m), m, key, NamesIn(Caller))
    {
      Del(Field(InFrom, key));
      Del(Field(InTo, key));
      Del(Field(InVia, key));
      Del(Field(InTag, key));
    }

    method DelCallee(key: string)
      modifies this
      ensures Dropped(old(m), m, key, NamesIn(Callee))
    {
      Del(Field(OutTag, key));
      Del(Field(RemoteTo, key));
      Del(Field(OutInvite, key));
      Del(Field(PendingInvite, key));
    }

    method DelRouting(key: string)
      modifies this
      ensures Dropped(old(m), m, key, NamesIn(Routing))
    {
      Del(Field(Target, key));
      Del(Field(Transport, key));
      Del(Field(Peer, key));
      Del(Field(PeerTransport, key));
    }

    method DelNumbers(key: string)
      modifies this
      ensures Dropped(old(m), m, key, NamesIn(Numbers))
    {
      Del(Field(InviteCseq, key));
      Del(Field(OutCseq, key));
      Del(Field(PeerCseq, key));
    }

    method DelPending(key: string)
      modifies this
      ensures Dropped(old(m), m, key, NamesIn(Pending))
    {
      Del(Field(PendingMethod, key));
      Del(Field(PendingInCseq, key));
      Del(Field(PendingOutCseq, key));
    }

    method DelFields(key: string)
      modifies this
      ensures m == WithoutFields(old(m), key)
    {
      hide Dropped, NamesIn, WithoutFields;
      DelIdentity(key);
      ghost var names, before := NamesIn(Identity), m;
      DelCaller(key);
      DropMore(old(m), before, m, key, names, NamesIn(Caller));
      names, before := names + NamesIn(Caller), m;
      DelCallee(key);
      DropMore(old(m), before, m, key, names, NamesIn(Callee));
      names, before := names + NamesIn(Callee), m;
      DelRouting(key);
      DropMore(old(m), before, m, key, names, NamesIn(Routing));
      names, before := names + NamesIn(Routing), m;
      DelNumbers(key);
      DropMore(old(m), before, m, key, names, NamesIn(Numbers));
      names, before := names + NamesIn(Numbers), m;
      DelPending(key);
      DropMore(old(m), before, m, key, names, NamesIn(Pending));
      names, before := names + NamesIn(Pending), m;
      AllDropped(old(m), m, key, names);
    }

    method Cleanup(key: string)
      modifies this
      ensures m == Cleaned(old(m), key)
    {
      hide WithoutFields;
      if |key| == 0 {
        return;
      }
      var outCid := Lookup(m, Field(OutCid, key));
      if |outCid| > 0 {
        Del(OutKey(outCid));
      }
      DelFields(key);
    }

    method SetIdentity(key: string, legs: Legs, now: int)
      modifies this
      ensures Filled(old(m), m, key, NamesIn(Identity), legs, now)
    {
      hide IntText, InitialValue;
      IdentityValues(legs, now);
      Set(Field(Status, key), "early");
      Set(Field(Created, key), IntText(now));
      Set(Field(InCid, key), legs.inCid);
      Set(Field(OutCid, key), legs.outCid);
    }

    method SetCaller(key: string, legs: Legs, now: int)
      modifies this
      ensures Filled(old(m), m, key, NamesIn(Caller), legs, now)
    {
      hide IntText, InitialValue;
      CallerValues(legs, now);
      Set(Field(InFrom, key), legs.from);
      Set(Field(InTo, key), legs.to);
      Set(Field(InVia, key), legs.via);
      Set(Field(InTag, key), legs.inTag);
    }

    method SetCallee(key: string, legs: Legs, now: int)
      modifies this
      ensures Filled(old(m), m, key, NamesIn(Callee), legs, now)
    {
      hide IntText, InitialValue;
      CalleeValues(legs, now);
      Set(Field(OutTag, key), legs.outTag);
      Set(Field(RemoteTo, key), legs.to);
      Set(Field(OutInvite, key), legs.invite);
      Set(Field(PendingInvite, key), legs.invite);
    }

    method SetRouting(key: string, legs: Legs, now: int)
      modifies this
      ensures Filled(old(m), m, key, NamesIn(Routing), legs, now)
    {
      hide IntText, InitialValue;
      RoutingValues(legs, now);
      Set(Field(Target, key), legs.target);
      Set(Field(Transport, key), legs.transport);
      Set(Field(Peer, key), legs.peer);
      Set(Field(PeerTransport, key), legs.peerTransport);
    }

    method SetNumbers(key: string, legs: Legs, now: int)
      modifies this
      ensures Filled(old(m), m, key, NamesIn(Numbers), legs, now)
    {
      hide IntText, InitialValue;
      NumbersValues(legs, now);
      Set(Field(InviteCseq, key), legs.inviteCseq);
      Set(Field(OutCseq, key), legs.inviteCseq);
      Set(Field(PeerCseq, key), "1");
    }

    method SetPending(key: string, legs: Legs, now: int)
      modifies this
      ensures Filled(old(m), m, key, NamesIn(Pending), legs, now)
    {
      hide IntText, InitialValue;
      PendingValues(legs, now);
      Set(Field(PendingMethod, key), "INVITE");
      Set(Field(PendingInCseq, key), legs.inviteCseq);
      Set(Field(PendingOutCseq, key), legs.inviteCseq);
    }

    method SetFields(key: string, legs: Legs, now: int)
      modifies this
      ensures m == WithFields(old(m), key, legs, now)
    {
      hide Filled, NamesIn, WithFields;
      SetIdentity(key, legs, now);
      ghost var names, before := NamesIn(Identity), m;
      SetCaller(key, legs, now);
      FillMore(old(m), before, m, key, names, NamesIn(Caller), legs, now);
      names, before := names + NamesIn(Caller), m;
      SetCallee(key, legs, now);
      FillMore(old(m), before, m, key, names, NamesIn(Callee), legs, now);
      names, before := names + NamesIn(Callee), m;
      SetRouting(key, legs, now);
      FillMore(old(m), before, m, key, names, NamesIn(Routing), legs, now);
      names, before := names + NamesIn(Routing), m;
      SetNumbers(key, legs, now);
      FillMore(old(m), before, m, key, names, NamesIn(Numbers), legs, now);
      names, before := names + NamesIn(Numbers), m;
      SetPending(key, legs, now);
      FillMore(old(m), before, m, key, names, NamesIn(Pending), legs, now);
      names, before := names + NamesIn(Pending), m;
      AllFilled(old(m), m, key, names, legs, now);
    }

    method Store(key: string, legs: Legs, now: int) returns (ok: bool)
      modifies this
      ensures (m, ok) == Stored(old(m), key, legs, now)
    {
      hide WithFields, IntText, ParseInt, Cleaned;
      if |key| == 0 || |legs.inCid| == 0 || |legs.outCid| == 0 || |legs.invite| > MAX_INVITE {
        return false;
      }
      var count := NextCount(m);
      Set(Sequence, IntText(count));
      if count < 0 {
        return false;
      }
      var slot := Slot(count - TruncDiv(count, CAPACITY) * CAPACITY);
      if slot in m {
        var old_ := m[slot];
        if |old_| > 0 && old_ != key {
          Cleanup(old_);
        }
      }
      Set(slot, key);
      Set(OutKey(legs.outCid), key);
      SetFields(key, legs, now);
      return true;
    }

    method Active(key: string, now: Clock, ttl: int) returns (active: bool)
      modifies this
      ensures (m, active) == Touched(old(m), key, now, ttl)
    {
      hide IntText, ParseInt, Cleaned;
      if |key| == 0 || Field(Status, key) !in m {
        return false;
      }
      var created := Number(m, Field(Created, key), 0);
      if created <= 0 || now.first - created > ttl {
        Cleanup(key);
        return false;
      }
      Set(Field(Created, key), IntText(now.second));
      return true;
    }

    method LookupIn(key: string, now: Clock, ttl: int) returns (found: string)
      modifies this
      ensures (m, found) == LookedUpIn(old(m), key, now, ttl)
    {
      var active := Active(key, now, ttl);
      return if active then key else "";
    }

    method LookupOut(cid: string, now: Clock, ttl: int) returns (found: string)
      modifies this
      ensures (m, found) == LookedUpOut(old(m), cid, now, ttl)
    {
      if |cid| == 0 || OutKey(cid) !in m {
        return "";
      }
      var key := m[OutKey(cid)];
      found := LookupIn(key, now, ttl);
    }

    method PrepareInvite(key: string, legs: Legs, valid: bool, now: Clock, ttl: int) returns (ok: bool)
      modifies this
      ensures (m, ok) == Invited(old(m), key, legs, valid, now, ttl)
    {
      hide Touched, Stored;
      var at := FindChar(legs.target, ',', 0);
      assert Contains(legs.target, ',') <==> at < |legs.target|;
      if |legs.target| == 0 || at < |legs.target| || |key| == 0 || |legs.inviteCseq| == 0 {
        return false;
      }
      var active := Active(key, now, ttl);
      if active || !valid {
        return false;
      }
      ok := Store(key, legs, now.second);
    }

    method PrepareInDialog(key: string, method_: string, requestCseq: string, rewritten: string, now: Clock, ttl: int)
      returns (cseq: Option<string>)
      modifies this
      ensures (m, cseq) == SentInDialog(old(m), key, method_, requestCseq, rewritten, now, ttl)
    {
      hide Touched, IntText, ParseInt;
      var active := Active(key, now, ttl);
      if !active {
        return None;
      }
      if method_ != "ACK" && method_ != "BYE" && method_ != "INVITE" {
        return None;
      }
      if method_ == "ACK" {
        return Some(Lookup(m, Field(InviteCseq, key)));
      }
      var outCseq := requestCseq;
      var current := ParseInt(Lookup(m, Field(OutCseq, key)));
      if current.Some? && current.value < MAX_CSEQ {
        outCseq := IntText(current.value + 1);
      }
      Set(Field(OutCseq, key), outCseq);
      Set(Field(PendingMethod, key), method_);
      Set(Field(PendingInCseq, key), requestCseq);
      Set(Field(PendingOutCseq, key), outCseq);
      if method_ == "INVITE" && |rewritten| > 0 {
        Set(Field(PendingInvite, key), rewritten);
      }
      return Some(outCseq);
    }

    method TranslateResponse(key: string, toInvite: bool, remoteTo: Option<string>, code: int, now: Clock, ttl: int)
      returns (ok: bool)
      modifies this
      ensures (m, ok) == Translated(old(m), key, toInvite, remoteTo, code, now, ttl)
    {
      hide Touched;
      var active := Active(key, now, ttl);
      if !active || !toInvite {
        return false;
      }
      if remoteTo.Some? {
        Set(Field(RemoteTo, key), remoteTo.value);
      }
      var via := Lookup(m, Field(InVia, key));
      if |via| == 0 {
        return false;
      }
      if code >= 200 && code < 300 {
        Set(Field(Status, key), "confirmed");
      }
      return true;
    }

    method NextPeerCseq(key: string) returns (value: int)
      modifies this
      ensures (m, value) == PeerNumbered(old(m), key)
    {
      hide IntText, ParseInt;
      value := Number(m, Field(PeerCseq, key), 1);
      if value < 1 {
        value := 1;
      }
      if value < MAX_CSEQ {
        Set(Field(PeerCseq, key), IntText(value + 1));
      }
    }

    method RequestToPeer(key: string, method_: string, now: Clock, ttl: int) returns (cseq: Option<int>)
      modifies this
      ensures (m, cseq) == SentToPeer(old(m), key, method_, now, ttl)
    {
      hide Touched, PeerNumbered;
      var active := Active(key, now, ttl);
      if !active || method_ != "BYE" {
        return None;
      }
      var value := NextPeerCseq(key);
      return Some(value);
    }
  }
}
