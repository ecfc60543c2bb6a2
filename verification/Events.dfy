// Event subscriptions of event_package.mko: packed entries in the worker's cache,
// a ring of subscription keys, and the scans over its slots that notify, flush
// first notifications and sweep expired subscriptions.
module Events {
  import opened RingCache
  import opened Text

  const SUBSCRIPTION := "evt_sub|"
  const PENDING := "evt_pending_notify|"
  const VERSION := "dialog_info_ver|"
  const SWEEP_LIMIT := 256

  const SUBSCRIPTIONS := Ring("evt_sub_seq", "evt_sub_ring|", 16384)
  const MARKS := Ring("evt_pending_seq", "evt_pending_ring|", 4096)

  // --- Packed subscriptions ---

  datatype Sub = Sub(
    fromUri: string, resource: string, event: string, expiresAt: int,
    fromTag: string, toTag: string, callId: string, cseq: int, contact: string)

  function Pack(s: Sub): string {
    Join([s.fromUri, s.resource, s.event, IntText(s.expiresAt), s.fromTag, s.toTag, s.callId, IntText(s.cseq), s.contact], "\n")
  }

  function FieldAt(packed: string, i: nat): string {
    var parts := Split(packed, '\n');
    if i < |parts| then parts[i] else ""
  }

  function IntOr(s: string, otherwise: int): int {
    var parsed := ParseInt(s);
    if parsed.Some? then parsed.value else otherwise
  }

  function Read(packed: string): Sub {
    Sub(FieldAt(packed, 0), FieldAt(packed, 1), FieldAt(packed, 2), IntOr(FieldAt(packed, 3), 0), FieldAt(packed, 4),
        FieldAt(packed, 5), FieldAt(packed, 6), IntOr(FieldAt(packed, 7), 1), FieldAt(packed, 8))
  }

  // --- One notification ---

  datatype Notice = Notice(key: string, callId: string, cseq: int, contact: string, remaining: Option<int>)

  // Seconds left, truncated and never negative.
  function Remaining(expiresAt: int, now: int): int {
    var seconds := TruncDiv(expiresAt - now, 1000);
    if seconds > 0 then seconds else 0
  }

  // Building the body of a dialog event counts up the resource's version.
  function BodyBuilt(m: Cache, s: Sub): Cache {
    if s.event == "dialog" then m[VERSION + s.resource := IntText(IntOr(Get(m, VERSION + s.resource), 0) + 1)] else m
  }

  function Renewed(s: Sub): Sub { s.(cseq := s.cseq + 1) }

  function SendNotify(m: Cache, r: Ring, key: string, terminated: bool, now: int): (Cache, seq<Notice>)
    requires r.capacity > 0
  {
    var packed := Get(m, SUBSCRIPTION + key);
    if packed == "" then (m, [])
    else
      var s := Read(packed);
      var built := BodyBuilt(m, s);
      var notice := Notice(key, s.callId, s.cseq + 1, s.contact, if terminated then None else Some(Remaining(s.expiresAt, now)));
      (if terminated then built - {SUBSCRIPTION + key}
       else BoundedStateSet(Shared(built), r, SUBSCRIPTION + key, Pack(Renewed(s))).m,
       [notice])
  }

  // --- Subscribing ---

  function Clamped(expires: int, most: int): int {
    var capped := if expires > most then most else expires;
    if capped < 60 then 60 else capped
  }

  // `s` is what the request asks for; its expiry and the pending mark are set here.
  function Subscribed(m: Cache, subs: Ring, marks: Ring, key: string, s: Sub, expires: int, most: int, now: int)
    : (Cache, seq<Notice>)
    requires subs.capacity > 0 && marks.capacity > 0
  {
    if expires == 0 then SendNotify(m, subs, key, true, now)
    else
      var stored := BoundedStateSet(Shared(m), subs, SUBSCRIPTION + key,
                                    Pack(s.(expiresAt := now + Clamped(expires, most) * 1000)));
      (BoundedStateSet(stored, marks, PENDING + key, "1").m, [])
  }

  // --- The SUBSCRIBE request ---

  // Three environment texts: whether events are on, the comma list of packages, and
  // the longest subscription in seconds.
  datatype Setup = Setup(enabled: string, packages: string, longest: string)

  // The header values and address parts the request is read by.
  datatype Request = Request(
    event: string, callId: string, fromUser: string, fromTag: string, toTag: string,
    expires: string, contact: string, uri: string, cseq: string)

  datatype Response = Unhandled | BadEvent(toTag: string) | Accepted(expires: int, toTag: string)

  // What the handler takes from outside: a hash as text, and random text.
  datatype Entropy = Entropy(hash: string -> string, random: string)

  predicate Enabled(setup: Setup) { Lower(Trim(setup.enabled)) == "1" || Lower(Trim(setup.enabled)) == "true" }

  function LongestExpiry(setup: Setup): int {
    var v := IntOr(setup.longest, 3600);
    if v < 60 then 60 else if v > 86400 then 86400 else v
  }

  function EventName(request: Request): string {
    var header := Trim(request.event);
    Lower(Trim(header[..FindChar(header, ';', 0)]))
  }

  predicate IsListed(parts: seq<string>, name: string) {
    exists i :: 0 <= i < |parts| && Trim(parts[i]) == name
  }

  predicate Supported(setup: Setup, request: Request) {
    && Trim(request.event) != ""
    && IsListed(Split(Lower(Trim(setup.packages)), ','), Lower(Trim(EventName(request))))
  }

  function ExpiresOf(request: Request): int {
    if Trim(request.expires) == "" then 3600 else IntOr(Trim(request.expires), 3600)
  }

  function ContactOf(request: Request): string {
    var header := Trim(request.contact);
    var open, close := FindChar(header, '<', 0), FindChar(header, '>', 0);
    var uri := if open < close < |header| then header[open + 1..close] else header;
    if uri == "" then request.fromUser else uri
  }

  function CseqOf(request: Request): int {
    var header := Trim(request.cseq);
    var blank := FindChar(header, ' ', 0);
    if 0 < blank < |header| then IntOr(header[..blank], 1) else 1
  }

  function Beginning(s: string, n: nat): string { if |s| <= n then s else s[..n] }

  function SubKey(request: Request, entropy: Entropy): string {
    Beginning(entropy.hash("madis.evt|" + request.callId + "|" + request.fromTag), 32)
  }

  function RefusalTag(request: Request, entropy: Entropy): string {
    "evt-" + Beginning(entropy.hash("madis.489|" + request.callId), 16)
  }

  // The dialog's tag: the one it has, the one stored for it, or a new one.
  function TagOf(m: Cache, request: Request, entropy: Entropy): string {
    if request.toTag != "" then request.toTag
    else if ExpiresOf(request) == 0 then
      var stored := Get(m, SUBSCRIPTION + SubKey(request, entropy));
      if stored != "" && FieldAt(stored, 5) != "" then FieldAt(stored, 5)
      else "evt-" + Beginning(entropy.hash("madis.evt.tag|" + request.callId), 16)
    else
      "evt-" + Beginning(entropy.hash("madis.evt.tag|" + request.callId + "|" + request.fromTag + "|" + entropy.random), 24)
  }

  // The subscription a request asks for, apart from its expiry.
  function Asked(request: Request, toTag: string): Sub {
    Sub(request.fromUser, request.uri, EventName(request), 0, request.fromTag, toTag, request.callId,
        CseqOf(request), ContactOf(request))
  }

  function Handled(m: Cache, subs: Ring, marks: Ring, setup: Setup, request: Request, entropy: Entropy, now: int)
    : (Cache, seq<Notice>, Response)
    requires subs.capacity > 0 && marks.capacity > 0
  {
    if !Enabled(setup) then (m, [], Unhandled)
    else if !Supported(setup, request) then (m, [], BadEvent(RefusalTag(request, entropy)))
    else
      var tag, expires := TagOf(m, request, entropy), ExpiresOf(request);
      var (t, sent) := Subscribed(m, subs, marks, SubKey(request, entropy), Asked(request, tag), expires,
                                  LongestExpiry(setup), now);
      (t, sent, Accepted(if expires == 0 then 0 else Clamped(expires, LongestExpiry(setup)), tag))
  }

  // --- The ring scans, slot by slot ---

  // The data key a slot names, if the entry is still there.
  function SlotEntry(m: Cache, r: Ring, i: nat): Option<string> {
    var dataKey := Get(m, r.SlotKey(i));
    if dataKey != "" && dataKey in m then Some(dataKey) else None
  }

  function KeyPart(dataKey: string): string {
    if |dataKey| >= |SUBSCRIPTION| then dataKey[|SUBSCRIPTION|..] else ""
  }

  predicate Matches(s: Sub, event: string, resource: string, now: int) {
    s.event == event && s.resource == resource && s.expiresAt > now
  }

  // What a scan did so far: the cache it leaves, what it sent and how many entries it hit.
  datatype Pass = Pass(m: Cache, sent: seq<Notice>, hits: nat) {
    function Then(later: Pass): Pass { Pass(later.m, sent + later.sent, hits + later.hits) }
  }

  function Hit(m: Cache, r: Ring, dataKey: string, terminated: bool, now: int): Pass
    requires r.capacity > 0
  {
    var (t, sent) := SendNotify(m, r, KeyPart(dataKey), terminated, now);
    Pass(t, sent, 1)
  }

  function NotifySlot(m: Cache, r: Ring, i: nat, event: string, resource: string, now: int): Pass
    requires r.capacity > 0
  {
    var entry := SlotEntry(m, r, i);
    if entry.Some? && Matches(Read(m[entry.value]), event, resource, now) then Hit(m, r, entry.value, false, now)
    else Pass(m, [], 0)
  }

  function NotifyScan(m: Cache, r: Ring, i: nat, n: nat, event: string, resource: string, now: int): Pass
    requires r.capacity > 0
    decreases n - i
  {
    if i >= n then Pass(m, [], 0)
    else
      var here := NotifySlot(m, r, i, event, resource, now);
      here.Then(NotifyScan(here.m, r, i + 1, n, event, resource, now))
  }

  function FlushSlot(m: Cache, r: Ring, i: nat, now: int): Pass
    requires r.capacity > 0
  {
    var entry := SlotEntry(m, r, i);
    if entry.Some? && PENDING + KeyPart(entry.value) in m then
      Hit(m - {PENDING + KeyPart(entry.value)}, r, entry.value, false, now)
    else Pass(m, [], 0)
  }

  function FlushScan(m: Cache, r: Ring, i: nat, n: nat, now: int): Pass
    requires r.capacity > 0
    decreases n - i
  {
    if i >= n then Pass(m, [], 0)
    else
      var here := FlushSlot(m, r, i, now);
      here.Then(FlushScan(here.m, r, i + 1, n, now))
  }

  predicate Expired(s: Sub, now: int) { 0 < s.expiresAt <= now }

  function SweepSlot(m: Cache, r: Ring, i: nat, now: int): Pass
    requires r.capacity > 0
  {
    var entry := SlotEntry(m, r, i);
    if entry.Some? && Expired(Read(m[entry.value]), now) then Hit(m, r, entry.value, true, now)
    else Pass(m, [], 0)
  }

  // A pass stops after `room` removals.
  function SweepScan(m: Cache, r: Ring, i: nat, n: nat, now: int, room: int): Pass
    requires r.capacity > 0
    decreases n - i
  {
    if i >= n || room <= 0 then Pass(m, [], 0)
    else
      var here := SweepSlot(m, r, i, now);
      here.Then(SweepScan(here.m, r, i + 1, n, now, room - here.hits))
  }

  // --- In place, on the worker's cache ---

  method SendNotifyInPlace(cache: CMap, r: Ring, key: string, terminated: bool, now: int) returns (sent: seq<Notice>)
    requires r.capacity > 0
    modifies cache
    ensures (cache.m, sent) == SendNotify(old(cache.m), r, key, terminated, now)
  {
    hide BoundedStateSet, Read, Pack, IntText, ParseInt;
    var packed := Get(cache.m, SUBSCRIPTION + key);
    if |packed| == 0 {
      return [];
    }
    var s := Read(packed);
    if s.event == "dialog" {
      var version := IntOr(Get(cache.m, VERSION + s.resource), 0);
      cache.Set(VERSION + s.resource, IntText(version + 1));
    }
    sent := [Notice(key, s.callId, s.cseq + 1, s.contact, if terminated then None else Some(Remaining(s.expiresAt, now)))];
    if terminated {
      cache.Del(SUBSCRIPTION + key);
    } else {
      BoundedStateSetInPlace(cache, cache, r, SUBSCRIPTION + key, Pack(Renewed(s)));
    }
  }

  method EventPackageSupported(list: string, name: string) returns (listed: bool)
    ensures listed == IsListed(Split(list, ','), Lower(Trim(name)))
  {
    var parts := Split(list, ',');
    var p := Lower(Trim(name));
    for i := 0 to |parts|
      invariant !IsListed(parts[..i], p)
    {
      if Trim(parts[i]) == p {
        return true;
      }
      assert parts[..i + 1] == parts[..i] + [parts[i]];
    }
    assert parts[..|parts|] == parts;
    return false;
  }

  method HandleSubscribe(cache: CMap, subs: Ring, marks: Ring, setup: Setup, request: Request, entropy: Entropy, now: int)
    returns (sent: seq<Notice>, response: Response)
    requires subs.capacity > 0 && marks.capacity > 0
    modifies cache
    ensures (cache.m, sent, response) == Handled(old(cache.m), subs, marks, setup, request, entropy, now)
  {
    hide BoundedStateSet, Read, Pack, Split, Trim, Lower, FindChar, ParseInt, IntText, SendNotify, IsListed;
    if !Enabled(setup) {
      return [], Unhandled;
    }
    if |Trim(request.event)| == 0 {
      return [], BadEvent(RefusalTag(request, entropy));
    }
    var supported := EventPackageSupported(Lower(Trim(setup.packages)), EventName(request));
    if !supported {
      return [], BadEvent(RefusalTag(request, entropy));
    }
    var key, expires := SubKey(request, entropy), ExpiresOf(request);
    if expires == 0 {
      var tag := request.toTag;
      if |tag| == 0 {
        var existing := Get(cache.m, SUBSCRIPTION + key);
        if |existing| > 0 {
          tag := FieldAt(existing, 5);
        }
      }
      if |tag| == 0 {
        tag := "evt-" + Beginning(entropy.hash("madis.evt.tag|" + request.callId), 16);
      }
      sent := SendNotifyInPlace(cache, subs, key, true, now);
      response := Accepted(0, tag);
      return;
    }
    if expires > LongestExpiry(setup) {
      expires := LongestExpiry(setup);
    }
    if expires < 60 {
      expires := 60;
    }
    var tag := request.toTag;
    if |tag| == 0 {
      tag := "evt-" + Beginning(
        entropy.hash("madis.evt.tag|" + request.callId + "|" + request.fromTag + "|" + entropy.random), 24);
    }
    var s := Asked(request, tag).(expiresAt := now + expires * 1000);
    BoundedStateSetInPlace(cache, cache, subs, SUBSCRIPTION + key, Pack(s));
    BoundedStateSetInPlace(cache, cache, marks, PENDING + key, "1");
    return [], Accepted(expires, tag);
  }

  lemma ThenAssociates(a: Pass, b: Pass, c: Pass)
    ensures a.Then(b).Then(c) == a.Then(b.Then(c))
  {
    assert a.sent + b.sent + c.sent == a.sent + (b.sent + c.sent);
  }

  lemma ThenUnit(a: Pass)
    ensures Pass(a.m, [], 0).Then(a) == a
    ensures a.Then(Pass(a.m, [], 0)) == a
  {
  }

  method Notify(cache: CMap, r: Ring, event: string, resource: string, now: int) returns (notified: nat, sent: seq<Notice>)
    requires r.capacity > 0
    modifies cache
    ensures Pass(cache.m, sent, notified) == NotifyScan(old(cache.m), r, 0, r.capacity, event, resource, now)
  {
    hide SendNotify, Read;
    notified, sent := 0, [];
    var i := 0;
    ThenUnit(NotifyScan(cache.m, r, 0, r.capacity, event, resource, now));
    while i < r.capacity
      invariant 0 <= i <= r.capacity
      invariant Pass(cache.m, sent, notified).Then(NotifyScan(cache.m, r, i, r.capacity, event, resource, now))
             == NotifyScan(old(cache.m), r, 0, r.capacity, event, resource, now)
    {
      ghost var before, here := Pass(cache.m, sent, notified), NotifySlot(cache.m, r, i, event, resource, now);
      ThenAssociates(before, here, NotifyScan(here.m, r, i + 1, r.capacity, event, resource, now));
      var dataKey := Get(cache.m, r.SlotKey(i));
      if |dataKey| > 0 && dataKey in cache.m {
        var s := Read(cache.m[dataKey]);
        if s.event == event && s.resource == resource && s.expiresAt > now {
          var one := SendNotifyInPlace(cache, r, KeyPart(dataKey), false, now);
          sent := sent + one;
          notified := notified + 1;
        }
      }
      i := i + 1;
      assert Pass(cache.m, sent, notified) == before.Then(here);
    }
  }

  method FlushPending(cache: CMap, r: Ring, now: int) returns (flushed: nat, sent: seq<Notice>)
    requires r.capacity > 0
    modifies cache
    ensures Pass(cache.m, sent, flushed) == FlushScan(old(cache.m), r, 0, r.capacity, now)
  {
    hide SendNotify;
    flushed, sent := 0, [];
    var i := 0;
    ThenUnit(FlushScan(cache.m, r, 0, r.capacity, now));
    while i < r.capacity
      invariant 0 <= i <= r.capacity
      invariant Pass(cache.m, sent, flushed).Then(FlushScan(cache.m, r, i, r.capacity, now))
             == FlushScan(old(cache.m), r, 0, r.capacity, now)
    {
      ghost var before, here := Pass(cache.m, sent, flushed), FlushSlot(cache.m, r, i, now);
      ThenAssociates(before, here, FlushScan(here.m, r, i + 1, r.capacity, now));
      var dataKey := Get(cache.m, r.SlotKey(i));
      if |dataKey| > 0 && dataKey in cache.m {
        var key := KeyPart(dataKey);
        if PENDING + key in cache.m {
          cache.Del(PENDING + key);
          var one := SendNotifyInPlace(cache, r, key, false, now);
          sent := sent + one;
          flushed := flushed + 1;
        }
      }
      i := i + 1;
      assert Pass(cache.m, sent, flushed) == before.Then(here);
    }
  }

  method Sweep(cache: CMap, r: Ring, now: int) returns (cleaned: nat, sent: seq<Notice>)
    requires r.capacity > 0
    modifies cache
    ensures Pass(cache.m, sent, cleaned) == SweepScan(old(cache.m), r, 0, r.capacity, now, SWEEP_LIMIT)
  {
    hide SendNotify, Read, SweepScan;
    cleaned, sent := 0, [];
    var i := 0;
    ThenUnit(SweepScan(cache.m, r, 0, r.capacity, now, SWEEP_LIMIT));
    while i < r.capacity
      invariant 0 <= i <= r.capacity && cleaned < SWEEP_LIMIT
      invariant Pass(cache.m, sent, cleaned).Then(SweepScan(cache.m, r, i, r.capacity, now, SWEEP_LIMIT - cleaned))
             == SweepScan(old(cache.m), r, 0, r.capacity, now, SWEEP_LIMIT)
    {
      ghost var before, here := Pass(cache.m, sent, cleaned), SweepSlot(cache.m, r, i, now);
      ghost var room := SWEEP_LIMIT - cleaned - here.hits;
      SweepStep(cache.m, r, i, r.capacity, now, SWEEP_LIMIT - cleaned);
      ThenAssociates(before, here, SweepScan(here.m, r, i + 1, r.capacity, now, room));
      var dataKey := Get(cache.m, r.SlotKey(i));
      if |dataKey| > 0 && dataKey in cache.m {
        var s := Read(cache.m[dataKey]);
        if 0 < s.expiresAt && s.expiresAt <= now {
          var one := SendNotifyInPlace(cache, r, KeyPart(dataKey), true, now);
          sent := sent + one;
          cleaned := cleaned + 1;
        }
      }
      i := i + 1;
      assert Pass(cache.m, sent, cleaned) == before.Then(here);
      if cleaned >= SWEEP_LIMIT {
        break;
      }
    }
    SweepEnd(cache.m, r, i, r.capacity, now, SWEEP_LIMIT - cleaned);
    ThenUnit(Pass(cache.m, sent, cleaned));
  }

  lemma SweepStep(m: Cache, r: Ring, i: nat, n: nat, now: int, room: int)
    requires r.capacity > 0 && i < n && room > 0
    ensures var here := SweepSlot(m, r, i, now);
      SweepScan(m, r, i, n, now, room) == here.Then(SweepScan(here.m, r, i + 1, n, now, room - here.hits))
  {
    hide SweepSlot;
  }

  lemma SweepEnd(m: Cache, r: Ring, i: nat, n: nat, now: int, room: int)
    requires r.capacity > 0 && (i >= n || room <= 0)
    ensures SweepScan(m, r, i, n, now, room) == Pass(m, [], 0)
  {
  }
}
