// What subscriptions hold and what notices say: a SUBSCRIBE stores what it asks for,
// notices carry the stored values, and until its expiry a subscription is notified of
// exactly its own event and resource.
module EventContents {
  import opened EventLaws
  import opened EventRuns
  import opened Events
  import opened RingCache
  import opened Text

  // --- Reading the request ---

  // The event is named by what stands before the first semicolon, blanks and letter
  // case apart.
  lemma EventIsNamed(request: Request, name: string, parameters: string)
    requires !Contains(name, ';')
    requires Trim(request.event) == name || Trim(request.event) == name + ";" + parameters
    ensures EventName(request) == Lower(Trim(name))
  {
    hide Trim, Lower;
    var header := Trim(request.event);
    FindCharIs(header, ';', 0, |name|);
    assert header[..|name|] == name;
  }

  // The contact is what stands between the first angle brackets, or all of it; the
  // user's own address where that is empty.
  lemma ContactIsNamed(request: Request, before: string, uri: string, after: string)
    requires Trim(request.contact) == before + "<" + uri + ">" + after
    requires !Contains(before, '<') && !Contains(before, '>') && !Contains(uri, '>')
    ensures ContactOf(request) == if uri == "" then request.fromUser else uri
  {
    hide Trim;
    var header := Trim(request.contact);
    assert header[|before|] == '<' && header[|before| + 1 + |uri|] == '>';
    FindCharIs(header, '<', 0, |before|);
    FindCharIs(header, '>', 0, |before| + 1 + |uri|);
    assert header[|before| + 1..|before| + 1 + |uri|] == uri;
  }

  lemma BareContact(request: Request)
    requires !Contains(Trim(request.contact), '<')
    ensures ContactOf(request) == if Trim(request.contact) == "" then request.fromUser else Trim(request.contact)
  {
    hide Trim;
    FindCharIs(Trim(request.contact), '<', 0, |Trim(request.contact)|);
  }

  // The number before the first blank.
  lemma CseqIsNumber(request: Request, n: int, method_: string)
    requires Trim(request.cseq) == IntText(n) + " " + method_
    ensures CseqOf(request) == n
  {
    hide Trim;
    var header := Trim(request.cseq);
    NumberHasNoBlank(n);
    hide IntText, ParseInt;
    FindCharIs(header, ' ', 0, |IntText(n)|);
    assert header[..|IntText(n)|] == IntText(n);
    ParseIntText(n);
  }

  lemma NumberHasNoBlank(n: int)
    ensures IntText(n) != "" && !Contains(IntText(n), ' ')
  {
    DecShape(if n < 0 then -n else n);
  }

  // The seconds asked for; an hour when none are named.
  lemma ExpiryAsked(request: Request, n: int)
    ensures Trim(request.expires) == "" ==> ExpiresOf(request) == 3600
    ensures Trim(request.expires) == IntText(n) ==> ExpiresOf(request) == n
    ensures Trim(request.expires) != "" && ParseInt(Trim(request.expires)).None? ==> ExpiresOf(request) == 3600
  {
    NumberHasNoBlank(n);
    hide Trim, IntText, ParseInt;
    ParseIntText(n);
  }

  // A package is supported if and only if the comma list of the environment names it.
  lemma SupportedIff(setup: Setup, request: Request, packages: seq<string>)
    requires packages != [] && forall i :: 0 <= i < |packages| ==> !Contains(packages[i], ',')
    requires Lower(Trim(setup.packages)) == Join(packages, ",")
    ensures Supported(setup, request)
      <==> Trim(request.event) != ""
           && exists i :: 0 <= i < |packages| && Trim(packages[i]) == Lower(Trim(EventName(request)))
  {
    hide Trim, Lower, EventName, Contains, Join, Split;
    SplitOfJoin(packages, ',');
  }

  // --- What is stored ---

  // The subscription the request asks for, field by field.
  predicate StoredAs(s: Sub, request: Request, toTag: string, expiresAt: int) {
    && s.fromUri == request.fromUser && s.resource == request.uri && s.event == EventName(request)
    && s.expiresAt == expiresAt && s.fromTag == request.fromTag && s.toTag == toTag
    && s.callId == request.callId && s.cseq == CseqOf(request) && s.contact == ContactOf(request)
  }

  // The seconds granted: those asked for, within a minute and the longest allowed.
  predicate Granted(asked: int, longest: int, granted: int) {
    && (60 <= asked <= longest ==> granted == asked)
    && (asked < 60 ==> granted == 60) && (asked > longest ==> granted == longest)
  }

  lemma LongestIs(setup: Setup)
    ensures 60 <= LongestExpiry(setup) <= 86400
    ensures ParseInt(setup.longest).None? ==> LongestExpiry(setup) == 3600
    ensures ParseInt(setup.longest).Some? && 60 <= ParseInt(setup.longest).value <= 86400 ==>
      LongestExpiry(setup) == ParseInt(setup.longest).value
    ensures ParseInt(setup.longest).Some? && ParseInt(setup.longest).value < 60 ==> LongestExpiry(setup) == 60
    ensures ParseInt(setup.longest).Some? && ParseInt(setup.longest).value > 86400 ==> LongestExpiry(setup) == 86400
  {
    hide ParseInt;
  }

  // The values of the request hold no line ends.
  predicate CleanRequest(request: Request, toTag: string) {
    && !Contains(request.fromUser, '\n') && !Contains(request.uri, '\n') && !Contains(EventName(request), '\n')
    && !Contains(request.fromTag, '\n') && !Contains(toTag, '\n') && !Contains(request.callId, '\n')
    && !Contains(ContactOf(request), '\n')
  }

  lemma AcceptedStores(subs: Ring, marks: Ring, es: seq<Event>, setup: Setup, request: Request, entropy: Entropy, now: int)
    requires IsSubscriptionRing(subs) && IsMarkRing(marks)
    requires var r := Handled(Run(map[], subs, marks, es), subs, marks, setup, request, entropy, now).2;
      r.Accepted? && r.expires != 0 && CleanRequest(request, r.toTag)
    ensures var m := Run(map[], subs, marks, es);
      var (t, sent, r) := Handled(m, subs, marks, setup, request, entropy, now);
      var key := SubKey(request, entropy);
      && DataKey(key) in t && MarkKey(key) in t && sent == []
      && StoredAs(SubAt(t, key), request, r.toTag, now + r.expires * 1000)
      && Granted(ExpiresOf(request), LongestExpiry(setup), r.expires)
      && (request.toTag != "" ==> r.toTag == request.toTag)
  {
    var m := Run(map[], subs, marks, es);
    var (t, sent, r) := Handled(m, subs, marks, setup, request, entropy, now);
    SubscribeAnswered(subs, marks, es, setup, request, entropy, now);
    GrantedTag(m, subs, marks, setup, request, entropy, now);
    var s := Asked(request, r.toTag).(expiresAt := now + r.expires * 1000);
    AskedIs(request, r.toTag);
    SubscriptionReadsBack(request, r.toTag, now + r.expires * 1000);
    hide Run, Handled, SubKey, Read, Pack, EventName, ContactOf, CseqOf, Enabled, Supported, Asked;
  }

  lemma AskedIs(request: Request, toTag: string)
    requires CleanRequest(request, toTag)
    ensures Clean(Asked(request, toTag))
    ensures forall at :: StoredAs(Asked(request, toTag).(expiresAt := at), request, toTag, at)
  {
    hide EventName, ContactOf, CseqOf, Contains;
  }

  lemma GrantedTag(m: Cache, subs: Ring, marks: Ring, setup: Setup, request: Request, entropy: Entropy, now: int)
    requires subs.capacity > 0 && marks.capacity > 0
    requires Handled(m, subs, marks, setup, request, entropy, now).2.Accepted?
    ensures var r := Handled(m, subs, marks, setup, request, entropy, now).2;
      && (r.expires != 0 ==> Granted(ExpiresOf(request), LongestExpiry(setup), r.expires))
      && (request.toTag != "" ==> r.toTag == request.toTag)
  {
    hide Subscribed, Supported, Enabled, ExpiresOf, SubKey, Asked, ParseInt;
  }

  // --- What notices say ---

  // The whole seconds left at this time.
  predicate SecondsLeft(expiresAt: int, now: int, left: int) {
    if expiresAt <= now then left == 0 else left >= 0 && left * 1000 <= expiresAt - now < (left + 1) * 1000
  }

  lemma RemainingIs(expiresAt: int, now: int)
    ensures SecondsLeft(expiresAt, now, Remaining(expiresAt, now))
  {
  }

  // A notice of a subscription stored before the scan: its dialog and contact, a
  // number not used before, and the time left unless it ends.
  ghost predicate GoodNotice(m: Cache, n: Notice, now: int, ends: bool) {
    && DataKey(n.key) in m
    && var s := SubAt(m, n.key);
       && n.callId == s.callId && n.contact == s.contact && n.cseq > s.cseq
       && (if ends then n.remaining.None? else n.remaining.Some? && SecondsLeft(s.expiresAt, now, n.remaining.value))
  }

  ghost predicate GoodNotices(m: Cache, sent: seq<Notice>, now: int, ends: bool) {
    forall i :: 0 <= i < |sent| ==> GoodNotice(m, sent[i], now, ends)
  }

  lemma HitIsGood(m: Cache, r: Ring, key: string, ends: bool, now: int)
    requires r.capacity > 0 && DataKey(key) in m && m[DataKey(key)] != ""
    ensures GoodNotices(m, Hit(m, r, DataKey(key), ends, now).sent, now, ends)
  {
    HitSends(m, r, key, ends, now);
    RemainingIs(SubAt(m, key).expiresAt, now);
    hide Hit, Read, Remaining;
  }

  // Later in a scan the same subscriptions are there with the same values.
  lemma StillGood(m: Cache, t: Cache, n: Notice, count: nat, now: int, ends: bool)
    requires GoodNotice(t, n, now, ends) && OnlyCounted(m, t, n.key, count)
    ensures GoodNotice(m, n, now, ends)
  {
    hide Read;
  }

  lemma {:induction false} NotifyNotices(m: Cache, r: Ring, i: nat, n: nat, event: string, resource: string, now: int)
    requires Orderly(m, r) && n <= r.capacity
    ensures GoodNotices(m, NotifyScan(m, r, i, n, event, resource, now).sent, now, false)
    decreases n - i
  {
    hide NotifySlot, Orderly, GoodNotice, OnlyCounted;
    if i >= n {
    } else {
      var here := NotifySlot(m, r, i, event, resource, now);
      NotifySlotEffect(m, r, i, event, resource, now, "");
      SlotNotice(m, r, i, event, resource, now);
      NotifyNotices(here.m, r, i + 1, n, event, resource, now);
      var later := NotifyScan(here.m, r, i + 1, n, event, resource, now);
      forall k | 0 <= k < |later.sent| ensures GoodNotice(m, later.sent[k], now, false) {
        NotifySlotEffect(m, r, i, event, resource, now, later.sent[k].key);
        StillGood(m, here.m, later.sent[k], CountFor(here.sent, later.sent[k].key), now, false);
      }
    }
  }

  lemma SlotNotice(m: Cache, r: Ring, i: nat, event: string, resource: string, now: int)
    requires Orderly(m, r) && i < r.capacity
    ensures GoodNotices(m, NotifySlot(m, r, i, event, resource, now).sent, now, false)
  {
    hide Hit, Read, GoodNotice;
    if SlotEntry(m, r, i).Some? {
      var named := SlotNames(m, r, i);
      HitIsGood(m, r, named, false, now);
    }
  }

  // The same of a flush.
  lemma {:induction false} FlushNotices(m: Cache, r: Ring, i: nat, n: nat, now: int)
    requires Orderly(m, r) && n <= r.capacity
    ensures GoodNotices(m, FlushScan(m, r, i, n, now).sent, now, false)
    decreases n - i
  {
    hide FlushSlot, Orderly, GoodNotice, OnlyCounted;
    if i >= n {
    } else {
      var here := FlushSlot(m, r, i, now);
      FlushSlotEffect(m, r, i, now, "");
      FlushSlotNotice(m, r, i, now);
      FlushNotices(here.m, r, i + 1, n, now);
      var later := FlushScan(here.m, r, i + 1, n, now);
      forall k | 0 <= k < |later.sent| ensures GoodNotice(m, later.sent[k], now, false) {
        FlushSlotEffect(m, r, i, now, later.sent[k].key);
        StillGood(m, here.m, later.sent[k], CountFor(here.sent, later.sent[k].key), now, false);
      }
    }
  }

  lemma FlushSlotNotice(m: Cache, r: Ring, i: nat, now: int)
    requires Orderly(m, r) && i < r.capacity
    ensures GoodNotices(m, FlushSlot(m, r, i, now).sent, now, false)
  {
    hide Hit, Read, GoodNotice;
    if SlotEntry(m, r, i).Some? {
      var named := SlotNames(m, r, i);
      KeyPartOf(named);
      MarkIsNoData(named, named);
      var t := m - {MarkKey(named)};
      HitIsGood(t, r, named, false, now);
      forall n | GoodNotice(t, n, now, false) ensures GoodNotice(m, n, now, false) { GoodUnmarked(m, named, n, now); }
    }
  }

  lemma GoodUnmarked(m: Cache, unmarked: string, n: Notice, now: int)
    requires GoodNotice(m - {MarkKey(unmarked)}, n, now, false)
    ensures GoodNotice(m, n, now, false)
  {
    hide Read;
  }

  // And of a sweep, which ends what it notifies.
  lemma {:induction false} SweepNotices(m: Cache, r: Ring, i: nat, n: nat, now: int, room: nat)
    requires Orderly(m, r) && n <= r.capacity
    ensures GoodNotices(m, SweepScan(m, r, i, n, now, room).sent, now, true)
    decreases n - i
  {
    hide SweepSlot, Orderly, GoodNotice, Swept;
    if i >= n || room == 0 {
    } else {
      var here := SweepSlot(m, r, i, now);
      SweepSlotEffect(m, r, i, now, "");
      SweepSlotNotice(m, r, i, now);
      SweepNotices(here.m, r, i + 1, n, now, room - here.hits);
      var later := SweepScan(here.m, r, i + 1, n, now, room - here.hits);
      forall k | 0 <= k < |later.sent| ensures GoodNotice(m, later.sent[k], now, true) {
        SweepSlotEffect(m, r, i, now, later.sent[k].key);
        StillGoodSwept(m, here.m, here.sent, later.sent[k], now);
      }
    }
  }

  lemma StillGoodSwept(m: Cache, t: Cache, sent: seq<Notice>, n: Notice, now: int)
    requires GoodNotice(t, n, now, true) && Swept(m, t, sent, n.key, now)
    ensures GoodNotice(m, n, now, true)
  {
    hide Read;
  }

  lemma SweepSlotNotice(m: Cache, r: Ring, i: nat, now: int)
    requires Orderly(m, r) && i < r.capacity
    ensures GoodNotices(m, SweepSlot(m, r, i, now).sent, now, true)
  {
    hide Hit, Read, GoodNotice;
    if SlotEntry(m, r, i).Some? {
      var named := SlotNames(m, r, i);
      HitIsGood(m, r, named, true, now);
    }
  }

  // A notice counts up the version of its resource if and only if it is of the dialog
  // event; every other version stays.
  lemma VersionCounts(m: Cache, r: Ring, key: string, ends: bool, now: int, resource: string)
    requires r.capacity > 0 && DataKey(key) in m && m[DataKey(key)] != ""
    ensures var t := SendNotify(m, r, key, ends, now).0;
      var version := "dialog_info_ver|" + resource;
      if SubAt(m, key).event == "dialog" && SubAt(m, key).resource == resource then
        version in t && t[version] == IntText((var v := ParseInt(Get(m, version)); if v.Some? then v.value else 0) + 1)
      else Get(t, version) == Get(m, version)
  {
    hide Read, Pack, IntText, ParseInt;
    assert DataKey(key)[0] == 'e' && (VERSION + resource)[0] == 'd' && (VERSION + SubAt(m, key).resource)[0] == 'd';
    assert (VERSION + resource)[|VERSION|..] == resource;
    assert (VERSION + SubAt(m, key).resource)[|VERSION|..] == SubAt(m, key).resource;
  }

  // --- Notified of exactly its own ---

  // Between two moments the subscription is at most renewed.
  ghost predicate OnlyRenewed(m: Cache, t: Cache, key: string) {
    DataKey(key) in t ==> DataKey(key) in m && SubAt(t, key) == SubAt(m, key).(cseq := SubAt(t, key).cseq)
  }

  // No SUBSCRIBE for the key.
  predicate LeavesAlone(e: Event, key: string) { e.Subscribe? ==> e.key != key }

  lemma OthersStored(m: Cache, subs: Ring, marks: Ring, e: Event, key: string)
    requires Registered(m, subs, marks) && e.Subscribe? && e.key != key
    ensures OnlyRenewed(m, Step(m, subs, marks, e), key)
  {
    RegisteredOrderly(m, subs, marks);
    hide Registered, Read, Pack, BoundedStateSet, Orderly, OnlyRenewed;
    if e.expires == 0 {
      OtherEnded(m, subs, e.key, e.now, key);
    } else {
      var t, value := StepStores(m, subs, marks, e);
      hide Step;
      StoreKeepsRegistered(m, subs, marks, e.key, value);
      OtherSet(m, subs, marks, t, e.key, value, key);
      OtherMarked(t, subs, marks, Step(m, subs, marks, e), e.key, key);
      RenewedTwice(m, t, Step(m, subs, marks, e), key);
    }
  }

  lemma RenewedTwice(m: Cache, t: Cache, u: Cache, key: string)
    requires OnlyRenewed(m, t, key) && OnlyRenewed(t, u, key)
    ensures OnlyRenewed(m, u, key)
  {
    hide Read;
  }

  lemma OtherEnded(m: Cache, subs: Ring, ended: string, now: int, key: string)
    requires Orderly(m, subs) && ended != key
    ensures OnlyRenewed(m, SendNotify(m, subs, ended, true, now).0, key)
  {
    hide Read;
    if DataKey(ended) in m {
      HitEffect(m, subs, ended, true, now);
      KeyPartOf(ended);
    }
  }

  lemma OtherSet(m: Cache, subs: Ring, marks: Ring, t: Cache, stored: string, value: string, key: string)
    requires Registered(m, subs, marks) && stored != key
    requires Shared(t) == BoundedStateSet(Shared(m), subs, DataKey(stored), value)
    ensures OnlyRenewed(m, t, key)
  {
    RegisteredSound(m, subs, marks);
    hide Registered, Read, BoundedStateSet;
    OwnedKeys(subs, marks, key);
    OwnedKeys(subs, marks, stored);
    DataKeyInjective(stored, key);
    OwnedNotBookkeeping(SubDomain(subs), DataKey(key));
    StoreEffect(Shared(m), SubDomain(subs), DataKey(stored), value, DataKey(key));
    hide Sound;
  }

  lemma OtherMarked(t: Cache, subs: Ring, marks: Ring, u: Cache, marked: string, key: string)
    requires Registered(t, subs, marks) && marks.capacity > 0
    requires Shared(u) == BoundedStateSet(Shared(t), marks, MarkKey(marked), "1")
    ensures OnlyRenewed(t, u, key)
  {
    RegisteredParts(t, subs, marks);
    hide Registered, Read, BoundedStateSet, Sound;
    OwnedKeys(subs, marks, key);
    OwnedKeys(subs, marks, marked);
    DomainsFit(subs, marks);
    SetFrame(Shared(t), MarkDomain(marks), SubDomain(subs), MarkKey(marked), "1");
    assert SubDomain(subs).Names(DataKey(key));
    assert Get(u, DataKey(key)) == Get(t, DataKey(key));
  }

  lemma RegisteredParts(m: Cache, subs: Ring, marks: Ring)
    requires Registered(m, subs, marks)
    ensures IsSubscriptionRing(subs) && IsMarkRing(marks)
    ensures Sound(Shared(m), SubDomain(subs)) && Sound(Shared(m), MarkDomain(marks))
  {
  }

  lemma StepRenews(m: Cache, subs: Ring, marks: Ring, e: Event, key: string)
    requires Registered(m, subs, marks) && LeavesAlone(e, key)
    ensures OnlyRenewed(m, Step(m, subs, marks, e), key)
  {
    RegisteredOrderly(m, subs, marks);
    hide Registered, NotifyScan, FlushScan, SweepScan, Orderly, Read;
    match e
    case Subscribe(_, _, _, _, _) => OthersStored(m, subs, marks, e, key);
    case NotifyAll(event, resource, now) => NotifyScanEffect(m, subs, 0, subs.capacity, event, resource, now, key);
    case Flush(now) => FlushScanEffect(m, subs, 0, subs.capacity, now, key);
    case SweepOld(now) => SweepScanEffect(m, subs, 0, subs.capacity, now, SWEEP_LIMIT, key);
    case Elsewhere(others) => OthersKeepKey(m, others, key);
  }

  lemma OthersKeepKey(m: Cache, others: Cache, key: string)
    ensures OnlyRenewed(m, OthersChanged(m, others), key)
  {
    hide Read;
    assert DataKey(key)[0] == 'e' && DataKey(key)[1] == 'v' && DataKey(key)[2] == 't' && DataKey(key)[3] == '_';
  }

  lemma {:induction false} RunRenews(m: Cache, subs: Ring, marks: Ring, es: seq<Event>, key: string)
    requires subs.capacity > 0 && marks.capacity > 0 && Registered(m, subs, marks)
    requires forall i :: 0 <= i < |es| ==> LeavesAlone(es[i], key)
    ensures OnlyRenewed(m, Run(m, subs, marks, es), key)
  {
    hide Registered, Step, LeavesAlone, Read;
    if es == [] {
    } else {
      var before := es[..|es| - 1];
      RunKeepsRegistered(m, subs, marks, before);
      RunRenews(m, subs, marks, before, key);
      StepRenews(Run(m, subs, marks, before), subs, marks, es[|es| - 1], key);
    }
  }

  lemma HandledKeepsRegistered(m: Cache, subs: Ring, marks: Ring, setup: Setup, request: Request, entropy: Entropy, now: int)
    requires Registered(m, subs, marks) && subs.capacity > 0 && marks.capacity > 0
    ensures Registered(Handled(m, subs, marks, setup, request, entropy, now).0, subs, marks)
  {
    hide Registered, Supported, Enabled, Asked, SubKey, TagOf, ExpiresOf, LongestExpiry;
    if Enabled(setup) && Supported(setup, request) {
      StepKeepsRegistered(m, subs, marks,
                          Subscribe(SubKey(request, entropy), Asked(request, TagOf(m, request, entropy)),
                                    ExpiresOf(request), LongestExpiry(setup), now));
    }
  }

  // After this run the request is accepted with these values, leaving this cache.
  ghost predicate AcceptedAfter(subs: Ring, marks: Ring, es: seq<Event>, setup: Setup, request: Request, entropy: Entropy,
                                now: int, t: Cache, response: Response)
    requires subs.capacity > 0 && marks.capacity > 0
  {
    && response.Accepted? && response.expires != 0 && CleanRequest(request, response.toTag)
    && (t, [], response) == Handled(Run(map[], subs, marks, es), subs, marks, setup, request, entropy, now)
  }

  // After a SUBSCRIBE is accepted, and anything but another one for it: while its
  // subscription is stored, a notification of an event about a resource reaches it if
  // and only if the event is the one it named, the resource the one it was sent to,
  // and the lifetime it was granted has not passed.
  lemma NotifiedOfItsOwn(subs: Ring, marks: Ring, es: seq<Event>, setup: Setup, request: Request, entropy: Entropy,
                         now: int, t: Cache, response: Response, later: seq<Event>, event: string, resource: string, at: int)
    requires IsSubscriptionRing(subs) && IsMarkRing(marks)
    requires AcceptedAfter(subs, marks, es, setup, request, entropy, now, t, response)
    requires forall i :: 0 <= i < |later| ==> LeavesAlone(later[i], SubKey(request, entropy))
    ensures var u, key := Run(t, subs, marks, later), SubKey(request, entropy);
      var notices := CountFor(NotifyScan(u, subs, 0, subs.capacity, event, resource, at).sent, key);
      var its := event == EventName(request) && resource == request.uri && at < now + response.expires * 1000;
      && (DataKey(key) in u ==> (notices >= 1 <==> its))
      && (DataKey(key) !in u ==> notices == 0)
  {
    hide Registered, Handled, Run, EventName, SubKey, NotifyScan, LeavesAlone, CleanRequest, OnlyRenewed, StoredAs, Granted;
    var key := SubKey(request, entropy);
    AcceptedIsRegistered(subs, marks, es, setup, request, entropy, now, t, response);
    RunKeepsRegistered(t, subs, marks, later);
    RunRenews(t, subs, marks, later, key);
    NotifiedWhileStored(t, Run(t, subs, marks, later), subs, marks, request, response.toTag, now + response.expires * 1000,
                        key, event, resource, at);
  }

  lemma AcceptedIsRegistered(subs: Ring, marks: Ring, es: seq<Event>, setup: Setup, request: Request, entropy: Entropy,
                             now: int, t: Cache, response: Response)
    requires IsSubscriptionRing(subs) && IsMarkRing(marks)
    requires AcceptedAfter(subs, marks, es, setup, request, entropy, now, t, response)
    ensures Registered(t, subs, marks) && response.Accepted? && DataKey(SubKey(request, entropy)) in t
    ensures StoredAs(SubAt(t, SubKey(request, entropy)), request, response.toTag, now + response.expires * 1000)
  {
    hide Registered, Handled, Run, EventName, SubKey, CleanRequest, StoredAs, Granted;
    var m := Run(map[], subs, marks, es);
    EmptyRegistered(subs, marks);
    RunKeepsRegistered(map[], subs, marks, es);
    HandledKeepsRegistered(m, subs, marks, setup, request, entropy, now);
    AcceptedStores(subs, marks, es, setup, request, entropy, now);
  }

  lemma NotifiedWhileStored(t: Cache, u: Cache, subs: Ring, marks: Ring, request: Request, toTag: string, expiresAt: int,
                            key: string, event: string, resource: string, at: int)
    requires Registered(u, subs, marks) && OnlyRenewed(t, u, key)
    requires DataKey(key) in t && StoredAs(SubAt(t, key), request, toTag, expiresAt)
    ensures var notices := CountFor(NotifyScan(u, subs, 0, subs.capacity, event, resource, at).sent, key);
      && (DataKey(key) in u ==>
            (notices >= 1 <==> event == EventName(request) && resource == request.uri && at < expiresAt))
      && (DataKey(key) !in u ==> notices == 0)
  {
    RegisteredOrderly(u, subs, marks);
    hide Registered, EventName, ContactOf, CseqOf, Read, NotifyScan, Orderly;
    NotifyScanEffect(u, subs, 0, subs.capacity, event, resource, at, key);
    if DataKey(key) in u { LiveIsNamed(u, subs, marks, key); }
  }
}
