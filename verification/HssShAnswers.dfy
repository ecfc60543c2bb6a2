// The Sh interface of the lab HSS in full: who is answered with which code, which
// profile a read returns, and what an update or a subscription changes.
module HssShAnswers {
  import opened Diameter
  import opened Hss
  import opened HssAnswers
  import opened HssApplication
  import opened HssContents
  import opened Text

  // --- Profiles ---

  // A value is 1 to 2048 octets of printable ASCII and starts with "sip:" or "sips:".
  predicate IsSipValue(v: bytes) {
    && 1 <= |v| <= 2048 && (forall i :: 0 <= i < |v| ==> 0x20 <= v[i] <= 0x7E)
    && ((|v| >= 4 && v[..4] == [115, 105, 112, 58]) || (|v| >= 5 && v[..5] == [115, 105, 112, 115, 58]))
  }

  // At most eight identities and four criteria, none twice, under keys of their own.
  predicate IsProfile(p: Profile) {
    && (forall i, j :: 0 <= i < j < |p| ==> p[i].0 != p[j].0)
    && forall i :: 0 <= i < |p| ==>
         && |p[i].1| <= (match p[i].0 case AssociatedUris => 8 case InitialFilterCriteria => 4)
         && (forall j :: 0 <= j < |p[i].1| ==> IsSipValue(p[i].1[j]))
         && (forall j, k :: 0 <= j < k < |p[i].1| ==> p[i].1[j] != p[i].1[k])
  }

  lemma SipPrefixes()
    ensures Ascii("sip:") == [115, 105, 112, 58] && Ascii("sips:") == [115, 105, 112, 115, 58]
  {
  }

  lemma ListIff(key: ProfileKey, values: seq<bytes>)
    ensures ValidList(key, values)
      <==> && |values| <= (match key case AssociatedUris => 8 case InitialFilterCriteria => 4)
           && (forall j :: 0 <= j < |values| ==> IsSipValue(values[j]))
           && (forall j, k :: 0 <= j < k < |values| ==> values[j] != values[k])
  {
    SipPrefixes();
    hide Ascii;
  }

  lemma ProfileIff(p: Profile)
    ensures IsProfile(p) <==> ValidProfile(p)
  {
    forall i | 0 <= i < |p|
      ensures ValidList(p[i].0, p[i].1)
        <==> && |p[i].1| <= (match p[i].0 case AssociatedUris => 8 case InitialFilterCriteria => 4)
             && (forall j :: 0 <= j < |p[i].1| ==> IsSipValue(p[i].1[j]))
             && (forall j, k :: 0 <= j < k < |p[i].1| ==> p[i].1[j] != p[i].1[k])
    {
      ListIff(p[i].0, p[i].1);
    }
    hide IsSipValue, ValidList;
    TwoKeys(p);
  }

  lemma TwoKeys(p: Profile)
    ensures (forall i, j :: 0 <= i < j < |p| ==> p[i].0 != p[j].0) ==> |p| <= 2
  {
    var a := if |p| > 2 then p[0].0 else AssociatedUris;
    var b := if |p| > 2 then p[1].0 else AssociatedUris;
    var c := if |p| > 2 then p[2].0 else AssociatedUris;
    assert a == b || a == c || b == c;
  }

  // A request to store a subscriber passes if and only if its identities and server
  // are clean, the public one is a sip: or sips: URI, its secret decodes to 1 to 128
  // octets, its profile is one, and its flag is one; what is stored is what was given.
  predicate CleanText(value: Option<string>, limit: nat) {
    value.Some? && 1 <= |value.value| <= limit
    && forall i :: 0 <= i < |value.value| ==> ' ' <= value.value[i] <= '~' && value.value[i] !in "|\"\\"
  }

  lemma CheckedIff(item: Item)
    ensures Checked(item).Some?
      <==> && CleanText(item.publicId, 2048) && CleanText(item.privateId, 1024) && CleanText(item.serverName, 2048)
           && (Ascii("sip:") <= Ascii(item.publicId.value) || Ascii("sips:") <= Ascii(item.publicId.value))
           && item.secret.Some? && 1 <= |item.secret.value| <= 1024
           && item.decoded.Some? && 1 <= |item.decoded.value| <= 128
           && item.profile.Some? && IsProfile(item.profile.value) && item.profileSize <= 16384
           && item.enabled.Some?
    ensures Checked(item).Some? ==>
      Checked(item).value == Subscriber(Ascii(item.publicId.value), Ascii(item.privateId.value), Ascii(item.serverName.value),
                                        item.decoded.value, item.profile.value, item.enabled.value)
  {
    if item.profile.Some? { ProfileIff(item.profile.value); }
    hide ValidProfile, IsProfile, Ascii, IsAscii;
    var p, q, r := IdentityField(item.publicId, 2048), IdentityField(item.privateId, 1024), IdentityField(item.serverName, 2048);
    assert (p.Some? <==> CleanText(item.publicId, 2048)) && (q.Some? <==> CleanText(item.privateId, 1024));
    assert r.Some? <==> CleanText(item.serverName, 2048);
    hide CleanText, IdentityField;
  }

  predicate Lists(p: Profile, key: ProfileKey) { exists i :: 0 <= i < |p| && p[i].0 == key }

  // An updated list is the update's; every other stays.
  predicate Updated(before: Profile, update: Profile, after: Profile) {
    forall key: ProfileKey ::
      && (Lists(after, key) <==> Lists(before, key) || Lists(update, key))
      && ListOf(after, key) == if Lists(update, key) then ListOf(update, key) else ListOf(before, key)
  }

  lemma {:induction false} OneUpdate(p: Profile, key: ProfileKey, values: seq<bytes>, read: ProfileKey)
    ensures ListOf(UpdateProfile(p, key, values), read) == if read == key then values else ListOf(p, read)
    ensures Lists(UpdateProfile(p, key, values), read) <==> read == key || Lists(p, read)
  {
    if p == [] {
      assert UpdateProfile(p, key, values)[0].0 == key;
    } else if p[0].0 == key {
      var u := UpdateProfile(p, key, values);
      assert u[0].0 == key && u[1..] == p[1..];
      assert forall i :: 1 <= i < |p| ==> u[i] == p[i];
    } else {
      OneUpdate(p[1..], key, values, read);
      var u, v := UpdateProfile(p, key, values), UpdateProfile(p[1..], key, values);
      assert u[1..] == v && u[0] == p[0];
      ListsRest(p, read);
      ListsRest(u, read);
    }
  }

  lemma ListsRest(p: Profile, key: ProfileKey)
    requires p != []
    ensures Lists(p, key) <==> p[0].0 == key || Lists(p[1..], key)
  {
    if i :| 1 <= i < |p| && p[i].0 == key { assert p[1..][i - 1].0 == key; }
    if i :| 0 <= i < |p[1..]| && p[1..][i].0 == key { assert p[i + 1].0 == key; }
  }

  lemma {:induction false} MergeUpdates(p: Profile, update: Profile)
    requires forall i, j :: 0 <= i < j < |update| ==> update[i].0 != update[j].0
    ensures Updated(p, update, MergeProfile(p, update))
    decreases |update|
  {
    if update == [] {
    } else {
      var first, rest := update[0], update[1..];
      var once := UpdateProfile(p, first.0, first.1);
      MergeUpdates(once, rest);
      forall key: ProfileKey
        ensures Lists(MergeProfile(p, update), key) <==> Lists(p, key) || Lists(update, key)
        ensures ListOf(MergeProfile(p, update), key) == if Lists(update, key) then ListOf(update, key) else ListOf(p, key)
      {
        OneUpdate(p, first.0, first.1, key);
        ListsRest(update, key);
        if key == first.0 { NotAgain(update); }
      }
    }
  }

  lemma NotAgain(update: Profile)
    requires update != [] && forall i, j :: 0 <= i < j < |update| ==> update[i].0 != update[j].0
    ensures !Lists(update[1..], update[0].0)
  {
    forall i | 0 <= i < |update[1..]| ensures update[1..][i].0 != update[0].0 {
      assert update[1..][i] == update[i + 1];
    }
  }

  // --- The four commands ---

  ghost predicate IsSh(request: Message) {
    request.flags >= 128 && request.application == 16777217 && 306 <= request.command <= 309
  }

  // The answer to the request, and its code.
  ghost predicate Reports(out: Outcome, code: nat) {
    && out.Answer? && ParseMessage(out.octets).Ok?
    && ParseMessage(out.octets).value.Find(268, None).Some?
    && Spells(ParseMessage(out.octets).value.Find(268, None).value, code)
  }

  ghost predicate KnownAs(s: State, publicId: bytes, i: nat) {
    publicId != [] && FirstMatch(s.store, publicId, [], i)
  }

  lemma KnownIff(s: State, publicId: bytes)
    ensures var at := if publicId == [] then |s.store| else FindIndex(s.store, publicId, None);
      && (at < |s.store| <==> KnownAs(s, publicId, at))
      && (forall i: nat :: KnownAs(s, publicId, i) ==> i == at)
  {
  }

  lemma ReportsWith(cfg: Config, request: Message, code: nat, extra: seq<Avp>)
    requires ValidConfig(cfg) && HeaderOk(request) && code < U32_LIMIT && AllPrintable(extra) && |extra| <= 5
    requires forall i :: 0 <= i < |extra| ==> extra[i].vendor.Some?
    requires !SessionTooLong(request)
    ensures Reports(AnswerWith(cfg, request, code, extra), code)
    ensures var answer := ParseMessage(AnswerWith(cfg, request, code, extra).octets).value;
      answer.avps == CommonAvps(cfg, request, code) + extra
  {
    hide AnswerWith, CommonAvps, CommonFields, Spells;
    AnswerWithShape(cfg, request, code, extra);
    U32Spells(code);
  }

  // What has to be printed: a session that fits.
  lemma ReportsPlain(cfg: Config, request: Message, code: nat)
    requires ValidConfig(cfg) && HeaderOk(request) && code < U32_LIMIT && !SessionTooLong(request)
    ensures Reports(AnswerWith(cfg, request, code, []), code)
  {
    hide Reports, AnswerWith;
    ReportsWith(cfg, request, code, []);
  }

  // Nobody stored under the identity: refused without effect.  Otherwise a read
  // answers with the document of the stored profile, and changes nothing.
  lemma ShReads(cfg: Config, s: State, input: Input, i: nat)
    requires ValidConfig(cfg) && ValidStore(s.store) && ValidDraws(input.draws)
    requires ParseMessage(input.raw).Ok? && IsSh(ParseMessage(input.raw).value) && !SessionTooLong(ParseMessage(input.raw).value)
    ensures var (t, out) := Handle(cfg, s, input);
      var request := ParseMessage(input.raw).value;
      var publicId := NamedPublic(request);
      && (request.command == 309 ==> Reports(out, 2001) && t == s)
      && (request.command != 309 && (forall j: nat :: !KnownAs(s, publicId, j)) ==> Reports(out, 5001) && t == s)
      && (request.command == 306 && KnownAs(s, publicId, i) ==>
            && Reports(out, 2001) && t == s
            && ParseMessage(out.octets).value.Find(606, VENDOR) == Some(ShDocument(s.store[i].profile)))
  {
    var request := ParseMessage(input.raw).value;
    ParsedHeaderOk(input.raw);
    NamesAre(request);
    KnownIff(s, NamedPublic(request));
    ReportsPlain(cfg, request, 2001);
    ReportsPlain(cfg, request, 5001);
    ShIsHandled(cfg, s, input);
    hide ParseMessage, AnswerWith, Handle, KnownAs, Reports, ShDocument, CommonAvps, PublicIdOf, NamedPublic, SessionTooLong, ValidStore;
    if request.command == 306 && KnownAs(s, NamedPublic(request), i) {
      var extra := [Vendor(606, ShDocument(s.store[i].profile))];
      StoredProfile(s, i);
      ShDocumentPrintable(s.store[i].profile);
      ReportsWith(cfg, request, 2001, extra);
      BehindCommon(cfg, request, extra, 0);
    }
  }

  lemma StoredProfile(s: State, i: nat)
    requires ValidStore(s.store) && i < |s.store|
    ensures ValidProfile(s.store[i].profile)
  {
  }

  lemma ShIsHandled(cfg: Config, s: State, input: Input)
    requires ValidDraws(input.draws) && ParseMessage(input.raw).Ok? && IsSh(ParseMessage(input.raw).value)
    ensures Handle(cfg, s, input) == HandleSh(cfg, s, ParseMessage(input.raw).value, input.decode)
  {
    hide HandleSh, ParseMessage;
  }

  // Only the profile of subscriber i differs.
  predicate OnlyProfile(s: State, t: State, i: nat)
    requires i < |s.store|
  {
    && |t.store| == |s.store| && t.lastRand == s.lastRand && t.shSubscriptions == s.shSubscriptions
    && (forall j :: 0 <= j < |s.store| && j != i ==> t.store[j] == s.store[j])
    && t.store[i] == s.store[i].(profile := t.store[i].profile)
  }

  // An update of a stored subscriber: data that is missing or too long, or does not
  // decode to a profile within its limits, is refused without effect; other text is
  // taken without effect; a profile replaces the lists it names and no others.
  lemma ShUpdates(cfg: Config, s: State, input: Input, i: nat)
    requires ValidConfig(cfg) && ValidStore(s.store) && ValidDraws(input.draws)
    requires ParseMessage(input.raw).Ok? && IsSh(ParseMessage(input.raw).value) && !SessionTooLong(ParseMessage(input.raw).value)
    requires var request := ParseMessage(input.raw).value;
      request.command == 307 && KnownAs(s, NamedPublic(request), i)
    ensures var (t, out) := Handle(cfg, s, input);
      var data := ParseMessage(input.raw).value.Find(606, VENDOR);
      if data.None? || |data.value| > 16384 then Reports(out, 3001) && t == s
      else match input.decode(data.value)
           case Escapes => out == Raised && t == s
           case Opaque => Reports(out, 2001) && t == s
           case Malformed => Reports(out, 3001) && t == s
           case Json(update, size) =>
             if IsProfile(update) && size <= 16384 then
               Reports(out, 2001) && OnlyProfile(s, t, i) && Updated(s.store[i].profile, update, t.store[i].profile)
             else Reports(out, 3001) && t == s
  {
    var request := ParseMessage(input.raw).value;
    ParsedHeaderOk(input.raw);
    NamesAre(request);
    KnownIff(s, NamedPublic(request));
    ReportsPlain(cfg, request, 2001);
    ReportsPlain(cfg, request, 3001);
    ShIsHandled(cfg, s, input);
    hide ParseMessage, AnswerWith, Handle, KnownAs, Reports, ShDocument, PublicIdOf, NamedPublic, SessionTooLong, ValidStore, ValidProfile, IsProfile, Updated, MergeProfile;
    var data := request.Find(606, VENDOR);
    if data.Some? && |data.value| <= 16384 && input.decode(data.value).Json? {
      var update := input.decode(data.value).candidate;
      ProfileIff(update);
      if ValidProfile(update) {
        KeysOnce(update);
        MergeUpdates(s.store[i].profile, update);
      }
    }
  }

  lemma KeysOnce(p: Profile)
    requires ValidProfile(p)
    ensures forall i, j :: 0 <= i < j < |p| ==> p[i].0 != p[j].0
  {
  }

  // A subscription adds the named indication to those of its identity and reference,
  // and changes nothing else.
  lemma ShSubscribes(cfg: Config, s: State, input: Input, i: nat)
    requires ValidConfig(cfg) && ValidStore(s.store) && ValidDraws(input.draws)
    requires ParseMessage(input.raw).Ok? && IsSh(ParseMessage(input.raw).value) && !SessionTooLong(ParseMessage(input.raw).value)
    requires var request := ParseMessage(input.raw).value;
      request.command == 308 && KnownAs(s, NamedPublic(request), i)
    ensures var (t, out) := Handle(cfg, s, input);
      var request := ParseMessage(input.raw).value;
      var raw, indication := request.Find(703, VENDOR), PrintableText(request.Find(704, VENDOR), 256);
      && Reports(out, 2001) && t.store == s.store && t.lastRand == s.lastRand
      && exists reference: nat ::
           && (if raw.Some? && |raw.value| == 4 then Spells(raw.value, reference) else reference == 0)
           && var key := (NamedPublic(request), reference);
              && t.shSubscriptions.Keys == s.shSubscriptions.Keys + {key}
              && t.shSubscriptions[key]
                 == (if key in s.shSubscriptions then s.shSubscriptions[key] else {})
                    + (if indication == [] then {} else {indication})
              && forall other :: other in s.shSubscriptions && other != key ==>
                   t.shSubscriptions[other] == s.shSubscriptions[other]
  {
    var request := ParseMessage(input.raw).value;
    ParsedHeaderOk(input.raw);
    NamesAre(request);
    KnownIff(s, NamedPublic(request));
    ReportsPlain(cfg, request, 2001);
    ShIsHandled(cfg, s, input);
    var raw := request.Find(703, VENDOR);
    if raw.Some? && |raw.value| == 4 { ReadSpells(raw.value); }
    TextIs(request.Find(704, VENDOR), 256);
    SubscribeOutcome(cfg, s, request, input.decode);
    hide ParseMessage, AnswerWith, Handle, HandleSh, KnownAs, Reports, PublicIdOf, NamedPublic, SessionTooLong, ValidStore, ReadU32, SafeAscii, PrintableText, Spells;
    var key := (NamedPublic(request), ReferenceOf(request));
    var t := Handle(cfg, s, input).0;
    assert t.shSubscriptions.Keys == s.shSubscriptions.Keys + {key};
  }

  function ReferenceOf(request: Message): nat {
    var raw := request.Find(703, VENDOR);
    if raw.Some? && |raw.value| == 4 then ReadU32(raw.value) else 0
  }

  lemma SubscribeOutcome(cfg: Config, s: State, request: Message, decode: bytes -> Decoded)
    requires request.command == 308
    requires PublicIdOf(request) != [] && FindIndex(s.store, PublicIdOf(request), None) < |s.store|
    ensures var key, indication := (PublicIdOf(request), ReferenceOf(request)), SafeAscii(request.Find(704, VENDOR), 256);
      var existing := if key in s.shSubscriptions then s.shSubscriptions[key] else {};
      HandleSh(cfg, s, request, decode)
        == (s.(shSubscriptions := s.shSubscriptions[key := existing + if indication == [] then {} else {indication}]),
            AnswerWith(cfg, request, RESULT_SUCCESS, []))
  {
    hide AnswerWith, ReadU32, SafeAscii;
    var key, indication := (PublicIdOf(request), ReferenceOf(request)), SafeAscii(request.Find(704, VENDOR), 256);
    var existing := if key in s.shSubscriptions then s.shSubscriptions[key] else {};
    assert existing + {} == existing;
  }

  lemma ReadSpells(b: bytes)
    requires |b| == 4
    ensures Spells(b, ReadU32(b))
  {
    assert b[1..][0] == b[1] && b[1..][1] == b[2] && b[1..][2] == b[3];
  }

  lemma TextIs(value: Option<bytes>, limit: nat)
    ensures PrintableText(value, limit) == SafeAscii(value, limit)
  {
  }
}
