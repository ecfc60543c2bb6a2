// The HSS request machine of lab/ims_hss.py: the subscriber store, and the
// handler that turns one Diameter request into at most one answer.
module Hss {
  import opened Text

  const CX_APPLICATION := 16777216
  const SH_APPLICATION := 16777217
  const THREEGPP_VENDOR := 10415
  const RESULT_SUCCESS := 2001
  const RESULT_UNKNOWN_USER := 5001
  const RESULT_UNSUPPORTED := 3001
  const MAX_PROFILE_BYTES := 16384

  // The value as text, or [] when it is missing, too long or not plain ASCII.
  function SafeAscii(value: Option<bytes>, limit: nat): (r: bytes)
    ensures |r| <= limit
  {
    if value.Some? && 1 <= |value.value| <= limit && IsPrintableAscii(value.value) then value.value else []
  }

  // --- Subscribers ---

  datatype ProfileKey = AssociatedUris | InitialFilterCriteria

  // A service profile is a small ordered dictionary of text lists.
  type Profile = seq<(ProfileKey, seq<bytes>)>

  function ListLimit(key: ProfileKey): nat {
    if key.AssociatedUris? then 8 else 4
  }

  predicate ValidList(key: ProfileKey, values: seq<bytes>) {
    && |values| <= ListLimit(key)
    && (forall i :: 0 <= i < |values| ==>
          && 1 <= |values[i]| <= 2048 && IsPrintableAscii(values[i])
          && (Ascii("sip:") <= values[i] || Ascii("sips:") <= values[i]))
    && (forall i, j :: 0 <= i < j < |values| ==> values[i] != values[j])
  }

  predicate ValidProfile(p: Profile) {
    && |p| <= 2
    && (|p| == 2 ==> p[0].0 != p[1].0)
    && forall i :: 0 <= i < |p| ==> ValidList(p[i].0, p[i].1)
  }

  // dict.update: existing keys keep their place, new ones go to the end.
  function UpdateProfile(p: Profile, key: ProfileKey, values: seq<bytes>): Profile {
    if p == [] then [(key, values)]
    else if p[0].0 == key then [(key, values)] + p[1..]
    else [p[0]] + UpdateProfile(p[1..], key, values)
  }

  function MergeProfile(p: Profile, updates: Profile): Profile
    decreases |updates|
  {
    if updates == [] then p else MergeProfile(UpdateProfile(p, updates[0].0, updates[0].1), updates[1..])
  }

  datatype Subscriber = Subscriber(
    publicId: bytes, privateId: bytes, serverName: bytes, xres: bytes, profile: Profile, enabled: bool)

  predicate ValidSubscriber(s: Subscriber) {
    && 1 <= |s.publicId| <= 2048 && 1 <= |s.privateId| <= 1024 && 1 <= |s.serverName| <= 2048
    && 1 <= |s.xres| <= 128 && ValidProfile(s.profile)
  }

  // What a request to store a subscriber carries: each field as text where it is
  // one, the octets base64 gives for the secret, the profile where it is a
  // dictionary of ASCII text lists under known keys, and its size as JSON.
  datatype Item = Item(
    publicId: Option<string>, privateId: Option<string>, serverName: Option<string>,
    secret: Option<string>, decoded: Option<bytes>,
    profile: Option<Profile>, profileSize: nat, enabled: Option<bool>)

  predicate IsAscii(text: string) { forall i :: 0 <= i < |text| ==> text[i] < 128 as char }

  function IdentityField(value: Option<string>, limit: nat): (r: Option<bytes>)
    ensures r.Some? <==>
      && value.Some? && 1 <= |value.value| <= limit
      && forall i :: 0 <= i < |value.value| ==> ' ' <= value.value[i] <= '~' && value.value[i] !in "|\"\\"
    ensures r.Some? ==> r.value == Ascii(value.value)
  {
    if value.None? || !IsAscii(value.value) then None
    else
      var raw := Ascii(value.value);
      if SafeAscii(Some(raw), limit) == [] || 124 in raw || 34 in raw || 92 in raw then
        assert forall i :: 0 <= i < |raw| ==> raw[i] == value.value[i] as int;
        None
      else
        assert forall i :: 0 <= i < |raw| ==> raw[i] == value.value[i] as int && raw[i] in raw;
        Some(raw)
  }

  // The subscriber a request asks for, once every field has passed its check.
  function Checked(item: Item): (r: Option<Subscriber>)
    ensures r.Some? ==> ValidSubscriber(r.value)
    ensures r.Some? ==> Ascii("sip:") <= r.value.publicId || Ascii("sips:") <= r.value.publicId
  {
    var publicId := IdentityField(item.publicId, 2048);
    var privateId := IdentityField(item.privateId, 1024);
    var serverName := IdentityField(item.serverName, 2048);
    if publicId.None? || privateId.None? || serverName.None? then None
    else if !(Ascii("sip:") <= publicId.value || Ascii("sips:") <= publicId.value) then None
    else if item.secret.None? || !(1 <= |item.secret.value| <= 1024) then None
    else if item.decoded.None? || !(1 <= |item.decoded.value| <= 128) then None
    else if item.profile.None? || !ValidProfile(item.profile.value) || item.profileSize > MAX_PROFILE_BYTES then None
    else if item.enabled.None? then None
    else
      Some(Subscriber(publicId.value, privateId.value, serverName.value, item.decoded.value,
                      item.profile.value, item.enabled.value))
  }

  // The store is an insertion-ordered dictionary keyed by both identities.
  predicate ValidStore(items: seq<Subscriber>) {
    && (forall i :: 0 <= i < |items| ==> ValidSubscriber(items[i]))
    && (forall i, j :: 0 <= i < j < |items| ==>
          items[i].publicId != items[j].publicId || items[i].privateId != items[j].privateId)
  }

  // Position of the first match, or |items|; no private identity matches any.
  function FindIndex(items: seq<Subscriber>, publicId: bytes, privateId: Option<bytes>): (at: nat)
    ensures at <= |items|
    ensures at < |items| ==>
      items[at].publicId == publicId && (privateId.Some? ==> items[at].privateId == privateId.value)
    ensures forall i :: 0 <= i < at ==>
      !(items[i].publicId == publicId && (privateId.Some? ==> items[i].privateId == privateId.value))
  {
    if items == [] then 0
    else if items[0].publicId == publicId && (privateId.Some? ==> items[0].privateId == privateId.value) then 0
    else 1 + FindIndex(items[1..], publicId, privateId)
  }

  function Find(items: seq<Subscriber>, publicId: bytes, privateId: Option<bytes>): Option<Subscriber> {
    var at := FindIndex(items, publicId, privateId);
    if at < |items| then Some(items[at]) else None
  }

  class HssStore {
    var items: seq<Subscriber>
    const maxSubscribers: nat

    ghost predicate Valid()
      reads this
    {
      ValidStore(items) && |items| <= maxSubscribers
    }

    constructor (maxSubscribers: nat)
      ensures Valid() && items == [] && this.maxSubscribers == maxSubscribers
    {
      items := [];
      this.maxSubscribers := maxSubscribers;
    }

    // Replaces an entry in place; a request that fails a check, or finds the store
    // full, changes nothing.
    method Provision(item: Item) returns (stored: Option<Subscriber>)
      requires Valid()
      modifies this
      ensures Valid()
      ensures Checked(item).None? ==> stored.None? && items == old(items)
      ensures Checked(item).Some? ==>
        var s := Checked(item).value;
        var at := FindIndex(old(items), s.publicId, Some(s.privateId));
        && stored == (if at < |old(items)| || |old(items)| < maxSubscribers then Some(s) else None)
        && items == if stored.None? then old(items)
                    else if at < |old(items)| then old(items)[at := s] else old(items) + [s]
      ensures stored.Some? ==> Find(items, stored.value.publicId, Some(stored.value.privateId)) == stored
    {
      hide ValidSubscriber, IdentityField, Checked;
      var checked := Checked(item);
      if checked.None? { return None; }
      var s := checked.value;
      var at := FindIndex(items, s.publicId, Some(s.privateId));
      if at == |items| && |items| >= maxSubscribers { return None; }
      items := if at < |items| then items[at := s] else items + [s];
      stored := Some(s);
      assert items[at] == s && FindIndex(items, s.publicId, Some(s.privateId)) == at;
    }

    method Lookup(publicId: bytes, privateId: Option<bytes>) returns (found: Option<Subscriber>)
      ensures found == Find(items, publicId, privateId)
    {
      var i := 0;
      while i < |items|
        invariant 0 <= i <= |items|
        invariant forall k :: 0 <= k < i ==>
          !(items[k].publicId == publicId && (privateId.Some? ==> items[k].privateId == privateId.value))
      {
        if items[i].publicId == publicId && (privateId.None? || items[i].privateId == privateId.value) {
          return Some(items[i]);
        }
        i := i + 1;
      }
      return None;
    }

    method SetEnabled(publicId: bytes, enabled: bool) returns (found: bool)
      requires Valid()
      modifies this
      ensures Valid()
      ensures var at := FindIndex(old(items), publicId, None);
        && (found <==> at < |old(items)|)
        && items == if found then old(items)[at := old(items)[at].(enabled := enabled)] else old(items)
    {
      var at := FindIndex(items, publicId, None);
      found := at < |items|;
      if found { items := items[at := items[at].(enabled := enabled)]; }
    }

    method Remove(publicId: bytes) returns (removed: bool)
      requires Valid()
      modifies this
      ensures Valid()
      ensures var at := FindIndex(old(items), publicId, None);
        && (removed <==> at < |old(items)|)
        && items == if removed then old(items)[..at] + old(items)[at + 1..] else old(items)
    {
      var at := FindIndex(items, publicId, None);
      removed := at < |items|;
      if removed { items := items[..at] + items[at + 1..]; }
    }
  }
}
