// What a call's table entries hold from its INVITE on: every field as given, the
// number an ACK goes out with, what a request within the dialog leaves pending, and
// what a response confirms.
module B2buaDialogs {
  import opened B2bua
  import opened B2buaLaws
  import opened B2buaRuns
  import opened Text

  // --- The INVITE ---

  // The session in use: live, and used within the idle time.
  ghost predicate InUse(m: Table, key: string, now: int, ttl: int) {
    && Live(m, key)
    && var stamp := ParseInt(Lookup(m, Field(Created, key)));
       stamp.Some? && stamp.value > 0 && now - stamp.value <= ttl
  }

  lemma InUseIff(m: Table, key: string, now: Clock, ttl: int)
    requires Coherent(m)
    ensures InUse(m, key, now.first, ttl) <==> Live(m, key) && !Idle(m, key, now.first, ttl)
    ensures InUse(m, key, now.first, ttl) <==> Touched(m, key, now, ttl).1
  {
    hide ParseInt, Cleaned, IntText;
    if key == "" { NoEmptySession(m); }
    hide Coherent;
  }

  // An INVITE is accepted if and only if it has a target without commas, names and a
  // number, its form parses, no session of its key is in use, and its Call-IDs and
  // size can be stored.
  lemma InviteAcceptedIff(m: Table, e: Event, ttl: int)
    requires Coherent(m) && e.Invite? && FreshCid(m, e)
    ensures Invited(m, e.key, e.legs, e.valid, e.now, ttl).1
      <==> && e.legs.target != "" && ',' !in e.legs.target && e.key != "" && e.legs.inviteCseq != "" && e.valid
           && !InUse(m, e.key, e.now.first, ttl)
           && e.legs.inCid != "" && e.legs.outCid != "" && |e.legs.invite| <= 32768
  {
    InUseIff(m, e.key, e.now, ttl);
    TouchEffect(m, e.key, e.now, ttl);
    var t := Touched(m, e.key, e.now, ttl).0;
    CountNotNegative(t);
    hide Coherent, Touched, InUse, Idle, Written, Evicted, ParseInt, IntText, SameRing, SameIndex, SameOthers;
    assert Contains(e.legs.target, ',') <==> ',' in e.legs.target;
  }

  lemma CountNotNegative(m: Table)
    requires Coherent(m)
    ensures NextCount(m) > 0
  {
  }

  // An accepted INVITE is recorded field by field, and found again from both sides.
  lemma InviteRecords(m: Table, e: Event, ttl: int)
    requires Coherent(m) && e.Invite? && FreshCid(m, e) && Invited(m, e.key, e.legs, e.valid, e.now, ttl).1
    ensures var t, key, l := Step(m, e, ttl), e.key, e.legs;
      && Coherent(t) && Live(t, key) && OutKey(l.outCid) in t && t[OutKey(l.outCid)] == key
      && Has(t, Status, key, "early") && Has(t, Created, key, IntText(e.now.second))
      && HasParties(t, key, l) && HasNumbers(t, key, l)
  {
    hide Touched, Stored, ParseInt, IntText, RingOk, SameRing, Coherent, Invited, InitialValue, HasParties, HasNumbers;
    InviteStores(m, e, ttl);
    var mid := Touched(m, e.key, e.now, ttl).0;
    StoredEffect(mid, e.key, e.legs, e.now.second);
    var t := Step(m, e, ttl);
    forall name: FieldName ensures Has(t, name, e.key, InitialValue(name, e.legs, e.now.second)) {
    }
    InitialFields(t, e.key, e.legs, e.now.second);
  }

  // The addresses, tags and forms of the two sides.
  predicate HasParties(t: Table, key: string, l: Legs) {
    && Has(t, InCid, key, l.inCid) && Has(t, OutCid, key, l.outCid)
    && Has(t, InFrom, key, l.from) && Has(t, InTo, key, l.to) && Has(t, InVia, key, l.via)
    && Has(t, InTag, key, l.inTag) && Has(t, OutTag, key, l.outTag) && Has(t, RemoteTo, key, l.to)
    && Has(t, OutInvite, key, l.invite) && Has(t, PendingInvite, key, l.invite)
    && Has(t, Target, key, l.target) && Has(t, Transport, key, l.transport)
    && Has(t, Peer, key, l.peer) && Has(t, PeerTransport, key, l.peerTransport)
  }

  predicate HasNumbers(t: Table, key: string, l: Legs) {
    && Has(t, InviteCseq, key, l.inviteCseq) && Has(t, OutCseq, key, l.inviteCseq) && Has(t, PeerCseq, key, "1")
    && Has(t, PendingMethod, key, "INVITE") && Has(t, PendingInCseq, key, l.inviteCseq)
    && Has(t, PendingOutCseq, key, l.inviteCseq)
  }

  lemma InitialFields(t: Table, key: string, l: Legs, now: int)
    requires forall name: FieldName :: Has(t, name, key, InitialValue(name, l, now))
    ensures Has(t, Status, key, "early") && Has(t, Created, key, IntText(now))
    ensures HasParties(t, key, l) && HasNumbers(t, key, l)
  {
    hide IntText, Has;
    IdentityValues(l, now);
    CallerValues(l, now);
    CalleeValues(l, now);
    RoutingValues(l, now);
    NumbersValues(l, now);
    PendingValues(l, now);
    hide InitialValue;
  }

  predicate Has(m: Table, name: FieldName, key: string, value: string) {
    Field(name, key) in m && m[Field(name, key)] == value
  }

  lemma InviteStores(m: Table, e: Event, ttl: int)
    requires Coherent(m) && e.Invite? && FreshCid(m, e) && Invited(m, e.key, e.legs, e.valid, e.now, ttl).1
    ensures var mid := Touched(m, e.key, e.now, ttl).0;
      && Coherent(mid) && !Live(mid, e.key) && OutKey(e.legs.outCid) !in mid && Storable(e.key, e.legs)
      && Step(m, e, ttl) == Stored(mid, e.key, e.legs, e.now.second).0
  {
    hide Touched, ParseInt, IntText, RingOk, SameRing, Coherent, Written, Evicted;
    TouchEffect(m, e.key, e.now, ttl);
  }

  // --- The ACK, and methods that are not relayed ---

  // Nothing differs but the time stamp of this session.
  ghost predicate OnlyStamped(m: Table, t: Table, key: string) {
    SameOthers(m, t, key) && SameBut(m, t, key, {Created}) && SameRing(m, t) && SameIndex(m, t) && Live(t, key)
  }

  lemma AckStep(m: Table, key: string, requestCseq: string, rewritten: string, now: Clock, ttl: int)
    requires Coherent(m) && InUse(m, key, now.first, ttl)
    ensures var (t, cseq) := SentInDialog(m, key, "ACK", requestCseq, rewritten, now, ttl);
      && cseq == Some(Lookup(m, Field(InviteCseq, key))) && OnlyStamped(m, t, key)
  {
    InUseIff(m, key, now, ttl);
    TouchEffect(m, key, now, ttl);
    hide Coherent, Touched, InUse, Idle, NextOutCseq, SameRing, SameIndex, SameOthers;
    var t := Touched(m, key, now, ttl).0;
    assert SameBut(m, t, key, {Created});
  }

  // From an accepted INVITE on, whatever happens but another INVITE for the call:
  // while the call is in use, an ACK goes out under the number of that INVITE and
  // changes nothing but the time stamp.
  lemma AckHasInviteNumber(m: Table, e: Event, es: seq<Event>, requestCseq: string, rewritten: string, now: Clock, ttl: int)
    requires Coherent(m) && e.Invite? && FreshCid(m, e) && Invited(m, e.key, e.legs, e.valid, e.now, ttl).1
    requires FreshRun(Step(m, e, ttl), es, ttl) && NotInvited(es, e.key)
    requires InUse(Run(Step(m, e, ttl), es, ttl), e.key, now.first, ttl)
    ensures var u := Run(Step(m, e, ttl), es, ttl);
      var (t, cseq) := SentInDialog(u, e.key, "ACK", requestCseq, rewritten, now, ttl);
      cseq == Some(e.legs.inviteCseq) && OnlyStamped(u, t, e.key)
  {
    var t, u := Step(m, e, ttl), Run(Step(m, e, ttl), es, ttl);
    hide Coherent, Step, Run, FreshRun, FreshCid, SentInDialog, SameBut, OnlyStamped, ParseInt, NotInvited;
    InviteRecords(m, e, ttl);
    RunCoherent(t, es, ttl);
    IdentityFixed(t, es, e.key, ttl);
    AckStep(u, e.key, requestCseq, rewritten, now, ttl);
    Unchanged(t, u, e.key, InviteCseq);
  }

  lemma Unchanged(m: Table, t: Table, key: string, name: FieldName)
    requires SameBut(m, t, key, MUTABLE) && name !in MUTABLE
    ensures Lookup(t, Field(name, key)) == Lookup(m, Field(name, key))
  {
  }

  // What is neither ACK, BYE nor INVITE is not relayed, whatever the session; at most
  // the session is stamped, or removed because it was idle.
  lemma OtherMethods(m: Table, key: string, method_: string, requestCseq: string, rewritten: string, now: Clock, ttl: int)
    requires Coherent(m) && method_ !in {"ACK", "BYE", "INVITE"}
    ensures var (t, cseq) := SentInDialog(m, key, method_, requestCseq, rewritten, now, ttl);
      && cseq == None
      && (if InUse(m, key, now.first, ttl) then OnlyStamped(m, t, key)
          else SameOthers(m, t, key) && SameRing(m, t) && SameIndex(m, t) && !Live(t, key))
  {
    InUseIff(m, key, now, ttl);
    TouchEffect(m, key, now, ttl);
    hide Coherent, Touched, InUse, Idle, NextOutCseq, SameRing, SameIndex, SameOthers, SameBut;
  }

  // A BYE or INVITE within the dialog is what is pending from then on, under its own
  // number and the one it goes out with; an INVITE that can be rewritten is kept.
  lemma RequestPends(m: Table, key: string, method_: string, requestCseq: string, rewritten: string, now: Clock, ttl: int)
    requires Coherent(m) && InUse(m, key, now.first, ttl) && method_ in {"BYE", "INVITE"}
    ensures var (t, cseq) := SentInDialog(m, key, method_, requestCseq, rewritten, now, ttl);
      && cseq.Some? && Has(t, OutCseq, key, cseq.value) && Has(t, PendingOutCseq, key, cseq.value)
      && Has(t, PendingMethod, key, method_) && Has(t, PendingInCseq, key, requestCseq)
      && Lookup(t, Field(PendingInvite, key))
         == (if method_ == "INVITE" && rewritten != "" then rewritten else Lookup(m, Field(PendingInvite, key)))
      && SameOthers(m, t, key)
      && SameBut(m, t, key, {Created, OutCseq, PendingOutCseq, PendingMethod, PendingInCseq, PendingInvite})
  {
    InUseIff(m, key, now, ttl);
    TouchEffect(m, key, now, ttl);
    hide Coherent, Touched, InUse, Idle, NextOutCseq;
  }

  // --- Responses ---

  // A response counts if and only if the session is in use, it answers an INVITE and
  // the caller's Via is known; the session is then confirmed if and only if the code
  // is a success or it was confirmed before.  A tagged address is remembered even
  // when the Via is not known.
  lemma ResponseExact(m: Table, key: string, toInvite: bool, remoteTo: Option<string>, code: int, now: Clock, ttl: int)
    requires Coherent(m)
    ensures var (t, ok) := Translated(m, key, toInvite, remoteTo, code, now, ttl);
      && (ok <==> InUse(m, key, now.first, ttl) && toInvite && Lookup(m, Field(InVia, key)) != "")
      && (InUse(m, key, now.first, ttl) ==>
            && SameOthers(m, t, key) && SameBut(m, t, key, {Created, RemoteTo, Status})
            && Lookup(t, Field(RemoteTo, key))
               == (if toInvite && remoteTo.Some? then remoteTo.value else Lookup(m, Field(RemoteTo, key)))
            && Lookup(t, Field(Status, key))
               == (if ok && 200 <= code <= 299 then "confirmed" else Lookup(m, Field(Status, key))))
      && (!InUse(m, key, now.first, ttl) ==> SameOthers(m, t, key) && !Live(t, key))
  {
    InUseIff(m, key, now, ttl);
    TouchEffect(m, key, now, ttl);
    hide Coherent, Touched, InUse, Idle, SameRing, SameIndex;
  }

  // Only a BYE is relayed toward the caller.
  lemma OnlyByeToPeer(m: Table, key: string, method_: string, now: Clock, ttl: int)
    requires Coherent(m)
    ensures var (t, cseq) := SentToPeer(m, key, method_, now, ttl);
      && (cseq.Some? <==> InUse(m, key, now.first, ttl) && method_ == "BYE")
      && (method_ != "BYE" && InUse(m, key, now.first, ttl) ==> OnlyStamped(m, t, key))
  {
    InUseIff(m, key, now, ttl);
    TouchEffect(m, key, now, ttl);
    hide Coherent, Touched, InUse, Idle, PeerNumbered;
  }
}
