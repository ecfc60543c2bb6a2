// The relay's own objects: legs and sessions updated in place, the session table
// and the sockets it holds. Every method refines the step of the same name in the
// value model.
module MediaRelay {
  import opened Bencode
  import opened RelayHistory
  import opened RelayLaws
  import opened Sdp
  import opened Text
  import Model = RelayModel

  class Leg {
    const sock: nat
    const port: int
    const advertised: Model.Endpoint
    ghost const place: Model.Place
    var observed: Option<Model.Endpoint>

    constructor (sock: nat, port: int, advertised: Model.Endpoint, ghost place: Model.Place)
      ensures this.sock == sock && this.place == place
      ensures View() == Model.Leg(sock, port, advertised, None)
    {
      this.sock, this.port, this.advertised, this.place := sock, port, advertised, place;
      observed := None;
    }

    ghost function View(): Model.Leg
      reads this
    {
      Model.Leg(sock, port, advertised, observed)
    }
  }

  class Session {
    const callId: string
    const fromTag: string
    const offer: Leg
    var toTag: string
    var answer: Leg?
    var lastActivity: real

    constructor (callId: string, fromTag: string, offer: Leg, now: real)
      ensures this.callId == callId && this.offer == offer && answer == null
      ensures View() == Model.Session(fromTag, offer.View(), "", None, now)
    {
      this.callId, this.fromTag, this.offer := callId, fromTag, offer;
      toTag, answer, lastActivity := "", null, now;
    }

    ghost function View(): Model.Session
      reads this, offer, answer
    {
      Model.Session(fromTag, offer.View(), toTag, if answer == null then None else Some(answer.View()), lastActivity)
    }

    ghost function Objects(): set<object>
      reads this
    {
      {this, offer} + if answer == null then {} else {answer}
    }

    // A session lies within the objects of its owner; each leg knows its call and side, so no two
    // sessions can share one.
    ghost predicate Owned(key: string, owner: set<object>)
      reads this
    {
      && callId == key && this in owner
      && offer in owner && offer.place == Model.Place(key, true)
      && (answer != null ==> answer in owner && answer.place == Model.Place(key, false))
    }
  }

  ghost predicate AllOwned(table: map<string, Session>, owner: set<object>)
    reads owner
  {
    forall k :: k in table ==> table[k] in owner && table[k].Owned(k, owner)
  }

  ghost function Views(table: map<string, Session>, owner: set<object>): map<string, Model.Session>
    requires AllOwned(table, owner)
    reads owner
  {
    map k | k in table :: table[k].View()
  }

  lemma ViewsKeys(table: map<string, Session>, owner: set<object>)
    requires AllOwned(table, owner)
    ensures Views(table, owner).Keys == table.Keys && |Views(table, owner)| == |table|
  {
    assert Views(table, owner).Keys == table.Keys;
    assert |table| == |table.Keys| && |Views(table, owner)| == |Views(table, owner).Keys|;
  }

  lemma SessionAt(table: map<string, Session>, owner: set<object>, key: string)
    requires AllOwned(table, owner) && key in table
    ensures table[key] in owner && table[key].Owned(key, owner)
    ensures key in Views(table, owner) && Views(table, owner)[key] == table[key].View()
  {
  }

  lemma ViewsWithout(table: map<string, Session>, owner: set<object>, key: string)
    requires AllOwned(table, owner)
    ensures AllOwned(table - {key}, owner)
    ensures Views(table - {key}, owner) == Views(table, owner) - {key}
  {
  }

  lemma ViewsWith(table: map<string, Session>, owner: set<object>, key: string, x: Session, larger: set<object>)
    requires AllOwned(table, owner) && owner <= larger && x in larger && x.Owned(key, larger)
    ensures AllOwned(table[key := x], larger)
    ensures Views(table[key := x], larger) == Views(table, owner)[key := x.View()]
  {
    forall k | k in table ensures table[k] in larger && table[k].Owned(k, larger) {
    }
  }

  // A session's own objects are no other session's.
  lemma ViewsOfOthers(table: map<string, Session>, owner: set<object>, key: string)
    requires AllOwned(table, owner) && key in table
    ensures table[key].Owned(key, owner) && table[key] in owner
    ensures AllOwned(table - {key}, owner - table[key].Objects())
    ensures Views(table - {key}, owner - table[key].Objects()) == Views(table, owner) - {key}
    ensures (table - {key})[key := table[key]] == table
  {
    forall k | k in table && k != key
      ensures table[k] in owner - table[key].Objects() && table[k].Owned(k, owner - table[key].Objects())
    {
      assert table[k].Owned(k, owner) && table[key].Owned(key, owner);
    }
  }

  lemma DeleteAbsent(s: Model.State, callId: string)
    requires callId !in s.sessions
    ensures Model.Delete(s, callId) == s
  {
  }

  class MediaRelay {
    const cfg: Model.Config
    var sessions: map<string, Session>
    var open: map<nat, int>
    var nextSock: nat
    ghost var Repr: set<object>

    ghost predicate Valid()
      reads this, Repr
    {
      this !in Repr && AllOwned(sessions, Repr)
    }

    ghost function View(): Model.State
      requires Valid()
      reads this, Repr
    {
      Model.State(Views(sessions, Repr), open, nextSock)
    }

    constructor (cfg: Model.Config)
      requires Model.ValidConfig(cfg)
      ensures Valid() && fresh(Repr) && this.cfg == cfg && View() == Model.INITIAL
    {
      this.cfg := cfg;
      sessions, open, nextSock, Repr := map[], map[], 0, {};
    }

    // Make a socket and try each port of the range in turn.
    method AllocateSocket(host: Model.Host) returns (sock: nat, port: Result<int>)
      requires Valid()
      modifies this`open, this`nextSock
      ensures Valid() && sock == old(nextSock)
      ensures (View(), port) == Model.Allocate(old(View()), cfg, host)
    {
      hide AllOwned, Views;
      sock := nextSock;
      if host.refusal.Some? {
        return sock, Err(host.refusal.value);
      }
      nextSock := nextSock + 1;
      var candidate := cfg.mediaMin;
      while candidate <= cfg.mediaMax
        invariant open == old(open)
        invariant Model.FirstFree(cfg.mediaMin, cfg.mediaMax, open.Values + host.held)
               == Model.FirstFree(candidate, cfg.mediaMax, open.Values + host.held)
        decreases cfg.mediaMax + 1 - candidate
      {
        if candidate !in open.Values && candidate !in host.held {
          open := open[sock := candidate];
          return sock, Ok(candidate);
        }
        candidate := candidate + 1;
      }
      port := Err("media port range exhausted");
      assert Model.FirstFree(candidate, cfg.mediaMax, open.Values + host.held).None?;
    }

    method CloseLeg(leg: Leg?)
      modifies this`open
      ensures open == if leg == null then old(open) else old(open) - {leg.sock}
    {
      if leg != null {
        open := open - {leg.sock};
      }
    }

    method DeleteSession(callId: string) returns (found: bool)
      requires Valid()
      modifies this`sessions, this`open
      ensures Valid() && sessions == old(sessions) - {callId}
      ensures found <==> callId in old(sessions)
      ensures View() == Model.Delete(old(View()), callId)
    {
      hide AllOwned, Views;
      if callId !in sessions {
        assert sessions == sessions - {callId};
        ViewsKeys(sessions, Repr);
        return false;
      }
      var session := sessions[callId];
      SessionAt(sessions, Repr, callId);
      ViewsWithout(sessions, Repr, callId);
      sessions := sessions - {callId};
      CloseLeg(session.offer);
      CloseLeg(session.answer);
      assert open == old(open) - Model.SocksOf(old(session.View()));
      return true;
    }

    // Read the body, bind a socket for it and rewrite it; close the socket again
    // when the body cannot be rewritten.
    method PrepareLeg(place: Model.Place, sdp: string, host: Model.Host) returns (leg: Leg?, rewritten: Result<string>)
      requires Valid()
      modifies this`open, this`nextSock
      ensures Valid()
      ensures leg != null ==> fresh(leg) && leg.place == place && rewritten.Ok?
      ensures leg == null ==> rewritten.Err?
      ensures (View(), if leg == null then Err(rewritten.error) else Ok(Model.Prepared(leg.View(), rewritten.value)))
           == Model.PrepareLeg(old(View()), cfg, sdp, host)
    {
      hide AllOwned, Views, Model.FirstFree, ParseSdp, RewriteSdp;
      leg := null;
      var description := ParseSdp(sdp, cfg.ip);
      if description.Err? {
        return null, Err(description.error);
      }
      var sock, port := AllocateSocket(host);
      if port.Err? {
        return null, Err(port.error);
      }
      rewritten := RewriteSdp(sdp, cfg.mediaIp, port.value, cfg.ip);
      if rewritten.Err? {
        var unused := new Leg(sock, port.value, Model.Endpoint("0.0.0.0", 1), place);
        CloseLeg(unused);
        return;
      }
      leg := new Leg(sock, port.value, Model.Endpoint(description.value.address, description.value.port), place);
    }

    method AddSession(callId: string, fromTag: string, leg: Leg, now: real)
      requires Valid() && leg.place == Model.Place(callId, true)
      modifies this`sessions, this`Repr
      ensures Valid() && fresh(Repr - old(Repr) - {leg})
      ensures Views(sessions, Repr)
           == old(Views(sessions, Repr))[callId := Model.Session(fromTag, leg.View(), "", None, now)]
    {
      hide AllOwned, Views;
      var session := new Session(callId, fromTag, leg, now);
      ViewsWith(sessions, Repr, callId, session, Repr + {session, leg});
      sessions := sessions[callId := session];
      Repr := Repr + {session, leg};
    }

    method Offer(callId: string, fromTag: string, sdp: string, now: real, host: Model.Host) returns (reply: Value)
      requires Valid()
      modifies this
      ensures Valid() && fresh(Repr - old(Repr))
      ensures (View(), reply) == Model.Offer(old(View()), cfg, callId, fromTag, sdp, now, host)
    {
      hide AllOwned, Views, Model.Delete, Model.PrepareLeg, Model.SdpReply, Model.ErrorReply;
      ViewsKeys(sessions, Repr);
      if callId in sessions {
        var _ := DeleteSession(callId);
        ViewsKeys(sessions, Repr);
      } else {
        DeleteAbsent(View(), callId);
      }
      if |sessions| >= cfg.maxSessions {
        return Model.ErrorReply("capacity-exhausted");
      }
      var leg, rewritten := PrepareLeg(Model.Place(callId, true), sdp, host);
      if leg == null {
        return Model.ErrorReply(rewritten.error);
      }
      AddSession(callId, fromTag, leg, now);
      reply := Model.SdpReply(rewritten.value);
    }

    method AttachAnswer(session: Session, toTag: string, leg: Leg, now: real)
      requires Valid() && session.callId in sessions && sessions[session.callId] == session
      requires leg.place == Model.Place(session.callId, false)
      modifies session`toTag, session`answer, session`lastActivity
      ensures AllOwned(sessions, Repr + {leg})
      ensures Views(sessions, Repr + {leg})
           == old(Views(sessions, Repr))[session.callId :=
                old(session.View()).(toTag := toTag, answer := Some(leg.View()), lastActivity := now)]
    {
      hide AllOwned, Views;
      ghost var key, others := session.callId, Repr - session.Objects();
      ViewsOfOthers(sessions, Repr, key);
      SessionAt(sessions, Repr, key);
      session.toTag := toTag;
      session.answer := leg;
      session.lastActivity := now;
      ViewsWith(sessions - {key}, others, key, session, Repr + {leg});
    }

    method Answer(callId: string, fromTag: string, toTag: string, sdp: string, now: real, host: Model.Host)
      returns (reply: Value)
      requires Valid()
      modifies this, Repr
      ensures Valid() && fresh(Repr - old(Repr))
      ensures (View(), reply) == Model.Answer(old(View()), cfg, callId, fromTag, toTag, sdp, now, host)
    {
      hide AllOwned, Views, Model.PrepareLeg, Model.SdpReply, Model.ErrorReply;
      ViewsKeys(sessions, Repr);
      if callId !in sessions {
        return Model.ErrorReply("unknown-or-reused-dialog");
      }
      var session := sessions[callId];
      SessionAt(sessions, Repr, callId);
      if session.fromTag != fromTag || session.answer != null {
        return Model.ErrorReply("unknown-or-reused-dialog");
      }
      var leg, rewritten := PrepareLeg(Model.Place(callId, false), sdp, host);
      if leg == null {
        return Model.ErrorReply(rewritten.error);
      }
      AttachAnswer(session, toTag, leg, now);
      Repr := Repr + {leg};
      reply := Model.SdpReply(rewritten.value);
    }

    method HandlePayload(payload: bytes, now: real, host: Model.Host) returns (response: bytes)
      requires Valid()
      modifies this, Repr
      ensures Valid() && fresh(Repr - old(Repr))
      ensures (View(), response) == Model.HandlePayload(old(View()), cfg, payload, now, host)
    {
      hide AllOwned, Views, Model.ReadCommand, Model.Offer, Model.Answer, Model.Delete, Model.Send, Model.ErrorReply;
      var command := Model.ReadCommand(payload);
      if command.Err? {
        return Model.Send(Model.ErrorReply(command.error));
      }
      var reply: Value;
      match command.value {
        case Ping =>
          reply := Model.OK_REPLY;
        case DeleteCall(callId) =>
          var _ := DeleteSession(callId);
          reply := Model.OK_REPLY;
        case OfferCall(callId, fromTag, sdp) =>
          reply := Offer(callId, fromTag, sdp, now, host);
        case AnswerCall(callId, fromTag, toTag, sdp) =>
          reply := Answer(callId, fromTag, toTag, sdp, now, host);
        case Unsupported =>
          reply := Model.ErrorReply("unsupported-command");
      }
      response := Model.Send(reply);
    }

    method HandleControlSocket(data: bytes, allowed: bool, now: real, host: Model.Host) returns (reply: Option<bytes>)
      requires Valid()
      modifies this, Repr
      ensures Valid() && fresh(Repr - old(Repr))
      ensures (View(), reply) == Model.HandleControl(old(View()), cfg, data, allowed, now, host)
    {
      hide AllOwned, Views, Model.HandlePayload, Model.ControlParts;
      var packet := Model.ReceivedControl(data);
      if !allowed {
        return None;
      }
      var parts := Model.ControlParts(packet);
      if parts.None? {
        return None;
      }
      var response := HandlePayload(parts.value.1, now, host);
      reply := Some(parts.value.0 + [32] + response);
      if |reply.value| > host.largest {
        reply := None;
      }
    }

    ghost predicate HasLeg(session: Session, leg: Leg)
      reads this, session
    {
      && session.callId in sessions && sessions[session.callId] == session
      && (leg == session.offer || leg == session.answer)
    }

    // The table is searched for the session that holds this very leg object.
    method FindPeer(session: Session, leg: Leg) returns (target: Leg?)
      requires Valid() && HasLeg(session, leg)
      ensures target == if leg == session.offer then session.answer else session.offer
    {
      hide Views;
      var rest := sessions.Keys;
      target := null;
      while rest != {}
        invariant rest <= sessions.Keys && session.callId in rest
        decreases |rest|
      {
        var k :| k in rest;
        var candidate := sessions[k];
        if candidate.offer == leg {
          return candidate.answer;
        }
        if candidate.answer == leg {
          return candidate.offer;
        }
        rest := rest - {k};
      }
    }

    method LatchSource(session: Session, leg: Leg, source: Model.Endpoint, now: real)
      requires Valid() && HasLeg(session, leg)
      modifies session`lastActivity, leg`observed
      ensures AllOwned(sessions, Repr)
      ensures Views(sessions, Repr)
           == old(Views(sessions, Repr))[session.callId :=
                Model.Latch(old(session.View()), leg == session.offer, source, now)]
    {
      hide AllOwned, Views;
      ghost var key, others := session.callId, Repr - session.Objects();
      ViewsOfOthers(sessions, Repr, key);
      SessionAt(sessions, Repr, key);
      leg.observed := Some(source);
      session.lastActivity := now;
      ViewsWith(sessions - {key}, others, key, session, Repr);
    }

    method RelayPacket(session: Session, leg: Leg, packet: bytes, source: Model.Endpoint, now: real)
      returns (sent: Option<Model.Sent>)
      requires Valid() && HasLeg(session, leg)
      modifies session`lastActivity, leg`observed
      ensures Valid()
      ensures (View(), sent) == Model.RelayPacket(old(View()), leg.place, packet, source, now)
    {
      hide AllOwned, Views, Model.ValidRtp;
      SessionAt(sessions, Repr, session.callId);
      if !Model.ValidRtp(packet) {
        return None;
      }
      if leg.observed.Some? && leg.observed.value != source {
        return None;
      }
      LatchSource(session, leg, source, now);
      var target := FindPeer(session, leg);
      if target == null {
        return None;
      }
      var destination := if target.observed.Some? then target.observed.value else target.advertised;
      sent := Some(Model.Sent(target.sock, packet, destination));
    }

    method HandleMediaSocket(sock: nat, data: bytes, source: Model.Endpoint, now: real)
      returns (sent: Option<Model.Sent>)
      requires Valid() && Inv(View(), cfg)
      modifies Repr
      ensures Valid()
      ensures (View(), sent) == Model.HandleMedia(old(View()), sock, data, source, now)
    {
      hide Inv, AllOwned, Views, Model.HandleMedia, Model.RelayPacket, Model.Received;
      var packet := Model.Received(data);
      var rest := sessions.Keys;
      ViewsKeys(sessions, Repr);
      while rest != {}
        invariant Valid() && View() == old(View()) && rest <= sessions.Keys
        invariant forall place :: Model.Holds(View(), place, sock) ==> place.callId in rest
        decreases |rest|
      {
        var k :| k in rest;
        var session := sessions[k];
        SessionAt(sessions, Repr, k);
        if session.offer.sock == sock {
          MediaAtPlace(View(), cfg, Model.Place(k, true), sock, data, source, now);
          sent := RelayPacket(session, session.offer, packet, source, now);
          return;
        }
        if session.answer != null && session.answer.sock == sock {
          MediaAtPlace(View(), cfg, Model.Place(k, false), sock, data, source, now);
          sent := RelayPacket(session, session.answer, packet, source, now);
          return;
        }
        rest := rest - {k};
      }
      sent := None;
      MediaNowhere(View(), sock, data, source, now);
    }

    method ExpireSessions(now: real)
      requires Valid()
      modifies this`sessions, this`open
      ensures Valid() && View() == Model.Expire(old(View()), cfg, now)
    {
      hide AllOwned, Views, Model.Delete, Model.DeleteAll;
      var deadline := now - cfg.timeout;
      var items := sessions;
      var rest := items.Keys;
      ghost var overdue := Model.Overdue(View(), cfg, now);
      ViewsKeys(sessions, Repr);
      forall k | k in items ensures k in overdue <==> items[k].lastActivity <= deadline {
        SessionAt(sessions, Repr, k);
      }
      assert overdue * rest == overdue;
      while rest != {}
        invariant Valid() && rest <= items.Keys
        invariant forall k :: k in items ==> (k in overdue <==> items[k].lastActivity <= deadline)
        invariant Model.DeleteAll(old(View()), overdue) == Model.DeleteAll(View(), overdue * rest)
        decreases |rest|
      {
        var k :| k in rest;
        if items[k].lastActivity <= deadline {
          DeleteAllStep(View(), cfg, overdue * rest, k);
          var _ := DeleteSession(k);
          assert overdue * rest - {k} == overdue * (rest - {k});
        } else {
          assert overdue * rest == overdue * (rest - {k});
        }
        rest := rest - {k};
      }
      assert overdue * rest == {};
      DeleteNone(View());
    }

    method Close()
      requires Valid()
      modifies this`sessions, this`open
      ensures Valid() && View() == Model.Close(old(View()))
    {
      hide AllOwned, Views, Model.Delete, Model.DeleteAll;
      var rest := sessions.Keys;
      ViewsKeys(sessions, Repr);
      while rest != {}
        invariant Valid()
        invariant Model.Close(old(View())) == Model.DeleteAll(View(), rest)
        decreases |rest|
      {
        var k :| k in rest;
        DeleteAllStep(View(), cfg, rest, k);
        var _ := DeleteSession(k);
        rest := rest - {k};
      }
      DeleteNone(View());
    }
  }
}
