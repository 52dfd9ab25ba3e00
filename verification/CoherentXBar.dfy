/**
 The coherent crossbar as an object: its three tables are fields that the
 message handlers update, and the packets it is handed are changed in place.
 Every handler is proved to take the step that module World describes, and the
 assertions in the handlers are those of the source.
 */
module CoherentXBar {
  import opened Common
  import opened Packets
  import opened Snooping
  import opened Routing
  import opened World
  import opened Delivery

  datatype Reply = Accepted | Refusal | Panic

  /** A request as the port below took it. */
  datatype Passed = Passed(k: PacketInfo, s: PacketState)

  class CoherentXBar {
    const c: Config
    var routeTo: map<RequestId, PortId>
    var outstandingSnoop: set<RequestId>
    var outstandingCMO: map<PacketId, Packet?>
    var responses: seq<Message>        // scheduled on slave ports, in order
    var snoopResponses: seq<Message>   // sent on master ports, in order
    var requests: seq<Passed>          // sent on master ports, in order
    var pendingDelete: Packet?         // the last packet that was sunk
    ghost var world: World

    ghost function View(): Tables
      reads this
    {
      Tables(routeTo, outstandingSnoop,
             map i | i in outstandingCMO :: if outstandingCMO[i] == null then None else Some(outstandingCMO[i].info.req))
    }

    /** The packets the crossbar holds on to and may still write. */
    ghost function Parked(): set<Packet?>
      reads this
    {
      set i | i in outstandingCMO && outstandingCMO[i] != null :: outstandingCMO[i]
    }

    ghost predicate Valid()
      reads this
    {
      && ValidConfig(c)
      && Reachable(c, world)
      && world.tables == View()
      && world.delivered == multiset(responses)
      && world.snoopsAnswered == multiset(snoopResponses)
      && ParkedNeedResponse()
    }

    constructor (c: Config)
      requires ValidConfig(c)
      ensures Valid() && this.c == c && world == START && requests == [] && pendingDelete == null
    {
      this.c := c;
      routeTo, outstandingSnoop, outstandingCMO := map[], {}, map[];
      responses, snoopResponses, requests, pendingDelete := [], [], [], null;
      world := START;
      new;
      assert IsRun(c, START, [], START);
    }

    method ForwardTiming(pkt: Packet, exclude: Option<PortId>, dests: seq<PortId>, replies: seq<SnoopReply>)
      returns (ghost responder: Option<PortId>)
      requires !c.bypassCaches && AllBelow(dests, |replies|)
      modifies pkt
      ensures (pkt.state, responder) == Fan(old(pkt.state), exclude, dests, replies)
    {
      responder := None;
      for n := 0 to |dests|
        invariant (pkt.state, responder) == Fan(old(pkt.state), exclude, dests[..n], replies)
      {
        assert dests[..n + 1][..n] == dests[..n];
        if exclude == None || Some(dests[n]) != exclude {
          var reply := replies[dests[n]];
          if !pkt.state.cacheResponding && reply.commits {
            responder := Some(dests[n]);
          }
          pkt.state := AfterSnoop(pkt.state, reply);
        }
      }
      assert dests[..|dests|] == dests;
    }

    /** Whom a request is shown to; with a snoop filter an eviction is shown to nobody. */
    method ShowPacket(pkt: Packet, port: PortId, a: RequestAnswers) returns (ghost responder: Option<PortId>)
      requires !c.bypassCaches && AllBelow(Destinations(c, a.filterDests), |a.replies|)
      modifies pkt
      ensures (pkt.state, responder) == Show(c, pkt.info, old(pkt.state), port, a)
    {
      responder := None;
      if c.snoopFilter {
        if pkt.info.command.isEviction {
          if a.filterDests != [] {
            pkt.state := pkt.state.(blockCached := true);
          }
        } else {
          responder := ForwardTiming(pkt, Some(port), a.filterDests, a.replies);
        }
      } else {
        responder := ForwardTiming(pkt, Some(port), c.snoopPorts, a.replies);
      }
    }

    /** The snooping of a request; s is the packet before its delays were calculated. */
    method SnoopAbove(pkt: Packet, s: PacketState, port: PortId, a: RequestAnswers) returns (ghost responder: Option<PortId>)
      requires AllBelow(Destinations(c, a.filterDests), |a.replies|)
      requires SnoopsCaches(c, pkt.info.command) ==> pkt.state.snoopDelay == 0
      requires pkt.state == Timed(s, a.timedHeader, a.timedPayload)
      modifies pkt
      ensures (pkt.state, responder) == Probe(c, pkt.info, s, port, a)
    {
      responder := None;
      if SnoopsCaches(c, pkt.info.command) {
        assert pkt.state.snoopDelay == 0;
        if c.snoopFilter {
          pkt.state := pkt.state.(headerDelay := pkt.state.headerDelay + a.filterDelay);
        }
        assert pkt.state == Timed(s, a.timedHeader + FilterDelay(c, a.filterDelay), a.timedPayload);
        responder := ShowPacket(pkt, port, a);
        pkt.state := Charged(pkt.state);
      }
    }

    /** Sink, send or turn around; the header delay is restored when the port below refuses. */
    method Dispatch(pkt: Packet, accepts: bool, s: PacketState, ghost responder: Option<PortId>) returns (verdict: Verdict)
      modifies pkt, this`requests
      ensures Attempt(verdict, pkt.state, responder) == Judge(c, pkt.info, s, accepts, old(pkt.state), responder)
      ensures requests == if verdict == Sent then old(requests) + [Passed(pkt.info, pkt.state)] else old(requests)
    {
      if SinkPacket(c, pkt.info.command, pkt.state) {
        return Sunk;
      }
      if ForwardPacket(c, pkt.info) {
        if pkt.state.cacheResponding {
          pkt.state := pkt.state.(express := true);
        }
        if pkt.info.command.isWrite && IsDestination(c, pkt.info) {
          pkt.state := pkt.state.(writeThrough := false);
        }
        if !accepts {
          pkt.state := pkt.state.(headerDelay := s.headerDelay);
          return Refused;
        }
        requests := requests + [Passed(pkt.info, pkt.state)];
        return Sent;
      }
      return Answered;
    }

    method RecordResponse(pkt: Packet, express: bool, committed: bool, verdict: Verdict, port: PortId, ghost t: Attempt)
      returns (reply: Reply)
      requires t.verdict == verdict && t.state == pkt.state && (t.responder.Some? <==> committed)
      requires !RecordRoute(View(), pkt.info, express, t, port).Fails?
      modifies this`routeTo, this`outstandingSnoop
      ensures reply == Panic <==> RecordRoute(old(View()), pkt.info, express, t, port).Panics?
      ensures reply != Panic ==> reply == Accepted && RecordRoute(old(View()), pkt.info, express, t, port) == Leaves(View(), None)
    {
      var k := pkt.info;
      var expectSnoop := committed;
      var expectResponse := k.command.needsResponse && !pkt.state.cacheResponding && verdict != Answered;
      if verdict == Answered {
        assert k.command.needsResponse;
        assert !expectSnoop;
      }
      if !express {
        if expectSnoop {
          assert k.req !in outstandingSnoop;
          outstandingSnoop := outstandingSnoop + {k.req};
          if |outstandingSnoop| > TABLE_LIMIT {
            return Panic;
          }
        }
        if expectResponse || expectSnoop {
          assert k.req !in routeTo;
          routeTo := routeTo[k.req := port];
          if |routeTo| > TABLE_LIMIT {
            return Panic;
          }
        }
      }
      return Accepted;
    }

    /** Handing a response to a slave port's queue. */
    method Respond(pkt: Packet, port: PortId)
      requires pkt.info.command.needsResponse && port < c.slaves
      modifies pkt, this`responses
      ensures responses == old(responses) + [To(pkt.info.req, port)]
      ensures pkt.state == old(pkt.state).(isResponse := true, headerDelay := 0)
    {
      pkt.state := pkt.state.(isResponse := true, headerDelay := 0);
      responses := responses + [To(pkt.info.req, port)];
    }

    /** The parked packets are clean requests, which want an answer. */
    ghost predicate ParkedNeedResponse()
      reads this
    {
      forall i :: i in outstandingCMO && outstandingCMO[i] != null ==> outstandingCMO[i].info.command.needsResponse
    }

    /** The other half of the clean is here already: find out whom to answer, and forget both. */
    method TakePartner(pkt: Packet, port: PortId, ghost t: Attempt) returns (rsp: Packet, rspPort: PortId)
      requires ParkedNeedResponse() && port < c.slaves && pkt.info.id in outstandingCMO
      requires t.state == pkt.state && IsCleanHalf(c, pkt.info, pkt.state) && LegalCommand(pkt.info.command)
      requires !Rendezvous(c, View(), pkt.info, t, port).Fails?
      modifies this`routeTo, this`outstandingCMO
      ensures Rendezvous(c, old(View()), pkt.info, t, port) == Leaves(View(), Some(To(rsp.info.req, rspPort)))
      ensures rsp.info.command.needsResponse && rspPort < c.slaves && (rsp == pkt || rsp in old(Parked()))
      ensures ParkedNeedResponse()
    {
      var k := pkt.info;
      ghost var before := View();
      rsp, rspPort := pkt, port;
      if k.command.isWrite {
        var parked := outstandingCMO[k.id];
        assert before.outstandingCMO[k.id].Some?;
        assert parked != null;
        rsp := parked;
        assert rsp.info.req in routeTo;
        rspPort := routeTo[rsp.info.req];
        assert rspPort < c.slaves;
        routeTo := routeTo - {rsp.info.req};
      }
      outstandingCMO := outstandingCMO - {k.id};
      assert View().outstandingCMO == before.outstandingCMO - {k.id};
    }

    /** The first half of the clean is remembered; a clean request also needs its route. */
    method ParkHalf(pkt: Packet, port: PortId, ghost t: Attempt) returns (reply: Reply)
      requires ParkedNeedResponse() && pkt.info.id !in outstandingCMO
      requires t.state == pkt.state && IsCleanHalf(c, pkt.info, pkt.state) && LegalCommand(pkt.info.command)
      requires !Rendezvous(c, View(), pkt.info, t, port).Fails?
      modifies this`routeTo, this`outstandingCMO
      ensures reply == Panic <==> Rendezvous(c, old(View()), pkt.info, t, port).Panics?
      ensures reply != Panic ==> reply == Accepted && Rendezvous(c, old(View()), pkt.info, t, port) == Leaves(View(), None)
      ensures ParkedNeedResponse()
    {
      var k := pkt.info;
      ghost var before := View();
      outstandingCMO := outstandingCMO[k.id := if k.command.isWrite then null else pkt];
      assert View().outstandingCMO == before.outstandingCMO[k.id := if k.command.isWrite then None else Some(k.req)];
      if !k.command.isWrite {
        assert k.req !in routeTo;
        routeTo := routeTo[k.req := port];
        if |routeTo| > TABLE_LIMIT {
          return Panic;
        }
      }
      return Accepted;
    }

    /** The tail of the request handler: pairing cache cleans and answering directly. */
    method Complete(pkt: Packet, verdict: Verdict, port: PortId, ghost t: Attempt) returns (reply: Reply)
      requires ParkedNeedResponse() && port < c.slaves
      requires t.verdict == verdict && t.state == pkt.state && LegalCommand(pkt.info.command)
      requires !Rendezvous(c, View(), pkt.info, t, port).Fails?
      requires verdict == Answered ==> pkt.info.command.needsResponse
      modifies this`routeTo, this`outstandingCMO, this`responses, pkt, Parked()
      ensures reply == Panic <==> Rendezvous(c, old(View()), pkt.info, t, port).Panics?
      ensures reply != Panic ==>
                && reply == Accepted
                && Rendezvous(c, old(View()), pkt.info, t, port).Leaves?
                && View() == Rendezvous(c, old(View()), pkt.info, t, port).tables
                && multiset(responses) == multiset(old(responses)) + Sole(Rendezvous(c, old(View()), pkt.info, t, port).response)
      ensures ParkedNeedResponse()
    {
      reply := Accepted;
      if ((pkt.info.command.isClean && pkt.state.satisfied) || pkt.info.command.isWriteClean) && IsDestination(c, pkt.info) {
        if pkt.info.id in outstandingCMO {
          var rsp, rspPort := TakePartner(pkt, port, t);
          Respond(rsp, rspPort);
        } else {
          reply := ParkHalf(pkt, port, t);
        }
      } else if verdict == Answered {
        Respond(pkt, port);
      }
    }

    /** Everything up to the point where the tables come in. */
    method HandlePacket(pkt: Packet, port: PortId, a: RequestAnswers) returns (verdict: Verdict, ghost responder: Option<PortId>)
      requires AllBelow(Destinations(c, a.filterDests), |a.replies|)
      requires SnoopsCaches(c, pkt.info.command) ==> pkt.state.snoopDelay == 0
      modifies pkt, this`requests
      ensures Try(c, pkt.info, old(pkt.state), port, a) == Attempt(verdict, pkt.state, responder)
      ensures requests == if verdict == Sent then old(requests) + [Passed(pkt.info, pkt.state)] else old(requests)
    {
      var s := pkt.state;
      if !s.express && !a.layerFree {
        return Refused, None;
      }
      pkt.state := Timed(s, a.timedHeader, a.timedPayload);
      if EarlyRefusal(c, pkt.info, a) {
        return Refused, None;
      }
      responder := SnoopAbove(pkt, s, port, a);
      verdict := Dispatch(pkt, a.accepts, s, responder);
    }

    /** The bookkeeping of an accepted request, tables only. */
    method Tabulate(pkt: Packet, s: PacketState, verdict: Verdict, port: PortId, ghost t: Attempt, ghost book: Outcome)
      returns (reply: Reply)
      requires ParkedNeedResponse() && port < c.slaves && LegalCommand(pkt.info.command)
      requires t.verdict == verdict && t.state == pkt.state
      requires t.responder.Some? <==> !s.cacheResponding && pkt.state.cacheResponding
      requires verdict == Answered ==> pkt.info.command.needsResponse
      requires book == Book(c, View(), pkt.info, s.express, t, port) && !book.Fails?
      modifies this`routeTo, this`outstandingSnoop, this`outstandingCMO, this`responses, this`pendingDelete, pkt, Parked()
      ensures reply in {Accepted, Panic}
      ensures reply != Panic ==> pendingDelete == if verdict == Sunk then pkt else old(pendingDelete)
      ensures reply == Panic <==> book.Panics?
      ensures reply != Panic ==>
                && book.Leaves? && View() == book.tables
                && multiset(responses) == multiset(old(responses)) + Sole(book.response)
                && ParkedNeedResponse()
    {
      reply := RecordResponse(pkt, s.express, !s.cacheResponding && pkt.state.cacheResponding, verdict, port, t);
      if reply != Panic {
        if verdict == Sunk {
          pendingDelete := pkt;
        }
        reply := Complete(pkt, verdict, port, t);
      }
    }

    static ghost predicate Follows(c: Config, w: World, book: Outcome, step: Step) {
      && !book.Fails?
      && (book.Panics? <==> step.Panicked?)
      && (book.Leaves? ==>
            && step.Next? && Reachable(c, step.world)
            && step.world.tables == book.tables
            && step.world.delivered == w.delivered + Sole(book.response)
            && step.world.snoopsAnswered == w.snoopsAnswered)
    }

    /** What the handler may rely on: the bookkeeping cannot fail, and it leads to the next reachable world. */
    static lemma RequestStep(c: Config, w: World, k: PacketInfo, s: PacketState, port: PortId, a: RequestAnswers)
      requires Reachable(c, w) && Allowed(c, w, Request(k, s, port, a))
      ensures var t := Try(c, k, s, port, a);
        var step := Take(c, w, Request(k, s, port, a));
        && LegalCommand(k.command) && port < c.slaves && s.express == s.cacheResponding
        && (SnoopsCaches(c, k.command) ==> s.snoopDelay == 0)
        && (t.responder.Some? <==> !s.cacheResponding && t.state.cacheResponding)
        && (t.verdict.Answered? ==> k.command.needsResponse)
        && (t.verdict.Refused? ==> !s.express && step == Next(w))
        && (!t.verdict.Refused? ==> Follows(c, w, Book(c, w.tables, k, s.express, t, port), step))
    {
      ReachableStep(c, w, Request(k, s, port, a));
      Dispositions(c, k, s, port, a);
      StepIsSettled(c, w, k, s, port, a);
      SettledBooks(c, w, k, s, port, Try(c, k, s, port, a));
    }

    static lemma SettledBooks(c: Config, w: World, k: PacketInfo, s: PacketState, port: PortId, t: Attempt)
      ensures match Book(c, w.tables, k, s.express, t, port)
        case Fails => Settled(c, w, k, s, port, t).Failed?
        case Panics => Settled(c, w, k, s, port, t).Panicked?
        case Leaves(tables, m) =>
          && Settled(c, w, k, s, port, t).Next?
          && var v := Settled(c, w, k, s, port, t).world;
            v.tables == tables && v.delivered == w.delivered + Sole(m) && v.snoopsAnswered == w.snoopsAnswered
    {}

    /** The rest of the handler, once it is known what its bookkeeping leads to. */
    method Account(pkt: Packet, s: PacketState, verdict: Verdict, port: PortId, ghost t: Attempt, ghost book: Outcome, ghost step: Step)
      returns (reply: Reply)
      requires Valid() && LegalCommand(pkt.info.command) && port < c.slaves
      requires t.verdict == verdict && t.state == pkt.state
      requires t.responder.Some? <==> !s.cacheResponding && pkt.state.cacheResponding
      requires verdict == Answered ==> pkt.info.command.needsResponse
      requires verdict == Refused ==> !s.express && step == Next(world)
      requires book == Book(c, View(), pkt.info, s.express, t, port)
      requires verdict != Refused ==> Follows(c, world, book, step)
      modifies this, pkt, Parked()
      ensures reply == Panic <==> step.Panicked?
      ensures reply != Panic ==> Valid() && step == Next(world)
      ensures reply == Refusal <==> verdict == Refused
      ensures reply == Refusal ==> unchanged(this) && unchanged(pkt)
      ensures requests == old(requests)
      ensures reply != Panic ==> pendingDelete == if verdict == Sunk then pkt else old(pendingDelete)
    {
      if verdict == Refused {
        assert !s.express;
        return Refusal;
      }
      ghost var before := multiset(responses);
      reply := Tabulate(pkt, s, verdict, port, t, book);
      if reply != Panic {
        Advance(book, step, before);
      }
    }

    /** The world follows once tables and responses have moved on. */
    ghost method Advance(book: Outcome, step: Step, before: multiset<Message>)
      requires ValidConfig(c) && ParkedNeedResponse() && Follows(c, world, book, step) && book.Leaves?
      requires View() == book.tables && world.delivered == before && multiset(responses) == before + Sole(book.response)
      requires world.snoopsAnswered == multiset(snoopResponses)
      modifies this`world
      ensures Valid() && world == step.world
    {
      world := step.world;
    }

    method RecvTimingReq(pkt: Packet, port: PortId, a: RequestAnswers) returns (reply: Reply)
      requires Valid() && Allowed(c, world, Request(pkt.info, pkt.state, port, a))
      modifies this, pkt, Parked()
      ensures reply == Panic <==> Take(c, old(world), old(Request(pkt.info, pkt.state, port, a))).Panicked?
      ensures reply != Panic ==> Valid() && Take(c, old(world), old(Request(pkt.info, pkt.state, port, a))) == Next(world)
      ensures reply == Refusal <==> Try(c, pkt.info, old(pkt.state), port, a).verdict.Refused?
      ensures reply == Refusal ==> unchanged(this) && pkt.state == Try(c, pkt.info, old(pkt.state), port, a).state
      ensures var t := Try(c, pkt.info, old(pkt.state), port, a);
        && requests == (if t.verdict.Sent? then old(requests) + [Passed(pkt.info, t.state)] else old(requests))
        && (reply != Panic ==> pendingDelete == if t.verdict.Sunk? then pkt else old(pendingDelete))
    {
      RequestStep(c, world, pkt.info, pkt.state, port, a);
      assert pkt.state.express == pkt.state.cacheResponding;
      ghost var t, step := Try(c, pkt.info, pkt.state, port, a), Take(c, world, Request(pkt.info, pkt.state, port, a));
      reply := Handle(pkt, port, a, t, Book(c, View(), pkt.info, pkt.state.express, t, port), step);
    }

    /** The handler proper, once it is known what its bookkeeping leads to. */
    method Handle(pkt: Packet, port: PortId, a: RequestAnswers, ghost t: Attempt, ghost book: Outcome, ghost step: Step)
      returns (reply: Reply)
      requires Valid() && LegalCommand(pkt.info.command) && port < c.slaves
      requires AllBelow(Destinations(c, a.filterDests), |a.replies|)
      requires SnoopsCaches(c, pkt.info.command) ==> pkt.state.snoopDelay == 0
      requires t == Try(c, pkt.info, pkt.state, port, a)
      requires t.responder.Some? <==> !pkt.state.cacheResponding && t.state.cacheResponding
      requires t.verdict.Answered? ==> pkt.info.command.needsResponse
      requires t.verdict.Refused? ==> !pkt.state.express && step == Next(world)
      requires book == Book(c, View(), pkt.info, pkt.state.express, t, port)
      requires !t.verdict.Refused? ==> Follows(c, world, book, step)
      modifies this, pkt, Parked()
      ensures reply == Panic <==> step.Panicked?
      ensures reply != Panic ==> Valid() && step == Next(world)
      ensures reply == Refusal <==> t.verdict.Refused?
      ensures reply == Refusal ==> unchanged(this) && pkt.state == t.state
      ensures requests == if t.verdict.Sent? then old(requests) + [Passed(pkt.info, t.state)] else old(requests)
      ensures reply != Panic ==> pendingDelete == if t.verdict.Sunk? then pkt else old(pendingDelete)
    {
      var s := pkt.state;
      ghost var responder;
      var verdict;
      verdict, responder := HandlePacket(pkt, port, a);
      reply := Account(pkt, s, verdict, port, t, book, step);
    }

    method RecvTimingResp(pkt: Packet, layerFree: bool) returns (accepted: bool)
      requires Valid() && Allowed(c, world, Response(pkt.info.req, layerFree))
      modifies this, pkt
      ensures Valid() && Take(c, old(world), Response(pkt.info.req, layerFree)) == Next(world)
      ensures accepted == layerFree
      ensures !accepted ==> unchanged(this) && unchanged(pkt)
      ensures accepted ==> old(pkt.info.req in routeTo) && responses == old(responses) + [To(pkt.info.req, old(routeTo[pkt.info.req]))]
      ensures accepted ==> pkt.state == old(pkt.state).(headerDelay := 0)
      ensures requests == old(requests) && pendingDelete == old(pendingDelete)
    {
      var req := pkt.info.req;
      ghost var e := Response(req, layerFree);
      ReachableStep(c, world, e);
      ghost var next := Take(c, world, e).world;
      assert req in routeTo;
      var port := routeTo[req];
      assert port < c.slaves;
      if !layerFree {
        return false;
      }
      pkt.state := pkt.state.(headerDelay := 0);
      responses := responses + [To(req, port)];
      routeTo := routeTo - {req};
      world := next;
      return true;
    }

    method RecvTimingSnoopReq(pkt: Packet, master: PortId, a: SnoopAnswers)
      requires Valid() && Allowed(c, world, Snoop(pkt.info, pkt.state, master, a))
      modifies this, pkt
      ensures Valid() && Take(c, old(world), old(Snoop(pkt.info, pkt.state, master, a))) == Next(world)
      ensures pkt.state == ProbeFromBelow(c, old(pkt.state), a).0
      ensures responses == old(responses) && snoopResponses == old(snoopResponses)
      ensures requests == old(requests) && pendingDelete == old(pendingDelete)
    {
      ghost var e := Snoop(pkt.info, pkt.state, master, a);
      ReachableStep(c, world, e);
      ghost var next := Take(c, world, e).world;
      assert pkt.state.express;
      var s := pkt.state;
      ghost var responder := ProbeBelow(pkt, a);
      FanResponder(Timed(s, a.timedHeader + FilterDelay(c, a.filterDelay), a.timedPayload),
                   None, Destinations(c, a.filterDests), a.replies);
      if !s.cacheResponding && pkt.state.cacheResponding {
        assert pkt.info.req !in routeTo;
        routeTo := routeTo[pkt.info.req := master];
      }
      assert a.home == master;
      world := next;
    }

    method ProbeBelow(pkt: Packet, a: SnoopAnswers) returns (ghost responder: Option<PortId>)
      requires !c.bypassCaches && AllBelow(Destinations(c, a.filterDests), |a.replies|) && pkt.state.snoopDelay == 0
      modifies pkt
      ensures (pkt.state, responder) == ProbeFromBelow(c, old(pkt.state), a)
    {
      pkt.state := Timed(pkt.state, a.timedHeader, a.timedPayload);
      if c.snoopFilter {
        pkt.state := pkt.state.(headerDelay := pkt.state.headerDelay + a.filterDelay);
      }
      assert pkt.state == Timed(old(pkt.state), a.timedHeader + FilterDelay(c, a.filterDelay), a.timedPayload);
      responder := ForwardTiming(pkt, None, Destinations(c, a.filterDests), a.replies);
      pkt.state := Charged(pkt.state);
    }

    /** Where a snoop response goes, tables only. */
    method RouteSnoopResp(pkt: Packet, port: PortId, snoopLayerFree: bool, respLayerFree: bool, taken: bool) returns (accepted: bool)
      requires !pkt.state.express
      requires !SnoopResponseOutcome(c, View(), pkt.info.req, port, snoopLayerFree, respLayerFree, taken).Fails?
      modifies this`routeTo, this`outstandingSnoop, this`responses, this`snoopResponses, pkt
      ensures SnoopResponseOutcome(c, old(View()), pkt.info.req, port, snoopLayerFree, respLayerFree, taken) ==
              Leaves(View(), if accepted then Some(To(pkt.info.req, old(routeTo[pkt.info.req]))) else None)
      ensures accepted == if old(pkt.info.req in outstandingSnoop) then respLayerFree else snoopLayerFree
      ensures !accepted ==> unchanged(this) && unchanged(pkt)
      ensures accepted ==>
                var m := To(pkt.info.req, old(routeTo[pkt.info.req]));
                if old(pkt.info.req in outstandingSnoop)
                then responses == old(responses) + [m] && snoopResponses == old(snoopResponses) && m.port != port
                else responses == old(responses) && snoopResponses == old(snoopResponses) + [m]
    {
      var req := pkt.info.req;
      assert req in routeTo;
      var dest := routeTo[req];
      var forwardAsSnoop := req !in outstandingSnoop;
      if forwardAsSnoop {
        assert dest < c.masters;
        if !snoopLayerFree {
          return false;
        }
      } else {
        assert dest < c.slaves;
        if !respLayerFree {
          return false;
        }
      }
      assert !pkt.state.express;
      if forwardAsSnoop {
        assert taken;
        snoopResponses := snoopResponses + [To(req, dest)];
      } else {
        outstandingSnoop := outstandingSnoop - {req};
        assert port != dest;
        pkt.state := pkt.state.(headerDelay := 0);
        responses := responses + [To(req, dest)];
      }
      routeTo := routeTo - {req};
      return true;
    }

    /** What the handler of snoop responses may rely on. */
    static lemma SnoopResponseStep(c: Config, w: World, req: RequestId, port: PortId, snoopLayerFree: bool, respLayerFree: bool, taken: bool)
      requires Reachable(c, w) && Allowed(c, w, SnoopResponse(req, port, snoopLayerFree, respLayerFree, taken))
      ensures var o := SnoopResponseOutcome(c, w.tables, req, port, snoopLayerFree, respLayerFree, taken);
        var step := Take(c, w, SnoopResponse(req, port, snoopLayerFree, respLayerFree, taken));
        o.Leaves? && step.Next? && Answers(c, w, GoesDown(w.tables, req), o, step.world)
    {
      ReachableStep(c, w, SnoopResponse(req, port, snoopLayerFree, respLayerFree, taken));
    }

    /** World v follows w when a snoop response has left, down to where the snoop came from or up as a response. */
    static ghost predicate Answers(c: Config, w: World, down: bool, o: Outcome, v: World)
      requires o.Leaves?
    {
      && Reachable(c, v) && v.tables == o.tables && (o.response.None? ==> v == w)
      && v.delivered == w.delivered + (if down then multiset{} else Sole(o.response))
      && v.snoopsAnswered == w.snoopsAnswered + (if down then Sole(o.response) else multiset{})
    }

    method RecvTimingSnoopResp(pkt: Packet, port: PortId, snoopLayerFree: bool, respLayerFree: bool, taken: bool) returns (accepted: bool)
      requires Valid() && Allowed(c, world, SnoopResponse(pkt.info.req, port, snoopLayerFree, respLayerFree, taken))
      requires !pkt.state.express
      modifies this, pkt
      ensures Valid() && Take(c, old(world), SnoopResponse(pkt.info.req, port, snoopLayerFree, respLayerFree, taken)) == Next(world)
      ensures !accepted ==> unchanged(this) && unchanged(pkt)
      ensures requests == old(requests) && pendingDelete == old(pendingDelete)
      ensures old(pkt.info.req in routeTo)
      ensures accepted ==>
                var m := To(pkt.info.req, old(routeTo[pkt.info.req]));
                if old(pkt.info.req in outstandingSnoop)
                then responses == old(responses) + [m] && snoopResponses == old(snoopResponses) && m.port != port
                else responses == old(responses) && snoopResponses == old(snoopResponses) + [m]
    {
      SnoopResponseStep(c, world, pkt.info.req, port, snoopLayerFree, respLayerFree, taken);
      accepted := HandleSnoopResp(pkt, port, snoopLayerFree, respLayerFree, taken,
                                  Take(c, world, SnoopResponse(pkt.info.req, port, snoopLayerFree, respLayerFree, taken)).world);
    }

    method HandleSnoopResp(pkt: Packet, port: PortId, snoopLayerFree: bool, respLayerFree: bool, taken: bool, ghost next: World)
      returns (accepted: bool)
      requires Valid() && !pkt.state.express
      requires SnoopResponseOutcome(c, View(), pkt.info.req, port, snoopLayerFree, respLayerFree, taken).Leaves?
      requires Answers(c, world, GoesDown(View(), pkt.info.req),
                       SnoopResponseOutcome(c, View(), pkt.info.req, port, snoopLayerFree, respLayerFree, taken), next)
      modifies this, pkt
      ensures Valid() && world == next
      ensures !accepted ==> unchanged(this) && unchanged(pkt)
      ensures requests == old(requests) && pendingDelete == old(pendingDelete)
      ensures old(pkt.info.req in routeTo)
      ensures accepted ==>
                var m := To(pkt.info.req, old(routeTo[pkt.info.req]));
                if old(pkt.info.req in outstandingSnoop)
                then responses == old(responses) + [m] && snoopResponses == old(snoopResponses) && m.port != port
                else responses == old(responses) && snoopResponses == old(snoopResponses) + [m]
    {
      accepted := RouteSnoopResp(pkt, port, snoopLayerFree, respLayerFree, taken);
      if accepted {
        world := next;
      }
    }
  }
}
