/** What holds over every run of the crossbar. */
module Delivery {
  import opened Common
  import opened Packets
  import opened Snooping
  import opened Routing
  import opened World

  /** Where a message leads, if it is allowed and does not panic. */
  ghost function Advance(c: Config): (World, Event) -> Option<World> {
    (w, e) => if Allowed(c, w, e) && Take(c, w, e).Next? then Some(Take(c, w, e).world) else None
  }

  ghost predicate Leads(next: (World, Event) -> Option<World>, w: World, es: seq<Event>, v: World)
    decreases |es|
  {
    if es == [] then v == w
    else next(w, es[0]).Some? && Leads(next, next(w, es[0]).value, es[1..], v)
  }

  /** The events es, each allowed when its turn comes, lead from w to v without a panic. */
  ghost predicate IsRun(c: Config, w: World, es: seq<Event>, v: World) {
    Leads(Advance(c), w, es, v)
  }

  lemma RunStarts(c: Config, w: World, es: seq<Event>, v: World)
    requires IsRun(c, w, es, v) && es != []
    ensures Allowed(c, w, es[0]) && Take(c, w, es[0]).Next?
    ensures IsRun(c, Take(c, w, es[0]).world, es[1..], v)
  {}

  lemma {:induction false} RunKeepsInv(c: Config, w: World, es: seq<Event>, v: World)
    requires Inv(c, w) && IsRun(c, w, es, v)
    ensures Inv(c, v)
    decreases |es|
  {
    if es != [] {
      RunStarts(c, w, es, v);
      StepKeepsInv(c, w, es[0]);
      RunKeepsInv(c, Take(c, w, es[0]).world, es[1..], v);
    }
  }

  lemma {:induction false} LeadsJoin(next: (World, Event) -> Option<World>, w: World, es: seq<Event>, v: World, fs: seq<Event>, x: World)
    requires Leads(next, w, es, v) && Leads(next, v, fs, x)
    ensures Leads(next, w, es + fs, x)
    decreases |es|
  {
    if es == [] {
      assert es + fs == fs;
    } else {
      LeadsJoin(next, next(w, es[0]).value, es[1..], v, fs, x);
      assert (es + fs)[1..] == es[1..] + fs;
    }
  }

  lemma OneStep(c: Config, w: World, e: Event)
    requires Allowed(c, w, e) && Take(c, w, e).Next?
    ensures IsRun(c, w, [e], Take(c, w, e).world)
  {
    var v := Take(c, w, e).world;
    assert Advance(c)(w, e) == Some(v);
    assert [e][1..] == [];
  }

  ghost predicate Reachable(c: Config, w: World) {
    exists es :: IsRun(c, START, es, w)
  }

  lemma ReachableInv(c: Config, w: World)
    requires Reachable(c, w)
    ensures Inv(c, w)
  {
    var es :| IsRun(c, START, es, w);
    StartInv(c);
    RunKeepsInv(c, START, es, w);
  }

  /** In a reachable state no assertion of the source fails, and the next state is reachable again. */
  lemma ReachableStep(c: Config, w: World, e: Event)
    requires Reachable(c, w) && Allowed(c, w, e)
    ensures !Take(c, w, e).Failed?
    ensures Take(c, w, e).Next? ==> Reachable(c, Take(c, w, e).world)
  {
    ReachableInv(c, w);
    StepKeepsInv(c, w, e);
    if Take(c, w, e).Next? {
      var es :| IsRun(c, START, es, w);
      OneStep(c, w, e);
      LeadsJoin(Advance(c), START, es, w, [e], Take(c, w, e).world);
      assert IsRun(c, START, es + [e], Take(c, w, e).world);
    }
  }

  /**
   In every reachable state routeTo splits into the four kinds of unfinished
   business, and membership in outstandingSnoop tells which kind of port an
   entry with a snoop response due names.
   */
  lemma RoutesSplit(c: Config, w: World)
    requires Reachable(c, w)
    ensures var t := w.tables;
      && t.routeTo.Keys == w.below + w.committed.Keys + w.forwarded.Keys + w.cleanHalf.Keys
      && w.below !! w.committed.Keys !! w.forwarded.Keys !! w.cleanHalf.Keys
      && t.outstandingSnoop == w.committed.Keys
      && (forall r :: r in t.routeTo ==> t.routeTo[r] < if r in w.forwarded then c.masters else c.slaves)
      && (forall r :: r in w.committed || r in w.forwarded ==>
            t.routeTo[r] < if GoesDown(t, r) then c.masters else c.slaves)
  {
    ReachableInv(c, w);
  }

  /** The clean requests waiting for their write are the requests parked in outstandingCMO, each once. */
  lemma CleansAreParked(c: Config, w: World)
    requires Reachable(c, w)
    ensures var cmo := w.tables.outstandingCMO;
      && (forall r :: r in w.cleanHalf <==> exists i :: i in cmo && cmo[i] == Some(r))
      && (forall i, j :: i in cmo && j in cmo && cmo[i] == cmo[j] && cmo[i].Some? ==> i == j)
      && (forall i :: i in w.writeHalf <==> i in cmo && cmo[i] == None)
  {
    ReachableInv(c, w);
    var cmo := w.tables.outstandingCMO;
    forall r | r in w.cleanHalf ensures exists i :: i in cmo && cmo[i] == Some(r) {
      assert cmo[w.cleanHalf[r]] == Some(r);
    }
  }

  /**
   Exactly-once delivery. A request is answered at most as often as it was
   taken, only at the port it came in through, and exactly as often once
   nothing is pending; the same for snoops passed up from below.
   */
  lemma ExactlyOnce(c: Config, w: World)
    requires Reachable(c, w)
    ensures forall d: Message :: w.delivered[d] <= w.accepted[d] <= w.delivered[d] + 1
    ensures forall d: Message :: w.accepted[d] == w.delivered[d] + 1 <==> d.req in w.origin && w.origin[d.req] == d.port
    ensures w.below == {} && w.committed == map[] && w.cleanHalf == map[] ==> w.delivered == w.accepted
    ensures w.forwarded == map[] ==> w.snoopsAnswered == w.snoopsTaken
  {
    ReachableInv(c, w);
    if w.below == {} && w.committed == map[] && w.cleanHalf == map[] {
      assert forall d: Message :: Owed(w.origin, d) == 0;
    }
  }

  /** The cache that answers a request the crossbar snooped for is never the requester. */
  lemma ResponderIsElsewhere(c: Config, w: World, e: Event)
    requires Reachable(c, w) && Allowed(c, w, e) && e.SnoopResponse? && !GoesDown(w.tables, e.req)
    ensures e.req in w.tables.routeTo && e.port != w.tables.routeTo[e.req]
    ensures e.respLayerFree ==>
              && Take(c, w, e).Next?
              && Take(c, w, e).world.delivered == w.delivered + multiset{To(e.req, w.tables.routeTo[e.req])}
  {
    ReachableInv(c, w);
    SnoopResponseShape(c, w, e);
  }

  // ------------------------------------------------------------------ draining

  const NO_REPLY := SnoopReply(false, false, false, false, 0)
  const WRITE_CLEAN := Command(false, true, false, false, true, false, false, false)
  const CLEAN := Command(false, false, true, true, false, false, false, false)
  const PLAIN := PacketState(false, false, false, false, false, false, false, 0, 0, 0)

  /** The write that completes a parked clean request. */
  function MissingWrite(c: Config, id: PacketId): Event {
    Request(PacketInfo(id, 0, WRITE_CLEAN, true, true), PLAIN, 0,
            RequestAnswers(true, 0, 0, true, [], 0, seq(c.slaves, i => NO_REPLY), true))
  }

  lemma WriteIsMissing(c: Config, w: World, r: RequestId)
    requires Inv(c, w) && ValidConfig(c) && r in w.cleanHalf
    ensures var e := MissingWrite(c, w.cleanHalf[r]);
      Allowed(c, w, e) && Take(c, w, e) == Next(Unparking(w, r, w.cleanHalf[r]))
  {
    var e := MissingWrite(c, w.cleanHalf[r]);
    var t := Try(c, e.k, e.s, e.port, e.a);
    Dispositions(c, e.k, e.s, e.port, e.a);
    SettledShape(c, w, e.k, e.s, e.port, t);
  }

  /** Whatever is pending can be answered next, and answering it shrinks the routing table. */
  lemma NothingIsStuck(c: Config, w: World, r: RequestId) returns (e: Event)
    requires Inv(c, w) && ValidConfig(c) && r in w.tables.routeTo
    ensures Allowed(c, w, e) && Take(c, w, e).Next?
    ensures var v := Take(c, w, e).world;
      && v.tables.routeTo == w.tables.routeTo - {r}
      && v.accepted == w.accepted
      && (r in w.origin ==> v.delivered == w.delivered + multiset{To(r, w.origin[r])})
      && (r in w.forwarded ==> v.snoopsAnswered == w.snoopsAnswered + multiset{To(r, w.forwarded[r].master)})
  {
    if r in w.below {
      e := Response(r, true);
      ResponseShape(c, w, e);
    } else if r in w.committed {
      e := SnoopResponse(r, w.committed[r], true, true, true);
      SnoopResponseShape(c, w, e);
    } else if r in w.forwarded {
      e := SnoopResponse(r, w.forwarded[r].responder, true, true, true);
      SnoopResponseShape(c, w, e);
    } else {
      e := MissingWrite(c, w.cleanHalf[r]);
      WriteIsMissing(c, w, r);
    }
  }

  /** The clean request an early write waits for, satisfied in a cache further up. */
  function MissingClean(c: Config, id: PacketId): Event {
    Request(PacketInfo(id, 0, CLEAN, true, true), PLAIN.(satisfied := true), 0,
            RequestAnswers(true, 0, 0, true, [], 0, seq(c.slaves, i => NO_REPLY), true))
  }

  lemma CleanStaysSatisfied(c: Config, id: PacketId)
    requires ValidConfig(c) && (c.pointOfCoherency || c.pointOfUnification)
    ensures var e := MissingClean(c, id);
      && LegalAnswers(c, e.k, e.s, e.port, e.a)
      && var t := Try(c, e.k, e.s, e.port, e.a);
        t.verdict.Answered? && t.responder.None? && IsCleanHalf(c, e.k, t.state)
  {
    var e := MissingClean(c, id);
    if SnoopsCaches(c, e.k.command) {
      FanFrame(Timed(e.s, FilterDelay(c, 0), 0), Some(0), Destinations(c, []), e.a.replies);
    }
    Dispositions(c, e.k, e.s, e.port, e.a);
  }

  lemma CleanIsMissing(c: Config, w: World, id: PacketId)
    requires Inv(c, w) && ValidConfig(c) && w.tables.routeTo == map[] && id in w.writeHalf
    ensures var e := MissingClean(c, id);
      Allowed(c, w, e) && Take(c, w, e) == Next(DropWrite(Answering(w, 0, 0), id))
  {
    var e := MissingClean(c, id);
    CleanStaysSatisfied(c, id);
    StepIsSettled(c, w, e.k, e.s, e.port, e.a);
    CleanMeetsWrite(c, w, e.k, e.s, e.port, Try(c, e.k, e.s, e.port, e.a));
  }

  /** Some run answers everything that is pending, taking in no new request. */
  lemma {:induction false} DrainsRoutes(c: Config, w: World) returns (es: seq<Event>, v: World)
    requires Reachable(c, w) && ValidConfig(c)
    ensures IsRun(c, w, es, v) && Reachable(c, v) && v.tables.routeTo == map[] && v.accepted == w.accepted
    decreases |w.tables.routeTo|
  {
    ReachableInv(c, w);
    if w.tables.routeTo == map[] {
      es, v := [], w;
    } else {
      var r :| r in w.tables.routeTo;
      var e := NothingIsStuck(c, w, r);
      ReachableStep(c, w, e);
      var u := Take(c, w, e).world;
      assert u.tables.routeTo.Keys == w.tables.routeTo.Keys - {r};
      assert |u.tables.routeTo.Keys| < |w.tables.routeTo.Keys|;
      var rest;
      rest, v := DrainsRoutes(c, u);
      es := [e] + rest;
      OneStep(c, w, e);
      LeadsJoin(Advance(c), w, [e], u, rest, v);
    }
  }

  /** Then some run brings every early write its clean request. */
  lemma {:induction false} DrainsWrites(c: Config, w: World) returns (es: seq<Event>, v: World)
    requires Reachable(c, w) && ValidConfig(c) && w.tables.routeTo == map[]
    ensures IsRun(c, w, es, v) && Reachable(c, v) && v.tables.routeTo == map[] && v.writeHalf == {}
    ensures w.accepted <= v.accepted && |v.accepted| == |w.accepted| + |w.writeHalf|
    decreases |w.writeHalf|
  {
    ReachableInv(c, w);
    if w.writeHalf == {} {
      es, v := [], w;
    } else {
      var id :| id in w.writeHalf;
      var e := MissingClean(c, id);
      CleanIsMissing(c, w, id);
      ReachableStep(c, w, e);
      var u := DropWrite(Answering(w, 0, 0), id);
      var rest;
      rest, v := DrainsWrites(c, u);
      es := [e] + rest;
      OneStep(c, w, e);
      LeadsJoin(Advance(c), w, [e], u, rest, v);
    }
  }

  lemma NothingLeft(c: Config, w: World)
    requires Inv(c, w) && w.tables.routeTo == map[] && w.writeHalf == {}
    ensures w.tables == START.tables && w.accepted == w.delivered && w.snoopsTaken == w.snoopsAnswered
  {
    assert forall d: Message :: Owed(w.origin, d) == 0 && SnoopOwed(w.forwarded, d) == 0;
  }

  /**
   From every reachable state some run empties all three tables. After it every
   request ever taken has had exactly one response, and every snoop from below;
   the only new requests are those the early writes were waiting for.
   */
  lemma Drains(c: Config, w: World) returns (es: seq<Event>, v: World)
    requires Reachable(c, w) && ValidConfig(c)
    ensures IsRun(c, w, es, v) && Reachable(c, v)
    ensures v.tables.routeTo == map[] && v.tables.outstandingSnoop == {} && v.tables.outstandingCMO == map[]
    ensures w.accepted <= v.accepted == v.delivered && v.snoopsTaken == v.snoopsAnswered
  {
    var fs, gs, u;
    fs, u := DrainsRoutes(c, w);
    gs, v := DrainsWrites(c, u);
    es := fs + gs;
    LeadsJoin(Advance(c), w, fs, u, gs, v);
    ReachableInv(c, v);
    NothingLeft(c, v);
  }
}
