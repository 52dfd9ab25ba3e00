/**
 The rendezvous of a satisfied cache clean with the write that updates the
 memory below. The halves share a packet id and come in either order.
 */
module CacheClean {
  import opened Common
  import opened Packets
  import opened Snooping
  import opened Routing
  import opened World
  import opened Delivery

  /** The event has nothing to do with packet id i nor with request r. */
  predicate Unrelated(e: Event, i: PacketId, r: RequestId) {
    match e
    case Request(k, _, _, _) => k.id != i && k.req != r
    case Response(req, _) => req != r
    case Snoop(k, _, _, _) => k.req != r
    case SnoopResponse(req, _, _, _, _) => req != r
  }

  /** Request r is parked under id i, or not in flight at all. */
  predicate Apart(w: World, i: PacketId, r: RequestId) {
    if r in w.cleanHalf then w.cleanHalf[r] == i else !InFlight(w, r)
  }

  /** As far as the pair (i, r) can tell, v is the same as w. */
  ghost predicate SameFor(w: World, v: World, i: PacketId, r: RequestId) {
    && (r in v.cleanHalf <==> r in w.cleanHalf)
    && (r in w.origin <==> r in v.origin)
    && (r in w.origin ==> v.origin[r] == w.origin[r])
    && (i in v.tables.outstandingCMO <==> i in w.tables.outstandingCMO)
    && (i in w.tables.outstandingCMO ==> v.tables.outstandingCMO[i] == w.tables.outstandingCMO[i])
    && (forall q :: v.delivered[To(r, q)] == w.delivered[To(r, q)])
  }

  lemma UnrelatedShape(c: Config, w: World, k: PacketInfo, port: PortId, shape: Shape, i: PacketId, r: RequestId)
    requires Inv(c, w) && Apart(w, i, r) && k.id != i && k.req != r
    requires shape.MeetClean? ==> k.id in w.tables.outstandingCMO && w.tables.outstandingCMO[k.id] == Some(shape.req)
    ensures SameFor(w, Apply(w, k, port, shape), i, r) && Apart(Apply(w, k, port, shape), i, r)
  {
    var v := Apply(w, k, port, shape);
    forall q ensures v.delivered[To(r, q)] == w.delivered[To(r, q)] {
      assert shape.MeetClean? ==> shape.req != r;
    }
  }

  lemma UnrelatedRequest(c: Config, w: World, e: Event, i: PacketId, r: RequestId)
    requires Inv(c, w) && Allowed(c, w, e) && e.Request? && Take(c, w, e).Next?
    requires Apart(w, i, r) && Unrelated(e, i, r)
    ensures SameFor(w, Take(c, w, e).world, i, r)
    ensures Apart(Take(c, w, e).world, i, r)
  {
    var t := Try(c, e.k, e.s, e.port, e.a);
    Dispositions(c, e.k, e.s, e.port, e.a);
    if !t.verdict.Refused? {
      SettledShape(c, w, e.k, e.s, e.port, t);
      UnrelatedShape(c, w, e.k, e.port, ShapeOf(c, w, e.k, e.s, t), i, r);
    }
  }

  lemma UnrelatedStep(c: Config, w: World, e: Event, i: PacketId, r: RequestId)
    requires Inv(c, w) && Allowed(c, w, e) && Take(c, w, e).Next?
    requires Apart(w, i, r) && Unrelated(e, i, r)
    ensures SameFor(w, Take(c, w, e).world, i, r)
    ensures Apart(Take(c, w, e).world, i, r)
  {
    match e
    case Request(_, _, _, _) => UnrelatedRequest(c, w, e, i, r);
    case Response(q, _) =>
      ResponseShape(c, w, e);
      UnrelatedClosing(c, w, q, i, r);
    case Snoop(_, _, _, _) =>
      SnoopShape(c, w, e);
    case SnoopResponse(q, _, _, _, _) =>
      SnoopResponseShape(c, w, e);
      UnrelatedClosing(c, w, q, i, r);
  }

  lemma UnrelatedClosing(c: Config, w: World, q: RequestId, i: PacketId, r: RequestId)
    requires Inv(c, w) && Apart(w, i, r) && q != r && q in w.tables.routeTo
    ensures SameFor(w, Responding(w, q), i, r) && Apart(Responding(w, q), i, r)
    ensures SameFor(w, RespondingUp(w, q), i, r) && Apart(RespondingUp(w, q), i, r)
    ensures SameFor(w, RespondingDown(w, q), i, r) && Apart(RespondingDown(w, q), i, r)
  {}

  lemma {:induction false} UnrelatedRun(c: Config, w: World, es: seq<Event>, v: World, i: PacketId, r: RequestId)
    requires Inv(c, w) && IsRun(c, w, es, v) && Apart(w, i, r)
    requires forall n :: 0 <= n < |es| ==> Unrelated(es[n], i, r)
    ensures Inv(c, v) && SameFor(w, v, i, r) && Apart(v, i, r)
    decreases |es|
  {
    if es != [] {
      var u := Take(c, w, es[0]).world;
      RunStarts(c, w, es, v);
      StepKeepsInv(c, w, es[0]);
      UnrelatedStep(c, w, es[0], i, r);
      UnrelatedRun(c, u, es[1..], v, i, r);
    }
  }

  /** e is accepted as one half of a clean that completes at this crossbar. */
  ghost predicate IsHalf(c: Config, w: World, e: Event) {
    && e.Request? && AllowedRequest(c, w, e)
    && Take(c, w, e).Next?
    && var t := Try(c, e.k, e.s, e.port, e.a);
      !t.verdict.Refused? && IsCleanHalf(c, e.k, t.state)
  }

  /** One response for r, at its own port, and no trace of the pair. */
  ghost predicate AnsweredOnce(w: World, v: World, i: PacketId, r: RequestId, port: PortId) {
    && (forall q :: v.delivered[To(r, q)] == w.delivered[To(r, q)] + if q == port then 1 else 0)
    && i !in v.tables.outstandingCMO
    && r !in v.tables.routeTo
  }

  /** What the two halves do to the world, each coming first or second. */
  ghost predicate HalfEffect(w: World, k: PacketInfo, port: PortId, v: World) {
    var cmo := w.tables.outstandingCMO;
    if k.id !in cmo
    then v == if k.command.isClean then Parking(w, k.req, port, k.id) else ParkWrite(w, k.id)
    else if k.command.isClean then v == DropWrite(Answering(w, k.req, port), k.id)
    else cmo[k.id].Some? && cmo[k.id].value in w.tables.routeTo && v == Unparking(w, cmo[k.id].value, k.id)
  }

  lemma HalfShape(c: Config, w: World, e: Event)
    requires Inv(c, w) && IsHalf(c, w, e)
    ensures HalfEffect(w, e.k, e.port, Take(c, w, e).world)
  {
    Dispositions(c, e.k, e.s, e.port, e.a);
    StepIsSettled(c, w, e.k, e.s, e.port, e.a);
    SettledHalf(c, w, e.k, e.s, e.port, Try(c, e.k, e.s, e.port, e.a));
  }

  lemma SettledHalf(c: Config, w: World, k: PacketInfo, s: PacketState, port: PortId, t: Attempt)
    requires Inv(c, w) && Answerable(c, w, k, s, port) && Disposed(c, k, s, port, t) && !t.verdict.Refused?
    requires IsCleanHalf(c, k, t.state) && Settled(c, w, k, s, port, t).Next?
    ensures HalfEffect(w, k, port, Settled(c, w, k, s, port, t).world)
  {
    if !k.command.isClean {
      WriteHalfStep(c, w, k, s, port, t);
    } else if k.id in w.tables.outstandingCMO {
      CleanMeetsWrite(c, w, k, s, port, t);
    } else {
      CleanParks(c, w, k, s, port, t);
    }
  }

  lemma WriteCompletes(c: Config, v: World, write: Event, r: RequestId)
    requires Inv(c, v) && IsHalf(c, v, write) && write.k.command.isWriteClean
    requires r in v.cleanHalf && v.cleanHalf[r] == write.k.id
    ensures r in v.origin && AnsweredOnce(v, Take(c, v, write).world, write.k.id, r, v.origin[r])
  {
    HalfShape(c, v, write);
  }

  lemma CleanCompletes(c: Config, v: World, clean: Event)
    requires Inv(c, v) && IsHalf(c, v, clean) && clean.k.command.isClean && clean.k.id in v.tables.outstandingCMO
    ensures AnsweredOnce(v, Take(c, v, clean).world, clean.k.id, clean.k.req, clean.port)
  {
    HalfShape(c, v, clean);
    NotRouted(c, v, clean);
    AnsweredOnTheSpot(v, clean.k.req, clean.port, clean.k.id);
  }

  lemma NotRouted(c: Config, v: World, e: Event)
    requires Inv(c, v) && e.Request? && AllowedRequest(c, v, e) && e.k.command.isClean
    ensures e.k.req !in v.tables.routeTo
  {}

  lemma AnsweredOnTheSpot(v: World, r: RequestId, port: PortId, i: PacketId)
    requires r !in v.tables.routeTo
    ensures AnsweredOnce(v, DropWrite(Answering(v, r, port), i), i, r, port)
  {}

  lemma ParkingWaits(w: World, r: RequestId, port: PortId, i: PacketId)
    ensures var u := Parking(w, r, port, i);
      && r in u.cleanHalf && u.cleanHalf[r] == i
      && r in u.origin && u.origin[r] == port
      && u.delivered == w.delivered
  {}

  /** The clean request comes first and is answered when its write arrives, not before. */
  lemma CleanThenWrite(c: Config, w: World, clean: Event, es: seq<Event>, v: World, write: Event)
    requires Inv(c, w)
    requires IsHalf(c, w, clean) && clean.k.command.isClean && clean.k.id !in w.tables.outstandingCMO
    requires IsRun(c, Take(c, w, clean).world, es, v)
    requires forall n :: 0 <= n < |es| ==> Unrelated(es[n], clean.k.id, clean.k.req)
    requires IsHalf(c, v, write) && write.k.command.isWriteClean && write.k.id == clean.k.id
    ensures forall q :: v.delivered[To(clean.k.req, q)] == w.delivered[To(clean.k.req, q)]
    ensures AnsweredOnce(w, Take(c, v, write).world, clean.k.id, clean.k.req, clean.port)
  {
    HalfShape(c, w, clean);
    ParkingWaits(w, clean.k.req, clean.port, clean.k.id);
    StepKeepsInv(c, w, clean);
    var u := Take(c, w, clean).world;
    UnrelatedRun(c, u, es, v, clean.k.id, clean.k.req);
    WriteCompletes(c, v, write, clean.k.req);
  }

  /** The write comes first and the clean request is answered on the spot. */
  lemma WriteThenClean(c: Config, w: World, write: Event, es: seq<Event>, v: World, clean: Event)
    requires Inv(c, w)
    requires IsHalf(c, w, write) && write.k.command.isWriteClean && write.k.id !in w.tables.outstandingCMO
    requires IsRun(c, Take(c, w, write).world, es, v)
    requires IsHalf(c, v, clean) && clean.k.command.isClean && clean.k.id == write.k.id
    requires !InFlight(w, clean.k.req)
    requires forall n :: 0 <= n < |es| ==> Unrelated(es[n], clean.k.id, clean.k.req)
    ensures AnsweredOnce(w, Take(c, v, clean).world, clean.k.id, clean.k.req, clean.port)
  {
    HalfShape(c, w, write);
    StepKeepsInv(c, w, write);
    var u := Take(c, w, write).world;
    UnrelatedRun(c, u, es, v, clean.k.id, clean.k.req);
    CleanCompletes(c, v, clean);
  }

  // ------------------------------------------------------------- the orders do happen

  const TWO_PORTS := Config(2, 1, true, false, false, false, [1])

  /** A clean request to the point of coherency from port 0 that the cache at port 1 satisfies. */
  const SATISFIED_CLEAN := Request(PacketInfo(7, 3, CLEAN, true, false), PLAIN, 0,
                                   RequestAnswers(true, 0, 0, true, [], 0, [NO_REPLY, NO_REPLY.(satisfies := true)], true))

  lemma FanOfOne(s: PacketState, exclude: Option<PortId>, p: PortId, replies: seq<SnoopReply>)
    requires p < |replies| && exclude != Some(p)
    ensures Fan(s, exclude, [p], replies).0 == AfterSnoop(s, replies[p])
  {
    assert [p][..0] == [];
    assert Fan(s, exclude, [], replies) == (s, None);
  }

  lemma SatisfiedCleanProbe()
    ensures AllBelow(Destinations(TWO_PORTS, SATISFIED_CLEAN.a.filterDests), |SATISFIED_CLEAN.a.replies|)
    ensures var e := SATISFIED_CLEAN;
      var t := Probe(TWO_PORTS, e.k, e.s, 0, e.a).0;
      t.satisfied && !t.cacheResponding && Try(TWO_PORTS, e.k, e.s, 0, e.a) == Attempt(Answered, t, None)
  {
    var e := SATISFIED_CLEAN;
    FanOfOne(Timed(e.s, 0, 0), Some(0), 1, e.a.replies);
    FanResponder(Timed(e.s, 0, 0), Some(0), [1], e.a.replies);
  }

  lemma CleanIsAllowed(w: World)
    requires !InFlight(w, 3) && w.cleanHalf == map[]
    ensures AllowedRequest(TWO_PORTS, w, SATISFIED_CLEAN)
  {
    SatisfiedCleanProbe();
  }

  lemma CleanParksAtStart()
    ensures IsHalf(TWO_PORTS, START, SATISFIED_CLEAN)
    ensures Take(TWO_PORTS, START, SATISFIED_CLEAN) == Next(Parking(START, 3, 0, 7))
  {
    var clean := SATISFIED_CLEAN;
    StartInv(TWO_PORTS);
    CleanIsAllowed(START);
    SatisfiedCleanProbe();
    var t := Try(TWO_PORTS, clean.k, clean.s, 0, clean.a);
    Dispositions(TWO_PORTS, clean.k, clean.s, 0, clean.a);
    StepIsSettled(TWO_PORTS, START, clean.k, clean.s, 0, clean.a);
    CleanParks(TWO_PORTS, START, clean.k, clean.s, 0, t);
    assert |START.tables.routeTo[3 := 0]| == 1;
  }

  /** A run in which a clean request waits, is completed by its write, and has then been answered once. */
  lemma RendezvousHappens()
    ensures var clean, write, waiting := SATISFIED_CLEAN, MissingWrite(TWO_PORTS, 7), Parking(START, 3, 0, 7);
      && IsHalf(TWO_PORTS, START, clean)
      && Take(TWO_PORTS, START, clean) == Next(waiting)
      && IsHalf(TWO_PORTS, waiting, write)
      && Take(TWO_PORTS, waiting, write).world.delivered == multiset{To(3, 0)}
  {
    var w := Parking(START, 3, 0, 7);
    CleanParksAtStart();
    StartInv(TWO_PORTS);
    StepKeepsInv(TWO_PORTS, START, SATISFIED_CLEAN);
    WriteIsMissing(TWO_PORTS, w, 3);
  }

  lemma WriteIsEarly()
    ensures var write := MissingWrite(TWO_PORTS, 7);
      IsHalf(TWO_PORTS, START, write) && Take(TWO_PORTS, START, write) == Next(ParkWrite(START, 7))
  {
    var e := MissingWrite(TWO_PORTS, 7);
    StartInv(TWO_PORTS);
    Dispositions(TWO_PORTS, e.k, e.s, e.port, e.a);
    StepIsSettled(TWO_PORTS, START, e.k, e.s, e.port, e.a);
    WriteHalfStep(TWO_PORTS, START, e.k, e.s, e.port, Try(TWO_PORTS, e.k, e.s, e.port, e.a));
  }

  lemma CleanMeetsEarlyWrite()
    ensures var early := ParkWrite(START, 7);
      && IsHalf(TWO_PORTS, early, SATISFIED_CLEAN)
      && Take(TWO_PORTS, early, SATISFIED_CLEAN) == Next(DropWrite(Answering(early, 3, 0), 7))
  {
    var clean, w := SATISFIED_CLEAN, ParkWrite(START, 7);
    StartInv(TWO_PORTS);
    ParkWriteKeepsInv(TWO_PORTS, START, 7);
    CleanIsAllowed(w);
    SatisfiedCleanProbe();
    StepIsSettled(TWO_PORTS, w, clean.k, clean.s, 0, clean.a);
    CleanMeetsWrite(TWO_PORTS, w, clean.k, clean.s, 0, Try(TWO_PORTS, clean.k, clean.s, 0, clean.a));
  }

  /** The other order: the write comes first and the clean request is answered on arrival. */
  lemma EarlyWriteHappens()
    ensures var clean, write, early := SATISFIED_CLEAN, MissingWrite(TWO_PORTS, 7), ParkWrite(START, 7);
      && IsHalf(TWO_PORTS, START, write)
      && Take(TWO_PORTS, START, write) == Next(early)
      && IsHalf(TWO_PORTS, early, clean)
      && Take(TWO_PORTS, early, clean).world.delivered == multiset{To(3, 0)}
      && Take(TWO_PORTS, early, clean).world.tables == START.tables
  {
    WriteIsEarly();
    CleanMeetsEarlyWrite();
  }
}
