/**
 The crossbar together with its surroundings. Besides the tables, a world
 records what the memory below and the caches above still owe, and every
 message that went in or out. Steps follow the messages; the invariant ties
 the tables to the surroundings.
 */
module World {
  import opened Common
  import opened Packets
  import opened Snooping
  import opened Routing

  datatype Forwarded = Forwarded(master: PortId, responder: PortId)

  datatype World = World(
    tables: Tables,
    below: set<RequestId>,                   // sent below, response owed by memory
    committed: map<RequestId, PortId>,       // response owed by the cache at that slave port
    forwarded: map<RequestId, Forwarded>,    // snoops from below, snoop response owed by a cache
    cleanHalf: map<RequestId, PacketId>,     // clean requests waiting for their write
    writeHalf: set<PacketId>,                // writes that came before their clean request
    origin: map<RequestId, PortId>,          // unanswered requests and where they came in
    accepted: multiset<Message>,             // requests taken that need a response
    delivered: multiset<Message>,            // responses handed to slave ports
    snoopsTaken: multiset<Message>,          // snoops from below a cache committed to
    snoopsAnswered: multiset<Message>)       // snoop responses handed to master ports

  const START := World(Tables(map[], {}, map[]), {}, map[], map[], map[], {}, map[],
                       multiset{}, multiset{}, multiset{}, multiset{})

  datatype Event =
    | Request(k: PacketInfo, s: PacketState, port: PortId, a: RequestAnswers)
    | Response(req: RequestId, layerFree: bool)
    | Snoop(sk: PacketInfo, ss: PacketState, master: PortId, sa: SnoopAnswers)
    | SnoopResponse(req: RequestId, port: PortId, snoopLayerFree: bool, respLayerFree: bool, taken: bool)

  datatype Step = Failed | Panicked | Next(world: World)

  predicate InFlight(w: World, r: RequestId) {
    r in w.below || r in w.committed || r in w.forwarded || r in w.cleanHalf
  }

  // ------------------------------------------------- what the surroundings promise

  ghost predicate LegalPacket(c: Config, k: PacketInfo, s: PacketState) {
    && LegalCommand(k.command)
    && s.express == s.cacheResponding
    && (s.express ==> !k.command.isClean && !k.command.isWriteClean)
    && (SnoopsCaches(c, k.command) ==> s.snoopDelay == 0)
  }

  ghost predicate LegalAnswers(c: Config, k: PacketInfo, s: PacketState, port: PortId, a: RequestAnswers) {
    && ValidConfig(c)
    && LegalReplies(c, k.command, a.filterDests, a.replies)
    // express snoops are never refused
    && (s.express || Probe(c, k, s, port, a).0.cacheResponding ==> a.accepts)
  }

  /** A request comes in at a real port, under a fresh name, and each half of a clean comes once. */
  ghost predicate Answerable(c: Config, w: World, k: PacketInfo, s: PacketState, port: PortId) {
    && port < c.slaves
    && LegalPacket(c, k, s)
    && (!s.express && k.command.needsResponse ==> !InFlight(w, k.req))
    && (IsDestination(c, k) && k.command.isClean ==> forall r :: r in w.cleanHalf ==> w.cleanHalf[r] != k.id)
    && (IsDestination(c, k) && k.command.isWriteClean ==> k.id !in w.writeHalf)
  }

  ghost predicate AllowedRequest(c: Config, w: World, e: Event)
    requires e.Request?
  {
    Answerable(c, w, e.k, e.s, e.port) && LegalAnswers(c, e.k, e.s, e.port, e.a)
  }

  ghost predicate AllowedSnoop(c: Config, w: World, e: Event)
    requires e.Snoop?
  {
    && !c.bypassCaches
    && e.master < c.masters && e.sa.home == e.master
    && e.ss.express && e.ss.snoopDelay == 0
    && ValidConfig(c) && LegalReplies(c, e.sk.command, e.sa.filterDests, e.sa.replies)
    && (ProbeFromBelow(c, e.ss, e.sa).1.Some? ==> !InFlight(w, e.sk.req))
  }

  ghost predicate Allowed(c: Config, w: World, e: Event) {
    match e
    case Request(_, _, _, _) => AllowedRequest(c, w, e)
    case Response(req, _) => req in w.below
    case Snoop(_, _, _, _) => AllowedSnoop(c, w, e)
    case SnoopResponse(req, port, _, _, taken) =>
      || (req in w.committed && w.committed[req] == port)
      || (req in w.forwarded && w.forwarded[req].responder == port && taken)
  }

  // -------------------------------------------------------------------- steps

  function Sole(m: Option<Message>): multiset<Message> {
    if m.Some? then multiset{m.value} else multiset{}
  }

  /** A response that leaves settles the request it belongs to. */
  function Settle(w: World, response: Option<Message>): (v: World)
    ensures v.tables == w.tables && v.snoopsAnswered == w.snoopsAnswered
    ensures v.delivered == w.delivered + Sole(response)
  {
    match response
    case None => w
    case Some(m) => w.(delivered := w.delivered + multiset{m},
                       origin := w.origin - {m.req},
                       cleanHalf := w.cleanHalf - {m.req})
  }

  function Accept(w: World, k: PacketInfo, express: bool, port: PortId): (v: World)
    ensures v.tables == w.tables && v.delivered == w.delivered && v.snoopsAnswered == w.snoopsAnswered
  {
    if express || !k.command.needsResponse then w
    else w.(accepted := w.accepted + multiset{To(k.req, port)}, origin := w.origin[k.req := port])
  }

  function Owe(w: World, k: PacketInfo, express: bool, try_: Attempt): (v: World)
    ensures v.tables == w.tables && v.delivered == w.delivered && v.snoopsAnswered == w.snoopsAnswered
  {
    if try_.responder.Some? then w.(committed := w.committed[k.req := try_.responder.value])
    else if !express && try_.verdict.Sent? && k.command.needsResponse then w.(below := w.below + {k.req})
    else w
  }

  function Halve(c: Config, w: World, k: PacketInfo, t: PacketState, answered: bool): (v: World)
    ensures v.tables == w.tables && v.delivered == w.delivered && v.snoopsAnswered == w.snoopsAnswered
  {
    if !IsCleanHalf(c, k, t) then w
    else if k.command.isWriteClean then (if answered then w else w.(writeHalf := w.writeHalf + {k.id}))
    else if answered then w.(writeHalf := w.writeHalf - {k.id})
    else w.(cleanHalf := w.cleanHalf[k.req := k.id])
  }

  function AfterRequest(c: Config, w: World, k: PacketInfo, s: PacketState, port: PortId, try_: Attempt, t: Tables, m: Option<Message>): (v: World)
    ensures v.tables == t && v.snoopsAnswered == w.snoopsAnswered && v.delivered == w.delivered + Sole(m)
  {
    var w1 := Accept(w.(tables := t), k, s.express, port);
    var w2 := Owe(w1, k, s.express, try_);
    Settle(Halve(c, w2, k, try_.state, m.Some?), m)
  }

  function StepRequest(c: Config, w: World, k: PacketInfo, s: PacketState, port: PortId, a: RequestAnswers): Step
    requires AllBelow(Destinations(c, a.filterDests), |a.replies|)
  {
    var try_ := Try(c, k, s, port, a);
    match RequestOutcome(c, w.tables, k, s, port, a)
    case Fails => Failed
    case Panics => Panicked
    case Leaves(t, m) =>
      if try_.verdict.Refused? then Next(w) else Next(AfterRequest(c, w, k, s, port, try_, t, m))
  }

  function StepResponse(c: Config, w: World, req: RequestId, layerFree: bool): Step {
    match ResponseOutcome(c, w.tables, req, layerFree)
    case Fails => Failed
    case Panics => Panicked
    case Leaves(t, m) =>
      if m.None? then Next(w.(tables := t))
      else Next(Settle(w.(tables := t, below := w.below - {req}), m))
  }

  function StepSnoop(c: Config, w: World, k: PacketInfo, s: PacketState, master: PortId, a: SnoopAnswers): Step
    requires AllBelow(Destinations(c, a.filterDests), |a.replies|)
  {
    match SnoopOutcome(c, w.tables, k.req, s, master, a)
    case Fails => Failed
    case Panics => Panicked
    case Leaves(t, _) =>
      match ProbeFromBelow(c, s, a).1
      case None => Next(w.(tables := t))
      case Some(p) => Next(w.(tables := t,
                              forwarded := w.forwarded[k.req := Forwarded(master, p)],
                              snoopsTaken := w.snoopsTaken + multiset{To(k.req, master)}))
  }

  /** A snoop response leaves down as a snoop response or up as a normal response. */
  function StepSnoopResponse(
    c: Config, w: World, req: RequestId, port: PortId, snoopLayerFree: bool, respLayerFree: bool, taken: bool): Step
  {
    match SnoopResponseOutcome(c, w.tables, req, port, snoopLayerFree, respLayerFree, taken)
    case Fails => Failed
    case Panics => Panicked
    case Leaves(t, m) =>
      var v := w.(tables := t);
      if m.None? then Next(v)
      else if GoesDown(w.tables, req) then
        Next(v.(forwarded := w.forwarded - {req}, snoopsAnswered := w.snoopsAnswered + multiset{m.value}))
      else Next(Settle(v.(committed := w.committed - {req}), m))
  }

  function Take(c: Config, w: World, e: Event): Step {
    match e
    case Request(k, s, port, a) =>
      if AllBelow(Destinations(c, a.filterDests), |a.replies|) then StepRequest(c, w, k, s, port, a) else Failed
    case Response(req, layerFree) => StepResponse(c, w, req, layerFree)
    case Snoop(k, s, master, a) =>
      if AllBelow(Destinations(c, a.filterDests), |a.replies|) then StepSnoop(c, w, k, s, master, a) else Failed
    case SnoopResponse(req, port, sl, rl, taken) => StepSnoopResponse(c, w, req, port, sl, rl, taken)
  }

  // ---------------------------------------------------------------- invariant

  /** The keys of routeTo are the four kinds of unfinished business, which never overlap. */
  ghost predicate Partitioned(t: Tables, below: set<RequestId>, committed: map<RequestId, PortId>,
                              forwarded: map<RequestId, Forwarded>, cleanHalf: map<RequestId, PacketId>) {
    && (forall r :: r in t.routeTo <==> r in below || r in committed || r in forwarded || r in cleanHalf)
    && (forall r :: r in below ==> r !in committed && r !in forwarded && r !in cleanHalf)
    && (forall r :: r in committed ==> r !in forwarded && r !in cleanHalf)
    && (forall r :: r in forwarded ==> r !in cleanHalf)
    && (forall r :: r in t.outstandingSnoop <==> r in committed)
  }

  /** Each entry names the port its answer must leave through. */
  ghost predicate Routed(c: Config, routeTo: map<RequestId, PortId>, origin: map<RequestId, PortId>,
                         committed: map<RequestId, PortId>, forwarded: map<RequestId, Forwarded>) {
    && (forall r :: r in origin ==> r in routeTo && routeTo[r] == origin[r] < c.slaves)
    && (forall r :: r in forwarded ==>
          r in routeTo && routeTo[r] == forwarded[r].master < c.masters && forwarded[r].responder < c.slaves)
    && (forall r :: r in committed ==> r in origin && committed[r] < c.slaves && committed[r] != origin[r])
  }

  /** The unanswered requests are those somebody owes a response for. */
  ghost predicate Originated(origin: map<RequestId, PortId>, below: set<RequestId>,
                             committed: map<RequestId, PortId>, cleanHalf: map<RequestId, PacketId>) {
    forall r :: r in origin <==> r in below || r in committed || r in cleanHalf
  }

  /** outstandingCMO holds exactly the halves whose partner is still to come. */
  ghost predicate Paired(cmo: map<PacketId, Option<RequestId>>,
                         cleanHalf: map<RequestId, PacketId>, writeHalf: set<PacketId>) {
    && (forall r :: r in cleanHalf ==> cleanHalf[r] in cmo && cmo[cleanHalf[r]] == Some(r))
    && (forall i :: i in writeHalf ==> i in cmo && cmo[i] == None)
    && (forall i :: i in cmo ==>
          match cmo[i]
          case None => i in writeHalf
          case Some(r) => r in cleanHalf && cleanHalf[r] == i)
  }

  function Owed(m: map<RequestId, PortId>, d: Message): nat {
    if d.req in m && m[d.req] == d.port then 1 else 0
  }

  function SnoopOwed(m: map<RequestId, Forwarded>, d: Message): nat {
    if d.req in m && m[d.req].master == d.port then 1 else 0
  }

  /** Every request taken in is either answered at its own port or still owed, never both. */
  ghost predicate Balanced(accepted: multiset<Message>, delivered: multiset<Message>, origin: map<RequestId, PortId>) {
    forall d: Message :: accepted[d] == delivered[d] + Owed(origin, d)
  }

  /** The same for snoops from below and the snoop responses sent back down. */
  ghost predicate SnoopsBalanced(taken: multiset<Message>, answered: multiset<Message>, forwarded: map<RequestId, Forwarded>) {
    forall d: Message :: taken[d] == answered[d] + SnoopOwed(forwarded, d)
  }

  ghost predicate Inv(c: Config, w: World) {
    && Partitioned(w.tables, w.below, w.committed, w.forwarded, w.cleanHalf)
    && Routed(c, w.tables.routeTo, w.origin, w.committed, w.forwarded)
    && Originated(w.origin, w.below, w.committed, w.cleanHalf)
    && Paired(w.tables.outstandingCMO, w.cleanHalf, w.writeHalf)
    && Balanced(w.accepted, w.delivered, w.origin)
    && SnoopsBalanced(w.snoopsTaken, w.snoopsAnswered, w.forwarded)
    && (w.cleanHalf != map[] || w.writeHalf != {} ==> c.slaves > 0 && (c.pointOfCoherency || c.pointOfUnification))
  }

  lemma StartInv(c: Config)
    ensures Inv(c, START)
  {}

  // --------------------------------------------------- every step keeps the invariant

  /** Who may commit to a request: a snooped port other than the one it came from. */
  lemma ProbeResponder(c: Config, k: PacketInfo, s: PacketState, port: PortId, a: RequestAnswers)
    requires LegalPacket(c, k, s) && LegalAnswers(c, k, s, port, a)
    ensures var (t, responder) := Probe(c, k, s, port, a);
      && (responder.Some? <==> !s.cacheResponding && t.cacheResponding)
      && (responder.None? ==> t.cacheResponding == s.cacheResponding)
      && (responder.Some? ==>
            && k.command.needsResponse && !k.command.isClean && !k.command.isWriteClean
            && responder.value < c.slaves && responder.value != port)
  {
    if SnoopsCaches(c, k.command) && !(c.snoopFilter && k.command.isEviction) {
      FanResponder(Timed(s, a.timedHeader + FilterDelay(c, a.filterDelay), a.timedPayload),
                   Some(port), Destinations(c, a.filterDests), a.replies);
    }
  }

  /** What the verdict on a request means for who owes its response. */
  ghost predicate Disposed(c: Config, k: PacketInfo, s: PacketState, port: PortId, t: Attempt) {
    && (t.responder.Some? ==>
          && !s.express && k.command.needsResponse && !k.command.isClean && t.state.cacheResponding
          && t.responder.value < c.slaves && t.responder.value != port
          && (t.verdict.Sunk? || t.verdict.Sent?))
    && (t.responder.None? ==> t.state.cacheResponding == s.cacheResponding)
    && (t.verdict.Refused? ==> !s.express && t.responder.None?)
    // no request that needs a response is sunk without a committed responder
    && (t.verdict.Sunk? && k.command.needsResponse && !s.express ==> t.responder.Some?)
    && (t.verdict.Answered? ==> k.command.needsResponse && !s.express && t.responder.None?)
    && (k.command.isClean && IsDestination(c, k) && !t.verdict.Refused? ==> t.verdict.Answered?)
    && (k.command.isWriteClean && !t.verdict.Refused? ==> t.verdict.Sent? && t.responder.None?)
  }

  lemma JudgeDisposes(c: Config, k: PacketInfo, s: PacketState, port: PortId, accepts: bool, t: PacketState, responder: Option<PortId>)
    requires LegalPacket(c, k, s) && (s.express || t.cacheResponding ==> accepts)
    requires responder.Some? <==> !s.cacheResponding && t.cacheResponding
    requires responder.None? ==> t.cacheResponding == s.cacheResponding
    requires responder.Some? ==>
               && k.command.needsResponse && !k.command.isClean && !k.command.isWriteClean
               && responder.value < c.slaves && responder.value != port
    ensures Disposed(c, k, s, port, Judge(c, k, s, accepts, t, responder))
  {}

  lemma Dispositions(c: Config, k: PacketInfo, s: PacketState, port: PortId, a: RequestAnswers)
    requires LegalPacket(c, k, s) && LegalAnswers(c, k, s, port, a)
    ensures Disposed(c, k, s, port, Try(c, k, s, port, a))
  {
    ProbeResponder(c, k, s, port, a);
    var (t, responder) := Probe(c, k, s, port, a);
    JudgeDisposes(c, k, s, port, a.accepts, t, responder);
  }

  lemma RequestKeepsInv(c: Config, w: World, e: Event)
    requires Inv(c, w) && e.Request? && AllowedRequest(c, w, e)
    ensures !Take(c, w, e).Failed?
    ensures Take(c, w, e).Next? ==> Inv(c, Take(c, w, e).world)
  {
    var t := Try(c, e.k, e.s, e.port, e.a);
    Dispositions(c, e.k, e.s, e.port, e.a);
    if !t.verdict.Refused? {
      SettledKeepsInv(c, w, e.k, e.s, e.port, t);
    }
  }

  /** The eight things an accepted request can amount to. */
  datatype Shape = Silent | Commit(responder: PortId) | Send | Answer | Park | MeetWrite | ParkedWrite | MeetClean(req: RequestId)

  ghost function ShapeOf(c: Config, w: World, k: PacketInfo, s: PacketState, t: Attempt): Shape {
    if t.responder.Some? then Commit(t.responder.value)
    else if t.verdict.Sent? && k.command.needsResponse && !s.express then Send
    else if !IsCleanHalf(c, k, t.state) then (if t.verdict.Answered? then Answer else Silent)
    else if k.command.isClean then (if k.id in w.tables.outstandingCMO then MeetWrite else Park)
    else if k.id in w.tables.outstandingCMO && w.tables.outstandingCMO[k.id].Some?
    then MeetClean(w.tables.outstandingCMO[k.id].value)
    else ParkedWrite
  }

  ghost function Apply(w: World, k: PacketInfo, port: PortId, shape: Shape): World
    requires shape.MeetClean? ==> shape.req in w.tables.routeTo
  {
    match shape
    case Silent => w
    case Commit(p) => Committing(w, k.req, port, p)
    case Send => Sending(w, k.req, port)
    case Answer => Answering(w, k.req, port)
    case Park => Parking(w, k.req, port, k.id)
    case MeetWrite => DropWrite(Answering(w, k.req, port), k.id)
    case ParkedWrite => ParkWrite(w, k.id)
    case MeetClean(r) => Unparking(w, r, k.id)
  }

  /** An accepted request panics on a full table or does exactly what its shape says. */
  lemma SettledShape(c: Config, w: World, k: PacketInfo, s: PacketState, port: PortId, t: Attempt)
    requires Inv(c, w) && Answerable(c, w, k, s, port) && Disposed(c, k, s, port, t) && !t.verdict.Refused?
    ensures var shape := ShapeOf(c, w, k, s, t);
      && (shape.MeetClean? ==> shape.req in w.tables.routeTo)
      && (!Settled(c, w, k, s, port, t).Panicked? ==> Settled(c, w, k, s, port, t) == Next(Apply(w, k, port, shape)))
      && (Settled(c, w, k, s, port, t).Panicked? ==> shape.Commit? || shape.Send? || shape.Park?)
  {
    match ShapeOf(c, w, k, s, t)
    case Silent => SilentStep(c, w, k, s, port, t);
    case Commit(_) => CommittedStep(c, w, k, s, port, t);
    case Send => SentStep(c, w, k, s, port, t);
    case Answer => AnsweredStep(c, w, k, s, port, t);
    case Park => CleanParks(c, w, k, s, port, t);
    case MeetWrite => CleanMeetsWrite(c, w, k, s, port, t);
    case ParkedWrite => WriteHalfStep(c, w, k, s, port, t);
    case MeetClean(_) => WriteHalfStep(c, w, k, s, port, t);
  }

  lemma OneMore(m: map<RequestId, PortId>, r: RequestId, p: PortId)
    requires r !in m
    ensures |m[r := p]| == |m| + 1
  {
    assert m[r := p].Keys == m.Keys + {r};
    assert |m[r := p].Keys| == |m.Keys| + 1;
  }

  lemma SnoopsAreRouted(c: Config, w: World)
    requires Inv(c, w)
    ensures |w.tables.outstandingSnoop| <= |w.tables.routeTo|
  {
    SubsetIsSmaller(w.tables.outstandingSnoop, w.tables.routeTo.Keys);
  }

  lemma {:induction false} SubsetIsSmaller(a: set<RequestId>, b: set<RequestId>)
    requires a <= b
    ensures |a| <= |b|
  {
    if a != {} {
      var r :| r in a;
      SubsetIsSmaller(a - {r}, b - {r});
    }
  }

  /** A request that is routed panics exactly when 512 are routed already; no other request does. */
  lemma PanicsWhen(c: Config, w: World, k: PacketInfo, s: PacketState, port: PortId, t: Attempt)
    requires Inv(c, w) && Answerable(c, w, k, s, port) && Disposed(c, k, s, port, t) && !t.verdict.Refused?
    ensures var shape := ShapeOf(c, w, k, s, t);
      Settled(c, w, k, s, port, t).Panicked? <==>
        (shape.Commit? || shape.Send? || shape.Park?) && |w.tables.routeTo| >= 512
  {
    SettledShape(c, w, k, s, port, t);
    match ShapeOf(c, w, k, s, t)
    case Commit(_) => RoutePanics(c, w, k, s, port, t);
    case Send => RoutePanics(c, w, k, s, port, t);
    case Park => RoutePanics(c, w, k, s, port, t);
    case _ =>
  }

  lemma RoutePanics(c: Config, w: World, k: PacketInfo, s: PacketState, port: PortId, t: Attempt)
    requires Inv(c, w) && !InFlight(w, k.req) && !s.express && k.command.needsResponse && LegalCommand(k.command)
    requires var shape := ShapeOf(c, w, k, s, t); shape.Commit? || shape.Send? || shape.Park?
    requires t.responder.Some? ==> t.state.cacheResponding && !k.command.isClean && (t.verdict.Sunk? || t.verdict.Sent?)
    requires t.responder.None? ==> !t.state.cacheResponding
    requires ShapeOf(c, w, k, s, t).Send? && k.command.isClean ==> !IsDestination(c, k)
    requires ShapeOf(c, w, k, s, t).Park? ==> k.command.isClean && t.verdict.Answered?
    ensures Settled(c, w, k, s, port, t).Panicked? <==> |w.tables.routeTo| >= 512
  {
    SnoopsAreRouted(c, w);
    OneMore(w.tables.routeTo, k.req, port);
  }

  lemma SettledKeepsInv(c: Config, w: World, k: PacketInfo, s: PacketState, port: PortId, t: Attempt)
    requires Inv(c, w) && Answerable(c, w, k, s, port) && Disposed(c, k, s, port, t) && !t.verdict.Refused?
    ensures !Settled(c, w, k, s, port, t).Failed?
    ensures Settled(c, w, k, s, port, t).Next? ==> Inv(c, Settled(c, w, k, s, port, t).world)
  {
    SettledShape(c, w, k, s, port, t);
    match ShapeOf(c, w, k, s, t)
    case Silent =>
    case Commit(p) => CommittingKeepsInv(c, w, k.req, port, p);
    case Send => SendingKeepsInv(c, w, k.req, port);
    case Answer => AnsweringKeepsInv(c, w, k.req, port);
    case Park => ParkingKeepsInv(c, w, k.req, port, k.id);
    case MeetWrite =>
      AnsweringKeepsInv(c, w, k.req, port);
      DropWriteKeepsInv(c, Answering(w, k.req, port), k.id);
    case ParkedWrite => ParkWriteKeepsInv(c, w, k.id);
    case MeetClean(r) => UnparkingKeepsInv(c, w, r, k.id);
  }

  /** The step of an accepted request, once the verdict is known. */
  function Settled(c: Config, w: World, k: PacketInfo, s: PacketState, port: PortId, t: Attempt): Step {
    match Book(c, w.tables, k, s.express, t, port)
    case Fails => Failed
    case Panics => Panicked
    case Leaves(tables, m) => Next(AfterRequest(c, w, k, s, port, t, tables, m))
  }

  lemma StepIsSettled(c: Config, w: World, k: PacketInfo, s: PacketState, port: PortId, a: RequestAnswers)
    requires AllBelow(Destinations(c, a.filterDests), |a.replies|)
    ensures var t := Try(c, k, s, port, a);
      StepRequest(c, w, k, s, port, a) ==
        if !t.verdict.Refused? then Settled(c, w, k, s, port, t) else if s.express then Failed else Next(w)
  {}

  // The worlds a request can lead to, written out.

  /** Request r has come in at a port and is routed back there. */
  function Opened(w: World, r: RequestId, port: PortId): World {
    w.(tables := w.tables.(routeTo := w.tables.routeTo[r := port]),
       origin := w.origin[r := port],
       accepted := w.accepted + multiset{To(r, port)})
  }

  /** Request r has been answered at the port it is routed to. */
  function Closed(w: World, r: RequestId): World
    requires r in w.tables.routeTo
  {
    w.(tables := w.tables.(routeTo := w.tables.routeTo - {r}),
       origin := w.origin - {r},
       delivered := w.delivered + multiset{To(r, w.tables.routeTo[r])})
  }

  function Sending(w: World, r: RequestId, port: PortId): World {
    Opened(w, r, port).(below := w.below + {r})
  }

  function Committing(w: World, r: RequestId, port: PortId, responder: PortId): World {
    var v := Opened(w, r, port);
    v.(tables := v.tables.(outstandingSnoop := w.tables.outstandingSnoop + {r}),
       committed := w.committed[r := responder])
  }

  function Parking(w: World, r: RequestId, port: PortId, id: PacketId): World {
    var v := Opened(w, r, port);
    v.(tables := v.tables.(outstandingCMO := w.tables.outstandingCMO[id := Some(r)]),
       cleanHalf := w.cleanHalf[r := id])
  }

  function Answering(w: World, r: RequestId, port: PortId): World {
    w.(accepted := w.accepted + multiset{To(r, port)}, delivered := w.delivered + multiset{To(r, port)})
  }

  function DropWrite(w: World, id: PacketId): World {
    w.(tables := w.tables.(outstandingCMO := w.tables.outstandingCMO - {id}), writeHalf := w.writeHalf - {id})
  }

  function ParkWrite(w: World, id: PacketId): World {
    w.(tables := w.tables.(outstandingCMO := w.tables.outstandingCMO[id := None]), writeHalf := w.writeHalf + {id})
  }

  function Unparking(w: World, r: RequestId, id: PacketId): World
    requires r in w.tables.routeTo
  {
    var v := Closed(w, r);
    v.(tables := v.tables.(outstandingCMO := w.tables.outstandingCMO - {id}), cleanHalf := w.cleanHalf - {r})
  }

  lemma BalanceOpens(accepted: multiset<Message>, delivered: multiset<Message>, origin: map<RequestId, PortId>, r: RequestId, p: PortId)
    requires Balanced(accepted, delivered, origin) && r !in origin
    ensures Balanced(accepted + multiset{To(r, p)}, delivered, origin[r := p])
  {}

  lemma BalanceCloses(accepted: multiset<Message>, delivered: multiset<Message>, origin: map<RequestId, PortId>, r: RequestId)
    requires Balanced(accepted, delivered, origin) && r in origin
    ensures Balanced(accepted, delivered + multiset{To(r, origin[r])}, origin - {r})
  {}

  lemma RouteOpens(c: Config, w: World, r: RequestId, port: PortId)
    requires Inv(c, w) && port < c.slaves && !InFlight(w, r)
    ensures Routed(c, w.tables.routeTo[r := port], w.origin[r := port], w.committed, w.forwarded)
    ensures Balanced(w.accepted + multiset{To(r, port)}, w.delivered, w.origin[r := port])
  {
    BalanceOpens(w.accepted, w.delivered, w.origin, r, port);
  }

  lemma RouteCloses(c: Config, w: World, r: RequestId)
    requires Inv(c, w) && r in w.origin && r !in w.committed
    ensures Routed(c, w.tables.routeTo - {r}, w.origin - {r}, w.committed, w.forwarded)
    ensures Balanced(w.accepted, w.delivered + multiset{To(r, w.tables.routeTo[r])}, w.origin - {r})
  {
    BalanceCloses(w.accepted, w.delivered, w.origin, r);
  }

  lemma SendingKeepsInv(c: Config, w: World, r: RequestId, port: PortId)
    requires Inv(c, w) && port < c.slaves && !InFlight(w, r)
    ensures Inv(c, Sending(w, r, port))
  {
    RouteOpens(c, w, r, port);
  }

  lemma CommittingKeepsInv(c: Config, w: World, r: RequestId, port: PortId, responder: PortId)
    requires Inv(c, w) && port < c.slaves && !InFlight(w, r)
    requires responder < c.slaves && responder != port
    ensures Inv(c, Committing(w, r, port, responder))
  {
    RouteOpens(c, w, r, port);
  }

  lemma PairParks(cmo: map<PacketId, Option<RequestId>>, cleanHalf: map<RequestId, PacketId>, writeHalf: set<PacketId>,
                  r: RequestId, id: PacketId)
    requires Paired(cmo, cleanHalf, writeHalf) && r !in cleanHalf && id !in cmo
    ensures Paired(cmo[id := Some(r)], cleanHalf[r := id], writeHalf)
  {}

  lemma ParkingKeepsInv(c: Config, w: World, r: RequestId, port: PortId, id: PacketId)
    requires Inv(c, w) && port < c.slaves && !InFlight(w, r)
    requires id !in w.tables.outstandingCMO && (c.pointOfCoherency || c.pointOfUnification)
    ensures Inv(c, Parking(w, r, port, id))
  {
    PairParks(w.tables.outstandingCMO, w.cleanHalf, w.writeHalf, r, id);
    RouteOpens(c, w, r, port);
  }

  lemma AnsweringKeepsInv(c: Config, w: World, r: RequestId, port: PortId)
    requires Inv(c, w) && port < c.slaves && !InFlight(w, r)
    ensures Inv(c, Answering(w, r, port))
  {}

  lemma DropWriteKeepsInv(c: Config, w: World, id: PacketId)
    requires Inv(c, w) && id in w.writeHalf
    ensures Inv(c, DropWrite(w, id))
  {}

  lemma ParkWriteKeepsInv(c: Config, w: World, id: PacketId)
    requires Inv(c, w) && id !in w.tables.outstandingCMO
    requires c.slaves > 0 && (c.pointOfCoherency || c.pointOfUnification)
    ensures Inv(c, ParkWrite(w, id))
  {}

  lemma UnparkingKeepsInv(c: Config, w: World, r: RequestId, id: PacketId)
    requires Inv(c, w) && id in w.tables.outstandingCMO && w.tables.outstandingCMO[id] == Some(r)
    ensures Inv(c, Unparking(w, r, id))
  {
    RouteCloses(c, w, r);
  }

  // Each verdict leads to one of them.

  lemma PutAndRemove(m: map<RequestId, PortId>, r: RequestId, p: PortId)
    requires r !in m
    ensures m[r := p] - {r} == m
  {}

  lemma RemoveAbsent(m: map<RequestId, PacketId>, r: RequestId)
    requires r !in m
    ensures m - {r} == m
  {}

  lemma SettledIs(c: Config, w: World, k: PacketInfo, s: PacketState, port: PortId, t: Attempt, tables: Tables, m: Option<Message>)
    requires Book(c, w.tables, k, s.express, t, port) == Leaves(tables, m)
    ensures Settled(c, w, k, s, port, t) == Next(AfterRequest(c, w, k, s, port, t, tables, m))
  {}

  /** The tables with request r routed back to a port. */
  function RouteAdded(t: Tables, r: RequestId, port: PortId): Tables {
    t.(routeTo := t.routeTo[r := port])
  }

  lemma CommittedBook(c: Config, w: World, k: PacketInfo, s: PacketState, port: PortId, t: Attempt)
    requires Inv(c, w) && !InFlight(w, k.req)
    requires !s.express && !k.command.isClean && LegalCommand(k.command) && k.command.needsResponse
    requires t.responder.Some? && t.state.cacheResponding && (t.verdict.Sunk? || t.verdict.Sent?)
    ensures Book(c, w.tables, k, s.express, t, port).Panics? || Book(c, w.tables, k, s.express, t, port) ==
              Leaves(RouteAdded(w.tables, k.req, port).(outstandingSnoop := w.tables.outstandingSnoop + {k.req}), None)
  {}

  lemma CommittedStep(c: Config, w: World, k: PacketInfo, s: PacketState, port: PortId, t: Attempt)
    requires Inv(c, w) && !InFlight(w, k.req)
    requires !s.express && k.command.needsResponse && !k.command.isClean && LegalCommand(k.command)
    requires t.responder.Some? && t.state.cacheResponding && (t.verdict.Sunk? || t.verdict.Sent?)
    ensures !Settled(c, w, k, s, port, t).Panicked? ==> Settled(c, w, k, s, port, t) == Next(Committing(w, k.req, port, t.responder.value))
  {
    CommittedBook(c, w, k, s, port, t);
  }

  lemma SentBook(c: Config, w: World, k: PacketInfo, s: PacketState, port: PortId, t: Attempt)
    requires Inv(c, w) && !InFlight(w, k.req)
    requires !s.express && k.command.needsResponse && LegalCommand(k.command)
    requires t.responder.None? && !t.state.cacheResponding && t.verdict.Sent?
    requires k.command.isClean ==> !IsDestination(c, k)
    ensures Book(c, w.tables, k, s.express, t, port).Panics? || Book(c, w.tables, k, s.express, t, port) == Leaves(RouteAdded(w.tables, k.req, port), None)
  {}

  lemma SentStep(c: Config, w: World, k: PacketInfo, s: PacketState, port: PortId, t: Attempt)
    requires Inv(c, w) && !InFlight(w, k.req)
    requires !s.express && k.command.needsResponse && LegalCommand(k.command)
    requires t.responder.None? && !t.state.cacheResponding && t.verdict.Sent?
    requires k.command.isClean ==> !IsDestination(c, k)
    ensures !Settled(c, w, k, s, port, t).Panicked? ==> Settled(c, w, k, s, port, t) == Next(Sending(w, k.req, port))
  {
    SentBook(c, w, k, s, port, t);
  }

  /** Evictions, express snoops and other packets nobody answers leave no trace. */
  lemma SilentStep(c: Config, w: World, k: PacketInfo, s: PacketState, port: PortId, t: Attempt)
    requires t.responder.None? && (t.verdict.Sunk? || t.verdict.Sent?) && !IsCleanHalf(c, k, t.state)
    requires s.express || !k.command.needsResponse
    ensures Settled(c, w, k, s, port, t) == Next(w)
  {}

  lemma AnsweredBook(c: Config, w: World, k: PacketInfo, s: PacketState, port: PortId, t: Attempt)
    requires Inv(c, w) && !InFlight(w, k.req) && !s.express && k.command.needsResponse
    requires t.responder.None? && t.verdict.Answered? && !IsCleanHalf(c, k, t.state)
    ensures Book(c, w.tables, k, s.express, t, port) == Leaves(w.tables, Some(To(k.req, port)))
  {}

  lemma AnsweredStep(c: Config, w: World, k: PacketInfo, s: PacketState, port: PortId, t: Attempt)
    requires Inv(c, w) && !InFlight(w, k.req)
    requires !s.express && k.command.needsResponse
    requires t.responder.None? && t.verdict.Answered? && !IsCleanHalf(c, k, t.state)
    ensures Settled(c, w, k, s, port, t) == Next(Answering(w, k.req, port))
  {
    AnsweredBook(c, w, k, s, port, t);
    SettledIs(c, w, k, s, port, t, w.tables, Some(To(k.req, port)));
    PutAndRemove(w.origin, k.req, port);
    RemoveAbsent(w.cleanHalf, k.req);
  }

  lemma CleanMeetsBook(c: Config, w: World, k: PacketInfo, s: PacketState, port: PortId, t: Attempt)
    requires Inv(c, w) && !InFlight(w, k.req) && k.id in w.tables.outstandingCMO
    requires !s.express && k.command.isClean && LegalCommand(k.command)
    requires t.responder.None? && t.verdict.Answered? && IsCleanHalf(c, k, t.state)
    ensures Book(c, w.tables, k, s.express, t, port) ==
              Leaves(w.tables.(outstandingCMO := w.tables.outstandingCMO - {k.id}), Some(To(k.req, port)))
  {}

  lemma CleanMeetsWrite(c: Config, w: World, k: PacketInfo, s: PacketState, port: PortId, t: Attempt)
    requires Inv(c, w) && !InFlight(w, k.req) && k.id in w.tables.outstandingCMO
    requires !s.express && k.command.isClean && LegalCommand(k.command)
    requires t.responder.None? && t.verdict.Answered? && IsCleanHalf(c, k, t.state)
    ensures Settled(c, w, k, s, port, t) == Next(DropWrite(Answering(w, k.req, port), k.id))
  {
    CleanMeetsBook(c, w, k, s, port, t);
    PutAndRemove(w.origin, k.req, port);
    RemoveAbsent(w.cleanHalf, k.req);
  }

  lemma CleanParksBook(c: Config, w: World, k: PacketInfo, s: PacketState, port: PortId, t: Attempt)
    requires Inv(c, w) && !InFlight(w, k.req) && k.id !in w.tables.outstandingCMO
    requires !s.express && k.command.isClean && LegalCommand(k.command)
    requires t.responder.None? && t.verdict.Answered? && IsCleanHalf(c, k, t.state)
    ensures Book(c, w.tables, k, s.express, t, port).Panics? || Book(c, w.tables, k, s.express, t, port) ==
              Leaves(RouteAdded(w.tables, k.req, port).(outstandingCMO := w.tables.outstandingCMO[k.id := Some(k.req)]), None)
  {}

  lemma CleanParks(c: Config, w: World, k: PacketInfo, s: PacketState, port: PortId, t: Attempt)
    requires Inv(c, w) && !InFlight(w, k.req) && k.id !in w.tables.outstandingCMO
    requires !s.express && k.command.isClean && LegalCommand(k.command)
    requires t.responder.None? && t.verdict.Answered? && IsCleanHalf(c, k, t.state)
    ensures !Settled(c, w, k, s, port, t).Panicked? ==> Settled(c, w, k, s, port, t) == Next(Parking(w, k.req, port, k.id))
  {
    CleanParksBook(c, w, k, s, port, t);
  }

  lemma EarlyWriteBook(c: Config, w: World, k: PacketInfo, s: PacketState, port: PortId, t: Attempt)
    requires k.id !in w.tables.outstandingCMO
    requires !s.express && k.command.isWriteClean && LegalCommand(k.command)
    requires t.responder.None? && t.verdict.Sent? && IsCleanHalf(c, k, t.state)
    ensures Book(c, w.tables, k, s.express, t, port) == Leaves(w.tables.(outstandingCMO := w.tables.outstandingCMO[k.id := None]), None)
  {}

  lemma LateWriteBook(c: Config, w: World, k: PacketInfo, s: PacketState, port: PortId, t: Attempt)
    requires Inv(c, w) && k.id !in w.writeHalf && k.id in w.tables.outstandingCMO
    requires !s.express && k.command.isWriteClean && LegalCommand(k.command)
    requires t.responder.None? && t.verdict.Sent? && IsCleanHalf(c, k, t.state)
    ensures w.tables.outstandingCMO[k.id].Some? && w.tables.outstandingCMO[k.id].value in w.tables.routeTo
    ensures var r := w.tables.outstandingCMO[k.id].value;
      Book(c, w.tables, k, s.express, t, port) ==
        Leaves(Tables(w.tables.routeTo - {r}, w.tables.outstandingSnoop, w.tables.outstandingCMO - {k.id}),
               Some(To(r, w.tables.routeTo[r])))
  {}

  lemma WriteHalfStep(c: Config, w: World, k: PacketInfo, s: PacketState, port: PortId, t: Attempt)
    requires Inv(c, w) && k.id !in w.writeHalf
    requires !s.express && k.command.isWriteClean && LegalCommand(k.command)
    requires t.responder.None? && t.verdict.Sent? && IsCleanHalf(c, k, t.state)
    ensures k.id !in w.tables.outstandingCMO ==> Settled(c, w, k, s, port, t) == Next(ParkWrite(w, k.id))
    ensures k.id in w.tables.outstandingCMO ==>
              && w.tables.outstandingCMO[k.id].Some?
              && w.tables.outstandingCMO[k.id].value in w.tables.routeTo
              && Settled(c, w, k, s, port, t) == Next(Unparking(w, w.tables.outstandingCMO[k.id].value, k.id))
  {
    if k.id !in w.tables.outstandingCMO {
      EarlyWriteBook(c, w, k, s, port, t);
    } else {
      LateWriteBook(c, w, k, s, port, t);
    }
  }

  function Responding(w: World, r: RequestId): World
    requires r in w.tables.routeTo
  {
    Closed(w, r).(below := w.below - {r})
  }

  lemma ResponseShape(c: Config, w: World, e: Event)
    requires Inv(c, w) && e.Response? && Allowed(c, w, e)
    ensures Take(c, w, e) == Next(if e.layerFree then Responding(w, e.req) else w)
  {
    RemoveAbsent(w.cleanHalf, e.req);
  }

  lemma ResponseKeepsInv(c: Config, w: World, r: RequestId)
    requires Inv(c, w) && r in w.below
    ensures Inv(c, Responding(w, r))
  {
    RouteCloses(c, w, r);
  }

  function TakingSnoop(w: World, r: RequestId, master: PortId, responder: PortId): World {
    w.(tables := w.tables.(routeTo := w.tables.routeTo[r := master]),
       forwarded := w.forwarded[r := Forwarded(master, responder)],
       snoopsTaken := w.snoopsTaken + multiset{To(r, master)})
  }

  lemma TakingSnoopKeepsInv(c: Config, w: World, r: RequestId, master: PortId, responder: PortId)
    requires Inv(c, w) && !InFlight(w, r) && master < c.masters && responder < c.slaves
    ensures Inv(c, TakingSnoop(w, r, master, responder))
  {}

  lemma SnoopShape(c: Config, w: World, e: Event)
    requires Inv(c, w) && e.Snoop? && Allowed(c, w, e)
    ensures var responder := ProbeFromBelow(c, e.ss, e.sa).1;
      && Take(c, w, e) == Next(if responder.Some? then TakingSnoop(w, e.sk.req, e.master, responder.value) else w)
      && (responder.Some? ==> responder.value < c.slaves && !InFlight(w, e.sk.req))
  {
    var Snoop(k, s, master, a) := e;
    FanResponder(Timed(s, a.timedHeader + FilterDelay(c, a.filterDelay), a.timedPayload),
                 None, Destinations(c, a.filterDests), a.replies);
  }

  /** A snoop response that becomes the normal response of request r. */
  function RespondingUp(w: World, r: RequestId): World
    requires r in w.tables.routeTo
  {
    var v := Closed(w, r);
    v.(tables := v.tables.(outstandingSnoop := w.tables.outstandingSnoop - {r}), committed := w.committed - {r})
  }

  lemma SnoopResponseUp(c: Config, w: World, r: RequestId)
    requires Inv(c, w) && r in w.committed
    ensures Inv(c, RespondingUp(w, r))
  {
    BalanceCloses(w.accepted, w.delivered, w.origin, r);
  }

  /** A snoop response handed on to the crossbar or cache below that asked. */
  function RespondingDown(w: World, r: RequestId): World
    requires r in w.tables.routeTo
  {
    w.(tables := w.tables.(routeTo := w.tables.routeTo - {r}),
       forwarded := w.forwarded - {r},
       snoopsAnswered := w.snoopsAnswered + multiset{To(r, w.tables.routeTo[r])})
  }

  lemma SnoopResponseDown(c: Config, w: World, r: RequestId)
    requires Inv(c, w) && r in w.forwarded
    ensures Inv(c, RespondingDown(w, r))
  {}

  lemma SnoopResponseShape(c: Config, w: World, e: Event)
    requires Inv(c, w) && e.SnoopResponse? && Allowed(c, w, e)
    ensures e.req in w.committed ==> Take(c, w, e) == Next(if e.respLayerFree then RespondingUp(w, e.req) else w)
    ensures e.req in w.forwarded ==> Take(c, w, e) == Next(if e.snoopLayerFree then RespondingDown(w, e.req) else w)
  {
    if e.req in w.committed {
      RemoveAbsent(w.cleanHalf, e.req);
    }
  }

  /** No assertion of the source can fail, and whatever step is taken keeps the invariant. */
  lemma StepKeepsInv(c: Config, w: World, e: Event)
    requires Inv(c, w) && Allowed(c, w, e)
    ensures !Take(c, w, e).Failed?
    ensures Take(c, w, e).Next? ==> Inv(c, Take(c, w, e).world)
  {
    match e
    case Request(_, _, _, _) => RequestKeepsInv(c, w, e);
    case Response(r, _) =>
      ResponseShape(c, w, e);
      ResponseKeepsInv(c, w, r);
    case Snoop(k, s, master, a) =>
      SnoopShape(c, w, e);
      var responder := ProbeFromBelow(c, s, a).1;
      if responder.Some? {
        TakingSnoopKeepsInv(c, w, k.req, master, responder.value);
      }
    case SnoopResponse(r, _, _, _, _) =>
      SnoopResponseShape(c, w, e);
      if r in w.committed {
        SnoopResponseUp(c, w, r);
      } else {
        SnoopResponseDown(c, w, r);
      }
  }
}
