/**
 The routing tables of the coherent crossbar and what one message does to them.
 An outcome is Fails when an assertion of the source would not hold, and Panics
 when one of its table-size limits is exceeded.
 */
module Routing {
  import opened Common
  import opened Packets
  import opened Snooping

  const TABLE_LIMIT := 512

  datatype Config = Config(
    slaves: nat,
    masters: nat,
    pointOfCoherency: bool,
    pointOfUnification: bool,
    bypassCaches: bool,
    snoopFilter: bool,
    snoopPorts: seq<PortId>)

  predicate ValidConfig(c: Config) {
    AllBelow(c.snoopPorts, c.slaves)
  }

  predicate IsDestination(c: Config, k: PacketInfo) {
    (k.toPoC && c.pointOfCoherency) || (k.toPoU && c.pointOfUnification)
  }

  predicate SinkPacket(c: Config, k: Command, s: PacketState) {
    || (c.pointOfCoherency && s.cacheResponding)
    || (c.pointOfCoherency && !(k.isRead || k.isWrite) && !k.needsResponse)
    || (k.isCleanEviction && s.blockCached)
    || (s.cacheResponding && (!k.needsWritable || s.responderHadWritable))
  }

  predicate ForwardPacket(c: Config, k: PacketInfo) {
    if k.command.isClean then !IsDestination(c, k)
    else k.command.isRead || k.command.isWrite || !c.pointOfCoherency
  }

  predicate SnoopsCaches(c: Config, k: Command) {
    !c.bypassCaches && !k.isWriteClean
  }

  // ---------------------------------------------------------------- requests

  /** Everything the outside decides while a request is handled. */
  datatype RequestAnswers = RequestAnswers(
    layerFree: bool,            // the request layer takes the packet
    timedHeader: nat,           // delays set by the packet timing calculation
    timedPayload: nat,
    memoryReady: bool,          // the port below could take a clean request
    filterDests: seq<PortId>,   // snoop filter: whom to snoop
    filterDelay: nat,
    replies: seq<SnoopReply>,   // one per slave port
    accepts: bool)              // the port below takes the packet

  function Destinations(c: Config, filterDests: seq<PortId>): seq<PortId> {
    if c.snoopFilter then filterDests else c.snoopPorts
  }

  predicate LegalReplies(c: Config, k: Command, filterDests: seq<PortId>, replies: seq<SnoopReply>) {
    && |replies| == c.slaves
    && AllBelow(filterDests, c.slaves)
    && (forall i :: 0 <= i < |replies| ==> replies[i].commits ==> k.needsResponse && !k.isClean)
  }

  function Timed(s: PacketState, header: nat, payload: nat): PacketState {
    s.(headerDelay := header, payloadDelay := payload)
  }

  /** The snoop delay moves into the header delay once everybody has been snooped. */
  function Charged(s: PacketState): PacketState {
    s.(headerDelay := s.headerDelay + s.snoopDelay, snoopDelay := 0)
  }

  function FilterDelay(c: Config, delay: nat): nat {
    if c.snoopFilter then delay else 0
  }

  /** With a snoop filter an eviction is not shown to anyone: the filter knows whether the block is cached. */
  function Show(c: Config, k: PacketInfo, s: PacketState, port: PortId, a: RequestAnswers): (PacketState, Option<PortId>)
    requires AllBelow(Destinations(c, a.filterDests), |a.replies|)
  {
    if c.snoopFilter && k.command.isEviction
    then (s.(blockCached := s.blockCached || a.filterDests != []), None)
    else Fan(s, Some(port), Destinations(c, a.filterDests), a.replies)
  }

  /** The packet once the caches above have been snooped, and the cache that committed to respond. */
  function Probe(c: Config, k: PacketInfo, s: PacketState, port: PortId, a: RequestAnswers)
    : (PacketState, Option<PortId>)
    requires AllBelow(Destinations(c, a.filterDests), |a.replies|)
  {
    if !SnoopsCaches(c, k.command) then (Timed(s, a.timedHeader, a.timedPayload), None)
    else
      var (t, responder) :=
        Show(c, k, Timed(s, a.timedHeader + FilterDelay(c, a.filterDelay), a.timedPayload), port, a);
      (Charged(t), responder)
  }

  datatype Verdict = Refused | Sunk | Sent | Answered

  /** A clean request is turned away before snooping when the memory below is busy. */
  predicate EarlyRefusal(c: Config, k: PacketInfo, a: RequestAnswers) {
    SnoopsCaches(c, k.command) && k.command.isClean && !IsDestination(c, k) && !a.memoryReady
  }

  /** The packet as it is sent on: express if a cache answers it, and stopping at the memory if due there. */
  function Outbound(c: Config, k: PacketInfo, s: PacketState): PacketState {
    s.(express := s.express || s.cacheResponding,
       writeThrough := s.writeThrough && !(k.command.isWrite && IsDestination(c, k)))
  }

  datatype Attempt = Attempt(verdict: Verdict, state: PacketState, responder: Option<PortId>)

  /** Sink, pass on or turn around the snooped packet t of a request that arrived as s. */
  function Judge(c: Config, k: PacketInfo, s: PacketState, accepts: bool, t: PacketState, responder: Option<PortId>): Attempt {
    if SinkPacket(c, k.command, t) then Attempt(Sunk, t, responder)
    else if ForwardPacket(c, k) then
      var u := Outbound(c, k, t);
      if accepts then Attempt(Sent, u, responder)
      else Attempt(Refused, u.(headerDelay := s.headerDelay), responder)
    else Attempt(Answered, t, responder)
  }

  /** What becomes of a request and of its packet; says nothing about the tables yet. */
  function Try(c: Config, k: PacketInfo, s: PacketState, port: PortId, a: RequestAnswers): Attempt
    requires AllBelow(Destinations(c, a.filterDests), |a.replies|)
  {
    if !s.express && !a.layerFree then Attempt(Refused, s, None)
    else if EarlyRefusal(c, k, a) then Attempt(Refused, Timed(s, a.timedHeader, a.timedPayload), None)
    else
      var (t, responder) := Probe(c, k, s, port, a);
      Judge(c, k, s, a.accepts, t, responder)
  }

  datatype Tables = Tables(
    routeTo: map<RequestId, PortId>,
    outstandingSnoop: set<RequestId>,
    outstandingCMO: map<PacketId, Option<RequestId>>)  // None: the write came first

  /** A response handed to a slave port, or a snoop response handed to a master port. */
  datatype Message = To(req: RequestId, port: PortId)

  datatype Outcome = Fails | Panics | Leaves(tables: Tables, response: Option<Message>)

  /** Is this accepted packet one half of a cache clean that completes at this crossbar? */
  predicate IsCleanHalf(c: Config, k: PacketInfo, t: PacketState) {
    ((k.command.isClean && t.satisfied) || k.command.isWriteClean) && IsDestination(c, k)
  }

  /** Recording the expected response of an accepted request. */
  function RecordRoute(t: Tables, k: PacketInfo, express: bool, try_: Attempt, port: PortId): Outcome {
    var expectSnoop := !express && try_.responder.Some?;
    var expectResponse := !express && k.command.needsResponse && !try_.state.cacheResponding && !try_.verdict.Answered?;
    if try_.verdict.Answered? && (!k.command.needsResponse || try_.responder.Some?) then Fails
    else if expectSnoop && k.req in t.outstandingSnoop then Fails
    else if expectSnoop && |t.outstandingSnoop + {k.req}| > TABLE_LIMIT then Panics
    else
      var snoops := if expectSnoop then t.outstandingSnoop + {k.req} else t.outstandingSnoop;
      if !expectSnoop && !expectResponse then Leaves(t, None)
      else if k.req in t.routeTo then Fails
      else if |t.routeTo[k.req := port]| > TABLE_LIMIT then Panics
      else Leaves(t.(outstandingSnoop := snoops, routeTo := t.routeTo[k.req := port]), None)
  }

  /** Matching the two halves of a cache clean, and answering where the crossbar must. */
  function Rendezvous(c: Config, t: Tables, k: PacketInfo, try_: Attempt, port: PortId): Outcome {
    if !IsCleanHalf(c, k, try_.state) then
      Leaves(t, if try_.verdict.Answered? then Some(To(k.req, port)) else None)
    else if k.id in t.outstandingCMO then
      var rest := t.(outstandingCMO := t.outstandingCMO - {k.id});
      if k.command.isWrite then
        match t.outstandingCMO[k.id]
        case None => Fails
        case Some(r) =>
          if r !in t.routeTo || t.routeTo[r] >= c.slaves then Fails
          else Leaves(rest.(routeTo := t.routeTo - {r}), Some(To(r, t.routeTo[r])))
      else if !k.command.needsResponse then Fails
      else Leaves(rest, Some(To(k.req, port)))
    else if k.command.isWrite then
      Leaves(t.(outstandingCMO := t.outstandingCMO[k.id := None]), None)
    else if k.req in t.routeTo then Fails
    else if |t.routeTo[k.req := port]| > TABLE_LIMIT then Panics
    else Leaves(t.(outstandingCMO := t.outstandingCMO[k.id := Some(k.req)],
                   routeTo := t.routeTo[k.req := port]), None)
  }

  /** The bookkeeping of an accepted request. */
  function Book(c: Config, t: Tables, k: PacketInfo, express: bool, try_: Attempt, port: PortId): Outcome {
    var recorded := RecordRoute(t, k, express, try_, port);
    if !recorded.Leaves? then recorded else Rendezvous(c, recorded.tables, k, try_, port)
  }

  /** The whole effect of one timing request on the tables. */
  function RequestOutcome(c: Config, t: Tables, k: PacketInfo, s: PacketState, port: PortId, a: RequestAnswers): Outcome
    requires AllBelow(Destinations(c, a.filterDests), |a.replies|)
  {
    var try_ := Try(c, k, s, port, a);
    if try_.verdict.Refused? then
      if s.express then Fails else Leaves(t, None)
    else Book(c, t, k, s.express, try_, port)
  }

  // --------------------------------------------------------- other messages

  function ResponseOutcome(c: Config, t: Tables, req: RequestId, layerFree: bool): Outcome {
    if req !in t.routeTo || t.routeTo[req] >= c.slaves then Fails
    else if !layerFree then Leaves(t, None)
    else Leaves(t.(routeTo := t.routeTo - {req}), Some(To(req, t.routeTo[req])))
  }

  datatype SnoopAnswers = SnoopAnswers(
    timedHeader: nat,
    timedPayload: nat,
    filterDests: seq<PortId>,
    filterDelay: nat,
    replies: seq<SnoopReply>,
    home: PortId)               // the master port responsible for the address

  /** The snooped packet of a snoop request from below, and the cache that committed. */
  function ProbeFromBelow(c: Config, s: PacketState, a: SnoopAnswers): (PacketState, Option<PortId>)
    requires AllBelow(Destinations(c, a.filterDests), |a.replies|)
  {
    var (t, responder) := Fan(Timed(s, a.timedHeader + FilterDelay(c, a.filterDelay), a.timedPayload),
                              None, Destinations(c, a.filterDests), a.replies);
    (Charged(t), responder)
  }

  function SnoopOutcome(c: Config, t: Tables, req: RequestId, s: PacketState, master: PortId, a: SnoopAnswers): Outcome
    requires AllBelow(Destinations(c, a.filterDests), |a.replies|)
  {
    if a.home != master then Fails
    else if ProbeFromBelow(c, s, a).1.None? then Leaves(t, None)
    else if req in t.routeTo then Fails
    else Leaves(t.(routeTo := t.routeTo[req := master]), None)
  }

  /** Which way a snoop response leaves: back down as a snoop response, or up as a normal response. */
  predicate GoesDown(t: Tables, req: RequestId) {
    req !in t.outstandingSnoop
  }

  /** Taken says whether the port below takes a snoop response that is offered to it. */
  function SnoopResponseOutcome(
    c: Config, t: Tables, req: RequestId, port: PortId, snoopLayerFree: bool, respLayerFree: bool, taken: bool): Outcome
  {
    if req !in t.routeTo then Fails
    else
      var dest := t.routeTo[req];
      var rest := t.(routeTo := t.routeTo - {req});
      if GoesDown(t, req) then
        if dest >= c.masters then Fails
        else if !snoopLayerFree then Leaves(t, None)
        else if !taken then Fails
        else Leaves(rest, Some(To(req, dest)))
      else
        if dest >= c.slaves then Fails
        else if !respLayerFree then Leaves(t, None)
        else if port == dest then Fails
        else Leaves(rest.(outstandingSnoop := t.outstandingSnoop - {req}), Some(To(req, dest)))
  }
}
