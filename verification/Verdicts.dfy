/**
 What becomes of a request, read off the request, the configuration and the
 replies of the caches: whether it is refused, sunk, sent on or answered, and
 in what state it is sent.
 */
module Verdicts {
  import opened Common
  import opened Packets
  import opened Snooping
  import opened Routing
  import opened World

  /** The ports the request is shown to, in order. */
  ghost function Asked(c: Config, k: PacketInfo, port: PortId, a: RequestAnswers): seq<PortId> {
    if c.bypassCaches || k.command.isWriteClean || (c.snoopFilter && k.command.isEviction) then []
    else Others(if c.snoopFilter then a.filterDests else c.snoopPorts, Some(port))
  }

  /** A cache above holds the block, by its own word or, for an eviction, by that of the snoop filter. */
  ghost predicate CachedAbove(c: Config, k: PacketInfo, s: PacketState, port: PortId, a: RequestAnswers)
    requires AllBelow(Asked(c, k, port, a), |a.replies|)
  {
    || s.blockCached
    || (exists p :: p in Asked(c, k, port, a) && a.replies[p].caches)
    || (!c.bypassCaches && !k.command.isWriteClean && c.snoopFilter && k.command.isEviction && a.filterDests != [])
  }

  /** The packet after snooping, and the cache that committed: the first one that does. */
  ghost predicate AfterProbe(c: Config, k: PacketInfo, s: PacketState, port: PortId, a: RequestAnswers,
                             t: PacketState, responder: Option<PortId>)
    requires AllBelow(Asked(c, k, port, a), |a.replies|)
  {
    var asked := Asked(c, k, port, a);
    && responder == (if s.cacheResponding then None else FirstToCommit(asked, a.replies))
    && t.cacheResponding == (s.cacheResponding || responder.Some?)
    && t.responderHadWritable == (if responder.Some? then a.replies[responder.value].hadWritable else s.responderHadWritable)
    && (t.satisfied <==> s.satisfied || exists p :: p in asked && a.replies[p].satisfies)
    && (t.blockCached <==> CachedAbove(c, k, s, port, a))
    && t.headerDelay == a.timedHeader
         + (if c.snoopFilter && !c.bypassCaches && !k.command.isWriteClean then a.filterDelay else 0)
         + (if asked == [] then 0 else a.replies[asked[|asked| - 1]].delay)
    && t.payloadDelay == a.timedPayload
    && t.snoopDelay == (if c.bypassCaches || k.command.isWriteClean then s.snoopDelay else 0)
    && t.express == s.express && t.writeThrough == s.writeThrough && t.isResponse == s.isResponse
  }

  lemma QuietProbe(c: Config, k: PacketInfo, s: PacketState, port: PortId, a: RequestAnswers)
    requires LegalPacket(c, k, s) && AllBelow(Destinations(c, a.filterDests), |a.replies|)
    requires !SnoopsCaches(c, k.command) || (c.snoopFilter && k.command.isEviction)
    ensures Asked(c, k, port, a) == []
    ensures AfterProbe(c, k, s, port, a, Probe(c, k, s, port, a).0, Probe(c, k, s, port, a).1)
  {}

  lemma FannedProbe(c: Config, k: PacketInfo, s: PacketState, port: PortId, a: RequestAnswers)
    requires LegalPacket(c, k, s) && AllBelow(Destinations(c, a.filterDests), |a.replies|)
    requires SnoopsCaches(c, k.command) && !(c.snoopFilter && k.command.isEviction)
    ensures AllBelow(Asked(c, k, port, a), |a.replies|)
    ensures AfterProbe(c, k, s, port, a, Probe(c, k, s, port, a).0, Probe(c, k, s, port, a).1)
  {
    var looked, dests := Timed(s, a.timedHeader + FilterDelay(c, a.filterDelay), a.timedPayload), Destinations(c, a.filterDests);
    var (t, responder) := Fan(looked, Some(port), dests, a.replies);
    assert Probe(c, k, s, port, a) == (Charged(t), responder);
    FanFirst(looked, Some(port), dests, a.replies);
    FanResponder(looked, Some(port), dests, a.replies);
    FanFrame(looked, Some(port), dests, a.replies);
    FanFlags(looked, Some(port), dests, a.replies);
  }

  lemma ProbeIs(c: Config, k: PacketInfo, s: PacketState, port: PortId, a: RequestAnswers)
    requires LegalPacket(c, k, s) && AllBelow(Destinations(c, a.filterDests), |a.replies|)
    ensures AllBelow(Asked(c, k, port, a), |a.replies|)
    ensures AfterProbe(c, k, s, port, a, Probe(c, k, s, port, a).0, Probe(c, k, s, port, a).1)
  {
    if SnoopsCaches(c, k.command) && !(c.snoopFilter && k.command.isEviction) {
      FannedProbe(c, k, s, port, a);
    } else {
      QuietProbe(c, k, s, port, a);
    }
  }

  /**
   When a request is sunk. With a committed cache: at the point of coherency, or
   when the block need not be writable, or when the owner had it writable.
   Without one: a clean eviction of a block that is cached above, or at the point
   of coherency a packet that is neither read nor write and wants no response.
   */
  lemma SunkWhen(c: Config, k: PacketInfo, s: PacketState, port: PortId, a: RequestAnswers)
    requires LegalPacket(c, k, s) && LegalAnswers(c, k, s, port, a) && !Try(c, k, s, port, a).verdict.Refused?
    ensures AllBelow(Asked(c, k, port, a), |a.replies|)
    ensures var t := Try(c, k, s, port, a);
      && t.responder == (if s.cacheResponding then None else FirstToCommit(Asked(c, k, port, a), a.replies))
      && (t.responder.Some? ==>
            (t.verdict.Sunk? <==>
               c.pointOfCoherency || !k.command.needsWritable || a.replies[t.responder.value].hadWritable))
      && (s.cacheResponding ==>
            (t.verdict.Sunk? <==>
               || c.pointOfCoherency || !k.command.needsWritable || s.responderHadWritable
               || (k.command.isCleanEviction && CachedAbove(c, k, s, port, a))))
      && (t.responder.None? && !s.cacheResponding ==>
            (t.verdict.Sunk? <==>
               || (k.command.isCleanEviction && CachedAbove(c, k, s, port, a))
               || (c.pointOfCoherency && !k.command.isRead && !k.command.isWrite && !k.command.needsResponse)))
  {
    ProbeIs(c, k, s, port, a);
    ProbeResponder(c, k, s, port, a);
  }

  /** What is not sunk is sent, unless it is a clean request that ends here or has nowhere to go; that is answered. */
  lemma SentWhen(c: Config, k: PacketInfo, s: PacketState, port: PortId, a: RequestAnswers)
    requires AllBelow(Destinations(c, a.filterDests), |a.replies|)
    requires !Try(c, k, s, port, a).verdict.Refused? && !Try(c, k, s, port, a).verdict.Sunk?
    ensures var ends := (k.toPoC && c.pointOfCoherency) || (k.toPoU && c.pointOfUnification);
      Try(c, k, s, port, a).verdict ==
        if k.command.isClean then (if ends then Answered else Sent)
        else if k.command.isRead || k.command.isWrite || !c.pointOfCoherency then Sent
        else Answered
  {}

  /** The three refusals: a busy layer, a busy memory below for a clean request, and the port below itself. */
  lemma RefusedWhen(c: Config, k: PacketInfo, s: PacketState, port: PortId, a: RequestAnswers)
    requires AllBelow(Destinations(c, a.filterDests), |a.replies|) && LegalCommand(k.command)
    ensures Try(c, k, s, port, a).verdict.Refused? <==>
            || (!s.express && !a.layerFree)
            || (k.command.isClean && !c.bypassCaches && !(k.toPoC && c.pointOfCoherency)
                && !(k.toPoU && c.pointOfUnification) && !a.memoryReady)
            || (!a.accepts && Try(c, k, s, port, a.(accepts := true)).verdict.Sent?)
  {
    var (t, responder) := Probe(c, k, s, port, a);
    ProbeIgnoresAcceptance(c, k, s, port, a);
    PortRefuses(c, k, s, a.accepts, t, responder);
  }

  lemma ProbeIgnoresAcceptance(c: Config, k: PacketInfo, s: PacketState, port: PortId, a: RequestAnswers)
    requires AllBelow(Destinations(c, a.filterDests), |a.replies|)
    ensures Probe(c, k, s, port, a.(accepts := true)) == Probe(c, k, s, port, a)
    ensures EarlyRefusal(c, k, a.(accepts := true)) == EarlyRefusal(c, k, a)
  {}

  lemma PortRefuses(c: Config, k: PacketInfo, s: PacketState, accepts: bool, t: PacketState, responder: Option<PortId>)
    ensures Judge(c, k, s, accepts, t, responder).verdict.Refused?
            <==> !accepts && Judge(c, k, s, true, t, responder).verdict.Sent?
  {}

  /** The packet as the port below receives it: as after snooping, but express if a cache answers it. */
  lemma SentPacket(c: Config, k: PacketInfo, s: PacketState, port: PortId, a: RequestAnswers)
    requires LegalPacket(c, k, s) && LegalAnswers(c, k, s, port, a) && Try(c, k, s, port, a).verdict.Sent?
    ensures AllBelow(Asked(c, k, port, a), |a.replies|)
    ensures var t := Try(c, k, s, port, a);
      var ends := (k.toPoC && c.pointOfCoherency) || (k.toPoU && c.pointOfUnification);
      && t.state.express == (s.express || t.responder.Some?)
      && t.state.writeThrough == (s.writeThrough && !(k.command.isWrite && ends))
      && AfterProbe(c, k, s, port, a, t.state.(express := s.express, writeThrough := s.writeThrough), t.responder)
  {
    ProbeIs(c, k, s, port, a);
  }

  lemma {:induction false} OthersOfNone(dests: seq<PortId>)
    ensures Others(dests, None) == dests
  {
    if dests != [] {
      OthersOfNone(dests[..|dests| - 1]);
      assert dests == dests[..|dests| - 1] + [dests[|dests| - 1]];
    }
  }

  /** A snoop from below is shown to every destination; the first that commits answers it. */
  lemma SnoopFromBelow(c: Config, s: PacketState, a: SnoopAnswers)
    requires s.snoopDelay == 0 && AllBelow(if c.snoopFilter then a.filterDests else c.snoopPorts, |a.replies|)
    ensures var ((t, responder), asked) := (ProbeFromBelow(c, s, a), if c.snoopFilter then a.filterDests else c.snoopPorts);
      && responder == (if s.cacheResponding then None else FirstToCommit(asked, a.replies))
      && t.cacheResponding == (s.cacheResponding || responder.Some?)
      && (t.satisfied <==> s.satisfied || exists p :: p in asked && a.replies[p].satisfies)
      && (t.blockCached <==> s.blockCached || exists p :: p in asked && a.replies[p].caches)
      && t.headerDelay == a.timedHeader + (if c.snoopFilter then a.filterDelay else 0)
           + (if asked == [] then 0 else a.replies[asked[|asked| - 1]].delay)
      && t.payloadDelay == a.timedPayload && t.snoopDelay == 0 && t.express == s.express
  {
    var looked, dests := Timed(s, a.timedHeader + FilterDelay(c, a.filterDelay), a.timedPayload), Destinations(c, a.filterDests);
    assert ProbeFromBelow(c, s, a) == (Charged(Fan(looked, None, dests, a.replies).0), Fan(looked, None, dests, a.replies).1);
    FanToAll(looked, dests, a.replies);
  }

  lemma FanToAll(s: PacketState, dests: seq<PortId>, replies: seq<SnoopReply>)
    requires AllBelow(dests, |replies|)
    ensures var (t, responder) := Fan(s, None, dests, replies);
      && responder == (if s.cacheResponding then None else FirstToCommit(dests, replies))
      && t.cacheResponding == (s.cacheResponding || responder.Some?)
      && (t.satisfied <==> s.satisfied || exists p :: p in dests && replies[p].satisfies)
      && (t.blockCached <==> s.blockCached || exists p :: p in dests && replies[p].caches)
      && t.snoopDelay == (if dests == [] then s.snoopDelay else replies[dests[|dests| - 1]].delay)
      && t.headerDelay == s.headerDelay && t.payloadDelay == s.payloadDelay && t.express == s.express
  {
    OthersOfNone(dests);
    FanFirst(s, None, dests, replies);
    FanResponder(s, None, dests, replies);
    FanFrame(s, None, dests, replies);
    FanFlags(s, None, dests, replies);
  }
}
