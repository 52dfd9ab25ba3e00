/** Refused requests: what a refusal leaves behind and what a later attempt makes of it. */
module Retry {
  import opened Common
  import opened Packets
  import opened Snooping
  import opened Routing
  import opened World

  /**
   Two states of the same packet that the crossbar cannot tell apart: they may
   differ in delays, in a satisfied flag that does not count here, and in a
   block-cached flag on a packet that is not a clean eviction.
   */
  ghost predicate Alike(c: Config, k: PacketInfo, s: PacketState, t: PacketState) {
    && s.express == t.express
    && s.cacheResponding == t.cacheResponding
    && s.responderHadWritable == t.responderHadWritable
    && (k.command.isCleanEviction ==> s.blockCached == t.blockCached)
    && (k.command.isClean && IsDestination(c, k) ==> s.satisfied == t.satisfied)
  }

  lemma {:induction false} FanAlike(c: Config, k: PacketInfo, s: PacketState, t: PacketState,
                                    exclude: Option<PortId>, dests: seq<PortId>, replies: seq<SnoopReply>)
    requires AllBelow(dests, |replies|) && Alike(c, k, s, t)
    ensures Alike(c, k, Fan(s, exclude, dests, replies).0, Fan(t, exclude, dests, replies).0)
    ensures Fan(s, exclude, dests, replies).1 == Fan(t, exclude, dests, replies).1
  {
    if dests != [] {
      FanAlike(c, k, s, t, exclude, dests[..|dests| - 1], replies);
    }
  }

  lemma ShowAlike(c: Config, k: PacketInfo, s: PacketState, t: PacketState, port: PortId, a: RequestAnswers)
    requires AllBelow(Destinations(c, a.filterDests), |a.replies|) && Alike(c, k, s, t)
    ensures Alike(c, k, Show(c, k, s, port, a).0, Show(c, k, t, port, a).0)
    ensures Show(c, k, s, port, a).1 == Show(c, k, t, port, a).1
  {
    FanAlike(c, k, s, t, Some(port), Destinations(c, a.filterDests), a.replies);
  }

  lemma TimedAlike(c: Config, k: PacketInfo, s: PacketState, t: PacketState, header: nat, header': nat, payload: nat)
    requires Alike(c, k, s, t)
    ensures Alike(c, k, Timed(s, header, payload), Timed(t, header', payload))
  {}

  lemma ChargedAlike(c: Config, k: PacketInfo, s: PacketState, t: PacketState)
    requires Alike(c, k, s, t)
    ensures Alike(c, k, Charged(s), Charged(t))
  {}

  lemma ProbeAlike(c: Config, k: PacketInfo, s: PacketState, t: PacketState, port: PortId, a: RequestAnswers)
    requires AllBelow(Destinations(c, a.filterDests), |a.replies|) && Alike(c, k, s, t)
    ensures Alike(c, k, Probe(c, k, s, port, a).0, Probe(c, k, t, port, a).0)
    ensures Probe(c, k, s, port, a).1 == Probe(c, k, t, port, a).1
  {
    if !SnoopsCaches(c, k.command) {
      TimedAlike(c, k, s, t, a.timedHeader, a.timedHeader, a.timedPayload);
    } else {
      var header := a.timedHeader + FilterDelay(c, a.filterDelay);
      TimedAlike(c, k, s, t, header, header, a.timedPayload);
      var (x, y) := (Timed(s, header, a.timedPayload), Timed(t, header, a.timedPayload));
      ShowAlike(c, k, x, y, port, a);
      ChargedAlike(c, k, Show(c, k, x, port, a).0, Show(c, k, y, port, a).0);
    }
  }

  lemma SinkAlike(c: Config, k: PacketInfo, s: PacketState, t: PacketState)
    requires Alike(c, k, s, t)
    ensures SinkPacket(c, k.command, s) == SinkPacket(c, k.command, t)
    ensures Alike(c, k, Outbound(c, k, s), Outbound(c, k, t))
  {}

  lemma TryAlike(c: Config, k: PacketInfo, s: PacketState, t: PacketState, port: PortId, a: RequestAnswers)
    requires AllBelow(Destinations(c, a.filterDests), |a.replies|) && Alike(c, k, s, t)
    ensures AlikeAttempts(c, k, Try(c, k, s, port, a), Try(c, k, t, port, a))
  {
    if !s.express && !a.layerFree {
    } else if EarlyRefusal(c, k, a) {
      TimedAlike(c, k, s, t, a.timedHeader, a.timedHeader, a.timedPayload);
    } else {
      var (x, y) := (Probe(c, k, s, port, a).0, Probe(c, k, t, port, a).0);
      ProbeAlike(c, k, s, t, port, a);
      SinkAlike(c, k, x, y);
      RestoredAlike(c, k, Outbound(c, k, x), Outbound(c, k, y), s.headerDelay, t.headerDelay);
    }
  }

  lemma RestoredAlike(c: Config, k: PacketInfo, s: PacketState, t: PacketState, header: nat, header': nat)
    requires Alike(c, k, s, t)
    ensures Alike(c, k, s.(headerDelay := header), t.(headerDelay := header'))
  {}

  ghost predicate AlikeAttempts(c: Config, k: PacketInfo, x: Attempt, y: Attempt) {
    x.verdict == y.verdict && x.responder == y.responder && Alike(c, k, x.state, y.state)
  }

  lemma RecordAlike(c: Config, t: Tables, k: PacketInfo, express: bool, x: Attempt, y: Attempt, port: PortId)
    requires AlikeAttempts(c, k, x, y)
    ensures RecordRoute(t, k, express, x, port) == RecordRoute(t, k, express, y, port)
  {}

  lemma RendezvousAlike(c: Config, t: Tables, k: PacketInfo, x: Attempt, y: Attempt, port: PortId)
    requires LegalCommand(k.command) && AlikeAttempts(c, k, x, y)
    ensures Rendezvous(c, t, k, x, port) == Rendezvous(c, t, k, y, port)
  {}

  lemma HalveAlike(c: Config, w: World, k: PacketInfo, x: PacketState, y: PacketState, answered: bool)
    requires LegalCommand(k.command) && Alike(c, k, x, y)
    ensures Halve(c, w, k, x, answered) == Halve(c, w, k, y, answered)
  {}

  lemma AfterAlike(c: Config, w: World, k: PacketInfo, s: PacketState, s': PacketState, port: PortId,
                   x: Attempt, y: Attempt, t: Tables, m: Option<Message>)
    requires LegalCommand(k.command) && AlikeAttempts(c, k, x, y) && s.express == s'.express
    ensures AfterRequest(c, w, k, s, port, x, t, m) == AfterRequest(c, w, k, s', port, y, t, m)
  {
    var w1 := Accept(w.(tables := t), k, s.express, port);
    assert Owe(w1, k, s.express, x) == Owe(w1, k, s.express, y);
    HalveAlike(c, Owe(w1, k, s.express, x), k, x.state, y.state, m.Some?);
  }

  lemma SettledAlike(c: Config, w: World, k: PacketInfo, s: PacketState, s': PacketState, port: PortId, x: Attempt, y: Attempt)
    requires LegalCommand(k.command) && AlikeAttempts(c, k, x, y) && s.express == s'.express
    ensures Settled(c, w, k, s, port, x) == Settled(c, w, k, s', port, y)
  {
    var book := Book(c, w.tables, k, s.express, x, port);
    BookAlike(c, w.tables, k, s.express, x, y, port);
    SettledIsBooked(c, w, k, s, port, x, book);
    SettledIsBooked(c, w, k, s', port, y, book);
    BookedAlike(c, w, k, s, s', port, x, y, book);
  }

  function Booked(c: Config, w: World, k: PacketInfo, s: PacketState, port: PortId, t: Attempt, book: Outcome): Step {
    match book
    case Fails => Failed
    case Panics => Panicked
    case Leaves(tables, m) => Next(AfterRequest(c, w, k, s, port, t, tables, m))
  }

  lemma SettledIsBooked(c: Config, w: World, k: PacketInfo, s: PacketState, port: PortId, t: Attempt, book: Outcome)
    requires book == Book(c, w.tables, k, s.express, t, port)
    ensures Settled(c, w, k, s, port, t) == Booked(c, w, k, s, port, t, book)
  {}

  lemma BookedAlike(c: Config, w: World, k: PacketInfo, s: PacketState, s': PacketState, port: PortId,
                    x: Attempt, y: Attempt, book: Outcome)
    requires LegalCommand(k.command) && AlikeAttempts(c, k, x, y) && s.express == s'.express
    ensures Booked(c, w, k, s, port, x, book) == Booked(c, w, k, s', port, y, book)
  {
    if book.Leaves? {
      AfterAlike(c, w, k, s, s', port, x, y, book.tables, book.response);
    }
  }

  lemma BookAlike(c: Config, t: Tables, k: PacketInfo, express: bool, x: Attempt, y: Attempt, port: PortId)
    requires LegalCommand(k.command) && AlikeAttempts(c, k, x, y)
    ensures Book(c, t, k, express, x, port) == Book(c, t, k, express, y, port)
  {
    RecordAlike(c, t, k, express, x, y, port);
    var recorded := RecordRoute(t, k, express, x, port);
    if recorded.Leaves? {
      RendezvousAlike(c, recorded.tables, k, x, y, port);
    }
  }

  /** Packets that look alike have the same effect on the world. */
  lemma StepAlike(c: Config, w: World, k: PacketInfo, s: PacketState, t: PacketState, port: PortId, a: RequestAnswers)
    requires LegalCommand(k.command) && AllBelow(Destinations(c, a.filterDests), |a.replies|) && Alike(c, k, s, t)
    ensures StepRequest(c, w, k, s, port, a) == StepRequest(c, w, k, t, port, a)
  {
    var (x, y) := (Try(c, k, s, port, a), Try(c, k, t, port, a));
    TryAlike(c, k, s, t, port, a);
    StepIsSettled(c, w, k, s, port, a);
    StepIsSettled(c, w, k, t, port, a);
    if !x.verdict.Refused? {
      SettledAlike(c, w, k, s, t, port, x, y);
    }
  }

  /** Snooping without a committer leaves the flags that steer routing, and never clears block-cached. */
  lemma ProbeFrame(c: Config, k: PacketInfo, s: PacketState, port: PortId, a: RequestAnswers)
    requires LegalPacket(c, k, s) && LegalAnswers(c, k, s, port, a)
    ensures var (t, responder) := Probe(c, k, s, port, a);
      && t.express == s.express
      && (SnoopsCaches(c, k.command) ==> t.snoopDelay == 0)
      && (s.blockCached ==> t.blockCached)
      && (responder.None? ==> t.cacheResponding == s.cacheResponding && t.responderHadWritable == s.responderHadWritable)
  {
    if SnoopsCaches(c, k.command) && !(c.snoopFilter && k.command.isEviction) {
      var looked := Timed(s, a.timedHeader + FilterDelay(c, a.filterDelay), a.timedPayload);
      FanResponder(looked, Some(port), Destinations(c, a.filterDests), a.replies);
      FanFrame(looked, Some(port), Destinations(c, a.filterDests), a.replies);
    }
  }

  lemma RefusedLooksAlike(c: Config, k: PacketInfo, s: PacketState, port: PortId, a: RequestAnswers)
    requires LegalPacket(c, k, s) && LegalAnswers(c, k, s, port, a)
    requires Try(c, k, s, port, a).verdict.Refused?
    ensures Alike(c, k, s, Try(c, k, s, port, a).state)
    ensures SnoopsCaches(c, k.command) ==> Try(c, k, s, port, a).state.snoopDelay == 0
  {
    Dispositions(c, k, s, port, a);
    ProbeFrame(c, k, s, port, a);
  }

  /** A refusal touches no table, and the packet it hands back still looks like the one that came. */
  lemma RefusalIsHarmless(c: Config, w: World, k: PacketInfo, s: PacketState, port: PortId, a: RequestAnswers)
    requires LegalPacket(c, k, s) && LegalAnswers(c, k, s, port, a)
    requires Try(c, k, s, port, a).verdict.Refused?
    ensures StepRequest(c, w, k, s, port, a) == Next(w)
    ensures Alike(c, k, s, Try(c, k, s, port, a).state)
    ensures LegalPacket(c, k, Try(c, k, s, port, a).state)
  {
    Dispositions(c, k, s, port, a);
    RefusedLooksAlike(c, k, s, port, a);
    StepIsSettled(c, w, k, s, port, a);
  }

  /** The attempts, each made with the packet the one before handed back, are all refused; t is what remains. */
  ghost predicate AllRefused(
    c: Config, k: PacketInfo, s: PacketState, port: PortId, attempts: seq<RequestAnswers>, t: PacketState)
    decreases |attempts|
  {
    if attempts == [] then t == s
    else
      && LegalAnswers(c, k, s, port, attempts[0])
      && Try(c, k, s, port, attempts[0]).verdict.Refused?
      && AllRefused(c, k, Try(c, k, s, port, attempts[0]).state, port, attempts[1..], t)
  }

  /** Retrying is transparent: any number of refusals before an attempt changes nothing about its effect. */
  lemma {:induction false} RetriesAreTransparent(
    c: Config, w: World, k: PacketInfo, s: PacketState, port: PortId,
    attempts: seq<RequestAnswers>, t: PacketState, last: RequestAnswers)
    requires LegalPacket(c, k, s) && AllRefused(c, k, s, port, attempts, t)
    requires AllBelow(Destinations(c, last.filterDests), |last.replies|)
    ensures StepRequest(c, w, k, t, port, last) == StepRequest(c, w, k, s, port, last)
    decreases |attempts|
  {
    if attempts != [] {
      var u := Try(c, k, s, port, attempts[0]).state;
      RefusalIsHarmless(c, w, k, s, port, attempts[0]);
      RetriesAreTransparent(c, w, k, u, port, attempts[1..], t, last);
      StepAlike(c, w, k, s, u, port, last);
    }
  }

  /**
   The header delay of a refused packet is what it was, except on the early
   refusal of a clean request, which leaves the newly calculated delay in it.
   */
  lemma HeaderDelayAfterRefusal(c: Config, k: PacketInfo, s: PacketState, port: PortId, a: RequestAnswers)
    requires LegalPacket(c, k, s) && LegalAnswers(c, k, s, port, a)
    requires Try(c, k, s, port, a).verdict.Refused?
    ensures Try(c, k, s, port, a).state.headerDelay == s.headerDelay <==>
              !((s.express || a.layerFree) && EarlyRefusal(c, k, a) && a.timedHeader != s.headerDelay)
  {}

  /** Such a refusal does happen: a clean request to the point of coherency, seen above it. */
  lemma EarlyRefusalKeepsDelay()
    ensures var c := Config(1, 1, false, false, false, false, []);
      var k := PacketInfo(0, 0, Command(false, false, true, true, false, false, false, false), true, false);
      var s := PacketState(false, false, false, false, false, false, false, 0, 0, 0);
      var a := RequestAnswers(true, 7, 0, false, [], 0, [SnoopReply(false, false, false, false, 0)], true);
      && LegalPacket(c, k, s) && LegalAnswers(c, k, s, 0, a)
      && Try(c, k, s, 0, a).verdict.Refused?
      && Try(c, k, s, 0, a).state.headerDelay == 7 != s.headerDelay
  {}
}
