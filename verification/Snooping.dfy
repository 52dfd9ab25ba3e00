/** Fanning a packet out to the snooping caches above the crossbar. */
module Snooping {
  import opened Common
  import opened Packets

  /** What one snooped cache does to the packet it is shown. */
  datatype SnoopReply = SnoopReply(
    commits: bool,        // wants to provide the response
    hadWritable: bool,    // held the block writable, looked at only when it commits
    satisfies: bool,      // satisfies a cache clean
    caches: bool,         // holds the block
    delay: nat)

  /** A cache commits by raising cacheResponding; one that finds it raised leaves it alone. */
  function AfterSnoop(s: PacketState, r: SnoopReply): PacketState {
    s.(cacheResponding := s.cacheResponding || r.commits,
       responderHadWritable := if !s.cacheResponding && r.commits then r.hadWritable else s.responderHadWritable,
       satisfied := s.satisfied || r.satisfies,
       blockCached := s.blockCached || r.caches,
       snoopDelay := r.delay)
  }

  predicate AllBelow(ports: seq<PortId>, n: nat) {
    forall i :: 0 <= i < |ports| ==> ports[i] < n
  }

  predicate IsSnooped(exclude: Option<PortId>, p: PortId) {
    exclude != Some(p)
  }

  /** The packet after every destination but the excluded one has seen it, and who committed. */
  function Fan(s: PacketState, exclude: Option<PortId>, dests: seq<PortId>, replies: seq<SnoopReply>)
    : (PacketState, Option<PortId>)
    requires AllBelow(dests, |replies|)
  {
    if dests == [] then (s, None)
    else
      var last := |dests| - 1;
      var (t, responder) := Fan(s, exclude, dests[..last], replies);
      var p := dests[last];
      if !IsSnooped(exclude, p) then (t, responder)
      else (AfterSnoop(t, replies[p]),
            if !t.cacheResponding && replies[p].commits then Some(p) else responder)
  }

  /** There is a responder exactly when the fan-out raised the flag, and it is a port that was snooped. */
  lemma {:induction false} FanResponder(
    s: PacketState, exclude: Option<PortId>, dests: seq<PortId>, replies: seq<SnoopReply>)
    requires AllBelow(dests, |replies|)
    ensures var (t, responder) := Fan(s, exclude, dests, replies);
      && (responder.Some? <==> !s.cacheResponding && t.cacheResponding)
      && (responder.Some? ==>
            && responder.value in dests
            && exclude != responder
            && replies[responder.value].commits
            && t.responderHadWritable == replies[responder.value].hadWritable)
      && (responder.None? ==> t.cacheResponding == s.cacheResponding && t.responderHadWritable == s.responderHadWritable)
  {
    if dests != [] {
      FanResponder(s, exclude, dests[..|dests| - 1], replies);
    }
  }

  /** Snooping only ever raises the flags, and touches nothing else but the snoop delay. */
  lemma {:induction false} FanFrame(
    s: PacketState, exclude: Option<PortId>, dests: seq<PortId>, replies: seq<SnoopReply>)
    requires AllBelow(dests, |replies|)
    ensures var t := Fan(s, exclude, dests, replies).0;
      && (t.satisfied <==> s.satisfied || exists p :: p in dests && IsSnooped(exclude, p) && replies[p].satisfies)
      && (t.blockCached <==> s.blockCached || exists p :: p in dests && IsSnooped(exclude, p) && replies[p].caches)
      && t == s.(cacheResponding := t.cacheResponding, responderHadWritable := t.responderHadWritable,
                 satisfied := t.satisfied, blockCached := t.blockCached, snoopDelay := t.snoopDelay)
  {
    if dests != [] {
      var init := dests[..|dests| - 1];
      FanFrame(s, exclude, init, replies);
      assert dests == init + [dests[|dests| - 1]];
    }
  }

  /** The destinations without the excluded port, in order. */
  function Others(dests: seq<PortId>, exclude: Option<PortId>): seq<PortId> {
    if dests == [] then []
    else
      var before, last := Others(dests[..|dests| - 1], exclude), dests[|dests| - 1];
      if exclude == Some(last) then before else before + [last]
  }

  /** Nobody but the excluded port is missed, and no port is snooped more often than listed. */
  lemma {:induction false} OthersCounts(dests: seq<PortId>, exclude: Option<PortId>, p: PortId)
    ensures multiset(Others(dests, exclude))[p] == if exclude == Some(p) then 0 else multiset(dests)[p]
  {
    if dests != [] {
      OthersCounts(dests[..|dests| - 1], exclude, p);
      CountOfLast(dests, p);
    }
  }

  lemma CountOfLast(dests: seq<PortId>, p: PortId)
    requires dests != []
    ensures multiset(dests)[p] == multiset(dests[..|dests| - 1])[p] + if dests[|dests| - 1] == p then 1 else 0
  {
    assert dests == dests[..|dests| - 1] + [dests[|dests| - 1]];
  }

  lemma {:induction false} OthersBelow(dests: seq<PortId>, exclude: Option<PortId>, n: nat)
    requires AllBelow(dests, n)
    ensures AllBelow(Others(dests, exclude), n)
  {
    if dests != [] {
      OthersBelow(dests[..|dests| - 1], exclude, n);
    }
  }

  function FirstToCommit(ports: seq<PortId>, replies: seq<SnoopReply>): (first: Option<PortId>)
    requires AllBelow(ports, |replies|)
    ensures first.Some? ==> first.value in ports && first.value < |replies| && replies[first.value].commits
  {
    if ports == [] then None
    else
      var (before, last) := (FirstToCommit(ports[..|ports| - 1], replies), ports[|ports| - 1]);
      if before.None? && replies[last].commits then Some(last) else before
  }

  /** If any of the ports commits, the first one that does is port n of the list. */
  lemma {:induction false} FirstCommits(ports: seq<PortId>, replies: seq<SnoopReply>) returns (n: nat)
    requires AllBelow(ports, |replies|)
    ensures var first := FirstToCommit(ports, replies);
      if first.None? then forall m :: 0 <= m < |ports| ==> !replies[ports[m]].commits
      else && n < |ports| && ports[n] == first.value && replies[ports[n]].commits
           && forall m :: 0 <= m < n ==> !replies[ports[m]].commits
  {
    n := 0;
    if ports != [] {
      var init := ports[..|ports| - 1];
      n := FirstCommits(init, replies);
      if FirstToCommit(init, replies).None? {
        n := |init|;
      }
    }
  }

  /** The responder is the first snooped port that commits, and the delay is that of the last one snooped. */
  lemma {:induction false} FanFirst(
    s: PacketState, exclude: Option<PortId>, dests: seq<PortId>, replies: seq<SnoopReply>)
    requires AllBelow(dests, |replies|)
    ensures AllBelow(Others(dests, exclude), |replies|)
    ensures var ((t, responder), asked) := (Fan(s, exclude, dests, replies), Others(dests, exclude));
      && responder == (if s.cacheResponding then None else FirstToCommit(asked, replies))
      && t.snoopDelay == if asked == [] then s.snoopDelay else replies[asked[|asked| - 1]].delay
  {
    OthersBelow(dests, exclude, |replies|);
    if dests != [] {
      var init, p := dests[..|dests| - 1], dests[|dests| - 1];
      FanFirst(s, exclude, init, replies);
      FanResponder(s, exclude, init, replies);
      assert (Others(init, exclude) + [p])[..|Others(init, exclude)|] == Others(init, exclude);
    }
  }

  lemma InOthers(dests: seq<PortId>, exclude: Option<PortId>, p: PortId)
    ensures p in Others(dests, exclude) <==> p in dests && exclude != Some(p)
  {
    OthersCounts(dests, exclude, p);
    assert p in Others(dests, exclude) <==> p in multiset(Others(dests, exclude));
    assert p in dests <==> p in multiset(dests);
  }

  /** Which flags the snooped caches raise, by the list of those snooped. */
  lemma FanFlags(s: PacketState, exclude: Option<PortId>, dests: seq<PortId>, replies: seq<SnoopReply>)
    requires AllBelow(dests, |replies|)
    ensures AllBelow(Others(dests, exclude), |replies|)
    ensures var (t, asked) := (Fan(s, exclude, dests, replies).0, Others(dests, exclude));
      && (t.satisfied <==> s.satisfied || exists p :: p in asked && replies[p].satisfies)
      && (t.blockCached <==> s.blockCached || exists p :: p in asked && replies[p].caches)
  {
    OthersBelow(dests, exclude, |replies|);
    FanFrame(s, exclude, dests, replies);
    forall p ensures p in Others(dests, exclude) <==> p in dests && IsSnooped(exclude, p) {
      InOthers(dests, exclude, p);
    }
  }
}
