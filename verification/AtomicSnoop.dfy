/** Atomic snooping: every snooper sees the original command, at most one answers. */
module AtomicSnoop {
  import opened Common
  import opened Packets
  import opened Snooping

  datatype MemCmd = InvalidCmd | RequestCmd(n: nat) | ResponseCmd(n: nat)

  /** What a snooper does to an atomic packet: nothing, or turn it into a response. */
  datatype AtomicReply = Silent | Responds(n: nat, latency: nat)

  class AtomicPacket {
    var cmd: MemCmd

    constructor (cmd: MemCmd)
      ensures this.cmd == cmd
    {
      this.cmd := cmd;
    }
  }

  predicate Answers(replies: seq<AtomicReply>, p: PortId) {
    p < |replies| && replies[p].Responds?
  }

  method ForwardAtomic(pkt: AtomicPacket, exclude: Option<PortId>, dests: seq<PortId>, replies: seq<AtomicReply>)
    returns (cmd: MemCmd, latency: nat, snooped: seq<PortId>)
    requires forall n :: 0 <= n < |dests| ==> dests[n] < |replies|
    requires !pkt.cmd.ResponseCmd?
    // at most one snooped port responds
    requires forall i, j :: 0 <= i < j < |Others(dests, exclude)| ==>
               !(Answers(replies, Others(dests, exclude)[i]) && Answers(replies, Others(dests, exclude)[j]))
    modifies pkt
    ensures pkt.cmd == old(pkt.cmd)
    ensures snooped == Others(dests, exclude)
    ensures (forall n :: 0 <= n < |snooped| ==> !Answers(replies, snooped[n])) ==> cmd == InvalidCmd && latency == 0
    ensures forall n :: 0 <= n < |snooped| && Answers(replies, snooped[n]) ==>
              cmd == ResponseCmd(replies[snooped[n]].n) && latency == replies[snooped[n]].latency
  {
    var original := pkt.cmd;
    cmd, latency, snooped := InvalidCmd, 0, [];
    for n := 0 to |dests|
      invariant pkt.cmd == original
      invariant snooped == Others(dests[..n], exclude)
      invariant snooped <= Others(dests, exclude)
      invariant (forall m :: 0 <= m < |snooped| ==> !Answers(replies, snooped[m])) ==> cmd == InvalidCmd && latency == 0
      invariant forall m :: 0 <= m < |snooped| && Answers(replies, snooped[m]) ==>
                  cmd == ResponseCmd(replies[snooped[m]].n) && latency == replies[snooped[m]].latency
    {
      assert dests[..n + 1][..n] == dests[..n];
      OthersPrefix(dests, n + 1, exclude);
      if exclude != None && Some(dests[n]) == exclude {
        continue;
      }
      ghost var before := snooped;
      var reply := replies[dests[n]];
      if reply.Responds? {
        pkt.cmd := ResponseCmd(reply.n);
      }
      snooped := snooped + [dests[n]];
      if !pkt.cmd.ResponseCmd? {
        continue;
      }
      assert Answers(replies, snooped[|before|]);
      assert forall m :: 0 <= m < |before| ==>
          before[m] == Others(dests, exclude)[m] && !Answers(replies, before[m]);
      assert pkt.cmd != original;
      assert cmd == InvalidCmd;
      cmd, latency := pkt.cmd, reply.latency;
      pkt.cmd := original;
    }
    assert dests[..|dests|] == dests;
  }

  lemma {:induction false} OthersPrefix(dests: seq<PortId>, n: nat, exclude: Option<PortId>)
    requires n <= |dests|
    ensures Others(dests[..n], exclude) <= Others(dests, exclude)
    decreases |dests| - n
  {
    if n < |dests| {
      assert dests[..n + 1][..n] == dests[..n];
      OthersPrefix(dests, n + 1, exclude);
    } else {
      assert dests[..n] == dests;
    }
  }
}
