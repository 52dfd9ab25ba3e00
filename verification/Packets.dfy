/** Packets of the memory system, as far as the coherent crossbar looks at them. */
module Packets {

  type PortId = nat
  type RequestId = nat
  type PacketId = nat

  /** The command attributes that steer the crossbar. */
  datatype Command = Command(
    isRead: bool,
    isWrite: bool,
    needsResponse: bool,
    isClean: bool,          // CleanSharedReq, CleanInvalidReq
    isWriteClean: bool,     // the write half of a cache clean
    isEviction: bool,
    isCleanEviction: bool,
    needsWritable: bool)

  /** What the command attribute table promises about the combinations. */
  predicate LegalCommand(k: Command) {
    && (k.isClean ==> k.needsResponse && !k.isRead && !k.isWrite && !k.isCleanEviction)
    && (k.isWriteClean ==> k.isWrite && !k.isClean && !k.needsResponse && !k.isCleanEviction)
    && (k.isCleanEviction ==> !k.needsResponse)
  }

  /** The part of a packet that never changes while it travels. */
  datatype PacketInfo = PacketInfo(
    id: PacketId,
    req: RequestId,
    command: Command,
    toPoC: bool,
    toPoU: bool)

  /** The part of a packet that caches and crossbars write. */
  datatype PacketState = PacketState(
    express: bool,
    cacheResponding: bool,
    responderHadWritable: bool,
    satisfied: bool,
    blockCached: bool,
    writeThrough: bool,
    isResponse: bool,
    headerDelay: nat,
    payloadDelay: nat,
    snoopDelay: nat)

  class Packet {
    const info: PacketInfo
    var state: PacketState

    constructor (info: PacketInfo, state: PacketState)
      ensures this.info == info && this.state == state
    {
      this.info := info;
      this.state := state;
    }
  }
}
