/** The packets that members exchange. */
module Packets {
  import opened Wrappers
  import opened Statuses

  type Name = string
  type Byte = n: nat | n < 0x100
  type Bytes = seq<Byte>

  /** The random bytes by which a restarted or clashing member is told apart. */
  type Validity = Bytes
  type Metadata = map<string, Bytes>

  datatype Source = Source(name: Name, validity: Validity)

  datatype Packet =
    | Ping(source: Source)
    | PingReq(source: Source, target: Name)
    | Ack(source: Source)
    | Gossip(source: Source, name: Name, clock: nat, status: RealStatus, metadata: Option<Metadata>)
    | GossipAck(source: Source, name: Name, clock: nat)

  /** A packet on its way to a member. */
  datatype Message = Message(to: Name, packet: Packet)
}
