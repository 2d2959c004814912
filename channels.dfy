/** The two-ended message pipe that joins the engine's socket to a bridge node
    (`multiprocessing.Pipe`), and the accepted TCP connection of a socket. */
module Channels {
  import opened Bytes
  import opened BBPackets

  /** The engine-side address of a listening socket: host and port. */
  type Address = (string, int)

  /** What travels over a pipe: a packet, the end-of-data marker, the
      `('Connected', address)` notice of an accepted connection, or any other
      value. */
  datatype ChanMsg =
    | PacketItem(packet: BBPacket)
    | EodItem
    | ConnectedItem(address: Address)
    | OtherItem

  /** One pipe: the messages queued towards the node end, the messages
      queued towards the socket end, and whether the socket end was closed. */
  class Channel {
    var toNode: seq<ChanMsg>
    var toSocket: seq<ChanMsg>
    var closed: bool

    constructor()
      ensures toNode == [] && toSocket == [] && !closed
    {
      toNode := [];
      toSocket := [];
      closed := false;
    }
  }

  /** An accepted TCP connection: the bytes written to it so far and whether
      it was closed. */
  class TcpConn {
    var sent: seq<byte>
    var closed: bool

    constructor()
      ensures sent == [] && !closed
    {
      sent := [];
      closed := false;
    }
  }
}
