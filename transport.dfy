/**
 * What the two register-transport classes, SMOL_POWER_BOARD_IO and
 * SMOL_POWER_AAA_IO, put on the bus and leave in the caller's buffer, stated as
 * functions of the port's scripted answers. Both classes frame writes and decide
 * presence the same way; their read loops differ, and the lemmas at the end
 * say exactly where.
 */
module Transport {
  import opened Bytes
  import opened Wire

  /** The frame a register write puts on the wire: the register address, then the payload. */
  function WriteFrame(register: byte, payload: seq<byte>): (f: seq<byte>)
    ensures |f| == |payload| + 1 && f[0] == register && f[1..] == payload
  {
    [register] + payload
  }

  /** A single-byte write is the multi-byte write of a one-byte buffer. */
  lemma SingleByteFrame(register: byte, value: byte)
    ensures WriteFrame(register, [value]) == [register, value]
  {
  }

  /** The transmissions isConnected makes: the empty handshake and, only when it is
      acknowledged, the select of the address register. */
  function HandshakeLog(address: byte, addressRegister: byte, status: byte, stop: bool): (log: seq<Transmission>)
    ensures |log| == if status == SUCCESS then 2 else 1
    ensures log[0] == Transmission(address, [], true)
    ensures status == SUCCESS ==> log[1] == Transmission(address, [addressRegister], stop)
  {
    [Transmission(address, [], true)]
      + if status == SUCCESS then [Transmission(address, [addressRegister], stop)] else []
  }

  /** isConnected's verdict on a port whose next answers are `statuses` and `replies`:
      the handshake is acknowledged, exactly one byte is reported, and the byte read
      back is the address the driver uses. */
  predicate Connects(statuses: seq<byte>, replies: seq<Reply>, address: byte) {
    NextStatus(statuses) == SUCCESS
    && NextReply(replies).count == 1
    && ByteAt(NextReply(replies).data, 0) == address
  }

  /** The receive buffer isConnected leaves: untouched unless it asked, and one byte
      consumed only when exactly one was reported. */
  function HandshakeRx(statuses: seq<byte>, replies: seq<Reply>, rx: seq<byte>): seq<byte> {
    if NextStatus(statuses) != SUCCESS then rx
    else if NextReply(replies).count != 1 then NextReply(replies).data
    else Consumed(NextReply(replies).data, 1)
  }

  /** The port after isConnected: the handshake log, one status consumed per
      transmission, one request and reply only when the handshake was acknowledged. */
  twostate predicate AfterHandshake(p: TwoWire, address: byte, addressRegister: byte, stop: bool)
    reads p
  {
    var acked := NextStatus(old(p.statuses)) == SUCCESS;
    && p.transmissions
       == old(p.transmissions) + HandshakeLog(address, addressRegister, NextStatus(old(p.statuses)), stop)
    && p.statuses == (if acked then Rest(Rest(old(p.statuses))) else Rest(old(p.statuses)))
    && p.requests == old(p.requests) + (if acked then [Request(address, 1)] else [])
    && p.replies == (if acked then Rest(old(p.replies)) else old(p.replies))
    && p.rxBuffer == HandshakeRx(old(p.statuses), old(p.replies), old(p.rxBuffer))
    && p.txAddress == address && p.txBuffer == []
  }

  /** The port after one write transaction carrying `frame`. */
  twostate predicate AfterWrite(p: TwoWire, address: byte, frame: seq<byte>)
    reads p
  {
    && p.transmissions == old(p.transmissions) + [Transmission(address, frame, true)]
    && p.statuses == Rest(old(p.statuses))
    && p.requests == old(p.requests) && p.replies == old(p.replies)
    && p.rxBuffer == old(p.rxBuffer)
    && p.txAddress == address && p.txBuffer == []
  }

  /** The port after selecting `register` (the select's status is consumed and ignored),
      requesting `quantity` bytes, and reading `consumed` of them. */
  twostate predicate AfterRead(p: TwoWire, address: byte, register: byte, stop: bool, quantity: uint8, consumed: nat)
    reads p
  {
    && p.transmissions == old(p.transmissions) + [Transmission(address, [register], stop)]
    && p.statuses == Rest(old(p.statuses))
    && p.requests == old(p.requests) + [Request(address, quantity)]
    && p.replies == Rest(old(p.replies))
    && p.rxBuffer == Consumed(NextReply(old(p.replies)).data, consumed)
    && p.txAddress == address && p.txBuffer == []
  }

  /** SMOL_POWER_BOARD_IO's read loop: it stores every byte the reported count
      promises, whatever `packetLength` was, reading 0xFF once the data runs out. */
  function UnboundedFill(buf: seq<byte>, reply: Reply): (r: seq<byte>)
    requires reply.count as int <= |buf|
    ensures |r| == |buf|
    ensures forall k :: 0 <= k < reply.count as int ==> r[k] == ByteAt(reply.data, k)
    ensures r[reply.count..] == buf[reply.count..]
  {
    Received(reply.data, reply.count as int) + buf[reply.count..]
  }

  /** SMOL_POWER_BOARD_IO reports success exactly when the count matches the request. */
  predicate UnboundedReadOk(reply: Reply, packetLength: uint8) {
    reply.count == packetLength
  }

  /** How many bytes SMOL_POWER_AAA_IO's read loop copies: it stops at the reported
      count, at `packetLength`, or when no byte is available, whichever comes first. */
  function BoundedCount(reply: Reply, packetLength: uint8): (n: nat)
    ensures n <= packetLength as int && n <= reply.count as int && n <= |reply.data|
    ensures n == packetLength as int <==> packetLength <= reply.count && packetLength as int <= |reply.data|
  {
    Min(Min(reply.count as int, packetLength as int), |reply.data|)
  }

  /** SMOL_POWER_AAA_IO's read loop: the copied bytes in order, the rest of the buffer untouched. */
  function BoundedFill(buf: seq<byte>, reply: Reply, packetLength: uint8): (r: seq<byte>)
    requires packetLength as int <= |buf|
    ensures |r| == |buf|
    ensures r[packetLength..] == buf[packetLength..]
    ensures r[BoundedCount(reply, packetLength)..] == buf[BoundedCount(reply, packetLength)..]
    ensures r[..BoundedCount(reply, packetLength)] == reply.data[..BoundedCount(reply, packetLength)]
  {
    var n := BoundedCount(reply, packetLength);
    reply.data[..n] + buf[n..]
  }

  /** SMOL_POWER_AAA_IO's verdict: the count matches and the loop copied everything. */
  predicate BoundedReadOk(reply: Reply, packetLength: uint8) {
    reply.count == packetLength && BoundedCount(reply, packetLength) == packetLength as int
  }

  /** A bounded read succeeds exactly when the count matches and enough data is there;
      a short or missing reply fails even when the count claims otherwise. */
  lemma BoundedReadOkIff(reply: Reply, packetLength: uint8)
    ensures BoundedReadOk(reply, packetLength)
      <==> reply.count == packetLength && |reply.data| >= packetLength as int
  {
  }

  /** After a successful bounded read the first `packetLength` cells hold the reply in order. */
  lemma BoundedReadDelivers(buf: seq<byte>, reply: Reply, packetLength: uint8)
    requires packetLength as int <= |buf|
    requires BoundedReadOk(reply, packetLength)
    ensures BoundedFill(buf, reply, packetLength)[..packetLength] == reply.data[..packetLength]
  {
  }

  /** On a port that never reports more than was asked for, nor more than it delivers,
      the two read loops write the same cells and give the same verdict. */
  lemma VariantsAgreeOnHonestPort(buf: seq<byte>, reply: Reply, packetLength: uint8)
    requires packetLength as int <= |buf|
    requires reply.count <= packetLength && reply.count as int <= |reply.data|
    ensures UnboundedFill(buf, reply) == BoundedFill(buf, reply, packetLength)
    ensures UnboundedReadOk(reply, packetLength) <==> BoundedReadOk(reply, packetLength)
  {
    var n := reply.count as int;
    assert BoundedCount(reply, packetLength) == n;
    assert Received(reply.data, n) == reply.data[..n];
  }

  /** On a port that reports more than was asked for, the unbounded loop writes past
      `packetLength` while the bounded one leaves those cells alone; both report failure. */
  lemma VariantsDifferOnLongReply(buf: seq<byte>, reply: Reply, packetLength: uint8)
    requires packetLength < reply.count && reply.count as int <= |buf|
    ensures UnboundedFill(buf, reply)[packetLength..reply.count]
      == Received(reply.data, reply.count as int)[packetLength..]
    ensures BoundedFill(buf, reply, packetLength)[packetLength..] == buf[packetLength..]
    ensures !UnboundedReadOk(reply, packetLength) && !BoundedReadOk(reply, packetLength)
  {
  }
}
