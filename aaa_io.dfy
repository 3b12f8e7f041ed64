/**
 * SMOL_POWER_AAA_IO: the AAA board's own copy of the register transport. It
 * differs from SMOL_POWER_BOARD_IO in three ways: it keeps the bus after
 * selecting a register (no stop condition), it has no settle delay, and its
 * read loop also stops at `packetLength` and when no byte is available.
 */
module AaaIo {
  import opened Bytes
  import opened Wire
  import opened Transport
  import C = AaaConstants

  class SmolPowerAaaIo {
    var port: TwoWire?
    var address: byte

    /** The source's constructor sets nothing; no port is attached until Begin. */
    constructor ()
      ensures port == null
    {
      port := null;
    }

    /** Attaches the port and the address, then checks the peripheral is there. */
    method Begin(address: byte, wirePort: TwoWire) returns (ok: bool)
      modifies this, wirePort
      ensures port == wirePort && this.address == address
      ensures ok == Connects(old(wirePort.statuses), old(wirePort.replies), address)
      ensures AfterHandshake(wirePort, address, C.RegisterCode(C.I2cAddress), false)
    {
      port := wirePort;
      this.address := address;
      ok := IsConnected();
    }

    /** Connected exactly when the empty handshake is acknowledged, one byte comes back
        from the address register, and that byte is the address in use. */
    method IsConnected() returns (ok: bool)
      requires port != null
      modifies port
      ensures ok == Connects(old(port.statuses), old(port.replies), address)
      ensures AfterHandshake(port, address, C.RegisterCode(C.I2cAddress), false)
    {
      var p: TwoWire := port;
      var register := C.RegisterCode(C.I2cAddress);
      p.BeginTransmission(address);
      var status := p.EndTransmission(true);
      if status != SUCCESS {
        return false;
      }
      p.BeginTransmission(address);
      p.Write(register);
      assert p.txBuffer == [register];
      var _ := p.EndTransmission(false);
      var bytesReturned := p.RequestFrom(address, 1);
      if bytesReturned != 1 {
        return false;
      }
      var incomingByte := p.Read();
      return incomingByte == address;
    }

    /** One transaction carrying the register address and then `buffer[0..packetLength)`;
        true exactly when it is acknowledged. The buffer is only read. */
    method WriteMultipleBytes(registerAddress: byte, buffer: array<byte>, packetLength: uint8) returns (ok: bool)
      requires port != null
      requires packetLength as int <= buffer.Length
      modifies port
      ensures ok == (NextStatus(old(port.statuses)) == SUCCESS)
      ensures AfterWrite(port, address, WriteFrame(registerAddress, buffer[..packetLength]))
    {
      port.BeginTransmission(address);
      port.Write(registerAddress);
      for i := 0 to packetLength as int
        invariant port.txAddress == address && port.txBuffer == [registerAddress] + buffer[..i]
        invariant port.transmissions == old(port.transmissions) && port.statuses == old(port.statuses)
        invariant port.requests == old(port.requests) && port.replies == old(port.replies)
        invariant port.rxBuffer == old(port.rxBuffer)
      {
        port.Write(buffer[i]);
        assert buffer[..i + 1] == buffer[..i] + [buffer[i]];
      }
      var status := port.EndTransmission(true);
      ok := status == SUCCESS;
    }

    /**
     * Selects the register, requests `packetLength` bytes, and copies bytes while
     * fewer than the reported count and fewer than `packetLength` have been copied
     * and a byte is available; true exactly when the count is `packetLength` and the
     * loop copied that many. It never writes at or past `buffer[packetLength]`.
     */
    method ReadMultipleBytes(registerAddress: byte, buffer: array<byte>, packetLength: uint8) returns (ok: bool)
      requires port != null
      requires packetLength as int <= buffer.Length
      modifies port, buffer
      ensures ok == BoundedReadOk(old(NextReply(port.replies)), packetLength)
      ensures buffer[..] == BoundedFill(old(buffer[..]), old(NextReply(port.replies)), packetLength)
      ensures AfterRead(port, address, registerAddress, false, packetLength,
                        BoundedCount(old(NextReply(port.replies)), packetLength))
    {
      ghost var reply := NextReply(port.replies);
      var p: TwoWire := port;
      p.BeginTransmission(address);
      p.Write(registerAddress);
      assert p.txBuffer == [registerAddress];
      var _ := p.EndTransmission(false);
      var bytesReturned := p.RequestFrom(address, packetLength);
      ghost var transmissions, statuses, requests, replies := p.transmissions, p.statuses, p.requests, p.replies;
      var i := 0;
      while i < bytesReturned as int && i < packetLength as int
        invariant 0 <= i <= bytesReturned as int == reply.count as int && i <= packetLength as int
        invariant i <= |reply.data| && p.rxBuffer == reply.data[i..]
        invariant forall k :: 0 <= k < i ==> buffer[k] == reply.data[k]
        invariant forall k :: i <= k < buffer.Length ==> buffer[k] == old(buffer[k])
        invariant p.txAddress == address && p.txBuffer == []
        invariant p.transmissions == transmissions && p.statuses == statuses
        invariant p.requests == requests && p.replies == replies
      {
        var available := p.Available();
        if available == 0 {
          break;
        }
        var b := p.Read();
        buffer[i] := b;
        i := i + 1;
      }
      assert i == BoundedCount(reply, packetLength);
      ok := bytesReturned == packetLength && i == packetLength as int;
      assert buffer[..] == BoundedFill(old(buffer[..]), reply, packetLength);
    }

    /** Selects the register and requests one byte; `buffer[0]` is overwritten with
        whatever read() yields even when the request fails. True exactly when one
        byte was reported. */
    method ReadSingleByte(registerAddress: byte, buffer: array<byte>) returns (ok: bool)
      requires port != null
      requires 1 <= buffer.Length
      modifies port, buffer
      ensures ok == (old(NextReply(port.replies)).count == 1)
      ensures buffer[0] == ByteAt(old(NextReply(port.replies)).data, 0)
      ensures buffer[1..] == old(buffer[1..])
      ensures AfterRead(port, address, registerAddress, false, 1, 1)
    {
      port.BeginTransmission(address);
      port.Write(registerAddress);
      assert port.txBuffer == [registerAddress];
      var _ := port.EndTransmission(false);
      var bytesReturned := port.RequestFrom(address, 1);
      buffer[0] := port.Read();
      ok := bytesReturned == 1;
    }

    /** One transaction carrying exactly `[registerAddress, value]`. */
    method WriteSingleByte(registerAddress: byte, value: byte) returns (ok: bool)
      requires port != null
      modifies port
      ensures ok == (NextStatus(old(port.statuses)) == SUCCESS)
      ensures AfterWrite(port, address, WriteFrame(registerAddress, [value]))
    {
      port.BeginTransmission(address);
      port.Write(registerAddress);
      port.Write(value);
      assert port.txBuffer == [registerAddress, value] == WriteFrame(registerAddress, [value]);
      var status := port.EndTransmission(true);
      ok := status == SUCCESS;
    }
  }
}
