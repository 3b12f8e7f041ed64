/**
 * SMOL_POWER_BOARD_IO: the register transport of the smol Power Board family.
 * It holds the port and the bus address; every operation is a short sequence of
 * port calls. The settle delay `waitMs` is accepted and has no effect here.
 */
module PowerBoardIo {
  import opened Bytes
  import opened Wire
  import opened Transport
  import C = PowerBoardConstants

  class SmolPowerBoardIo {
    var port: TwoWire?
    var address: byte

    /** The source's constructor sets nothing; no port is attached until Begin. */
    constructor ()
      ensures port == null
    {
      port := null;
    }

    /** Attaches the port and the address, then checks the peripheral is there. */
    method Begin(address: byte, wirePort: TwoWire) returns (ok: bool)
      modifies this, wirePort
      ensures port == wirePort && this.address == address
      ensures ok == Connects(old(wirePort.statuses), old(wirePort.replies), address)
      ensures AfterHandshake(wirePort, address, C.RegisterCode(C.I2cAddress), true)
    {
      port := wirePort;
      this.address := address;
      ok := IsConnected();
    }

    /** Connected exactly when the empty handshake is acknowledged, one byte comes back
        from the address register, and that byte is the address in use. */
    method IsConnected() returns (ok: bool)
      requires port != null
      modifies port
      ensures ok == Connects(old(port.statuses), old(port.replies), address)
      ensures AfterHandshake(port, address, C.RegisterCode(C.I2cAddress), true)
    {
      var p: TwoWire := port;
      var register := C.RegisterCode(C.I2cAddress);
      p.BeginTransmission(address);
      var status := p.EndTransmission(true);
      if status != SUCCESS {
        return false;
      }
      p.BeginTransmission(address);
      p.Write(register);
      assert p.txBuffer == [register];
      var _ := p.EndTransmission(true);
      var bytesReturned := p.RequestFrom(address, 1);
      if bytesReturned != 1 {
        return false;
      }
      var incomingByte := p.Read();
      return incomingByte == address;
    }

    /** One transaction carrying the register address and then `buffer[0..packetLength)`;
        true exactly when it is acknowledged. The buffer is only read. */
    method WriteMultipleBytes(registerAddress: byte, buffer: array<byte>, packetLength: uint8) returns (ok: bool)
      requires port != null
      requires packetLength as int <= buffer.Length
      modifies port
      ensures ok == (NextStatus(old(port.statuses)) == SUCCESS)
      ensures AfterWrite(port, address, WriteFrame(registerAddress, buffer[..packetLength]))
    {
      port.BeginTransmission(address);
      port.Write(registerAddress);
      for i := 0 to packetLength as int
        invariant port.txAddress == address && port.txBuffer == [registerAddress] + buffer[..i]
        invariant port.transmissions == old(port.transmissions) && port.statuses == old(port.statuses)
        invariant port.requests == old(port.requests) && port.replies == old(port.replies)
        invariant port.rxBuffer == old(port.rxBuffer)
      {
        port.Write(buffer[i]);
        assert buffer[..i + 1] == buffer[..i] + [buffer[i]];
      }
      var status := port.EndTransmission(true);
      ok := status == SUCCESS;
    }

    /**
     * Selects the register, then requests `packetLength` bytes and stores every byte
     * the reported count promises; true exactly when that count is `packetLength`,
     * so a partial read fails. The loop is bounded by the count alone, so the
     * buffer must hold as many bytes as the port may report.
     */
    method ReadMultipleBytes(registerAddress: byte, buffer: array<byte>, packetLength: uint8, waitMs: byte := 0)
      returns (ok: bool)
      requires port != null
      requires packetLength as int <= buffer.Length
      requires NextReply(port.replies).count as int <= buffer.Length
      modifies port, buffer
      ensures ok == UnboundedReadOk(old(NextReply(port.replies)), packetLength)
      ensures buffer[..] == UnboundedFill(old(buffer[..]), old(NextReply(port.replies)))
      ensures AfterRead(port, address, registerAddress, true, packetLength, old(NextReply(port.replies)).count as int)
    {
      ghost var reply := NextReply(port.replies);
      var p: TwoWire := port;
      p.BeginTransmission(address);
      p.Write(registerAddress);
      assert p.txBuffer == [registerAddress];
      var _ := p.EndTransmission(true);
      var bytesReturned := p.RequestFrom(address, packetLength);
      var i := 0;
      while i < bytesReturned as int
        invariant 0 <= i <= bytesReturned as int == reply.count as int
        invariant p.rxBuffer == Consumed(reply.data, i)
        invariant forall k :: 0 <= k < i ==> buffer[k] == ByteAt(reply.data, k)
        invariant forall k :: i <= k < buffer.Length ==> buffer[k] == old(buffer[k])
        invariant p.txAddress == address && p.txBuffer == []
        invariant p.transmissions == old(p.transmissions) + [Transmission(address, [registerAddress], true)]
        invariant p.statuses == Rest(old(p.statuses)) && p.replies == Rest(old(p.replies))
        invariant p.requests == old(p.requests) + [Request(address, packetLength)]
      {
        var b := p.Read();
        buffer[i] := b;
        i := i + 1;
      }
      ok := bytesReturned == packetLength;
      assert buffer[..] == UnboundedFill(old(buffer[..]), reply);
    }

    /** Selects the register and requests one byte; `buffer[0]` is overwritten with
        whatever read() yields even when the request fails. True exactly when one
        byte was reported. */
    method ReadSingleByte(registerAddress: byte, buffer: array<byte>, waitMs: byte := 0) returns (ok: bool)
      requires port != null
      requires 1 <= buffer.Length
      modifies port, buffer
      ensures ok == (old(NextReply(port.replies)).count == 1)
      ensures buffer[0] == ByteAt(old(NextReply(port.replies)).data, 0)
      ensures buffer[1..] == old(buffer[1..])
      ensures AfterRead(port, address, registerAddress, true, 1, 1)
    {
      port.BeginTransmission(address);
      port.Write(registerAddress);
      assert port.txBuffer == [registerAddress];
      var _ := port.EndTransmission(true);
      var bytesReturned := port.RequestFrom(address, 1);
      buffer[0] := port.Read();
      ok := bytesReturned == 1;
    }

    /** One transaction carrying exactly `[registerAddress, value]`. */
    method WriteSingleByte(registerAddress: byte, value: byte) returns (ok: bool)
      requires port != null
      modifies port
      ensures ok == (NextStatus(old(port.statuses)) == SUCCESS)
      ensures AfterWrite(port, address, WriteFrame(registerAddress, [value]))
    {
      port.BeginTransmission(address);
      port.Write(registerAddress);
      port.Write(value);
      assert port.txBuffer == [registerAddress, value] == WriteFrame(registerAddress, [value]);
      var status := port.EndTransmission(true);
      ok := status == SUCCESS;
    }
  }
}
