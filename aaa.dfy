/**
 * smolPowerAAA: the AAA board driver built on SMOL_POWER_AAA_IO. Modelled here
 * are the operations whose bodies are complete: begin and isConnected (pure
 * delegation), setI2CAddress (an address frame protected by CRC-8) and
 * getTemperature (a little-endian ADC count converted to degrees Celsius).
 */
module PowerBoardAaa {
  import opened Bytes
  import opened Wire
  import opened Transport
  import opened Crc
  import opened AaaIo
  import C = AaaConstants

  /** getTemperature's result: the float sentinel -273.15 is `Invalid`; every
      valid reading is a whole number of degrees, since 25.0 + raw - 300.0 is
      computed exactly in float for any 16-bit raw. */
  datatype Temperature = Invalid | Celsius(degrees: int)

  /** The source's `((uint16_t)hi << 8) | lo`: the 16-bit ADC count two register
      bytes encode, least significant byte first. The shifted high byte and the low
      byte occupy disjoint bits, so the OR is a sum. The result determines both
      bytes: the low one is its remainder modulo 256, the high one its quotient. */
  function LittleEndian16(lo: byte, hi: byte): (raw: nat)
    ensures raw < 0x1_0000
    ensures raw % 256 == lo as int && raw / 256 == hi as int
  {
    hi as int * 256 + lo as int
  }

  /** The source's bit expression, computed in 16 bits, has the value of the decode. */
  lemma LittleEndian16Bits(lo: byte, hi: byte)
    ensures (((hi as bv16) << 8) | (lo as bv16)) as int == LittleEndian16(lo, hi)
  {
  }

  /** The source's 25.0 + raw - 300.0: 300 counts read as 25 degrees. */
  function CelsiusFromRaw(raw: nat): (c: int)
    requires raw < 0x1_0000
    ensures -275 <= c <= 65260
    ensures raw == 300 ==> c == 25
  {
    25 + raw - 300
  }

  /** One count is one degree: readings differ exactly as their counts do, so the
      conversion is strictly increasing; a count of 0 reads as -275 degrees. */
  lemma CelsiusOneCountPerDegree(a: nat, b: nat)
    requires a < 0x1_0000 && b < 0x1_0000
    ensures CelsiusFromRaw(a) - CelsiusFromRaw(b) == a - b
    ensures CelsiusFromRaw(0) == -275
  {
  }

  /** The reading getTemperature returns when its two-byte read of the temperature
      register meets `reply`: a value exactly when the read succeeds, decoded from
      the first two bytes the peripheral sent, and the sentinel otherwise. */
  function TemperatureReading(reply: Reply): (t: Temperature)
    ensures t.Celsius? <==> reply.count == 2 && |reply.data| >= 2
    ensures t.Celsius? ==> t.degrees == reply.data[1] as int * 256 + reply.data[0] as int - 275
  {
    BoundedReadOkIff(reply, 2);
    if BoundedReadOk(reply, 2)
    then Celsius(CelsiusFromRaw(LittleEndian16(reply.data[0], reply.data[1])))
    else Invalid
  }

  /** The payload setI2CAddress writes: the new address, then its CRC-8. A receiver
      that runs the CRC over the whole payload gets 0. */
  function AddressPayload(address: byte): (payload: seq<byte>)
    ensures |payload| == 2 && payload[0] == address && payload[1] == Crc8(payload[..1])
    ensures Crc8(payload) == 0
  {
    ResidueZeroIff([address], Crc8([address]));
    assert [address] + [Crc8([address])] == [address, Crc8([address])];
    assert [address, Crc8([address])][..1] == [address];
    [address, Crc8([address])]
  }

  class SmolPowerAaa {
    /** The transport object the source embeds as a member. */
    const io: SmolPowerAaaIo

    constructor ()
      ensures fresh(io) && io.port == null
    {
      io := new SmolPowerAaaIo();
    }

    method Begin(deviceAddress: byte := C.DEFAULT_I2C_ADDRESS, wirePort: TwoWire) returns (ok: bool)
      modifies io, wirePort
      ensures io.port == wirePort && io.address == deviceAddress
      ensures ok == Connects(old(wirePort.statuses), old(wirePort.replies), deviceAddress)
      ensures AfterHandshake(wirePort, deviceAddress, C.RegisterCode(C.I2cAddress), false)
    {
      ok := io.Begin(deviceAddress, wirePort);
    }

    method IsConnected() returns (ok: bool)
      requires io.port != null
      modifies io.port
      ensures ok == Connects(old(io.port.statuses), old(io.port.replies), io.address)
      ensures AfterHandshake(io.port, io.address, C.RegisterCode(C.I2cAddress), false)
    {
      ok := io.IsConnected();
    }

    /** Writes exactly the two bytes `[address, crc8([address])]` to the address
        register and returns the transport's verdict unchanged. */
    method SetI2CAddress(address: byte) returns (ok: bool)
      requires io.port != null
      modifies io.port
      ensures ok == (NextStatus(old(io.port.statuses)) == SUCCESS)
      ensures AfterWrite(io.port, io.address, WriteFrame(C.RegisterCode(C.I2cAddress), AddressPayload(address)))
    {
      var bytesToSend := new byte[2];
      bytesToSend[0] := address;
      var crc := ComputeCrc8(bytesToSend, 1);
      bytesToSend[1] := crc;
      assert bytesToSend[..1] == [address];
      assert bytesToSend[..2] == AddressPayload(address);
      ok := io.WriteMultipleBytes(C.RegisterCode(C.I2cAddress), bytesToSend, 2);
    }

    /** Reads two bytes from the temperature register; the sentinel unless the read
        succeeded, the decoded reading otherwise. */
    method GetTemperature() returns (t: Temperature)
      requires io.port != null
      modifies io.port
      ensures t == TemperatureReading(old(NextReply(io.port.replies)))
      ensures AfterRead(io.port, io.address, C.RegisterCode(C.Temperature), false, 2,
                        BoundedCount(old(NextReply(io.port.replies)), 2))
    {
      var theBytes := new byte[2];
      t := Invalid;
      var ok := io.ReadMultipleBytes(C.RegisterCode(C.Temperature), theBytes, 2);
      if ok {
        var rawTemp := LittleEndian16(theBytes[0], theBytes[1]);
        t := Celsius(CelsiusFromRaw(rawTemp));
      }
    }
  }
}
