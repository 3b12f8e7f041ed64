/**
 * An abstract Arduino TwoWire port, as the drivers see it. Outgoing traffic is
 * logged; what the peripheral answers is scripted: one status per
 * endTransmission and one reply per requestFrom. A reply carries the count
 * requestFrom reports and, separately, the bytes read() can then deliver, so a
 * port whose count and data disagree can be described.
 */
module Wire {
  import opened Bytes

  /** A completed write transaction: bus address, the bytes queued by write(),
      and whether the bus was released at the end. */
  datatype Transmission = Transmission(address: byte, bytes: seq<byte>, stop: bool)

  /** A read request issued by requestFrom. */
  datatype Request = Request(address: byte, quantity: uint8)

  /** The answer to one read request. */
  datatype Reply = Reply(count: uint8, data: seq<byte>)

  /** endTransmission's status for an acknowledged transaction. */
  const SUCCESS: byte := 0
  /** endTransmission's status when nobody acknowledges the address. */
  const NACK_ON_ADDRESS: byte := 2
  /** read() on an empty receive buffer returns -1, which is 0xFF once stored in a byte. */
  const NO_DATA: byte := 0xFF

  /** The status the next endTransmission returns; an exhausted script is an absent device. */
  function NextStatus(statuses: seq<byte>): byte {
    if statuses == [] then NACK_ON_ADDRESS else statuses[0]
  }

  /** The reply the next requestFrom gets; an exhausted script is an absent device. */
  function NextReply(replies: seq<Reply>): Reply {
    if replies == [] then Reply(0, []) else replies[0]
  }

  function Rest<T>(s: seq<T>): seq<T> {
    if s == [] then [] else s[1..]
  }

  /** The byte the k-th read() after a requestFrom yields. */
  function ByteAt(rx: seq<byte>, k: nat): byte {
    if k < |rx| then rx[k] else NO_DATA
  }

  /** What `n` successive read() calls yield. */
  function Received(rx: seq<byte>, n: nat): seq<byte> {
    seq(n, k requires 0 <= k < n => ByteAt(rx, k))
  }

  /** What is left to read after `n` read() calls. */
  function Consumed(rx: seq<byte>, n: nat): seq<byte> {
    if n <= |rx| then rx[n..] else []
  }

  class TwoWire {
    var txAddress: byte
    var txBuffer: seq<byte>
    var transmissions: seq<Transmission>
    var statuses: seq<byte>
    var requests: seq<Request>
    var replies: seq<Reply>
    var rxBuffer: seq<byte>

    constructor (statuses: seq<byte>, replies: seq<Reply>)
      ensures txBuffer == [] && rxBuffer == []
      ensures transmissions == [] && requests == []
      ensures this.statuses == statuses && this.replies == replies
    {
      txAddress := 0;
      txBuffer := [];
      transmissions := [];
      this.statuses := statuses;
      requests := [];
      this.replies := replies;
      rxBuffer := [];
    }

    method BeginTransmission(address: byte)
      modifies this
      ensures txAddress == address && txBuffer == []
      ensures transmissions == old(transmissions) && statuses == old(statuses)
      ensures requests == old(requests) && replies == old(replies) && rxBuffer == old(rxBuffer)
    {
      txAddress := address;
      txBuffer := [];
    }

    /** Queues one byte of the current transaction. */
    method Write(b: byte)
      modifies this
      ensures txBuffer == old(txBuffer) + [b] && txAddress == old(txAddress)
      ensures transmissions == old(transmissions) && statuses == old(statuses)
      ensures requests == old(requests) && replies == old(replies) && rxBuffer == old(rxBuffer)
    {
      txBuffer := txBuffer + [b];
    }

    /** Sends the queued bytes; returns the scripted status, SUCCESS when acknowledged. */
    method EndTransmission(stop: bool) returns (status: byte)
      modifies this
      ensures txAddress == old(txAddress)
      ensures requests == old(requests) && replies == old(replies) && rxBuffer == old(rxBuffer)
      ensures transmissions == old(transmissions) + [Transmission(txAddress, old(txBuffer), stop)]
      ensures status == NextStatus(old(statuses)) && statuses == Rest(old(statuses))
      ensures txBuffer == []
    {
      transmissions := transmissions + [Transmission(txAddress, txBuffer, stop)];
      status := NextStatus(statuses);
      statuses := Rest(statuses);
      txBuffer := [];
    }

    /** Asks for `quantity` bytes; returns the count the scripted reply reports
        and replaces the receive buffer with the reply's bytes. */
    method RequestFrom(address: byte, quantity: uint8) returns (count: uint8)
      modifies this
      ensures txAddress == old(txAddress) && txBuffer == old(txBuffer)
      ensures transmissions == old(transmissions) && statuses == old(statuses)
      ensures requests == old(requests) + [Request(address, quantity)]
      ensures count == NextReply(old(replies)).count
      ensures rxBuffer == NextReply(old(replies)).data
      ensures replies == Rest(old(replies))
    {
      requests := requests + [Request(address, quantity)];
      var reply := NextReply(replies);
      replies := Rest(replies);
      count := reply.count;
      rxBuffer := reply.data;
    }

    /** The number of received bytes not yet read. */
    method Available() returns (n: nat)
      ensures n == |rxBuffer|
    {
      n := |rxBuffer|;
    }

    method Read() returns (b: byte)
      modifies this
      ensures txAddress == old(txAddress) && txBuffer == old(txBuffer)
      ensures transmissions == old(transmissions) && statuses == old(statuses)
      ensures requests == old(requests) && replies == old(replies)
      ensures b == ByteAt(old(rxBuffer), 0)
      ensures rxBuffer == Consumed(old(rxBuffer), 1)
    {
      if rxBuffer == [] {
        b := NO_DATA;
      } else {
        b := rxBuffer[0];
        rxBuffer := rxBuffer[1..];
      }
    }
  }
}
