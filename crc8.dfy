/**
 * The CRC-8 that smolPowerAAA::computeCRC8 appends to configuration writes:
 * polynomial x^8 + x^5 + x^4 + 1 (0x31), initial value 0xFF, no reflection and
 * no final XOR. `Crc8` is the specification, a left fold over the bytes;
 * `ComputeCrc8` is the source's two nested loops over one byte accumulator.
 */
module Crc {
  import opened Bytes

  const POLYNOMIAL: byte := 0x31
  const INIT: byte := 0xFF

  /** One pass of the inner loop: shift left one bit, the top bit falling off,
      and XOR in the polynomial when that top bit was set. */
  function ShiftStep(c: byte): byte {
    if c & 0x80 != 0 then (c << 1) ^ POLYNOMIAL else c << 1
  }

  /** `n` passes of the inner loop. */
  function Shifts(c: byte, n: nat): byte
    decreases n
  {
    if n == 0 then c else Shifts(ShiftStep(c), n - 1)
  }

  /** One pass of the outer loop: XOR the input byte in, then shift eight times. */
  function ByteStep(crc: byte, b: byte): byte {
    Shifts(crc ^ b, 8)
  }

  /** The accumulator after running the outer loop over `data`, starting from `crc`. */
  function Fold(crc: byte, data: seq<byte>): byte
    decreases data
  {
    if data == [] then crc else Fold(ByteStep(crc, data[0]), data[1..])
  }

  /** The CRC-8 of `data`; the empty input leaves the initial value untouched. */
  function Crc8(data: seq<byte>): (r: byte)
    ensures data == [] ==> r == INIT
  {
    Fold(INIT, data)
  }

  /** The fold over a concatenation is the fold over the second part,
      started from the accumulator the first part left. */
  lemma {:induction false} FoldAppend(crc: byte, a: seq<byte>, b: seq<byte>)
    ensures Fold(crc, a + b) == Fold(Fold(crc, a), b)
    decreases a
  {
    if a == [] {
      assert a + b == b;
    } else {
      assert (a + b)[0] == a[0];
      assert (a + b)[1..] == a[1..] + b;
      FoldAppend(ByteStep(crc, a[0]), a[1..], b);
    }
  }

  /** CRC composes over concatenation: the CRC of `a + b` is the per-byte step
      run over `b` from the CRC of `a`. */
  lemma Crc8Append(a: seq<byte>, b: seq<byte>)
    ensures Crc8(a + b) == Fold(Crc8(a), b)
  {
    FoldAppend(INIT, a, b);
  }

  /** Appending one byte is one more pass of the outer loop. */
  lemma Crc8Snoc(a: seq<byte>, x: byte)
    ensures Crc8(a + [x]) == ByteStep(Crc8(a), x)
  {
    Crc8Append(a, [x]);
    assert [x][1..] == [];
  }

  /** Since 0x31 is odd, the shift step loses no information. */
  lemma ShiftStepInjective(x: byte, y: byte)
    ensures ShiftStep(x) == ShiftStep(y) ==> x == y
  {
  }

  lemma {:induction false} ShiftsInjective(x: byte, y: byte, n: nat)
    ensures Shifts(x, n) == Shifts(y, n) ==> x == y
    decreases n
  {
    if n > 0 {
      ShiftsInjective(ShiftStep(x), ShiftStep(y), n - 1);
      ShiftStepInjective(x, y);
    }
  }

  lemma {:induction false} ShiftsZero(n: nat)
    ensures Shifts(0, n) == 0
  {
    if n > 0 {
      assert ShiftStep(0) == 0;
      ShiftsZero(n - 1);
    }
  }

  /** One outer pass yields 0 exactly when the input byte equals the accumulator. */
  lemma ByteStepZeroIff(crc: byte, b: byte)
    ensures ByteStep(crc, b) == 0 <==> b == crc
  {
    ShiftsZero(8);
    ShiftsInjective(crc ^ b, 0, 8);
    assert crc ^ b == 0 <==> b == crc;
  }

  /** The check a receiver applies: the CRC of a payload followed by one more byte
      is 0 if and only if that byte is the payload's CRC (there is no output XOR). */
  lemma ResidueZeroIff(payload: seq<byte>, c: byte)
    ensures Crc8(payload + [c]) == 0 <==> c == Crc8(payload)
  {
    Crc8Snoc(payload, c);
    ByteStepZeroIff(Crc8(payload), c);
  }

  /** For a fixed tail, different starting accumulators give different results. */
  lemma {:induction false} FoldInjective(c1: byte, c2: byte, s: seq<byte>)
    ensures Fold(c1, s) == Fold(c2, s) ==> c1 == c2
    decreases s
  {
    if s != [] {
      FoldInjective(ByteStep(c1, s[0]), ByteStep(c2, s[0]), s[1..]);
      ShiftsInjective(c1 ^ s[0], c2 ^ s[0], 8);
    }
  }

  /** Changing any one byte of the input, whatever the bytes around it, changes the CRC. */
  lemma DetectsSingleByteChange(a: seq<byte>, x: byte, y: byte, b: seq<byte>)
    requires x != y
    ensures Crc8(a + [x] + b) != Crc8(a + [y] + b)
  {
    Crc8Append(a + [x], b);
    Crc8Append(a + [y], b);
    Crc8Snoc(a, x);
    Crc8Snoc(a, y);
    ShiftsInjective(Crc8(a) ^ x, Crc8(a) ^ y, 8);
    FoldInjective(Crc8(a + [x]), Crc8(a + [y]), b);
  }

  /** In particular, flipping any single bit of the input changes the CRC. */
  lemma DetectsSingleBitFlip(data: seq<byte>, k: nat, bit: bv8)
    requires k < |data| && bit < 8
    ensures Crc8(data[k := data[k] ^ (1 << bit)]) != Crc8(data)
  {
    var flipped := data[k] ^ (1 << bit);
    assert flipped != data[k];
    assert data == data[..k] + [data[k]] + data[k + 1..];
    assert data[k := flipped] == data[..k] + [flipped] + data[k + 1..];
    DetectsSingleByteChange(data[..k], flipped, data[k], data[k + 1..]);
  }

  /** The standard check value of this CRC-8 parameter set: the CRC of the ASCII
      digits "123456789" is 0xF7. */
  lemma CheckValue()
    ensures Crc8([0x31, 0x32, 0x33, 0x34, 0x35, 0x36, 0x37, 0x38, 0x39]) == 0xF7
  {
    assert ByteStep(0xFF, 0x31) == 0x58;
    assert ByteStep(0x58, 0x32) == 0x60;
    assert ByteStep(0x60, 0x33) == 0x2D;
    assert ByteStep(0x2D, 0x34) == 0xCB;
    assert ByteStep(0xCB, 0x35) == 0x9D;
    assert ByteStep(0x9D, 0x36) == 0x16;
    assert ByteStep(0x16, 0x37) == 0xB7;
    assert ByteStep(0xB7, 0x38) == 0x54;
    assert ByteStep(0x54, 0x39) == 0xF7;
  }

  /**
   * smolPowerAAA::computeCRC8: reads `data[0..len)` and nothing else.
   * The source's `byte` loop counters never wrap, since both bounds are at most 255.
   */
  method ComputeCrc8(data: array<byte>, len: uint8) returns (crc: byte)
    requires len as int <= data.Length
    ensures crc == Crc8(data[..len])
  {
    crc := INIT;
    var x := 0;
    while x < len as int
      invariant 0 <= x <= len as int
      invariant crc == Crc8(data[..x])
    {
      Crc8Snoc(data[..x], data[x]);
      assert data[..x + 1] == data[..x] + [data[x]];
      crc := crc ^ data[x];
      ghost var mixed := crc;
      var i := 0;
      while i < 8
        invariant 0 <= i <= 8
        invariant Shifts(crc, 8 - i) == Shifts(mixed, 8)
      {
        if crc & 0x80 != 0 {
          crc := (crc << 1) ^ POLYNOMIAL;
        } else {
          crc := crc << 1;
        }
        i := i + 1;
      }
      x := x + 1;
    }
  }
}
