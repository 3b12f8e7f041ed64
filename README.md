# smol Power Board driver core, in Dafny

This project models the host-side core of the SparkFun smol Power Board Arduino
library. The library drives two small battery boards (the LiPo board and the AAA
board) over I2C. Three parts are modelled:

- **The register transport.** `SMOL_POWER_BOARD_IO` and `SMOL_POWER_AAA_IO` each
  hold a bus address and a `TwoWire` port. On top of them they:
  - frame register writes as `[register] ++ payload`;
  - select a register, then request N bytes and copy the reply into the caller's
    buffer;
  - decide whether the peripheral is present (`isConnected`).

  Both become Dafny classes (`PowerBoardIo.SmolPowerBoardIo`,
  `AaaIo.SmolPowerAaaIo`) whose methods change a port object and a caller-supplied
  `array<byte>`. The Arduino `TwoWire` port is the class `Wire.TwoWire`, which:
  - logs every finished transmission (address, bytes, stop flag);
  - answers each `endTransmission` with the next scripted status;
  - answers each `requestFrom` with the next scripted reply: a reported count and
    the bytes actually delivered.

  What each driver method leaves on the port and in the buffer is stated as a
  function of those scripted answers (module `Transport`).
- **The AAA board driver** `smolPowerAAA` (module `PowerBoardAaa`):
  - `begin` and `isConnected`, which delegate to the transport;
  - `setI2CAddress`, which writes the new address followed by its CRC-8;
  - `getTemperature`, which decodes a little-endian 16-bit ADC count into degrees
    Celsius, or gives the sentinel when the read fails.

  The CRC-8 itself (polynomial 0x31, initial value 0xFF, no reflection, no final
  XOR) is module `Crc`:
  - `Crc8` is the specification, a left fold over the bytes;
  - `ComputeCrc8` is the source's two nested loops over one byte accumulator, proved
    equal to `Crc8`;
  - lemmas prove that the CRC composes over concatenation, that a payload followed
    by its own CRC checks to 0 (and only then), and that any single-byte change or
    single-bit flip changes the CRC.
- **The register map and encodings** of the two constants headers (modules
  `PowerBoardConstants` and `AaaConstants`): register ordinals, reset-reason bit
  flags, ADC reference codes, watchdog codes, delays and the default address.

Bytes are `bv8`. Counts and lengths that the source keeps in a `byte` are the
`uint8` newtype (0..255), so that the loop counters cannot wrap. The float
temperature `25.0 + raw - 300.0` is exact for every 16-bit `raw`, so a reading is
`Celsius(raw - 275)`, an integer. The sentinel `-273.15` is the separate value
`Invalid`.

Points about the code worth knowing:

- Only `setI2CAddress` appends a CRC byte
  (`src/SparkFun_smol_Power_Board_AAA.cpp:72-75`); `writeMultipleBytes` sends the
  payload as given.
- The enum comments give 125 ms after 64 ms
  (`src/SparkFun_smol_Power_Board_Constants.h:89-90`), so that one step is not a
  doubling. `PowerBoardConstants.WdtTimeoutsDouble` proves doubling at every other
  step and proves that this one step falls short.
- The two read loops differ. `SMOL_POWER_BOARD_IO::readMultipleBytes` copies as
  many bytes as the port reports, whatever `packetLength` was. A port that reports
  more than was asked for makes it write past `packetLength`. Its model therefore
  requires only that the buffer can hold the reported count, so the model can show
  that overrun (`Transport.VariantsDifferOnLongReply`). `SMOL_POWER_AAA_IO` bounds
  its loop by `packetLength` and by `available()`, so it never writes at or past
  `buffer[packetLength]`.

## Model

| member | source | states |
|---|---|---|
| `Crc.Crc8` | src/SparkFun_smol_Power_Board_AAA.cpp:197-212 | the CRC of the empty input is the initial value 0xFF |
| `Crc.ComputeCrc8` | src/SparkFun_smol_Power_Board_AAA.cpp:195-213 | the nested-loop accumulator equals the fold specification over `data[0..len)`, so it reads nothing past `len` and depends on nothing else |
| `Crc.FoldAppend` | src/SparkFun_smol_Power_Board_AAA.cpp:199-210 | running the outer loop over `a + b` equals running it over `b` from where `a` left the accumulator |
| `Crc.Crc8Append` | src/SparkFun_smol_Power_Board_AAA.cpp:197-212 | CRC composes over concatenation: `crc8(a ++ b)` is the per-byte step over `b` starting from `crc8(a)` |
| `Crc.Crc8Snoc` | src/SparkFun_smol_Power_Board_AAA.cpp:199-210 | appending one byte adds exactly one pass of the outer loop |
| `Crc.ShiftStepInjective` | src/SparkFun_smol_Power_Board_AAA.cpp:205-208 | one conditional shift-and-XOR-0x31 step maps different accumulators to different ones |
| `Crc.ShiftsInjective` | src/SparkFun_smol_Power_Board_AAA.cpp:203-209 | any number of inner-loop passes is injective |
| `Crc.ShiftsZero` | src/SparkFun_smol_Power_Board_AAA.cpp:203-209 | the inner loop keeps a zero accumulator at zero |
| `Crc.ByteStepZeroIff` | src/SparkFun_smol_Power_Board_AAA.cpp:201-209 | one outer pass yields 0 if and only if the input byte equals the accumulator |
| `Crc.ResidueZeroIff` | src/SparkFun_smol_Power_Board_AAA.cpp:201-212 | the CRC of a payload followed by a byte `c` is 0 if and only if `c` is the payload's CRC (no output XOR) |
| `Crc.FoldInjective` | src/SparkFun_smol_Power_Board_AAA.cpp:199-210 | for a fixed tail, different starting accumulators give different CRCs |
| `Crc.DetectsSingleByteChange` | src/SparkFun_smol_Power_Board_AAA.cpp:199-212 | replacing any one byte by a different byte changes the CRC, whatever surrounds it |
| `Crc.CheckValue` | src/SparkFun_smol_Power_Board_AAA.cpp:184-187 | the CRC of the ASCII digits "123456789" is 0xF7, the standard check value of CRC-8 with polynomial 0x31, initial value 0xFF and no reflection |
| `Crc.DetectsSingleBitFlip` | src/SparkFun_smol_Power_Board_AAA.cpp:199-212 | flipping any single bit of the input changes the CRC |
| `PowerBoardAaa.AddressPayload` | src/SparkFun_smol_Power_Board_AAA.cpp:72-74 | the address payload is two bytes, the address and then the CRC-8 of the first byte, and it checks to 0 at a receiver |
| `PowerBoardAaa.SmolPowerAaa.SetI2CAddress` | src/SparkFun_smol_Power_Board_AAA.cpp:68-76 | exactly one transmission carrying `[0x00, address, crc8([address])]` is sent to the board, and the result is the transport's acknowledgement unchanged |
| `PowerBoardAaa.LittleEndian16` | src/SparkFun_smol_Power_Board_AAA.cpp:129 | the decoded count is below 65536 and gives back both bytes: the low byte as its remainder modulo 256, the high byte as its quotient |
| `PowerBoardAaa.LittleEndian16Bits` | src/SparkFun_smol_Power_Board_AAA.cpp:129 | the source's 16-bit expression `((uint16_t)hi << 8) \| lo` has the value `LittleEndian16(lo, hi)` |
| `PowerBoardAaa.CelsiusFromRaw` | src/SparkFun_smol_Power_Board_AAA.cpp:130 | a 16-bit count converts to a value in -275..65260, and 300 counts read as 25 degrees |
| `PowerBoardAaa.CelsiusOneCountPerDegree` | src/SparkFun_smol_Power_Board_AAA.cpp:124-130 | readings differ exactly as their counts do (1 count per degree), and a count of 0 reads as -275 |
| `PowerBoardAaa.TemperatureReading` | src/SparkFun_smol_Power_Board_AAA.cpp:125-132 | a reading is a value exactly when the reply reports 2 bytes and delivers at least 2, and the value is `b1*256 + b0 - 275`; otherwise it is the sentinel and the buffer is not used |
| `PowerBoardAaa.SmolPowerAaa.GetTemperature` | src/SparkFun_smol_Power_Board_AAA.cpp:118-133 | the result is the reading of the port's next reply, after one select of register 0x02 and one 2-byte request |
| `PowerBoardAaa.SmolPowerAaa.Begin` | src/SparkFun_smol_Power_Board_AAA.cpp:41-44 | the address defaults to 0x50 as in the header; attaches the port and address and returns the presence verdict of `isConnected` |
| `PowerBoardAaa.SmolPowerAaa.IsConnected` | src/SparkFun_smol_Power_Board_AAA.cpp:53-56 | returns the transport's presence verdict, with the same effect on the port |
| `Transport.WriteFrame` | src/SparkFun_smol_Power_Board_IO.cpp:88-92 | a write frame is the register address followed by the payload, one byte longer than the payload |
| `Transport.SingleByteFrame` | src/SparkFun_smol_Power_Board_IO.cpp:169-175 | the single-byte write sends the same frame as a multi-byte write of a one-byte buffer |
| `Transport.HandshakeLog` | src/SparkFun_smol_Power_Board_IO.cpp:58-63 | isConnected always sends the empty handshake first and, exactly when it is acknowledged, then sends the select of the address register |
| `Transport.UnboundedFill` | src/SparkFun_smol_Power_Board_IO.cpp:123-125 | the unbounded loop writes cells `0..count)` with the received bytes in order (0xFF once the data runs out) and leaves every later cell unchanged |
| `Transport.BoundedCount` | src/SparkFun_smol_Power_Board_AAA_IO.cpp:118-120 | the bounded loop copies at most `packetLength`, at most the reported count, and at most the delivered bytes, and copies `packetLength` exactly when both of the others allow it |
| `Transport.BoundedFill` | src/SparkFun_smol_Power_Board_AAA_IO.cpp:118-120 | the bounded loop writes only the cells below the copied count, with the delivered bytes in order; every later cell, and so every cell at or past `packetLength`, is unchanged |
| `Transport.BoundedReadOkIff` | src/SparkFun_smol_Power_Board_AAA_IO.cpp:119-122 | the bounded read succeeds if and only if the count equals `packetLength` and at least that many bytes were delivered |
| `Transport.BoundedReadDelivers` | src/SparkFun_smol_Power_Board_AAA_IO.cpp:119-122 | after a successful bounded read, `buffer[0..packetLength)` holds the reply in order |
| `Transport.VariantsAgreeOnHonestPort` | src/SparkFun_smol_Power_Board_AAA_IO.cpp:118-122 | on a port that reports no more than was asked for and no more than it delivers, both read loops write the same cells and give the same verdict |
| `Transport.VariantsDifferOnLongReply` | src/SparkFun_smol_Power_Board_IO.cpp:123-127 | on a port that reports more than was asked for, the unbounded loop writes past `packetLength` while the bounded loop leaves those cells alone; both report failure |
| `PowerBoardIo.SmolPowerBoardIo.Begin` | src/SparkFun_smol_Power_Board_IO.cpp:43-48 | stores the port and the address, then returns what isConnected returns, with its effect on the port |
| `PowerBoardIo.SmolPowerBoardIo.IsConnected` | src/SparkFun_smol_Power_Board_IO.cpp:56-72 | true exactly when the handshake is acknowledged, one byte is reported from register 0x00 and that byte is the address in use; the selects release the bus, and the request is made only after an acknowledged handshake |
| `PowerBoardIo.SmolPowerBoardIo.WriteMultipleBytes` | src/SparkFun_smol_Power_Board_IO.cpp:86-95 | one transmission carrying `[registerAddress] ++ buffer[0..packetLength)`, true exactly when it is acknowledged, the buffer unchanged |
| `PowerBoardIo.SmolPowerBoardIo.ReadMultipleBytes` | src/SparkFun_smol_Power_Board_IO.cpp:113-128 | one select of the register (status ignored), one request of `packetLength`, the buffer filled as `UnboundedFill` says, true exactly when the reported count is `packetLength` |
| `PowerBoardIo.SmolPowerBoardIo.ReadSingleByte` | src/SparkFun_smol_Power_Board_IO.cpp:144-157 | `buffer[0]` is overwritten with whatever `read()` yields even on failure, the rest is unchanged, and the result is "one byte reported" |
| `PowerBoardIo.SmolPowerBoardIo.WriteSingleByte` | src/SparkFun_smol_Power_Board_IO.cpp:169-175 | one transmission carrying exactly `[registerAddress, value]`, true exactly when acknowledged |
| `AaaIo.SmolPowerAaaIo.Begin` | src/SparkFun_smol_Power_Board_AAA_IO.cpp:41-46 | stores the port and the address, then returns what isConnected returns, with its effect on the port |
| `AaaIo.SmolPowerAaaIo.IsConnected` | src/SparkFun_smol_Power_Board_AAA_IO.cpp:56-72 | the same verdict as the other variant; the select keeps the bus (`endTransmission(false)`) |
| `AaaIo.SmolPowerAaaIo.WriteMultipleBytes` | src/SparkFun_smol_Power_Board_AAA_IO.cpp:86-95 | one transmission carrying `[registerAddress] ++ buffer[0..packetLength)`, true exactly when it is acknowledged |
| `AaaIo.SmolPowerAaaIo.ReadMultipleBytes` | src/SparkFun_smol_Power_Board_AAA_IO.cpp:110-123 | the buffer filled as `BoundedFill` says (never at or past `packetLength`), the receive queue consumed by exactly the copied bytes, true exactly when the count is `packetLength` and the loop copied that many |
| `AaaIo.SmolPowerAaaIo.ReadSingleByte` | src/SparkFun_smol_Power_Board_AAA_IO.cpp:136-147 | `buffer[0]` is overwritten unconditionally, the rest is unchanged, and the result is "one byte reported" |
| `AaaIo.SmolPowerAaaIo.WriteSingleByte` | src/SparkFun_smol_Power_Board_AAA_IO.cpp:159-165 | one transmission carrying exactly `[registerAddress, value]`, true exactly when acknowledged |
| `PowerBoardConstants.ResetFlagBit` | src/SparkFun_smol_Power_Board_Constants.h:46-56 | every reset-reason bit position lies within a byte |
| `PowerBoardConstants.ResetFlagMask` | src/SparkFun_smol_Power_Board_Constants.h:46-57 | every reset-reason flag is a single bit and none uses the unused bits 5-6 |
| `PowerBoardConstants.ResetFlagsDisjoint` | src/SparkFun_smol_Power_Board_Constants.h:46-57 | each flag is `1 << bit` of its position, and different flags are disjoint |
| `PowerBoardConstants.RegisterCode` | src/SparkFun_smol_Power_Board_Constants.h:62-74 | register ordinals are below 10 |
| `PowerBoardConstants.RegisterOf` | src/SparkFun_smol_Power_Board_Constants.h:62-74 | an address byte names a register exactly when it is below 10, and decoding inverts encoding |
| `PowerBoardConstants.RegistersConsecutive` | src/SparkFun_smol_Power_Board_Constants.h:62-74 | the ordinals run 0..9 in declaration order, I2C address 0 through firmware version 9 |
| `PowerBoardConstants.AdcRefCode` | src/SparkFun_smol_Power_Board_Constants.h:77-82 | codes are 0..2, and 2 is exactly the undefined (error) variant |
| `PowerBoardConstants.WdtTimeoutCode` | src/SparkFun_smol_Power_Board_Constants.h:85-98 | codes are 0..10, and 10 is exactly the undefined (error) variant |
| `PowerBoardConstants.WdtTimeoutsDouble` | src/SparkFun_smol_Power_Board_Constants.h:85-98 | codes run 0..10 in declaration order, and each timeout doubles the previous one except 64 ms to 125 ms |
| `AaaConstants.ResetFlagBit` | src/SparkFun_smol_Power_Board_AAA_Constants.h:37-47 | every reset-reason bit position lies within a byte |
| `AaaConstants.ResetFlagMask` | src/SparkFun_smol_Power_Board_AAA_Constants.h:37-48 | every flag is a single bit outside bits 5-6, and the communication error flag is exactly 0x80 |
| `AaaConstants.ResetFlagsDisjoint` | src/SparkFun_smol_Power_Board_AAA_Constants.h:37-48 | each flag is `1 << bit` of its position, and different flags are disjoint |
| `AaaConstants.RegisterCode` | src/SparkFun_smol_Power_Board_AAA_Constants.h:53-64 | AAA register ordinals are below 9 |
| `AaaConstants.RegisterOf` | src/SparkFun_smol_Power_Board_AAA_Constants.h:53-64 | an address byte names an AAA register exactly when it is below 9 (there is no firmware-version register), and decoding inverts encoding |
| `AaaConstants.RegistersConsecutive` | src/SparkFun_smol_Power_Board_AAA_Constants.h:53-64 | the ordinals run 0..8 in declaration order, with VCC voltage at 4 |
| `AaaConstants.AdcRefCode` | src/SparkFun_smol_Power_Board_AAA_Constants.h:67-72 | codes are 0..2, and 2 is exactly the undefined (error) variant |
| `AaaConstants.WdtPrescaleCode` | src/SparkFun_smol_Power_Board_AAA_Constants.h:75-88 | codes are 0..10, and 10 is exactly the undefined (error) variant |
| `AaaConstants.WdtCycles` | src/SparkFun_smol_Power_Board_AAA_Constants.h:75-86 | prescale code k counts `2048 * 2^k` watchdog cycles |
| `AaaConstants.WdtPrescalesDouble` | src/SparkFun_smol_Power_Board_AAA_Constants.h:75-88 | codes run 0..10 in declaration order, and each prescaler step exactly doubles the cycle count |

## Left out

- Arduino `TwoWire` internals: the 32-byte buffer, bus timing, clock stretching
  and what `endTransmission(false)` does electrically. The port is an abstract
  object with scripted statuses and replies. The stop flag of each transmission is
  recorded but has no effect.
- `delay(waitMS)` in `SMOL_POWER_BOARD_IO`'s reads: the `waitMs` parameter is
  accepted and has no effect, since the model has no clock.
- `I2C_BUFFER_LENGTH` (`src/SparkFun_smol_Power_Board_Constants.h:27-32` and
  `src/SparkFun_smol_Power_Board_AAA_Constants.h:25-30`): a preprocessor platform
  setting that no modelled code reads.
- `getBatteryVoltage`, `getReferenceVoltage` and VCC measurement: float
  conversions. The code is also unfinished:
  - `getBatteryVoltage` reads the temperature register rather than VBAT
    (`src/SparkFun_smol_Power_Board_AAA.cpp:151`);
  - lines 154-155 are syntactically incomplete;
  - `getReferenceVoltage` is empty (169-172).
- `getI2CAddress` and `getResetReason` (`src/SparkFun_smol_Power_Board_AAA.cpp:88`
  and `:109`): they call `readSingleByte` with the wrong number of arguments and do
  not compile.
- The stray declarations at `src/SparkFun_smol_Power_Board_AAA.cpp:174-180` and
  the setters and getters declared in the headers without bodies (ADC reference,
  watchdog prescaler, power-down duration, `powerDownNow`): there is no behaviour
  to model, so none is invented. This includes any write-then-read-back check.
- The LiPo variant `smolPowerLiPo`: it delegates to a MAX17048 fuel-gauge library
  that is not part of this model.
- `src/SparkFun_smol_Power_Board_AAA_IO.h` declares a `waitMS` parameter on both
  reads that the `.cpp` definitions lack. The model follows the definitions.
- No write-then-read echo round trip is stated: the code has no echoing
  peripheral.
- `PowerBoardAaa.LittleEndian16`: no encoder is modelled. The decode instead
  states that its result gives back both bytes (remainder and quotient by 256),
  which is the same injectivity fact.
- `PowerBoardAaa.SmolPowerAaa.GetTemperature`: the sentinel -273.15 is the value
  `Invalid` rather than a float.
- `PowerBoardIo.SmolPowerBoardIo.ReadMultipleBytes`: it requires the buffer to
  hold the reported count. In C, a longer report overruns the caller's buffer,
  which is undefined behaviour that the model cannot represent.
- `PowerBoardAaa.SmolPowerAaa.Begin`: the port parameter has no default, since the
  Arduino global `Wire` has no counterpart here; the address defaults to 0x50.
- The `waitMs` default of 0 of `readSingleByte` and `readMultipleBytes` is kept on
  `PowerBoardIo.SmolPowerBoardIo`. `AaaIo.SmolPowerAaaIo` follows the `.cpp`
  definitions, which have no `waitMS` at all.
- `PowerBoardConstants.DEFAULT_I2C_ADDRESS`: its users are the `begin` defaults
  declared in `src/SparkFun_smol_Power_Board.h:64` and `:76`. No class in that
  header has a definition among the modelled files. The defined
  `smolPowerAAA::begin` (`src/SparkFun_smol_Power_Board_AAA.cpp:41`) takes its
  default from `SFE_AAA_DEFAULT_I2C_ADDRESS`
  (`src/SparkFun_smol_Power_Board_AAA.h:35`), which
  `AaaConstants.DEFAULT_I2C_ADDRESS` models.
- `PowerBoardConstants.TimeoutMs`: the nominal millisecond values come from the
  enum's comments. The code never computes them.
