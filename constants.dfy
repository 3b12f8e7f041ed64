/**
 * The register map and encodings of SparkFun_smol_Power_Board_Constants.h,
 * shared by the smol Power Board family (LiPo and AAA boards).
 */
module PowerBoardConstants {
  import opened Bytes

  const DEFAULT_I2C_ADDRESS: byte := 0x50

  /** ADC read (eight samples, averaged) settle time, in milliseconds. */
  const ADC_READ_DELAY_MS: nat := 15
  /** EEPROM update settle time, in milliseconds. */
  const EEPROM_UPDATE_DELAY_MS: nat := 6

  /** The causes getResetReason reports, one bit each. */
  datatype ResetFlag = PowerOn | External | BrownOut | Watchdog | EepromCorrupt | CommError

  function ResetFlagBit(f: ResetFlag): (bit: bv8)
    ensures bit < 8
  {
    match f
    case PowerOn => 0
    case External => 1
    case BrownOut => 2
    case Watchdog => 3
    case EepromCorrupt => 4
    case CommError => 7
  }

  /** The flag value `1 << bit`: a single bit, never one of the unused bits 5 and 6. */
  function ResetFlagMask(f: ResetFlag): (m: byte)
    ensures IsSingleBit(m)
    ensures m & 0x60 == 0
  {
    match f
    case PowerOn => 1 << 0
    case External => 1 << 1
    case BrownOut => 1 << 2
    case Watchdog => 1 << 3
    case EepromCorrupt => 1 << 4
    case CommError => 1 << 7
  }

  /** Each flag sits at its own bit position, and two different flags never overlap. */
  lemma ResetFlagsDisjoint(f: ResetFlag, g: ResetFlag)
    ensures ResetFlagMask(f) == 1 << ResetFlagBit(f)
    ensures f != g ==> ResetFlagMask(f) & ResetFlagMask(g) == 0
  {
  }

  /** sfe_power_board_registers_e, in declaration order. */
  datatype Register =
    | I2cAddress | ResetReason | Temperature | Vbat | Ref1V1 | AdcReference
    | WdtPrescaler | PowerdownDuration | PowerdownNow | FirmwareVersion

  const REGISTERS: seq<Register> :=
    [I2cAddress, ResetReason, Temperature, Vbat, Ref1V1, AdcReference,
     WdtPrescaler, PowerdownDuration, PowerdownNow, FirmwareVersion]

  /** The register's address byte: the enum starts at 0 and counts up. */
  function RegisterCode(r: Register): (c: byte)
    ensures c < 10
  {
    match r
    case I2cAddress => 0x00
    case ResetReason => 0x01
    case Temperature => 0x02
    case Vbat => 0x03
    case Ref1V1 => 0x04
    case AdcReference => 0x05
    case WdtPrescaler => 0x06
    case PowerdownDuration => 0x07
    case PowerdownNow => 0x08
    case FirmwareVersion => 0x09
  }

  /** The register an address byte names, if any. */
  function RegisterOf(c: byte): (r: Option<Register>)
    ensures r.Some? <==> c < 10
    ensures r.Some? ==> RegisterCode(r.value) == c
  {
    if c < 10 then Some(REGISTERS[c as int]) else None
  }

  /** The ordinals run consecutively from 0 in declaration order, and decoding inverts encoding. */
  lemma RegistersConsecutive(r: Register)
    ensures forall k :: 0 <= k < |REGISTERS| ==> RegisterCode(REGISTERS[k]) as int == k
    ensures RegisterOf(RegisterCode(r)) == Some(r)
  {
  }

  /** sfe_power_board_ADC_ref_e; Undefined is the error variant. */
  datatype AdcRef = RefVcc | Ref1V1Internal | RefUndefined

  function AdcRefCode(a: AdcRef): (c: byte)
    ensures c <= 2
    ensures a == RefUndefined <==> c == 2
  {
    match a
    case RefVcc => 0
    case Ref1V1Internal => 1
    case RefUndefined => 2
  }

  /** sfe_power_board_WDT_prescale_e: watchdog timeouts 16 ms .. 8 s, then the error variant. */
  datatype WdtTimeout =
    | Timeout16ms | Timeout32ms | Timeout64ms | Timeout125ms | Timeout250ms
    | Timeout500ms | Timeout1s | Timeout2s | Timeout4s | Timeout8s | TimeoutUndefined

  const WDT_TIMEOUTS: seq<WdtTimeout> :=
    [Timeout16ms, Timeout32ms, Timeout64ms, Timeout125ms, Timeout250ms,
     Timeout500ms, Timeout1s, Timeout2s, Timeout4s, Timeout8s, TimeoutUndefined]

  function WdtTimeoutCode(t: WdtTimeout): (c: byte)
    ensures c <= 10
    ensures t == TimeoutUndefined <==> c == 10
  {
    match t
    case Timeout16ms => 0
    case Timeout32ms => 1
    case Timeout64ms => 2
    case Timeout125ms => 3
    case Timeout250ms => 4
    case Timeout500ms => 5
    case Timeout1s => 6
    case Timeout2s => 7
    case Timeout4s => 8
    case Timeout8s => 9
    case TimeoutUndefined => 10
  }

  /** The nominal timeout each defined code stands for, in milliseconds. */
  function TimeoutMs(t: WdtTimeout): nat
    requires t != TimeoutUndefined
  {
    match t
    case Timeout16ms => 16
    case Timeout32ms => 32
    case Timeout64ms => 64
    case Timeout125ms => 125
    case Timeout250ms => 250
    case Timeout500ms => 500
    case Timeout1s => 1000
    case Timeout2s => 2000
    case Timeout4s => 4000
    case Timeout8s => 8000
  }

  /** Codes follow declaration order, and each nominal timeout doubles the previous one,
      except 64 ms to 125 ms, where the labels round 128 ms down. */
  lemma WdtTimeoutsDouble()
    ensures forall k :: 0 <= k < |WDT_TIMEOUTS| ==> WdtTimeoutCode(WDT_TIMEOUTS[k]) as int == k
    ensures forall k :: 0 <= k < 9 && k != 2 ==>
      TimeoutMs(WDT_TIMEOUTS[k + 1]) == 2 * TimeoutMs(WDT_TIMEOUTS[k])
    ensures TimeoutMs(Timeout125ms) < 2 * TimeoutMs(Timeout64ms)
  {
  }
}
