/**
 * The register map and encodings of SparkFun_smol_Power_Board_AAA_Constants.h,
 * the AAA board's own copy of the tables.
 */
module AaaConstants {
  import opened Bytes

  const DEFAULT_I2C_ADDRESS: byte := 0x50

  /** The causes getResetReason reports, one bit each. */
  datatype ResetFlag = PowerOn | External | BrownOut | Watchdog | EepromCorrupt | CommError

  function ResetFlagBit(f: ResetFlag): (bit: bv8)
    ensures bit < 8
  {
    match f
    case PowerOn => 0
    case External => 1
    case BrownOut => 2
    case Watchdog => 3
    case EepromCorrupt => 4
    case CommError => 7
  }

  /** The flag value `1 << bit`: a single bit, never one of the unused bits 5 and 6. */
  function ResetFlagMask(f: ResetFlag): (m: byte)
    ensures IsSingleBit(m)
    ensures m & 0x60 == 0
    ensures f == CommError <==> m == 0x80
  {
    match f
    case PowerOn => 1 << 0
    case External => 1 << 1
    case BrownOut => 1 << 2
    case Watchdog => 1 << 3
    case EepromCorrupt => 1 << 4
    case CommError => 1 << 7
  }

  /** Each flag sits at its own bit position, and two different flags never overlap. */
  lemma ResetFlagsDisjoint(f: ResetFlag, g: ResetFlag)
    ensures ResetFlagMask(f) == 1 << ResetFlagBit(f)
    ensures f != g ==> ResetFlagMask(f) & ResetFlagMask(g) == 0
  {
  }

  /** sfe_power_board_aaa_registers_e, in declaration order; there is no firmware version register. */
  datatype Register =
    | I2cAddress | ResetReason | Temperature | Vbat | VccVoltage | AdcReference
    | WdtPrescaler | PowerdownDuration | PowerdownNow

  const REGISTERS: seq<Register> :=
    [I2cAddress, ResetReason, Temperature, Vbat, VccVoltage, AdcReference,
     WdtPrescaler, PowerdownDuration, PowerdownNow]

  /** The register's address byte: the enum starts at 0 and counts up. */
  function RegisterCode(r: Register): (c: byte)
    ensures c < 9
  {
    match r
    case I2cAddress => 0x00
    case ResetReason => 0x01
    case Temperature => 0x02
    case Vbat => 0x03
    case VccVoltage => 0x04
    case AdcReference => 0x05
    case WdtPrescaler => 0x06
    case PowerdownDuration => 0x07
    case PowerdownNow => 0x08
  }

  /** The register an address byte names, if any. */
  function RegisterOf(c: byte): (r: Option<Register>)
    ensures r.Some? <==> c < 9
    ensures r.Some? ==> RegisterCode(r.value) == c
  {
    if c < 9 then Some(REGISTERS[c as int]) else None
  }

  /** The ordinals run consecutively from 0 in declaration order, and decoding inverts encoding. */
  lemma RegistersConsecutive(r: Register)
    ensures forall k :: 0 <= k < |REGISTERS| ==> RegisterCode(REGISTERS[k]) as int == k
    ensures RegisterOf(RegisterCode(r)) == Some(r)
  {
  }

  /** sfe_power_board_aaa_ADC_ref_e; Undefined is the error variant. */
  datatype AdcRef = RefVcc | Ref1V1Internal | RefUndefined

  function AdcRefCode(a: AdcRef): (c: byte)
    ensures c <= 2
    ensures a == RefUndefined <==> c == 2
  {
    match a
    case RefVcc => 0
    case Ref1V1Internal => 1
    case RefUndefined => 2
  }

  /** sfe_power_board_aaa_WDT_prescale_e: 2K .. 1024K watchdog oscillator cycles,
      then the error variant. */
  datatype WdtPrescale =
    | Prescale2K | Prescale4K | Prescale8K | Prescale16K | Prescale32K
    | Prescale64K | Prescale128K | Prescale256K | Prescale512K | Prescale1024K
    | PrescaleUndefined

  const WDT_PRESCALES: seq<WdtPrescale> :=
    [Prescale2K, Prescale4K, Prescale8K, Prescale16K, Prescale32K,
     Prescale64K, Prescale128K, Prescale256K, Prescale512K, Prescale1024K, PrescaleUndefined]

  function WdtPrescaleCode(p: WdtPrescale): (c: byte)
    ensures c <= 10
    ensures p == PrescaleUndefined <==> c == 10
  {
    match p
    case Prescale2K => 0
    case Prescale4K => 1
    case Prescale8K => 2
    case Prescale16K => 3
    case Prescale32K => 4
    case Prescale64K => 5
    case Prescale128K => 6
    case Prescale256K => 7
    case Prescale512K => 8
    case Prescale1024K => 9
    case PrescaleUndefined => 10
  }

  /** 2 to the power `k`. */
  function Pow2(k: nat): nat {
    if k == 0 then 1 else 2 * Pow2(k - 1)
  }

  /** The watchdog cycles a defined prescaler setting counts, as the enum names them. */
  function WdtCycles(p: WdtPrescale): (n: nat)
    requires p != PrescaleUndefined
    ensures n == 2048 * Pow2(WdtPrescaleCode(p) as int)
  {
    match p
    case Prescale2K => 2 * 1024
    case Prescale4K => 4 * 1024
    case Prescale8K => 8 * 1024
    case Prescale16K => 16 * 1024
    case Prescale32K => 32 * 1024
    case Prescale64K => 64 * 1024
    case Prescale128K => 128 * 1024
    case Prescale256K => 256 * 1024
    case Prescale512K => 512 * 1024
    case Prescale1024K => 1024 * 1024
  }

  /** Codes follow declaration order, and each prescaler step exactly doubles the cycle count. */
  lemma WdtPrescalesDouble(k: nat)
    requires k < 9
    ensures forall j :: 0 <= j < |WDT_PRESCALES| ==> WdtPrescaleCode(WDT_PRESCALES[j]) as int == j
    ensures WdtCycles(WDT_PRESCALES[k + 1]) == 2 * WdtCycles(WDT_PRESCALES[k])
  {
  }
}
