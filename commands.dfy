/** The closed catalogue of HDC3020 command words and the two selection
    ladders that pick a measurement command from a caller's mode and rate. */
module Commands {

  datatype Option<T> = None | Some(value: T)

  /** Noise/power mode: 0 is lowest noise, 3 lowest power. */
  type NoiseMode = m: int | 0 <= m < 4

  /** Periodic rate index: 0, 1, 2, 3, 4 stand for 0.5, 1, 2, 4 and 10
      measurements per second. */
  type Rate = r: int | 0 <= r < 5

  datatype Command =
    | ReadSingleShot(mode: NoiseMode)
    | ReadPeriodicMeasurement
    | ReadMinimumT
    | ReadMaximumT
    | ReadMinimumRH
    | ReadMaximumRH
    | ClearStatusRegister
    | ReadStatusRegister
    | ReadRegister2
    | StartPeriodicDefault
    | EndPeriodicMeasurement
    | SoftReset
    | HeaterConfigure
    | HeaterOn
    | HeaterOff
    | ReadManufacturerId
    | ReadManufacturerId0
    | ReadManufacturerId1
    | ReadManufacturerId2
    | ChangeSetLowAlert
    | ChangeClearLowAlert
    | ChangeSetHighAlert
    | ChangeClearHighAlert
    | ReadSetLowAlert
    | ReadClearLowAlert
    | ReadSetHighAlert
    | ReadClearHighAlert
    | IntoNonVolatileMemory
    | OffsetValue
    | ChangeDefaultPowerOn
    | StartPeriodic(rate: Rate, mode: NoiseMode)

  /** High byte of the periodic-start codes, by rate index. */
  const PeriodicHigh: seq<int> := [0x20, 0x21, 0x22, 0x23, 0x27]

  /** The 16-bit command word of each catalogue entry. */
  function Code(c: Command): (r: int)
    ensures 0 <= r < 0x10000
  {
    match c
    case ReadSingleShot(m) => [0x2400, 0x240B, 0x2416, 0x24FF][m]
    case ReadPeriodicMeasurement => 0xE000
    case ReadMinimumT => 0xE002
    case ReadMaximumT => 0xE003
    case ReadMinimumRH => 0xE004
    case ReadMaximumRH => 0xE005
    case ClearStatusRegister => 0x3041
    case ReadStatusRegister => 0xF32D
    case ReadRegister2 => 0xF352
    case StartPeriodicDefault => 0x201E
    case EndPeriodicMeasurement => 0x3093
    case SoftReset => 0x30A2
    case HeaterConfigure => 0x306E
    case HeaterOn => 0x306D
    case HeaterOff => 0x3066
    case ReadManufacturerId => 0x3781
    case ReadManufacturerId0 => 0x3683
    case ReadManufacturerId1 => 0x3684
    case ReadManufacturerId2 => 0x3685
    case ChangeSetLowAlert => 0x6100
    case ChangeClearLowAlert => 0x610B
    case ChangeSetHighAlert => 0x611D
    case ChangeClearHighAlert => 0x6116
    case ReadSetLowAlert => 0xE102
    case ReadClearLowAlert => 0xE109
    case ReadSetHighAlert => 0xE11F
    case ReadClearHighAlert => 0xE114
    case IntoNonVolatileMemory => 0x6155
    case OffsetValue => 0xA004
    case ChangeDefaultPowerOn => 0x61BB
    case StartPeriodic(r, m) =>
      [[0x2032, 0x2024, 0x202F, 0x20FF],
       [0x2130, 0x2126, 0x212D, 0x21FF],
       [0x2236, 0x2220, 0x222B, 0x22FF],
       [0x2334, 0x2322, 0x2329, 0x23FF],
       [0x2737, 0x2721, 0x272A, 0x27FF]][r][m]
  }

  /** The catalogue entry a command word stands for, if any. */
  function Lookup(code: int): Option<Command> {
    if code == 0x2400 then Some(ReadSingleShot(0))
    else if code == 0x240B then Some(ReadSingleShot(1))
    else if code == 0x2416 then Some(ReadSingleShot(2))
    else if code == 0x24FF then Some(ReadSingleShot(3))
    else if code == 0xE000 then Some(ReadPeriodicMeasurement)
    else if code == 0xE002 then Some(ReadMinimumT)
    else if code == 0xE003 then Some(ReadMaximumT)
    else if code == 0xE004 then Some(ReadMinimumRH)
    else if code == 0xE005 then Some(ReadMaximumRH)
    else if code == 0x3041 then Some(ClearStatusRegister)
    else if code == 0xF32D then Some(ReadStatusRegister)
    else if code == 0xF352 then Some(ReadRegister2)
    else if code == 0x201E then Some(StartPeriodicDefault)
    else if code == 0x3093 then Some(EndPeriodicMeasurement)
    else if code == 0x30A2 then Some(SoftReset)
    else if code == 0x306E then Some(HeaterConfigure)
    else if code == 0x306D then Some(HeaterOn)
    else if code == 0x3066 then Some(HeaterOff)
    else if code == 0x3781 then Some(ReadManufacturerId)
    else if code == 0x3683 then Some(ReadManufacturerId0)
    else if code == 0x3684 then Some(ReadManufacturerId1)
    else if code == 0x3685 then Some(ReadManufacturerId2)
    else if code == 0x6100 then Some(ChangeSetLowAlert)
    else if code == 0x610B then Some(ChangeClearLowAlert)
    else if code == 0x611D then Some(ChangeSetHighAlert)
    else if code == 0x6116 then Some(ChangeClearHighAlert)
    else if code == 0xE102 then Some(ReadSetLowAlert)
    else if code == 0xE109 then Some(ReadClearLowAlert)
    else if code == 0xE11F then Some(ReadSetHighAlert)
    else if code == 0xE114 then Some(ReadClearHighAlert)
    else if code == 0x6155 then Some(IntoNonVolatileMemory)
    else if code == 0xA004 then Some(OffsetValue)
    else if code == 0x61BB then Some(ChangeDefaultPowerOn)
    else LookupPeriodic(code)
  }

  function LookupPeriodic(code: int): Option<Command> {
    var high, low := code / 256, code % 256;
    var rate := if high == 0x20 then 0 else if high == 0x21 then 1 else if high == 0x22 then 2
                else if high == 0x23 then 3 else if high == 0x27 then 4 else -1;
    if rate < 0 then None
    else if Code(StartPeriodic(rate, 0)) == code then Some(StartPeriodic(rate, 0))
    else if Code(StartPeriodic(rate, 1)) == code then Some(StartPeriodic(rate, 1))
    else if Code(StartPeriodic(rate, 2)) == code then Some(StartPeriodic(rate, 2))
    else if Code(StartPeriodic(rate, 3)) == code then Some(StartPeriodic(rate, 3))
    else None
  }

  lemma LookupPeriodicCode(r: Rate, m: NoiseMode)
    ensures LookupPeriodic(Code(StartPeriodic(r, m))) == Some(StartPeriodic(r, m))
  {
    var code := Code(StartPeriodic(r, m));
    assert code / 256 == PeriodicHigh[r];
  }

  /** Every catalogue word decodes back to its own entry. */
  lemma LookupCode(c: Command)
    ensures Lookup(Code(c)) == Some(c)
  {
    match c
    case StartPeriodic(r, m) =>
      LookupPeriodicCode(r, m);
    case _ =>
  }

  /** Decoding never invents a word: whatever `Lookup` returns has that word. */
  lemma CodeOfLookup(code: int)
    ensures Lookup(code).Some? ==> Code(Lookup(code).value) == code
  {
  }

  /** The catalogue words are pairwise distinct. */
  lemma CodesDistinct(a: Command, b: Command)
    ensures Code(a) == Code(b) ==> a == b
  {
    LookupCode(a);
    LookupCode(b);
  }

  /** The twenty periodic-start words are pairwise distinct. */
  lemma PeriodicCodesDistinct(r1: Rate, m1: NoiseMode, r2: Rate, m2: NoiseMode)
    ensures Code(StartPeriodic(r1, m1)) == Code(StartPeriodic(r2, m2)) ==> r1 == r2 && m1 == m2
  {
    CodesDistinct(StartPeriodic(r1, m1), StartPeriodic(r2, m2));
  }

  /** The single-shot ladder: modes 0, 1 and 2 select their own word and any
      other value falls through to mode 3. */
  function SingleShotCommand(mode: int): (c: Command)
    ensures c.ReadSingleShot? && Code(c) / 256 == 0x24
    ensures 0 <= mode <= 2 ==> c == ReadSingleShot(mode)
    ensures !(0 <= mode <= 2) ==> Code(c) == 0x24FF
  {
    if mode == 0 then ReadSingleShot(0)
    else if mode == 1 then ReadSingleShot(1)
    else if mode == 2 then ReadSingleShot(2)
    else ReadSingleShot(3)
  }

  /** The periodic-start ladder: a rate index in 0..4 selects a word whose high
      byte encodes the rate; a mode outside 0..2 falls through to mode 3; any
      other rate selects nothing. */
  function PeriodicStartCommand(rate: int, mode: int): (c: Option<Command>)
    ensures c.Some? <==> 0 <= rate <= 4
    ensures c.Some? ==> c.value.StartPeriodic? && Code(c.value) / 256 == PeriodicHigh[rate]
    ensures c.Some? && 0 <= mode <= 2 ==> c.value == StartPeriodic(rate, mode) && Code(c.value) % 256 != 0xFF
    ensures c.Some? && !(0 <= mode <= 2) ==> c.value == StartPeriodic(rate, 3) && Code(c.value) % 256 == 0xFF
  {
    var m: NoiseMode := if mode == 0 then 0 else if mode == 1 then 1 else if mode == 2 then 2 else 3;
    if rate == 0 then Some(StartPeriodic(0, m))
    else if rate == 1 then Some(StartPeriodic(1, m))
    else if rate == 2 then Some(StartPeriodic(2, m))
    else if rate == 3 then Some(StartPeriodic(3, m))
    else if rate == 4 then Some(StartPeriodic(4, m))
    else None
  }
}
