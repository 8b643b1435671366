# HDC3020 driver protocol core in Dafny

A model of the protocol logic of the Python HDC3020 humidity and temperature
sensor driver (`hdc3020_i2c_library.py`). It covers the driver's CRC-8
routine, its closed catalogue of 16-bit command words, how command and payload
frames are built, how response groups are checked, the raw-to-physical
conversions, and every read and write method of the `HDC3020` class.

The I2C bus is abstract. An `HDC3020` object keeps its bus address and a log
of the transactions it has started (`Write` or `WriteRead` with a byte count).
The bytes the sensor answers with are passed to each read method as
parameters. Where the driver raises `Warning(get_status_string(2))`, the model
returns `Warning("Checksum error")`. Any other exception the code raises is a
`Raised` result that names the exception class.

Modules:

- `Bits`: bytes, powers of two, and Python's `^` on non-negative integers.
- `Checksum`: the CRC. The loop method `CalcCrc8` is proved against `Crc8`,
  the same bit-serial loop on a register masked to eight bits after every
  shift. The unbounded accumulator that is masked once
  (`RawCrc`) is proved equal to the accumulator that is masked after every
  shift.
- `Commands`: the command catalogue, its inverse lookup, and the single-shot
  and periodic-start selection ladders.
- `Codec`: command frames, payload frames, response-group validity, and the
  temperature and humidity conversions.
- `Driver`: status strings, results, the transaction log, and the `HDC3020`
  class.

Where the code and its usual description disagree, the model follows the
code:

- The constants are named "one-wire", but the CRC is not the reflected
  Dallas/Maxim 1-Wire CRC. It uses polynomial 0x31 and initial value 0xFF,
  processes bits MSB-first, and has no reflection and no final XOR.
- The accumulator is masked to eight bits once, at the end, not after each
  byte.
- A periodic rate index outside 0..4 is silently ignored: nothing is written
  and no error is raised.
- The third identification read sends ID word 1 again (0x3684), not ID word 2.
- The driver keeps no device-mode state, so none is modelled.

## Model

| member | source | states |
|---|---|---|
| Checksum.CalcCrc8 | hdc3020_i2c_library.py:100-112 | The nested-loop CRC over `buf[start..end)` always lies in 0..255. It equals `Crc8` (poly 0x31, init 0xFF) of exactly that slice, so it depends on nothing else. An empty range gives the CRC of no bytes. |
| Checksum.RawCrc | hdc3020_i2c_library.py:102-110 | The Python accumulator before the final mask: it starts at 0xFF, and each byte runs eight unmasked shift-and-XOR steps on it, with the data value shifted left once per step. Checksum.RawCrcMasksToCrc8 relates it to `Crc8`. |
| Checksum.Crc8 | hdc3020_i2c_library.py:100-112 | The same bit-serial loop on an eight-bit register that is masked after every shift. This is the reference the loop method and every checksum test are stated against. |
| Checksum.RawCrcMasksToCrc8 | hdc3020_i2c_library.py:102-111 | Masking the unbounded accumulator once at the end gives the same byte as masking after every shift. |
| Checksum.StepsMask | hdc3020_i2c_library.py:105-110 | For the eight inner-loop shifts of one byte, the unmasked accumulator reduced mod 256 equals the accumulator that is masked at every step. |
| Checksum.CrcSnoc | hdc3020_i2c_library.py:103-110 | Appending a byte to the data runs eight more shift steps on the previous CRC. |
| Checksum.MaskedStepsArith | hdc3020_i2c_library.py:106-109 | The bitwise shift step equals its arithmetic closed form: double, and when the top bits differ, flip bits 0, 4 and 5. |
| Checksum.CheckValues | hdc3020_i2c_library.py:305-311 | CRC(FF FF) = AC and CRC(00 00) = 81, the literal checksum bytes the tracking writes use. CRC(BE EF) = 92, the sensor family's check value. |
| Bits.XorLow | hdc3020_i2c_library.py:106-111 | The low n bits of `a ^ b` depend only on the low n bits of `a` and `b`, so masking commutes with the XORs in the loop. |
| Bits.XorTop | hdc3020_i2c_library.py:106 | For operands below 2^(n+1), bit n of `a ^ b` is set exactly when it is set in one operand and not the other. This is the branch test on bit 7. |
| Commands.Code | hdc3020_i2c_library.py:33-85 | Every catalogue entry has its constant's 16-bit word, and every word is below 0x10000. |
| Commands.LookupCode | hdc3020_i2c_library.py:33-85 | Looking up the word of any catalogue entry gives back that entry. |
| Commands.CodeOfLookup | hdc3020_i2c_library.py:33-85 | Whatever a word decodes to has exactly that word, so lookup and encoding are inverse on the catalogue. |
| Commands.CodesDistinct | hdc3020_i2c_library.py:33-85 | Two catalogue entries with the same word are the same entry. |
| Commands.PeriodicCodesDistinct | hdc3020_i2c_library.py:66-85 | The twenty periodic-start words are pairwise distinct across (rate, mode). |
| Commands.SingleShotCommand | hdc3020_i2c_library.py:123-138 | Modes 0, 1 and 2 select their own single-shot word. Any other mode selects 0x24FF. The high byte is always 0x24. |
| Commands.PeriodicStartCommand | hdc3020_i2c_library.py:359-445 | A word is selected iff the rate index is in 0..4. Its high byte is 0x20/0x21/0x22/0x23/0x27 by rate. A mode in 0..2 gives that mode's word, whose low byte is not 0xFF. Any other mode gives the mode-3 word, whose low byte is 0xFF. |
| Codec.Word | hdc3020_i2c_library.py:141-142 | `b0*256 + b1` is a 16-bit value whose high byte is b0 and whose low byte is b1. |
| Codec.CommandFrame | hdc3020_i2c_library.py:125-126 | `[code >> 8, code & 0xFF]` has two bytes, and combining them as a word recovers the code. |
| Codec.GroupValid | hdc3020_i2c_library.py:139-140 | A response group is accepted exactly when byte 2 equals `calc_crc8` of bytes 0 and 1. This is the test at lines 139-140, 173, 267 and 488. |
| Codec.ValidGroupUnique | hdc3020_i2c_library.py:267-268 | Two accepted groups with the same data bytes are equal, so each data pair has exactly one accepted checksum byte. |
| Codec.PayloadFrame | hdc3020_i2c_library.py:216-220 | A payload frame has five bytes: the command frame, then b1 and b2, then a trailing byte that passes the same group check applied to responses. |
| Codec.PayloadFrameBytes | hdc3020_i2c_library.py:216-220 | Given the CRC of the payload, a payload frame is exactly `[hi, lo, b1, b2, crc]`. |
| Codec.LowTrackingFrame | hdc3020_i2c_library.py:303-306 | The literal frame `61 00 FF FF AC` is the payload frame that sets the low alert threshold to FFFF. |
| Codec.HighTrackingFrame | hdc3020_i2c_library.py:307-311 | The literal frame `61 1D 00 00 81` is the payload frame that sets the high alert threshold to 0000. |
| Codec.Temperature | hdc3020_i2c_library.py:141 | Every raw reading maps into [-45, 130] °C, with raw 0 giving -45 and raw 65535 giving 130. |
| Codec.Humidity | hdc3020_i2c_library.py:142 | Every raw reading maps into [0, 100] %RH, with raw 0 giving 0 and raw 65535 giving 100. |
| Codec.TemperatureRoundTrip | hdc3020_i2c_library.py:141 | The inverse transform recovers the raw reading from the temperature. |
| Codec.HumidityRoundTrip | hdc3020_i2c_library.py:142 | The inverse transform recovers the raw reading from the humidity. |
| Codec.ConversionsIncreasing | hdc3020_i2c_library.py:141-142 | Both conversions are strictly increasing, so distinct readings give distinct values. |
| Driver.StatusString | hdc3020_i2c_library.py:87-97 | Codes 0..2 have their own message and code 2 is "Checksum error". Codes of 3 and above give "Unknown error". A negative code is not a table key, so the lookup fails. |
| Driver.StatusStringsDistinct | hdc3020_i2c_library.py:89-93 | The three known codes have three different messages. |
| Driver.HeaterStatusBit | hdc3020_i2c_library.py:489-490 | `((b << 2) & 255) >> 7` is 0 or 1, and it is bit 5 of b. |
| Driver.HDC3020.constructor | hdc3020_i2c_library.py:118-119 | The object keeps the given address, and no transaction has been started. |
| Driver.HDC3020.WireWriteRead | hdc3020_i2c_library.py:499-505 | Records one write-then-read of `count` bytes at the object's address and returns the sensor's answer. |
| Driver.HDC3020.WireWrite | hdc3020_i2c_library.py:507-511 | Records one write at the object's address. |
| Driver.HDC3020.SendCommand | hdc3020_i2c_library.py:447-450 | Appends exactly the command frame of the given entry. |
| Driver.HDC3020.SendPayload | hdc3020_i2c_library.py:212-220 | The intended `change_*` body: each payload value is masked with `& 255`, then exactly the five-byte payload frame of the two masked bytes is appended. The checksum is computed by the CRC loop. |
| Driver.HDC3020.SendPayloadAsWritten | hdc3020_i2c_library.py:212-215 | The `change_*` body as written: the call raises UnboundLocalError and the log is unchanged. So the log differs from the one the intended body produces, for every command and payload. |
| Driver.HDC3020.ReadGroup | hdc3020_i2c_library.py:264-270 | Logs one 3-byte read of the command. It succeeds iff the group's checksum matches, and then returns the two data bytes. Otherwise it fails with "Checksum error". |
| Driver.HDC3020.ReadMeasurement | hdc3020_i2c_library.py:148-158 | Logs one 6-byte read. It succeeds iff both groups validate, so one bad group fails the whole read with no partial value. On success it converts both words. |
| Driver.HDC3020.GetSingleShotTempHum | hdc3020_i2c_library.py:121-145 | Sends the word the mode ladder selects. It succeeds iff both groups validate, and then T is in [-45, 130] and RH in [0, 100]. A failure carries "Checksum error". |
| Driver.HDC3020.GetPeriodicMeasurementTempHum | hdc3020_i2c_library.py:147-158 | Reads with 0xE000. It succeeds iff both groups validate, and then T and RH are the bounded conversions of the two words. |
| Driver.HDC3020.ReadTemperature | hdc3020_i2c_library.py:168-177 | A one-group read converted to a temperature in [-45, 130], returned only when the checksum matches. |
| Driver.HDC3020.ReadHumidity | hdc3020_i2c_library.py:190-199 | A one-group read converted to a humidity in [0, 100], returned only when the checksum matches. |
| Driver.HDC3020.GetPeriodicMeasurementMinTemp | hdc3020_i2c_library.py:168-177 | Reads with 0xE002. Returns the temperature of the word iff its checksum matches. |
| Driver.HDC3020.GetPeriodicMeasurementMaxTemp | hdc3020_i2c_library.py:179-188 | Reads with 0xE003. Returns the temperature of the word iff its checksum matches. |
| Driver.HDC3020.GetPeriodicMeasurementMinHum | hdc3020_i2c_library.py:190-199 | Reads with 0xE004. Returns the humidity of the word iff its checksum matches. |
| Driver.HDC3020.GetPeriodicMeasurementMaxHum | hdc3020_i2c_library.py:201-210 | Reads with 0xE005. Returns the humidity of the word iff its checksum matches. |
| Driver.HDC3020.ChangeDefaultDevicePowerOn | hdc3020_i2c_library.py:212-220| Masks both payload values with `& 255` and appends the payload frame for 0x61BB with the two masked bytes and their CRC. |
| Driver.HDC3020.ChangeSetLowAlert | hdc3020_i2c_library.py:222-230| Masks both payload values with `& 255` and appends the payload frame for 0x6100 with the two masked bytes and their CRC. |
| Driver.HDC3020.ChangeClearLowAlert | hdc3020_i2c_library.py:232-240| Masks both payload values with `& 255` and appends the payload frame for 0x610B with the two masked bytes and their CRC. |
| Driver.HDC3020.ChangeSetHighAlert | hdc3020_i2c_library.py:242-250| Masks both payload values with `& 255` and appends the payload frame for 0x611D with the two masked bytes and their CRC. |
| Driver.HDC3020.ChangeClearHighAlert | hdc3020_i2c_library.py:252-260| Masks both payload values with `& 255` and appends the payload frame for 0x6116 with the two masked bytes and their CRC. |
| Driver.HDC3020.ReadSetLowAlert | hdc3020_i2c_library.py:262-270 | Reads with 0xE102. Returns the two data bytes iff the checksum matches. |
| Driver.HDC3020.ReadClearLowAlert | hdc3020_i2c_library.py:272-280 | Reads with 0xE109. Returns the two data bytes iff the checksum matches. |
| Driver.HDC3020.ReadSetHighAlert | hdc3020_i2c_library.py:282-290 | Reads with 0xE11F. Returns the two data bytes iff the checksum matches. |
| Driver.HDC3020.ReadClearHighAlert | hdc3020_i2c_library.py:292-300 | Reads with 0xE114. Returns the two data bytes iff the checksum matches. |
| Driver.HDC3020.DeactivateEnvironmentalTracking | hdc3020_i2c_library.py:302-311 | The two literal frames it writes are exactly the valid payload frames that set the low threshold to FFFF and the high threshold to 0000. |
| Driver.HDC3020.WriteLowTrackingOff | hdc3020_i2c_library.py:304-307 | The first literal frame, `61 00 FF FF AC`, is appended, and it is the valid payload frame that sets the low alert threshold to FFFF. |
| Driver.HDC3020.WriteHighTrackingOff | hdc3020_i2c_library.py:308-311 | The second literal frame, `61 1D 00 00 81`, is appended, and it is the valid payload frame that sets the high alert threshold to 0000. |
| Driver.HDC3020.TransferThresholdsIntoNonVolatileMemory | hdc3020_i2c_library.py:313-317 | Appends exactly the frame for 0x6155. |
| Driver.HDC3020.ChangeOffsetValue | hdc3020_i2c_library.py:319-327| Masks both payload values with `& 255` and appends the payload frame for 0xA004 with the two masked bytes and their CRC. |
| Driver.HDC3020.ReadOffsetValue | hdc3020_i2c_library.py:329-337 | Reads with 0xA004. Returns the two data bytes iff the checksum matches. |
| Driver.HDC3020.ChangeHeaterCurrent | hdc3020_i2c_library.py:339-347| Masks both payload values with `& 255` and appends the payload frame for 0x306E with the two masked bytes and their CRC. |
| Driver.HDC3020.ReadHeaterCurrent | hdc3020_i2c_library.py:349-357 | Reads with 0x306E. Returns the two data bytes iff the checksum matches. |
| Driver.HDC3020.StartPeriodicMeasurement | hdc3020_i2c_library.py:359-445 | For a rate in 0..4 it appends exactly one 2-byte frame, whose high byte encodes the rate and whose low byte is 0xFF iff the mode is outside 0..2. For any other rate the log is unchanged. |
| Driver.HDC3020.EndPeriodicMeasurement | hdc3020_i2c_library.py:447-450 | Appends exactly the frame for 0x3093. |
| Driver.HDC3020.HeaterOn | hdc3020_i2c_library.py:452-455 | Appends exactly the frame for 0x306D. |
| Driver.HDC3020.HeaterOff | hdc3020_i2c_library.py:457-460 | Appends exactly the frame for 0x3066. |
| Driver.HDC3020.ReadIdentification | hdc3020_i2c_library.py:462-476 | Logs reads of 0x3683, 0x3684 and 0x3684 again, in that order. Returns the six data bytes in order iff all three checksums match. Otherwise it fails with "Checksum error". |
| Driver.HDC3020.Reset | hdc3020_i2c_library.py:478-481 | Appends exactly the frame for 0x30A2. |
| Driver.HDC3020.ConstantHeaterOnOff | hdc3020_i2c_library.py:483-492 | Reads the status register (0xF32D). It succeeds iff the checksum matches, and then returns 0 or 1, with 1 exactly when bit 5 of the first status byte is set. |
| Driver.HDC3020.ClearStatusregister | hdc3020_i2c_library.py:494-497 | Appends exactly the frame for 0x3041. |

## Left out

- `wire_write_read` and `wire_write` open the I2C bus through smbus2. The model records each transaction in the log and takes the answer bytes as a parameter. Bus errors, NACKs and short reads are not modelled.
- `get_dewpoint` is not modelled, because it needs `math.log` on floating-point values.
- Floating-point rounding in the conversions is not modelled. Temperature and humidity are exact reals.
- The example script `hdc3020_i2c_periodic_measurement.py` is not part of this model. It prints, sleeps and polls, and it calls two methods the library does not define.
- Checksum.CalcCrc8: requires `0 <= start` and `end <= |buf|`. Python would instead index from the end for a negative start, or raise IndexError past the end. No caller in the driver does either.
- Response lengths are taken as the counts the driver asks for (3 or 6). A short answer from the bus is not modelled.
- The bitwise operators are modelled arithmetically on unbounded non-negative integers: `<<` as doubling, `>>` as division, `& 0xFF` as `% 256`, and `^` as the recursive `Xor`. The payload mask `& 255` is also `% 256`. That holds for negative integers too, because Python's two's-complement `&` and Dafny's Euclidean `%` agree there.

## Findings

| source | as written | input that shows it | evidently intended | confidence | as-written member | corrected member |
|---|---|---|---|---|---|---|
| hdc3020_i2c_library.py:214-215 (and 224-225, 234-235, 244-245, 254-255, 321-322, 341-342) | `send_byte1 = send_byte1 & 255` reads a local name before it is assigned (the parameter is `send_bytes1`), so Python raises UnboundLocalError before the frame is written | any call, e.g. `change_set_low_alert(0x12, 0x34)` | mask the two payload bytes, then write `[hi, lo, b1, b2, crc8(b1, b2)]` | not executed; follows from Python's scoping rule for names assigned in a function | Driver.HDC3020.SendPayloadAsWritten | Driver.HDC3020.SendPayload |
