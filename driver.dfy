/** The HDC3020 driver object. The bus is abstract: every transaction the
    driver starts is appended to `log`, and the bytes the sensor answers with
    are passed in by the caller of each read operation. A checksum failure,
    which the driver raises as a `Warning`, becomes a `Warning` result. */
module Driver {
  import opened Bits
  import opened Checksum
  import opened Commands
  import opened Codec

  /** The status code the driver reports on a checksum mismatch. */
  const ChecksumStatus := 2

  /** `get_status_string`: the message for a status code. Codes 0..2 have
      their own message and larger codes share "Unknown error"; a negative
      code is not a key of the message table, so the lookup fails (`None`). */
  function StatusString(code: int): (s: Option<string>)
    ensures s.None? <==> code < 0
    ensures code >= 3 ==> s == Some("Unknown error")
    ensures 0 <= code < 3 ==> s.Some? && s.value != "Unknown error"
    ensures code == ChecksumStatus ==> s == Some("Checksum error")
  {
    if code < 3 then
      if code == 0 then Some("Success")
      else if code == 1 then Some("Not acknowledge error")
      else if code == 2 then Some("Checksum error")
      else None
    else Some("Unknown error")
  }

  /** Each known status code has its own message. */
  lemma StatusStringsDistinct(a: int, b: int)
    requires 0 <= a < 3 && 0 <= b < 3 && a != b
    ensures StatusString(a) != StatusString(b)
  {
  }

  /** `((b << 2) & 0xFF) >> 7`, the heater flag the driver extracts from the
      first status byte, is bit 5 of that byte. */
  lemma HeaterStatusBit(b: Byte)
    ensures 0 <= ((b * 4) % 256) / 128 <= 1
    ensures ((b * 4) % 256) / 128 == (b / 32) % 2
  {
    var q, s := b / 32, b % 32;
    var hi, bit := q / 2, q % 2;
    assert b * 4 == 256 * hi + (128 * bit + 4 * s);
    DivModUnique(b * 4, 256, hi, 128 * bit + 4 * s);
    DivModUnique(128 * bit + 4 * s, 128, bit, 4 * s);
  }

  /** What a driver method hands back to its caller: a value, the
      `Warning` it raises on a checksum failure, or any other exception the
      Python code raises, by its class name. */
  datatype Result<T> = Ok(value: T) | Warning(message: string) | Raised(error: string)

  datatype Measurement = Measurement(temperature: real, humidity: real)

  /** One bus transaction: a write, or a write followed by a read of `count`
      bytes, addressed to the device at `address`. */
  datatype Transfer =
    | Write(address: int, data: seq<Byte>)
    | WriteRead(address: int, data: seq<Byte>, count: nat)

  class HDC3020 {
    const address: int
    var log: seq<Transfer>

    constructor (address: int)
      ensures this.address == address && log == []
    {
      this.address := address;
      log := [];
    }

    /** `wire_write_read`: write `buf`, then read `count` bytes, which the
        sensor supplies as `response`. */
    method WireWriteRead(buf: seq<Byte>, count: nat, response: seq<Byte>) returns (r: seq<Byte>)
      requires |response| == count
      modifies this
      ensures log == old(log) + [WriteRead(address, buf, count)]
      ensures r == response
    {
      log := log + [WriteRead(address, buf, count)];
      r := response;
    }

    /** `wire_write`: write `buf`. */
    method WireWrite(buf: seq<Byte>)
      modifies this
      ensures log == old(log) + [Write(address, buf)]
    {
      log := log + [Write(address, buf)];
    }

    /** Send a bare command word. */
    method SendCommand(c: Command)
      modifies this
      ensures log == old(log) + [Write(address, CommandFrame(Code(c)))]
    {
      WireWrite(CommandFrame(Code(c)));
    }

    /** Send a command word with a two-byte payload and its checksum, each
        payload value first masked to a byte (`& 255`), as the `change_*`
        methods evidently mean to. */
    method SendPayload(c: Command, b1: int, b2: int)
      modifies this
      ensures log == old(log) + [Write(address, PayloadFrame(Code(c), b1 % 256, b2 % 256))]
    {
      var byte1, byte2 := b1 % 256, b2 % 256;
      var crc := CalcCrc8([byte1, byte2], 0, 2);
      assert [byte1, byte2][0..2] == [byte1, byte2];
      WireWrite(CommandFrame(Code(c)) + [byte1, byte2, crc]);
    }

    /** A `change_*` method as the library spells it. Its first statement,
        `send_byte1 = send_byte1 & 255`, makes `send_byte1` a local name of
        the method and reads it before anything is bound to it, so Python
        raises UnboundLocalError: the caller gets that exception and the bus
        sees nothing, where `SendPayload` would have appended a frame. */
    method SendPayloadAsWritten(c: Command, b1: int, b2: int) returns (r: Result<()>)
      modifies this
      ensures r == Raised("UnboundLocalError")
      ensures log == old(log)
      ensures log != old(log) + [Write(address, PayloadFrame(Code(c), b1 % 256, b2 % 256))]
    {
      r := Raised("UnboundLocalError");
    }

    /** Send a command word, read one three-byte group and return its data
        bytes if the checksum matches. */
    method ReadGroup(c: Command, response: seq<Byte>) returns (r: Result<(Byte, Byte)>)
      requires |response| == 3
      modifies this
      ensures log == old(log) + [WriteRead(address, CommandFrame(Code(c)), 3)]
      ensures r.Ok? <==> GroupValid(response)
      ensures r.Ok? ==> r.value == (response[0], response[1])
      ensures !r.Ok? ==> r == Warning("Checksum error")
    {
      var resp := WireWriteRead(CommandFrame(Code(c)), 3, response);
      var crc := CalcCrc8(resp, 0, 2);
      if resp[2] == crc {
        r := Ok((resp[0], resp[1]));
      } else {
        r := Warning(StatusString(ChecksumStatus).value);
      }
    }

    /** Send a command word, read two three-byte groups (temperature, then
        humidity) and convert them if both checksums match. */
    method ReadMeasurement(c: Command, response: seq<Byte>) returns (r: Result<Measurement>)
      requires |response| == 6
      modifies this
      ensures log == old(log) + [WriteRead(address, CommandFrame(Code(c)), 6)]
      ensures r.Ok? <==> GroupValid(response[..3]) && GroupValid(response[3..])
      ensures r.Ok? ==> r.value == Measurement(Temperature(Word(response[0], response[1])),
                                               Humidity(Word(response[3], response[4])))
      ensures !r.Ok? ==> r == Warning("Checksum error")
    {
      var resp := WireWriteRead(CommandFrame(Code(c)), 6, response);
      var crcT := CalcCrc8(resp, 0, 2);
      var crcH := CalcCrc8(resp, 3, 5);
      assert resp[..3][..2] == resp[0..2] && resp[3..][..2] == resp[3..5];
      if resp[2] == crcT && resp[5] == crcH {
        var temperature := Temperature(Word(resp[0], resp[1]));
        var humidity := Humidity(Word(resp[3], resp[4]));
        r := Ok(Measurement(temperature, humidity));
      } else {
        r := Warning(StatusString(ChecksumStatus).value);
      }
    }

    /** `get_single_shot_temp_hum`: trigger one conversion in noise mode
        `mode` (any value outside 0..2 selects mode 3) and read it. */
    method GetSingleShotTempHum(mode: int, response: seq<Byte>) returns (r: Result<Measurement>)
      requires |response| == 6
      modifies this
      ensures log == old(log) + [WriteRead(address, CommandFrame(Code(SingleShotCommand(mode))), 6)]
      ensures r.Ok? <==> GroupValid(response[..3]) && GroupValid(response[3..])
      ensures r.Ok? ==> r.value == Measurement(Temperature(Word(response[0], response[1])),
                                               Humidity(Word(response[3], response[4])))
      ensures r.Ok? ==> -45.0 <= r.value.temperature <= 130.0 && 0.0 <= r.value.humidity <= 100.0
      ensures !r.Ok? ==> r == Warning("Checksum error")
    {
      r := ReadMeasurement(SingleShotCommand(mode), response);
    }

    /** `get_periodic_measurement_temp_hum`: read the latest periodic sample. */
    method GetPeriodicMeasurementTempHum(response: seq<Byte>) returns (r: Result<Measurement>)
      requires |response| == 6
      modifies this
      ensures log == old(log) + [WriteRead(address, CommandFrame(Code(ReadPeriodicMeasurement)), 6)]
      ensures r.Ok? <==> GroupValid(response[..3]) && GroupValid(response[3..])
      ensures r.Ok? ==> r.value == Measurement(Temperature(Word(response[0], response[1])),
                                               Humidity(Word(response[3], response[4])))
      ensures r.Ok? ==> -45.0 <= r.value.temperature <= 130.0 && 0.0 <= r.value.humidity <= 100.0
      ensures !r.Ok? ==> r == Warning("Checksum error")
    {
      r := ReadMeasurement(ReadPeriodicMeasurement, response);
    }

    /** Read one group and convert it to a temperature. */
    method ReadTemperature(c: Command, response: seq<Byte>) returns (r: Result<real>)
      requires |response| == 3
      modifies this
      ensures log == old(log) + [WriteRead(address, CommandFrame(Code(c)), 3)]
      ensures r.Ok? <==> GroupValid(response)
      ensures r.Ok? ==> r.value == Temperature(Word(response[0], response[1]))
      ensures r.Ok? ==> -45.0 <= r.value <= 130.0
      ensures !r.Ok? ==> r == Warning("Checksum error")
    {
      var g := ReadGroup(c, response);
      if g.Ok? {
        r := Ok(Temperature(Word(g.value.0, g.value.1)));
      } else {
        r := Warning(g.message);
      }
    }

    /** Read one group and convert it to a relative humidity. */
    method ReadHumidity(c: Command, response: seq<Byte>) returns (r: Result<real>)
      requires |response| == 3
      modifies this
      ensures log == old(log) + [WriteRead(address, CommandFrame(Code(c)), 3)]
      ensures r.Ok? <==> GroupValid(response)
      ensures r.Ok? ==> r.value == Humidity(Word(response[0], response[1]))
      ensures r.Ok? ==> 0.0 <= r.value <= 100.0
      ensures !r.Ok? ==> r == Warning("Checksum error")
    {
      var g := ReadGroup(c, response);
      if g.Ok? {
        r := Ok(Humidity(Word(g.value.0, g.value.1)));
      } else {
        r := Warning(g.message);
      }
    }

    /** `get_periodic_measurement_min_temp`. */
    method GetPeriodicMeasurementMinTemp(response: seq<Byte>) returns (r: Result<real>)
      requires |response| == 3
      modifies this
      ensures log == old(log) + [WriteRead(address, CommandFrame(Code(ReadMinimumT)), 3)]
      ensures r.Ok? <==> GroupValid(response)
      ensures r.Ok? ==> r.value == Temperature(Word(response[0], response[1]))
      ensures !r.Ok? ==> r == Warning("Checksum error")
    {
      r := ReadTemperature(ReadMinimumT, response);
    }

    /** `get_periodic_measurement_max_temp`. */
    method GetPeriodicMeasurementMaxTemp(response: seq<Byte>) returns (r: Result<real>)
      requires |response| == 3
      modifies this
      ensures log == old(log) + [WriteRead(address, CommandFrame(Code(ReadMaximumT)), 3)]
      ensures r.Ok? <==> GroupValid(response)
      ensures r.Ok? ==> r.value == Temperature(Word(response[0], response[1]))
      ensures !r.Ok? ==> r == Warning("Checksum error")
    {
      r := ReadTemperature(ReadMaximumT, response);
    }

    /** `get_periodic_measurement_min_hum`. */
    method GetPeriodicMeasurementMinHum(response: seq<Byte>) returns (r: Result<real>)
      requires |response| == 3
      modifies this
      ensures log == old(log) + [WriteRead(address, CommandFrame(Code(ReadMinimumRH)), 3)]
      ensures r.Ok? <==> GroupValid(response)
      ensures r.Ok? ==> r.value == Humidity(Word(response[0], response[1]))
      ensures !r.Ok? ==> r == Warning("Checksum error")
    {
      r := ReadHumidity(ReadMinimumRH, response);
    }

    /** `get_periodic_measurement_max_hum`. */
    method GetPeriodicMeasurementMaxHum(response: seq<Byte>) returns (r: Result<real>)
      requires |response| == 3
      modifies this
      ensures log == old(log) + [WriteRead(address, CommandFrame(Code(ReadMaximumRH)), 3)]
      ensures r.Ok? <==> GroupValid(response)
      ensures r.Ok? ==> r.value == Humidity(Word(response[0], response[1]))
      ensures !r.Ok? ==> r == Warning("Checksum error")
    {
      r := ReadHumidity(ReadMaximumRH, response);
    }

    /** `change_default_device_power_on`. */
    method ChangeDefaultDevicePowerOn(b1: int, b2: int)
      modifies this
      ensures log == old(log) + [Write(address, PayloadFrame(Code(ChangeDefaultPowerOn), b1 % 256, b2 % 256))]
    {
      SendPayload(ChangeDefaultPowerOn, b1, b2);
    }

    /** `change_set_low_alert`. */
    method ChangeSetLowAlert(b1: int, b2: int)
      modifies this
      ensures log == old(log) + [Write(address, PayloadFrame(Code(Commands.ChangeSetLowAlert), b1 % 256, b2 % 256))]
    {
      SendPayload(Commands.ChangeSetLowAlert, b1, b2);
    }

    /** `change_clear_low_alert`. */
    method ChangeClearLowAlert(b1: int, b2: int)
      modifies this
      ensures log == old(log) + [Write(address, PayloadFrame(Code(Commands.ChangeClearLowAlert), b1 % 256, b2 % 256))]
    {
      SendPayload(Commands.ChangeClearLowAlert, b1, b2);
    }

    /** `change_set_high_alert`. */
    method ChangeSetHighAlert(b1: int, b2: int)
      modifies this
      ensures log == old(log) + [Write(address, PayloadFrame(Code(Commands.ChangeSetHighAlert), b1 % 256, b2 % 256))]
    {
      SendPayload(Commands.ChangeSetHighAlert, b1, b2);
    }

    /** `change_clear_high_alert`. */
    method ChangeClearHighAlert(b1: int, b2: int)
      modifies this
      ensures log == old(log) + [Write(address, PayloadFrame(Code(Commands.ChangeClearHighAlert), b1 % 256, b2 % 256))]
    {
      SendPayload(Commands.ChangeClearHighAlert, b1, b2);
    }

    /** `change_offset_value`. */
    method ChangeOffsetValue(b1: int, b2: int)
      modifies this
      ensures log == old(log) + [Write(address, PayloadFrame(Code(OffsetValue), b1 % 256, b2 % 256))]
    {
      SendPayload(OffsetValue, b1, b2);
    }

    /** `change_heater_current`. */
    method ChangeHeaterCurrent(b1: int, b2: int)
      modifies this
      ensures log == old(log) + [Write(address, PayloadFrame(Code(HeaterConfigure), b1 % 256, b2 % 256))]
    {
      SendPayload(HeaterConfigure, b1, b2);
    }

    /** `read_set_low_alert`. */
    method ReadSetLowAlert(response: seq<Byte>) returns (r: Result<(Byte, Byte)>)
      requires |response| == 3
      modifies this
      ensures log == old(log) + [WriteRead(address, CommandFrame(Code(Commands.ReadSetLowAlert)), 3)]
      ensures r.Ok? <==> GroupValid(response)
      ensures r.Ok? ==> r.value == (response[0], response[1])
      ensures !r.Ok? ==> r == Warning("Checksum error")
    {
      r := ReadGroup(Commands.ReadSetLowAlert, response);
    }

    /** `read_clear_low_alert`. */
    method ReadClearLowAlert(response: seq<Byte>) returns (r: Result<(Byte, Byte)>)
      requires |response| == 3
      modifies this
      ensures log == old(log) + [WriteRead(address, CommandFrame(Code(Commands.ReadClearLowAlert)), 3)]
      ensures r.Ok? <==> GroupValid(response)
      ensures r.Ok? ==> r.value == (response[0], response[1])
      ensures !r.Ok? ==> r == Warning("Checksum error")
    {
      r := ReadGroup(Commands.ReadClearLowAlert, response);
    }

    /** `read_set_high_alert`. */
    method ReadSetHighAlert(response: seq<Byte>) returns (r: Result<(Byte, Byte)>)
      requires |response| == 3
      modifies this
      ensures log == old(log) + [WriteRead(address, CommandFrame(Code(Commands.ReadSetHighAlert)), 3)]
      ensures r.Ok? <==> GroupValid(response)
      ensures r.Ok? ==> r.value == (response[0], response[1])
      ensures !r.Ok? ==> r == Warning("Checksum error")
    {
      r := ReadGroup(Commands.ReadSetHighAlert, response);
    }

    /** `read_clear_high_alert`. */
    method ReadClearHighAlert(response: seq<Byte>) returns (r: Result<(Byte, Byte)>)
      requires |response| == 3
      modifies this
      ensures log == old(log) + [WriteRead(address, CommandFrame(Code(Commands.ReadClearHighAlert)), 3)]
      ensures r.Ok? <==> GroupValid(response)
      ensures r.Ok? ==> r.value == (response[0], response[1])
      ensures !r.Ok? ==> r == Warning("Checksum error")
    {
      r := ReadGroup(Commands.ReadClearHighAlert, response);
    }

    /** `deactivate_environmental_tracking`: two literal five-byte writes,
        set-low alert to 0xFFFF and set-high alert to 0x0000, each with its
        checksum byte written out. */
    method DeactivateEnvironmentalTracking()
      modifies this
      ensures log == old(log) + [Write(address, PayloadFrame(Code(Commands.ChangeSetLowAlert), 0xFF, 0xFF)),
                                 Write(address, PayloadFrame(Code(Commands.ChangeSetHighAlert), 0x00, 0x00))]
    {
      WriteLowTrackingOff();
      WriteHighTrackingOff();
    }

    /** The first write of `deactivate_environmental_tracking`. */
    method WriteLowTrackingOff()
      modifies this
      ensures log == old(log) + [Write(address, PayloadFrame(Code(Commands.ChangeSetLowAlert), 0xFF, 0xFF))]
    {
      var low := CommandFrame(Code(Commands.ChangeSetLowAlert)) + [0xFF, 0xFF, 0xAC];
      LowTrackingFrame(low);
      WireWrite(low);
    }

    /** The second write of `deactivate_environmental_tracking`. */
    method WriteHighTrackingOff()
      modifies this
      ensures log == old(log) + [Write(address, PayloadFrame(Code(Commands.ChangeSetHighAlert), 0x00, 0x00))]
    {
      var high := CommandFrame(Code(Commands.ChangeSetHighAlert)) + [0x00, 0x00, 0x81];
      HighTrackingFrame(high);
      WireWrite(high);
    }

    /** `transfer_thresholds_into_non_volatile_memory`. */
    method TransferThresholdsIntoNonVolatileMemory()
      modifies this
      ensures log == old(log) + [Write(address, CommandFrame(Code(IntoNonVolatileMemory)))]
    {
      SendCommand(IntoNonVolatileMemory);
    }

    /** `read_offset_value`. */
    method ReadOffsetValue(response: seq<Byte>) returns (r: Result<(Byte, Byte)>)
      requires |response| == 3
      modifies this
      ensures log == old(log) + [WriteRead(address, CommandFrame(Code(OffsetValue)), 3)]
      ensures r.Ok? <==> GroupValid(response)
      ensures r.Ok? ==> r.value == (response[0], response[1])
      ensures !r.Ok? ==> r == Warning("Checksum error")
    {
      r := ReadGroup(OffsetValue, response);
    }

    /** `read_heater_current`. */
    method ReadHeaterCurrent(response: seq<Byte>) returns (r: Result<(Byte, Byte)>)
      requires |response| == 3
      modifies this
      ensures log == old(log) + [WriteRead(address, CommandFrame(Code(HeaterConfigure)), 3)]
      ensures r.Ok? <==> GroupValid(response)
      ensures r.Ok? ==> r.value == (response[0], response[1])
      ensures !r.Ok? ==> r == Warning("Checksum error")
    {
      r := ReadGroup(HeaterConfigure, response);
    }

    /** `start_periodic_measurement`: for a rate index in 0..4 write the one
        start word the ladder selects; for any other rate write nothing. */
    method StartPeriodicMeasurement(rate: int, mode: int)
      modifies this
      ensures 0 <= rate <= 4 ==>
        log == old(log) + [Write(address, CommandFrame(Code(PeriodicStartCommand(rate, mode).value)))]
      ensures 0 <= rate <= 4 ==>
        log[|old(log)|].data[0] == PeriodicHigh[rate] &&
        (log[|old(log)|].data[1] == 0xFF <==> !(0 <= mode <= 2))
      ensures !(0 <= rate <= 4) ==> log == old(log)
    {
      var selected := PeriodicStartCommand(rate, mode);
      if selected.Some? {
        SendCommand(selected.value);
      }
    }

    /** `end_periodic_measurement`. */
    method EndPeriodicMeasurement()
      modifies this
      ensures log == old(log) + [Write(address, CommandFrame(Code(Commands.EndPeriodicMeasurement)))]
    {
      SendCommand(Commands.EndPeriodicMeasurement);
    }

    /** `heater_on`. */
    method HeaterOn()
      modifies this
      ensures log == old(log) + [Write(address, CommandFrame(Code(Commands.HeaterOn)))]
    {
      SendCommand(Commands.HeaterOn);
    }

    /** `heater_off`. */
    method HeaterOff()
      modifies this
      ensures log == old(log) + [Write(address, CommandFrame(Code(Commands.HeaterOff)))]
    {
      SendCommand(Commands.HeaterOff);
    }

    /** `read_identification`: three one-group reads, the first with
        identification word 0 and the second and third both with word 1; the
        six data bytes are returned only if all three checksums match. */
    method ReadIdentification(r1: seq<Byte>, r2: seq<Byte>, r3: seq<Byte>) returns (r: Result<seq<Byte>>)
      requires |r1| == 3 && |r2| == 3 && |r3| == 3
      modifies this
      ensures log == old(log) + [WriteRead(address, CommandFrame(Code(ReadManufacturerId0)), 3),
                                 WriteRead(address, CommandFrame(Code(ReadManufacturerId1)), 3),
                                 WriteRead(address, CommandFrame(Code(ReadManufacturerId1)), 3)]
      ensures r.Ok? <==> GroupValid(r1) && GroupValid(r2) && GroupValid(r3)
      ensures r.Ok? ==> r.value == [r1[0], r1[1], r2[0], r2[1], r3[0], r3[1]]
      ensures !r.Ok? ==> r == Warning("Checksum error")
    {
      var resp1 := WireWriteRead(CommandFrame(Code(ReadManufacturerId0)), 3, r1);
      var resp2 := WireWriteRead(CommandFrame(Code(ReadManufacturerId1)), 3, r2);
      var resp3 := WireWriteRead(CommandFrame(Code(ReadManufacturerId1)), 3, r3);
      var crc1 := CalcCrc8(resp1, 0, 2);
      var crc2 := CalcCrc8(resp2, 0, 2);
      var crc3 := CalcCrc8(resp3, 0, 2);
      if resp1[2] == crc1 && resp2[2] == crc2 && resp3[2] == crc3 {
        r := Ok([resp1[0], resp1[1], resp2[0], resp2[1], resp3[0], resp3[1]]);
      } else {
        r := Warning(StatusString(ChecksumStatus).value);
      }
    }

    /** `reset`: soft reset. */
    method Reset()
      modifies this
      ensures log == old(log) + [Write(address, CommandFrame(Code(SoftReset)))]
    {
      SendCommand(SoftReset);
    }

    /** `constant_heater_on_off`: read the status register and report bit 5
        of its first byte (the heater status), found by shifting that byte
        left by two within eight bits and taking the top bit. */
    method ConstantHeaterOnOff(response: seq<Byte>) returns (r: Result<int>)
      requires |response| == 3
      modifies this
      ensures log == old(log) + [WriteRead(address, CommandFrame(Code(ReadStatusRegister)), 3)]
      ensures r.Ok? <==> GroupValid(response)
      ensures r.Ok? ==> (r.value == 0 || r.value == 1)
      ensures r.Ok? ==> (r.value == 1 <==> (response[0] / 32) % 2 == 1)
      ensures !r.Ok? ==> r == Warning("Checksum error")
    {
      var resp := WireWriteRead(CommandFrame(Code(ReadStatusRegister)), 3, response);
      var crc := CalcCrc8(resp, 0, 2);
      if resp[2] == crc {
        var b0 := resp[0];
        HeaterStatusBit(b0);
        var shifted: int := (b0 * 4) % 256;
        resp := resp[0 := shifted];
        r := Ok(resp[0] / 128);
      } else {
        r := Warning(StatusString(ChecksumStatus).value);
      }
    }

    /** `clear_statusregister`. */
    method ClearStatusregister()
      modifies this
      ensures log == old(log) + [Write(address, CommandFrame(Code(ClearStatusRegister)))]
    {
      SendCommand(ClearStatusRegister);
    }
  }
}
