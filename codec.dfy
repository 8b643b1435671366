/** Bus frames and response groups: how a command word (and an optional
    two-byte payload) becomes bytes, when a three-byte response group is
    trusted, and how a 16-bit raw reading becomes a physical value. */
module Codec {
  import opened Bits
  import opened Checksum
  import opened Commands

  /** `b0 * 256 + b1`: the big-endian 16-bit value of two bytes. */
  function Word(hi: Byte, lo: Byte): (w: int)
    ensures 0 <= w < 0x10000
    ensures w / 256 == hi && w % 256 == lo
  {
    hi * 256 + lo
  }

  /** `[code >> 8, code & 0xFF]`: a bare command frame. */
  function CommandFrame(code: int): (f: seq<Byte>)
    requires 0 <= code < 0x10000
    ensures |f| == 2 && Word(f[0], f[1]) == code
  {
    [code / 256, code % 256]
  }

  /** A response group `{hi, lo, crc}` is trusted when its third byte is the
      checksum of the first two. */
  predicate GroupValid(g: seq<Byte>)
    requires |g| == 3
  {
    g[2] == Crc8(g[..2])
  }

  /** A trusted group is fixed by its two data bytes: for each pair of data
      bytes exactly one checksum byte is accepted, and it is `Crc8` of them. */
  lemma ValidGroupUnique(g: seq<Byte>, h: seq<Byte>)
    requires |g| == 3 && |h| == 3 && GroupValid(g) && GroupValid(h)
    requires g[0] == h[0] && g[1] == h[1]
    ensures g == h
  {
    assert g[..2] == h[..2];
  }

  /** A command frame followed by a two-byte payload and the payload's
      checksum. */
  function PayloadFrame(code: int, b1: Byte, b2: Byte): (f: seq<Byte>)
    requires 0 <= code < 0x10000
    ensures |f| == 5 && f[..2] == CommandFrame(code) && f[2] == b1 && f[3] == b2
    ensures GroupValid(f[2..])
  {
    var f := CommandFrame(code) + [b1, b2, Crc8([b1, b2])];
    assert f[2..][..2] == [b1, b2];
    f
  }

  lemma PayloadFrameBytes(code: int, b1: Byte, b2: Byte, crc: Byte)
    requires 0 <= code < 0x10000 && Crc8([b1, b2]) == crc
    ensures PayloadFrame(code, b1, b2) == [code / 256, code % 256, b1, b2, crc]
  {
  }

  /** The five-byte frame `deactivate_environmental_tracking` writes first,
      with its literal checksum byte 0xAC, is the payload frame that sets the
      low alert threshold to 0xFFFF. The frame is a parameter pinned by the
      precondition so that the proof works on its bytes symbolically. */
  lemma LowTrackingFrame(f: seq<Byte>)
    requires f == [0x61, 0x00, 0xFF, 0xFF, 0xAC]
    ensures f == PayloadFrame(Code(ChangeSetLowAlert), f[2], f[3])
  {
    var code := Code(ChangeSetLowAlert);
    assert code / 256 == f[0] && code % 256 == f[1];
    CheckValues();
    assert [f[2], f[3]] == [0xFF, 0xFF];
    PayloadFrameBytes(code, f[2], f[3], f[4]);
  }

  /** The second frame, with its literal checksum byte 0x81, is the payload
      frame that sets the high alert threshold to 0x0000. */
  lemma HighTrackingFrame(f: seq<Byte>)
    requires f == [0x61, 0x1D, 0x00, 0x00, 0x81]
    ensures f == PayloadFrame(Code(ChangeSetHighAlert), f[2], f[3])
  {
    var code := Code(ChangeSetHighAlert);
    assert code / 256 == f[0] && code % 256 == f[1];
    CheckValues();
    assert [f[2], f[3]] == [0x00, 0x00];
    PayloadFrameBytes(code, f[2], f[3], f[4]);
  }

  /** `-45 + 175 * raw / 65535` degrees Celsius. */
  function Temperature(raw: int): (t: real)
    requires 0 <= raw < 0x10000
    ensures -45.0 <= t <= 130.0
    ensures raw == 0 ==> t == -45.0
    ensures raw == 0xFFFF ==> t == 130.0
  {
    -45.0 + 175.0 * (raw as real) / 65535.0
  }

  /** `100 * raw / 65535` percent relative humidity. */
  function Humidity(raw: int): (h: real)
    requires 0 <= raw < 0x10000
    ensures 0.0 <= h <= 100.0
    ensures raw == 0 ==> h == 0.0
    ensures raw == 0xFFFF ==> h == 100.0
  {
    100.0 * (raw as real) / 65535.0
  }

  /** The raw reading a temperature stands for (the inverse transform). */
  function TemperatureRaw(t: real): real {
    (t + 45.0) * 65535.0 / 175.0
  }

  /** The raw reading a humidity stands for (the inverse transform). */
  function HumidityRaw(h: real): real {
    h * 65535.0 / 100.0
  }

  lemma TemperatureRoundTrip(raw: int)
    requires 0 <= raw < 0x10000
    ensures TemperatureRaw(Temperature(raw)) == raw as real
  {
  }

  lemma HumidityRoundTrip(raw: int)
    requires 0 <= raw < 0x10000
    ensures HumidityRaw(Humidity(raw)) == raw as real
  {
  }

  /** Both conversions are strictly increasing, so distinct raw readings give
      distinct physical values. */
  lemma ConversionsIncreasing(a: int, b: int)
    requires 0 <= a < b < 0x10000
    ensures Temperature(a) < Temperature(b)
    ensures Humidity(a) < Humidity(b)
  {
  }
}
