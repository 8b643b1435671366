/** The driver's CRC-8: polynomial 0x31, initial value 0xFF, bits processed
    most significant first, no reflection and no final exclusive or (the
    parameter set the CRC catalogue calls CRC-8/NRSC-5, whatever the
    constants' "one-wire" names suggest).

    The driver keeps its accumulator in an unbounded Python integer and masks
    it to eight bits only once, after every byte has been processed. `RawCrc`
    models that accumulator; `Crc8` is the same bit-serial loop (each step
    tests bit 7 of `crc ^ cur`) on an eight-bit register that is masked after
    every shift; `RawCrcMasksToCrc8` proves the two agree. */
module Checksum {
  import opened Bits

  const Poly: nat := 0x31
  const Init: nat := 0xFF

  /** One pass of the inner loop on the unmasked accumulator `crc` and the
      (already shifted, also unmasked) data value `cur`. */
  function ShiftStep(crc: nat, cur: nat): nat {
    if Bit7(Xor(crc, cur)) then Xor(2 * crc, Poly) else 2 * crc
  }

  /** `n` passes of the inner loop for data byte `b`: pass `k` sees `b << k`. */
  function ShiftSteps(crc: nat, b: Byte, n: nat): nat {
    if n == 0 then crc else ShiftStep(ShiftSteps(crc, b, n - 1), b * Pow2(n - 1))
  }

  /** The accumulator after the outer loop has consumed `data`, before the
      final `& 0xFF`. */
  function RawCrc(data: seq<Byte>): nat {
    if data == [] then Init else ShiftSteps(RawCrc(data[..|data| - 1]), data[|data| - 1], 8)
  }

  /** One bit step of the eight-bit CRC register. */
  function MaskedStep(crc: Byte, cur: Byte): Byte {
    (if Bit7(Xor(crc, cur)) then Xor(2 * crc, Poly) else 2 * crc) % 256
  }

  function MaskedSteps(crc: Byte, b: Byte, n: nat): Byte {
    if n == 0 then crc else MaskedStep(MaskedSteps(crc, b, n - 1), (b * Pow2(n - 1)) % 256)
  }

  /** CRC-8 (poly 0x31, init 0xFF) of `data`, with the register kept to eight
      bits after every shift. */
  function Crc8(data: seq<Byte>): Byte {
    if data == [] then Init else MaskedSteps(Crc8(data[..|data| - 1]), data[|data| - 1], 8)
  }

  lemma DoubleMod256(x: nat)
    ensures (2 * x) % 256 == (2 * (x % 256)) % 256
  {
    DivModUnique(2 * x, 256, 2 * (x / 256) + (2 * (x % 256)) / 256, (2 * (x % 256)) % 256);
  }

  lemma Pow2Values()
    ensures Pow2(1) == 2 && Pow2(2) == 4 && Pow2(3) == 8 && Pow2(4) == 16
    ensures Pow2(5) == 32 && Pow2(6) == 64 && Pow2(7) == 128 && Pow2(8) == 256
  {
  }

  /** The low byte of `a ^ b` is the exclusive or of their low bytes. */
  lemma XorLowByte(a: nat, b: nat)
    ensures Xor(a, b) % 256 == Xor(a % 256, b % 256)
  {
    Pow2Values();
    XorLow(a, b, 8);
  }

  /** Bit 7 of `crc ^ cur` depends only on the low bytes of its operands. */
  lemma Bit7Mask(crc: nat, cur: nat)
    ensures Bit7(Xor(crc, cur)) == Bit7(Xor(crc % 256, cur % 256))
  {
    var x, lo := Xor(crc, cur), Xor(crc % 256, cur % 256);
    XorLowByte(crc, cur);
    assert x % 256 == lo;
    DivModUnique(lo, 256, 0, lo);
  }

  /** `((2 * crc) ^ Poly) & 0xFF` depends only on the low byte of `crc`. */
  lemma FeedbackMask(crc: nat)
    ensures Xor(2 * crc, Poly) % 256 == Xor(2 * (crc % 256), Poly) % 256
  {
    DoubleMod256(crc);
    XorLowByte(2 * crc, Poly);
    XorLowByte(2 * (crc % 256), Poly);
  }

  /** Masking the accumulator after a step is the same as masking it before. */
  lemma StepMask(crc: nat, cur: nat)
    ensures ShiftStep(crc, cur) % 256 == MaskedStep(crc % 256, cur % 256)
  {
    Bit7Mask(crc, cur);
    FeedbackMask(crc);
    DoubleMod256(crc);
  }

  lemma {:induction false} StepsMask(crc: nat, b: Byte, n: nat)
    ensures ShiftSteps(crc, b, n) % 256 == MaskedSteps(crc % 256, b, n)
  {
    if n > 0 {
      var prev, cur := ShiftSteps(crc, b, n - 1), b * Pow2(n - 1);
      StepsMask(crc, b, n - 1);
      StepMask(prev, cur);
      var masked := MaskedSteps(crc % 256, b, n - 1);
      assert masked == prev % 256;
      assert ShiftSteps(crc, b, n) == ShiftStep(prev, cur);
      assert MaskedSteps(crc % 256, b, n) == MaskedStep(masked, cur % 256);
    }
  }

  /** Masking once after both loops yields the eight-bit register CRC-8. */
  lemma {:induction false} RawCrcMasksToCrc8(data: seq<Byte>)
    ensures RawCrc(data) % 256 == Crc8(data)
  {
    if data != [] {
      var init := data[..|data| - 1];
      RawCrcMasksToCrc8(init);
      StepsMask(RawCrc(init), data[|data| - 1], 8);
    }
  }

  lemma ShiftedByte(b: Byte, k: nat)
    ensures b * Pow2(k + 1) == 2 * (b * Pow2(k))
  {
  }

  lemma RawCrcSnoc(data: seq<Byte>, b: Byte)
    ensures RawCrc(data + [b]) == ShiftSteps(RawCrc(data), b, 8)
  {
    assert (data + [b])[..|data|] == data;
  }

  /** `calc_crc8(buf, start, end)`: the checksum of `buf[start..end]`, an
      empty range (start >= end) giving the initial value. */
  method CalcCrc8(buf: seq<Byte>, start: int, end: int) returns (crc: int)
    requires 0 <= start && end <= |buf|
    ensures 0 <= crc < 256
    ensures crc == Crc8(if start <= end then buf[start..end] else [])
  {
    var crcVal: nat := Init;
    var j := start;
    ghost var done: seq<Byte> := [];
    while j < end
      invariant start <= end ==> start <= j <= end && done == buf[start..j]
      invariant start > end ==> j == start && done == []
      invariant crcVal == RawCrc(done)
    {
      var curVal: nat := buf[j];
      ghost var before := crcVal;
      var k := 0;
      while k < 8
        invariant 0 <= k <= 8
        invariant curVal == buf[j] * Pow2(k)
        invariant crcVal == ShiftSteps(before, buf[j], k)
      {
        assert ShiftSteps(before, buf[j], k + 1) == ShiftStep(crcVal, curVal);
        if Bit7(Xor(crcVal, curVal)) {
          crcVal := Xor(2 * crcVal, Poly);
        } else {
          crcVal := 2 * crcVal;
        }
        ShiftedByte(buf[j], k);
        curVal := 2 * curVal;
        k := k + 1;
      }
      RawCrcSnoc(done, buf[j]);
      done := done + [buf[j]];
      assert done == buf[start..j + 1];
      j := j + 1;
    }
    crc := crcVal % 256;
    RawCrcMasksToCrc8(done);
  }

  /** `y ^ 6` in terms of the bits of `y`. */
  lemma XorSix(y: nat)
    ensures Xor(y, 0x06) == 8 * (y / 8) + 4 * (1 - (y / 4) % 2) + 2 * (1 - (y / 2) % 2) + y % 2
  {
    var y1, y2, y3 := y / 2, y / 4, y / 8;
    assert y1 / 2 == y2 && y2 / 2 == y3;
    XorZero(y3);
    XorBitStep(y2, 0x01, y3, 0, y3);
    XorBitStep(y1, 0x03, y2, 0x01, 2 * y3 + 1 - y2 % 2);
    XorBitStep(y, 0x06, y1, 0x03, 4 * y3 + 2 * (1 - y2 % 2) + 1 - y1 % 2);
  }

  /** The arithmetic behind `XorPoly`, kept apart from `Xor`. */
  lemma FlipBits(x: nat)
    requires x % 2 == 0
    ensures var y1, y2, y3 := x / 2, x / 4, x / 8;
      2 * (4 * (8 * (y3 / 8) + 4 * (1 - (y3 / 4) % 2) + 2 * (1 - (y3 / 2) % 2) + y3 % 2) + 2 * (y2 % 2) + y1 % 2) + 1
      == x + 1 + (if (x / 16) % 2 == 1 then -16 else 16) + (if (x / 32) % 2 == 1 then -32 else 32)
  {
    var y1, y2, y3 := x / 2, x / 4, x / 8;
    assert y1 / 2 == y2 && y2 / 2 == y3;
    assert y3 / 8 == x / 64 && y3 / 4 == x / 32 && y3 / 2 == x / 16;
    assert x == 2 * y1 && y1 == 2 * y2 + y1 % 2 && y2 == 2 * y3 + y2 % 2;
    assert y3 == 2 * (y3 / 2) + y3 % 2 && y3 / 2 == 2 * (y3 / 4) + (y3 / 2) % 2;
    assert y3 / 4 == 2 * (y3 / 8) + (y3 / 4) % 2;
  }

  /** `x ^ 0x31` for even `x` flips bits 0, 4 and 5. */
  lemma XorPoly(x: nat)
    requires x % 2 == 0
    ensures Xor(x, 0x31) == x + 1 + (if (x / 16) % 2 == 1 then -16 else 16) + (if (x / 32) % 2 == 1 then -32 else 32)
  {
    var y1, y2, y3 := x / 2, x / 4, x / 8;
    assert y1 / 2 == y2 && y2 / 2 == y3;
    XorSix(y3);
    var v3 := Xor(y3, 0x06);
    XorBitStep(y2, 0x0C, y3, 0x06, v3);
    XorBitStep(y1, 0x18, y2, 0x0C, 2 * v3 + y2 % 2);
    XorBitStep(x, 0x31, y1, 0x18, 4 * v3 + 2 * (y2 % 2) + y1 % 2);
    FlipBits(x);
  }

  /** One register step in plain arithmetic: shift left, and when bit 7 of
      `crc ^ cur` is set flip bits 0, 4 and 5 (the polynomial 0x31). */
  function ArithStep(crc: Byte, cur: Byte): Byte {
    var x := (2 * crc) % 256;
    if (crc >= 128) != (cur >= 128)
    then x + 1 + (if (x / 16) % 2 == 1 then -16 else 16) + (if (x / 32) % 2 == 1 then -32 else 32)
    else x
  }

  function ArithSteps(crc: Byte, b: Byte, n: nat): Byte {
    if n == 0 then crc else ArithStep(ArithSteps(crc, b, n - 1), (b * Pow2(n - 1)) % 256)
  }

  lemma Bit7OfBytes(crc: Byte, cur: Byte)
    ensures Bit7(Xor(crc, cur)) == ((crc >= 128) != (cur >= 128))
  {
    Pow2Values();
    XorTop(crc, cur, 7);
    var v := Xor(crc, cur);
    DivModUnique(v, 256, 0, v);
  }

  lemma FeedbackArith(crc: Byte)
    ensures var x := (2 * crc) % 256;
      Xor(2 * crc, Poly) % 256
      == x + 1 + (if (x / 16) % 2 == 1 then -16 else 16) + (if (x / 32) % 2 == 1 then -32 else 32)
  {
    var x := (2 * crc) % 256;
    if crc < 128 {
      DivModUnique(2 * crc, 256, 0, 2 * crc);
    } else {
      DivModUnique(2 * crc, 256, 1, 2 * crc - 256);
    }
    assert x % 2 == 0;
    XorLowByte(2 * crc, Poly);
    XorPoly(x);
  }

  lemma MaskedStepArith(crc: Byte, cur: Byte)
    ensures MaskedStep(crc, cur) == ArithStep(crc, cur)
  {
    Bit7OfBytes(crc, cur);
    FeedbackArith(crc);
  }

  lemma {:induction false} MaskedStepsArith(crc: Byte, b: Byte, n: nat)
    ensures MaskedSteps(crc, b, n) == ArithSteps(crc, b, n)
  {
    if n > 0 {
      MaskedStepsArith(crc, b, n - 1);
      MaskedStepArith(MaskedSteps(crc, b, n - 1), (b * Pow2(n - 1)) % 256);
    }
  }

  lemma CrcSnoc(data: seq<Byte>, b: Byte)
    ensures Crc8(data + [b]) == MaskedSteps(Crc8(data), b, 8)
  {
    assert (data + [b])[..|data|] == data;
  }

  lemma CrcPair(b0: Byte, b1: Byte, mid: Byte, crc: Byte)
    requires ArithSteps(Init, b0, 8) == mid && ArithSteps(mid, b1, 8) == crc
    ensures Crc8([b0, b1]) == crc
  {
    MaskedStepsArith(Init, b0, 8);
    MaskedStepsArith(mid, b1, 8);
    CrcSnoc([], b0);
    assert [] + [b0] == [b0];
    CrcSnoc([b0], b1);
    assert [b0] + [b1] == [b0, b1];
  }

  /** Each check value below follows the register bit by bit through the
      arithmetic form of the step. */
  lemma RegisterFFThroughFF()
    ensures ArithSteps(0xFF, 0xFF, 8) == 0x00
  {
    Pow2Values();
    assert ArithSteps(0xFF, 0xFF, 1) == 0xFE;
    assert ArithSteps(0xFF, 0xFF, 2) == 0xFC;
    assert ArithSteps(0xFF, 0xFF, 3) == 0xF8;
    assert ArithSteps(0xFF, 0xFF, 4) == 0xF0;
    assert ArithSteps(0xFF, 0xFF, 5) == 0xE0;
    assert ArithSteps(0xFF, 0xFF, 6) == 0xC0;
    assert ArithSteps(0xFF, 0xFF, 7) == 0x80;
  }

  lemma Register00ThroughFF()
    ensures ArithSteps(0x00, 0xFF, 8) == 0xAC
  {
    Pow2Values();
    assert ArithSteps(0x00, 0xFF, 1) == 0x31;
    assert ArithSteps(0x00, 0xFF, 2) == 0x53;
    assert ArithSteps(0x00, 0xFF, 3) == 0x97;
    assert ArithSteps(0x00, 0xFF, 4) == 0x2E;
    assert ArithSteps(0x00, 0xFF, 5) == 0x6D;
    assert ArithSteps(0x00, 0xFF, 6) == 0xEB;
    assert ArithSteps(0x00, 0xFF, 7) == 0xD6;
  }

  lemma CrcOfFFFF()
    ensures Crc8([0xFF, 0xFF]) == 0xAC
  {
    RegisterFFThroughFF();
    Register00ThroughFF();
    CrcPair(0xFF, 0xFF, 0x00, 0xAC);
  }

  lemma RegisterFFThrough00()
    ensures ArithSteps(0xFF, 0x00, 8) == 0xAC
  {
    Pow2Values();
    assert ArithSteps(0xFF, 0x00, 1) == 0xCF;
    assert ArithSteps(0xFF, 0x00, 2) == 0xAF;
    assert ArithSteps(0xFF, 0x00, 3) == 0x6F;
    assert ArithSteps(0xFF, 0x00, 4) == 0xDE;
    assert ArithSteps(0xFF, 0x00, 5) == 0x8D;
    assert ArithSteps(0xFF, 0x00, 6) == 0x2B;
    assert ArithSteps(0xFF, 0x00, 7) == 0x56;
  }

  lemma RegisterACThrough00()
    ensures ArithSteps(0xAC, 0x00, 8) == 0x81
  {
    Pow2Values();
    assert ArithSteps(0xAC, 0x00, 1) == 0x69;
    assert ArithSteps(0xAC, 0x00, 2) == 0xD2;
    assert ArithSteps(0xAC, 0x00, 3) == 0x95;
    assert ArithSteps(0xAC, 0x00, 4) == 0x1B;
    assert ArithSteps(0xAC, 0x00, 5) == 0x36;
    assert ArithSteps(0xAC, 0x00, 6) == 0x6C;
    assert ArithSteps(0xAC, 0x00, 7) == 0xD8;
  }

  lemma CrcOf0000()
    ensures Crc8([0x00, 0x00]) == 0x81
  {
    RegisterFFThrough00();
    RegisterACThrough00();
    CrcPair(0x00, 0x00, 0xAC, 0x81);
  }

  lemma RegisterFFThroughBE()
    ensures ArithSteps(0xFF, 0xBE, 8) == 0x0C
  {
    Pow2Values();
    assert ArithSteps(0xFF, 0xBE, 1) == 0xFE;
    assert ArithSteps(0xFF, 0xBE, 2) == 0xCD;
    assert ArithSteps(0xFF, 0xBE, 3) == 0x9A;
    assert ArithSteps(0xFF, 0xBE, 4) == 0x34;
    assert ArithSteps(0xFF, 0xBE, 5) == 0x59;
    assert ArithSteps(0xFF, 0xBE, 6) == 0x83;
    assert ArithSteps(0xFF, 0xBE, 7) == 0x06;
  }

  lemma Register0CThroughEF()
    ensures ArithSteps(0x0C, 0xEF, 8) == 0x92
  {
    Pow2Values();
    assert ArithSteps(0x0C, 0xEF, 1) == 0x29;
    assert ArithSteps(0x0C, 0xEF, 2) == 0x63;
    assert ArithSteps(0x0C, 0xEF, 3) == 0xF7;
    assert ArithSteps(0x0C, 0xEF, 4) == 0xDF;
    assert ArithSteps(0x0C, 0xEF, 5) == 0xBE;
    assert ArithSteps(0x0C, 0xEF, 6) == 0x7C;
    assert ArithSteps(0x0C, 0xEF, 7) == 0xC9;
  }

  lemma CrcOfBEEF()
    ensures Crc8([0xBE, 0xEF]) == 0x92
  {
    RegisterFFThroughBE();
    Register0CThroughEF();
    CrcPair(0xBE, 0xEF, 0x0C, 0x92);
  }

  /** Known check values: the literal checksum bytes the driver writes when it
      disables environmental tracking, and the 0xBEEF example. */
  lemma CheckValues()
    ensures Crc8([0xFF, 0xFF]) == 0xAC
    ensures Crc8([0x00, 0x00]) == 0x81
    ensures Crc8([0xBE, 0xEF]) == 0x92
  {
    CrcOfFFFF();
    CrcOf0000();
    CrcOfBEEF();
  }
}
