/**
 * The CRC-16 that data_api.py asks crcmod for: `mkCrcFun(0x8005, initCrc=0, rev=True,
 * xorOut=0xFFFFFFFF)`, written out bit by bit.
 *
 * A reflected CRC shifts its register right, so the generator x^16 + x^15 + x^2 + 1 (0x8005)
 * appears bit-reversed as 0xA001. In crcmod's convention `initCrc` is the CRC of the empty
 * string, so the shift register starts at `initCrc ^ xorOut` and the result is the register
 * XORed with `xorOut`; `xorOut` is masked to the 16-bit width.
 */
module Crc16 {
  import opened Common

  const ReflectedPoly: Word := 0xA001
  const InitCrc: Word := 0x0000
  const XorOut: Word := 0xFFFF

  /** One bit of the register shifted out, with the generator folded in when that bit is 1. */
  function ShiftBit(r: Word): Word {
    if r & 1 == 1 then (r >> 1) ^ ReflectedPoly else r >> 1
  }

  function ShiftBits(r: Word, n: nat): Word
    decreases n
  {
    if n == 0 then r else ShiftBits(ShiftBit(r), n - 1)
  }

  /** A byte enters the low end of the register and is shifted through, least significant bit first. */
  function FeedByte(r: Word, b: Byte): Word {
    ShiftBits(r ^ (b as Word), 8)
  }

  /** The register after feeding `data` in order, starting from `r`. */
  function Register(r: Word, data: seq<Byte>): Word
    decreases |data|
  {
    if data == [] then r else Register(FeedByte(r, data[0]), data[1..])
  }

  /** `calculate_crc(data)` */
  function CalculateCrc(data: seq<Byte>): (crc: Word)
    ensures data == [] ==> crc == InitCrc
  {
    XorOut ^ Register(InitCrc ^ XorOut, data)
  }

  /** The data with byte `i` replaced by `x` (unchanged when there is no byte `i`). */
  function ByteChanged(data: seq<Byte>, i: nat, x: Byte): seq<Byte> {
    if i < |data| then data[i := x] else data
  }

  /**
   * `validate_crc(data, provided_crc)`: the data's CRC is the provided one. An accepted CRC
   * rejects every copy of the data with one byte changed.
   */
  predicate ValidateCrc(data: seq<Byte>, provided: Word): (ok: bool)
    ensures ok ==> forall i: nat, x: Byte :: i < |data| && x != data[i] ==> CalculateCrc(ByteChanged(data, i, x)) != provided
  {
    EveryByteChangeChangesCrc(data);
    CalculateCrc(data) == provided
  }

  /** The catalogue check value of this parameter set (CRC-16/USB) over the ASCII digits "123456789". */
  lemma CheckValue()
    ensures CalculateCrc([0x31, 0x32, 0x33, 0x34, 0x35, 0x36, 0x37, 0x38, 0x39]) == 0xB4C8
  {
    var digits: seq<Byte> := [0x31, 0x32, 0x33, 0x34, 0x35, 0x36, 0x37, 0x38, 0x39];
    var after: seq<Word> := [0x947E, 0xF595, 0x7A75, 0x30BA, 0xA471, 0x32E4, 0x9D73, 0x37DD, 0x4B37];
    assert FeedByte(0xFFFF, 0x31) == after[0];
    assert FeedByte(after[0], 0x32) == after[1];
    assert FeedByte(after[1], 0x33) == after[2];
    assert FeedByte(after[2], 0x34) == after[3];
    assert FeedByte(after[3], 0x35) == after[4];
    assert FeedByte(after[4], 0x36) == after[5];
    assert FeedByte(after[5], 0x37) == after[6];
    assert FeedByte(after[6], 0x38) == after[7];
    assert FeedByte(after[7], 0x39) == after[8];
    assert Register(after[8], []) == 0x4B37;
    assert Register(after[7], digits[8..]) == 0x4B37;
    assert Register(after[6], digits[7..]) == 0x4B37;
    assert Register(after[5], digits[6..]) == 0x4B37;
    assert Register(after[4], digits[5..]) == 0x4B37;
    assert Register(after[3], digits[4..]) == 0x4B37;
    assert Register(after[2], digits[3..]) == 0x4B37;
    assert Register(after[1], digits[2..]) == 0x4B37;
    assert Register(after[0], digits[1..]) == 0x4B37;
    assert Register(0xFFFF, digits) == 0x4B37;
  }

  lemma ShiftBitInjective(a: Word, b: Word)
    requires ShiftBit(a) == ShiftBit(b)
    ensures a == b
  {
  }

  lemma {:induction false} ShiftBitsInjective(a: Word, b: Word, n: nat)
    requires ShiftBits(a, n) == ShiftBits(b, n)
    ensures a == b
    decreases n
  {
    if n > 0 {
      ShiftBitsInjective(ShiftBit(a), ShiftBit(b), n - 1);
      ShiftBitInjective(a, b);
    }
  }

  /** Different registers stay different after the same data. */
  lemma {:induction false} RegisterInjective(a: Word, b: Word, data: seq<Byte>)
    requires a != b
    ensures Register(a, data) != Register(b, data)
    decreases |data|
  {
    if data != [] {
      if FeedByte(a, data[0]) == FeedByte(b, data[0]) {
        ShiftBitsInjective(a ^ (data[0] as Word), b ^ (data[0] as Word), 8);
      }
      RegisterInjective(FeedByte(a, data[0]), FeedByte(b, data[0]), data[1..]);
    }
  }

  /** Feeding `p + q` is feeding `p`, then `q`. */
  lemma {:induction false} RegisterConcat(r: Word, p: seq<Byte>, q: seq<Byte>)
    ensures Register(r, p + q) == Register(Register(r, p), q)
    decreases |p|
  {
    if p == [] {
      assert p + q == q;
    } else {
      assert (p + q)[1..] == p[1..] + q;
      RegisterConcat(FeedByte(r, p[0]), p[1..], q);
    }
  }

  /** Two different bytes fed into the same register leave different registers. */
  lemma FeedByteInjective(r: Word, x: Byte, y: Byte)
    requires x != y
    ensures FeedByte(r, x) != FeedByte(r, y)
  {
    if FeedByte(r, x) == FeedByte(r, y) {
      ShiftBitsInjective(r ^ (x as Word), r ^ (y as Word), 8);
    }
  }

  /** Feeding `p + [x] + q` and `p + [y] + q` ends in different registers when `x != y`. */
  lemma RegisterDiffersAt(r: Word, p: seq<Byte>, x: Byte, y: Byte, q: seq<Byte>)
    requires x != y
    ensures Register(r, p + ([x] + q)) != Register(r, p + ([y] + q))
  {
    RegisterConcat(r, p, [x] + q);
    RegisterConcat(r, p, [y] + q);
    var mid := Register(r, p);
    assert ([x] + q)[1..] == q && ([y] + q)[1..] == q;
    FeedByteInjective(mid, x, y);
    RegisterInjective(FeedByte(mid, x), FeedByte(mid, y), q);
  }

  /**
   * Changing any one byte of the data changes the CRC: every single-bit error, and every
   * error burst confined to one byte, is caught by `ValidateCrc` against the original CRC.
   */
  lemma SingleByteChangeDetected(data: seq<Byte>, i: nat, x: Byte)
    requires i < |data| && x != data[i]
    ensures CalculateCrc(data[i := x]) != CalculateCrc(data)
    ensures !ValidateCrc(data[i := x], CalculateCrc(data))
  {
    ByteChangeChangesCrc(data, i, x);
  }

  /** Every one-byte change of the data changes its CRC. */
  lemma EveryByteChangeChangesCrc(data: seq<Byte>)
    ensures forall i: nat, x: Byte :: i < |data| && x != data[i] ==> CalculateCrc(ByteChanged(data, i, x)) != CalculateCrc(data)
  {
    forall i: nat, x: Byte | i < |data| && x != data[i]
      ensures CalculateCrc(ByteChanged(data, i, x)) != CalculateCrc(data)
    {
      ByteChangeChangesCrc(data, i, x);
    }
  }

  lemma ByteChangeChangesCrc(data: seq<Byte>, i: nat, x: Byte)
    requires i < |data| && x != data[i]
    ensures CalculateCrc(data[i := x]) != CalculateCrc(data)
  {
    assert data == data[..i] + ([data[i]] + data[i + 1..]);
    assert data[i := x] == data[..i] + ([x] + data[i + 1..]);
    RegisterDiffersAt(InitCrc ^ XorOut, data[..i], x, data[i], data[i + 1..]);
  }
}
