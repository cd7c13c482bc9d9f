/**
 * The wire codec of data_api.py: Modbus register decoding (`decode_data`, `read_modbus`) and
 * the proprietary CRC-checked frame (`read_custom_data`).
 *
 * Registers are big-endian 16-bit words (Modbus Application Protocol V1.1b3, section 6.3,
 * Read Holding Registers); a 32-bit quantity is taken low word first, so `[w0, w1]` is
 * `w1 * 65536 + w0`. A FLOAT32 is kept as its 32-bit pattern; reading that pattern as a number
 * is the binary32 interchange format of IEEE 754-2008, section 3.4, and is not modelled here.
 */
module DataApi {
  import opened Common
  import Crc16

  datatype DataType = UInt16 | UInt32 | Float32

  /** A decoded quantity: an unsigned integer, or the bit pattern of a binary32 float. */
  datatype Value = Int(bits: bv32) | Float(bits: bv32)

  /** How many registers `read_modbus` requests for each type. */
  function RegisterCount(t: DataType): nat {
    if t == UInt16 then 1 else 2
  }

  /** The 32-bit word of a low-word-first register pair. */
  function Word32(lo: Word, hi: Word): bv32 {
    ((hi as bv32) << 16) | (lo as bv32)
  }

  function MakeValue(t: DataType, bits: bv32): Value {
    if t == Float32 then Float(bits) else Int(bits)
  }

  /**
   * `decode_data(data, data_type)`: `None` is the failed `assert` on the register count.
   */
  function DecodeData(registers: seq<Word>, t: DataType): (r: Option<Value>)
    ensures r.Some? <==> |registers| == RegisterCount(t)
    ensures r.Some? && t == UInt16 ==> r.value == Int(registers[0] as bv32)
    ensures r.Some? ==> (r.value.Float? <==> t == Float32)
  {
    match t
    case UInt16 =>
      if |registers| == 1 then Some(Int(registers[0] as bv32)) else None
    case UInt32 =>
      if |registers| == 2 then Some(Int(Word32(registers[0], registers[1]))) else None
    case Float32 =>
      if |registers| == 2 then Some(Float(Word32(registers[0], registers[1]))) else None
  }

  /** A 32-bit quantity is `registers[1] * 65536 + registers[0]`. */
  lemma DecodeLowWordFirst(registers: seq<Word>, t: DataType)
    requires t != UInt16 && |registers| == 2
    ensures DecodeData(registers, t).value.bits == (registers[1] as bv32) * 0x10000 + (registers[0] as bv32)
  {
    var lo, hi := registers[0], registers[1];
    assert DecodeData(registers, t).value.bits == Word32(lo, hi);
    Word32Sum(lo, hi);
  }

  lemma Word32Sum(lo: Word, hi: Word)
    ensures Word32(lo, hi) == (hi as bv32) * 0x10000 + (lo as bv32)
  {
  }

  /** The register pair a device sends for a 32-bit quantity: low word first. */
  function EncodeRegisters(x: bv32): seq<Word> {
    [(x & 0xFFFF) as Word, (x >> 16) as Word]
  }

  /** Decoding what the device encodes gives the quantity back. */
  lemma DecodeEncode(x: bv32)
    ensures DecodeData(EncodeRegisters(x), UInt32) == Some(Int(x))
    ensures DecodeData(EncodeRegisters(x), Float32) == Some(Float(x))
  {
    JoinSplit(x);
  }

  lemma JoinSplit(x: bv32)
    ensures Word32((x & 0xFFFF) as Word, (x >> 16) as Word) == x
  {
  }

  /** Encoding a decoded register pair gives the registers back. */
  lemma EncodeDecode(registers: seq<Word>)
    requires |registers| == 2
    ensures EncodeRegisters(Word32(registers[0], registers[1])) == registers
  {
    var lo, hi := registers[0], registers[1];
    SplitWord32(lo, hi);
    assert EncodeRegisters(Word32(lo, hi)) == [lo, hi];
    assert registers == [lo, hi];
  }

  /** The low and high registers are recovered from the 32-bit word. */
  lemma SplitWord32(lo: Word, hi: Word)
    ensures (Word32(lo, hi) & 0xFFFF) as Word == lo && (Word32(lo, hi) >> 16) as Word == hi
  {
  }

  /** The pair `[0x0000, 0x3F80]` decodes as FLOAT32 to the pattern 0x3F800000, which is 1.0. */
  lemma DecodeOnePointZero()
    ensures DecodeData([0x0000, 0x3F80], Float32) == Some(Float(0x3F800000))
  {
    assert Word32(0x0000, 0x3F80) == 0x3F800000;
  }

  /** What the transport does with a read of `count` holding registers at `address`. */
  datatype Reply = Raised | ErrorResponse | Registers(registers: seq<Word>)

  /**
   * `read_modbus(client, address, data_type)`: one read of `RegisterCount(t)` registers.
   * An error response, an exception from the transport, or a failed decode all give `None`
   * (the source's `[]`).
   */
  function ReadModbus(transport: (nat, nat) -> Reply, address: nat, t: DataType): (r: Option<Value>)
    ensures r.Some? <==>
      transport(address, RegisterCount(t)).Registers? &&
      |transport(address, RegisterCount(t)).registers| == RegisterCount(t)
    ensures r.Some? ==> r == DecodeData(transport(address, RegisterCount(t)).registers, t)
  {
    match transport(address, RegisterCount(t))
    case Raised => None
    case ErrorResponse => None
    case Registers(registers) => DecodeData(registers, t)
  }

  /**
   * The configured frame layout: `CUSTOM_PROTOCO_DATA_BYTE_COUNT`,
   * `CUSTOM_PROTOCO_ADDITIONAL_BYTE_COUNT` and `DISABLE_CRC`.
   */
  datatype FrameLayout = FrameLayout(dataByteCount: nat, additionalByteCount: nat, disableCrc: bool)

  function TotalCount(layout: FrameLayout): nat {
    layout.dataByteCount + layout.additionalByteCount
  }

  /** The payload starts this many bytes into the frame. */
  const PayloadOffset: nat := 5

  /**
   * The serial device: whether writing a command succeeds, and the bytes that a read of
   * `n` bytes returns.
   */
  datatype Device = Device(accepts: string -> bool, reply: nat -> seq<Byte>)

  /**
   * The CRC field, `frame[n - 2] << 8 | frame[n - 1]`. A one-byte frame makes the first
   * index -1, which Python reads as the last (only) byte.
   */
  function ProvidedCrc(frame: seq<Byte>): Word
    requires |frame| >= 1
  {
    if |frame| >= 2 then BigEndianWord(frame[|frame| - 2], frame[|frame| - 1])
    else BigEndianWord(frame[0], frame[0])
  }

  /** The bytes the CRC covers: `frame[:n - 2]`, which is empty for a one-byte frame. */
  function CheckedBytes(frame: seq<Byte>): seq<Byte> {
    if |frame| >= 2 then frame[..|frame| - 2] else []
  }

  /** `frame[5 : 5 + data_byte_count]` with Python's clamping of slice bounds. */
  function PayloadBytes(frame: seq<Byte>, dataByteCount: nat): seq<Byte> {
    frame[Min(PayloadOffset, |frame|)..Min(PayloadOffset + dataByteCount, |frame|)]
  }

  /** The payload as big-endian registers. */
  function Words(payload: seq<Byte>): seq<Word>
    requires |payload| % 2 == 0
  {
    seq(|payload| / 2, k requires 0 <= k < |payload| / 2 => BigEndianWord(payload[2 * k], payload[2 * k + 1]))
  }

  /** The number of iterations of `range(0, data_byte_count, 4)`. */
  function ValueCount(dataByteCount: nat): nat {
    (dataByteCount + 3) / 4
  }

  /**
   * The decode loop: nothing for UINT16; otherwise `count` 32-bit quantities, four bytes
   * each, failing when the registers run out.
   */
  function DecodeWords(words: seq<Word>, t: DataType, count: nat): Option<seq<Value>> {
    if t == UInt16 then Some([])
    else if 2 * count > |words| then None
    else Some(seq(count, k requires 0 <= k < count => MakeValue(t, Word32(words[2 * k], words[2 * k + 1]))))
  }

  /**
   * What `read_custom_data` returns, given whether the command was written and the bytes
   * the device returned.
   */
  function ParseFrame(layout: FrameLayout, sent: bool, frame: seq<Byte>, t: DataType): (r: Option<seq<Value>>)
    ensures r.Some? ==> sent && |frame| == TotalCount(layout) && |frame| > 0
    ensures r.Some? && !layout.disableCrc ==> Crc16.ValidateCrc(CheckedBytes(frame), ProvidedCrc(frame))
    ensures r.Some? && t == UInt16 ==> r.value == []
    ensures r.Some? && t != UInt16 ==> |r.value| == ValueCount(layout.dataByteCount)
  {
    if !sent then None
    else if |frame| != TotalCount(layout) || |frame| == 0 then None
    else if !layout.disableCrc && !Crc16.ValidateCrc(CheckedBytes(frame), ProvidedCrc(frame)) then None
    else DecodePayload(PayloadBytes(frame, layout.dataByteCount), t, layout.dataByteCount)
  }

  /** The payload split into registers and decoded; an odd byte count cannot be split. */
  function DecodePayload(payload: seq<Byte>, t: DataType, dataByteCount: nat): Option<seq<Value>> {
    if |payload| % 2 == 1 then None
    else DecodeWords(Words(payload), t, ValueCount(dataByteCount))
  }

  /**
   * `read_custom_data(device, command, data_type)`: write the command, read the frame, check
   * its length and CRC, split the payload into registers and decode one value per four bytes.
   */
  method ReadCustomData(layout: FrameLayout, device: Device, command: string, t: DataType)
    returns (r: Option<seq<Value>>)
    ensures r == ParseFrame(layout, device.accepts(command), device.reply(TotalCount(layout)), t)
  {
    if !device.accepts(command) {
      return None;
    }
    var total := layout.dataByteCount + layout.additionalByteCount;
    var frame := device.reply(total);
    if |frame| != total || total == 0 {
      return None;
    }
    var provided := ProvidedCrc(frame);
    if !layout.disableCrc && !Crc16.ValidateCrc(CheckedBytes(frame), provided) {
      return None;
    }
    var dataBytes := frame[Min(PayloadOffset, total)..Min(PayloadOffset + layout.dataByteCount, total)];
    r := ReadPayload(dataBytes, t, layout.dataByteCount);
  }

  /** The tail of `read_custom_data`: split the payload into registers, then decode them. */
  method ReadPayload(payload: seq<Byte>, t: DataType, dataByteCount: nat) returns (r: Option<seq<Value>>)
    ensures r == DecodePayload(payload, t, dataByteCount)
  {
    var words := SplitWords(payload);
    if words.None? {
      return None;
    }
    SplitWordsAreWords(payload, words.value);
    r := DecodeRegisters(words.value, t, dataByteCount);
  }

  lemma SplitWordsAreWords(payload: seq<Byte>, words: seq<Word>)
    requires |payload| % 2 == 0 && |words| == |payload| / 2
    requires forall k :: 0 <= k < |words| ==> words[k] == BigEndianWord(payload[2 * k], payload[2 * k + 1])
    ensures words == Words(payload)
  {
  }

  /**
   * The loop that turns the payload into big-endian registers; `None` is the `IndexError`
   * raised when an odd-length payload leaves a last byte without a partner.
   */
  method SplitWords(payload: seq<Byte>) returns (r: Option<seq<Word>>)
    ensures r.None? <==> |payload| % 2 == 1
    ensures r.Some? ==> |r.value| == |payload| / 2
    ensures r.Some? ==> forall k :: 0 <= k < |r.value| ==> r.value[k] == BigEndianWord(payload[2 * k], payload[2 * k + 1])
  {
    var words: seq<Word> := [];
    var i := 0;
    while i < |payload|
      invariant 0 <= i <= |payload| && i % 2 == 0
      invariant |words| == i / 2
      invariant forall k :: 0 <= k < |words| ==> words[k] == BigEndianWord(payload[2 * k], payload[2 * k + 1])
    {
      if i + 1 == |payload| {
        return None;
      }
      words := words + [BigEndianWord(payload[i], payload[i + 1])];
      i := i + 2;
    }
    return Some(words);
  }

  /**
   * The loop `for i in range(0, data_byte_count, 4)` over the register decoder: for UINT32 and
   * FLOAT32 each iteration advances the decoder by four bytes and reads one quantity; a read
   * past the end (`struct.error`) gives `None`. For UINT16 the loop reads nothing.
   */
  method DecodeRegisters(words: seq<Word>, t: DataType, dataByteCount: nat) returns (r: Option<seq<Value>>)
    ensures r == DecodeWords(words, t, ValueCount(dataByteCount))
  {
    var result: seq<Value> := [];
    var pointer := 0;
    var i := 0;
    ghost var count := 0;
    while i < dataByteCount
      invariant i == 4 * count && count <= ValueCount(dataByteCount)
      invariant t == UInt16 ==> result == []
      invariant t != UInt16 ==> pointer == i && 2 * count <= |words| && |result| == count
      invariant t != UInt16 ==> forall k :: 0 <= k < count ==>
        result[k] == MakeValue(t, Word32(words[2 * k], words[2 * k + 1]))
    {
      if t != UInt16 {
        pointer := pointer + 4;
        if pointer > 2 * |words| {
          return None;
        }
        var bits := Word32(words[pointer / 2 - 2], words[pointer / 2 - 1]);
        result := result + [if t == UInt32 then Int(bits) else Float(bits)];
      }
      i := i + 4;
      count := count + 1;
    }
    assert count == ValueCount(dataByteCount);
    assert t != UInt16 ==>
      result == seq(count, k requires 0 <= k < count => MakeValue(t, Word32(words[2 * k], words[2 * k + 1])));
    return Some(result);
  }

  /**
   * The 32-bit pattern carried by four consecutive payload bytes `p0 p1 p2 p3`: the
   * registers are `p0 p1` (low) and `p2 p3` (high), so the bits read `p2 p3 p0 p1`.
   */
  function PayloadBits(p0: Byte, p1: Byte, p2: Byte, p3: Byte): bv32 {
    ((p2 as bv32) << 24) | ((p3 as bv32) << 16) | ((p0 as bv32) << 8) | (p1 as bv32)
  }

  lemma Word32OfBytes(p0: Byte, p1: Byte, p2: Byte, p3: Byte)
    ensures Word32(BigEndianWord(p0, p1), BigEndianWord(p2, p3)) == PayloadBits(p0, p1, p2, p3)
  {
  }

  /** Value k of a successful decode is built from registers 2k (low) and 2k+1 (high). */
  lemma DecodeWordsAt(words: seq<Word>, t: DataType, count: nat, k: nat)
    requires t != UInt16 && 2 * count <= |words| && k < count
    ensures DecodeWords(words, t, count).Some?
    ensures DecodeWords(words, t, count).value[k] == MakeValue(t, Word32(words[2 * k], words[2 * k + 1]))
  {
  }

  /** Registers 2k and 2k+1 of a payload hold payload bytes 4k .. 4k+3. */
  lemma WordsPairBits(payload: seq<Byte>, k: nat)
    requires |payload| % 2 == 0 && 4 * k + 3 < |payload|
    ensures Word32(Words(payload)[2 * k], Words(payload)[2 * k + 1]) ==
      PayloadBits(payload[4 * k], payload[4 * k + 1], payload[4 * k + 2], payload[4 * k + 3])
  {
    var words := Words(payload);
    assert words[2 * k] == BigEndianWord(payload[4 * k], payload[4 * k + 1]);
    assert words[2 * k + 1] == BigEndianWord(payload[4 * k + 2], payload[4 * k + 3]);
    Word32OfBytes(payload[4 * k], payload[4 * k + 1], payload[4 * k + 2], payload[4 * k + 3]);
  }

  /** Value k of a decoded payload is built from payload bytes 4k .. 4k+3. */
  lemma DecodedPayloadAt(payload: seq<Byte>, t: DataType, count: nat, k: nat)
    requires |payload| % 2 == 0 && t != UInt16 && 4 * count <= |payload| && k < count
    ensures DecodeWords(Words(payload), t, count).Some?
    ensures DecodeWords(Words(payload), t, count).value[k] ==
      MakeValue(t, PayloadBits(payload[4 * k], payload[4 * k + 1], payload[4 * k + 2], payload[4 * k + 3]))
  {
    DecodeWordsAt(Words(payload), t, count, k);
    WordsPairBits(payload, k);
  }

  /** In the reference layout the payload is exactly `frame[5 .. 5 + data_byte_count]` and decodes in full. */
  lemma ReferencePayload(layout: FrameLayout, frame: seq<Byte>)
    requires layout.additionalByteCount >= PayloadOffset + 2 && layout.dataByteCount % 4 == 0
    requires |frame| == TotalCount(layout)
    ensures PayloadBytes(frame, layout.dataByteCount) == frame[PayloadOffset..PayloadOffset + layout.dataByteCount]
    ensures ValueCount(layout.dataByteCount) == layout.dataByteCount / 4
    ensures CheckedBytes(frame) == frame[..|frame| - 2]
    ensures ProvidedCrc(frame) == BigEndianWord(frame[|frame| - 2], frame[|frame| - 1])
  {
  }

  /**
   * A payload size that is not a whole number of 32-bit values is never decoded: the loop
   * asks for `ceil(D / 4)` values, two registers each, and the payload has fewer registers.
   */
  lemma UnalignedPayloadRejected(payload: seq<Byte>, t: DataType, dataByteCount: nat)
    requires t != UInt16 && dataByteCount % 4 != 0 && |payload| <= dataByteCount
    ensures DecodePayload(payload, t, dataByteCount) == None
  {
    if |payload| % 2 == 0 {
      var c, w := ValueCount(dataByteCount), |payload| / 2;
      assert 4 * c + (dataByteCount + 3) % 4 == dataByteCount + 3;
      assert (dataByteCount + 3) % 4 <= 2;
      assert 2 * w <= |payload|;
      assert |Words(payload)| == w;
    }
  }

  /** So with such a payload size every UINT32 or FLOAT32 read fails, whatever the device returns. */
  lemma UnalignedLayoutRejected(layout: FrameLayout, sent: bool, frame: seq<Byte>, t: DataType)
    requires t != UInt16 && layout.dataByteCount % 4 != 0
    ensures ParseFrame(layout, sent, frame, t) == None
  {
    UnalignedPayloadRejected(PayloadBytes(frame, layout.dataByteCount), t, layout.dataByteCount);
  }

  /** In the reference layout a frame of the right length fails only on its CRC, and otherwise decodes its whole payload. */
  lemma ReferenceLayoutOutcome(layout: FrameLayout, frame: seq<Byte>, t: DataType)
    requires layout.additionalByteCount >= PayloadOffset + 2 && layout.dataByteCount % 4 == 0
    requires |frame| == TotalCount(layout)
    ensures var payload := frame[PayloadOffset..PayloadOffset + layout.dataByteCount];
      |payload| % 2 == 0 &&
      ParseFrame(layout, true, frame, t) ==
        if !layout.disableCrc && !Crc16.ValidateCrc(CheckedBytes(frame), ProvidedCrc(frame)) then None
        else DecodeWords(Words(payload), t, layout.dataByteCount / 4)
    ensures t != UInt16 ==>
      DecodeWords(Words(frame[PayloadOffset..PayloadOffset + layout.dataByteCount]), t, layout.dataByteCount / 4).Some?
  {
    ReferencePayload(layout, frame);
  }

  /**
   * The reference layout (a header of at least five bytes before the payload, the CRC after it,
   * and a payload of whole 32-bit values): a frame of the right length is rejected exactly
   * when CRC checking is on and its CRC field disagrees with the CRC of the bytes before it;
   * otherwise value k is read from frame bytes 5+4k .. 5+4k+3 in the order 2, 3, 0, 1.
   */
  lemma ReferenceLayoutParse(layout: FrameLayout, frame: seq<Byte>, t: DataType)
    requires layout.additionalByteCount >= PayloadOffset + 2 && layout.dataByteCount % 4 == 0
    requires |frame| == TotalCount(layout)
    ensures var n := |frame|;
      ParseFrame(layout, true, frame, t).None? <==>
        !layout.disableCrc && Crc16.CalculateCrc(frame[..n - 2]) != BigEndianWord(frame[n - 2], frame[n - 1])
    ensures var r := ParseFrame(layout, true, frame, t);
      r.Some? && t == UInt16 ==> r.value == []
    ensures var r := ParseFrame(layout, true, frame, t);
      r.Some? && t != UInt16 ==>
        |r.value| == layout.dataByteCount / 4 &&
        forall k :: 0 <= k < layout.dataByteCount / 4 ==>
          r.value[k] == MakeValue(t, PayloadBits(frame[PayloadOffset + 4 * k], frame[PayloadOffset + 4 * k + 1],
                                                 frame[PayloadOffset + 4 * k + 2], frame[PayloadOffset + 4 * k + 3]))
  {
    ReferencePayload(layout, frame);
    ReferenceLayoutOutcome(layout, frame, t);
    if t != UInt16 {
      var payload := frame[PayloadOffset..PayloadOffset + layout.dataByteCount];
      PayloadValues(payload, frame, t, layout.dataByteCount / 4);
    }
  }

  /** Every value decoded from the payload `frame[5 ..]` reads its four frame bytes in the order 2, 3, 0, 1. */
  lemma PayloadValues(payload: seq<Byte>, frame: seq<Byte>, t: DataType, count: nat)
    requires t != UInt16 && |payload| % 2 == 0 && 4 * count == |payload|
    requires PayloadOffset + |payload| <= |frame| && payload == frame[PayloadOffset..PayloadOffset + |payload|]
    ensures var r := DecodeWords(Words(payload), t, count);
      r.Some? && |r.value| == count &&
      forall k :: 0 <= k < count ==>
        r.value[k] == MakeValue(t, PayloadBits(frame[PayloadOffset + 4 * k], frame[PayloadOffset + 4 * k + 1],
                                               frame[PayloadOffset + 4 * k + 2], frame[PayloadOffset + 4 * k + 3]))
  {
    var r := DecodeWords(Words(payload), t, count);
    assert r.Some? && |r.value| == count;
    forall k | 0 <= k < count
      ensures r.value[k] == MakeValue(t, PayloadBits(frame[PayloadOffset + 4 * k], frame[PayloadOffset + 4 * k + 1],
                                                     frame[PayloadOffset + 4 * k + 2], frame[PayloadOffset + 4 * k + 3]))
    {
      FrameValueAt(payload, frame, t, count, k);
    }
  }

  lemma FrameValueAt(payload: seq<Byte>, frame: seq<Byte>, t: DataType, count: nat, k: nat)
    requires t != UInt16 && |payload| % 2 == 0 && 4 * count == |payload| && k < count
    requires PayloadOffset + |payload| <= |frame| && payload == frame[PayloadOffset..PayloadOffset + |payload|]
    ensures DecodeWords(Words(payload), t, count).Some?
    ensures DecodeWords(Words(payload), t, count).value[k] ==
      MakeValue(t, PayloadBits(frame[PayloadOffset + 4 * k], frame[PayloadOffset + 4 * k + 1],
                               frame[PayloadOffset + 4 * k + 2], frame[PayloadOffset + 4 * k + 3]))
  {
    DecodedPayloadAt(payload, t, count, k);
    var i := 4 * k;
    assert payload[i] == frame[PayloadOffset + i] && payload[i + 1] == frame[PayloadOffset + i + 1];
    assert payload[i + 2] == frame[PayloadOffset + i + 2] && payload[i + 3] == frame[PayloadOffset + i + 3];
  }

  /** With CRC checking on, a frame whose CRC field disagrees is rejected. */
  lemma CrcMismatchRejected(layout: FrameLayout, frame: seq<Byte>, t: DataType)
    requires !layout.disableCrc && |frame| == TotalCount(layout) && |frame| >= 1
    requires !Crc16.ValidateCrc(CheckedBytes(frame), ProvidedCrc(frame))
    ensures ParseFrame(layout, true, frame, t) == None
  {
  }

  /**
   * With CRC checking on, changing any one byte of a frame whose CRC checks out, in the
   * checked bytes or in the CRC field itself, makes the read fail.
   */
  lemma CorruptedFrameRejected(layout: FrameLayout, frame: seq<Byte>, i: nat, x: Byte, t: DataType)
    requires !layout.disableCrc && |frame| == TotalCount(layout) && |frame| >= 2
    requires Crc16.ValidateCrc(CheckedBytes(frame), ProvidedCrc(frame))
    requires i < |frame| && x != frame[i]
    ensures ParseFrame(layout, true, frame[i := x], t) == None
  {
    var n := |frame|;
    var changed := frame[i := x];
    if i < n - 2 {
      assert CheckedBytes(changed) == CheckedBytes(frame)[i := x];
      assert ProvidedCrc(changed) == ProvidedCrc(frame);
      Crc16.SingleByteChangeDetected(CheckedBytes(frame), i, x);
    } else {
      assert CheckedBytes(changed) == CheckedBytes(frame);
      assert ProvidedCrc(changed) != ProvidedCrc(frame);
    }
    assert !Crc16.ValidateCrc(CheckedBytes(changed), ProvidedCrc(changed));
    CrcMismatchRejected(layout, changed, t);
  }
}
