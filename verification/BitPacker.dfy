/** A byte array moved along by one bit, with a leading bit in front and seven zero bits behind; and
    back. Sizes are computed in 32-bit arithmetic that wraps, so very long arrays fail. */
module BitPacker {
  import opened Int32
  import opened Wrappers

  datatype Exception = NegativeSize | IndexOutOfRange

  // ----- bits -----

  /** The bit at a place of a byte, counted from the most significant one. */
  predicate BitOf(x: bv8, place: nat)
    requires place < 8
  {
    match place
    case 0 => x & 0x80 != 0
    case 1 => x & 0x40 != 0
    case 2 => x & 0x20 != 0
    case 3 => x & 0x10 != 0
    case 4 => x & 0x08 != 0
    case 5 => x & 0x04 != 0
    case 6 => x & 0x02 != 0
    case _ => x & 0x01 != 0
  }

  /** The bit at a place of a byte array. */
  predicate Bit(s: seq<bv8>, k: nat)
    requires k < 8 * |s|
  {
    BitOf(s[k / 8], k % 8)
  }

  /** C# division. */
  function Divide(a: int, b: int): int
    requires b > 0
  {
    if a < 0 then -(-a / b) else a / b
  }

  const ZERO: bv8 := 0

  // ----- packing -----

  function PackedSize(length: nat): int {
    Divide(Wrap(Wrap(1 + Wrap(length * 8)) + 7), 8)
  }

  const MAX_PACKED := 0xFFF_FFFE

  /** The size is one more than the data's, unless it wraps: then it is negative, or too small. */
  lemma PackedSizes(length: nat)
    requires length < 0x8000_0000
    ensures PackedSize(length) < 0x1000_0000
    ensures length <= MAX_PACKED ==> PackedSize(length) == length + 1
    ensures length > MAX_PACKED ==> PackedSize(length) <= length
  {
    var q := Laps(length * 8);
    WrapLeft(length * 8, 1);
    WrapLeft(length * 8 + 1, 7);
    assert Wrap(1 + Wrap(length * 8)) == Wrap(length * 8 + 1);
  }

  /** The byte whose last bit is the first one of byte `i` of the output. */
  function Carry(startingBit: bv8, data: seq<bv8>, i: nat): bv8
    requires i <= |data|
  {
    if i > 0 then data[i - 1] else if startingBit == 1 then 1 else 0
  }

  function PackedByte(startingBit: bv8, data: seq<bv8>, i: nat): bv8
    requires i <= |data|
  {
    (Carry(startingBit, data, i) << 7) | if i < |data| then data[i] >> 1 else 0
  }

  function Packed(startingBit: bv8, data: seq<bv8>): (bytes: seq<bv8>)
    ensures |bytes| == |data| + 1
  {
    seq(|data| + 1, i requires 0 <= i <= |data| => PackedByte(startingBit, data, i))
  }

  /** ORs a byte into the two bytes of the output that its bits fall into. */
  method OrByte(output: array<bv8>, bitIndex: nat, x: bv8)
    requires bitIndex / 8 < output.Length && bitIndex % 8 == 1
    modifies output
    ensures output[bitIndex / 8] == old(output[bitIndex / 8]) | (x >> 1)
    ensures bitIndex / 8 + 1 < output.Length ==> output[bitIndex / 8 + 1] == old(output[bitIndex / 8 + 1]) | (x << 7)
    ensures forall k :: 0 <= k < output.Length && k != bitIndex / 8 && k != bitIndex / 8 + 1 ==>
              output[k] == old(output[k])
  {
    var byteOffset, shiftOffset := bitIndex / 8, bitIndex % 8;
    output[byteOffset] := output[byteOffset] | (x >> shiftOffset);
    if byteOffset + 1 < output.Length {
      output[byteOffset + 1] := output[byteOffset + 1] | (x << (8 - shiftOffset));
    }
  }

  /** Every byte is ORed into two bytes of the output: its high bits into the one at its own place,
      its last bit into the next. */
  method Pack(startingBit: bv8, data: array<bv8>) returns (r: Result<seq<bv8>, Exception>)
    requires data.Length < 0x8000_0000
    ensures r.Ok? <==> data.Length <= MAX_PACKED
    ensures r.Ok? ==> r.value == Packed(startingBit, data[..])
    ensures r == Err(NegativeSize) <==> PackedSize(data.Length) < 0
  {
    PackedSizes(data.Length);
    var totalBits: int := Wrap(1 + Wrap(data.Length * 8));
    var totalBytes := Divide(Wrap(totalBits + 7), 8);
    if totalBytes < 0 {
      return Err(NegativeSize);
    }
    ghost var bytes := data[..];
    var output := new bv8[totalBytes](_ => ZERO);
    if startingBit == 1 {
      if output.Length == 0 {
        return Err(IndexOutOfRange);
      }
      output[0] := output[0] | 0x80;
    }
    var i := 0;
    while i < data.Length
      invariant 0 <= i <= data.Length && i <= output.Length
      invariant forall k :: 0 <= k < i ==> output[k] == PackedByte(startingBit, bytes, k)
      invariant i < output.Length ==> output[i] == Carry(startingBit, bytes, i) << 7
      invariant forall k :: i < k < output.Length ==> output[k] == 0
    {
      var bitIndex: int := Wrap(1 + Wrap(i * 8));
      assert bitIndex == 1 + i * 8;
      if bitIndex / 8 >= output.Length {
        return Err(IndexOutOfRange);
      }
      OrByte(output, bitIndex, data[i]);
      i := i + 1;
    }
    r := Ok(output[..]);
  }

  // ----- unpacking -----

  function UnpackedSize(length: nat): int {
    Divide(Wrap(Wrap(length * 8) - 1), 8)
  }

  const PERIOD := 0x2000_0000
  const HALF_PERIOD := 0x1000_0000

  /** The size repeats every 2^29 bytes: one less than the data's for the first half of a period, and
      negative for the second. */
  lemma UnpackedSizes(length: nat)
    requires 0 < length < 0x8000_0000
    ensures var m := length % PERIOD;
            && (m == 0 ==> UnpackedSize(length) == 0)
            && (0 < m <= HALF_PERIOD ==> UnpackedSize(length) == m - 1)
            && (m > HALF_PERIOD ==> UnpackedSize(length) < 0)
  {
    var m, laps := length % PERIOD, length / PERIOD;
    assert length * 8 == m * 8 + laps * 0x1_0000_0000;
    WrapLaps(m * 8, laps);
    WrapLeft(m * 8, -1);
  }

  function Unpacked(data: seq<bv8>, size: nat): (bv8, seq<bv8>)
    requires size < |data|
  {
    ((data[0] & 0x80) >> 7,
     seq(size, i requires 0 <= i < size => UnpackedByte(data, i)))
  }

  function UnpackedByte(data: seq<bv8>, i: nat): bv8
    requires i + 1 < |data|
  {
    (data[i] << 1) | ((data[i + 1] & 0x80) >> 7)
  }

  method Unpack(data: array?<bv8>) returns (r: Result<(bv8, seq<bv8>), Exception>)
    requires data != null ==> data.Length < 0x8000_0000
    ensures data == null || data.Length == 0 ==> r == Ok((0, []))
    ensures data != null && data.Length > 0 ==> (r.Ok? <==> data.Length % PERIOD <= HALF_PERIOD)
    ensures data != null && data.Length > 0 && r.Ok? ==>
              r.value == Unpacked(data[..], if data.Length % PERIOD == 0 then 0 else data.Length % PERIOD - 1)
  {
    if data == null || data.Length == 0 {
      return Ok((0, []));
    }
    UnpackedSizes(data.Length);
    var prefix := (data[0] & 0x80) >> 7;
    var totalPayloadBits: int := Wrap(Wrap(data.Length * 8) - 1);
    var targetedBytesCount := Divide(totalPayloadBits, 8);
    if targetedBytesCount < 0 {
      return Err(NegativeSize);
    }
    ghost var bytes := data[..];
    var payload := new bv8[targetedBytesCount](_ => ZERO);
    var i := 0;
    while i < payload.Length
      invariant 0 <= i <= payload.Length < data.Length
      invariant forall k :: 0 <= k < i ==> payload[k] == UnpackedByte(bytes, k)
    {
      var currentPart := data[i] << 1;
      var nextPart := (data[i + 1] & 0x80) >> 7;
      payload[i] := currentPart | nextPart;
      i := i + 1;
    }
    assert payload[..] == Unpacked(bytes, payload.Length).1;
    r := Ok((prefix, payload[..]));
  }

  // ----- what the bits are -----

  /** The output is the starting bit, then the bits of the data in order, then zeros. */
  lemma PackedBits(startingBit: bv8, data: seq<bv8>, k: nat)
    requires k < 8 * |data| + 8
    ensures Bit(Packed(startingBit, data), k)
            == if k == 0 then startingBit == 1 else k - 1 < 8 * |data| && Bit(data, k - 1)
  {
  }

  /** Unpacking drops the leading bit and takes the bits that follow it. */
  lemma UnpackedBits(data: seq<bv8>, k: nat)
    requires data != [] && k < 8 * (|data| - 1)
    ensures Bit(Unpacked(data, |data| - 1).1, k) == Bit(data, k + 1)
    ensures Unpacked(data, |data| - 1).0 == if Bit(data, 0) then 1 else 0
  {
  }

  // ----- the bytes as numbers -----

  /** Every byte of the output is half of one byte of the data, with the odd bit of the byte before it on top; the
      first has the starting bit there, which is set for 1 alone. */
  lemma PackedBytes(startingBit: bv8, data: seq<bv8>, i: nat)
    requires i <= |data|
    ensures Packed(startingBit, data)[i]
            == (if i > 0 then data[i - 1] % 2 * 128 else if startingBit == 1 then 128 else 0)
               + (if i < |data| then data[i] / 2 else 0)
  {
  }

  /** The prefix is the top bit, and every byte of the payload is the rest of one byte of the data, doubled, and the top
      bit of the next. */
  lemma UnpackedBytes(data: seq<bv8>, i: nat)
    requires data != []
    ensures Unpacked(data, |data| - 1).0 == data[0] / 128
    ensures i < |data| - 1 ==> Unpacked(data, |data| - 1).1[i] == data[i] % 128 * 2 + data[i + 1] / 128
  {
  }

  // ----- round trips -----

  /** Unpacking what was packed gives back the bit and the data. */
  lemma PackThenUnpack(startingBit: bv8, data: seq<bv8>)
    ensures Unpacked(Packed(startingBit, data), |data|) == (if startingBit == 1 then 1 else 0, data)
  {
    var packed := Packed(startingBit, data);
    var payload := Unpacked(packed, |data|).1;
    forall i | 0 <= i < |data| ensures payload[i] == data[i] {
      assert packed[i] == PackedByte(startingBit, data, i) && packed[i + 1] == PackedByte(startingBit, data, i + 1);
    }
    assert payload == data;
    assert packed[0] == PackedByte(startingBit, data, 0);
  }

  /** Packing what was unpacked clears the low seven bits of the last byte, and changes nothing else. */
  lemma UnpackThenPack(data: seq<bv8>)
    requires data != []
    ensures var (prefix, payload) := Unpacked(data, |data| - 1);
            Packed(prefix, payload) == data[..|data| - 1] + [data[|data| - 1] & 0x80]
  {
  }
}
