module Bytes {
  type byte = x: int | 0 <= x < 256
}

/** The formats of BinaryWriter and BinaryReader: fixed-width little-endian integers, integers in
    groups of seven bits, and length-prefixed strings. A string is its sequence of bytes. */
module BinaryFormat {
  import opened Bytes
  import opened Int32

  type int64 = x: int | -0x8000_0000_0000_0000 <= x < 0x8000_0000_0000_0000

  /** .NET strings and arrays have an `int` length. */
  type Text = s: seq<byte> | |s| < 0x8000_0000 witness []

  /** What a read yields: a value and the rest of the stream, or an exception. */
  datatype Read<+T> = Got(value: T, rest: seq<byte>) | Bad

  // ----- fixed width -----

  function Capacity(width: nat): nat {
    if width == 0 then 1 else 256 * Capacity(width - 1)
  }

  function LittleEndian(n: nat, width: nat): (bytes: seq<byte>)
    ensures |bytes| == width
  {
    if width == 0 then [] else [n % 256] + LittleEndian(n / 256, width - 1)
  }

  function FromLittleEndian(bytes: seq<byte>): nat {
    if bytes == [] then 0 else bytes[0] + 256 * FromLittleEndian(bytes[1..])
  }

  lemma {:induction false} LittleEndianRoundTrip(n: nat, width: nat)
    requires n < Capacity(width)
    ensures FromLittleEndian(LittleEndian(n, width)) == n
  {
    if width > 0 {
      LittleEndianRoundTrip(n / 256, width - 1);
      assert LittleEndian(n, width)[1..] == LittleEndian(n / 256, width - 1);
    }
  }

  /** Every word of that width is the encoding of exactly one number. */
  lemma {:induction false} FromLittleEndianRoundTrip(bytes: seq<byte>)
    ensures FromLittleEndian(bytes) < Capacity(|bytes|)
    ensures LittleEndian(FromLittleEndian(bytes), |bytes|) == bytes
  {
    if bytes != [] {
      FromLittleEndianRoundTrip(bytes[1..]);
      assert FromLittleEndian(bytes) / 256 == FromLittleEndian(bytes[1..]);
    }
  }

  lemma Capacities()
    ensures Capacity(4) == 0x1_0000_0000 && Capacity(8) == 0x1_0000_0000_0000_0000
  {
    assert Capacity(2) == 0x1_0000;
    assert Capacity(4) == 0x1_0000_0000;
    assert Capacity(6) == 0x1_0000_0000_0000;
  }

  /** Two's complement in a word of `modulus` values. */
  function Unsigned(x: int, modulus: nat): nat
    requires 0 <= x + modulus
  {
    if x < 0 then x + modulus else x
  }

  function Signed(n: nat, modulus: nat): int {
    if 2 * n >= modulus then n - modulus else n
  }

  function WriteInt32(x: int32): (bytes: seq<byte>)
    ensures |bytes| == 4
  {
    LittleEndian(Unsigned(x, 0x1_0000_0000), 4)
  }

  function ReadInt32(s: seq<byte>): Read<int> {
    if |s| < 4 then Bad else Got(Signed(FromLittleEndian(s[..4]), 0x1_0000_0000), s[4..])
  }

  function WriteInt64(x: int64): (bytes: seq<byte>)
    ensures |bytes| == 8
  {
    LittleEndian(Unsigned(x, 0x1_0000_0000_0000_0000), 8)
  }

  function ReadInt64(s: seq<byte>): Read<int> {
    if |s| < 8 then Bad else Got(Signed(FromLittleEndian(s[..8]), 0x1_0000_0000_0000_0000), s[8..])
  }

  lemma Int32RoundTrip(x: int32, rest: seq<byte>)
    ensures ReadInt32(WriteInt32(x) + rest) == Got(x, rest)
  {
    Capacities();
    LittleEndianRoundTrip(Unsigned(x, 0x1_0000_0000), 4);
    assert (WriteInt32(x) + rest)[..4] == WriteInt32(x);
  }

  lemma Int64RoundTrip(x: int64, rest: seq<byte>)
    ensures ReadInt64(WriteInt64(x) + rest) == Got(x, rest)
  {
    Capacities();
    LittleEndianRoundTrip(Unsigned(x, 0x1_0000_0000_0000_0000), 8);
    assert (WriteInt64(x) + rest)[..8] == WriteInt64(x);
  }

  // ----- groups of seven bits -----

  function Write7Bit(n: nat): (bytes: seq<byte>)
    ensures bytes != []
  {
    if n < 128 then [n] else [n % 128 + 128] + Write7Bit(n / 128)
  }

  /** At most `groups` bytes with the continuation bit, then one byte of at most `limit`. */
  function Read7Bit(s: seq<byte>, groups: nat, limit: nat): (r: Read<nat>)
    requires limit < 128
    ensures r.Got? ==> |r.rest| < |s|
  {
    if s == [] then Bad
    else if groups == 0 then
      if s[0] <= limit then Got(s[0], s[1..]) else Bad
    else if s[0] < 128 then Got(s[0], s[1..])
    else
      match Read7Bit(s[1..], groups - 1, limit)
      case Bad => Bad
      case Got(high, rest) => Got(s[0] - 128 + 128 * high, rest)
  }

  function Capacity7(groups: nat, limit: nat): (c: nat)
    ensures c > 0
  {
    if groups == 0 then limit + 1 else 128 * Capacity7(groups - 1, limit)
  }

  lemma {:induction false} SevenBitRoundTrip(n: nat, groups: nat, limit: nat, rest: seq<byte>)
    requires limit < 128 && n < Capacity7(groups, limit)
    ensures Read7Bit(Write7Bit(n) + rest, groups, limit) == Got(n, rest)
  {
    if n >= 128 {
      SevenBitRoundTrip(n / 128, groups - 1, limit, rest);
      assert (Write7Bit(n) + rest)[1..] == Write7Bit(n / 128) + rest;
    } else {
      assert (Write7Bit(n) + rest)[1..] == rest;
    }
  }

  /** The format cannot express more than fits, so a decoded integer is always in range. */
  lemma {:induction false} SevenBitBound(s: seq<byte>, groups: nat, limit: nat)
    requires limit < 128 && Read7Bit(s, groups, limit).Got?
    ensures Read7Bit(s, groups, limit).value < Capacity7(groups, limit)
  {
    if groups > 0 && s[0] >= 128 {
      SevenBitBound(s[1..], groups - 1, limit);
    }
  }

  lemma Capacities7()
    ensures Capacity7(4, 15) == 0x1_0000_0000 && Capacity7(9, 1) == 0x1_0000_0000_0000_0000
  {
    assert Capacity7(2, 15) == 0x4_0000;
    assert Capacity7(3, 1) == 0x40_0000;
    assert Capacity7(6, 1) == 0x800_0000_0000;
  }

  function Write7BitInt(x: int32): seq<byte> {
    Write7Bit(Unsigned(x, 0x1_0000_0000))
  }

  function Read7BitInt(s: seq<byte>): (r: Read<int>)
    ensures r.Got? ==> |r.rest| < |s|
  {
    match Read7Bit(s, 4, 15)
    case Bad => Bad
    case Got(n, rest) => Got(Signed(n, 0x1_0000_0000), rest)
  }

  function Write7BitInt64(x: int64): seq<byte> {
    Write7Bit(Unsigned(x, 0x1_0000_0000_0000_0000))
  }

  function Read7BitInt64(s: seq<byte>): (r: Read<int>)
    ensures r.Got? ==> |r.rest| < |s|
  {
    match Read7Bit(s, 9, 1)
    case Bad => Bad
    case Got(n, rest) => Got(Signed(n, 0x1_0000_0000_0000_0000), rest)
  }

  lemma SevenBitIntRoundTrip(x: int32, rest: seq<byte>)
    ensures Read7BitInt(Write7BitInt(x) + rest) == Got(x, rest)
  {
    Capacities7();
    SevenBitRoundTrip(Unsigned(x, 0x1_0000_0000), 4, 15, rest);
  }

  lemma SevenBitInt64RoundTrip(x: int64, rest: seq<byte>)
    ensures Read7BitInt64(Write7BitInt64(x) + rest) == Got(x, rest)
  {
    Capacities7();
    SevenBitRoundTrip(Unsigned(x, 0x1_0000_0000_0000_0000), 9, 1, rest);
  }

  // ----- strings, bytes, booleans -----

  function WriteString(s: Text): seq<byte> {
    Write7BitInt(|s|) + s
  }

  function ReadString(s: seq<byte>): (r: Read<seq<byte>>)
    ensures r.Got? ==> |r.rest| < |s|
  {
    match Read7BitInt(s)
    case Bad => Bad
    case Got(length, rest) => if length < 0 || length > |rest| then Bad else Got(rest[..length], rest[length..])
  }

  lemma StringRoundTrip(s: Text, rest: seq<byte>)
    ensures ReadString(WriteString(s) + rest) == Got(s, rest)
  {
    SevenBitIntRoundTrip(|s|, s + rest);
    Join(Write7BitInt(|s|), s, rest);
  }

  lemma Join<T>(a: seq<T>, b: seq<T>, c: seq<T>)
    ensures (a + b) + c == a + (b + c)
  {
  }

  /** `ReadBytes` stops early at the end of the stream instead of failing. */
  function ReadBytes(s: seq<byte>, count: int): Read<seq<byte>> {
    if count < 0 then Bad
    else if count <= |s| then Got(s[..count], s[count..])
    else Got(s, [])
  }

  function ReadByte(s: seq<byte>): Read<byte> {
    if s == [] then Bad else Got(s[0], s[1..])
  }

  function WriteBoolean(b: bool): seq<byte> {
    [if b then 1 else 0]
  }

  function ReadBoolean(s: seq<byte>): Read<bool> {
    if s == [] then Bad else Got(s[0] != 0, s[1..])
  }
}
