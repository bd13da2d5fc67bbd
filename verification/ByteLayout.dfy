/** The formats as numbers and bytes: what the writers put on a stream and what the readers make of it, stated
    without the functions that write and read. */
module ByteLayout {
  import opened BinaryFormat
  import opened Bytes
  import opened Int32

  // ----- fixed width -----

  /** A word of four bytes, lowest first. */
  function Word4(n: nat): seq<byte>
    requires n < 0x1_0000_0000
  {
    [n % 256, n / 256 % 256, n / 0x1_0000 % 256, n / 0x100_0000]
  }

  function Word8(n: nat): seq<byte>
    requires n < 0x1_0000_0000_0000_0000
  {
    [n % 256, n / 256 % 256, n / 0x1_0000 % 256, n / 0x100_0000 % 256,
     n / 0x1_0000_0000 % 256, n / 0x100_0000_0000 % 256, n / 0x1_0000_0000_0000 % 256, n / 0x100_0000_0000_0000]
  }

  /** Each byte is what is left of the quotient by the next power of 256. */
  lemma Quotients(n: nat)
    ensures n / 256 / 256 == n / 0x1_0000 && n / 0x1_0000 / 256 == n / 0x100_0000
    ensures n / 0x100_0000 / 256 == n / 0x1_0000_0000
  {
  }

  lemma HigherQuotients(n: nat)
    ensures n / 0x1_0000_0000 / 256 == n / 0x100_0000_0000
    ensures n / 0x100_0000_0000 / 256 == n / 0x1_0000_0000_0000
    ensures n / 0x1_0000_0000_0000 / 256 == n / 0x100_0000_0000_0000
  {
  }

  lemma {:induction false} FourBytes(n: nat, a: nat, b: nat, c: nat)
    requires n / 256 == a && a / 256 == b && b / 256 == c
    ensures LittleEndian(n, 4) == [n % 256, a % 256, b % 256, c % 256]
  {
    assert LittleEndian(c, 1) == [c % 256] + LittleEndian(c / 256, 0);
    assert LittleEndian(b, 2) == [b % 256] + LittleEndian(c, 1);
    assert LittleEndian(a, 3) == [a % 256] + LittleEndian(b, 2);
    assert LittleEndian(n, 4) == [n % 256] + LittleEndian(a, 3);
  }

  lemma {:induction false} FourMoreBytes(n: nat, a: nat, b: nat, c: nat, d: nat, high: seq<byte>)
    requires n / 256 == a && a / 256 == b && b / 256 == c && c / 256 == d && high == LittleEndian(d, 4)
    ensures LittleEndian(n, 8) == [n % 256, a % 256, b % 256, c % 256] + high
  {
    assert LittleEndian(c, 5) == [c % 256] + high;
    assert LittleEndian(b, 6) == [b % 256] + LittleEndian(c, 5);
    assert LittleEndian(a, 7) == [a % 256] + LittleEndian(b, 6);
    assert LittleEndian(n, 8) == [n % 256] + LittleEndian(a, 7);
  }

  lemma {:induction false} EightBytes(n: nat, a: nat, b: nat, c: nat, d: nat, e: nat, f: nat, g: nat)
    requires n / 256 == a && a / 256 == b && b / 256 == c && c / 256 == d
    requires d / 256 == e && e / 256 == f && f / 256 == g < 256
    ensures LittleEndian(n, 8) == [n % 256, a % 256, b % 256, c % 256, d % 256, e % 256, f % 256, g]
  {
    FourMoreBytes(n, a, b, c, d, LittleEndian(d, 4));
    FourBytes(d, e, f, g);
    assert g % 256 == g;
  }

  lemma Int32Bytes(x: int32)
    ensures WriteInt32(x) == Word4(if x < 0 then x + 0x1_0000_0000 else x)
  {
    var n := if x < 0 then x + 0x1_0000_0000 else x;
    Quotients(n);
    FourBytes(n, n / 256, n / 0x1_0000, n / 0x100_0000);
  }

  lemma Int64Bytes(x: int64)
    ensures WriteInt64(x) == Word8(if x < 0 then x + 0x1_0000_0000_0000_0000 else x)
  {
    var n := if x < 0 then x + 0x1_0000_0000_0000_0000 else x;
    Quotients(n);
    HigherQuotients(n);
    EightBytes(n, n / 256, n / 0x1_0000, n / 0x100_0000, n / 0x1_0000_0000, n / 0x100_0000_0000,
               n / 0x1_0000_0000_0000, n / 0x100_0000_0000_0000);
  }

  lemma FromFour(a: byte, b: byte, c: byte, d: byte)
    ensures FromLittleEndian([a, b, c, d]) == a + 256 * b + 0x1_0000 * c + 0x100_0000 * d
  {
    assert [a, b, c, d][1..] == [b, c, d] && [b, c, d][1..] == [c, d] && [c, d][1..] == [d] && [d][1..] == [];
    assert FromLittleEndian([d]) == d;
    assert FromLittleEndian([c, d]) == c + 256 * d;
    assert FromLittleEndian([b, c, d]) == b + 256 * FromLittleEndian([c, d]);
  }

  lemma {:induction false} FromEight(low: seq<byte>, high: seq<byte>)
    requires |low| == |high| == 4
    ensures FromLittleEndian(low + high) == FromLittleEndian(low) + 0x1_0000_0000 * FromLittleEndian(high)
  {
    var a, b, c := low[1..], low[2..], low[3..];
    assert (low + high)[1..] == a + high && (a + high)[1..] == b + high && (b + high)[1..] == c + high;
    assert (c + high)[1..] == high && a[1..] == b && b[1..] == c && c[1..] == [];
    assert FromLittleEndian(c) == c[0];
    assert FromLittleEndian(c + high) == c[0] + 256 * FromLittleEndian(high);
    assert FromLittleEndian(b + high) == b[0] + 256 * FromLittleEndian(c + high);
    assert FromLittleEndian(a + high) == a[0] + 256 * FromLittleEndian(b + high);
    assert FromLittleEndian(b) == b[0] + 256 * FromLittleEndian(c);
    assert FromLittleEndian(a) == a[0] + 256 * FromLittleEndian(b);
  }

  /** Four bytes are read as a number in two's complement, and fewer are an exception. */
  lemma Int32Value(a: byte, b: byte, c: byte, d: byte, rest: seq<byte>)
    ensures var n := a + 256 * b + 0x1_0000 * c + 0x100_0000 * d;
            ReadInt32([a, b, c, d] + rest) == Got(if d >= 128 then n - 0x1_0000_0000 else n, rest)
    ensures |rest| < 4 ==> ReadInt32(rest) == Bad
  {
    FromFour(a, b, c, d);
    var s := [a, b, c, d] + rest;
    assert s[..4] == [a, b, c, d] && s[4..] == rest;
  }

  /** Eight bytes, as two words of four. */
  lemma Int64Value(a: byte, b: byte, c: byte, d: byte, e: byte, f: byte, g: byte, h: byte, rest: seq<byte>)
    ensures var low, high := a + 256 * b + 0x1_0000 * c + 0x100_0000 * d, e + 256 * f + 0x1_0000 * g + 0x100_0000 * h;
            ReadInt64([a, b, c, d] + [e, f, g, h] + rest)
            == Got(low + 0x1_0000_0000 * (if h >= 128 then high - 0x1_0000_0000 else high), rest)
    ensures |rest| < 8 ==> ReadInt64(rest) == Bad
  {
    FromFour(a, b, c, d);
    FromFour(e, f, g, h);
    FromEight([a, b, c, d], [e, f, g, h]);
    var s := [a, b, c, d] + [e, f, g, h] + rest;
    assert s[..8] == [a, b, c, d] + [e, f, g, h] && s[8..] == rest;
  }

  // ----- groups of seven bits -----

  /** The number that the low seven bits make, the first group being the lowest. */
  function Groups(bytes: seq<byte>): nat {
    if bytes == [] then 0 else bytes[0] % 128 + 128 * Groups(bytes[1..])
  }

  /** All bytes but the last have their high bit set. */
  predicate Chained(bytes: seq<byte>) {
    bytes != [] && forall i :: 0 <= i < |bytes| ==> (bytes[i] >= 128 <==> i < |bytes| - 1)
  }

  /** A number is written in as few groups as can be. */
  lemma {:induction false} SevenBitBytes(n: nat)
    ensures var bytes := Write7Bit(n); Chained(bytes) && Groups(bytes) == n
    ensures n >= 128 ==> var bytes := Write7Bit(n); bytes[|bytes| - 1] > 0
  {
    if n >= 128 {
      SevenBitBytes(n / 128);
      var tail, first: byte := Write7Bit(n / 128), n % 128 + 128;
      OneMoreGroup(first, tail);
      assert ([first] + tail)[1..] == tail && first % 128 == n % 128;
    } else {
      assert [n][1..] == [];
    }
  }

  lemma OneMoreGroup(first: byte, tail: seq<byte>)
    requires first >= 128 && Chained(tail)
    ensures Chained([first] + tail)
  {
  }

  /** A number is read from up to `groups` + 1 groups, of which the last possible one is limited; anything else
      is an exception. */
  lemma {:induction false} SevenBitValue(s: seq<byte>, rest: seq<byte>, groups: nat, limit: nat)
    requires limit < 128 && Chained(s)
    ensures Read7Bit(s + rest, groups, limit)
            == if |s| <= groups || (|s| == groups + 1 && s[groups] <= limit) then Got(Groups(s), rest) else Bad
    decreases |s|
  {
    assert (s + rest)[0] == s[0] && (s + rest)[1..] == s[1..] + rest;
    if |s| == 1 {
      assert s[1..] == [];
    } else if groups > 0 {
      SevenBitValue(s[1..], rest, groups - 1, limit);
    }
  }

  lemma {:induction false} SevenBitEnd(s: seq<byte>, groups: nat, limit: nat)
    requires limit < 128 && forall i :: 0 <= i < |s| ==> s[i] >= 128
    ensures Read7Bit(s, groups, limit) == Bad
    decreases |s|
  {
    if s != [] && groups > 0 {
      SevenBitEnd(s[1..], groups - 1, limit);
    }
  }

  /** Up to five groups make a number of 32 bits, in two's complement. */
  lemma {:induction false} SevenBitInts(s: seq<byte>, rest: seq<byte>)
    requires Chained(s)
    ensures Read7BitInt(s + rest)
            == if |s| > 5 || (|s| == 5 && s[4] > 15) then Bad
               else Got(if Groups(s) >= 0x8000_0000 then Groups(s) - 0x1_0000_0000 else Groups(s), rest)
  {
    SevenBitValue(s, rest, 4, 15);
    IntsFromGroups(s + rest, Groups(s), rest);
  }

  lemma {:induction false} IntsFromGroups(s: seq<byte>, n: nat, rest: seq<byte>)
    ensures Read7Bit(s, 4, 15) == Got(n, rest) ==>
              Read7BitInt(s) == Got(if n >= 0x8000_0000 then n - 0x1_0000_0000 else n, rest)
    ensures Read7Bit(s, 4, 15) == Bad ==> Read7BitInt(s) == Bad
    ensures Read7Bit(s, 9, 1) == Got(n, rest) ==>
              Read7BitInt64(s) == Got(if n >= 0x8000_0000_0000_0000 then n - 0x1_0000_0000_0000_0000 else n, rest)
    ensures Read7Bit(s, 9, 1) == Bad ==> Read7BitInt64(s) == Bad
  {
  }

  /** And up to ten one of 64 bits. */
  lemma {:induction false} SevenBitInt64s(s: seq<byte>, rest: seq<byte>)
    requires Chained(s)
    ensures Read7BitInt64(s + rest)
            == if |s| > 10 || (|s| == 10 && s[9] > 1) then Bad
               else Got(if Groups(s) >= 0x8000_0000_0000_0000 then Groups(s) - 0x1_0000_0000_0000_0000
                        else Groups(s), rest)
  {
    SevenBitValue(s, rest, 9, 1);
    IntsFromGroups(s + rest, Groups(s), rest);
  }

  /** A negative number is written as the word that stands for it. */
  lemma SevenBitWords(x: int32, y: int64)
    ensures Chained(Write7BitInt(x)) && Groups(Write7BitInt(x)) == if x < 0 then x + 0x1_0000_0000 else x
    ensures Chained(Write7BitInt64(y))
    ensures Groups(Write7BitInt64(y)) == if y < 0 then y + 0x1_0000_0000_0000_0000 else y
  {
    SevenBitBytes(if x < 0 then x + 0x1_0000_0000 else x);
    SevenBitBytes(if y < 0 then y + 0x1_0000_0000_0000_0000 else y);
  }

  // ----- strings and booleans -----

  /** A short string is its length in one byte and then its bytes; a longer one has the length in groups. */
  lemma StringBytes(s: Text)
    ensures |s| < 128 ==> WriteString(s) == [|s|] + s
    ensures 128 <= |s| < 0x4000 ==> WriteString(s) == [|s| % 128 + 128, |s| / 128] + s
    ensures exists n :: WriteString(s) == n + s && Chained(n) && Groups(n) == |s|
  {
    SevenBitWords(|s|, 0);
    var n := Write7BitInt(|s|);
    assert WriteString(s) == n + s && Chained(n) && Groups(n) == |s|;
    if 128 <= |s| < 0x4000 {
      TwoGroups(|s|);
    }
  }

  lemma TwoGroups(n: nat)
    requires 128 <= n < 0x4000
    ensures Write7Bit(n) == [n % 128 + 128, n / 128]
  {
    assert n / 128 < 128 && Write7Bit(n / 128) == [n / 128];
  }

  /** A string that is announced is read if it is there. */
  lemma StringValue(n: seq<byte>, s: seq<byte>)
    requires Chained(n) && Groups(n) < 0x8000_0000 && |n| <= 5 && (|n| == 5 ==> n[4] <= 15)
    ensures ReadString(n + s) == if Groups(n) <= |s| then Got(s[..Groups(n)], s[Groups(n)..]) else Bad
  {
    SevenBitInts(n, s);
  }

  lemma BooleansAndBytes(b: byte, s: seq<byte>, count: int)
    ensures WriteBoolean(true) == [1] && WriteBoolean(false) == [0]
    ensures ReadBoolean([b] + s) == Got(b != 0, s) && ReadByte([b] + s) == Got(b, s)
    ensures ReadBoolean([]) == Bad && ReadByte([]) == Bad
    ensures ReadBytes(s, count) == if count < 0 then Bad else if count > |s| then Got(s, [])
                                   else Got(s[..count], s[count..])
  {
    assert ([b] + s)[1..] == s;
  }
}
