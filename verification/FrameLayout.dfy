/** Frames as bytes, and what becomes of them, by the sizes themselves: what each end takes, skips and
    refuses, how the reception ends, and where a handler that throws cuts it off. */
module FrameLayout {
  import opened BinaryFormat
  import opened ByteLayout
  import opened Bytes
  import opened Framing

  /** Four bytes, highest first, and the message. */
  lemma FrameBytes(m: Text)
    ensures var n := |m|; Frame(m) == [n / 0x100_0000, n / 0x1_0000 % 256, n / 256 % 256, n % 256] + m
  {
    Int32Bytes(|m|);
    var n := |m|;
    assert Reversed(WriteInt32(n)) == [n / 0x100_0000, n / 0x1_0000 % 256, n / 256 % 256, n % 256];
  }

  lemma LengthValue(a: byte, b: byte, c: byte, d: byte, rest: seq<byte>)
    ensures var n := 0x100_0000 * a + 0x1_0000 * b + 256 * c + d;
            LengthAt([a, b, c, d] + rest) == if a >= 128 then n - 0x1_0000_0000 else n
  {
    FromFour(d, c, b, a);
    assert Reversed(([a, b, c, d] + rest)[..4]) == [d, c, b, a];
  }

  lemma {:induction false} FramesAppend(ms: seq<Text>, more: seq<Text>)
    ensures EncodeAll(ms + more) == EncodeAll(ms) + EncodeAll(more)
    ensures EncodeAll([]) == [] && forall m: Text :: EncodeAll([m]) == Frame(m)
  {
    forall m: Text ensures EncodeAll([m]) == Frame(m) {
      assert [m][1..] == [];
    }
    if ms == [] {
      assert ms + more == more;
    } else {
      FramesAppend(ms[1..], more);
      assert (ms + more)[1..] == ms[1..] + more;
      Join(Frame(ms[0]), EncodeAll(ms[1..]), EncodeAll(more));
    }
  }

  lemma DecodesOne(role: Role, m: Text, rest: seq<byte>, r: Reception)
    requires 1 <= |m| && (role.Server? ==> |m| <= 10485760) && r == Decode(role, rest)
    ensures Decode(role, Frame(m) + rest) == Reception([m] + r.messages, r.end)
  {
    DecodeFrame(role, m, rest);
  }

  lemma {:induction false} DecodesFirst(role: Role, ms: seq<Text>, r: Reception)
    requires ms != [] && 1 <= |ms[0]| && (role.Server? ==> |ms[0]| <= 10485760)
    requires r == Decode(role, EncodeAll(ms[1..]))
    ensures Decode(role, EncodeAll(ms)) == Reception([ms[0]] + r.messages, r.end)
  {
    DecodesOne(role, ms[0], EncodeAll(ms[1..]), r);
  }

  lemma Taken(ms: seq<Text>, k: nat)
    requires 0 < k <= |ms|
    ensures [ms[0]] + ms[1..][..k - 1] == ms[..k] && [ms[0]] + ms[1..] == ms
  {
  }

  /** The server takes every message of 1 to 10485760 bytes, up to the first one of another size, at which it
      ends. */
  lemma {:induction false} ServerTakes(ms: seq<Text>, k: nat)
    requires k <= |ms| && forall i :: 0 <= i < k ==> 1 <= |ms[i]| <= 10485760
    requires k < |ms| ==> |ms[k]| == 0 || |ms[k]| > 10485760
    ensures Decode(Server, EncodeAll(ms))
            == Reception(ms[..k], if k == |ms| then EndOfStream else SizeViolation(|ms[k]|))
  {
    if k > 0 {
      ServerTakes(ms[1..], k - 1);
      DecodesFirst(Server, ms, Decode(Server, EncodeAll(ms[1..])));
      Taken(ms, k);
    } else if ms != [] {
      LengthOfFrame(ms[0], EncodeAll(ms[1..]));
    }
  }

  /** The client takes messages of every size from 1. */
  lemma {:induction false} ClientTakes(ms: seq<Text>)
    requires forall i :: 0 <= i < |ms| ==> 1 <= |ms[i]|
    ensures Decode(Client, EncodeAll(ms)) == Reception(ms, EndOfStream)
  {
    if ms != [] {
      ClientTakes(ms[1..]);
      DecodesFirst(Client, ms, Reception(ms[1..], EndOfStream));
      Taken(ms, |ms|);
    }
  }

  /** Wherever a length of zero or less stands between messages, the client goes on as if it were not there. */
  lemma {:induction false} ClientSkips(ms: seq<Text>, a: byte, b: byte, c: byte, d: byte, rest: seq<byte>)
    requires a >= 128 || (a == 0 && b == 0 && c == 0 && d == 0)
    requires forall i :: 0 <= i < |ms| ==> 1 <= |ms[i]|
    ensures Decode(Client, EncodeAll(ms) + ([a, b, c, d] + rest)) == Decode(Client, EncodeAll(ms) + rest)
  {
    var s := [a, b, c, d] + rest;
    if ms == [] {
      LengthValue(a, b, c, d, rest);
      assert EncodeAll(ms) + s == s && EncodeAll(ms) + rest == rest && s[4..] == rest;
    } else {
      ClientSkips(ms[1..], a, b, c, d, rest);
      var tail := EncodeAll(ms[1..]);
      Join(Frame(ms[0]), tail, s);
      Join(Frame(ms[0]), tail, rest);
      DecodesOne(Client, ms[0], tail + s, Decode(Client, tail + s));
      DecodesOne(Client, ms[0], tail + rest, Decode(Client, tail + rest));
    }
  }

  /** A stream that ends within a message ends the reception there, and so does one with too few bytes for a
      length. */
  lemma EndsWithin(role: Role, a: byte, b: byte, c: byte, d: byte, part: seq<byte>)
    requires a < 128 && |part| < 0x100_0000 * a + 0x1_0000 * b + 256 * c + d
    requires role.Server? ==> 0x100_0000 * a + 0x1_0000 * b + 256 * c + d <= 10485760
    ensures Decode(role, [a, b, c, d] + part) == Reception([], Truncated)
    ensures |part| < 4 ==> Decode(role, part) == Reception([], EndOfStream)
  {
    LengthValue(a, b, c, d, part);
  }

  lemma {:induction false} ReceivesFirst(role: Role, ms: seq<Text>, rounds: nat, breaks: bool, r: Reception)
    requires ms != [] && 1 <= |ms[0]| <= 10485760 && rounds > 0
    requires r == Received(role, EncodeAll(ms[1..]), rounds - 1, breaks)
    ensures Received(role, EncodeAll(ms), rounds, breaks) == Reception([ms[0]] + r.messages, r.end)
  {
    var m, rest := ms[0], EncodeAll(ms[1..]);
    LengthOfFrame(m, rest);
    assert (Frame(m) + rest)[4..] == m + rest;
    ReceivedOne(role, EncodeAll(ms), m, rest, rounds, breaks);
  }

  /** A loop takes one message in each round that it gets, and ends in the next one as the stream does. */
  lemma {:induction false} OneInEachRound(role: Role, ms: seq<Text>, rounds: nat, breaks: bool)
    requires forall i :: 0 <= i < |ms| ==> 1 <= |ms[i]| <= 10485760
    ensures Received(role, EncodeAll(ms), rounds, breaks)
            == if rounds <= |ms| then Reception(ms[..rounds], Closed)
               else Reception(ms, if breaks then Broken else EndOfStream)
  {
    if rounds == 0 {
      assert Received(role, EncodeAll(ms), 0, breaks) == Reception([], Closed);
    } else if ms == [] {
      assert Received(role, [], rounds, breaks) == Reception([], if breaks then Broken else EndOfStream);
    } else {
      OneInEachRound(role, ms[1..], rounds - 1, breaks);
      ReceivesFirst(role, ms, rounds, breaks, Received(role, EncodeAll(ms[1..]), rounds - 1, breaks));
      Taken(ms, if rounds <= |ms| then rounds else |ms|);
    }
  }

  /** The message on which the handler throws first is the last that is handed on; if there is none, all are. */
  lemma ThrowsFirst(messages: seq<seq<byte>>, throws: Handler, k: nat)
    requires 0 < k <= |messages| && throws(messages[..k])
    requires forall i :: 0 < i < k ==> !throws(messages[..i])
    ensures forall handled :: HandedOn(handled, messages, throws) <==> handled == messages[..k]
    ensures Threw(messages[..k], throws)
  {
    var first := messages[..k];
    assert forall i :: 0 < i < k ==> first[..i] == messages[..i];
    assert HandedOn(first, messages, throws);
    forall handled | HandedOn(handled, messages, throws) ensures handled == first {
      HandedOnUnique(handled, first, messages, throws);
    }
  }

  lemma NeverThrows(messages: seq<seq<byte>>, throws: Handler)
    requires forall i :: 0 < i <= |messages| ==> !throws(messages[..i])
    ensures forall handled :: HandedOn(handled, messages, throws) <==> handled == messages
    ensures !Threw(messages, throws)
  {
    assert messages[..|messages|] == messages;
    assert HandedOn(messages, messages, throws);
    forall handled | HandedOn(handled, messages, throws) ensures handled == messages {
      HandedOnUnique(handled, messages, messages, throws);
    }
  }
}
