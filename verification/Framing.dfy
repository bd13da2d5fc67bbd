/** Messages over a byte stream: a 4-byte big-endian length, then the payload. Both receiving loops,
    the server's and the client's, over a stream that arrives in arbitrary chunks. */
module Framing {
  import opened BinaryFormat
  import opened Bytes
  import opened Int32
  import opened Wrappers

  const MAX_FRAME := 10 * 1024 * 1024

  datatype Role = Server | Client

  /** Why a receiving loop ended: the stream ended between two messages, announced a size that is refused,
      ended inside a message, or failed; the connection was closed or the loop cancelled; or the handler of
      a message threw. */
  datatype End = EndOfStream | SizeViolation(length: int) | Truncated | Broken | Closed | Thrown

  datatype Reception = Reception(messages: seq<seq<byte>>, end: End)

  // ----- the format -----

  function Reversed(s: seq<byte>): (r: seq<byte>)
    ensures |r| == |s|
    ensures forall i :: 0 <= i < |s| ==> r[i] == s[|s| - 1 - i]
  {
    seq(|s|, i requires 0 <= i < |s| => s[|s| - 1 - i])
  }

  /** `BitConverter.GetBytes` and `ToInt32` in the byte order of the host. */
  function GetBytes(x: int32, isLittleEndian: bool): (bytes: seq<byte>)
    ensures |bytes| == 4
  {
    if isLittleEndian then WriteInt32(x) else Reversed(WriteInt32(x))
  }

  function ToInt32(bytes: seq<byte>, isLittleEndian: bool): int
    requires |bytes| == 4
  {
    Signed(FromLittleEndian(if isLittleEndian then bytes else Reversed(bytes)), 0x1_0000_0000)
  }

  function Frame(m: Text): seq<byte> {
    Reversed(WriteInt32(|m|)) + m
  }

  function LengthAt(s: seq<byte>): int
    requires |s| >= 4
  {
    Signed(FromLittleEndian(Reversed(s[..4])), 0x1_0000_0000)
  }

  function EncodeAll(ms: seq<Text>): seq<byte> {
    if ms == [] then [] else Frame(ms[0]) + EncodeAll(ms[1..])
  }

  /** What the loop of a role delivers from a stream that then ends. */
  function Decode(role: Role, s: seq<byte>): Reception
    decreases |s|
  {
    if |s| < 4 then Reception([], EndOfStream)
    else
      var length := LengthAt(s);
      if role.Server? && (length <= 0 || length > MAX_FRAME) then Reception([], SizeViolation(length))
      else if length <= 0 then Decode(role, s[4..])
      else if |s| - 4 < length then Reception([], Truncated)
      else
        var r := Decode(role, s[4 + length..]);
        Reception([s[4..4 + length]] + r.messages, r.end)
  }

  /** The same for a loop that finds the connection open only so many times, and for a stream whose
      end may be a failure. */
  function Received(role: Role, s: seq<byte>, rounds: nat, breaks: bool): Reception
    decreases |s|
  {
    if rounds == 0 then Reception([], Closed)
    else if |s| < 4 then Reception([], if breaks then Broken else EndOfStream)
    else
      var length := LengthAt(s);
      if role.Server? && (length <= 0 || length > MAX_FRAME) then Reception([], SizeViolation(length))
      else if length <= 0 then Received(role, s[4..], rounds - 1, breaks)
      else if |s| - 4 < length then Reception([], if breaks then Broken else Truncated)
      else
        var r := Received(role, s[4 + length..], rounds - 1, breaks);
        Reception([s[4..4 + length]] + r.messages, r.end)
  }

  /** A loop that is not cut off delivers everything; one that is, or whose stream fails, delivers the
      beginning of it. */
  lemma {:induction false} ReceivedIsDecoded(role: Role, s: seq<byte>, rounds: nat, breaks: bool)
    ensures Received(role, s, rounds, breaks).messages <= Decode(role, s).messages
    ensures rounds > |s| ==> Received(role, s, rounds, breaks).messages == Decode(role, s).messages
    ensures rounds > |s| && !breaks ==> Received(role, s, rounds, breaks) == Decode(role, s)
    decreases |s|
  {
    if rounds > 0 && |s| >= 4 {
      var length := LengthAt(s);
      if role.Server? && (length <= 0 || length > MAX_FRAME) {
      } else if length <= 0 {
        ReceivedIsDecoded(role, s[4..], rounds - 1, breaks);
      } else if |s| - 4 >= length {
        ReceivedIsDecoded(role, s[4 + length..], rounds - 1, breaks);
      }
    }
  }

  // ----- handlers that throw -----

  /** Whether a handler throws on the last of the messages it has been given, after the others. */
  type Handler = seq<seq<byte>> -> bool

  /** The handler threw on the last message. */
  predicate Threw(handled: seq<seq<byte>>, throws: Handler) {
    handled != [] && throws(handled)
  }

  /** What a loop hands on of the messages that the stream has for it: all up to and including the first
      on which the handler throws. */
  predicate HandedOn(handled: seq<seq<byte>>, messages: seq<seq<byte>>, throws: Handler) {
    && handled <= messages
    && (forall i :: 0 < i < |handled| ==> !throws(handled[..i]))
    && (handled == messages || Threw(handled, throws))
  }

  /** That leaves no choice. */
  lemma HandedOnUnique(handled: seq<seq<byte>>, others: seq<seq<byte>>, messages: seq<seq<byte>>, throws: Handler)
    requires HandedOn(handled, messages, throws) && HandedOn(others, messages, throws)
    ensures handled == others
  {
    assert |handled| <= |others| ==> others[..|handled|] == handled;
    assert |others| <= |handled| ==> handled[..|others|] == others;
  }

  /** Everything is handed on if and only if the handler throws on no message before the last. */
  lemma AllHandedOn(handled: seq<seq<byte>>, messages: seq<seq<byte>>, throws: Handler)
    requires HandedOn(handled, messages, throws)
    ensures handled == messages <==> forall i :: 0 < i < |messages| ==> !throws(messages[..i])
  {
    if handled != messages {
      assert messages[..|handled|] == handled && 0 < |handled| < |messages|;
    }
  }

  // ----- the network -----

  function Flat(chunks: seq<seq<byte>>): seq<byte> {
    if chunks == [] then [] else chunks[0] + Flat(chunks[1..])
  }

  /** A stream whose bytes become available in chunks and that ends, or fails, after the last one. */
  class NetworkStream {
    const breaks: bool
    var chunks: seq<seq<byte>>

    constructor (chunks: seq<seq<byte>>, breaks: bool)
      requires forall i :: 0 <= i < |chunks| ==> chunks[i] != []
      ensures Valid() && this.chunks == chunks && this.breaks == breaks
    {
      this.chunks, this.breaks := chunks, breaks;
    }

    ghost predicate Valid()
      reads this
    {
      forall i :: 0 <= i < |chunks| ==> chunks[i] != []
    }

    /** Some of what is available, and nothing exactly at the end of the stream. */
    method ReadAsync(buffer: array<byte>, offset: nat, count: nat) returns (read: nat)
      requires Valid() && offset + count <= buffer.Length && count > 0
      modifies this`chunks, buffer
      ensures Valid() && read <= count
      ensures read == 0 <==> old(chunks) == []
      ensures Flat(old(chunks)) == buffer[offset..offset + read] + Flat(chunks)
      ensures buffer[..offset] == old(buffer[..offset])
    {
      if chunks == [] {
        return 0;
      }
      var chunk := chunks[0];
      read := if |chunk| <= count then |chunk| else count;
      forall i | 0 <= i < read {
        buffer[offset + i] := chunk[i];
      }
      assert buffer[offset..offset + read] == chunk[..read];
      if read == |chunk| {
        chunks := chunks[1..];
      } else {
        chunks := [chunk[read..]] + chunks[1..];
        assert chunks[1..] == old(chunks)[1..];
        assert chunk == chunk[..read] + chunk[read..];
      }
    }

    /** What reading past the last byte comes to: false at the end, and an exception if the stream fails. */
    function AtEnd(): Option<bool> {
      if breaks then None else Some(false)
    }
  }

  lemma Regroup(a: seq<byte>, b: seq<byte>, c: seq<byte>, bc: seq<byte>)
    requires bc == b + c
    ensures a + bc == (a + b) + c
  {
  }

  /** Whether the buffer was filled; None is an exception. */
  method TryReadExactly(stream: NetworkStream, buffer: array<byte>, length: nat) returns (ok: Option<bool>)
    requires stream.Valid() && length <= buffer.Length
    modifies stream, buffer
    ensures stream.Valid()
    ensures ok == if length <= |Flat(old(stream.chunks))| then Some(true) else stream.AtEnd()
    ensures ok == Some(true) ==> Flat(old(stream.chunks)) == buffer[..length] + Flat(stream.chunks)
  {
    var total := 0;
    while total < length
      invariant stream.Valid() && total <= length
      invariant Flat(old(stream.chunks)) == buffer[..total] + Flat(stream.chunks)
    {
      ghost var s, got := Flat(stream.chunks), buffer[..total];
      var read := stream.ReadAsync(buffer, total, length - total);
      if read == 0 {
        return stream.AtEnd();
      }
      Regroup(got, buffer[total..total + read], Flat(stream.chunks), s);
      assert buffer[..total + read] == got + buffer[total..total + read];
      total := total + read;
    }
    return Some(true);
  }

  method ReverseInPlace(buffer: array<byte>)
    requires buffer.Length == 4
    modifies buffer
    ensures buffer[..] == Reversed(old(buffer[..]))
  {
    buffer[0], buffer[1], buffer[2], buffer[3] := buffer[3], buffer[2], buffer[1], buffer[0];
  }

  /** The length prefix as either end reads it: the buffer is reversed on a little-endian host. */
  method ReadLength(lengthBuffer: array<byte>, isLittleEndian: bool) returns (length: int)
    requires lengthBuffer.Length == 4
    modifies lengthBuffer
    ensures length == LengthAt(old(lengthBuffer[..]))
  {
    ghost var header := lengthBuffer[..];
    if isLittleEndian {
      ReverseInPlace(lengthBuffer);
    }
    length := ToInt32(lengthBuffer[..], isLittleEndian);
    assert header[..4] == header;
  }

  method ReceiveLength(stream: NetworkStream, lengthBuffer: array<byte>, isLittleEndian: bool)
    returns (ok: Option<bool>, length: int)
    requires stream.Valid() && lengthBuffer.Length == 4
    modifies stream, lengthBuffer
    ensures stream.Valid()
    ensures ok == if |Flat(old(stream.chunks))| >= 4 then Some(true) else stream.AtEnd()
    ensures ok == Some(true) ==>
              length == LengthAt(Flat(old(stream.chunks))) && Flat(stream.chunks) == Flat(old(stream.chunks))[4..]
  {
    ghost var s := Flat(stream.chunks);
    length := 0;
    ok := TryReadExactly(stream, lengthBuffer, 4);
    if ok == Some(true) {
      assert s[..4] == lengthBuffer[..] && s[4..] == Flat(stream.chunks);
      length := ReadLength(lengthBuffer, isLittleEndian);
    }
  }

  method ReceivePayload(stream: NetworkStream, length: nat) returns (ok: Option<bool>, payload: seq<byte>)
    requires stream.Valid()
    modifies stream
    ensures stream.Valid()
    ensures ok == if |Flat(old(stream.chunks))| >= length then Some(true) else stream.AtEnd()
    ensures ok == Some(true) ==> |payload| == length && Flat(old(stream.chunks)) == payload + Flat(stream.chunks)
  {
    var packetBuffer := new byte[length];
    ok := TryReadExactly(stream, packetBuffer, length);
    payload := packetBuffer[..];
  }

  /** What one round of a loop comes to. */
  datatype Round = Message(payload: seq<byte>) | Skipped | Stops(end: End)

  /** One round as the format describes it: what was to come before it, and what is to come after it. */
  predicate IsRound(round: Round, before: Reception, after: Reception) {
    match round
    case Message(payload) => before == Reception([payload] + after.messages, after.end)
    case Skipped => before == after
    case Stops(end) => before == Reception([], end)
  }

  /** What has been delivered, and what is to come, make up the whole before and after a round. */
  lemma Progress(all: Reception, delivered: seq<seq<byte>>, round: Round, before: Reception, after: Reception)
    requires all == Reception(delivered + before.messages, before.end) && IsRound(round, before, after)
    ensures match round
            case Message(payload) => all == Reception((delivered + [payload]) + after.messages, after.end)
            case Skipped => all == Reception(delivered + after.messages, after.end)
            case Stops(end) => all == Reception(delivered, end)
  {
  }

  method ServerRound(stream: NetworkStream, lengthBuffer: array<byte>, isLittleEndian: bool, ghost left: nat)
    returns (round: Round, ghost after: Reception)
    requires stream.Valid() && lengthBuffer.Length == 4
    modifies stream, lengthBuffer
    ensures stream.Valid() && !round.Skipped?
    ensures after == Received(Server, Flat(stream.chunks), left, stream.breaks)
    ensures IsRound(round, Received(Server, Flat(old(stream.chunks)), left + 1, stream.breaks), after)
  {
    ghost var s := Flat(stream.chunks);
    var ok, length := ReceiveLength(stream, lengthBuffer, isLittleEndian);
    after := Received(Server, Flat(stream.chunks), left, stream.breaks);
    if ok != Some(true) {
      var end := if ok == None then Broken else EndOfStream;
      ReceivedStops(Server, s, left + 1, stream.breaks, end);
      return Stops(end), after;
    }
    if length <= 0 || length > MAX_FRAME {
      ReceivedStops(Server, s, left + 1, stream.breaks, SizeViolation(length));
      return Stops(SizeViolation(length)), after;
    }
    var payload: seq<byte>;
    ok, payload := ReceivePayload(stream, length);
    after := Received(Server, Flat(stream.chunks), left, stream.breaks);
    if ok != Some(true) {
      var end := if ok == None then Broken else Truncated;
      ReceivedStops(Server, s, left + 1, stream.breaks, end);
      return Stops(end), after;
    }
    ReceivedOne(Server, s, payload, Flat(stream.chunks), left + 1, stream.breaks);
    return Message(payload), after;
  }

  /** The server's loop for one client, which finds the connection open `rounds` times. */
  method HandleClientLoop(stream: NetworkStream, isLittleEndian: bool, rounds: nat, throws: Handler)
    returns (delivered: seq<seq<byte>>, reason: End)
    requires stream.Valid()
    modifies stream
    ensures var r := Received(Server, Flat(old(stream.chunks)), rounds, stream.breaks);
            && HandedOn(delivered, r.messages, throws)
            && reason == if Threw(delivered, throws) then Thrown else r.end
  {
    ghost var rest := Received(Server, Flat(stream.chunks), rounds, stream.breaks);
    ghost var all := rest;
    var lengthBuffer := new byte[4];
    delivered := [];
    var left := rounds;
    while left > 0
      invariant stream.Valid() && fresh(lengthBuffer)
      invariant rest == Received(Server, Flat(stream.chunks), left, stream.breaks)
      invariant all == Reception(delivered + rest.messages, rest.end)
      invariant forall i :: 0 < i <= |delivered| ==> !throws(delivered[..i])
    {
      left := left - 1;
      var round, after := ServerRound(stream, lengthBuffer, isLittleEndian, left);
      Progress(all, delivered, round, rest, after);
      rest := after;
      if round.Stops? {
        NoneThrown(delivered, throws);
        return delivered, round.end;
      }
      OneMoreHandled(delivered, round.payload, throws);
      delivered := delivered + [round.payload];
      if throws(delivered) {
        return delivered, Thrown;
      }
    }
    NoneThrown(delivered, throws);
    return delivered, Closed;
  }

  /** The ways in which a loop ends without another message. */
  lemma ReceivedStops(role: Role, s: seq<byte>, left: nat, breaks: bool, end: End)
    requires left > 0
    requires match end
             case EndOfStream => |s| < 4 && !breaks
             case SizeViolation(length) =>
               role.Server? && |s| >= 4 && LengthAt(s) == length && (length <= 0 || length > MAX_FRAME)
             case Truncated => Cut(role, s) && !breaks
             case Broken => (|s| < 4 || Cut(role, s)) && breaks
             case _ => false
    ensures Received(role, s, left, breaks) == Reception([], end)
  {
  }

  /** The stream ends inside a message that is not refused. */
  predicate Cut(role: Role, s: seq<byte>) {
    |s| >= 4 && 0 < LengthAt(s) && (role.Server? ==> LengthAt(s) <= MAX_FRAME) && |s| - 4 < LengthAt(s)
  }

  method ClientRound(stream: NetworkStream, lengthBuffer: array<byte>, isLittleEndian: bool, ghost left: nat)
    returns (round: Round, ghost after: Reception)
    requires stream.Valid() && lengthBuffer.Length == 4
    modifies stream, lengthBuffer
    ensures stream.Valid()
    ensures after == Received(Client, Flat(stream.chunks), left, stream.breaks)
    ensures IsRound(round, Received(Client, Flat(old(stream.chunks)), left + 1, stream.breaks), after)
  {
    ghost var s := Flat(stream.chunks);
    var ok, messageLength := ReceiveLength(stream, lengthBuffer, isLittleEndian);
    after := Received(Client, Flat(stream.chunks), left, stream.breaks);
    if ok != Some(true) {
      var end := if ok == None then Broken else EndOfStream;
      ReceivedStops(Client, s, left + 1, stream.breaks, end);
      return Stops(end), after;
    }
    if messageLength <= 0 {
      ReceivedSkips(s, left, stream.breaks);
      return Skipped, after;
    }
    var payload: seq<byte>;
    ok, payload := ReceivePayload(stream, messageLength);
    after := Received(Client, Flat(stream.chunks), left, stream.breaks);
    if ok != Some(true) {
      var end := if ok == None then Broken else Truncated;
      ReceivedStops(Client, s, left + 1, stream.breaks, end);
      return Stops(end), after;
    }
    ReceivedOne(Client, s, payload, Flat(stream.chunks), left + 1, stream.breaks);
    return Message(payload), after;
  }

  lemma NoneThrown(handled: seq<seq<byte>>, throws: Handler)
    requires forall i :: 0 < i <= |handled| ==> !throws(handled[..i])
    ensures !Threw(handled, throws)
  {
    assert handled[..|handled|] == handled;
  }

  lemma OneMoreHandled(handled: seq<seq<byte>>, payload: seq<byte>, throws: Handler)
    requires forall i :: 0 < i <= |handled| ==> !throws(handled[..i])
    ensures var more := handled + [payload];
            && (forall i :: 0 < i < |more| ==> !throws(more[..i]))
            && (!throws(more) ==> forall i :: 0 < i <= |more| ==> !throws(more[..i]))
  {
    var more := handled + [payload];
    assert more[..|more|] == more;
    assert forall i :: 0 < i < |more| ==> more[..i] == handled[..i];
  }

  /** The client's loop: a length that is not positive is skipped, and there is no upper bound. Every end
      but a failure of the stream or of the handler is reported as normal. */
  method StartListening(stream: NetworkStream, isLittleEndian: bool, rounds: nat, throws: Handler)
    returns (delivered: seq<seq<byte>>, isNormal: bool)
    requires stream.Valid()
    modifies stream
    ensures var r := Received(Client, Flat(old(stream.chunks)), rounds, stream.breaks);
            && HandedOn(delivered, r.messages, throws)
            && (isNormal <==> !Threw(delivered, throws) && !r.end.Broken?)
  {
    ghost var rest := Received(Client, Flat(stream.chunks), rounds, stream.breaks);
    ghost var all := rest;
    var lengthBuffer := new byte[4];
    delivered := [];
    var left := rounds;
    while left > 0
      invariant stream.Valid() && fresh(lengthBuffer)
      invariant rest == Received(Client, Flat(stream.chunks), left, stream.breaks)
      invariant all == Reception(delivered + rest.messages, rest.end)
      invariant forall i :: 0 < i <= |delivered| ==> !throws(delivered[..i])
    {
      left := left - 1;
      var round, after := ClientRound(stream, lengthBuffer, isLittleEndian, left);
      Progress(all, delivered, round, rest, after);
      rest := after;
      if round.Stops? {
        NoneThrown(delivered, throws);
        return delivered, !round.end.Broken?;
      }
      if round.Message? {
        OneMoreHandled(delivered, round.payload, throws);
        delivered := delivered + [round.payload];
        if throws(delivered) {
          return delivered, false;
        }
      }
    }
    NoneThrown(delivered, throws);
    return delivered, true;
  }

  lemma ReceivedSkips(s: seq<byte>, left: nat, breaks: bool)
    requires |s| >= 4 && LengthAt(s) <= 0
    ensures Received(Client, s, left + 1, breaks) == Received(Client, s[4..], left, breaks)
  {
  }

  lemma ReceivedOne(role: Role, s: seq<byte>, payload: seq<byte>, rest: seq<byte>, left: nat, breaks: bool)
    requires |s| >= 4 && s[4..] == payload + rest && LengthAt(s) == |payload| > 0 && left > 0
    requires role.Server? ==> |payload| <= MAX_FRAME
    ensures var r := Received(role, rest, left - 1, breaks);
            Received(role, s, left, breaks) == Reception([payload] + r.messages, r.end)
  {
    PayloadAfterLength(s, payload, rest);
  }

  lemma PayloadAfterLength(s: seq<byte>, payload: seq<byte>, rest: seq<byte>)
    requires |s| >= 4 && s[4..] == payload + rest
    ensures |s| == 4 + |payload| + |rest| && s[4..4 + |payload|] == payload && s[4 + |payload|..] == rest
  {
    assert s[4..][..|payload|] == payload && s[4..][|payload|..] == rest;
  }

  /** The length as it goes over the network, whatever the byte order of the host. */
  method LengthHeader(length: int32, isLittleEndian: bool) returns (lengthHeader: array<byte>)
    ensures fresh(lengthHeader) && lengthHeader[..] == Reversed(WriteInt32(length))
  {
    var bytes := GetBytes(length, isLittleEndian);
    lengthHeader := new byte[] [bytes[0], bytes[1], bytes[2], bytes[3]];
    assert lengthHeader[..] == bytes;
    if isLittleEndian {
      ReverseInPlace(lengthHeader);
    }
  }

  /** What either end writes for one message. */
  method Send(wire: seq<byte>, data: Text, isLittleEndian: bool) returns (after: seq<byte>)
    ensures after == wire + Frame(data)
  {
    var lengthHeader := LengthHeader(|data|, isLittleEndian);
    after := wire + lengthHeader[..];
    after := after + data;
    Join(wire, lengthHeader[..], data);
  }

  // ----- decoding what was encoded -----

  lemma LengthOfFrame(m: Text, rest: seq<byte>)
    ensures LengthAt(Frame(m) + rest) == |m|
  {
    Capacities();
    LittleEndianRoundTrip(|m|, 4);
    assert Reversed((Frame(m) + rest)[..4]) == WriteInt32(|m|);
  }

  predicate Acceptable(role: Role, m: seq<byte>) {
    0 < |m| && (role.Server? ==> |m| <= MAX_FRAME)
  }

  lemma DecodeFrame(role: Role, m: Text, rest: seq<byte>)
    requires Acceptable(role, m)
    ensures var r := Decode(role, rest); Decode(role, Frame(m) + rest) == Reception([m] + r.messages, r.end)
  {
    LengthOfFrame(m, rest);
    var s := Frame(m) + rest;
    assert s[4..4 + |m|] == m && s[4 + |m|..] == rest;
  }

  /** The messages before the first one the server rejects. */
  function Accepted(ms: seq<Text>): seq<seq<byte>> {
    if ms == [] || !Acceptable(Server, ms[0]) then [] else [ms[0]] + Accepted(ms[1..])
  }

  function NonEmpty(ms: seq<Text>): seq<seq<byte>> {
    if ms == [] then [] else if ms[0] == [] then NonEmpty(ms[1..]) else [ms[0]] + NonEmpty(ms[1..])
  }

  /** The server delivers exactly the messages before the first empty or oversized one. */
  lemma {:induction false} ServerDelivers(ms: seq<Text>)
    ensures Decode(Server, EncodeAll(ms)).messages == Accepted(ms)
    ensures (forall i :: 0 <= i < |ms| ==> Acceptable(Server, ms[i]))
            <==> Decode(Server, EncodeAll(ms)) == Reception(ms, EndOfStream)
  {
    if ms != [] {
      ServerDelivers(ms[1..]);
      if Acceptable(Server, ms[0]) {
        DecodeFrame(Server, ms[0], EncodeAll(ms[1..]));
        OneMoreAcceptable(ms, Decode(Server, EncodeAll(ms[1..])));
      } else {
        LengthOfFrame(ms[0], EncodeAll(ms[1..]));
      }
    }
  }

  lemma OneMoreAcceptable(ms: seq<Text>, r: Reception)
    requires ms != [] && Acceptable(Server, ms[0])
    requires (forall i :: 0 <= i < |ms[1..]| ==> Acceptable(Server, ms[1..][i]))
            <==> r == Reception(ms[1..], EndOfStream)
    ensures (forall i :: 0 <= i < |ms| ==> Acceptable(Server, ms[i]))
            <==> Reception([ms[0]] + r.messages, r.end) == Reception(ms, EndOfStream)
  {
    assert ms == [ms[0]] + ms[1..];
    assert r.messages == ([ms[0]] + r.messages)[1..];
    if forall i :: 0 <= i < |ms| ==> Acceptable(Server, ms[i]) {
      assert forall i :: 0 <= i < |ms[1..]| ==> ms[1..][i] == ms[i + 1];
    } else {
      var i :| 0 <= i < |ms| && !Acceptable(Server, ms[i]);
      assert ms[1..][i - 1] == ms[i];
    }
  }

  /** The client delivers every message except the empty ones. */
  lemma {:induction false} ClientDelivers(ms: seq<Text>)
    ensures Decode(Client, EncodeAll(ms)).messages == NonEmpty(ms)
  {
    if ms != [] {
      ClientDelivers(ms[1..]);
      ClientDecodesOne(ms[0], EncodeAll(ms[1..]));
    }
  }

  lemma ClientDecodesOne(m: Text, rest: seq<byte>)
    ensures Decode(Client, Frame(m) + rest).messages == (if m == [] then [] else [m]) + Decode(Client, rest).messages
  {
    if m == [] {
      LengthOfFrame(m, rest);
      assert (Frame(m) + rest)[4..] == rest;
    } else {
      DecodeFrame(Client, m, rest);
    }
  }

  /** How many leading frames are complete within the first `k` bytes. */
  function Complete(ms: seq<Text>, k: int): nat {
    if ms == [] || k < |Frame(ms[0])| then 0 else 1 + Complete(ms[1..], k - |Frame(ms[0])|)
  }

  lemma {:induction false} CompleteIsMaximal(ms: seq<Text>, k: nat, j: nat)
    requires j <= |ms|
    ensures Complete(ms, k) <= |ms|
    ensures |EncodeAll(ms[..j])| <= k <==> j <= Complete(ms, k)
  {
    if ms != [] {
      if j == 0 {
        if k >= |Frame(ms[0])| {
          CompleteIsMaximal(ms[1..], k - |Frame(ms[0])|, 0);
        }
      } else {
        assert ms[..j][1..] == ms[1..][..j - 1];
        if k >= |Frame(ms[0])| {
          CompleteIsMaximal(ms[1..], k - |Frame(ms[0])|, j - 1);
        }
      }
    }
  }

  /** What a role delivers of the frames of a list of messages. */
  function Conveyed(role: Role, ms: seq<Text>): seq<seq<byte>> {
    if role.Server? then Accepted(ms) else NonEmpty(ms)
  }

  /** From any prefix of the stream, exactly those messages are delivered whose frames are complete and
      that the role delivers at all. */
  lemma {:induction false} PrefixDelivers(role: Role, ms: seq<Text>, k: nat)
    requires k <= |EncodeAll(ms)|
    ensures Complete(ms, k) <= |ms|
    ensures Decode(role, EncodeAll(ms)[..k]).messages == Conveyed(role, ms[..Complete(ms, k)])
  {
    if ms != [] {
      var frame, rest := Frame(ms[0]), EncodeAll(ms[1..]);
      if k < |frame| {
        CutFrame(role, ms[0], rest, k);
      } else {
        PrefixDelivers(role, ms[1..], k - |frame|);
        assert EncodeAll(ms)[..k] == frame + rest[..k - |frame|];
        TakeOneMore(ms, Complete(ms[1..], k - |frame|));
        DecodesNext(role, ms, rest[..k - |frame|], Complete(ms[1..], k - |frame|));
      }
    }
  }

  lemma DecodesNext(role: Role, ms: seq<Text>, rest: seq<byte>, n: nat)
    requires n < |ms| && ms[..n + 1] == [ms[0]] + ms[1..][..n]
    requires Decode(role, rest).messages == Conveyed(role, ms[1..][..n])
    ensures Decode(role, Frame(ms[0]) + rest).messages == Conveyed(role, ms[..n + 1])
  {
    assert ms[..n + 1][1..] == ms[1..][..n];
    if role.Client? {
      ClientDecodesOne(ms[0], rest);
    } else if Acceptable(Server, ms[0]) {
      DecodeFrame(Server, ms[0], rest);
    } else {
      LengthOfFrame(ms[0], rest);
    }
  }

  /** If every message is acceptable, they are the first so many messages themselves. */
  lemma {:induction false} AllDelivered(role: Role, ms: seq<Text>)
    requires forall i :: 0 <= i < |ms| ==> Acceptable(role, ms[i])
    ensures Conveyed(role, ms) == ms
  {
    if ms != [] {
      AllDelivered(role, ms[1..]);
      assert ms == [ms[0]] + ms[1..];
    }
  }

  lemma TakeOneMore(ms: seq<Text>, n: nat)
    requires n < |ms|
    ensures ms[..n + 1] == [ms[0]] + ms[1..][..n]
  {
  }

  lemma CutFrame(role: Role, m: Text, rest: seq<byte>, k: nat)
    requires k < |Frame(m)|
    ensures Decode(role, (Frame(m) + rest)[..k]).messages == []
  {
    var s := (Frame(m) + rest)[..k];
    if k >= 4 {
      LengthOfFrame(m, rest);
      assert s[..4] == (Frame(m) + rest)[..4];
    }
  }
}
