/** BinaryReader and BinaryWriter as objects that advance a stream. An exception is a None, after
    which the position no longer matters. */
module BinaryStreams {
  import opened BinaryFormat
  import opened Bytes
  import opened Int32
  import opened Wrappers

  /** What a read returns and leaves, in terms of the format. */
  ghost predicate Took<T>(read: Read<T>, result: Option<T>, rest: seq<byte>) {
    match read
    case Got(value, after) => result == Some(value) && rest == after
    case Bad => result == None
  }

  class BinaryReader {
    var stream: seq<byte>   // from the current position to the end

    constructor (stream: seq<byte>)
      ensures this.stream == stream
    {
      this.stream := stream;
    }

    method ReadInt32() returns (r: Option<int>)
      modifies this
      ensures Took(BinaryFormat.ReadInt32(old(stream)), r, stream)
    {
      match BinaryFormat.ReadInt32(stream)
      case Bad => r := None;
      case Got(value, rest) => r := Some(value); stream := rest;
    }

    method ReadInt64() returns (r: Option<int>)
      modifies this
      ensures Took(BinaryFormat.ReadInt64(old(stream)), r, stream)
    {
      match BinaryFormat.ReadInt64(stream)
      case Bad => r := None;
      case Got(value, rest) => r := Some(value); stream := rest;
    }

    method Read7BitEncodedInt() returns (r: Option<int>)
      modifies this
      ensures Took(Read7BitInt(old(stream)), r, stream)
    {
      match Read7BitInt(stream)
      case Bad => r := None;
      case Got(value, rest) => r := Some(value); stream := rest;
    }

    method Read7BitEncodedInt64() returns (r: Option<int>)
      modifies this
      ensures Took(Read7BitInt64(old(stream)), r, stream)
    {
      match Read7BitInt64(stream)
      case Bad => r := None;
      case Got(value, rest) => r := Some(value); stream := rest;
    }

    method ReadString() returns (r: Option<seq<byte>>)
      modifies this
      ensures Took(BinaryFormat.ReadString(old(stream)), r, stream)
    {
      match BinaryFormat.ReadString(stream)
      case Bad => r := None;
      case Got(value, rest) => r := Some(value); stream := rest;
    }

    method ReadBytes(count: int) returns (r: Option<seq<byte>>)
      modifies this
      ensures Took(BinaryFormat.ReadBytes(old(stream), count), r, stream)
    {
      match BinaryFormat.ReadBytes(stream, count)
      case Bad => r := None;
      case Got(value, rest) => r := Some(value); stream := rest;
    }

    method ReadByte() returns (r: Option<byte>)
      modifies this
      ensures Took(BinaryFormat.ReadByte(old(stream)), r, stream)
    {
      match BinaryFormat.ReadByte(stream)
      case Bad => r := None;
      case Got(value, rest) => r := Some(value); stream := rest;
    }

    method ReadBoolean() returns (r: Option<bool>)
      modifies this
      ensures Took(BinaryFormat.ReadBoolean(old(stream)), r, stream)
    {
      match BinaryFormat.ReadBoolean(stream)
      case Bad => r := None;
      case Got(value, rest) => r := Some(value); stream := rest;
    }

    /** Eight bytes whose meaning as a floating-point number is left alone. */
    method ReadDouble() returns (r: Option<seq<byte>>)
      modifies this
      ensures Took(EightBytes(old(stream)), r, stream)
    {
      match EightBytes(stream)
      case Bad => r := None;
      case Got(value, rest) => r := Some(value); stream := rest;
    }
  }

  function EightBytes(s: seq<byte>): Read<seq<byte>> {
    if |s| < 8 then Bad else Got(s[..8], s[8..])
  }

  class BinaryWriter {
    var stream: seq<byte>   // everything written

    constructor ()
      ensures stream == []
    {
      stream := [];
    }

    method WriteInt32(x: int32)
      modifies this
      ensures stream == old(stream) + BinaryFormat.WriteInt32(x)
    {
      stream := stream + BinaryFormat.WriteInt32(x);
    }

    method WriteInt64(x: int64)
      modifies this
      ensures stream == old(stream) + BinaryFormat.WriteInt64(x)
    {
      stream := stream + BinaryFormat.WriteInt64(x);
    }

    method Write7BitEncodedInt(x: int32)
      modifies this
      ensures stream == old(stream) + Write7BitInt(x)
    {
      stream := stream + Write7BitInt(x);
    }

    method Write7BitEncodedInt64(x: int64)
      modifies this
      ensures stream == old(stream) + Write7BitInt64(x)
    {
      stream := stream + Write7BitInt64(x);
    }

    method WriteString(s: Text)
      modifies this
      ensures stream == old(stream) + BinaryFormat.WriteString(s)
    {
      stream := stream + BinaryFormat.WriteString(s);
    }

    method WriteBytes(bytes: seq<byte>)
      modifies this
      ensures stream == old(stream) + bytes
    {
      stream := stream + bytes;
    }

    method WriteBoolean(b: bool)
      modifies this
      ensures stream == old(stream) + BinaryFormat.WriteBoolean(b)
    {
      stream := stream + BinaryFormat.WriteBoolean(b);
    }
  }
}
