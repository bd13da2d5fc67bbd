/** Operations as objects: the client's, whose state bytes and disposal flags change, and the codecs of
    both sides. */
module Operations {
  import opened BinaryFormat
  import opened BinaryStreams
  import opened Bytes
  import opened Handshake
  import opened Wrappers

  /** The client's OperationType. */
  class OperationType {
    const id: int64
    const instructions: Text
    var isDisposed: bool

    constructor (instructions: Text, id: int64)
      ensures this.instructions == instructions && this.id == id && !isDisposed
    {
      this.instructions, this.id, isDisposed := instructions, id, false;
    }

    method Dispose()
      modifies this
      ensures isDisposed
    {
      isDisposed := true;
    }
  }

  /** A list of the client's types as the server would see it. */
  function Templates(types: seq<OperationType>): (templates: seq<Template>)
    ensures |templates| == |types|
  {
    seq(|types|, i requires 0 <= i < |types| => Template(types[i].id, types[i].instructions))
  }

  /** How an await ends. */
  datatype Await = Returned | Cancelled | Faulted

  datatype Parsed = ReadFailed | NoType | TypeDisposed | Parsed(operation: ClientOperation)

  method WriteFields(writer: BinaryWriter, id: int64, vote: byte, state: Text)
    modifies writer
    ensures writer.stream == old(writer.stream) + WriteBody(id, vote, state)
  {
    ghost var before := writer.stream;
    writer.WriteInt64(id);
    writer.WriteBytes([vote]);
    writer.WriteInt32(|state|);
    writer.WriteBytes(state);
    Appended4(before, WriteInt64(id), [vote], WriteInt32(|state|), state);
  }

  lemma Appended4(before: seq<byte>, a: seq<byte>, b: seq<byte>, c: seq<byte>, d: seq<byte>)
    ensures before + a + b + c + d == before + (a + (b + (c + d)))
  {
  }

  class ClientOperation {
    const opType: OperationType
    const vote: byte
    var stateBytes: Text
    var isDisposed: bool

    constructor (opType: OperationType, vote: byte, stateBytes: Text)
      ensures this.opType == opType && this.vote == vote && this.stateBytes == stateBytes && !isDisposed
    {
      this.opType, this.vote, this.stateBytes, isDisposed := opType, vote, stateBytes, false;
    }

    method SetStateBytes(value: Text) returns (ok: bool)
      modifies this
      ensures ok <==> !old(isDisposed)
      ensures isDisposed == old(isDisposed) && stateBytes == if ok then value else old(stateBytes)
    {
      ok := !isDisposed;
      if ok {
        stateBytes := value;
      }
    }

    method Dispose()
      modifies this
      ensures isDisposed && stateBytes == if old(isDisposed) then old(stateBytes) else []
    {
      if !isDisposed {
        isDisposed := true;
        stateBytes := [];
      }
    }

    /** Whether the operation was written; None is the exception of reading the state of a disposed one. */
    method Serialize(writer: BinaryWriter) returns (ok: Option<bool>)
      modifies writer
      ensures ok == if opType.isDisposed then Some(false) else if isDisposed then None else Some(true)
      ensures ok == Some(false) ==> writer.stream == old(writer.stream)
      ensures ok == Some(true) ==> writer.stream == old(writer.stream) + WriteBody(opType.id, vote, stateBytes)
    {
      if opType.isDisposed {
        return Some(false);
      }
      if isDisposed {
        return None;
      }
      WriteFields(writer, opType.id, vote, stateBytes);
      return Some(true);
    }

    /** The packet that SendOperationAsync sends, if it sends one. */
    method Packet(disconnected: bool) returns (packet: Option<seq<byte>>)
      ensures packet == if disconnected || isDisposed || opType.isDisposed then None
                        else Some(WriteOperation(opType.id, vote, stateBytes))
    {
      if disconnected || isDisposed {
        return None;
      }
      var writer := new BinaryWriter();
      writer.WriteBoolean(false);
      assert writer.stream == WriteBoolean(false);
      var ok := Serialize(writer);
      if ok != Some(true) {
        return None;
      }
      return Some(writer.stream);
    }

    /** A call, given whether the loop finds the client connected and the token not cancelled, how the waits
        for the connection lock and for the network end, and whether the type and the token are still live
        under the lock. What is returned, None being an exception, and the packet handed to the network. */
    method SendOperationAsync(disconnected: bool, enters: bool, wait: Await, stillLive: bool, sending: Await)
        returns (result: Option<bool>, sent: Option<seq<byte>>)
      ensures sent == if disconnected || isDisposed || opType.isDisposed || !enters || wait != Returned || !stillLive
                      then None else Some(WriteOperation(opType.id, vote, stateBytes))
      ensures result == None ==> enters && (wait == Faulted || (sent.Some? && sending == Faulted))
      ensures !(disconnected || isDisposed || opType.isDisposed) && enters && wait == Faulted ==> result == None
      ensures sent.Some? ==> result == match sending case Returned => Some(true) case Cancelled => Some(false)
                                                     case Faulted => None
      ensures sent == None ==>
                (result == Some(true) <==> !(disconnected || isDisposed || opType.isDisposed) && !enters)
    {
      sent := None;
      var packet := Packet(disconnected);
      if packet == None {
        return Some(false), None;
      }
      if enters {
        if wait != Returned {
          return if wait == Faulted then None else Some(false), None;
        }
        if !stillLive {
          return Some(false), None;
        }
        sent := packet;
        if sending != Returned {
          return if sending == Faulted then None else Some(false), sent;
        }
      }
      return Some(true), sent;
    }
  }

  /** The client's Deserialize: what the server would read, unless the type has been disposed of. */
  method Deserialize(reader: BinaryReader, opList: seq<OperationType>) returns (r: Parsed)
    requires |reader.stream| < 0x8000_0000
    modifies reader
    ensures match BinaryFormat.ReadInt64(old(reader.stream))
            case Bad => r == ReadFailed
            case Got(id, _) =>
              if id <= 0 || id > |opList| then r == NoType
              else if opList[id - 1].isDisposed then r == TypeDisposed
              else
                match ReadOperation(old(reader.stream), Templates(opList))
                case Bad => r == ReadFailed
                case Got(op, rest) =>
                  r.Parsed? && op.Some? && r.operation.opType == opList[id - 1] && !r.operation.isDisposed
                  && r.operation.vote == op.value.vote && r.operation.stateBytes == op.value.state
                     && reader.stream == rest
  {
    var typeId := reader.ReadInt64();
    if typeId == None {
      return ReadFailed;
    }
    if typeId.value <= 0 || typeId.value > |opList| {
      return NoType;
    }
    var opType := opList[typeId.value - 1];
    if opType.isDisposed {
      return TypeDisposed;
    }
    var voteType := reader.ReadByte();
    if voteType == None {
      return ReadFailed;
    }
    var stateLength := reader.ReadInt32();
    if stateLength == None {
      return ReadFailed;
    }
    var stateBytes := reader.ReadBytes(stateLength.value);
    if stateBytes == None {
      return ReadFailed;
    }
    var operation := new ClientOperation(opType, voteType.value, stateBytes.value);
    return Parsed.Parsed(operation);
  }

  /** The server's Serialize. */
  method SerializeOnServer(operation: Operation, writer: BinaryWriter)
    requires |operation.state| < 0x8000_0000
    modifies writer
    ensures writer.stream == old(writer.stream) + WriteBody(operation.template.id, operation.vote, operation.state)
  {
    WriteFields(writer, operation.template.id, operation.vote, operation.state);
  }

  /** Sent by the client and read by the server, or written by the server and read by the client, an
      operation on one of the types keeps its type, its vote and its state. */
  lemma BothWays(types: seq<OperationType>, id: int64, vote: byte, state: Text, rest: seq<byte>)
    requires 1 <= id <= |types| && types[id - 1].id == id
    ensures ReadOperation(WriteBody(id, vote, state) + rest, Templates(types))
            == Got(Some(Operation(Template(id, types[id - 1].instructions), vote, state)), rest)
    ensures Dispatched(WriteOperation(id, vote, state), Templates(types))
            == Delivered(Operation(Template(id, types[id - 1].instructions), vote, state))
  {
    BodyRoundTrip(id, vote, state, rest, Templates(types));
    OperationRoundTrip(id, vote, state, Templates(types));
  }
}
