/** The operation table: configured by Program, sent by the server in answer to INIT, read by the client;
    and the operations that both sides encode against it. */
module Handshake {
  import opened BinaryFormat
  import opened BinaryStreams
  import opened Bytes
  import opened Config
  import opened InstructionsProtocol
  import opened Wrappers

  /** The server's OperationType. */
  datatype Template = Template(id: int64, instructions: Text)

  type Table = map<int, seq<byte>>   // _operationTypes: id to instructions

  const INIT: Text := [73, 78, 73, 84]                              // INIT
  const VERSION: Text := [86, 79, 84, 69, 45, 50, 46, 51]           // VOTE-2.3

  /** How an answer to INIT leaves the handshake. The client awaits the same task whether the table was
      `Completed` or `Failed`. */
  datatype Outcome = Mismatch | Completed | Failed

  // ----- configuration -----

  ghost predicate Configurable(profile: ProfileConfig) {
    && |profile.keys| < 0x8000_0000 && (profile.afk.Some? ==> |profile.afk.value| == 8)
    && |Serialized(profile.keys, profile.afk)| < 0x8000_0000
  }

  /** The bytes are the profile's instruction block. */
  ghost predicate Block(profile: ProfileConfig, bytes: seq<byte>) {
    Configurable(profile) && bytes == Serialized(profile.keys, profile.afk)
  }

  /** Ids 1 to n in order, and the instructions of each profile. */
  ghost predicate SuiteOf(profiles: seq<ProfileConfig>, suite: seq<Template>) {
    && |suite| == |profiles| < 0x8000_0000
    && (forall i :: 0 <= i < |suite| ==> suite[i].id == i + 1)
    && (forall i {:trigger Block(profiles[i], suite[i].instructions)} ::
          0 <= i < |suite| ==> Block(profiles[i], suite[i].instructions))
  }

  /** The ids of a table are the places of a list, counted from one. */
  ghost predicate Numbered<T>(table: map<int, T>, list: seq<T>) {
    && (forall id :: id in table <==> 1 <= id <= |list|)
    && (forall id :: id in table ==> table[id] == list[id - 1])
  }

  /** Program's loop over the profiles, from a counter that has not been used. */
  method ConfigureProfiles(profiles: seq<ProfileConfig>)
    returns (operationalSuite: seq<Template>, profileMapping: map<int, ProfileConfig>)
    requires |profiles| < 0x8000_0000
    requires forall i {:trigger Configurable(profiles[i])} :: 0 <= i < |profiles| ==> Configurable(profiles[i])
    ensures SuiteOf(profiles, operationalSuite)
    ensures Numbered(profileMapping, profiles)
  {
    var idCounter := 0;
    operationalSuite, profileMapping := [], map[];
    for i := 0 to |profiles|
      invariant idCounter == i
      invariant SuiteOf(profiles[..i], operationalSuite)
      invariant Numbered(profileMapping, profiles[..i])
    {
      idCounter := idCounter + 1;
      var targetId := idCounter;
      var packedBytes := PackProfile(profiles[i]) by {
        assert Configurable(profiles[i]);
      }
      SuiteGrows(profiles, operationalSuite, i, Template(targetId, packedBytes));
      NumberedGrows(profileMapping, profiles, i);
      operationalSuite := operationalSuite + [Template(targetId, packedBytes)];
      profileMapping := profileMapping[targetId := profiles[i]];
    }
    assert profiles[..|profiles|] == profiles;
  }

  method PackProfile(profile: ProfileConfig) returns (packedBytes: Text)
    requires Configurable(profile)
    ensures Block(profile, packedBytes)
  {
    packedBytes := SerializeInstructions(profile.keys, profile.afk);
  }

  lemma SuiteGrows(profiles: seq<ProfileConfig>, suite: seq<Template>, i: nat, t: Template)
    requires i < |profiles| < 0x8000_0000 && SuiteOf(profiles[..i], suite)
    requires t.id == i + 1 && Block(profiles[i], t.instructions)
    ensures SuiteOf(profiles[..i + 1], suite + [t])
  {
    var longer, more := profiles[..i + 1], suite + [t];
    forall j | 0 <= j < |more| ensures Block(longer[j], more[j].instructions) {
      if j < i {
        assert Block(profiles[..i][j], suite[j].instructions);
      }
    }
  }

  lemma NumberedGrows<T>(table: map<int, T>, list: seq<T>, i: nat)
    requires i < |list| && Numbered(table, list[..i])
    ensures Numbered(table[i + 1 := list[i]], list[..i + 1])
  {
  }

  // ----- the table on the wire -----

  function WriteTemplate(t: Template): seq<byte> {
    WriteInt32(|t.instructions|) + (t.instructions + WriteInt64(t.id))
  }

  function WriteTemplates(templates: seq<Template>): seq<byte> {
    if templates == [] then []
    else WriteTemplates(templates[..|templates| - 1]) + WriteTemplate(templates[|templates| - 1])
  }

  /** The server's answer to INIT. */
  function InitFrame(templates: seq<Template>): seq<byte>
    requires |templates| < 0x8000_0000
  {
    WriteString(INIT) + InitBody(templates)
  }

  function InitBody(templates: seq<Template>): seq<byte>
    requires |templates| < 0x8000_0000
  {
    WriteString(VERSION) + (WriteInt32(|templates|) + WriteTemplates(templates))
  }

  method SendTable(templates: seq<Template>) returns (bytes: seq<byte>)
    requires |templates| < 0x8000_0000
    ensures bytes == InitFrame(templates)
  {
    var writer := new BinaryWriter();
    writer.WriteString(INIT);
    assert writer.stream == WriteString(INIT);
    writer.WriteString(VERSION);
    writer.WriteInt32(|templates|);
    ghost var before := writer.stream;
    for i := 0 to |templates|
      invariant writer.stream == before + WriteTemplates(templates[..i])
    {
      assert templates[..i + 1][..i] == templates[..i];
      ghost var s, t := writer.stream, templates[i];
      writer.WriteInt32(|templates[i].instructions|);
      writer.WriteBytes(templates[i].instructions);
      writer.WriteInt64(templates[i].id);
      Appended3(before, WriteTemplates(templates[..i]), WriteInt32(|t.instructions|), t.instructions, WriteInt64(t.id));
    }
    assert templates[..|templates|] == templates;
    bytes := writer.stream;
    Appended4(WriteString(INIT), WriteString(VERSION), WriteInt32(|templates|), WriteTemplates(templates));
  }

  lemma Appended3(a: seq<byte>, b: seq<byte>, c: seq<byte>, d: seq<byte>, e: seq<byte>)
    ensures (a + b) + c + d + e == a + (b + (c + (d + e)))
  {
  }

  lemma Appended4(a: seq<byte>, b: seq<byte>, c: seq<byte>, d: seq<byte>)
    ensures a + b + c + d == a + (b + (c + d))
  {
  }

  /** One entry of the table; an instruction block may be cut short by the end of the frame. */
  function ReadTemplate(s: seq<byte>): (r: Read<(int, seq<byte>)>)
    ensures r.Got? ==> |r.rest| < |s|
  {
    match ReadInt32(s)
    case Bad => Bad
    case Got(length, s1) =>
      match ReadBytes(s1, length)
      case Bad => Bad
      case Got(instructions, s2) =>
        match ReadInt64(s2)
        case Bad => Bad
        case Got(id, rest) => Got((id, instructions), rest)
  }

  /** `count` more entries; on failure the entries read so far stay in the table. */
  function ReadTemplates(s: seq<byte>, count: int, table: Table): (Table, bool)
    decreases |s|
  {
    if count <= 0 then (table, true)
    else
      match ReadTemplate(s)
      case Bad => (table, false)
      case Got(entry, rest) => ReadTemplates(rest, count - 1, table[entry.0 := entry.1])
  }

  /** The client's reading of an answer to INIT, after the command: the table is cleared only once the
      version is right and the number of entries has been read. */
  function AfterInit(s: seq<byte>, table: Table): (Outcome, Table) {
    match ReadString(s)
    case Bad => (Failed, table)
    case Got(version, s1) =>
      if version != VERSION then (Mismatch, table)
      else
        match ReadInt32(s1)
        case Bad => (Failed, table)
        case Got(count, s2) =>
          var (filled, ok) := ReadTemplates(s2, count, map[]);
          (if ok then Completed else Failed, filled)
  }

  // ----- the client's table is the server's list -----

  /** What the list says about an id: the last template with that id. */
  function TableOf(templates: seq<Template>): Table {
    if templates == [] then map[]
    else
      var t := templates[|templates| - 1];
      TableOf(templates[..|templates| - 1])[t.id := t.instructions]
  }

  lemma TemplateRoundTrip(t: Template, rest: seq<byte>)
    ensures ReadTemplate(WriteTemplate(t) + rest) == Got((t.id, t.instructions), rest)
  {
    var instructions, id := t.instructions, WriteInt64(t.id);
    Join(WriteInt32(|instructions|), instructions + id, rest);
    Int32RoundTrip(|instructions|, (instructions + id) + rest);
    Join(instructions, id, rest);
    var tail := instructions + (id + rest);
    assert tail[..|instructions|] == instructions && tail[|instructions|..] == id + rest;
    Int64RoundTrip(t.id, rest);
  }

  lemma {:induction false} TemplatesRoundTrip(templates: seq<Template>, n: nat, count: int, rest: seq<byte>)
    requires n <= |templates| && n <= count
    ensures ReadTemplates(WriteTemplates(templates) + rest, count, map[])
            == ReadTemplates(WriteTemplates(templates[n..]) + rest, count - n, TableOf(templates[..n]))
  {
    if n == 0 {
      assert templates[0..] == templates && templates[..0] == [];
    } else {
      TemplatesRoundTrip(templates, n - 1, count, rest);
      var tail, t := templates[n - 1..], templates[n - 1];
      WriteTemplatesFront(tail);
      assert tail[0] == t && tail[1..] == templates[n..];
      Join(WriteTemplate(t), WriteTemplates(templates[n..]), rest);
      TemplateRoundTrip(t, WriteTemplates(templates[n..]) + rest);
      assert templates[..n][..n - 1] == templates[..n - 1];
    }
  }

  lemma {:induction false} WriteTemplatesFront(templates: seq<Template>)
    requires templates != []
    ensures WriteTemplates(templates) == WriteTemplate(templates[0]) + WriteTemplates(templates[1..])
  {
    var init, tail := templates[..|templates| - 1], templates[1..];
    if init == [] {
      assert tail == [];
    } else {
      WriteTemplatesFront(init);
      assert tail[..|tail| - 1] == init[1..];
      Join(WriteTemplate(templates[0]), WriteTemplates(init[1..]), WriteTemplate(templates[|templates| - 1]));
    }
  }

  /** Whatever the client's table held, the frame replaces it by the server's list. */
  lemma HandshakeAgrees(templates: seq<Template>, table: Table)
    requires |templates| < 0x8000_0000
    ensures AfterInit(InitBody(templates), table) == (Completed, TableOf(templates))
  {
    StringRoundTrip(VERSION, WriteInt32(|templates|) + WriteTemplates(templates));
    Int32RoundTrip(|templates|, WriteTemplates(templates));
    TableRead(templates);
  }

  lemma TableRead(templates: seq<Template>)
    ensures ReadTemplates(WriteTemplates(templates), |templates|, map[]) == (TableOf(templates), true)
  {
    TemplatesRoundTrip(templates, |templates|, |templates|, []);
    assert WriteTemplates(templates) + [] == WriteTemplates(templates);
    assert templates[..|templates|] == templates;
  }

  /** With ids 1 to n the table maps each id to the template at its place. */
  lemma {:induction false} DenseTable(templates: seq<Template>)
    requires forall i :: 0 <= i < |templates| ==> templates[i].id == i + 1
    ensures forall id :: id in TableOf(templates) <==> 1 <= id <= |templates|
    ensures forall id :: id in TableOf(templates) ==> TableOf(templates)[id] == templates[id - 1].instructions
  {
    if templates != [] {
      DenseTable(templates[..|templates| - 1]);
    }
  }

  // ----- operations -----

  /** The server's Operation. */
  datatype Operation = Operation(template: Template, vote: byte, state: seq<byte>)

  /** An operation as both sides write it. */
  function WriteBody(id: int64, vote: byte, state: Text): seq<byte> {
    WriteInt64(id) + ([vote] + (WriteInt32(|state|) + state))
  }

  /** The client's frame for an operation on the type with that id. */
  function WriteOperation(id: int64, vote: byte, state: Text): seq<byte> {
    WriteBoolean(false) + WriteBody(id, vote, state)
  }

  /** The server's reading after the leading boolean: None for an id that is not in its list. */
  function ReadOperation(s: seq<byte>, templates: seq<Template>): Read<Option<Operation>> {
    match ReadInt64(s)
    case Bad => Bad
    case Got(id, s1) =>
      if id <= 0 || id > |templates| then Got(None, s1)
      else
        match ReadByte(s1)
        case Bad => Bad
        case Got(vote, s2) =>
          match ReadInt32(s2)
          case Bad => Bad
          case Got(length, s3) =>
            match ReadBytes(s3, length)
            case Bad => Bad
            case Got(state, rest) => Got(Some(Operation(templates[id - 1], vote, state)), rest)
  }

  // ----- requests -----

  const REGISTER: Text := [82, 69, 71]                              // REG
  const AUTHENTICATE: Text := [65, 85, 84, 72]                      // AUTH
  const RESULT: Text := [65, 85, 84, 72, 95, 82, 69, 83]            // AUTH_RES

  /** The client's commands; `Unrecognised` ones are ignored. */
  datatype Request = Initialize | Register | Authenticate | Answer(result: seq<byte>) | Unrecognised

  /** The client's frame for a command; an `Unrecognised` one stands for no frame in particular. */
  function WriteRequest(request: Request): seq<byte>
    requires !request.Unrecognised? && (request.Answer? ==> |request.result| < 0x8000_0000)
  {
    WriteBoolean(true) +
    match request
    case Initialize => WriteString(INIT)
    case Register => WriteString(REGISTER)
    case Authenticate => WriteString(AUTHENTICATE)
    case Answer(result) => WriteString(RESULT) + (Write7BitInt(|result|) + result)
  }

  /** The server's reading after the leading boolean. */
  function ReadRequest(s: seq<byte>): Read<Request> {
    match ReadString(s)
    case Bad => Bad
    case Got(command, s1) =>
      if command == INIT then Got(Initialize, s1)
      else if command == REGISTER then Got(Register, s1)
      else if command == AUTHENTICATE then Got(Authenticate, s1)
      else if command != RESULT then Got(Unrecognised, s1)
      else
        match Read7BitInt(s1)
        case Bad => Bad
        case Got(length, s2) =>
          match ReadBytes(s2, length)
          case Bad => Bad
          case Got(result, rest) => Got(Answer(result), rest)
  }

  /** Every command arrives as it was sent. */
  lemma {:induction false} RequestRoundTrip(request: Request, templates: seq<Template>)
    requires !request.Unrecognised? && (request.Answer? ==> |request.result| < 0x8000_0000)
    ensures Dispatched(WriteRequest(request), templates) == Command(request)
  {
    assert WriteRequest(request)[0] == 1;
    match request
    case Initialize => Alone(INIT, WriteRequest(request));
    case Register => Alone(REGISTER, WriteRequest(request));
    case Authenticate => Alone(AUTHENTICATE, WriteRequest(request));
    case Answer(result) => AnswerAlone(RESULT, result, WriteRequest(request));
  }

  lemma {:induction false} AnswerAlone(command: Text, result: Text, packet: seq<byte>)
    requires command == RESULT
    requires packet == WriteBoolean(true) + (WriteString(command) + (Write7BitInt(|result|) + result))
    ensures ReadRequest(packet[1..]) == Got(Answer(result), [])
  {
    var tail := Write7BitInt(|result|) + result;
    assert packet[1..] == WriteString(command) + tail;
    StringRoundTrip(command, tail);
    SevenBitIntRoundTrip(|result|, result);
    assert |command| == 8 && |INIT| == |AUTHENTICATE| == 4 && |REGISTER| == 3;
    assert result[..|result|] == result;
  }

  lemma Alone(command: Text, packet: seq<byte>)
    requires packet == WriteBoolean(true) + WriteString(command)
    ensures ReadString(packet[1..]) == Got(command, [])
  {
    assert packet[1..] == WriteString(command) + [];
    StringRoundTrip(command, []);
  }

  /** What the server makes of a packet. */
  datatype Dispatch = Command(request: Request) | Malformed | Dropped | Delivered(operation: Operation)

  /** ProcessIncomingFrameAsync up to the point where it acts on what it has read. */
  function Dispatched(packet: seq<byte>, templates: seq<Template>): Dispatch {
    match ReadBoolean(packet)
    case Bad => Malformed
    case Got(isCommand, rest) =>
      if isCommand then
        match ReadRequest(rest)
        case Bad => Malformed
        case Got(request, _) => Command(request)
      else
        match ReadOperation(rest, templates)
        case Bad => Malformed
        case Got(None, _) => Dropped
        case Got(Some(op), _) => Delivered(op)
  }

  method ProcessCommand(reader: BinaryReader) returns (r: Dispatch)
    modifies reader
    ensures r == match ReadRequest(old(reader.stream)) case Bad => Malformed case Got(request, _) => Command(request)
  {
    var cmd := reader.ReadString();
    if cmd == None {
      return Malformed;
    }
    if cmd.value == INIT {
      return Command(Initialize);
    } else if cmd.value == REGISTER {
      return Command(Register);
    } else if cmd.value == AUTHENTICATE {
      return Command(Authenticate);
    } else if cmd.value == RESULT {
      var length := reader.Read7BitEncodedInt();
      if length == None {
        return Malformed;
      }
      var result := reader.ReadBytes(length.value);
      if result == None {
        return Malformed;
      }
      return Command(Answer(result.value));
    }
    return Command(Unrecognised);
  }

  method ProcessIncomingFrame(packet: seq<byte>, templates: seq<Template>) returns (r: Dispatch)
    ensures r == Dispatched(packet, templates)
  {
    var reader := new BinaryReader(packet);
    var isCommand := reader.ReadBoolean();
    if isCommand == None {
      return Malformed;
    }
    if isCommand.value {
      r := ProcessCommand(reader);
      return;
    }
    var typeId := reader.ReadInt64();
    if typeId == None {
      return Malformed;
    }
    if typeId.value <= 0 || typeId.value > |templates| {
      return Dropped;
    }
    var template := templates[typeId.value - 1];
    var voteType := reader.ReadByte();
    if voteType == None {
      return Malformed;
    }
    var stateLength := reader.ReadInt32();
    if stateLength == None {
      return Malformed;
    }
    var stateBytes := reader.ReadBytes(stateLength.value);
    if stateBytes == None {
      return Malformed;
    }
    return Delivered(Operation(template, voteType.value, stateBytes.value));
  }

  /** An operation on an id of the list is read back with its template, vote and state; on any other
      id nothing is read after the id. */
  lemma BodyRoundTrip(id: int64, vote: byte, state: Text, rest: seq<byte>, templates: seq<Template>)
    ensures 1 <= id <= |templates| ==>
              ReadOperation(WriteBody(id, vote, state) + rest, templates)
                  == Got(Some(Operation(templates[id - 1], vote, state)), rest)
    ensures !(1 <= id <= |templates|) ==>
              ReadOperation(WriteBody(id, vote, state) + rest, templates)
              == Got(None, ([vote] + (WriteInt32(|state|) + state)) + rest)
  {
    var tail := WriteInt32(|state|) + state;
    Join(WriteInt64(id), [vote] + tail, rest);
    Int64RoundTrip(id, ([vote] + tail) + rest);
    if 1 <= id <= |templates| {
      assert (([vote] + tail) + rest)[0] == vote && (([vote] + tail) + rest)[1..] == tail + rest;
      StateRead(state, rest);
    }
  }

  lemma StateRead(state: Text, rest: seq<byte>)
    ensures ReadInt32((WriteInt32(|state|) + state) + rest) == Got(|state|, state + rest)
    ensures ReadBytes(state + rest, |state|) == Got(state, rest)
  {
    Join(WriteInt32(|state|), state, rest);
    Int32RoundTrip(|state|, state + rest);
    assert (state + rest)[..|state|] == state && (state + rest)[|state|..] == rest;
  }

  /** Every operation on an id of the list arrives with its template, vote and state; every other is dropped. */
  lemma OperationRoundTrip(id: int64, vote: byte, state: Text, templates: seq<Template>)
    ensures Dispatched(WriteOperation(id, vote, state), templates)
            == if 1 <= id <= |templates| then Delivered(Operation(templates[id - 1], vote, state)) else Dropped
  {
    var packet := WriteOperation(id, vote, state);
    assert packet[0] == 0 && packet[1..] == WriteBody(id, vote, state);
    BodyRoundTrip(id, vote, state, [], templates);
    assert WriteBody(id, vote, state) + [] == WriteBody(id, vote, state);
  }
}
