/** The server's frames and what the client's handler makes of them: the table, the multiplier and the
    user that it shows, the answers it waits for, and the frames on which it throws. */
module Commands {
  import opened BinaryFormat
  import opened BinaryStreams
  import opened Bytes
  import opened Handshake
  import opened Int32
  import opened Wrappers

  const UPDATE: Text := [85, 80, 68]       // UPD
  const END: Text := [69, 78, 68]          // END
  const MULTIPLIER: Text := [77, 85, 76]   // MUL
  const ACCOUNT: Text := [65, 67, 79]      // ACO

  const DEFAULT_MULTIPLIER: int32 := 1

  datatype Event =
    | SessionEnded
    | UserChanged(user: Option<seq<byte>>)
    | MultiplierChanged(original: int, multiplier: int)

  /** The client's fields that its handler writes. Of the three things it may wait for only the first
      answer counts. */
  datatype Client = Client(
    table: Table,                         // _operationTypes
    handshake: Option<Outcome>,           // _handshakeCompletionSource
    challenge: Option<seq<byte>>,         // AuthenticationFetchToken
    result: Option<(bool, seq<byte>)>,    // AuthenticationResult
    user: Option<seq<byte>>,
    multiplier: int,                      // voteMultiplierCache
    disposed: bool,
    events: seq<Event>)

  const NEW := Client(map[], None, None, None, None, DEFAULT_MULTIPLIER, false, [])

  function First<T>(before: Option<T>, answer: T): Option<T> {
    if before.Some? then before else Some(answer)
  }

  // ----- the client's handler -----

  function Multiplied(c: Client, multiplier: int): Client {
    c.(multiplier := multiplier, events := c.events + [MultiplierChanged(c.multiplier, multiplier)])
  }

  function Renamed(c: Client, user: Option<seq<byte>>): Client {
    c.(user := user, events := c.events + [UserChanged(user)])
  }

  function ReadUser(s: seq<byte>): Read<Option<seq<byte>>> {
    match ReadBoolean(s)
    case Bad => Bad
    case Got(authorized, s1) =>
      if !authorized then Got(None, s1)
      else match ReadString(s1) case Bad => Bad case Got(name, rest) => Got(Some(name), rest)
  }

  /** After the command of an update: the client, and whether the handler returns. When it throws, what
      it has written by then stays. */
  function AfterUpdate(c: Client, s: seq<byte>): (Client, bool) {
    match ReadString(s)
    case Bad => (c, false)
    case Got(stat, s1) =>
      if stat == MULTIPLIER then
        match Read7BitInt(s1)
        case Bad => (c, false)
        case Got(multiplier, _) => (Multiplied(c, multiplier), true)
      else if stat == ACCOUNT then
        match ReadUser(s1)
        case Bad => (c, false)
        case Got(user, s2) =>
          match Read7BitInt(s2)
          case Bad => (Renamed(c, user), false)
          case Got(multiplier, _) =>
            var r := Renamed(c, user);
            (if multiplier == c.multiplier then r else Multiplied(r, multiplier), true)
      else (c, true)
  }

  function AfterResult(c: Client, s: seq<byte>): (Client, bool) {
    match ReadBoolean(s)
    case Bad => (c, false)
    case Got(success, s1) =>
      match ReadString(s1)
      case Bad => (c, false)
      case Got(reason, _) => (c.(result := First(c.result, (success, reason))), true)
  }

  function Ended(c: Client): Client {
    c.(events := c.events + [SessionEnded], disposed := true, table := map[])
  }

  /** After a frame: the client, and whether the handler returns. */
  function AfterData(c: Client, data: seq<byte>): (Client, bool) {
    if c.disposed || data == [] then (c, true)
    else
      match ReadString(data)
      case Bad => (c, false)
      case Got(command, s) =>
        if command == INIT then
          var (outcome, table) := AfterInit(s, c.table);
          (c.(table := table, handshake := First(c.handshake, outcome)), true)
        else if command == END then (Ended(c), true)
        else if command == AUTHENTICATE then
          match ReadString(s)
          case Bad => (c, false)
          case Got(token, _) => (c.(challenge := First(c.challenge, token)), true)
        else if command == RESULT then AfterResult(c, s)
        else if command == UPDATE then AfterUpdate(c, s)
        else (c, false)
  }

  class VotingClient {
    var operationTypes: Table
    var handshake: Option<Outcome>
    var fetchToken: Option<seq<byte>>
    var authenticationResult: Option<(bool, seq<byte>)>
    var user: Option<seq<byte>>
    var voteMultiplierCache: int
    var isDisposed: bool
    var events: seq<Event>

    function Contents(): Client
      reads this
    {
      Client(operationTypes, handshake, fetchToken, authenticationResult, user, voteMultiplierCache, isDisposed, events)
    }

    constructor ()
      ensures Contents() == NEW
    {
      operationTypes, handshake, fetchToken, authenticationResult := map[], None, None, None;
      user, voteMultiplierCache, isDisposed, events := None, DEFAULT_MULTIPLIER, false, [];
    }

    /** One entry read into the table. */
    method ReadEntry(reader: BinaryReader) returns (ok: bool)
      modifies this`operationTypes, reader
      ensures match ReadTemplate(old(reader.stream))
              case Bad => !ok && operationTypes == old(operationTypes)
              case Got(entry, rest) =>
                ok && reader.stream == rest
                && operationTypes == old(operationTypes)[entry.0 := entry.1]
    {
      var instructionsLength := reader.ReadInt32();
      if instructionsLength == None {
        return false;
      }
      var instructions := reader.ReadBytes(instructionsLength.value);
      if instructions == None {
        return false;
      }
      var typeId := reader.ReadInt64();
      if typeId == None {
        return false;
      }
      operationTypes := operationTypes[typeId.value := instructions.value];
      return true;
    }

    method ReadTable(reader: BinaryReader, arrayLength: int) returns (ok: bool)
      modifies this`operationTypes, reader
      ensures (operationTypes, ok) == ReadTemplates(old(reader.stream), arrayLength, old(operationTypes))
    {
      var i := 0;
      while i < arrayLength
        invariant 0 <= i && (i <= arrayLength || i == 0)
        invariant ReadTemplates(reader.stream, arrayLength - i, operationTypes)
               == ReadTemplates(old(reader.stream), arrayLength, old(operationTypes))
      {
        ok := ReadEntry(reader);
        if !ok {
          return;
        }
        i := i + 1;
      }
      return true;
    }

    /** The INIT case, whose exceptions fail the handshake and go no further. */
    method InitializeTable(reader: BinaryReader) returns (outcome: Outcome)
      modifies this`operationTypes, reader
      ensures (outcome, operationTypes) == AfterInit(old(reader.stream), old(operationTypes))
    {
      var versionString := reader.ReadString();
      if versionString == None {
        return Failed;
      }
      if versionString.value != VERSION {
        return Mismatch;
      }
      var arrayLength := reader.ReadInt32();
      if arrayLength == None {
        return Failed;
      }
      operationTypes := map[];
      var ok := ReadTable(reader, arrayLength.value);
      return if ok then Completed else Failed;
    }

    method ChangeMultiplier(multiplier: int)
      modifies this`voteMultiplierCache, this`events
      ensures Contents() == Multiplied(old(Contents()), multiplier)
    {
      events := events + [MultiplierChanged(voteMultiplierCache, multiplier)];
      voteMultiplierCache := multiplier;
    }

    method ChangeAccount(reader: BinaryReader) returns (ok: bool)
      modifies this`user, this`voteMultiplierCache, this`events, reader
      ensures match ReadUser(old(reader.stream))
              case Bad => !ok && Contents() == old(Contents())
              case Got(who, s) =>
                match Read7BitInt(s)
                case Bad => !ok && Contents() == Renamed(old(Contents()), who)
                case Got(multiplier, _) =>
                  var r := Renamed(old(Contents()), who);
                  ok && Contents() == if multiplier == r.multiplier then r else Multiplied(r, multiplier)
    {
      var authorized := reader.ReadBoolean();
      if authorized == None {
        return false;
      }
      var who: Option<seq<byte>> := None;
      if authorized.value {
        who := reader.ReadString();
        if who == None {
          return false;
        }
      }
      user, events := who, events + [UserChanged(who)];
      var newMultiplier := reader.Read7BitEncodedInt();
      if newMultiplier == None {
        return false;
      }
      if newMultiplier.value != voteMultiplierCache {
        ChangeMultiplier(newMultiplier.value);
      }
      return true;
    }

    method UpdateStatus(reader: BinaryReader) returns (ok: bool)
      modifies this`user, this`voteMultiplierCache, this`events, reader
      ensures (Contents(), ok) == AfterUpdate(old(Contents()), old(reader.stream))
    {
      var stat := reader.ReadString();
      if stat == None {
        return false;
      }
      if stat.value == MULTIPLIER {
        var multiplier := reader.Read7BitEncodedInt();
        if multiplier == None {
          return false;
        }
        ChangeMultiplier(multiplier.value);
      } else if stat.value == ACCOUNT {
        ok := ChangeAccount(reader);
        return;
      }
      return true;
    }

    method ReceiveResult(reader: BinaryReader) returns (ok: bool)
      modifies this`authenticationResult, reader
      ensures (Contents(), ok) == AfterResult(old(Contents()), old(reader.stream))
    {
      var success := reader.ReadBoolean();
      if success == None {
        return false;
      }
      var reason := reader.ReadString();
      if reason == None {
        return false;
      }
      authenticationResult := First(authenticationResult, (success.value, reason.value));
      return true;
    }

    /** Whether the handler returns; otherwise it throws. */
    method HandleIncomingData(data: seq<byte>) returns (ok: bool)
      modifies this
      ensures (Contents(), ok) == AfterData(old(Contents()), data)
    {
      if isDisposed || data == [] {
        return true;
      }
      var reader := new BinaryReader(data);
      var command := reader.ReadString();
      if command == None {
        return false;
      }
      if command.value == INIT {
        var outcome := InitializeTable(reader);
        handshake := First(handshake, outcome);
      } else if command.value == END {
        events, isDisposed, operationTypes := events + [SessionEnded], true, map[];
      } else if command.value == AUTHENTICATE {
        var token := reader.ReadString();
        if token == None {
          return false;
        }
        fetchToken := First(fetchToken, token.value);
      } else if command.value == RESULT {
        ok := ReceiveResult(reader);
        return;
      } else if command.value == UPDATE {
        ok := UpdateStatus(reader);
        return;
      } else {
        return false;
      }
      return true;
    }
  }

  // ----- the server's frames -----

  datatype Notice =
    | Types(templates: seq<Template>)                // the answer to INIT
    | Multiplier(multiplier: int32)
    | Exchange(user: Option<Text>, multiplier: int32)
    | Deletion                                       // the client's user has been deleted
    | Challenge(token: Text)
    | Verdict(success: bool, reason: Text)
    | EndSession

  function WriteUser(user: Option<Text>): seq<byte> {
    match user
    case None => WriteBoolean(false)
    case Some(name) => WriteBoolean(true) + WriteString(name)
  }

  function NoticeFrame(n: Notice): seq<byte>
    requires n.Types? ==> |n.templates| < 0x8000_0000
  {
    match n
    case Types(templates) => InitFrame(templates)
    case Multiplier(multiplier) => WriteString(UPDATE) + (WriteString(MULTIPLIER) + Write7BitInt(multiplier))
    case Exchange(user, multiplier) =>
      WriteString(UPDATE) + (WriteString(ACCOUNT) + (WriteUser(user) + Write7BitInt(multiplier)))
    case Deletion => WriteString(UPDATE) + (WriteString(ACCOUNT) + WriteUser(None))
    case Challenge(token) => WriteString(AUTHENTICATE) + WriteString(token)
    case Verdict(success, reason) => WriteString(RESULT) + (WriteBoolean(success) + WriteString(reason))
    case EndSession => WriteString(END)
  }

  predicate Framed(n: Notice) {
    (n.Types? ==> |n.templates| < 0x8000_0000) && |NoticeFrame(n)| < 0x8000_0000
  }

  /** The status that every client of a user gets when its multiplier changes. */
  method SendMultiplierUpdate(multiplier: int32) returns (frame: seq<byte>)
    ensures frame == NoticeFrame(Multiplier(multiplier))
  {
    var writer := new BinaryWriter();
    writer.WriteString(UPDATE);
    assert writer.stream == WriteString(UPDATE);
    writer.WriteString(MULTIPLIER);
    writer.Write7BitEncodedInt(multiplier);
    Join(WriteString(UPDATE), WriteString(MULTIPLIER), Write7BitInt(multiplier));
    frame := writer.stream;
  }

  /** The status of a client that has been put onto a user; None is the anonymous one. */
  method ExchangeUser(user: Option<Text>, multiplier: int32) returns (frame: seq<byte>)
    ensures frame == NoticeFrame(Exchange(user, multiplier))
  {
    var writer := new BinaryWriter();
    writer.WriteString(UPDATE);
    assert writer.stream == WriteString(UPDATE);
    writer.WriteString(ACCOUNT);
    writer.WriteBoolean(user.Some?);
    if user.Some? {
      Join(WriteString(UPDATE) + WriteString(ACCOUNT), WriteBoolean(true), WriteString(user.value));
      writer.WriteString(user.value);
    }
    assert writer.stream == (WriteString(UPDATE) + WriteString(ACCOUNT)) + WriteUser(user);
    writer.Write7BitEncodedInt(multiplier);
    frame := writer.stream;
    Appended4(WriteString(UPDATE), WriteString(ACCOUNT), WriteUser(user), Write7BitInt(multiplier));
  }

  /** The status of a client whose user has been deleted. */
  method HandleUserDeleted() returns (frame: seq<byte>)
    ensures frame == NoticeFrame(Deletion)
  {
    var writer := new BinaryWriter();
    writer.WriteString(UPDATE);
    assert writer.stream == WriteString(UPDATE);
    writer.WriteString(ACCOUNT);
    writer.WriteBoolean(false);
    Join(WriteString(UPDATE), WriteString(ACCOUNT), WriteBoolean(false));
    frame := writer.stream;
  }

  // ----- what the client makes of them -----

  /** What a frame means for a client that has not been disposed of. */
  function Meant(c: Client, n: Notice): Client {
    match n
    case Types(templates) => c.(table := TableOf(templates), handshake := First(c.handshake, Completed))
    case Multiplier(multiplier) => Multiplied(c, multiplier)
    case Exchange(user, multiplier) =>
      var r := Renamed(c, user);
      if multiplier == c.multiplier then r else Multiplied(r, multiplier)
    case Deletion => Renamed(c, None)
    case Challenge(token) => c.(challenge := First(c.challenge, token))
    case Verdict(success, reason) => c.(result := First(c.result, (success, reason)))
    case EndSession => Ended(c)
  }

  function AfterNotice(c: Client, n: Notice): Client {
    if c.disposed then c else Meant(c, n)
  }

  /** A client understands every frame of the server but one: at the deletion of its user it looks for a
      multiplier that the server has not written, and throws. */
  lemma NoticeArrives(c: Client, n: Notice)
    requires Framed(n)
    ensures AfterData(c, NoticeFrame(n)) == (AfterNotice(c, n), c.disposed || !n.Deletion?)
  {
    match n
    case Types(templates) => TypesArrive(c, templates);
    case Multiplier(multiplier) =>
      StringRoundTrip(UPDATE, WriteString(MULTIPLIER) + Write7BitInt(multiplier));
      StringRoundTrip(MULTIPLIER, Write7BitInt(multiplier));
      MultiplierRead(multiplier);
    case Exchange(user, multiplier) => ExchangeArrives(c, user, multiplier);
    case Deletion => DeletionArrives(c);
    case Challenge(token) =>
      StringRoundTrip(AUTHENTICATE, WriteString(token));
      LastString(token);
    case Verdict(success, reason) =>
      StringRoundTrip(RESULT, WriteBoolean(success) + WriteString(reason));
      VerdictRead(c, success, reason);
    case EndSession => LastString(END);
  }

  lemma TypesArrive(c: Client, templates: seq<Template>)
    requires |templates| < 0x8000_0000
    ensures AfterData(c, InitFrame(templates)) == (AfterNotice(c, Types(templates)), true)
  {
    StringRoundTrip(INIT, InitBody(templates));
    HandshakeAgrees(templates, c.table);
  }

  lemma DeletionArrives(c: Client)
    requires Framed(Deletion)
    ensures AfterData(c, NoticeFrame(Deletion)) == (AfterNotice(c, Deletion), c.disposed)
  {
    StringRoundTrip(UPDATE, WriteString(ACCOUNT) + WriteUser(None));
    StringRoundTrip(ACCOUNT, WriteUser(None));
    assert WriteUser(None)[1..] == [];
  }

  lemma VerdictRead(c: Client, success: bool, reason: Text)
    ensures AfterResult(c, WriteBoolean(success) + WriteString(reason)) == (Meant(c, Verdict(success, reason)), true)
  {
    var s := WriteBoolean(success) + WriteString(reason);
    assert s[0] == (if success then 1 else 0) && s[1..] == WriteString(reason);
    LastString(reason);
  }

  lemma MultiplierRead(multiplier: int32)
    ensures Read7BitInt(Write7BitInt(multiplier)) == Got(multiplier, [])
  {
    SevenBitIntRoundTrip(multiplier, []);
    assert Write7BitInt(multiplier) + [] == Write7BitInt(multiplier);
  }

  lemma LastString(text: Text)
    ensures ReadString(WriteString(text)) == Got(text, [])
  {
    StringRoundTrip(text, []);
    assert WriteString(text) + [] == WriteString(text);
  }

  lemma ExchangeArrives(c: Client, user: Option<Text>, multiplier: int32)
    requires Framed(Exchange(user, multiplier))
    ensures AfterData(c, NoticeFrame(Exchange(user, multiplier))) == (AfterNotice(c, Exchange(user, multiplier)), true)
  {
    var status := WriteUser(user) + Write7BitInt(multiplier);
    StringRoundTrip(UPDATE, WriteString(ACCOUNT) + status);
    ExchangeRead(c, user, multiplier);
  }

  lemma ExchangeRead(c: Client, user: Option<Text>, multiplier: int32)
    ensures AfterUpdate(c, WriteString(ACCOUNT) + (WriteUser(user) + Write7BitInt(multiplier)))
            == (Meant(c, Exchange(user, multiplier)), true)
  {
    StringRoundTrip(ACCOUNT, WriteUser(user) + Write7BitInt(multiplier));
    UserRead(user, Write7BitInt(multiplier));
    MultiplierRead(multiplier);
  }

  lemma UserRead(user: Option<Text>, rest: seq<byte>)
    ensures ReadUser(WriteUser(user) + rest) == Got(user, rest)
  {
    var s := WriteUser(user) + rest;
    if user.Some? {
      assert s[1..] == WriteString(user.value) + rest;
      StringRoundTrip(user.value, rest);
    } else {
      assert s[1..] == rest;
    }
  }

  /** So is any frame whose command the client does not know, such as [1, 88]. */
  lemma OtherCommandsThrow(c: Client, command: Text, rest: seq<byte>)
    requires !c.disposed && command !in {INIT, END, AUTHENTICATE, RESULT, UPDATE}
    ensures AfterData(c, WriteString(command) + rest) == (c, false)
    ensures WriteString([88]) == [1, 88]
  {
    StringRoundTrip(command, rest);
    assert Write7Bit(1) == [1];
  }
}
