/** The packets of both sides byte by byte: what is written for an operation, a request, a table, a notice and an
    instruction block, and what is read from any bytes, among them those that nobody writes. */
module Packets {
  import opened BinaryFormat
  import opened ByteLayout
  import opened Bytes
  import opened Commands
  import opened Handshake
  import opened InstructionsProtocol
  import opened Int32
  import opened Wrappers

  // ----- operations -----

  lemma OperationBytes(id: int64, vote: byte, state: Text)
    requires id >= 0
    ensures WriteOperation(id, vote, state) == [0] + (Word8(id) + ([vote] + (Word4(|state|) + state)))
  {
    Int64Bytes(id);
    Int32Bytes(|state|);
  }

  /** What the server makes of a packet with the first byte 0, then the two words of an id, a vote, a length and what
      follows: an id outside its list is dropped, a negative length is malformed, and a state that is cut short is
      taken as it is. */
  lemma OperationRead(a: byte, b: byte, c: byte, d: byte, e: byte, f: byte, g: byte, h: byte, vote: byte,
      k: byte, l: byte, m: byte, n: byte, rest: seq<byte>, templates: seq<Template>)
    ensures var low, high := a + 256 * b + 0x1_0000 * c + 0x100_0000 * d, e + 256 * f + 0x1_0000 * g + 0x100_0000 * h;
            var id := low + 0x1_0000_0000 * (if h >= 128 then high - 0x1_0000_0000 else high);
            var length := k + 256 * l + 0x1_0000 * m + 0x100_0000 * n;
            Dispatched([0] + (([a, b, c, d] + [e, f, g, h]) + ([vote] + ([k, l, m, n] + rest))), templates)
            == if id < 1 || id > |templates| then Dropped
               else if n >= 128 then Malformed
               else Delivered(Operation(templates[id - 1], vote, if length > |rest| then rest else rest[..length]))
  {
    var s3 := [k, l, m, n] + rest;
    var s1 := [vote] + s3;
    var s := ([a, b, c, d] + [e, f, g, h]) + s1;
    assert ([0] + s)[1..] == s && s1[0] == vote && s1[1..] == s3;
    Int64Value(a, b, c, d, e, f, g, h, s1);
    Int32Value(k, l, m, n, rest);
  }

  /** A packet that ends before the state's length does is malformed, unless its id has been read and is outside the
      list. */
  lemma OperationCut(a: byte, b: byte, c: byte, d: byte, e: byte, f: byte, g: byte, h: byte, rest: seq<byte>,
      templates: seq<Template>)
    requires |rest| < 5
    ensures var low, high := a + 256 * b + 0x1_0000 * c + 0x100_0000 * d, e + 256 * f + 0x1_0000 * g + 0x100_0000 * h;
            var id := low + 0x1_0000_0000 * (if h >= 128 then high - 0x1_0000_0000 else high);
            Dispatched([0] + (([a, b, c, d] + [e, f, g, h]) + rest), templates)
            == if id < 1 || id > |templates| then Dropped else Malformed
    ensures Dispatched([0] + rest, templates) == Malformed
    ensures Dispatched([], templates) == Malformed
  {
    var s := ([a, b, c, d] + [e, f, g, h]) + rest;
    assert ([0] + s)[1..] == s && ([0] + rest)[1..] == rest;
    Int64Value(a, b, c, d, e, f, g, h, rest);
  }

  // ----- requests -----

  lemma ShortString(s: Text)
    requires |s| < 128
    ensures WriteString(s) == [|s|] + s
  {
    StringBytes(s);
  }

  lemma RequestBytes(result: Text)
    requires |result| < 128
    ensures WriteRequest(Initialize) == [1] + [4, 73, 78, 73, 84]
    ensures WriteRequest(Register) == [1] + [3, 82, 69, 71]
    ensures WriteRequest(Authenticate) == [1] + [4, 65, 85, 84, 72]
    ensures WriteRequest(Answer(result)) == [1] + ([8, 65, 85, 84, 72, 95, 82, 69, 83] + ([|result|] + result))
  {
    ShortString([73, 78, 73, 84]);
    ShortString([82, 69, 71]);
    ShortString([65, 85, 84, 72]);
    ShortString([65, 85, 84, 72, 95, 82, 69, 83]);
    assert Write7Bit(|result|) == [|result|];
  }

  /** Other commands are read and ignored, and so is what follows a known one without data. */
  lemma RequestRead(name: Text, rest: seq<byte>, templates: seq<Template>)
    requires |name| < 128
    ensures name !in {[73, 78, 73, 84], [82, 69, 71], [65, 85, 84, 72], [65, 85, 84, 72, 95, 82, 69, 83]} ==>
              Dispatched([1] + (([|name|] + name) + rest), templates) == Command(Unrecognised)
    ensures name == [73, 78, 73, 84] ==> Dispatched([1] + (([|name|] + name) + rest), templates) == Command(Initialize)
    ensures name == [82, 69, 71] ==> Dispatched([1] + (([|name|] + name) + rest), templates) == Command(Register)
    ensures name == [65, 85, 84, 72] ==>
              Dispatched([1] + (([|name|] + name) + rest), templates) == Command(Authenticate)
    ensures name == [65, 85, 84, 72, 95, 82, 69, 83] && rest == [] ==>
              Dispatched([1] + (([|name|] + name) + rest), templates) == Malformed
  {
    ShortString(name);
    StringRoundTrip(name, rest);
    var s := ([|name|] + name) + rest;
    assert ([1] + s)[1..] == s;
  }

  /** An answer that is cut short is taken as it is. */
  lemma AnswerRead(n: byte, rest: seq<byte>, templates: seq<Template>)
    requires n < 128
    ensures Dispatched([1] + ([8, 65, 85, 84, 72, 95, 82, 69, 83] + ([n] + rest)), templates)
            == Command(Answer(if n > |rest| then rest else rest[..n]))
  {
    var name: Text := [65, 85, 84, 72, 95, 82, 69, 83];
    ShortString(name);
    StringRoundTrip(name, [n] + rest);
    var s := [8, 65, 85, 84, 72, 95, 82, 69, 83] + ([n] + rest);
    assert [8] + name == [8, 65, 85, 84, 72, 95, 82, 69, 83];
    assert ([1] + s)[1..] == s && ([n] + rest)[1..] == rest;
  }

  // ----- the table -----

  lemma Heading()
    ensures WriteString(INIT) == [4, 73, 78, 73, 84]
    ensures WriteString(VERSION) == [8, 86, 79, 84, 69, 45, 50, 46, 51]
  {
    ShortString(INIT);
    ShortString(VERSION);
  }

  /** Version and number of entries, then the entries. */
  lemma {:induction false} TableBytes(templates: seq<Template>)
    requires |templates| < 0x8000_0000
    ensures InitFrame(templates) == [4, 73, 78, 73, 84]
               + ([8, 86, 79, 84, 69, 45, 50, 46, 51] + (Word4(|templates|) + WriteTemplates(templates)))
  {
    Heading();
    Int32Bytes(|templates|);
  }

  /** One after the other, each with its length, its instructions and its id. */
  lemma {:induction false} EntryBytes(templates: seq<Template>, t: Template)
    requires t.id >= 0
    ensures WriteTemplates([]) == []
    ensures WriteTemplates(templates + [t])
            == WriteTemplates(templates) + (Word4(|t.instructions|) + (t.instructions + Word8(t.id)))
  {
    Int32Bytes(|t.instructions|);
    Int64Bytes(t.id);
    assert (templates + [t])[..|templates|] == templates;
  }

  /** What the list says about an id is what its last template with that id does. */
  lemma {:induction false} TableEntries(templates: seq<Template>, id: int)
    ensures id in TableOf(templates) <==> exists i :: 0 <= i < |templates| && templates[i].id == id
    ensures forall i :: 0 <= i < |templates| && templates[i].id == id
                        && (forall j :: i < j < |templates| ==> templates[j].id != id) ==>
                          TableOf(templates)[id] == templates[i].instructions
  {
    if templates != [] {
      TableEntries(templates[..|templates| - 1], id);
    }
  }

  /** An answer with another version leaves the table alone, as does one that ends before the number of entries. */
  lemma OtherVersion(version: Text, rest: seq<byte>, table: Table)
    ensures version != [86, 79, 84, 69, 45, 50, 46, 51] ==>
              AfterInit(WriteString(version) + rest, table) == (Mismatch, table)
    ensures version == [86, 79, 84, 69, 45, 50, 46, 51] && |rest| < 4 ==>
              AfterInit(WriteString(version) + rest, table) == (Failed, table)
    ensures AfterInit([], table) == (Failed, table)
  {
    StringRoundTrip(version, rest);
  }

  /** One that ends in an entry's length leaves the entries before it, and none of those it replaces. */
  lemma {:induction false} CutTable(templates: seq<Template>, count: int32, part: seq<byte>, table: Table)
    requires |part| < 4
    ensures var s := [8, 86, 79, 84, 69, 45, 50, 46, 51] + (WriteInt32(count) + (WriteTemplates(templates) + part));
            && (count > |templates| ==> AfterInit(s, table) == (Failed, TableOf(templates)))
            && (count == |templates| ==> AfterInit(s, table) == (Completed, TableOf(templates)))
            && (count <= 0 ==> AfterInit(s, table) == (Completed, map[]))
  {
    Heading();
    CountRead(VERSION, count, WriteTemplates(templates) + part, table);
    AllEntriesRead(templates, count, part);
  }

  lemma {:induction false} AllEntriesRead(templates: seq<Template>, count: int, part: seq<byte>)
    requires |part| < 4
    ensures var r := ReadTemplates(WriteTemplates(templates) + part, count, map[]);
            && (count >= |templates| ==> r == (TableOf(templates), count == |templates|))
            && (count <= 0 ==> r == (map[], true))
  {
    if count >= |templates| {
      TemplatesRoundTrip(templates, |templates|, count, part);
      assert templates[|templates|..] == [] && templates[..|templates|] == templates;
      assert WriteTemplates([]) + part == part;
    }
  }

  lemma {:induction false} CountRead(version: Text, count: int32, entries: seq<byte>, table: Table)
    requires version == VERSION
    ensures var r := ReadTemplates(entries, count, map[]);
            AfterInit(WriteString(version) + (WriteInt32(count) + entries), table)
            == (if r.1 then Completed else Failed, r.0)
  {
    StringRoundTrip(version, WriteInt32(count) + entries);
    Int32RoundTrip(count, entries);
  }

  // ----- notices -----

  lemma Statuses()
    ensures WriteString(UPDATE) == [3, 85, 80, 68] && WriteString(MULTIPLIER) == [3, 77, 85, 76]
    ensures WriteString(ACCOUNT) == [3, 65, 67, 79]
  {
    ShortString(UPDATE);
    ShortString(MULTIPLIER);
    ShortString(ACCOUNT);
  }

  /** The frames of a change of multiplier and of account. The numbers `m` are the multiplier in groups of seven bits, a
      negative one being written as the word that stands for it. */
  lemma {:induction false} StatusBytes(multiplier: int32, name: Text, m: seq<byte>)
    requires |name| < 128 && m == Write7BitInt(multiplier)
    ensures Chained(m) && Groups(m) == if multiplier < 0 then multiplier + 0x1_0000_0000 else multiplier
    ensures 0 <= multiplier < 128 ==> m == [multiplier]
    ensures NoticeFrame(Multiplier(multiplier)) == [3, 85, 80, 68] + ([3, 77, 85, 76] + m)
    ensures NoticeFrame(Exchange(None, multiplier)) == [3, 85, 80, 68] + ([3, 65, 67, 79] + ([0] + m))
    ensures NoticeFrame(Exchange(Some(name), multiplier))
            == [3, 85, 80, 68] + ([3, 65, 67, 79] + (([1] + ([|name|] + name)) + m))
    ensures NoticeFrame(Deletion) == [3, 85, 80, 68] + ([3, 65, 67, 79] + [0])
  {
    Statuses();
    ShortString(name);
    SevenBitWords(multiplier, 0);
  }

  lemma Answers()
    ensures WriteString(AUTHENTICATE) == [4, 65, 85, 84, 72] && WriteString(END) == [3, 69, 78, 68]
    ensures WriteString(RESULT) == [8, 65, 85, 84, 72, 95, 82, 69, 83]
  {
    ShortString(AUTHENTICATE);
    ShortString(END);
    ShortString(RESULT);
  }

  lemma {:induction false} AnswerBytes(text: Text, success: bool)
    requires |text| < 128
    ensures NoticeFrame(Challenge(text)) == [4, 65, 85, 84, 72] + ([|text|] + text)
    ensures NoticeFrame(Verdict(success, text))
            == [8, 65, 85, 84, 72, 95, 82, 69, 83] + ([if success then 1 else 0] + ([|text|] + text))
    ensures NoticeFrame(EndSession) == [3, 69, 78, 68]
  {
    Answers();
    ShortString(text);
  }

  /** Nothing comes of an empty frame, nor of a status that is not known; one without its multiplier throws. */
  lemma {:induction false} StatusRead(c: Client, stat: Text, rest: seq<byte>)
    requires !c.disposed
    ensures AfterData(c, []) == (c, true)
    ensures stat != [77, 85, 76] && stat != [65, 67, 79] ==>
              AfterData(c, [3, 85, 80, 68] + (WriteString(stat) + rest)) == (c, true)
    ensures AfterData(c, [3, 85, 80, 68] + [3, 77, 85, 76]) == (c, false)
  {
    Statuses();
    StatusIn(c, UPDATE, stat, rest);
    StatusIn(c, UPDATE, MULTIPLIER, []);
    assert WriteString(MULTIPLIER) + [] == [3, 77, 85, 76];
  }

  lemma {:induction false} StatusIn(c: Client, command: Text, stat: Text, rest: seq<byte>)
    requires !c.disposed && command == UPDATE
    ensures AfterData(c, WriteString(command) + (WriteString(stat) + rest))
            == if stat == MULTIPLIER then
                 match Read7BitInt(rest) case Bad => (c, false) case Got(m, _) => (Multiplied(c, m), true)
               else if stat == ACCOUNT then AfterUpdate(c, WriteString(stat) + rest) else (c, true)
  {
    StringRoundTrip(command, WriteString(stat) + rest);
    StringRoundTrip(stat, rest);
  }

  /** The client throws on a frame that is cut short, with nothing changed: on a command or a status without its
      data, and on a change of account without a name. */
  lemma {:induction false} CutFrames(c: Client)
    requires !c.disposed
    ensures AfterData(c, [1]) == (c, false)
    ensures AfterData(c, [3, 85, 80, 68]) == (c, false)
    ensures AfterData(c, [3, 85, 80, 68] + [3, 65, 67, 79]) == (c, false)
    ensures AfterData(c, [3, 85, 80, 68] + ([3, 65, 67, 79] + [1])) == (c, false)
    ensures AfterData(c, [4, 65, 85, 84, 72]) == (c, false)
    ensures AfterData(c, [8, 65, 85, 84, 72, 95, 82, 69, 83]) == (c, false)
    ensures AfterData(c, [8, 65, 85, 84, 72, 95, 82, 69, 83] + [1]) == (c, false)
  {
    Statuses();
    Answers();
    assert ReadString([]) == Bad && ReadString([1]) == Bad;
    CutUpdate(c, UPDATE, []);
    CutUpdate(c, UPDATE, WriteString(ACCOUNT));
    CutUpdate(c, UPDATE, WriteString(ACCOUNT) + [1]);
    CutAccount(c, ACCOUNT);
    CutAnswer(c, AUTHENTICATE, []);
    CutAnswer(c, RESULT, []);
    CutAnswer(c, RESULT, [1]);
    assert [1][1..] == [];
    assert WriteString(UPDATE) + [] == WriteString(UPDATE);
    assert WriteString(AUTHENTICATE) + [] == WriteString(AUTHENTICATE);
    assert WriteString(RESULT) + [] == WriteString(RESULT);
  }

  lemma {:induction false} CutUpdate(c: Client, command: Text, rest: seq<byte>)
    requires !c.disposed && command == UPDATE
    ensures AfterData(c, WriteString(command) + rest) == AfterUpdate(c, rest)
    ensures AfterUpdate(c, []) == (c, false)
  {
    StringRoundTrip(command, rest);
  }

  lemma {:induction false} CutAccount(c: Client, stat: Text)
    requires stat == ACCOUNT
    ensures AfterUpdate(c, WriteString(stat)) == (c, false) && AfterUpdate(c, WriteString(stat) + [1]) == (c, false)
  {
    StringRoundTrip(stat, []);
    StringRoundTrip(stat, [1]);
    assert WriteString(stat) + [] == WriteString(stat);
    assert [1][1..] == [];
    assert ReadString([]) == Bad;
  }

  lemma {:induction false} CutAnswer(c: Client, command: Text, rest: seq<byte>)
    requires !c.disposed && ReadString(rest) == Bad
    requires command == AUTHENTICATE || (command == RESULT && (rest == [] || ReadString(rest[1..]) == Bad))
    ensures AfterData(c, WriteString(command) + rest) == (c, false)
  {
    StringRoundTrip(command, rest);
  }

  // ----- instruction blocks -----

  /** Strings one after the other, each with its length in one byte. */
  ghost function Listed(strings: seq<Text>): seq<byte>
    requires forall i :: 0 <= i < |strings| ==> |strings[i]| < 128
  {
    if strings == [] then [] else ([|strings[0]|] + strings[0]) + Listed(strings[1..])
  }

  lemma {:induction false} StringsListed(strings: seq<Text>)
    requires forall i :: 0 <= i < |strings| ==> |strings[i]| < 128
    ensures WriteStrings(strings) == Listed(strings)
    decreases |strings|
  {
    if strings != [] {
      WriteStringsFront(strings);
      ShortString(strings[0]);
      StringsListed(strings[1..]);
    }
  }

  lemma Tags()
    ensures WriteString(HEADER) == [4, 86, 49, 46, 50] && WriteString(KEYS_TAG) == [5, 107, 101, 121, 115, 58]
    ensures WriteString(AFK_TAG) == [4, 97, 102, 107, 58]
  {
    ShortString(HEADER);
    ShortString(KEYS_TAG);
    ShortString(AFK_TAG);
  }

  /** Header, number of keys, keys, and the limit if there is one. */
  lemma {:induction false} BlockBytes(keys: seq<Text>, limit: seq<byte>)
    requires |keys| < 128 && |limit| == 8 && forall i :: 0 <= i < |keys| ==> |keys[i]| < 128
    ensures Serialized(keys, None) == [4, 86, 49, 46, 50] + ([5, 107, 101, 121, 115, 58] + ([|keys|] + Listed(keys)))
    ensures Serialized(keys, Some(limit))
            == [4, 86, 49, 46, 50]
               + (([5, 107, 101, 121, 115, 58] + ([|keys|] + Listed(keys))) + ([4, 97, 102, 107, 58] + limit))
  {
    Tags();
    StringsListed(keys);
    SectionsWritten(KEYS_TAG, AFK_TAG, keys, None);
    SectionsWritten(KEYS_TAG, AFK_TAG, keys, Some(limit));
    assert Write7Bit(|keys|) == [|keys|];
  }

  /** A block with another header cannot be read; nor can one whose limit or whose keys are cut short. */
  lemma {:induction false} BlocksRefused(header: Text, count: int64, rest: seq<byte>)
    ensures header != [86, 49, 46, 50] ==> Deserialized(WriteString(header) + rest) == None
    ensures Deserialized([]) == None
    ensures |rest| < 8 ==> Deserialized([4, 86, 49, 46, 50] + ([4, 97, 102, 107, 58] + rest)) == None
    ensures count > 0 ==>
              Deserialized([4, 86, 49, 46, 50] + ([5, 107, 101, 121, 115, 58] + Write7BitInt64(count))) == None
  {
    Tags();
    HeaderRead(header, rest);
    HeaderRead(HEADER, [4, 97, 102, 107, 58] + rest);
    HeaderRead(HEADER, [5, 107, 101, 121, 115, 58] + Write7BitInt64(count));
    StringRoundTrip(AFK_TAG, rest);
    StringRoundTrip(KEYS_TAG, Write7BitInt64(count));
    SevenBitInt64RoundTrip(count, []);
    assert Write7BitInt64(count) + [] == Write7BitInt64(count);
  }

  /** Sections mean what each of them means after those before it. */
  lemma {:induction false} SectionsInTurn(before: seq<Section>, after: seq<Section>, sofar: Instructions)
    ensures Meaning(before + after, sofar) == Meaning(after, Meaning(before, sofar))
    decreases |before|
  {
    if before == [] {
      assert before + after == after;
    } else {
      var section, sections := before[0], before + after;
      assert sections[1..] == before[1..] + after && sections[0] == section;
      var next := match section
        case Keys(keys) => sofar.(keys := sofar.keys + keys)
        case Afk(value) => sofar.(afk := Some(value))
        case Unknown(_) => sofar;
      SectionsInTurn(before[1..], after, next);
      assert Meaning(sections, sofar) == Meaning(sections[1..], next);
    }
  }

  /** Keys are added, a limit replaces the one before, and a tag that is not known is nothing. */
  lemma {:induction false} SectionMeans(sofar: Instructions, keys: seq<Text>, limit: seq<byte>, tag: Text)
    ensures Meaning([Keys(keys)], sofar) == Instructions(sofar.keys + keys, sofar.afk)
    ensures Meaning([Afk(limit)], sofar) == Instructions(sofar.keys, Some(limit))
    ensures Meaning([Unknown(tag)], sofar) == sofar && Meaning([], sofar) == sofar
  {
    assert [Keys(keys)][1..] == [] && [Afk(limit)][1..] == [] && [Unknown(tag)][1..] == [];
  }
}
