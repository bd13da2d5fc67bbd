/** The instructions of an operation: the keys that trigger it and its AFK limit, as a header
    followed by tagged sections. */
module InstructionsProtocol {
  import opened BinaryFormat
  import opened BinaryStreams
  import opened Bytes
  import opened Wrappers

  /** The AFK limit is the eight bytes of its number of milliseconds. */
  datatype Instructions = Instructions(keys: seq<seq<byte>>, afk: Option<seq<byte>>)

  const HEADER: Text := [86, 49, 46, 50]              // V1.2
  const KEYS_TAG: Text := [107, 101, 121, 115, 58]    // keys:
  const AFK_TAG: Text := [97, 102, 107, 58]           // afk:
  const NOTHING := Instructions([], None)

  datatype Section = Keys(keys: seq<Text>) | Afk(value: seq<byte>) | Unknown(tag: Text)

  ghost predicate WellFormed(section: Section) {
    match section
    case Keys(keys) => |keys| < 0x8000_0000
    case Afk(value) => |value| == 8
    case Unknown(tag) => tag != KEYS_TAG && tag != AFK_TAG
  }

  // ----- writing -----

  function WriteStrings(strings: seq<Text>): seq<byte> {
    if strings == [] then [] else WriteStrings(strings[..|strings| - 1]) + WriteString(strings[|strings| - 1])
  }

  function WriteKeys(keys: seq<Text>): seq<byte>
    requires |keys| < 0x8000_0000
  {
    Write7BitInt64(|keys|) + WriteStrings(keys)
  }

  function WriteSection(section: Section): seq<byte>
    requires section.Keys? ==> |section.keys| < 0x8000_0000
  {
    match section
    case Keys(keys) => WriteString(KEYS_TAG) + WriteKeys(keys)
    case Afk(value) => WriteString(AFK_TAG) + value
    case Unknown(tag) => WriteString(tag)
  }

  ghost function WriteSections(sections: seq<Section>): seq<byte>
    requires forall i :: 0 <= i < |sections| ==> WellFormed(sections[i])
  {
    if sections == [] then []
    else
      assert WellFormed(sections[0]);
      WriteSection(sections[0]) + WriteSections(sections[1..])
  }

  ghost function SectionsOf(keys: seq<Text>, afk: Option<seq<byte>>): seq<Section> {
    [Keys(keys)] + if afk.Some? then [Afk(afk.value)] else []
  }

  /** The bytes of an instruction block. */
  ghost function Serialized(keys: seq<Text>, afk: Option<seq<byte>>): seq<byte>
    requires |keys| < 0x8000_0000 && (afk.Some? ==> |afk.value| == 8)
  {
    WriteString(HEADER) + WriteSections(SectionsOf(keys, afk))
  }

  method SerializeInstructions(keys: seq<Text>, afk: Option<seq<byte>>) returns (bytes: seq<byte>)
    requires |keys| < 0x8000_0000 && (afk.Some? ==> |afk.value| == 8)
    ensures bytes == Serialized(keys, afk)
  {
    var writer := new BinaryWriter();
    writer.WriteString(HEADER);
    writer.WriteString(KEYS_TAG);
    writer.Write7BitEncodedInt64(|keys|);
    ghost var before := writer.stream;
    for i := 0 to |keys|
      invariant writer.stream == before + WriteStrings(keys[..i])
    {
      assert keys[..i + 1][..i] == keys[..i];
      Join(before, WriteStrings(keys[..i]), WriteString(keys[i]));
      writer.WriteString(keys[i]);
    }
    assert keys[..|keys|] == keys;
    if afk.Some? {
      writer.WriteString(AFK_TAG);
      writer.WriteBytes(afk.value);
    }
    bytes := writer.stream;
    InOrder(HEADER, KEYS_TAG, AFK_TAG, keys, afk, bytes);
  }

  /** The writer's calls put the sections one after the other. */
  lemma InOrder(header: Text, keysTag: Text, afkTag: Text, keys: seq<Text>, afk: Option<seq<byte>>, bytes: seq<byte>)
    requires |keys| < 0x8000_0000 && (afk.Some? ==> |afk.value| == 8)
    requires header == HEADER && keysTag == KEYS_TAG && afkTag == AFK_TAG
    requires var before := [] + WriteString(header) + WriteString(keysTag) + Write7BitInt64(|keys|)
            + WriteStrings(keys);
             bytes == if afk.Some? then before + WriteString(afkTag) + afk.value else before
    ensures bytes == Serialized(keys, afk)
  {
    SectionsWritten(keysTag, afkTag, keys, afk);
    var h, k, n, ks := WriteString(header), WriteString(keysTag), Write7BitInt64(|keys|), WriteStrings(keys);
    Regrouped(h, k, n, ks);
    if afk.Some? {
      Appended(h, k + (n + ks), WriteString(afkTag), afk.value);
    }
  }

  lemma SectionsWritten(keysTag: Text, afkTag: Text, keys: seq<Text>, afk: Option<seq<byte>>)
    requires |keys| < 0x8000_0000 && (afk.Some? ==> |afk.value| == 8)
    requires keysTag == KEYS_TAG && afkTag == AFK_TAG
    ensures WriteSections(SectionsOf(keys, afk))
            == if afk.Some? then (WriteString(keysTag) + WriteKeys(keys)) + (WriteString(afkTag) + afk.value)
               else WriteString(keysTag) + WriteKeys(keys)
  {
    var sections := SectionsOf(keys, afk);
    assert sections[0] == Keys(keys) && WriteSection(sections[0]) == WriteString(keysTag) + WriteKeys(keys);
    if afk.Some? {
      assert sections[1..] == [Afk(afk.value)] && sections[1..][1..] == [];
      assert WriteSections(sections[1..]) == WriteSection(Afk(afk.value)) + [];
    } else {
      assert sections[1..] == [];
    }
  }

  lemma Appended(a: seq<byte>, b: seq<byte>, c: seq<byte>, d: seq<byte>)
    ensures a + b + c + d == a + (b + (c + d))
  {
  }

  lemma Regrouped(h: seq<byte>, k: seq<byte>, n: seq<byte>, ks: seq<byte>)
    ensures [] + h + k + n + ks == h + (k + (n + ks))
  {
  }

  // ----- reading -----

  function ReadStrings(s: seq<byte>, count: int): (r: Read<seq<seq<byte>>>)
    ensures r.Got? ==> |r.rest| <= |s|
    decreases |s|
  {
    if count <= 0 then Got([], s)
    else
      match ReadString(s)
      case Bad => Bad
      case Got(head, rest) =>
        match ReadStrings(rest, count - 1)
        case Bad => Bad
        case Got(tail, after) => Got([head] + tail, after)
  }

  /** The sections after what has been read so far. */
  function ReadSections(s: seq<byte>, sofar: Instructions): Option<Instructions>
    decreases |s|
  {
    if s == [] then Some(sofar)
    else
      match ReadString(s)
      case Bad => None
      case Got(tag, rest) =>
        if tag == KEYS_TAG then
          match Read7BitInt64(rest)
          case Bad => None
          case Got(count, body) =>
            match ReadStrings(body, count)
            case Bad => None
            case Got(keys, after) => ReadSections(after, sofar.(keys := sofar.keys + keys))
        else if tag == AFK_TAG then
          match EightBytes(rest)
          case Bad => None
          case Got(value, after) => ReadSections(after, sofar.(afk := Some(value)))
        else ReadSections(rest, sofar)
  }

  function Deserialized(bytes: seq<byte>): Option<Instructions> {
    match ReadString(bytes)
    case Bad => None
    case Got(header, rest) => if header != HEADER then None else ReadSections(rest, NOTHING)
  }

  /** `count` strings appended to those already read; None when the stream ends too early. */
  method ReadKeys(reader: BinaryReader, count: int, sofar: seq<seq<byte>>) returns (r: Option<seq<seq<byte>>>)
    modifies reader
    ensures match ReadStrings(old(reader.stream), count)
            case Bad => r == None
            case Got(keys, after) => r == Some(sofar + keys) && reader.stream == after
  {
    var keys := sofar;
    var i := 0;
    while i < count
      invariant 0 <= i && (count > 0 ==> i <= count) && (count <= 0 ==> i == 0)
      invariant match ReadStrings(reader.stream, count - i)
                case Bad => ReadStrings(old(reader.stream), count) == Bad
                case Got(tail, after) =>
                  ReadStrings(old(reader.stream), count).Got? && ReadStrings(old(reader.stream), count).rest == after
                  && sofar + ReadStrings(old(reader.stream), count).value == keys + tail
      decreases |reader.stream|
    {
      var key := reader.ReadString();
      if key == None {
        return None;
      }
      keys := keys + [key.value];
      i := i + 1;
    }
    assert keys + [] == keys;
    return Some(keys);
  }

  /** None stands for the ProtocolViolationException that every failure becomes. */
  method DeserializeInstructions(instructions: seq<byte>) returns (r: Option<Instructions>)
    ensures r == Deserialized(instructions)
  {
    var reader := new BinaryReader(instructions);
    var header := reader.ReadString();
    if header != Some(HEADER) {
      return None;
    }
    var sofar := NOTHING;
    while reader.stream != []
      invariant Deserialized(instructions) == ReadSections(reader.stream, sofar)
      decreases |reader.stream|
    {
      var instructionType := reader.ReadString();
      if instructionType == None {
        return None;
      }
      if instructionType.value == KEYS_TAG {
        var keysLength := reader.Read7BitEncodedInt64();
        if keysLength == None {
          return None;
        }
        var keys := ReadKeys(reader, keysLength.value, sofar.keys);
        if keys == None {
          return None;
        }
        sofar := sofar.(keys := keys.value);
      } else if instructionType.value == AFK_TAG {
        var afk := reader.ReadDouble();
        if afk == None {
          return None;
        }
        sofar := sofar.(afk := afk);
      }
    }
    return Some(sofar);
  }

  // ----- reading what was written -----

  lemma {:induction false} StringsRoundTrip(strings: seq<Text>, rest: seq<byte>)
    ensures ReadStrings(WriteStrings(strings) + rest, |strings|) == Got(strings, rest)
    decreases |strings|
  {
    if strings == [] {
      assert WriteStrings(strings) + rest == rest;
    } else {
      WriteStringsFront(strings);
      Join(WriteString(strings[0]), WriteStrings(strings[1..]), rest);
      StringsRoundTrip(strings[1..], rest);
      OneStringRead(strings[0], WriteStrings(strings[1..]) + rest, |strings| - 1);
      assert strings == [strings[0]] + strings[1..];
    }
  }

  lemma OneStringRead(head: Text, rest: seq<byte>, count: nat)
    requires ReadStrings(rest, count).Got?
    ensures var r := ReadStrings(rest, count);
            ReadStrings(WriteString(head) + rest, count + 1) == Got([head] + r.value, r.rest)
  {
    StringRoundTrip(head, rest);
  }

  lemma {:induction false} WriteStringsFront(strings: seq<Text>)
    requires strings != []
    ensures WriteStrings(strings) == WriteString(strings[0]) + WriteStrings(strings[1..])
  {
    var init, tail := strings[..|strings| - 1], strings[1..];
    if init == [] {
      assert tail == [];
    } else {
      WriteStringsFront(init);
      assert tail[..|tail| - 1] == init[1..];
      Join(WriteString(strings[0]), WriteStrings(init[1..]), WriteString(strings[|strings| - 1]));
    }
  }

  /** What a sequence of sections means: keys accumulate, the last limit wins, unknown tags are nothing. */
  ghost function Meaning(sections: seq<Section>, sofar: Instructions): Instructions {
    if sections == [] then sofar
    else
      Meaning(sections[1..],
        match sections[0]
        case Keys(keys) => sofar.(keys := sofar.keys + keys)
        case Afk(value) => sofar.(afk := Some(value))
        case Unknown(_) => sofar)
  }

  lemma KeysRoundTrip(tag: Text, keys: seq<Text>, rest: seq<byte>, sofar: Instructions)
    requires tag == KEYS_TAG && |keys| < 0x8000_0000
    ensures ReadSections(WriteString(tag) + WriteKeys(keys) + rest, sofar)
            == ReadSections(rest, sofar.(keys := sofar.keys + keys))
  {
    Join(WriteString(tag), WriteKeys(keys), rest);
    StringRoundTrip(tag, WriteKeys(keys) + rest);
    Join(Write7BitInt64(|keys|), WriteStrings(keys), rest);
    SevenBitInt64RoundTrip(|keys|, WriteStrings(keys) + rest);
    StringsRoundTrip(keys, rest);
  }

  lemma AfkRoundTrip(tag: Text, value: seq<byte>, rest: seq<byte>, sofar: Instructions)
    requires tag == AFK_TAG && |value| == 8
    ensures ReadSections(WriteString(tag) + value + rest, sofar) == ReadSections(rest, sofar.(afk := Some(value)))
  {
    Join(WriteString(tag), value, rest);
    StringRoundTrip(tag, value + rest);
    assert (value + rest)[..8] == value && (value + rest)[8..] == rest;
    assert tag != KEYS_TAG;
  }

  lemma SectionRoundTrip(section: Section, rest: seq<byte>, sofar: Instructions)
    requires WellFormed(section)
    ensures ReadSections(WriteSection(section) + rest, sofar) == ReadSections(rest, Meaning([section], sofar))
  {
    assert [section][1..] == [];
    match section
    case Unknown(tag) => StringRoundTrip(tag, rest);
    case Afk(value) => AfkRoundTrip(AFK_TAG, value, rest, sofar);
    case Keys(keys) => KeysRoundTrip(KEYS_TAG, keys, rest, sofar);
  }

  /** For every sequence of well-formed sections, reading is the fold of their meanings. */
  lemma {:induction false} SectionsRoundTrip(sections: seq<Section>, sofar: Instructions)
    requires forall i :: 0 <= i < |sections| ==> WellFormed(sections[i])
    ensures ReadSections(WriteSections(sections), sofar) == Some(Meaning(sections, sofar))
  {
    if sections != [] {
      SectionRoundTrip(sections[0], WriteSections(sections[1..]), sofar);
      assert [sections[0]][1..] == [];
      SectionsRoundTrip(sections[1..], Meaning([sections[0]], sofar));
    }
  }

  lemma MeaningOfSections(keys: seq<Text>, afk: Option<seq<byte>>)
    ensures Meaning(SectionsOf(keys, afk), NOTHING) == Instructions(keys, afk)
  {
    var sections := SectionsOf(keys, afk);
    var first := Instructions(keys, None);
    assert sections[0] == Keys(keys) && [] + keys == keys;
    if afk.Some? {
      assert sections[1..] == [Afk(afk.value)] && sections[1..][1..] == [];
      assert Meaning(sections[1..], first) == Meaning([], Instructions(keys, afk));
    } else {
      assert sections[1..] == [];
    }
    assert Meaning(sections, NOTHING) == Meaning(sections[1..], first);
  }

  /** Deserializing what was serialized gives back the same keys and the same limit. */
  lemma InstructionsRoundTrip(keys: seq<Text>, afk: Option<seq<byte>>)
    requires |keys| < 0x8000_0000 && (afk.Some? ==> |afk.value| == 8)
    ensures Deserialized(Serialized(keys, afk)) == Some(Instructions(keys, afk))
  {
    HeaderRead(HEADER, WriteSections(SectionsOf(keys, afk)));
    SectionsRoundTrip(SectionsOf(keys, afk), NOTHING);
    MeaningOfSections(keys, afk);
  }

  lemma HeaderRead(header: Text, rest: seq<byte>)
    ensures Deserialized(WriteString(header) + rest) == if header == HEADER then ReadSections(rest, NOTHING) else None
  {
    StringRoundTrip(header, rest);
  }
}
