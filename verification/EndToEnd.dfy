/** The wire stack put together: from the server's configuration to the client's keys, and from the
    client's operations back to the server's templates. */
module EndToEnd {
  import opened BinaryFormat
  import opened Bytes
  import opened Config
  import opened Framing
  import opened Handshake
  import opened InstructionsProtocol
  import opened Wrappers
  import Commands

  // ----- operations -----

  datatype Vote = Vote(id: int64, vote: byte, state: Text)

  predicate Sendable(v: Vote) {
    |WriteOperation(v.id, v.vote, v.state)| <= MAX_FRAME
  }

  function Packet(v: Vote): Text
    requires Sendable(v)
  {
    WriteOperation(v.id, v.vote, v.state)
  }

  function Packets(votes: seq<Vote>): (packets: seq<Text>)
    requires forall i :: 0 <= i < |votes| ==> Sendable(votes[i])
    ensures |packets| == |votes|
  {
    seq(|votes|, i requires 0 <= i < |votes| => Packet(votes[i]))
  }

  /** A client that learned its table from INIT sends votes on entries of it: whatever the chunks, the
      server's loop delivers one packet per vote in order, and each names the template whose
      instructions the client has under that id. */
  lemma VotesArrive(templates: seq<Template>, before: Commands.Client, votes: seq<Vote>)
    requires !before.disposed
    requires |templates| < 0x8000_0000 && forall i :: 0 <= i < |templates| ==> templates[i].id == i + 1
    requires forall i :: 0 <= i < |votes| ==> Sendable(votes[i])
    ensures var table := Commands.AfterData(before, InitFrame(templates)).0.table;
            && Decode(Server, EncodeAll(Packets(votes))) == Reception(Packets(votes), EndOfStream)
            && forall i :: 0 <= i < |votes| && votes[i].id in table ==>
                 exists t :: t in templates && t.id == votes[i].id && t.instructions == table[votes[i].id]
                   && Dispatched(Packets(votes)[i], templates) == Delivered(Operation(t, votes[i].vote, votes[i].state))
  {
    Commands.TypesArrive(before, templates);
    ServerDelivers(Packets(votes));
    forall i | 0 <= i < |votes| && votes[i].id in TableOf(templates)
      ensures exists t :: t in templates && t.id == votes[i].id && t.instructions == TableOf(templates)[votes[i].id]
                && Dispatched(Packets(votes)[i], templates) == Delivered(Operation(t, votes[i].vote, votes[i].state))
    {
      var t := VoteArrives(templates, votes[i]);
    }
  }

  lemma VoteArrives(templates: seq<Template>, v: Vote) returns (t: Template)
    requires forall i :: 0 <= i < |templates| ==> templates[i].id == i + 1
    requires Sendable(v) && v.id in TableOf(templates)
    ensures t in templates && t.id == v.id && t.instructions == TableOf(templates)[v.id]
    ensures Dispatched(Packet(v), templates) == Delivered(Operation(t, v.vote, v.state))
  {
    DenseTable(templates);
    OperationRoundTrip(v.id, v.vote, v.state, templates);
    t := templates[v.id - 1];
  }

  // ----- keys -----

  /** The keys of an instruction block; an empty block is skipped. */
  function KeysIn(instructions: seq<byte>): seq<seq<byte>> {
    if instructions == [] then []
    else match Deserialized(instructions) case None => [] case Some(i) => i.keys
  }

  function AfkIn(instructions: seq<byte>): Option<seq<byte>> {
    if instructions == [] then None
    else match Deserialized(instructions) case None => None case Some(i) => i.afk
  }

  predicate Unparsable(instructions: seq<byte>) {
    instructions != [] && Deserialized(instructions) == None
  }

  /** A key is mapped if it is not empty and some of the operations has it, and then to one that does. */
  ghost predicate Maps(mapping: map<seq<byte>, int>, table: Table, ids: set<int>) {
    && (forall key :: key in mapping ==>
         key != [] && mapping[key] in ids && mapping[key] in table && key in KeysIn(table[mapping[key]]))
    && (forall id, key :: id in ids && id in table && key in KeysIn(table[id]) && key != [] ==> key in mapping)
  }

  ghost predicate TimesOut(timeouts: set<(seq<byte>, int)>, table: Table, ids: set<int>) {
    forall afk, id :: (afk, id) in timeouts <==> id in ids && id in table && AfkIn(table[id]) == Some(afk)
  }

  /** The non-empty keys now map to the operation, and no other key has changed. */
  ghost predicate Added(before: map<seq<byte>, int>, after: map<seq<byte>, int>, keys: seq<seq<byte>>, id: int) {
    && (forall key :: key in after <==> key in before || (key in keys && key != []))
    && (forall key :: key in after ==> after[key] == if key in keys && key != [] then id else before[key])
  }

  lemma MapsGrows(before: map<seq<byte>, int>, after: map<seq<byte>, int>, table: Table, ids: set<int>, id: int)
    requires Maps(before, table, ids) && id in table && Added(before, after, KeysIn(table[id]), id)
    ensures Maps(after, table, ids + {id})
  {
  }

  class KeyManager {
    var keyOpMapping: map<seq<byte>, int>

    constructor ()
      ensures keyOpMapping == map[]
    {
      keyOpMapping := map[];
    }

    method AddKeys(keys: seq<seq<byte>>, id: int)
      modifies this
      ensures Added(old(keyOpMapping), keyOpMapping, keys, id)
    {
      for i := 0 to |keys|
        invariant Added(old(keyOpMapping), keyOpMapping, keys[..i], id)
      {
        assert forall key :: key in keys[..i + 1] <==> key in keys[..i] || key == keys[i];
        if keys[i] != [] {
          keyOpMapping := keyOpMapping[keys[i] := id];
        }
      }
      assert keys[..|keys|] == keys;
    }

    /** One operation of the table. */
    method ParseOne(instructions: seq<byte>, id: int) returns (ok: bool, afk: Option<seq<byte>>)
      modifies this
      ensures ok <==> !Unparsable(instructions)
      ensures ok ==> afk == AfkIn(instructions) && Added(old(keyOpMapping), keyOpMapping, KeysIn(instructions), id)
    {
      if instructions == [] {
        return true, None;
      }
      var parsed := DeserializeInstructions(instructions);
      if parsed == None {
        return false, None;
      }
      AddKeys(parsed.value.keys, id);
      return true, parsed.value.afk;
    }

    /** The operations in whatever order the dictionary yields them; None when a block does not parse. */
    method ParseInstructions(table: Table) returns (parsedTimeouts: Option<set<(seq<byte>, int)>>)
      modifies this
      ensures parsedTimeouts == None <==> exists id :: id in table && Unparsable(table[id])
      ensures parsedTimeouts.Some?
              ==> Maps(keyOpMapping, table, table.Keys) && TimesOut(parsedTimeouts.value, table, table.Keys)
    {
      keyOpMapping := map[];
      var timeouts: set<(seq<byte>, int)> := {};
      var rest := table.Keys;
      while rest != {}
        invariant rest <= table.Keys
        invariant forall id :: id in table && id !in rest ==> !Unparsable(table[id])
        invariant Maps(keyOpMapping, table, table.Keys - rest)
        invariant TimesOut(timeouts, table, table.Keys - rest)
      {
        var id := Pick(rest);
        ghost var mapping := keyOpMapping;
        var ok, afk := ParseOne(table[id], id);
        if !ok {
          return None;
        }
        MapsGrows(mapping, keyOpMapping, table, table.Keys - rest, id);
        assert table.Keys - (rest - {id}) == table.Keys - rest + {id};
        rest := rest - {id};
        if afk.Some? {
          timeouts := timeouts + {(afk.value, id)};
        }
      }
      assert table.Keys - rest == table.Keys;
      return Some(timeouts);
    }
  }

  /** No key belongs to two profiles. */
  ghost predicate DistinctKeys(profiles: seq<ProfileConfig>) {
    forall i, j, key ::
      0 <= i < |profiles| && 0 <= j < |profiles| && key in profiles[i].keys && key in profiles[j].keys ==> i == j
  }

  /** The table holds, for each profile, exactly its keys and its limit. */
  ghost predicate Carries(profiles: seq<ProfileConfig>, table: Table) {
    && (forall id :: id in table <==> 1 <= id <= |profiles|)
    && (forall id :: id in table ==>
         KeysIn(table[id]) == profiles[id - 1].keys && AfkIn(table[id]) == profiles[id - 1].afk
         && !Unparsable(table[id]))
  }

  lemma BlockCarries(profile: ProfileConfig, bytes: seq<byte>)
    requires Block(profile, bytes)
    ensures KeysIn(bytes) == profile.keys && AfkIn(bytes) == profile.afk && !Unparsable(bytes)
  {
    InstructionsRoundTrip(profile.keys, profile.afk);
  }

  lemma TableCarriesProfiles(profiles: seq<ProfileConfig>, suite: seq<Template>)
    requires SuiteOf(profiles, suite)
    ensures Carries(profiles, TableOf(suite))
  {
    var table := TableOf(suite);
    DenseTable(suite);
    forall id | id in table
      ensures KeysIn(table[id]) == profiles[id - 1].keys && AfkIn(table[id]) == profiles[id - 1].afk
              && !Unparsable(table[id])
    {
      assert Block(profiles[id - 1], suite[id - 1].instructions);
      BlockCarries(profiles[id - 1], table[id]);
    }
  }

  lemma KeysOfTable(profiles: seq<ProfileConfig>, table: Table, mapping: map<seq<byte>, int>,
      timeouts: set<(seq<byte>, int)>)
    requires Carries(profiles, table) && DistinctKeys(profiles)
    requires Maps(mapping, table, table.Keys) && TimesOut(timeouts, table, table.Keys)
    ensures forall i, key :: 0 <= i < |profiles| && key in profiles[i].keys && key != [] ==>
              key in mapping && mapping[key] == i + 1
    ensures forall key :: key in mapping ==> 1 <= mapping[key] <= |profiles| && key in profiles[mapping[key] - 1].keys
    ensures forall afk, id :: (afk, id) in timeouts <==> 1 <= id <= |profiles| && profiles[id - 1].afk == Some(afk)
  {
    forall i, key | 0 <= i < |profiles| && key in profiles[i].keys && key != []
      ensures key in mapping && mapping[key] == i + 1
    {
      assert key in KeysIn(table[i + 1]);
      assert key in profiles[mapping[key] - 1].keys;
    }
  }

  /** From configuration to keys: after the handshake a client maps every key of every profile to
      that profile's operation, in whatever order it goes through its table, and nothing else. */
  lemma KeysReachTheirProfiles(profiles: seq<ProfileConfig>, suite: seq<Template>, before: Commands.Client,
                               mapping: map<seq<byte>, int>, timeouts: set<(seq<byte>, int)>)
    requires SuiteOf(profiles, suite) && DistinctKeys(profiles) && !before.disposed
    requires var table := Commands.AfterData(before, InitFrame(suite)).0.table;
             Maps(mapping, table, table.Keys) && TimesOut(timeouts, table, table.Keys)
    ensures forall i, key :: 0 <= i < |profiles| && key in profiles[i].keys && key != [] ==>
              key in mapping && mapping[key] == i + 1
    ensures forall key :: key in mapping ==> 1 <= mapping[key] <= |profiles| && key in profiles[mapping[key] - 1].keys
    ensures forall afk, id :: (afk, id) in timeouts <==> 1 <= id <= |profiles| && profiles[id - 1].afk == Some(afk)
  {
    Commands.TypesArrive(before, suite);
    TableCarriesProfiles(profiles, suite);
    KeysOfTable(profiles, TableOf(suite), mapping, timeouts);
  }
}
