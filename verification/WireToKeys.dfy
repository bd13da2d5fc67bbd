/** From the client's bytes to the server's keys: the votes of a client, sent over the network and counted
    with everybody else's, and what they do to the keys. */
module WireToKeys {
  import opened Ballots
  import opened BinaryFormat
  import opened Bytes
  import opened Config
  import opened Int32
  import opened KeyActuation
  import opened ResultProcessing
  import opened Tally
  import opened TallyRefinement
  import opened Wrappers
  import Commands
  import EndToEnd
  import Framing
  import Handshake

  type ClientVote = EndToEnd.Vote

  /** The templates have ids 1 to n in order. */
  predicate Dense(templates: seq<Handshake.Template>) {
    forall i :: 0 <= i < |templates| ==> templates[i].id == i + 1
  }

  /** Every vote can be sent and is on an operation of the table. */
  ghost predicate Listed(votes: seq<ClientVote>, templates: seq<Handshake.Template>) {
    forall i :: 0 <= i < |votes| ==> EndToEnd.Sendable(votes[i]) && votes[i].id in Handshake.TableOf(templates)
  }

  // ----- the table -----

  /** The answer to INIT, sent as a frame, gives the client the server's list. */
  lemma TableArrives(templates: seq<Handshake.Template>, before: Commands.Client)
    requires !before.disposed
    requires |templates| < 0x8000_0000 && |Handshake.InitFrame(templates)| < 0x8000_0000
    ensures var received := Framing.Decode(Framing.Client,
            Framing.EncodeAll([Handshake.InitFrame(templates)])).messages;
            && |received| == 1
            && var (after, ok) := Commands.AfterData(before, received[0]);
               && ok && after.table == Handshake.TableOf(templates)
               && after.handshake == Commands.First(before.handshake, Handshake.Completed)
  {
    var frame: Text := Handshake.InitFrame(templates);
    Framing.ClientDelivers([frame]);
    assert [frame][1..] == [];
    NotEmpty(templates);
    assert Framing.NonEmpty([frame]) == [frame];
    Commands.TypesArrive(before, templates);
  }

  lemma NotEmpty(templates: seq<Handshake.Template>)
    requires |templates| < 0x8000_0000
    ensures Handshake.InitFrame(templates) != []
  {
    assert |WriteString(Handshake.INIT)| >= |Handshake.INIT|;
  }

  // ----- the votes -----

  /** What the server does with a packet of a client, as far as it concerns the tally. */
  function StepFor<C, U>(client: C, dispatch: Handshake.Dispatch): seq<Step<C, U>> {
    match dispatch
    case Delivered(operation) => [Step<C, U>.Vote(client, operation.template.id, operation.vote)]
    case _ => []
  }

  function StepsFor<C, U>(client: C, packets: seq<seq<byte>>, templates: seq<Handshake.Template>): seq<Step<C, U>> {
    if packets == [] then []
    else
      StepsFor<C, U>(client, packets[..|packets| - 1], templates)
      + StepFor<C, U>(client, Handshake.Dispatched(packets[|packets| - 1], templates))
  }

  function VotesOf<C, U>(client: C, votes: seq<ClientVote>): seq<Step<C, U>> {
    seq(|votes|, i requires 0 <= i < |votes| => Step<C, U>.Vote(client, votes[i].id, votes[i].vote))
  }

  lemma PacketIsVote<C, U>(client: C, v: ClientVote, templates: seq<Handshake.Template>)
    requires Dense(templates) && EndToEnd.Sendable(v) && v.id in Handshake.TableOf(templates)
    ensures StepFor<C, U>(client, Handshake.Dispatched(EndToEnd.Packet(v), templates))
            == [Step<C, U>.Vote(client, v.id, v.vote)]
  {
    var t := EndToEnd.VoteArrives(templates, v);
  }

  lemma VotesOfNext<C, U>(client: C, votes: seq<ClientVote>)
    requires votes != []
    ensures var init, v := votes[..|votes| - 1], votes[|votes| - 1];
            VotesOf<C, U>(client, votes) == VotesOf<C, U>(client, init) + [Step<C, U>.Vote(client, v.id, v.vote)]
  {
  }

  lemma PacketsNext(votes: seq<ClientVote>)
    requires votes != [] && forall i :: 0 <= i < |votes| ==> EndToEnd.Sendable(votes[i])
    ensures EndToEnd.Packets(votes)[..|votes| - 1] == EndToEnd.Packets(votes[..|votes| - 1])
  {
  }

  lemma {:induction false} PacketsAreVotes<C, U>(client: C, votes: seq<ClientVote>, templates: seq<Handshake.Template>)
    requires Dense(templates) && Listed(votes, templates)
    ensures StepsFor<C, U>(client, EndToEnd.Packets(votes), templates) == VotesOf<C, U>(client, votes)
  {
    if votes != [] {
      PacketsAreVotes<C, U>(client, votes[..|votes| - 1], templates);
      PacketsNext(votes);
      PacketIsVote<C, U>(client, votes[|votes| - 1], templates);
      VotesOfNext<C, U>(client, votes);
    }
  }

  /** The steps that the server's loop makes of the client's stream are the client's votes. */
  lemma StreamIsVotes<C, U>(client: C, votes: seq<ClientVote>, templates: seq<Handshake.Template>)
    requires Dense(templates) && Listed(votes, templates)
    ensures var received := Framing.Decode(Framing.Server, Framing.EncodeAll(EndToEnd.Packets(votes))).messages;
            StepsFor<C, U>(client, received, templates) == VotesOf<C, U>(client, votes)
  {
    PacketsAreVotes<C, U>(client, votes, templates);
    Framing.ServerDelivers(EndToEnd.Packets(votes));
  }

  // ----- the tally -----

  /** The last vote on an operation. */
  function LastOn(votes: seq<ClientVote>, op: OpId): Option<byte> {
    if votes == [] then None
    else if votes[|votes| - 1].id == op then Some(votes[|votes| - 1].vote)
    else LastOn(votes[..|votes| - 1], op)
  }

  /** The votes of one client among the steps of a run. */
  function VotesIn<C(==), U>(steps: seq<Step<C, U>>, client: C): seq<Step<C, U>> {
    if steps == [] then []
    else
      var before, step := VotesIn(steps[..|steps| - 1], client), steps[|steps| - 1];
      if step.Vote? && step.client == client then before + [step] else before
  }

  ghost predicate Stays<C, U>(steps: seq<Step<C, U>>, client: C) {
    forall i :: 0 <= i < |steps| ==> steps[i] != Cleanup(client)
  }

  /** Between other steps, votes that come to a list leave its last vote on an operation standing. */
  lemma {:induction false} LastStands<C, U>(
      before: seq<Step<C, U>>, tail: seq<Step<C, U>>, client: C, votes: seq<ClientVote>, op: OpId)
    requires VotesIn(tail, client) == VotesOf<C, U>(client, votes) && Stays(tail, client)
    ensures Standing(before + tail, client, op)
            == if LastOn(votes, op).Some? then LastOn(votes, op) else Standing(before, client, op)
  {
    if tail == [] {
      assert before + tail == before;
    } else {
      var init, step := tail[..|tail| - 1], tail[|tail| - 1];
      assert (before + tail)[..|before + tail| - 1] == before + init;
      if step.Vote? && step.client == client {
        LastVote(init, step, client, votes);
        LastStands(before, init, client, votes[..|votes| - 1], op);
      } else {
        LastStands(before, init, client, votes, op);
      }
    }
  }

  lemma LastVote<C, U>(init: seq<Step<C, U>>, step: Step<C, U>, client: C, votes: seq<ClientVote>)
    requires VotesIn(init, client) + [step] == VotesOf<C, U>(client, votes)
    ensures votes != [] && VotesIn(init, client) == VotesOf<C, U>(client, votes[..|votes| - 1])
    ensures step == Step<C, U>.Vote(client, votes[|votes| - 1].id, votes[|votes| - 1].vote)
  {
    var all := VotesOf<C, U>(client, votes);
    assert |all| == |votes| && all[|votes| - 1] == step;
    assert VotesIn(init, client) == all[..|votes| - 1] == VotesOf<C, U>(client, votes[..|votes| - 1]);
  }

  /** While a client stays its ballot has the last vote of its list on each operation, whatever else
      happens between its votes. */
  lemma BallotHasLast<C, U>(run: seq<State<C, U>>, before: seq<Step<C, U>>, tail: seq<Step<C, U>>, anonymous: U,
                            client: C, votes: seq<ClientVote>, op: OpId)
    requires IsTallyRun(run, before + tail, anonymous)
    requires VotesIn(tail, client) == VotesOf<C, U>(client, votes) && Stays(tail, client)
    requires LastOn(votes, op).Some?
    ensures Recorded(run[|run| - 1].books, client, op) == LastOn(votes, op)
  {
    var steps := before + tail;
    BallotsAreVotes(run, steps, anonymous, |steps|, client, op);
    assert steps[..|steps|] == steps;
    LastStands(before, tail, client, votes, op);
  }

  lemma VotedOn<C, U>(s: State<C, U>, client: C, op: OpId)
    requires Consistent(s) && op in BallotOf(s.books, client)
    ensures Of(s.log, op) != []
  {
    assert op in s.books.tallies && Latest(s.books, s.log, op);
  }

  /** A client that has learned its table votes any number of times, and between its votes anything may
      happen that is safe. Its votes among the steps are what the server makes of its stream; its last
      vote on an operation is its ballot as long as it stays; and a key that a rule of that operation owns
      is held exactly if the rule wants it for the true sums of all clients' votes. */
  lemma VotesMoveKeys<C, U>(run: seq<State<C, U>>, before: seq<Step<C, U>>, tail: seq<Step<C, U>>, anonymous: U,
                            client: C, votes: seq<ClientVote>, templates: seq<Handshake.Template>,
                            profiles: map<OpId, ProfileConfig>, op: OpId, j: nat)
    requires Dense(templates) && Listed(votes, templates)
    requires IsTallyRun(run, before + tail, anonymous) && Actuation.Handled(before + tail)
    requires forall i :: 0 <= i < |before + tail| ==> Safe(run[i], (before + tail)[i], anonymous)
    requires VotesIn(tail, client) == VotesOf<C, U>(client, votes) && Stays(tail, client)
    requires LastOn(votes, op).Some? && OwnsKey(profiles, op, j)
    ensures var received := Framing.Decode(Framing.Server, Framing.EncodeAll(EndToEnd.Packets(votes))).messages;
            VotesIn(tail, client) == StepsFor<C, U>(client, received, templates)
    ensures var s, steps, rule := run[|run| - 1], before + tail, RulesOf(profiles[op])[j];
            var voters, supporters := TrueTotal(s, steps, op, Voters), TrueTotal(s, steps, op, Supporters);
            && Recorded(s.books, client, op) == LastOn(votes, op)
            && (Fits(voters) && Fits(supporters) ==>
                  KeyState(ProcessAll(EMPTY, Actuation.Routed(profiles, s.log)).actions, rule.key)
                  == Some(Wanted(rule, voters, supporters)))
  {
    var s, steps := run[|run| - 1], before + tail;
    StreamIsVotes<C, U>(client, votes, templates);
    BallotHasLast(run, before, tail, anonymous, client, votes, op);
    CountersAlongRuns(run, steps, anonymous, |steps|);
    VotedOn(s, client, op);
    assert steps[..|steps|] == steps;
    TotalIsTrue(run, steps, anonymous, |steps|, op, Voters);
    TotalIsTrue(run, steps, anonymous, |steps|, op, Supporters);
    if Fits(Total(s, op, Voters)) && Fits(Total(s, op, Supporters)) {
      KeysMatchVotes(run, steps, anonymous, |steps|, profiles, op, j);
    }
  }

  // ----- from one key to another -----

  /** A client presses a key of profile `i`, which it has learned from the server, and goes on voting: its
      last vote with that key is its ballot on the operation that the server has configured for the
      profile, and moves the keys of that profile's rules. */
  lemma KeyMovesKeys<C, U>(run: seq<State<C, U>>, before: seq<Step<C, U>>, tail: seq<Step<C, U>>, anonymous: U,
                           client: C, votes: seq<ClientVote>, configs: seq<ProfileConfig>,
                           suite: seq<Handshake.Template>, profiles: map<OpId, ProfileConfig>,
                           mapping: map<seq<byte>, int>, i: nat, key: seq<byte>, j: nat)
    requires Handshake.SuiteOf(configs, suite) && Handshake.Numbered(profiles, configs)
    requires EndToEnd.DistinctKeys(configs) && i < |configs| && key in configs[i].keys && key != []
    requires EndToEnd.Maps(mapping, Handshake.TableOf(suite), Handshake.TableOf(suite).Keys)
    requires IsTallyRun(run, before + tail, anonymous) && Actuation.Handled(before + tail)
    requires forall n :: 0 <= n < |before + tail| ==> Safe(run[n], (before + tail)[n], anonymous)
    requires Listed(votes, suite) && VotesIn(tail, client) == VotesOf<C, U>(client, votes) && Stays(tail, client)
    requires key in mapping && LastOn(votes, mapping[key]).Some?
    requires OwnsKey(profiles, i + 1, j)
    ensures mapping[key] == i + 1 && profiles[i + 1] == configs[i]
    ensures Recorded(run[|run| - 1].books, client, i + 1) == LastOn(votes, mapping[key])
    ensures var s, steps, rule := run[|run| - 1], before + tail, RulesOf(configs[i])[j];
            var voters, supporters := TrueTotal(s, steps, i + 1, Voters), TrueTotal(s, steps, i + 1, Supporters);
            Fits(voters) && Fits(supporters) ==>
              KeyState(ProcessAll(EMPTY, Actuation.Routed(profiles, s.log)).actions, rule.key)
              == Some(Wanted(rule, voters, supporters))
  {
    KeyOfProfile(configs, suite, mapping, i, key);
    VotesMoveKeys(run, before, tail, anonymous, client, votes, suite, profiles, i + 1, j);
  }

  lemma KeyOfProfile(configs: seq<ProfileConfig>, suite: seq<Handshake.Template>, mapping: map<seq<byte>, int>,
                     i: nat, key: seq<byte>)
    requires Handshake.SuiteOf(configs, suite) && EndToEnd.DistinctKeys(configs)
    requires i < |configs| && key in configs[i].keys && key != []
    requires EndToEnd.Maps(mapping, Handshake.TableOf(suite), Handshake.TableOf(suite).Keys)
    ensures key in mapping && mapping[key] == i + 1
  {
    var table := Handshake.TableOf(suite);
    EndToEnd.TableCarriesProfiles(configs, suite);
    assert key in EndToEnd.KeysIn(table[i + 1]);
    assert key in configs[mapping[key] - 1].keys;
  }
}
