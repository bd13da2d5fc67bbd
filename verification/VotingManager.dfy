/** The vote counter itself: dictionaries updated in place by event handlers. Each handler is proved
    to be a transition of the state machine in TallyRefinement. */
module VotingManagers {
  import opened Bytes
  import opened Int32
  import opened MembershipObjects
  import opened Tally
  import opened TallyRefinement
  import opened Wrappers

  class VotingManager {
    const server: VotingServer
    var tallies: map<OpId, Counts>             // _tallies
    var clientVotes: map<ClientInfo, Ballot>   // _clientVotes
    var log: seq<Metric>                       // OnOperationCountChanged, in the order fired

    constructor (server: VotingServer)
      ensures this.server == server && Contents() == Books(map[], map[]) && log == []
    {
      this.server := server;
      tallies, clientVotes, log := map[], map[], [];
    }

    ghost function Contents(): Books<ClientInfo>
      reads this
    {
      Books(tallies, clientVotes)
    }

    /** The whole system, as a state of the state machine. */
    ghost function System(): State<ClientInfo, User>
      reads this, server, server.users, server.known
    {
      State(server.Contents(), Multipliers(), Contents(), log)
    }

    ghost function Multipliers(): map<User, int32>
      reads server, server.users
    {
      map u | u in server.users :: u.voteMultiplier
    }

    /** ApplyVoteTally, and with the negated multiplier RemoveVoteTally. */
    method ApplyVoteTally(typeId: OpId, vote: byte, multiplier: int32)
      requires typeId in tallies
      modifies this`tallies
      ensures tallies == old(tallies)[typeId := Add(old(tallies)[typeId], vote, multiplier)]
    {
      var tally := tallies[typeId];
      if vote == SUPPORT {
        tally := tally.(voters := Wrap(tally.voters + multiplier));
        tally := tally.(supporters := Wrap(tally.supporters + multiplier));
      } else if vote == AGAINST {
        tally := tally.(voters := Wrap(tally.voters + multiplier));
      }
      tallies := tallies[typeId := tally];
    }

    method Publish(typeId: OpId)
      requires typeId in tallies
      modifies this`log
      ensures log == old(log) + [Metric(typeId, tallies[typeId])]
    {
      log := log + [Metric(typeId, tallies[typeId])];
    }

    /** A client's vote with the given weight: out with its previous vote on the operation, in with
        the new one, then the event. If its subscriber throws, the vote is not stored. */
    method Record(client: ClientInfo, typeId: OpId, voteResult: byte, multiplier: int32, throws: bool)
      modifies this`tallies, this`clientVotes, this`log
      ensures Contents() == if throws then AfterThrownVote(old(Contents()), client, typeId, voteResult, multiplier)
                            else AfterVote(old(Contents()), client, typeId, voteResult, multiplier)
      ensures log == old(log) + [Metric(typeId, tallies[typeId])]
    {
      ghost var b := Contents();
      var operationsMap := GetOrAdd(client, typeId);
      Recount(typeId, operationsMap, voteResult, multiplier);
      assert tallies == AfterVote(b, client, typeId, voteResult, multiplier).tallies;
      Publish(typeId);
      if !throws {
        clientVotes := clientVotes[client := operationsMap[typeId := voteResult]];
      }
    }

    method Recount(typeId: OpId, operationsMap: Ballot, voteResult: byte, multiplier: int32)
      requires typeId in tallies
      modifies this`tallies
      ensures var cleared := if typeId in operationsMap
                             then Add(old(tallies)[typeId], operationsMap[typeId], Negate(multiplier))
                             else old(tallies)[typeId];
              tallies == old(tallies)[typeId := Add(cleared, voteResult, multiplier)]
    {
      if typeId in operationsMap {
        ApplyVoteTally(typeId, operationsMap[typeId], Negate(multiplier));
      }
      ApplyVoteTally(typeId, voteResult, multiplier);
    }

    /** The counters of the operation and the votes of the client, created if there are none. */
    method GetOrAdd(client: ClientInfo, typeId: OpId) returns (operationsMap: Ballot)
      modifies this`tallies, this`clientVotes
      ensures tallies == old(tallies)[typeId := CountsOf(old(Contents()), typeId)]
      ensures clientVotes == old(clientVotes)[client := operationsMap]
      ensures operationsMap == BallotOf(old(Contents()), client)
    {
      if typeId !in tallies {
        tallies := tallies[typeId := Counts(0, 0)];
      }
      if client !in clientVotes {
        clientVotes := clientVotes[client := map[]];
      }
      operationsMap := clientVotes[client];
    }

    /** The event is raised inside AddOrUpdate, so an exception of its subscriber comes between the counters
        and the vote. */
    method HandleOperationReceived(client: ClientInfo, typeId: OpId, voteResult: byte, throws: bool)
      requires server.Valid() && client in server.known
      modifies this`tallies, this`clientVotes, this`log
      ensures Transition(old(System()), Received(client, typeId, voteResult, throws), System(), server.anonymous)
      ensures typeId in tallies && log == old(log) + [Metric(typeId, tallies[typeId])]
      ensures !throws ==> client in clientVotes && typeId in clientVotes[client]
                          && clientVotes[client][typeId] == voteResult
    {
      Record(client, typeId, voteResult, client.user.voteMultiplier, throws);
      VoteTransition(client, typeId, voteResult, throws);
    }

    static function Received(client: ClientInfo, typeId: OpId, voteResult: byte, throws: bool): Step<ClientInfo, User> {
      if throws then VoteThrown(client, typeId, voteResult) else Vote(client, typeId, voteResult)
    }

    /** One event per vote of the ballot, in whatever order the dictionary yields them. */
    method AdjustEach(votes: Ballot, delta: int32) returns (affected: seq<OpId>)
      modifies this`tallies, this`log
      ensures tallies.Keys == old(tallies).Keys
      ensures forall op :: op in tallies ==>
                tallies[op] == if op in votes then Add(old(tallies)[op], votes[op], delta) else old(tallies)[op]
      ensures forall op :: Of(log, op) == Of(old(log), op) + if op in votes && op in tallies then [tallies[op]] else []
      ensures Distinct(affected) && forall op :: op in affected <==> op in votes && op in tallies
    {
      affected := [];
      var rest := votes.Keys;
      while rest != {}
        invariant rest <= votes.Keys && tallies.Keys == old(tallies).Keys
        invariant forall op :: op in tallies ==>
          tallies[op]
          == if op in votes && op !in rest then Add(old(tallies)[op], votes[op], delta) else old(tallies)[op]
        invariant forall op ::
          Of(log, op) == Of(old(log), op) + if op in votes && op !in rest && op in tallies then [tallies[op]] else []
        invariant Distinct(affected) && forall op :: op in affected <==> op in votes && op !in rest && op in tallies
      {
        var typeId := Pick(rest);
        rest := rest - {typeId};
        if typeId in tallies {
          ApplyVoteTally(typeId, votes[typeId], delta);
          affected := affected + [typeId];
          Publish(typeId);
        }
      }
    }

    method AdjustClient(client: ClientInfo, delta: int32)
      modifies this`tallies, this`log
      ensures var ballot := BallotOf(Contents(), client);
              && tallies.Keys == old(tallies).Keys
              && (forall op :: op in tallies ==>
                    tallies[op] == if op in ballot then Add(old(tallies)[op], ballot[op], delta) else old(tallies)[op])
              && (forall op ::
                  Of(log, op) == Of(old(log), op) + if op in ballot && op in tallies then [tallies[op]] else [])
    {
      if client in clientVotes {
        var _ := AdjustEach(clientVotes[client], delta);
      }
    }

    /** The cleanup thread of a disconnected client; returns what OnClientVoteCleared reports. */
    method HandleClientDisconnected(client: ClientInfo) returns (affectedOperations: seq<OpId>)
      requires server.Valid() && client in server.known
      modifies this`tallies, this`clientVotes, this`log
      ensures Contents() == AfterCleanup(old(Contents()), client, client.user.voteMultiplier)
      ensures Distinct(affectedOperations)
      ensures forall op :: op in affectedOperations <==> op in BallotOf(old(Contents()), client) && op in tallies
      ensures Transition(old(System()), Cleanup(client), System(), server.anonymous)
    {
      affectedOperations := [];
      if client in clientVotes {
        var operationsMap := clientVotes[client];
        clientVotes := clientVotes - {client};
        affectedOperations := AdjustEach(operationsMap, Negate(client.user.voteMultiplier));
      }
      CleanupTransition(client);
    }

    twostate lemma CleanupTransition(client: ClientInfo)
      requires old(server.Valid()) && client in old(server.known)
      requires server.Untouched()
      requires var ballot := BallotOf(old(Contents()), client);
               && clientVotes == old(clientVotes) - {client} && tallies.Keys == old(tallies).Keys
               && (forall op :: op in tallies ==>
                     tallies[op] == if op in ballot
                                    then Add(old(tallies)[op], ballot[op], Negate(client.user.voteMultiplier))
                                    else old(tallies)[op])
               && (forall op ::
                   Of(log, op) == Of(old(log), op) + if op in ballot && op in tallies then [tallies[op]] else [])
      ensures Contents() == AfterCleanup(old(Contents()), client, client.user.voteMultiplier)
      ensures Transition(old(System()), Cleanup(client), System(), server.anonymous)
    {
      ghost var s := old(System());
      assert MultiplierOf(s, client) == client.user.voteMultiplier;
      SameTallies(old(Contents()), Contents(), client, client.user.voteMultiplier);
      forall op ensures Of(log, op) == Of(old(log), op) + Added(s, Cleanup(client), op) {
      }
    }

    static lemma SameTallies(b: Books<ClientInfo>, b': Books<ClientInfo>, c: ClientInfo, multiplier: int32)
      requires b'.votes == b.votes - {c} && b'.tallies.Keys == b.tallies.Keys
      requires forall op :: op in b.tallies ==>
        b'.tallies[op] == if op in BallotOf(b, c) then Add(b.tallies[op], BallotOf(b, c)[op], Negate(multiplier))
            else b.tallies[op]
      ensures b' == AfterCleanup(b, c, multiplier)
    {
      var after := AfterCleanup(b, c, multiplier).tallies;
      assert forall op :: op in b'.tallies ==> after[op] == b'.tallies[op];
      assert b'.tallies == after;
    }

    /** The set as a list, in whatever order the dictionary yields it. */
    static method ToList(clients: set<ClientInfo>) returns (list: seq<ClientInfo>)
      ensures Distinct(list) && (set c | c in list) == clients
    {
      list := [];
      var rest := clients;
      while rest != {}
        invariant rest <= clients && Distinct(list)
        invariant forall c :: c in clients ==> (c in list <==> c !in rest)
        invariant forall c :: c in list ==> c in clients
      {
        var c := Pick(rest);
        list, rest := list + [c], rest - {c};
      }
    }

    /** The handler of a change of multiplier, after the snapshot of ConnectedClients has been taken. */
    method Readjust(clients: seq<ClientInfo>, delta: int32)
      modifies this`tallies, this`log
      ensures Contents() == AfterMultiplier(old(Contents()), clients, delta)
      ensures forall op :: Of(log, op) == Of(old(log), op) + if op in old(tallies)
                             then Adjustments(old(clientVotes), old(tallies)[op], clients, op, delta) else []
    {
      for i := 0 to |clients|
        invariant clientVotes == old(clientVotes) && tallies.Keys == old(tallies).Keys
        invariant forall op :: op in tallies ==>
          tallies[op] == Adjusted(clientVotes, old(tallies)[op], clients[..i], op, delta)
        invariant forall op :: Of(log, op) == Of(old(log), op) + if op in old(tallies)
                                 then Adjustments(clientVotes, old(tallies)[op], clients[..i], op, delta) else []
      {
        ghost var before := old(tallies);
        AdjustClient(clients[i], delta);
        forall op | op in before
          ensures tallies[op] == Adjusted(clientVotes, before[op], clients[..i + 1], op, delta)
          ensures Of(log, op) == Of(old(log), op) + Adjustments(clientVotes, before[op], clients[..i + 1], op, delta)
        {
          AdjustedNext(clientVotes, before[op], clients, i, op, delta);
        }
      }
      assert clients[..|clients|] == clients;
    }

    /** Setting a user's multiplier, with the handler subscribed to its event. */
    method SetVoteMultiplier(user: User, value: int32) returns (ghost snapshot: seq<ClientInfo>)
      requires server.Valid() && user in server.users
      modifies user`voteMultiplier, this`tallies, this`log
      ensures user.voteMultiplier == value
      ensures Transition(old(System()), SetMultiplier(user, value, snapshot), System(), server.anonymous)
    {
      var clients := ToList(user.connectedClients);
      snapshot := clients;
      var original, changed := user.SetVoteMultiplier(value);
      if changed {
        var delta: int := value as int - original as int;
        Readjust(clients, Wrap(delta));
      }
      MultiplierTransition(user, value, snapshot);
    }

    twostate lemma MultiplierTransition(user: User, new value: int32, new snapshot: seq<ClientInfo>)
      requires old(server.Valid()) && user in old(server.users)
      requires unchanged(server) && unchanged(old(server.known))
      requires user.voteMultiplier == value && clientVotes == old(clientVotes)
      requires forall u :: u in server.users ==>
        u.connectedClients == old(u.connectedClients) && u.sessionsLimit == old(u.sessionsLimit)
        && (u != user ==> u.voteMultiplier == old(u.voteMultiplier))
      requires Distinct(snapshot) && (set c | c in snapshot) == user.connectedClients
      requires if value == old(user.voteMultiplier) then tallies == old(tallies) && log == old(log)
               else var delta := Wrap(value as int - old(user.voteMultiplier) as int);
                    && Contents() == AfterMultiplier(old(Contents()), snapshot, delta)
                    && forall op :: Of(log, op) == Of(old(log), op) + if op in old(tallies)
                                      then Adjustments(old(clientVotes), old(tallies)[op], snapshot, op, delta) else []
      ensures Transition(old(System()), SetMultiplier(user, value, snapshot), System(), server.anonymous)
    {
      ghost var s, step := old(System()), Step<ClientInfo, User>.SetMultiplier(user, value, snapshot);
      assert server.Contents() == old(server.Contents());
      assert Multipliers() == old(Multipliers())[user := value];
      forall op ensures Of(log, op) == Of(old(log), op) + Added(s, step, op) {
      }
    }

    method GetMetrics(operationTypeId: OpId) returns (voters: int32, supporters: int32)
      ensures Counts(voters, supporters) == CountsOf(Contents(), operationTypeId)
      ensures operationTypeId in tallies ==> Counts(voters, supporters) == tallies[operationTypeId]
      ensures operationTypeId !in tallies ==> voters == 0 == supporters
    {
      if operationTypeId in tallies {
        return tallies[operationTypeId].voters, tallies[operationTypeId].supporters;
      }
      return 0, 0;
    }

    twostate lemma VoteTransition(client: ClientInfo, new typeId: OpId, new voteResult: byte, new throws: bool)
      requires old(server.Valid()) && client in old(server.known)
      requires server.Untouched()
      requires Contents() == if throws
                then AfterThrownVote(old(Contents()), client, typeId, voteResult, old(client.user.voteMultiplier))
                else AfterVote(old(Contents()), client, typeId, voteResult, old(client.user.voteMultiplier))
      requires log == old(log) + [Metric(typeId, tallies[typeId])]
      ensures Transition(old(System()), Received(client, typeId, voteResult, throws), System(), server.anonymous)
    {
      ghost var s := old(System());
      assert s.members.userOf[client] == old(client.user);
      assert MultiplierOf(s, client) == old(client.user.voteMultiplier);
      VoteMoves(s, System(), client, typeId, voteResult, throws, server.anonymous);
    }

    static lemma VoteMoves(s: State<ClientInfo, User>, s': State<ClientInfo, User>, client: ClientInfo, typeId: OpId,
                           voteResult: byte, throws: bool, anonymous: User)
      requires client in s.members.userOf && s'.members == s.members && s'.multiplier == s.multiplier
      requires s'.books == BooksAfter(s, Received(client, typeId, voteResult, throws))
      requires s'.log == s.log + [Metric(typeId, s'.books.tallies[typeId])]
      ensures Transition(s, Received(client, typeId, voteResult, throws), s', anonymous)
    {
      assert s'.log[..|s.log|] == s.log;
    }
  }
}
