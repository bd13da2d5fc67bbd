/** The vote tally as a state machine, and the theorem that its counters refine a weighted sum. */
module TallyRefinement {
  import opened Bytes
  import opened Int32
  import opened Membership
  import opened Sums
  import opened Tally

  datatype State<C, U> = State(
    members: Members<C, U>,
    multiplier: map<U, int32>,    // User.voteMultiplier
    books: Books<C>,              // VotingManager's dictionaries
    log: seq<Metric>)             // OnOperationCountChanged events so far

  datatype Step<C, U> =
    | Member(action: Action<C, U>)
    | Vote(client: C, op: OpId, vote: byte)
    | VoteThrown(client: C, op: OpId, vote: byte)    // a subscriber of the event throws
    | Cleanup(client: C)
    | SetMultiplier(user: U, value: int32, snapshot: seq<C>)

  function MultiplierOf<C, U(==)>(s: State<C, U>, c: C): int32 {
    if c in s.members.userOf && s.members.userOf[c] in s.multiplier then s.multiplier[s.members.userOf[c]] else 0
  }

  ghost predicate Distinct<C>(snapshot: seq<C>) {
    forall i, j :: 0 <= i < j < |snapshot| ==> snapshot[i] != snapshot[j]
  }

  /** Every recorded vote is of a known client on an operation that has counters. */
  ghost predicate Sound<C, U>(s: State<C, U>) {
    && Known(s.members)
    && s.multiplier.Keys == s.members.connected.Keys
    && s.books.votes.Keys <= s.members.userOf.Keys
    && Owned(s.members)
    && (forall c, op :: c in s.books.votes && op in s.books.votes[c] ==> op in s.books.tallies)
  }

  /** What holds in every reachable state, whatever is said about sums. */
  ghost predicate Consistent<C, U>(s: State<C, U>) {
    Sound(s) && LastPublished(s.books, s.log)
  }

  /** Of each operation the last published pair is the one GetMetrics returns; an operation nobody
      has voted on was never published. */
  ghost predicate LastPublished<C>(b: Books<C>, log: seq<Metric>) {
    forall op :: Latest(b, log, op)
  }

  ghost predicate Latest<C>(b: Books<C>, log: seq<Metric>, op: OpId) {
    var events := Of(log, op);
    if op in b.tallies then events != [] && events[|events| - 1] == b.tallies[op] else events == []
  }

  ghost predicate Initial<C, U>(s: State<C, U>) {
    && Known(s.members) && s.members.userOf == map[] && s.members.attached == {}
    && s.multiplier.Keys == s.members.connected.Keys
    && s.books == Books(map[], map[]) && s.log == []
  }

  /** The manager's dictionaries after a step. */
  function BooksAfter<C(==), U(==)>(s: State<C, U>, step: Step<C, U>): Books<C> {
    match step
    case Member(_) => s.books
    case Vote(c, op, vote) => AfterVote(s.books, c, op, vote, MultiplierOf(s, c))
    case VoteThrown(c, op, vote) => AfterThrownVote(s.books, c, op, vote, MultiplierOf(s, c))
    case Cleanup(c) => AfterCleanup(s.books, c, MultiplierOf(s, c))
    case SetMultiplier(u, value, snapshot) =>
      if u in s.multiplier && value != s.multiplier[u]
      then AfterMultiplier(s.books, snapshot, Wrap(value - s.multiplier[u])) else s.books
  }

  /** The events a step publishes for one operation. */
  function Added<C(==), U(==)>(s: State<C, U>, step: Step<C, U>, op: OpId): seq<Counts> {
    match step
    case Member(_) => []
    case Vote(_, voted, _) => if op == voted then [CountsOf(BooksAfter(s, step), op)] else []
    case VoteThrown(_, voted, _) => if op == voted then [CountsOf(BooksAfter(s, step), op)] else []
    case Cleanup(c) =>
      if op in BallotOf(s.books, c) && op in s.books.tallies then [CountsOf(BooksAfter(s, step), op)] else []
    case SetMultiplier(u, value, snapshot) =>
      if u in s.multiplier && value != s.multiplier[u] && op in s.books.tallies
      then Adjustments(s.books.votes, s.books.tallies[op], snapshot, op, Wrap(value - s.multiplier[u])) else []
  }

  /** What the program requires of a step: known clients and users, and a snapshot that lists
      ConnectedClients once each. */
  ghost predicate Possible<C, U>(s: State<C, U>, step: Step<C, U>, anonymous: U) {
    match step
    case Member(a) => Known(s.members) && Enabled(s.members, a, anonymous)
    case Vote(c, _, _) => c in s.members.userOf
    case VoteThrown(c, _, _) => c in s.members.userOf
    case Cleanup(c) => c in s.members.userOf
    case SetMultiplier(u, _, snapshot) =>
      && u in s.multiplier && u in s.members.connected
      && Distinct(snapshot) && (set c | c in snapshot) == s.members.connected[u]
  }

  ghost predicate Moves<C, U>(s: State<C, U>, step: Step<C, U>, s': State<C, U>, anonymous: U) {
    && Possible(s, step, anonymous)
    && s'.members == (if step.Member? then Next(s.members, step.action, anonymous) else s.members)
    && s'.multiplier == (if step.SetMultiplier? then s.multiplier[step.user := step.value] else s.multiplier)
    && s'.books == BooksAfter(s, step)
  }

  ghost predicate Transition<C, U>(s: State<C, U>, step: Step<C, U>, s': State<C, U>, anonymous: U) {
    && Moves(s, step, s', anonymous)
    && forall op :: Of(s'.log, op) == Of(s.log, op) + Added(s, step, op)
  }

  ghost predicate IsTallyRun<C, U>(run: seq<State<C, U>>, steps: seq<Step<C, U>>, anonymous: U) {
    && |run| == |steps| + 1
    && Initial(run[0])
    && forall i :: 0 <= i < |steps| ==> Transition(run[i], steps[i], run[i + 1], anonymous)
  }

  // ----- the sum the counters stand for -----

  function Weight<C, U(==)>(s: State<C, U>, c: C, op: OpId, k: Counter): int
    requires c in s.books.votes
  {
    BallotWeight(s.books.votes[c], op, k, MultiplierOf(s, c))
  }

  function Weights<C, U(==)>(s: State<C, U>, op: OpId, k: Counter): map<C, int> {
    map c | c in s.books.votes :: Weight(s, c, op, k)
  }

  /** The true total: over all clients with a counted vote, the multiplier of the user they belong to. */
  ghost function Total<C, U>(s: State<C, U>, op: OpId, k: Counter): int {
    Sum(Weights(s, op, k))
  }

  /** One counter is its total modulo 2^32. */
  ghost predicate Right<C, U>(s: State<C, U>, op: OpId, k: Counter) {
    CountsOf(s.books, op).Get(k) == Wrap(Total(s, op, k))
  }

  ghost predicate Refined<C, U>(s: State<C, U>) {
    forall op, k: Counter :: Right(s, op, k)
  }

  // ----- when a step keeps the counters right -----

  /** Clients with a counted vote that belong to the user but have left its ConnectedClients:
      disconnected, and their cleanup has not run. */
  ghost function Missed<C, U>(s: State<C, U>, u: U, op: OpId, k: Counter): set<C>
    requires u in s.members.connected
  {
    set c | c in s.books.votes && c in s.members.userOf && s.members.userOf[c] == u && c !in s.members.connected[u]
            && op in s.books.votes[c] && Counted(k, s.books.votes[c][op])
  }

  /** The weight a change of multiplier fails to apply. */
  ghost function Drift<C, U>(s: State<C, U>, u: U, value: int, op: OpId, k: Counter): int
    requires u in s.members.connected && u in s.multiplier
  {
    |Missed(s, u, op, k)| * (value - s.multiplier[u])
  }

  ghost predicate Undecided(ballot: Ballot) {
    forall op :: op in ballot ==> !Counted(Voters, ballot[op])
  }

  /** A change from one ballot to the other moves no counter of the operation. */
  predicate CountedAlike(before: Ballot, after: Ballot, op: OpId) {
    forall k: Counter :: (op in before && Counted(k, before[op])) == (op in after && Counted(k, after[op]))
  }

  /** The guard: a client may change user if the two multipliers agree or it has no counted vote; a
      multiplier may change by `d` if `d` times the number of missed clients is a multiple of 2^32; and a
      subscriber may throw at a vote that counts like the one before it, or for nothing. */
  ghost predicate Safe<C, U>(s: State<C, U>, step: Step<C, U>, anonymous: U) {
    match step
    case Member(a) =>
      Known(s.members) && Enabled(s.members, a, anonymous) && (a.TryAdd? || a.SetUser? || a.Exchange?) ==>
        Undecided(BallotOf(s.books, a.client))
        || MultiplierOf(s.(members := Next(s.members, a, anonymous)), a.client) == MultiplierOf(s, a.client)
    case SetMultiplier(u, value, _) =>
      u in s.multiplier && u in s.members.connected ==>
        forall op, k: Counter :: Congruent(Drift(s, u, value, op, k), 0)
    case VoteThrown(c, op, vote) =>
      MultiplierOf(s, c) == 0 || CountedAlike(BallotOf(s.books, c), BallotOf(s.books, c)[op := vote], op)
    case _ => true
  }

  // ----- consistency is inductive -----

  lemma {:induction false} ConsistentStep<C, U>(s: State<C, U>, step: Step<C, U>, s': State<C, U>, anonymous: U)
    requires Consistent(s) && Transition(s, step, s', anonymous)
    ensures Consistent(s')
  {
    BallotsStep(s, step, s', anonymous);
    LastPublishedStep(s, step, s', anonymous);
    if step.Member? {
      KnownNext(s.members, step.action, anonymous);
    }
  }

  lemma BallotsStep<C, U>(s: State<C, U>, step: Step<C, U>, s': State<C, U>, anonymous: U)
    requires Consistent(s) && Possible(s, step, anonymous) && s'.books == BooksAfter(s, step)
    ensures s'.books.votes.Keys <= s.members.userOf.Keys
    ensures forall c, op :: c in s'.books.votes && op in s'.books.votes[c] ==> op in s'.books.tallies
  {
  }

  lemma LastPublishedStep<C, U>(s: State<C, U>, step: Step<C, U>, s': State<C, U>, anonymous: U)
    requires Consistent(s) && Possible(s, step, anonymous) && s'.books == BooksAfter(s, step)
    requires forall op :: Of(s'.log, op) == Of(s.log, op) + Added(s, step, op)
    ensures LastPublished(s'.books, s'.log)
  {
    forall op ensures Latest(s'.books, s'.log, op) {
      assert Latest(s.books, s.log, op);
      AddedEnds(s, step, anonymous, op);
      LastOfBoth(Of(s.log, op), Added(s, step, op));
    }
  }

  lemma LastOfBoth(before: seq<Counts>, added: seq<Counts>)
    ensures before + added != [] ==>
              (before + added)[|before + added| - 1]
              == if added != [] then added[|added| - 1] else before[|before| - 1]
  {
  }

  /** What a step publishes for an operation ends with the operation's new counters; if it publishes
      nothing, they are the old ones. */
  lemma AddedEnds<C, U>(s: State<C, U>, step: Step<C, U>, anonymous: U, op: OpId)
    requires Sound(s) && Possible(s, step, anonymous)
    ensures var added, after := Added(s, step, op), BooksAfter(s, step).tallies;
            if added != [] then op in after && added[|added| - 1] == after[op]
            else (op in after <==> op in s.books.tallies) && (op in after ==> after[op] == s.books.tallies[op])
  {
    if step.SetMultiplier? && op in s.books.tallies && step.value != s.multiplier[step.user] {
      AdjustmentsEnd(s.books.votes, s.books.tallies[op], step.snapshot, op, Wrap(step.value - s.multiplier[step.user]));
    }
  }

  /** The last adjustment published is the final value; with none, nothing has changed. */
  lemma {:induction false} AdjustmentsEnd<C>(votes: map<C, Ballot>, t: Counts, clients: seq<C>, op: OpId, delta: int)
    ensures var events := Adjustments(votes, t, clients, op, delta);
            Adjusted(votes, t, clients, op, delta) == if events == [] then t else events[|events| - 1]
  {
    if clients != [] {
      AdjustmentsEnd(votes, t, clients[..|clients| - 1], op, delta);
    }
  }

  // ----- votes and cleanups -----

  lemma TotalUpdate<C, U>(s: State<C, U>, s': State<C, U>, c: C, op: OpId, k: Counter)
    requires s'.books.votes.Keys == s.books.votes.Keys + {c}
    requires forall d :: d in s.books.votes && d != c ==> Weight(s', d, op, k) == Weight(s, d, op, k)
    ensures Total(s', op, k)
            == Total(s, op, k) + Weight(s', c, op, k) - if c in s.books.votes then Weight(s, c, op, k) else 0
  {
    WeightsUpdate(s, s', c, op, k);
    SumUpdate(Weights(s, op, k), c, Weight(s', c, op, k));
  }

  lemma WeightsUpdate<C, U>(s: State<C, U>, s': State<C, U>, c: C, op: OpId, k: Counter)
    requires s'.books.votes.Keys == s.books.votes.Keys + {c}
    requires forall d :: d in s.books.votes && d != c ==> Weight(s', d, op, k) == Weight(s, d, op, k)
    ensures Weights(s', op, k) == Weights(s, op, k)[c := Weight(s', c, op, k)]
  {
    var before, after := Weights(s, op, k), Weights(s', op, k);
    assert after.Keys == before.Keys + {c};
    forall d | d in after ensures after[d] == before[c := after[c]][d] {
      assert d != c ==> d in s.books.votes;
    }
  }

  lemma VoteRight<C, U>(s: State<C, U>, c: C, voted: OpId, vote: byte, s': State<C, U>, op: OpId, k: Counter)
    requires s'.members == s.members && s'.multiplier == s.multiplier
    requires s'.books == AfterVote(s.books, c, voted, vote, MultiplierOf(s, c))
    requires Right(s, op, k)
    ensures Right(s', op, k)
  {
    TotalUpdate(s, s', c, op, k);
    AfterVoteRight(s.books, c, voted, vote, MultiplierOf(s, c), op, k, Total(s, op, k));
  }

  /** After a vote at which a subscriber has thrown a counter is right exactly if the vote would not have
      moved it, modulo 2^32. */
  lemma ThrownVoteRight<C, U>(s: State<C, U>, c: C, voted: OpId, vote: byte, s': State<C, U>, op: OpId, k: Counter)
    requires s'.members == s.members && s'.multiplier == s.multiplier
    requires s'.books == AfterThrownVote(s.books, c, voted, vote, MultiplierOf(s, c))
    requires Right(s, op, k)
    ensures var ballot, w := BallotOf(s.books, c), MultiplierOf(s, c);
            Right(s', op, k)
            <==> Congruent(BallotWeight(ballot[voted := vote], op, k, w) - BallotWeight(ballot, op, k, w), 0)
  {
    var ballot, w, total := BallotOf(s.books, c), MultiplierOf(s, c), Total(s, op, k);
    ThrownVoteTotal(s, c, s', op, k);
    AfterVoteRight(s.books, c, voted, vote, w, op, k, total);
    ShiftExact(s', op, k, total, BallotWeight(ballot[voted := vote], op, k, w) - BallotWeight(ballot, op, k, w));
  }

  lemma ShiftExact<C, U>(s: State<C, U>, op: OpId, k: Counter, total: int, d: int)
    requires Total(s, op, k) == total && CountsOf(s.books, op).Get(k) == Wrap(total + d)
    ensures Right(s, op, k) <==> Congruent(d, 0)
  {
    WrapShift(total, d);
  }

  /** The vote has not been stored. */
  lemma ThrownVoteTotal<C, U>(s: State<C, U>, c: C, s': State<C, U>, op: OpId, k: Counter)
    requires s'.members == s.members && s'.multiplier == s.multiplier
    requires s'.books.votes == s.books.votes[c := BallotOf(s.books, c)]
    ensures Total(s', op, k) == Total(s, op, k)
  {
    TotalUpdate(s, s', c, op, k);
  }

  lemma CleanupRight<C, U>(s: State<C, U>, c: C, s': State<C, U>, op: OpId, k: Counter)
    requires s'.members == s.members && s'.multiplier == s.multiplier
    requires s'.books == AfterCleanup(s.books, c, MultiplierOf(s, c))
    requires op in BallotOf(s.books, c) ==> op in s.books.tallies
    requires Right(s, op, k)
    ensures Right(s', op, k)
  {
    CleanupTotal(s, c, s', op, k);
    CleanupCounter(s, c, s', op, k, Total(s, op, k), Total(s', op, k));
  }

  lemma CleanupCounter<C, U>(s: State<C, U>, c: C, s': State<C, U>, op: OpId, k: Counter, before: int, after: int)
    requires s'.books == AfterCleanup(s.books, c, MultiplierOf(s, c))
    requires op in BallotOf(s.books, c) ==> op in s.books.tallies
    requires CountsOf(s.books, op).Get(k) == Wrap(before)
    requires after == before - BallotWeight(BallotOf(s.books, c), op, k, MultiplierOf(s, c))
    ensures CountsOf(s'.books, op).Get(k) == Wrap(after)
  {
    AfterCleanupRight(s.books, c, MultiplierOf(s, c), op, k, before);
  }

  lemma CleanupTotal<C, U>(s: State<C, U>, c: C, s': State<C, U>, op: OpId, k: Counter)
    requires s'.members == s.members && s'.multiplier == s.multiplier && s'.books.votes == s.books.votes - {c}
    ensures Total(s', op, k) == Total(s, op, k) - BallotWeight(BallotOf(s.books, c), op, k, MultiplierOf(s, c))
  {
    var before, after := Weights(s, op, k), Weights(s', op, k);
    assert after == before - {c};
    if c in s.books.votes {
      SumRemove(before, c);
      assert before[c] == Weight(s, c, op, k);
    } else {
      assert before - {c} == before;
    }
  }

  // ----- changes of user -----

  lemma MoveTotal<C, U>(s: State<C, U>, c: C, s': State<C, U>, op: OpId, k: Counter)
    requires s'.books == s.books && s'.multiplier == s.multiplier
    requires forall d :: d in s.books.votes && d != c ==> MultiplierOf(s', d) == MultiplierOf(s, d)
    ensures Total(s', op, k) == Total(s, op, k)
            + if op in BallotOf(s.books, c) && Counted(k, BallotOf(s.books, c)[op])
              then MultiplierOf(s', c) - MultiplierOf(s, c) else 0
  {
    if c in s.books.votes {
      TotalUpdate(s, s', c, op, k);
    } else {
      assert Weights(s', op, k) == Weights(s, op, k);
    }
  }

  /** Moving a client leaves the counters alone, so they stay right exactly if its weight does not
      change or it has no counted vote. */
  lemma MoveExact<C, U>(s: State<C, U>, c: C, s': State<C, U>)
    requires s'.books == s.books && s'.multiplier == s.multiplier && Refined(s)
    requires forall d :: d in s.books.votes && d != c ==> MultiplierOf(s', d) == MultiplierOf(s, d)
    ensures Refined(s') <==> Undecided(BallotOf(s.books, c)) || MultiplierOf(s', c) == MultiplierOf(s, c)
  {
    if Undecided(BallotOf(s.books, c)) || MultiplierOf(s', c) == MultiplierOf(s, c) {
      forall op, k: Counter ensures Right(s', op, k) {
        assert Right(s, op, k);
        MoveTotal(s, c, s', op, k);
      }
    } else {
      var op :| op in BallotOf(s.books, c) && Counted(Voters, BallotOf(s.books, c)[op]);
      MoveTotal(s, c, s', op, Voters);
      WrapEqual(Total(s', op, Voters), Total(s, op, Voters));
      assert Right(s, op, Voters);
      assert !Right(s', op, Voters);
    }
  }

  // ----- changes of multiplier -----

  /** The weights when the clients in `done` have been adjusted and the others not yet. */
  function Midway<C, U(==)>(s: State<C, U>, done: seq<C>, value: int, op: OpId, k: Counter): map<C, int> {
    map c | c in s.books.votes ::
      if c in done && op in s.books.votes[c] && Counted(k, s.books.votes[c][op]) then value else Weight(s, c, op, k)
  }

  lemma MidwayStep<C, U>(s: State<C, U>, previous: int, value: int, init: seq<C>, c: C, op: OpId, k: Counter)
    requires c !in init && MultiplierOf(s, c) == previous
    ensures Sum(Midway(s, init + [c], value, op, k))
            == Sum(Midway(s, init, value, op, k))
               + if c in s.books.votes then BallotWeight(s.books.votes[c], op, k, value - previous) else 0
  {
    var before, after := Midway(s, init, value, op, k), Midway(s, init + [c], value, op, k);
    if c in s.books.votes {
      assert after == before[c := after[c]];
      SumUpdate(before, c, after[c]);
    } else {
      assert after == before;
    }
  }

  lemma AdjustedStep<C>(votes: map<C, Ballot>, t: Counts, delta: int, init: seq<C>, c: C, op: OpId, k: Counter,
      sum: int, next: int)
    requires Adjusted(votes, t, init, op, Wrap(delta)).Get(k) == Wrap(sum)
    requires next == sum + if c in votes then BallotWeight(votes[c], op, k, delta) else 0
    ensures Adjusted(votes, t, init + [c], op, Wrap(delta)).Get(k) == Wrap(next)
  {
    assert (init + [c])[..|init + [c]| - 1] == init;
    AdjustedRight(votes, t, init + [c], op, delta, k, sum);
  }

  lemma NextIsMidway<C, U>(s: State<C, U>, t: Counts, previous: int, value: int, init: seq<C>, c: C, op: OpId,
      k: Counter)
    requires c !in init && MultiplierOf(s, c) == previous
    requires Adjusted(s.books.votes, t, init, op, Wrap(value - previous)).Get(k)
            == Wrap(Sum(Midway(s, init, value, op, k)))
    ensures Adjusted(s.books.votes, t, init + [c], op, Wrap(value - previous)).Get(k)
            == Wrap(Sum(Midway(s, init + [c], value, op, k)))
  {
    MidwayStep(s, previous, value, init, c, op, k);
    AdjustedStep(s.books.votes, t, value - previous, init, c, op, k,
                 Sum(Midway(s, init, value, op, k)), Sum(Midway(s, init + [c], value, op, k)));
  }

  /** After any number of clients of the snapshot the counter is the mixed sum, modulo 2^32. */
  lemma {:induction false} AdjustedIsMidway<C, U>(
      s: State<C, U>, t: Counts, previous: int, value: int, done: seq<C>, op: OpId, k: Counter)
    requires t.Get(k) == Wrap(Total(s, op, k))
    requires Distinct(done) && forall c :: c in done ==> MultiplierOf(s, c) == previous
    ensures Adjusted(s.books.votes, t, done, op, Wrap(value - previous)).Get(k)
            == Wrap(Sum(Midway(s, done, value, op, k)))
  {
    if done == [] {
      assert Midway(s, done, value, op, k) == Weights(s, op, k);
    } else {
      var init, c := done[..|done| - 1], done[|done| - 1];
      AdjustedIsMidway(s, t, previous, value, init, op, k);
      assert done == init + [c];
      NextIsMidway(s, t, previous, value, init, c, op, k);
    }
  }

  /** What the handler leaves differs from the new total by the weight it missed. */
  lemma MissedWeight<C, U>(s: State<C, U>, u: U, value: int32, snapshot: seq<C>, s': State<C, U>, op: OpId, k: Counter)
    requires u in s.multiplier && u in s.members.connected
    requires forall c :: c in s.books.votes ==> c in s.members.userOf && s.members.userOf[c] in s.multiplier
    requires forall c :: c in s.members.connected[u] ==> c in s.members.userOf && s.members.userOf[c] == u
    requires (set c | c in snapshot) == s.members.connected[u]
    requires s'.members == s.members && s'.multiplier == s.multiplier[u := value] && s'.books.votes == s.books.votes
    ensures Total(s', op, k)
            == Sum(Midway(s, snapshot, value, op, k)) + Drift(s, u, value, op, k)
  {
    var mid, after := Midway(s, snapshot, value, op, k), Weights(s', op, k);
    var missed, d := Missed(s, u, op, k), value - s.multiplier[u];
    forall c | c in mid ensures after[c] == mid[c] + if c in missed then d else 0 {
      assert c in snapshot <==> c in s.members.connected[u];
    }
    SumShift(mid, after, missed, d);
  }

  lemma MultiplierRight<C, U>(s: State<C, U>, step: Step<C, U>, s': State<C, U>, anonymous: U, op: OpId, k: Counter)
    requires step.SetMultiplier? && Moves(s, step, s', anonymous) && Sound(s) && Right(s, op, k)
    ensures Right(s', op, k) <==> Congruent(Drift(s, step.user, step.value, op, k), 0)
  {
    if step.value == s.multiplier[step.user] {
      SameMultiplier(s, step.user, step.value, s', op, k);
    } else {
      MissedWeight(s, step.user, step.value, step.snapshot, s', op, k);
      CounterAfter(s, step, s', anonymous, op, k);
      DriftExact(s', op, k, Sum(Midway(s, step.snapshot, step.value, op, k)), Drift(s, step.user, step.value, op, k));
    }
  }

  lemma DriftExact<C, U>(s: State<C, U>, op: OpId, k: Counter, sum: int, drift: int)
    requires CountsOf(s.books, op).Get(k) == Wrap(sum) && Total(s, op, k) == sum + drift
    ensures Right(s, op, k) <==> Congruent(drift, 0)
  {
    WrapShift(sum, drift);
  }

  lemma SameMultiplier<C, U>(s: State<C, U>, u: U, value: int32, s': State<C, U>, op: OpId, k: Counter)
    requires u in s.multiplier && u in s.members.connected && value == s.multiplier[u]
    requires s'.members == s.members && s'.multiplier == s.multiplier[u := value] && s'.books == s.books
    ensures Right(s', op, k) == Right(s, op, k)
    ensures Drift(s, u, value, op, k) == 0
  {
    assert s'.multiplier == s.multiplier;
    assert Weights(s', op, k) == Weights(s, op, k);
  }

  lemma CounterAfter<C, U>(s: State<C, U>, step: Step<C, U>, s': State<C, U>, anonymous: U, op: OpId, k: Counter)
    requires step.SetMultiplier? && Moves(s, step, s', anonymous) && Sound(s) && Right(s, op, k)
    requires step.value != s.multiplier[step.user]
    ensures CountsOf(s'.books, op).Get(k) == Wrap(Sum(Midway(s, step.snapshot, step.value, op, k)))
  {
    if op in s.books.tallies {
      assert CountsOf(s.books, op) == s.books.tallies[op];
      SnapshotMultiplier(s, step, anonymous);
      AdjustedIsMidway(s, s.books.tallies[op], s.multiplier[step.user], step.value, step.snapshot, op, k);
    } else {
      NoVotesMidway(s, step.snapshot, step.value, op, k);
    }
  }

  lemma SnapshotMultiplier<C, U>(s: State<C, U>, step: Step<C, U>, anonymous: U)
    requires step.SetMultiplier? && Possible(s, step, anonymous) && Sound(s)
    ensures forall c :: c in step.snapshot ==> MultiplierOf(s, c) == s.multiplier[step.user]
  {
    forall c | c in step.snapshot ensures MultiplierOf(s, c) == s.multiplier[step.user] {
      assert c in s.members.connected[step.user];
    }
  }

  lemma NoVotesMidway<C, U>(s: State<C, U>, done: seq<C>, value: int, op: OpId, k: Counter)
    requires Sound(s) && op !in s.books.tallies
    ensures Sum(Midway(s, done, value, op, k)) == Total(s, op, k)
  {
    assert Midway(s, done, value, op, k) == Weights(s, op, k);
  }

  // ----- the theorem -----

  /** From right counters, a step leaves right counters exactly when it is safe. */
  lemma {:induction false} RefinedExact<C, U>(s: State<C, U>, step: Step<C, U>, s': State<C, U>, anonymous: U)
    requires Sound(s) && Refined(s) && Moves(s, step, s', anonymous)
    ensures Refined(s') <==> Safe(s, step, anonymous)
  {
    match step
    case Member(a) => MemberExact(s, a, s', anonymous);
    case SetMultiplier(u, value, _) =>
      forall op, k: Counter
        ensures Right(s', op, k) <==> Congruent(Drift(s, u, value, op, k), 0)
      {
        assert Right(s, op, k);
        MultiplierRight(s, step, s', anonymous, op, k);
      }
    case Vote(c, voted, vote) =>
      forall op, k: Counter ensures Right(s', op, k) {
        assert Right(s, op, k);
        VoteRight(s, c, voted, vote, s', op, k);
      }
    case VoteThrown(c, voted, vote) => ThrownVoteExact(s, c, voted, vote, s');
    case Cleanup(c) =>
      forall op, k: Counter ensures Right(s', op, k) {
        assert Right(s, op, k);
        CleanupRight(s, c, s', op, k);
      }
  }

  lemma ThrownVoteExact<C, U>(s: State<C, U>, c: C, voted: OpId, vote: byte, s': State<C, U>)
    requires Refined(s) && s'.members == s.members && s'.multiplier == s.multiplier
    requires s'.books == AfterThrownVote(s.books, c, voted, vote, MultiplierOf(s, c))
    ensures var ballot := BallotOf(s.books, c);
            Refined(s') <==> MultiplierOf(s, c) == 0 || CountedAlike(ballot, ballot[voted := vote], voted)
  {
    var ballot, w := BallotOf(s.books, c), MultiplierOf(s, c);
    forall op, k: Counter
      ensures Right(s', op, k) <==> BallotWeight(ballot[voted := vote], op, k, w) == BallotWeight(ballot, op, k, w)
    {
      ThrownVoteCounter(s, c, voted, vote, s', op, k);
    }
    CountedWeight(ballot, vote, voted, w);
  }

  lemma ThrownVoteCounter<C, U>(s: State<C, U>, c: C, voted: OpId, vote: byte, s': State<C, U>, op: OpId, k: Counter)
    requires Refined(s) && s'.members == s.members && s'.multiplier == s.multiplier
    requires s'.books == AfterThrownVote(s.books, c, voted, vote, MultiplierOf(s, c))
    ensures var ballot, w := BallotOf(s.books, c), MultiplierOf(s, c);
            Right(s', op, k) <==> BallotWeight(ballot[voted := vote], op, k, w) == BallotWeight(ballot, op, k, w)
  {
    var ballot, w := BallotOf(s.books, c), MultiplierOf(s, c);
    assert Right(s, op, k);
    ThrownVoteRight(s, c, voted, vote, s', op, k);
    CongruentWords(BallotWeight(ballot[voted := vote], op, k, w), BallotWeight(ballot, op, k, w));
  }

  lemma CongruentWords(a: int32, b: int32)
    ensures Congruent(a - b, 0) <==> a == b
  {
  }

  lemma CountedWeight(ballot: Ballot, vote: byte, voted: OpId, w: int32)
    ensures forall op, k: Counter :: op != voted ==>
              BallotWeight(ballot[voted := vote], op, k, w) == BallotWeight(ballot, op, k, w)
    ensures (forall k: Counter :: BallotWeight(ballot[voted := vote], voted, k, w) == BallotWeight(ballot, voted, k, w))
            <==> w == 0 || CountedAlike(ballot, ballot[voted := vote], voted)
  {
    var after := ballot[voted := vote];
    forall k: Counter
      ensures BallotWeight(after, voted, k, w) == BallotWeight(ballot, voted, k, w)
              <==> w == 0 || (voted in ballot && Counted(k, ballot[voted])) == Counted(k, vote)
    {
    }
  }

  lemma MemberExact<C, U>(s: State<C, U>, a: Action<C, U>, s': State<C, U>, anonymous: U)
    requires Sound(s) && Refined(s) && Moves(s, Member(a), s', anonymous)
    ensures Refined(s') <==> Safe(s, Member(a), anonymous)
  {
    OnlyOneMoves(s, a, s', anonymous);
    if a.TryAdd? || a.SetUser? || a.Exchange? {
      MoveExact(s, a.client, s');
    } else {
      forall op, k: Counter ensures Right(s', op, k) {
        assert Right(s, op, k);
        assert Weights(s', op, k) == Weights(s, op, k);
      }
    }
  }

  lemma OnlyOneMoves<C, U>(s: State<C, U>, a: Action<C, U>, s': State<C, U>, anonymous: U)
    requires Sound(s) && Moves(s, Member(a), s', anonymous)
    ensures forall d :: d in s.books.votes && ((a.TryAdd? || a.SetUser? || a.Exchange?) ==> d != a.client)
                        ==> MultiplierOf(s', d) == MultiplierOf(s, d)
  {
  }

  /** In every state of every run of safe steps, each counter is the weighted sum of the current
      votes modulo 2^32, and is that sum itself whenever it fits in 32 bits. */
  lemma {:induction false} CountersAlongRuns<C, U>(run: seq<State<C, U>>, steps: seq<Step<C, U>>, anonymous: U, n: nat)
    requires IsTallyRun(run, steps, anonymous) && n < |run|
    requires forall i :: 0 <= i < n ==> Safe(run[i], steps[i], anonymous)
    ensures Consistent(run[n]) && Refined(run[n])
    ensures forall op, k: Counter :: Fits(Total(run[n], op, k)) ==>
              CountsOf(run[n].books, op).Get(k) == Total(run[n], op, k)
  {
    if n == 0 {
      forall op, k: Counter ensures Total(run[0], op, k) == 0 {
        assert Weights(run[0], op, k) == map[];
      }
    } else {
      CountersAlongRuns(run, steps, anonymous, n - 1);
      ConsistentStep(run[n - 1], steps[n - 1], run[n], anonymous);
      RefinedExact(run[n - 1], steps[n - 1], run[n], anonymous);
    }
    forall op, k: Counter | Fits(Total(run[n], op, k))
        ensures CountsOf(run[n].books, op).Get(k) == Total(run[n], op, k) {
      assert Right(run[n], op, k);
    }
  }
}
