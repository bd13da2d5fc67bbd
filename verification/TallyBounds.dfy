/** What every published metric satisfies, including those published while a change of multiplier
    is only half applied; and concrete runs in which the guard of the refinement fails. */
module TallyBounds {
  import opened Bytes
  import opened Int32
  import opened Membership
  import opened Sums
  import opened Tally
  import opened TallyRefinement
  import opened Wrappers

  ghost predicate NonNegative<C, U>(s: State<C, U>) {
    forall u :: u in s.multiplier ==> s.multiplier[u] >= 0
  }

  ghost predicate Fitting<C, U>(s: State<C, U>) {
    forall op :: Fits(Total(s, op, Voters))
  }

  predicate InRange(c: Counts) {
    0 <= c.supporters <= c.voters
  }

  predicate AllInRange(events: seq<Counts>) {
    forall i :: 0 <= i < |events| ==> InRange(events[i])
  }

  /** Supporters never outweigh voters, because every supporter is also a voter. */
  lemma TotalsInRange<C, U>(s: State<C, U>, op: OpId)
    requires NonNegative(s)
    ensures 0 <= Total(s, op, Supporters) <= Total(s, op, Voters)
  {
    SumNonNegative(Weights(s, op, Supporters));
    SumMonotone(Weights(s, op, Supporters), Weights(s, op, Voters));
  }

  lemma CountsInRange<C, U>(s: State<C, U>, op: OpId)
    requires NonNegative(s) && Fitting(s) && Right(s, op, Voters) && Right(s, op, Supporters)
    ensures InRange(CountsOf(s.books, op))
  {
    TotalsInRange(s, op);
    assert Fits(Total(s, op, Voters));
  }

  /** With part of the snapshot adjusted, supporters are still voters with the same weight. */
  lemma MidwayOrdered<C, U>(s: State<C, U>, value: int32, done: seq<C>, op: OpId)
    requires NonNegative(s) && value >= 0
    ensures 0 <= Sum(Midway(s, done, value, op, Supporters)) <= Sum(Midway(s, done, value, op, Voters))
  {
    SumNonNegative(Midway(s, done, value, op, Supporters));
    SumMonotone(Midway(s, done, value, op, Supporters), Midway(s, done, value, op, Voters));
  }

  /** With part of the snapshot adjusted, every weight lies between its old and its new value. */
  lemma MidwayFits<C, U>(s: State<C, U>, u: U, value: int32, s': State<C, U>, done: seq<C>, op: OpId)
    requires Fits(Total(s, op, Voters)) && Fits(Total(s', op, Voters)) && u in s.multiplier
    requires s'.members == s.members && s'.multiplier == s.multiplier[u := value] && s'.books.votes == s.books.votes
    requires forall c :: c in done ==> c in s.members.userOf && s.members.userOf[c] == u
    requires Sum(Midway(s, done, value, op, Voters)) >= 0
    ensures Fits(Sum(Midway(s, done, value, op, Voters)))
  {
    if value >= s.multiplier[u] {
      SumMonotone(Midway(s, done, value, op, Voters), Weights(s', op, Voters));
    } else {
      SumMonotone(Midway(s, done, value, op, Voters), Weights(s, op, Voters));
    }
  }

  lemma AdjustedInRange<C, U>(s: State<C, U>, t: Counts, previous: int, value: int, done: seq<C>, op: OpId)
    requires forall k: Counter :: t.Get(k) == Wrap(Total(s, op, k))
    requires Distinct(done) && forall c :: c in done ==> MultiplierOf(s, c) == previous
    requires 0 <= Sum(Midway(s, done, value, op, Supporters)) <= Sum(Midway(s, done, value, op, Voters))
    requires Fits(Sum(Midway(s, done, value, op, Voters)))
    ensures InRange(Adjusted(s.books.votes, t, done, op, Wrap(value - previous)))
  {
    AdjustedIsMidway(s, t, previous, value, done, op, Voters);
    AdjustedIsMidway(s, t, previous, value, done, op, Supporters);
  }

  lemma {:induction false} AdjustmentsInRange<C, U>(
      s: State<C, U>, t: Counts, u: U, value: int32, s': State<C, U>, done: seq<C>, op: OpId)
    requires NonNegative(s) && value >= 0 && u in s.multiplier
    requires Fits(Total(s, op, Voters)) && Fits(Total(s', op, Voters))
    requires s'.members == s.members && s'.multiplier == s.multiplier[u := value] && s'.books.votes == s.books.votes
    requires forall c :: c in done ==> c in s.members.userOf && s.members.userOf[c] == u
    requires Distinct(done) && forall k: Counter :: t.Get(k) == Wrap(Total(s, op, k))
    ensures AllInRange(Adjustments(s.books.votes, t, done, op, Wrap(value - s.multiplier[u])))
  {
    if done != [] {
      AdjustmentsInRange(s, t, u, value, s', done[..|done| - 1], op);
      MidwayOrdered(s, value, done, op);
      MidwayFits(s, u, value, s', done, op);
      AdjustedInRange(s, t, s.multiplier[u], value, done, op);
    }
  }

  lemma AddedInRange<C, U>(s: State<C, U>, step: Step<C, U>, s': State<C, U>, anonymous: U, op: OpId)
    requires Sound(s) && Refined(s) && Refined(s') && Moves(s, step, s', anonymous)
    requires NonNegative(s) && NonNegative(s') && Fitting(s) && Fitting(s')
    ensures AllInRange(Added(s, step, op))
  {
    assert Right(s, op, Voters) && Right(s, op, Supporters);
    assert Right(s', op, Voters) && Right(s', op, Supporters);
    if step.SetMultiplier? {
      SnapshotOwned(s, step, anonymous);
      assert s'.multiplier[step.user] == step.value;
      assert Fits(Total(s, op, Voters)) && Fits(Total(s', op, Voters));
      MultiplierAddedInRange(s, step, s', anonymous, op);
    } else {
      CountsInRange(s', op);
    }
  }

  lemma SnapshotOwned<C, U>(s: State<C, U>, step: Step<C, U>, anonymous: U)
    requires step.SetMultiplier? && Sound(s) && Possible(s, step, anonymous)
    ensures forall c :: c in step.snapshot ==> c in s.members.userOf && s.members.userOf[c] == step.user
  {
    forall c | c in step.snapshot ensures c in s.members.userOf && s.members.userOf[c] == step.user {
      assert c in (set d | d in step.snapshot);
    }
  }

  lemma MultiplierAddedInRange<C, U>(s: State<C, U>, step: Step<C, U>, s': State<C, U>, anonymous: U, op: OpId)
    requires step.SetMultiplier? && Moves(s, step, s', anonymous)
    requires forall c :: c in step.snapshot ==> c in s.members.userOf && s.members.userOf[c] == step.user
    requires Right(s, op, Voters) && Right(s, op, Supporters)
    requires NonNegative(s) && step.value >= 0 && Fits(Total(s, op, Voters)) && Fits(Total(s', op, Voters))
    ensures AllInRange(Added(s, step, op))
  {
    if op in s.books.tallies && step.value != s.multiplier[step.user] {
      TallyRight(s, op);
      AdjustmentsInRange(s, s.books.tallies[op], step.user, step.value, s', step.snapshot, op);
    }
  }

  lemma TallyRight<C, U>(s: State<C, U>, op: OpId)
    requires Right(s, op, Voters) && Right(s, op, Supporters) && op in s.books.tallies
    ensures forall k: Counter :: s.books.tallies[op].Get(k) == Wrap(Total(s, op, k))
  {
    forall k: Counter ensures s.books.tallies[op].Get(k) == Wrap(Total(s, op, k)) {
      assert k == Voters || k == Supporters;
    }
  }

  /** In every run of safe steps with non-negative multipliers and totals that fit, every metric ever
      published has 0 <= supporters <= voters. */
  lemma {:induction false} PublishedInRange<C, U>(
      run: seq<State<C, U>>, steps: seq<Step<C, U>>, anonymous: U, n: nat, op: OpId)
    requires IsTallyRun(run, steps, anonymous) && n < |run|
    requires forall i :: 0 <= i < n ==> Safe(run[i], steps[i], anonymous)
    requires forall i :: 0 <= i <= n ==> NonNegative(run[i]) && Fitting(run[i])
    ensures AllInRange(Of(run[n].log, op))
  {
    if n > 0 {
      PublishedInRange(run, steps, anonymous, n - 1, op);
      CountersAlongRuns(run, steps, anonymous, n - 1);
      CountersAlongRuns(run, steps, anonymous, n);
      AddedInRange(run[n - 1], steps[n - 1], run[n], anonymous, op);
    }
  }

  // ----- where the guard matters -----

  /** If every client of the user with a counted vote is still connected, its multiplier may change freely. */
  lemma ConnectedUsersMayChange<C, U>(s: State<C, U>, u: U, value: int32, snapshot: seq<C>, anonymous: U)
    requires forall c, op :: c in s.books.votes && op in s.books.votes[c] && Counted(Voters, s.books.votes[c][op])
                             && c in s.members.userOf && s.members.userOf[c] == u && u in s.members.connected
                             ==> c in s.members.connected[u]
    ensures Safe(s, SetMultiplier(u, value, snapshot), anonymous)
  {
    if u in s.multiplier && u in s.members.connected {
      forall op, k: Counter ensures Drift(s, u, value, op, k) == 0 {
        assert Missed(s, u, op, k) == {};
      }
    }
  }

  /** Client 7 of user 1 supports operation 5 with weight 1. */
  function OneSupporter(attached: bool): State<int, int> {
    var sessions := if attached then {7} else {};
    State(Members(map[7 := 1], map[0 := {}, 1 := sessions], sessions, map[0 := None, 1 := None]),
          map[0 := 4, 1 := 1],
          Books(map[5 := Counts(1, 1)], map[7 := map[5 := SUPPORT]]),
          [Metric(5, Counts(1, 1))])
  }

  /** The five states in which client 7 connects, logs in as user 1, supports operation 5 and goes. */
  function OneSupporterRun(i: nat): State<int, int> {
    var limits: map<int, Option<int>> := map[0 := None, 1 := None];
    var weights: map<int, int32> := map[0 := 4, 1 := 1];
    match i
    case 0 => State(Members(map[], map[0 := {}, 1 := {}], {}, limits), weights, Books(map[], map[]), [])
    case 1 => State(Members(map[7 := 0], map[0 := {7}, 1 := {}], {7}, limits), weights, Books(map[], map[]), [])
    case 2 => State(Members(map[7 := 1], map[0 := {}, 1 := {7}], {7}, limits), weights, Books(map[], map[]), [])
    case 3 => OneSupporter(true)
    case _ => OneSupporter(false)
  }

  function OneSupporterSteps(): seq<Step<int, int>> {
    [Member(Connect(7)), Member(TryAdd(7, 1)), Vote(7, 5, SUPPORT), Member(Disconnect(7))]
  }

  lemma Connects()
    ensures Moves(OneSupporterRun(0), Member(Connect(7)), OneSupporterRun(1), 0)
  {
    var m, m' := OneSupporterRun(0).members, OneSupporterRun(1).members;
    var after := AfterConnect(m, 7, 0);
    assert after.userOf == m'.userOf && after.attached == m'.attached;
    assert after.connected == m'.connected;
  }

  lemma LogsIn()
    ensures Moves(OneSupporterRun(1), Member(TryAdd(7, 1)), OneSupporterRun(2), 0)
  {
    var m, m' := OneSupporterRun(1).members, OneSupporterRun(2).members;
    var after := AfterMove(m, 7, 1);
    assert after.userOf == m'.userOf;
    assert after.connected[0] == m.connected[0] - {7} == {} && after.connected[1] == m.connected[1] + {7} == {7};
    assert after.connected == m'.connected;
    assert !Full(m, 1);
  }

  lemma FirstVote()
    ensures AfterVote(Books(map[], map[]), 7, 5, SUPPORT, 1)
            == Books(map[5 := Counts(1, 1)], map[7 := map[5 := SUPPORT]])
  {
    var b: Books<int> := Books(map[], map[]);
    assert BallotOf(b, 7) == map[] && CountsOf(b, 5) == Counts(0, 0);
    assert Add(Counts(0, 0), SUPPORT, 1) == Counts(1, 1);
  }

  lemma Votes()
    ensures Moves(OneSupporterRun(2), Vote(7, 5, SUPPORT), OneSupporterRun(3), 0)
  {
    var s, s' := OneSupporterRun(2), OneSupporterRun(3);
    assert 7 in s.members.userOf && MultiplierOf(s, 7) == 1 by {
      assert s.members.userOf[7] == 1 && s.multiplier[1] == 1;
    }
    assert s'.members == s.members && s'.multiplier == s.multiplier;
    FirstVote();
    VoteMoves(s, 7, 5, SUPPORT, 1, s', 0);
  }

  lemma VoteMoves<C, U>(s: State<C, U>, c: C, op: OpId, vote: byte, weight: int32, s': State<C, U>, anonymous: U)
    requires c in s.members.userOf && MultiplierOf(s, c) == weight
    requires s'.members == s.members && s'.multiplier == s.multiplier
            && s'.books == AfterVote(s.books, c, op, vote, weight)
    ensures Moves(s, Vote(c, op, vote), s', anonymous)
  {
  }

  lemma Disconnects()
    ensures Moves(OneSupporterRun(3), Member(Disconnect(7)), OneSupporterRun(4), 0)
  {
    var m, m' := OneSupporterRun(3).members, OneSupporterRun(4).members;
    var after := AfterDisconnect(m, 7);
    assert after.attached == m'.attached;
    assert after.connected == m'.connected;
  }

  lemma OneSupporterTransition(i: nat)
    requires i < 4
    ensures Transition(OneSupporterRun(i), OneSupporterSteps()[i], OneSupporterRun(i + 1), 0)
    ensures Safe(OneSupporterRun(i), OneSupporterSteps()[i], 0)
  {
    match i
    case 0 => Connects();
    case 1 => LogsIn();
    case 2 => Votes(); assert [Metric(5, Counts(1, 1))][..0] == [];
    case _ => Disconnects();
  }

  /** Both states of the supporter are reached by a run of safe steps from the start. */
  lemma OneSupporterReached() returns (run: seq<State<int, int>>)
    ensures IsTallyRun(run, OneSupporterSteps(), 0)
    ensures forall i :: 0 <= i < 4 ==> Safe(run[i], OneSupporterSteps()[i], 0)
    ensures run[3] == OneSupporter(true) && run[4] == OneSupporter(false)
    ensures forall attached :: Sound(OneSupporter(attached)) && Refined(OneSupporter(attached))
  {
    run := seq(5, i requires 0 <= i < 5 => OneSupporterRun(i));
    forall i | 0 <= i < 4
      ensures Transition(run[i], OneSupporterSteps()[i], run[i + 1], 0) && Safe(run[i], OneSupporterSteps()[i], 0)
    {
      OneSupporterTransition(i);
    }
    CountersAlongRuns(run, OneSupporterSteps(), 0, 3);
    CountersAlongRuns(run, OneSupporterSteps(), 0, 4);
  }

  /** A multiplier that changes between a client's disconnect and its cleanup: the cleanup takes
      away the new weight where the old one was added, and the operation ends at -2 with no votes. */
  lemma ChangeBeforeCleanupDrifts(s1: State<int, int>, s2: State<int, int>)
    requires Moves(OneSupporter(false), SetMultiplier(1, 3, []), s1, 0)
    requires Moves(s1, Cleanup(7), s2, 0)
    ensures s2.books == Books(map[5 := Counts(-2, -2)], map[])
    ensures !Safe(OneSupporter(false), SetMultiplier(1, 3, []), 0)
  {
    var s := OneSupporter(false);
    assert Missed(s, 1, 5, Voters) == {7};
    assert Drift(s, 1, 3, 5, Voters) == 2;
    assert s1.books.tallies == s.books.tallies;
    assert MultiplierOf(s1, 7) == 3;
    assert Add(Counts(1, 1), SUPPORT, Negate(3)) == Counts(-2, -2);
    assert s2.books.tallies == map[5 := Counts(-2, -2)];
  }

  /** A client that votes and then changes to a user of weight 4 is still counted with weight 1. */
  lemma ChangeOfUserAfterVotingDrifts(s': State<int, int>)
    requires Moves(OneSupporter(true), Member(Exchange(7, 0)), s', 0)
    ensures CountsOf(s'.books, 5) == Counts(1, 1) && Total(s', 5, Voters) == 4
    ensures !Safe(OneSupporter(true), Member(Exchange(7, 0)), 0)
  {
    var s := OneSupporter(true);
    SumRemove(Weights(s', 5, Voters), 7);
    assert Weights(s', 5, Voters) - {7} == map[];
    assert 5 in BallotOf(s.books, 7) && Counted(Voters, BallotOf(s.books, 7)[5]);
  }
}
