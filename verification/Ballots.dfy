/** What the counters say about the votes themselves: a definition of the true sums that reads the steps
    of a run and not the manager's record, and the theorem that the counters are those sums. */
module Ballots {
  import opened Bytes
  import opened Int32
  import opened Sums
  import opened Tally
  import opened TallyRefinement
  import opened Wrappers

  /** The last vote of a client on an operation since its last cleanup. A vote at which a subscriber has
      thrown does not count. */
  function Standing<C(==), U>(steps: seq<Step<C, U>>, c: C, op: OpId): Option<byte> {
    if steps == [] then None
    else
      match steps[|steps| - 1]
      case Vote(d, voted, vote) =>
        if d == c && voted == op then Some(vote) else Standing(steps[..|steps| - 1], c, op)
      case Cleanup(d) => if d == c then None else Standing(steps[..|steps| - 1], c, op)
      case _ => Standing(steps[..|steps| - 1], c, op)
  }

  function Recorded<C(==)>(b: Books<C>, c: C, op: OpId): Option<byte> {
    if op in BallotOf(b, c) then Some(BallotOf(b, c)[op]) else None
  }

  /** At every point of every run, safe or not, the manager has recorded of each client and operation the
      vote that stands. */
  lemma {:induction false} BallotsAreVotes<C, U>(
      run: seq<State<C, U>>, steps: seq<Step<C, U>>, anonymous: U, n: nat, c: C, op: OpId)
    requires IsTallyRun(run, steps, anonymous) && n < |run|
    ensures Recorded(run[n].books, c, op) == Standing(steps[..n], c, op)
  {
    if n > 0 {
      BallotsAreVotes(run, steps, anonymous, n - 1, c, op);
      StandingNext(steps, n, c, op);
      RecordedNext(run[n - 1], steps[n - 1], run[n], anonymous, c, op);
    }
  }

  lemma StandingNext<C, U>(steps: seq<Step<C, U>>, n: nat, c: C, op: OpId)
    requires 0 < n <= |steps|
    ensures var step := steps[n - 1];
            Standing(steps[..n], c, op)
            == if step.Vote? && step.client == c && step.op == op then Some(step.vote)
               else if step.Cleanup? && step.client == c then None
               else Standing(steps[..n - 1], c, op)
  {
    assert steps[..n][..n - 1] == steps[..n - 1];
  }

  lemma RecordedNext<C, U>(s: State<C, U>, step: Step<C, U>, s': State<C, U>, anonymous: U, c: C, op: OpId)
    requires Transition(s, step, s', anonymous)
    ensures Recorded(s'.books, c, op)
            == if step.Vote? && step.client == c && step.op == op then Some(step.vote)
               else if step.Cleanup? && step.client == c then None
               else Recorded(s.books, c, op)
  {
    assert s'.books == BooksAfter(s, step);
  }

  // ----- the true sums -----

  function StandingWeight<C, U(==)>(s: State<C, U>, steps: seq<Step<C, U>>, c: C, op: OpId, k: Counter): int {
    match Standing(steps, c, op)
    case None => 0
    case Some(vote) => if Counted(k, vote) then MultiplierOf(s, c) else 0
  }

  /** Over all clients that have ever connected: the multiplier of the user they belong to, if their
      standing vote counts. */
  ghost function TrueTotal<C, U>(s: State<C, U>, steps: seq<Step<C, U>>, op: OpId, k: Counter): int {
    Sum(map c | c in s.members.userOf :: StandingWeight(s, steps, c, op, k))
  }

  lemma TotalIsTrue<C, U>(run: seq<State<C, U>>, steps: seq<Step<C, U>>, anonymous: U, n: nat, op: OpId, k: Counter)
    requires IsTallyRun(run, steps, anonymous) && n < |run| && Sound(run[n])
    ensures Total(run[n], op, k) == TrueTotal(run[n], steps[..n], op, k)
  {
    var s := run[n];
    var all := map c | c in s.members.userOf :: StandingWeight(s, steps[..n], c, op, k);
    forall c | c in s.members.userOf
      ensures all[c] == if c in s.books.votes then Weights(s, op, k)[c] else 0
    {
      BallotsAreVotes(run, steps, anonymous, n, c, op);
    }
    SumExtend(Weights(s, op, k), all);
  }

  /** In every state of every run of safe steps each counter is the sum of the multipliers of the clients
      whose standing vote it counts, modulo 2^32, and that sum itself whenever it fits in 32 bits. */
  lemma CountersAreVotes<C, U>(run: seq<State<C, U>>, steps: seq<Step<C, U>>, anonymous: U, n: nat,
                               op: OpId, k: Counter)
    requires IsTallyRun(run, steps, anonymous) && n < |run|
    requires forall i :: 0 <= i < n ==> Safe(run[i], steps[i], anonymous)
    ensures var total := TrueTotal(run[n], steps[..n], op, k);
            && CountsOf(run[n].books, op).Get(k) == Wrap(total)
            && (Fits(total) ==> CountsOf(run[n].books, op).Get(k) == total)
  {
    CountersAlongRuns(run, steps, anonymous, n);
    TotalIsTrue(run, steps, anonymous, n, op, k);
    assert Right(run[n], op, k);
  }

  // ----- the votes by their bytes -----

  /** The multipliers of the users of all clients whose standing vote is this byte, added up. */
  ghost function Weighing<C, U>(s: State<C, U>, steps: seq<Step<C, U>>, op: OpId, vote: byte): int
    requires forall c :: c in s.members.userOf ==> s.members.userOf[c] in s.multiplier
  {
    Sum(map c | c in s.members.userOf ::
          if Standing(steps, c, op) == Some(vote) then s.multiplier[s.members.userOf[c]] else 0)
  }

  /** Supporters stand for byte 1, and voters for bytes 1 and 2. */
  lemma TotalsByByte<C, U>(s: State<C, U>, steps: seq<Step<C, U>>, op: OpId)
    requires forall c :: c in s.members.userOf ==> s.members.userOf[c] in s.multiplier
    ensures TrueTotal(s, steps, op, Supporters) == Weighing(s, steps, op, 1)
    ensures TrueTotal(s, steps, op, Voters) == Weighing(s, steps, op, 1) + Weighing(s, steps, op, 2)
  {
    var ones := map c | c in s.members.userOf ::
      if Standing(steps, c, op) == Some(1) then s.multiplier[s.members.userOf[c]] else 0;
    var twos := map c | c in s.members.userOf ::
      if Standing(steps, c, op) == Some(2) then s.multiplier[s.members.userOf[c]] else 0;
    var supporters := map c | c in s.members.userOf :: StandingWeight(s, steps, c, op, Supporters);
    var voters := map c | c in s.members.userOf :: StandingWeight(s, steps, c, op, Voters);
    assert supporters == ones;
    SumAdd(ones, twos, voters);
  }

  /** The two numbers that GetMetrics returns. */
  function Metrics<C>(b: Books<C>, op: OpId): (int, int) {
    if op in b.tallies then (b.tallies[op].voters, b.tallies[op].supporters) else (0, 0)
  }

  /** The numbers are the two sums, up to multiples of 2^32, and the sums themselves if they fit. */
  predicate Shows(metrics: (int, int), ones: int, twos: int) {
    && (metrics.1 - ones) % 0x1_0000_0000 == 0
    && (metrics.0 - metrics.1 - twos) % 0x1_0000_0000 == 0
    && (-0x8000_0000 <= ones < 0x8000_0000 ==> metrics.1 == ones)
    && (-0x8000_0000 <= ones + twos < 0x8000_0000 ==> metrics.0 == ones + twos)
  }

  /** In every state of every run of safe steps, of the two numbers that GetMetrics returns the supporters
      are the weights of the clients whose standing vote is the byte 1, and the voters exceed them by the
      weights of those whose standing vote is 2; another byte, or none, adds nothing. */
  lemma MetricsAreVotes<C, U>(run: seq<State<C, U>>, steps: seq<Step<C, U>>, anonymous: U, n: nat, op: OpId)
    requires IsTallyRun(run, steps, anonymous) && n < |run|
    requires forall i :: 0 <= i < n ==> Safe(run[i], steps[i], anonymous)
    ensures forall c :: c in run[n].members.userOf ==> run[n].members.userOf[c] in run[n].multiplier
    ensures Shows(Metrics(run[n].books, op),
                  Weighing(run[n], steps[..n], op, 1), Weighing(run[n], steps[..n], op, 2))
  {
    WrappedMetrics(run, steps, anonymous, n, op);
    WordsShow(Metrics(run[n].books, op),
              Weighing(run[n], steps[..n], op, 1), Weighing(run[n], steps[..n], op, 2));
  }

  lemma {:induction false} WrappedMetrics<C, U>(
      run: seq<State<C, U>>, steps: seq<Step<C, U>>, anonymous: U, n: nat, op: OpId)
    requires IsTallyRun(run, steps, anonymous) && n < |run|
    requires forall i :: 0 <= i < n ==> Safe(run[i], steps[i], anonymous)
    ensures forall c :: c in run[n].members.userOf ==> run[n].members.userOf[c] in run[n].multiplier
    ensures var ones, twos := Weighing(run[n], steps[..n], op, 1), Weighing(run[n], steps[..n], op, 2);
            Metrics(run[n].books, op) == (Wrap(ones + twos), Wrap(ones))
  {
    MultipliersKnown(run, steps, anonymous, n);
    BothCountersAreVotes(run, steps, anonymous, n, op);
    MetricsByByte(run[n], steps[..n], op);
  }

  lemma {:induction false} BothCountersAreVotes<C, U>(
      run: seq<State<C, U>>, steps: seq<Step<C, U>>, anonymous: U, n: nat, op: OpId)
    requires IsTallyRun(run, steps, anonymous) && n < |run|
    requires forall i :: 0 <= i < n ==> Safe(run[i], steps[i], anonymous)
    ensures forall k: Counter :: CountsOf(run[n].books, op).Get(k) == Wrap(TrueTotal(run[n], steps[..n], op, k))
  {
    forall k: Counter ensures CountsOf(run[n].books, op).Get(k) == Wrap(TrueTotal(run[n], steps[..n], op, k)) {
      CountersAreVotes(run, steps, anonymous, n, op, k);
    }
  }

  lemma {:induction false} MultipliersKnown<C, U>(
      run: seq<State<C, U>>, steps: seq<Step<C, U>>, anonymous: U, n: nat)
    requires IsTallyRun(run, steps, anonymous) && n < |run|
    ensures forall c :: c in run[n].members.userOf ==> run[n].members.userOf[c] in run[n].multiplier
  {
    ConsistentAlongRuns(run, steps, anonymous, n);
  }

  lemma {:induction false} MetricsByByte<C, U>(s: State<C, U>, steps: seq<Step<C, U>>, op: OpId)
    requires forall c :: c in s.members.userOf ==> s.members.userOf[c] in s.multiplier
    requires forall k: Counter :: CountsOf(s.books, op).Get(k) == Wrap(TrueTotal(s, steps, op, k))
    ensures var ones, twos := Weighing(s, steps, op, 1), Weighing(s, steps, op, 2);
            Metrics(s.books, op) == (Wrap(ones + twos), Wrap(ones))
  {
    TotalsByByte(s, steps, op);
    var counts := CountsOf(s.books, op);
    assert counts.Get(Voters) == counts.voters && counts.Get(Supporters) == counts.supporters;
  }

  lemma WordsShow(metrics: (int, int), ones: int, twos: int)
    requires metrics == (Wrap(ones + twos), Wrap(ones))
    ensures Shows(metrics, ones, twos)
  {
    var q := Laps(ones);
    var r := Laps(ones + twos);
    assert metrics.1 - ones == -q * 0x1_0000_0000;
    assert metrics.0 - metrics.1 - twos == (q - r) * 0x1_0000_0000;
  }

  /** The value that a user's multiplier was set to last. */
  function LastSet<C, U(==)>(steps: seq<Step<C, U>>, u: U, initial: int): int {
    if steps == [] then initial
    else
      var step := steps[|steps| - 1];
      if step.SetMultiplier? && step.user == u then step.value else LastSet(steps[..|steps| - 1], u, initial)
  }

  /** Nothing else changes a multiplier. */
  lemma {:induction false} MultipliersAreSet<C, U>(
      run: seq<State<C, U>>, steps: seq<Step<C, U>>, anonymous: U, n: nat, u: U)
    requires IsTallyRun(run, steps, anonymous) && n < |run| && u in run[0].multiplier
    ensures u in run[n].multiplier && run[n].multiplier[u] == LastSet(steps[..n], u, run[0].multiplier[u])
  {
    if n > 0 {
      MultipliersAreSet(run, steps, anonymous, n - 1, u);
      assert Transition(run[n - 1], steps[n - 1], run[n], anonymous);
      assert steps[..n][..n - 1] == steps[..n - 1];
    }
  }

  // ----- how many events -----

  lemma {:induction false} ConsistentAlongRuns<C, U>(
      run: seq<State<C, U>>, steps: seq<Step<C, U>>, anonymous: U, n: nat)
    requires IsTallyRun(run, steps, anonymous) && n < |run|
    ensures Consistent(run[n])
  {
    if n > 0 {
      ConsistentAlongRuns(run, steps, anonymous, n - 1);
      ConsistentStep(run[n - 1], steps[n - 1], run[n], anonymous);
    }
  }

  /** How many events a step publishes for an operation: one for a vote on it and for the cleanup of a client whose vote
      on it stands, and at a change of multiplier one for each connected client whose vote on it stands. */
  ghost function Published<C, U>(s: State<C, U>, steps: seq<Step<C, U>>, step: Step<C, U>, op: OpId): nat {
    match step
    case Member(_) => 0
    case Vote(_, voted, _) => if op == voted then 1 else 0
    case VoteThrown(_, voted, _) => if op == voted then 1 else 0
    case Cleanup(c) => if Standing(steps, c, op).Some? then 1 else 0
    case SetMultiplier(u, value, _) =>
      if u in s.multiplier && u in s.members.connected && value != s.multiplier[u]
      then |set c | c in s.members.connected[u] && Standing(steps, c, op).Some?| else 0
  }

  /** So many events follow those before, and the last one carries the two numbers that GetMetrics then returns. */
  lemma {:induction false} EventsArePublished<C, U>(
      run: seq<State<C, U>>, steps: seq<Step<C, U>>, anonymous: U, n: nat, op: OpId)
    requires IsTallyRun(run, steps, anonymous) && n < |steps|
    ensures var before, after := Of(run[n].log, op), Of(run[n + 1].log, op);
            && before <= after && |after| == |before| + Published(run[n], steps[..n], steps[n], op)
            && Metrics(run[n + 1].books, op)
               == if after == [] then (0, 0) else (after[|after| - 1].voters, after[|after| - 1].supporters)
  {
    var s, step := run[n], steps[n];
    ConsistentAlongRuns(run, steps, anonymous, n);
    ConsistentAlongRuns(run, steps, anonymous, n + 1);
    assert Transition(s, step, run[n + 1], anonymous);
    assert Latest(run[n + 1].books, run[n + 1].log, op);
    AddedCount(run, steps, anonymous, n, op);
  }

  lemma {:induction false} AddedCount<C, U>(
      run: seq<State<C, U>>, steps: seq<Step<C, U>>, anonymous: U, n: nat, op: OpId)
    requires IsTallyRun(run, steps, anonymous) && n < |steps| && Sound(run[n])
    ensures |Added(run[n], steps[n], op)| == Published(run[n], steps[..n], steps[n], op)
  {
    var s, step := run[n], steps[n];
    assert Transition(s, step, run[n + 1], anonymous) && Possible(s, step, anonymous);
    match step
    case Cleanup(c) => BallotsAreVotes(run, steps, anonymous, n, c, op);
    case SetMultiplier(u, value, snapshot) =>
      forall c ensures (c in s.books.votes && op in s.books.votes[c]) <==> Standing(steps[..n], c, op).Some? {
        BallotsAreVotes(run, steps, anonymous, n, c, op);
      }
      AdjustmentsCount(s.books.votes, CountsOf(s.books, op), snapshot, op, Wrap(value - s.multiplier[u]));
      var connected := s.members.connected[u];
      assert (set c | c in connected && Standing(steps[..n], c, op).Some?)
          == (set c | c in snapshot && c in s.books.votes && op in s.books.votes[c]);
      if op !in s.books.tallies {
        assert (set c | c in connected && Standing(steps[..n], c, op).Some?) == {};
      }
    case _ =>
  }

  lemma {:induction false} AdjustmentsCount<C>(votes: map<C, Ballot>, t: Counts, clients: seq<C>, op: OpId, delta: int)
    requires Distinct(clients)
    ensures |Adjustments(votes, t, clients, op, delta)|
            == |set c | c in clients && c in votes && op in votes[c]|
  {
    var counted := set c | c in clients && c in votes && op in votes[c];
    if clients == [] {
      assert counted == {};
    } else {
      var init, c := clients[..|clients| - 1], clients[|clients| - 1];
      AdjustmentsCount(votes, t, init, op, delta);
      assert c !in init && clients == init + [c];
      var others := set d | d in init && d in votes && op in votes[d];
      assert counted == if c in votes && op in votes[c] then others + {c} else others;
    }
  }
}
