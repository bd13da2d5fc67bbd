/** What VotingManager keeps, as values: a pair of 32-bit counters per operation, the last vote
    of every client on every operation, and the metric events published so far. */
module Tally {
  import opened Bytes
  import opened Int32

  /** `VoteType` is cast from a wire byte, so any byte may appear; only two of them count. */
  const SUPPORT: byte := 1
  const AGAINST: byte := 2

  type OpId = int

  datatype Counter = Voters | Supporters

  datatype Counts = Counts(voters: int32, supporters: int32) {
    function Get(k: Counter): int32 {
      if k.Voters? then voters else supporters
    }
  }

  datatype Metric = Metric(op: OpId, counts: Counts)

  type Ballot = map<OpId, byte>

  /** `_tallies` and `_clientVotes`. */
  datatype Books<C> = Books(tallies: map<OpId, Counts>, votes: map<C, Ballot>)

  /** Which votes a counter counts. */
  predicate Counted(k: Counter, vote: byte) {
    vote == SUPPORT || (k.Voters? && vote == AGAINST)
  }

  /** `Interlocked.Add` of a weight on the counters that count this vote. */
  function Add(t: Counts, vote: byte, weight: int): (r: Counts)
    ensures forall k: Counter :: r.Get(k) == if Counted(k, vote) then Wrap(t.Get(k) + weight) else t.Get(k)
  {
    if vote == SUPPORT then Counts(Wrap(t.voters + weight), Wrap(t.supporters + weight))
    else if vote == AGAINST then Counts(Wrap(t.voters + weight), t.supporters)
    else t
  }

  /** The weight a ballot gives to a counter of one operation. */
  function BallotWeight(ballot: Ballot, op: OpId, k: Counter, multiplier: int): int {
    if op in ballot && Counted(k, ballot[op]) then multiplier else 0
  }

  /** Adding a weight moves a counter that is right for `total` to the new total, wrapped or not. */
  lemma AddRight(t: Counts, vote: byte, weight: int, k: Counter, total: int)
    requires t.Get(k) == Wrap(total)
    ensures Add(t, vote, weight).Get(k) == Wrap(total + if Counted(k, vote) then weight else 0)
  {
    WrapLeft(total, weight);
  }

  lemma AddWrappedRight(t: Counts, vote: byte, weight: int, k: Counter, total: int)
    requires t.Get(k) == Wrap(total)
    ensures Add(t, vote, Wrap(weight)).Get(k) == Wrap(total + if Counted(k, vote) then weight else 0)
  {
    WrapBoth(total, weight);
  }

  function BallotOf<C(==)>(b: Books<C>, c: C): Ballot {
    if c in b.votes then b.votes[c] else map[]
  }

  function CountsOf<C>(b: Books<C>, op: OpId): Counts {
    if op in b.tallies then b.tallies[op] else Counts(0, 0)
  }

  // ----- one vote -----

  function AfterVote<C(==)>(b: Books<C>, c: C, op: OpId, vote: byte, multiplier: int32): Books<C> {
    var ballot := BallotOf(b, c);
    var before := CountsOf(b, op);
    var cleared := if op in ballot then Add(before, ballot[op], Negate(multiplier)) else before;
    Books(b.tallies[op := Add(cleared, vote, multiplier)], b.votes[c := ballot[op := vote]])
  }

  /** A vote whose subscriber throws: the counters have moved, and the vote has not been stored. */
  function AfterThrownVote<C(==)>(b: Books<C>, c: C, op: OpId, vote: byte, multiplier: int32): Books<C> {
    Books(AfterVote(b, c, op, vote, multiplier).tallies, b.votes[c := BallotOf(b, c)])
  }

  /** A vote moves each counter from the weight of the old ballot to that of the new one. */
  lemma AfterVoteRight<C>(b: Books<C>, c: C, voted: OpId, vote: byte, multiplier: int32, op: OpId, k: Counter,
      total: int)
    requires CountsOf(b, op).Get(k) == Wrap(total)
    ensures var ballot := BallotOf(b, c);
            CountsOf(AfterVote(b, c, voted, vote, multiplier), op).Get(k)
            == Wrap(total - BallotWeight(ballot, op, k, multiplier)
                + BallotWeight(ballot[voted := vote], op, k, multiplier))
  {
    if op == voted {
      var ballot, t := BallotOf(b, c), CountsOf(b, op);
      var cleared := total - BallotWeight(ballot, op, k, multiplier);
      if op in ballot {
        ClearedRight(t, ballot[op], multiplier, k, total, cleared);
        AddRight(Add(t, ballot[op], Negate(multiplier)), vote, multiplier, k, cleared);
      } else {
        AddRight(t, vote, multiplier, k, cleared);
      }
    }
  }

  lemma ClearedRight(t: Counts, vote: byte, multiplier: int32, k: Counter, total: int, cleared: int)
    requires t.Get(k) == Wrap(total) && cleared == total - if Counted(k, vote) then multiplier else 0
    ensures Add(t, vote, Negate(multiplier)).Get(k) == Wrap(cleared)
  {
    AddWrappedRight(t, vote, -(multiplier as int), k, total);
  }

  // ----- a disconnected client's cleanup -----

  function AfterCleanup<C(==)>(b: Books<C>, c: C, multiplier: int32): Books<C> {
    var ballot := BallotOf(b, c);
    Books(map op | op in b.tallies ::
            if op in ballot then Add(b.tallies[op], ballot[op], Negate(multiplier)) else b.tallies[op],
          b.votes - {c})
  }

  /** A cleanup takes the weight of the client's ballot off each counter. */
  lemma AfterCleanupRight<C>(b: Books<C>, c: C, multiplier: int32, op: OpId, k: Counter, total: int)
    requires op in BallotOf(b, c) ==> op in b.tallies
    requires CountsOf(b, op).Get(k) == Wrap(total)
    ensures CountsOf(AfterCleanup(b, c, multiplier), op).Get(k)
            == Wrap(total - BallotWeight(BallotOf(b, c), op, k, multiplier))
  {
    if op in BallotOf(b, c) {
      AddWrappedRight(b.tallies[op], BallotOf(b, c)[op], -(multiplier as int), k, total);
    }
  }

  // ----- a change of multiplier -----

  /** The counters of one operation after the first clients of the snapshot have been adjusted. */
  function Adjusted<C(==)>(votes: map<C, Ballot>, t: Counts, clients: seq<C>, op: OpId, delta: int): Counts {
    if clients == [] then t
    else
      var before := Adjusted(votes, t, clients[..|clients| - 1], op, delta);
      var c := clients[|clients| - 1];
      if c in votes && op in votes[c] then Add(before, votes[c][op], delta) else before
  }

  /** One event per client of the snapshot that has a vote on the operation. */
  function Adjustments<C(==)>(votes: map<C, Ballot>, t: Counts, clients: seq<C>, op: OpId, delta: int): seq<Counts> {
    if clients == [] then []
    else
      var before := Adjustments(votes, t, clients[..|clients| - 1], op, delta);
      var c := clients[|clients| - 1];
      if c in votes && op in votes[c] then before + [Adjusted(votes, t, clients, op, delta)] else before
  }

  /** One client of the snapshot moves each counter by the weight its ballot gives to `delta`. */
  lemma AdjustedRight<C>(votes: map<C, Ballot>, t: Counts, clients: seq<C>, op: OpId, delta: int, k: Counter,
      total: int)
    requires clients != []
    requires Adjusted(votes, t, clients[..|clients| - 1], op, Wrap(delta)).Get(k) == Wrap(total)
    ensures var c := clients[|clients| - 1];
            Adjusted(votes, t, clients, op, Wrap(delta)).Get(k)
            == Wrap(total + if c in votes then BallotWeight(votes[c], op, k, delta) else 0)
  {
    var c := clients[|clients| - 1];
    if c in votes && op in votes[c] {
      AddWrappedRight(Adjusted(votes, t, clients[..|clients| - 1], op, Wrap(delta)), votes[c][op], delta, k, total);
    }
  }

  /** One more client of the snapshot: its ballot is adjusted, with one event per operation. */
  lemma AdjustedNext<C>(votes: map<C, Ballot>, t: Counts, clients: seq<C>, i: nat, op: OpId, delta: int)
    requires i < |clients|
    ensures var ballot := if clients[i] in votes then votes[clients[i]] else map[];
            var before := Adjusted(votes, t, clients[..i], op, delta);
            && Adjusted(votes, t, clients[..i + 1], op, delta)
               == (if op in ballot then Add(before, ballot[op], delta) else before)
            && Adjustments(votes, t, clients[..i + 1], op, delta)
               == Adjustments(votes, t, clients[..i], op, delta)
                  + if op in ballot then [Adjusted(votes, t, clients[..i + 1], op, delta)] else []
  {
    assert clients[..i + 1][..i] == clients[..i];
  }

  function AfterMultiplier<C(==)>(b: Books<C>, clients: seq<C>, delta: int): Books<C> {
    Books(map op | op in b.tallies :: Adjusted(b.votes, b.tallies[op], clients, op, delta), b.votes)
  }

  // ----- the published events -----

  /** The events of one operation, in order. The order in which a handler visits different
      operations is that of a hash table, and only this projection is determined. */
  function Of(log: seq<Metric>, op: OpId): seq<Counts> {
    if log == [] then []
    else
      var before := Of(log[..|log| - 1], op);
      var e := log[|log| - 1];
      if e.op == op then before + [e.counts] else before
  }

  lemma {:induction false} OfAppend(log: seq<Metric>, more: seq<Metric>, op: OpId)
    ensures Of(log + more, op) == Of(log, op) + Of(more, op)
  {
    if more == [] {
      assert log + more == log;
    } else {
      var init := more[..|more| - 1];
      OfAppend(log, init, op);
      assert (log + more)[..|log + more| - 1] == log + init;
    }
  }
}
