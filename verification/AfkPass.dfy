/** One pass of the AFK thread over the sorted timeouts: it waits for each in turn, and queues an
    abstention for every operation whose user has been idle long enough. */
module AfkPass {
  import opened Bytes
  import opened Tally
  import opened Wrappers

  // ----- the order of the timeouts -----

  /** An OperationAfkRecord: a time span in ticks and the id of an operation. */
  datatype Timeout = Timeout(span: int, op: OpId)

  function Compare(a: int, b: int): int {
    if a < b then -1 else if a > b then 1 else 0
  }

  /** No record is before every record. */
  function CompareTo(a: Timeout, other: Option<Timeout>): int {
    match other
    case None => 1
    case Some(b) =>
      var timeoutResult := Compare(a.span, b.span);
      if timeoutResult != 0 then timeoutResult else Compare(a.op, b.op)
  }

  /** The comparison is a total order in which only equal records compare equal. */
  lemma ComparisonIsTotal(a: Timeout, b: Timeout, c: Timeout)
    ensures CompareTo(a, Some(b)) == 0 <==> a == b
    ensures CompareTo(a, Some(b)) < 0 <==> CompareTo(b, Some(a)) > 0
    ensures CompareTo(a, Some(b)) <= 0 && CompareTo(b, Some(c)) <= 0 ==> CompareTo(a, Some(c)) <= 0
  {
  }

  /** What iterating over a SortedSet yields. */
  ghost predicate Sorted(s: seq<Timeout>) {
    forall i, j :: 0 <= i < j < |s| ==> CompareTo(s[i], Some(s[j])) < 0
  }

  function Added(s: seq<Timeout>, x: Timeout): seq<Timeout> {
    if s == [] then [x]
    else if CompareTo(x, Some(s[0])) < 0 then [x] + s
    else if CompareTo(x, Some(s[0])) == 0 then s
    else [s[0]] + Added(s[1..], x)
  }

  /** Adding a record keeps the set sorted and adds nothing else. */
  lemma {:induction false} AddedSorted(s: seq<Timeout>, x: Timeout)
    requires Sorted(s)
    ensures forall y :: y in Added(s, x) <==> y in s || y == x
    ensures Sorted(Added(s, x))
  {
    if s == [] {
    } else if CompareTo(x, Some(s[0])) > 0 {
      var tail := Added(s[1..], x);
      AddedSorted(s[1..], x);
      forall y ensures y in Added(s, x) <==> y in s || y == x {
        assert y in s <==> y == s[0] || y in s[1..];
      }
      forall j | 0 <= j < |tail| ensures CompareTo(s[0], Some(tail[j])) < 0 {
        assert tail[j] in tail;
      }
    } else if CompareTo(x, Some(s[0])) < 0 {
      forall j | 0 <= j < |s| ensures CompareTo(x, Some(s[j])) < 0 {
        ComparisonIsTotal(x, s[0], s[j]);
        ComparisonIsTotal(x, s[j], s[0]);
      }
    }
  }

  // ----- what a pass does -----

  datatype Wait = TimedOut | Signalled | Cancelled

  /** What one timeout meets: the clock when it is looked at, how and when the wait for the signal ends
      if there is one, and whether a wait for IsNotAfkLock would be cancelled. */
  datatype Tick = Tick(now: int, wait: Wait, woken: int, lockCancelled: bool)

  function Remaining(item: Timeout, lastClick: int, tick: Tick): int {
    item.span - (tick.now - lastClick)
  }

  /** A wait that times out has lasted as long as was asked for. */
  predicate Honest(item: Timeout, lastClick: int, tick: Tick) {
    tick.wait == TimedOut ==> tick.woken >= tick.now + Remaining(item, lastClick, tick)
  }

  /** When the timeout is marked, if it is. */
  function MarkedAt(item: Timeout, lastClick: int, tick: Tick): int {
    if Remaining(item, lastClick, tick) > 0 then tick.woken else tick.now
  }

  predicate Interrupts(item: Timeout, lastClick: int, tick: Tick, notAfk: bool) {
    || (Remaining(item, lastClick, tick) > 0 && tick.wait != TimedOut)
    || (notAfk && tick.lockCancelled)
  }

  /** How many timeouts a pass marks before it is interrupted. */
  function Marks(items: seq<Timeout>, lastClick: int, ticks: seq<Tick>, notAfk: bool): (n: nat)
    requires |ticks| == |items|
    ensures n <= |items|
  {
    if items == [] || Interrupts(items[0], lastClick, ticks[0], notAfk) then 0
    else 1 + Marks(items[1..], lastClick, ticks[1..], false)
  }

  datatype AfkState = AfkState(vote: byte, isAfk: bool)

  type AfkTypes = map<OpId, AfkState>

  function IsAfk(types: AfkTypes, op: OpId): bool {
    op in types && types[op].isAfk
  }

  /** A marked operation keeps its saved vote; one without a vote is saved as Against. */
  function Marked(types: AfkTypes, op: OpId): AfkTypes {
    types[op := AfkState(if op in types then types[op].vote else AGAINST, true)]
  }

  function AllMarked(types: AfkTypes, items: seq<Timeout>): AfkTypes {
    if items == [] then types else Marked(AllMarked(types, items[..|items| - 1]), items[|items| - 1].op)
  }

  /** The operations for which an abstention is queued. */
  function Newly(types: AfkTypes, items: seq<Timeout>): seq<OpId> {
    if items == [] then []
    else
      var init, op := items[..|items| - 1], items[|items| - 1].op;
      Newly(types, init) + if IsAfk(AllMarked(types, init), op) then [] else [op]
  }

  lemma MarksStep(items: seq<Timeout>, lastClick: int, ticks: seq<Tick>, m: nat, notAfk: bool)
    requires m < |items| == |ticks|
    ensures Marks(items[m..], lastClick, ticks[m..], notAfk)
            == if Interrupts(items[m], lastClick, ticks[m], notAfk) then 0
               else 1 + Marks(items[m + 1..], lastClick, ticks[m + 1..], false)
  {
    assert items[m..][1..] == items[m + 1..] && ticks[m..][1..] == ticks[m + 1..];
  }

  /** No timeout of the pass had to be waited for. */
  ghost predicate AllDue(items: seq<Timeout>, lastClick: int, ticks: seq<Tick>)
    requires |ticks| == |items|
  {
    forall i :: 0 <= i < |items| ==> Remaining(items[i], lastClick, ticks[i]) <= 0
  }

  lemma DueStep(items: seq<Timeout>, lastClick: int, ticks: seq<Tick>, m: nat)
    requires m < |items| == |ticks|
    ensures AllDue(items[..m + 1], lastClick, ticks[..m + 1])
            <==> AllDue(items[..m], lastClick, ticks[..m]) && Remaining(items[m], lastClick, ticks[m]) <= 0
  {
    var more, longer := items[..m + 1], ticks[..m + 1];
    assert more[m] == items[m] && longer[m] == ticks[m];
    assert forall i :: 0 <= i < m ==> items[..m][i] == more[i] && ticks[..m][i] == longer[i];
  }

  lemma MarkedStep(types: AfkTypes, items: seq<Timeout>, m: nat)
    requires m < |items|
    ensures var before := AllMarked(types, items[..m]);
            && AllMarked(types, items[..m + 1]) == Marked(before, items[m].op)
            && Newly(types, items[..m + 1])
               == Newly(types, items[..m]) + if IsAfk(before, items[m].op) then [] else [items[m].op]
  {
    assert items[..m + 1][..m] == items[..m];
  }

  /** What the thread does after the pass. */
  datatype After = WaitThenRestore | WaitForSignal | PassAgain

  class ClientManager {
    var afkTypes: AfkTypes
    var isNotAfkState: bool
    var sent: seq<OpId>      // abstentions queued so far

    constructor ()
      ensures afkTypes == map[] && !isNotAfkState && sent == []
    {
      afkTypes, isNotAfkState, sent := map[], false, [];
    }

    method AddOrUpdate(op: OpId) returns (sendOp: bool)
      modifies this`afkTypes
      ensures afkTypes == Marked(old(afkTypes), op) && sendOp == !IsAfk(old(afkTypes), op)
    {
      sendOp := true;
      if op in afkTypes {
        sendOp := !afkTypes[op].isAfk;
        afkTypes := afkTypes[op := AfkState(afkTypes[op].vote, true)];
      } else {
        afkTypes := afkTypes[op := AfkState(AGAINST, true)];
      }
    }

    /** One timeout: whether the pass goes on. */
    method Process(item: Timeout, lastClick: int, tick: Tick) returns (goesOn: bool, waited: bool)
      modifies this
      ensures goesOn <==> !Interrupts(item, lastClick, tick, old(isNotAfkState))
      ensures waited <==> Remaining(item, lastClick, tick) > 0
      ensures goesOn ==> !isNotAfkState && afkTypes == Marked(old(afkTypes), item.op)
      ensures goesOn ==> sent == old(sent) + if IsAfk(old(afkTypes), item.op) then [] else [item.op]
      ensures !goesOn ==> afkTypes == old(afkTypes) && sent == old(sent)
    {
      waited := false;
      var remainingWait := Remaining(item, lastClick, tick);
      if remainingWait > 0 {
        waited := true;
        if tick.wait != TimedOut {
          return false, waited;
        }
      }
      var wasNotAfk := isNotAfkState;
      isNotAfkState := false;
      if wasNotAfk && tick.lockCancelled {
        return false, waited;
      }
      var sendOp := AddOrUpdate(item.op);
      if sendOp {
        sent := sent + [item.op];
      }
      return true, waited;
    }

    /** The timeouts in turn: exactly the first `marked` are marked, in order. */
    method Sweep(localTimeouts: seq<Timeout>, lastClick: int, ticks: seq<Tick>)
        returns (marked: nat, allNonPositiveRemaining: bool)
      requires |ticks| == |localTimeouts|
      modifies this
      ensures marked == Marks(localTimeouts, lastClick, ticks, old(isNotAfkState))
      ensures afkTypes == AllMarked(old(afkTypes), localTimeouts[..marked])
      ensures sent == old(sent) + Newly(old(afkTypes), localTimeouts[..marked])
      ensures marked == |localTimeouts| > 0 ==> !isNotAfkState
      ensures marked == |localTimeouts| ==> (allNonPositiveRemaining <==> AllDue(localTimeouts, lastClick, ticks))
    {
      marked, allNonPositiveRemaining := 0, true;
      while marked < |localTimeouts|
        invariant marked <= |localTimeouts|
        invariant Marks(localTimeouts, lastClick, ticks, old(isNotAfkState))
                  == marked + Marks(localTimeouts[marked..], lastClick, ticks[marked..], isNotAfkState)
        invariant afkTypes == AllMarked(old(afkTypes), localTimeouts[..marked])
        invariant sent == old(sent) + Newly(old(afkTypes), localTimeouts[..marked])
        invariant marked > 0 ==> !isNotAfkState
        invariant allNonPositiveRemaining <==> AllDue(localTimeouts[..marked], lastClick, ticks[..marked])
      {
        MarksStep(localTimeouts, lastClick, ticks, marked, isNotAfkState);
        MarkedStep(old(afkTypes), localTimeouts, marked);
        DueStep(localTimeouts, lastClick, ticks, marked);
        var goesOn, waited := Process(localTimeouts[marked], lastClick, ticks[marked]);
        if waited {
          allNonPositiveRemaining := false;
        }
        if !goesOn {
          return;
        }
        marked := marked + 1;
      }
      assert localTimeouts[..marked] == localTimeouts && ticks[..marked] == ticks && localTimeouts[marked..] == [];
    }

    /** The body of the thread's loop: a pass, and what the thread does next. */
    method AFKProcessing(localTimeouts: seq<Timeout>, lastClick: int, ticks: seq<Tick>)
        returns (marked: nat, next: After)
      requires |ticks| == |localTimeouts|
      modifies this
      ensures marked == Marks(localTimeouts, lastClick, ticks, old(isNotAfkState))
      ensures afkTypes == AllMarked(old(afkTypes), localTimeouts[..marked])
      ensures sent == old(sent) + Newly(old(afkTypes), localTimeouts[..marked])
      ensures localTimeouts != [] ==> isNotAfkState == (marked < |localTimeouts|)
      ensures next == if marked < |localTimeouts| then WaitThenRestore
                      else if AllDue(localTimeouts, lastClick, ticks) then WaitForSignal else PassAgain
    {
      marked := 0;
      if localTimeouts == [] {
        return marked, WaitForSignal;
      }
      var allNonPositiveRemaining;
      marked, allNonPositiveRemaining := Sweep(localTimeouts, lastClick, ticks);
      if marked < |localTimeouts| {
        isNotAfkState := true;
        next := WaitThenRestore;
      } else if allNonPositiveRemaining {
        next := WaitForSignal;
      } else {
        next := PassAgain;
      }
    }

    /** What LockClient records once it has the lock. */
    method LockClient(operation: OpId, vote: byte)
      modifies this`afkTypes
      ensures afkTypes == old(afkTypes)[operation := AfkState(vote, false)]
    {
      afkTypes := afkTypes[operation := AfkState(vote, false)];
    }
  }

  // ----- what follows -----

  /** The pass stops where a timeout interrupts it, and nowhere else. */
  lemma {:induction false} MarksExact(items: seq<Timeout>, lastClick: int, ticks: seq<Tick>, notAfk: bool, n: nat)
    requires |ticks| == |items| && n <= |items|
    ensures n <= Marks(items, lastClick, ticks, notAfk)
            <==> forall i :: 0 <= i < n ==> !Interrupts(items[i], lastClick, ticks[i], notAfk && i == 0)
  {
    if n > 0 && !Interrupts(items[0], lastClick, ticks[0], notAfk) {
      MarksExact(items[1..], lastClick, ticks[1..], false, n - 1);
      assert forall i :: 0 <= i < n - 1 ==> items[1..][i] == items[i + 1] && ticks[1..][i] == ticks[i + 1];
      assert forall i :: 0 < i < n ==> items[i] == items[1..][i - 1] && ticks[i] == ticks[1..][i - 1];
    }
  }

  /** No timeout is marked before its time. */
  lemma MarkedInTime(items: seq<Timeout>, lastClick: int, ticks: seq<Tick>, notAfk: bool, i: nat)
    requires |ticks| == |items| && i < Marks(items, lastClick, ticks, notAfk)
    requires Honest(items[i], lastClick, ticks[i])
    ensures MarkedAt(items[i], lastClick, ticks[i]) - lastClick >= items[i].span
  {
    MarksExact(items, lastClick, ticks, notAfk, i + 1);
  }

  /** If the lock is not cancelled, every timeout that is due when the pass begins is marked. */
  lemma DueIsMarked(items: seq<Timeout>, lastClick: int, ticks: seq<Tick>, notAfk: bool, i: nat)
    requires |ticks| == |items| && i < |items| && Sorted(items) && !ticks[0].lockCancelled
    requires forall j :: 0 <= j < |ticks| ==> ticks[0].now <= ticks[j].now
    requires items[i].span <= ticks[0].now - lastClick
    ensures i < Marks(items, lastClick, ticks, notAfk)
  {
    forall j | 0 <= j <= i ensures !Interrupts(items[j], lastClick, ticks[j], notAfk && j == 0) {
      assert items[j].span <= items[i].span by {
        if j < i {
          assert CompareTo(items[j], Some(items[i])) < 0;
        }
      }
    }
    MarksExact(items, lastClick, ticks, notAfk, i + 1);
  }

  /** A pass saves Against for operations without a vote and never changes a saved vote; it marks the
      operations of its timeouts and no others. */
  lemma {:induction false} VotesAreKept(types: AfkTypes, items: seq<Timeout>, op: OpId)
    ensures var after := AllMarked(types, items);
            && (op in types ==> op in after && after[op].vote == types[op].vote)
            && (op in after && op !in types ==> after[op].vote == AGAINST)
            && (IsAfk(after, op) <==> IsAfk(types, op) || exists i :: 0 <= i < |items| && items[i].op == op)
            && (op in after <==> op in types || exists i :: 0 <= i < |items| && items[i].op == op)
  {
    if items != [] {
      VotesAreKept(types, items[..|items| - 1], op);
    }
  }

  /** An abstention is queued exactly for the operations that were not away yet. */
  lemma {:induction false} NewlyExact(types: AfkTypes, items: seq<Timeout>, op: OpId)
    ensures op in Newly(types, items) <==> !IsAfk(types, op) && exists i :: 0 <= i < |items| && items[i].op == op
  {
    if items != [] {
      NewlyExact(types, items[..|items| - 1], op);
      VotesAreKept(types, items[..|items| - 1], items[|items| - 1].op);
    }
  }

  /** And once for each. */
  lemma {:induction false} NewlyDistinct(types: AfkTypes, items: seq<Timeout>)
    ensures forall i, j :: 0 <= i < j < |Newly(types, items)| ==> Newly(types, items)[i] != Newly(types, items)[j]
  {
    if items != [] {
      var init, op := items[..|items| - 1], items[|items| - 1].op;
      NewlyDistinct(types, init);
      NewlyExact(types, init, op);
      VotesAreKept(types, init, op);
    }
  }

  /** The operations that were not away, in the order of their timeouts. */
  function Present(types: AfkTypes, items: seq<Timeout>): seq<OpId> {
    if items == [] then []
    else
      Present(types, items[..|items| - 1])
      + if IsAfk(types, items[|items| - 1].op) then [] else [items[|items| - 1].op]
  }

  /** With one timeout for each operation, abstentions are queued in the order of the timeouts. */
  lemma {:induction false} NewlyInOrder(types: AfkTypes, items: seq<Timeout>)
    requires forall i, j :: 0 <= i < j < |items| ==> items[i].op != items[j].op
    ensures Newly(types, items) == Present(types, items)
  {
    if items != [] {
      NewlyInOrder(types, items[..|items| - 1]);
      VotesAreKept(types, items[..|items| - 1], items[|items| - 1].op);
    }
  }

  /** A second pass without input is uninterrupted, sends nothing, changes nothing, and ends in a wait
      for the signal. */
  lemma SecondPassIsQuiet(items: seq<Timeout>, lastClick: int, first: seq<Tick>, second: seq<Tick>, notAfk: bool,
      types: AfkTypes)
    requires |first| == |second| == |items| && Marks(items, lastClick, first, notAfk) == |items|
    requires forall i :: 0 <= i < |items| ==> Honest(items[i], lastClick, first[i])
    requires forall i :: 0 <= i < |items| ==> MarkedAt(items[i], lastClick, first[i]) <= second[i].now
    ensures Marks(items, lastClick, second, false) == |items|
    ensures AllDue(items, lastClick, second)
    ensures Newly(AllMarked(types, items), items) == []
            && AllMarked(AllMarked(types, items), items) == AllMarked(types, items)
  {
    forall i | 0 <= i < |items| ensures Remaining(items[i], lastClick, second[i]) <= 0 {
      MarkedInTime(items, lastClick, first, notAfk, i);
    }
    MarksExact(items, lastClick, second, false, |items|);
    MarkedTwice(AllMarked(types, items), types, items, items);
  }

  lemma {:induction false} MarkedTwice(marked: AfkTypes, types: AfkTypes, items: seq<Timeout>, again: seq<Timeout>)
    requires marked == AllMarked(types, items) && |again| <= |items| && again == items[..|again|]
    ensures AllMarked(marked, again) == marked && Newly(marked, again) == []
  {
    if again != [] {
      var init, op := again[..|again| - 1], again[|again| - 1].op;
      MarkedTwice(marked, types, items, init);
      VotesAreKept(types, items, op);
      assert items[|again| - 1].op == op;
      assert Marked(marked, op) == marked;
    }
  }

  /** After everything was away, one vote of the user brings back one operation: the next complete pass
      queues an abstention for it alone, and remembers the new vote. */
  lemma OneReturns(types: AfkTypes, items: seq<Timeout>, op: OpId, vote: byte)
    requires forall i :: 0 <= i < |items| ==> IsAfk(types, items[i].op)
    requires exists i :: 0 <= i < |items| && items[i].op == op
    ensures Newly(types[op := AfkState(vote, false)], items) == [op]
    ensures AllMarked(types[op := AfkState(vote, false)], items) == types[op := AfkState(vote, true)]
  {
    ReturnsAfter(types, items, op, vote);
  }

  lemma {:induction false} ReturnsAfter(types: AfkTypes, items: seq<Timeout>, op: OpId, vote: byte)
    requires forall i :: 0 <= i < |items| ==> IsAfk(types, items[i].op)
    ensures var back, found := types[op := AfkState(vote, false)], exists i :: 0 <= i < |items| && items[i].op == op;
            && Newly(back, items) == (if found then [op] else [])
            && AllMarked(back, items) == if found then types[op := AfkState(vote, true)] else back
  {
    if items != [] {
      var init, last := items[..|items| - 1], items[|items| - 1].op;
      ReturnsAfter(types, init, op, vote);
      var before := AllMarked(types[op := AfkState(vote, false)], init);
      if last == op {
        assert Marked(before, op) == types[op := AfkState(vote, true)];
      } else {
        assert Marked(before, last) == before;
      }
    }
  }

  // ----- what a pass does, in the clock's terms -----

  /** A timeout is marked if and only if it and every one before it was due when it was looked at or was
      waited for until the wait timed out, and the lock, which only the first one asks for and only if the
      user was not away, was obtained. */
  lemma MarkedExactly(items: seq<Timeout>, lastClick: int, ticks: seq<Tick>, notAfk: bool, i: nat)
    requires |ticks| == |items| && i < |items|
    ensures i < Marks(items, lastClick, ticks, notAfk)
            <==> (forall j :: 0 <= j <= i ==>
                    ticks[j].now - lastClick >= items[j].span || ticks[j].wait == TimedOut)
                 && !(notAfk && ticks[0].lockCancelled)
  {
    MarksExact(items, lastClick, ticks, notAfk, i + 1);
    forall j | 0 <= j <= i
      ensures !Interrupts(items[j], lastClick, ticks[j], notAfk && j == 0)
              <==> (ticks[j].now - lastClick >= items[j].span || ticks[j].wait == TimedOut)
                   && !(notAfk && j == 0 && ticks[0].lockCancelled)
    {
    }
  }

  /** If nobody interrupts the pass and the lock is not cancelled, everything is marked, and an abstention is
      queued for exactly the operations that were not away. */
  lemma IdleMarksAll(items: seq<Timeout>, lastClick: int, ticks: seq<Tick>, notAfk: bool, types: AfkTypes, op: OpId)
    requires |ticks| == |items| && (items != [] ==> !ticks[0].lockCancelled)
    requires forall j :: 0 <= j < |items| ==> ticks[j].wait == TimedOut
    ensures Marks(items, lastClick, ticks, notAfk) == |items|
    ensures op in Newly(types, items)
            <==> (exists i :: 0 <= i < |items| && items[i].op == op) && !(op in types && types[op].isAfk)
  {
    if items != [] {
      MarkedExactly(items, lastClick, ticks, notAfk, |items| - 1);
    }
    NewlyExact(types, items, op);
  }

  /** An operation that is marked without a saved vote is saved with the byte 2; a saved vote stays, and an
      operation of no timeout is left alone. */
  lemma MarkedVotes(types: AfkTypes, items: seq<Timeout>, op: OpId)
    ensures var after := AllMarked(types, items);
            if exists i :: 0 <= i < |items| && items[i].op == op
            then op in after && after[op] == AfkState(if op in types then types[op].vote else 2, true)
            else (op in after <==> op in types) && (op in types ==> after[op] == types[op])
  {
    VotesAreKept(types, items, op);
    if forall i :: 0 <= i < |items| ==> items[i].op != op {
      OthersUnmarked(types, items, op);
    }
  }

  lemma {:induction false} OthersUnmarked(types: AfkTypes, items: seq<Timeout>, op: OpId)
    requires forall i :: 0 <= i < |items| ==> items[i].op != op
    ensures var after := AllMarked(types, items);
            (op in after <==> op in types) && (op in types ==> after[op] == types[op])
  {
    if items != [] {
      OthersUnmarked(types, items[..|items| - 1], op);
    }
  }

  /** The records are ordered by their time spans, and those with the same one by the ids. */
  lemma EarlierFirst(a: Timeout, b: Timeout)
    ensures CompareTo(a, Some(b)) < 0 <==> a.span < b.span || (a.span == b.span && a.op < b.op)
    ensures CompareTo(a, None) > 0
  {
  }
}
