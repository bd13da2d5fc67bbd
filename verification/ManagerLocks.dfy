/** The locks of the vote manager: its own, and the one of each user's settings, which a change of
    multiplier keeps while it waits for the manager's and a vote asks for while it has the manager's. */
module ManagerLocks {
  import opened Counting
  import opened Wrappers

  type UserId = int

  datatype PC =
    // a change of a user's multiplier
    | Setting(value: int)      // infoLock for writing
    | Owning                   // the field is written and the event raised: the snapshot
    | Claiming                 // managerLock for writing
    | Adjusting
    | Finishing                // managerLock is back, infoLock not yet
    // a vote or a cleanup, which reads the multiplier that many times
    | Arriving(times: nat)     // managerLock for writing
    | Reading(left: nat)       // infoLock for reading, as long as any reads are left
    // GetMetrics
    | Asking                   // managerLock for reading
    | Viewing
    // the deletion of a user
    | Deleting                 // managerLock, upgradeable, and never given back
    | Finished

  /** `users` says whose setting each thread writes or reads. `multiplier` is the field, and `applied` the
      multiplier that the user's votes are counted with. */
  datatype State = State(
    manager: Option<nat>,      // the thread inside managerLock for writing
    viewers: nat,              // the threads inside it for reading
    upgradeable: bool,         // some thread is inside it for good
    info: map<UserId, nat>,    // the thread inside a user's infoLock for writing
    multiplier: map<UserId, int>,
    applied: map<UserId, int>,
    users: seq<UserId>,
    pcs: seq<PC>)

  function Value(m: map<UserId, int>, u: UserId): int {
    if u in m then m[u] else 1
  }

  /** Nobody keeps a writer out. */
  predicate Free(s: State) {
    s.manager == None && s.viewers == 0 && !s.upgradeable
  }

  predicate Ready(s: State, t: nat) {
    && t < |s.pcs| == |s.users|
    && match s.pcs[t]
       case Setting(_) => s.users[t] !in s.info
       case Claiming => Free(s)
       case Arriving(_) => Free(s)
       case Reading(left) => left > 0 ==> s.users[t] !in s.info
       case Asking => s.manager == None
       case Deleting => s.manager == None && !s.upgradeable
       case Finished => false
       case _ => true
  }

  function After(pc: PC): PC {
    match pc
    case Setting(_) => Owning
    case Owning => Claiming
    case Claiming => Adjusting
    case Adjusting => Finishing
    case Arriving(times) => Reading(times)
    case Reading(left) => if left > 0 then Reading(left - 1) else Finished
    case Asking => Viewing
    case _ => Finished
  }

  function Next(s: State, t: nat): State
    requires Ready(s, t)
  {
    var u, pc := s.users[t], s.pcs[t];
    State(
      if pc.Claiming? || pc.Arriving? then Some(t) else if pc.Adjusting? || pc == Reading(0) then None else s.manager,
      if pc.Asking? then s.viewers + 1 else if pc.Viewing? && s.viewers > 0 then s.viewers - 1 else s.viewers,
      s.upgradeable || pc.Deleting?,
      if pc.Setting? then s.info[u := t] else if pc.Finishing? then s.info - {u} else s.info,
      if pc.Setting? then s.multiplier[u := pc.value] else s.multiplier,
      if pc.Adjusting? then s.applied[u := Value(s.multiplier, u)] else s.applied,
      s.users,
      s.pcs[t := After(pc)])
  }

  predicate Unstarted(pc: PC) {
    pc.Setting? || pc.Arriving? || pc.Asking? || pc.Deleting?
  }

  ghost predicate Initial(s: State) {
    && s.manager == None && s.viewers == 0 && !s.upgradeable && s.info == map[] && s.applied == s.multiplier
    && |s.users| == |s.pcs| && forall t :: 0 <= t < |s.pcs| ==> Unstarted(s.pcs[t])
  }

  ghost predicate IsRun(run: seq<State>, steps: seq<nat>) {
    && |run| == |steps| + 1 && Initial(run[0])
    && forall i :: 0 <= i < |steps| ==> Ready(run[i], steps[i]) && run[i + 1] == Next(run[i], steps[i])
  }

  // ----- the invariant -----

  predicate Writes(pc: PC) {
    pc.Adjusting? || pc.Reading?
  }

  predicate Owns(pc: PC) {
    pc.Owning? || pc.Claiming? || pc.Adjusting? || pc.Finishing?
  }

  /** managerLock is where it should be. */
  ghost predicate ManagerKept(s: State) {
    && (forall t :: 0 <= t < |s.pcs| ==> (Writes(s.pcs[t]) <==> s.manager == Some(t)))
    && (s.manager.Some? ==> s.manager.value < |s.pcs| && s.viewers == 0)
    && s.viewers == Count(s.pcs, {Viewing})
  }

  /** So is each infoLock. */
  ghost predicate InfoKept(s: State) {
    && |s.users| == |s.pcs|
    && (forall t :: 0 <= t < |s.pcs| ==> (Owns(s.pcs[t]) <==> s.users[t] in s.info && s.info[s.users[t]] == t))
    && (forall u :: u in s.info ==> s.info[u] < |s.pcs| && s.users[s.info[u]] == u)
  }

  /** A multiplier that has not been applied belongs to a change that has not been finished. */
  ghost predicate Settled(s: State) {
    && |s.users| == |s.pcs|
    && (forall u :: u !in s.info ==> Value(s.multiplier, u) == Value(s.applied, u))
    && (forall t :: 0 <= t < |s.pcs| && s.pcs[t].Finishing? ==>
          Value(s.multiplier, s.users[t]) == Value(s.applied, s.users[t]))
  }

  ghost predicate Inv(s: State) {
    ManagerKept(s) && InfoKept(s) && Settled(s)
  }

  lemma {:induction false} ManagerStep(s: State, t: nat)
    requires ManagerKept(s) && Ready(s, t)
    ensures ManagerKept(Next(s, t))
  {
    CountMove(s.pcs, t, Next(s, t).pcs[t], {Viewing});
    if s.pcs[t].Viewing? {
      CountPositive(s.pcs, t, {Viewing});
    }
  }

  lemma {:induction false} InfoStep(s: State, t: nat)
    requires InfoKept(s) && Ready(s, t)
    ensures InfoKept(Next(s, t))
  {
  }

  lemma {:induction false} SettledStep(s: State, t: nat)
    requires InfoKept(s) && Settled(s) && Ready(s, t)
    ensures Settled(Next(s, t))
  {
  }

  lemma InvStep(s: State, t: nat)
    requires Inv(s) && Ready(s, t)
    ensures Inv(Next(s, t))
  {
    ManagerStep(s, t);
    InfoStep(s, t);
    SettledStep(s, t);
  }

  lemma {:induction false} InvAlongRuns(run: seq<State>, steps: seq<nat>, n: nat)
    requires IsRun(run, steps) && n < |run|
    ensures Inv(run[n]) && |run[n].pcs| == |run[0].pcs| && run[n].users == run[0].users
  {
    if n == 0 {
      CountNone(run[0].pcs, {Viewing});
    } else {
      InvAlongRuns(run, steps, n - 1);
      InvStep(run[n - 1], steps[n - 1]);
    }
  }

  /** Whenever a vote or a cleanup reads a multiplier, it is the one that the user's votes are counted
      with: no change is between its write and its adjustment. */
  lemma ReadsWhatIsApplied(run: seq<State>, steps: seq<nat>, n: nat)
    requires IsRun(run, steps) && n < |steps|
    requires run[n].pcs[steps[n]].Reading? && run[n].pcs[steps[n]].left > 0
    ensures var u := run[n].users[steps[n]];
            Value(run[n].multiplier, u) == Value(run[n].applied, u)
  {
    InvAlongRuns(run, steps, n);
  }

  /** What was written last to a user's multiplier: by the thread that took its infoLock last. */
  ghost function Written(run: seq<State>, steps: seq<nat>, n: nat, u: UserId): int
    requires IsRun(run, steps) && n < |run| && u in run[0].multiplier
  {
    if n == 0 then run[0].multiplier[u]
    else
      var before, t := run[n - 1], steps[n - 1];
      assert Ready(before, t);
      if before.users[t] == u && before.pcs[t].Setting? then before.pcs[t].value else Written(run, steps, n - 1, u)
  }

  /** What had been written when the votes were last adjusted. */
  ghost function Adjusted(run: seq<State>, steps: seq<nat>, n: nat, u: UserId): int
    requires IsRun(run, steps) && n < |run| && u in run[0].multiplier
  {
    if n == 0 then run[0].multiplier[u]
    else
      var before, t := run[n - 1], steps[n - 1];
      assert Ready(before, t);
      if before.users[t] == u && before.pcs[t].Adjusting? then Written(run, steps, n - 1, u)
      else Adjusted(run, steps, n - 1, u)
  }

  lemma {:induction false} MultipliersAreSteps(run: seq<State>, steps: seq<nat>, n: nat, u: UserId)
    requires IsRun(run, steps) && n < |run| && u in run[0].multiplier
    ensures u in run[n].multiplier && run[n].multiplier[u] == Written(run, steps, n, u)
    ensures u in run[n].applied && run[n].applied[u] == Adjusted(run, steps, n, u)
  {
    if n > 0 {
      MultipliersAreSteps(run, steps, n - 1, u);
      assert Ready(run[n - 1], steps[n - 1]) && run[n] == Next(run[n - 1], steps[n - 1]);
    }
  }

  /** Read off the steps: whoever reads a multiplier inside the manager's lock reads what the votes were last adjusted
      to, and it is what was written last. */
  lemma {:induction false} ReadsTheLastAdjusted(run: seq<State>, steps: seq<nat>, n: nat)
    requires IsRun(run, steps) && n < |steps| && steps[n] < |run[n].pcs| == |run[n].users|
    requires run[n].pcs[steps[n]].Reading? && run[n].pcs[steps[n]].left > 0
    requires run[n].users[steps[n]] in run[0].multiplier
    ensures var u := run[n].users[steps[n]];
            Written(run, steps, n, u) == Adjusted(run, steps, n, u)
  {
    ReadsWhatIsApplied(run, steps, n);
    MultipliersAreSteps(run, steps, n, run[n].users[steps[n]]);
  }

  // ----- the deadlock -----

  /** A vote inside managerLock waits for the setting of a user whose change waits for managerLock. */
  ghost predicate Deadlocked(s: State, v: nat, w: nat) {
    && v < |s.pcs| && w < |s.pcs| && |s.users| == |s.pcs|
    && s.pcs[v].Reading? && s.pcs[v].left > 0 && s.pcs[w].Claiming? && s.users[v] == s.users[w]
  }

  ghost predicate Stuck(s: State) {
    forall t: nat :: !Ready(s, t)
  }

  ghost predicate AllFinished(s: State) {
    forall t :: 0 <= t < |s.pcs| ==> s.pcs[t] == Finished
  }

  /** Without a deletion and a deadlock somebody can step until all have finished. */
  lemma {:induction false} SomebodyMoves(s: State, t: nat) returns (r: nat)
    requires Inv(s) && !s.upgradeable && t < |s.pcs| && s.pcs[t] != Finished
    requires forall v, w :: !Deadlocked(s, v, w)
    ensures Ready(s, r)
  {
    if s.manager.Some? {
      r := s.manager.value;
      assert Writes(s.pcs[r]);
      if !Ready(s, r) {
        var w := Owner(s, s.users[r]);
        assert !Deadlocked(s, r, w);
        r := w;
      }
    } else if s.viewers > 0 {
      r := CountWitness(s.pcs, {Viewing});
    } else if s.pcs[t].Setting? && s.users[t] in s.info {
      r := Owner(s, s.users[t]);
    } else {
      r := t;
      assert !Writes(s.pcs[t]);
    }
  }

  /** The thread inside a user's lock, which can step unless it waits for the manager. */
  lemma Owner(s: State, u: UserId) returns (w: nat)
    requires Inv(s) && u in s.info
    ensures w < |s.pcs| == |s.users| && Owns(s.pcs[w]) && s.users[w] == u && (s.pcs[w].Claiming? || Ready(s, w))
  {
    w := s.info[u];
    assert w < |s.pcs| && s.users[w] == u;
    assert Owns(s.pcs[w]);
  }

  /** Without a deletion, when no thread can step either all are finished, or a vote and a change wait
      for each other. */
  lemma StuckMeansDeadlock(s: State)
    requires Inv(s) && Stuck(s) && !s.upgradeable
    ensures AllFinished(s) <==> forall v, w :: !Deadlocked(s, v, w)
  {
    if forall v, w :: !Deadlocked(s, v, w) {
      forall t | 0 <= t < |s.pcs| ensures s.pcs[t] == Finished {
        if s.pcs[t] != Finished {
          var r := SomebodyMoves(s, t);
          assert false;
        }
      }
    }
  }

  /** Waiting for the manager's lock. */
  predicate Waits(pc: PC) {
    pc.Claiming? || pc.Arriving? || pc.Asking? || pc.Deleting?
  }

  lemma {:induction false} DeadlockStep(s: State, t: nat, v: nat, w: nat, x: nat)
    requires Inv(s) && Deadlocked(s, v, w) && Ready(s, t)
    ensures Deadlocked(Next(s, t), v, w)
    ensures x < |s.pcs| && Waits(s.pcs[x]) ==> Next(s, t).pcs[x] == s.pcs[x]
  {
    assert Writes(s.pcs[v]) && Owns(s.pcs[w]);
  }

  /** A deadlock lasts, and whoever asks for managerLock waits for ever: no vote is counted any more and
      no metric can be read. */
  lemma {:induction false} DeadlockLasts(run: seq<State>, steps: seq<nat>, m: nat, n: nat, v: nat, w: nat, x: nat)
    requires IsRun(run, steps) && m <= n < |run| && Deadlocked(run[m], v, w)
    ensures Deadlocked(run[n], v, w)
    ensures x < |run[m].pcs| && Waits(run[m].pcs[x]) ==> x < |run[n].pcs| && run[n].pcs[x] == run[m].pcs[x]
  {
    if n > m {
      DeadlockLasts(run, steps, m, n - 1, v, w, x);
      OneMoreStep(run, steps, n - 1);
      DeadlockStep(run[n - 1], steps[n - 1], v, w, x);
    }
  }

  lemma OneMoreStep(run: seq<State>, steps: seq<nat>, i: nat)
    requires IsRun(run, steps) && i < |steps|
    ensures Inv(run[i]) && Ready(run[i], steps[i]) && run[i + 1] == Next(run[i], steps[i])
  {
    InvAlongRuns(run, steps, i);
  }

  // ----- termination -----

  function Rank(pc: PC): nat {
    match pc
    case Setting(_) => 5
    case Owning => 4
    case Claiming => 3
    case Adjusting => 2
    case Finishing => 1
    case Arriving(times) => times + 2
    case Reading(left) => left + 1
    case Asking => 2
    case Viewing => 1
    case Deleting => 1
    case Finished => 0
  }

  function Work(pcs: seq<PC>): nat {
    if pcs == [] then 0 else Work(pcs[..|pcs| - 1]) + Rank(pcs[|pcs| - 1])
  }

  lemma {:induction false} WorkMove(pcs: seq<PC>, t: nat, pc: PC)
    requires t < |pcs|
    ensures Work(pcs[t := pc]) == Work(pcs) - Rank(pcs[t]) + Rank(pc)
  {
    var n := |pcs| - 1;
    if t < n {
      WorkMove(pcs[..n], t, pc);
      assert pcs[t := pc][..n] == pcs[..n][t := pc];
    } else {
      assert pcs[t := pc][..n] == pcs[..n];
    }
  }

  lemma {:induction false} WorkStep(s: State, t: nat)
    requires Ready(s, t)
    ensures Work(Next(s, t).pcs) + 1 == Work(s.pcs)
  {
    WorkMove(s.pcs, t, Next(s, t).pcs[t]);
  }

  /** Every step takes one off the work, so that every schedule ends. */
  lemma {:induction false} SchedulesEnd(run: seq<State>, steps: seq<nat>, n: nat)
    requires IsRun(run, steps) && n < |run|
    ensures Work(run[n].pcs) + n == Work(run[0].pcs)
  {
    if n > 0 {
      SchedulesEnd(run, steps, n - 1);
      WorkStep(run[n - 1], steps[n - 1]);
    }
  }

  // ----- when it can happen -----

  /** A change of a user's multiplier and a vote or cleanup that reads the same user's. */
  ghost predicate Conflict(s: State, v: nat, w: nat) {
    && v < |s.pcs| && w < |s.pcs| && |s.users| == |s.pcs|
    && s.pcs[v].Arriving? && s.pcs[v].times > 0 && s.pcs[w].Setting? && s.users[v] == s.users[w]
  }

  /** The threads of a set of calls can come to a deadlock if and only if one of them changes the
      multiplier of a user that another one reads. */
  lemma DeadlockExact(s: State)
    requires Initial(s)
    ensures (exists v, w :: Conflict(s, v, w))
            <==> exists run, steps, v, w :: IsRun(run, steps) && run[0] == s && Deadlocked(run[|steps|], v, w)
  {
    if v, w :| Conflict(s, v, w) {
      var run, steps := Meet(s, v, w);
      assert IsRun(run, steps) && run[0] == s && Deadlocked(run[|steps|], v, w);
    }
    if run, steps, v, w :| IsRun(run, steps) && run[0] == s && Deadlocked(run[|steps|], v, w) {
      Began(run, steps, |steps|, v);
      Began(run, steps, |steps|, w);
      assert Conflict(s, v, w);
    }
  }

  lemma Meet(s: State, v: nat, w: nat) returns (run: seq<State>, steps: seq<nat>)
    requires Initial(s) && Conflict(s, v, w)
    ensures IsRun(run, steps) && run[0] == s && Deadlocked(run[|steps|], v, w)
  {
    var s1 := Next(s, w);
    var s2 := Next(s1, v);
    var s3 := Next(s2, w);
    run, steps := [s, s1, s2, s3], [w, v, w];
  }

  /** Where a thread began, from where it is. */
  predicate Since(before: PC, now: PC) {
    && (Owns(now) ==> before.Setting?)
    && (now.Setting? || now.Arriving? ==> before == now)
    && (now.Reading? ==> before.Arriving? && now.left <= before.times)
  }

  lemma {:induction false} SinceStep(s: State, t: nat, x: nat, before: PC)
    requires Ready(s, t) && x < |s.pcs| && Since(before, s.pcs[x])
    ensures Since(before, Next(s, t).pcs[x])
  {
  }

  lemma {:induction false} Began(run: seq<State>, steps: seq<nat>, n: nat, t: nat)
    requires IsRun(run, steps) && n < |run| && t < |run[n].pcs|
    ensures t < |run[0].pcs| == |run[0].users| && run[n].users == run[0].users
    ensures Since(run[0].pcs[t], run[n].pcs[t])
  {
    InvAlongRuns(run, steps, n);
    if n > 0 {
      InvAlongRuns(run, steps, n - 1);
      Began(run, steps, n - 1, t);
      SinceStep(run[n - 1], steps[n - 1], t, run[0].pcs[t]);
    }
  }

  // ----- deletion -----

  /** Once the handler of a deletion has taken the manager's lock, no vote, cleanup or change of
      multiplier ever gets in. */
  lemma {:induction false} DeletionStops(run: seq<State>, steps: seq<nat>, m: nat, n: nat, x: nat)
    requires IsRun(run, steps) && m <= n < |run| && run[m].upgradeable && x < |run[m].pcs|
    requires run[m].pcs[x].Arriving? || run[m].pcs[x].Claiming?
    ensures run[n].upgradeable && x < |run[n].pcs| && run[n].pcs[x] == run[m].pcs[x]
  {
    if n > m {
      DeletionStops(run, steps, m, n - 1, x);
      DeletionStep(run[n - 1], steps[n - 1], x);
    }
  }

  lemma {:induction false} DeletionStep(s: State, t: nat, x: nat)
    requires Ready(s, t) && s.upgradeable && x < |s.pcs| && (s.pcs[x].Arriving? || s.pcs[x].Claiming?)
    ensures Next(s, t).upgradeable && Next(s, t).pcs[x] == s.pcs[x]
  {
  }
}
