/** The client's reconnection loop: any number of loop tasks, other holders of the connection lock, and
    disposers, in any interleaving. Network calls and event handlers may return or throw. */
module Reconnect {
  import opened Counting
  import opened Wrappers

  const RECONNECT_LIMIT := 3

  datatype PC =
    // a call of ReconnectLoopAsync
    | Begun            // if Disconnected
    | Guarding         // _isReconnecting
    | Announcing       // BeforeOperationsReload
    | Asking           // _connectionLock.WaitAsync
    | Queued           // waiting for the lock
    | Checking         // while (!Disconnected
    | Confirming       // && !IsCancellationRequested)
    | Trying           // disconnect, connect, handshake, authorize, register
    | Reloading        // AfterOperationsReload(true)
    | Delaying         // Task.Delay
    | GivingUp         // AfterOperationsReload(false)
    | Disconnecting    // OnDisconnect, then Dispose
    | TearingDown      // Dispose_ by the loop
    | Releasing        // _connectionLock.Release
    | Clearing         // _isReconnecting = 0
    | Ended
    | Stranded         // an exception of BeforeOperationsReload, which is raised outside the try block
    // another task that takes the connection lock
    | Outside
    | Inside
    // another caller of Dispose
    | Undisposed
    | Disposing
    | Disposed

  /** How a loop ended: not run, connected, out of attempts, told to stop, or broken off by a handler. */
  datatype Outcome = Undecided | Skipped | Reconnected | GaveUp | Stopped | Broken

  /** The fields of the client that all tasks share, and how often its events were raised. */
  datatype Shared = Shared(
    reconnecting: bool,      // _isReconnecting
    disposed: bool,          // _isDisposedState
    cancelled: bool,         // CancellationToken
    attempts: nat,           // _reconnectAttempts
    lockCount: nat,          // _connectionLock
    lockDisposed: bool,
    teardowns: nat,          // how often the body of Dispose_ has completed
    befores: nat,            // BeforeOperationsReload raised
    afters: nat,             // AfterOperationsReload raised
    dropped: nat,            // loops that ended after the first event without the second
    retried: nat)            // exceptions of AfterOperationsReload(true), each of which counts as a failure

  /** What is remembered of a loop: its failed attempts since it last connected, and how it ended. */
  datatype Note = Note(failures: nat, outcome: Outcome)

  datatype State = State(shared: Shared, pcs: seq<PC>, notes: seq<Note>)

  /** What one task may do next. */
  datatype Move =
    | Begin | Guard | Announce(throws: bool)
    | Ask | Obtain | CancelWait
    | Check | Confirm | Succeed | Fail | Reload(throws: bool)
    | Delay | CancelDelay
    | GiveUp(throws: bool) | Close(throws: bool) | TearDown
    | Release | Clear
    | Enter | Reset | Exit
    | Dispose

  datatype Step = Task(task: nat, move: Move) | Cancel

  /** Between setting _isReconnecting and clearing it. */
  const BODY := {Announcing, Asking, Queued, Checking, Confirming, Trying, Reloading, Delaying, GivingUp, Disconnecting,
                 TearingDown, Releasing, Clearing}
  const HOLDING := {Checking, Confirming, Trying, Reloading, Delaying, GivingUp, Disconnecting, TearingDown, Releasing,
                    Inside}
  const TEARING := {TearingDown, Disposing}
  /** After BeforeOperationsReload and before AfterOperationsReload. */
  const PENDING := {Asking, Queued, Checking, Confirming, Trying, Reloading, Delaying, GivingUp}

  predicate Allowed(sh: Shared, pc: PC, move: Move) {
    match move
    case Begin => pc == Begun
    case Guard => pc == Guarding
    case Announce(_) => pc == Announcing
    case Ask => pc == Asking
    case Obtain => pc == Queued && sh.lockCount > 0 && !sh.lockDisposed
    case CancelWait => pc == Queued && sh.cancelled
    case Check => pc == Checking
    case Confirm => pc == Confirming
    case Succeed => pc == Trying
    case Fail => pc == Trying
    case Reload(_) => pc == Reloading
    case Delay => pc == Delaying
    case CancelDelay => pc == Delaying && sh.cancelled
    case GiveUp(_) => pc == GivingUp
    case Close(_) => pc == Disconnecting
    case TearDown => pc == TearingDown || pc == Disposing
    case Release => pc == Releasing
    case Clear => pc == Clearing
    case Enter => pc == Outside && sh.lockCount > 0 && !sh.lockDisposed
    case Reset => pc == Inside
    case Exit => pc == Inside
    case Dispose => pc == Undisposed
  }

  /** Giving the lock back; a disposed semaphore throws instead. */
  function Unlocked(sh: Shared): Shared {
    if sh.lockDisposed then sh else sh.(lockCount := sh.lockCount + 1)
  }

  /** A loop that will not raise AfterOperationsReload. */
  function Dropped(sh: Shared): Shared {
    sh.(dropped := sh.dropped + 1)
  }

  function Ending(note: Note, outcome: Outcome): Note {
    note.(outcome := outcome)
  }

  /** The catch block of an attempt. */
  function Caught(sh: Shared, note: Note): (Shared, PC, Note) {
    (sh.(attempts := sh.attempts + 1), if sh.attempts + 1 >= RECONNECT_LIMIT then GivingUp else Delaying,
     note.(failures := note.failures + 1))
  }

  function Act(sh: Shared, pc: PC, note: Note, move: Move): (Shared, PC, Note)
    requires Allowed(sh, pc, move)
  {
    match move
    case Begin => if sh.disposed then (sh, Ended, Ending(note, Skipped)) else (sh, Guarding, note)
    case Guard =>
      if sh.reconnecting then (sh, Ended, Ending(note, Skipped)) else (sh.(reconnecting := true), Announcing, note)
    case Announce(throws) =>
      var raised := sh.(befores := sh.befores + 1);
      if throws then (Dropped(raised), Stranded, Ending(note, Broken)) else (raised, Asking, note)
    case Ask =>
      if sh.cancelled || sh.lockDisposed then (Dropped(sh), Clearing, Ending(note, Stopped))
      else if sh.lockCount > 0 then (sh.(lockCount := sh.lockCount - 1), Checking, note)
      else (sh, Queued, note)
    case Obtain => (sh.(lockCount := sh.lockCount - 1), Checking, note)
    case CancelWait => (Dropped(sh), Clearing, Ending(note, Stopped))
    case Check => if sh.disposed then (Dropped(sh), Releasing, Ending(note, Stopped)) else (sh, Confirming, note)
    case Confirm => if sh.cancelled then (Dropped(sh), Releasing, Ending(note, Stopped)) else (sh, Trying, note)
    case Succeed => (sh.(attempts := 0), Reloading, note.(failures := 0))
    case Fail => Caught(sh, note)
    case Reload(throws) =>
      var raised := sh.(afters := sh.afters + 1);
      if throws then Caught(raised.(retried := sh.retried + 1), note)
      else (raised, Releasing, Ending(note, Reconnected))
    case Delay => (sh, Checking, note)
    case CancelDelay => (Dropped(sh), Releasing, Ending(note, Stopped))
    case GiveUp(throws) =>
      var raised := sh.(afters := sh.afters + 1);
      if throws then (raised, Releasing, Ending(note, Broken)) else (raised, Disconnecting, note)
    case Close(throws) =>
      if throws then (sh, Releasing, Ending(note, Broken))
      else if sh.disposed then (sh, Releasing, Ending(note, GaveUp))
      else (sh.(disposed := true), TearingDown, note)
    case TearDown =>
      var torn := sh.(teardowns := sh.teardowns + 1, lockDisposed := true);
      if pc == TearingDown then (torn, Releasing, Ending(note, GaveUp)) else (torn, Disposed, note)
    case Release => (Unlocked(sh), Clearing, note)
    case Clear => (sh.(reconnecting := false), Ended, note)
    case Enter => (sh.(lockCount := sh.lockCount - 1), Inside, note)
    case Reset => (sh.(attempts := 0), Inside, note)
    case Exit => (Unlocked(sh), Outside, note)
    case Dispose => if sh.disposed then (sh, Disposed, note) else (sh.(disposed := true), Disposing, note)
  }

  predicate Enabled(s: State, step: Step) {
    |s.notes| == |s.pcs| && (step.Task? ==> step.task < |s.pcs| && Allowed(s.shared, s.pcs[step.task], step.move))
  }

  function Next(s: State, step: Step): State
    requires Enabled(s, step)
  {
    match step
    case Cancel => s.(shared := s.shared.(cancelled := true))
    case Task(t, move) =>
      var (sh, pc, note) := Act(s.shared, s.pcs[t], s.notes[t], move);
      State(sh, s.pcs[t := pc], s.notes[t := note])
  }

  const NEW := Shared(false, false, false, 0, 1, false, 0, 0, 0, 0, 0)

  ghost predicate Initial(s: State) {
    && s.shared == NEW && |s.notes| == |s.pcs|
    && forall t :: 0 <= t < |s.pcs| ==> s.pcs[t] in {Begun, Outside, Undisposed} && s.notes[t] == Note(0, Undecided)
  }

  ghost predicate IsRun(run: seq<State>, steps: seq<Step>) {
    && |run| == |steps| + 1 && Initial(run[0])
    && forall i :: 0 <= i < |steps| ==> Enabled(run[i], steps[i]) && run[i + 1] == Next(run[i], steps[i])
  }

  // ----- the shared fields -----

  function Bit(b: bool): nat {
    if b then 1 else 0
  }

  function In(pc: PC, at: set<PC>): nat {
    Bit(pc in at)
  }

  /** _isReconnecting is set exactly while a loop is in its body, or once one has been stranded. */
  ghost predicate FlagExact(s: State) {
    Count(s.pcs, BODY) + Count(s.pcs, {Stranded}) == Bit(s.shared.reconnecting)
  }

  /** One task at most holds the lock, whether or not it has been disposed of. */
  ghost predicate LockExact(s: State) {
    && s.shared.lockCount + Count(s.pcs, HOLDING) <= 1
    && (!s.shared.lockDisposed ==> s.shared.lockCount + Count(s.pcs, HOLDING) == 1)
  }

  ghost predicate TeardownExact(s: State) {
    && s.shared.teardowns + Count(s.pcs, TEARING) == Bit(s.shared.disposed)
    && (s.shared.lockDisposed <==> s.shared.teardowns > 0)
  }

  /** Every BeforeOperationsReload has its AfterOperationsReload, is still waiting for it, or was dropped. */
  ghost predicate EventsBalance(s: State) {
    s.shared.befores + s.shared.retried == s.shared.afters + Count(s.pcs, PENDING) + s.shared.dropped
  }

  ghost predicate Counts(s: State) {
    FlagExact(s) && LockExact(s) && TeardownExact(s) && EventsBalance(s)
  }

  lemma FlagMove(sh: Shared, pc: PC, note: Note, move: Move)
    requires Allowed(sh, pc, move) && (pc in BODY ==> sh.reconnecting)
    ensures var (sh', pc', _) := Act(sh, pc, note, move);
            In(pc', BODY) + In(pc', {Stranded}) - In(pc, BODY) - In(pc, {Stranded})
                == Bit(sh'.reconnecting) - Bit(sh.reconnecting)
  {
  }

  lemma LockMove(sh: Shared, pc: PC, note: Note, move: Move)
    requires Allowed(sh, pc, move)
    ensures var (sh', pc', _) := Act(sh, pc, note, move);
            && sh'.lockCount + In(pc', HOLDING) <= sh.lockCount + In(pc, HOLDING)
            && (!sh'.lockDisposed
               ==> !sh.lockDisposed && sh'.lockCount + In(pc', HOLDING) == sh.lockCount + In(pc, HOLDING))
  {
  }

  lemma TeardownMove(sh: Shared, pc: PC, note: Note, move: Move)
    requires Allowed(sh, pc, move) && (pc in TEARING ==> sh.disposed)
    ensures var (sh', pc', _) := Act(sh, pc, note, move);
            sh'.teardowns + In(pc', TEARING) - sh.teardowns - In(pc, TEARING) == Bit(sh'.disposed) - Bit(sh.disposed)
  {
  }

  lemma LockDisposedMove(sh: Shared, pc: PC, note: Note, move: Move)
    requires Allowed(sh, pc, move) && (sh.lockDisposed <==> sh.teardowns > 0)
    ensures var sh' := Act(sh, pc, note, move).0; sh'.lockDisposed <==> sh'.teardowns > 0
  {
  }

  lemma BalanceMove(sh: Shared, pc: PC, note: Note, move: Move)
    requires Allowed(sh, pc, move)
    ensures var (sh', pc', _) := Act(sh, pc, note, move);
            sh'.befores + sh'.retried - sh.befores - sh.retried
            == sh'.afters + In(pc', PENDING) + sh'.dropped - sh.afters - In(pc, PENDING) - sh.dropped
  {
  }

  lemma CountsStep(s: State, step: Step)
    requires Counts(s) && Enabled(s, step)
    ensures Counts(Next(s, step))
  {
    if step.Task? {
      var t, s' := step.task, Next(s, step);
      var pc, note, pc' := s.pcs[t], s.notes[t], s'.pcs[t];
      Present(s.pcs, t, BODY);
      Present(s.pcs, t, TEARING);
      FlagMove(s.shared, pc, note, step.move);
      LockMove(s.shared, pc, note, step.move);
      TeardownMove(s.shared, pc, note, step.move);
      LockDisposedMove(s.shared, pc, note, step.move);
      BalanceMove(s.shared, pc, note, step.move);
      CountMove(s.pcs, t, pc', BODY);
      CountMove(s.pcs, t, pc', {Stranded});
      CountMove(s.pcs, t, pc', HOLDING);
      CountMove(s.pcs, t, pc', TEARING);
      CountMove(s.pcs, t, pc', PENDING);
    }
  }

  lemma Present(pcs: seq<PC>, t: nat, at: set<PC>)
    requires t < |pcs|
    ensures pcs[t] in at ==> Count(pcs, at) > 0
  {
    if pcs[t] in at {
      CountPositive(pcs, t, at);
    }
  }

  lemma CountsInitial(s: State)
    requires Initial(s)
    ensures Counts(s)
  {
    CountNone(s.pcs, BODY);
    CountNone(s.pcs, {Stranded});
    CountNone(s.pcs, HOLDING);
    CountNone(s.pcs, TEARING);
    CountNone(s.pcs, PENDING);
  }

  lemma {:induction false} CountsAlongRuns(run: seq<State>, steps: seq<Step>, n: nat)
    requires IsRun(run, steps) && n < |run|
    ensures Counts(run[n])
  {
    if n == 0 {
      CountsInitial(run[0]);
    } else {
      CountsAlongRuns(run, steps, n - 1);
      CountsStep(run[n - 1], steps[n - 1]);
    }
  }

  // ----- each loop -----

  /** What is known of a task from where it is. */
  predicate Consistent(sh: Shared, pc: PC, note: Note) {
    match pc
    case Begun => note == Note(0, Undecided)
    case Guarding => note == Note(0, Undecided)
    case Announcing => note == Note(0, Undecided)
    case Asking => note == Note(0, Undecided)
    case Queued => note == Note(0, Undecided)
    case Checking => note.outcome == Undecided && Persists(sh, note)
    case Confirming => note.outcome == Undecided && Persists(sh, note)
    case Trying => note.outcome == Undecided && Persists(sh, note)
    case Reloading => note == Note(0, Undecided) && sh.attempts == 0
    case Delaying => note.outcome == Undecided && 0 < note.failures <= sh.attempts < RECONNECT_LIMIT
    case GivingUp => note.outcome == Undecided && Exhausted(sh, note)
    case Disconnecting => note.outcome == Undecided && Exhausted(sh, note)
    case TearingDown => note.outcome == Undecided && Exhausted(sh, note) && sh.disposed
    case Releasing => Justified(sh, note) && (note.outcome == Reconnected ==> sh.attempts == 0)
    case Clearing => Justified(sh, note)
    case Ended => note == Note(0, Skipped) || Justified(sh, note)
    case Stranded => note.outcome == Broken && note.failures == 0
    case _ => true
  }

  /** A loop that has failed before has not used up its attempts; one that has not, may have found
      them used up by a loop that a handler broke off. */
  predicate Persists(sh: Shared, note: Note) {
    note.failures <= sh.attempts && (note.failures > 0 ==> sh.attempts < RECONNECT_LIMIT)
  }

  predicate Exhausted(sh: Shared, note: Note) {
    0 < note.failures <= RECONNECT_LIMIT <= sh.attempts
  }

  /** Why a loop that ran has ended. */
  predicate Justified(sh: Shared, note: Note) {
    && note.failures <= RECONNECT_LIMIT
    && match note.outcome
       case Undecided => false
       case Skipped => false
       case Reconnected => note.failures == 0
       case GaveUp => note.failures > 0 && sh.disposed
       case Stopped => note.failures < RECONNECT_LIMIT && (sh.disposed || sh.cancelled)
       case Broken => true
  }

  ghost predicate Inv(s: State) {
    && Counts(s) && |s.notes| == |s.pcs|
    && forall t :: 0 <= t < |s.pcs| ==> Consistent(s.shared, s.pcs[t], s.notes[t])
  }

  lemma OwnMove(sh: Shared, pc: PC, note: Note, move: Move)
    requires Allowed(sh, pc, move) && Consistent(sh, pc, note) && (sh.lockDisposed ==> sh.disposed)
    ensures var (sh', pc', note') := Act(sh, pc, note, move); Consistent(sh', pc', note')
  {
    if pc in {Trying, Reloading, Delaying, GivingUp, Disconnecting, TearingDown} {
      OwnMoveTrying(sh, pc, note, move);
    } else {
      OwnMoveElsewhere(sh, pc, note, move);
    }
  }

  /** In an attempt and what follows it. */
  lemma OwnMoveTrying(sh: Shared, pc: PC, note: Note, move: Move)
    requires Allowed(sh, pc, move) && Consistent(sh, pc, note)
    requires pc in {Trying, Reloading, Delaying, GivingUp, Disconnecting, TearingDown}
    ensures var (sh', pc', note') := Act(sh, pc, note, move); Consistent(sh', pc', note')
  {
  }

  /** Before an attempt, after the last one, and in another task. */
  lemma OwnMoveElsewhere(sh: Shared, pc: PC, note: Note, move: Move)
    requires Allowed(sh, pc, move) && Consistent(sh, pc, note) && (sh.lockDisposed ==> sh.disposed)
    requires pc !in {Trying, Reloading, Delaying, GivingUp, Disconnecting, TearingDown}
    ensures var (sh', pc', note') := Act(sh, pc, note, move); Consistent(sh', pc', note')
  {
  }

  /** What one task's move can change for the others. */
  lemma OthersMove(sh: Shared, pc: PC, note: Note, move: Move)
    requires Allowed(sh, pc, move)
    ensures var sh' := Act(sh, pc, note, move).0;
            && (sh.disposed ==> sh'.disposed) && sh'.cancelled == sh.cancelled
            && (pc !in HOLDING ==> sh'.attempts == sh.attempts)
  {
  }

  lemma StaysConsistent(sh: Shared, sh': Shared, pc: PC, note: Note)
    requires Consistent(sh, pc, note)
    requires (sh.disposed ==> sh'.disposed) && (sh.cancelled ==> sh'.cancelled)
    requires pc in HOLDING ==> sh'.attempts == sh.attempts
    ensures Consistent(sh', pc, note)
  {
  }

  /** No two tasks hold the lock. */
  lemma OneHolder(s: State, t: nat, u: nat)
    requires Counts(s) && t < |s.pcs| && u < |s.pcs| && t != u && s.pcs[t] in HOLDING
    ensures s.pcs[u] !in HOLDING
  {
    if s.pcs[u] in HOLDING {
      CountTwo(s.pcs, if t < u then t else u, if t < u then u else t, HOLDING);
    }
  }

  lemma InvStep(s: State, step: Step)
    requires Inv(s) && Enabled(s, step)
    ensures Inv(Next(s, step))
  {
    var s' := Next(s, step);
    CountsStep(s, step);
    forall t | 0 <= t < |s'.pcs| ensures Consistent(s'.shared, s'.pcs[t], s'.notes[t]) {
      if step.Task? && step.task == t {
        OwnMove(s.shared, s.pcs[t], s.notes[t], step.move);
      } else {
        OthersStep(s, step, t);
        StaysConsistent(s.shared, s'.shared, s.pcs[t], s.notes[t]);
      }
    }
  }

  lemma OthersStep(s: State, step: Step, t: nat)
    requires Counts(s) && Enabled(s, step) && t < |s.pcs| && (step.Task? ==> step.task != t)
    ensures var s' := Next(s, step);
            && s'.pcs[t] == s.pcs[t] && s'.notes[t] == s.notes[t]
            && (s.shared.disposed ==> s'.shared.disposed) && (s.shared.cancelled ==> s'.shared.cancelled)
            && (s.pcs[t] in HOLDING ==> s'.shared.attempts == s.shared.attempts)
  {
    if step.Task? {
      var u := step.task;
      OthersMove(s.shared, s.pcs[u], s.notes[u], step.move);
      if s.pcs[t] in HOLDING {
        OneHolder(s, t, u);
      }
    }
  }

  lemma {:induction false} InvAlongRuns(run: seq<State>, steps: seq<Step>, n: nat)
    requires IsRun(run, steps) && n < |run|
    ensures Inv(run[n]) && |run[n].pcs| == |run[0].pcs|
  {
    if n == 0 {
      CountsInitial(run[0]);
    } else {
      InvAlongRuns(run, steps, n - 1);
      InvStep(run[n - 1], steps[n - 1]);
    }
  }

  /** At most one loop body runs at a time. */
  lemma OneBodyAtATime(run: seq<State>, steps: seq<Step>, n: nat, t: nat, u: nat)
    requires IsRun(run, steps) && n < |run| && t < |run[n].pcs| && u < |run[n].pcs| && t != u
    requires run[n].pcs[t] in BODY
    ensures run[n].pcs[u] !in BODY && run[n].shared.reconnecting
  {
    var pcs := run[n].pcs;
    CountsAlongRuns(run, steps, n);
    CountPositive(pcs, t, BODY);
    if pcs[u] in BODY {
      CountTwo(pcs, if t < u then t else u, if t < u then u else t, BODY);
    }
  }

  /** An attempt begins only while the client is not cancelled, and after a test, since which the loop has
      done nothing else, that found it not disposed of; a loop begins only while no other is under way. */
  lemma OnlyLiveClientsTry(run: seq<State>, steps: seq<Step>, n: nat, t: nat) returns (m: nat)
    requires IsRun(run, steps) && n < |steps| && t < |run[n].pcs|
    ensures t < |run[n + 1].pcs|
    ensures run[n + 1].pcs[t] == Trying && run[n].pcs[t] != Trying ==>
              !run[n].shared.cancelled && m < n && steps[m] == Task(t, Check) && !run[m].shared.disposed
              && forall i :: m < i <= n ==> t < |run[i].pcs| && run[i].pcs[t] == Confirming
    ensures run[n + 1].pcs[t] in BODY && run[n].pcs[t] !in BODY ==>
              forall u :: 0 <= u < |run[n].pcs| ==> run[n].pcs[u] !in BODY + {Stranded}
  {
    var s := run[n];
    CountsAlongRuns(run, steps, n);
    TriesOrEnters(s, steps[n], t);
    m := 0;
    if s.pcs[t] == Confirming {
      m := Checked(run, steps, n, t);
    }
    if !s.shared.reconnecting {
      forall u | 0 <= u < |s.pcs| ensures s.pcs[u] !in BODY + {Stranded} {
        Present(s.pcs, u, BODY);
        Present(s.pcs, u, {Stranded});
      }
    }
  }

  lemma TriesOrEnters(s: State, step: Step, t: nat)
    requires Enabled(s, step) && t < |s.pcs|
    ensures var pc, pc' := s.pcs[t], Next(s, step).pcs[t];
            && (pc' == Trying && pc != Trying ==> pc == Confirming && !s.shared.cancelled)
            && (pc' in BODY && pc !in BODY ==> !s.shared.reconnecting)
  {
  }

  /** Where a loop that is about to look at the token has looked at the other flag. */
  lemma {:induction false} Checked(run: seq<State>, steps: seq<Step>, n: nat, t: nat) returns (m: nat)
    requires IsRun(run, steps) && n < |run| && t < |run[n].pcs| && run[n].pcs[t] == Confirming
    ensures m < n && steps[m] == Task(t, Check) && !run[m].shared.disposed
    ensures forall i :: m < i <= n ==> t < |run[i].pcs| && run[i].pcs[t] == Confirming
  {
    assert n > 0;
    Confirms(run[n - 1], steps[n - 1], t);
    if run[n - 1].pcs[t] == Confirming {
      m := Checked(run, steps, n - 1, t);
    } else {
      m := n - 1;
    }
  }

  lemma Confirms(s: State, step: Step, t: nat)
    requires Enabled(s, step) && t < |Next(s, step).pcs| && Next(s, step).pcs[t] == Confirming
    ensures t < |s.pcs|
    ensures s.pcs[t] == Confirming || (step == Task(t, Check) && !s.shared.disposed)
  {
  }

  /** The two flags are not read together: a disposal between the two reads does not stop the attempt. */
  lemma DisposedMeanwhile() returns (run: seq<State>, steps: seq<Step>)
    ensures IsRun(run, steps)
    ensures var s := run[|steps|]; |s.pcs| == 2 && s.pcs[0] == Trying && s.shared.disposed && s.shared.lockDisposed
  {
    run, steps := LoopChecked();
    run, steps := Extended(run, steps, Task(1, Dispose));
    run, steps := Extended(run, steps, Task(1, TearDown));
    run, steps := Extended(run, steps, Task(0, Confirm));
  }

  lemma LoopChecked() returns (run: seq<State>, steps: seq<Step>)
    ensures IsRun(run, steps)
    ensures var s := run[|steps|];
            && s.pcs == [Confirming, Undisposed] && |s.notes| == 2 && !s.shared.disposed && !s.shared.cancelled
  {
    run, steps := LoopAsking();
    run, steps := Extended(run, steps, Task(0, Ask));
    run, steps := Extended(run, steps, Task(0, Check));
  }

  lemma LoopAsking() returns (run: seq<State>, steps: seq<Step>)
    ensures IsRun(run, steps)
    ensures var s := run[|steps|];
            && s.pcs == [Asking, Undisposed] && |s.notes| == 2
            && s.shared == NEW.(reconnecting := true, befores := 1)
  {
    var note := Note(0, Undecided);
    run, steps := [State(NEW, [Begun, Undisposed], [note, note])], [];
    run, steps := Extended(run, steps, Task(0, Begin));
    run, steps := Extended(run, steps, Task(0, Guard));
    run, steps := Extended(run, steps, Task(0, Announce(false)));
  }

  /** The body of Dispose_ runs at most once, and only after the flag has been set. */
  lemma TornDownOnce(run: seq<State>, steps: seq<Step>, n: nat)
    requires IsRun(run, steps) && n < |run|
    ensures run[n].shared.teardowns <= 1 && (run[n].shared.teardowns == 1 ==> run[n].shared.disposed)
    ensures run[n].shared.teardowns == 1 <==> run[n].shared.lockDisposed
  {
    CountsAlongRuns(run, steps, n);
  }

  const LOOP := {Begun, Guarding, Ended, Stranded} + BODY

  lemma {:induction false} LoopsStayLoops(run: seq<State>, steps: seq<Step>, n: nat, t: nat)
    requires IsRun(run, steps) && n < |run| && t < |run[0].pcs| && run[0].pcs[t] == Begun
    ensures t < |run[n].pcs| && run[n].pcs[t] in LOOP
  {
    if n > 0 {
      LoopsStayLoops(run, steps, n - 1, t);
    }
  }

  /** A loop never fails more than three times in a row, and what it reports is what happened. */
  lemma OutcomesJustified(run: seq<State>, steps: seq<Step>, n: nat, t: nat)
    requires IsRun(run, steps) && n < |run| && t < |run[0].pcs| && run[0].pcs[t] == Begun
    ensures t < |run[n].pcs| == |run[n].notes|
    ensures var sh, pc, note := run[n].shared, run[n].pcs[t], run[n].notes[t];
            && note.failures <= RECONNECT_LIMIT
            && (pc == Ended ==> note.outcome == Skipped || Justified(sh, note))
            && (pc == Releasing && note.outcome == Reconnected ==> sh.attempts == 0)
            && (note.failures == RECONNECT_LIMIT ==> pc !in {Checking, Confirming, Trying, Reloading, Delaying})
  {
    InvAlongRuns(run, steps, n);
    LoopsStayLoops(run, steps, n, t);
    assert Consistent(run[n].shared, run[n].pcs[t], run[n].notes[t]);
  }

  /** When no loop is under way every first event has had its second, or belongs to a loop that was
      stopped or broken off; an exception of the second one's handler makes the loop raise it again. */
  lemma EventsConserved(run: seq<State>, steps: seq<Step>, n: nat)
    requires IsRun(run, steps) && n < |run|
    requires forall t :: 0 <= t < |run[n].pcs| ==> run[n].pcs[t] !in BODY
    ensures run[n].shared.befores + run[n].shared.retried == run[n].shared.afters + run[n].shared.dropped
  {
    CountsAlongRuns(run, steps, n);
    CountNone(run[n].pcs, PENDING);
  }

  // ----- termination -----

  /** How many attempts are left: at least one, whatever the counter says. */
  function Left(attempts: nat): nat {
    if attempts >= RECONNECT_LIMIT then 1 else RECONNECT_LIMIT - attempts
  }

  /** An upper bound on the moves a loop has left. */
  function Rank(sh: Shared, pc: PC): nat {
    match pc
    case Begun => 21
    case Guarding => 20
    case Announcing => 19
    case Asking => 18
    case Queued => 17
    case Delaying => 4 * Left(sh.attempts) + 5
    case Checking => 4 * Left(sh.attempts) + 4
    case Confirming => 4 * Left(sh.attempts) + 3
    case Trying => 4 * Left(sh.attempts) + 2
    case GivingUp => 5
    case Disconnecting => 4
    case TearingDown => 3
    case Reloading => 3
    case Releasing => 2
    case Clearing => 1
    case _ => 0
  }

  /** Every move of a loop brings it closer to its end, unless AfterOperationsReload(true) throws. */
  lemma RankMove(sh: Shared, pc: PC, note: Note, move: Move)
    requires Allowed(sh, pc, move) && Consistent(sh, pc, note) && pc in LOOP
    ensures var (sh', pc', _) := Act(sh, pc, note, move);
            Rank(sh', pc') + 1 <= Rank(sh, pc) + if move == Reload(true) then 11 else 0
  {
  }

  /** The moves of a loop, and those of them that are an exception of AfterOperationsReload(true). */
  function MovesOf(steps: seq<Step>, t: nat): nat {
    if steps == [] then 0
    else MovesOf(steps[..|steps| - 1], t) + Bit(steps[|steps| - 1].Task? && steps[|steps| - 1].task == t)
  }

  function RetriesOf(steps: seq<Step>, t: nat): nat {
    if steps == [] then 0
    else RetriesOf(steps[..|steps| - 1], t) + Bit(steps[|steps| - 1] == Task(t, Reload(true)))
  }

  lemma RankStep(s: State, step: Step, t: nat)
    requires Inv(s) && Enabled(s, step) && t < |s.pcs| && s.pcs[t] in LOOP
    ensures var s' := Next(s, step);
            && t < |s'.pcs|
            && Rank(s'.shared, s'.pcs[t]) + Bit(step.Task? && step.task == t)
               <= Rank(s.shared, s.pcs[t]) + 11 * Bit(step == Task(t, Reload(true)))
  {
    if step.Task? && step.task == t {
      RankMove(s.shared, s.pcs[t], s.notes[t], step.move);
    } else {
      OthersStep(s, step, t);
    }
  }

  lemma OneMoreStep(steps: seq<Step>, n: nat, t: nat)
    requires 0 < n <= |steps|
    ensures MovesOf(steps[..n], t) == MovesOf(steps[..n - 1], t) + Bit(steps[n - 1].Task? && steps[n - 1].task == t)
    ensures RetriesOf(steps[..n], t) == RetriesOf(steps[..n - 1], t) + Bit(steps[n - 1] == Task(t, Reload(true)))
  {
    assert steps[..n][..n - 1] == steps[..n - 1];
  }

  /** Whatever the other tasks do, a loop makes at most 21 moves, and eleven more each time that the
      handler throws. */
  lemma {:induction false} LoopsEnd(run: seq<State>, steps: seq<Step>, n: nat, t: nat)
    requires IsRun(run, steps) && n < |run| && t < |run[0].pcs| && run[0].pcs[t] == Begun
    ensures t < |run[n].pcs|
    ensures MovesOf(steps[..n], t) + Rank(run[n].shared, run[n].pcs[t]) <= 21 + 11 * RetriesOf(steps[..n], t)
  {
    if n > 0 {
      LoopsEnd(run, steps, n - 1, t);
      LoopsStayLoops(run, steps, n - 1, t);
      InvAlongRuns(run, steps, n - 1);
      RankStep(run[n - 1], steps[n - 1], t);
      OneMoreStep(steps, n, t);
    }
  }

  /** A loop can move until it has ended, except while it waits for a lock it cannot get. */
  lemma LoopCanMove(sh: Shared, pc: PC)
    requires pc in LOOP
    ensures (exists move :: Allowed(sh, pc, move))
            <==> (pc != Ended && pc != Stranded
                  && (pc == Queued ==> sh.cancelled || (sh.lockCount > 0 && !sh.lockDisposed)))
  {
    var move :=
      match pc
      case Begun => Begin
      case Guarding => Guard
      case Announcing => Announce(false)
      case Asking => Ask
      case Queued => if sh.cancelled then CancelWait else Obtain
      case Checking => Check
      case Confirming => Confirm
      case Trying => Fail
      case Reloading => Reload(false)
      case Delaying => Delay
      case GivingUp => GiveUp(false)
      case Disconnecting => Close(false)
      case TearingDown => TearDown
      case Releasing => Release
      case _ => Clear;
    if pc != Ended && pc != Stranded && (pc == Queued ==> sh.cancelled || (sh.lockCount > 0 && !sh.lockDisposed)) {
      assert Allowed(sh, pc, move);
    }
  }

  /** While the lock exists, somebody can move whenever a loop waits for it. */
  lemma WaitersAreServed(s: State, t: nat) returns (u: nat, move: Move)
    requires Inv(s) && t < |s.pcs| && s.pcs[t] == Queued && !s.shared.lockDisposed
    ensures u < |s.pcs| && Allowed(s.shared, s.pcs[u], move)
  {
    if s.shared.lockCount > 0 {
      u, move := t, Obtain;
    } else {
      u := CountWitness(s.pcs, HOLDING);
      if s.pcs[u] == Inside {
        move := Exit;
      } else {
        LoopCanMove(s.shared, s.pcs[u]);
        move :| Allowed(s.shared, s.pcs[u], move);
      }
    }
  }

  // ----- waiting for a lock that is gone -----

  lemma WaitsOn(s: State, t: nat, step: Step)
    requires Inv(s) && t < |s.pcs| && s.pcs[t] == Queued && s.shared.lockDisposed && !s.shared.cancelled
    requires Enabled(s, step) && step != Cancel
    ensures var s' := Next(s, step);
            t < |s'.pcs| && s'.pcs[t] == Queued && s'.shared.lockDisposed && !s'.shared.cancelled
  {
    if step.task != t {
      OthersMove(s.shared, s.pcs[step.task], s.notes[step.task], step.move);
    }
  }

  /** A loop that waits for the lock when it is disposed of waits at every later point of every run
      without a cancellation, and the flag that it has set keeps every later loop out. */
  lemma {:induction false} WaitsForever(run: seq<State>, steps: seq<Step>, m: nat, n: nat, t: nat)
    requires IsRun(run, steps) && m <= n < |run| && t < |run[m].pcs|
    requires run[m].pcs[t] == Queued && run[m].shared.lockDisposed && !run[m].shared.cancelled
    requires forall i :: m <= i < n ==> steps[i] != Cancel
    ensures t < |run[n].pcs| && run[n].pcs[t] == Queued
    ensures run[n].shared.lockDisposed && !run[n].shared.cancelled && run[n].shared.reconnecting
  {
    if n > m {
      WaitsForever(run, steps, m, n - 1, t);
      WaitsOneMore(run, steps, n, t);
    }
    BodyFlagged(run, steps, n, t);
  }

  lemma WaitsOneMore(run: seq<State>, steps: seq<Step>, n: nat, t: nat)
    requires IsRun(run, steps) && 0 < n < |run| && t < |run[n - 1].pcs| && steps[n - 1] != Cancel
    requires run[n - 1].pcs[t] == Queued && run[n - 1].shared.lockDisposed && !run[n - 1].shared.cancelled
    ensures t < |run[n].pcs| && run[n].pcs[t] == Queued && run[n].shared.lockDisposed && !run[n].shared.cancelled
  {
    InvAlongRuns(run, steps, n - 1);
    WaitsOn(run[n - 1], t, steps[n - 1]);
  }

  lemma BodyFlagged(run: seq<State>, steps: seq<Step>, n: nat, t: nat)
    requires IsRun(run, steps) && n < |run| && t < |run[n].pcs| && run[n].pcs[t] in BODY
    ensures run[n].shared.reconnecting
  {
    CountsAlongRuns(run, steps, n);
    CountPositive(run[n].pcs, t, BODY);
  }

  /** That state is reached when the client is disposed of while it is connecting: here task 1 holds
      the lock for ConnectAsync and task 2 disposes. */
  lemma WaitingIsReached() returns (run: seq<State>, steps: seq<Step>)
    ensures IsRun(run, steps)
    ensures var s := run[|steps|]; |s.pcs| == 3 && s.pcs[0] == Queued && s.shared.lockDisposed && !s.shared.cancelled
  {
    run, steps := LoopQueued();
    run, steps := Extended(run, steps, Task(2, Dispose));
    run, steps := Extended(run, steps, Task(2, TearDown));
  }

  lemma LoopQueued() returns (run: seq<State>, steps: seq<Step>)
    ensures IsRun(run, steps)
    ensures var s := run[|steps|];
            && s.pcs == [Queued, Inside, Undisposed] && |s.notes| == 3
            && !s.shared.disposed && !s.shared.lockDisposed && !s.shared.cancelled
  {
    var note := Note(0, Undecided);
    run, steps := [State(NEW, [Begun, Outside, Undisposed], [note, note, note])], [];
    run, steps := Extended(run, steps, Task(1, Enter));
    run, steps := Extended(run, steps, Task(0, Begin));
    run, steps := Extended(run, steps, Task(0, Guard));
    run, steps := Extended(run, steps, Task(0, Announce(false)));
    run, steps := Extended(run, steps, Task(0, Ask));
  }

  lemma Extended(run: seq<State>, steps: seq<Step>, step: Step) returns (run': seq<State>, steps': seq<Step>)
    requires IsRun(run, steps) && Enabled(run[|steps|], step)
    ensures IsRun(run', steps') && |steps'| == |steps| + 1 && run'[|steps'|] == Next(run[|steps|], step)
  {
    run', steps' := run + [Next(run[|steps|], step)], steps + [step];
  }

  // ----- the loop itself -----

  /** Where a task gets to by a list of moves with no other task between them. */
  function After(sh: Shared, moves: seq<Move>): Option<(Shared, PC, Note)> {
    if moves == [] then Some((sh, Begun, Note(0, Undecided)))
    else
      match After(sh, moves[..|moves| - 1])
      case None => None
      case Some((sh1, pc, note)) =>
        if Allowed(sh1, pc, moves[|moves| - 1]) then Some(Act(sh1, pc, note, moves[|moves| - 1])) else None
  }

  lemma AfterNext(start: Shared, moves: seq<Move>, move: Move)
    ensures After(start, moves + [move])
            == match After(start, moves)
               case None => None
               case Some((sh, pc, note)) => if Allowed(sh, pc, move) then Some(Act(sh, pc, note, move)) else None
  {
    assert (moves + [move])[..|moves|] == moves;
  }

  // ----- where it does not end -----

  /** After a first failure, a connection whose handler throws brings the loop back to where it was. */
  lemma RetriesAgain(sh: Shared, note: Note)
    requires !sh.disposed && !sh.cancelled && sh.attempts == 1 && note == Note(1, Undecided)
    ensures var (sh0, pc0, note0) := Act(sh, Checking, note, Check);
            var (sh1, pc1, note1) := Act(sh0, pc0, note0, Confirm);
            var (sh2, pc2, note2) := Act(sh1, pc1, note1, Succeed);
            var (sh3, pc3, note3) := Act(sh2, pc2, note2, Reload(true));
            Act(sh3, pc3, note3, Delay) == (sh.(afters := sh.afters + 1, retried := sh.retried + 1), Checking, note)
  {
  }

  /** A server whose instructions make the handler throw is reconnected to any number of times. */
  lemma {:induction false} RetriesForever(k: nat) returns (moves: seq<Move>, sh: Shared)
    ensures After(NEW, moves) == Some((sh, Checking, Note(1, Undecided)))
    ensures sh.retried == k && sh.attempts == 1 && !sh.disposed && !sh.cancelled
  {
    var pc, note;
    if k == 0 {
      moves, sh := FirstFailure();
    } else {
      moves, sh := RetriesForever(k - 1);
      RetriesAgain(sh, Note(1, Undecided));
      moves, sh, pc, note := Extends(moves, sh, Checking, Note(1, Undecided), Check);
      moves, sh, pc, note := Extends(moves, sh, pc, note, Confirm);
      moves, sh, pc, note := Extends(moves, sh, pc, note, Succeed);
      moves, sh, pc, note := Extends(moves, sh, pc, note, Reload(true));
      moves, sh, pc, note := Extends(moves, sh, pc, note, Delay);
    }
  }

  lemma FirstFailure() returns (moves: seq<Move>, sh: Shared)
    ensures After(NEW, moves) == Some((sh, Checking, Note(1, Undecided)))
    ensures sh.retried == 0 && sh.attempts == 1 && !sh.disposed && !sh.cancelled
  {
    var pc, note := Begun, Note(0, Undecided);
    moves, sh := [], NEW;
    moves, sh, pc, note := Extends(moves, sh, pc, note, Begin);
    moves, sh, pc, note := Extends(moves, sh, pc, note, Guard);
    moves, sh, pc, note := Extends(moves, sh, pc, note, Announce(false));
    moves, sh, pc, note := Extends(moves, sh, pc, note, Ask);
    moves, sh, pc, note := Extends(moves, sh, pc, note, Check);
    moves, sh, pc, note := Extends(moves, sh, pc, note, Confirm);
    moves, sh, pc, note := Extends(moves, sh, pc, note, Fail);
    moves, sh, pc, note := Extends(moves, sh, pc, note, Delay);
  }

  lemma Extends(moves: seq<Move>, sh: Shared, pc: PC, note: Note, move: Move)
      returns (moves': seq<Move>, sh': Shared, pc': PC, note': Note)
    requires After(NEW, moves) == Some((sh, pc, note)) && Allowed(sh, pc, move)
    ensures moves' == moves + [move]
    ensures After(NEW, moves') == Some((sh', pc', note')) && (sh', pc', note') == Act(sh, pc, note, move)
  {
    AfterNext(NEW, moves, move);
    moves' := moves + [move];
    sh', pc', note' := Act(sh, pc, note, move).0, Act(sh, pc, note, move).1, Act(sh, pc, note, move).2;
  }

  // ----- how often it tries -----

  /** From the test of the loop on: an attempt with its result, and what the loop does next. */
  function Attempt(moves: seq<Move>, result: Move, after: Move): seq<Move> {
    moves + [Check] + [Confirm] + [result] + [after]
  }

  /** A new client's loop, alone, after so many failures. */
  function AfterFailures(failures: nat): Shared {
    NEW.(reconnecting := true, befores := 1, lockCount := 0, attempts := failures)
  }

  lemma {:induction false} Starts() returns (moves: seq<Move>)
    ensures moves == [Begin, Guard, Announce(false), Ask]
    ensures After(NEW, moves) == Some((AfterFailures(0), Checking, Note(0, Undecided)))
  {
    var sh, pc, note := NEW, Begun, Note(0, Undecided);
    moves := [];
    moves, sh, pc, note := Extends(moves, sh, pc, note, Begin);
    moves, sh, pc, note := Extends(moves, sh, pc, note, Guard);
    moves, sh, pc, note := Extends(moves, sh, pc, note, Announce(false));
    moves, sh, pc, note := Extends(moves, sh, pc, note, Ask);
  }

  lemma {:induction false} Tries(start: seq<Move>, k: nat)
    requires After(NEW, start) == Some((AfterFailures(k), Checking, Note(k, Undecided)))
    ensures After(NEW, start + [Check] + [Confirm]) == Some((AfterFailures(k), Trying, Note(k, Undecided)))
  {
    var moves, sh, pc, note := Extends(start, AfterFailures(k), Checking, Note(k, Undecided), Check);
    moves, sh, pc, note := Extends(moves, sh, pc, note, Confirm);
  }

  lemma {:induction false} FailsFirst(start: seq<Move>)
    requires After(NEW, start) == Some((AfterFailures(0), Checking, Note(0, Undecided)))
    ensures After(NEW, Attempt(start, Fail, Delay)) == Some((AfterFailures(1), Checking, Note(1, Undecided)))
  {
    Tries(start, 0);
    var moves, sh, pc, note := Extends(start + [Check] + [Confirm], AfterFailures(0), Trying, Note(0, Undecided), Fail);
    moves, sh, pc, note := Extends(moves, sh, pc, note, Delay);
  }

  lemma {:induction false} FailsAgain(start: seq<Move>)
    requires After(NEW, start) == Some((AfterFailures(1), Checking, Note(1, Undecided)))
    ensures After(NEW, Attempt(start, Fail, Delay)) == Some((AfterFailures(2), Checking, Note(2, Undecided)))
  {
    Tries(start, 1);
    var moves, sh, pc, note := Extends(start + [Check] + [Confirm], AfterFailures(1), Trying, Note(1, Undecided), Fail);
    moves, sh, pc, note := Extends(moves, sh, pc, note, Delay);
  }

  lemma {:induction false} FailsTwice() returns (moves: seq<Move>)
    ensures moves == Attempt(Attempt([Begin, Guard, Announce(false), Ask], Fail, Delay), Fail, Delay)
    ensures After(NEW, moves) == Some((AfterFailures(2), Checking, Note(2, Undecided)))
  {
    moves := Starts();
    FailsFirst(moves);
    moves := Attempt(moves, Fail, Delay);
    FailsAgain(moves);
    moves := Attempt(moves, Fail, Delay);
  }

  /** If the third attempt connects the loop ends so: nothing is counted any more, and lock and flag are
      free. */
  lemma {:induction false} ThirdAttemptConnects() returns (moves: seq<Move>)
    ensures var twice := Attempt(Attempt([Begin, Guard, Announce(false), Ask], Fail, Delay), Fail, Delay);
            moves == Attempt(twice, Succeed, Reload(false)) + [Release] + [Clear]
    ensures After(NEW, moves) == Some((NEW.(befores := 1, afters := 1), Ended, Note(0, Reconnected)))
  {
    moves := FailsTwice();
    Tries(moves, 2);
    moves := moves + [Check] + [Confirm];
    var sh, pc, note := AfterFailures(2), Trying, Note(2, Undecided);
    moves, sh, pc, note := Extends(moves, sh, pc, note, Succeed);
    moves, sh, pc, note := Extends(moves, sh, pc, note, Reload(false));
    moves, sh, pc, note := Extends(moves, sh, pc, note, Release);
    moves, sh, pc, note := Extends(moves, sh, pc, note, Clear);
  }

  lemma {:induction false} GivesUp(start: seq<Move>)
    requires After(NEW, start) == Some((AfterFailures(2), Checking, Note(2, Undecided)))
    ensures After(NEW, Attempt(start, Fail, GiveUp(false)))
            == Some((AfterFailures(3).(afters := 1), Disconnecting, Note(3, Undecided)))
  {
    Tries(start, 2);
    var moves, sh, pc, note := Extends(start + [Check] + [Confirm], AfterFailures(2), Trying, Note(2, Undecided), Fail);
    moves, sh, pc, note := Extends(moves, sh, pc, note, GiveUp(false));
  }

  /** If it fails the loop gives up: the client is disposed of, torn down once, and its lock is gone. */
  lemma {:induction false} ThirdAttemptFails() returns (moves: seq<Move>)
    ensures var twice := Attempt(Attempt([Begin, Guard, Announce(false), Ask], Fail, Delay), Fail, Delay);
            moves == Attempt(twice, Fail, GiveUp(false)) + [Close(false)] + [TearDown] + [Release] + [Clear]
    ensures After(NEW, moves)
            == Some((NEW.(befores := 1, afters := 1, attempts := 3, lockCount := 0, disposed := true,
                          lockDisposed := true, teardowns := 1), Ended, Note(3, GaveUp)))
  {
    moves := FailsTwice();
    GivesUp(moves);
    moves := Attempt(moves, Fail, GiveUp(false));
    var sh, pc, note := AfterFailures(3).(afters := 1), Disconnecting, Note(3, Undecided);
    moves, sh, pc, note := Extends(moves, sh, pc, note, Close(false));
    moves, sh, pc, note := Extends(moves, sh, pc, note, TearDown);
    moves, sh, pc, note := Extends(moves, sh, pc, note, Release);
    moves, sh, pc, note := Extends(moves, sh, pc, note, Clear);
  }

  /** A loop has three attempts, less those that are counted already, and always one. */
  lemma AttemptsLeft(attempts: nat)
    ensures Left(attempts) == if attempts == 0 then 3 else if attempts == 1 then 2 else 1
  {
  }

  /** No loop of any run ever fails more than three times in a row. */
  lemma AtMostThree(run: seq<State>, steps: seq<Step>, n: nat, t: nat)
    requires IsRun(run, steps) && n < |run| && t < |run[0].pcs| && run[0].pcs[t] == Begun
    ensures t < |run[n].notes| && run[n].notes[t].failures <= 3
  {
    OutcomesJustified(run, steps, n, t);
  }

  // ----- the fields, read off the steps -----

  /** The failures since the last success or the last connection by another task. */
  function FailuresSince(steps: seq<Step>): nat {
    if steps == [] then 0
    else
      match steps[|steps| - 1]
      case Task(_, Fail) => FailuresSince(steps[..|steps| - 1]) + 1
      case Task(_, Reload(true)) => FailuresSince(steps[..|steps| - 1]) + 1
      case Task(_, Succeed) => 0
      case Task(_, Reset) => 0
      case _ => FailuresSince(steps[..|steps| - 1])
  }

  /** How often the two events were raised. */
  function Raised(steps: seq<Step>): (nat, nat) {
    if steps == [] then (0, 0)
    else
      var before := Raised(steps[..|steps| - 1]);
      match steps[|steps| - 1]
      case Task(_, Announce(_)) => (before.0 + 1, before.1)
      case Task(_, Reload(_)) => (before.0, before.1 + 1)
      case Task(_, GiveUp(_)) => (before.0, before.1 + 1)
      case _ => before
  }

  predicate Cancelled(steps: seq<Step>) {
    steps != [] && (steps[|steps| - 1].Cancel? || Cancelled(steps[..|steps| - 1]))
  }

  /** Whether some task has disposed of the client, or a loop has given up undisturbed. */
  predicate DisposedOf(steps: seq<Step>) {
    steps != [] &&
    match steps[|steps| - 1]
    case Task(_, Dispose) => true
    case Task(_, Close(false)) => true
    case _ => DisposedOf(steps[..|steps| - 1])
  }

  predicate TornDown(steps: seq<Step>) {
    steps != [] &&
    match steps[|steps| - 1]
    case Task(_, TearDown) => true
    case _ => TornDown(steps[..|steps| - 1])
  }

  /** The counter of attempts has the failures since the last connection, by whoever made it, and each event has been
      raised when it was. */
  lemma {:induction false} CountsAreSteps(run: seq<State>, steps: seq<Step>, n: nat)
    requires IsRun(run, steps) && n < |run|
    ensures run[n].shared.attempts == FailuresSince(steps[..n])
    ensures (run[n].shared.befores, run[n].shared.afters) == Raised(steps[..n])
  {
    if n > 0 {
      CountsAreSteps(run, steps, n - 1);
      assert steps[..n][..n - 1] == steps[..n - 1];
      match steps[n - 1]
      case Cancel =>
      case Task(t, move) => CountsMove(run[n - 1].shared, run[n - 1].pcs[t], run[n - 1].notes[t], move);
    }
  }

  lemma CountsMove(sh: Shared, pc: PC, note: Note, move: Move)
    requires Allowed(sh, pc, move)
    ensures var sh' := Act(sh, pc, note, move).0;
            && sh'.attempts == (match move
                                case Fail => sh.attempts + 1
                                case Reload(throws) => if throws then sh.attempts + 1 else sh.attempts
                                case Succeed => 0
                                case Reset => 0
                                case _ => sh.attempts)
            && sh'.befores == sh.befores + (if move.Announce? then 1 else 0)
            && sh'.afters == sh.afters + (if move.Reload? || move.GiveUp? then 1 else 0)
  {
  }

  /** The client is cancelled, disposed of and without its lock exactly if a step has done so. */
  lemma {:induction false} FlagsAreSteps(run: seq<State>, steps: seq<Step>, n: nat)
    requires IsRun(run, steps) && n < |run|
    ensures run[n].shared.cancelled <==> Cancelled(steps[..n])
    ensures run[n].shared.disposed <==> DisposedOf(steps[..n])
    ensures run[n].shared.lockDisposed <==> TornDown(steps[..n])
  {
    if n > 0 {
      FlagsAreSteps(run, steps, n - 1);
      assert steps[..n][..n - 1] == steps[..n - 1];
      match steps[n - 1]
      case Cancel =>
      case Task(t, move) => FlagsMove(run[n - 1].shared, run[n - 1].pcs[t], run[n - 1].notes[t], move);
    }
  }

  lemma FlagsMove(sh: Shared, pc: PC, note: Note, move: Move)
    requires Allowed(sh, pc, move)
    ensures var sh' := Act(sh, pc, note, move).0;
            match move
            case Dispose => sh' == sh.(disposed := true)
            case Close(throws) => sh' == sh.(disposed := if throws then sh.disposed else true)
            case TearDown => sh' == sh.(lockDisposed := true, teardowns := sh'.teardowns)
            case _ =>
              sh'.cancelled == sh.cancelled && sh'.disposed == sh.disposed && sh'.lockDisposed == sh.lockDisposed
  {
  }
}
