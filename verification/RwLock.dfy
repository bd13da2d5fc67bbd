/** CrossThreadReaderWriterLock: two semaphores and a counter, as steps of any number of calls in any
    interleaving. A call is one enter with its matching exit, which another thread may perform. */
module RwLock {
  import opened Counting

  datatype PC =
    | Idle
    | WriterWaits      // EnterWriteLock: _writeLock.Wait
    | Writing
    | ReaderWaits      // EnterReadLock: _readLock.Wait
    | Counting         // _readerCount++ and the test
    | FirstWaits       // the first reader: _writeLock.Wait, holding _readLock
    | Entered          // the finally: _readLock.Release
    | Reading
    | ExitWaits        // ExitReadLock: _readLock.Wait
    | Discounting      // _readerCount-- and the test
    | LastReleases     // the last reader: _writeLock.Release
    | Exited           // the finally: _readLock.Release

  datatype State = State(writeLock: nat, readLock: nat, readerCount: int, pcs: seq<PC>)

  /** Inside the region that _readLock protects. */
  const READ_REGION := {Counting, FirstWaits, Entered, Discounting, LastReleases, Exited}
  /** Counted by _readerCount: readers inside, and those on their way in or out. */
  const COUNTED := {FirstWaits, Entered, Reading, ExitWaits, Discounting}
  /** Between entering and leaving the lock as a reader. */
  const READERS := {Entered, Reading, ExitWaits, Discounting}

  ghost predicate Initial(s: State) {
    && s.writeLock == 1 && s.readLock == 1 && s.readerCount == 0
    && forall t :: 0 <= t < |s.pcs| ==> s.pcs[t] == Idle
  }

  function At(s: State, t: nat, pc: PC): State
    requires t < |s.pcs|
  {
    s.(pcs := s.pcs[t := pc])
  }

  /** A new call begins. */
  ghost predicate Begin(s: State, t: nat, s': State) {
    t < |s.pcs| && s.pcs[t] == Idle && (s' == At(s, t, WriterWaits) || s' == At(s, t, ReaderWaits))
  }

  /** The next step of a call under way, if its semaphore lets it take one. */
  function Next(s: State, t: nat): State
    requires Ready(s, t)
  {
    match s.pcs[t]
    case WriterWaits => At(s, t, Writing).(writeLock := s.writeLock - 1)
    case Writing => At(s, t, Idle).(writeLock := s.writeLock + 1)
    case ReaderWaits => At(s, t, Counting).(readLock := s.readLock - 1)
    case Counting => At(s, t, if s.readerCount + 1 == 1 then FirstWaits else Entered).(readerCount := s.readerCount + 1)
    case FirstWaits => At(s, t, Entered).(writeLock := s.writeLock - 1)
    case Entered => At(s, t, Reading).(readLock := s.readLock + 1)
    case Reading => At(s, t, ExitWaits)
    case ExitWaits => At(s, t, Discounting).(readLock := s.readLock - 1)
    case Discounting =>
      At(s, t, if s.readerCount - 1 == 0 then LastReleases else Exited).(readerCount := s.readerCount - 1)
    case LastReleases => At(s, t, Exited).(writeLock := s.writeLock + 1)
    case Exited => At(s, t, Idle).(readLock := s.readLock + 1)
  }

  /** A wait needs a positive count; every other step is always possible. */
  predicate Ready(s: State, t: nat) {
    && t < |s.pcs| && s.pcs[t] != Idle
    && (s.pcs[t] in {WriterWaits, FirstWaits} ==> s.writeLock > 0)
    && (s.pcs[t] in {ReaderWaits, ExitWaits} ==> s.readLock > 0)
  }

  ghost predicate Step(s: State, s': State) {
    exists t: nat :: Begin(s, t, s') || (Ready(s, t) && s' == Next(s, t))
  }

  ghost predicate IsRun(run: seq<State>) {
    && run != [] && Initial(run[0])
    && forall i :: 0 <= i < |run| - 1 ==> Step(run[i], run[i + 1])
  }

  // ----- the invariant -----

  /** Whether the readers, as a group, hold _writeLock. */
  function Held(s: State): nat {
    if Count(s.pcs, {FirstWaits}) == 0 && (s.readerCount > 0 || Count(s.pcs, {LastReleases}) > 0) then 1 else 0
  }

  ghost predicate Inv(s: State) {
    && s.readLock + Count(s.pcs, READ_REGION) == 1
    && s.readerCount == Count(s.pcs, COUNTED)
    && s.writeLock + Count(s.pcs, {Writing}) + Held(s) == 1
    && (Count(s.pcs, {FirstWaits}) > 0 ==> s.readerCount == 1)
    && (Count(s.pcs, {LastReleases}) > 0 ==> s.readerCount == 0)
  }

  lemma InvInitial(s: State)
    requires Initial(s)
    ensures Inv(s)
  {
    CountNone(s.pcs, READ_REGION);
    CountNone(s.pcs, COUNTED);
    CountNone(s.pcs, {Writing});
    CountNone(s.pcs, {FirstWaits});
    CountNone(s.pcs, {LastReleases});
  }

  function In(pc: PC, at: set<PC>): nat {
    if pc in at then 1 else 0
  }

  /** How the five counts move with thread `t`. */
  lemma Moves(pcs: seq<PC>, t: nat, pc: PC)
    requires t < |pcs|
    ensures Count(pcs[t := pc], READ_REGION) == Count(pcs, READ_REGION) - In(pcs[t], READ_REGION) + In(pc, READ_REGION)
    ensures Count(pcs[t := pc], COUNTED) == Count(pcs, COUNTED) - In(pcs[t], COUNTED) + In(pc, COUNTED)
    ensures Count(pcs[t := pc], {Writing}) == Count(pcs, {Writing}) - In(pcs[t], {Writing}) + In(pc, {Writing})
    ensures Count(pcs[t := pc], {FirstWaits})
            == Count(pcs, {FirstWaits}) - In(pcs[t], {FirstWaits}) + In(pc, {FirstWaits})
    ensures Count(pcs[t := pc], {LastReleases})
            == Count(pcs, {LastReleases}) - In(pcs[t], {LastReleases}) + In(pc, {LastReleases})
  {
    CountMove(pcs, t, pc, READ_REGION);
    CountMove(pcs, t, pc, COUNTED);
    CountMove(pcs, t, pc, {Writing});
    CountMove(pcs, t, pc, {FirstWaits});
    CountMove(pcs, t, pc, {LastReleases});
  }

  /** While one thread is alone in the region, no other is about to wait or release there. */
  lemma Alone(s: State, t: nat)
    requires Inv(s) && t < |s.pcs| && s.pcs[t] in READ_REGION
    ensures Count(s.pcs, {FirstWaits}) == if s.pcs[t] == FirstWaits then 1 else 0
    ensures Count(s.pcs, {LastReleases}) == if s.pcs[t] == LastReleases then 1 else 0
  {
    var others := {Counting, Entered, Discounting, Exited};
    CountPositive(s.pcs, t, READ_REGION);
    CountDisjoint(s.pcs, {FirstWaits}, {LastReleases});
    CountDisjoint(s.pcs, {FirstWaits} + {LastReleases}, others);
    assert READ_REGION == {FirstWaits} + {LastReleases} + others;
    if s.pcs[t] == FirstWaits {
      CountPositive(s.pcs, t, {FirstWaits});
    } else if s.pcs[t] == LastReleases {
      CountPositive(s.pcs, t, {LastReleases});
    } else {
      CountPositive(s.pcs, t, others);
    }
  }

  lemma InvNextInside(s: State, t: nat)
    requires Inv(s) && Ready(s, t) && s.pcs[t] in READ_REGION
    ensures Inv(Next(s, t))
  {
    Moves(s.pcs, t, Next(s, t).pcs[t]);
    Alone(s, t);
    if s.pcs[t] in COUNTED {
      CountPositive(s.pcs, t, COUNTED);
    }
  }

  lemma InvNextOutside(s: State, t: nat)
    requires Inv(s) && Ready(s, t) && s.pcs[t] !in READ_REGION
    ensures Inv(Next(s, t))
  {
    Moves(s.pcs, t, Next(s, t).pcs[t]);
  }

  lemma InvBegin(s: State, t: nat, pc: PC)
    requires Inv(s) && t < |s.pcs| && s.pcs[t] == Idle && pc in {WriterWaits, ReaderWaits}
    ensures Inv(At(s, t, pc))
  {
    Moves(s.pcs, t, pc);
  }

  lemma InvStep(s: State, s': State)
    requires Inv(s) && Step(s, s')
    ensures Inv(s')
  {
    var t: nat :| Begin(s, t, s') || (Ready(s, t) && s' == Next(s, t));
    if Begin(s, t, s') {
      InvBegin(s, t, s'.pcs[t]);
    } else if s.pcs[t] in READ_REGION {
      InvNextInside(s, t);
    } else {
      InvNextOutside(s, t);
    }
  }

  lemma {:induction false} InvAlongRuns(run: seq<State>, n: nat)
    requires IsRun(run) && n < |run|
    ensures Inv(run[n])
  {
    if n == 0 {
      InvInitial(run[0]);
    } else {
      InvAlongRuns(run[..|run| - 1], n - 1);
      InvStep(run[n - 1], run[n]);
    }
  }

  // ----- safety -----

  /** At most one writer is inside, and no reader with it. */
  lemma MutualExclusion(run: seq<State>, n: nat, t: nat, u: nat)
    requires IsRun(run) && n < |run| && t < |run[n].pcs| && u < |run[n].pcs| && t != u
    requires run[n].pcs[t] == Writing
    ensures run[n].pcs[u] != Writing && run[n].pcs[u] !in READERS
  {
    var s := run[n];
    InvAlongRuns(run, n);
    CountPositive(s.pcs, t, {Writing});
    if s.pcs[u] == Writing {
      CountTwo(s.pcs, if t < u then t else u, if t < u then u else t, {Writing});
    } else if s.pcs[u] in READERS {
      ReaderHolds(s, u);
    }
  }

  /** With a reader inside, the readers as a group hold _writeLock. */
  lemma ReaderHolds(s: State, u: nat)
    requires Inv(s) && u < |s.pcs| && s.pcs[u] in READERS
    ensures Held(s) == 1
  {
    CountPositive(s.pcs, u, READERS);
    CountDisjoint(s.pcs, {FirstWaits}, READERS);
    assert COUNTED == {FirstWaits} + READERS;
  }

  /** The counter counts exactly the readers inside and those on their way in or out. */
  lemma ReaderCountExact(run: seq<State>, n: nat)
    requires IsRun(run) && n < |run|
    ensures run[n].readerCount == Count(run[n].pcs, COUNTED)
  {
    InvAlongRuns(run, n);
  }

  /** No semaphore ever exceeds one, because it is at zero whenever it is about to be released. */
  lemma SemaphoreBounds(run: seq<State>, n: nat)
    requires IsRun(run) && n < |run|
    ensures run[n].writeLock <= 1 && run[n].readLock <= 1
    ensures forall t :: 0 <= t < |run[n].pcs| ==>
              (run[n].pcs[t] in {Writing, LastReleases} ==> run[n].writeLock == 0)
              && (run[n].pcs[t] in {Entered, Exited} ==> run[n].readLock == 0)
  {
    var s := run[n];
    InvAlongRuns(run, n);
    forall t | 0 <= t < |s.pcs|
      ensures (s.pcs[t] in {Writing, LastReleases} ==> s.writeLock == 0)
              && (s.pcs[t] in {Entered, Exited} ==> s.readLock == 0)
    {
      if s.pcs[t] == Writing {
        CountPositive(s.pcs, t, {Writing});
      } else if s.pcs[t] in READ_REGION {
        CountPositive(s.pcs, t, READ_REGION);
        Alone(s, t);
      }
    }
  }

  // ----- progress -----

  /** The thread inside the region can step, unless it is the first reader and a writer is inside. */
  lemma RegionMoves(s: State) returns (t: nat)
    requires Inv(s) && s.readLock == 0
    ensures Ready(s, t)
  {
    t := CountWitness(s.pcs, READ_REGION);
    if s.pcs[t] == FirstWaits && s.writeLock == 0 {
      CountPositive(s.pcs, t, {FirstWaits});
      t := CountWitness(s.pcs, {Writing});
    }
  }

  /** Whenever a call is under way some thread can take a step. */
  lemma DeadlockFree(s: State, waiting: nat) returns (t: nat)
    requires Inv(s) && waiting < |s.pcs| && s.pcs[waiting] != Idle
    ensures Ready(s, t)
  {
    t := waiting;
    if Ready(s, t) {
    } else if s.readLock == 0 {
      t := RegionMoves(s);
    } else if Count(s.pcs, {Writing}) > 0 {
      t := CountWitness(s.pcs, {Writing});
    } else {
      RegionEmpty(s);
      t := CountWitness(s.pcs, COUNTED);
    }
  }

  lemma RegionEmpty(s: State)
    requires Inv(s) && s.readLock > 0
    ensures forall t :: 0 <= t < |s.pcs| ==> s.pcs[t] !in READ_REGION
    ensures Count(s.pcs, {FirstWaits}) == 0 && Count(s.pcs, {LastReleases}) == 0
  {
    forall t | 0 <= t < |s.pcs| ensures s.pcs[t] !in READ_REGION {
      if s.pcs[t] in READ_REGION {
        CountPositive(s.pcs, t, READ_REGION);
      }
    }
    CountNone(s.pcs, {FirstWaits});
    CountNone(s.pcs, {LastReleases});
  }

  /** How many more steps a call can take. */
  function Remaining(pc: PC): nat {
    match pc
    case Idle => 0
    case WriterWaits => 2
    case Writing => 1
    case ReaderWaits => 9
    case Counting => 8
    case FirstWaits => 7
    case Entered => 6
    case Reading => 5
    case ExitWaits => 4
    case Discounting => 3
    case LastReleases => 2
    case Exited => 1
  }

  function Work(pcs: seq<PC>): nat {
    if pcs == [] then 0 else Work(pcs[..|pcs| - 1]) + Remaining(pcs[|pcs| - 1])
  }

  lemma {:induction false} WorkMove(pcs: seq<PC>, t: nat, pc: PC)
    requires t < |pcs|
    ensures Work(pcs[t := pc]) == Work(pcs) - Remaining(pcs[t]) + Remaining(pc)
  {
    var n := |pcs| - 1;
    if t < n {
      WorkMove(pcs[..n], t, pc);
      assert pcs[t := pc][..n] == pcs[..n][t := pc];
    } else {
      assert pcs[t := pc][..n] == pcs[..n];
    }
  }

  ghost predicate Continues(s: State, s': State) {
    exists t: nat :: Ready(s, t) && s' == Next(s, t)
  }

  lemma ContinuesWorks(s: State, s': State)
    requires Continues(s, s')
    ensures Work(s'.pcs) < Work(s.pcs)
  {
    var t: nat :| Ready(s, t) && s' == Next(s, t);
    WorkMove(s.pcs, t, s'.pcs[t]);
  }

  /** Every schedule of the calls under way, with no new ones, is at most `Work` steps long. */
  lemma {:induction false} SchedulesEnd(schedule: seq<State>)
    requires schedule != []
    requires forall i :: 0 <= i < |schedule| - 1 ==> Continues(schedule[i], schedule[i + 1])
    ensures Work(schedule[|schedule| - 1].pcs) + |schedule| - 1 <= Work(schedule[0].pcs)
  {
    if |schedule| > 1 {
      var init := schedule[..|schedule| - 1];
      SchedulesEnd(init);
      ContinuesWorks(schedule[|schedule| - 2], schedule[|schedule| - 1]);
    }
  }

  ghost predicate Stuck(s: State) {
    forall t: nat :: !Ready(s, t)
  }

  /** When no call can step, every call has completed and the lock is as it was made. */
  lemma StuckMeansDone(s: State)
    requires Inv(s) && Stuck(s)
    ensures Initial(s)
  {
    forall t | 0 <= t < |s.pcs| ensures s.pcs[t] == Idle {
      if s.pcs[t] != Idle {
        var u := DeadlockFree(s, t);
      }
    }
    CountNone(s.pcs, READ_REGION);
    CountNone(s.pcs, COUNTED);
    CountNone(s.pcs, {Writing});
    CountNone(s.pcs, {LastReleases});
  }

  // ----- what a waiting writer waits for -----

  /** The places at which a call keeps _writeLock, as a writer or as one of the readers. */
  const KEEPING := {Writing, Entered, Reading, ExitWaits, Discounting, LastReleases}

  /** A waiting writer can go on exactly when no call keeps _writeLock. */
  lemma WriterExact(s: State, t: nat)
    requires Inv(s) && t < |s.pcs| && s.pcs[t] == WriterWaits
    ensures Ready(s, t) <==> Count(s.pcs, KEEPING) == 0
  {
    CountDisjoint(s.pcs, {FirstWaits}, READERS);
    assert COUNTED == {FirstWaits} + READERS;
    CountDisjoint(s.pcs, {Writing}, READERS);
    CountDisjoint(s.pcs, {Writing} + READERS, {LastReleases});
    assert KEEPING == {Writing} + READERS + {LastReleases};
  }

  /** Once no new calls begin every waiting writer gets in, before the lock comes to rest. */
  lemma {:induction false} WriterGetsIn(schedule: seq<State>, t: nat)
    requires schedule != [] && Inv(schedule[0])
    requires forall i :: 0 <= i < |schedule| - 1 ==> Continues(schedule[i], schedule[i + 1])
    requires Stuck(schedule[|schedule| - 1])
    requires t < |schedule[0].pcs| && schedule[0].pcs[t] == WriterWaits
    ensures exists i :: 0 <= i < |schedule| && t < |schedule[i].pcs| && schedule[i].pcs[t] == Writing
  {
    if |schedule| == 1 {
      var u := DeadlockFree(schedule[0], t);
      assert false;
    } else {
      ContinuesKeeps(schedule[0], schedule[1], t);
      if schedule[1].pcs[t] == WriterWaits {
        assert schedule[1..][|schedule| - 2] == schedule[|schedule| - 1];
        WriterGetsIn(schedule[1..], t);
        var i :| 0 <= i < |schedule[1..]| && t < |schedule[1..][i].pcs| && schedule[1..][i].pcs[t] == Writing;
        assert schedule[i + 1].pcs[t] == Writing;
      }
    }
  }

  lemma ContinuesKeeps(s: State, s': State, t: nat)
    requires Inv(s) && Continues(s, s') && t < |s.pcs| && s.pcs[t] == WriterWaits
    ensures Inv(s') && t < |s'.pcs| && s'.pcs[t] in {WriterWaits, Writing}
  {
    var u: nat :| Ready(s, u) && s' == Next(s, u);
    assert Step(s, s');
    InvStep(s, s');
  }

  /** A waiting writer, two readers, and the lock held by the readers. */
  function Overlap(readLock: nat, readers: int, first: PC, second: PC): State {
    State(0, readLock, readers, [WriterWaits, first, second])
  }

  /** The second reader enters, then the first one leaves. */
  function Handover(i: nat): State {
    match i
    case 0 => Overlap(1, 1, Reading, Idle)
    case 1 => Overlap(1, 1, Reading, ReaderWaits)
    case 2 => Overlap(0, 1, Reading, Counting)
    case 3 => Overlap(0, 2, Reading, Entered)
    case 4 => Overlap(1, 2, Reading, Reading)
    case 5 => Overlap(1, 2, ExitWaits, Reading)
    case 6 => Overlap(0, 2, Discounting, Reading)
    case 7 => Overlap(0, 1, Exited, Reading)
    case _ => Overlap(1, 1, Idle, Reading)
  }

  /** The same with the two readers' parts exchanged. */
  function Mirrored(i: nat): State {
    var s := Handover(i);
    Overlap(s.readLock, s.readerCount, s.pcs[2], s.pcs[1])
  }

  /** From one reader inside to another one inside: the writer cannot step at any point between. */
  lemma WritersCanWait(i: nat)
    requires i < 8
    ensures Step(Handover(i), Handover(i + 1)) && !Ready(Handover(i), 0)
  {
    var s, s', t := Handover(i), Handover(i + 1), if i < 4 then 2 else 1;
    if i == 0 {
      assert Begin(s, t, s');
    } else {
      assert Ready(s, t) && s' == Next(s, t);
    }
  }

  /** And back again. */
  lemma WritersCanWaitAgain(i: nat)
    requires i < 8
    ensures Step(Mirrored(i), Mirrored(i + 1)) && !Ready(Mirrored(i), 0)
  {
    var s, s', t := Mirrored(i), Mirrored(i + 1), if i < 4 then 1 else 2;
    if i == 0 {
      assert Begin(s, t, s');
    } else {
      assert Ready(s, t) && s' == Next(s, t);
    }
  }

  /** The first reader enters, then the writer comes; after that the readers take turns. */
  function Starving(i: nat): State {
    match i
    case 0 => State(1, 1, 0, [Idle, Idle, Idle])
    case 1 => State(1, 1, 0, [Idle, ReaderWaits, Idle])
    case 2 => State(1, 0, 0, [Idle, Counting, Idle])
    case 3 => State(1, 0, 1, [Idle, FirstWaits, Idle])
    case 4 => State(0, 0, 1, [Idle, Entered, Idle])
    case 5 => State(0, 1, 1, [Idle, Reading, Idle])
    case _ => if (i - 6) % 16 < 8 then Handover((i - 6) % 16) else Mirrored((i - 6) % 16 - 8)
  }

  lemma StarvingSteps(i: nat)
    ensures Step(Starving(i), Starving(i + 1))
  {
    if i < 6 {
      var s, s', t := Starving(i), Starving(i + 1), if i == 5 then 0 else 1;
      if i == 0 || i == 5 {
        assert Begin(s, t, s');
      } else {
        assert Ready(s, t) && s' == Next(s, t);
      }
    } else {
      var j := (i - 6) % 16;
      assert (i + 1 - 6) % 16 == if j == 15 then 0 else j + 1;
      if j < 8 {
        WritersCanWait(j);
      } else {
        WritersCanWaitAgain(j - 8);
      }
      assert Handover(8) == Mirrored(0) && Mirrored(8) == Handover(0);
    }
  }

  /** Readers that overlap keep a writer out for any length of time: there are runs of every length in
      which the writer waits from the seventh state on and can never step. */
  lemma Starves(n: nat) returns (run: seq<State>)
    ensures IsRun(run) && |run| == 7 + n
    ensures forall i :: 6 <= i < |run| ==> |run[i].pcs| == 3 && run[i].pcs[0] == WriterWaits && !Ready(run[i], 0)
  {
    run := seq(7 + n, i requires 0 <= i < 7 + n => Starving(i));
    forall i | 0 <= i < |run| - 1 ensures Step(run[i], run[i + 1]) {
      StarvingSteps(i);
    }
    forall i | 6 <= i < |run| ensures |run[i].pcs| == 3 && run[i].pcs[0] == WriterWaits && !Ready(run[i], 0) {
      var j := (i - 6) % 16;
      if j < 8 {
        WritersCanWait(j);
      } else {
        WritersCanWaitAgain(j - 8);
      }
    }
  }
}
