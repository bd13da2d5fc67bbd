/** The lock and its tokens as objects: each method runs a call until it returns or has to wait, and its
    effect is that of the call's steps in RwLock. `pcs` records where every call stands. */
module RwLockObjects {
  import opened RwLock

  /** A reader's steps from its wait for _readLock to the test of the counter. */
  lemma ReaderCounts(s: State, t: nat)
    requires Inv(s) && t < |s.pcs| && s.pcs[t] == ReaderWaits && s.readLock > 0
    ensures Inv(State(s.writeLock, s.readLock - 1, s.readerCount + 1,
                      s.pcs[t := if s.readerCount == 0 then FirstWaits else Entered]))
  {
    InvNextOutside(s, t);
    var s1 := Replaced(s, t);
    InvNextInside(s1, t);
    var s2 := Replaced(s1, t);
    assert s2.pcs == s.pcs[t := if s.readerCount == 0 then FirstWaits else Entered];
  }

  /** A reader's steps from its wait for _readLock to the outside. */
  lemma ReaderLeaves(s: State, t: nat)
    requires Inv(s) && t < |s.pcs| && s.pcs[t] == ExitWaits && s.readLock > 0
    ensures Inv(State(if s.readerCount == 1 then s.writeLock + 1 else s.writeLock,
                      s.readLock, s.readerCount - 1, s.pcs[t := Idle]))
  {
    InvNextOutside(s, t);
    var s1 := Replaced(s, t);
    InvNextInside(s1, t);
    var s2 := Replaced(s1, t);
    InvNextInside(s2, t);
    var s3 := Replaced(s2, t);
    if s.readerCount == 1 {
      InvNextInside(s3, t);
      var s4 := Replaced(s3, t);
      assert s4.pcs == s.pcs[t := Idle];
    } else {
      assert s3.pcs == s.pcs[t := Idle];
    }
  }

  /** A step touches nothing but its own thread's place. */
  lemma Replaced(s: State, t: nat) returns (s': State)
    requires Ready(s, t)
    ensures s' == Next(s, t) && |s'.pcs| == |s.pcs|
    ensures forall u :: 0 <= u < |s.pcs| && u != t ==> s'.pcs[u] == s.pcs[u]
  {
    s' := Next(s, t);
  }

  class CrossThreadReaderWriterLock {
    var writeLock: nat
    var readLock: nat
    var readerCount: int
    ghost var pcs: seq<PC>

    ghost function Contents(): State
      reads this
    {
      State(writeLock, readLock, readerCount, pcs)
    }

    constructor (ghost calls: nat)
      ensures Initial(Contents()) && Inv(Contents()) && |pcs| == calls
    {
      writeLock, readLock, readerCount := 1, 1, 0;
      pcs := seq(calls, _ => Idle);
      new;
      InvInitial(Contents());
    }

    /** Whether the writer got in; otherwise it waits, and nothing has changed. */
    method EnterWriteLock(ghost t: nat) returns (entered: bool)
      requires Inv(Contents()) && t < |pcs| && pcs[t] == WriterWaits
      modifies this
      ensures Inv(Contents()) && readLock == old(readLock) && readerCount == old(readerCount)
      ensures entered <==> old(writeLock) > 0
      ensures entered ==> pcs == old(pcs)[t := Writing] && writeLock == 0
      ensures !entered ==> pcs == old(pcs) && writeLock == old(writeLock)
    {
      if writeLock == 0 {
        return false;
      }
      InvNextOutside(Contents(), t);
      writeLock := writeLock - 1;
      pcs := pcs[t := Writing];
      return true;
    }

    method ExitWriteLock(ghost t: nat)
      requires Inv(Contents()) && t < |pcs| && pcs[t] == Writing
      modifies this
      ensures Inv(Contents()) && pcs == old(pcs)[t := Idle]
      ensures writeLock == old(writeLock) + 1 && readLock == old(readLock) && readerCount == old(readerCount)
    {
      InvNextOutside(Contents(), t);
      writeLock := writeLock + 1;
      pcs := pcs[t := Idle];
    }

    /** Whether the reader got in. Otherwise it waits: for _readLock, with nothing changed, or as the
        first reader for the writers, with _readLock in its hands. */
    method EnterReadLock(ghost t: nat) returns (entered: bool)
      requires Inv(Contents()) && t < |pcs| && pcs[t] == ReaderWaits
      modifies this
      ensures Inv(Contents())
      ensures entered <==> old(readLock) > 0 && (old(readerCount) > 0 || old(writeLock) > 0)
      ensures entered ==> pcs == old(pcs)[t := Reading] && readLock == old(readLock)
      ensures entered ==> writeLock == if old(readerCount) == 0 then old(writeLock) - 1 else old(writeLock)
      ensures old(readLock) == 0 ==> Contents() == old(Contents())
      ensures old(readLock) > 0 ==> readerCount == old(readerCount) + 1
      ensures !entered && old(readLock) > 0 ==> pcs == old(pcs)[t := FirstWaits] && readLock == 0 == writeLock
    {
      if readLock == 0 {
        return false;
      }
      ReaderCounts(Contents(), t);
      readLock := readLock - 1;
      readerCount := readerCount + 1;
      pcs := pcs[t := if readerCount == 1 then FirstWaits else Entered];
      entered := true;
      if readerCount == 1 {
        entered := AwaitWriters(t);
      } else {
        LetReadersIn(t);
      }
    }

    /** The first reader's wait, begun or resumed, and the rest of its entry. */
    method AwaitWriters(ghost t: nat) returns (entered: bool)
      requires Inv(Contents()) && t < |pcs| && pcs[t] == FirstWaits
      modifies this
      ensures Inv(Contents()) && readerCount == old(readerCount)
      ensures entered <==> old(writeLock) > 0
      ensures entered ==> pcs == old(pcs)[t := Reading]
      ensures entered ==> writeLock == old(writeLock) - 1 && readLock == old(readLock) + 1
      ensures !entered ==> Contents() == old(Contents())
    {
      if writeLock == 0 {
        return false;
      }
      InvNextInside(Contents(), t);
      writeLock := writeLock - 1;
      pcs := pcs[t := Entered];
      LetReadersIn(t);
      return true;
    }

    /** The finally block of EnterReadLock. */
    method LetReadersIn(ghost t: nat)
      requires Inv(Contents()) && t < |pcs| && pcs[t] == Entered
      modifies this
      ensures Inv(Contents()) && pcs == old(pcs)[t := Reading] && readLock == old(readLock) + 1
      ensures writeLock == old(writeLock) && readerCount == old(readerCount)
    {
      InvNextInside(Contents(), t);
      readLock := readLock + 1;
      pcs := pcs[t := Reading];
    }

    /** Whether the reader got out; otherwise it waits for _readLock, and nothing has changed. */
    method ExitReadLock(ghost t: nat) returns (left: bool)
      requires Inv(Contents()) && t < |pcs| && pcs[t] == ExitWaits
      modifies this
      ensures Inv(Contents()) && readLock == old(readLock)
      ensures left <==> old(readLock) > 0
      ensures left ==> pcs == old(pcs)[t := Idle] && readerCount == old(readerCount) - 1
      ensures left ==> writeLock == if old(readerCount) == 1 then old(writeLock) + 1 else old(writeLock)
      ensures !left ==> Contents() == old(Contents())
    {
      if readLock == 0 {
        return false;
      }
      ReaderLeaves(Contents(), t);
      readLock := readLock - 1;
      readerCount := readerCount - 1;
      if readerCount == 0 {
        writeLock := writeLock + 1;
      }
      readLock := readLock + 1;
      pcs := pcs[t := Idle];
      return true;
    }
  }

  datatype LockType = Read | Write

  /** Gives its lock back once, however often it is disposed of. */
  class CrossThreadLockToken {
    const target: CrossThreadReaderWriterLock
    const lockType: LockType
    ghost const call: nat
    var isDisposed: bool

    constructor (target: CrossThreadReaderWriterLock, lockType: LockType, ghost call: nat)
      ensures this.target == target && this.lockType == lockType && this.call == call && !isDisposed
    {
      this.target, this.lockType, this.call, isDisposed := target, lockType, call, false;
    }

    /** Whether the lock was given back. The first disposal of a read token may have to wait for
        _readLock like any other exit; the token counts as disposed of all the same. */
    method Dispose() returns (released: bool)
      requires !isDisposed ==> Inv(target.Contents()) && call < |target.pcs|
      requires !isDisposed ==> target.pcs[call] == if lockType.Read? then ExitWaits else Writing
      modifies this`isDisposed, target
      ensures isDisposed
      ensures released <==> !old(isDisposed) && (lockType.Read? ==> old(target.readLock) > 0)
      ensures !released ==> target.Contents() == old(target.Contents())
      ensures released ==> Inv(target.Contents()) && target.pcs == old(target.pcs)[call := Idle]
      ensures released ==> target.readerCount == old(target.readerCount) - if lockType.Read? then 1 else 0
    {
      if isDisposed {
        return false;
      }
      isDisposed := true;
      released := true;
      match lockType
      case Read => released := target.ExitReadLock(call);
      case Write => target.ExitWriteLock(call);
    }
  }
}
