/** The client that reconnects, as an object. Its fields are updated step by step, and every step is
    recorded as a move of Reconnect. */
module ReconnectObjects {
  import opened Reconnect
  import opened Wrappers

  datatype Answer = Taken | Refused | Waiting

  class VotingClient {
    var isReconnecting: bool
    var isDisposedState: bool
    var cancellationRequested: bool
    var reconnectAttempts: nat
    var connectionLock: nat
    var lockDisposed: bool
    ghost var counted: Shared       // holds the counts of Shared; its other fields are not used
    ghost var start: Shared         // where the loop began
    ghost var moves: seq<Move>      // what it has done since
    ghost var note: Note

    ghost function Contents(): Shared
      reads this
    {
      counted.(reconnecting := isReconnecting, disposed := isDisposedState, cancelled := cancellationRequested,
               attempts := reconnectAttempts, lockCount := connectionLock, lockDisposed := lockDisposed)
    }

    /** The loop has got to this place by moves that were allowed. */
    ghost predicate Reached(pc: PC)
      reads this
    {
      After(start, moves) == Some((Contents(), pc, note))
    }

    constructor ()
      ensures Contents() == NEW
    {
      isReconnecting, isDisposedState, cancellationRequested, reconnectAttempts := false, false, false, 0;
      connectionLock, lockDisposed, counted := 1, false, NEW;
    }

    /** Records a move whose effect on the fields has just been made. */
    ghost method Took(sh: Shared, pc: PC, move: Move)
      requires After(start, moves) == Some((sh, pc, note)) && Allowed(sh, pc, move)
      requires Act(sh, pc, note, move).0 == Contents()
      modifies this`moves, this`note
      ensures Reached(Act(sh, pc, old(note), move).1) && note == Act(sh, pc, old(note), move).2
    {
      AfterNext(start, moves, move);
      moves, note := moves + [move], Act(sh, pc, note, move).2;
    }

    /** Up to BeforeOperationsReload. */
    method Start() returns (ok: bool)
      modifies this
      ensures start == old(Contents())
      ensures ok <==> !old(isDisposedState) && !old(isReconnecting)
      ensures ok ==> Reached(Asking) && note == Note(0, Undecided)
      ensures ok ==> isReconnecting && !isDisposedState
      ensures !ok ==> Reached(Ended) && note == Note(0, Skipped)
      ensures cancellationRequested == old(cancellationRequested) && reconnectAttempts == old(reconnectAttempts)
      ensures connectionLock == old(connectionLock) && lockDisposed == old(lockDisposed)
    {
      start, moves, note := Contents(), [], Note(0, Undecided);
      Took(Contents(), Begun, Begin);
      if isDisposedState {
        return false;
      }
      ghost var sh := Contents();
      if isReconnecting {
        Took(sh, Guarding, Guard);
        return false;
      }
      isReconnecting := true;
      Took(sh, Guarding, Guard);
      sh := Contents();
      counted := counted.(befores := counted.befores + 1);
      Took(sh, Announcing, Announce(false));
      return true;
    }

    /** Asking for the lock: it is there, it throws, or the loop has to wait for it. */
    method Acquire() returns (answer: Answer)
      requires Reached(Asking) && note == Note(0, Undecided)
      modifies this
      ensures start == old(start) && reconnectAttempts == old(reconnectAttempts) && note.failures == 0
      ensures isDisposedState == old(isDisposedState) && isReconnecting == old(isReconnecting)
      ensures answer == if old(cancellationRequested || lockDisposed) then Refused
                        else if old(connectionLock) > 0 then Taken else Waiting
      ensures Reached(if answer.Taken? then Checking else if answer.Waiting? then Queued else Clearing)
      ensures note.outcome == (if answer.Refused? then Stopped else Undecided)
      ensures answer.Taken? ==> !cancellationRequested && !lockDisposed
    {
      ghost var sh := Contents();
      if cancellationRequested || lockDisposed {
        counted := counted.(dropped := counted.dropped + 1);
        Took(sh, Asking, Ask);
        return Refused;
      }
      if connectionLock == 0 {
        Took(sh, Asking, Ask);
        return Waiting;
      }
      connectionLock := connectionLock - 1;
      Took(sh, Asking, Ask);
      return Taken;
    }

    /** The try block of an attempt that connects, up to AfterOperationsReload. */
    method Connected()
      requires Reached(Trying)
      modifies this
      ensures start == old(start) && Reached(Reloading) && reconnectAttempts == 0
    {
      ghost var sh := Contents();
      reconnectAttempts := 0;
      Took(sh, Trying, Succeed);
    }

    method Reloaded()
      requires Reached(Reloading)
      modifies this
      ensures start == old(start) && Reached(Releasing) && note.outcome == Reconnected
      ensures reconnectAttempts == old(reconnectAttempts)
    {
      ghost var sh := Contents();
      counted := counted.(afters := counted.afters + 1);
      Took(sh, Reloading, Reload(false));
    }

    /** Disposes of the client if nobody has: the flag, then the body of Dispose_. */
    method Dispose()
      requires Reached(Disconnecting)
      modifies this
      ensures start == old(start) && Reached(Releasing) && note.outcome == GaveUp && isDisposedState
      ensures old(isDisposedState) ==> Contents() == old(Contents())
      ensures !old(isDisposedState) ==> lockDisposed && counted.teardowns == old(counted.teardowns) + 1
    {
      ghost var sh := Contents();
      if isDisposedState {
        Took(sh, Disconnecting, Close(false));
        return;
      }
      isDisposedState := true;
      Took(sh, Disconnecting, Close(false));
      TearDown();
    }

    method TearDown()
      requires Reached(TearingDown)
      modifies this
      ensures start == old(start) && Reached(Releasing) && note.outcome == GaveUp
      ensures isDisposedState == old(isDisposedState)
      ensures lockDisposed && counted.teardowns == old(counted.teardowns) + 1
    {
      ghost var sh := Contents();
      lockDisposed, counted := true, counted.(teardowns := counted.teardowns + 1);
      Took(sh, TearingDown, Reconnect.TearDown);
    }

    method Exhausted()
      requires Reached(GivingUp)
      modifies this
      ensures start == old(start) && Reached(Releasing) && note.outcome == GaveUp && isDisposedState
    {
      ghost var sh := Contents();
      counted := counted.(afters := counted.afters + 1);
      Took(sh, GivingUp, GiveUp(false));
      Dispose();
    }

    /** The catch block of an attempt, up to the test of the limit. */
    method Failed()
      requires Reached(Trying)
      modifies this
      ensures start == old(start) && cancellationRequested == old(cancellationRequested)
              && isDisposedState == old(isDisposedState)
      ensures reconnectAttempts == old(reconnectAttempts) + 1
      ensures Reached(if reconnectAttempts >= RECONNECT_LIMIT then GivingUp else Delaying)
    {
      ghost var sh := Contents();
      reconnectAttempts := reconnectAttempts + 1;
      Took(sh, Trying, Fail);
    }

    /** One round of the while loop: whether it leaves the loop. */
    method Attempt(connects: bool) returns (last: bool)
      requires Reached(Checking) && !isDisposedState && !cancellationRequested
      modifies this
      ensures start == old(start)
      ensures last <==> connects || old(reconnectAttempts) + 1 >= RECONNECT_LIMIT
      ensures connects ==> Reached(Releasing) && note.outcome == Reconnected && reconnectAttempts == 0
      ensures last && !connects ==> Reached(Releasing) && note.outcome == GaveUp && isDisposedState
      ensures !last ==> Reached(Checking) && !isDisposedState && !cancellationRequested
      ensures !last ==> reconnectAttempts == old(reconnectAttempts) + 1
    {
      Took(Contents(), Checking, Check);
      Took(Contents(), Confirming, Confirm);
      if connects {
        Connected();
        Reloaded();
        last := true;
      } else {
        Failed();
        last := reconnectAttempts >= RECONNECT_LIMIT;
        if last {
          Exhausted();
        } else {
          Took(Contents(), Delaying, Delay);
        }
      }
    }

    /** The while loop, entered with the lock; `connects` says which attempts succeed. */
    method Attempts(connects: seq<bool>)
      requires Reached(Checking) && |connects| >= RECONNECT_LIMIT && !isDisposedState && !cancellationRequested
      modifies this
      ensures start == old(start) && Reached(Releasing) && note.outcome in {Reconnected, GaveUp}
      ensures note.outcome == Reconnected ==> reconnectAttempts == 0
      ensures note.outcome == Reconnected <==> exists i :: 0 <= i < Left(old(reconnectAttempts)) && connects[i]
      ensures note.outcome == GaveUp ==> isDisposedState
    {
      ghost var attempts := reconnectAttempts;
      var i := 0;
      while !isDisposedState && !cancellationRequested
        invariant !isDisposedState && !cancellationRequested && start == old(start) && Reached(Checking)
        invariant reconnectAttempts == attempts + i && i < Left(attempts)
        invariant forall j :: 0 <= j < i ==> !connects[j]
        decreases RECONNECT_LIMIT - i
      {
        var last := Attempt(connects[i]);
        if last {
          return;
        }
        i := i + 1;
      }
    }

    /** The two finally blocks. */
    method Leave(locked: bool)
      requires Reached(if locked then Releasing else Clearing)
      modifies this
      ensures start == old(start) && Reached(Ended) && note == old(note) && !isReconnecting
      ensures reconnectAttempts == old(reconnectAttempts) && isDisposedState == old(isDisposedState)
    {
      ghost var sh := Contents();
      if locked {
        if !lockDisposed {
          connectionLock := connectionLock + 1;
        }
        Took(sh, Releasing, Release);
      }
      sh := Contents();
      isReconnecting := false;
      Took(sh, Clearing, Clear);
    }

    /** The loop with nothing else running and handlers that return: its moves are allowed ones, and
        which of its four ends it comes to depends on the state it finds and on the attempts. If another
        task has the lock, the loop gets as far as waiting for it. */
    method ReconnectLoopAsync(connects: seq<bool>) returns (waits: bool)
      requires |connects| >= RECONNECT_LIMIT
      modifies this
      ensures start == old(Contents())
      ensures waits <==> !old(isDisposedState || isReconnecting || cancellationRequested || lockDisposed)
                         && old(connectionLock) == 0
      ensures waits ==> Reached(Queued) && note == Note(0, Undecided) && isReconnecting
      ensures !waits ==> Reached(Ended) && note.outcome in {Skipped, Stopped, Reconnected, GaveUp}
      ensures note.outcome == Skipped <==> old(isDisposedState || isReconnecting)
      ensures note.outcome == Stopped <==>
                !old(isDisposedState || isReconnecting) && old(cancellationRequested || lockDisposed)
      ensures note.outcome == Reconnected ==> reconnectAttempts == 0 && !isReconnecting
      ensures note.outcome == Reconnected <==>
                !old(isDisposedState || isReconnecting || cancellationRequested || lockDisposed) && !waits
                && exists i :: 0 <= i < Left(old(reconnectAttempts)) && connects[i]
      ensures note.outcome == GaveUp ==> isDisposedState && !isReconnecting
    {
      var ok := Start();
      if !ok {
        return false;
      }
      var answer := Acquire();
      if answer.Waiting? {
        return true;
      }
      if answer.Taken? {
        Attempts(connects);
      }
      Leave(answer.Taken?);
      return false;
    }
  }
}
