/** Any number of SendToClientAsync calls for one client, in any interleaving. Each waits for the
    client's write lock, writes its header and its payload in as many pieces as the network takes
    them, and releases the lock. */
module FrameSender {
  import opened BinaryFormat
  import opened Bytes
  import opened Framing

  datatype Phase = Waiting | Writing(sent: nat) | Done(written: bool)

  datatype State = State(
    wire: seq<byte>,       // everything written to the client's stream
    lock: nat,             // the count of the SemaphoreSlim
    phases: seq<Phase>,    // one per call
    acquired: seq<nat>)    // the calls in the order they obtained the lock

  datatype Step =
    | Acquire(call: nat)
    | Drop(call: nat)              // no longer connected once the lock is held: return without writing
    | Write(call: nat, n: nat)     // the next `n` bytes of header and payload
    | Release(call: nat)
    | Fail(call: nat)              // a write or the flush throws: the lock is released all the same

  ghost predicate Enabled(s: State, msgs: seq<Text>, step: Step) {
    && |s.phases| == |msgs| && step.call < |msgs|
    && match step
       case Acquire(t) => s.phases[t] == Waiting && s.lock > 0
       case Drop(t) => s.phases[t] == Writing(0)
       case Write(t, n) => s.phases[t].Writing? && 0 < n && s.phases[t].sent + n <= |Frame(msgs[t])|
       case Release(t) => s.phases[t] == Writing(|Frame(msgs[t])|)
       case Fail(t) => s.phases[t].Writing?
  }

  ghost function Next(s: State, msgs: seq<Text>, step: Step): State
    requires Enabled(s, msgs, step)
  {
    match step
    case Acquire(t) => s.(lock := s.lock - 1, phases := s.phases[t := Writing(0)], acquired := s.acquired + [t])
    case Drop(t) => s.(lock := s.lock + 1, phases := s.phases[t := Done(false)])
    case Write(t, n) =>
      var k := s.phases[t].sent;
      s.(wire := s.wire + Frame(msgs[t])[k..k + n], phases := s.phases[t := Writing(k + n)])
    case Release(t) => s.(lock := s.lock + 1, phases := s.phases[t := Done(true)])
    case Fail(t) => s.(lock := s.lock + 1, phases := s.phases[t := Done(s.phases[t].sent == |Frame(msgs[t])|)])
  }

  ghost predicate IsRun(run: seq<State>, msgs: seq<Text>, steps: seq<Step>) {
    && |run| == |steps| + 1
    && run[0] == State([], 1, seq(|msgs|, _ => Waiting), [])
    && forall i :: 0 <= i < |steps| ==> Enabled(run[i], msgs, steps[i]) && run[i + 1] == Next(run[i], msgs, steps[i])
  }

  // ----- the invariant -----

  /** The messages of the calls that wrote their frame and released, in lock order. */
  ghost function Finished(acquired: seq<nat>, phases: seq<Phase>, msgs: seq<Text>): seq<Text> {
    if acquired == [] then []
    else
      var t := acquired[|acquired| - 1];
      Finished(acquired[..|acquired| - 1], phases, msgs)
      + if t < |phases| && t < |msgs| && phases[t] == Done(true) then [msgs[t]] else []
  }

  /** The part of the frame that the lock's holder has written. */
  ghost function Partial(s: State, msgs: seq<Text>): seq<byte> {
    if s.acquired == [] then []
    else
      var t := s.acquired[|s.acquired| - 1];
      if t < |s.phases| && t < |msgs| && s.phases[t].Writing? && s.phases[t].sent <= |Frame(msgs[t])|
      then Frame(msgs[t])[..s.phases[t].sent] else []
  }

  /** The lock is free, or the last call that obtained it is the one call still writing. */
  ghost predicate Orderly(s: State, msgs: seq<Text>) {
    && |s.phases| == |msgs|
    && (forall i :: 0 <= i < |s.acquired| ==> s.acquired[i] < |msgs| && s.phases[s.acquired[i]] != Waiting)
    && (forall i, j :: 0 <= i < j < |s.acquired| ==> s.acquired[i] != s.acquired[j])
    && (forall t :: 0 <= t < |msgs| && s.phases[t].Writing? ==>
          s.lock == 0 && s.acquired != [] && s.acquired[|s.acquired| - 1] == t && s.phases[t].sent <= |Frame(msgs[t])|)
    && s.lock <= 1
    && (s.lock == 0 ==> s.acquired != [] && s.phases[s.acquired[|s.acquired| - 1]].Writing?)
  }

  ghost predicate Inv(s: State, msgs: seq<Text>) {
    && Orderly(s, msgs)
    && s.wire == EncodeAll(Finished(s.acquired, s.phases, msgs)) + Partial(s, msgs)
  }

  lemma {:induction false} FinishedIgnores(acquired: seq<nat>, phases: seq<Phase>, msgs: seq<Text>, t: nat,
      phase: Phase)
    requires t < |phases| && t !in acquired
    ensures Finished(acquired, phases[t := phase], msgs) == Finished(acquired, phases, msgs)
  {
    if acquired != [] {
      FinishedIgnores(acquired[..|acquired| - 1], phases, msgs, t, phase);
    }
  }

  lemma {:induction false} EncodeAllAppend(ms: seq<Text>, m: Text)
    ensures EncodeAll(ms + [m]) == EncodeAll(ms) + Frame(m)
  {
    if ms == [] {
      assert [m][1..] == [];
    } else {
      EncodeAllAppend(ms[1..], m);
      assert (ms + [m])[1..] == ms[1..] + [m];
    }
  }

  lemma OrderlyNext(s: State, msgs: seq<Text>, step: Step)
    requires Orderly(s, msgs) && Enabled(s, msgs, step)
    ensures Orderly(Next(s, msgs, step), msgs)
  {
  }

  lemma InvAcquire(s: State, msgs: seq<Text>, t: nat)
    requires Inv(s, msgs) && Enabled(s, msgs, Acquire(t))
    ensures Inv(Next(s, msgs, Acquire(t)), msgs)
  {
    OrderlyNext(s, msgs, Acquire(t));
    var s' := Next(s, msgs, Acquire(t));
    assert s'.acquired[..|s'.acquired| - 1] == s.acquired;
    FinishedIgnores(s.acquired, s.phases, msgs, t, Writing(0));
    assert Partial(s, msgs) == [] && Partial(s', msgs) == [];
    assert Finished(s'.acquired, s'.phases, msgs) == Finished(s.acquired, s.phases, msgs);
  }

  /** What the holder's own steps leave alone: the frames finished before it. */
  lemma HolderIsLast(s: State, msgs: seq<Text>, step: Step) returns (done: seq<Text>)
    requires Inv(s, msgs) && Enabled(s, msgs, step) && !step.Acquire?
    ensures s.phases[step.call].Writing? && s.acquired != [] && s.acquired[|s.acquired| - 1] == step.call
    ensures s.wire == EncodeAll(done) + Frame(msgs[step.call])[..s.phases[step.call].sent]
    ensures var s' := Next(s, msgs, step);
            && s'.acquired == s.acquired
            && Finished(s'.acquired, s'.phases, msgs)
               == done + if s'.phases[step.call] == Done(true) then [msgs[step.call]] else []
  {
    var t, s', init := step.call, Next(s, msgs, step), s.acquired[..|s.acquired| - 1];
    assert t !in init;
    done := Finished(init, s.phases, msgs);
    assert Finished(s.acquired, s.phases, msgs) == done;
    FinishedIgnores(init, s.phases, msgs, t, s'.phases[t]);
  }

  lemma InvDrop(s: State, msgs: seq<Text>, t: nat)
    requires Inv(s, msgs) && Enabled(s, msgs, Drop(t))
    ensures Inv(Next(s, msgs, Drop(t)), msgs)
  {
    OrderlyNext(s, msgs, Drop(t));
    var done := HolderIsLast(s, msgs, Drop(t));
    var s' := Next(s, msgs, Drop(t));
    assert Finished(s'.acquired, s'.phases, msgs) == done && Partial(s', msgs) == [];
    assert s.wire == EncodeAll(done);
  }

  lemma InvWrite(s: State, msgs: seq<Text>, t: nat, n: nat)
    requires Inv(s, msgs) && Enabled(s, msgs, Write(t, n))
    ensures Inv(Next(s, msgs, Write(t, n)), msgs)
  {
    OrderlyNext(s, msgs, Write(t, n));
    var done := HolderIsLast(s, msgs, Write(t, n));
    var k, frame := s.phases[t].sent, Frame(msgs[t]);
    assert frame[..k + n] == frame[..k] + frame[k..k + n];
    var s' := Next(s, msgs, Write(t, n));
    assert Finished(s'.acquired, s'.phases, msgs) == done && Partial(s', msgs) == frame[..k + n];
    Regroup(EncodeAll(done), frame[..k], frame[k..k + n], frame[..k + n]);
  }

  lemma InvRelease(s: State, msgs: seq<Text>, t: nat)
    requires Inv(s, msgs) && Enabled(s, msgs, Release(t))
    ensures Inv(Next(s, msgs, Release(t)), msgs)
  {
    OrderlyNext(s, msgs, Release(t));
    var done := HolderIsLast(s, msgs, Release(t));
    var frame := Frame(msgs[t]);
    assert frame[..|frame|] == frame;
    EncodeAllAppend(done, msgs[t]);
    var s' := Next(s, msgs, Release(t));
    assert Partial(s', msgs) == [];
  }

  /** A write that throws leaves the stream whole exactly if it throws before the first byte of the frame
      or after the last one. */
  predicate Tears(s: State, msgs: seq<Text>, step: Step) {
    && step.Fail? && step.call < |s.phases| && step.call < |msgs| && s.phases[step.call].Writing?
    && 0 < s.phases[step.call].sent < |Frame(msgs[step.call])|
  }

  lemma FailExact(s: State, msgs: seq<Text>, t: nat)
    requires Inv(s, msgs) && Enabled(s, msgs, Fail(t))
    ensures Inv(Next(s, msgs, Fail(t)), msgs) <==> !Tears(s, msgs, Fail(t))
  {
    OrderlyNext(s, msgs, Fail(t));
    var done := HolderIsLast(s, msgs, Fail(t));
    var s', frame, k := Next(s, msgs, Fail(t)), Frame(msgs[t]), s.phases[t].sent;
    assert Partial(s', msgs) == [];
    if k == |frame| {
      assert frame[..k] == frame;
      EncodeAllAppend(done, msgs[t]);
    } else {
      assert Finished(s'.acquired, s'.phases, msgs) == done;
      assert |s'.wire| == |EncodeAll(done)| + k;
    }
  }

  /** In every interleaving without a torn frame the stream is whole frames in lock order, then part of
      one frame, and that one belongs to the call that holds the lock. */
  lemma {:induction false} WholeFrames(run: seq<State>, msgs: seq<Text>, steps: seq<Step>, n: nat)
    requires IsRun(run, msgs, steps) && n < |run|
    requires forall i :: 0 <= i < n ==> !Tears(run[i], msgs, steps[i])
    ensures Inv(run[n], msgs)
  {
    if n > 0 {
      WholeFrames(run, msgs, steps, n - 1);
      match steps[n - 1] {
        case Acquire(t) => InvAcquire(run[n - 1], msgs, t);
        case Drop(t) => InvDrop(run[n - 1], msgs, t);
        case Write(t, k) => InvWrite(run[n - 1], msgs, t, k);
        case Release(t) => InvRelease(run[n - 1], msgs, t);
        case Fail(t) => FailExact(run[n - 1], msgs, t);
      }
    }
  }

  // ----- what the client decodes -----

  lemma {:induction false} DecodeThenTail(ms: seq<Text>, tail: seq<byte>)
    ensures Decode(Client, EncodeAll(ms) + tail).messages == NonEmpty(ms) + Decode(Client, tail).messages
  {
    if ms == [] {
      assert EncodeAll(ms) + tail == tail;
    } else {
      var rest := EncodeAll(ms[1..]) + tail;
      DecodeThenTail(ms[1..], tail);
      Join(Frame(ms[0]), EncodeAll(ms[1..]), tail);
      ClientDecodesOne(ms[0], rest);
      Join(if ms[0] == [] then [] else [ms[0]], NonEmpty(ms[1..]), Decode(Client, tail).messages);
    }
  }

  lemma DecodePartial(m: Text, k: nat)
    requires k <= |Frame(m)|
    ensures Decode(Client, Frame(m)[..k]).messages == if k == |Frame(m)| && m != [] then [m] else []
  {
    if k == |Frame(m)| {
      assert Frame(m)[..k] == Frame(m) + [];
      if m == [] {
        LengthOfFrame(m, []);
      } else {
        DecodeFrame(Client, m, []);
      }
    } else if m != [] {
      assert Frame(m)[..k] == (Frame(m) + [])[..k];
      CutFrame(Client, m, [], k);
    }
  }

  /** The message of the holder, once its frame is complete. */
  ghost function InFlight(s: State, msgs: seq<Text>): seq<Text> {
    if s.acquired == [] then []
    else
      var t := s.acquired[|s.acquired| - 1];
      if t < |s.phases| && t < |msgs| && s.phases[t] == Writing(|Frame(msgs[t])|) then [msgs[t]] else []
  }

  lemma PartialDecodes(s: State, msgs: seq<Text>)
    requires Inv(s, msgs)
    ensures Decode(Client, Partial(s, msgs)).messages == NonEmpty(InFlight(s, msgs))
  {
    if s.acquired != [] {
      var t := s.acquired[|s.acquired| - 1];
      if s.phases[t].Writing? {
        DecodePartial(msgs[t], s.phases[t].sent);
      }
    }
  }

  /** At every point the client decodes exactly the non-empty messages whose frames are complete, in
      the order in which their calls obtained the lock. */
  lemma DecodedInLockOrder(run: seq<State>, msgs: seq<Text>, steps: seq<Step>, n: nat)
    requires IsRun(run, msgs, steps) && n < |run|
    requires forall i :: 0 <= i < n ==> !Tears(run[i], msgs, steps[i])
    ensures Decode(Client, run[n].wire).messages
            == NonEmpty(Finished(run[n].acquired, run[n].phases, msgs)) + NonEmpty(InFlight(run[n], msgs))
  {
    var s := run[n];
    WholeFrames(run, msgs, steps, n);
    DecodeThenTail(Finished(s.acquired, s.phases, msgs), Partial(s, msgs));
    PartialDecodes(s, msgs);
  }

  // ----- after a torn frame -----

  /** As long as nothing is written after a torn frame, the client decodes what it did before: every other
      call has found the connection closed. */
  lemma {:induction false} TornIsLast(run: seq<State>, msgs: seq<Text>, steps: seq<Step>, m: nat, n: nat)
    requires IsRun(run, msgs, steps) && m <= n < |run|
    requires forall i :: 0 <= i < m ==> !Tears(run[i], msgs, steps[i])
    requires forall i :: m <= i < n ==> !steps[i].Write?
    ensures run[n].wire == run[m].wire
    ensures Decode(Client, run[n].wire).messages
            == NonEmpty(Finished(run[m].acquired, run[m].phases, msgs)) + NonEmpty(InFlight(run[m], msgs))
  {
    if n == m {
      DecodedInLockOrder(run, msgs, steps, m);
    } else {
      TornIsLast(run, msgs, steps, m, n - 1);
    }
  }

  const TWO: Text := [7, 7]
  const ONE: Text := [9]

  /** If another call still finds the connection open, it writes after the torn frame, and the client
      decodes a message that nobody has sent. */
  lemma TornStream() returns (run: seq<State>, steps: seq<Step>)
    ensures IsRun(run, [TWO, ONE], steps)
    ensures Decode(Client, run[|steps|].wire).messages == [[0, 0]]
  {
    run, steps := Torn();
    FrameOf(ONE);
    run, steps := Extended(run, [TWO, ONE], steps, Acquire(1));
    run, steps := Extended(run, [TWO, ONE], steps, Write(1, 5));
    run, steps := Extended(run, [TWO, ONE], steps, Release(1));
    assert Frame(ONE)[0..5] == Frame(ONE);
    Misread(run[|steps|].wire);
  }

  /** The first call throws between its header and its payload. */
  lemma Torn() returns (run: seq<State>, steps: seq<Step>)
    ensures IsRun(run, [TWO, ONE], steps)
    ensures run[|steps|] == State([0, 0, 0, 2], 1, [Done(false), Waiting], [0])
  {
    FrameOf(TWO);
    run, steps := [State([], 1, seq(2, _ => Waiting), [])], [];
    assert run[0].phases == [Waiting, Waiting];
    run, steps := Extended(run, [TWO, ONE], steps, Acquire(0));
    run, steps := Extended(run, [TWO, ONE], steps, Write(0, 4));
    assert Frame(TWO)[0..4] == [0, 0, 0, 2];
    run, steps := Extended(run, [TWO, ONE], steps, Fail(0));
  }

  lemma FrameOf(m: Text)
    requires |m| < 256
    ensures Frame(m) == [0, 0, 0, |m|] + m
  {
    assert LittleEndian(0, 1) == [0] && LittleEndian(0, 2) == [0, 0] && LittleEndian(0, 3) == [0, 0, 0];
    assert WriteInt32(|m|) == [|m|, 0, 0, 0];
  }

  lemma Misread(wire: seq<byte>)
    requires wire == [0, 0, 0, 2] + Frame(ONE)
    ensures Decode(Client, wire).messages == [[0, 0]]
  {
    FrameOf(ONE);
    assert wire == [0, 0, 0, 2, 0, 0, 0, 1, 9];
    FrameOf(TWO);
    LengthOfFrame(TWO, []);
    assert wire[..4] == (Frame(TWO) + [])[..4];
    assert wire[4..6] == [0, 0] && wire[6..] == [0, 1, 9];
  }

  lemma Extended(run: seq<State>, msgs: seq<Text>, steps: seq<Step>, step: Step)
      returns (run': seq<State>, steps': seq<Step>)
    requires IsRun(run, msgs, steps) && Enabled(run[|steps|], msgs, step)
    ensures IsRun(run', msgs, steps') && |steps'| == |steps| + 1 && run'[|steps'|] == Next(run[|steps|], msgs, step)
  {
    run', steps' := run + [Next(run[|steps|], msgs, step)], steps + [step];
  }
}
