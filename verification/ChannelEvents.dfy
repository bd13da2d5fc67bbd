/** What follows for the dictionaries and for the events that ChannelWrapper raises. */
module ChannelEvents {
  import opened Bytes
  import opened ChannelWrapper
  import opened Wrappers

  // ----- the dictionaries and the handlers' events -----

  /** At every point of every interleaving an entry from an inner client to an outer one has its
      counterpart, and belongs to the client that the outer one was created for. */
  lemma EntriesHaveCounterparts(run: seq<State>, steps: seq<Step>, n: nat, i: nat)
    requires IsRun(run, steps) && n < |run| && i in run[n].innerToOuter
    ensures i < |run[n].places| && InnerMapped(run[n].places[i]) && run[n].innerToOuter[i] == run[n].places[i].outer
    ensures run[n].innerToOuter[i] in run[n].outerToInner && run[n].outerToInner[run[n].innerToOuter[i]] == i
  {
    InvAlongRuns(run, steps, n);
    assert Proper(run[n], i);
  }

  ghost predicate MutuallyInverse(s: State) {
    && (forall i :: i in s.innerToOuter ==>
         s.innerToOuter[i] in s.outerToInner && s.outerToInner[s.innerToOuter[i]] == i)
    && (forall o :: o in s.outerToInner ==>
         s.outerToInner[o] in s.innerToOuter && s.innerToOuter[s.outerToInner[o]] == o)
  }

  /** The dictionaries are each other's inverse exactly when no handler is between its two updates. */
  lemma InverseExact(run: seq<State>, steps: seq<Step>, n: nat)
    requires IsRun(run, steps) && n < |run|
    ensures MutuallyInverse(run[n])
            <==> forall t :: 0 <= t < |run[n].places| ==> !run[n].places[t].Storing? && !run[n].places[t].Removing?
  {
    var s := run[n];
    InvAlongRuns(run, steps, n);
    forall i | i in s.innerToOuter
      ensures s.innerToOuter[i] in s.outerToInner && s.outerToInner[s.innerToOuter[i]] == i
    {
      assert Proper(s, i);
    }
    forall o | o in s.outerToInner
      ensures var t := s.outerToInner[o];
              (t in s.innerToOuter && s.innerToOuter[t] == o) <==> !s.places[t].Storing? && !s.places[t].Removing?
    {
      assert Proper(s, s.outerToInner[o]);
    }
    forall t | 0 <= t < |s.places| && (s.places[t].Storing? || s.places[t].Removing?)
      ensures s.places[t].outer in s.outerToInner && s.outerToInner[s.places[t].outer] == t
    {
      assert Proper(s, t);
    }
  }

  /** Apart from sent data, everything raised about an outer client is its connection, the data of its own
      inner client in order, and its disconnection last; none of this is ever raised about an inner client. */
  lemma EventsReachTheirClient(run: seq<State>, steps: seq<Step>, n: nat, t: nat)
    requires IsRun(run, steps) && n < |run| && t < |run[n].places| && !run[n].places[t].Fresh?
    ensures About(run[n].log, run[n].places[t].outer) == Said(run[n].places[t])
    ensures forall e :: e in run[n].log && !e.Sent? ==> e.party.Outer?
  {
    InvAlongRuns(run, steps, n);
    assert Proper(run[n], t);
  }

  // ----- the events of sends -----

  /** A completed send finds the outer client that it was addressed to if and only if that client is still
      mapped from its inner one, and no other client ever. */
  lemma SentExact(run: seq<State>, steps: seq<Step>, n: nat, t: nat, i: nat)
    requires IsRun(run, steps) && n < |steps| && steps[n] == Complete(t, i)
    ensures i < |run[n + 1].sends| && run[n + 1].sends[i].Reporting?
    ensures var call := run[n + 1].sends[i];
            call.found == if InnerMapped(run[n].places[t]) then Some(call.outer) else None
  {
    InvAlongRuns(run, steps, n);
    assert Proper(run[n], t) && Addressed(run[n], run[n].sends[i]);
  }

  /** A call stays with its clients and its payload, and looks its event up at one point. */
  lemma {:induction false} LookedUp(run: seq<State>, steps: seq<Step>, n: nat, i: nat) returns (m: nat)
    requires IsRun(run, steps) && n < |run| && i < |run[n].sends| && !run[n].sends[i].Underway?
    ensures m < n && steps[m] == Complete(run[n].sends[i].inner, i) && i < |run[m + 1].sends|
    ensures run[m + 1].sends[i].Reporting? && run[m + 1].sends[i].found == run[n].sends[i].found
    ensures run[m + 1].sends[i].outer == run[n].sends[i].outer
  {
    assert n > 0;
    CallStays(run[n - 1], steps[n - 1], i);
    if i < |run[n - 1].sends| && !run[n - 1].sends[i].Underway? {
      m := LookedUp(run, steps, n - 1, i);
    } else {
      m := n - 1;
    }
  }

  lemma {:induction false} CallStays(s: State, step: Step, i: nat)
    requires Enabled(s, step) && i < |Next(s, step).sends| && !Next(s, step).sends[i].Underway?
    ensures i < |s.sends|
    ensures var before, after := s.sends[i], Next(s, step).sends[i];
            if before.Underway? then step == Complete(after.inner, i) && after.Reporting? && after.outer == before.outer
            else after.found == before.found && after.outer == before.outer && after.inner == before.inner
  {
  }

  /** What is raised about a send is about the outer client it was addressed to, if that client was still
      mapped from its inner one when the send completed, and otherwise about the inner one. */
  lemma SendsAreReported(run: seq<State>, steps: seq<Step>, n: nat, t: nat, i: nat) returns (m: nat)
    requires IsRun(run, steps) && n < |steps| && steps[n] == Report(t, i)
    ensures m < n && steps[m] == Complete(t, i) && t < |run[m].places|
    ensures var call := run[n].sends[i];
            var party := if InnerMapped(run[m].places[t]) then Outer(call.outer) else Inner(t);
            run[n + 1].log == run[n].log + [Sent(party, call.payload)]
  {
    m := LookedUp(run, steps, n, i);
    SentExact(run, steps, m, t, i);
  }

  // ----- the payloads -----

  /** The payloads that the underlying channel reported for a client, as far as they are handled. */
  function Reported(steps: seq<Step>, t: nat): seq<seq<byte>> {
    if steps == [] then []
    else
      var before, step := Reported(steps[..|steps| - 1], t), steps[|steps| - 1];
      if step.Receive? && step.client == t then before + [step.payload] else before
  }

  /** The payloads received so far: those delivered, and the one being delivered. */
  function Payloads(place: Place): seq<seq<byte>> {
    if place.Fresh? || place.Storing? || place.Announcing? then []
    else place.received + if place.Receiving? then [place.payload] else []
  }

  /** No payload is lost, repeated or reordered on the way to the events. */
  lemma {:induction false} PayloadsAreReported(run: seq<State>, steps: seq<Step>, n: nat, t: nat)
    requires IsRun(run, steps) && n < |run| && t < |run[0].places|
    ensures |run[n].places| == |run[0].places|
    ensures Payloads(run[n].places[t]) == Reported(steps[..n], t)
  {
    if n > 0 {
      PayloadsAreReported(run, steps, n - 1, t);
      assert steps[..n][..n - 1] == steps[..n - 1];
      PayloadsNext(run[n - 1], steps[n - 1], t);
    }
  }

  lemma PayloadsNext(s: State, step: Step, t: nat)
    requires Enabled(s, step) && t < |s.places|
    ensures Payloads(Next(s, step).places[t])
            == Payloads(s.places[t]) + if step.Receive? && step.client == t then [step.payload] else []
  {
  }

  /** While an outer client is mapped, what is sent to it goes to the inner client it was created for. */
  lemma SendsReachTheirClient(run: seq<State>, steps: seq<Step>, n: nat, t: nat)
    requires IsRun(run, steps) && n < |run| && t < |run[n].places| && !run[n].places[t].Fresh?
    ensures Lookup(run[n].outerToInner, run[n].places[t].outer)
            == if OuterMapped(run[n].places[t]) then Some(t) else None
  {
    InvAlongRuns(run, steps, n);
    assert Proper(run[n], t);
  }

  // ----- a send that comes too late -----

  /** A send begins, and its client goes. */
  lemma GoneMeanwhile(payload: seq<byte>, reason: string) returns (run: seq<State>, steps: seq<Step>)
    ensures IsRun(run, steps)
    ensures run[|steps|] == State(map[], map[], 1, [Gone(0, [], reason)], [Underway(0, 0, payload)],
                                  [Connected(Outer(0)), Disconnected(Outer(0), reason)])
  {
    run, steps := Begun(payload);
    run, steps := Extended(run, steps, Disconnect(0, reason));
    run, steps := Extended(run, steps, Unlink(0));
    run, steps := Extended(run, steps, Leave(0));
  }

  lemma Begun(payload: seq<byte>) returns (run: seq<State>, steps: seq<Step>)
    ensures IsRun(run, steps)
    ensures run[|steps|]
            == State(map[0 := 0], map[0 := 0], 1, [Live(0, [])], [Underway(0, 0, payload)], [Connected(Outer(0))])
  {
    run, steps := [State(map[], map[], 0, [Fresh], [], [])], [];
    run, steps := Extended(run, steps, Create(0));
    run, steps := Extended(run, steps, Link(0));
    run, steps := Extended(run, steps, Announce(0));
    run, steps := Extended(run, steps, Send(0, 0, payload));
  }

  /** A client that goes while a send to it completes: the send is reported about the inner client, after
      the outer one's disconnection. */
  lemma LateSend(payload: seq<byte>, reason: string) returns (run: seq<State>, steps: seq<Step>)
    ensures IsRun(run, steps)
    ensures run[|steps|].log
            == [Connected(Outer(0)), Disconnected(Outer(0), reason), Sent(Inner(0), payload)]
  {
    run, steps := GoneMeanwhile(payload, reason);
    run, steps := Extended(run, steps, Complete(0, 0));
    run, steps := Extended(run, steps, Report(0, 0));
  }

  lemma Extended(run: seq<State>, steps: seq<Step>, step: Step) returns (run': seq<State>, steps': seq<Step>)
    requires IsRun(run, steps) && Enabled(run[|steps|], step)
    ensures IsRun(run', steps') && |steps'| == |steps| + 1 && run'[|steps'|] == Next(run[|steps|], step)
  {
    run', steps' := run + [Next(run[|steps|], step)], steps + [step];
  }
}
