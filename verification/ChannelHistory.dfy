/** The wrapper's dictionaries and events read off the steps of a run: which outer client belongs to whom, when it is
    mapped, and what each step raises. */
module ChannelHistory {
  import opened Bytes
  import opened ChannelWrapper
  import opened Wrappers

  /** How many outer clients have been created. */
  function Creations(steps: seq<Step>): nat {
    if steps == [] then 0
    else Creations(steps[..|steps| - 1]) + if steps[|steps| - 1].Create? then 1 else 0
  }

  /** The number of the outer client that was created for an inner one. */
  function OuterOf(steps: seq<Step>, t: nat): Option<nat> {
    if steps == [] then None
    else if steps[|steps| - 1] == Create(t) then Some(Creations(steps[..|steps| - 1]))
    else OuterOf(steps[..|steps| - 1], t)
  }

  /** Whether the last step of these two kinds for a client was the first one. */
  predicate Linked(steps: seq<Step>, t: nat) {
    steps != [] &&
    match steps[|steps| - 1]
    case Link(u) => u == t || Linked(steps[..|steps| - 1], t)
    case Disconnect(u, _) => u != t && Linked(steps[..|steps| - 1], t)
    case _ => Linked(steps[..|steps| - 1], t)
  }

  predicate Joined(steps: seq<Step>, t: nat) {
    steps != [] &&
    match steps[|steps| - 1]
    case Create(u) => u == t || Joined(steps[..|steps| - 1], t)
    case Unlink(u) => u != t && Joined(steps[..|steps| - 1], t)
    case _ => Joined(steps[..|steps| - 1], t)
  }

  function LastPayload(steps: seq<Step>, t: nat): seq<byte> {
    if steps == [] then []
    else
      var step := steps[|steps| - 1];
      if step.Receive? && step.client == t then step.payload else LastPayload(steps[..|steps| - 1], t)
  }

  function LastReason(steps: seq<Step>, t: nat): string {
    if steps == [] then []
    else
      var step := steps[|steps| - 1];
      if step.Disconnect? && step.client == t then step.reason else LastReason(steps[..|steps| - 1], t)
  }

  /** A client's place is what the steps have made of it. */
  predicate Remembers(s: State, steps: seq<Step>, t: nat)
    requires t < |s.places|
  {
    var place := s.places[t];
    && OuterOf(steps, t) == (if place.Fresh? then None else Some(place.outer))
    && (Linked(steps, t) <==> InnerMapped(place))
    && (Joined(steps, t) <==> OuterMapped(place))
    && (place.Receiving? ==> place.payload == LastPayload(steps, t))
    && (place.Removing? || place.Leaving? ==> place.reason == LastReason(steps, t))
  }

  lemma {:induction false} RemembersNext(s: State, steps: seq<Step>, step: Step, t: nat, s': State, steps': seq<Step>)
    requires t < |s.places| && Enabled(s, step) && s' == Next(s, step) && Inv(s)
    requires |steps'| == |steps| + 1 && steps'[..|steps|] == steps && steps'[|steps|] == step
    requires Remembers(s, steps, t) && s.created == Creations(steps)
    ensures t < |s'.places| && Remembers(s', steps', t) && s'.created == Creations(steps')
  {
    if step.client == t {
      assert Proper(s, t);
      OwnStepRemembered(s, steps, step, steps');
    } else {
      assert s'.places[t] == s.places[t];
    }
  }

  lemma {:induction false} OwnStepRemembered(s: State, steps: seq<Step>, step: Step, steps': seq<Step>)
    requires Enabled(s, step) && Proper(s, step.client)
    requires |steps'| == |steps| + 1 && steps'[..|steps|] == steps && steps'[|steps|] == step
    requires Remembers(s, steps, step.client) && s.created == Creations(steps)
    ensures Remembers(Next(s, step), steps', step.client)
  {
  }

  lemma StepOf(run: seq<State>, steps: seq<Step>, n: nat)
    requires IsRun(run, steps) && n < |steps|
    ensures Enabled(run[n], steps[n]) && run[n + 1] == Next(run[n], steps[n])
    ensures steps[..n + 1] == steps[..n] + [steps[n]] && steps[..n + 1][..n] == steps[..n]
  {
  }

  lemma {:induction false} PlacesRemember(run: seq<State>, steps: seq<Step>, n: nat, t: nat)
    requires IsRun(run, steps) && n < |run| && t < |run[0].places|
    ensures t < |run[n].places| && Remembers(run[n], steps[..n], t) && run[n].created == Creations(steps[..n])
  {
    if n > 0 {
      PlacesRemember(run, steps, n - 1, t);
      InvAlongRuns(run, steps, n - 1);
      StepOf(run, steps, n - 1);
      RemembersNext(run[n - 1], steps[..n - 1], steps[n - 1], t, run[n], steps[..n]);
    }
  }

  /** An inner client leads to the outer client created for it from its entry on until its disconnection, and back
      from its creation on until the second update of its disconnection. */
  lemma {:induction false} MapsAreSteps(run: seq<State>, steps: seq<Step>, n: nat, t: nat)
    requires IsRun(run, steps) && n < |run| && t < |run[0].places|
    ensures t in run[n].innerToOuter <==> Linked(steps[..n], t)
    ensures Linked(steps[..n], t) ==> OuterOf(steps[..n], t) == Some(run[n].innerToOuter[t])
    ensures Joined(steps[..n], t) ==>
              OuterOf(steps[..n], t).Some? && var o := OuterOf(steps[..n], t).value;
              o in run[n].outerToInner && run[n].outerToInner[o] == t
    ensures forall o :: o in run[n].outerToInner && run[n].outerToInner[o] == t ==>
              Joined(steps[..n], t) && OuterOf(steps[..n], t) == Some(o)
  {
    PlacesRemember(run, steps, n, t);
    InvAlongRuns(run, steps, n);
    assert Proper(run[n], t);
  }

  // ----- the events -----

  /** What a step raises: the connection when the client is announced, the payload that was received last when it is
      delivered, the reason that was given when the client leaves, one event for a completed send, and
      otherwise nothing. */
  lemma {:induction false} EventsAreSteps(run: seq<State>, steps: seq<Step>, n: nat)
    requires IsRun(run, steps) && n < |steps|
    ensures var o, t := OuterOf(steps[..n], steps[n].client), steps[n].client;
            match steps[n]
            case Announce(_) => o.Some? && run[n + 1].log == run[n].log + [Connected(Outer(o.value))]
            case Deliver(_) =>
              o.Some? && run[n + 1].log == run[n].log + [Data(Outer(o.value), LastPayload(steps[..n], t))]
            case Leave(_) =>
              o.Some? && run[n + 1].log == run[n].log + [Disconnected(Outer(o.value), LastReason(steps[..n], t))]
            case Report(_, _) => |run[n + 1].log| == |run[n].log| + 1
            case _ => run[n + 1].log == run[n].log
  {
    var t := steps[n].client;
    StepOf(run, steps, n);
    PlacesKept(run, steps, n);
    PlacesRemember(run, steps, n, t);
    InvAlongRuns(run, steps, n);
    assert Proper(run[n], t);
  }

  lemma {:induction false} PlacesKept(run: seq<State>, steps: seq<Step>, n: nat)
    requires IsRun(run, steps) && n < |run|
    ensures |run[n].places| == |run[0].places|
  {
    if n > 0 {
      PlacesKept(run, steps, n - 1);
      StepOf(run, steps, n - 1);
    }
  }

  // ----- the sends -----

  /** The sends that have begun: inner client, outer client and payload. */
  function Begun(steps: seq<Step>): seq<(nat, nat, seq<byte>)> {
    if steps == [] then []
    else
      match steps[|steps| - 1]
      case Send(t, o, payload) => Begun(steps[..|steps| - 1]) + [(t, o, payload)]
      case _ => Begun(steps[..|steps| - 1])
  }

  /** What the completion of a send finds: the outer client of its inner one, if that is linked. */
  function Found(steps: seq<Step>, i: nat): Option<nat> {
    if steps == [] then None
    else
      var before := steps[..|steps| - 1];
      match steps[|steps| - 1]
      case Complete(t, j) => if j != i then Found(before, i) else if Linked(before, t) then OuterOf(before, t) else None
      case _ => Found(before, i)
  }

  predicate Follows(call: Call, steps: seq<Step>, i: nat) {
    && i < |Begun(steps)| && (call.inner, call.outer, call.payload) == Begun(steps)[i]
    && (!call.Underway? ==> call.found == Found(steps, i))
  }

  lemma {:induction false} CallsFollow(run: seq<State>, steps: seq<Step>, n: nat, i: nat)
    requires IsRun(run, steps) && n < |run|
    ensures |run[n].sends| == |Begun(steps[..n])|
    ensures i < |run[n].sends| ==> Follows(run[n].sends[i], steps[..n], i)
  {
    if n > 0 {
      CallsFollow(run, steps, n - 1, i);
      var s, step, before := run[n - 1], steps[n - 1], steps[..n - 1];
      StepOf(run, steps, n - 1);
      PlacesKept(run, steps, n - 1);
      PlacesRemember(run, steps, n - 1, step.client);
      InvAlongRuns(run, steps, n - 1);
      assert Proper(s, step.client);
      CallsNext(s, before, step, i);
    }
  }

  lemma {:induction false} CallsNext(s: State, steps: seq<Step>, step: Step, i: nat)
    requires Enabled(s, step) && Remembers(s, steps, step.client) && Proper(s, step.client)
    requires |s.sends| == |Begun(steps)| && (i < |s.sends| ==> Follows(s.sends[i], steps, i))
    ensures |Next(s, step).sends| == |Begun(steps + [step])|
    ensures i < |Next(s, step).sends| ==> Follows(Next(s, step).sends[i], steps + [step], i)
  {
    assert (steps + [step])[..|steps|] == steps;
  }

  /** The event of a completed send carries what was sent, and is about the outer client that was linked with its inner
      one when the send completed; if there was none, about the inner one. */
  lemma {:induction false} ReportsAreSteps(run: seq<State>, steps: seq<Step>, n: nat, t: nat, i: nat)
    requires IsRun(run, steps) && n < |steps| && steps[n] == Report(t, i)
    ensures i < |Begun(steps[..n])| && Begun(steps[..n])[i].0 == t
    ensures run[n + 1].log == run[n].log
              + [Sent(match Found(steps[..n], i) case Some(o) => Outer(o) case None => Inner(t),
                      Begun(steps[..n])[i].2)]
  {
    CallsFollow(run, steps, n, i);
    StepOf(run, steps, n);
  }
}
