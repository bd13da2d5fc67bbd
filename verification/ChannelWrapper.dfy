/** ConcurrentChannelWrapper: every client of the underlying channel gets an outer client of its own,
    and two dictionaries map one to the other. Each handler updates them one after the other, and
    handlers of different clients run in any interleaving. */
module ChannelWrapper {
  import opened Bytes
  import opened Wrappers

  /** Who an event is about: an outer client, or the inner one if no outer one was found. */
  datatype Party = Outer(outer: nat) | Inner(inner: nat)

  datatype Event =
    | Connected(party: Party)
    | Data(party: Party, payload: seq<byte>)
    | Sent(party: Party, payload: seq<byte>)
    | Disconnected(party: Party, reason: string)

  /** How far the handlers of one inner client have come. `outer` is the client created for it,
      `received` the payloads of its data events that have been handled, and `found` what a handler
      read from the dictionary. */
  datatype Place =
    | Fresh
    | Storing(outer: nat)
    | Announcing(outer: nat)
    | Live(outer: nat, received: seq<seq<byte>>)
    | Receiving(outer: nat, received: seq<seq<byte>>, payload: seq<byte>, found: Option<nat>)
    | Removing(outer: nat, received: seq<seq<byte>>, reason: string, found: Option<nat>)
    | Leaving(outer: nat, received: seq<seq<byte>>, reason: string, found: Option<nat>)
    | Gone(outer: nat, received: seq<seq<byte>>, reason: string)

  /** How far a call that sends to an outer client has come: it is with the underlying channel, that
      channel's event has been looked up, or the wrapper's has been raised. */
  datatype Call =
    | Underway(outer: nat, inner: nat, payload: seq<byte>)
    | Reporting(outer: nat, inner: nat, payload: seq<byte>, found: Option<nat>)
    | Done(outer: nat, inner: nat, payload: seq<byte>, found: Option<nat>)

  datatype State = State(
    outerToInner: map<nat, nat>,
    innerToOuter: map<nat, nat>,
    created: nat,              // outer clients created so far, numbered in that order
    places: seq<Place>,        // one per inner client
    sends: seq<Call>,          // the calls that found their inner client, in the order in which they did
    log: seq<Event>)           // the events the wrapper has raised

  datatype Step =
    | Create(client: nat)                          // a new outer client, into _outerToInner
    | Link(client: nat)                            // _innerToOuter
    | Announce(client: nat)                        // OnChannelClientConnected
    | Receive(client: nat, payload: seq<byte>)     // _innerToOuter.TryGetValue
    | Deliver(client: nat)                         // OnChannelDataReceived
    | Disconnect(client: nat, reason: string)      // _innerToOuter.TryRemove
    | Unlink(client: nat)                          // _outerToInner.TryRemove
    | Leave(client: nat)                           // OnChannelClientDisconnected
    | Send(client: nat, outer: nat, payload: seq<byte>)   // _outerToInner.TryGetValue
    | Complete(client: nat, call: nat)             // HandleDataSent: _innerToOuter.TryGetValue
    | Report(client: nat, call: nat)               // OnChannelDataSent

  /** The underlying channel raises three of the events of one client one after the other: connected
      first, then data, then disconnected. The events of its sends come from the threads that send,
      any number of them, at any time. */
  predicate Enabled(s: State, step: Step) {
    && step.client < |s.places|
    && match step
       case Create(t) => s.places[t].Fresh?
       case Link(t) => s.places[t].Storing?
       case Announce(t) => s.places[t].Announcing?
       case Receive(t, _) => s.places[t].Live?
       case Deliver(t) => s.places[t].Receiving?
       case Disconnect(t, _) => s.places[t].Live?
       case Unlink(t) => s.places[t].Removing?
       case Leave(t) => s.places[t].Leaving?
       case Send(t, o, _) => Lookup(s.outerToInner, o) == Some(t)
       case Complete(t, i) => i < |s.sends| && s.sends[i].Underway? && s.sends[i].inner == t
       case Report(t, i) => i < |s.sends| && s.sends[i].Reporting? && s.sends[i].inner == t
  }

  function Lookup(m: map<nat, nat>, key: nat): Option<nat> {
    if key in m then Some(m[key]) else None
  }

  function PartyOf(found: Option<nat>, client: nat): Party {
    match found
    case Some(o) => Outer(o)
    case None => Inner(client)
  }

  function At(s: State, t: nat, place: Place): State
    requires t < |s.places|
  {
    s.(places := s.places[t := place])
  }

  function Sending(s: State, i: nat, call: Call): State
    requires i < |s.sends|
  {
    s.(sends := s.sends[i := call])
  }

  function Raise(s: State, event: Event): State {
    s.(log := s.log + [event])
  }

  function Next(s: State, step: Step): State
    requires Enabled(s, step)
  {
    var t := step.client;
    var place := s.places[t];
    match step
    case Create(_) =>
      At(s, t, Storing(s.created)).(created := s.created + 1, outerToInner := s.outerToInner[s.created := t])
    case Link(_) => At(s, t, Announcing(place.outer)).(innerToOuter := s.innerToOuter[t := place.outer])
    case Announce(_) => Raise(At(s, t, Live(place.outer, [])), Connected(Outer(place.outer)))
    case Receive(_, payload) => At(s, t, Receiving(place.outer, place.received, payload, Lookup(s.innerToOuter, t)))
    case Deliver(_) =>
      Raise(At(s, t, Live(place.outer, place.received + [place.payload])), Data(PartyOf(place.found, t), place.payload))
    case Disconnect(_, reason) =>
      var found := Lookup(s.innerToOuter, t);
      At(s, t, if found.Some? then Removing(place.outer, place.received, reason, found)
               else Leaving(place.outer, place.received, reason, found)).(innerToOuter := s.innerToOuter - {t})
    case Unlink(_) =>
      At(s, t, Leaving(place.outer, place.received, place.reason, place.found))
        .(outerToInner := if place.found.Some? then s.outerToInner - {place.found.value} else s.outerToInner)
    case Leave(_) =>
      Raise(At(s, t, Gone(place.outer, place.received, place.reason)),
          Disconnected(PartyOf(place.found, t), place.reason))
    case Send(_, o, payload) => s.(sends := s.sends + [Underway(o, t, payload)])
    case Complete(_, i) =>
      Sending(s, i, Reporting(s.sends[i].outer, t, s.sends[i].payload, Lookup(s.innerToOuter, t)))
    case Report(_, i) =>
      var call := s.sends[i];
      Raise(Sending(s, i, Done(call.outer, t, call.payload, call.found)), Sent(PartyOf(call.found, t), call.payload))
  }

  ghost predicate Initial(s: State) {
    && s.outerToInner == map[] && s.innerToOuter == map[] && s.created == 0 && s.sends == [] && s.log == []
    && forall t :: 0 <= t < |s.places| ==> s.places[t] == Fresh
  }

  ghost predicate IsRun(run: seq<State>, steps: seq<Step>) {
    && |run| == |steps| + 1 && Initial(run[0])
    && forall i :: 0 <= i < |steps| ==> Enabled(run[i], steps[i]) && run[i + 1] == Next(run[i], steps[i])
  }

  // ----- the invariant -----

  /** The connections, data and disconnections raised about one outer client, in order. */
  function About(log: seq<Event>, o: nat): seq<Event> {
    if log == [] then []
    else
      var before, e := About(log[..|log| - 1], o), log[|log| - 1];
      if !e.Sent? && e.party == Outer(o) then before + [e] else before
  }

  lemma AboutNext(log: seq<Event>, e: Event, o: nat)
    ensures About(log + [e], o) == if !e.Sent? && e.party == Outer(o) then About(log, o) + [e] else About(log, o)
  {
    assert (log + [e])[..|log|] == log;
  }

  /** The events an application sees of a client: its connection, then its data. */
  function History(o: nat, received: seq<seq<byte>>): seq<Event> {
    if received == [] then [Connected(Outer(o))]
    else History(o, received[..|received| - 1]) + [Data(Outer(o), received[|received| - 1])]
  }

  lemma HistoryNext(o: nat, received: seq<seq<byte>>, payload: seq<byte>)
    ensures History(o, received + [payload]) == History(o, received) + [Data(Outer(o), payload)]
  {
    assert (received + [payload])[..|received|] == received;
  }

  /** What has been said about the client at a place. */
  function Said(place: Place): seq<Event>
    requires !place.Fresh?
  {
    if place.Storing? || place.Announcing? then []
    else
      History(place.outer, place.received)
      + if place.Gone? then [Disconnected(Outer(place.outer), place.reason)] else []
  }

  /** Where the inner client is in `_innerToOuter`, and where its outer client is in `_outerToInner`. */
  predicate InnerMapped(place: Place) {
    place.Announcing? || place.Live? || place.Receiving?
  }

  predicate OuterMapped(place: Place) {
    InnerMapped(place) || place.Storing? || place.Removing?
  }

  /** One client's entries and lookups are its own. */
  ghost predicate Mapped(s: State, t: nat)
    requires t < |s.places|
  {
    var place := s.places[t];
    && (t in s.innerToOuter <==> InnerMapped(place))
    && (!place.Fresh? ==>
          && (InnerMapped(place) ==> s.innerToOuter[t] == place.outer)
          && (place.outer in s.outerToInner <==> OuterMapped(place))
          && (OuterMapped(place) ==> s.outerToInner[place.outer] == t)
          && (place.Receiving? || place.Removing? || place.Leaving? ==> place.found == Some(place.outer)))
  }

  /** So are the events about it. */
  ghost predicate Told(s: State, t: nat)
    requires t < |s.places|
  {
    !s.places[t].Fresh? ==> About(s.log, s.places[t].outer) == Said(s.places[t])
  }

  ghost predicate Proper(s: State, t: nat)
    requires t < |s.places|
  {
    Mapped(s, t) && Told(s, t)
  }

  /** No two clients share an outer client, and the dictionaries have no entries but theirs. */
  ghost predicate Separate(s: State) {
    && (forall t :: 0 <= t < |s.places| && !s.places[t].Fresh? ==> s.places[t].outer < s.created)
    && (forall t, u :: 0 <= t < u < |s.places| && !s.places[t].Fresh? && !s.places[u].Fresh?
                       ==> s.places[t].outer != s.places[u].outer)
    && (forall t :: t in s.innerToOuter ==> t < |s.places|)
    && (forall o :: o in s.outerToInner ==>
          s.outerToInner[o] < |s.places| && !s.places[s.outerToInner[o]].Fresh?
              && s.places[s.outerToInner[o]].outer == o)
  }

  /** Except for sent data nothing has been raised about an inner client. */
  ghost predicate Wrapped(s: State) {
    forall e :: e in s.log && !e.Sent? ==> e.party.Outer? && e.party.outer < s.created
  }

  ghost predicate Orderly(s: State) {
    (forall t :: 0 <= t < |s.places| ==> Proper(s, t)) && Separate(s) && Wrapped(s)
  }

  ghost predicate Inv(s: State) {
    Orderly(s) && forall i :: 0 <= i < |s.sends| ==> Addressed(s, s.sends[i])
  }

  /** A send is with the inner client that its outer client was created for. */
  predicate Addressed(s: State, call: Call) {
    call.inner < |s.places| && !s.places[call.inner].Fresh? && s.places[call.inner].outer == call.outer
  }

  lemma {:induction false} NothingAbout(log: seq<Event>, o: nat)
    requires forall e :: e in log && !e.Sent? ==> e.party != Outer(o)
    ensures About(log, o) == []
  {
    if log != [] {
      NothingAbout(log[..|log| - 1], o);
    }
  }

  /** The client that steps stays proper. */
  lemma OwnStep(s: State, step: Step)
    requires Orderly(s) && Enabled(s, step)
    ensures Proper(Next(s, step), step.client)
  {
    assert Proper(s, step.client);
    OwnMapped(s, step);
    OwnTold(s, step);
  }

  lemma OwnMapped(s: State, step: Step)
    requires Enabled(s, step) && Mapped(s, step.client)
    ensures Mapped(Next(s, step), step.client)
  {
  }

  lemma {:induction false} OwnTold(s: State, step: Step)
    requires Enabled(s, step) && Proper(s, step.client)
    requires forall e :: e in s.log && !e.Sent? ==> e.party != Outer(s.created)
    ensures Told(Next(s, step), step.client)
  {
    match step
    case Create(_) => NothingAbout(s.log, s.created);
    case Announce(t) => AnnounceTold(s, t);
    case Deliver(t) => DeliverTold(s, t);
    case Leave(t) => LeaveTold(s, t);
    case Report(t, i) => ReportTold(s, t, i);
    case _ =>
  }

  lemma {:induction false} AnnounceTold(s: State, t: nat)
    requires Enabled(s, Announce(t)) && Proper(s, t)
    ensures Told(Next(s, Announce(t)), t)
  {
    var place := s.places[t];
    AboutNext(s.log, Connected(Outer(place.outer)), place.outer);
  }

  lemma {:induction false} DeliverTold(s: State, t: nat)
    requires Enabled(s, Deliver(t)) && Proper(s, t)
    ensures Told(Next(s, Deliver(t)), t)
  {
    var place := s.places[t];
    DeliveryTold(s.log, place.outer, place.received, place.payload);
  }

  lemma {:induction false} LeaveTold(s: State, t: nat)
    requires Enabled(s, Leave(t)) && Proper(s, t)
    ensures Told(Next(s, Leave(t)), t)
  {
    var place := s.places[t];
    AboutNext(s.log, Disconnected(Outer(place.outer), place.reason), place.outer);
  }

  lemma {:induction false} ReportTold(s: State, t: nat, i: nat)
    requires Enabled(s, Report(t, i)) && Told(s, t)
    ensures Told(Next(s, Report(t, i)), t)
  {
    var place, s' := s.places[t], Next(s, Report(t, i));
    if !place.Fresh? {
      AboutNext(s.log, s'.log[|s.log|], place.outer);
    }
  }

  lemma {:induction false} DeliveryTold(log: seq<Event>, o: nat, received: seq<seq<byte>>, payload: seq<byte>)
    requires About(log, o) == History(o, received)
    ensures About(log + [Data(Outer(o), payload)], o) == History(o, received + [payload])
  {
    AboutNext(log, Data(Outer(o), payload), o);
    HistoryNext(o, received, payload);
  }

  /** Every other client stays proper: its keys and its outer client are different. */
  lemma OtherStep(s: State, step: Step, u: nat)
    requires Orderly(s) && Enabled(s, step) && u < |s.places| && u != step.client
    ensures Proper(Next(s, step), u)
  {
    assert Proper(s, step.client) && Proper(s, u);
    OtherMapped(s, step, u);
    OtherTold(s, step, u);
  }

  lemma OtherMapped(s: State, step: Step, u: nat)
    requires Enabled(s, step) && u < |s.places| && u != step.client && Mapped(s, step.client) && Mapped(s, u)
    requires !s.places[u].Fresh? ==> s.places[u].outer < s.created
    requires !s.places[u].Fresh? && !s.places[step.client].Fresh? ==> s.places[u].outer != s.places[step.client].outer
    ensures Mapped(Next(s, step), u)
  {
  }

  lemma OtherTold(s: State, step: Step, u: nat)
    requires Enabled(s, step) && u < |s.places| && u != step.client && Mapped(s, step.client) && Told(s, u)
    requires !s.places[u].Fresh? && !s.places[step.client].Fresh? ==> s.places[u].outer != s.places[step.client].outer
    ensures Told(Next(s, step), u)
  {
    var s' := Next(s, step);
    if !s.places[u].Fresh? && s'.log != s.log {
      AboutNext(s.log, s'.log[|s.log|], s.places[u].outer);
    }
  }

  lemma OrderlyStep(s: State, step: Step)
    requires Orderly(s) && Enabled(s, step)
    ensures Orderly(Next(s, step))
  {
    var s' := Next(s, step);
    forall t | 0 <= t < |s'.places| ensures Proper(s', t) {
      if t == step.client {
        OwnStep(s, step);
      } else {
        OtherStep(s, step, t);
      }
    }
    assert Proper(s, step.client);
    SeparateStep(s, step);
    WrappedStep(s, step);
  }

  lemma SeparateStep(s: State, step: Step)
    requires Separate(s) && Enabled(s, step) && Mapped(s, step.client)
    ensures Separate(Next(s, step))
  {
  }

  lemma WrappedStep(s: State, step: Step)
    requires Wrapped(s) && Enabled(s, step) && Mapped(s, step.client)
    requires !s.places[step.client].Fresh? ==> s.places[step.client].outer < s.created
    ensures Wrapped(Next(s, step))
  {
  }

  /** A call that finds its inner client finds the one that the outer client was created for; no step
      changes that. */
  lemma AddressedStep(s: State, step: Step, i: nat)
    requires Inv(s) && Enabled(s, step) && i < |Next(s, step).sends|
    ensures Addressed(Next(s, step), Next(s, step).sends[i])
  {
    if i < |s.sends| {
      assert Addressed(s, s.sends[i]);
    }
  }

  lemma InvStep(s: State, step: Step)
    requires Inv(s) && Enabled(s, step)
    ensures Inv(Next(s, step))
  {
    OrderlyStep(s, step);
    forall i | 0 <= i < |Next(s, step).sends| ensures Addressed(Next(s, step), Next(s, step).sends[i]) {
      AddressedStep(s, step, i);
    }
  }

  lemma {:induction false} InvAlongRuns(run: seq<State>, steps: seq<Step>, n: nat)
    requires IsRun(run, steps) && n < |run|
    ensures Inv(run[n])
  {
    if n > 0 {
      InvAlongRuns(run, steps, n - 1);
      InvStep(run[n - 1], steps[n - 1]);
    }
  }
}
