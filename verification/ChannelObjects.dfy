/** The wrapper as an object, whose handlers are runs of the steps of ChannelWrapper. */
module ChannelObjects {
  import opened Bytes
  import opened ChannelWrapper
  import opened Wrappers

  /** Each handler run from its first step to its last. */
  class ConcurrentChannelWrapper {
    var outerToInner: map<nat, nat>
    var innerToOuter: map<nat, nat>
    var created: nat
    var clientLocks: set<nat>    // the outer clients that have a semaphore
    var log: seq<Event>
    ghost var places: seq<Place>
    ghost var sends: seq<Call>

    ghost function Contents(): State
      reads this
    {
      State(outerToInner, innerToOuter, created, places, sends, log)
    }

    constructor (ghost clients: nat)
      ensures Initial(Contents()) && Inv(Contents()) && |places| == clients && clientLocks == {}
    {
      outerToInner, innerToOuter, created, clientLocks, log := map[], map[], 0, {}, [];
      places := seq(clients, _ => Fresh);
      sends := [];
    }

    method HandleClientConnected(innerClient: nat)
      requires Inv(Contents()) && innerClient < |places| && places[innerClient] == Fresh
      modifies this
      ensures Inv(Contents()) && places == old(places)[innerClient := Live(old(created), [])]
      ensures outerToInner == old(outerToInner)[old(created) := innerClient]
      ensures innerToOuter == old(innerToOuter)[innerClient := old(created)]
      ensures log == old(log) + [Connected(Outer(old(created)))] && created == old(created) + 1
      ensures clientLocks == old(clientLocks)
    {
      var outerClient := created;
      created := created + 1;
      outerToInner := outerToInner[outerClient := innerClient];
      innerToOuter := innerToOuter[innerClient := outerClient];
      log := log + [Connected(Outer(outerClient))];
      places := places[innerClient := Live(outerClient, [])];
      Connects(old(Contents()), innerClient);
    }

    /** Where a message to an outer client is sent, if anywhere; a semaphore is made on the first one. */
    method SendToClientAsync(client: nat, data: seq<byte>) returns (innerClient: Option<nat>)
      requires Inv(Contents())
      modifies this`clientLocks, this`sends
      ensures Inv(Contents()) && innerClient == Lookup(outerToInner, client)
      ensures clientLocks == if client in outerToInner then old(clientLocks) + {client} else old(clientLocks)
      ensures sends == old(sends) + if innerClient.Some? then [Underway(client, innerClient.value, data)] else []
    {
      innerClient := Lookup(outerToInner, client);
      if innerClient.Some? {
        clientLocks := clientLocks + {client};
        sends := sends + [Underway(client, innerClient.value, data)];
        InvStep(old(Contents()), Send(innerClient.value, client, data));
      }
    }

    method HandleDataSent(innerClient: nat, payload: seq<byte>, ghost call: nat)
      requires Inv(Contents()) && call < |sends| && sends[call].Underway?
      requires sends[call].inner == innerClient && sends[call].payload == payload
      modifies this`log, this`sends
      ensures Inv(Contents()) && innerClient < |places|
      ensures var outer := old(sends[call]).outer;
              var found := if InnerMapped(places[innerClient]) then Some(outer) else None;
              && sends == old(sends)[call := Done(outer, innerClient, payload, found)]
              && log == old(log) + [Sent(PartyOf(found, innerClient), payload)]
    {
      ghost var outer := sends[call].outer;
      var found := Lookup(innerToOuter, innerClient);
      log := log + [Sent(PartyOf(found, innerClient), payload)];
      sends := sends[call := Done(outer, innerClient, payload, found)];
      Reports(old(Contents()), innerClient, call);
    }

    method HandleDataReceived(innerClient: nat, payload: seq<byte>)
      requires Inv(Contents()) && innerClient < |places| && places[innerClient].Live?
      modifies this`log, this`places
      ensures Inv(Contents())
      ensures var outer := old(places[innerClient]).outer;
              && places == old(places)[innerClient := Live(outer, old(places[innerClient]).received + [payload])]
              && log == old(log) + [Data(Outer(outer), payload)]
    {
      ghost var place := places[innerClient];
      var found := Lookup(innerToOuter, innerClient);
      log := log + [Data(PartyOf(found, innerClient), payload)];
      places := places[innerClient := Live(place.outer, place.received + [payload])];
      Delivers(old(Contents()), innerClient, payload);
    }

    method HandleClientDisconnected(innerClient: nat, reason: string)
      requires Inv(Contents()) && innerClient < |places| && places[innerClient].Live?
      modifies this`outerToInner, this`innerToOuter, this`clientLocks, this`log, this`places
      ensures Inv(Contents()) && clientLocks == old(clientLocks) - {old(places[innerClient]).outer}
      ensures var outer := old(places[innerClient]).outer;
              && places == old(places)[innerClient := Gone(outer, old(places[innerClient]).received, reason)]
              && outerToInner == old(outerToInner) - {outer} && innerToOuter == old(innerToOuter) - {innerClient}
              && log == old(log) + [Disconnected(Outer(outer), reason)]
    {
      ghost var place := places[innerClient];
      var found := Lookup(innerToOuter, innerClient);
      innerToOuter := innerToOuter - {innerClient};
      if found.Some? {
        outerToInner := outerToInner - {found.value};
        clientLocks := clientLocks - {found.value};
      }
      log := log + [Disconnected(PartyOf(found, innerClient), reason)];
      places := places[innerClient := Gone(place.outer, place.received, reason)];
      Disconnects(old(Contents()), innerClient, reason);
    }
  }

  /** The steps of a connection, one after the other. */
  lemma Connects(s: State, t: nat)
    requires Inv(s) && t < |s.places| && s.places[t].Fresh?
    ensures Inv(State(s.outerToInner[s.created := t], s.innerToOuter[t := s.created], s.created + 1,
                      s.places[t := Live(s.created, [])], s.sends, s.log + [Connected(Outer(s.created))]))
  {
    var s1 := Stepped(s, Create(t));
    var s2 := Stepped(s1, Link(t));
    var s3 := Stepped(s2, Announce(t));
    assert s3.places == s.places[t := Live(s.created, [])];
  }

  lemma Delivers(s: State, t: nat, payload: seq<byte>)
    requires Inv(s) && t < |s.places| && s.places[t].Live?
    ensures t in s.innerToOuter && s.innerToOuter[t] == s.places[t].outer
    ensures Inv(s.(places := s.places[t := Live(s.places[t].outer, s.places[t].received + [payload])],
                   log := s.log + [Data(Outer(s.places[t].outer), payload)]))
  {
    assert Proper(s, t);
    var s1 := Stepped(s, Receive(t, payload));
    var s2 := Stepped(s1, Deliver(t));
    assert s2.places == s.places[t := Live(s.places[t].outer, s.places[t].received + [payload])];
  }

  lemma Reports(s: State, t: nat, i: nat)
    requires Inv(s) && i < |s.sends| && s.sends[i].Underway? && s.sends[i].inner == t
    ensures t < |s.places|
    ensures var found := Lookup(s.innerToOuter, t);
            && found == (if InnerMapped(s.places[t]) then Some(s.sends[i].outer) else None)
            && Inv(s.(sends := s.sends[i := Done(s.sends[i].outer, t, s.sends[i].payload, found)],
                      log := s.log + [Sent(PartyOf(found, t), s.sends[i].payload)]))
  {
    assert Addressed(s, s.sends[i]);
    assert Proper(s, t);
    var call, found := s.sends[i], Lookup(s.innerToOuter, t);
    var s1 := Stepped(s, Complete(t, i));
    var s2 := Stepped(s1, Report(t, i));
    assert s2.sends == s.sends[i := Done(call.outer, t, call.payload, found)];
  }

  lemma Disconnects(s: State, t: nat, reason: string)
    requires Inv(s) && t < |s.places| && s.places[t].Live?
    ensures t in s.innerToOuter && s.innerToOuter[t] == s.places[t].outer
    ensures Inv(s.(places := s.places[t := Gone(s.places[t].outer, s.places[t].received, reason)],
                   outerToInner := s.outerToInner - {s.places[t].outer}, innerToOuter := s.innerToOuter - {t},
                   log := s.log + [Disconnected(Outer(s.places[t].outer), reason)]))
  {
    assert Proper(s, t);
    var s1 := Stepped(s, Disconnect(t, reason));
    var s2 := Stepped(s1, Unlink(t));
    var s3 := Stepped(s2, Leave(t));
    assert s3.places == s.places[t := Gone(s.places[t].outer, s.places[t].received, reason)];
  }

  lemma Stepped(s: State, step: Step) returns (s': State)
    requires Inv(s) && Enabled(s, step)
    ensures s' == Next(s, step) && Inv(s')
  {
    s' := Next(s, step);
    InvStep(s, step);
  }
}
