/** Which client belongs to which user: the `user` field of every ClientInfo and the
    `ConnectedClients` set of every User, as values. The classes that hold them are in
    MembershipObjects. */
module Membership {
  import opened Wrappers

  datatype Members<C, U> = Members(
    userOf: map<C, U>,            // ClientInfo.user, kept after the client has gone
    connected: map<U, set<C>>,    // User.ConnectedClients
    attached: set<C>,             // connected and not yet disconnected
    limit: map<U, Option<int>>)   // User.SessionsLimit

  datatype Action<C, U> =
    | Connect(client: C)
    | TryAdd(client: C, user: U)
    | SetUser(client: C, user: U)
    | Exchange(client: C, user: U)
    | Disconnect(client: C)
    | SetLimit(user: U, sessions: Option<int>)

  /** Every reference is to a known user or client. */
  ghost predicate Known<C, U>(m: Members<C, U>) {
    && m.limit.Keys == m.connected.Keys
    && m.attached <= m.userOf.Keys
    && (forall c :: c in m.userOf ==> m.userOf[c] in m.connected)
    && (forall u :: u in m.connected ==> m.connected[u] <= m.userOf.Keys)
  }

  /** An attached client is in the set of its own user and in no other; a detached one is in none. */
  ghost predicate Partition<C, U>(m: Members<C, U>) {
    forall c, u :: c in m.userOf && u in m.connected ==>
                     (c in m.connected[u] <==> c in m.attached && m.userOf[c] == u)
  }

  /** Half of the partition, which holds even when detached clients come back. */
  ghost predicate Owned<C, U>(m: Members<C, U>) {
    forall u, c :: u in m.connected && c in m.connected[u] ==> c in m.userOf && m.userOf[c] == u
  }

  // ----- the operations -----

  /** A channel reports a new client, which starts on the anonymous user. */
  function AfterConnect<C, U(==)>(m: Members<C, U>, c: C, anonymous: U): Members<C, U>
    requires anonymous in m.connected
  {
    m.(userOf := m.userOf[c := anonymous],
       connected := m.connected[anonymous := m.connected[anonymous] + {c}],
       attached := m.attached + {c})
  }

  /** The `User` setter: out of the old user's set, into the new one's, then the field. */
  function AfterMove<C, U(==)>(m: Members<C, U>, c: C, u: U): Members<C, U>
    requires c in m.userOf && m.userOf[c] in m.connected && u in m.connected
  {
    var without := m.connected[m.userOf[c] := m.connected[m.userOf[c]] - {c}];
    m.(userOf := m.userOf[c := u], connected := without[u := without[u] + {c}])
  }

  function AfterExchange<C, U(==)>(m: Members<C, U>, c: C, u: U): Members<C, U>
    requires c in m.userOf && m.userOf[c] in m.connected && u in m.connected
  {
    if m.userOf[c] == u then m else AfterMove(m, c, u)
  }

  /** Whether one more session would exceed the user's limit. */
  predicate Full<C, U(==)>(m: Members<C, U>, u: U)
    requires u in m.connected && u in m.limit
  {
    m.limit[u].Some? && |m.connected[u]| + 1 > m.limit[u].value
  }

  function AfterTryAdd<C, U(==)>(m: Members<C, U>, c: C, u: U): (Members<C, U>, bool)
    requires c in m.userOf && m.userOf[c] in m.connected && u in m.connected && u in m.limit
  {
    if m.userOf[c] == u then (m, true)
    else if Full(m, u) then (m, false)
    else (AfterMove(m, c, u), true)
  }

  function AfterDisconnect<C, U(==)>(m: Members<C, U>, c: C): Members<C, U>
    requires c in m.userOf && m.userOf[c] in m.connected
  {
    m.(connected := m.connected[m.userOf[c] := m.connected[m.userOf[c]] - {c}],
       attached := m.attached - {c})
  }

  ghost predicate Enabled<C, U>(m: Members<C, U>, a: Action<C, U>, anonymous: U) {
    match a
    case Connect(c) => anonymous in m.connected && c !in m.userOf
    case TryAdd(c, u) => c in m.userOf && u in m.connected
    case SetUser(c, u) => c in m.userOf && u in m.connected
    case Exchange(c, u) => c in m.userOf && u in m.connected
    case Disconnect(c) => c in m.userOf
    case SetLimit(u, _) => u in m.connected
  }

  ghost function Next<C, U>(m: Members<C, U>, a: Action<C, U>, anonymous: U): Members<C, U>
    requires Known(m) && Enabled(m, a, anonymous)
  {
    match a
    case Connect(c) => AfterConnect(m, c, anonymous)
    case TryAdd(c, u) => AfterTryAdd(m, c, u).0
    case SetUser(c, u) => AfterMove(m, c, u)
    case Exchange(c, u) => AfterExchange(m, c, u)
    case Disconnect(c) => AfterDisconnect(m, c)
    case SetLimit(u, sessions) => m.(limit := m.limit[u := sessions])
  }

  /** A run: every action is one the program could take in the state it finds. */
  ghost predicate IsRun<C, U>(run: seq<Members<C, U>>, actions: seq<Action<C, U>>, anonymous: U) {
    && |run| == |actions| + 1
    && (forall i :: 0 <= i < |run| ==> Known(run[i]))
    && (forall i :: 0 <= i < |actions| ==>
                      Enabled(run[i], actions[i], anonymous) && run[i + 1] == Next(run[i], actions[i], anonymous))
  }

  // ----- the partition -----

  /** The action does not put a client that has already disconnected onto a user. */
  ghost predicate KeepsDetachedOut<C, U>(m: Members<C, U>, a: Action<C, U>)
    requires Known(m)
  {
    match a
    case TryAdd(c, u) => c in m.attached || c !in m.userOf || u !in m.connected || m.userOf[c] == u || Full(m, u)
    case SetUser(c, u) => c in m.attached
    case Exchange(c, u) => c in m.attached || (c in m.userOf && m.userOf[c] == u)
    case _ => true
  }

  lemma KnownNext<C, U>(m: Members<C, U>, a: Action<C, U>, anonymous: U)
    requires Known(m) && Enabled(m, a, anonymous)
    ensures Known(Next(m, a, anonymous))
    ensures Next(m, a, anonymous).connected.Keys == m.connected.Keys
    ensures m.userOf.Keys <= Next(m, a, anonymous).userOf.Keys
    ensures Owned(m) ==> Owned(Next(m, a, anonymous))
  {
  }

  /** One action keeps the partition exactly when it keeps detached clients out. */
  lemma PartitionExact<C, U>(m: Members<C, U>, a: Action<C, U>, anonymous: U)
    requires Known(m) && Partition(m) && Enabled(m, a, anonymous)
    ensures Partition(Next(m, a, anonymous)) <==> KeepsDetachedOut(m, a)
  {
    var m' := Next(m, a, anonymous);
    if !KeepsDetachedOut(m, a) {
      assert a.client in m'.connected[a.user] && a.client !in m'.attached;
    } else {
      forall c, u | c in m'.userOf && u in m'.connected
        ensures c in m'.connected[u] <==> c in m'.attached && m'.userOf[c] == u
      {
      }
    }
  }

  /** Along every run in which no detached client changes user, the partition holds throughout. */
  lemma {:induction false} PartitionAlongRuns<C, U>(
      run: seq<Members<C, U>>, actions: seq<Action<C, U>>, anonymous: U, n: nat)
    requires IsRun(run, actions, anonymous) && Partition(run[0])
    requires forall i :: 0 <= i < |actions| ==> KeepsDetachedOut(run[i], actions[i])
    requires n < |run|
    ensures Partition(run[n])
  {
    if n > 0 {
      PartitionAlongRuns(run, actions, anonymous, n - 1);
      PartitionExact(run[n - 1], actions[n - 1], anonymous);
    }
  }

  // ----- the session limit -----

  /** A negative limit admits nobody, so it counts as zero. */
  ghost predicate WithinLimit<C, U>(m: Members<C, U>, u: U)
    requires u in m.connected && u in m.limit
  {
    m.limit[u].Some? ==> |m.connected[u]| <= if m.limit[u].value < 0 then 0 else m.limit[u].value
  }

  /** The action reaches `u` through TryAddClient only, and does not lower its limit below its sessions. */
  ghost predicate RespectsLimit<C, U>(m: Members<C, U>, a: Action<C, U>, anonymous: U, u: U)
    requires Known(m)
  {
    match a
    case Connect(c) => u != anonymous
    case SetUser(c, v) => u != v
    case Exchange(c, v) => u != v || (c in m.userOf && m.userOf[c] == v)
    case SetLimit(v, sessions) => u == v && u in m.connected ==> WithinLimit(m.(limit := m.limit[v := sessions]), u)
    case _ => true
  }

  lemma WithinLimitStep<C, U>(m: Members<C, U>, a: Action<C, U>, anonymous: U, u: U)
    requires Known(m) && Enabled(m, a, anonymous) && u in m.connected
    requires WithinLimit(m, u) && RespectsLimit(m, a, anonymous, u)
    ensures u in Next(m, a, anonymous).connected
    ensures WithinLimit(Next(m, a, anonymous), u)
  {
    var m' := Next(m, a, anonymous);
    if a.TryAdd? && a.user == u && m.userOf[a.client] != u && !Full(m, u) {
      assert |m'.connected[u]| <= |m.connected[u]| + 1;
    } else if !a.SetLimit? {
      assert m'.connected[u] <= m.connected[u];
      Smaller(m'.connected[u], m.connected[u]);
    }
  }

  lemma {:induction false} Smaller<C>(a: set<C>, b: set<C>)
    requires a <= b
    ensures |a| <= |b|
  {
    assert b == a + (b - a);
  }

  /** In every run whose only way onto a user is TryAddClient, its sessions never exceed its limit. */
  lemma {:induction false} SessionLimitAlongRuns<C, U>(
      run: seq<Members<C, U>>, actions: seq<Action<C, U>>, anonymous: U, u: U, n: nat)
    requires IsRun(run, actions, anonymous) && u in run[0].connected && WithinLimit(run[0], u)
    requires forall i :: 0 <= i < |actions| ==> RespectsLimit(run[i], actions[i], anonymous, u)
    requires n < |run|
    ensures u in run[n].connected && WithinLimit(run[n], u)
  {
    if n > 0 {
      SessionLimitAlongRuns(run, actions, anonymous, u, n - 1);
      WithinLimitStep(run[n - 1], actions[n - 1], anonymous, u);
    }
  }

  /** A login is refused exactly when the client does not belong to the user yet and the user is full; a
      refusal changes nothing, a success makes the client the user's, and a second login changes nothing
      more. Only a client that did not belong to the user adds a session, detached or not. */
  lemma LoginOutcome<C, U>(m: Members<C, U>, c: C, u: U)
    requires Known(m) && Owned(m) && c in m.userOf && u in m.connected
    ensures var (m', ok) := AfterTryAdd(m, c, u);
            && (!ok <==> m.userOf[c] != u && Full(m, u))
            && (!ok || m.userOf[c] == u ==> m' == m)
            && (ok ==> m'.userOf == m.userOf[c := u])
            && (ok && m.userOf[c] != u ==> m'.connected[u] == m.connected[u] + {c}
                                           && |m'.connected[u]| == |m.connected[u]| + 1
                                           && m'.connected[m.userOf[c]] == m.connected[m.userOf[c]] - {c})
            && (forall v :: v in m.connected && v != u && v != m.userOf[c] ==> m'.connected[v] == m.connected[v])
            && (ok ==> AfterTryAdd(m', c, u) == (m', true))
  {
    var (m', ok) := AfterTryAdd(m, c, u);
    if ok && m.userOf[c] == u {
      assert m'.userOf == m.userOf[c := u];
    }
  }

  // ----- what a login counts -----

  /** A login of a client that is not on the user succeeds if and only if the user has no limit or fewer
      sessions than that. */
  lemma LoginExact<C, U>(m: Members<C, U>, c: C, u: U)
    requires Known(m) && Owned(m) && c in m.userOf && u in m.connected && m.userOf[c] != u
    ensures AfterTryAdd(m, c, u).1 <==> m.limit[u] == None || |m.connected[u]| < m.limit[u].value
    ensures var m' := AfterTryAdd(m, c, u).0;
            if m.limit[u] == None || |m.connected[u]| < m.limit[u].value
            then m'.userOf == m.userOf[c := u] && m'.connected[u] == m.connected[u] + {c}
            else m' == m
  {
  }

  /** Logins one after the other. */
  function AfterLogins<C(==), U(==)>(m: Members<C, U>, clients: seq<C>, u: U): Members<C, U>
    requires forall c :: c in m.userOf ==> m.userOf[c] in m.connected
    requires u in m.connected && u in m.limit && forall c :: c in clients ==> c in m.userOf
    ensures var m' := AfterLogins(m, clients, u);
            && m'.userOf.Keys == m.userOf.Keys && m'.connected.Keys == m.connected.Keys && m'.limit == m.limit
            && (forall c :: c in m'.userOf ==> m'.userOf[c] in m'.connected)
  {
    if clients == [] then m
    else AfterTryAdd(AfterLogins(m, clients[..|clients| - 1], u), clients[|clients| - 1], u).0
  }

  /** The first clients are on the user, as many as the limit says, and nobody else is; the others are
      where they were. */
  ghost predicate Served<C, U>(m: Members<C, U>, m': Members<C, U>, clients: seq<C>, u: U, limit: nat)
    requires u in m'.connected && m.userOf.Keys == m'.userOf.Keys
  {
    var first := if |clients| < limit then clients else clients[..limit];
    && m'.connected[u] == (set c | c in first) && |m'.connected[u]| == |first|
    && (forall c :: c in m.userOf ==> m'.userOf[c] == if c in first then u else m.userOf[c])
  }

  /** Of different clients that log in to an empty user the first ones get in, as many as the limit says,
      and the others stay where they were. */
  lemma {:induction false} FirstComeFirstServed<C, U>(m: Members<C, U>, clients: seq<C>, u: U, limit: nat)
    requires Known(m) && u in m.connected && m.connected[u] == {} && m.limit[u] == Some(limit)
    requires forall i :: 0 <= i < |clients| ==> clients[i] in m.userOf && m.userOf[clients[i]] != u
    requires forall i, j :: 0 <= i < j < |clients| ==> clients[i] != clients[j]
    ensures Served(m, AfterLogins(m, clients, u), clients, u, limit)
  {
    if clients != [] {
      var n := |clients| - 1;
      var before := AfterLogins(m, clients[..n], u);
      FirstComeFirstServed(m, clients[..n], u, limit);
      assert forall i :: 0 <= i < n ==> clients[..n][i] == clients[i];
      NextServed(m, before, clients, u, limit);
    }
  }

  lemma {:induction false} NextServed<C, U>(m: Members<C, U>, before: Members<C, U>, clients: seq<C>, u: U, limit: nat)
    requires clients != [] && forall i :: 0 <= i < |clients| ==> clients[i] in m.userOf && m.userOf[clients[i]] != u
    requires forall i, j :: 0 <= i < j < |clients| ==> clients[i] != clients[j]
    requires u in before.connected && u in before.limit && before.limit[u] == Some(limit)
    requires m.userOf.Keys == before.userOf.Keys
    requires forall c :: c in before.userOf ==> before.userOf[c] in before.connected
    requires Served(m, before, clients[..|clients| - 1], u, limit)
    ensures Served(m, AfterTryAdd(before, clients[|clients| - 1], u).0, clients, u, limit)
  {
    var n := |clients| - 1;
    var c := clients[n];
    if n < limit {
      assert n < limit && c !in clients[..n];
      var first := if n + 1 < limit then clients else clients[..limit];
      assert first == clients && clients == clients[..n] + [c];
      assert before.userOf[c] != u && !Full(before, u);
    } else {
      assert clients[..n][..limit] == clients[..limit] && c !in clients[..limit];
    }
  }

  /** Whom an action moves, user by user: a connection adds the client to the anonymous user's sessions, a
      disconnection takes it off its user's, and a move does both; nobody else's sessions change. */
  lemma SessionsMove<C, U>(m: Members<C, U>, c: C, u: U, v: U)
    requires Known(m) && c in m.userOf && u in m.connected && v in m.connected
    ensures AfterConnect(m, c, u).connected[v] == if v == u then m.connected[v] + {c} else m.connected[v]
    ensures AfterConnect(m, c, u).userOf[c] == u && c in AfterConnect(m, c, u).attached
    ensures AfterDisconnect(m, c).connected[v] == if v == m.userOf[c] then m.connected[v] - {c} else m.connected[v]
    ensures AfterDisconnect(m, c).userOf == m.userOf && AfterDisconnect(m, c).attached == m.attached - {c}
    ensures AfterMove(m, c, u).connected[v]
            == if v == u then m.connected[v] + {c}
               else if v == m.userOf[c] then m.connected[v] - {c} else m.connected[v]
    ensures AfterMove(m, c, u).userOf[c] == u && AfterMove(m, c, u).attached == m.attached
    ensures AfterExchange(m, c, u) == if m.userOf[c] == u then m else AfterMove(m, c, u)
  {
  }
}
