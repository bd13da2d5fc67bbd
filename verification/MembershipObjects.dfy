/** The objects that hold the membership: users, clients and the server that connects them. Every
    method is proved against the value-level operation of Membership. */
module MembershipObjects {
  import opened Int32
  import opened Membership
  import opened Wrappers

  class User {
    const name: string
    var voteMultiplier: int32
    var apiKey: string
    var sessionsLimit: Option<int>
    var connectedClients: set<ClientInfo>

    constructor (name: string, apiKey: string, voteMultiplier: int32, sessionsLimit: Option<int>)
      ensures this.voteMultiplier == voteMultiplier && this.sessionsLimit == sessionsLimit && connectedClients == {}
    {
      this.name := name;
      this.apiKey := apiKey;
      this.voteMultiplier := voteMultiplier;
      this.sessionsLimit := sessionsLimit;
      connectedClients := {};
    }

    /** Puts the client on this user unless that would exceed the limit. */
    method TryAddClient(client: ClientInfo, ghost server: VotingServer) returns (ok: bool)
      requires server.Valid() && client in server.known && this in server.users
      modifies client, server.users`connectedClients
      ensures server.Valid()
      ensures (server.Contents(), ok) == AfterTryAdd(old(server.Contents()), client, this)
    {
      if client.user == this {
        return true;
      }
      if sessionsLimit.Some? && |connectedClients| + 1 > sessionsLimit.value {
        return false;
      }
      client.SetUser(this, server);
      return true;
    }

    /** Overwrites the three settings and reports the changes that raise events. */
    method Set(apiKey: string, voteMultiplier: int32, sessionsLimit: Option<int>)
      returns (keys: Option<(string, string)>, multipliers: Option<(int32, int32)>,
          limits: Option<(Option<int>, Option<int>)>)
      modifies this`apiKey, this`voteMultiplier, this`sessionsLimit
      ensures this.apiKey == apiKey && this.voteMultiplier == voteMultiplier && this.sessionsLimit == sessionsLimit
      ensures keys == if old(this.apiKey) == apiKey then None else Some((old(this.apiKey), apiKey))
      ensures multipliers == if old(this.voteMultiplier) == voteMultiplier then None
                             else Some((old(this.voteMultiplier), voteMultiplier))
      ensures limits == if old(this.sessionsLimit) == sessionsLimit then None
                        else Some((old(this.sessionsLimit), sessionsLimit))
    {
      keys, multipliers, limits := None, None, None;
      var originalApiKey, originalMultiplier, originalLimit := this.apiKey, this.voteMultiplier, this.sessionsLimit;
      this.apiKey := apiKey;
      this.voteMultiplier := voteMultiplier;
      this.sessionsLimit := sessionsLimit;
      if originalApiKey != apiKey {
        keys := Some((originalApiKey, apiKey));
      }
      if originalMultiplier != voteMultiplier {
        multipliers := Some((originalMultiplier, voteMultiplier));
      }
      if originalLimit != sessionsLimit {
        limits := Some((originalLimit, sessionsLimit));
      }
    }

    /** Changes the multiplier and reports the change that the event carries, if there is one. */
    method SetVoteMultiplier(value: int32) returns (original: int32, changed: bool)
      modifies this`voteMultiplier
      ensures voteMultiplier == value && original == old(voteMultiplier)
      ensures changed <==> original != value
    {
      original := voteMultiplier;
      voteMultiplier := value;
      changed := original != value;
    }
  }

  class ClientInfo {
    var user: User

    constructor (user: User)
      ensures this.user == user
    {
      this.user := user;
    }

    /** The `User` property setter. */
    method SetUser(value: User, ghost server: VotingServer)
      requires server.Valid() && this in server.known && value in server.users
      modifies this, server.users`connectedClients
      ensures server.Valid()
      ensures server.Contents() == AfterMove(old(server.Contents()), this, value)
    {
      user.connectedClients := user.connectedClients - {this};
      value.connectedClients := value.connectedClients + {this};
      user := value;
      server.Moved(this, value);
    }

    method ExchangeUser(value: User, ghost server: VotingServer) returns (previous: User)
      requires server.Valid() && this in server.known && value in server.users
      modifies this, server.users`connectedClients
      ensures server.Valid() && previous == old(user)
      ensures server.Contents() == AfterExchange(old(server.Contents()), this, value)
    {
      previous := user;
      if user == value {
        return;
      }
      user.connectedClients := user.connectedClients - {this};
      value.connectedClients := value.connectedClients + {this};
      user := value;
      server.Moved(this, value);
    }
  }

  class VotingServer {
    const anonymous: User
    var users: set<User>
    var clients: set<ClientInfo>        // the values of _clients
    ghost var known: set<ClientInfo>    // every client that ever connected

    ghost function Contents(): Members<ClientInfo, User>
      reads this, users, known
    {
      Members(map c | c in known :: c.user, map u | u in users :: u.connectedClients,
              clients, map u | u in users :: u.sessionsLimit)
    }

    ghost predicate Valid()
      reads this, users, known
      ensures Valid() ==> Known(Contents())
    {
      && anonymous in users && clients <= known
      && (forall c :: c in known ==> c.user in users)
      && (forall u :: u in users ==> u.connectedClients <= known)
    }

    /** Nothing that Contents shows has been written, nor any multiplier. */
    twostate predicate Untouched()
      reads this, users, known
    {
      && users == old(users) && known == old(known) && clients == old(clients)
      && (forall c :: c in known ==> c.user == old(c.user))
      && (forall u :: u in users ==>
           u.connectedClients == old(u.connectedClients) && u.sessionsLimit == old(u.sessionsLimit)
           && u.voteMultiplier == old(u.voteMultiplier))
    }

    /** What a move writes, seen through the abstraction. */
    twostate predicate MovedTo(client: ClientInfo, new value: User)
      requires client in old(known) && value in old(users)
      reads this, users, known
    {
      && users == old(users) && known == old(known) && clients == old(clients)
      && client.user == value && (forall c :: c in known && c != client ==> c.user == old(c.user))
      && (forall u :: u in users ==> u.sessionsLimit == old(u.sessionsLimit))
      && (forall u :: u in users ==> u.connectedClients == (if u == value then old(u.connectedClients) + {client}
                                                            else if u == old(client.user)
                                                                then old(u.connectedClients) - {client}
                                                            else old(u.connectedClients)))
    }

    twostate lemma MovedConnected(client: ClientInfo, new value: User)
      requires old(Valid()) && client in old(known) && value in old(users) && MovedTo(client, value)
      ensures Contents().connected == AfterMove(old(Contents()), client, value).connected
    {
      var before, now := old(Contents()).connected, Contents().connected;
      var after := AfterMove(old(Contents()), client, value).connected;
      forall u | u in users ensures now[u] == after[u] {
        assert before[u] == old(u.connectedClients) && now[u] == u.connectedClients;
      }
    }

    twostate lemma MovedValid(client: ClientInfo, new value: User)
      requires old(Valid()) && client in old(known) && value in old(users) && MovedTo(client, value)
      ensures Valid()
    {
    }

    twostate lemma Moved(client: ClientInfo, new value: User)
      requires old(Valid()) && client in old(known) && value in old(users) && MovedTo(client, value)
      ensures Valid() && Contents() == AfterMove(old(Contents()), client, value)
    {
      MovedValid(client, value);
      MovedConnected(client, value);
      MovedRest(client, value);
    }

    twostate lemma MovedRest(client: ClientInfo, new value: User)
      requires old(Valid()) && client in old(known) && value in old(users) && MovedTo(client, value)
      ensures Contents().userOf == old(Contents()).userOf[client := value]
      ensures Contents().limit == old(Contents()).limit && Contents().attached == old(Contents()).attached
    {
    }

    constructor (anonymous: User, users: set<User>)
      requires anonymous in users
      requires forall u :: u in users ==> u.connectedClients == {}
      ensures Valid() && this.anonymous == anonymous && this.users == users
      ensures known == {} && clients == {} && Partition(Contents())
    {
      this.anonymous := anonymous;
      this.users := users;
      clients := {};
      known := {};
    }

    method HandleClientConnected(client: ClientInfo)
      requires Valid() && client !in known && client.user == anonymous
      modifies this`clients, this`known, anonymous`connectedClients
      ensures Valid()
      ensures Contents() == AfterConnect(old(Contents()), client, anonymous)
    {
      client.user.connectedClients := client.user.connectedClients + {client};
      clients := clients + {client};
      known := known + {client};
      Connected(client);
    }

    /** What a connection writes, seen through the abstraction. */
    twostate predicate Joined(client: ClientInfo)
      reads this, users, known
    {
      && users == old(users) && known == old(known) + {client} && clients == old(clients) + {client}
      && client.user == anonymous && (forall c :: c in old(known) ==> c.user == old(c.user))
      && (forall u :: u in users ==> u.sessionsLimit == old(u.sessionsLimit))
      && (forall u :: u in users ==>
            u.connectedClients
            == if u == anonymous then old(u.connectedClients) + {client} else old(u.connectedClients))
    }

    twostate lemma Connected(client: ClientInfo)
      requires old(Valid()) && client !in old(known) && Joined(client)
      ensures Valid() && Contents() == AfterConnect(old(Contents()), client, anonymous)
    {
      ConnectedUsers(client);
      ConnectedRest(client);
    }

    twostate lemma ConnectedUsers(client: ClientInfo)
      requires old(Valid()) && client !in old(known) && Joined(client)
      ensures Contents().connected == AfterConnect(old(Contents()), client, anonymous).connected
      ensures Valid()
    {
    }

    twostate lemma ConnectedRest(client: ClientInfo)
      requires old(Valid()) && client !in old(known) && Joined(client)
      ensures Contents().userOf == old(Contents()).userOf[client := anonymous]
      ensures Contents().limit == old(Contents()).limit
    {
    }

    method HandleClientDisconnected(client: ClientInfo)
      requires Valid() && client in known
      modifies this`clients, client.user`connectedClients
      ensures Valid()
      ensures Contents() == AfterDisconnect(old(Contents()), client)
    {
      client.user.connectedClients := client.user.connectedClients - {client};
      clients := clients - {client};
    }
  }
}
