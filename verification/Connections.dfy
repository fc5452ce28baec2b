/** The WebSocket connection manager: connections by id, and ids by client. The two indexes drift
    apart, but not in the direction that would lose a message. */
module Connections {
  import opened Wrappers

  type Socket = nat

  /** `last` remembers the client each connection id was last connected for, if it had one. */
  datatype Table = Table(active: map<string, Socket>, clients: map<string, set<string>>, last: map<string, string>)

  /** A client id that `if client_id` accepts. */
  predicate Given(client: Option<string>) {
    client.Some? && client.value != ""
  }

  function Connected(t: Table, socket: Socket, id: string, client: Option<string>): Table {
    Table(t.active[id := socket],
          if Given(client) then t.clients[client.value := Listed(t, client.value) + {id}] else t.clients,
          if Given(client) then t.last[id := client.value] else t.last - {id})
  }

  /** The ids listed for a client. */
  function Listed(t: Table, client: string): set<string> {
    if client in t.clients then t.clients[client] else {}
  }

  function Disconnected(t: Table, id: string, client: Option<string>): Table {
    Table(t.active - {id},
          if Given(client) && client.value in t.clients then
            if t.clients[client.value] - {id} == {} then t.clients - {client.value}
            else t.clients[client.value := t.clients[client.value] - {id}]
          else t.clients,
          t.last)
  }

  /** Several disconnects under one client. */
  function Pruned(t: Table, ids: seq<string>, client: Option<string>): Table {
    if ids == [] then t else Disconnected(Pruned(t, ids[..|ids| - 1], client), ids[|ids| - 1], client)
  }

  ghost predicate Consistent(t: Table) {
    && (forall c | c in t.clients :: t.clients[c] != {})
    && (forall id | id in t.active && id in t.last :: t.last[id] in t.clients && id in t.clients[t.last[id]])
  }

  lemma {:induction false} ConnectedConsistent(t: Table, socket: Socket, id: string, client: Option<string>)
    requires Consistent(t)
    ensures Consistent(Connected(t, socket, id, client))
  {
  }

  lemma {:induction false} DisconnectedConsistent(t: Table, id: string, client: Option<string>)
    requires Consistent(t)
    ensures Consistent(Disconnected(t, id, client))
  {
    var u := Disconnected(t, id, client);
    forall x | x in u.active && x in u.last ensures u.last[x] in u.clients && x in u.clients[u.last[x]] {
      assert x in t.clients[t.last[x]] && x != id;
    }
  }

  lemma {:induction false} PrunedConsistent(t: Table, ids: seq<string>, client: Option<string>)
    requires Consistent(t)
    ensures Consistent(Pruned(t, ids, client))
  {
    hide Consistent, Disconnected;
    if ids != [] {
      PrunedConsistent(t, ids[..|ids| - 1], client);
      DisconnectedConsistent(Pruned(t, ids[..|ids| - 1], client), ids[|ids| - 1], client);
    }
  }

  // ----- any sequence of operations -----

  /** Operations. Sends to several connections change the table at their end only, when they drop the ids whose
      sockets failed, whatever other operations came between their awaits; that end is the operation here. */
  datatype Op =
    | Connect(socket: Socket, id: string, client: Option<string>)
    | Disconnect(id: string, client: Option<string>)
    | SendPersonal(id: string, raised: bool)
    | SendClient(to: string, failed: seq<string>)
    | Broadcast(failed: seq<string>)

  function Step(t: Table, op: Op): Table {
    match op
    case Connect(socket, id, client) => Connected(t, socket, id, client)
    case Disconnect(id, client) => Disconnected(t, id, client)
    case SendPersonal(id, raised) => if id in t.active && raised then Disconnected(t, id, None) else t
    case SendClient(client, failed) => Pruned(t, failed, Some(client))
    case Broadcast(failed) => Pruned(t, failed, None)
  }

  function Run(t: Table, ops: seq<Op>): Table {
    if ops == [] then t else Step(Run(t, ops[..|ops| - 1]), ops[|ops| - 1])
  }

  /** In every sequence of operations no client set becomes empty, and every active connection stays listed
      under the client of its last connect. */
  lemma {:induction false} AlwaysConsistent(ops: seq<Op>)
    ensures Consistent(Run(Table(map[], map[], map[]), ops))
  {
    hide Connected, Disconnected, Pruned;
    if ops != [] {
      var t := Run(Table(map[], map[], map[]), ops[..|ops| - 1]);
      AlwaysConsistent(ops[..|ops| - 1]);
      hide Consistent;
      match ops[|ops| - 1]
      case Connect(socket, id, client) => ConnectedConsistent(t, socket, id, client);
      case Disconnect(id, client) => DisconnectedConsistent(t, id, client);
      case SendPersonal(id, failed) => DisconnectedConsistent(t, id, None);
      case SendClient(client, failed) => PrunedConsistent(t, failed, Some(client));
      case Broadcast(failed) => PrunedConsistent(t, failed, None);
    }
  }

  // ----- what the indexes mean in terms of what happened -----

  /** The socket of the last connect under `id`, unless the connection was dropped since. */
  function LiveSocket(ops: seq<Op>, id: string): Option<Socket> {
    if ops == [] then None
    else
      var before := ops[..|ops| - 1];
      match ops[|ops| - 1]
      case Connect(socket, x, _) => if x == id then Some(socket) else LiveSocket(before, id)
      case Disconnect(x, _) => if x == id then None else LiveSocket(before, id)
      case SendPersonal(x, raised) => if x == id && raised then None else LiveSocket(before, id)
      case SendClient(to, failed) => if id in failed then None else LiveSocket(before, id)
      case Broadcast(failed) => if id in failed then None else LiveSocket(before, id)
  }

  /** Whether `id` was connected for `client` and not dropped under that client's name since. */
  predicate ListedFor(ops: seq<Op>, client: string, id: string) {
    if ops == [] then false
    else
      var before := ops[..|ops| - 1];
      match ops[|ops| - 1]
      case Connect(_, x, c) => (x == id && c == Some(client) && client != "") || ListedFor(before, client, id)
      case Disconnect(x, c) => !(x == id && c == Some(client)) && ListedFor(before, client, id)
      case SendClient(to, failed) => !(to == client && id in failed) && ListedFor(before, client, id)
      case _ => ListedFor(before, client, id)
  }

  lemma {:induction false} PrunedActive(t: Table, ids: seq<string>, client: Option<string>, id: string)
    ensures id in Pruned(t, ids, client).active <==> id in t.active && id !in ids
    ensures id in Pruned(t, ids, client).active ==> Pruned(t, ids, client).active[id] == t.active[id]
  {
    if ids != [] {
      PrunedActive(t, ids[..|ids| - 1], client, id);
      assert ids == ids[..|ids| - 1] + [ids[|ids| - 1]];
    }
  }

  lemma {:induction false} ConnectedListed(t: Table, socket: Socket, x: string, c: Option<string>, client: string,
                                           id: string)
    ensures id in Listed(Connected(t, socket, x, c), client) <==>
      (x == id && Given(c) && c.value == client) || id in Listed(t, client)
  {
  }

  lemma {:induction false} DisconnectedListed(t: Table, x: string, c: Option<string>, client: string, id: string)
    ensures id in Listed(Disconnected(t, x, c), client) <==>
      id in Listed(t, client) && !(x == id && Given(c) && c.value == client)
  {
    if Given(c) && c.value in t.clients && t.clients[c.value] - {x} == {} {
      assert id in t.clients[c.value] ==> id == x by {
        assert id in t.clients[c.value] - {x} || id == x || id !in t.clients[c.value];
      }
    }
  }

  lemma {:induction false} NoEmptyClient(ops: seq<Op>)
    ensures "" !in Run(Table(map[], map[], map[]), ops).clients
  {
    if ops != [] {
      var before, op := ops[..|ops| - 1], ops[|ops| - 1];
      var t := Run(Table(map[], map[], map[]), before);
      NoEmptyClient(before);
      match op
      case SendClient(to, failed) => PrunedClients(t, failed, Some(to), "");
      case Broadcast(failed) => PrunedClients(t, failed, None, "");
      case _ =>
    }
  }

  lemma {:induction false} PrunedClients(t: Table, ids: seq<string>, client: Option<string>, c: string)
    requires c !in t.clients
    ensures c !in Pruned(t, ids, client).clients
  {
    if ids != [] {
      PrunedClients(t, ids[..|ids| - 1], client, c);
    }
  }

  lemma {:induction false} PrunedListed(t: Table, ids: seq<string>, client: Option<string>, c: string, id: string)
    ensures id in Listed(Pruned(t, ids, client), c) <==>
      id in Listed(t, c) && !(Given(client) && client.value == c && id in ids)
  {
    if ids != [] {
      PrunedListed(t, ids[..|ids| - 1], client, c, id);
      assert ids == ids[..|ids| - 1] + [ids[|ids| - 1]];
    }
  }

  /** The connection table is what the operations so far say, no more and no less. */
  lemma {:induction false} ActiveIsHistory(ops: seq<Op>, id: string)
    ensures var t := Run(Table(map[], map[], map[]), ops);
      LiveSocket(ops, id) == if id in t.active then Some(t.active[id]) else None
  {
    hide Pruned;
    if ops != [] {
      var before, op := ops[..|ops| - 1], ops[|ops| - 1];
      var t := Run(Table(map[], map[], map[]), before);
      ActiveIsHistory(before, id);
      match op
      case SendClient(to, failed) => PrunedActive(t, failed, Some(to), id);
      case Broadcast(failed) => PrunedActive(t, failed, None, id);
      case _ =>
    }
  }

  lemma {:induction false} ClientsAreHistory(ops: seq<Op>, client: string, id: string)
    ensures ListedFor(ops, client, id) <==> id in Listed(Run(Table(map[], map[], map[]), ops), client)
  {
    hide Pruned, Connected, Disconnected;
    if ops == [] {
    } else {
      var before, op := ops[..|ops| - 1], ops[|ops| - 1];
      var t := Run(Table(map[], map[], map[]), before);
      ClientsAreHistory(before, client, id);
      NoEmptyClient(before);
      match op
      case Connect(socket, x, c) => ConnectedListed(t, socket, x, c, client, id);
      case Disconnect(x, c) => DisconnectedListed(t, x, c, client, id);
      case SendPersonal(x, raised) => DisconnectedListed(t, x, None, client, id);
      case SendClient(to, failed) => PrunedListed(t, failed, Some(to), client, id);
      case Broadcast(failed) => PrunedListed(t, failed, None, client, id);
    }
  }

  /** Stale ids do remain: a connection that comes back for another client is still listed for the first. */
  lemma {:induction false} StaleIdRemains(socket: Socket, id: string, first: string, second: string)
    requires first != "" && second != "" && first != second
    ensures var t := Run(Table(map[], map[], map[]),
                         [Connect(socket, id, Some(first)), Connect(socket, id, Some(second))]);
      id in t.last && t.last[id] == second && id in Listed(t, first) && id in Listed(t, second)
  {
    var ops := [Connect(socket, id, Some(first)), Connect(socket, id, Some(second))];
    var t0 := Table(map[], map[], map[]);
    assert ops[..1] == [ops[0]] && ops[..1][..0] == [];
    assert Run(t0, []) == t0;
    assert Run(t0, ops[..1]) == Connected(t0, socket, id, Some(first));
  }

  /** A send drops by id, not by socket: a connection that comes back while a broadcast still waits for its old
      socket to fail is dropped with it, and stays listed for its client. */
  lemma {:induction false} ReconnectDropped(ops: seq<Op>, socket: Socket, id: string, client: string,
                                            failed: seq<string>)
    requires id in failed && client != ""
    ensures var t := Run(Table(map[], map[], map[]), ops + [Connect(socket, id, Some(client))] + [Broadcast(failed)]);
      id !in t.active && id in Listed(t, client)
  {
    hide Pruned, Connected, Listed;
    var back := ops + [Connect(socket, id, Some(client))];
    var all := back + [Broadcast(failed)];
    assert all[..|all| - 1] == back && back[..|back| - 1] == ops;
    ActiveIsHistory(all, id);
    ClientsAreHistory(all, client, id);
  }

  /** What a list of tries did: every id of `ids` once and nothing else. */
  ghost predicate EachOnce(tried: seq<string>, ids: set<string>) {
    && (forall id :: id in tried <==> id in ids)
    && forall i, j | 0 <= i < j < |tried| :: tried[i] != tried[j]
  }

  /** The ids of `tried` whose sockets fail. */
  function Failing(t: Table, tried: seq<string>, broken: set<Socket>): seq<string>
    requires forall id | id in tried :: id in t.active
  {
    if tried == [] then []
    else
      var last := tried[|tried| - 1];
      Failing(t, tried[..|tried| - 1], broken) + (if t.active[last] in broken then [last] else [])
  }

  /** After any operations, a message to a client tries every live connection whose last connect was for it. */
  lemma {:induction false} ClientMessageReaches(ops: seq<Op>, client: string, tried: seq<string>)
    requires var t := Run(Table(map[], map[], map[]), ops);
      EachOnce(tried, set x | x in Listed(t, client) && x in t.active)
    ensures var t := Run(Table(map[], map[], map[]), ops);
      forall id | id in t.active && id in t.last && t.last[id] == client :: id in tried
  {
    AlwaysConsistent(ops);
  }

  lemma {:induction false} FailingMembers(t: Table, tried: seq<string>, broken: set<Socket>, id: string)
    requires forall x | x in tried :: x in t.active
    ensures id in Failing(t, tried, broken) <==> id in tried && t.active[id] in broken
  {
    if tried != [] {
      var init := tried[..|tried| - 1];
      FailingMembers(t, init, broken, id);
      assert tried == init + [tried[|tried| - 1]];
    }
  }

  /** Of the connections tried, exactly those whose socket works are still active. */
  lemma {:induction false} BrokenDropped(t: Table, tried: seq<string>, broken: set<Socket>, client: Option<string>,
                                         id: string)
    requires (forall x | x in tried :: x in t.active) && id in t.active
    ensures id in Pruned(t, Failing(t, tried, broken), client).active <==> !(id in tried && t.active[id] in broken)
  {
    hide Failing, Pruned;
    FailingMembers(t, tried, broken, id);
    PrunedActive(t, Failing(t, tried, broken), client, id);
  }

  class ConnectionManager {
    var activeConnections: map<string, Socket>
    var clientConnections: map<string, set<string>>
    ghost var last: map<string, string>

    ghost function View(): Table
      reads this
    {
      Table(activeConnections, clientConnections, last)
    }

    constructor ()
      ensures View() == Table(map[], map[], map[])
    {
      activeConnections, clientConnections, last := map[], map[], map[];
    }

    method Connect(socket: Socket, id: string, client: Option<string>)
      modifies this
      ensures View() == Connected(old(View()), socket, id, client)
    {
      activeConnections := activeConnections[id := socket];
      if client.Some? && client.value != "" {
        if client.value !in clientConnections {
          clientConnections := clientConnections[client.value := {}];
        }
        clientConnections := clientConnections[client.value := clientConnections[client.value] + {id}];
        last := last[id := client.value];
      } else {
        last := last - {id};
      }
    }

    method Disconnect(id: string, client: Option<string>)
      modifies this
      ensures View() == Disconnected(old(View()), id, client)
    {
      if id in activeConnections {
        activeConnections := activeConnections - {id};
      }
      assert activeConnections == old(activeConnections) - {id};
      if client.Some? && client.value != "" && client.value in clientConnections {
        var rest := clientConnections[client.value] - {id};
        clientConnections := clientConnections[client.value := rest];
        if rest == {} {
          clientConnections := clientConnections - {client.value};
          assert clientConnections == old(clientConnections) - {client.value};
        }
      }
    }

    /** Disconnects collected ids one after another. */
    method Prune(ids: seq<string>, client: Option<string>)
      modifies this
      ensures View() == Pruned(old(View()), ids, client)
    {
      var i := 0;
      while i < |ids|
        invariant 0 <= i <= |ids| && View() == Pruned(old(View()), ids[..i], client)
      {
        assert ids[..i + 1][..i] == ids[..i];
        Disconnect(ids[i], client);
        i := i + 1;
      }
      assert ids[..i] == ids;
    }

    /** `broken` are the sockets whose `send_text` raises. */
    method SendPersonalMessage(id: string, broken: set<Socket>) returns (tried: bool)
      modifies this
      ensures tried == (id in old(activeConnections))
      ensures View() == Step(old(View()), SendPersonal(id, tried && old(activeConnections)[id] in broken))
    {
      tried := id in activeConnections;
      if tried {
        var socket := activeConnections[id];
        if socket in broken {
          Disconnect(id, None);
        }
      }
    }

    /** One send to each active connection among `ids`, in any order, remembering those that fail. */
    method SendEach(ids: set<string>, broken: set<Socket>) returns (tried: seq<string>, failed: seq<string>)
      ensures EachOnce(tried, set id | id in ids && id in activeConnections)
      ensures failed == Failing(View(), tried, broken)
    {
      tried, failed := [], [];
      var rest := ids;
      while rest != {}
        invariant rest <= ids
        invariant forall id :: id in tried <==> id in ids && id !in rest && id in activeConnections
        invariant forall i, j | 0 <= i < j < |tried| :: tried[i] != tried[j]
        invariant failed == Failing(View(), tried, broken)
        decreases |rest|
      {
        var id :| id in rest;
        if id in activeConnections {
          assert (tried + [id])[..|tried|] == tried;
          tried := tried + [id];
          if activeConnections[id] in broken {
            failed := failed + [id];
          }
        }
        rest := rest - {id};
      }
    }

    /** `send_client_message`: every listed connection that is active is tried once; then the failed ones go. */
    method SendClientMessage(client: string, broken: set<Socket>) returns (tried: seq<string>)
      modifies this
      ensures client !in old(clientConnections) ==> tried == [] && View() == old(View())
      ensures client in old(clientConnections) ==>
        && EachOnce(tried, set id | id in old(clientConnections)[client] && id in old(activeConnections))
        && View() == Step(old(View()), SendClient(client, Failing(old(View()), tried, broken)))
    {
      tried := [];
      if client in clientConnections {
        var failed;
        tried, failed := SendEach(clientConnections[client], broken);
        Prune(failed, Some(client));
      }
    }

    /** `broadcast`: every active connection is tried once; then the failed ones go. */
    method BroadcastMessage(broken: set<Socket>) returns (tried: seq<string>)
      modifies this
      ensures EachOnce(tried, old(activeConnections).Keys)
      ensures View() == Step(old(View()), Broadcast(Failing(old(View()), tried, broken)))
    {
      var failed;
      tried, failed := SendEach(activeConnections.Keys, broken);
      Prune(failed, None);
    }
  }
}
