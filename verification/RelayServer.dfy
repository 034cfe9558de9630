/** The relay's registry: connections, the route table, and what each connection has been told. */
module RelayServer {
  import opened Options

  type DeviceId = string

  datatype Info = Info(name: string, host: string, port: nat, addrs: seq<string>)

  /** Events pushed to a connection. */
  datatype Event = Online(id: DeviceId, info: Info) | Offline(id: DeviceId)

  /** One connection: its device (empty while none), that device's record, everything sent to it, and
      how much had been sent when it last took its route. */
  datatype Client = Client(deviceId: DeviceId, info: Info, log: seq<Event>, mark: nat)

  type Clients = map<nat, Client>
  type Routes = map<DeviceId, nat>

  datatype Relay = Relay(clients: Clients, routes: Routes, nextId: nat)

  /** A client's message as far as it is read; absent fields are `None`. */
  datatype Message = Message(deviceId: string, op: string, name: Option<string>, host: Option<string>,
                             port: Option<int>, addrs: seq<string>)

  const NO_INFO: Info := Info("", "", 0, [])

  function InfoOf(m: Message): Info {
    Info(if m.name.Some? then m.name.value else m.deviceId,
         if m.host.Some? then m.host.value else "",
         if m.port.Some? && 0 <= m.port.value <= 65535 then m.port.value else 0,
         m.addrs)
  }

  predicate IsRegistration(m: Message) {
    m.deviceId != "" && (m.op == "" || m.op == "register")
  }

  // ---------- the operations ----------

  /** Every registered connection but one is sent an event. */
  function Broadcast(clients: Clients, but: nat, e: Event): Clients {
    map c | c in clients ::
      if c != but && clients[c].deviceId != "" then clients[c].(log := clients[c].log + [e]) else clients[c]
  }

  /** What is replayed for route `id`: the record of the connection that holds it, under the device that
      connection now claims. */
  function Replayed(clients: Clients, routes: Routes, id: DeviceId): seq<Event> {
    if id in routes && routes[id] in clients && clients[routes[id]].deviceId != ""
    then [Online(clients[routes[id]].deviceId, clients[routes[id]].info)] else []
  }

  function Replay(clients: Clients, routes: Routes, d: DeviceId, order: seq<DeviceId>): seq<Event> {
    if order == [] then []
    else (if order[0] == d then [] else Replayed(clients, routes, order[0])) + Replay(clients, routes, d, order[1..])
  }

  /** The previous holder of a device's route gives way. */
  function Displace(clients: Clients, routes: Routes, d: DeviceId, c: nat): Clients {
    if d in routes && routes[d] != c && routes[d] in clients
    then clients[routes[d] := clients[routes[d]].(deviceId := "")] else clients
  }

  predicate Enumerates(order: seq<DeviceId>, routes: Routes) {
    && (forall d <- order :: d in routes)
    && (forall d <- routes :: d in order)
  }

  /** The registering connection takes the device over; its count of what it was sent before that is
      kept only if it held the device already. */
  function Claimed(r: Relay, c: nat, d: DeviceId, info: Info): Clients
    requires c in r.clients
  {
    var displaced := Displace(r.clients, r.routes, d, c);
    var was := displaced[c];
    displaced[c := Client(d, info, was.log, if was.deviceId == d then was.mark else |was.log|)]
  }

  function Told(clients: Clients, c: nat, es: seq<Event>): Clients
    requires c in clients
  {
    clients[c := clients[c].(log := clients[c].log + es)]
  }

  /** Connection `c` registers device `d`; `order` is the order in which the route table is walked. */
  function Registered(r: Relay, c: nat, d: DeviceId, info: Info, order: seq<DeviceId>): Relay {
    if c !in r.clients then r else
    var claimed := Claimed(r, c, d, info);
    var told := Told(claimed, c, Replay(claimed, r.routes, d, order));
    Relay(Broadcast(told, c, Online(d, info)), r.routes[d := c], r.nextId)
  }

  function Connected(r: Relay): Relay {
    Relay(r.clients[r.nextId := Client("", NO_INFO, [], 0)], r.routes, r.nextId + 1)
  }

  function Closed(r: Relay, c: nat): Relay {
    if c !in r.clients then r else
    var d := r.clients[c].deviceId;
    var clients := r.clients - {c};
    if d != "" && d in r.routes && r.routes[d] == c
    then Relay(Broadcast(clients, c, Offline(d)), r.routes - {d}, r.nextId)
    else r.(clients := clients)
  }

  function Heard(r: Relay, c: nat, m: Message, order: seq<DeviceId>): Relay {
    if IsRegistration(m) then Registered(r, c, m.deviceId, InfoOf(m), order) else r
  }

  lemma TellNothing(clients: Clients, c: nat)
    requires c in clients
    ensures Told(clients, c, []) == clients
  {
    assert clients[c].log + [] == clients[c].log;
  }

  lemma TellMore(clients: Clients, c: nat, a: seq<Event>, b: seq<Event>)
    requires c in clients
    ensures Told(Told(clients, c, a), c, b) == Told(clients, c, a + b)
  {
    assert clients[c].log + a + b == clients[c].log + (a + b);
  }

  /** After `i` entries of the table, `told` has been sent and the replay of the rest is to come. */
  ghost predicate ReplayFrom(
      clients: Clients, routes: Routes, d: DeviceId, order: seq<DeviceId>, i: nat, told: seq<Event>)
    requires i <= |order|
  {
    told + Replay(clients, routes, d, order[i..]) == Replay(clients, routes, d, order)
  }

  lemma ReplayStart(clients: Clients, routes: Routes, d: DeviceId, order: seq<DeviceId>)
    ensures ReplayFrom(clients, routes, d, order, 0, [])
  {
    assert order[0..] == order;
  }

  lemma ReplayStep(clients: Clients, routes: Routes, d: DeviceId, order: seq<DeviceId>, i: nat, told: seq<Event>)
    requires i < |order| && ReplayFrom(clients, routes, d, order, i, told)
    ensures
      var more := if order[i] == d then told else told + Replayed(clients, routes, order[i]);
      ReplayFrom(clients, routes, d, order, i + 1, more)
  {
    assert order[i..][1..] == order[i + 1..];
  }

  lemma ReplayDone(clients: Clients, routes: Routes, d: DeviceId, order: seq<DeviceId>, told: seq<Event>)
    requires ReplayFrom(clients, routes, d, order, |order|, told)
    ensures told == Replay(clients, routes, d, order)
  {
    assert order[|order|..] == [];
  }

  // ---------- the server object ----------

  class RelayServer {
    var clients: Clients
    var routes: Routes
    var nextId: nat

    function View(): Relay
      reads this
    {
      Relay(clients, routes, nextId)
    }

    constructor ()
      ensures View() == Relay(map[], map[], 1)
    {
      clients, routes, nextId := map[], map[], 1;
    }

    method OnConnected()
      modifies this
      ensures View() == Connected(old(View()))
    {
      clients := clients[nextId := Client("", NO_INFO, [], 0)];
      nextId := nextId + 1;
    }

    method Send(c: nat, e: Event)
      modifies this`clients
      ensures clients == if c in old(clients) then Told(old(clients), c, [e]) else old(clients)
    {
      if c in clients {
        clients := clients[c := clients[c].(log := clients[c].log + [e])];
      }
    }

    method BroadcastExcept(but: nat, e: Event)
      modifies this`clients
      ensures clients == Broadcast(old(clients), but, e)
    {
      ghost var before := clients;
      var todo := clients.Keys;
      while todo != {}
        invariant todo <= clients.Keys == before.Keys
        invariant forall c <- before :: clients[c] == if c in todo then before[c] else Broadcast(before, but, e)[c]
        decreases todo
      {
        var c :| c in todo;
        todo := todo - {c};
        if c != but && clients[c].deviceId != "" {
          Send(c, e);
        }
      }
    }

    /** Tells connection `c` about the device routed under `id`, if that route's holder is registered. */
    method SendPeerOnline(c: nat, id: DeviceId)
      requires c in clients
      modifies this`clients
      ensures clients == Told(old(clients), c, Replayed(old(clients), routes, id))
    {
      if id in routes && routes[id] in clients && clients[routes[id]].deviceId != "" {
        Send(c, Online(clients[routes[id]].deviceId, clients[routes[id]].info));
      } else {
        assert clients[c].log + [] == clients[c].log;
      }
    }

    /** Tells connection `c` about every other device of the route table. */
    method ReplayRoster(c: nat, d: DeviceId, order: seq<DeviceId>)
      requires c in clients
      modifies this`clients
      ensures clients == Told(old(clients), c, Replay(old(clients), routes, d, order))
    {
      ghost var before := clients;
      ghost var told: seq<Event> := [];
      ReplayStart(before, routes, d, order);
      TellNothing(before, c);
      for i := 0 to |order|
        invariant clients == Told(before, c, told)
        invariant ReplayFrom(before, routes, d, order, i, told)
      {
        ReplayStep(before, routes, d, order, i, told);
        if order[i] != d {
          assert Replayed(clients, routes, order[i]) == Replayed(before, routes, order[i]);
          TellMore(before, c, told, Replayed(before, routes, order[i]));
          SendPeerOnline(c, order[i]);
          told := told + Replayed(before, routes, order[i]);
        }
      }
      ReplayDone(before, routes, d, order, told);
    }

    method Register(c: nat, d: DeviceId, info: Info, order: seq<DeviceId>)
      requires Enumerates(order, routes)
      modifies this
      ensures View() == Registered(old(View()), c, d, info, order)
    {
      if c !in clients { return; }
      if d in routes && routes[d] != c {
        if routes[d] in clients {
          clients := clients[routes[d] := clients[routes[d]].(deviceId := "")];
        }
      }
      assert clients == Displace(old(clients), routes, d, c);
      if clients[c].deviceId != d {
        clients := clients[c := clients[c].(mark := |clients[c].log|)];
      }
      clients := clients[c := clients[c].(deviceId := d, info := info)];
      assert clients == Claimed(old(View()), c, d, info);
      ReplayRoster(c, d, order);
      routes := routes[d := c];
      BroadcastExcept(c, Online(d, info));
    }

    method OnClientMessage(c: nat, m: Message, order: seq<DeviceId>)
      requires Enumerates(order, routes)
      modifies this
      ensures View() == if c in old(clients) then Heard(old(View()), c, m, order) else old(View())
    {
      if c !in clients || m.deviceId == "" { return; }
      if m.op == "" || m.op == "register" {
        Register(c, m.deviceId, InfoOf(m), order);
      }
    }

    method OnClientClosed(c: nat)
      modifies this
      ensures View() == Closed(old(View()), c)
    {
      if c !in clients { return; }
      var d := clients[c].deviceId;
      clients := clients - {c};
      if d != "" {
        if d in routes && routes[d] == c {
          routes := routes - {d};
          BroadcastExcept(c, Offline(d));
        }
      }
    }
  }
}
