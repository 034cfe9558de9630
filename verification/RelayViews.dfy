/** What every registered connection has been told is the route table, in every run in which no
    connection changes the device it holds, and only in those. */
module RelayViews {
  import opened Options
  import opened RelayServer

  /** The roster a connection has been told of: its events folded in order. */
  function Fold(v: map<DeviceId, Info>, log: seq<Event>): map<DeviceId, Info>
    decreases |log|
  {
    if log == [] then v else Fold(Learn(v, log[0]), log[1..])
  }

  function Learn(v: map<DeviceId, Info>, e: Event): map<DeviceId, Info> {
    match e
    case Online(d, info) => v[d := info]
    case Offline(d) => v - {d}
  }

  lemma {:induction false} FoldAppend(v: map<DeviceId, Info>, a: seq<Event>, b: seq<Event>)
    ensures Fold(v, a + b) == Fold(Fold(v, a), b)
    decreases |a|
  {
    if a == [] {
      assert a + b == b;
    } else {
      assert (a + b)[1..] == a[1..] + b;
      FoldAppend(Learn(v, a[0]), a[1..], b);
    }
  }

  lemma FoldOne(v: map<DeviceId, Info>, log: seq<Event>, e: Event)
    ensures Fold(v, log + [e]) == Learn(Fold(v, log), e)
  {
    FoldAppend(v, log, [e]);
    assert [e][1..] == [];
  }

  /** The route table with the latest record of each device. */
  function Table(r: Relay): map<DeviceId, Info> {
    map d | d in r.routes && r.routes[d] in r.clients :: r.clients[r.routes[d]].info
  }

  /** What a connection was told since it last took its route. */
  function View(c: Client): map<DeviceId, Info> {
    if c.mark <= |c.log| then Fold(map[], c.log[c.mark..]) else map[]
  }

  ghost predicate SeesTable(r: Relay, c: nat)
    requires c in r.clients
  {
    Sees(r.clients[c], Table(r))
  }

  predicate Sees(c: Client, table: map<DeviceId, Info>) {
    c.mark <= |c.log| && View(c) == table - {c.deviceId}
  }

  /** Every registered connection has been told exactly the route table without its own device. */
  ghost predicate Exact(r: Relay) {
    forall c <- r.clients :: r.clients[c].deviceId != "" ==> SeesTable(r, c)
  }

  /** A connection that claims a device is the one its route names; ids are used once. */
  ghost predicate Holders(r: Relay) {
    && (forall c <- r.clients :: c < r.nextId)
    && (forall d <- r.routes :: r.routes[d] < r.nextId)
    && (forall c <- r.clients :: r.clients[c].deviceId != "" ==>
          r.clients[c].deviceId in r.routes && r.routes[r.clients[c].deviceId] == c)
  }

  /** Every route leads to a connection that claims the routed device. */
  ghost predicate RoutesLive(r: Relay) {
    forall d <- r.routes :: d != "" && r.routes[d] in r.clients && r.clients[r.routes[d]].deviceId == d
  }

  ghost predicate Good(r: Relay) { Holders(r) && RoutesLive(r) && Exact(r) }

  // ---------- holders: every run, whatever the connections claim ----------

  datatype Ev =
    | Opened
    | Said(c: nat, m: Message, order: seq<DeviceId>)
    | Gone(c: nat)

  function Step(r: Relay, ev: Ev): Relay {
    match ev
    case Opened => Connected(r)
    case Said(c, m, order) => if c in r.clients then Heard(r, c, m, order) else r
    case Gone(c) => Closed(r, c)
  }

  function Run(r: Relay, evs: seq<Ev>): Relay
    decreases |evs|
  {
    if evs == [] then r else Run(Step(r, evs[0]), evs[1..])
  }

  const EMPTY: Relay := Relay(map[], map[], 1)

  lemma HoldersStep(r: Relay, ev: Ev)
    requires Holders(r)
    ensures Holders(Step(r, ev))
  {
  }

  /** In every run a device has at most one holder, and it is the connection its route names. */
  lemma {:induction false} HoldersAlways(r: Relay, evs: seq<Ev>)
    requires Holders(r)
    ensures
      var t := Run(r, evs);
      && Holders(t)
      && forall a, b ::
           a in t.clients && b in t.clients && t.clients[a].deviceId == t.clients[b].deviceId != "" ==> a == b
    decreases |evs|
  {
    if evs != [] {
      HoldersStep(r, evs[0]);
      HoldersAlways(Step(r, evs[0]), evs[1..]);
    }
  }

  /** A displaced connection stays without a device until it registers again, and closing it then removes
      no route and tells nobody anything. */
  lemma {:induction false} DisplacedStaysQuiet(r: Relay, c: nat, evs: seq<Ev>)
    requires c in r.clients && r.clients[c].deviceId == "" && Holders(r)
    requires forall e <- evs :: !(e.Said? && e.c == c && IsRegistration(e.m)) && e != Gone(c)
    ensures
      var t := Run(r, evs);
      && c in t.clients && t.clients[c].deviceId == ""
      && Closed(t, c) == t.(clients := t.clients - {c})
    decreases |evs|
  {
    if evs != [] {
      HoldersStep(r, evs[0]);
      assert evs[0] in evs;
      DisplacedStaysQuiet(Step(r, evs[0]), c, evs[1..]);
    }
  }

  // ---------- views ----------

  function Records(clients: Clients, routes: Routes, d: DeviceId, order: seq<DeviceId>): map<DeviceId, Info> {
    map id | id in order && id != d && id in routes && routes[id] in clients :: clients[routes[id]].info
  }

  ghost predicate LiveAt(clients: Clients, routes: Routes, id: DeviceId) {
    id != "" && id in routes && routes[id] in clients && clients[routes[id]].deviceId == id
  }

  /** Replaying live routes adds exactly their records. */
  lemma {:induction false} ReplayFold(
      v: map<DeviceId, Info>, clients: Clients, routes: Routes, d: DeviceId, order: seq<DeviceId>)
    requires forall id <- order :: id != d ==> LiveAt(clients, routes, id)
    ensures Fold(v, Replay(clients, routes, d, order)) == v + Records(clients, routes, d, order)
    decreases |order|
  {
    if order != [] {
      var id, rest := order[0], order[1..];
      assert forall x :: x in order <==> x == id || x in rest;
      var first := if id == d then [] else Replayed(clients, routes, id);
      FoldAppend(v, first, Replay(clients, routes, d, rest));
      ReplayFold(Fold(v, first), clients, routes, d, rest);
      if id != d {
        assert LiveAt(clients, routes, id);
        assert first == [] + [Online(id, clients[routes[id]].info)];
        FoldOne(v, [], Online(id, clients[routes[id]].info));
        RecordsCons(v, clients, routes, d, order);
      } else {
        assert Records(clients, routes, d, order) == Records(clients, routes, d, rest);
      }
    }
  }

  lemma RecordsCons(v: map<DeviceId, Info>, clients: Clients, routes: Routes, d: DeviceId, order: seq<DeviceId>)
    requires order != [] && order[0] != d && LiveAt(clients, routes, order[0])
    ensures
      v[order[0] := clients[routes[order[0]]].info] + Records(clients, routes, d, order[1..]) ==
      v + Records(clients, routes, d, order)
  {
    var a := Records(clients, routes, d, order[1..]);
    var b := Records(clients, routes, d, order);
    assert b == a[order[0] := clients[routes[order[0]]].info];
  }

  /** What a registration of `d` by `c` does to connection `x`, given what is replayed to `c`. */
  ghost predicate ClientAfter(r: Relay, t: Relay, c: nat, d: DeviceId, info: Info, replay: seq<Event>, x: nat)
    requires x in r.clients && x in t.clients
  {
    var was, now := r.clients[x], t.clients[x];
    if x == c then now == Client(d, info, was.log + replay, if was.deviceId == d then was.mark else |was.log|)
    else if d in r.routes && r.routes[d] == x then now == was.(deviceId := "")
    else now == was.(log := if was.deviceId == "" then was.log else was.log + [Online(d, info)])
  }

  ghost predicate Registers(r: Relay, t: Relay, c: nat, d: DeviceId, info: Info, replay: seq<Event>) {
    && t.clients.Keys == r.clients.Keys && t.routes == r.routes[d := c]
    && forall x <- r.clients :: ClientAfter(r, t, c, d, info, replay, x)
  }

  lemma AfterRegistration(r: Relay, c: nat, d: DeviceId, info: Info, order: seq<DeviceId>)
    requires c in r.clients && d != ""
    ensures
      var replay := Replay(Claimed(r, c, d, info), r.routes, d, order);
      Registers(r, Registered(r, c, d, info, order), c, d, info, replay)
  {
  }

  /** The registrant holds `d` or nothing before; afterwards every route is live again. */
  lemma RoutesAfterRegistration(r: Relay, t: Relay, c: nat, d: DeviceId, info: Info, replay: seq<Event>)
    requires Holders(r) && RoutesLive(r) && c in r.clients && d != "" && Registers(r, t, c, d, info, replay)
    requires r.clients[c].deviceId == "" || r.clients[c].deviceId == d
    ensures RoutesLive(t)
    ensures Table(t) == Table(r)[d := info]
  {
    assert ClientAfter(r, t, c, d, info, replay, c);
    forall id <- t.routes
      ensures LiveAt(t.clients, t.routes, id)
      ensures t.clients[t.routes[id]].info == if id == d then info else r.clients[r.routes[id]].info
    {
      if id != d {
        assert LiveAt(r.clients, r.routes, id);
        RouteKept(r, t, c, d, info, replay, id);
      }
    }
  }

  lemma RouteKept(r: Relay, t: Relay, c: nat, d: DeviceId, info: Info, replay: seq<Event>, id: DeviceId)
    requires Registers(r, t, c, d, info, replay)
    requires c in r.clients && (r.clients[c].deviceId == "" || r.clients[c].deviceId == d)
    requires id != d && id != "" && id in r.routes && LiveAt(r.clients, r.routes, id)
    requires d in r.routes && r.routes[d] in r.clients ==> r.clients[r.routes[d]].deviceId == d
    ensures LiveAt(t.clients, t.routes, id) && t.clients[t.routes[id]].info == r.clients[r.routes[id]].info
  {
    assert ClientAfter(r, t, c, d, info, replay, r.routes[id]);
  }

  /** What the walk replays: the records of all other devices. */
  lemma WalkCoversTable(r: Relay, c: nat, d: DeviceId, info: Info, order: seq<DeviceId>)
    requires Holders(r) && RoutesLive(r) && c in r.clients && d != "" && Enumerates(order, r.routes)
    requires r.clients[c].deviceId == "" || r.clients[c].deviceId == d
    ensures forall id <- order :: id != d ==> LiveAt(Claimed(r, c, d, info), r.routes, id)
    ensures Records(Claimed(r, c, d, info), r.routes, d, order) == Table(r) - {d}
  {
    var claimed := Claimed(r, c, d, info);
    forall id <- order | id != d
      ensures LiveAt(claimed, r.routes, id) && claimed[r.routes[id]].info == r.clients[r.routes[id]].info
    {
      assert LiveAt(r.clients, r.routes, id) && r.routes[id] != c;
    }
  }

  /** A view extended by a replay of the whole table. */
  lemma ViewAfterReplay(was: Client, now: Client, d: DeviceId, replay: seq<Event>, others: map<DeviceId, Info>)
    requires was.deviceId == d ==> was.mark <= |was.log| && View(was) == others
    requires now.log == was.log + replay && now.mark == if was.deviceId == d then was.mark else |was.log|
    requires forall v :: Fold(v, replay) == v + others
    ensures now.mark <= |now.log| && View(now) == others
  {
    var before := if was.deviceId == d then was.log[was.mark..] else [];
    assert now.log[now.mark..] == before + replay;
    FoldAppend(map[], before, replay);
    var v := Fold(map[], before);
    assert Fold(v, replay) == v + others;
  }

  lemma ViewAfterEvent(was: Client, now: Client, e: Event)
    requires was.mark <= |was.log| && now.mark == was.mark && now.log == was.log + [e]
    ensures View(now) == Learn(View(was), e)
  {
    assert now.log[was.mark..] == was.log[was.mark..] + [e];
    FoldOne(map[], was.log[was.mark..], e);
  }

  /** A connection that holds `d` or nothing registers `d`: it sees the whole table. */
  lemma RegistrantSees(r: Relay, t: Relay, c: nat, d: DeviceId, info: Info, order: seq<DeviceId>)
    requires Holders(r) && RoutesLive(r) && c in r.clients && d != "" && Enumerates(order, r.routes)
    requires r.clients[c].deviceId == "" || (r.clients[c].deviceId == d && SeesTable(r, c))
    requires Registers(r, t, c, d, info, Replay(Claimed(r, c, d, info), r.routes, d, order))
    ensures Sees(t.clients[c], Table(r)[d := info])
  {
    var replay := Replay(Claimed(r, c, d, info), r.routes, d, order);
    assert ClientAfter(r, t, c, d, info, replay, c);
    ReplayTellsTable(r, c, d, info, order);
    ViewAfterReplay(r.clients[c], t.clients[c], d, replay, Table(r) - {d});
    assert Table(r)[d := info] - {d} == Table(r) - {d};
  }

  lemma ReplayTellsTable(r: Relay, c: nat, d: DeviceId, info: Info, order: seq<DeviceId>)
    requires Holders(r) && RoutesLive(r) && c in r.clients && d != "" && Enumerates(order, r.routes)
    requires r.clients[c].deviceId == "" || r.clients[c].deviceId == d
    ensures forall v :: Fold(v, Replay(Claimed(r, c, d, info), r.routes, d, order)) == v + (Table(r) - {d})
  {
    var claimed := Claimed(r, c, d, info);
    WalkCoversTable(r, c, d, info, order);
    forall v ensures Fold(v, Replay(claimed, r.routes, d, order)) == v + (Table(r) - {d}) {
      ReplayFold(v, claimed, r.routes, d, order);
    }
  }

  /** Every other registered connection sees the new record. */
  lemma OthersSee(r: Relay, t: Relay, c: nat, d: DeviceId, info: Info, replay: seq<Event>, x: nat)
    requires Holders(r) && RoutesLive(r) && c in r.clients && d != "" && Registers(r, t, c, d, info, replay)
    requires r.clients[c].deviceId == "" || r.clients[c].deviceId == d
    requires x in r.clients && x != c && t.clients[x].deviceId != "" && SeesTable(r, x)
    ensures Sees(t.clients[x], Table(r)[d := info])
  {
    assert ClientAfter(r, t, c, d, info, replay, x);
    assert r.clients[x].deviceId != d;
    SeesOnline(r.clients[x], t.clients[x], Table(r), d, info);
  }

  lemma SeesOnline(was: Client, now: Client, table: map<DeviceId, Info>, d: DeviceId, info: Info)
    requires Sees(was, table) && was.deviceId != d && now == was.(log := was.log + [Online(d, info)])
    ensures Sees(now, table[d := info])
  {
    ViewAfterEvent(was, now, Online(d, info));
    assert (table - {was.deviceId})[d := info] == table[d := info] - {was.deviceId};
  }

  lemma HoldersRegistered(r: Relay, t: Relay, c: nat, d: DeviceId, info: Info, replay: seq<Event>)
    requires Holders(r) && c in r.clients && d != "" && Registers(r, t, c, d, info, replay) && t.nextId == r.nextId
    ensures Holders(t)
  {
    forall x <- r.clients
      ensures t.clients[x].deviceId ==
        if x == c then d else if d in r.routes && r.routes[d] == x then "" else r.clients[x].deviceId
    {
      assert ClientAfter(r, t, c, d, info, replay, x);
    }
  }

  lemma RegisterKeepsGood(r: Relay, c: nat, d: DeviceId, info: Info, order: seq<DeviceId>)
    requires Good(r) && c in r.clients && d != "" && Enumerates(order, r.routes)
    requires r.clients[c].deviceId == "" || r.clients[c].deviceId == d
    ensures Good(Registered(r, c, d, info, order))
  {
    var t := Registered(r, c, d, info, order);
    var replay := Replay(Claimed(r, c, d, info), r.routes, d, order);
    AfterRegistration(r, c, d, info, order);
    HoldersRegistered(r, t, c, d, info, replay);
    RoutesAfterRegistration(r, t, c, d, info, replay);
    forall x <- t.clients | t.clients[x].deviceId != "" ensures SeesTable(t, x) {
      assert ClientAfter(r, t, c, d, info, replay, x);
      if x == c {
        RegistrantSees(r, t, c, d, info, order);
      } else {
        OthersSee(r, t, c, d, info, replay, x);
      }
    }
  }

  /** A connection that holds one device and registers another is told of itself: its view is wrong at once. */
  lemma RenameSpoils(r: Relay, c: nat, d: DeviceId, info: Info, order: seq<DeviceId>)
    requires Good(r) && c in r.clients && d != "" && Enumerates(order, r.routes)
    requires r.clients[c].deviceId != "" && r.clients[c].deviceId != d
    ensures !SeesTable(Registered(r, c, d, info, order), c)
    ensures !Exact(Registered(r, c, d, info, order))
  {
    var t := Registered(r, c, d, info, order);
    AfterRegistration(r, c, d, info, order);
    assert ClientAfter(r, t, c, d, info, Replay(Claimed(r, c, d, info), r.routes, d, order), c);
    var claimed, was := Claimed(r, c, d, info), r.clients[c];
    var replay := Replay(claimed, r.routes, d, order);
    assert t.clients[c].log[t.clients[c].mark..] == replay;
    assert was.deviceId in order;
    assert Replayed(claimed, r.routes, was.deviceId) == [Online(d, info)];
    ReplayMentions(claimed, r.routes, d, order, was.deviceId);
    assert Online(d, info) in replay;
    OnlinesStay(map[], replay, d);
    assert d in View(t.clients[c]);
    assert d !in Table(t) - {d};
  }

  /** The replay contains what each walked route contributes, and never an offline event. */
  lemma {:induction false} ReplayMentions(
      clients: Clients, routes: Routes, d: DeviceId, order: seq<DeviceId>, id: DeviceId)
    requires id in order && id != d
    ensures forall e <- Replayed(clients, routes, id) :: e in Replay(clients, routes, d, order)
    ensures forall e <- Replay(clients, routes, d, order) :: e.Online?
    decreases |order|
  {
    if order[0] != id {
      ReplayMentions(clients, routes, d, order[1..], id);
    } else {
      ReplayOnline(clients, routes, d, order[1..]);
    }
  }

  lemma {:induction false} ReplayOnline(clients: Clients, routes: Routes, d: DeviceId, order: seq<DeviceId>)
    ensures forall e <- Replay(clients, routes, d, order) :: e.Online?
    decreases |order|
  {
    if order != [] {
      ReplayOnline(clients, routes, d, order[1..]);
    }
  }

  /** A device announced in a log without offline events is in the roster. */
  lemma {:induction false} OnlinesStay(v: map<DeviceId, Info>, log: seq<Event>, d: DeviceId)
    requires forall e <- log :: e.Online?
    ensures d in v || (exists e <- log :: e.id == d) ==> d in Fold(v, log)
    decreases |log|
  {
    if log != [] {
      OnlinesStay(Learn(v, log[0]), log[1..], d);
      assert forall e :: e in log <==> e == log[0] || e in log[1..];
    }
  }

  lemma TableAfterClose(r: Relay, c: nat)
    requires Holders(r) && RoutesLive(r) && c in r.clients
    ensures
      var t := Closed(r, c);
      var d := r.clients[c].deviceId;
      && Holders(t) && RoutesLive(t) && Table(t) == Table(r) - {d}
      && t.clients.Keys == r.clients.Keys - {c}
      && forall x <- t.clients ::
           t.clients[x] ==
             if d != "" && r.clients[x].deviceId != "" then r.clients[x].(log := r.clients[x].log + [Offline(d)])
             else r.clients[x]
  {
    var d := r.clients[c].deviceId;
    assert forall id <- r.routes :: LiveAt(r.clients, r.routes, id);
    assert forall id <- r.routes :: r.routes[id] == c <==> id == d;
  }

  lemma SeesAfterClose(r: Relay, c: nat, x: nat)
    requires Holders(r) && RoutesLive(r) && c in r.clients
    requires x in r.clients && x != c && r.clients[x].deviceId != "" && SeesTable(r, x)
    ensures SeesTable(Closed(r, c), x)
  {
    var d, own := r.clients[c].deviceId, r.clients[x].deviceId;
    TableAfterClose(r, c);
    if d == "" {
      assert "" !in Table(r);
      assert Table(r) - {d} == Table(r);
    } else {
      ViewAfterEvent(r.clients[x], Closed(r, c).clients[x], Offline(d));
      assert (Table(r) - {own}) - {d} == (Table(r) - {d}) - {own};
    }
  }

  lemma ClosedKeepsGood(r: Relay, c: nat)
    requires Good(r)
    ensures Good(Closed(r, c))
  {
    if c in r.clients {
      var t := Closed(r, c);
      TableAfterClose(r, c);
      forall x <- t.clients | t.clients[x].deviceId != "" ensures SeesTable(t, x) {
        SeesAfterClose(r, c, x);
      }
    }
  }

  lemma OpenedKeepsGood(r: Relay)
    requires Good(r)
    ensures Good(Connected(r))
  {
    var t := Connected(r);
    assert Table(t) == Table(r);
    forall x <- t.clients | t.clients[x].deviceId != "" ensures SeesTable(t, x) {
      assert SeesTable(r, x);
    }
  }

  // ---------- what a message does ----------

  /** The other connections after connection `c` has registered device `d`: whoever held its route has no device any
      more and hears nothing, and everybody else with a device hears of the new holder. */
  ghost predicate OthersHear(r: Relay, t: Relay, c: nat, d: DeviceId, info: Info) {
    forall x <- r.clients :: x != c ==> OtherHears(r, t, d, info, x)
  }

  ghost predicate OtherHears(r: Relay, t: Relay, d: DeviceId, info: Info, x: nat) {
    x in r.clients && x in t.clients &&
    var was := r.clients[x];
    t.clients[x] ==
      if d in r.routes && r.routes[d] == x then was.(deviceId := "")
      else if was.deviceId != "" then was.(log := was.log + [Online(d, info)]) else was
  }

  /** A message of an open connection that names a device, with the operation left out or "register", leaves the
      device routed to that connection, which holds it with the record of the message: without a name it is the
      device's, without a host the host is empty, and a port that is none is 0. Any other message changes nothing. */
  lemma MessageRegisters(r: Relay, c: nat, m: Message, order: seq<DeviceId>)
    ensures
      var t := Step(r, Said(c, m, order));
      if c in r.clients && m.deviceId != "" && (m.op == "" || m.op == "register") then
        && t.routes == r.routes[m.deviceId := c] && t.nextId == r.nextId && t.clients.Keys == r.clients.Keys
        && t.clients[c].deviceId == m.deviceId
        && var info := t.clients[c].info;
           && info.name == (match m.name case Some(name) => name case None => m.deviceId)
           && info.host == (match m.host case Some(host) => host case None => "")
           && info.port as int == (match m.port case Some(n) => (if 0 <= n <= 65535 then n else 0) case None => 0)
           && info.addrs == m.addrs
           && OthersHear(r, t, c, m.deviceId, info)
      else t == r
  {
    if c in r.clients && m.deviceId != "" && (m.op == "" || m.op == "register") {
      var d, info := m.deviceId, InfoOf(m);
      var t := Step(r, Said(c, m, order));
      var replay := Replay(Claimed(r, c, d, info), r.routes, d, order);
      AfterRegistration(r, c, d, info, order);
      assert ClientAfter(r, t, c, d, info, replay, c);
      forall x <- r.clients | x != c ensures OtherHears(r, t, d, info, x) {
        assert ClientAfter(r, t, c, d, info, replay, x);
      }
    }
  }

  /** The event registers device `d`. */
  predicate Claims(ev: Ev, d: DeviceId) {
    ev.Said? && ev.m.deviceId == d && (ev.m.op == "" || ev.m.op == "register")
  }

  lemma RouteStaysFor(r: Relay, c: nat, d: DeviceId, ev: Ev)
    requires d != "" && d in r.routes && r.routes[d] == c && !Claims(ev, d) && ev != Gone(c)
    ensures d in Step(r, ev).routes && Step(r, ev).routes[d] == c
  {
    match ev
    case Said(x, m, order) => MessageRegisters(r, x, m, order);
    case _ =>
  }

  /** In every run the route of a device leads to the connection that registered it last, whatever else happens,
      until that connection closes. */
  lemma {:induction false} RouteLeadsToLatest(r: Relay, c: nat, d: DeviceId, evs: seq<Ev>)
    requires d != "" && d in r.routes && r.routes[d] == c
    requires forall ev <- evs :: !Claims(ev, d) && ev != Gone(c)
    ensures
      var t := Run(r, evs);
      d in t.routes && t.routes[d] == c
    decreases |evs|
  {
    if evs != [] {
      assert evs[0] in evs;
      RouteStaysFor(r, c, d, evs[0]);
      RouteLeadsToLatest(Step(r, evs[0]), c, d, evs[1..]);
    }
  }

  // ---------- whole runs ----------

  /** The event makes a connection that holds one device register another. */
  ghost predicate Renames(r: Relay, ev: Ev) {
    ev.Said? && ev.c in r.clients && IsRegistration(ev.m) &&
    r.clients[ev.c].deviceId != "" && r.clients[ev.c].deviceId != ev.m.deviceId
  }

  /** The route table is walked completely. */
  ghost predicate Walks(r: Relay, ev: Ev) {
    ev.Said? ==> Enumerates(ev.order, r.routes)
  }

  ghost predicate WalksAll(r: Relay, evs: seq<Ev>)
    decreases |evs|
  {
    evs != [] ==> Walks(r, evs[0]) && WalksAll(Step(r, evs[0]), evs[1..])
  }

  ghost predicate NoRename(r: Relay, evs: seq<Ev>)
    decreases |evs|
  {
    evs != [] ==> !Renames(r, evs[0]) && NoRename(Step(r, evs[0]), evs[1..])
  }

  ghost predicate AlwaysExact(r: Relay, evs: seq<Ev>)
    decreases |evs|
  {
    Exact(r) && (evs != [] ==> AlwaysExact(Step(r, evs[0]), evs[1..]))
  }

  /** One step from a good state keeps every view exact precisely if it renames nobody. */
  lemma StepExact(r: Relay, ev: Ev)
    requires Good(r) && Walks(r, ev)
    ensures !Renames(r, ev) ==> Good(Step(r, ev))
    ensures Renames(r, ev) ==> !Exact(Step(r, ev))
  {
    match ev
    case Opened => OpenedKeepsGood(r);
    case Gone(c) => ClosedKeepsGood(r, c);
    case Said(c, m, order) =>
      if c in r.clients && IsRegistration(m) {
        if Renames(r, ev) {
          RenameSpoils(r, c, m.deviceId, InfoOf(m), order);
        } else {
          RegisterKeepsGood(r, c, m.deviceId, InfoOf(m), order);
        }
      }
  }

  /** In every run: each registered connection's view is exactly the route table at every moment, if and
      only if no connection ever registers a device while it holds another. */
  lemma {:induction false} ViewsExactIffNoRename(r: Relay, evs: seq<Ev>)
    requires Good(r) && WalksAll(r, evs)
    ensures AlwaysExact(r, evs) <==> NoRename(r, evs)
    decreases |evs|
  {
    if evs != [] {
      StepExact(r, evs[0]);
      if !Renames(r, evs[0]) {
        ViewsExactIffNoRename(Step(r, evs[0]), evs[1..]);
      }
    }
  }

  lemma EmptyIsGood()
    ensures Good(EMPTY)
  {
  }

  /** After a rename, closing the connection leaves the old device routed to nobody, and the closing
      tells nobody that it went offline. */
  lemma RenameLeavesDeadRoute(r: Relay, c: nat, d: DeviceId, info: Info, order: seq<DeviceId>)
    requires Holders(r) && c in r.clients && d != "" && r.clients[c].deviceId != "" && r.clients[c].deviceId != d
    ensures
      var s := Registered(r, c, d, info, order);
      var t := Closed(s, c);
      var left := r.clients[c].deviceId;
      && left in t.routes && t.routes[left] !in t.clients
      && forall x <- t.clients ::
           t.clients[x].log == s.clients[x].log || t.clients[x].log == s.clients[x].log + [Offline(d)]
  {
    AfterRegistration(r, c, d, info, order);
    var replay := Replay(Claimed(r, c, d, info), r.routes, d, order);
    assert ClientAfter(r, Registered(r, c, d, info, order), c, d, info, replay, c);
  }
}
