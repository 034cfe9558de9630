/** Rooms as one device keeps them, and the owner's side of room control. */
module Rooms {
  import opened Options

  type DeviceId = string
  type RoomId = string

  datatype Room = Room(name: string, owner: DeviceId, members: set<DeviceId>, seqNo: nat)

  /** Room signals between daemons: the full room, or the news of having been removed. */
  datatype Signal = Full(name: string, owner: DeviceId, members: set<DeviceId>) | Removed(member: DeviceId)

  /** What has been sent to each device and not yet arrived. */
  type Outbox = map<DeviceId, seq<Signal>>

  // ---------- one room ----------

  function Joined(r: Option<Room>, m: DeviceId): Option<Room> {
    if r.None? then None else Some(r.value.(members := r.value.members + {m}, seqNo := r.value.seqNo + 1))
  }

  /** Leaving an emptied room removes it. */
  function Left(r: Option<Room>, m: DeviceId): Option<Room> {
    if r.None? || r.value.members - {m} == {} then None else Some(r.value.(members := r.value.members - {m}))
  }

  /** Importing a full room replaces the member table; empty names do not overwrite. */
  function Imported(r: Option<Room>, name: string, owner: DeviceId, members: set<DeviceId>): Option<Room> {
    var o := if r.Some? then r.value else Room("", "", {}, 0);
    Some(Room(if name != "" then name else o.name, if owner != "" then owner else o.owner, members, o.seqNo + 1))
  }

  /** What device `me` does with a signal. */
  function Heard(me: DeviceId, r: Option<Room>, s: Signal): Option<Room> {
    match s
    case Full(name, owner, members) => Imported(r, name, owner, members)
    case Removed(m) => if m == me then Left(r, me) else r
  }

  function Payload(r: Room): Signal { Full(r.name, r.owner, r.members) }

  // ---------- the owner's operations ----------

  /** Everyone reachable in the room, except `me` and `exclude`, is sent the full room. */
  function FannedOut(out: Outbox, r: Room, me: DeviceId, exclude: DeviceId, up: set<DeviceId>): Outbox {
    map d | d in out.Keys + (r.members * up - {me, exclude}) ::
      (if d in out then out[d] else []) + if d in r.members * up - {me, exclude} then [Payload(r)] else []
  }

  function SentTo(out: Outbox, d: DeviceId, s: Signal): Outbox {
    out[d := (if d in out then out[d] else []) + [s]]
  }

  /** Room state and outgoing signals after each operation of the owner `me`; `up` are the devices it has
      a record of. */
  function Invited(r: Option<Room>, out: Outbox, me: DeviceId, t: DeviceId, up: set<DeviceId>): (Option<Room>, Outbox) {
    if r.None? || r.value.owner != me || t == "" || t == me then (r, out) else
    var n := r.value.(members := r.value.members + {t}, seqNo := r.value.seqNo + 1);
    var o := if t in up then SentTo(out, t, Payload(n)) else out;
    (Some(n), FannedOut(o, n, me, t, up))
  }

  function Kicked(r: Option<Room>, out: Outbox, me: DeviceId, t: DeviceId, up: set<DeviceId>): (Option<Room>, Outbox) {
    if r.None? || r.value.owner != me then (r, out) else
    var n := r.value.(members := r.value.members - {t}, seqNo := r.value.seqNo + 1);
    var o := if t in up then SentTo(out, t, Removed(t)) else out;
    (Some(n), FannedOut(o, n, me, t, up))
  }

  function LeftByMe(r: Option<Room>, out: Outbox, me: DeviceId, up: set<DeviceId>): (Option<Room>, Outbox) {
    var n := Left(r, me);
    (n, if r.Some? && r.value.owner == me && n.Some? then FannedOut(out, n.value, me, me, up) else out)
  }

  /** A member announced that it joined: the owner registers it and tells everyone, itself included. */
  function MemberJoined(
      r: Option<Room>, out: Outbox, me: DeviceId, m: DeviceId, up: set<DeviceId>): (Option<Room>, Outbox) {
    if r.None? || r.value.owner != me then (r, out) else
    var n := r.value.(members := r.value.members + {m},
                      seqNo := if m in r.value.members then r.value.seqNo else r.value.seqNo + 1);
    (Some(n), FannedOut(out, n, me, "", up))
  }

  // ---------- the room manager of one device ----------

  class RoomManager {
    var rooms: map<RoomId, Room>

    function Find(id: RoomId): Option<Room>
      reads this
    {
      if id in rooms then Some(rooms[id]) else None
    }

    constructor ()
      ensures rooms == map[]
    {
      rooms := map[];
    }

    method Create(id: RoomId, owner: DeviceId, name: string)
      modifies this
      ensures Find(id) == Some(Room(name, owner, {owner}, 1))
      ensures forall x :: x != id ==> Find(x) == old(Find(x))
    {
      rooms := rooms[id := Room(name, owner, {owner}, 1)];
    }

    method AddMember(id: RoomId, m: DeviceId) returns (ok: bool)
      modifies this
      ensures ok == old(Find(id)).Some?
      ensures Find(id) == Joined(old(Find(id)), m)
      ensures forall x :: x != id ==> Find(x) == old(Find(x))
    {
      if id !in rooms { return false; }
      var r := rooms[id];
      rooms := rooms[id := r.(members := r.members + {m}, seqNo := r.seqNo + 1)];
      return true;
    }

    method Leave(id: RoomId, m: DeviceId) returns (ok: bool)
      modifies this
      ensures ok == old(Find(id)).Some?
      ensures Find(id) == Left(old(Find(id)), m)
      ensures forall x :: x != id ==> Find(x) == old(Find(x))
    {
      if id !in rooms { return false; }
      var r := rooms[id].(members := rooms[id].members - {m});
      rooms := rooms[id := r];
      if r.members == {} {
        rooms := rooms - {id};
      }
      return true;
    }

    method Upsert(id: RoomId, name: string, owner: DeviceId, members: seq<DeviceId>)
      modifies this
      ensures Find(id) == Imported(old(Find(id)), name, owner, set m | m in members)
      ensures forall x :: x != id ==> Find(x) == old(Find(x))
    {
      var r := if id in rooms then rooms[id] else Room("", "", {}, 0);
      if name != "" {
        r := r.(name := name);
      }
      if owner != "" {
        r := r.(owner := owner);
      }
      var table: set<DeviceId> := {};
      for i := 0 to |members|
        invariant table == set m | m in members[..i]
      {
        table := table + {members[i]};
      }
      assert members[..|members|] == members;
      rooms := rooms[id := r.(members := table, seqNo := r.seqNo + 1)];
    }
  }

  // ---------- room control in the daemon ----------

  class RoomControl {
    const me: DeviceId
    const manager: RoomManager
    var peers: set<DeviceId>  // devices on record
    var out: Outbox  // signals sent about the room `id`
    const id: RoomId

    constructor (me: DeviceId, id: RoomId)
      ensures fresh(manager) && this.me == me && this.id == id
      ensures manager.rooms == map[] && out == map[] && peers == {}
    {
      this.me, this.id := me, id;
      manager := new RoomManager();
      peers, out := {}, map[];
    }

    method SendRoomSignal(d: DeviceId, s: Signal)
      modifies this`out
      ensures out == SentTo(old(out), d, s)
    {
      out := out[d := (if d in out then out[d] else []) + [s]];
    }

    method FanOutRoomSync(r: Room, exclude: DeviceId)
      modifies this`out
      ensures out == FannedOut(old(out), r, me, exclude, peers)
    {
      var todo := r.members;
      ghost var before := out;
      while todo != {}
        invariant todo <= r.members
        invariant forall d :: d in out <==> d in before || d in (r.members - todo) * peers - {me, exclude}
        invariant forall d <- out ::
          out[d] == (if d in before then before[d] else []) +
                    if d in (r.members - todo) * peers - {me, exclude} then [Payload(r)] else []
        decreases todo
      {
        var m :| m in todo;
        todo := todo - {m};
        if m != me && m != exclude && m in peers {
          SendRoomSignal(m, Payload(r));
        }
      }
      assert r.members - todo == r.members;
    }

    method Invite(t: DeviceId) returns (ok: bool)
      modifies this`out, manager
      ensures (manager.Find(id), out) == Invited(old(manager.Find(id)), old(out), me, t, peers)
      ensures ok == (old(manager.Find(id)).Some? && old(manager.Find(id)).value.owner == me && t != "" && t != me)
    {
      if id !in manager.rooms || manager.rooms[id].owner != me { return false; }
      if t == "" || t == me { return false; }
      var r := manager.rooms[id];
      r := r.(members := r.members + {t}, seqNo := r.seqNo + 1);
      manager.rooms := manager.rooms[id := r];
      if t in peers {
        SendRoomSignal(t, Payload(r));
      }
      FanOutRoomSync(r, t);
      return true;
    }

    method Kick(t: DeviceId) returns (ok: bool)
      modifies this`out, manager
      ensures (manager.Find(id), out) == Kicked(old(manager.Find(id)), old(out), me, t, peers)
      ensures ok == (old(manager.Find(id)).Some? && old(manager.Find(id)).value.owner == me)
    {
      if id !in manager.rooms || manager.rooms[id].owner != me { return false; }
      var r := manager.rooms[id];
      r := r.(members := r.members - {t}, seqNo := r.seqNo + 1);
      manager.rooms := manager.rooms[id := r];
      if t in peers {
        SendRoomSignal(t, Removed(t));
      }
      FanOutRoomSync(r, t);
      return true;
    }

    method LeaveRoom()
      modifies this`out, manager
      ensures (manager.Find(id), out) == LeftByMe(old(manager.Find(id)), old(out), me, peers)
    {
      var wasOwner := id in manager.rooms && manager.rooms[id].owner == me;
      var _ := manager.Leave(id, me);
      if wasOwner {
        if id in manager.rooms {
          FanOutRoomSync(manager.rooms[id], me);
        }
      }
    }

    /** A signal from another device about this room. */
    method OnRoomSignal(s: Signal)
      modifies manager
      ensures manager.Find(id) == Heard(me, old(manager.Find(id)), s)
    {
      match s
      case Removed(m) =>
        if m == me {
          var _ := manager.Leave(id, me);
        }
      case Full(name, owner, members) =>
        var list := AsList(members);
        assert (set m | m in list) == members;
        manager.Upsert(id, name, owner, list);
    }

    static method AsList(s: set<DeviceId>) returns (l: seq<DeviceId>)
      ensures forall m :: m in l <==> m in s
    {
      l := [];
      var todo := s;
      while todo != {}
        invariant todo <= s && forall m :: m in l <==> m in s - todo
        decreases todo
      {
        var m :| m in todo;
        todo := todo - {m};
        l := l + [m];
      }
    }

    method OnMemberJoined(m: DeviceId)
      modifies this`out, manager
      ensures (manager.Find(id), out) == MemberJoined(old(manager.Find(id)), old(out), me, m, peers)
    {
      if id in manager.rooms {
        var r := manager.rooms[id];
        if r.owner == me {
          if m !in r.members {
            r := r.(members := r.members + {m}, seqNo := r.seqNo + 1);
            manager.rooms := manager.rooms[id := r];
          }
          assert r.members == old(manager.rooms[id].members) + {m};
          FanOutRoomSync(r, "");
        }
      }
    }
  }
}
