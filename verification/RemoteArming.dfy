/** Room screen shares and remote control on the host: who views, who controls, and whether the input
    injector is armed. */
module RemoteArming {
  import opened Options

  type Room = string
  type Member = string
  type Call = string

  /** The `on` field of a hosting request, a JSON boolean or string. */
  datatype Flag = Bool(b: bool) | Str(s: string)

  /** The daemon reads the field as a string and takes anything else for "true". */
  predicate Arms(on: Flag) {
    (match on
     case Bool(_) => "true"
     case Str(s) => s) == "true"
  }

  /** What a session is for: a share or an ordinary call; this screen offered to one peer for remote control,
      before and after its capture is ready; or a peer's screen controlled from here. */
  datatype Kind = Plain | Offering | Hosted | Controlling

  datatype State = State(
    order: seq<Room>,  // shares in the order they were opened
    shares: map<Room, map<Member, Call>>,  // viewers, each with the call that carries the share
    calls: map<Call, Room>,
    sessions: map<Call, Kind>,
    ctrl: map<Room, set<Member>>,
    hosting: bool)

  const START: State := State([], map[], map[], map[], map[], false)

  function Controllers(s: State, room: Room): set<Member> { if room in s.ctrl then s.ctrl[room] else {} }

  function Viewers(s: State, room: Room): map<Member, Call> { if room in s.shares then s.shares[room] else map[] }

  function SetHosting(s: State, on: Flag): State { s.(hosting := Arms(on)) }

  /** First share in opening order that `m` views. */
  function RoomIn(s: State, m: Member, i: nat): Option<Room>
    requires i <= |s.order|
    decreases |s.order| - i
  {
    if i == |s.order| then None
    else if m in Viewers(s, s.order[i]) then Some(s.order[i])
    else RoomIn(s, m, i + 1)
  }

  function RoomForMember(s: State, m: Member): Option<Room> { RoomIn(s, m, 0) }

  function DropRoom(order: seq<Room>, room: Room): seq<Room> {
    if order == [] then []
    else DropRoom(order[..|order| - 1], room) + if order[|order| - 1] == room then [] else [order[|order| - 1]]
  }

  // ---------- shares ----------

  function OpenShare(s: State, room: Room): State {
    s.(order := if room in s.shares then s.order else s.order + [room], shares := s.shares[room := map[]])
  }

  /** A viewer's session is created and invited. */
  function AddViewer(s: State, room: Room, m: Member, call: Call): State {
    s.(sessions := s.sessions[call := Plain], calls := s.calls[call := room],
       shares := if room in s.shares then s.shares[room := s.shares[room][m := call]] else s.shares)
  }

  function CallsElsewhere(calls: map<Call, Room>, room: Room): map<Call, Room> {
    map c | c in calls && calls[c] != room :: calls[c]
  }

  function SessionsElsewhere(sessions: map<Call, Kind>, calls: map<Call, Room>, room: Room): map<Call, Kind> {
    map c | c in sessions && (c in calls ==> calls[c] != room) :: sessions[c]
  }

  function EndShare(s: State, room: Room): State {
    SetHosting(
      s.(order := DropRoom(s.order, room), shares := s.shares - {room}, ctrl := s.ctrl - {room},
         calls := CallsElsewhere(s.calls, room), sessions := SessionsElsewhere(s.sessions, s.calls, room)),
      Str("false"))
  }

  function WithoutCall(viewers: map<Member, Call>, call: Call): map<Member, Call> {
    map m | m in viewers && viewers[m] != call :: viewers[m]
  }

  /** The peer of `call` hung up: a viewer leaves its share, the last one ends it; else a call ends. */
  function Hangup(s: State, call: Call): State {
    if call in s.calls then
      var room := s.calls[call];
      var left :=
        if room in s.shares && call in s.sessions
        then s.(shares := s.shares[room := WithoutCall(s.shares[room], call)]) else s;
      var done := if room in left.shares && left.shares[room] == map[] then EndShare(left, room) else left;
      done.(sessions := done.sessions - {call}, calls := done.calls - {call})
    else
      var s1 := if call in s.sessions && s.sessions[call] != Plain then SetHosting(s, Bool(false)) else s;
      s1.(sessions := s1.sessions - {call})
  }

  // ---------- control ----------

  /** After control was taken away: nobody left in control disarms the injector. */
  function Disarm(s: State, room: Room): State {
    if Controllers(s, room) == {} then SetHosting(s, Str("false")) else s
  }

  function Uncontrol(s: State, room: Room, m: Member): State {
    if room in s.ctrl then s.(ctrl := s.ctrl[room := s.ctrl[room] - {m}]) else s
  }

  /** The host answers a request for control. */
  function Resolve(s: State, m: Member, approve: bool, room: Option<Room>): State {
    var r := if room.Some? then room else RoomForMember(s, m);
    if r.None? || !approve then s
    else SetHosting(s.(ctrl := s.ctrl[r.value := Controllers(s, r.value) + {m}]), Str("true"))
  }

  /** A viewer gives control back. */
  function Release(s: State, m: Member): State {
    var r := RoomForMember(s, m);
    if r.None? then s else Disarm(Uncontrol(s, r.value, m), r.value)
  }

  function Revoke(s: State, room: Room, m: Member): State {
    if room !in s.shares || m !in Controllers(s, room) then s else Disarm(Uncontrol(s, room, m), room)
  }

  /** The host removes a viewer. */
  function Kick(s: State, room: Room, m: Member): State {
    if m !in Viewers(s, room) then s
    else
      var gone := Removed(s, room, m);
      if gone.shares[room] == map[] then EndShare(gone, room) else Disarm(gone, room)
  }

  /** Without the viewer, its control, and the session that served it. */
  function Removed(s: State, room: Room, m: Member): (t: State)
    requires m in Viewers(s, room)
    ensures t.shares == s.shares[room := s.shares[room] - {m}] && t.ctrl == Uncontrol(s, room, m).ctrl
  {
    var call := s.shares[room][m];
    var gone := Uncontrol(s.(shares := s.shares[room := s.shares[room] - {m}]), room, m);
    if call in s.calls && s.calls[call] == room && call in s.sessions
    then gone.(calls := gone.calls - {call}, sessions := gone.sessions - {call})
    else gone
  }

  /** Offering this screen to one peer for remote control. */
  function OfferScreen(s: State, call: Call): State { s.(sessions := s.sessions[call := Offering]) }

  /** The capture is ready; after a hang-up the connection is closed and takes no tracks. */
  function ScreenReady(s: State, call: Call): State {
    if call in s.sessions && s.sessions[call] == Offering
    then SetHosting(s.(sessions := s.sessions[call := Hosted]), Bool(true))
    else s
  }

  /** A peer's screen is to be controlled from here. */
  function JoinScreen(s: State, call: Call): State {
    if call in s.sessions then s else s.(sessions := s.sessions[call := Controlling])
  }

  datatype Event =
    | EOpen(room: Room)
    | EAdd(room: Room, m: Member, call: Call)
    | EEnd(room: Room)
    | EHangup(call: Call)
    | EResolve(m: Member, approve: bool, at: Option<Room>)
    | ERelease(m: Member)
    | ERevoke(room: Room, m: Member)
    | EKick(room: Room, m: Member)
    | EOffer(call: Call)
    | EReady(call: Call)
    | EJoin(call: Call)

  function Step(s: State, e: Event): State {
    match e
    case EOpen(room) => OpenShare(s, room)
    case EAdd(room, m, call) => AddViewer(s, room, m, call)
    case EEnd(room) => EndShare(s, room)
    case EHangup(call) => Hangup(s, call)
    case EResolve(m, approve, at) => Resolve(s, m, approve, at)
    case ERelease(m) => Release(s, m)
    case ERevoke(room, m) => Revoke(s, room, m)
    case EKick(room, m) => Kick(s, room, m)
    case EOffer(call) => OfferScreen(s, call)
    case EReady(call) => ScreenReady(s, call)
    case EJoin(call) => JoinScreen(s, call)
  }

  // ---------- the host as it runs ----------

  /** Calls are told apart: no two viewers of a share have the same one. */
  ghost predicate DistinctCalls(s: State) {
    forall room <- s.shares :: forall m, n ::
      m in s.shares[room] && n in s.shares[room] && s.shares[room][m] == s.shares[room][n] ==> m == n
  }

  class ShareHost {
    var order: seq<Room>
    var shares: map<Room, map<Member, Call>>
    var calls: map<Call, Room>
    var sessions: map<Call, Kind>
    var ctrl: map<Room, set<Member>>
    var hosting: bool

    function Now(): State
      reads this
    {
      State(order, shares, calls, sessions, ctrl, hosting)
    }

    constructor ()
      ensures Now() == START
    {
      order, shares, calls, sessions, ctrl, hosting := [], map[], map[], map[], map[], false;
    }

    method RequestHosting(on: Flag)
      modifies this`hosting
      ensures hosting <==> on.Bool? || on == Str("true")
    {
      var value := match on case Bool(_) => "true" case Str(v) => v;
      hosting := value == "true";
    }

    /** This screen is offered to one peer for remote control: the session comes first, then the capture. */
    method RemoteCallStarted(call: Call)
      modifies this`sessions
      ensures Now() == OfferScreen(old(Now()), call)
    {
      sessions := sessions[call := Offering];
    }

    method ScreenCaptured(call: Call)
      modifies this`sessions, this`hosting
      ensures Now() == ScreenReady(old(Now()), call)
    {
      if call !in sessions || sessions[call] != Offering { return; }
      sessions := sessions[call := Hosted];
      RequestHosting(Bool(true));
    }

    /** Accepting the remote-control call of a peer. */
    method RemoteCallJoined(call: Call)
      modifies this`sessions
      ensures Now() == JoinScreen(old(Now()), call)
    {
      if call !in sessions { sessions := sessions[call := Controlling]; }
    }

    method RoomShareForMember(m: Member) returns (room: Option<Room>)
      ensures room == RoomForMember(Now(), m)
    {
      for i := 0 to |order|
        invariant RoomForMember(Now(), m) == RoomIn(Now(), m, i)
      {
        if order[i] in shares && m in shares[order[i]] { return Some(order[i]); }
      }
      return None;
    }

    method RoomShareStarted(room: Room)
      modifies this
      ensures Now() == OpenShare(old(Now()), room)
    {
      if room !in shares { order := order + [room]; }
      shares := shares[room := map[]];
    }

    method ViewerInvited(room: Room, m: Member, call: Call)
      modifies this
      ensures Now() == AddViewer(old(Now()), room, m, call)
    {
      sessions := sessions[call := Plain];
      if room in shares { shares := shares[room := shares[room][m := call]]; }
      calls := calls[call := room];
    }

    method EndRoomShare(room: Room)
      modifies this
      ensures Now() == EndShare(old(Now()), room)
    {
      RequestHosting(Str("false"));
      DropSessions(room);
      shares := shares - {room};
      order := DropRoom(order, room);
      ctrl := ctrl - {room};
    }

    /** Forgets the sessions that carry the share of `room`. */
    method DropSessions(room: Room)
      modifies this`calls, this`sessions
      ensures calls == CallsElsewhere(old(calls), room)
      ensures sessions == SessionsElsewhere(old(sessions), old(calls), room)
    {
      ghost var was, had := calls, sessions;
      var rest := calls.Keys;
      while rest != {}
        invariant rest <= calls.Keys
        invariant calls.Keys == set c | c in was && (c in rest || was[c] != room)
        invariant sessions.Keys == set c | c in had && (c in was && c !in rest ==> was[c] != room)
        invariant forall c <- calls :: calls[c] == was[c]
        invariant forall c <- sessions :: sessions[c] == had[c]
        decreases |rest|
      {
        var c :| c in rest;
        rest := rest - {c};
        if calls[c] == room {
          sessions := sessions - {c};
          calls := calls - {c};
        }
      }
    }

    method CallHungUp(call: Call)
      requires DistinctCalls(Now())
      modifies this
      ensures Now() == Hangup(old(Now()), call)
    {
      if call in calls {
        var room := calls[call];
        if room in shares {
          if call in sessions { RemoveViewer(room, call); }
          if shares[room] == map[] { EndRoomShare(room); }
        }
        sessions := sessions - {call};
        calls := calls - {call};
        return;
      }
      if call in sessions && sessions[call] != Plain { RequestHosting(Bool(false)); }
      sessions := sessions - {call};
    }

    /** Takes out the one viewer served by `call`. */
    method RemoveViewer(room: Room, call: Call)
      requires room in shares && DistinctCalls(Now())
      modifies this`shares
      ensures shares == old(shares)[room := WithoutCall(old(shares)[room], call)]
    {
      var viewers := shares[room];
      var rest := viewers.Keys;
      while rest != {}
        invariant rest <= viewers.Keys
        invariant forall m <- viewers :: m in rest || viewers[m] != call
        invariant shares == old(shares)
        decreases |rest|
      {
        var m :| m in rest;
        rest := rest - {m};
        if viewers[m] == call {
          shares := shares[room := viewers - {m}];
          assert viewers - {m} == WithoutCall(viewers, call);
          return;
        }
      }
      assert WithoutCall(viewers, call) == viewers;
    }

    method SyncShareControllers(room: Room)
      modifies this`hosting
      ensures Now() == Disarm(old(Now()), room)
    {
      if room !in ctrl || ctrl[room] == {} { RequestHosting(Str("false")); }
    }

    method ResolveShareControlRequest(m: Member, approve: bool, at: Option<Room>) returns (ok: bool)
      modifies this
      ensures Now() == Resolve(old(Now()), m, approve, at)
      ensures ok <==> at.Some? || RoomForMember(old(Now()), m).Some?
    {
      var room := at;
      if room.None? { room := RoomShareForMember(m); }
      if room.None? { return false; }
      if approve {
        var members := if room.value in ctrl then ctrl[room.value] else {};
        ctrl := ctrl[room.value := members + {m}];
        RequestHosting(Str("true"));
      }
      return true;
    }

    method ShareControlReleased(m: Member)
      modifies this
      ensures Now() == Release(old(Now()), m)
    {
      var room := RoomShareForMember(m);
      if room.None? { return; }
      if room.value in ctrl { ctrl := ctrl[room.value := ctrl[room.value] - {m}]; }
      SyncShareControllers(room.value);
    }

    method RevokeShareControl(room: Room, m: Member) returns (ok: bool)
      modifies this
      ensures Now() == Revoke(old(Now()), room, m)
      ensures ok <==> room in old(shares) && m in Controllers(old(Now()), room)
    {
      if room !in shares { return false; }
      if room !in ctrl || m !in ctrl[room] { return false; }
      ctrl := ctrl[room := ctrl[room] - {m}];
      SyncShareControllers(room);
      return true;
    }

    method EndRoomShareViewer(room: Room, m: Member) returns (ok: bool)
      modifies this
      ensures Now() == Kick(old(Now()), room, m)
      ensures ok <==> m in Viewers(old(Now()), room)
    {
      if room !in shares || m !in shares[room] { return false; }
      var call := shares[room][m];
      shares := shares[room := shares[room] - {m}];
      if call in calls && calls[call] == room && call in sessions {
        sessions := sessions - {call};
        calls := calls - {call};
      }
      if room in ctrl { ctrl := ctrl[room := ctrl[room] - {m}]; }
      if shares[room] == map[] {
        EndRoomShare(room);
      } else {
        SyncShareControllers(room);
      }
      return true;
    }
  }
}
