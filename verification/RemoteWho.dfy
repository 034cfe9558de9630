/** Who views, who controls, and which sessions there are, event by event; and the order in which shares are listed. */
module RemoteWho {
  import opened Options
  import opened RemoteArming
  import opened RemoteSafety

  // ---------- the share a member is found in ----------

  /** Of the shares that `m` views, `room` was opened first. */
  ghost predicate ViewedFirst(s: State, m: Member, room: Room) {
    exists i :: 0 <= i < |s.order| && s.order[i] == room && m in Viewers(s, room) && NoneBefore(s, m, i)
  }

  ghost predicate NoneBefore(s: State, m: Member, i: nat)
    requires i <= |s.order|
  {
    forall j :: 0 <= j < i ==> m !in Viewers(s, s.order[j])
  }

  lemma {:induction false} RoomInIs(s: State, m: Member, i: nat)
    requires i <= |s.order| && NoneBefore(s, m, i)
    ensures RoomIn(s, m, i).Some? ==> ViewedFirst(s, m, RoomIn(s, m, i).value)
    ensures RoomIn(s, m, i).None? ==> NoneBefore(s, m, |s.order|)
    decreases |s.order| - i
  {
    if i < |s.order| {
      if m in Viewers(s, s.order[i]) {
        assert ViewedFirst(s, m, s.order[i]);
      } else {
        RoomInIs(s, m, i + 1);
      }
    }
  }

  /** The share found for a member is, of those it views, the one opened first; none is found exactly if it views
      no listed share. */
  lemma ShareFound(s: State, m: Member, room: Room)
    ensures RoomForMember(s, m) == Some(room) <==> ViewedFirst(s, m, room)
    ensures RoomForMember(s, m) == None <==> forall r <- s.order :: m !in Viewers(s, r)
  {
    RoomInIs(s, m, 0);
    if RoomForMember(s, m).Some? {
      var found := RoomForMember(s, m).value;
      RoomInOrder(s, m, 0);
      RoomInViewed(s, m, 0);
      var i :| 0 <= i < |s.order| && s.order[i] == found && NoneBefore(s, m, i);
      if ViewedFirst(s, m, room) {
        var j :| 0 <= j < |s.order| && s.order[j] == room && m in Viewers(s, room) && NoneBefore(s, m, j);
        assert i <= j && j <= i;
      }
    } else {
      forall r <- s.order ensures m !in Viewers(s, r) {
        var j :| 0 <= j < |s.order| && s.order[j] == r;
      }
    }
  }

  // ---------- who controls ----------

  /** The hang-up of `call` takes the last viewers of a share away. */
  ghost predicate EmptiesShare(s: State, call: Call, room: Room) {
    && call in s.calls && s.calls[call] == room && room in s.shares
    && forall m <- s.shares[room] :: call in s.sessions && s.shares[room][m] == call
  }

  lemma EmptiesMeansEnds(s: State, call: Call, room: Room)
    ensures EmptiesShare(s, call, room) <==> EndsShare(s, call) && s.calls[call] == room
  {
    if call in s.calls && s.calls[call] == room && room in s.shares {
      var left := Left(s, room, call);
      if left == map[] {
        forall m <- s.shares[room] ensures call in s.sessions && s.shares[room][m] == call {
          assert m !in left;
        }
      }
      if EmptiesShare(s, call, room) {
        assert left.Keys == {};
      }
    }
  }

  /** Whom an event takes control from, and whom it gives it to. */
  ghost predicate Granted(s: State, e: Event, room: Room, m: Member) {
    match e
    case EResolve(n, approve, Some(at)) => approve && m == n && at == room
    case EResolve(n, approve, None) => approve && m == n && ViewedFirst(s, n, room)
    case _ => false
  }

  ghost predicate Withdrawn(s: State, e: Event, room: Room, m: Member) {
    match e
    case ERelease(n) => m == n && ViewedFirst(s, n, room)
    case ERevoke(r, n) => m == n && r == room && room in s.shares
    case EKick(r, n) => r == room && n in Viewers(s, room) && (m == n || s.shares[room].Keys == {n})
    case EEnd(r) => r == room
    case EHangup(call) => EmptiesShare(s, call, room)
    case _ => false
  }

  /** Control is given only by granting it, in the room named or the first one the member views; and it is lost only
      by giving it back there, by revoking it, by being removed, and with the share. */
  lemma WhoControls(s: State, e: Event, room: Room, m: Member)
    ensures m in Controllers(Step(s, e), room) <==>
      Granted(s, e, room, m) || (m in Controllers(s, room) && !Withdrawn(s, e, room, m))
  {
    match e
    case EResolve(n, approve, at) => ResolveControllers(s, n, approve, at, room, m);
    case ERelease(n) => ReleaseControllers(s, n, room);
    case EKick(r, n) => KickControllers(s, r, n, room);
    case EHangup(call) => HangupControllers(s, call, room);
    case _ =>
  }

  lemma ResolveControllers(s: State, n: Member, approve: bool, at: Option<Room>, room: Room, m: Member)
    ensures m in Controllers(Resolve(s, n, approve, at), room) <==>
      Granted(s, EResolve(n, approve, at), room, m) || m in Controllers(s, room)
  {
    ShareFound(s, n, room);
  }

  lemma ReleaseControllers(s: State, n: Member, room: Room)
    ensures Controllers(Release(s, n), room) ==
      if ViewedFirst(s, n, room) then Controllers(s, room) - {n} else Controllers(s, room)
  {
    ShareFound(s, n, room);
  }

  lemma KickControllers(s: State, r: Room, n: Member, room: Room)
    ensures Controllers(Kick(s, r, n), room) ==
      if r == room && n in Viewers(s, room)
      then if s.shares[room].Keys == {n} then {} else Controllers(s, room) - {n}
      else Controllers(s, room)
  {
    if n in Viewers(s, r) { KickedViews(s, r, n); }
  }

  lemma HangupControllers(s: State, call: Call, room: Room)
    ensures Controllers(Hangup(s, call), room) == if EmptiesShare(s, call, room) then {} else Controllers(s, room)
  {
    EmptiesMeansEnds(s, call, room);
    if EndsShare(s, call) {
      HungUpViews(s, call);
    } else {
      KeptShares(s, call);
    }
  }

  // ---------- who views ----------

  /** The call that serves a viewer of `room` afterwards, if it is one. */
  ghost function ServingAfter(s: State, e: Event, room: Room, m: Member): Option<Call> {
    var was := Serving(s, room, m);
    match e
    case EOpen(r) => if r == room then None else was
    case EEnd(r) => if r == room then None else was
    case EAdd(r, n, call) => if r == room && n == m && room in s.shares then Some(call) else was
    case EKick(r, n) => if r == room && n == m then None else was
    case EHangup(call) =>
      if call in s.calls && s.calls[call] == room && call in s.sessions && was == Some(call) then None else was
    case _ => was
  }

  /** A share is viewed by those invited to it since it was opened who were neither removed nor hung up, each over
      the call of its latest invitation. */
  lemma WhoViews(s: State, e: Event, room: Room, m: Member)
    ensures ServingAfter(s, e, room, m) == Serving(Step(s, e), room, m)
  {
    match e
    case EKick(r, n) => KickServing(s, r, n, room, m);
    case EHangup(call) => HangupServing(s, call, room, m);
    case _ =>
  }

  function Serving(s: State, room: Room, m: Member): Option<Call> {
    if m in Viewers(s, room) then Some(Viewers(s, room)[m]) else None
  }

  lemma KickServing(s: State, r: Room, n: Member, room: Room, m: Member)
    ensures ServingAfter(s, EKick(r, n), room, m) == Serving(Kick(s, r, n), room, m)
  {
    if n in Viewers(s, r) {
      KickedViews(s, r, n);
      assert s.shares[r].Keys == {n} && m in Viewers(s, r) ==> m == n;
    }
  }

  lemma HangupServing(s: State, call: Call, room: Room, m: Member)
    ensures ServingAfter(s, EHangup(call), room, m) == Serving(Hangup(s, call), room, m)
  {
    if call in s.calls && s.calls[call] in s.shares {
      HungUpViews(s, call);
      assert Left(s, s.calls[call], call) == map[] ==> m !in Left(s, s.calls[call], call);
    } else {
      assert Hangup(s, call).shares == s.shares;
    }
  }

  /** A share ends when it is ended, or when its last viewer is removed or hangs up. */
  lemma WhatIsShared(s: State, e: Event, room: Room)
    ensures room in Step(s, e).shares <==>
      || e == EOpen(room)
      || (room in s.shares && e != EEnd(room)
          && !(e.EKick? && e.room == room && s.shares[room].Keys == {e.m})
          && !(e.EHangup? && EmptiesShare(s, e.call, room)))
  {
    match e
    case EKick(r, n) => if n in Viewers(s, r) { KickedViews(s, r, n); }
    case EHangup(call) =>
      EmptiesMeansEnds(s, call, room);
      if call in s.calls && s.calls[call] in s.shares {
        HungUpViews(s, call);
      } else {
        assert Hangup(s, call).shares == s.shares;
      }
    case _ =>
  }

  // ---------- sessions ----------

  /** The session of `call` is closed: by its hang-up, with its share, or with the viewer it serves. */
  ghost predicate Closes(s: State, e: Event, call: Call) {
    match e
    case EHangup(c) => c == call || (call in s.calls && EmptiesShare(s, c, s.calls[call]))
    case EEnd(room) => call in s.calls && s.calls[call] == room
    case EKick(room, m) =>
      m in Viewers(s, room) && call in s.calls && s.calls[call] == room &&
      (s.shares[room].Keys == {m} || s.shares[room][m] == call)
    case _ => false
  }

  /** What a session is for: a viewer's is plain, an offered screen's waits for the capture and is hosted from then
      on, a joined one controls; each until it is closed. */
  lemma WhatSessions(s: State, e: Event, call: Call)
    ensures
      var t := Step(s, e);
      var was := if call in s.sessions then Some(s.sessions[call]) else None;
      (if call in t.sessions then Some(t.sessions[call]) else None) ==
        if Closes(s, e, call) then None
        else match e
             case EAdd(_, _, c) => if c == call then Some(Plain) else was
             case EOffer(c) => if c == call then Some(Offering) else was
             case EReady(c) => if c == call && was == Some(Offering) then Some(Hosted) else was
             case EJoin(c) => if c == call && was == None then Some(Controlling) else was
             case _ => was
  {
    match e
    case EKick(room, m) => KickedSessions(s, room, m, call);
    case EHangup(c) => HungUpSessions(s, c, call);
    case _ =>
  }

  lemma KickedSessions(s: State, room: Room, m: Member, call: Call)
    ensures
      var t := Kick(s, room, m);
      && (call in t.sessions <==> call in s.sessions && !Closes(s, EKick(room, m), call))
      && (call in t.sessions ==> t.sessions[call] == s.sessions[call])
  {
    if m in Viewers(s, room) { LastViewer(s, room, m); }
  }

  lemma HungUpSessions(s: State, c: Call, call: Call)
    ensures
      var t := Hangup(s, c);
      && (call in t.sessions <==> call in s.sessions && !Closes(s, EHangup(c), call))
      && (call in t.sessions ==> t.sessions[call] == s.sessions[call])
  {
    if c in s.calls {
      EmptiesMeansEnds(s, c, s.calls[c]);
      if !EndsShare(s, c) { KeptShares(s, c); }
    }
  }

  /** Which share a call carries: that of its latest invitation, until it hangs up, its viewer is removed while the
      call has a session, or the share ends. */
  lemma WhatCalls(s: State, e: Event, call: Call)
    ensures
      var t := Step(s, e);
      var was := if call in s.calls then Some(s.calls[call]) else None;
      (if call in t.calls then Some(t.calls[call]) else None) ==
        match e
        case EAdd(room, _, c) => if c == call then Some(room) else was
        case EHangup(c) => if Closes(s, e, call) then None else was
        case EEnd(_) => if Closes(s, e, call) then None else was
        case EKick(room, m) => if Unserved(s, room, m, call) then None else was
        case _ => was
  {
    match e
    case EKick(room, m) => KickedCalls(s, room, m, call);
    case EHangup(c) => HungUpCalls(s, c, call);
    case _ =>
  }

  ghost predicate Unserved(s: State, room: Room, m: Member, call: Call) {
    m in Viewers(s, room) && call in s.calls && s.calls[call] == room &&
    (s.shares[room].Keys == {m} || (s.shares[room][m] == call && call in s.sessions))
  }

  lemma KickedCalls(s: State, room: Room, m: Member, call: Call)
    ensures
      var t := Kick(s, room, m);
      && (call in t.calls <==> call in s.calls && !Unserved(s, room, m, call))
      && (call in t.calls ==> t.calls[call] == s.calls[call])
  {
    if m in Viewers(s, room) { LastViewer(s, room, m); }
  }

  lemma HungUpCalls(s: State, c: Call, call: Call)
    ensures
      var t := Hangup(s, c);
      && (call in t.calls <==> call in s.calls && !Closes(s, EHangup(c), call))
      && (call in t.calls ==> t.calls[call] == s.calls[call])
  {
    if c in s.calls { EmptiesMeansEnds(s, c, s.calls[c]); }
  }

  // ---------- the injector ----------

  /** The event disarms the injector: a share ends, or the last control of one is withdrawn. */
  ghost predicate Disarms(s: State, e: Event) {
    match e
    case EEnd(_) => true
    case ERelease(n) => exists room :: ViewedFirst(s, n, room) && Controllers(s, room) <= {n}
    case ERevoke(room, n) => room in s.shares && Controllers(s, room) == {n}
    case EKick(room, n) => n in Viewers(s, room) && (s.shares[room].Keys == {n} || Controllers(s, room) <= {n})
    case EHangup(call) => call in s.calls && EmptiesShare(s, call, s.calls[call])
    case _ => false
  }

  /** The event arms it: control is granted, the awaited capture is ready, or a call that is no share's and no
      ordinary one is hung up. */
  ghost predicate ArmsIt(s: State, e: Event) {
    match e
    case EResolve(_, approve, Some(_)) => approve
    case EResolve(n, approve, None) => approve && exists r <- s.order :: n in Viewers(s, r)
    case EReady(call) => call in s.sessions && s.sessions[call] == Offering
    case EHangup(call) => call !in s.calls && call in s.sessions && s.sessions[call] != Plain
    case _ => false
  }

  /** From every state, whether as it should be or not: the injector is armed or disarmed by those events alone. */
  lemma WhatArms(s: State, e: Event)
    ensures Step(s, e).hosting == (if Disarms(s, e) then false else if ArmsIt(s, e) then true else s.hosting)
  {
    match e
    case EResolve(n, approve, at) => ShareFound(s, n, "");
    case ERelease(n) => ReleaseDisarms(s, n);
    case ERevoke(room, n) => if room in s.shares { Emptied(Controllers(s, room), n); }
    case EKick(room, n) => KickDisarms(s, room, n);
    case EHangup(call) => if call in s.calls { HangupDisarms(s, call); }
    case _ =>
  }

  lemma Emptied(members: set<Member>, m: Member)
    ensures members - {m} == {} <==> members <= {m}
  {
  }

  lemma ReleaseDisarms(s: State, n: Member)
    ensures Release(s, n).hosting == (s.hosting && !Disarms(s, ERelease(n)))
  {
    if RoomForMember(s, n).None? {
      assert forall room :: ViewedFirst(s, n, room) ==> RoomForMember(s, n) == Some(room) by {
        forall room ensures ViewedFirst(s, n, room) ==> RoomForMember(s, n) == Some(room) { ShareFound(s, n, room); }
      }
    } else {
      var found := RoomForMember(s, n).value;
      Emptied(Controllers(s, found), n);
      forall room ensures ViewedFirst(s, n, room) <==> room == found { ShareFound(s, n, room); }
    }
  }

  lemma KickDisarms(s: State, room: Room, n: Member)
    ensures Kick(s, room, n).hosting == (s.hosting && !Disarms(s, EKick(room, n)))
  {
    if n in Viewers(s, room) {
      LastViewer(s, room, n);
      Emptied(Controllers(s, room), n);
    }
  }

  lemma HangupDisarms(s: State, call: Call)
    requires call in s.calls
    ensures Hangup(s, call).hosting == (s.hosting && !Disarms(s, EHangup(call)))
  {
    EmptiesMeansEnds(s, call, s.calls[call]);
    if !EndsShare(s, call) { KeptShares(s, call); }
  }

  // ---------- the list of shares ----------

  /** The list names every share once. */
  ghost predicate Listed(s: State) {
    && (forall r :: r in s.order <==> r in s.shares)
    && forall i, j :: 0 <= i < j < |s.order| ==> s.order[i] != s.order[j]
  }

  /** Taken out of a list without repeats, a room leaves the others in their order. */
  lemma {:induction false} DropRoomAt(order: seq<Room>, i: nat)
    requires i < |order| && forall j, k :: 0 <= j < k < |order| ==> order[j] != order[k]
    ensures DropRoom(order, order[i]) == order[..i] + order[i + 1..]
  {
    var n := |order| - 1;
    var init := order[..n];
    if i < n {
      DropRoomAt(init, i);
      assert order[i + 1..] == init[i + 1..] + [order[n]];
    } else {
      DropRoomAbsent(init, order[n]);
    }
  }

  lemma {:induction false} DropRoomAbsent(order: seq<Room>, room: Room)
    requires room !in order
    ensures DropRoom(order, room) == order
  {
    if order != [] {
      DropRoomAbsent(order[..|order| - 1], room);
    }
  }

  /** The list after a share is gone. */
  ghost predicate Unlisted(was: seq<Room>, now: seq<Room>, room: Room) {
    if room in was then exists i :: 0 <= i < |was| && was[i] == room && now == was[..i] + was[i + 1..] else now == was
  }

  lemma DropRoomUnlists(order: seq<Room>, room: Room)
    requires forall j, k :: 0 <= j < k < |order| ==> order[j] != order[k]
    ensures Unlisted(order, DropRoom(order, room), room)
  {
    if room in order {
      var i :| 0 <= i < |order| && order[i] == room;
      DropRoomAt(order, i);
    } else {
      DropRoomAbsent(order, room);
    }
  }

  /** At most one share is gone, and out of the list. */
  ghost predicate OneGone(s: State, t: State) {
    if t.shares.Keys == s.shares.Keys then t.order == s.order
    else exists room :: room in s.shares && t.shares.Keys == s.shares.Keys - {room} && Unlisted(s.order, t.order, room)
  }

  lemma DropsOne(s: State, t: State, room: Room)
    requires Listed(s) && t.order == DropRoom(s.order, room) && t.shares.Keys == s.shares.Keys - {room}
    ensures OneGone(s, t)
  {
    if room in s.shares {
      DropRoomUnlists(s.order, room);
      assert room in s.shares.Keys && room !in t.shares.Keys;
    } else {
      DropRoomAbsent(s.order, room);
      assert room !in s.shares.Keys;
    }
  }

  lemma EndUnlists(s: State, left: State, room: Room)
    requires Listed(s) && left.order == s.order && left.shares.Keys == s.shares.Keys
    ensures OneGone(s, EndShare(left, room))
  {
    DropsOne(s, EndShare(left, room), room);
  }

  lemma KickUnlists(s: State, room: Room, m: Member)
    requires Listed(s)
    ensures OneGone(s, Kick(s, room, m))
  {
    if m in Viewers(s, room) {
      LastViewer(s, room, m);
      if s.shares[room].Keys == {m} {
        EndUnlists(s, Removed(s, room, m), room);
      } else {
        assert Kick(s, room, m).shares.Keys == s.shares.Keys;
      }
    }
  }

  lemma HangupUnlists(s: State, call: Call)
    requires Listed(s)
    ensures OneGone(s, Hangup(s, call))
  {
    var t := Hangup(s, call);
    if EndsShare(s, call) {
      HungUpViews(s, call);
      DropsOne(s, t, s.calls[call]);
    } else {
      HungUpKeeps(s, call);
    }
  }

  lemma HungUpKeeps(s: State, call: Call)
    requires !EndsShare(s, call)
    ensures Hangup(s, call).order == s.order && Hangup(s, call).shares.Keys == s.shares.Keys
  {
  }

  /** At every step shares are listed in the order in which they were opened: a new one comes last, an ended one is
      taken out, and opening one again does not move it. */
  lemma ListStep(s: State, e: Event)
    requires Listed(s)
    ensures
      var t := Step(s, e);
      if e.EOpen? && e.room !in s.shares then t.order == s.order + [e.room] && t.shares.Keys == s.shares.Keys + {e.room}
      else OneGone(s, t)
    ensures Listed(Step(s, e))
  {
    match e
    case EOpen(room) => OpenListed(s, room);
    case EEnd(room) => GoneListed(s, room);
    case EKick(room, m) => KickListed(s, room, m);
    case EHangup(call) => HangupListed(s, call);
    case _ => OthersListed(s, e);
  }

  lemma OthersListed(s: State, e: Event)
    requires Listed(s) && !e.EOpen? && !e.EEnd? && !e.EKick? && !e.EHangup?
    ensures OneGone(s, Step(s, e)) && Listed(Step(s, e))
  {
    ListKept(s, e);
    StillListed(s, Step(s, e));
  }

  lemma ListKept(s: State, e: Event)
    requires !e.EOpen? && !e.EEnd? && !e.EKick? && !e.EHangup?
    ensures Step(s, e).order == s.order && Step(s, e).shares.Keys == s.shares.Keys
  {
  }

  lemma OpenListed(s: State, room: Room)
    requires Listed(s)
    ensures OpenShare(s, room).shares.Keys == s.shares.Keys + {room}
    ensures room in s.shares ==> s.shares.Keys + {room} == s.shares.Keys
    ensures Listed(OpenShare(s, room))
  {
  }

  lemma GoneListed(s: State, room: Room)
    requires Listed(s)
    ensures OneGone(s, EndShare(s, room)) && Listed(EndShare(s, room))
  {
    EndUnlists(s, s, room);
    StillListed(s, EndShare(s, room));
  }

  lemma KickListed(s: State, room: Room, m: Member)
    requires Listed(s)
    ensures OneGone(s, Kick(s, room, m)) && Listed(Kick(s, room, m))
  {
    KickUnlists(s, room, m);
    StillListed(s, Kick(s, room, m));
  }

  lemma HangupListed(s: State, call: Call)
    requires Listed(s)
    ensures OneGone(s, Hangup(s, call)) && Listed(Hangup(s, call))
  {
    HangupUnlists(s, call);
    StillListed(s, Hangup(s, call));
  }

  lemma StillListed(s: State, t: State)
    requires Listed(s) && OneGone(s, t)
    ensures Listed(t)
  {
    if t.shares.Keys == s.shares.Keys {
      assert forall r :: r in t.shares <==> r in t.shares.Keys;
    } else {
      var room :| room in s.shares && t.shares.Keys == s.shares.Keys - {room} && Unlisted(s.order, t.order, room);
      UnlistedIs(s.order, t.order, room);
      assert forall r :: r in t.shares <==> r in t.shares.Keys;
    }
  }

  /** In every run the list names every share once. */
  lemma {:induction false} SharesAreListed(run: seq<Event>)
    ensures Listed(After(run))
  {
    if run != [] {
      SharesAreListed(run[..|run| - 1]);
      ListStep(After(run[..|run| - 1]), run[|run| - 1]);
    }
  }

  lemma UnlistedIs(was: seq<Room>, now: seq<Room>, room: Room)
    requires Unlisted(was, now, room) && forall j, k :: 0 <= j < k < |was| ==> was[j] != was[k]
    ensures forall r :: r in now <==> r in was && r != room
    ensures forall j, k :: 0 <= j < k < |now| ==> now[j] != now[k]
  {
    if room in was {
      var i :| 0 <= i < |was| && was[i] == room && now == was[..i] + was[i + 1..];
      forall r ensures r in now <==> r in was && r != room {
        if r in was && r != room {
          var j :| 0 <= j < |was| && was[j] == r;
          assert now[if j < i then j else j - 1] == r;
        }
      }
    }
  }
}
