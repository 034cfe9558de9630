/** When the injector is armed exactly while somebody controls, and when those in control all view. */
module RemoteSafety {
  import opened Options
  import opened RemoteArming

  // ---------- armed exactly while somebody controls ----------

  ghost predicate Controlled(s: State) { exists room :: Controllers(s, room) != {} }

  ghost predicate ControlledElsewhere(s: State, room: Room) { exists r :: r != room && Controllers(s, r) != {} }

  /** This screen is hosted in a remote-control call with one peer. */
  predicate RemoteCall(s: State, call: Call) { call in s.sessions && s.sessions[call] == Hosted }

  /** Such a call other than `gone` is up. */
  ghost predicate Live(s: State, gone: set<Call>) { exists c :: RemoteCall(s, c) && c !in gone }

  /** The injector is armed exactly while somebody controls a share or a hosted remote-control call is up. */
  ghost predicate Agree(s: State) { s.hosting <==> Controlled(s) || Live(s, {}) }

  function CallsOf(s: State, room: Room): set<Call> { set c | c in s.calls && s.calls[c] == room }

  /** The hang-up empties a share. */
  predicate EndsShare(s: State, call: Call) {
    call in s.calls && s.calls[call] in s.shares && Left(s, s.calls[call], call) == map[]
  }

  /** The call that goes with a removed viewer, if it is still on record. */
  function ServedBy(s: State, room: Room, m: Member): set<Call>
    requires m in Viewers(s, room)
  {
    var call := s.shares[room][m];
    if call in s.calls && s.calls[call] == room && call in s.sessions then {call} else {}
  }

  /** The hang-up arms the injector, or leaves it as it is although the session it ends was hosted. */
  predicate LeavesArmed(s: State, call: Call) {
    call in s.sessions && if call in s.calls then s.sessions[call] == Hosted else s.sessions[call] != Plain
  }

  /** The step sends the injector a request that the controllers and calls do not bear out: it disarms when
      the last viewer or controller of one share goes while another share is controlled or a hosted call is up;
      and a hang-up arms or does not disarm, though nobody controls and no other hosted call is up, not only
      when it ends a hosted call but also while the capture is awaited and at the controlling end. */
  ghost predicate Spoils(s: State, e: Event) {
    match e
    case EEnd(room) => ControlledElsewhere(s, room) || Live(s, CallsOf(s, room))
    case EHangup(call) =>
      if EndsShare(s, call)
      then ControlledElsewhere(s, s.calls[call]) || Live(s, CallsOf(s, s.calls[call]))
      else LeavesArmed(s, call) && !Controlled(s) && !Live(s, {call})
    case ERelease(m) =>
      var r := RoomForMember(s, m);
      r.Some? && Controllers(s, r.value) <= {m} && (ControlledElsewhere(s, r.value) || Live(s, {}))
    case ERevoke(room, m) =>
      room in s.shares && Controllers(s, room) == {m} && (ControlledElsewhere(s, room) || Live(s, {}))
    case EKick(room, m) =>
      m in Viewers(s, room) &&
      if s.shares[room].Keys == {m} then ControlledElsewhere(s, room) || Live(s, CallsOf(s, room))
      else if Controllers(s, room) <= {m} then ControlledElsewhere(s, room) || Live(s, ServedBy(s, room, m))
      else false
    // not with a call's id that is new, as the program's are
    case EAdd(_, _, call) => RemoteCall(s, call) && !Controlled(s) && !Live(s, {call})
    case EOffer(call) => RemoteCall(s, call) && !Controlled(s) && !Live(s, {call})
    case _ => false
  }

  /** The viewers of `room` once the peer of `call` hung up. */
  function Left(s: State, room: Room, call: Call): map<Member, Call> {
    if call in s.sessions then WithoutCall(Viewers(s, room), call) else Viewers(s, room)
  }

  /** `t` has `members` in control of `room`, and elsewhere whoever `s` has. */
  ghost predicate Changes(s: State, t: State, room: Room, members: set<Member>) {
    && Controllers(t, room) == members
    && forall r :: r != room ==> Controllers(t, r) == Controllers(s, r)
  }

  lemma ControlledAfter(s: State, t: State, room: Room, members: set<Member>)
    requires Changes(s, t, room, members)
    ensures Controlled(t) <==> members != {} || ControlledElsewhere(s, room)
  {
    if r :| r != room && Controllers(s, r) != {} {
      assert Controllers(t, r) != {};
    }
    if members != {} {
      assert Controllers(t, room) != {};
    }
  }

  /** `t` has lost the sessions in `gone`, and gained no remote-control call. */
  lemma LiveAfter(s: State, t: State, gone: set<Call>)
    requires forall c :: RemoteCall(t, c) <==> RemoteCall(s, c) && c !in gone
    ensures Live(t, {}) <==> Live(s, gone)
  {
    if c :| RemoteCall(s, c) && c !in gone {
      assert RemoteCall(t, c);
    }
    if c :| RemoteCall(t, c) {
      assert RemoteCall(s, c);
    }
  }

  lemma LiveSplit(s: State, call: Call)
    ensures Live(s, {}) <==> RemoteCall(s, call) || Live(s, {call})
  {
  }

  lemma EndAgrees(s: State, room: Room)
    ensures Agree(EndShare(s, room)) <==> !(ControlledElsewhere(s, room) || Live(s, CallsOf(s, room)))
  {
    ControlledAfter(s, EndShare(s, room), room, {});
    LiveAfter(s, EndShare(s, room), CallsOf(s, room));
  }

  /** Taking control from `m` in `room`, then disarming if nobody is left, keeps the agreement unless another
      room is under control or a call is up. */
  lemma TakenAgrees(s: State, room: Room, m: Member)
    requires Agree(s)
    ensures
      Agree(Disarm(Uncontrol(s, room, m), room)) <==>
      !(Controllers(s, room) <= {m} && (ControlledElsewhere(s, room) || Live(s, {})))
  {
    var t := Disarm(Uncontrol(s, room, m), room);
    var members := Controllers(s, room) - {m};
    assert members == {} <==> Controllers(s, room) <= {m};
    ControlledAfter(s, t, room, members);
    ControlledAfter(s, s, room, Controllers(s, room));
    LiveAfter(s, t, {});
  }

  lemma SameCtrl(s: State, t: State)
    requires s.ctrl == t.ctrl
    ensures Controlled(s) == Controlled(t)
    ensures forall room :: ControlledElsewhere(s, room) == ControlledElsewhere(t, room)
  {
    assert forall room :: Controllers(s, room) == Controllers(t, room);
  }

  /** From a state where the injector is armed exactly while somebody controls or a remote-control call is up,
      a step leads to another such state exactly if it does not spoil it. */
  lemma ArmedExactlyUnlessSpoiled(s: State, e: Event)
    requires Agree(s)
    ensures Agree(Step(s, e)) <==> !Spoils(s, e)
  {
    match e
    case EOpen(room) => SameCtrl(s, OpenShare(s, room));
    case EAdd(room, m, call) => AddAgrees(s, room, m, call);
    case EEnd(room) => EndAgrees(s, room);
    case EHangup(call) => HangupAgrees(s, call);
    case EResolve(m, approve, at) => ResolveAgrees(s, m, approve, at);
    case ERelease(m) => if RoomForMember(s, m).Some? { TakenAgrees(s, RoomForMember(s, m).value, m); }
    case ERevoke(room, m) => if room in s.shares && m in Controllers(s, room) { TakenAgrees(s, room, m); }
    case EKick(room, m) => KickAgrees(s, room, m);
    case EOffer(call) => OfferAgrees(s, call);
    case EReady(call) => ReadyAgrees(s, call);
    case EJoin(call) =>
      SameCtrl(s, JoinScreen(s, call));
      LiveAfter(s, JoinScreen(s, call), {});
  }

  lemma OfferAgrees(s: State, call: Call)
    requires Agree(s)
    ensures Agree(OfferScreen(s, call)) <==> !Spoils(s, EOffer(call))
  {
    var t := OfferScreen(s, call);
    SameCtrl(s, t);
    LiveAfter(s, t, {call});
    LiveSplit(s, call);
  }

  lemma ReadyAgrees(s: State, call: Call)
    requires Agree(s)
    ensures Agree(ScreenReady(s, call))
  {
    if call in s.sessions && s.sessions[call] == Offering {
      assert RemoteCall(ScreenReady(s, call), call);
    }
  }

  lemma AddAgrees(s: State, room: Room, m: Member, call: Call)
    requires Agree(s)
    ensures Agree(AddViewer(s, room, m, call)) <==> !Spoils(s, EAdd(room, m, call))
  {
    var t := AddViewer(s, room, m, call);
    SameCtrl(s, t);
    LiveAfter(s, t, {call});
    LiveSplit(s, call);
  }

  lemma ResolveAgrees(s: State, m: Member, approve: bool, at: Option<Room>)
    requires Agree(s)
    ensures Agree(Resolve(s, m, approve, at))
  {
    var r := if at.Some? then at else RoomForMember(s, m);
    if r.Some? && approve {
      assert Controllers(Resolve(s, m, approve, at), r.value) != {};
    }
  }

  lemma HangupAgrees(s: State, call: Call)
    requires Agree(s)
    ensures Agree(Hangup(s, call)) <==> !Spoils(s, EHangup(call))
  {
    var t := Hangup(s, call);
    if EndsShare(s, call) {
      EndedAgrees(s, call);
    } else {
      KeptShares(s, call);
      SameCtrl(s, t);
      LiveAfter(s, t, {call});
      LiveSplit(s, call);
    }
  }

  lemma KeptShares(s: State, call: Call)
    requires !EndsShare(s, call)
    ensures
      var t := Hangup(s, call);
      && t.ctrl == s.ctrl && t.sessions == s.sessions - {call}
      && t.hosting == (s.hosting || (call !in s.calls && LeavesArmed(s, call)))
  {
  }

  lemma EndedAgrees(s: State, call: Call)
    requires EndsShare(s, call)
    ensures Agree(Hangup(s, call)) <==> !(ControlledElsewhere(s, s.calls[call]) || Live(s, CallsOf(s, s.calls[call])))
  {
    var room := s.calls[call];
    var left := if call in s.sessions then s.(shares := s.shares[room := WithoutCall(s.shares[room], call)]) else s;
    var ended := EndShare(left, room);
    var t := Hangup(s, call);
    assert t == ended.(sessions := ended.sessions - {call}, calls := ended.calls - {call});
    EndAgrees(left, room);
    SameCtrl(s, left);
    SameCtrl(ended, t);
    assert CallsOf(left, room) == CallsOf(s, room);
    LiveAfter(s, t, CallsOf(s, room));
    LiveAfter(s, ended, CallsOf(s, room));
  }

  lemma LastViewer(s: State, room: Room, m: Member)
    requires m in Viewers(s, room)
    ensures Removed(s, room, m).shares[room] == map[] <==> s.shares[room].Keys == {m}
  {
    var rest := s.shares[room] - {m};
    assert rest == map[] <==> rest.Keys == {};
  }

  lemma KickAgrees(s: State, room: Room, m: Member)
    requires Agree(s)
    ensures Agree(Kick(s, room, m)) <==> !Spoils(s, EKick(room, m))
  {
    if m in Viewers(s, room) {
      LastViewer(s, room, m);
      if s.shares[room].Keys == {m} {
        LastKickAgrees(s, room, m);
      } else {
        OtherKickAgrees(s, room, m);
      }
    }
  }

  lemma LastKickAgrees(s: State, room: Room, m: Member)
    requires m in Viewers(s, room)
    ensures Agree(EndShare(Removed(s, room, m), room)) <==> !(ControlledElsewhere(s, room) || Live(s, CallsOf(s, room)))
  {
    var t := EndShare(Removed(s, room, m), room);
    ControlledAfter(s, t, room, {});
    LiveAfter(s, t, CallsOf(s, room));
  }

  lemma OtherKickAgrees(s: State, room: Room, m: Member)
    requires Agree(s) && m in Viewers(s, room)
    ensures
      Agree(Disarm(Removed(s, room, m), room)) <==>
      !(Controllers(s, room) <= {m} && (ControlledElsewhere(s, room) || Live(s, ServedBy(s, room, m))))
  {
    var t := Disarm(Removed(s, room, m), room);
    var members := Controllers(s, room) - {m};
    assert members == {} <==> Controllers(s, room) <= {m};
    ControlledAfter(s, t, room, members);
    ControlledAfter(s, s, room, Controllers(s, room));
    LiveAfter(s, t, ServedBy(s, room, m));
  }

  // ---------- runs ----------

  function After(run: seq<Event>): State {
    if run == [] then START else Step(After(run[..|run| - 1]), run[|run| - 1])
  }

  /** Armed as it should be at every moment of the run. */
  ghost predicate AlwaysAgrees(run: seq<Event>) {
    forall i :: 0 <= i <= |run| ==> Agree(After(run[..i]))
  }

  ghost predicate NeverSpoils(run: seq<Event>) {
    forall i :: 0 <= i < |run| ==> !Spoils(After(run[..i]), run[i])
  }

  /** From the start, over every run: the injector is at every moment armed exactly while somebody controls or
      this screen is hosted in a remote-control call, if and only if no step of the run spoils that. */
  lemma {:induction false} ArmedExactlyIffNeverSpoiled(run: seq<Event>)
    ensures AlwaysAgrees(run) <==> NeverSpoils(run)
  {
    if run == [] {
      assert !Controlled(START) && !Live(START, {});
    } else {
      var n := |run| - 1;
      ArmedExactlyIffNeverSpoiled(run[..n]);
      AgreesSnoc(run);
      SpoilsSnoc(run);
      if AlwaysAgrees(run[..n]) {
        AgreesAtEnd(run[..n]);
        ArmedExactlyUnlessSpoiled(After(run[..n]), run[n]);
      }
    }
  }

  lemma AgreesAtEnd(run: seq<Event>)
    requires AlwaysAgrees(run)
    ensures Agree(After(run))
  {
    assert run[..|run|] == run;
  }

  lemma AgreesSnoc(run: seq<Event>)
    requires run != []
    ensures AlwaysAgrees(run) <==> AlwaysAgrees(run[..|run| - 1]) && Agree(After(run))
  {
    var init := run[..|run| - 1];
    forall i | 0 <= i < |run| ensures run[..i] == init[..i] {
    }
    assert run[..|run|] == run;
    if AlwaysAgrees(run) {
      forall i | 0 <= i <= |init| ensures Agree(After(init[..i])) {
        assert Agree(After(run[..i]));
      }
    }
    if AlwaysAgrees(init) && Agree(After(run)) {
      forall i | 0 <= i <= |run| ensures Agree(After(run[..i])) {
        if i < |run| { assert Agree(After(init[..i])); }
      }
    }
  }

  lemma SpoilsSnoc(run: seq<Event>)
    requires run != []
    ensures
      var n := |run| - 1;
      NeverSpoils(run) <==> NeverSpoils(run[..n]) && !Spoils(After(run[..n]), run[n])
  {
    var n := |run| - 1;
    var init := run[..n];
    forall i | 0 <= i < n ensures run[..i] == init[..i] && run[i] == init[i] {
    }
    if NeverSpoils(run) {
      forall i | 0 <= i < n ensures !Spoils(After(init[..i]), init[i]) {
        assert !Spoils(After(run[..i]), run[i]);
      }
    }
    if NeverSpoils(init) && !Spoils(After(init), run[n]) {
      forall i | 0 <= i < |run| ensures !Spoils(After(run[..i]), run[i]) {
        if i < n { assert !Spoils(After(init[..i]), init[i]); }
      }
    }
  }

  lemma AfterSnoc(run: seq<Event>, e: Event)
    ensures After(run + [e]) == Step(After(run), e)
  {
    assert (run + [e])[..|run|] == run;
  }

  lemma AfterTwo(a: Event, b: Event)
    ensures After([a]) == Step(START, a)
    ensures After([a, b]) == Step(Step(START, a), b)
  {
    AfterSnoc([], a);
    assert [] + [a] == [a] && [a] + [b] == [a, b];
    AfterSnoc([a], b);
  }

  /** Nobody controls, and there is no session at all, yet the injector is armed. */
  ghost predicate ArmedForNobody(s: State) { s.hosting && s.sessions == map[] && !Controlled(s) && !Live(s, {}) }

  lemma GoneAgain(call: Call, kind: Kind)
    ensures map[call := kind] - {call} == map[]
  {
  }

  /** A hang-up during the wait for the capture arms the injector, and so does one by the host of a screen that
      is controlled from here. */
  lemma HangupArms(call: Call)
    ensures ArmedForNobody(After([EOffer(call), EHangup(call)]))
    ensures ArmedForNobody(After([EJoin(call), EHangup(call)]))
  {
    AfterTwo(EOffer(call), EHangup(call));
    AfterTwo(EJoin(call), EHangup(call));
    GoneAgain(call, Offering);
    GoneAgain(call, Controlling);
  }

  /** One remote-control call with one peer, begun, hosted and ended: the injector stays armed with nobody left. */
  lemma EndedCallStaysArmed(call: Call)
    ensures ArmedForNobody(After([EOffer(call), EReady(call), EHangup(call)]))
  {
    HostedCall(call);
    AfterSnoc([EOffer(call), EReady(call)], EHangup(call));
    assert [EOffer(call), EReady(call)] + [EHangup(call)] == [EOffer(call), EReady(call), EHangup(call)];
    GoneAgain(call, Hosted);
  }

  lemma HostedCall(call: Call)
    ensures After([EOffer(call), EReady(call)]) == START.(sessions := map[call := Hosted], hosting := true)
  {
    AfterTwo(EOffer(call), EReady(call));
  }

  /** Ending a share disarms the injector under a remote-control call that is still up. */
  lemma EndedShareDisarmsCall(call: Call, room: Room)
    ensures
      var t := After([EOffer(call), EReady(call), EOpen(room), EEnd(room)]);
      !t.hosting && RemoteCall(t, call)
  {
    var two := [EOffer(call), EReady(call)];
    HostedCall(call);
    AfterSnoc(two, EOpen(room));
    AfterSnoc(two + [EOpen(room)], EEnd(room));
    assert two + [EOpen(room)] + [EEnd(room)] == [EOffer(call), EReady(call), EOpen(room), EEnd(room)];
    EndedShareKeepsCall(After(two + [EOpen(room)]), call, room);
  }

  lemma EndedShareKeepsCall(s: State, call: Call, room: Room)
    requires RemoteCall(s, call) && call !in s.calls
    ensures RemoteCall(EndShare(s, room), call) && !EndShare(s, room).hosting
  {
  }

  // ---------- one share ----------

  /** Only `room` is ever shared or controlled, and there is no remote-control call with one peer. */
  predicate InOne(e: Event, room: Room) {
    match e
    case EOpen(r) => r == room
    case EAdd(r, _, _) => r == room
    case EEnd(r) => r == room
    case EResolve(_, _, at) => at == None || at == Some(room)
    case EOffer(_) => false
    case EJoin(_) => false
    case _ => true
  }

  predicate OneShare(run: seq<Event>, room: Room) {
    forall e <- run :: InOne(e, room)
  }

  predicate Only(s: State, room: Room) {
    && s.ctrl.Keys <= {room} && s.shares.Keys <= {room} && (forall r <- s.order :: r == room)
    && (forall c <- s.calls :: s.calls[c] == room)
    && forall c <- s.sessions :: s.sessions[c] == Plain
  }

  lemma {:induction false} RoomInOrder(s: State, m: Member, i: nat)
    requires i <= |s.order|
    ensures RoomIn(s, m, i).Some? ==> RoomIn(s, m, i).value in s.order && RoomIn(s, m, i).value in s.shares
    decreases |s.order| - i
  {
    if i < |s.order| && m !in Viewers(s, s.order[i]) {
      RoomInOrder(s, m, i + 1);
    }
  }

  lemma {:induction false} DropRoomKeeps(order: seq<Room>, room: Room)
    ensures forall r :: r in DropRoom(order, room) <==> r in order && r != room
  {
    if order != [] {
      DropRoomKeeps(order[..|order| - 1], room);
      assert order == order[..|order| - 1] + [order[|order| - 1]];
    }
  }

  lemma EndKeepsOnly(s: State, room: Room, r: Room)
    requires Only(s, room)
    ensures Only(EndShare(s, r), room)
  {
    DropRoomKeeps(s.order, r);
  }

  lemma HangupKeepsOnly(s: State, room: Room, call: Call)
    requires Only(s, room)
    ensures Only(Hangup(s, call), room)
  {
    if call in s.calls && room in s.shares {
      var left := if call in s.sessions then s.(shares := s.shares[room := WithoutCall(s.shares[room], call)]) else s;
      assert Only(left, room);
      EndKeepsOnly(left, room, room);
    }
  }

  lemma KickKeepsOnly(s: State, room: Room, r: Room, m: Member)
    requires Only(s, room)
    ensures Only(Kick(s, r, m), room)
  {
    if m in Viewers(s, r) {
      assert Only(Removed(s, r, m), room);
      EndKeepsOnly(Removed(s, r, m), room, r);
    }
  }

  lemma StepKeepsOnly(s: State, e: Event, room: Room)
    requires Only(s, room) && InOne(e, room)
    ensures Only(Step(s, e), room)
  {
    match e
    case EEnd(r) => EndKeepsOnly(s, room, r);
    case EHangup(call) => HangupKeepsOnly(s, room, call);
    case EKick(r, m) => KickKeepsOnly(s, room, r, m);
    case EResolve(m, _, _) => RoomInOrder(s, m, 0);
    case ERelease(m) => RoomInOrder(s, m, 0);
    case _ =>
  }

  lemma OneShareNeverSpoils(s: State, e: Event, room: Room)
    requires Only(s, room) && InOne(e, room)
    ensures !Spoils(s, e)
  {
    assert !ControlledElsewhere(s, room);
    assert forall gone :: !Live(s, gone);
    match e
    case ERelease(m) => RoomInOrder(s, m, 0);
    case _ =>
  }

  /** With one room shared and no remote-control call, whatever is granted, denied, released, revoked, kicked,
      hung up or ended, and in whatever order: the injector is armed exactly while somebody controls. */
  lemma {:induction false} OneShareIsArmedExactly(run: seq<Event>, room: Room)
    requires OneShare(run, room)
    ensures After(run).hosting <==> Controllers(After(run), room) != {}
    ensures Only(After(run), room)
  {
    if run != [] {
      var init, e := run[..|run| - 1], run[|run| - 1];
      assert run == init + [e];
      OneShareIsArmedExactly(init, room);
      assert InOne(e, room);
      OnlyAgrees(After(init), room);
      StepKeepsOnly(After(init), e, room);
      OneShareNeverSpoils(After(init), e, room);
      ArmedExactlyUnlessSpoiled(After(init), e);
      OnlyAgrees(After(run), room);
    }
  }

  lemma OnlyAgrees(s: State, room: Room)
    requires Only(s, room)
    ensures Agree(s) <==> (s.hosting <==> Controllers(s, room) != {})
  {
    ControlledAfter(s, s, room, Controllers(s, room));
    assert !ControlledElsewhere(s, room) && !Live(s, {});
  }

  // ---------- controllers who left ----------

  /** Everybody in control views the share. */
  ghost predicate ControllersView(s: State) {
    forall room, m :: m in Controllers(s, room) ==> m in Viewers(s, room)
  }

  /** The step leaves somebody in control who does not view: a controlling viewer hangs up while others still
      view, a share is opened anew over a controlled one, or control is granted in a room the member does not view. */
  ghost predicate Strands(s: State, e: Event) {
    match e
    case EOpen(room) => Controllers(s, room) != {}
    case EHangup(call) =>
      && call in s.calls
      && Left(s, s.calls[call], call) != map[]
      && exists m <- Controllers(s, s.calls[call]) :: m !in Left(s, s.calls[call], call)
    case EResolve(m, approve, Some(room)) => approve && m !in Viewers(s, room)
    case _ => false
  }

  lemma ControllersViewUnlessStranded(s: State, e: Event)
    requires ControllersView(s)
    ensures ControllersView(Step(s, e)) <==> !Strands(s, e)
  {
    match e
    case EOpen(room) => OpenStrands(s, room);
    case EHangup(call) => HangupStrands(s, call);
    case EResolve(m, approve, at) => ResolveStrands(s, m, approve, at);
    case EKick(room, m) => KickStrandsNobody(s, room, m);
    case _ => OtherStepsStrandNobody(s, e);
  }

  lemma OtherStepsStrandNobody(s: State, e: Event)
    requires ControllersView(s)
    requires e.EAdd? || e.EEnd? || e.ERelease? || e.ERevoke? || e.EOffer? || e.EReady? || e.EJoin?
    ensures ControllersView(Step(s, e))
  {
    match e
    case EAdd(room, m, call) => AddStrandsNobody(s, room, m, call);
    case EEnd(room) => EndStrandsNobody(s, room);
    case ERelease(m) => if RoomForMember(s, m).Some? { TakingStrandsNobody(s, RoomForMember(s, m).value, m); }
    case ERevoke(room, m) =>
      if room in s.shares && m in Controllers(s, room) { TakingStrandsNobody(s, room, m); }
    case EOffer(call) => ViewKept(s, OfferScreen(s, call));
    case EReady(call) => ViewKept(s, ScreenReady(s, call));
    case EJoin(call) => ViewKept(s, JoinScreen(s, call));
  }

  lemma EndStrandsNobody(s: State, room: Room)
    requires ControllersView(s)
    ensures ControllersView(EndShare(s, room))
  {
    ViewKept(s, EndShare(s, room));
  }

  lemma TakingStrandsNobody(s: State, room: Room, m: Member)
    requires ControllersView(s)
    ensures ControllersView(Disarm(Uncontrol(s, room, m), room))
  {
    ViewKept(s, Disarm(Uncontrol(s, room, m), room));
  }

  lemma AddStrandsNobody(s: State, room: Room, m: Member, call: Call)
    requires ControllersView(s)
    ensures ControllersView(AddViewer(s, room, m, call))
  {
    ViewKept(s, AddViewer(s, room, m, call));
  }

  lemma ViewKept(s: State, t: State)
    requires ControllersView(s)
    requires forall r, n ::
      n in Controllers(t, r) ==> n in Controllers(s, r) && (n in Viewers(s, r) ==> n in Viewers(t, r))
    ensures ControllersView(t)
  {
  }

  lemma OpenStrands(s: State, room: Room)
    requires ControllersView(s)
    ensures ControllersView(OpenShare(s, room)) <==> Controllers(s, room) == {}
  {
    var t := OpenShare(s, room);
    if Controllers(s, room) == {} {
      ViewKept(s, t);
    } else {
      var m :| m in Controllers(t, room);
      assert m !in Viewers(t, room);
    }
  }

  lemma ResolveStrands(s: State, m: Member, approve: bool, at: Option<Room>)
    requires ControllersView(s)
    ensures ControllersView(Resolve(s, m, approve, at)) <==> !Strands(s, EResolve(m, approve, at))
  {
    var t := Resolve(s, m, approve, at);
    var r := if at.Some? then at else RoomForMember(s, m);
    RoomInViewed(s, m, 0);
    if r.Some? && approve {
      assert m in Controllers(t, r.value);
      assert forall room :: Viewers(t, room) == Viewers(s, room);
    }
  }

  lemma {:induction false} RoomInViewed(s: State, m: Member, i: nat)
    requires i <= |s.order|
    ensures RoomIn(s, m, i).Some? ==> m in Viewers(s, RoomIn(s, m, i).value)
    decreases |s.order| - i
  {
    if i < |s.order| && m !in Viewers(s, s.order[i]) {
      RoomInViewed(s, m, i + 1);
    }
  }

  lemma HangupStrands(s: State, call: Call)
    requires ControllersView(s)
    ensures ControllersView(Hangup(s, call)) <==> !Strands(s, EHangup(call))
  {
    var t := Hangup(s, call);
    if call in s.calls && s.calls[call] in s.shares {
      var room := s.calls[call];
      var left := Left(s, room, call);
      HungUpViews(s, call);
      if left == map[] {
        ViewKept(s, t);
      } else {
        NarrowedViews(s, t, room, left);
      }
    } else {
      assert t.ctrl == s.ctrl && t.shares == s.shares;
      ViewKept(s, t);
      if call in s.calls { assert Left(s, s.calls[call], call) == map[]; }
    }
  }

  lemma HungUpViews(s: State, call: Call)
    requires call in s.calls && s.calls[call] in s.shares
    ensures
      var room := s.calls[call];
      var t, left := Hangup(s, call), Left(s, room, call);
      if left == map[] then t.ctrl == s.ctrl - {room} && t.shares == s.shares - {room}
      else t.ctrl == s.ctrl && t.shares == s.shares[room := left]
  {
    var room := s.calls[call];
    assert s.shares[room := map[]] - {room} == s.shares - {room};
    assert s.shares[room := s.shares[room]] == s.shares;
  }

  lemma NarrowedViews(s: State, t: State, room: Room, left: map<Member, Call>)
    requires ControllersView(s) && t.ctrl == s.ctrl && t.shares == s.shares[room := left]
    ensures ControllersView(t) <==> forall m <- Controllers(s, room) :: m in left
  {
    assert Viewers(t, room) == left && Controllers(t, room) == Controllers(s, room);
    if forall m <- Controllers(s, room) :: m in left { ViewKept(s, t); }
  }

  lemma KickStrandsNobody(s: State, room: Room, m: Member)
    requires ControllersView(s)
    ensures ControllersView(Kick(s, room, m))
  {
    if m in Viewers(s, room) {
      KickedViews(s, room, m);
      ViewKept(s, Kick(s, room, m));
    }
  }

  lemma KickedViews(s: State, room: Room, m: Member)
    requires m in Viewers(s, room)
    ensures
      var t := Kick(s, room, m);
      if s.shares[room].Keys == {m} then t.shares == s.shares - {room} && t.ctrl == s.ctrl - {room}
      else t.shares == s.shares[room := s.shares[room] - {m}] && t.ctrl == Uncontrol(s, room, m).ctrl
  {
    LastViewer(s, room, m);
    assert s.shares[room := s.shares[room] - {m}] - {room} == s.shares - {room};
    assert Uncontrol(s, room, m).ctrl - {room} == s.ctrl - {room};
  }

  /** Somebody left in control after hanging up keeps the injector armed: giving control back no longer
      reaches the host, and only revoking it, by name, still works. */
  lemma StrandedControlStays(s: State, room: Room, m: Member)
    requires m in Controllers(s, room) && room in s.shares
    requires forall r <- s.order :: m !in Viewers(s, r)
    ensures Release(s, m) == s
    ensures Revoke(s, room, m) != s
    ensures Controllers(Revoke(s, room, m), room) == Controllers(s, room) - {m}
  {
    RoomInOrder(s, m, 0);
    RoomInViewed(s, m, 0);
    assert m !in Controllers(Revoke(s, room, m), room);
  }

  // ---------- calls stay apart ----------

  /** Fresh calls keep viewers apart: no step but an invitation gives a viewer a call. */
  lemma DistinctCallsKept(s: State, e: Event)
    requires DistinctCalls(s)
    requires e.EAdd? ==> forall m <- Viewers(s, e.room) :: s.shares[e.room][m] != e.call
    ensures DistinctCalls(Step(s, e))
  {
    if !e.EAdd? {
      forall room | room in Step(s, e).shares
        ensures forall m <- Step(s, e).shares[room] ::
          m in Viewers(s, room) && Step(s, e).shares[room][m] == s.shares[room][m]
      {
        ViewersOnlyLeave(s, e, room);
      }
    }
  }

  lemma ViewersOnlyLeave(s: State, e: Event, room: Room)
    requires !e.EAdd?
    ensures forall m <- Viewers(Step(s, e), room) ::
      m in Viewers(s, room) && Step(s, e).shares[room][m] == s.shares[room][m]
  {
    match e
    case EKick(r, m) => KickViewersLeave(s, r, m, room);
    case EHangup(call) => HangupViewersLeave(s, call, room);
    case _ =>
  }

  lemma KickViewersLeave(s: State, r: Room, m: Member, room: Room)
    ensures forall n <- Viewers(Kick(s, r, m), room) ::
      n in Viewers(s, room) && Kick(s, r, m).shares[room][n] == s.shares[room][n]
  {
    if m in Viewers(s, r) { KickedViews(s, r, m); }
  }

  lemma HangupViewersLeave(s: State, call: Call, room: Room)
    ensures forall m <- Viewers(Hangup(s, call), room) ::
      m in Viewers(s, room) && Hangup(s, call).shares[room][m] == s.shares[room][m]
  {
    if call in s.calls && s.calls[call] in s.shares {
      HungUpViews(s, call);
    } else {
      assert Hangup(s, call).shares == s.shares;
    }
  }
}
