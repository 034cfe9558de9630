/** One room, its owner, and the replicas of the other devices, over reliable in-order channels. */
module RoomReplication {
  import opened Options
  import opened Rooms

  /** `home` is the owner's room, `out` the undelivered signals to each device, `replica` each device's
      copy, `joins` how many join announcements of a device are under way to the owner. `current` are
      the devices whose last news from the owner is up to date. */
  datatype Sys = Sys(home: Option<Room>, out: Outbox, replica: map<DeviceId, Room>,
                     joins: map<DeviceId, nat>, current: set<DeviceId>)

  /** Operations of the owner name the devices it has on record; `Hear` is the arrival of a join
      announcement there. The rest happens at another device. */
  datatype Event =
    | Invite(t: DeviceId, up: set<DeviceId>)
    | Kick(t: DeviceId, up: set<DeviceId>)
    | OwnerLeave(up: set<DeviceId>)
    | OwnerJoin
    | Hear(x: DeviceId, up: set<DeviceId>)
    | Deliver(x: DeviceId)
    | MemberJoin(x: DeviceId, ownerKnown: bool)
    | MemberLeave(x: DeviceId)

  function Channel(s: Sys, x: DeviceId): seq<Signal> { if x in s.out then s.out[x] else [] }

  function Replica(s: Sys, x: DeviceId): Option<Room> { if x in s.replica then Some(s.replica[x]) else None }

  function Joins(s: Sys, x: DeviceId): nat { if x in s.joins then s.joins[x] else 0 }

  function Store(m: map<DeviceId, Room>, x: DeviceId, r: Option<Room>): map<DeviceId, Room> {
    if r.Some? then m[x := r.value] else m - {x}
  }

  function Members(r: Option<Room>): set<DeviceId> { if r.Some? then r.value.members else {} }

  /** After the owner fanned out, members on record are up to date and other members are not. */
  function Informed(current: set<DeviceId>, members: set<DeviceId>, up: set<DeviceId>): set<DeviceId> {
    (current - members) + members * up
  }

  function Step(me: DeviceId, s: Sys, ev: Event): Sys {
    match ev
    case Invite(t, up) =>
      var (r, out) := Invited(s.home, s.out, me, t, up);
      if r == s.home then s else s.(home := r, out := out, current := Informed(s.current, Members(r), up))
    case Kick(t, up) =>
      var (r, out) := Kicked(s.home, s.out, me, t, up);
      if r == s.home then s else
      s.(home := r, out := out, current := Informed(s.current - {t}, Members(r), up) + ({t} * up))
    case OwnerLeave(up) =>
      var (r, out) := LeftByMe(s.home, s.out, me, up);
      s.(home := r, out := out,
         current := if s.home.Some? && r.Some? then Informed(s.current, Members(r), up) else s.current)
    case OwnerJoin =>
      s.(home := Joined(s.home, me),
         current := if me in Members(s.home) then s.current else s.current - Members(s.home))
    case Hear(x, up) =>
      if Joins(s, x) == 0 then s else
      var (r, out) := MemberJoined(s.home, s.out, me, x, up);
      var heard := s.(joins := s.joins[x := Joins(s, x) - 1]);
      if s.home.None? then heard.(current := s.current - {x})
      else heard.(home := r, out := out, current := Informed(s.current, Members(r), up))
    case Deliver(x) =>
      if Channel(s, x) == [] then s else
      s.(replica := Store(s.replica, x, Heard(x, Replica(s, x), Channel(s, x)[0])),
         out := s.out[x := Channel(s, x)[1..]])
    case MemberJoin(x, ownerKnown) =>
      if Replica(s, x).None? then s else
      var r := s.(replica := Store(s.replica, x, Joined(Replica(s, x), x)));
      if ownerKnown then r.(joins := s.joins[x := Joins(s, x) + 1])
      else r.(current := if x in Members(s.home) then s.current else s.current - {x})
    case MemberLeave(x) =>
      s.(replica := Store(s.replica, x, Left(Replica(s, x), x)),
         current := if x in Members(s.home) && Channel(s, x) == [] then s.current - {x} else s.current)
  }

  function Run(me: DeviceId, s: Sys, evs: seq<Event>): Sys
    decreases |evs|
  {
    if evs == [] then s else Run(me, Step(me, s, evs[0]), evs[1..])
  }

  function Created(me: DeviceId, name: string): Sys {
    Sys(Some(Room(name, me, {me}, 1)), map[], map[], map[], {})
  }

  // ---------- agreement ----------

  /** A device's copy once everything under way to it has arrived. */
  function Arrived(x: DeviceId, r: Option<Room>, signals: seq<Signal>): Option<Room>
    decreases |signals|
  {
    if signals == [] then r else Arrived(x, Heard(x, r, signals[0]), signals[1..])
  }

  lemma {:induction false} ArrivedSnoc(x: DeviceId, r: Option<Room>, signals: seq<Signal>, s: Signal)
    ensures Arrived(x, r, signals + [s]) == Heard(x, Arrived(x, r, signals), s)
    decreases |signals|
  {
    if signals == [] {
      assert ([] + [s])[1..] == [];
    } else {
      assert (signals + [s])[1..] == signals[1..] + [s];
      ArrivedSnoc(x, Heard(x, r, signals[0]), signals[1..], s);
    }
  }

  /** Whether the device sees itself in the room depends on its copy only through that same question. */
  lemma {:induction false} ArrivedSelf(x: DeviceId, a: Option<Room>, b: Option<Room>, signals: seq<Signal>)
    requires x in Members(a) ==> x in Members(b)
    ensures x in Members(Arrived(x, a, signals)) ==> x in Members(Arrived(x, b, signals))
    decreases |signals|
  {
    if signals != [] {
      ArrivedSelf(x, Heard(x, a, signals[0]), Heard(x, b, signals[0]), signals[1..]);
    }
  }

  /** The last signal under way is the owner's full room. */
  predicate EndsFull(signals: seq<Signal>, home: Room) {
    signals != [] && signals[|signals| - 1] == Full(home.name, home.owner, home.members)
  }

  /** The copy has the owner's table, its owner, and its name if that has one. */
  predicate Copies(r: Option<Room>, home: Room) {
    && r.Some? && r.value.members == home.members && r.value.owner == home.owner
    && (home.name != "" ==> r.value.name == home.name)
  }

  /** A current member will have exactly the owner's table; a current outsider with no join under way
      will not see itself in the room. */
  ghost predicate Agrees(me: DeviceId, s: Sys, x: DeviceId) {
    if x in Members(s.home) then
      if Channel(s, x) == [] then Copies(Replica(s, x), s.home.value) else EndsFull(Channel(s, x), s.home.value)
    else Joins(s, x) == 0 ==> x !in Members(Arrived(x, Replica(s, x), Channel(s, x)))
  }

  ghost predicate Inv(me: DeviceId, s: Sys) {
    && me != ""
    && (s.home.Some? ==> s.home.value.owner == me)
    && (forall x <- s.current :: x != me ==> Agrees(me, s, x))
  }

  /** The owner never has itself on record, and device ids are not empty. */
  ghost predicate Sensible(me: DeviceId, ev: Event) {
    && (ev.Invite? || ev.Kick? || ev.OwnerLeave? || ev.Hear? ==> me !in ev.up && "" !in ev.up)
    && (ev.Hear? || ev.MemberJoin? || ev.MemberLeave? || ev.Deliver? ==> ev.x != me && ev.x != "")
  }

  lemma FanOutChannel(out: Outbox, r: Room, me: DeviceId, exclude: DeviceId, up: set<DeviceId>, x: DeviceId)
    ensures
      var o := FannedOut(out, r, me, exclude, up);
      (if x in o then o[x] else []) ==
        (if x in out then out[x] else []) + if x in r.members * up - {me, exclude} then [Payload(r)] else []
  {
  }

  lemma InviteAgrees(me: DeviceId, s: Sys, t: DeviceId, up: set<DeviceId>, x: DeviceId)
    requires Inv(me, s) && Sensible(me, Invite(t, up))
    requires x != me && x in Step(me, s, Invite(t, up)).current
    ensures Agrees(me, Step(me, s, Invite(t, up)), x)
  {
    var (r, _) := Invited(s.home, s.out, me, t, up);
    if r != s.home {
      InviteChannel(me, s, t, up, x);
      if x in up && x in r.value.members {
        assert EndsFull(Channel(Step(me, s, Invite(t, up)), x), r.value);
      } else {
        assert x in s.current;
      }
    }
  }

  /** What an invitation puts on the way to `x`. */
  lemma InviteChannel(me: DeviceId, s: Sys, t: DeviceId, up: set<DeviceId>, x: DeviceId)
    requires s.home.Some? && s.home.value.owner == me && x != me && t != "" && t != me
    ensures
      var r := s.home.value.(members := s.home.value.members + {t}, seqNo := s.home.value.seqNo + 1);
      Channel(Step(me, s, Invite(t, up)), x) ==
        if x in up && x in r.members then Channel(s, x) + [Payload(r)] else Channel(s, x)
  {
    var r := s.home.value.(members := s.home.value.members + {t}, seqNo := s.home.value.seqNo + 1);
    FanOutChannel(if t in up then SentTo(s.out, t, Payload(r)) else s.out, r, me, t, up, x);
  }

  lemma KickAgrees(me: DeviceId, s: Sys, t: DeviceId, up: set<DeviceId>, x: DeviceId)
    requires Inv(me, s) && Sensible(me, Kick(t, up))
    requires x != me && x in Step(me, s, Kick(t, up)).current
    ensures Agrees(me, Step(me, s, Kick(t, up)), x)
  {
    var (r, _) := Kicked(s.home, s.out, me, t, up);
    if r != s.home {
      KickChannel(me, s, t, up, x);
      var c, c' := Channel(s, x), Channel(Step(me, s, Kick(t, up)), x);
      if x == t {
        RemovedArrives(x, Replica(s, x), c);
      } else if x in up && x in r.value.members {
        assert EndsFull(c', r.value);
      } else {
        assert x in s.current;
      }
    }
  }

  /** What a kick puts on the way to `x`. */
  lemma KickChannel(me: DeviceId, s: Sys, t: DeviceId, up: set<DeviceId>, x: DeviceId)
    requires s.home.Some? && s.home.value.owner == me && x != me
    ensures
      var r := s.home.value.(members := s.home.value.members - {t}, seqNo := s.home.value.seqNo + 1);
      Channel(Step(me, s, Kick(t, up)), x) ==
        if x == t && x in up then Channel(s, x) + [Removed(x)]
        else if x != t && x in up && x in r.members then Channel(s, x) + [Payload(r)]
        else Channel(s, x)
  {
    var r := s.home.value.(members := s.home.value.members - {t}, seqNo := s.home.value.seqNo + 1);
    FanOutChannel(if t in up then SentTo(s.out, t, Removed(t)) else s.out, r, me, t, up, x);
  }

  lemma RemovedArrives(x: DeviceId, r: Option<Room>, c: seq<Signal>)
    ensures x !in Members(Arrived(x, r, c + [Removed(x)]))
  {
    ArrivedSnoc(x, r, c, Removed(x));
  }

  lemma OwnerLeaveAgrees(me: DeviceId, s: Sys, up: set<DeviceId>, x: DeviceId)
    requires Inv(me, s) && Sensible(me, OwnerLeave(up))
    requires x != me && x in Step(me, s, OwnerLeave(up)).current
    ensures Agrees(me, Step(me, s, OwnerLeave(up)), x)
  {
    var (r, _) := LeftByMe(s.home, s.out, me, up);
    if r.Some? {
      FanOutChannel(s.out, r.value, me, me, up, x);
      assert Channel(s, x) + [] == Channel(s, x);
    }
  }

  lemma HearAgrees(me: DeviceId, s: Sys, y: DeviceId, up: set<DeviceId>, x: DeviceId)
    requires Inv(me, s) && Sensible(me, Hear(y, up))
    requires x != me && x in Step(me, s, Hear(y, up)).current
    ensures Agrees(me, Step(me, s, Hear(y, up)), x)
  {
    var t := Step(me, s, Hear(y, up));
    if Joins(s, y) > 0 && t.home.Some? {
      var c, c' := Channel(s, x), Channel(t, x);
      assert c' == if x in t.home.value.members * up then c + [Payload(t.home.value)] else c by {
        FanOutChannel(s.out, t.home.value, me, "", up, x);
      }
      if x in up && x in t.home.value.members {
        assert EndsFull(c', t.home.value);
      } else {
        assert c' == c && x in s.current;
      }
    }
  }

  lemma MemberStepAgrees(me: DeviceId, s: Sys, ev: Event, x: DeviceId)
    requires Inv(me, s) && Sensible(me, ev) && (ev.OwnerJoin? || ev.Deliver? || ev.MemberJoin? || ev.MemberLeave?)
    requires x != me && x in Step(me, s, ev).current
    ensures Agrees(me, Step(me, s, ev), x)
  {
    match ev
    case OwnerJoin => OwnerJoinAgrees(me, s, x);
    case Deliver(y) => DeliverAgrees(me, s, y, x);
    case MemberJoin(y, ownerKnown) => MemberJoinAgrees(me, s, y, ownerKnown, x);
    case MemberLeave(y) => MemberLeaveAgrees(me, s, y, x);
  }

  lemma OwnerJoinAgrees(me: DeviceId, s: Sys, x: DeviceId)
    requires Inv(me, s) && x != me && x in Step(me, s, OwnerJoin).current
    ensures Agrees(me, Step(me, s, OwnerJoin), x)
  {
  }

  lemma DeliverAgrees(me: DeviceId, s: Sys, y: DeviceId, x: DeviceId)
    requires Inv(me, s) && Sensible(me, Deliver(y)) && x != me && x in s.current
    ensures Agrees(me, Step(me, s, Deliver(y)), x)
  {
    if x != y {
      var t := Step(me, s, Deliver(y));
      assert Channel(t, x) == Channel(s, x) && Replica(t, x) == Replica(s, x);
    }
  }

  lemma MemberJoinAgrees(me: DeviceId, s: Sys, y: DeviceId, ownerKnown: bool, x: DeviceId)
    requires Inv(me, s) && Sensible(me, MemberJoin(y, ownerKnown))
    requires x != me && x in Step(me, s, MemberJoin(y, ownerKnown)).current
    ensures Agrees(me, Step(me, s, MemberJoin(y, ownerKnown)), x)
  {
  }

  lemma MemberLeaveAgrees(me: DeviceId, s: Sys, y: DeviceId, x: DeviceId)
    requires Inv(me, s) && Sensible(me, MemberLeave(y)) && x != me && x in Step(me, s, MemberLeave(y)).current
    ensures Agrees(me, Step(me, s, MemberLeave(y)), x)
  {
    if x == y {
      ArrivedSelf(x, Left(Replica(s, x), x), Replica(s, x), Channel(s, x));
    }
  }

  lemma StepKeepsInv(me: DeviceId, s: Sys, ev: Event)
    requires Inv(me, s) && Sensible(me, ev)
    ensures Inv(me, Step(me, s, ev))
  {
    forall x <- Step(me, s, ev).current | x != me ensures Agrees(me, Step(me, s, ev), x) {
      match ev
      case Invite(t, up) => InviteAgrees(me, s, t, up, x);
      case Kick(t, up) => KickAgrees(me, s, t, up, x);
      case OwnerLeave(up) => OwnerLeaveAgrees(me, s, up, x);
      case Hear(y, up) => HearAgrees(me, s, y, up, x);
      case _ => MemberStepAgrees(me, s, ev, x);
    }
  }

  /** Once everything under way has arrived, a member has exactly the owner's table, and an outsider that
      has announced no join does not see itself in the room. */
  ghost predicate Converges(me: DeviceId, s: Sys, x: DeviceId) {
    var a := Arrived(x, Replica(s, x), Channel(s, x));
    if x in Members(s.home) then Copies(a, s.home.value)
    else Joins(s, x) == 0 ==> x !in Members(a)
  }

  /** What agreement means: delivering everything under way gives a member exactly the owner's table, and
      leaves an outsider without itself in the room. */
  lemma AgreementMeaning(me: DeviceId, s: Sys, x: DeviceId)
    requires Inv(me, s) && x in s.current && x != me
    ensures Converges(me, s, x)
  {
    var c := Channel(s, x);
    if x in Members(s.home) && c != [] {
      assert c == c[..|c| - 1] + [c[|c| - 1]];
      ArrivedSnoc(x, Replica(s, x), c[..|c| - 1], c[|c| - 1]);
    }
  }

  /** In every run, for every device whose last news from the owner is up to date: once what is under way
      has arrived it has exactly the owner's member table, or, if it is no member and has announced no
      join, does not see itself in the room. */
  lemma {:induction false} ReplicasConverge(me: DeviceId, s: Sys, evs: seq<Event>)
    requires Inv(me, s) && forall e <- evs :: Sensible(me, e)
    ensures forall x <- Run(me, s, evs).current :: x != me ==> Converges(me, Run(me, s, evs), x)
    decreases |evs|
  {
    if evs == [] {
      forall x <- s.current | x != me ensures Converges(me, s, x) {
        AgreementMeaning(me, s, x);
      }
    } else {
      StepKeepsInv(me, s, evs[0]);
      ReplicasConverge(me, Step(me, s, evs[0]), evs[1..]);
    }
  }

  /** From creation, with everyone on record at every operation of the owner, no join by the owner, no
      leave by a member, and joins forwarded: every device is up to date from its first news on, so in
      every quiet moment all copies of members are the owner's table and nobody else sees itself in. */
  ghost predicate Cooperative(me: DeviceId, s: Sys, ev: Event) {
    match ev
    case Invite(t, up) => Members(s.home) + {t} <= up + {me}
    case Kick(t, up) => Members(s.home) + {t} <= up + {me}
    case OwnerLeave(up) => Members(s.home) <= up + {me} && Members(s.home) - {me} != {}
    case OwnerJoin => me in Members(s.home)
    case Hear(x, up) => Members(s.home) + {x} <= up + {me}
    case Deliver(_) => true
    case MemberJoin(_, ownerKnown) => ownerKnown
    case MemberLeave(_) => false
  }

  ghost predicate CooperativeRun(me: DeviceId, s: Sys, evs: seq<Event>)
    decreases |evs|
  {
    evs != [] ==> Cooperative(me, s, evs[0]) && CooperativeRun(me, Step(me, s, evs[0]), evs[1..])
  }

  /** Every member, and every device with a copy or with signals under way, is up to date. */
  ghost predicate AllCurrent(me: DeviceId, s: Sys) {
    && s.home.Some? && s.home.value.owner == me
    && Members(s.home) <= s.current + {me}
    && s.out.Keys <= s.current && s.replica.Keys <= s.current && me !in s.current
  }

  lemma CooperativeStep(me: DeviceId, s: Sys, ev: Event)
    requires AllCurrent(me, s) && Sensible(me, ev) && Cooperative(me, s, ev)
    ensures AllCurrent(me, Step(me, s, ev))
  {
  }

  /** At every moment of a cooperative run, once what is under way has arrived, each member has exactly the
      owner's table, and every other device that has announced no join does not see itself in the room. */
  lemma {:induction false} CopiesConverge(me: DeviceId, s: Sys, evs: seq<Event>)
    requires Inv(me, s) && AllCurrent(me, s)
    requires (forall e <- evs :: Sensible(me, e)) && CooperativeRun(me, s, evs)
    ensures forall x :: x != me ==> Converges(me, Run(me, s, evs), x)
    decreases |evs|
  {
    if evs == [] {
      forall x | x != me ensures Converges(me, s, x) {
        if x in s.current {
          AgreementMeaning(me, s, x);
        }
      }
    } else {
      StepKeepsInv(me, s, evs[0]);
      CooperativeStep(me, s, evs[0]);
      CopiesConverge(me, Step(me, s, evs[0]), evs[1..]);
    }
  }

  /** The same from the room's creation. */
  lemma CopiesConvergeFromCreation(me: DeviceId, name: string, evs: seq<Event>)
    requires me != ""
    requires (forall e <- evs :: Sensible(me, e)) && CooperativeRun(me, Created(me, name), evs)
    ensures forall x :: x != me ==> Converges(me, Run(me, Created(me, name), evs), x)
  {
    CreatedIsGood(me, name);
    CopiesConverge(me, Created(me, name), evs);
  }

  /** Nothing is under way in either direction. */
  ghost predicate Quiet(s: Sys) {
    forall x :: Channel(s, x) == [] && Joins(s, x) == 0
  }

  /** A member's copy is the owner's table; any other device does not see itself in its copy, if it has one. */
  ghost predicate Settled(s: Sys, x: DeviceId) {
    if x in Members(s.home) then Copies(Replica(s, x), s.home.value)
    else x !in Members(Replica(s, x))
  }

  lemma QuietRoomsAgree(me: DeviceId, s: Sys, evs: seq<Event>)
    requires Inv(me, s) && AllCurrent(me, s)
    requires (forall e <- evs :: Sensible(me, e)) && CooperativeRun(me, s, evs)
    ensures Quiet(Run(me, s, evs)) ==> forall x :: x != me ==> Settled(Run(me, s, evs), x)
  {
    var t := Run(me, s, evs);
    CopiesConverge(me, s, evs);
    forall x | x != me && Channel(t, x) == [] && Joins(t, x) == 0 ensures Settled(t, x) {
      assert Converges(me, t, x);
    }
  }

  lemma CreatedIsGood(me: DeviceId, name: string)
    requires me != ""
    ensures Inv(me, Created(me, name)) && AllCurrent(me, Created(me, name))
  {
  }

  // ---------- where it fails ----------

  /** A member's own leave is reported to nobody: it breaks agreement exactly when the device is a member
      at the owner and no signal is under way to it. Otherwise the next signal undoes it, or it changes
      nothing. */
  lemma MemberLeaveBreaks(me: DeviceId, s: Sys, x: DeviceId)
    requires Inv(me, s) && x in s.current && x != me && x != ""
    ensures
      var t := Step(me, s, MemberLeave(x));
      Converges(me, t, x) <==> !(x in Members(s.home) && Channel(s, x) == [])
  {
    var t := Step(me, s, MemberLeave(x));
    AgreementMeaning(me, s, x);
    if !(x in Members(s.home) && Channel(s, x) == []) {
      assert x in t.current;
      MemberStepAgrees(me, s, MemberLeave(x), x);
      if x in Members(t.home) {
        var c := Channel(t, x);
        assert c == c[..|c| - 1] + [c[|c| - 1]];
        ArrivedSnoc(x, Replica(t, x), c[..|c| - 1], c[|c| - 1]);
      }
    }
  }

  /** The owner joining its own room again tells nobody: a member that is up to date stays so exactly if the
      owner had been in the table. */
  lemma OwnerJoinBreaks(me: DeviceId, s: Sys, x: DeviceId)
    requires Inv(me, s) && x in s.current && x != me && x in Members(s.home)
    ensures Converges(me, Step(me, s, OwnerJoin), x) <==> me in Members(s.home)
  {
    AgreementMeaning(me, s, x);
    assert Members(Step(me, s, OwnerJoin).home) == Members(s.home) + {me};
  }
}
