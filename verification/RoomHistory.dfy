/** What each event does to a room, at its owner, on the wire, and at the other devices; and who is a member after
    any run. */
module RoomHistory {
  import opened Options
  import opened Rooms
  import opened RoomReplication

  // ---------- the owner's table ----------

  /** What an event says about `x` being a member, if anything. Everybody can be removed by the owner, and anybody
      but the owner and the nameless invited; a join announcement counts when it arrives. */
  function Says(me: DeviceId, s: Sys, ev: Event, x: DeviceId): Option<bool> {
    match ev
    case Invite(t, _) => if x == t && x != "" && x != me then Some(true) else None
    case Kick(t, _) => if x == t then Some(false) else None
    case OwnerLeave(_) => if x == me then Some(false) else None
    case OwnerJoin => if x == me then Some(true) else None
    case Hear(y, _) => if x == y && Joins(s, y) > 0 then Some(true) else None
    case _ => None
  }

  ghost predicate Owned(me: DeviceId, s: Sys) { s.home.Some? ==> s.home.value.owner == me }

  /** An event changes the membership of those it speaks of and of nobody else; owner and name stay. The room ends
      when the owner leaves it without members, and never comes back. */
  lemma TableStep(me: DeviceId, s: Sys, ev: Event)
    requires Owned(me, s)
    ensures
      var t := Step(me, s, ev);
      && Owned(me, t)
      && (t.home.None? <==> s.home.None? || (ev.OwnerLeave? && Members(s.home) <= {me}))
      && (t.home.Some? ==> t.home.value.name == s.home.value.name)
      && (t.home.Some? ==> forall x :: x in Members(t.home) <==>
            match Says(me, s, ev, x)
            case Some(says) => says
            case None => x in Members(s.home))
      && (t.home.Some? ==> t.home.value.seqNo == s.home.value.seqNo + if Counts(me, s, ev) then 1 else 0)
  {
  }

  /** The owner's sequence number counts invitations, removals, its own joins and the arrival of new members, but
      not its leave. */
  predicate Counts(me: DeviceId, s: Sys, ev: Event) {
    match ev
    case Invite(t, _) => t != "" && t != me
    case Kick(_, _) => true
    case OwnerJoin => true
    case Hear(y, _) => Joins(s, y) > 0 && y !in Members(s.home)
    case _ => false
  }

  /** Whether `x` is a member after a run, as the last event that speaks of it says. */
  function LastWord(me: DeviceId, s: Sys, evs: seq<Event>, x: DeviceId, was: bool): bool
    decreases |evs|
  {
    if evs == [] then was
    else
      var now := match Says(me, s, evs[0], x) case Some(says) => says case None => was;
      LastWord(me, Step(me, s, evs[0]), evs[1..], x, now)
  }

  /** In every run, as long as there is the room: a device is a member exactly if the last event that speaks of it
      invited it or let it join, or if none does and it was one at the start. */
  lemma {:induction false} MembersByHistory(me: DeviceId, s: Sys, evs: seq<Event>, x: DeviceId)
    requires Owned(me, s)
    ensures
      var t := Run(me, s, evs);
      && (t.home.Some? ==> s.home.Some?)
      && (t.home.Some? ==> (x in Members(t.home) <==> LastWord(me, s, evs, x, x in Members(s.home))))
    decreases |evs|
  {
    if evs != [] {
      TableStep(me, s, evs[0]);
      MembersByHistory(me, Step(me, s, evs[0]), evs[1..], x);
    }
  }

  // ---------- what goes out ----------

  /** The owner is told nothing; every other device on record gets the owner's new table if it is in it, and a device
      that was removed is told so instead. */
  function News(me: DeviceId, s: Sys, ev: Event, x: DeviceId): seq<Signal> {
    var home := Step(me, s, ev).home;
    if home.None? || x == me then []
    else
      var table := if x in Members(home) then [Full(home.value.name, me, Members(home))] else [];
      match ev
      case Invite(t, up) => if t == "" || t == me || x !in up then [] else table
      case Kick(t, up) => if x !in up then [] else if x == t then [Removed(x)] else table
      case OwnerLeave(up) => if x !in up then [] else table
      case Hear(y, up) => if x !in up || Joins(s, y) == 0 then [] else table
      case _ => []
  }

  lemma NewsGoesOut(me: DeviceId, s: Sys, ev: Event, x: DeviceId)
    requires Owned(me, s) && Sensible(me, ev) && ev != Deliver(x)
    ensures Channel(Step(me, s, ev), x) == Channel(s, x) + News(me, s, ev, x)
  {
    assert Channel(s, x) + [] == Channel(s, x);
    if s.home.Some? {
      match ev
      case Invite(t, up) => InviteNews(me, s, t, up, x);
      case Kick(t, up) => KickNews(me, s, t, up, x);
      case OwnerLeave(up) =>
        var r := Left(s.home, me);
        if r.Some? { FanOutChannel(s.out, r.value, me, me, up, x); }
      case Hear(y, up) =>
        if Joins(s, y) > 0 {
          FanOutChannel(s.out, MemberJoined(s.home, s.out, me, y, up).0.value, me, "", up, x);
        }
      case _ =>
    }
  }

  lemma InviteNews(me: DeviceId, s: Sys, t: DeviceId, up: set<DeviceId>, x: DeviceId)
    requires s.home.Some? && Owned(me, s) && Sensible(me, Invite(t, up))
    ensures Channel(Step(me, s, Invite(t, up)), x) == Channel(s, x) + News(me, s, Invite(t, up), x)
  {
    assert Channel(s, x) + [] == Channel(s, x);
    if t != "" && t != me {
      var r := s.home.value.(members := s.home.value.members + {t}, seqNo := s.home.value.seqNo + 1);
      FanOutChannel(if t in up then SentTo(s.out, t, Payload(r)) else s.out, r, me, t, up, x);
    }
  }

  lemma KickNews(me: DeviceId, s: Sys, t: DeviceId, up: set<DeviceId>, x: DeviceId)
    requires s.home.Some? && Owned(me, s) && Sensible(me, Kick(t, up))
    ensures Channel(Step(me, s, Kick(t, up)), x) == Channel(s, x) + News(me, s, Kick(t, up), x)
  {
    assert Channel(s, x) + [] == Channel(s, x);
    var r := s.home.value.(members := s.home.value.members - {t}, seqNo := s.home.value.seqNo + 1);
    FanOutChannel(if t in up then SentTo(s.out, t, Removed(t)) else s.out, r, me, t, up, x);
  }

  // ---------- the copies ----------

  /** What an arriving signal makes of a device's copy: the announced table is taken over whole, with whatever name
      and owner it states and the copy's own where it states none; the news of its removal takes the device out of
      its copy, which is thrown away once nobody is in it. */
  lemma CopyAfterDelivery(me: DeviceId, s: Sys, x: DeviceId)
    requires Channel(s, x) != []
    ensures
      var t, was := Step(me, s, Deliver(x)), Replica(s, x);
      && Channel(t, x) == Channel(s, x)[1..]
      && match Channel(s, x)[0]
         case Full(name, owner, members) =>
           && Replica(t, x).Some?
           && var now := Replica(t, x).value;
              && now.members == members
              && now.name == (if name != "" then name else if was.Some? then was.value.name else "")
              && now.owner == (if owner != "" then owner else if was.Some? then was.value.owner else "")
              && now.seqNo == (if was.Some? then was.value.seqNo + 1 else 1)
         case Removed(m) =>
           if m != x || was.None? then Replica(t, x) == was
           else if was.value.members <= {x} then Replica(t, x).None?
           else Replica(t, x) == Some(was.value.(members := was.value.members - {x}))
  {
  }

  /** What a device does to its own copy: joining enters it, and is announced if it knows the owner; leaving takes it
      out, and is announced to nobody. */
  lemma CopyAfterOwnStep(me: DeviceId, s: Sys, x: DeviceId, ownerKnown: bool)
    requires Replica(s, x).Some?
    ensures
      var t, was := Step(me, s, MemberJoin(x, ownerKnown)), Replica(s, x).value;
      && Replica(t, x) == Some(was.(members := was.members + {x}, seqNo := was.seqNo + 1))
      && Joins(t, x) == Joins(s, x) + (if ownerKnown then 1 else 0) && t.home == s.home && t.out == s.out
    ensures
      var t, was := Step(me, s, MemberLeave(x)), Replica(s, x).value;
      && Replica(t, x) ==
           (if was.members <= {x} then None else Some(was.(members := was.members - {x})))
      && t.joins == s.joins && t.home == s.home && t.out == s.out
  {
  }
}
