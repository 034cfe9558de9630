/** The daemon's peer connections as it keeps them: one map per aspect, keyed by device. */
module Daemon {
  import opened Options
  import opened Arithmetic
  import PL = PeerLink
  import opened PeerLink

  type DeviceId = string

  class Daemon {
    var peers: map<DeviceId, seq<Host>>  // ranked addresses of the peers on record
    var outgoing: set<DeviceId>  // devices with an open connection
    var dialing: map<DeviceId, Host>
    var dialPlan: map<DeviceId, seq<Host>>
    var dialIdx: map<DeviceId, nat>
    var pendingOut: map<DeviceId, Frame>
    var offlineQ: map<DeviceId, seq<Chat>>
    var route: map<DeviceId, Host>
    var wire: map<DeviceId, seq<Out>>  // everything handed to a device's connections
    var dials: map<DeviceId, seq<Host>>  // every address a connection was started to

    ghost predicate Valid()
      reads this
    {
      && dialPlan.Keys == dialIdx.Keys
      && (forall d <- dialPlan :: dialIdx[d] <= |dialPlan[d]|)
      && (forall d <- offlineQ :: offlineQ[d] != [])
    }

    /** Everything the maps say about one device. */
    function View(d: DeviceId): Link
      reads this
    {
      Link(if d in peers then Some(peers[d]) else None,
           d in outgoing,
           if d in dialing then Some(dialing[d]) else None,
           if d in dialPlan then Some(dialPlan[d]) else None,
           if d in dialIdx then dialIdx[d] else 0,
           if d in pendingOut then Some(pendingOut[d]) else None,
           if d in offlineQ then offlineQ[d] else [],
           if d in route then Some(route[d]) else None,
           if d in wire then wire[d] else [],
           if d in dials then dials[d] else [])
    }

    constructor ()
      ensures Valid() && forall d :: View(d) == FIRST
    {
      peers, outgoing, dialing, dialPlan, dialIdx := map[], {}, map[], map[], map[];
      pendingOut, offlineQ, route, wire, dials := map[], map[], map[], map[], map[];
    }

    // ---------- single changes to one device's entries ----------

    method HandOver(d: DeviceId, o: Out)
      requires Valid()
      modifies this`wire
      ensures Valid()
      ensures View(d) == old(View(d)).(wire := old(View(d)).wire + [o])
      ensures forall x :: x != d ==> View(x) == old(View(x))
    {
      wire := wire[d := (if d in wire then wire[d] else []) + [o]];
    }

    method SetPlan(d: DeviceId, plan: seq<Host>, idx: nat)
      requires Valid() && idx <= |plan|
      modifies this`dialPlan, this`dialIdx
      ensures Valid()
      ensures View(d) == old(View(d)).(plan := Some(plan), idx := idx)
      ensures forall x :: x != d ==> View(x) == old(View(x))
    {
      dialPlan := dialPlan[d := plan];
      dialIdx := dialIdx[d := idx];
    }

    method ErasePlan(d: DeviceId)
      requires Valid()
      modifies this`dialPlan, this`dialIdx
      ensures Valid()
      ensures View(d) == old(View(d)).(plan := None, idx := 0)
      ensures forall x :: x != d ==> View(x) == old(View(x))
    {
      dialPlan := dialPlan - {d};
      dialIdx := dialIdx - {d};
    }

    method Hold(d: DeviceId, frame: Option<Frame>)
      requires Valid()
      modifies this`pendingOut
      ensures Valid()
      ensures View(d) == old(View(d)).(pending := frame)
      ensures forall x :: x != d ==> View(x) == old(View(x))
    {
      pendingOut := if frame.Some? then pendingOut[d := frame.value] else pendingOut - {d};
    }

    method SetRoute(d: DeviceId, host: Option<Host>)
      requires Valid()
      modifies this`route
      ensures Valid()
      ensures View(d) == old(View(d)).(route := host)
      ensures forall x :: x != d ==> View(x) == old(View(x))
    {
      route := if host.Some? then route[d := host.value] else route - {d};
    }

    method StartDial(d: DeviceId, host: Host)
      requires Valid()
      modifies this`dialing, this`dials
      ensures Valid()
      ensures View(d) == old(View(d)).(dialing := Some(host), dials := old(View(d)).dials + [host])
      ensures forall x :: x != d ==> View(x) == old(View(x))
    {
      dialing := dialing[d := host];
      dials := dials[d := (if d in dials then dials[d] else []) + [host]];
    }

    method EndDial(d: DeviceId, open: bool)
      requires Valid()
      modifies this`dialing, this`outgoing
      ensures Valid()
      ensures View(d) == old(View(d)).(dialing := None, connected := open || old(View(d)).connected)
      ensures forall x :: x != d ==> View(x) == old(View(x))
    {
      dialing := dialing - {d};
      if open {
        outgoing := outgoing + {d};
      }
    }

    // ---------- the operations ----------

    /** Candidate addresses, the one that worked last in front. */
    method PeerCandidates(d: DeviceId) returns (plan: seq<Host>)
      requires d in peers
      ensures plan == Candidates(peers[d], View(d).route)
    {
      plan := peers[d];
      if d in route {
        var hit := 0;
        while hit < |plan| && plan[hit] != route[d]
          invariant hit <= |plan|
          invariant forall j :: 0 <= j < hit ==> plan[j] != route[d]
        {
          hit := hit + 1;
        }
        IndexOfIs(plan, route[d], hit);
        if hit != |plan| {
          plan := [plan[hit]] + plan[..hit] + plan[hit + 1..];
        }
      }
    }

    static lemma {:induction false} IndexOfIs(hs: seq<Host>, h: Host, k: nat)
      requires k <= |hs| && (k < |hs| ==> hs[k] == h) && forall j :: 0 <= j < k ==> hs[j] != h
      ensures IndexOf(hs, h) == k
    {
      if hs != [] && hs[0] != h {
        IndexOfIs(hs[1..], h, k - 1);
      }
    }

    /** Dials the next candidate, holding a frame for the connection if there is one. */
    method DialNext(d: DeviceId, pending: Option<Frame>, net: Net)
      requires Valid()
      modifies this
      ensures Valid()
      ensures View(d) == PL.DialNext(old(View(d)), pending, net)
      ensures forall x :: x != d ==> View(x) == old(View(x))
      decreases Left(View(d)), 2
    {
      if d in outgoing || d !in peers { return; }
      if d !in dialPlan {
        var candidates := PeerCandidates(d);
        if candidates == [] { return; }
        PlanFirst(View(d), candidates, pending, net);
        SetPlan(d, candidates, 0);
      }
      DialFrom(d, pending, net);
    }

    /** Choosing the plan and dialling from its start is one step. */
    static lemma PlanFirst(l: Link, p: seq<Host>, frame: Option<Frame>, net: Net)
      requires !l.connected && l.ranked.Some? && l.plan.None? && p == Candidates(l.ranked.value, l.route) != []
      ensures PL.DialNext(l, frame, net) == PL.DialNext(l.(plan := Some(p), idx := 0), frame, net)
    {
    }

    /** The dial of entry `k` of the plan, just started. */
    static function Started(l: Link, k: nat, pending: Option<Frame>): Link
      requires l.plan.Some? && k < |l.plan.value|
    {
      var p := l.plan.value;
      l.(idx := k + 1, pending := if pending.Some? then pending else l.pending,
         dialing := Some(p[k]), dials := l.dials + [p[k]])
    }

    static lemma DialFromCases(l: Link, k: nat, pending: Option<Frame>, net: Net)
      requires !l.connected && l.ranked.Some? && l.plan.Some? && l.idx <= |l.plan.value|
      requires k == NextParseable(l.plan.value, l.idx, net.parses)
      ensures PL.DialNext(l, pending, net) ==
        if k == |l.plan.value| then Exhausted(l)
        else
          var t, rv := Started(l, k, pending), net.connect(l.plan.value[k]);
          if rv == Later then t else Dialed(t, rv == Ok, net)
    {
    }

    /** Dials the next entry of the plan that is an address. */
    method DialFrom(d: DeviceId, pending: Option<Frame>, net: Net)
      requires Valid() && d !in outgoing && d in peers && d in dialPlan
      modifies this
      ensures Valid()
      ensures View(d) == PL.DialNext(old(View(d)), pending, net)
      ensures forall x :: x != d ==> View(x) == old(View(x))
      decreases Left(View(d)), 1
    {
      var k := FindCandidate(dialPlan[d], dialIdx[d], net);
      DialFromCases(View(d), k, pending, net);
      if k == |dialPlan[d]| {
        GiveUp(d);
      } else {
        TryCandidate(d, k, pending, net);
      }
    }

    /** Every candidate has failed: the held frame goes, the queue stays. */
    method GiveUp(d: DeviceId)
      requires Valid()
      modifies this`dialPlan, this`dialIdx, this`pendingOut
      ensures Valid()
      ensures View(d) == Exhausted(old(View(d)))
      ensures forall x :: x != d ==> View(x) == old(View(x))
    {
      ErasePlan(d);
      Hold(d, None);
    }

    /** Skips what is no address. */
    static method FindCandidate(plan: seq<Host>, start: nat, net: Net) returns (k: nat)
      requires start <= |plan|
      ensures k == NextParseable(plan, start, net.parses)
    {
      k := start;
      while k < |plan| && !net.parses(plan[k])
        invariant start <= k <= |plan|
        invariant forall j :: start <= j < k ==> !net.parses(plan[j])
      {
        k := k + 1;
      }
      NextParseableIs(plan, start, k, net.parses);
    }

    /** Starts the dial of entry `k` of the plan. */
    method TryCandidate(d: DeviceId, k: nat, pending: Option<Frame>, net: Net)
      requires Valid() && d in dialPlan && k < |dialPlan[d]|
      modifies this
      ensures Valid()
      ensures
        var t, rv := Started(old(View(d)), k, pending), net.connect(old(dialPlan[d])[k]);
        View(d) == if rv == Later then t else Dialed(t, rv == Ok, net)
      ensures forall x :: x != d ==> View(x) == old(View(x))
      decreases |dialPlan[d]| - k, 0
    {
      var plan := dialPlan[d];
      SetPlan(d, plan, k + 1);
      if pending.Some? {
        Hold(d, pending);
      }
      StartDial(d, plan[k]);
      var rv := net.connect(plan[k]);
      if rv != Later {
        OnPeerDialResult(d, rv == Ok, net);
      }
    }

    static lemma {:induction false} NextParseableIs(p: seq<Host>, i: nat, k: nat, parses: Host -> bool)
      requires i <= k <= |p| && (k < |p| ==> parses(p[k])) && forall j :: i <= j < k ==> !parses(p[j])
      ensures NextParseable(p, i, parses) == k
      decreases k - i
    {
      if i < k {
        NextParseableIs(p, i + 1, k, parses);
      }
    }

    /** A dial has been reported, at once or later. */
    method OnPeerDialResult(d: DeviceId, ok: bool, net: Net)
      requires Valid()
      modifies this
      ensures Valid()
      ensures View(d) == Dialed(old(View(d)), ok, net)
      ensures forall x :: x != d ==> View(x) == old(View(x))
      decreases Left(View(d)), 3
    {
      if d !in dialing { return; }
      var host := dialing[d];
      EndDial(d, ok);
      if !ok {
        if d in route && route[d] == host {
          SetRoute(d, None);
        }
        DialNext(d, None, net);
        return;
      }
      SetRoute(d, Some(host));
      ErasePlan(d);
      SendWaiting(d);
    }

    /** The queue, then the held frame. */
    method SendWaiting(d: DeviceId)
      requires Valid() && d in outgoing
      modifies this`offlineQ, this`wire, this`pendingOut
      ensures Valid()
      ensures
        var l := old(View(d));
        View(d) == l.(queue := [], pending := None,
          wire := l.wire + Chats(l.queue) + if l.pending.Some? then [FrameOut(l.pending.value)] else [])
      ensures forall x :: x != d ==> View(x) == old(View(x))
    {
      FlushQueue(d);
      if d in pendingOut {
        HandOver(d, FrameOut(pendingOut[d]));
        Hold(d, None);
      }
    }

    /** Hands the whole queue over, in order, if the connection is open. */
    method FlushQueue(d: DeviceId)
      requires Valid()
      modifies this`offlineQ, this`wire
      ensures Valid()
      ensures View(d) == PL.FlushQueue(old(View(d)))
      ensures forall x :: x != d ==> View(x) == old(View(x))
    {
      if d !in outgoing || d !in offlineQ { return; }
      var batch := offlineQ[d];
      offlineQ := offlineQ - {d};
      ghost var before := View(d).wire;
      for i := 0 to |batch|
        invariant Valid() && offlineQ == old(offlineQ) - {d}
        invariant View(d).wire == before + Chats(batch)[..i]
        invariant forall x :: x != d ==> View(x) == old(View(x))
      {
        HandOver(d, ChatOut(batch[i]));
      }
    }

    method QueueOffline(d: DeviceId, m: Chat)
      requires Valid()
      modifies this`offlineQ
      ensures Valid() && d in offlineQ
      ensures View(d) == old(View(d)).(queue := LastOf(old(View(d)).queue + [m], QUEUE_CAP))
      ensures forall x :: x != d ==> View(x) == old(View(x))
    {
      var q := (if d in offlineQ then offlineQ[d] else []) + [m];
      q := DropOldest(q);
      offlineQ := offlineQ[d := q];
    }

    /** Drops messages from the front until the queue is within its cap. */
    static method DropOldest(all: seq<Chat>) returns (q: seq<Chat>)
      ensures q == LastOf(all, QUEUE_CAP)
    {
      q := all;
      while |q| > QUEUE_CAP
        invariant Min(|all|, QUEUE_CAP) <= |q| <= |all| && q == all[|all| - |q|..]
      {
        q := q[1..];
      }
    }

    method EnsureConnection(d: DeviceId, net: Net)
      requires Valid()
      modifies this
      ensures Valid()
      ensures View(d) == PL.EnsureConnection(old(View(d)), net)
      ensures forall x :: x != d ==> View(x) == old(View(x))
    {
      if d in outgoing || d in dialing { return; }
      DialNext(d, None, net);
    }

    method MaybeRedeliver(d: DeviceId, net: Net)
      requires Valid()
      modifies this
      ensures Valid()
      ensures View(d) == PL.MaybeRedeliver(old(View(d)), net)
      ensures forall x :: x != d ==> View(x) == old(View(x))
    {
      if d !in offlineQ { return; }
      if d in outgoing {
        FlushQueue(d);
      } else {
        EnsureConnection(d, net);
      }
    }

    /** A chat message to one peer. */
    method SendChat(d: DeviceId, m: Chat, net: Net)
      requires Valid()
      modifies this
      ensures Valid()
      ensures View(d) == PL.SendChat(old(View(d)), m, net)
      ensures forall x :: x != d ==> View(x) == old(View(x))
    {
      if d in outgoing {
        HandOver(d, ChatOut(m));
      } else {
        QueueOffline(d, m);
        MaybeRedeliver(d, net);
      }
    }

    /** Any other frame to one peer. */
    method SendPeerEnvelope(d: DeviceId, f: Frame, net: Net)
      requires Valid()
      modifies this
      ensures Valid()
      ensures View(d) == SendFrame(old(View(d)), f, net)
      ensures forall x :: x != d ==> View(x) == old(View(x))
    {
      if d in outgoing {
        HandOver(d, FrameOut(f));
      } else {
        DialNext(d, Some(f), net);
      }
    }

    method OnPeerOnline(d: DeviceId, ranked: seq<Host>, net: Net)
      requires Valid()
      modifies this
      ensures Valid()
      ensures View(d) == PeerSeen(old(View(d)), ranked, net)
      ensures forall x :: x != d ==> View(x) == old(View(x))
    {
      Note(d, ranked);
      MaybeRedeliver(d, net);
    }

    method Note(d: DeviceId, ranked: seq<Host>)
      requires Valid()
      modifies this`peers
      ensures Valid()
      ensures View(d) == old(View(d)).(ranked := Some(ranked))
      ensures forall x :: x != d ==> View(x) == old(View(x))
    {
      peers := peers[d := ranked];
    }

    /** The peer went offline, or was silent for too long. */
    method OnPeerOffline(d: DeviceId)
      requires Valid()
      modifies this`peers
      ensures Valid()
      ensures View(d) == PeerGone(old(View(d)))
      ensures forall x :: x != d ==> View(x) == old(View(x))
    {
      peers := peers - {d};
    }

    method OnOutgoingClosed(d: DeviceId)
      requires Valid()
      modifies this`outgoing
      ensures Valid()
      ensures View(d) == ConnectionClosed(old(View(d)))
      ensures forall x :: x != d ==> View(x) == old(View(x))
    {
      outgoing := outgoing - {d};
    }
  }
}
