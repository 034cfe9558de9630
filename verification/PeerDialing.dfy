/** Dial plans: a frame held for a dial, whatever else happens meanwhile; and when an idle link is left with
    a plan that is half used up. */
module PeerDialing {
  import opened Options
  import opened Arithmetic
  import opened PeerLink
  import opened PeerDelivery

  /** Entries of a plan that are addresses. */
  function Addresses(p: seq<Host>, parses: Host -> bool): seq<Host> {
    if p == [] then []
    else Addresses(p[..|p| - 1], parses) + if parses(p[|p| - 1]) then [p[|p| - 1]] else []
  }

  /** What connecting to each address comes to in the end. */
  type Reach = Host -> bool

  /** What a callback sees of the network agrees with what connecting comes to in the end. */
  ghost predicate Truthful(net: Net, parses: Host -> bool, up: Reach) {
    && (forall h :: net.parses(h) == parses(h))
    && (forall h :: net.connect(h) == Ok ==> up(h))
    && (forall h :: net.connect(h) == Refused ==> !up(h))
  }

  predicate Usable(p: seq<Host>, k: nat, parses: Host -> bool, up: Reach)
    requires k < |p|
  {
    parses(p[k]) && up(p[k])
  }

  /** First entry at or behind `i` that is a reachable address. */
  function FirstUp(p: seq<Host>, i: nat, parses: Host -> bool, up: Reach): (k: nat)
    requires i <= |p|
    ensures i <= k <= |p|
    ensures k < |p| ==> Usable(p, k, parses, up)
    ensures forall j :: i <= j < k ==> !Usable(p, j, parses, up)
    decreases |p| - i
  {
    if i == |p| || Usable(p, i, parses, up) then i else FirstUp(p, i + 1, parses, up)
  }

  lemma FirstUpIs(p: seq<Host>, i: nat, k: nat, parses: Host -> bool, up: Reach)
    requires i <= k <= |p| && (k < |p| ==> Usable(p, k, parses, up))
    requires forall j :: i <= j < k ==> !Usable(p, j, parses, up)
    ensures FirstUp(p, i, parses, up) == k
  {
  }

  // ---------- where a dial starts ----------

  /** The plan the next dial works on: one left over, else the candidates. */
  function PlanOf(l: Link): seq<Host>
    requires l.ranked.Some?
  {
    if l.plan.None? then Candidates(l.ranked.value, l.route) else l.plan.value
  }

  function Position(l: Link): nat
    requires l.ranked.Some?
    ensures Position(l) <= |PlanOf(l)|
  {
    if l.plan.None? then 0 else Min(l.idx, |PlanOf(l)|)
  }

  function Holding(l: Link, frame: Option<Frame>): Link {
    l.(pending := if frame.Some? then frame else l.pending)
  }

  /** The dial of entry `k` of the plan, just started. */
  function Attempt(l: Link, frame: Option<Frame>, k: nat): Link
    requires l.ranked.Some? && k < |PlanOf(l)|
  {
    var p := PlanOf(l);
    Holding(l, frame).(plan := Some(p), idx := k + 1, dialing := Some(p[k]), dials := l.dials + [p[k]])
  }

  lemma DialNextCases(l: Link, frame: Option<Frame>, net: Net)
    requires !l.connected && l.ranked.Some? && (l.plan.None? ==> PlanOf(l) != [])
    ensures
      var p := PlanOf(l);
      var k := NextParseable(p, Position(l), net.parses);
      DialNext(l, frame, net) ==
        if k == |p| then Exhausted(l)
        else match net.connect(p[k])
             case Later => Attempt(l, frame, k)
             case Ok => Established(Attempt(l, frame, k), p[k])
             case Refused => Dialed(Attempt(l, frame, k), false, net)
  {
    var k := NextParseable(PlanOf(l), Position(l), net.parses);
    if k < |PlanOf(l)| {
      assert Dialed(Attempt(l, frame, k), true, net) == Established(Attempt(l, frame, k), PlanOf(l)[k]);
    }
  }

  // ---------- a plan under way ----------

  /** `h` after entries `i` to `j` of the plan have failed. */
  function Tried(h: Link, p: seq<Host>, i: nat, j: nat, parses: Host -> bool): Link
    requires i <= j <= |p|
  {
    var failed := Addresses(p[i..j], parses);
    var route := if h.route.Some? && h.route.value in failed then None else h.route;
    h.(dialing := None, route := route, dials := h.dials + failed)
  }

  /** The end of a plan, told without dialling: every address in front of the first reachable one is tried
      once, in order; then the link is established there, or the plan is exhausted. */
  function Outcome(h: Link, p: seq<Host>, i: nat, parses: Host -> bool, up: Reach): Link
    requires i <= |p|
  {
    var k := FirstUp(p, i, parses, up);
    var t := Tried(h, p, i, k, parses);
    if k < |p| then Established(t.(dials := t.dials + [p[k]]), p[k]) else Exhausted(t)
  }

  /** `h` with the peer's record and the queue as `l` has them. */
  function Updated(h: Link, l: Link): Link { h.(ranked := l.ranked, queue := l.queue) }

  /** Between two dials of the plan: entries `i` to `l.idx` have failed. */
  ghost predicate Poised(l: Link, h: Link, p: seq<Host>, i: nat, parses: Host -> bool, up: Reach) {
    && !h.connected && l.ranked.Some? && i <= l.idx <= |p|
    && (forall j :: i <= j < l.idx ==> !Usable(p, j, parses, up))
    && l == Updated(Tried(h, p, i, l.idx, parses), l).(plan := Some(p), idx := l.idx)
  }

  /** A dial of entry `l.idx - 1` is in flight, and those from `i` before it have failed. */
  ghost predicate Trying(l: Link, h: Link, p: seq<Host>, i: nat, parses: Host -> bool, up: Reach) {
    && !h.connected && l.ranked.Some? && i < l.idx <= |p| && parses(p[l.idx - 1])
    && (forall j :: i <= j < l.idx - 1 ==> !Usable(p, j, parses, up))
    && var t := Updated(Tried(h, p, i, l.idx - 1, parses), l);
       l == t.(plan := Some(p), idx := l.idx, dialing := Some(p[l.idx - 1]), dials := t.dials + [p[l.idx - 1]])
  }

  /** The link is still trying, further on, or has reached the end of the plan. */
  ghost predicate Advances(l: Link, t: Link, h: Link, p: seq<Host>, i: nat, parses: Host -> bool, up: Reach)
    requires i <= |p|
  {
    if t.dialing.Some? then Trying(t, h, p, i, parses, up) && Updated(t, l) == t && l.idx < t.idx
    else t == Outcome(Updated(h, l), p, i, parses, up)
  }

  /** Entries that are no addresses are passed over. */
  lemma {:induction false} TriedSkips(h: Link, p: seq<Host>, i: nat, j: nat, k: nat, parses: Host -> bool)
    requires i <= j <= k <= |p| && forall m :: j <= m < k ==> !parses(p[m])
    ensures Tried(h, p, i, k, parses) == Tried(h, p, i, j, parses)
  {
    if j < k {
      TriedSkips(h, p, i, j, k - 1, parses);
      assert p[i..k][..k - i - 1] == p[i..k - 1];
    }
  }

  lemma TriedOne(h: Link, p: seq<Host>, i: nat, k: nat, parses: Host -> bool)
    requires i <= k < |p| && parses(p[k])
    ensures
      var t := Tried(h, p, i, k, parses);
      Tried(h, p, i, k + 1, parses) ==
        t.(dials := t.dials + [p[k]], route := if t.route == Some(p[k]) then None else t.route)
  {
    assert p[i..k + 1][..k - i] == p[i..k];
    var failed := Addresses(p[i..k], parses);
    assert Addresses(p[i..k + 1], parses) == failed + [p[k]];
    assert h.dials + (failed + [p[k]]) == h.dials + failed + [p[k]];
  }

  lemma {:induction false} SameParse(p: seq<Host>, i: nat, a: Host -> bool, b: Host -> bool)
    requires i <= |p| && forall h :: a(h) == b(h)
    ensures NextParseable(p, i, a) == NextParseable(p, i, b)
    decreases |p| - i
  {
    if i < |p| {
      SameParse(p, i + 1, a, b);
    }
  }

  /** The next dial of a plan takes it on or to its end, whether connects return at once or later. */
  lemma {:induction false} DialAdvances(
    l: Link, h: Link, p: seq<Host>, i: nat, net: Net, parses: Host -> bool, up: Reach)
    requires Poised(l, h, p, i, parses, up) && Truthful(net, parses, up)
    ensures Advances(l, DialNext(l, None, net), h, p, i, parses, up)
    decreases |p| - l.idx, 1
  {
    var j := l.idx;
    SameParse(p, j, net.parses, parses);
    var k := NextParseable(p, j, parses);
    DialNextCases(l, None, net);
    TriedSkips(h, p, i, j, k, parses);
    if k == |p| {
      FirstUpIs(p, i, k, parses, up);
    } else {
      AttemptAdvances(l, h, p, i, k, net, parses, up);
    }
  }

  lemma {:induction false} AttemptAdvances(
    l: Link, h: Link, p: seq<Host>, i: nat, k: nat, net: Net, parses: Host -> bool, up: Reach)
    requires Poised(l, h, p, i, parses, up) && Truthful(net, parses, up)
    requires l.idx <= k < |p| && parses(p[k]) && forall m :: l.idx <= m < k ==> !parses(p[m])
    requires Tried(h, p, i, k, parses) == Tried(h, p, i, l.idx, parses)
    ensures
      var d := Attempt(l, None, k);
      var t := match net.connect(p[k])
               case Later => d
               case Ok => Established(d, p[k])
               case Refused => Dialed(d, false, net);
      Advances(l, t, h, p, i, parses, up)
    decreases |p| - l.idx, 0
  {
    var d := Attempt(l, None, k);
    assert Trying(d, h, p, i, parses, up);
    match net.connect(p[k])
    case Later =>
    case Ok => FirstUpIs(p, i, k, parses, up);
    case Refused => ReportAdvances(d, false, h, p, i, net, parses, up);
  }

  /** The report of a dial takes the plan on or to its end. */
  lemma {:induction false} ReportAdvances(
    l: Link, ok: bool, h: Link, p: seq<Host>, i: nat, net: Net, parses: Host -> bool, up: Reach)
    requires Trying(l, h, p, i, parses, up) && Truthful(net, parses, up) && ok == up(p[l.idx - 1])
    ensures Advances(l, Dialed(l, ok, net), h, p, i, parses, up)
    decreases |p| - l.idx, 2
  {
    if ok {
      FirstUpIs(p, i, l.idx - 1, parses, up);
    } else {
      var failed := l.(dialing := None, route := if l.route == l.dialing then None else l.route);
      TriedOne(h, p, i, l.idx - 1, parses);
      assert Poised(failed, h, p, i, parses, up);
      DialAdvances(failed, h, p, i, net, parses, up);
      assert Updated(h, failed) == Updated(h, l);
    }
  }

  /** Choosing the plan and holding the frame is the same as having them. */
  lemma FirstDial(l: Link, frame: Option<Frame>, net: Net)
    requires !l.connected && l.dialing.None? && l.ranked.Some? && (l.plan.None? ==> PlanOf(l) != [])
    ensures
      DialNext(l, frame, net) == DialNext(Holding(l, frame).(plan := Some(PlanOf(l)), idx := Position(l)), None, net)
  {
    var b := Holding(l, frame).(plan := Some(PlanOf(l)), idx := Position(l));
    DialNextCases(l, frame, net);
    DialNextCases(b, None, net);
  }

  lemma StartAdvances(l: Link, frame: Option<Frame>, net: Net, parses: Host -> bool, up: Reach)
    requires !l.connected && l.dialing.None? && l.ranked.Some? && (l.plan.None? ==> PlanOf(l) != [])
    requires Truthful(net, parses, up)
    ensures
      var b := Holding(l, frame).(plan := Some(PlanOf(l)), idx := Position(l));
      Advances(b, DialNext(l, frame, net), Holding(l, frame), PlanOf(l), Position(l), parses, up)
  {
    var h, p, i := Holding(l, frame), PlanOf(l), Position(l);
    var b := h.(plan := Some(p), idx := i);
    FirstDial(l, frame, net);
    assert p[i..i] == [] && h.dials + [] == h.dials;
    assert Poised(b, h, p, i, parses, up);
    DialAdvances(b, h, p, i, net, parses, up);
    assert Updated(h, b) == h;
  }

  // ---------- meanwhile ----------

  /** What may happen while the plan runs: truthful reports, announcements, chats, and late news of a closed
      connection; but no other frame, and the record stays. */
  ghost predicate Fits(l: Link, ev: Event, net: Net, parses: Host -> bool, up: Reach) {
    && Truthful(net, parses, up)
    && match ev
       case Result(ok) => l.dialing.Some? ==> ok == up(l.dialing.value)
       case SendOther(_) => false
       case Gone => false
       case _ => true
  }

  /** Such a run, up to the end of the plan. */
  ghost predicate PlanRuns(s: History, evs: seq<(Event, Net)>, parses: Host -> bool, up: Reach)
    decreases |evs|
  {
    evs != [] ==>
      && s.link.dialing.Some? && Fits(s.link, evs[0].0, evs[0].1, parses, up)
      && PlanRuns(Step(s, evs[0].0, evs[0].1), evs[1..], parses, up)
  }

  /** The queue after the chats sent during a run. */
  function QueueAfter(q: seq<Chat>, n: nat, evs: seq<(Event, Net)>): seq<Chat>
    decreases |evs|
  {
    if evs == [] then q
    else if evs[0].0.Send? then QueueAfter(LastOf(q + [n], QUEUE_CAP), n + 1, evs[1..])
    else QueueAfter(q, n, evs[1..])
  }

  function Reports(evs: seq<(Event, Net)>): nat
    decreases |evs|
  {
    if evs == [] then 0 else (if evs[0].0.Result? then 1 else 0) + Reports(evs[1..])
  }

  /** Where a plan stands: trying with the queue `q`, or at its end with the queue handed over or kept. */
  ghost predicate Stands(t: Link, h: Link, q: seq<Chat>, p: seq<Host>, i: nat, parses: Host -> bool, up: Reach)
    requires i <= |p|
  {
    var k := FirstUp(p, i, parses, up);
    if t.dialing.Some? then
      && !t.connected && t.queue == q && t.wire == h.wire && t.pending == h.pending
      && i < t.idx <= |p| && t.dials == h.dials + Addresses(p[i..t.idx], parses)
    else if k < |p| then
      && t.connected && t.route == Some(p[k]) && t.queue == [] && t.pending.None?
      && t.dials == h.dials + Addresses(p[i..k], parses) + [p[k]]
      && t.wire == h.wire + Chats(q) + if h.pending.Some? then [FrameOut(h.pending.value)] else []
    else
      && !t.connected && t.plan.None? && t.queue == q && t.wire == h.wire && t.pending.None?
      && t.dials == h.dials + Addresses(p[i..], parses)
  }

  lemma AdvancedStands(l: Link, t: Link, h: Link, p: seq<Host>, i: nat, parses: Host -> bool, up: Reach)
    requires i <= |p| && !h.connected && Advances(l, t, h, p, i, parses, up)
    ensures Stands(t, h, l.queue, p, i, parses, up)
  {
    if t.dialing.Some? {
      assert l.queue == t.queue;
      TriedOne(h, p, i, t.idx - 1, parses);
    } else {
      assert p[i..|p|] == p[i..];
    }
  }

  /** Chats and announcements leave a plan under way alone. */
  lemma MeanwhileKeeps(
    l: Link, n: nat, ev: Event, net: Net, h: Link, p: seq<Host>, i: nat, parses: Host -> bool, up: Reach)
    requires Trying(l, h, p, i, parses, up) && Fits(l, ev, net, parses, up) && !ev.Result?
    ensures
      var t := LinkStep(l, n, ev, net);
      && Trying(t, h, p, i, parses, up) && t.idx == l.idx
      && t.queue == if ev.Send? then LastOf(l.queue + [n], QUEUE_CAP) else l.queue
  {
  }

  /** One event while the plan runs: it is still trying, further on after a report, or has ended. */
  lemma StepStands(
    s: History, ev: Event, net: Net, h: Link, p: seq<Host>, i: nat, parses: Host -> bool, up: Reach)
    requires i <= |p| && Trying(s.link, h, p, i, parses, up) && Fits(s.link, ev, net, parses, up)
    ensures
      var t, q := Step(s, ev, net).link, QueueAfter(s.link.queue, s.n, [(ev, net)]);
      && Stands(t, h, q, p, i, parses, up)
      && (t.dialing.Some? ==>
            Trying(t, h, p, i, parses, up) && t.queue == q && s.link.idx + Reports([(ev, net)]) <= t.idx)
  {
    var none: seq<(Event, Net)> := [];
    assert [(ev, net)][1..] == none;
    var t := Step(s, ev, net).link;
    if ev.Result? {
      ReportAdvances(s.link, ev.ok, h, p, i, net, parses, up);
      AdvancedStands(s.link, t, h, p, i, parses, up);
    } else {
      MeanwhileKeeps(s.link, s.n, ev, net, h, p, i, parses, up);
      TryingStands(t, h, p, i, parses, up);
    }
  }

  lemma TryingStands(t: Link, h: Link, p: seq<Host>, i: nat, parses: Host -> bool, up: Reach)
    requires i <= |p| && Trying(t, h, p, i, parses, up)
    ensures Stands(t, h, t.queue, p, i, parses, up)
  {
    TriedOne(h, p, i, t.idx - 1, parses);
  }

  lemma {:induction false} PlanStands(
    s: History, evs: seq<(Event, Net)>, h: Link, p: seq<Host>, i: nat, parses: Host -> bool, up: Reach)
    requires i <= |p| && Trying(s.link, h, p, i, parses, up) && PlanRuns(s, evs, parses, up)
    ensures
      var t := Run(s, evs).link;
      && Stands(t, h, QueueAfter(s.link.queue, s.n, evs), p, i, parses, up)
      && (t.dialing.Some? ==> s.link.idx + Reports(evs) <= t.idx)
    decreases |evs|
  {
    if evs == [] {
      TryingStands(s.link, h, p, i, parses, up);
    } else {
      var (ev, net) := evs[0];
      var next, rest := Step(s, ev, net), evs[1..];
      assert evs[..1] == [(ev, net)];
      StepStands(s, ev, net, h, p, i, parses, up);
      FirstEvent(s.link.queue, s.n, evs);
      assert Run(s, evs) == Run(next, rest);
      if next.link.dialing.Some? {
        assert QueueAfter(s.link.queue, s.n, evs) == QueueAfter(next.link.queue, next.n, rest);
        PlanStands(next, rest, h, p, i, parses, up);
      } else {
        assert rest == [] && Run(next, rest) == next;
        assert QueueAfter(s.link.queue, s.n, evs) == QueueAfter(s.link.queue, s.n, [(ev, net)]);
      }
    }
  }

  lemma FirstEvent(q: seq<Chat>, n: nat, evs: seq<(Event, Net)>)
    requires evs != []
    ensures
      var n' := if evs[0].0.Send? then n + 1 else n;
      QueueAfter(q, n, evs) == QueueAfter(QueueAfter(q, n, evs[..1]), n', evs[1..])
    ensures Reports(evs) == Reports(evs[..1]) + Reports(evs[1..])
  {
    assert evs[..1][0] == evs[0] && evs[..1][1..] == [];
  }

  /** A frame sent to an idle peer on record, with anything but other frames and the loss of the record happening
      until the plan ends: the addresses of the plan are tried once each, in order, up to the first reachable
      one. If there is one the link connects there, and what is handed over is the queue as it then is and the
      frame; only if all have failed is the frame dropped, and the queue is kept. Every report brings the end
      closer, so there are fewer of them than entries while the plan runs. The plan is the one left over from an
      earlier dial, from where that stopped, if there is one; else all candidates. */
  lemma FrameTriesWholePlan(
    s: History, f: Frame, net: Net, evs: seq<(Event, Net)>, parses: Host -> bool, up: Reach)
    requires !s.link.connected && s.link.dialing.None?
    requires s.link.ranked.Some? && (s.link.plan.None? ==> PlanOf(s.link) != [])
    requires Truthful(net, parses, up) && PlanRuns(Step(s, SendOther(f), net), evs, parses, up)
    ensures
      var l, t := s.link, Run(Step(s, SendOther(f), net), evs).link;
      var p, i, q := PlanOf(l), Position(l), QueueAfter(l.queue, s.n, evs);
      var k := FirstUp(p, i, parses, up);
      if t.dialing.Some? then
        && !t.connected && t.pending == Some(f) && t.queue == q && t.wire == l.wire
        && i + Reports(evs) < t.idx <= |p| && t.dials == l.dials + Addresses(p[i..t.idx], parses)
      else if k < |p| then
        && t.connected && t.route == Some(p[k]) && t.queue == [] && t.pending.None?
        && t.dials == l.dials + Addresses(p[i..k], parses) + [p[k]]
        && t.wire == l.wire + Chats(q) + [FrameOut(f)]
      else
        && !t.connected && t.plan.None? && t.queue == q && t.wire == l.wire && t.pending.None?
        && t.dials == l.dials + Addresses(p[i..], parses)
  {
    var l, h := s.link, Holding(s.link, Some(f));
    var p, i := PlanOf(l), Position(l);
    var b := h.(plan := Some(p), idx := i);
    var first := Step(s, SendOther(f), net);
    StartAdvances(l, Some(f), net, parses, up);
    if first.link.dialing.Some? {
      PlanStands(first, evs, h, p, i, parses, up);
    } else {
      AdvancedStands(b, first.link, h, p, i, parses, up);
      assert evs == [];
    }
  }

  // ---------- the queue's dial ----------

  /** An idle link to a peer on record, with chats queued once the event is in: a chat is sent, or the peer
      announces itself. */
  ghost predicate Wakes(s: History, ev: Event) {
    && !s.link.connected && s.link.dialing.None?
    && match ev
       case Send => s.link.ranked.Some?
       case Seen(_) => s.link.queue != []
       case _ => false
  }

  /** The link with the event's news: the chat queued, or the addresses announced. */
  function Informed(s: History, ev: Event): Link {
    match ev
    case Send => s.link.(queue := LastOf(s.link.queue + [s.n], 500))
    case Seen(ranked) => s.link.(ranked := Some(ranked))
    case _ => s.link
  }

  lemma WakeDials(s: History, ev: Event, net: Net)
    requires Wakes(s, ev)
    ensures Step(s, ev, net).link == DialNext(Informed(s, ev), None, net)
  {
  }

  /** A chat sent to an idle peer on record, or the announcement of an idle peer for which chats are queued, dials
      as a frame does: the addresses of the plan are tried once each, in order, up to the first reachable one. If
      there is one the link connects there and the whole queue as it then is goes out, behind it whatever frame
      was still held; if there is none the queue is kept. */
  lemma QueueTriesWholePlan(
    s: History, ev: Event, net: Net, evs: seq<(Event, Net)>, parses: Host -> bool, up: Reach)
    requires Wakes(s, ev) && (s.link.plan.None? ==> PlanOf(Informed(s, ev)) != [])
    requires Truthful(net, parses, up) && PlanRuns(Step(s, ev, net), evs, parses, up)
    ensures
      var l, t := Informed(s, ev), Run(Step(s, ev, net), evs).link;
      var p, i := PlanOf(l), Position(l);
      var q := QueueAfter(l.queue, if ev.Send? then s.n + 1 else s.n, evs);
      Stands(t, l, q, p, i, parses, up) && (t.dialing.Some? ==> i + Reports(evs) < t.idx)
  {
    var l := Informed(s, ev);
    var p, i := PlanOf(l), Position(l);
    var b := l.(plan := Some(p), idx := i);
    var first := Step(s, ev, net);
    assert Holding(l, None) == l;
    WakeDials(s, ev, net);
    StartAdvances(l, None, net, parses, up);
    if first.link.dialing.Some? {
      PlanStands(first, evs, l, p, i, parses, up);
    } else {
      AdvancedStands(b, first.link, l, p, i, parses, up);
      assert evs == [];
    }
  }

  /** What is left of a queue while chats are sent: of those queued and those sent, in order, the last 500. */
  lemma {:induction false} QueueIsTheNewest(q: seq<Chat>, n: nat, evs: seq<(Event, Net)>)
    requires |q| <= 500
    ensures QueueAfter(q, n, evs) == LastOf(q + Range(n, n + Chatted(evs)), 500)
    decreases |evs|
  {
    if evs == [] {
      assert q + Range(n, n) == q;
    } else if evs[0].0.Send? {
      QueueIsTheNewest(LastOf(q + [n], 500), n + 1, evs[1..]);
      LastOfGrows(q, n, n + Chatted(evs));
    } else {
      QueueIsTheNewest(q, n, evs[1..]);
    }
  }

  lemma LastOfGrows(q: seq<Chat>, n: nat, m: nat)
    requires |q| <= 500 && n < m
    ensures LastOf(LastOf(q + [n], 500) + Range(n + 1, m), 500) == LastOf(q + Range(n, m), 500)
  {
    var more := Range(n + 1, m);
    assert Range(n, m) == [n] + more;
    assert q + Range(n, m) == q + [n] + more;
    LastOfTail(q + [n], more, 500);
  }

  /** Dropping from the front early drops nothing that is kept in the end. */
  lemma LastOfTail(a: seq<Chat>, b: seq<Chat>, n: nat)
    ensures LastOf(LastOf(a, n) + b, n) == LastOf(a + b, n)
  {
    if |a| > n {
      var k := |a| - n;
      assert a[k..] + b == (a + b)[k..];
    }
  }

  /** Chats sent in a run. */
  function Chatted(evs: seq<(Event, Net)>): nat
    decreases |evs|
  {
    if evs == [] then 0 else (if evs[0].0.Send? then 1 else 0) + Chatted(evs[1..])
  }

  // ---------- every other event ----------

  /** An open connection takes chats and frames at once, and an announcement empties the queue into it. */
  lemma WhileConnected(l: Link, n: nat, ev: Event, net: Net)
    requires l.connected && LinkOk(l)
    ensures
      LinkStep(l, n, ev, net) ==
        match ev
        case Send => l.(wire := l.wire + [ChatOut(n)])
        case SendOther(f) => l.(wire := l.wire + [FrameOut(f)])
        case Seen(ranked) => l.(ranked := Some(ranked))
        case Noted(ranked) => l.(ranked := Some(ranked))
        case Gone => l.(ranked := None)
        case Closed => l.(connected := false)
        case Result(_) => l
  {
    assert l.wire + Chats([]) == l.wire;
  }

  /** Without a connection: a chat is queued whatever happens, and an event that starts no dial and reports none
      changes nothing else than the record. */
  lemma WhileNotConnected(l: Link, n: nat, ev: Event, net: Net)
    requires !l.connected
    ensures
      match ev
      case Send =>
        l.dialing.Some? || l.ranked.None? ==> LinkStep(l, n, ev, net) == l.(queue := LastOf(l.queue + [n], 500))
      case SendOther(_) => l.ranked.None? ==> LinkStep(l, n, ev, net) == l
      case Seen(ranked) =>
        l.dialing.Some? || l.queue == [] ==> LinkStep(l, n, ev, net) == l.(ranked := Some(ranked))
      case Noted(ranked) => LinkStep(l, n, ev, net) == l.(ranked := Some(ranked))
      case Gone => LinkStep(l, n, ev, net) == l.(ranked := None)
      case Closed => LinkStep(l, n, ev, net) == l
      case Result(ok) =>
        && (l.dialing.None? ==> LinkStep(l, n, ev, net) == l)
        && (l.dialing.Some? && !ok && l.ranked.None? ==>
              var route := if l.route == l.dialing then None else l.route;
              LinkStep(l, n, ev, net) == l.(dialing := None, route := route))
        && (l.dialing.Some? && ok ==>
              var held := if l.pending.Some? then [FrameOut(l.pending.value)] else [];
              LinkStep(l, n, ev, net) ==
                l.(connected := true, dialing := None, route := l.dialing, plan := None, idx := 0, pending := None,
                   queue := [], wire := l.wire + Chats(l.queue) + held))
  {
    if ev.Result? && !ev.ok && l.ranked.None? {
      UnrecordedReport(l, false, net);
    }
  }

  /** With a record that names no address a dial that would start a plan ends before it begins. */
  lemma NothingToDial(l: Link, n: nat, ev: Event, net: Net)
    requires !l.connected && l.plan.None?
    ensures ev.SendOther? && l.ranked == Some([]) ==> LinkStep(l, n, ev, net) == l
    ensures ev.Send? && l.ranked == Some([]) ==> LinkStep(l, n, ev, net) == l.(queue := LastOf(l.queue + [n], 500))
    ensures ev.Seen? && ev.ranked == [] ==> LinkStep(l, n, ev, net) == l.(ranked := Some([]))
  {
  }

  /** A frame sent while a dial is in flight goes with the next address of the plan as if there were none in
      flight; if the plan holds no more addresses it is dropped, with the one held, and the dial goes on. */
  lemma FrameWhileDialing(l: Link, n: nat, f: Frame, net: Net)
    requires !l.connected && l.dialing.Some? && l.ranked.Some? && (l.plan.None? ==> PlanOf(l) != [])
    ensures
      LinkStep(l, n, SendOther(f), net) ==
        if exists j :: Position(l) <= j < |PlanOf(l)| && net.parses(PlanOf(l)[j])
        then LinkStep(l.(dialing := None), n, SendOther(f), net)
        else l.(plan := None, idx := 0, pending := None)
  {
    DialNextCases(l, Some(f), net);
    DialNextCases(l.(dialing := None), Some(f), net);
  }

  // ---------- a second frame ----------

  /** What a dial may do with what is held: keep it, drop it, or send it behind the queue. */
  ghost predicate HeldOrSent(l: Link, t: Link, held: Option<Frame>) {
    || (t.wire == l.wire && (t.pending == held || t.pending == None))
    || (t.wire == l.wire + Chats(l.queue) + (if held.Some? then [FrameOut(held.value)] else []) && t.pending == None)
  }

  lemma {:induction false} DialHolds(l: Link, frame: Option<Frame>, net: Net)
    requires !l.connected && l.ranked.Some? && (l.plan.None? ==> PlanOf(l) != [])
    ensures HeldOrSent(l, DialNext(l, frame, net), Holding(l, frame).pending)
    decreases Left(l), 1
  {
    DialNextCases(l, frame, net);
    var k := NextParseable(PlanOf(l), Position(l), net.parses);
    if k < |PlanOf(l)| && net.connect(PlanOf(l)[k]) == Refused {
      var d := Attempt(l, frame, k);
      DialHolds(d.(dialing := None, route := if d.route == d.dialing then None else d.route), None, net);
    }
  }

  /** A frame sent while another is held takes its place: whatever becomes of the second, the first is not sent. */
  lemma SecondFrameDisplacesFirst(s: History, f: Frame, g: Frame, net: Net)
    requires f != g && !s.link.connected && s.link.dialing.Some? && s.link.pending == Some(f)
    requires s.link.ranked.Some? && s.link.plan.Some?
    ensures
      var l, t := s.link, Step(s, SendOther(g), net).link;
      && t.pending != Some(f)
      && (t.wire == l.wire || t.wire == l.wire + Chats(l.queue) + [FrameOut(g)])
  {
    DialHolds(s.link, Some(g), net);
  }

  /** If the plan has no more addresses both are lost, though the dial in flight then succeeds. */
  lemma SecondFrameLosesBoth(h: Host, f: Frame, g: Frame)
    ensures
      var t := Run(START, [(Seen([h]), SLOW), (SendOther(f), SLOW), (SendOther(g), SLOW), (Result(true), SLOW)]).link;
      t.connected && t.route == Some(h) && t.wire == []
  {
    var two, e3, e4 := [(Seen([h]), SLOW), (SendOther(f), SLOW)], (SendOther(g), SLOW), (Result(true), SLOW);
    DialsOnly(h, f);
    RunSnoc(START, two, e3);
    RunSnoc(START, two + [e3], e4);
    assert two + [e3] + [e4] == [(Seen([h]), SLOW), (SendOther(f), SLOW), (SendOther(g), SLOW), (Result(true), SLOW)];
    FrameWhileDialing(Run(START, two).link, 0, g, SLOW);
  }

  // ---------- plans left over ----------

  /** An idle link with a plan that is half used up. */
  predicate Leftover(l: Link) { !l.connected && l.dialing.None? && l.plan.Some? }

  /** A dial is reported to have failed while the peer has no record. */
  predicate FailsUnrecorded(l: Link, ev: Event) {
    ev == Result(false) && l.dialing.Some? && l.plan.Some? && l.ranked.None?
  }

  /** The event makes an idle link dial on. */
  predicate DialsOn(l: Link, ev: Event) {
    match ev
    case Send => l.ranked.Some?
    case SendOther(_) => l.ranked.Some?
    case Seen(_) => l.queue != []
    case _ => false
  }

  lemma {:induction false} DialedLeavesNone(l: Link, ok: bool, net: Net)
    requires !l.connected && l.ranked.Some?
    ensures l.dialing.Some? ==> !Leftover(Dialed(l, ok, net))
    decreases Left(l), 2
  {
    if l.dialing.Some? && !ok {
      DialNextLeavesNone(l.(dialing := None, route := if l.route == l.dialing then None else l.route), None, net);
    }
  }

  lemma {:induction false} DialNextLeavesNone(l: Link, frame: Option<Frame>, net: Net)
    requires !l.connected && l.ranked.Some?
    ensures !Leftover(DialNext(l, frame, net))
    decreases Left(l), 1
  {
    if l.plan.Some? || PlanOf(l) != [] {
      DialNextCases(l, frame, net);
      var k := NextParseable(PlanOf(l), Position(l), net.parses);
      if k < |PlanOf(l)| && net.connect(PlanOf(l)[k]) == Refused {
        DialedLeavesNone(Attempt(l, frame, k), false, net);
      }
    }
  }

  lemma StepLeftover(l: Link, n: nat, ev: Event, net: Net)
    requires LinkOk(l)
    ensures Leftover(LinkStep(l, n, ev, net)) <==> FailsUnrecorded(l, ev) || (Leftover(l) && !DialsOn(l, ev))
  {
    match ev
    case Send =>
      if !l.connected && l.ranked.Some? {
        var q := l.(queue := LastOf(l.queue + [n], QUEUE_CAP));
        assert q.queue != [];
        DialNextLeavesNone(q, None, net);
      }
    case SendOther(f) => if !l.connected && l.ranked.Some? { DialNextLeavesNone(l, Some(f), net); }
    case Seen(ranked) => if !l.connected { DialNextLeavesNone(l.(ranked := Some(ranked)), None, net); }
    case Result(ok) =>
      if l.ranked.None? {
        UnrecordedReport(l, ok, net);
      } else if !l.connected {
        DialedLeavesNone(l, ok, net);
      }
    case _ =>
  }

  /** Without a record a failed dial just ends. */
  lemma UnrecordedReport(l: Link, ok: bool, net: Net)
    requires l.ranked.None?
    ensures l.dialing.Some? && !ok ==>
      Dialed(l, ok, net) == l.(dialing := None, route := if l.route == l.dialing then None else l.route)
  {
    if l.dialing.Some? && !ok {
      var failed := l.(dialing := None, route := if l.route == l.dialing then None else l.route);
      assert Dialed(l, ok, net) == DialNext(failed, None, net);
      assert DialNext(failed, None, net) == failed;
    }
  }

  lemma {:induction false} RunSnoc(s: History, evs: seq<(Event, Net)>, e: (Event, Net))
    ensures Run(s, evs + [e]) == Step(Run(s, evs), e.0, e.1)
    decreases |evs|
  {
    if evs == [] {
      assert ([] + [e])[1..] == [];
    } else {
      assert (evs + [e])[1..] == evs[1..] + [e];
      RunSnoc(Step(s, evs[0].0, evs[0].1), evs[1..], e);
    }
  }

  function LinkAt(s: History, evs: seq<(Event, Net)>, j: nat): Link
    requires j <= |evs|
  {
    Run(s, evs[..j]).link
  }

  /** Event `j` reports a failed dial while the record is gone, and the link has not dialled on since. */
  ghost predicate Abandoned(s: History, evs: seq<(Event, Net)>, j: nat) {
    && j < |evs| && FailsUnrecorded(LinkAt(s, evs, j), evs[j].0)
    && forall m :: j < m < |evs| ==> !DialsOn(LinkAt(s, evs, m), evs[m].0)
  }

  lemma AbandonedSnoc(s: History, evs: seq<(Event, Net)>, j: nat)
    requires evs != []
    ensures
      var n := |evs| - 1;
      Abandoned(s, evs, j) <==>
        if j == n then FailsUnrecorded(LinkAt(s, evs, n), evs[n].0)
        else Abandoned(s, evs[..n], j) && !DialsOn(LinkAt(s, evs, n), evs[n].0)
  {
    var n := |evs| - 1;
    var init := evs[..n];
    assert forall m :: 0 <= m <= n ==> evs[..m] == init[..m];
    assert forall m :: 0 <= m < n ==> LinkAt(s, evs, m) == LinkAt(s, init, m) && init[m] == evs[m];
    if Abandoned(s, evs, j) && j < n {
      assert !DialsOn(LinkAt(s, evs, n), evs[n].0);
      assert forall m :: j < m < n ==> !DialsOn(LinkAt(s, evs, m), evs[m].0);
    }
  }

  /** In every run: an idle link holds a plan, and so will start behind addresses that had failed before, exactly
      if a failed dial was reported while the peer's record was gone and the link has not dialled on since. */
  lemma {:induction false} LeftoverExactlyIfAbandoned(s: History, evs: seq<(Event, Net)>)
    requires HistoryOk(s) && !Leftover(s.link)
    ensures HistoryOk(Run(s, evs))
    ensures Leftover(Run(s, evs).link) <==> exists j: nat :: Abandoned(s, evs, j)
    decreases |evs|
  {
    if evs != [] {
      var n := |evs| - 1;
      var init, e := evs[..n], evs[n];
      assert evs == init + [e];
      LeftoverExactlyIfAbandoned(s, init);
      RunSnoc(s, init, e);
      StepKeeps(Run(s, init), e.0, e.1);
      StepLeftover(Run(s, init).link, Run(s, init).n, e.0, e.1);
      forall j: nat ensures Abandoned(s, evs, j) <==>
        if j == n then FailsUnrecorded(LinkAt(s, evs, n), e.0)
        else Abandoned(s, init, j) && !DialsOn(LinkAt(s, evs, n), e.0)
      {
        AbandonedSnoc(s, evs, j);
      }
      assert LinkAt(s, evs, n) == Run(s, init).link;
      if Leftover(Run(s, evs).link) {
        if FailsUnrecorded(Run(s, init).link, e.0) {
          assert Abandoned(s, evs, n);
        } else {
          var j: nat :| Abandoned(s, init, j);
          assert Abandoned(s, evs, j);
        }
      }
    }
  }

  // ---------- a plan left over, and a frame lost by it ----------

  /** Connects that are reported later, and connects that succeed at once. */
  const SLOW: Net := Net(x => true, x => Later)
  const QUICK: Net := Net(x => true, x => Ok)

  /** The only address of a peer is being dialled with a frame held. */
  lemma DialsOnly(h: Host, f: Frame)
    ensures
      Run(START, [(Seen([h]), SLOW), (SendOther(f), SLOW)]).link ==
      FIRST.(ranked := Some([h]), plan := Some([h]), idx := 1, pending := Some(f), dialing := Some(h), dials := [h])
  {
    var e1, e2 := (Seen([h]), SLOW), (SendOther(f), SLOW);
    RunSnoc(START, [], e1);
    RunSnoc(START, [e1], e2);
    assert [] + [e1] == [e1] && [e1] + [e2] == [e1, e2];
    DialNextCases(FIRST.(ranked := Some([h])), Some(f), SLOW);
  }

  /** Then its record goes and the dial fails. */
  lemma LosesRecord(h: Host, f: Frame)
    ensures
      Run(START, [(Seen([h]), SLOW), (SendOther(f), SLOW), (Gone, SLOW), (Result(false), SLOW)]).link ==
      FIRST.(plan := Some([h]), idx := 1, pending := Some(f), dials := [h])
  {
    var two, e3, e4 := [(Seen([h]), SLOW), (SendOther(f), SLOW)], (Gone, SLOW), (Result(false), SLOW);
    DialsOnly(h, f);
    RunSnoc(START, two, e3);
    RunSnoc(START, two + [e3], e4);
    assert two + [e3] + [e4] == [(Seen([h]), SLOW), (SendOther(f), SLOW), (Gone, SLOW), (Result(false), SLOW)];
    UnrecordedReport(PeerGone(Run(START, two).link), false, SLOW);
  }

  /** A peer's only address is being dialled when its record goes and the dial fails. The peer comes back, its
      address now reachable, and a frame for it is dropped at once, without a dial. */
  lemma LeftoverPlanDropsFrame(h: Host, f: Frame, g: Frame)
    ensures
      var before := Run(
        START, [(Seen([h]), SLOW), (SendOther(f), SLOW), (Gone, SLOW), (Result(false), SLOW), (Seen([h]), QUICK)]);
      var t := Step(before, SendOther(g), QUICK).link;
      && Leftover(before.link) && before.link.ranked == Some([h])
      && !t.connected && t.dialing.None? && t.pending.None? && t.wire == [] && t.dials == before.link.dials == [h]
  {
    var four := [(Seen([h]), SLOW), (SendOther(f), SLOW), (Gone, SLOW), (Result(false), SLOW)];
    LosesRecord(h, f);
    RunSnoc(START, four, (Seen([h]), QUICK));
    assert four + [(Seen([h]), QUICK)] ==
      [(Seen([h]), SLOW), (SendOther(f), SLOW), (Gone, SLOW), (Result(false), SLOW), (Seen([h]), QUICK)];
    DialNextCases(Run(START, four + [(Seen([h]), QUICK)]).link, Some(g), QUICK);
  }
}
