/** What the daemon promises about one peer over whole runs: chat messages are delivered in order, once
    each, except exactly those the queue's cap pushed out. */
module PeerDelivery {
  import opened Options
  import opened Arithmetic
  import opened PeerLink

  // ---------- a link is connected, dialling, or idle ----------

  /** An open connection means no queue, no dial and nothing held; the queue is within its cap. */
  ghost predicate LinkOk(l: Link) {
    && (l.connected ==> l.queue == [] && l.dialing.None? && l.plan.None? && l.pending.None?)
    && |l.queue| <= QUEUE_CAP
  }

  /** Chat messages among what was handed over. */
  function ChatsIn(o: seq<Out>): (cs: seq<Chat>) {
    if o == [] then [] else (if o[0].ChatOut? then [o[0].chat] else []) + ChatsIn(o[1..])
  }

  lemma {:induction false} ChatsInConcat(a: seq<Out>, b: seq<Out>)
    ensures ChatsIn(a + b) == ChatsIn(a) + ChatsIn(b)
  {
    if a == [] {
      assert a + b == b;
    } else {
      assert (a + b)[0] == a[0] && (a + b)[1..] == a[1..] + b;
      ChatsInConcat(a[1..], b);
      var front := if a[0].ChatOut? then [a[0].chat] else [];
      assert ChatsIn(a) == front + ChatsIn(a[1..]) && ChatsIn(a + b) == front + ChatsIn(a[1..] + b);
    }
  }

  lemma {:induction false} ChatsInChats(cs: seq<Chat>)
    ensures ChatsIn(Chats(cs)) == cs
  {
    if cs != [] {
      assert Chats(cs)[1..] == Chats(cs[1..]);
      ChatsInChats(cs[1..]);
    }
  }

  /** Dialling, however far it gets, either leaves chats and connection as they were or connects and
      hands the whole queue over, in order. */
  ghost predicate DialEffect(l: Link, t: Link) {
    if t.connected && !l.connected then
      && t.queue == [] && ChatsIn(t.wire) == ChatsIn(l.wire) + l.queue
      && t.dialing.None? && t.plan.None? && t.pending.None?
    else
      t.connected == l.connected && t.queue == l.queue && t.wire == l.wire
  }

  lemma {:induction false} DialNextEffect(l: Link, frame: Option<Frame>, net: Net)
    requires !l.connected
    ensures DialEffect(l, DialNext(l, frame, net))
    decreases Left(l), 1
  {
    if l.ranked.Some? {
      var p := if l.plan.None? then Candidates(l.ranked.value, l.route) else l.plan.value;
      var i := if l.plan.None? then 0 else Min(l.idx, |p|);
      var k := NextParseable(p, i, net.parses);
      if k < |p| {
        var d := l.(plan := Some(p), idx := k + 1, pending := if frame.Some? then frame else l.pending,
                    dialing := Some(p[k]), dials := l.dials + [p[k]]);
        DialedEffect(d, net.connect(p[k]) == Ok, net);
      }
    }
  }

  lemma {:induction false} DialedEffect(l: Link, ok: bool, net: Net)
    requires !l.connected
    ensures DialEffect(l, Dialed(l, ok, net))
    decreases Left(l), 2
  {
    if l.dialing.Some? {
      var host := l.dialing.value;
      if ok {
        var held := if l.pending.Some? then [FrameOut(l.pending.value)] else [];
        ChatsInConcat(l.wire + Chats(l.queue), held);
        ChatsInConcat(l.wire, Chats(l.queue));
        ChatsInChats(l.queue);
        assert ChatsIn(held) == [];
      } else {
        DialNextEffect(l.(dialing := None, route := if l.route == Some(host) then None else l.route), None, net);
      }
    }
  }

  // ---------- runs ----------

  datatype Event =
    | Send
    | SendOther(f: Frame)
    | Seen(ranked: seq<Host>)
    | Noted(ranked: seq<Host>)
    | Gone
    | Closed
    | Result(ok: bool)

  /** The link with its history: chats sent so far, how many had been sent when the link was last open,
      and the earlier periods without a connection, each as the numbers of the chats sent during it. */
  datatype History = History(link: Link, n: nat, since: nat, periods: seq<(nat, nat)>)

  const START: History := History(FIRST, 0, 0, [])

  function LinkStep(l: Link, n: nat, ev: Event, net: Net): Link {
    match ev
    case Send => SendChat(l, n, net)
    case SendOther(f) => SendFrame(l, f, net)
    case Seen(ranked) => PeerSeen(l, ranked, net)
    case Noted(ranked) => l.(ranked := Some(ranked))
    case Gone => PeerGone(l)
    case Closed => ConnectionClosed(l)
    case Result(ok) => Dialed(l, ok, net)
  }

  function Step(h: History, ev: Event, net: Net): History {
    var t := LinkStep(h.link, h.n, ev, net);
    var n := if ev.Send? then h.n + 1 else h.n;
    if !t.connected then History(t, n, h.since, h.periods)
    else if h.link.connected then History(t, n, n, h.periods)
    else History(t, n, n, h.periods + [(h.since, n)])
  }

  function Run(h: History, evs: seq<(Event, Net)>): History
    decreases |evs|
  {
    if evs == [] then h else Run(Step(h, evs[0].0, evs[0].1), evs[1..])
  }

  function Range(a: nat, b: nat): (r: seq<Chat>)
    ensures |r| == if a <= b then b - a else 0
    ensures forall i :: 0 <= i < |r| ==> r[i] == a + i
  {
    seq(if a <= b then b - a else 0, i => a + i)
  }

  /** Number of the oldest chat of the period `a` to `b` that still fits the queue. */
  function Oldest(a: nat, b: nat): nat {
    if b <= a + QUEUE_CAP then a else b - QUEUE_CAP
  }

  /** Chat `i` was pushed out: at least 500 more were sent before the link opened again. */
  predicate PushedOut(periods: seq<(nat, nat)>, i: Chat) {
    exists k :: 0 <= k < |periods| && periods[k].0 <= i < Oldest(periods[k].0, periods[k].1)
  }

  ghost predicate Increasing(cs: seq<Chat>) {
    forall i, j :: 0 <= i < j < |cs| ==> cs[i] < cs[j]
  }

  ghost predicate HistoryOk(h: History) {
    && LinkOk(h.link)
    && h.since <= h.n && (h.link.connected ==> h.since == h.n)
    && (forall k :: 0 <= k < |h.periods| ==> h.periods[k].0 <= h.periods[k].1 <= h.since)
    && h.link.queue == Range(Oldest(h.since, h.n), h.n)
    && DeliveredOk(ChatsIn(h.link.wire), h.since, h.periods)
  }

  /** What has been handed over: the chats below `since` in order, each once, less those pushed out. */
  ghost predicate DeliveredOk(cs: seq<Chat>, since: nat, periods: seq<(nat, nat)>) {
    && Increasing(cs)
    && forall i: Chat :: i in cs <==> i < since && !PushedOut(periods, i)
  }

  lemma DeliveredOne(cs: seq<Chat>, n: nat, periods: seq<(nat, nat)>)
    requires DeliveredOk(cs, n, periods)
    requires forall k :: 0 <= k < |periods| ==> periods[k].1 <= n
    ensures DeliveredOk(cs + [n], n + 1, periods)
  {
    assert forall i :: 0 <= i < |cs| ==> cs[i] in cs;
  }

  lemma DeliveredQueue(cs: seq<Chat>, since: nat, n: nat, periods: seq<(nat, nat)>)
    requires DeliveredOk(cs, since, periods) && since <= n
    requires forall k :: 0 <= k < |periods| ==> periods[k].1 <= since
    ensures DeliveredOk(cs + Range(Oldest(since, n), n), n, periods + [(since, n)])
  {
    var q, ps := Range(Oldest(since, n), n), periods + [(since, n)];
    assert forall i :: 0 <= i < |cs| ==> cs[i] in cs;
    forall i: Chat ensures PushedOut(ps, i) <==> PushedOut(periods, i) || since <= i < Oldest(since, n) {
      if PushedOut(periods, i) {
        var k :| 0 <= k < |periods| && periods[k].0 <= i < Oldest(periods[k].0, periods[k].1);
        assert ps[k] == periods[k];
      }
      if since <= i < Oldest(since, n) {
        assert ps[|periods|] == (since, n);
      }
    }
    forall i: Chat ensures i in q <==> Oldest(since, n) <= i < n {
      if Oldest(since, n) <= i < n {
        assert q[i - Oldest(since, n)] == i;
      }
    }
    assert forall i: Chat :: i in cs + q <==> i in cs || i in q;
  }

  lemma QueueOne(since: nat, n: nat)
    requires since <= n
    ensures LastOf(Range(Oldest(since, n), n) + [n], QUEUE_CAP) == Range(Oldest(since, n + 1), n + 1)
  {
  }

  /** A dial, begun in whatever way, keeps the history: `n` chats have been sent by then. */
  lemma DialKeeps(h: History, l: Link, t: Link, n: nat)
    requires !l.connected && DialEffect(l, t) && |l.queue| <= QUEUE_CAP
    requires h.since <= n && l.queue == Range(Oldest(h.since, n), n)
    requires forall k :: 0 <= k < |h.periods| ==> h.periods[k].0 <= h.periods[k].1 <= h.since
    requires DeliveredOk(ChatsIn(l.wire), h.since, h.periods)
    ensures
      HistoryOk(if t.connected then History(t, n, n, h.periods + [(h.since, n)]) else History(t, n, h.since, h.periods))
  {
    if t.connected {
      DeliveredQueue(ChatsIn(l.wire), h.since, n, h.periods);
    }
  }

  lemma QueuedEffect(q: Link, net: Net)
    requires !q.connected
    ensures DialEffect(q, MaybeRedeliver(q, net))
  {
    if q.dialing.None? {
      DialNextEffect(q, None, net);
    }
  }

  lemma ConnectedSendKeeps(h: History, net: Net)
    requires HistoryOk(h) && h.link.connected
    ensures HistoryOk(Step(h, Send, net))
  {
    var l := h.link;
    assert Chats([h.n]) == [ChatOut(h.n)];
    ChatsInChats([h.n]);
    ChatsInConcat(l.wire, [ChatOut(h.n)]);
    DeliveredOne(ChatsIn(l.wire), h.n, h.periods);
  }

  lemma SendKeeps(h: History, net: Net)
    requires HistoryOk(h)
    ensures HistoryOk(Step(h, Send, net))
  {
    var l := h.link;
    if l.connected {
      ConnectedSendKeeps(h, net);
    } else {
      var q := l.(queue := LastOf(l.queue + [h.n], QUEUE_CAP));
      assert SendChat(l, h.n, net) == MaybeRedeliver(q, net);
      QueuedSendKeeps(h, q, net);
    }
  }

  lemma QueuedSendKeeps(h: History, q: Link, net: Net)
    requires HistoryOk(h) && !h.link.connected && q == h.link.(queue := LastOf(h.link.queue + [h.n], QUEUE_CAP))
    ensures
      var t := MaybeRedeliver(q, net);
      var n := h.n + 1;
      HistoryOk(if t.connected then History(t, n, n, h.periods + [(h.since, n)]) else History(t, n, h.since, h.periods))
  {
    QueueOne(h.since, h.n);
    QueuedEffect(q, net);
    DialKeeps(h, q, MaybeRedeliver(q, net), h.n + 1);
  }

  lemma StepKeeps(h: History, ev: Event, net: Net)
    requires HistoryOk(h)
    ensures HistoryOk(Step(h, ev, net))
  {
    var l := h.link;
    match ev
    case Send => SendKeeps(h, net);
    case SendOther(f) =>
      if l.connected {
        ChatsInConcat(l.wire, [FrameOut(f)]);
        assert [FrameOut(f)][1..] == [];
      } else {
        DialNextEffect(l, Some(f), net);
        DialKeeps(h, l, SendFrame(l, f, net), h.n);
      }
    case Seen(ranked) =>
      if !l.connected {
        var seen := l.(ranked := Some(ranked));
        DialNextEffect(seen, None, net);
        DialKeeps(h, seen, PeerSeen(l, ranked, net), h.n);
      }
    case Result(ok) =>
      if !l.connected {
        DialedEffect(l, ok, net);
        DialKeeps(h, l, Dialed(l, ok, net), h.n);
      }
    case _ =>
  }

  /** Over every run: chats handed over, followed by those still queued, are the chats sent, in order and
      without repetition, missing exactly those the cap pushed out of a queue; and nothing is queued
      while the connection is open. */
  lemma {:induction false} ChatsInOrderOnce(h: History, evs: seq<(Event, Net)>)
    requires HistoryOk(h)
    ensures
      var t := Run(h, evs);
      var chats := ChatsIn(t.link.wire) + t.link.queue;
      && Increasing(chats)
      && (forall i: Chat ::
            i in chats <==> i < t.n && !PushedOut(t.periods, i) && !(t.since <= i < Oldest(t.since, t.n)))
      && (t.link.connected ==> t.link.queue == [])
    decreases |evs|
  {
    if evs == [] {
      var cs, q := ChatsIn(h.link.wire), h.link.queue;
      assert forall i :: 0 <= i < |cs| ==> cs[i] in cs;
      forall i: Chat ensures i in q <==> Oldest(h.since, h.n) <= i < h.n {
        if Oldest(h.since, h.n) <= i < h.n {
          assert q[i - Oldest(h.since, h.n)] == i;
        }
      }
      assert forall i: Chat :: i in cs + q <==> i in cs || i in q;
      NotYetPushedOut(h);
    } else {
      StepKeeps(h, evs[0].0, evs[0].1);
      ChatsInOrderOnce(Step(h, evs[0].0, evs[0].1), evs[1..]);
    }
  }

  lemma NotYetPushedOut(h: History)
    requires HistoryOk(h)
    ensures forall i: Chat :: PushedOut(h.periods, i) ==> i < h.since
  {
  }

  lemma StartIsOk()
    ensures HistoryOk(START)
  {
    assert ChatsIn([]) == [];
  }
}
