/** One daemon's link to one peer: dialling the candidate addresses in order, the frame held for the
    dial, and the queue of chat messages for a peer that is not connected. */
module PeerLink {
  import opened Options
  import opened Arithmetic

  type Host = string
  type Frame = string
  type Chat = nat  // chat messages to one peer, numbered in the order they are sent

  const QUEUE_CAP: nat := 500

  /** How starting a connection returns: connected, refused, or to be reported later. */
  datatype Rv = Ok | Refused | Later

  /** What is handed to a connection. */
  datatype Out = ChatOut(chat: Chat) | FrameOut(frame: Frame)

  datatype Link = Link(
    ranked: Option<seq<Host>>,  // the peer's known addresses, best first, if there is a record
    connected: bool,
    dialing: Option<Host>,
    plan: Option<seq<Host>>,
    idx: nat,
    pending: Option<Frame>,
    queue: seq<Chat>,
    route: Option<Host>,
    wire: seq<Out>,  // everything handed to this peer's connections
    dials: seq<Host>)  // every address a connection was started to

  /** The network as one callback sees it: which literals are addresses, and how each connect returns. */
  datatype Net = Net(parses: Host -> bool, connect: Host -> Rv)

  // ---------- candidates ----------

  function IndexOf(hs: seq<Host>, h: Host): (k: nat)
    ensures k <= |hs|
    ensures k < |hs| ==> hs[k] == h
    ensures forall i :: 0 <= i < k ==> hs[i] != h
  {
    if hs == [] || hs[0] == h then 0 else 1 + IndexOf(hs[1..], h)
  }

  /** The address that worked last leads, the others keep their order. */
  function Candidates(ranked: seq<Host>, route: Option<Host>): (p: seq<Host>)
    ensures |p| == |ranked|
  {
    if route.None? then ranked
    else
      var k := IndexOf(ranked, route.value);
      if k < |ranked| then [ranked[k]] + ranked[..k] + ranked[k + 1..] else ranked
  }

  // ---------- dialling ----------

  /** First entry at or behind `i` that is an address. */
  function NextParseable(p: seq<Host>, i: nat, parses: Host -> bool): (k: nat)
    requires i <= |p|
    ensures i <= k <= |p|
    ensures k < |p| ==> parses(p[k])
    ensures forall j :: i <= j < k ==> !parses(p[j])
    decreases |p| - i
  {
    if i == |p| || parses(p[i]) then i else NextParseable(p, i + 1, parses)
  }

  /** Dial attempts that may still follow before the plan is exhausted. */
  function Left(l: Link): nat {
    match l.plan
    case Some(p) => if l.idx <= |p| then |p| - l.idx else 0
    case None => if l.ranked.Some? then |l.ranked.value| + 1 else 0
  }

  function Chats(cs: seq<Chat>): (o: seq<Out>)
    ensures |o| == |cs|
    ensures forall i :: 0 <= i < |cs| ==> o[i] == ChatOut(cs[i])
  {
    seq(|cs|, i requires 0 <= i < |cs| => ChatOut(cs[i]))
  }

  /** The dial succeeded: the queue goes out first, then the held frame. */
  function Established(l: Link, host: Host): Link {
    l.(connected := true, dialing := None, route := Some(host), plan := None, idx := 0, queue := [], pending := None,
       wire := l.wire + Chats(l.queue) + if l.pending.Some? then [FrameOut(l.pending.value)] else [])
  }

  /** No candidate is left: the held frame is dropped, the queue stays. */
  function Exhausted(l: Link): Link {
    l.(plan := None, idx := 0, pending := None)
  }

  /** Starts the next dial, holding `frame` for it if there is one. */
  function DialNext(l: Link, frame: Option<Frame>, net: Net): Link
    decreases Left(l), 1
  {
    if l.connected || l.ranked.None? then l else
    var p := if l.plan.None? then Candidates(l.ranked.value, l.route) else l.plan.value;
    var i := if l.plan.None? then 0 else Min(l.idx, |p|);
    if l.plan.None? && p == [] then l else
    var k := NextParseable(p, i, net.parses);
    if k == |p| then Exhausted(l) else
    var d := l.(plan := Some(p), idx := k + 1, pending := if frame.Some? then frame else l.pending,
                dialing := Some(p[k]), dials := l.dials + [p[k]]);
    match net.connect(p[k])
    case Later => d
    case Ok => Dialed(d, true, net)
    case Refused => Dialed(d, false, net)
  }

  /** A dial has ended. */
  function Dialed(l: Link, ok: bool, net: Net): Link
    decreases Left(l), 2
  {
    if l.dialing.None? then l else
    var host := l.dialing.value;
    if ok then Established(l, host)
    else DialNext(l.(dialing := None, route := if l.route == Some(host) then None else l.route), None, net)
  }

  // ---------- what reaches the link ----------

  /** Any frame but a queued chat message: over the open connection, or held for a dial. */
  function SendFrame(l: Link, f: Frame, net: Net): Link {
    if l.connected then l.(wire := l.wire + [FrameOut(f)]) else DialNext(l, Some(f), net)
  }

  function EnsureConnection(l: Link, net: Net): Link {
    if l.connected || l.dialing.Some? then l else DialNext(l, None, net)
  }

  function FlushQueue(l: Link): Link {
    if l.connected then l.(wire := l.wire + Chats(l.queue), queue := []) else l
  }

  function MaybeRedeliver(l: Link, net: Net): Link {
    if l.queue == [] then l else if l.connected then FlushQueue(l) else EnsureConnection(l, net)
  }

  function LastOf<T>(s: seq<T>, n: nat): (r: seq<T>)
    ensures |r| == Min(|s|, n)
  {
    if |s| <= n then s else s[|s| - n..]
  }

  /** A chat message: over the open connection, or into the queue, which keeps the newest. */
  function SendChat(l: Link, m: Chat, net: Net): Link {
    if l.connected then l.(wire := l.wire + [ChatOut(m)])
    else MaybeRedeliver(l.(queue := LastOf(l.queue + [m], QUEUE_CAP)), net)
  }

  /** The peer announced itself with these addresses. */
  function PeerSeen(l: Link, ranked: seq<Host>, net: Net): Link {
    MaybeRedeliver(l.(ranked := Some(ranked)), net)
  }

  function PeerGone(l: Link): Link { l.(ranked := None) }

  function ConnectionClosed(l: Link): Link { l.(connected := false) }

  const FIRST: Link := Link(None, false, None, None, 0, None, [], None, [], [])
}
