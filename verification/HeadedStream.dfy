/** A connection whose frames follow an HTTP answer: the answer is buffered up to a limit and stripped,
    then frames are decoded read by read. */
module HeadedStream {
  import opened WsFrames
  import opened FrameStream
  import opened Handshake

  const MAX_HEAD_BUFFER: nat := 65536

  datatype State =
    | Heading(buf: seq<byte>)
    | Framing(queue: seq<byte>, events: seq<seq<byte>>)
    | Stopped

  /** One read of the connection. */
  function Recv(d: Decoder, up: Frame -> bool, st: State, chunk: seq<byte>): State
    requires d.Lawful()
  {
    match st
    case Heading(buf) =>
      var b := buf + chunk;
      if HeadEnd(b) != 0 then
        var p := d.Parse(b[HeadEnd(b)..]);
        Framing(p.rest, Delivered(up, p.taken))
      else if |b| > MAX_HEAD_BUFFER then Stopped
      else Heading(b)
    case Framing(queue, events) =>
      var p := d.Parse(queue + chunk);
      Framing(p.rest, events + Delivered(up, p.taken))
    case Stopped => Stopped
  }

  function Run(d: Decoder, up: Frame -> bool, st: State, cs: seq<seq<byte>>): State
    requires d.Lawful()
    decreases |cs|
  {
    if cs == [] then st else Run(d, up, Recv(d, up, st, cs[0]), cs[1..])
  }

  lemma {:induction false} RunFraming(
      d: Decoder, up: Frame -> bool, q: seq<byte>, events: seq<seq<byte>>, cs: seq<seq<byte>>)
    requires d.Lawful()
    ensures
      var p := d.Reads(q, cs);
      Run(d, up, Framing(q, events), cs) == Framing(p.rest, events + Delivered(up, p.taken))
    decreases |cs|
  {
    if cs != [] {
      var p := d.Parse(q + cs[0]);
      RunFraming(d, up, p.rest, events + Delivered(up, p.taken), cs[1..]);
      DeliveredConcat(up, p.taken, d.Reads(p.rest, cs[1..]).taken);
      AppendAssoc(events, Delivered(up, p.taken), Delivered(up, d.Reads(p.rest, cs[1..]).taken));
    }
  }

  /** With a head within the limit, a run is the head stripped at its end and the rest decoded read
      by read. */
  lemma {:induction false} RunFromHead(d: Decoder, up: Frame -> bool, buf: seq<byte>, cs: seq<seq<byte>>)
    requires d.Lawful()
    requires HeadEnd(buf) == 0 && |buf| <= MAX_HEAD_BUFFER
    requires HeadEnd(buf + Concat(cs)) != 0 ==> HeadEnd(buf + Concat(cs)) <= MAX_HEAD_BUFFER + 1
    requires HeadEnd(buf + Concat(cs)) == 0 ==> |buf + Concat(cs)| <= MAX_HEAD_BUFFER
    ensures
      var ts := AfterHead(buf, cs);
      Run(d, up, Heading(buf), cs) ==
        if ts == [] then Heading(buf + Concat(cs))
        else Framing(d.Reads([], ts).rest, Delivered(up, d.Reads([], ts).taken))
    decreases |cs|
  {
    if cs == [] {
      assert buf + Concat(cs) == buf;
    } else {
      var b := buf + cs[0];
      ConcatHead(buf, cs);
      if HeadEnd(b) == 0 {
        if HeadEnd(b + Concat(cs[1..])) != 0 {
          HeadIncomplete(b, Concat(cs[1..]));
        }
        RunFromHead(d, up, b, cs[1..]);
      } else {
        var rest := b[HeadEnd(b)..];
        var p := d.Parse(rest);
        assert [] + rest == rest;
        assert AfterHead(buf, cs)[1..] == cs[1..];
        RunFraming(d, up, p.rest, Delivered(up, p.taken), cs[1..]);
        DeliveredConcat(up, p.taken, d.Reads(p.rest, cs[1..]).taken);
      }
    }
  }

  /** The client survives every cutting of the stream exactly when the head has at most 65537 bytes. */
  lemma HeadLimit(d: Decoder, up: Frame -> bool, head: seq<byte>, tail: seq<byte>)
    requires d.Lawful()
    requires head != [] && HeadEnd(head) == |head|
    ensures
      |head| <= 65537 <==>
      forall cs :: Concat(cs) == head + tail ==> Run(d, up, Heading([]), cs) != Stopped
  {
    HeadEndStable(head, tail);
    assert HeadEnd([]) == 0;
    if |head| <= MAX_HEAD_BUFFER + 1 {
      forall cs | Concat(cs) == head + tail ensures Run(d, up, Heading([]), cs) != Stopped {
        assert [] + Concat(cs) == Concat(cs);
        RunFromHead(d, up, [], cs);
      }
    } else {
      var cs := OverlongHeadStops(d, up, head + tail);
      assert Concat(cs) == head + tail && Run(d, up, Heading([]), cs) == Stopped;
    }
  }

  lemma OverlongHeadStops(d: Decoder, up: Frame -> bool, all: seq<byte>) returns (cs: seq<seq<byte>>)
    requires d.Lawful() && MAX_HEAD_BUFFER + 1 < HeadEnd(all) <= |all|
    ensures Concat(cs) == all && Run(d, up, Heading([]), cs) == Stopped
  {
    var a, b, c := all[..MAX_HEAD_BUFFER], all[MAX_HEAD_BUFFER..MAX_HEAD_BUFFER + 1], all[MAX_HEAD_BUFFER + 1..];
    assert [] + a == a && a + b == all[..MAX_HEAD_BUFFER + 1] && a + b + c == all;
    NoEarlierHead(all, MAX_HEAD_BUFFER);
    NoEarlierHead(all, MAX_HEAD_BUFFER + 1);
    ThreeReads(d, up, a, b, c);
    cs := [a, b, c];
  }

  lemma ThreeReads(d: Decoder, up: Frame -> bool, a: seq<byte>, b: seq<byte>, c: seq<byte>)
    requires d.Lawful()
    requires HeadEnd([] + a) == 0 && HeadEnd([] + a + b) == 0
    requires |a| <= MAX_HEAD_BUFFER < |a + b|
    ensures Concat([a, b, c]) == a + b + c
    ensures Run(d, up, Heading([]), [a, b, c]) == Stopped
  {
    var none: seq<seq<byte>> := [];
    assert [a, b, c][1..] == [b, c] && [b, c][1..] == [c] && [c][1..] == none;
    assert Concat([c]) == c;
    assert Concat([b, c]) == b + c;
    assert Recv(d, up, Heading([]), a) == Heading([] + a);
    assert Recv(d, up, Heading([] + a), b) == Stopped;
    assert Run(d, up, Stopped, [c]) == Run(d, up, Stopped, none);
    assert Run(d, up, Heading([] + a), [b, c]) == Stopped;
  }

  lemma NoEarlierHead(all: seq<byte>, k: nat)
    requires k <= |all| && k < HeadEnd(all)
    ensures HeadEnd(all[..k]) == 0
  {
    assert all[..k] + all[k..] == all;
    if HeadEnd(all[..k]) != 0 {
      HeadEndStable(all[..k], all[k..]);
    }
  }

  lemma SplitPrefix(head: seq<byte>, stream: seq<byte>, got: seq<byte>)
    requires |head| <= |got| && got <= head + stream
    ensures got == head + got[|head|..] && got[|head|..] <= stream
    ensures got == head + stream ==> got[|head|..] == stream
  {
    assert forall i :: 0 <= i < |got| ==> got[i] == (head + stream)[i];
  }

  /** Whatever part of (head, then stream) has arrived and however it was cut, the frames behind the
      head are decoded as if the head had never been there. */
  lemma HeadedDelivery(d: Decoder, up: Frame -> bool, head: seq<byte>, stream: seq<byte>, cs: seq<seq<byte>>)
    requires d.Lawful() && !FrameAfterClose(d.Frames(stream))
    requires head != [] && HeadEnd(head) == |head| <= MAX_HEAD_BUFFER + 1
    requires |head| <= |Concat(cs)| && Concat(cs) <= head + stream
    ensures
      var all := Delivered(up, d.Frames(stream));
      var st := Run(d, up, Heading([]), cs);
      && st.Framing? && st.events <= all
      && (Concat(cs) == head + stream ==> st == Framing(d.Residue(stream), all))
  {
    var got := Concat(cs);
    var tail := got[|head|..];
    assert HeadEnd([]) == 0 && [] + got == got;
    SplitPrefix(head, stream, got);
    HeadEndStable(head, tail);
    AfterHeadIsTail([], cs);
    RunFromHead(d, up, [], cs);
    var ts := AfterHead([], cs);
    d.ArrivedPrefix(stream, ts);
    DeliveredPrefix(up, d.Reads([], ts).taken, d.Frames(stream));
  }

  lemma DeliveredPrefix(up: Frame -> bool, taken: seq<Frame>, all: seq<Frame>)
    requires taken <= all
    ensures Delivered(up, taken) <= Delivered(up, all)
  {
    assert all == taken + all[|taken|..];
    DeliveredConcat(up, taken, all[|taken|..]);
  }

  // ---------- without the head ----------

  /** A client that already takes everything for frames, with bytes left over from an earlier connection:
      whatever the next one brings, cut in any way, is decoded behind those bytes. The events passed on, and
      those still in the queue, are those of `left + stream`. */
  lemma ReconnectedReads(
    d: Decoder, up: Frame -> bool, left: seq<byte>, events: seq<seq<byte>>, stream: seq<byte>, cs: seq<seq<byte>>)
    requires d.Lawful() && Concat(cs) == stream
    ensures
      var st := Run(d, up, Framing(left, events), cs);
      && st.Framing?
      && st.events + Delivered(up, d.Frames(st.queue)) == events + Delivered(up, d.Frames(left + stream))
  {
    var p := d.Reads(left, cs);
    RunFraming(d, up, left, events, cs);
    d.ReadsConserve(left, cs);
    DeliveredConcat(up, p.taken, d.Frames(p.rest));
    AppendAssoc(events, Delivered(up, p.taken), Delivered(up, d.Frames(p.rest)));
  }

  lemma DropsFront(d: Decoder, up: Frame -> bool, front: seq<byte>, f: Frame, tail: seq<byte>)
    requires d.Lawful() && d.next(front + tail) == Complete(f, |front|) && !up(f)
    ensures Delivered(up, d.Frames(front + tail)) == Delivered(up, d.Frames(tail))
  {
    d.FrontFrame(front, f, tail);
    DeliveredSkips(up, f, d.Frames(tail));
  }

  lemma DeliveredSkips(up: Frame -> bool, f: Frame, fs: seq<Frame>)
    requires !up(f)
    ensures Delivered(up, [f] + fs) == Delivered(up, fs)
  {
    assert ([f] + fs)[0] == f && ([f] + fs)[1..] == fs;
  }

  /** If `front` passes for a frame that is dropped, and `back` for the beginning of another that takes `k` more
      bytes, then the two make the client swallow the first `k` bytes behind them. */
  lemma SwallowedFrames(d: Decoder, up: Frame -> bool, front: seq<byte>, back: seq<byte>, stream: seq<byte>, k: nat)
    requires d.Lawful()
    requires
      var r := d.next(front + (back + stream));
      r.Complete? && r.size == |front| && !up(r.frame)
    requires
      var r := d.next(back + stream);
      if |stream| < k then !r.Complete? else r.Complete? && r.size == |back| + k && !up(r.frame)
    ensures Delivered(up, d.Frames(front + (back + stream))) ==
      if |stream| < k then [] else Delivered(up, d.Frames(stream[k..]))
  {
    var rest := back + stream;
    DropsFront(d, up, front, d.next(front + rest).frame, rest);
    if |stream| < k {
      NothingYet(d, rest);
    } else {
      var whole, tail := back + stream[..k], stream[k..];
      assert rest == whole + tail;
      DropsFront(d, up, whole, d.next(rest).frame, tail);
    }
  }

  lemma NothingYet(d: Decoder, q: seq<byte>)
    requires d.Lawful() && !d.next(q).Complete?
    ensures d.Frames(q) == []
  {
  }
}
