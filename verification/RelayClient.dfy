/** The relay's client: strips the HTTP answer, then decodes server frames with a decoder of its own
    and passes JSON events on. */
module RelayClient {
  import opened WsFrames
  import opened FrameStream
  import opened WsDelivery
  import opened Handshake
  import opened HeadedStream

  const OPEN_BRACE: byte := 123

  /** The relay client's reading of one frame: no mask key, no payload bound. A declared length that
      does not fit a 64-bit position counts as `TooLong` here. */
  function RelayNext(q: seq<byte>): (r: Scan)
    ensures r.Complete? ==> 2 <= r.size <= |q|
  {
    if |q| < 2 then NeedMore else
    var len7 := q[1] % 128;
    var start := 2 + ExtBytes(len7);
    if |q| < start then NeedMore else
    var len := if start == 2 then len7 else BigEndian(q[2..start]);
    if start + len >= Pow256(8) then TooLong
    else if |q| < start + len then NeedMore
    else Complete(Frame(HighBit(q[0]), q[0] % 16, q[start..start + len]), start + len)
  }

  const RELAY: Decoder := Decoder(q => RelayNext(q))

  /** Those lengths are the ten greatest: eight length bytes of which seven are 255 and the last at least 246. */
  lemma TooLongExactly(q: seq<byte>)
    ensures RelayNext(q) == TooLong <==>
      |q| >= 10 && q[1] % 128 == 127 && (forall i :: 2 <= i < 9 ==> q[i] == 255) && q[9] >= 246
  {
    Pow256Values();
    if |q| >= 2 && q[1] % 128 == 126 && |q| >= 4 {
      BigEndianPair(q[2..4]);
    }
    if |q| >= 10 && q[1] % 128 == 127 {
      var s := q[2..10];
      LongLength(q);
      GreatestNumber(q[2..9]);
      SevenBytes(q);
      assert BigEndian(s) == BigEndian(q[2..9]) * 256 + q[9];
      assert Pow256(8) == 256 * Pow256(7);
    }
  }

  lemma LongLength(q: seq<byte>)
    requires |q| >= 10
    ensures q[2..10][..7] == q[2..9] && q[2..10][7] == q[9]
  {
    assert q[2..10] == q[2..9] + [q[9]];
  }

  lemma SevenBytes(q: seq<byte>)
    requires |q| >= 10
    ensures (forall i :: 2 <= i < 9 ==> q[i] == 255) <==> forall i :: 0 <= i < 7 ==> q[2..9][i] == 255
  {
    if forall i :: 0 <= i < 7 ==> q[2..9][i] == 255 {
      forall i | 2 <= i < 9 ensures q[i] == 255 {
        assert q[2..9][i - 2] == q[i];
      }
    }
  }

  lemma {:induction false} GreatestNumber(s: seq<byte>)
    ensures BigEndian(s) < Pow256(|s|)
    ensures BigEndian(s) == Pow256(|s|) - 1 <==> forall i :: 0 <= i < |s| ==> s[i] == 255
  {
    if s != [] {
      GreatestNumber(s[..|s| - 1]);
      assert s == s[..|s| - 1] + [s[|s| - 1]];
    }
  }

  /** On an unmasked frame within the bound the two decoders of the program read the same thing. */
  lemma DecodersAgree(q: seq<byte>)
    requires |q| >= 2 ==> !HighBit(q[1])
    requires NextFrame(q) != TooLong
    ensures RelayNext(q) == NextFrame(q)
  {
    Pow256Values();
  }

  lemma RelayLawful()
    ensures RELAY.Lawful()
  {
    forall q, x ensures RELAY.Stable(q, x) {
      RelayNextStable(q, x);
    }
    forall q ensures RELAY.OwnBytes(q) {
      if RelayNext(q).Complete? {
        RelayNextOwnBytes(q);
      }
    }
  }

  lemma RelayNextStable(q: seq<byte>, x: seq<byte>)
    ensures RelayNext(q) != NeedMore ==> RelayNext(q + x) == RelayNext(q)
  {
    if RelayNext(q) != NeedMore {
      var start := 2 + ExtBytes(q[1] % 128);
      var p := q + x;
      assert p[0] == q[0] && p[1] == q[1];
      SliceOfPrefix(q, x, 2, start);
      if RelayNext(q).Complete? {
        SliceOfPrefix(q, x, start, RelayNext(q).size);
      }
    }
  }

  lemma RelayNextOwnBytes(q: seq<byte>)
    requires RelayNext(q).Complete?
    ensures RelayNext(q[..RelayNext(q).size]) == RelayNext(q)
  {
    var n := RelayNext(q).size;
    var start := 2 + ExtBytes(q[1] % 128);
    var p := q[..n];
    assert p + q[n..] == q;
    assert p[0] == q[0] && p[1] == q[1];
    SliceOfPrefix(p, q[n..], 2, start);
    SliceOfPrefix(p, q[n..], start, n);
  }

  /** Frames that are passed on: text, whole or not, holding a JSON object. */
  function IsEvent(f: Frame): bool {
    f.opcode == OP_TEXT && f.payload != [] && f.payload[0] == OPEN_BRACE
  }

  predicate AllFromServer(sent: seq<Sent>) {
    forall s <- sent :: s.FromServer?
  }

  lemma RelayReadsBack(sent: seq<Sent>)
    requires WithinBound(sent) && AllFromServer(sent)
    ensures ReadsBack(RELAY, sent)
  {
    Pow256Values();
    forall s <- sent, tail ensures FrameReadsBack(RELAY, s, tail) {
      ServerFrameReadsBack(s, tail);
    }
  }

  lemma ServerFrameReadsBack(s: Sent, tail: seq<byte>)
    requires s.FromServer? && |s.payload| <= MAX_PAYLOAD < Pow256(8)
    ensures FrameReadsBack(RELAY, s, tail)
  {
    SentRoundTrip(s, tail);
    HeaderReadsBack(false, OP_TEXT, |s.payload|, s.payload + tail);
    assert s.Bytes() + tail == Header(false, OP_TEXT, |s.payload|) + (s.payload + tail);
    DecodersAgree(s.Bytes() + tail);
  }

  /** First connection, end to end: part or all of (answer head, then text frames) arrives in reads cut
      anywhere. The events passed on are always a prefix of the JSON payloads sent, in order, and all
      of them once everything has arrived. */
  lemma RelayDelivery(head: seq<byte>, sent: seq<Sent>, cs: seq<seq<byte>>)
    requires RELAY.Lawful()
    requires head != [] && HeadEnd(head) == |head| <= MAX_HEAD_BUFFER + 1
    requires WithinBound(sent) && AllFromServer(sent)
    requires |head| <= |Concat(cs)| && Concat(cs) <= head + Wire(sent)
    ensures
      var all := Delivered(IsEvent, TextFrames(sent));
      var st := Run(RELAY, IsEvent, Heading([]), cs);
      && st.Framing? && st.events <= all
      && (Concat(cs) == head + Wire(sent) ==> st == Framing([], all))
  {
    RelayReadsBack(sent);
    WireRoundTrip(RELAY, sent);
    HeadedDelivery(RELAY, IsEvent, head, Wire(sent), cs);
  }

  /** What `Delivered(IsEvent, ...)` of text frames is: the payloads that are JSON objects. */
  lemma {:induction false} EventsAreJsonPayloads(sent: seq<Sent>)
    ensures Delivered(IsEvent, TextFrames(sent)) == JsonOnly(Payloads(sent))
  {
    if sent != [] {
      EventsAreJsonPayloads(sent[1..]);
      assert TextFrames(sent)[1..] == TextFrames(sent[1..]);
      assert Payloads(sent)[1..] == Payloads(sent[1..]);
    }
  }

  function JsonOnly(ps: seq<seq<byte>>): seq<seq<byte>> {
    if ps == [] then []
    else (if ps[0] != [] && ps[0][0] == OPEN_BRACE then [ps[0]] else []) + JsonOnly(ps[1..])
  }

  // ---------- the second connection ----------

  /** The relay's answer to a handshake, for an accept key of 28 characters. */
  function Answer(accept: seq<byte>): (a: seq<byte>)
    requires |accept| == 28
    ensures |a| == 129 && a[0] == 72 && a[1] == 84 && a[86] == 101 && a[87] == 116
  {
    // parted where the decoder will take the bytes for frame headers
    Ascii("HT") + Ascii("TP/1.1 101 Switching Protocols\r\nUpgrade: websocket\r\nConnection: Upgrade\r\nSec-WebSock") +
    Ascii("et") + Ascii("-Accept: ") + accept + Ascii("\r\n\r\n")
  }

  function Ascii(s: string): (bs: seq<byte>)
    ensures |bs| == |s|
    ensures forall i :: 0 <= i < |s| && s[i] < 128 as char ==> bs[i] == s[i] as int
  {
    seq(|s|, i requires 0 <= i < |s| => if s[i] < 128 as char then s[i] as int else 0)
  }

  /** Bytes of the stream that the relay's answer makes the client swallow. */
  const SWALLOWED: nat := 75

  /** With nothing left over, the answer's first 86 bytes pass for a close frame and the rest for the beginning
      of a frame that takes 75 bytes more: however the reads are cut, the client passes on what the stream
      holds from its 76th byte on, and nothing of a shorter one. */
  lemma SecondConnectionMisread(accept: seq<byte>, events: seq<seq<byte>>, stream: seq<byte>, cs: seq<seq<byte>>)
    requires RELAY.Lawful() && |accept| == 28 && Concat(cs) == Answer(accept) + stream
    ensures
      var st := Run(RELAY, IsEvent, Framing([], events), cs);
      && st.Framing?
      && st.events + Delivered(IsEvent, RELAY.Frames(st.queue)) ==
         events + if |stream| < SWALLOWED then [] else Delivered(IsEvent, RELAY.Frames(stream[SWALLOWED..]))
  {
    Misread(Answer(accept), events, stream, cs);
  }

  lemma Misread(a: seq<byte>, events: seq<seq<byte>>, stream: seq<byte>, cs: seq<seq<byte>>)
    requires RELAY.Lawful() && |a| == 129 && a[0] == 72 && a[1] == 84 && a[86] == 101 && a[87] == 116
    requires Concat(cs) == a + stream
    ensures
      var st := Run(RELAY, IsEvent, Framing([], events), cs);
      && st.Framing?
      && st.events + Delivered(IsEvent, RELAY.Frames(st.queue)) ==
         events + if |stream| < SWALLOWED then [] else Delivered(IsEvent, RELAY.Frames(stream[SWALLOWED..]))
  {
    var front, back := a[..86], a[86..];
    assert a + stream == front + (back + stream);
    ReconnectedReads(RELAY, IsEvent, [], events, front + (back + stream), cs);
    assert [] + (front + (back + stream)) == front + (back + stream);
    MisreadScans(front, back, stream);
    SwallowedFrames(RELAY, IsEvent, front, back, stream, SWALLOWED);
  }

  lemma MisreadScans(front: seq<byte>, back: seq<byte>, stream: seq<byte>)
    requires |front| == 86 && front[0] == 72 && front[1] == 84
    requires |back| == 43 && back[0] == 101 && back[1] == 116
    ensures
      var first, second := RELAY.next(front + (back + stream)), RELAY.next(back + stream);
      && first.Complete? && first.size == 86 && !IsEvent(first.frame)
      && if |stream| < SWALLOWED then !second.Complete?
         else second.Complete? && second.size == 43 + SWALLOWED && !IsEvent(second.frame)
  {
    ShortFrame(front + (back + stream));
    ShortFrame(back + stream);
  }

  /** A frame whose length fits the second byte. */
  lemma ShortFrame(q: seq<byte>)
    requires |q| >= 2 && q[0] < 128 && q[1] < 126
    ensures RelayNext(q) ==
      if |q| < 2 + q[1] then NeedMore else Complete(Frame(false, q[0] % 16, q[2..2 + q[1]]), 2 + q[1])
  {
    Pow256Values();
  }

  /** With a text frame left over, cut anywhere behind its header, the next connection's first bytes complete
      it: the mixture is passed on in the place of the payload, and the stream is read from behind those bytes. */
  lemma LeftoverFrameIsMixed(payload: seq<byte>, k: nat, stream: seq<byte>)
    requires RELAY.Lawful() && |payload| <= MAX_PAYLOAD
    requires HeaderSize(|payload|) <= k < HeaderSize(|payload|) + |payload| <= k + |stream|
    ensures
      var missing := HeaderSize(|payload|) + |payload| - k;
      var mixed := payload[..|payload| - missing] + stream[..missing];
      RELAY.Frames(ServerFrame(OP_TEXT, payload)[..k] + stream) ==
        [Frame(true, OP_TEXT, mixed)] + RELAY.Frames(stream[missing..])
  {
    var missing := HeaderSize(|payload|) + |payload| - k;
    var mixed := payload[..|payload| - missing] + stream[..missing];
    var h, tail := Header(false, OP_TEXT, |payload|), stream[missing..];
    assert ServerFrame(OP_TEXT, payload)[..k] + stream == h + mixed + tail by {
      Completed(h, payload, k, stream, missing);
    }
    assert RELAY.Frames(h + mixed + tail) == [Frame(true, OP_TEXT, mixed)] + RELAY.Frames(tail) by {
      assert |mixed| == |payload|;
      TextFrameFirst(mixed, tail);
    }
  }

  lemma TextFrameFirst(payload: seq<byte>, tail: seq<byte>)
    requires RELAY.Lawful() && |payload| <= MAX_PAYLOAD
    ensures RELAY.Frames(Header(false, OP_TEXT, |payload|) + payload + tail) ==
      [Frame(true, OP_TEXT, payload)] + RELAY.Frames(tail)
  {
    var s := FromServer(payload);
    Pow256Values();
    ServerFrameReadsBack(s, tail);
    RELAY.FrontFrame(s.Bytes(), Frame(true, OP_TEXT, payload), tail);
  }

  lemma Completed(h: seq<byte>, payload: seq<byte>, k: nat, stream: seq<byte>, missing: nat)
    requires |h| <= k < |h| + |payload| && missing == |h| + |payload| - k <= |stream|
    ensures (h + payload)[..k] + stream == h + (payload[..|payload| - missing] + stream[..missing]) + stream[missing..]
  {
    assert (h + payload)[..k] == h + payload[..|payload| - missing];
    assert stream == stream[..missing] + stream[missing..];
  }

  // ---------- the client object ----------

  class RelayClient {
    var running: bool
    var handshaken: bool
    var readQueue: seq<byte>
    var events: seq<seq<byte>>  // payloads handed to on_event_

    function View(): State
      reads this
    {
      if !running then Stopped else if handshaken then Framing(readQueue, events) else Heading(readQueue)
    }

    constructor ()
      ensures View() == Heading([]) && events == []
    {
      running, handshaken, readQueue, events := true, false, [], [];
    }

    /** Reads one frame as the relay client does. */
    static method ScanServerFrame(q: seq<byte>) returns (r: Scan)
      ensures r == RelayNext(q)
    {
      if |q| < 2 { return NeedMore; }
      var len: nat := q[1] % 128;
      var pos := 2;
      if len == 126 {
        if |q| < pos + 2 { return NeedMore; }
        len := q[pos] as nat * 256 + q[pos + 1];
        BigEndianPair(q[pos..pos + 2]);
        pos := pos + 2;
      } else if len == 127 {
        if |q| < pos + 8 { return NeedMore; }
        len := 0;
        for i := 0 to 8
          invariant len == BigEndian(q[pos..pos + i])
        {
          len := len * 256 + q[pos + i];
          assert q[pos..pos + i + 1][..i] == q[pos..pos + i];
        }
        pos := pos + 8;
      }
      if pos + len >= Pow256(8) { return TooLong; }
      if |q| < pos + len { return NeedMore; }
      return Complete(Frame(HighBit(q[0]), q[0] % 16, q[pos..pos + len]), pos + len);
    }

    method TryParseServerFrames()
      requires RELAY.Lawful()
      modifies this`readQueue, this`events
      ensures readQueue == RELAY.Parse(old(readQueue)).rest
      ensures events == old(events) + Delivered(IsEvent, RELAY.Parse(old(readQueue)).taken)
    {
      ghost var whole := RELAY.Parse(readQueue);
      ghost var more := Delivered(IsEvent, whole.taken);
      while |readQueue| >= 2
        invariant RELAY.Hands(IsEvent, readQueue, more, whole.rest, whole.sawClose)
        invariant events + more == old(events) + Delivered(IsEvent, whole.taken)
        decreases |readQueue|
      {
        var r := ScanServerFrame(readQueue);
        match r
        case Complete(f, n) =>
          RELAY.HandsTurn(IsEvent, readQueue, more, whole.rest, whole.sawClose);
          readQueue := readQueue[n..];
          if IsEvent(f) {
            AppendAssoc(events, [f.payload], more[1..]);
            events := events + [f.payload];
            more := more[1..];
          } else if f.opcode == OP_CLOSE {
            return;
          }
        case _ =>
          RELAY.HandsStop(IsEvent, readQueue, more, whole.rest, whole.sawClose);
          return;
      }
      RELAY.HandsStop(IsEvent, readQueue, more, whole.rest, whole.sawClose);
    }

    /** One read; an empty one only schedules a reconnection, which changes nothing here. */
    method OnRecv(chunk: seq<byte>)
      requires RELAY.Lawful()
      requires !handshaken ==> events == []
      modifies this
      ensures View() == if chunk == [] then old(View()) else Recv(RELAY, IsEvent, old(View()), chunk)
      ensures running && !handshaken ==> events == []
    {
      if !running || chunk == [] { return; }
      readQueue := readQueue + chunk;
      if handshaken {
        OnFrames();
      } else {
        OnHead();
      }
    }

    /** Bytes have arrived behind the head. */
    method OnFrames()
      requires RELAY.Lawful() && running && handshaken
      modifies this`readQueue, this`events
      ensures
        var p := RELAY.Parse(old(readQueue));
        View() == Framing(p.rest, old(events) + Delivered(IsEvent, p.taken))
    {
      TryParseServerFrames();
    }

    /** Bytes have arrived while the head is still being read. */
    method OnHead()
      requires RELAY.Lawful() && running && !handshaken && events == []
      modifies this
      ensures
        var b := old(readQueue);
        if HeadEnd(b) != 0 then
          var p := RELAY.Parse(b[HeadEnd(b)..]);
          View() == Framing(p.rest, Delivered(IsEvent, p.taken))
        else
          View() == (if |b| > MAX_HEAD_BUFFER then Stopped else Heading(b)) && !handshaken && events == []
    {
      StripHead();
      if !handshaken { return; }
      ghost var p := RELAY.Parse(readQueue);
      OnFrames();
      assert [] + Delivered(IsEvent, p.taken) == Delivered(IsEvent, p.taken);
    }

    /** Cuts the answer head off the queue once its blank line is there; gives up on an overlong one. */
    method StripHead()
      requires running && !handshaken
      modifies this`readQueue, this`handshaken, this`running
      ensures
        var n := HeadEnd(old(readQueue));
        if n != 0 then running && handshaken && readQueue == old(readQueue)[n..]
        else !handshaken && readQueue == old(readQueue) && running == (|readQueue| <= MAX_HEAD_BUFFER)
    {
      var sep := FindHeadEnd(readQueue);
      if sep == 0 {
        if |readQueue| > MAX_HEAD_BUFFER {
          running := false;
        }
        return;
      }
      readQueue := readQueue[sep..];
      handshaken := true;
    }
  }
}
