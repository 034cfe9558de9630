/** One WebSocket connection: the read queue fed by socket reads, the client handshake in front of
    it, and the write queue drained one frame at a time. */
module WsConnection {
  import opened WsFrames
  import opened FrameStream
  import opened WsDelivery
  import opened Handshake

  /** How a socket write returns: later, at once, or with an error. */
  datatype WriteRv = Pending | Written | Failed

  const STATUS_101: seq<byte> := [72, 84, 84, 80, 47, 49, 46, 49, 32, 49, 48, 49]  // "HTTP/1.1 101"
  const BARE_101: seq<byte> := [32, 49, 48, 49, 32]  // " 101 "

  predicate Accepts(answer: seq<byte>) {
    BARE_101 <= answer || STATUS_101 <= answer
  }

  class WsConnection {
    const clientMode: bool
    var clientHandshaken: bool
    var handshakeBuf: seq<byte>
    var readQueue: seq<byte>
    var delivered: seq<seq<byte>>  // messages handed to on_message_
    var closed: bool
    var writeQueue: seq<seq<byte>>
    var writing: bool
    var socketOut: seq<byte>  // bytes handed to the socket

    ghost var base: seq<byte>  // bytes already queued when frame reads began
    ghost var arrived: seq<seq<byte>>  // reads since then, each followed by one parse call
    ghost var request: seq<byte>  // the handshake request, in client mode
    ghost var sent: seq<Sent>  // frames accepted by SendText

    /** The queue and the deliveries are exactly what the reads so far determine, and the socket has
        been given exactly the accepted frames, less those still queued. */
    ghost predicate Valid()
      reads this
    {
      ReadValid() && WriteValid()
    }

    ghost predicate ReadValid()
      reads this`readQueue, this`delivered, this`base, this`arrived, this`clientHandshaken, this`handshakeBuf
    {
      && WS.Lawful()
      && WS.Holds(IsText, base, arrived, readQueue, delivered)
      && (!clientMode ==> clientHandshaken && base == [])
      && (!clientHandshaken ==> base == [] && arrived == [] && HeadEnd(handshakeBuf) == 0)
    }

    ghost predicate WriteValid()
      reads this`writing, this`writeQueue, this`closed, this`socketOut, this`request, this`sent
    {
      && (writing ==> writeQueue != [])
      && (!closed ==> socketOut + Concat(Unsent()) == request + Wire(sent))
    }

    /** Frames not yet handed to the socket: the front one is while it is being written. */
    function Unsent(): seq<seq<byte>>
      requires writing ==> writeQueue != []
      reads this`writing, this`writeQueue
    {
      if writing then writeQueue[1..] else writeQueue
    }

    constructor AsServer()
      ensures Valid() && !closed && !clientMode && arrived == [] && sent == [] && delivered == []
      ensures request == [] && base == [] && readQueue == []
    {
      clientMode, clientHandshaken, handshakeBuf := false, true, [];
      readQueue, delivered, closed, writeQueue, writing, socketOut := [], [], false, [], false, [];
      base, arrived, request, sent := [], [], [], [];
      new;
      WsLawful();
    }

    constructor AsClient(hs: seq<byte>)
      ensures Valid() && !closed && clientMode && !clientHandshaken && sent == [] && delivered == []
      ensures request == hs && writeQueue == [hs] && handshakeBuf == []
    {
      clientMode, clientHandshaken, handshakeBuf := true, false, [];
      readQueue, delivered, closed, writeQueue, writing, socketOut := [], [], false, [hs], false, [];
      base, arrived, request, sent := [], [], hs, [];
      new;
      WsLawful();
      assert HeadEnd([]) == 0;
      assert writeQueue[1..] == [];
    }

    // ---------- reading ----------

    /** Takes frames off the queue and hands the text ones up, until no frame is complete or a close
        frame has been taken off. Fragments and unknown opcodes are dropped silently. */
    method TryParse() returns (sawClose: bool)
      requires WS.Lawful()
      modifies this`readQueue, this`delivered
      ensures readQueue == WS.Parse(old(readQueue)).rest
      ensures delivered == old(delivered) + Delivered(IsText, WS.Parse(old(readQueue)).taken)
      ensures sawClose == WS.Parse(old(readQueue)).sawClose
    {
      ghost var whole := WS.Parse(readQueue);
      ghost var more := Delivered(IsText, whole.taken);
      while |readQueue| >= 2
        invariant WS.Hands(IsText, readQueue, more, whole.rest, whole.sawClose)
        invariant delivered + more == old(delivered) + Delivered(IsText, whole.taken)
        decreases |readQueue|
      {
        var r := ScanFrame(readQueue);
        match r
        case Complete(f, n) =>
          WS.HandsTurn(IsText, readQueue, more, whole.rest, whole.sawClose);
          readQueue := readQueue[n..];
          if f.opcode == OP_CLOSE { return true; }
          if IsText(f) {
            AppendAssoc(delivered, [f.payload], more[1..]);
            delivered := delivered + [f.payload];
            more := more[1..];
          }
        case _ =>
          WS.HandsStop(IsText, readQueue, more, whole.rest, whole.sawClose);
          return false;
      }
      WS.HandsStop(IsText, readQueue, more, whole.rest, whole.sawClose);
      return false;
    }

    /** Bytes that arrived with the handshake are parsed at once on the server side. */
    method StartReadingWith(initial: seq<byte>)
      requires ReadValid() && clientHandshaken
      modifies this`readQueue, this`delivered, this`arrived
      ensures ReadValid()
      ensures arrived == if initial == [] then old(arrived) else old(arrived) + [initial]
    {
      if initial != [] {
        Receive(initial);
      }
    }

    /** One read: an empty one closes the connection, any other is queued and parsed. */
    method OnRead(chunk: seq<byte>)
      requires ReadValid() && clientHandshaken && !closed
      modifies this`readQueue, this`delivered, this`arrived, this`closed
      ensures ReadValid()
      ensures closed == (chunk == [])
      ensures arrived == if chunk == [] then old(arrived) else old(arrived) + [chunk]
    {
      if chunk == [] {
        closed := true;
        return;
      }
      Receive(chunk);
    }

    method Receive(chunk: seq<byte>)
      requires ReadValid() && clientHandshaken
      modifies this`readQueue, this`delivered, this`arrived
      ensures ReadValid()
      ensures arrived == old(arrived) + [chunk]
    {
      ghost var p := WS.Parse(readQueue + chunk);
      assert WS.Holds(IsText, base, arrived + [chunk], p.rest, delivered + Delivered(IsText, p.taken)) by {
        WS.HoldsAfterRead(IsText, base, arrived, readQueue, delivered, chunk);
      }
      readQueue := readQueue + chunk;
      var _ := TryParse();
      arrived := arrived + [chunk];
    }

    /** One read of the handshake answer. Bytes behind its blank line go into the frame queue, where
        they wait for the next read. */
    method OnHandshakeRead(chunk: seq<byte>)
      requires ReadValid() && clientMode && !clientHandshaken && !closed
      modifies this`handshakeBuf, this`clientHandshaken, this`readQueue, this`base, this`closed
      ensures ReadValid()
      ensures
        var b := old(handshakeBuf) + chunk;
        if chunk == [] then closed && !clientHandshaken
        else if HeadEnd(b) == 0 then !closed && !clientHandshaken && handshakeBuf == b
        else if !Accepts(b) then closed && !clientHandshaken
        else !closed && clientHandshaken && base == b[HeadEnd(b)..] && arrived == []
    {
      if chunk == [] {
        closed := true;
        return;
      }
      var b := handshakeBuf + chunk;
      var sep := FindHeadEnd(b);
      if sep == 0 {
        handshakeBuf := b;
        return;
      }
      if !Accepts(b) {
        closed := true;
        return;
      }
      StartFrames(b[sep..]);
    }

    method StartFrames(leftover: seq<byte>)
      requires ReadValid() && clientMode && !clientHandshaken
      modifies this`handshakeBuf, this`clientHandshaken, this`readQueue, this`base
      ensures ReadValid() && clientHandshaken
      ensures base == leftover && arrived == []
    {
      assert readQueue == [] && delivered == [];
      WS.HoldsAtFirst(IsText, leftover);
      clientHandshaken := true;
      readQueue := readQueue + leftover;
      base := leftover;
      handshakeBuf := [];
    }

    // ---------- writing ----------

    /** Queues one text frame, masked in client mode, and starts writing if the socket is idle. */
    method SendText(payload: seq<byte>, maskKey: nat, rvs: seq<WriteRv>) returns (ok: bool)
      requires WriteValid() && |payload| < Pow256(8)
      modifies this`writeQueue, this`writing, this`closed, this`socketOut, this`sent
      ensures WriteValid()
      ensures ok == !old(closed)
      ensures
        var item := if clientMode then FromClient(payload, maskKey) else FromServer(payload);
        sent == if ok then old(sent) + [item] else old(sent)
      ensures ok && !closed && !writing ==> writeQueue == []
      ensures ok && Failed !in rvs ==> !closed
    {
      if closed { return false; }
      ghost var item := if clientMode then FromClient(payload, maskKey) else FromServer(payload);
      var frame;
      if clientMode {
        frame := EncodeClientFrame(OP_TEXT, payload, maskKey);
      } else {
        frame := EncodeServerFrame(OP_TEXT, payload);
      }
      QueuedFrame(socketOut, Unsent(), frame, request, sent, item);
      assert Unsent() + [frame] == if writing then (writeQueue + [frame])[1..] else writeQueue + [frame];
      writeQueue := writeQueue + [frame];
      sent := sent + [item];
      TryWriteNext(rvs);
      return true;
    }

    method TryWriteNext(rvs: seq<WriteRv>)
      requires WriteValid()
      modifies this`writeQueue, this`writing, this`closed, this`socketOut
      ensures WriteValid()
      ensures if old(closed) then closed else Failed !in rvs ==> !closed
      ensures !closed && !writing ==> writeQueue == []
      decreases |writeQueue|, 1
    {
      if closed || writing || writeQueue == [] { return; }
      var frame := writeQueue[0];
      AppendAssoc(socketOut, frame, Concat(writeQueue[1..]));
      writing := true;
      socketOut := socketOut + frame;
      var rv := if rvs == [] then Pending else rvs[0];
      if rv != Pending {
        OnWrite(rv == Written, if rvs == [] then [] else rvs[1..]);
      }
    }

    /** A write has finished: the whole front frame counts as written. */
    method OnWrite(ok: bool, rvs: seq<WriteRv>)
      requires WriteValid() && writing
      modifies this`writeQueue, this`writing, this`closed, this`socketOut
      ensures WriteValid()
      ensures if old(closed) || !ok then closed else Failed !in rvs ==> !closed
      ensures !closed && !writing ==> writeQueue == []
      decreases |writeQueue|, 0
    {
      if !ok {
        writing := false;
        closed := true;
        return;
      }
      writing := false;
      writeQueue := writeQueue[1..];
      TryWriteNext(rvs);
    }
  }

  lemma QueuedFrame(
      out: seq<byte>, unsent: seq<seq<byte>>, frame: seq<byte>, request: seq<byte>, sent: seq<Sent>, item: Sent)
    requires out + Concat(unsent) == request + Wire(sent)
    requires frame == item.Bytes()
    ensures out + Concat(unsent + [frame]) == request + Wire(sent + [item])
  {
    ConcatConcat(unsent, [frame]);
    assert [frame][1..] == [] && Concat([frame]) == frame;
    WireSnoc(sent, item);
    AppendAssoc(out, Concat(unsent), frame);
    AppendAssoc(request, Wire(sent), frame);
  }
}
