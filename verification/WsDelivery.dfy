/** The program's own frame decoder as an instance of `FrameStream`, and what it delivers. */
module WsDelivery {
  import opened WsFrames
  import opened FrameStream

  /** The decoder of `WsConnection`. */
  const WS: Decoder := Decoder(q => NextFrame(q))

  lemma WsLawful()
    ensures WS.Lawful()
  {
    forall q ensures WS.OwnBytes(q) {
      if NextFrame(q).Complete? {
        NextFrameOwnBytes(q);
      }
    }
    forall q, x ensures WS.Stable(q, x) {
      NextFrameStable(q, x);
    }
  }

  /** Only unfragmented text frames reach the application; every other frame is dropped. */
  function IsText(f: Frame): bool { f.opcode == OP_TEXT && f.fin }

  // ---------- sender to receiver ----------

  /** One text frame as a client (masked, with its key) or as a server puts it on the wire. */
  datatype Sent = FromClient(payload: seq<byte>, maskKey: nat) | FromServer(payload: seq<byte>) {
    function Bytes(): seq<byte> {
      if FromClient? then ClientFrame(OP_TEXT, payload, maskKey) else ServerFrame(OP_TEXT, payload)
    }
  }

  function FrameBytes(sent: seq<Sent>): (bs: seq<seq<byte>>)
    ensures |bs| == |sent|
    ensures forall i :: 0 <= i < |sent| ==> bs[i] == sent[i].Bytes()
  {
    seq(|sent|, i requires 0 <= i < |sent| => sent[i].Bytes())
  }

  /** The byte stream of a sequence of frames. */
  function Wire(sent: seq<Sent>): seq<byte> {
    Concat(FrameBytes(sent))
  }

  lemma WireCons(s: Sent, rest: seq<Sent>)
    ensures Wire([s] + rest) == s.Bytes() + Wire(rest)
  {
    var all := FrameBytes([s] + rest);
    assert all[0] == s.Bytes() && all[1..] == FrameBytes(rest) by {
      FrameBytesCons(s, rest);
    }
  }

  lemma FrameBytesCons(s: Sent, rest: seq<Sent>)
    ensures FrameBytes([s] + rest)[0] == s.Bytes()
    ensures FrameBytes([s] + rest)[1..] == FrameBytes(rest)
  {
    var all, tail := FrameBytes([s] + rest), FrameBytes(rest);
    forall i | 0 <= i < |tail| ensures all[1..][i] == tail[i] {
      assert ([s] + rest)[i + 1] == rest[i];
    }
  }

  lemma WireSnoc(sent: seq<Sent>, s: Sent)
    ensures Wire(sent + [s]) == Wire(sent) + s.Bytes()
  {
    assert FrameBytes(sent + [s]) == FrameBytes(sent) + [s.Bytes()];
    ConcatConcat(FrameBytes(sent), [s.Bytes()]);
    assert [s.Bytes()][1..] == [];
  }

  function Payloads(sent: seq<Sent>): (ps: seq<seq<byte>>)
    ensures |ps| == |sent|
    ensures forall i :: 0 <= i < |sent| ==> ps[i] == sent[i].payload
  {
    seq(|sent|, i requires 0 <= i < |sent| => sent[i].payload)
  }

  function TextFrames(sent: seq<Sent>): (fs: seq<Frame>)
    ensures |fs| == |sent|
    ensures forall i :: 0 <= i < |sent| ==> fs[i] == Frame(true, OP_TEXT, sent[i].payload)
  {
    seq(|sent|, i requires 0 <= i < |sent| => Frame(true, OP_TEXT, sent[i].payload))
  }

  ghost predicate WithinBound(sent: seq<Sent>) {
    forall s <- sent :: |s.payload| <= MAX_PAYLOAD
  }

  lemma SentRoundTrip(s: Sent, tail: seq<byte>)
    requires |s.payload| < Pow256(8)
    ensures NextFrame(s.Bytes() + tail) ==
      if |s.payload| <= MAX_PAYLOAD then Complete(Frame(true, OP_TEXT, s.payload), |s.Bytes()|) else TooLong
  {
    match s
    case FromClient(payload, maskKey) => ClientFrameRoundTrip(OP_TEXT, payload, maskKey, tail);
    case FromServer(payload) => ServerFrameRoundTrip(OP_TEXT, payload, tail);
  }

  /** Any sequence of frames, masked or not, parses back into exactly the frames sent. */
  lemma {:induction false} WireRoundTrip(d: Decoder, sent: seq<Sent>)
    requires d.Lawful() && WithinBound(sent) && ReadsBack(d, sent)
    ensures d.Frames(Wire(sent)) == TextFrames(sent)
    ensures d.Residue(Wire(sent)) == []
  {
    if sent == [] {
      assert !d.next([]).Complete?;
    } else {
      var s, rest := sent[0], sent[1..];
      assert sent == [s] + rest;
      WireRoundTrip(d, rest);
      assert FrameReadsBack(d, s, Wire(rest));
      WireCons(s, rest);
      TextFramesCons(s, rest);
      d.FrontFrame(s.Bytes(), Frame(true, OP_TEXT, s.payload), Wire(rest));
    }
  }

  lemma TextFramesCons(s: Sent, rest: seq<Sent>)
    ensures TextFrames([s] + rest) == [Frame(true, OP_TEXT, s.payload)] + TextFrames(rest)
  {
  }

  ghost predicate FrameReadsBack(d: Decoder, s: Sent, tail: seq<byte>) {
    d.next(s.Bytes() + tail) == Complete(Frame(true, OP_TEXT, s.payload), |s.Bytes()|)
  }

  /** The decoder recognises every one of these frames, whatever follows it. */
  ghost predicate ReadsBack(d: Decoder, sent: seq<Sent>) {
    forall s <- sent, tail :: FrameReadsBack(d, s, tail)
  }

  lemma WsReadsBack(sent: seq<Sent>)
    requires WithinBound(sent)
    ensures ReadsBack(WS, sent)
  {
    Pow256Values();
    forall s <- sent, tail ensures FrameReadsBack(WS, s, tail) {
      SentRoundTrip(s, tail);
    }
  }

  /** End to end, for any decoder that recognises the frames: cut what has arrived of the wire into
      reads in any way; the frames taken off are a prefix of those sent, and once all has arrived
      they are all of them and the queue is empty. */
  lemma WireDelivery(d: Decoder, sent: seq<Sent>, cs: seq<seq<byte>>)
    requires d.Lawful() && WithinBound(sent) && ReadsBack(d, sent)
    requires Concat(cs) <= Wire(sent)
    ensures d.Reads([], cs).taken <= TextFrames(sent)
    ensures Concat(cs) == Wire(sent) ==> d.Reads([], cs).taken == TextFrames(sent) && d.Reads([], cs).rest == []
  {
    WireRoundTrip(d, sent);
    d.ArrivedPrefix(Wire(sent), cs);
  }

  lemma {:induction false} DeliveredTexts(up: Frame -> bool, sent: seq<Sent>, k: nat)
    requires k <= |sent|
    requires forall f: Frame :: f.fin && f.opcode == OP_TEXT ==> up(f)
    ensures Delivered(up, TextFrames(sent)[..k]) == Payloads(sent)[..k]
  {
    if k > 0 {
      DeliveredTexts(up, sent, k - 1);
      var f := TextFrames(sent)[k - 1];
      assert TextFrames(sent)[..k] == TextFrames(sent)[..k - 1] + [f];
      DeliveredConcat(up, TextFrames(sent)[..k - 1], [f]);
      assert Payloads(sent)[..k] == Payloads(sent)[..k - 1] + [f.payload];
    }
  }

  /** What the application sees of a connection: always a prefix of the payloads sent, and all of
      them once the wire has arrived, however it was cut. */
  lemma ReliableDelivery(sent: seq<Sent>, cs: seq<seq<byte>>)
    requires WithinBound(sent)
    requires Concat(cs) <= Wire(sent)
    requires WS.Lawful()
    ensures Delivered(IsText, WS.Reads([], cs).taken) <= Payloads(sent)
    ensures Concat(cs) == Wire(sent) ==>
      Delivered(IsText, WS.Reads([], cs).taken) == Payloads(sent) && WS.Reads([], cs).rest == []
  {
    WsReadsBack(sent);
    WireDelivery(WS, sent, cs);
    TextsDelivered(sent, WS.Reads([], cs).taken);
  }

  lemma TextsDelivered(sent: seq<Sent>, taken: seq<Frame>)
    requires taken <= TextFrames(sent)
    ensures Delivered(IsText, taken) <= Payloads(sent)
    ensures taken == TextFrames(sent) ==> Delivered(IsText, taken) == Payloads(sent)
  {
    DeliveredTexts(IsText, sent, |taken|);
    assert taken == TextFrames(sent)[..|taken|];
    assert Payloads(sent)[..|sent|] == Payloads(sent);
  }

  /** Bytes that came with the handshake answer sit in the queue unparsed until another read arrives:
      everything that has arrived is taken off exactly when there was such a read, or those bytes
      held no complete frame. */
  lemma HandshakeLeftoverWaits(d: Decoder, leftover: seq<byte>, cs: seq<seq<byte>>)
    requires d.Lawful()
    requires !FrameAfterClose(d.Frames(leftover + Concat(cs)))
    ensures d.Reads(leftover, cs).taken == d.Frames(leftover + Concat(cs)) <==> cs != [] || d.Frames(leftover) == []
  {
    if cs == [] {
      assert leftover + Concat(cs) == leftover;
    } else {
      d.ReadsConserve(leftover, cs);
      d.ReadsSettle(leftover, cs);
    }
  }

  /** A payload over the bound blocks its connection for good: nothing sent behind it ever arrives. */
  lemma OversizedBlocks(s: Sent, tail: seq<byte>)
    requires WS.Lawful()
    requires MAX_PAYLOAD < |s.payload| < Pow256(8)
    ensures WS.Frames(s.Bytes() + tail) == [] && WS.Residue(s.Bytes() + tail) == s.Bytes() + tail
  {
    SentRoundTrip(s, tail);
  }
}
