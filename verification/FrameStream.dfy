/** Incremental decoding of a frame stream, for any scanner of single frames: one parse call per
    read, whatever the boundaries of the reads. Both decoders of the program are instances. */
module FrameStream {
  import opened WsFrames

  /** Outcome of one parse call: frames taken off the queue, bytes kept, and whether a close frame ended it. */
  datatype Parsed = Parsed(taken: seq<Frame>, rest: seq<byte>, sawClose: bool)

  /** A way to recognise the frame at the front of a queue. */
  datatype Decoder = Decoder(next: seq<byte> -> Scan) {

    /** A verdict survives the arrival of more bytes. */
    ghost predicate Stable(q: seq<byte>, x: seq<byte>) {
      next(q) != NeedMore ==> next(q + x) == next(q)
    }

    /** A frame is recognised from its own bytes. */
    ghost predicate OwnBytes(q: seq<byte>) {
      next(q).Complete? ==> 0 < next(q).size <= |q| && next(q[..next(q).size]) == next(q)
    }

    ghost predicate Lawful() {
      && (forall q :: next(q).Complete? ==> 0 < next(q).size <= |q|)
      && (forall q :: OwnBytes(q))
      && (forall q, x :: Stable(q, x))
    }

    /** All complete frames of a byte string, in order. */
    function Frames(q: seq<byte>): (fs: seq<Frame>)
      requires Lawful()
      decreases |q|
    {
      match next(q)
      case Complete(f, n) => [f] + Frames(q[n..])
      case _ => []
    }

    /** What is left behind the last complete frame. */
    function Residue(q: seq<byte>): (r: seq<byte>)
      requires Lawful()
      ensures !next(r).Complete?
      decreases |q|
    {
      match next(q)
      case Complete(_, n) => Residue(q[n..])
      case _ => q
    }

    /** One parse call: it takes frames off until the queue holds no complete frame
        or a close frame has been taken off. */
    function Parse(q: seq<byte>): (p: Parsed)
      requires Lawful()
      decreases |q|
    {
      match next(q)
      case Complete(f, n) =>
        if f.opcode == OP_CLOSE then Parsed([f], q[n..], true)
        else
          var t := Parse(q[n..]);
          Parsed([f] + t.taken, t.rest, t.sawClose)
      case _ => Parsed([], q, false)
    }

    /** A connection's reads, one parse call each, starting from the queue `q`. */
    function Reads(q: seq<byte>, cs: seq<seq<byte>>): (p: Parsed)
      requires Lawful()
      decreases |cs|
    {
      if cs == [] then Parsed([], q, false)
      else
        var p := Parse(q + cs[0]);
        var t := Reads(p.rest, cs[1..]);
        Parsed(p.taken + t.taken, t.rest, p.sawClose || t.sawClose)
    }

    // ---------- one parse call ----------

    /** What the application gets from parsing `q`, the bytes left, and whether a close ended it. */
    ghost predicate Hands(up: Frame -> bool, q: seq<byte>, msgs: seq<seq<byte>>, rest: seq<byte>, closed: bool)
      requires Lawful()
    {
      Delivered(up, Parse(q).taken) == msgs && Parse(q).rest == rest && Parse(q).sawClose == closed
    }

    /** One turn of the decoder's loop, as far as the application is concerned. */
    lemma HandsTurn(up: Frame -> bool, q: seq<byte>, msgs: seq<seq<byte>>, rest: seq<byte>, closed: bool)
      requires Lawful() && next(q).Complete? && Hands(up, q, msgs, rest, closed)
      ensures
        var f, q' := next(q).frame, q[next(q).size..];
        var m := if up(f) then [f.payload] else [];
        if f.opcode == OP_CLOSE then msgs == m && rest == q' && closed
        else m <= msgs && Hands(up, q', msgs[|m|..], rest, closed)
    {
      var f, q' := next(q).frame, q[next(q).size..];
      var t := if f.opcode == OP_CLOSE then Parsed([], q', true) else Parse(q');
      assert Parse(q).taken == [f] + t.taken;
      assert ([f] + t.taken)[1..] == t.taken;
      var m := if up(f) then [f.payload] else [];
      assert (m + Delivered(up, t.taken))[|m|..] == Delivered(up, t.taken);
    }

    lemma HandsStop(up: Frame -> bool, q: seq<byte>, msgs: seq<seq<byte>>, rest: seq<byte>, closed: bool)
      requires Lawful() && !next(q).Complete? && Hands(up, q, msgs, rest, closed)
      ensures msgs == [] && rest == q && !closed
    {
    }

    /** Bytes that arrive later extend the frame list; frames already recognised stay. */
    lemma {:induction false} FramesAppend(q: seq<byte>, x: seq<byte>)
      requires Lawful()
      ensures Frames(q + x) == Frames(q) + Frames(Residue(q) + x)
      ensures Residue(q + x) == Residue(Residue(q) + x)
      decreases |q|
    {
      match next(q)
      case Complete(_, n) =>
        assert Stable(q, x);
        assert (q + x)[n..] == q[n..] + x;
        FramesAppend(q[n..], x);
      case _ =>
    }

    lemma FrontFrame(b: seq<byte>, f: Frame, tail: seq<byte>)
      requires Lawful()
      requires next(b + tail) == Complete(f, |b|)
      ensures Frames(b + tail) == [f] + Frames(tail)
      ensures Residue(b + tail) == Residue(tail)
    {
      assert (b + tail)[|b|..] == tail;
    }

    lemma {:induction false} Settled(q: seq<byte>)
      requires Lawful()
      ensures next(q).Complete? <==> Frames(q) != []
      ensures if Frames(q) == [] then Residue(q) == q else |Residue(q)| < |q|
      decreases |q|
    {
      match next(q)
      case Complete(_, n) => Settled(q[n..]);
      case _ =>
    }

    /** A parse call takes off a run of frames that ends at the first close frame, if there is one;
        nothing is lost or reordered, and without a close frame it takes off everything. */
    lemma {:induction false} ParseTakes(q: seq<byte>)
      requires Lawful()
      ensures Frames(q) == Parse(q).taken + Frames(Parse(q).rest)
      ensures Residue(q) == Residue(Parse(q).rest)
      ensures Parse(q).sawClose <==> EndsInClose(Parse(q).taken)
      ensures forall i :: 0 <= i < |Parse(q).taken| - 1 ==> Parse(q).taken[i].opcode != OP_CLOSE
      ensures !Parse(q).sawClose ==> Parse(q).rest == Residue(q)
      decreases |q|
    {
      match next(q)
      case Complete(f, n) =>
        var rest := q[n..];
        assert Frames(q) == [f] + Frames(rest) && Residue(q) == Residue(rest);
        if f.opcode != OP_CLOSE {
          ParseTakes(rest);
          var t := Parse(rest);
          assert Parse(q) == Parsed([f] + t.taken, t.rest, t.sawClose);
          AppendAssoc([f], t.taken, Frames(t.rest));
          EndsBehind(f, t.taken);
        }
      case _ =>
    }

    /** A frame in front that is no close frame changes nothing about the end. */
    lemma EndsBehind(f: Frame, fs: seq<Frame>)
      requires f.opcode != OP_CLOSE
      ensures EndsInClose([f] + fs) == EndsInClose(fs)
      ensures (forall i :: 0 <= i < |fs| - 1 ==> fs[i].opcode != OP_CLOSE) ==>
        forall i :: 0 <= i < |[f] + fs| - 1 ==> ([f] + fs)[i].opcode != OP_CLOSE
    {
    }

    /** A parse call commutes with the arrival of more bytes. */
    lemma {:induction false} ParseThenArrive(q: seq<byte>, x: seq<byte>)
      requires Lawful()
      ensures Frames(q + x) == Parse(q).taken + Frames(Parse(q).rest + x)
      ensures Residue(q + x) == Residue(Parse(q).rest + x)
      decreases |q|
    {
      match next(q)
      case Complete(f, n) =>
        assert Stable(q, x);
        assert (q + x)[n..] == q[n..] + x;
        assert Frames(q + x) == [f] + Frames(q[n..] + x) && Residue(q + x) == Residue(q[n..] + x);
        if f.opcode != OP_CLOSE {
          ParseThenArrive(q[n..], x);
          var t := Parse(q[n..]);
          assert Parse(q) == Parsed([f] + t.taken, t.rest, t.sawClose);
          AppendAssoc([f], t.taken, Frames(t.rest + x));
        }
      case _ =>
    }

    // ---------- many reads ----------

    /** Safety for every cutting: the frames taken so far, followed by those still in the queue,
        are the frames of the whole stream. So what was taken is always a prefix of them. */
    lemma {:induction false} ReadsConserve(q: seq<byte>, cs: seq<seq<byte>>)
      requires Lawful()
      ensures Frames(q + Concat(cs)) == Reads(q, cs).taken + Frames(Reads(q, cs).rest)
      ensures Residue(q + Concat(cs)) == Residue(Reads(q, cs).rest)
      decreases |cs|
    {
      if cs == [] {
        assert q + Concat(cs) == q;
      } else {
        var p, t := Parse(q + cs[0]), Reads(Parse(q + cs[0]).rest, cs[1..]);
        ConcatHead(q, cs);
        ParseThenArrive(q + cs[0], Concat(cs[1..]));
        ReadsConserve(p.rest, cs[1..]);
        AppendAssoc(p.taken, t.taken, Frames(t.rest));
      }
    }

    /** If no complete frame follows a close frame, the reads leave no complete frame behind. */
    lemma {:induction false} ReadsSettle(q: seq<byte>, cs: seq<seq<byte>>)
      requires Lawful()
      requires !FrameAfterClose(Frames(q + Concat(cs)))
      requires cs == [] ==> Frames(q) == []
      ensures Frames(Reads(q, cs).rest) == []
      decreases |cs|
    {
      if cs != [] {
        var p, tail := Parse(q + cs[0]), Concat(cs[1..]);
        ConcatHead(q, cs);
        ParseThenArrive(q + cs[0], tail);
        CloseSuffix(p.taken, Frames(p.rest + tail));
        ReadLeavesNothing(q + cs[0], tail);
        ReadsSettle(p.rest, cs[1..]);
      }
    }

    lemma ReadLeavesNothing(q: seq<byte>, tail: seq<byte>)
      requires Lawful()
      requires !FrameAfterClose(Frames(q + tail))
      ensures Frames(Parse(q).rest) == []
    {
      var p := Parse(q);
      ParseTakes(q);
      Settled(p.rest);
      if p.sawClose {
        FramesAppend(q, tail);
        NothingAfterClose(p.taken, Frames(p.rest), Frames(Residue(q) + tail));
      }
    }

    /** The cutting of the stream makes no difference, to the frames taken or to the bytes kept,
        exactly when no complete frame follows a close frame. */
    lemma CuttingIndependence(stream: seq<byte>)
      requires Lawful()
      ensures
        !FrameAfterClose(Frames(stream)) <==>
        forall cs: seq<seq<byte>> :: cs != [] && Concat(cs) == stream ==>
          Reads([], cs) == Parsed(Frames(stream), Residue(stream), Reads([], cs).sawClose)
    {
      if !FrameAfterClose(Frames(stream)) {
        forall cs: seq<seq<byte>> | cs != [] && Concat(cs) == stream
          ensures Reads([], cs) == Parsed(Frames(stream), Residue(stream), Reads([], cs).sawClose)
        {
          assert [] + Concat(cs) == stream;
          ReadsConserve([], cs);
          ReadsSettle([], cs);
          Settled(Reads([], cs).rest);
        }
      } else {
        var cs := [stream];
        assert cs[1..] == [] && Concat(cs) == stream;
        assert Reads([], cs) == Parsed(Parse(stream).taken, Parse(stream).rest, Parse(stream).sawClose) by {
          assert [] + stream == stream;
          assert Reads(Parse(stream).rest, cs[1..]) == Parsed([], Parse(stream).rest, false);
        }
        ParseTakes(stream);
        assert Parse(stream).taken != Frames(stream);
      }
    }

    /** Part of a stream arrives: the frames taken off are a prefix of its frames, and once it has
        all arrived they are all of them. */
    lemma ArrivedPrefix(all: seq<byte>, cs: seq<seq<byte>>)
      requires Lawful() && Concat(cs) <= all
      requires !FrameAfterClose(Frames(all))
      ensures Reads([], cs).taken <= Frames(all)
      ensures Concat(cs) == all ==> Reads([], cs).taken == Frames(all) && Reads([], cs).rest == Residue(all)
    {
      TakenIsPrefix(cs, all[|Concat(cs)|..]);
      assert Concat(cs) + all[|Concat(cs)|..] == all;
      if Concat(cs) == all {
        AllTaken(cs);
      }
    }

    lemma TakenIsPrefix(cs: seq<seq<byte>>, missing: seq<byte>)
      requires Lawful()
      ensures Reads([], cs).taken <= Frames(Concat(cs) + missing)
    {
      assert [] + Concat(cs) == Concat(cs);
      ReadsConserve([], cs);
      FramesAppend(Concat(cs), missing);
    }

    lemma AllTaken(cs: seq<seq<byte>>)
      requires Lawful() && !FrameAfterClose(Frames(Concat(cs)))
      ensures Reads([], cs).taken == Frames(Concat(cs)) && Reads([], cs).rest == Residue(Concat(cs))
    {
      assert [] + Concat(cs) == Concat(cs);
      ReadsConserve([], cs);
      ReadsSettle([], cs);
      Settled(Reads([], cs).rest);
    }

    /** Reading one byte at a time always reaches the full parse: a close frame only ever delays. */
    lemma {:induction false} ByteAtATime(q: seq<byte>, stream: seq<byte>)
      requires Lawful()
      requires Frames(q) == []
      ensures Reads(q, Singles(stream)).taken == Frames(q + stream)
      ensures Reads(q, Singles(stream)).rest == Residue(q + stream)
      decreases |stream|
    {
      Settled(q);
      if stream == [] {
        assert q + stream == q;
      } else {
        var c := [stream[0]];
        assert Singles(stream)[1..] == Singles(stream[1..]);
        AtMostOneFrame(q, stream[0]);
        assert q + stream == (q + c) + stream[1..];
        ParseThenArrive(q + c, stream[1..]);
        ByteAtATime(Parse(q + c).rest, stream[1..]);
      }
    }

    /** One more byte completes at most one frame, and then nothing is left over. */
    lemma AtMostOneFrame(q: seq<byte>, b: byte)
      requires Lawful()
      requires !next(q).Complete?
      ensures Frames(Parse(q + [b]).rest) == []
    {
      var p := q + [b];
      match next(p)
      case Complete(f, n) =>
        if n <= |q| {
          ShortFrameAlreadyThere(q, b);
          assert false;
        }
        assert p[n..] == [];
        assert !next([]).Complete?;
      case _ =>
    }

    /** One read more. */
    lemma {:induction false} ReadsSnoc(q: seq<byte>, cs: seq<seq<byte>>, c: seq<byte>)
      requires Lawful()
      ensures
        var p := Reads(q, cs);
        var t := Parse(p.rest + c);
        Reads(q, cs + [c]) == Parsed(p.taken + t.taken, t.rest, p.sawClose || t.sawClose)
      decreases |cs|
    {
      if cs == [] {
        assert (cs + [c])[1..] == [];
      } else {
        var p := Parse(q + cs[0]);
        assert (cs + [c])[1..] == cs[1..] + [c];
        ReadsSnoc(p.rest, cs[1..], c);
        var u := Reads(p.rest, cs[1..]);
        AppendAssoc(p.taken, u.taken, Parse(u.rest + c).taken);
      }
    }

    lemma DeliveredSnoc(up: Frame -> bool, q: seq<byte>, cs: seq<seq<byte>>, c: seq<byte>)
      requires Lawful()
      ensures
        var p := Reads(q, cs);
        var t := Parse(p.rest + c);
        && Reads(q, cs + [c]).rest == t.rest
        && Delivered(up, Reads(q, cs + [c]).taken) == Delivered(up, p.taken) + Delivered(up, t.taken)
    {
      ReadsSnoc(q, cs, c);
      var p := Reads(q, cs);
      DeliveredConcat(up, p.taken, Parse(p.rest + c).taken);
    }

    /** The queue and the deliveries are what these reads determine. */
    ghost predicate Holds(
        up: Frame -> bool, base: seq<byte>, cs: seq<seq<byte>>, queue: seq<byte>, msgs: seq<seq<byte>>)
      requires Lawful()
    {
      queue == Reads(base, cs).rest && msgs == Delivered(up, Reads(base, cs).taken)
    }

    lemma HoldsAtFirst(up: Frame -> bool, base: seq<byte>)
      requires Lawful()
      ensures Holds(up, base, [], base, [])
    {
    }

    lemma HoldsAfterRead(
        up: Frame -> bool, base: seq<byte>, cs: seq<seq<byte>>, queue: seq<byte>, msgs: seq<seq<byte>>,
        c: seq<byte>)
      requires Lawful() && Holds(up, base, cs, queue, msgs)
      ensures
        var p := Parse(queue + c);
        Holds(up, base, cs + [c], p.rest, msgs + Delivered(up, p.taken))
    {
      DeliveredSnoc(up, base, cs, c);
    }

    lemma ShortFrameAlreadyThere(q: seq<byte>, b: byte)
      requires Lawful()
      requires next(q + [b]).Complete? && next(q + [b]).size <= |q|
      ensures next(q).Complete?
    {
      var n := next(q + [b]).size;
      assert OwnBytes(q + [b]) && Stable(q[..n], q[n..]);
      assert (q + [b])[..n] == q[..n] && q[..n] + q[n..] == q;
    }
  }

  function Concat(cs: seq<seq<byte>>): seq<byte> {
    if cs == [] then [] else cs[0] + Concat(cs[1..])
  }

  lemma {:induction false} ConcatConcat(a: seq<seq<byte>>, b: seq<seq<byte>>)
    ensures Concat(a + b) == Concat(a) + Concat(b)
  {
    if a == [] {
      assert a + b == b;
    } else {
      ConcatConcat(a[1..], b);
      assert (a + b)[1..] == a[1..] + b;
      AppendAssoc(a[0], Concat(a[1..]), Concat(b));
    }
  }

  lemma AppendAssoc<T>(a: seq<T>, b: seq<T>, c: seq<T>)
    ensures a + (b + c) == (a + b) + c
  {
  }

  lemma ConcatHead(q: seq<byte>, cs: seq<seq<byte>>)
    requires cs != []
    ensures q + Concat(cs) == (q + cs[0]) + Concat(cs[1..])
  {
  }

  function Singles(s: seq<byte>): (cs: seq<seq<byte>>)
    ensures |cs| == |s|
  {
    if s == [] then [] else [[s[0]]] + Singles(s[1..])
  }

  predicate EndsInClose(fs: seq<Frame>) {
    fs != [] && fs[|fs| - 1].opcode == OP_CLOSE
  }

  /** Some close frame is not the last complete frame. */
  predicate FrameAfterClose(fs: seq<Frame>) {
    exists i :: 0 <= i < |fs| - 1 && fs[i].opcode == OP_CLOSE
  }

  lemma CloseSuffix(a: seq<Frame>, b: seq<Frame>)
    requires !FrameAfterClose(a + b)
    ensures !FrameAfterClose(b)
  {
    assert forall i :: 0 <= i < |b| ==> (a + b)[|a| + i] == b[i];
  }

  lemma NothingAfterClose(a: seq<Frame>, b: seq<Frame>, c: seq<Frame>)
    requires !FrameAfterClose(a + b + c) && EndsInClose(a)
    ensures b == []
  {
    assert (a + b + c)[|a| - 1].opcode == OP_CLOSE;
  }

  /** Payloads of the frames that go up to the application, in order. */
  function Delivered(up: Frame -> bool, fs: seq<Frame>): (ms: seq<seq<byte>>) {
    if fs == [] then [] else (if up(fs[0]) then [fs[0].payload] else []) + Delivered(up, fs[1..])
  }

  lemma {:induction false} DeliveredConcat(up: Frame -> bool, a: seq<Frame>, b: seq<Frame>)
    ensures Delivered(up, a + b) == Delivered(up, a) + Delivered(up, b)
  {
    if a == [] {
      assert a + b == b;
    } else {
      DeliveredConcat(up, a[1..], b);
      assert (a + b)[0] == a[0] && (a + b)[1..] == a[1..] + b;
      var front := if up(a[0]) then [a[0].payload] else [];
      assert Delivered(up, a) == front + Delivered(up, a[1..]);
      AppendAssoc(front, Delivered(up, a[1..]), Delivered(up, b));
    }
  }
}
