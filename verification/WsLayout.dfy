/** Frames byte by byte, bit by bit, as sections 5.2 and 5.3 of RFC 6455 lay them out: what the encoders write,
    what the scanners read, and which frames reach the application. Numbers are written out here. */
module WsLayout {
  import opened Arithmetic
  import opened WsFrames
  import opened FrameStream
  import opened WsDelivery
  import opened Handshake
  import RC = RelayClient
  import WC = WsConnection

  // ---------- bits ----------

  predicate Bit(b: nat, i: nat) { b / Pow2(i) % 2 == 1 }

  /** Bit by bit, `r` is set where `a` and `b` differ. */
  ghost predicate IsXor(a: byte, b: byte, r: byte) {
    forall i: nat :: i < 8 ==> (Bit(r, i) <==> Bit(a, i) != Bit(b, i))
  }

  /** Bit `i` is the lowest bit, or bit `i - 1` of the half. */
  lemma BitOf(a: nat, i: nat)
    ensures Bit(a, i) <==> if i == 0 then a % 2 == 1 else Bit(a / 2, i - 1)
  {
    if i == 0 {
      assert Pow2(0) == 1;
    } else {
      DivDiv(a, 2, Pow2(i - 1));
    }
  }

  lemma XorLowHalves(n: nat, a: nat, b: nat)
    requires n > 0
    ensures XorLow(n, a, b) / 2 == XorLow(n - 1, a / 2, b / 2)
    ensures XorLow(n, a, b) % 2 == 1 <==> (a % 2 == 1) != (b % 2 == 1)
  {
  }

  predicate Differs(r: nat, a: nat, b: nat, i: nat) { Bit(r, i) <==> Bit(a, i) != Bit(b, i) }

  lemma DiffersOf(r: nat, a: nat, b: nat, i: nat)
    requires if i == 0 then r % 2 == 1 <==> (a % 2 == 1) != (b % 2 == 1) else Differs(r / 2, a / 2, b / 2, i - 1)
    ensures Differs(r, a, b, i)
  {
    BitOf(r, i);
    BitOf(a, i);
    BitOf(b, i);
  }

  lemma {:induction false} XorLowBit(n: nat, a: nat, b: nat, i: nat)
    requires i < n
    ensures Differs(XorLow(n, a, b), a, b, i)
  {
    XorLowHalves(n, a, b);
    if i > 0 {
      XorLowBit(n - 1, a / 2, b / 2, i - 1);
    }
    DiffersOf(XorLow(n, a, b), a, b, i);
  }

  lemma XorIsXor(a: byte, b: byte)
    ensures IsXor(a, b, Xor(a, b))
  {
    forall i: nat | i < 8 ensures Bit(Xor(a, b), i) <==> Bit(a, i) != Bit(b, i) {
      XorLowBit(8, a, b, i);
      assert Differs(Xor(a, b), a, b, i);
    }
  }

  /** Masking: byte `i` of the data is combined with byte `i % 4` of the key. */
  lemma MaskIsXor(key: seq<byte>, data: seq<byte>)
    requires |key| == 4
    ensures forall i :: 0 <= i < |data| ==> IsXor(data[i], key[i % 4], Mask(key, data)[i])
  {
    forall i | 0 <= i < |data| ensures IsXor(data[i], key[i % 4], Mask(key, data)[i]) {
      XorIsXor(data[i], key[i % 4]);
    }
  }

  // ---------- lengths ----------

  /** The number in two or eight bytes behind the first two, most significant first. */
  function Two(f: seq<byte>): nat
    requires |f| >= 4
  {
    f[2] as nat * 0x100 + f[3]
  }

  function Eight(f: seq<byte>): nat
    requires |f| >= 10
  {
    f[2] as nat * 0x100_0000_0000_0000 + f[3] as nat * 0x1_0000_0000_0000 + f[4] as nat * 0x100_0000_0000 +
    f[5] as nat * 0x1_0000_0000 + f[6] as nat * 0x100_0000 + f[7] as nat * 0x1_0000 + f[8] as nat * 0x100 + f[9]
  }

  /** Horner's rule from the front. */
  function Horner(s: seq<byte>, n: nat): nat
    requires n <= |s|
  {
    if n == 0 then 0 else Horner(s, n - 1) * 0x100 + s[n - 1]
  }

  lemma {:induction false} BigEndianIsHorner(s: seq<byte>, n: nat)
    requires n <= |s|
    ensures BigEndian(s[..n]) == Horner(s, n)
  {
    if n > 0 {
      assert s[..n][..n - 1] == s[..n - 1];
      BigEndianIsHorner(s, n - 1);
    }
  }

  lemma ReadsTwo(f: seq<byte>)
    requires |f| >= 4
    ensures BigEndian(f[2..4]) == Two(f)
  {
    var s := f[2..4];
    BigEndianIsHorner(s, 2);
    assert s[..2] == s;
    assert Horner(s, 1) == s[0];
  }

  lemma ReadsEight(f: seq<byte>)
    requires |f| >= 10
    ensures BigEndian(f[2..10]) == Eight(f)
  {
    var s := f[2..10];
    BigEndianIsHorner(s, 8);
    assert s[..8] == s;
    assert Horner(s, 1) == s[0];
    assert Horner(s, 2) == s[0] as nat * 0x100 + s[1];
    assert Horner(s, 3) == s[0] as nat * 0x1_0000 + s[1] as nat * 0x100 + s[2];
    assert Horner(s, 4) == s[0] as nat * 0x100_0000 + s[1] as nat * 0x1_0000 + s[2] as nat * 0x100 + s[3];
    HornerTail(s);
  }

  lemma HornerTail(s: seq<byte>)
    requires |s| == 8
    ensures Horner(s, 8) ==
      Horner(s, 4) * 0x1_0000_0000 + s[4] as nat * 0x100_0000 + s[5] as nat * 0x1_0000 + s[6] as nat * 0x100 + s[7]
  {
    assert Horner(s, 6) == Horner(s, 4) * 0x1_0000 + s[4] as nat * 0x100 + s[5];
    assert Horner(s, 8) == Horner(s, 6) * 0x1_0000 + s[6] as nat * 0x100 + s[7];
  }

  // ---------- what is written ----------

  /** Bytes in front of a mask key or payload. */
  function LengthEnd(len: nat): nat { if len < 126 then 2 else if len <= 65535 then 4 else 10 }

  /** The first byte has the final bit and the opcode; the length is in the second byte, or behind 126 in two bytes,
      or behind 127 in eight, whichever is the shortest. */
  ghost predicate StartsWith(f: seq<byte>, opcode: byte, top: nat, len: nat) {
    && |f| >= LengthEnd(len)
    && f[0] as nat == 128 + opcode
    && (if len < 126 then f[1] as nat == top + len
        else if len <= 65535 then f[1] as nat == top + 126 && Two(f) == len
        else f[1] as nat == top + 127 && Eight(f) == len)
  }

  lemma HeaderLayout(masked: bool, opcode: byte, len: nat, tail: seq<byte>)
    requires opcode < 16 && len < 0x1_0000_0000_0000_0000
    ensures StartsWith(Header(masked, opcode, len) + tail, opcode, if masked then 128 else 0, len)
    ensures |Header(masked, opcode, len)| == LengthEnd(len)
  {
    Pow256Values();
    var f := Header(masked, opcode, len) + tail;
    HeaderReadsBack(masked, opcode, len, tail);
    if 126 <= len <= 65535 {
      ReadsTwo(f);
    } else if len > 65535 {
      ReadsEight(f);
    }
  }

  /** A server frame is that header and the payload. */
  lemma ServerFrameLayout(opcode: byte, payload: seq<byte>)
    requires opcode < 16 && |payload| < 0x1_0000_0000_0000_0000
    ensures
      var f, h := ServerFrame(opcode, payload), LengthEnd(|payload|);
      StartsWith(f, opcode, 0, |payload|) && |f| == h + |payload| && f[h..] == payload
  {
    HeaderLayout(false, opcode, |payload|, payload);
  }

  /** A client frame is that header with the mask bit, the four key bytes, least significant first, and the payload,
      every byte combined with its key byte. */
  lemma ClientFrameLayout(opcode: byte, payload: seq<byte>, maskKey: nat)
    requires opcode < 16 && |payload| < 0x1_0000_0000_0000_0000
    ensures
      var f, h := ClientFrame(opcode, payload, maskKey), LengthEnd(|payload|);
      && StartsWith(f, opcode, 128, |payload|) && |f| == h + 4 + |payload|
      && f[h] as nat == maskKey % 0x100 && f[h + 1] as nat == maskKey / 0x100 % 0x100
      && f[h + 2] as nat == maskKey / 0x1_0000 % 0x100 && f[h + 3] as nat == maskKey / 0x100_0000 % 0x100
      && forall i :: 0 <= i < |payload| ==> IsXor(payload[i], f[h + i % 4], f[h + 4 + i])
  {
    var key := KeyBytes(maskKey);
    var head := Header(true, opcode, |payload|);
    HeaderLayout(true, opcode, |payload|, key + Mask(key, payload));
    assert ClientFrame(opcode, payload, maskKey) == head + (key + Mask(key, payload));
    KeyLayout(maskKey);
    MaskIsXor(key, payload);
  }

  lemma KeyLayout(maskKey: nat)
    ensures
      var k := KeyBytes(maskKey);
      && k[0] as nat == maskKey % 0x100 && k[1] as nat == maskKey / 0x100 % 0x100
      && k[2] as nat == maskKey / 0x1_0000 % 0x100 && k[3] as nat == maskKey / 0x100_0000 % 0x100
  {
    assert Pow256(0) == 1 && Pow256(1) == 0x100 && Pow256(2) == 0x1_0000 && Pow256(3) == 0x100_0000;
  }

  // ---------- what is read ----------

  /** Bytes up to the end of the length. */
  function LengthStop(q: seq<byte>): nat
    requires |q| >= 2
  {
    if q[1] % 128 == 126 then 4 else if q[1] % 128 == 127 then 10 else 2
  }

  predicate LengthThere(q: seq<byte>) { |q| >= 2 && |q| >= LengthStop(q) }

  function Declared(q: seq<byte>): nat
    requires LengthThere(q)
  {
    if q[1] % 128 == 126 then Two(q) else if q[1] % 128 == 127 then Eight(q) else q[1] % 128
  }

  function PayloadStart(q: seq<byte>): nat
    requires LengthThere(q)
  {
    LengthStop(q) + if q[1] >= 128 then 4 else 0
  }

  lemma DeclaredIs(q: seq<byte>)
    requires LengthThere(q)
    ensures
      var ext := ExtBytes(q[1] % 128);
      LengthStop(q) == 2 + ext && Declared(q) == if ext == 0 then q[1] % 128 else BigEndian(q[2..2 + ext])
  {
    if q[1] % 128 == 126 { ReadsTwo(q); }
    if q[1] % 128 == 127 { ReadsEight(q); }
  }

  /** What the connection's scanner makes of a queue: it refuses a declared length over 64 MiB as soon as the length
      is there, and recognises a frame as soon as the declared payload is there. */
  lemma ScanVerdict(q: seq<byte>)
    ensures NextFrame(q) == TooLong <==> LengthThere(q) && Declared(q) > 67_108_864
    ensures NextFrame(q).Complete? <==>
      LengthThere(q) && Declared(q) <= 67_108_864 && |q| >= PayloadStart(q) + Declared(q)
  {
    if LengthThere(q) {
      DeclaredIs(q);
    }
  }

  lemma ScanHead(q: seq<byte>)
    requires NextFrame(q).Complete?
    ensures LengthThere(q) && |q| >= PayloadStart(q) + Declared(q)
    ensures
      var f, n, start := NextFrame(q).frame, NextFrame(q).size, PayloadStart(q);
      && n == start + Declared(q) && |f.payload| == Declared(q)
      && (f.fin <==> q[0] >= 128) && f.opcode == q[0] % 16
      && var data := q[start..n];
         f.payload == if q[1] >= 128 then Mask(q[start - 4..start], data) else data
  {
    DeclaredIs(q);
  }

  /** The frame it recognises: final bit and opcode of the first byte, and the declared payload, unmasked by the key
      in front of it if the mask bit is set. */
  lemma ScanLayout(q: seq<byte>)
    requires NextFrame(q).Complete?
    ensures LengthThere(q) && |q| >= PayloadStart(q) + Declared(q)
    ensures
      var f, n, start := NextFrame(q).frame, NextFrame(q).size, PayloadStart(q);
      && n == start + Declared(q) && |f.payload| == Declared(q)
      && (f.fin <==> q[0] >= 128) && f.opcode == q[0] % 16
      && forall i :: 0 <= i < |f.payload| ==>
           if q[1] >= 128 then IsXor(q[start + i], q[start - 4 + i % 4], f.payload[i]) else f.payload[i] == q[start + i]
  {
    ScanHead(q);
    if q[1] >= 128 {
      var start, n := PayloadStart(q), NextFrame(q).size;
      Unmasked(q[start - 4..start], q[start..n], NextFrame(q).frame.payload);
    }
  }

  lemma Unmasked(key: seq<byte>, data: seq<byte>, payload: seq<byte>)
    requires |key| == 4 && payload == Mask(key, data)
    ensures |payload| == |data| && forall i :: 0 <= i < |data| ==> IsXor(data[i], key[i % 4], payload[i])
  {
    MaskIsXor(key, data);
  }

  /** What the relay client's scanner makes of it: no mask, and no bound but that position and length fit 64 bits. */
  lemma RelayScanLayout(q: seq<byte>)
    ensures RC.RelayNext(q) == TooLong <==> LengthThere(q) && LengthStop(q) + Declared(q) >= 0x1_0000_0000_0000_0000
    ensures RC.RelayNext(q).Complete? <==>
      LengthThere(q) && LengthStop(q) + Declared(q) < 0x1_0000_0000_0000_0000 && |q| >= LengthStop(q) + Declared(q)
    ensures RC.RelayNext(q).Complete? ==>
      var f, n, start := RC.RelayNext(q).frame, RC.RelayNext(q).size, LengthStop(q);
      && n == start + Declared(q) && (f.fin <==> q[0] >= 128) && f.opcode == q[0] % 16 && f.payload == q[start..n]
  {
    Pow256Values();
    if LengthThere(q) {
      DeclaredIs(q);
    }
  }

  // ---------- what reaches the application ----------

  /** Of the frames a connection takes off its queue, those and only those with the final bit and opcode 1 are handed
      up: no ping, no binary frame and no fragment. */
  lemma HandedUp(q: seq<byte>)
    requires NextFrame(q).Complete?
    ensures
      var f := NextFrame(q).frame;
      Delivered(IsText, [f]) == if q[0] >= 128 && q[0] % 16 == 1 then [f.payload] else []
  {
    ScanLayout(q);
    var f := NextFrame(q).frame;
    assert [f][1..] == [] && Delivered(IsText, []) == [];
  }

  /** Of those the relay client takes off, the ones with opcode 1 whose payload opens with a brace. */
  lemma RelayHandsUp(q: seq<byte>)
    requires RC.RelayNext(q).Complete?
    ensures
      var f := RC.RelayNext(q).frame;
      Delivered(RC.IsEvent, [f]) ==
        if q[0] % 16 == 1 && f.payload != [] && f.payload[0] as int == '{' as int then [f.payload] else []
  {
    RelayScanLayout(q);
    var f := RC.RelayNext(q).frame;
    assert [f][1..] == [] && Delivered(RC.IsEvent, []) == [];
  }

  /** A frame with opcode 8 ends the parse call, any other does not. */
  lemma CloseEndsTheCall(q: seq<byte>)
    requires WS.Lawful() && NextFrame(q).Complete?
    ensures
      var f, rest := NextFrame(q).frame, q[NextFrame(q).size..];
      if q[0] % 16 == 8 then WS.Parse(q) == Parsed([f], rest, true)
      else WS.Parse(q).taken == [f] + WS.Parse(rest).taken && WS.Parse(q).rest == WS.Parse(rest).rest
  {
    ScanLayout(q);
  }

  // ---------- heads ----------

  predicate BlankLine(s: seq<byte>, i: nat) {
    i + 4 <= |s| && s[i] == 13 && s[i + 1] == 10 && s[i + 2] == 13 && s[i + 3] == 10
  }

  /** A head ends behind its first empty line, two line ends of carriage return and line feed. */
  lemma HeadLayout(s: seq<byte>, n: nat)
    ensures HeadEnd(s) == n <==>
      if n == 0 then forall i: nat :: !BlankLine(s, i)
      else 4 <= n && BlankLine(s, n - 4) && forall i: nat :: i < n - 4 ==> !BlankLine(s, i)
  {
    forall i: nat ensures BlankLine(s, i) == BlankLineAt(s, i) {
      if BlankLine(s, i) { assert s[i..i + 4] == [13, 10, 13, 10]; }
      if BlankLineAt(s, i) {
        var four := s[i..i + 4];
        assert four[0] == s[i] && four[1] == s[i + 1] && four[2] == s[i + 2] && four[3] == s[i + 3];
      }
    }
    HeadEndSpec(s, n);
  }

  predicate Spells(s: seq<byte>, text: string) {
    |s| >= |text| && forall i :: 0 <= i < |text| ==> s[i] as int == text[i] as int
  }

  /** An answer to the handshake is accepted if it opens with the status line of HTTP 1.1 for 101, or with the bare
      status, and not otherwise. */
  lemma AcceptedAnswers(answer: seq<byte>)
    ensures WC.Accepts(answer) <==> Spells(answer, "HTTP/1.1 101") || Spells(answer, " 101 ")
  {
    SpellsPrefix(answer, "HTTP/1.1 101", WC.STATUS_101);
    SpellsPrefix(answer, " 101 ", WC.BARE_101);
  }

  lemma SpellsPrefix(s: seq<byte>, text: string, bytes: seq<byte>)
    requires |bytes| == |text| && forall i :: 0 <= i < |text| ==> bytes[i] as int == text[i] as int
    ensures bytes <= s <==> Spells(s, text)
  {
    if Spells(s, text) {
      assert s[..|bytes|] == bytes;
    }
    if bytes <= s {
      assert forall i :: 0 <= i < |text| ==> s[i] == bytes[i];
    }
  }
}
