/** WebSocket text frames as this program writes and reads them (sections 5.2 and 5.3 of RFC 6455).

    The reading side is given twice: `NextFrame` looks at one frame at the front of a byte queue,
    and `TryParse` is what one call of the incremental decoder does with the whole queue. */
module WsFrames {
  import opened Arithmetic

  type byte = b: int | 0 <= b < 256

  const OP_TEXT: byte := 1
  const OP_CLOSE: byte := 8

  /** Upper bound on one frame's payload: 64 MiB. */
  const MAX_PAYLOAD: nat := 67_108_864

  datatype Frame = Frame(fin: bool, opcode: byte, payload: seq<byte>)

  /** What the front of a byte queue holds. `TooLong` never goes away, whatever arrives later. */
  datatype Scan =
    | NeedMore
    | TooLong
    | Complete(frame: Frame, size: nat)

  // ---------- bits of a byte ----------

  predicate HighBit(b: byte) { b >= 0x80 }

  function SetHighBit(b: byte): byte { if HighBit(b) then b else 0x80 + b }

  /** Exclusive or of the low `n` bits of two numbers. */
  function XorLow(n: nat, a: nat, b: nat): (r: nat)
    ensures r < Pow2(n)
  {
    if n == 0 then 0 else 2 * XorLow(n - 1, a / 2, b / 2) + if a % 2 == b % 2 then 0 else 1
  }

  function Xor(a: byte, b: byte): byte {
    assert Pow2(8) == 256 by { assert Pow2(4) == 16; }
    XorLow(8, a, b)
  }

  lemma {:induction false} XorLowTwice(n: nat, a: nat, b: nat)
    requires a < Pow2(n)
    ensures XorLow(n, XorLow(n, a, b), b) == a
  {
    if n > 0 {
      var half, r := XorLow(n - 1, a / 2, b / 2), XorLow(n, a, b);
      assert r / 2 == half && (r % 2 == 0 <==> a % 2 == b % 2);
      XorLowTwice(n - 1, a / 2, b / 2);
    }
  }

  lemma XorTwice(a: byte, b: byte)
    ensures Xor(Xor(a, b), b) == a
  {
    assert Pow2(8) == 256 by { assert Pow2(4) == 16; }
    XorLowTwice(8, a, b);
  }

  // ---------- lengths ----------

  /** Value of a big-endian byte string. */
  function BigEndian(s: seq<byte>): nat {
    if s == [] then 0 else BigEndian(s[..|s| - 1]) * 256 + s[|s| - 1]
  }

  /** The low `k` bytes of `n`, most significant first. */
  function BigEndianBytes(n: nat, k: nat): (s: seq<byte>)
    ensures |s| == k
  {
    if k == 0 then [] else BigEndianBytes(n / 256, k - 1) + [n % 256]
  }

  function Pow256(k: nat): (p: nat)
    ensures p > 0
  {
    if k == 0 then 1 else 256 * Pow256(k - 1)
  }

  lemma {:induction false} BigEndianRoundTrip(n: nat, k: nat)
    requires n < Pow256(k)
    ensures BigEndian(BigEndianBytes(n, k)) == n
  {
    if k > 0 {
      BigEndianRoundTrip(n / 256, k - 1);
      var s := BigEndianBytes(n, k);
      assert s[..k - 1] == BigEndianBytes(n / 256, k - 1);
    }
  }

  /** Byte `j` of the encoding is the shift-and-mask the encoders compute. */
  lemma {:induction false} BigEndianByteAt(n: nat, k: nat, j: nat)
    requires j < k
    ensures BigEndianBytes(n, k)[j] == n / Pow256(k - 1 - j) % 256
  {
    if j < k - 1 {
      BigEndianByteAt(n / 256, k - 1, j);
      DivDiv(n, 256, Pow256(k - 2 - j));
    }
  }

  // ---------- masking ----------

  function Mask(key: seq<byte>, data: seq<byte>): (r: seq<byte>)
    requires |key| == 4
    ensures |r| == |data|
    ensures forall i :: 0 <= i < |data| ==> r[i] == Xor(data[i], key[i % 4])
  {
    seq(|data|, i requires 0 <= i < |data| => Xor(data[i], key[i % 4]))
  }

  lemma MaskInvolution(key: seq<byte>, data: seq<byte>)
    requires |key| == 4
    ensures Mask(key, Mask(key, data)) == data
  {
    forall i | 0 <= i < |data|
      ensures Mask(key, Mask(key, data))[i] == data[i]
    {
      XorTwice(data[i], key[i % 4]);
    }
  }

  /** The four mask bytes on the wire: the 32-bit random key, least significant byte first. */
  function KeyBytes(maskKey: nat): (k: seq<byte>)
    ensures |k| == 4
  {
    [KeyByte(maskKey, 0), KeyByte(maskKey, 1), KeyByte(maskKey, 2), KeyByte(maskKey, 3)]
  }

  function KeyByte(maskKey: nat, i: nat): byte
  {
    maskKey / Pow256(i) % 256
  }

  // ---------- writing ----------

  function MaskBit(masked: bool): byte { if masked then 0x80 else 0 }

  /** First two bytes and the extended length of an unmasked or masked frame. */
  function Header(masked: bool, opcode: byte, len: nat): (h: seq<byte>)
    ensures |h| == HeaderSize(len)
  {
    [SetHighBit(opcode)] +
    if len < 126 then [MaskBit(masked) + len]
    else if len < 65536 then [MaskBit(masked) + 126] + BigEndianBytes(len, 2)
    else [MaskBit(masked) + 127] + BigEndianBytes(len, 8)
  }

  function HeaderSize(len: nat): nat {
    if len < 126 then 2 else if len < 65536 then 4 else 10
  }

  function ServerFrame(opcode: byte, payload: seq<byte>): seq<byte> {
    Header(false, opcode, |payload|) + payload
  }

  function ClientFrame(opcode: byte, payload: seq<byte>, maskKey: nat): seq<byte> {
    Header(true, opcode, |payload|) + KeyBytes(maskKey) + Mask(KeyBytes(maskKey), payload)
  }

  /** Appends the extended length: both encoders share these pushes. */
  method PushLength(start: seq<byte>, masked: bool, len: nat) returns (out: seq<byte>)
    requires |start| == 1
    requires len < Pow256(8)
    ensures forall opcode: byte :: start == [SetHighBit(opcode)] ==> out == Header(masked, opcode, len)
  {
    out := start;
    if len < 126 {
      out := out + [MaskBit(masked) + len];
    } else if len < 65536 {
      BigEndianByteAt(len, 2, 0);
      BigEndianByteAt(len, 2, 1);
      out := out + [MaskBit(masked) + 126];
      out := out + [len / 256 % 256];
      out := out + [len % 256];
      assert out == start + [MaskBit(masked) + 126] + BigEndianBytes(len, 2);
    } else {
      out := out + [MaskBit(masked) + 127];
      ghost var base := out;
      for i := 0 to 8
        invariant out == base + BigEndianBytes(len, 8)[..i]
      {
        BigEndianByteAt(len, 8, i);
        out := out + [len / Pow256(7 - i) % 256];
      }
    }
  }

  /** Server-side frames are not masked. */
  method EncodeServerFrame(opcode: byte, payload: seq<byte>) returns (out: seq<byte>)
    requires |payload| < Pow256(8)
    ensures out == ServerFrame(opcode, payload)
  {
    out := PushLength([SetHighBit(opcode)], false, |payload|);
    out := out + payload;
  }

  /** Client-side frames carry a random key and a payload XORed with it. */
  method EncodeClientFrame(opcode: byte, payload: seq<byte>, maskKey: nat) returns (out: seq<byte>)
    requires |payload| < Pow256(8)
    ensures out == ClientFrame(opcode, payload, maskKey)
  {
    out := PushLength([SetHighBit(opcode)], true, |payload|);
    ghost var head := out;
    ghost var key := KeyBytes(maskKey);
    for i := 0 to 4
      invariant out == head + key[..i]
    {
      out := out + [KeyByte(maskKey, i)];
    }
    for i := 0 to |payload|
      invariant out == head + key + Mask(key, payload)[..i]
    {
      out := out + [Xor(payload[i], KeyByte(maskKey, i % 4))];
    }
  }

  // ---------- reading one frame ----------

  function ExtBytes(len7: nat): nat {
    if len7 == 126 then 2 else if len7 == 127 then 8 else 0
  }

  function NextFrame(q: seq<byte>): (r: Scan)
    ensures r.Complete? ==> 2 <= r.size <= |q|
  {
    if |q| < 2 then NeedMore else
    var len7 := q[1] % 128;
    var masked := HighBit(q[1]);
    var ext := ExtBytes(len7);
    if |q| < 2 + ext then NeedMore else
    var len := if ext == 0 then len7 else BigEndian(q[2..2 + ext]);
    if len > MAX_PAYLOAD then TooLong else
    var start := 2 + ext + if masked then 4 else 0;
    if |q| < start + len then NeedMore else
    var raw := q[start..start + len];
    var payload := if masked then Mask(q[2 + ext..start], raw) else raw;
    Complete(Frame(HighBit(q[0]), q[0] % 16, payload), start + len)
  }

  /** Reads one frame as the decoder does: length loop, key loop, unmasking loop. */
  method ScanFrame(q: seq<byte>) returns (r: Scan)
    ensures r == NextFrame(q)
  {
    if |q| < 2 { return NeedMore; }
    var masked := HighBit(q[1]);
    var len: nat := q[1] % 128;
    var pos := 2;
    if len == 126 {
      if |q| < pos + 2 { return NeedMore; }
      len := q[pos] as nat * 256 + q[pos + 1];
      BigEndianPair(q[pos..pos + 2]);
      pos := pos + 2;
    } else if len == 127 {
      if |q| < pos + 8 { return NeedMore; }
      len := 0;
      for i := 0 to 8
        invariant len == BigEndian(q[pos..pos + i])
      {
        len := len * 256 + q[pos + i];
        assert q[pos..pos + i + 1][..i] == q[pos..pos + i];
      }
      pos := pos + 8;
    }
    if len > MAX_PAYLOAD { return TooLong; }
    var mask: seq<byte> := [];
    if masked {
      if |q| < pos + 4 { return NeedMore; }
      for i := 0 to 4
        invariant mask == q[pos..pos + i]
      {
        mask := mask + [q[pos + i]];
      }
      pos := pos + 4;
    }
    if |q| < pos + len { return NeedMore; }
    var payload := q[pos..pos + len];
    if masked {
      payload := Unmask(mask, payload);
    }
    return Complete(Frame(HighBit(q[0]), q[0] % 16, payload), pos + len);
  }

  /** Unmasks the payload byte by byte. */
  method Unmask(mask: seq<byte>, data: seq<byte>) returns (payload: seq<byte>)
    requires |mask| == 4
    ensures payload == Mask(mask, data)
  {
    payload := data;
    for i := 0 to |payload|
      invariant |payload| == |data|
      invariant forall j :: 0 <= j < |data| ==> payload[j] == if j < i then Mask(mask, data)[j] else data[j]
    {
      payload := payload[i := Xor(payload[i], mask[i % 4])];
    }
  }

  lemma BigEndianPair(s: seq<byte>)
    requires |s| == 2
    ensures BigEndian(s) == s[0] as nat * 256 + s[1]
  {
    assert s[..1][..0] == [];
    assert BigEndian(s[..1]) == s[0];
  }

  /** Bytes that arrive later never change a verdict already reached. */
  lemma NextFrameStable(q: seq<byte>, x: seq<byte>)
    ensures NextFrame(q) != NeedMore ==> NextFrame(q + x) == NextFrame(q)
  {
    if NextFrame(q) != NeedMore {
      var p := q + x;
      var ext := ExtBytes(q[1] % 128);
      var start := 2 + ext + if HighBit(q[1]) then 4 else 0;
      assert p[0] == q[0] && p[1] == q[1];
      SliceOfPrefix(q, x, 2, 2 + ext);
      if NextFrame(q).Complete? {
        SliceOfPrefix(q, x, 2 + ext, start);
        SliceOfPrefix(q, x, start, NextFrame(q).size);
      }
    }
  }

  lemma SliceOfPrefix<T>(q: seq<T>, x: seq<T>, i: nat, j: nat)
    requires i <= j <= |q|
    ensures (q + x)[i..j] == q[i..j]
  {
  }

  /** A frame is recognised from its own bytes alone. */
  lemma NextFrameOwnBytes(q: seq<byte>)
    requires NextFrame(q).Complete?
    ensures NextFrame(q[..NextFrame(q).size]) == NextFrame(q)
  {
    var n := NextFrame(q).size;
    var p := q[..n];
    var ext := ExtBytes(q[1] % 128);
    var start := 2 + ext + if HighBit(q[1]) then 4 else 0;
    assert p + q[n..] == q;
    assert p[0] == q[0] && p[1] == q[1];
    SliceOfPrefix(p, q[n..], 2, 2 + ext);
    SliceOfPrefix(p, q[n..], 2 + ext, start);
    SliceOfPrefix(p, q[n..], start, n);
  }

  /** A proper prefix of a frame yields nothing: no frame, no bytes consumed, no refusal. */
  lemma ProperPrefixNeedsMore(q: seq<byte>, k: nat)
    requires NextFrame(q).Complete? && k < NextFrame(q).size
    ensures NextFrame(q[..k]) == NeedMore
  {
    NextFrameStable(q[..k], q[k..]);
    assert q[..k] + q[k..] == q;
  }

  // ---------- the codec is a round trip ----------

  lemma Pow256Values()
    ensures Pow256(2) == 65536
    ensures Pow256(4) == 4294967296
    ensures Pow256(8) == 18446744073709551616
  {
    assert Pow256(2) == 256 * Pow256(1);
    assert Pow256(3) == 256 * Pow256(2);
    assert Pow256(4) == 256 * Pow256(3);
    assert Pow256(5) == 256 * Pow256(4);
    assert Pow256(6) == 256 * Pow256(5);
    assert Pow256(7) == 256 * Pow256(6);
  }

  /** The decoder reads back the length, the flag and the opcode the encoders wrote. */
  lemma HeaderReadsBack(masked: bool, opcode: byte, len: nat, tail: seq<byte>)
    requires opcode < 16
    requires len < Pow256(8)
    ensures
      var q := Header(masked, opcode, len) + tail;
      var len7 := q[1] % 128;
      && HighBit(q[0]) && q[0] % 16 == opcode
      && HighBit(q[1]) == masked
      && 2 + ExtBytes(len7) == HeaderSize(len)
      && len == (if ExtBytes(len7) == 0 then len7 else BigEndian(q[2..2 + ExtBytes(len7)]))
  {
    Pow256Values();
    var q := Header(masked, opcode, len) + tail;
    if len < 126 {
    } else if len < 65536 {
      BigEndianRoundTrip(len, 2);
      assert q[2..4] == BigEndianBytes(len, 2);
    } else {
      BigEndianRoundTrip(len, 8);
      assert q[2..10] == BigEndianBytes(len, 8);
    }
  }

  /** Decoding a server frame gives the frame back and leaves exactly what followed it,
      precisely when the payload is within the bound; otherwise the queue is stuck for good. */
  lemma ServerFrameRoundTrip(opcode: byte, payload: seq<byte>, tail: seq<byte>)
    requires opcode < 16
    requires |payload| < Pow256(8)
    ensures
      var q := ServerFrame(opcode, payload) + tail;
      NextFrame(q) ==
        if |payload| <= MAX_PAYLOAD
        then Complete(Frame(true, opcode, payload), |ServerFrame(opcode, payload)|)
        else TooLong
  {
    var q := ServerFrame(opcode, payload) + tail;
    assert q == Header(false, opcode, |payload|) + (payload + tail);
    HeaderReadsBack(false, opcode, |payload|, payload + tail);
    var h := HeaderSize(|payload|);
    assert q[h..h + |payload|] == payload;
  }

  /** The same for a masked frame, whatever the key. */
  lemma ClientFrameRoundTrip(opcode: byte, payload: seq<byte>, maskKey: nat, tail: seq<byte>)
    requires opcode < 16
    requires |payload| < Pow256(8)
    ensures
      var q := ClientFrame(opcode, payload, maskKey) + tail;
      NextFrame(q) ==
        if |payload| <= MAX_PAYLOAD
        then Complete(Frame(true, opcode, payload), |ClientFrame(opcode, payload, maskKey)|)
        else TooLong
  {
    var key := KeyBytes(maskKey);
    var rest := key + Mask(key, payload) + tail;
    var q := ClientFrame(opcode, payload, maskKey) + tail;
    assert q == Header(true, opcode, |payload|) + rest;
    HeaderReadsBack(true, opcode, |payload|, rest);
    var h := HeaderSize(|payload|);
    assert q[h..h + 4] == key;
    assert q[h + 4..h + 4 + |payload|] == Mask(key, payload);
    MaskInvolution(key, payload);
  }
}
