/** Stripping the HTTP answer in front of a frame stream: everything up to the first blank line. */
module Handshake {
  import opened WsFrames
  import opened FrameStream

  const BLANK_LINE: seq<byte> := [13, 10, 13, 10]

  predicate BlankLineAt(s: seq<byte>, i: nat) {
    i + 4 <= |s| && s[i..i + 4] == BLANK_LINE
  }

  /** Position just behind the first blank line, or 0 if there is none yet. */
  function HeadEnd(s: seq<byte>): (n: nat)
    ensures n == 0 || 4 <= n <= |s|
  {
    HeadEndFrom(s, 0)
  }

  function HeadEndFrom(s: seq<byte>, k: nat): (n: nat)
    requires k <= |s|
    ensures n == 0 || 4 <= n <= |s|
    decreases |s| - k
  {
    if BlankLineAt(s, k) then k + 4 else if k == |s| then 0 else HeadEndFrom(s, k + 1)
  }

  ghost predicate IsHeadEnd(s: seq<byte>, n: nat) {
    if n == 0 then forall i: nat :: !BlankLineAt(s, i)
    else 4 <= n && BlankLineAt(s, n - 4) && forall i: nat :: i < n - 4 ==> !BlankLineAt(s, i)
  }

  /** `HeadEnd` is the first blank line and nothing else is. */
  lemma HeadEndSpec(s: seq<byte>, n: nat)
    ensures IsHeadEnd(s, n) <==> n == HeadEnd(s)
  {
    HeadEndFromSpec(s, 0);
    if IsHeadEnd(s, n) {
      HeadEndUnique(s, n, HeadEnd(s));
    }
  }

  lemma HeadEndUnique(s: seq<byte>, n: nat, m: nat)
    requires IsHeadEnd(s, n) && IsHeadEnd(s, m)
    ensures n == m
  {
    assert n != 0 ==> BlankLineAt(s, n - 4);
    assert m != 0 ==> BlankLineAt(s, m - 4);
  }

  lemma {:induction false} HeadEndFromSpec(s: seq<byte>, k: nat)
    requires k <= |s|
    requires forall i: nat :: i < k ==> !BlankLineAt(s, i)
    ensures IsHeadEnd(s, HeadEndFrom(s, k))
    decreases |s| - k
  {
    if !BlankLineAt(s, k) && k < |s| {
      HeadEndFromSpec(s, k + 1);
    }
  }

  method FindHeadEnd(s: seq<byte>) returns (n: nat)
    ensures n == HeadEnd(s)
  {
    for i := 0 to |s|
      invariant forall j: nat :: j < i ==> !BlankLineAt(s, j)
    {
      if i + 4 <= |s| && s[i..i + 4] == BLANK_LINE {
        HeadEndSpec(s, i + 4);
        return i + 4;
      }
    }
    assert forall j: nat :: BlankLineAt(s, j) ==> j < |s|;
    HeadEndSpec(s, 0);
    return 0;
  }

  /** A blank line once found stays the first one. */
  lemma HeadEndStable(s: seq<byte>, x: seq<byte>)
    requires HeadEnd(s) != 0
    ensures HeadEnd(s + x) == HeadEnd(s)
  {
    var n := HeadEnd(s);
    HeadEndSpec(s, n);
    SliceOfPrefix(s, x, n - 4, n);
    forall i: nat | i < n - 4 ensures !BlankLineAt(s + x, i) {
      SliceOfPrefix(s, x, i, i + 4);
      assert !BlankLineAt(s, i);
    }
    HeadEndSpec(s + x, n);
  }

  /** The reads of the stream behind the head, given the reads from its start: the one that completes
      the head contributes what it holds behind the blank line. Empty while the head is incomplete. */
  function AfterHead(buf: seq<byte>, cs: seq<seq<byte>>): (ts: seq<seq<byte>>)
    decreases |cs|
  {
    if cs == [] then []
    else
      var b := buf + cs[0];
      if HeadEnd(b) == 0 then AfterHead(b, cs[1..]) else [b[HeadEnd(b)..]] + cs[1..]
  }

  /** Whatever the cutting, the head is found at the same place and what follows it is kept whole. */
  lemma {:induction false} AfterHeadIsTail(buf: seq<byte>, cs: seq<seq<byte>>)
    requires HeadEnd(buf) == 0
    ensures
      var all := buf + Concat(cs);
      if HeadEnd(all) == 0 then AfterHead(buf, cs) == []
      else AfterHead(buf, cs) != [] && Concat(AfterHead(buf, cs)) == all[HeadEnd(all)..]
    decreases |cs|
  {
    if cs == [] {
      assert buf + Concat(cs) == buf;
    } else {
      var b := buf + cs[0];
      ConcatHead(buf, cs);
      if HeadEnd(b) == 0 {
        AfterHeadIsTail(b, cs[1..]);
      } else {
        HeadEndStable(b, Concat(cs[1..]));
        ConcatTail(b, HeadEnd(b), cs[1..]);
      }
    }
  }

  lemma ConcatTail(b: seq<byte>, n: nat, cs: seq<seq<byte>>)
    requires n <= |b|
    ensures Concat([b[n..]] + cs) == (b + Concat(cs))[n..]
  {
    assert ([b[n..]] + cs)[1..] == cs;
  }

  /** A buffer that does not yet hold the whole head is shorter than the head. */
  lemma HeadIncomplete(b: seq<byte>, x: seq<byte>)
    requires HeadEnd(b) == 0 && HeadEnd(b + x) != 0
    ensures |b| < HeadEnd(b + x)
  {
    var n := HeadEnd(b + x);
    HeadEndSpec(b + x, n);
    HeadEndSpec(b, 0);
    if n <= |b| {
      SliceOfPrefix(b, x, n - 4, n);
      assert BlankLineAt(b, n - 4);
    }
  }
}
