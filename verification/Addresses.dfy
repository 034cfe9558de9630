/** IPv4 arithmetic on local subnets, scores of addresses, and the choice of an own address. */
module Addresses {
  import opened Options
  import opened Arithmetic

  type Host = string
  type Octet = b: int | 0 <= b < 256

  datatype Ip4 = Ip4(b0: Octet, b1: Octet, b2: Octet, b3: Octet)

  /** A local interface address. */
  datatype IfAddr = IfAddr(ip: Host, prefix: nat)

  /** The literal parser: `None` for anything but an IPv4 literal. */
  type Parser = Host -> Option<Ip4>

  const WORD: nat := 0x1_0000_0000

  /** The address as a 32-bit number, first octet on top. */
  function Num(a: Ip4): (v: nat)
    ensures v < WORD
  {
    a.b0 as nat * 0x100_0000 + a.b1 as nat * 0x1_0000 + a.b2 as nat * 0x100 + a.b3
  }

  /** Bitwise and of the low `n` bits. */
  function And(n: nat, a: nat, b: nat): nat {
    if n == 0 then 0 else 2 * And(n - 1, a / 2, b / 2) + if a % 2 == 1 && b % 2 == 1 then 1 else 0
  }

  /** Complement in 32 bits of the low `32 - prefix` ones; no prefix means the whole address. */
  function PrefixMask(prefix: nat): nat {
    if prefix == 0 || prefix >= 32 then WORD - 1
    else
      Pow2Monotone(32 - prefix, 32);
      Pow2Is32();
      WORD - 1 - (Pow2(32 - prefix) - 1)
  }

  lemma {:induction false} Pow2Monotone(k: nat, n: nat)
    requires k <= n
    ensures Pow2(k) <= Pow2(n)
  {
    if k < n {
      Pow2Monotone(k, n - 1);
    }
  }

  lemma Pow2Is32()
    ensures Pow2(32) == WORD && Pow2(16) == 0x1_0000
  {
    assert Pow2(4) == 16;
    assert Pow2(8) == 256;
    assert Pow2(12) == 4096;
    assert Pow2(16) == 65536;
    assert Pow2(20) == 0x10_0000;
    assert Pow2(24) == 0x100_0000;
    assert Pow2(28) == 0x1000_0000;
  }

  predicate SameSubnet(a: Ip4, b: Ip4, prefix: nat) {
    And(32, Num(a), PrefixMask(prefix)) == And(32, Num(b), PrefixMask(prefix))
  }

  function SameSubnetIPv4(parse: Parser, a: Host, b: Host, prefix: nat): bool {
    parse(a).Some? && parse(b).Some? && SameSubnet(parse(a).value, parse(b).value, prefix)
  }

  predicate IsPrivate(a: Ip4) {
    var v := Num(a);
    || v / 0x100_0000 == 10
    || (v / 0x100_0000 == 172 && v / 0x10_0000 == 0xac1)
    || v / 0x1_0000 == 0xc0a8
    || v / 0x40_0000 == 0x191
  }

  // ---------- what the bit tests mean ----------

  /** The number without its low `s` bits. */
  function High(v: nat, s: nat): nat { if s == 0 then v else High(v / 2, s - 1) }

  lemma {:induction false} HighIs(v: nat, s: nat)
    ensures High(v, s) == v / Pow2(s)
  {
    if s > 0 {
      HighIs(v / 2, s - 1);
      DivDiv(v, 2, Pow2(s - 1));
    }
  }

  /** Masking with the ones from bit `s` up compares what is left without the low `s` bits. */
  lemma {:induction false} SameUnderMask(n: nat, s: nat, v: nat, w: nat)
    requires s <= n && v < Pow2(n) && w < Pow2(n)
    ensures Pow2(s) <= Pow2(n)
    ensures And(n, v, Pow2(n) - Pow2(s)) == And(n, w, Pow2(n) - Pow2(s)) <==> High(v, s) == High(w, s)
  {
    Pow2Monotone(s, n);
    if s > 0 {
      Pow2Monotone(s - 1, n - 1);
      SameUnderMask(n - 1, s - 1, v / 2, w / 2);
      EvenMask(n, v, Pow2(n - 1) - Pow2(s - 1));
      EvenMask(n, w, Pow2(n - 1) - Pow2(s - 1));
    } else {
      AndAllOnes(n, v);
      AndAllOnes(n, w);
    }
  }

  lemma {:induction false} AndAllOnes(n: nat, v: nat)
    requires v < Pow2(n)
    ensures And(n, v, Pow2(n) - 1) == v
  {
    if n > 0 {
      AndAllOnes(n - 1, v / 2);
      OddMask(n, v, Pow2(n - 1) - 1);
    }
  }

  lemma EvenMask(n: nat, v: nat, m: nat)
    requires n > 0
    ensures And(n, v, 2 * m) == 2 * And(n - 1, v / 2, m)
  {
    assert 2 * m / 2 == m;
  }

  lemma OddMask(n: nat, v: nat, m: nat)
    requires n > 0
    ensures And(n, v, 2 * m + 1) == 2 * And(n - 1, v / 2, m) + v % 2
  {
    assert (2 * m + 1) / 2 == m;
  }

  /** Two addresses share a subnet of prefix 1 to 32 exactly if their numbers have the same quotient by
      the subnet's size; a missing prefix compares whole addresses. */
  lemma SameSubnetMeaning(a: Ip4, b: Ip4, prefix: nat)
    ensures SameSubnet(a, b, prefix) <==>
      if prefix == 0 || prefix >= 32 then a == b
      else Num(a) / Pow2(32 - prefix) == Num(b) / Pow2(32 - prefix)
  {
    if prefix == 0 || prefix >= 32 {
      SameWhole(Num(a), Num(b), prefix);
      NumInjective(a, b);
    } else {
      SameMasked(Num(a), Num(b), prefix, 32 - prefix);
    }
  }

  lemma SameWhole(v: nat, w: nat, prefix: nat)
    requires v < WORD && w < WORD && (prefix == 0 || prefix >= 32)
    ensures And(32, v, PrefixMask(prefix)) == And(32, w, PrefixMask(prefix)) <==> v == w
  {
    Pow2Is32();
    SameUnderMask(32, 0, v, w);
    assert Pow2(0) == 1;
  }

  lemma SameMasked(v: nat, w: nat, prefix: nat, s: nat)
    requires v < WORD && w < WORD && 0 < prefix < 32 && s == 32 - prefix
    ensures And(32, v, PrefixMask(prefix)) == And(32, w, PrefixMask(prefix)) <==> v / Pow2(s) == w / Pow2(s)
  {
    Pow2Is32();
    SameUnderMask(32, s, v, w);
    HighIs(v, s);
    HighIs(w, s);
  }

  lemma NumInjective(a: Ip4, b: Ip4)
    ensures Num(a) == Num(b) <==> a == b
  {
    if Num(a) == Num(b) {
      var a1, b1 := a.b0 as nat * 0x100 + a.b1, b.b0 as nat * 0x100 + b.b1;
      var a2, b2 := a1 * 0x100 + a.b2, b1 * 0x100 + b.b2;
      LowByte(a2, a.b3, b2, b.b3);
      LowByte(a1, a.b2, b1, b.b2);
      LowByte(a.b0, a.b1, b.b0, b.b1);
    }
  }

  lemma LowByte(x: nat, a: Octet, y: nat, b: Octet)
    requires x * 0x100 + a == y * 0x100 + b
    ensures x == y && a == b
  {
  }

  /** Sharing a subnet of prefix 1 to 32 is an equivalence, and implies sharing every wider one. */
  lemma SubnetsNest(a: Ip4, b: Ip4, c: Ip4, p: nat, q: nat)
    requires 1 <= q <= p <= 32
    ensures SameSubnet(a, a, p)
    ensures SameSubnet(a, b, p) ==> SameSubnet(b, a, p)
    ensures SameSubnet(a, b, p) && SameSubnet(b, c, p) ==> SameSubnet(a, c, p)
    ensures SameSubnet(a, b, p) ==> SameSubnet(a, b, q)
  {
    SameSubnetMeaning(a, b, p);
    SameSubnetMeaning(a, b, q);
    if p < 32 {
      Pow2Split(32 - p, p - q);
      DivDiv(Num(a), Pow2(32 - p), Pow2(p - q));
      DivDiv(Num(b), Pow2(32 - p), Pow2(p - q));
    }
  }

  lemma {:induction false} Pow2Split(a: nat, b: nat)
    ensures Pow2(a + b) == Pow2(a) * Pow2(b)
  {
    if b > 0 {
      Pow2Split(a, b - 1);
      assert Pow2(a + b) == 2 * Pow2(a + b - 1);
      MulAssoc(2, Pow2(a), Pow2(b - 1));
      MulAssoc(Pow2(a), 2, Pow2(b - 1));
    }
  }

  /** The shift tests hold exactly on the private ranges 10/8, 172.16/12 and 192.168/16 (section 3 of
      RFC 1918) and on the shared range 100.64/10 (section 7 of RFC 6598). */
  lemma PrivateRanges(a: Ip4)
    ensures IsPrivate(a) <==>
      || a.b0 == 10
      || (a.b0 == 172 && 16 <= a.b1 <= 31)
      || (a.b0 == 192 && a.b1 == 168)
      || (a.b0 == 100 && 64 <= a.b1 <= 127)
  {
    var low16 := a.b2 as nat * 0x100 + a.b3;
    var low24 := a.b1 as nat * 0x1_0000 + low16;
    var v := Num(a);
    QuotientUnique(v, 0x100_0000, a.b0, low24);
    QuotientUnique(v, 0x1_0000, a.b0 as nat * 0x100 + a.b1, low16);
  }

  // ---------- scores ----------

  predicate SharesSubnet(parse: Parser, a: Ip4, l: IfAddr) {
    parse(l.ip).Some? && SameSubnet(a, parse(l.ip).value, l.prefix)
  }

  /** Smaller is better: own subnet, other private network, link-local, public, loopback, no address. */
  function AddrScore(parse: Parser, ip: Host, locals: seq<IfAddr>): (score: nat)
    ensures score <= 6
  {
    match parse(ip)
    case None => 6
    case Some(a) =>
      if Num(a) / 0x100_0000 == 127 then 5
      else if exists l <- locals :: SharesSubnet(parse, a, l) then 0
      else if IsPrivate(a) then 1
      else if Num(a) / 0x1_0000 == 0xa9fe then 2
      else 3
  }

  method ComputeScore(parse: Parser, ip: Host, locals: seq<IfAddr>) returns (score: nat)
    ensures score == AddrScore(parse, ip, locals)
  {
    if parse(ip).None? { return 6; }
    var a := parse(ip).value;
    if Num(a) / 0x100_0000 == 127 { return 5; }
    for i := 0 to |locals|
      invariant forall j :: 0 <= j < i ==> !SharesSubnet(parse, a, locals[j])
    {
      if SharesSubnet(parse, a, locals[i]) { return 0; }
    }
    if IsPrivate(a) { return 1; }
    if Num(a) / 0x1_0000 == 0xa9fe { return 2; }
    return 3;
  }

  /** In subnet terms: a prefix of 1 to 31 bits compares that many leading bits, any other the whole address. */
  predicate InSubnet(a: Ip4, b: Ip4, prefix: nat) {
    if 1 <= prefix <= 31 then Num(a) / Pow2(32 - prefix) == Num(b) / Pow2(32 - prefix) else a == b
  }

  predicate NextTo(parse: Parser, a: Ip4, l: IfAddr) {
    parse(l.ip).Some? && InSubnet(a, parse(l.ip).value, l.prefix)
  }

  lemma OctetsOf(a: Ip4)
    ensures Num(a) / 0x100_0000 == a.b0 as nat
    ensures Num(a) / 0x1_0000 == 0xa9fe <==> a.b0 == 169 && a.b1 == 254
  {
    var low16 := a.b2 as nat * 0x100 + a.b3;
    QuotientUnique(Num(a), 0x100_0000, a.b0, a.b1 as nat * 0x1_0000 + low16);
    QuotientUnique(Num(a), 0x1_0000, a.b0 as nat * 0x100 + a.b1, low16);
  }

  /** The scores by ranges of addresses: loopback 127/8 comes last of all addresses; of the others one in a subnet
      of this machine comes first, then the private ranges, then link-local 169.254/16 (section 2.1 of RFC 3927),
      then every other address. What is no address comes behind everything. */
  lemma ScoresByRange(parse: Parser, ip: Host, locals: seq<IfAddr>)
    ensures
      AddrScore(parse, ip, locals) ==
        match parse(ip)
        case None => 6
        case Some(a) =>
          if a.b0 == 127 then 5
          else if exists l <- locals :: NextTo(parse, a, l) then 0
          else if || a.b0 == 10 || (a.b0 == 172 && 16 <= a.b1 <= 31)
                  || (a.b0 == 192 && a.b1 == 168) || (a.b0 == 100 && 64 <= a.b1 <= 127) then 1
          else if a.b0 == 169 && a.b1 == 254 then 2
          else 3
  {
    if parse(ip).Some? {
      var a := parse(ip).value;
      OctetsOf(a);
      PrivateRanges(a);
      forall l <- locals ensures SharesSubnet(parse, a, l) <==> NextTo(parse, a, l) {
        if parse(l.ip).Some? { SameSubnetMeaning(a, parse(l.ip).value, l.prefix); }
      }
    }
  }

  predicate Loopback(a: Ip4) {
    Num(a) / 0x100_0000 == 127
  }

  // ---------- choosing an own address ----------

  /** First local address whose subnet holds `peer`. */
  function FirstShared(parse: Parser, peer: Host, locals: seq<IfAddr>, i: nat): (k: nat)
    requires i <= |locals|
    ensures i <= k <= |locals|
    decreases |locals| - i
  {
    if i == |locals| || SameSubnetIPv4(parse, peer, locals[i].ip, locals[i].prefix) then i
    else FirstShared(parse, peer, locals, i + 1)
  }

  /** Position of the first of the locals with the least score. */
  predicate LeadsAt(parse: Parser, locals: seq<IfAddr>, k: nat)
    requires k < |locals|
  {
    forall j :: 0 <= j < |locals| ==>
      && Own(parse, locals, k) <= Own(parse, locals, j)
      && (j < k ==> Own(parse, locals, k) < Own(parse, locals, j))
  }

  function Own(parse: Parser, locals: seq<IfAddr>, k: nat): nat
    requires k < |locals|
  {
    AddrScore(parse, locals[k].ip, locals)
  }

  method PrimaryLocalAddr(parse: Parser, locals: seq<IfAddr>) returns (ip: Host)
    ensures locals == [] ==> ip == "127.0.0.1"
    ensures locals != [] ==> exists k :: 0 <= k < |locals| && LeadsAt(parse, locals, k) && ip == locals[k].ip
  {
    var best, bestScore := 0, 7;
    for i := 0 to |locals|
      invariant if i == 0 then bestScore == 7 else best < i && bestScore == Own(parse, locals, best)
      invariant forall j :: 0 <= j < i ==> bestScore <= Own(parse, locals, j)
      invariant forall j :: 0 <= j < i && j < best ==> bestScore < Own(parse, locals, j)
    {
      var score := ComputeScore(parse, locals[i].ip, locals);
      if score < bestScore {
        best, bestScore := i, score;
      }
    }
    return if locals == [] then "127.0.0.1" else locals[best].ip;
  }

  method PickLocalAddrFor(parse: Parser, peer: Host, locals: seq<IfAddr>) returns (ip: Host)
    ensures
      var k := FirstShared(parse, peer, locals, 0);
      if k < |locals| then ip == locals[k].ip
      else if locals == [] then ip == "127.0.0.1"
      else exists j :: 0 <= j < |locals| && LeadsAt(parse, locals, j) && ip == locals[j].ip
  {
    for i := 0 to |locals|
      invariant FirstShared(parse, peer, locals, 0) == FirstShared(parse, peer, locals, i)
    {
      if SameSubnetIPv4(parse, peer, locals[i].ip, locals[i].prefix) { return locals[i].ip; }
    }
    ip := PrimaryLocalAddr(parse, locals);
  }

  lemma {:induction false} FirstSharedMeaning(parse: Parser, peer: Host, locals: seq<IfAddr>, i: nat)
    requires i <= |locals|
    ensures
      var k := FirstShared(parse, peer, locals, i);
      && (k < |locals| ==> SameSubnetIPv4(parse, peer, locals[k].ip, locals[k].prefix))
      && forall j :: i <= j < k ==> !SameSubnetIPv4(parse, peer, locals[j].ip, locals[j].prefix)
    decreases |locals| - i
  {
    if i < |locals| && !SameSubnetIPv4(parse, peer, locals[i].ip, locals[i].prefix) {
      FirstSharedMeaning(parse, peer, locals, i + 1);
    }
  }

  /** An address gets the best score exactly if it is an IPv4 address, not loopback, and the search for an
      own address towards it succeeds. */
  lemma BestScoreMeaning(parse: Parser, ip: Host, locals: seq<IfAddr>)
    ensures AddrScore(parse, ip, locals) == 0 <==>
      && parse(ip).Some? && !Loopback(parse(ip).value)
      && FirstShared(parse, ip, locals, 0) < |locals|
  {
    FirstSharedMeaning(parse, ip, locals, 0);
    if parse(ip).Some? {
      var a, k := parse(ip).value, FirstShared(parse, ip, locals, 0);
      if k < |locals| {
        assert SharesSubnet(parse, a, locals[k]);
      } else {
        assert forall j :: 0 <= j < |locals| ==> !SharesSubnet(parse, a, locals[j]);
      }
    }
  }

  /** What kind of address a local one is: usable, loopback, or not IPv4. */
  function Kind(parse: Parser, ip: Host): nat {
    if parse(ip).None? then 2 else if Loopback(parse(ip).value) then 1 else 0
  }

  /** Every local address is in its own subnet, so ranking own addresses by score never tells private
      from public: the primary one is just the first usable one, then the first loopback one, then the first. */
  lemma PrimaryIsFirstUsable(parse: Parser, locals: seq<IfAddr>, k: nat)
    requires k < |locals|
    ensures LeadsAt(parse, locals, k) <==>
      forall j :: 0 <= j < |locals| ==>
        && Kind(parse, locals[k].ip) <= Kind(parse, locals[j].ip)
        && (j < k ==> Kind(parse, locals[k].ip) < Kind(parse, locals[j].ip))
  {
    forall j: nat | j < |locals| ensures Own(parse, locals, j) == [0, 5, 6][Kind(parse, locals[j].ip)] {
      OwnScore(parse, locals, j);
    }
  }

  lemma OwnScore(parse: Parser, locals: seq<IfAddr>, j: nat)
    requires j < |locals|
    ensures Own(parse, locals, j) == [0, 5, 6][Kind(parse, locals[j].ip)]
  {
    if parse(locals[j].ip).Some? {
      assert SharesSubnet(parse, parse(locals[j].ip).value, locals[j]);
    }
  }
}
