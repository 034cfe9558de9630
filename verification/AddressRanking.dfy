/** Ranking of a peer's candidate addresses: without repeats, best score first, ties in the order given. */
module AddressRanking {
  import opened Options
  import opened Addresses
  import PeerLink

  /** First occurrences of the non-empty strings, in order. */
  function Distinct(s: seq<Host>): seq<Host> {
    if s == [] then []
    else
      var d, c := Distinct(s[..|s| - 1]), s[|s| - 1];
      if c == "" || c in d then d else d + [c]
  }

  ghost predicate NoRepeats(s: seq<Host>) {
    forall i, j :: 0 <= i < j < |s| ==> s[i] != s[j]
  }

  lemma {:induction false} DistinctMeaning(s: seq<Host>)
    ensures NoRepeats(Distinct(s))
    ensures forall c :: c in Distinct(s) <==> c in s && c != ""
  {
    if s != [] {
      var init, c := s[..|s| - 1], s[|s| - 1];
      DistinctMeaning(init);
      assert s == init + [c];
    }
  }

  /** Position `k` is the first at which `x` occurs. */
  predicate FirstAt(s: seq<Host>, x: Host, k: nat) { k < |s| && s[k] == x && x !in s[..k] }

  /** Repeats are dropped for good: what is kept is in the order of its first occurrence. */
  lemma {:induction false} DistinctInOrder(s: seq<Host>, i: nat, j: nat, k: nat, m: nat)
    requires i < j < |Distinct(s)| && FirstAt(s, Distinct(s)[i], k) && FirstAt(s, Distinct(s)[j], m)
    ensures k < m
  {
    var init, c := s[..|s| - 1], s[|s| - 1];
    assert s == init + [c];
    DistinctMeaning(init);
    DistinctMeaning(s);
    assert s[..m] <= s && s[..k] <= s;
    FirstInInit(s, Distinct(s)[i], k);
    if j < |Distinct(init)| {
      FirstInInit(s, Distinct(s)[j], m);
      DistinctInOrder(init, i, j, k, m);
    }
  }

  lemma FirstInInit(s: seq<Host>, x: Host, k: nat)
    requires s != [] && FirstAt(s, x, k) && x in s[..|s| - 1]
    ensures FirstAt(s[..|s| - 1], x, k)
  {
    var init := s[..|s| - 1];
    if k < |init| {
      assert init[..k] == s[..k];
    }
  }

  /** Places `x` behind everything that scores no worse. */
  function Insert(score: Host -> nat, s: seq<Host>, x: Host): (r: seq<Host>)
    ensures |r| == |s| + 1
  {
    if s == [] then [x]
    else if score(s[|s| - 1]) <= score(x) then s + [x]
    else Insert(score, s[..|s| - 1], x) + [s[|s| - 1]]
  }

  /** The stable sort by score. */
  function Sort(score: Host -> nat, s: seq<Host>): (r: seq<Host>)
    ensures |r| == |s|
  {
    if s == [] then [] else Insert(score, Sort(score, s[..|s| - 1]), s[|s| - 1])
  }

  /** The entries with one score, in order. */
  function Group(score: Host -> nat, s: seq<Host>, v: nat): seq<Host> {
    if s == [] then []
    else Group(score, s[..|s| - 1], v) + if score(s[|s| - 1]) == v then [s[|s| - 1]] else []
  }

  lemma {:induction false} GroupConcat(score: Host -> nat, a: seq<Host>, b: seq<Host>, v: nat)
    ensures Group(score, a + b, v) == Group(score, a, v) + Group(score, b, v)
  {
    if b == [] {
      assert a + b == a;
    } else {
      var init, x := b[..|b| - 1], b[|b| - 1];
      assert (a + b)[..|a + b| - 1] == a + init;
      GroupConcat(score, a, init, v);
      var last := if score(x) == v then [x] else [];
      assert Group(score, a, v) + Group(score, init, v) + last == Group(score, a, v) + (Group(score, init, v) + last);
    }
  }

  ghost predicate Ordered(score: Host -> nat, s: seq<Host>) {
    forall i, j :: 0 <= i < j < |s| ==> score(s[i]) <= score(s[j])
  }

  lemma {:induction false} InsertKeeps(score: Host -> nat, s: seq<Host>, x: Host)
    ensures multiset(Insert(score, s, x)) == multiset(s) + multiset{x}
  {
    if s != [] && score(s[|s| - 1]) > score(x) {
      var init, y := s[..|s| - 1], s[|s| - 1];
      InsertKeeps(score, init, x);
      assert s == init + [y];
      assert multiset(s) == multiset(init) + multiset{y};
    }
  }

  lemma OrderedSnoc(score: Host -> nat, s: seq<Host>, y: Host)
    requires Ordered(score, s) && forall h <- s :: score(h) <= score(y)
    ensures Ordered(score, s + [y])
  {
    assert forall i :: 0 <= i < |s| ==> s[i] in s;
  }

  lemma OrderedInit(score: Host -> nat, s: seq<Host>)
    requires Ordered(score, s) && s != []
    ensures Ordered(score, s[..|s| - 1])
    ensures forall h <- s :: score(h) <= score(s[|s| - 1])
  {
  }

  lemma {:induction false} InsertOrdered(score: Host -> nat, s: seq<Host>, x: Host)
    requires Ordered(score, s)
    ensures Ordered(score, Insert(score, s, x))
  {
    if s != [] {
      var init, y := s[..|s| - 1], s[|s| - 1];
      OrderedInit(score, s);
      if score(y) <= score(x) {
        OrderedSnoc(score, s, x);
      } else {
        InsertOrdered(score, init, x);
        InsertMembers(score, init, x);
        OrderedSnoc(score, Insert(score, init, x), y);
      }
    }
  }

  lemma InsertMembers(score: Host -> nat, s: seq<Host>, x: Host)
    ensures forall h :: h in Insert(score, s, x) <==> h in s || h == x
  {
    InsertKeeps(score, s, x);
    forall h ensures h in Insert(score, s, x) <==> h in s || h == x {
      assert h in Insert(score, s, x) <==> h in multiset(Insert(score, s, x));
    }
  }

  lemma {:induction false} InsertGroup(score: Host -> nat, s: seq<Host>, x: Host, v: nat)
    ensures Group(score, Insert(score, s, x), v) == Group(score, s + [x], v)
  {
    if s != [] && score(s[|s| - 1]) > score(x) {
      var init, y := s[..|s| - 1], s[|s| - 1];
      InsertGroup(score, init, x, v);
      SingleGroup(score, x, v);
      SingleGroup(score, y, v);
      GroupConcat(score, Insert(score, init, x), [y], v);
      GroupConcat(score, init, [x], v);
      GroupConcat(score, s, [x], v);
      AtMostOneSide(Group(score, init, v), Group(score, [x], v), Group(score, [y], v));
    }
  }

  lemma AtMostOneSide(g: seq<Host>, a: seq<Host>, b: seq<Host>)
    requires a == [] || b == []
    ensures g + a + b == g + b + a
  {
    assert g + [] == g;
  }

  lemma SingleGroup(score: Host -> nat, x: Host, v: nat)
    ensures Group(score, [x], v) == if score(x) == v then [x] else []
  {
    assert [x][..0] == [];
  }

  /** Sorting orders by score, keeps every entry, and leaves entries of equal score in their order. */
  lemma SortMeaning(score: Host -> nat, s: seq<Host>)
    ensures Ordered(score, Sort(score, s))
    ensures multiset(Sort(score, s)) == multiset(s)
    ensures forall v: nat :: Group(score, Sort(score, s), v) == Group(score, s, v)
  {
    SortOrders(score, s);
    forall v: nat ensures Group(score, Sort(score, s), v) == Group(score, s, v) {
      SortGroup(score, s, v);
    }
  }

  lemma SortOrders(score: Host -> nat, s: seq<Host>)
    ensures Ordered(score, Sort(score, s))
    ensures multiset(Sort(score, s)) == multiset(s)
  {
    SortOrdered(score, s);
    SortKeeps(score, s);
  }

  lemma {:induction false} SortOrdered(score: Host -> nat, s: seq<Host>)
    ensures Ordered(score, Sort(score, s))
  {
    if s != [] {
      SortOrdered(score, s[..|s| - 1]);
      InsertOrdered(score, Sort(score, s[..|s| - 1]), s[|s| - 1]);
    }
  }

  lemma {:induction false} SortKeeps(score: Host -> nat, s: seq<Host>)
    ensures multiset(Sort(score, s)) == multiset(s)
  {
    if s != [] {
      var init, x := s[..|s| - 1], s[|s| - 1];
      SortKeeps(score, init);
      InsertKeeps(score, Sort(score, init), x);
      assert s == init + [x];
    }
  }

  lemma {:induction false} SortGroup(score: Host -> nat, s: seq<Host>, v: nat)
    ensures Group(score, Sort(score, s), v) == Group(score, s, v)
  {
    if s != [] {
      var init, x := s[..|s| - 1], s[|s| - 1];
      SortGroup(score, init, v);
      InsertGroup(score, Sort(score, init), x, v);
      GroupSnoc(score, Sort(score, init), x, v);
      GroupInit(score, s, v);
    }
  }

  lemma GroupSnoc(score: Host -> nat, s: seq<Host>, x: Host, v: nat)
    ensures Group(score, s + [x], v) == if score(x) == v then Group(score, s, v) + [x] else Group(score, s, v)
  {
    assert (s + [x])[..|s|] == s;
  }

  /** Entries of equal score come in the same order in both. */
  ghost predicate SameGroups(score: Host -> nat, s: seq<Host>, t: seq<Host>) {
    forall v: nat :: Group(score, s, v) == Group(score, t, v)
  }

  /** Order and stability leave no choice: any stable sort by score gives the same sequence. */
  lemma {:induction false} StableSortUnique(score: Host -> nat, s: seq<Host>, t: seq<Host>)
    requires Ordered(score, s) && Ordered(score, t)
    requires SameGroups(score, s, t)
    ensures s == t
  {
    GroupOfLast(score, s);
    GroupOfLast(score, t);
    if s != [] && t != [] {
      var x, y := s[|s| - 1], t[|t| - 1];
      assert score(x) == score(y) by {
        GroupNeedsMember(score, t, score(x));
        GroupNeedsMember(score, s, score(y));
      }
      SameLast(score, s, t);
      StableSortUnique(score, s[..|s| - 1], t[..|t| - 1]);
      assert s == s[..|s| - 1] + [x] && t == t[..|t| - 1] + [y];
    }
  }

  lemma GroupOfLast(score: Host -> nat, s: seq<Host>)
    ensures s == [] || Group(score, s, score(s[|s| - 1])) != []
  {
  }

  lemma SameLast(score: Host -> nat, s: seq<Host>, t: seq<Host>)
    requires s != [] && t != [] && SameGroups(score, s, t)
    requires score(s[|s| - 1]) == score(t[|t| - 1])
    ensures s[|s| - 1] == t[|t| - 1] && SameGroups(score, s[..|s| - 1], t[..|t| - 1])
  {
    var init, tail := s[..|s| - 1], t[..|t| - 1];
    var x, y := s[|s| - 1], t[|t| - 1];
    var v := score(x);
    assert Group(score, s, v) == Group(score, t, v);
    SnocInjective(Group(score, init, v), x, Group(score, tail, v), y);
    forall w: nat ensures Group(score, init, w) == Group(score, tail, w) {
      GroupInit(score, s, w);
      GroupInit(score, t, w);
    }
  }

  lemma GroupInit(score: Host -> nat, s: seq<Host>, v: nat)
    requires s != []
    ensures Group(score, s, v) ==
      if score(s[|s| - 1]) == v then Group(score, s[..|s| - 1], v) + [s[|s| - 1]] else Group(score, s[..|s| - 1], v)
  {
  }

  lemma SnocInjective(a: seq<Host>, x: Host, b: seq<Host>, y: Host)
    requires a + [x] == b + [y]
    ensures a == b && x == y
  {
    var s, t := a + [x], b + [y];
    assert x == s[|s| - 1] && y == t[|t| - 1];
    assert a == s[..|s| - 1] && b == t[..|t| - 1];
  }

  lemma {:induction false} GroupNeedsMember(score: Host -> nat, s: seq<Host>, v: nat)
    ensures Group(score, s, v) != [] ==> exists h <- s :: score(h) == v
  {
    if s != [] && score(s[|s| - 1]) != v {
      GroupNeedsMember(score, s[..|s| - 1], v);
      if h :| h in s[..|s| - 1] && score(h) == v { assert h in s; }
    }
  }

  function ScoreBy(parse: Parser, locals: seq<IfAddr>): Host -> nat {
    h => AddrScore(parse, h, locals)
  }

  function Ranked(parse: Parser, candidates: seq<Host>, locals: seq<IfAddr>): seq<Host> {
    Sort(ScoreBy(parse, locals), Distinct(candidates))
  }

  method RankPeerAddrs(parse: Parser, candidates: seq<Host>, locals: seq<IfAddr>) returns (ranked: seq<Host>)
    ensures ranked == Ranked(parse, candidates, locals)
  {
    var out: seq<Host> := [];
    for i := 0 to |candidates|
      invariant out == Distinct(candidates[..i])
    {
      var c := candidates[i];
      assert candidates[..i + 1][..i] == candidates[..i];
      if c == "" { continue; }
      if c in out { continue; }
      out := out + [c];
    }
    assert candidates[..|candidates|] == candidates;
    ranked := Sort(ScoreBy(parse, locals), out);
  }

  /** The ranking holds each non-empty candidate once. */
  lemma RankedMembers(parse: Parser, candidates: seq<Host>, locals: seq<IfAddr>)
    ensures NoRepeats(Ranked(parse, candidates, locals))
    ensures forall h :: h in Ranked(parse, candidates, locals) <==> h in candidates && h != ""
  {
    DistinctMeaning(candidates);
    SortMeaning(ScoreBy(parse, locals), Distinct(candidates));
    SameMultiset(Ranked(parse, candidates, locals), Distinct(candidates));
  }

  /** It is the one sequence that is ordered by score and keeps candidates of equal score in the order of
      their first occurrence. */
  lemma RankedIsTheStableOrder(parse: Parser, candidates: seq<Host>, locals: seq<IfAddr>, r: seq<Host>)
    ensures r == Ranked(parse, candidates, locals) <==>
      && Ordered(ScoreBy(parse, locals), r)
      && SameGroups(ScoreBy(parse, locals), r, Distinct(candidates))
  {
    SortIsTheStableOrder(ScoreBy(parse, locals), Distinct(candidates), r);
  }

  lemma SortIsTheStableOrder(score: Host -> nat, d: seq<Host>, r: seq<Host>)
    ensures r == Sort(score, d) <==> Ordered(score, r) && SameGroups(score, r, d)
  {
    SortMeaning(score, d);
    assert SameGroups(score, Sort(score, d), d);
    if Ordered(score, r) && SameGroups(score, r, d) {
      assert SameGroups(score, r, Sort(score, d));
      StableSortUnique(score, r, Sort(score, d));
    }
  }

  lemma SameMultiset(s: seq<Host>, t: seq<Host>)
    requires multiset(s) == multiset(t) && NoRepeats(t)
    ensures NoRepeats(s)
    ensures forall h :: h in s <==> h in t
  {
    forall h ensures h in s <==> h in t {
      assert h in multiset(s) <==> h in multiset(t);
    }
    forall i, j | 0 <= i < j < |s| ensures s[i] != s[j] {
      if s[i] == s[j] {
        Twice(s, i, j);
        AtMostOnce(t, s[i]);
      }
    }
  }

  lemma Twice(s: seq<Host>, i: nat, j: nat)
    requires i < j < |s| && s[i] == s[j]
    ensures multiset(s)[s[i]] >= 2
  {
    assert s == s[..j] + s[j..];
    assert s[..j][i] in multiset(s[..j]);
    assert s[j..][0] in multiset(s[j..]);
  }

  lemma {:induction false} AtMostOnce(t: seq<Host>, h: Host)
    requires NoRepeats(t)
    ensures multiset(t)[h] <= 1
  {
    if t != [] {
      var init, last := t[..|t| - 1], t[|t| - 1];
      AtMostOnce(init, h);
      assert t == init + [last];
      if h == last { assert h !in multiset(init); }
    }
  }

  // ---------- the dial plan ----------

  /** `p` is `ranked` with entry `k` moved to the front. */
  predicate LeadsFrom(p: seq<Host>, ranked: seq<Host>, k: nat)
    requires k < |ranked|
  {
    |p| == |ranked| && p[0] == ranked[k] && p[1..] == ranked[..k] + ranked[k + 1..]
  }

  /** A remembered address among the ranked ones leads and the others keep their order; else nothing moves. */
  lemma RouteLeads(ranked: seq<Host>, route: Option<Host>)
    ensures
      var p := PeerLink.Candidates(ranked, route);
      && multiset(p) == multiset(ranked)
      && if route.Some? && route.value in ranked
         then p[0] == route.value && exists k :: 0 <= k < |ranked| && LeadsFrom(p, ranked, k)
         else p == ranked
  {
    if route.Some? && route.value in ranked {
      var k := PeerLink.IndexOf(ranked, route.value);
      assert k < |ranked|;
      RotatedAt(ranked, k);
      assert PeerLink.Candidates(ranked, route) == Rotated(ranked, k);
      assert LeadsFrom(Rotated(ranked, k), ranked, k);
    }
  }

  function Rotated(s: seq<Host>, k: nat): seq<Host>
    requires k < |s|
  {
    [s[k]] + s[..k] + s[k + 1..]
  }

  lemma RotatedAt(s: seq<Host>, k: nat)
    requires k < |s|
    ensures multiset(Rotated(s, k)) == multiset(s)
    ensures Rotated(s, k)[0] == s[k] && Rotated(s, k)[1..] == s[..k] + s[k + 1..]
  {
    var a, b := s[..k], s[k + 1..];
    assert s == a + [s[k]] + b;
    assert multiset([s[k]] + a + b) == multiset(a + [s[k]] + b);
  }

  /** A new dial plan holds each non-empty known address once. */
  lemma PlanHoldsEveryAddress(parse: Parser, addrs: seq<Host>, host: Host, locals: seq<IfAddr>, route: Option<Host>)
    ensures NoRepeats(PeerLink.Candidates(Ranked(parse, Known(addrs, host), locals), route))
    ensures forall h :: h in PeerLink.Candidates(Ranked(parse, Known(addrs, host), locals), route) <==>
      h != "" && (h in addrs || h == host)
  {
    var ranked := Ranked(parse, Known(addrs, host), locals);
    RankedMembers(parse, Known(addrs, host), locals);
    RouteLeads(ranked, route);
    SameMultiset(PeerLink.Candidates(ranked, route), ranked);
  }

  /** Among the known addresses of one score, those announced come first, in their order, and the host of the record
      last, unless it is one of them. */
  lemma HostComesLast(parse: Parser, addrs: seq<Host>, host: Host, locals: seq<IfAddr>, v: nat)
    ensures
      var score := ScoreBy(parse, locals);
      Group(score, Ranked(parse, Known(addrs, host), locals), v) ==
        Group(score, Distinct(addrs), v) +
        if host != "" && host !in addrs && AddrScore(parse, host, locals) == v then [host] else []
  {
    var score := ScoreBy(parse, locals);
    SortGroup(score, Distinct(Known(addrs, host)), v);
    DistinctMeaning(addrs);
    if host != "" {
      assert Known(addrs, host)[..|addrs|] == addrs;
      GroupSnoc(score, Distinct(addrs), host, v);
    }
    assert Group(score, Distinct(addrs), v) + [] == Group(score, Distinct(addrs), v);
  }

  /** The addresses a record offers for dialling. */
  function Known(addrs: seq<Host>, host: Host): seq<Host> {
    if host != "" then addrs + [host] else addrs
  }
}
