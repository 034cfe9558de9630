/** The index of known peers: merging announcements, removal, and pruning of silent peers. */
module PeerRegistry {
  type DeviceId = string
  type Host = string

  datatype Record = Record(
    name: string, host: Host, netmask: string, via: string, port: nat, seen: int, addrs: seq<Host>)

  type Peers = map<DeviceId, Record>

  // ---------- one step ----------

  /** The new addresses first, then the old ones that are not among them. */
  function MergeAddrs(addrs: seq<Host>, known: seq<Host>): seq<Host> {
    if known == [] then addrs
    else
      var m, a := MergeAddrs(addrs, known[..|known| - 1]), known[|known| - 1];
      if a in m then m else m + [a]
  }

  function FirstOr(hs: seq<Host>): Host { if hs == [] then "" else hs[0] }

  /** The announced record, with what it leaves open filled from the known one. */
  function Merged(known: Record, rec: Record, now: int): Record {
    var addrs := MergeAddrs(rec.addrs, known.addrs);
    Record(
      if rec.name != "" then rec.name else known.name,
      if rec.host != "" then rec.host else if known.host != "" then known.host else FirstOr(addrs),
      rec.netmask,
      if rec.via != "" then rec.via else known.via,
      if rec.port != 0 then rec.port else known.port,
      now,
      addrs)
  }

  function Upserted(peers: Peers, d: DeviceId, rec: Record, now: int): Peers {
    peers[d := if d in peers then Merged(peers[d], rec, now) else rec.(seen := now)]
  }

  function Pruned(peers: Peers, timeout: int, now: int): Peers {
    map d | d in peers && now - peers[d].seen <= timeout :: peers[d]
  }

  class PeerRegistry {
    var peers: Peers
    var changes: nat  // times the observer was told

    constructor ()
      ensures peers == map[] && changes == 0
    {
      peers, changes := map[], 0;
    }

    method Upsert(d: DeviceId, rec: Record, now: int)
      modifies this
      ensures peers == Upserted(old(peers), d, rec, now)
      ensures changes == old(changes) + 1
    {
      if d !in peers {
        peers := peers[d := rec.(seen := now)];
        changes := changes + 1;
        return;
      }
      var known := peers[d];
      var merged := rec.addrs;
      for i := 0 to |known.addrs|
        invariant merged == MergeAddrs(rec.addrs, known.addrs[..i])
        invariant peers == old(peers) && changes == old(changes)
      {
        assert known.addrs[..i + 1][..i] == known.addrs[..i];
        if known.addrs[i] !in merged {
          merged := merged + [known.addrs[i]];
        }
      }
      assert known.addrs[..|known.addrs|] == known.addrs;
      var slot := rec.(addrs := merged);
      if slot.name == "" { slot := slot.(name := known.name); }
      if slot.host == "" {
        slot := slot.(host := if known.host != "" then known.host else if slot.addrs == [] then "" else slot.addrs[0]);
      }
      if slot.port == 0 { slot := slot.(port := known.port); }
      if slot.via == "" { slot := slot.(via := known.via); }
      peers := peers[d := slot.(seen := now)];
      changes := changes + 1;
    }

    method Remove(d: DeviceId)
      modifies this
      ensures peers == old(peers) - {d}
      ensures changes == old(changes) + if d in old(peers) then 1 else 0
    {
      if d in peers {
        peers := peers - {d};
        changes := changes + 1;
      }
    }

    method PruneStale(timeout: int, now: int)
      modifies this
      ensures peers == Pruned(old(peers), timeout, now)
      ensures changes == old(changes) + if peers == old(peers) then 0 else 1
    {
      var changed, rest := false, peers.Keys;
      while rest != {}
        invariant rest <= peers.Keys <= old(peers).Keys
        invariant forall d <- peers :: peers[d] == old(peers)[d] && (d in rest || now - peers[d].seen <= timeout)
        invariant forall d <- old(peers) :: d !in peers ==> now - old(peers)[d].seen > timeout
        invariant changed <==> peers != old(peers)
        invariant changes == old(changes)
        decreases |rest|
      {
        var d :| d in rest;
        rest := rest - {d};
        if now - peers[d].seen > timeout {
          peers := peers - {d};
          changed := true;
          assert d in old(peers) && d !in peers;
        }
      }
      if changed { changes := changes + 1; }
    }
  }

  // ---------- runs ----------

  datatype Event =
    | Upsert(id: DeviceId, rec: Record, now: int)
    | Remove(id: DeviceId)
    | Prune(timeout: int, now: int)

  function Step(peers: Peers, e: Event): Peers {
    match e
    case Upsert(d, rec, now) => Upserted(peers, d, rec, now)
    case Remove(d) => peers - {d}
    case Prune(timeout, now) => Pruned(peers, timeout, now)
  }

  function After(run: seq<Event>): Peers {
    if run == [] then map[] else Step(After(run[..|run| - 1]), run[|run| - 1])
  }

  datatype Heard = Never | At(time: int)

  /** When `d` last announced itself. */
  function LastHeard(run: seq<Event>, d: DeviceId): Heard {
    if run == [] then Never
    else
      var e := run[|run| - 1];
      if e.Upsert? && e.id == d then At(e.now) else LastHeard(run[..|run| - 1], d)
  }

  /** Event `i` forgets `d`: it removes it, or prunes when `d` has been silent too long. */
  predicate Drops(run: seq<Event>, i: nat, d: DeviceId)
    requires i < |run|
  {
    match run[i]
    case Upsert(_, _, _) => false
    case Remove(id) => id == d
    case Prune(timeout, now) => LastHeard(run[..i], d).At? && now - LastHeard(run[..i], d).time > timeout
  }

  /** Event `j` announces `d`, and `d` has not been forgotten since. */
  ghost predicate Stands(run: seq<Event>, j: nat, d: DeviceId) {
    && j < |run| && run[j].Upsert? && run[j].id == d
    && forall i :: j < i < |run| ==> !Drops(run, i, d)
  }

  lemma StandsSnoc(run: seq<Event>, j: nat, d: DeviceId)
    requires run != []
    ensures Stands(run, j, d) <==>
      if j == |run| - 1 then run[j].Upsert? && run[j].id == d
      else Stands(run[..|run| - 1], j, d) && !Drops(run, |run| - 1, d)
  {
    var init := run[..|run| - 1];
    forall i: nat | i < |init| ensures Drops(init, i, d) == Drops(run, i, d) {
      assert init[..i] == run[..i];
    }
    if j < |init| && Stands(init, j, d) && !Drops(run, |init|, d) {
      forall i | j < i < |run| ensures !Drops(run, i, d) {
        if i < |init| { assert !Drops(init, i, d); }
      }
    }
    if j < |init| && Stands(run, j, d) {
      forall i | j < i < |init| ensures !Drops(init, i, d) {
        assert !Drops(run, i, d);
      }
    }
  }

  lemma {:induction false} MergeMeaning(addrs: seq<Host>, known: seq<Host>)
    ensures addrs <= MergeAddrs(addrs, known)
    ensures forall a :: a in MergeAddrs(addrs, known) <==> a in addrs || a in known
  {
    if known != [] {
      MergeMeaning(addrs, known[..|known| - 1]);
      assert known == known[..|known| - 1] + [known[|known| - 1]];
    }
  }

  /** A device is known exactly if an announcement of it stands, and then with its latest time of arrival. */
  lemma {:induction false} KnownWhileAnnounced(run: seq<Event>, d: DeviceId)
    ensures d in After(run) <==> exists j: nat :: Stands(run, j, d)
    ensures d in After(run) ==> LastHeard(run, d) == At(After(run)[d].seen)
  {
    if run != [] {
      var init, n := run[..|run| - 1], |run| - 1;
      var e := run[n];
      KnownWhileAnnounced(init, d);
      if d in After(run) {
        if e.Upsert? && e.id == d {
          StandsSnoc(run, n, d);
        } else {
          var j: nat :| Stands(init, j, d);
          StandsSnoc(run, j, d);
        }
      }
      if j: nat :| Stands(run, j, d) {
        StandsSnoc(run, j, d);
      }
    }
  }

  /** Its addresses are the union of all standing announcements: merging loses none and keeps none that
      was announced only before the device was last forgotten. */
  lemma {:induction false} AddressesAreTheUnion(run: seq<Event>, d: DeviceId, a: Host)
    ensures d in After(run) && a in After(run)[d].addrs <==> exists j: nat :: Stands(run, j, d) && a in run[j].rec.addrs
  {
    if run != [] {
      var init, n := run[..|run| - 1], |run| - 1;
      var e := run[n];
      AddressesAreTheUnion(init, d, a);
      KnownWhileAnnounced(init, d);
      if e.Upsert? && d in After(init) { MergeMeaning(e.rec.addrs, After(init)[d].addrs); }
      if d in After(run) && a in After(run)[d].addrs {
        if e.Upsert? && e.id == d && a in e.rec.addrs {
          StandsSnoc(run, n, d);
        } else {
          var j: nat :| Stands(init, j, d) && a in init[j].rec.addrs;
          StandsSnoc(run, j, d);
          assert run[j] == init[j];
        }
      }
      if j: nat :| Stands(run, j, d) && a in run[j].rec.addrs {
        StandsSnoc(run, j, d);
        if j < n { assert run[j] == init[j]; }
      }
    }
  }

  /** A field that an announcement may leave open. */
  datatype Field<!T> = Field(get: Record -> T, open: T)

  ghost predicate Inherits<T(!new)>(f: Field<T>) {
    && (forall known, rec, now ::
          f.get(Merged(known, rec, now)) == if f.get(rec) != f.open then f.get(rec) else f.get(known))
    && forall rec: Record, now :: f.get(rec.(seen := now)) == f.get(rec)
  }

  /** The latest standing announcement that fills `f` says `v`, or none fills it. */
  ghost predicate Latest<T>(run: seq<Event>, d: DeviceId, f: Field<T>, v: T) {
    if v == f.open then forall j: nat :: Stands(run, j, d) ==> f.get(run[j].rec) == f.open
    else exists j: nat ::
        && Stands(run, j, d) && f.get(run[j].rec) == v
        && forall k: nat :: Stands(run, k, d) && k > j ==> f.get(run[k].rec) == f.open
  }

  lemma {:induction false} LatestIsKept<T(!new)>(run: seq<Event>, d: DeviceId, f: Field<T>)
    requires Inherits(f)
    ensures d in After(run) ==> Latest(run, d, f, f.get(After(run)[d]))
  {
    if run != [] && d in After(run) {
      var init, n := run[..|run| - 1], |run| - 1;
      var e := run[n];
      LatestIsKept(init, d, f);
      KnownWhileAnnounced(init, d);
      forall j: nat ensures Stands(run, j, d) <==>
          if j == n then e.Upsert? && e.id == d else Stands(init, j, d) && !Drops(run, n, d)
      {
        StandsSnoc(run, j, d);
      }
      var v := f.get(After(run)[d]);
      if v != f.open {
        if e.Upsert? && e.id == d && f.get(e.rec) != f.open {
          assert Stands(run, n, d);
        } else if d in After(init) {
          var j: nat :| Stands(init, j, d) && f.get(init[j].rec) == v
            && forall k: nat :: Stands(init, k, d) && k > j ==> f.get(init[k].rec) == f.open;
          assert Stands(run, j, d) && run[j] == init[j];
        }
      }
    }
  }

  const NAME: Field<string> := Field((r: Record) => r.name, "")
  const VIA: Field<string> := Field((r: Record) => r.via, "")
  const PORT: Field<nat> := Field((r: Record) => r.port, 0)

  /** Name, transport and port of a known device are the latest ones announced and not left open. */
  lemma FieldsAreTheLatest(run: seq<Event>, d: DeviceId)
    requires d in After(run)
    ensures Latest(run, d, NAME, After(run)[d].name)
    ensures Latest(run, d, VIA, After(run)[d].via)
    ensures Latest(run, d, PORT, After(run)[d].port)
  {
    LatestIsKept(run, d, NAME);
    LatestIsKept(run, d, VIA);
    LatestIsKept(run, d, PORT);
  }

  /** The netmask is always the latest standing announcement's, even if that leaves it open. */
  lemma {:induction false} NetmaskIsTheLatest(run: seq<Event>, d: DeviceId)
    requires d in After(run)
    ensures exists j: nat :: Newest(run, j, d) && After(run)[d].netmask == run[j].rec.netmask
  {
    var init, n := run[..|run| - 1], |run| - 1;
    var e := run[n];
    if e.Upsert? && e.id == d {
      StandsSnoc(run, n, d);
      assert Newest(run, n, d);
    } else {
      NetmaskIsTheLatest(init, d);
      KnownWhileAnnounced(init, d);
      var j: nat :| Newest(init, j, d) && After(init)[d].netmask == init[j].rec.netmask;
      forall k: nat ensures Stands(run, k, d) <==> Stands(init, k, d) {
        StandsSnoc(run, k, d);
      }
      assert Newest(run, j, d) && run[j] == init[j];
    }
  }

  ghost predicate Newest(run: seq<Event>, j: nat, d: DeviceId) {
    Stands(run, j, d) && forall k: nat :: Stands(run, k, d) ==> k <= j
  }

  predicate FirstAt(s: seq<Host>, a: Host, k: nat) { k < |s| && s[k] == a && a !in s[..k] }

  /** Announced addresses come first, as announced; behind them, once each, those known before, in their order. */
  lemma {:induction false} MergeInOrder(addrs: seq<Host>, known: seq<Host>, i: nat, j: nat, k: nat, m: nat)
    requires |addrs| <= i < j < |MergeAddrs(addrs, known)|
    requires FirstAt(known, MergeAddrs(addrs, known)[i], k) && FirstAt(known, MergeAddrs(addrs, known)[j], m)
    ensures k < m
  {
    var init, a := known[..|known| - 1], known[|known| - 1];
    var merged := MergeAddrs(addrs, known);
    assert known == init + [a];
    MergeMeaning(addrs, init);
    MergedBehind(addrs, init, i);
    FirstInInit(known, merged[i], k);
    if j < |MergeAddrs(addrs, init)| {
      MergedBehind(addrs, init, j);
      FirstInInit(known, merged[j], m);
      MergeInOrder(addrs, init, i, j, k, m);
    } else {
      assert a !in init;
    }
  }

  lemma {:induction false} MergedBehind(addrs: seq<Host>, known: seq<Host>, i: nat)
    requires |addrs| <= i < |MergeAddrs(addrs, known)|
    ensures MergeAddrs(addrs, known)[i] in known
  {
    var init := known[..|known| - 1];
    assert known == init + [known[|known| - 1]];
    if i < |MergeAddrs(addrs, init)| { MergedBehind(addrs, init, i); }
  }

  lemma FirstInInit(s: seq<Host>, a: Host, k: nat)
    requires s != [] && FirstAt(s, a, k) && a in s[..|s| - 1]
    ensures FirstAt(s[..|s| - 1], a, k)
  {
    if k < |s| - 1 { assert s[..|s| - 1][..k] == s[..k]; }
  }

  // ---------- the host ----------

  /** Announcement `j` of `d` stands and was not the first one on record. */
  ghost predicate Repeats(run: seq<Event>, j: nat, d: DeviceId) { Stands(run, j, d) && d in After(run[..j]) }

  /** First address known after event `j`. */
  function FirstKnown(run: seq<Event>, j: nat, d: DeviceId): Host
    requires j < |run|
  {
    if d in After(run[..j + 1]) then FirstOr(After(run[..j + 1])[d].addrs) else ""
  }

  /** No standing announcement names a host. */
  ghost predicate Unnamed(run: seq<Event>, d: DeviceId) { forall j: nat :: Stands(run, j, d) ==> run[j].rec.host == "" }

  /** `host` is what the earliest repeated announcement that knew an address made of it, or nothing if none did. */
  ghost predicate Guessed(run: seq<Event>, d: DeviceId, host: Host) {
    if host == "" then forall j: nat :: Repeats(run, j, d) ==> FirstKnown(run, j, d) == ""
    else exists j: nat ::
        && Repeats(run, j, d) && FirstKnown(run, j, d) == host
        && forall k: nat :: k < j && Repeats(run, k, d) ==> FirstKnown(run, k, d) == ""
  }

  /** The latest standing announcement that names a host names `host`. */
  ghost predicate Named(run: seq<Event>, d: DeviceId, host: Host) {
    exists j: nat ::
      && Stands(run, j, d) && run[j].rec.host == host != ""
      && forall k: nat :: Stands(run, k, d) && k > j ==> run[k].rec.host == ""
  }

  lemma RepeatsSnoc(run: seq<Event>, j: nat, d: DeviceId)
    requires run != []
    ensures
      var n := |run| - 1;
      Repeats(run, j, d) <==>
        if j == n then run[n].Upsert? && run[n].id == d && d in After(run[..n])
        else Repeats(run[..n], j, d) && !Drops(run, n, d)
    ensures j < |run| - 1 ==> FirstKnown(run, j, d) == FirstKnown(run[..|run| - 1], j, d)
  {
    StandsSnoc(run, j, d);
    if j < |run| - 1 {
      assert run[..|run| - 1][..j] == run[..j] && run[..|run| - 1][..j + 1] == run[..j + 1];
    }
  }

  /** The host of a known device is the latest one that a standing announcement names; if none names one, it is
      the first address known at the earliest repeated announcement at which one was known. */
  lemma {:induction false} HostIsNamedOrGuessed(run: seq<Event>, d: DeviceId)
    requires d in After(run)
    ensures if Unnamed(run, d) then Guessed(run, d, After(run)[d].host) else Named(run, d, After(run)[d].host)
  {
    var init, n := run[..|run| - 1], |run| - 1;
    var e := run[n];
    assert run[..n + 1] == run;
    if e.Upsert? && e.id == d {
      if d in After(init) {
        HostIsNamedOrGuessed(init, d);
        HostMerged(run, d);
      } else {
        HostInserted(run, d);
      }
    } else {
      HostIsNamedOrGuessed(init, d);
      HostKept(run, d);
    }
  }

  lemma HostInserted(run: seq<Event>, d: DeviceId)
    requires run != [] && run[|run| - 1].Upsert? && run[|run| - 1].id == d && d !in After(run[..|run| - 1])
    ensures if Unnamed(run, d) then Guessed(run, d, After(run)[d].host) else Named(run, d, After(run)[d].host)
  {
    var init, n := run[..|run| - 1], |run| - 1;
    KnownWhileAnnounced(init, d);
    forall j: nat ensures Stands(run, j, d) <==> j == n {
      StandsSnoc(run, j, d);
    }
    forall j: nat ensures !Repeats(run, j, d) {
      RepeatsSnoc(run, j, d);
    }
  }

  lemma HostMerged(run: seq<Event>, d: DeviceId)
    requires run != [] && run[|run| - 1].Upsert? && run[|run| - 1].id == d && d in After(run[..|run| - 1])
    requires
      var init := run[..|run| - 1];
      if Unnamed(init, d) then Guessed(init, d, After(init)[d].host) else Named(init, d, After(init)[d].host)
    ensures if Unnamed(run, d) then Guessed(run, d, After(run)[d].host) else Named(run, d, After(run)[d].host)
  {
    var init, n := run[..|run| - 1], |run| - 1;
    var was, now := After(init)[d].host, After(run)[d].host;
    forall j: nat ensures Stands(run, j, d) <==> j == n || Stands(init, j, d) {
      StandsSnoc(run, j, d);
    }
    if run[n].rec.host != "" {
      assert Stands(run, n, d);
    } else if Unnamed(init, d) {
      UnnamedSnoc(run, d);
      HostOfRepeat(run, d);
      GuessedSnoc(run, d, was, now);
    } else {
      NameGoesOn(run, d, was);
    }
  }

  lemma NameGoesOn(run: seq<Event>, d: DeviceId, host: Host)
    requires run != [] && run[|run| - 1].Upsert? && run[|run| - 1].rec.host == "" && Named(run[..|run| - 1], d, host)
    requires forall j: nat :: Stands(run, j, d) <==> j == |run| - 1 || Stands(run[..|run| - 1], j, d)
    ensures Named(run, d, host) && !Unnamed(run, d)
  {
    var init := run[..|run| - 1];
    var j: nat :| Stands(init, j, d) && init[j].rec.host == host != ""
      && forall k: nat :: Stands(init, k, d) && k > j ==> init[k].rec.host == "";
    assert Stands(run, j, d) && run[j] == init[j];
    forall k: nat | Stands(run, k, d) && k > j ensures run[k].rec.host == "" {
      if k < |init| { assert Stands(init, k, d) && run[k] == init[k]; }
    }
  }

  lemma GuessedSnoc(run: seq<Event>, d: DeviceId, was: Host, now: Host)
    requires run != [] && run[|run| - 1].Upsert? && run[|run| - 1].id == d && d in After(run[..|run| - 1])
    requires Guessed(run[..|run| - 1], d, was)
    requires now == if was != "" then was else FirstKnown(run, |run| - 1, d)
    ensures Guessed(run, d, now)
  {
    OneMoreRepeat(run, d);
    GuessGoesOn(run, d, was, now);
  }

  lemma OneMoreRepeat(run: seq<Event>, d: DeviceId)
    requires run != [] && run[|run| - 1].Upsert? && run[|run| - 1].id == d && d in After(run[..|run| - 1])
    ensures forall j: nat :: Repeats(run, j, d) <==> j == |run| - 1 || Repeats(run[..|run| - 1], j, d)
    ensures forall j: nat :: j < |run| - 1 ==> FirstKnown(run, j, d) == FirstKnown(run[..|run| - 1], j, d)
  {
    var init, n := run[..|run| - 1], |run| - 1;
    forall j: nat ensures Repeats(run, j, d) <==> j == n || Repeats(init, j, d) {
      RepeatsSnoc(run, j, d);
    }
    forall j: nat | j < n ensures FirstKnown(run, j, d) == FirstKnown(init, j, d) {
      RepeatsSnoc(run, j, d);
    }
  }

  lemma UnnamedSnoc(run: seq<Event>, d: DeviceId)
    requires run != [] && run[|run| - 1].Upsert? && run[|run| - 1].rec.host == "" && Unnamed(run[..|run| - 1], d)
    ensures Unnamed(run, d)
  {
    var n := |run| - 1;
    forall j: nat | Stands(run, j, d) ensures run[j].rec.host == "" {
      StandsSnoc(run, j, d);
      if j < n { assert run[j] == run[..n][j]; }
    }
  }

  /** A repeated announcement without a host keeps the known one, or guesses. */
  lemma HostOfRepeat(run: seq<Event>, d: DeviceId)
    requires run != [] && run[|run| - 1].Upsert? && run[|run| - 1].id == d && d in After(run[..|run| - 1])
    requires run[|run| - 1].rec.host == ""
    ensures
      var was := After(run[..|run| - 1])[d].host;
      After(run)[d].host == if was != "" then was else FirstKnown(run, |run| - 1, d)
  {
    assert run[..|run| - 1 + 1] == run;
  }

  lemma GuessGoesOn(run: seq<Event>, d: DeviceId, was: Host, now: Host)
    requires run != [] && Guessed(run[..|run| - 1], d, was)
    requires now == if was != "" then was else FirstKnown(run, |run| - 1, d)
    requires forall j: nat :: Repeats(run, j, d) <==> j == |run| - 1 || Repeats(run[..|run| - 1], j, d)
    requires forall j: nat :: j < |run| - 1 ==> FirstKnown(run, j, d) == FirstKnown(run[..|run| - 1], j, d)
    ensures Guessed(run, d, now)
  {
    var init, n := run[..|run| - 1], |run| - 1;
    assert Repeats(run, n, d);
    if was != "" {
      var j: nat :| Repeats(init, j, d) && FirstKnown(init, j, d) == was
        && forall k: nat :: k < j && Repeats(init, k, d) ==> FirstKnown(init, k, d) == "";
      assert Repeats(run, j, d);
    }
  }

  lemma HostKept(run: seq<Event>, d: DeviceId)
    requires run != [] && d in After(run) && !(run[|run| - 1].Upsert? && run[|run| - 1].id == d)
    requires
      var init := run[..|run| - 1];
      if Unnamed(init, d) then Guessed(init, d, After(init)[d].host) else Named(init, d, After(init)[d].host)
    ensures if Unnamed(run, d) then Guessed(run, d, After(run)[d].host) else Named(run, d, After(run)[d].host)
  {
    var init, n := run[..|run| - 1], |run| - 1;
    KnownWhileAnnounced(init, d);
    assert !Drops(run, n, d);
    var host := After(run)[d].host;
    forall j: nat ensures Stands(run, j, d) <==> Stands(init, j, d) {
      StandsSnoc(run, j, d);
    }
    forall j: nat | j < n ensures run[j] == init[j] {
    }
    if Unnamed(init, d) {
      GuessKept(run, d, host);
    } else {
      var j: nat :| Stands(init, j, d) && init[j].rec.host == host != ""
        && forall k: nat :: Stands(init, k, d) && k > j ==> init[k].rec.host == "";
      assert Stands(run, j, d);
    }
  }

  lemma GuessKept(run: seq<Event>, d: DeviceId, host: Host)
    requires run != [] && !(run[|run| - 1].Upsert? && run[|run| - 1].id == d) && !Drops(run, |run| - 1, d)
    requires Guessed(run[..|run| - 1], d, host)
    ensures Guessed(run, d, host)
  {
    var init, n := run[..|run| - 1], |run| - 1;
    forall j: nat ensures Repeats(run, j, d) <==> Repeats(init, j, d) {
      RepeatsSnoc(run, j, d);
    }
    forall j: nat | j < n ensures FirstKnown(run, j, d) == FirstKnown(init, j, d) {
      RepeatsSnoc(run, j, d);
    }
    if host != "" {
      var j: nat :| Repeats(init, j, d) && FirstKnown(init, j, d) == host
        && forall k: nat :: k < j && Repeats(init, k, d) ==> FirstKnown(init, k, d) == "";
      assert Repeats(run, j, d);
    }
  }
}
