/** Envelopes between daemons that share a passphrase: the body is sealed, the envelope is signed, and the
    receiver checks the time window, replays and the signature before it opens the body. */
module Envelope {
  import opened Options

  type Dict = map<string, Value>

  datatype Value = Str(s: string) | Int(n: int) | Sub(fields: map<string, Value>) | Other(text: string)

  type Int64 = n: int | -0x8000_0000_0000_0000 <= n < 0x8000_0000_0000_0000

  const WINDOW: int := 120_000  // milliseconds
  const SEEN_CAP: nat := 65536

  /** The text forms of objects and numbers. */
  datatype Texts = Texts(
    write: Dict -> string,
    read: string -> Option<Dict>,
    show: Int64 -> string,
    int64: string -> Option<Int64>)

  datatype Box = Box(ct: string, iv: string)

  /** The keyed operations, once a passphrase is set; encryption takes its random bytes as an argument. */
  datatype Keys = Keys(
    enabled: bool,
    encrypt: (string, string) -> Option<Box>,
    decrypt: Box -> Option<string>,
    hmac: string -> seq<int>,
    toHex: seq<int> -> string,
    fromHex: string -> Option<seq<int>>)

  ghost predicate LawfulTexts(t: Texts) {
    && (forall d :: t.read(t.write(d)) == Some(d) && '\n' !in t.write(d))
    && (forall n: Int64 :: t.int64(t.show(n)) == Some(n))
    && (forall s :: t.int64(s).Some? ==> s != "" && '\n' !in s)
  }

  ghost predicate LawfulKeys(k: Keys) {
    && (forall plain, rnd :: k.encrypt(plain, rnd).Some? && Opens(k, k.encrypt(plain, rnd).value, plain))
    && (forall text :: |k.hmac(text)| == 32)
    && (forall b :: k.fromHex(k.toHex(b)) == Some(b))
    && (forall b :: b != [] ==> k.toHex(b) != "")
  }

  predicate Opens(k: Keys, box: Box, plain: string) {
    box.ct != "" && box.iv != "" && k.decrypt(box) == Some(plain)
  }

  // ---------- fields ----------

  function FindString(d: Dict, key: string): Option<string> {
    if key in d && d[key].Str? then Some(d[key].s) else None
  }

  function GetStr(d: Dict, key: string): string {
    if FindString(d, key).Some? then FindString(d, key).value else ""
  }

  // ---------- the body ----------

  /** Encrypts the body in place and marks it, unless there is nothing to encrypt or it is marked already. */
  function Seal(k: Keys, pkt: Dict, rnd: string): Dict {
    var body := FindString(pkt, "body");
    if !k.enabled || FindString(pkt, "enc").Some? || body.None? || body.value == "" then pkt
    else
      match k.encrypt(body.value, rnd)
      case None => pkt
      case Some(box) => pkt["body" := Str(box.ct)]["iv" := Str(box.iv)]["enc" := Str("aesgcm")]
  }

  /** Opens a marked body; `None` if it cannot be opened. */
  function Open(k: Keys, pkt: Dict): Option<Dict> {
    var box := Box(GetStr(pkt, "body"), GetStr(pkt, "iv"));
    if !k.enabled || FindString(pkt, "enc") != Some("aesgcm") || box.ct == "" || box.iv == "" then None
    else
      match k.decrypt(box)
      case None => None
      case Some(plain) => Some(pkt["body" := Str(plain)] - {"iv", "enc"})
  }

  // ---------- the signature ----------

  function MacInput(body: string, ts: string, nonce: string): string {
    body + "\n" + "ts=" + ts + "\n" + "nonce=" + nonce
  }

  function Sign(k: Keys, body: string, ts: string, nonce: string): string {
    k.toHex(k.hmac(MacInput(body, ts, nonce)))
  }

  predicate Verify(k: Keys, body: string, ts: string, nonce: string, sig: string) {
    && k.enabled && sig != ""
    && k.fromHex(sig) == Some(k.hmac(MacInput(body, ts, nonce))) && |k.fromHex(sig).value| == 32
  }

  // ---------- sending ----------

  /** What a daemon puts on the wire, before signing. */
  function Relay(ns: string, from: string, pkt: Dict, innerNs: string, innerM: string, host: string, port: int): Dict {
    map["ns" := Str(ns), "m" := Str("relay"), "fromId" := Str(from), "pkt" := Sub(pkt), "innerNs" := Str(innerNs),
        "innerM" := Str(innerM), "v" := Int(1), "dir" := Str("req"), "fromHost" := Str(host), "fromPort" := Int(port)]
  }

  function Signed(k: Keys, t: Texts, relay: Dict, now: Int64, nonce: string): Dict {
    if !k.enabled then relay
    else
      var sig := Sign(k, t.write(relay - {"ts", "nonce"}), t.show(now), nonce);
      relay["sig" := Str(sig)]["ts" := Str(t.show(now))]["nonce" := Str(nonce)]
  }

  /** A chat message as it leaves: sealed, wrapped, signed, written. */
  function SendMessage(
      k: Keys, t: Texts, from: string, pkt: Dict, rnd: string, host: string, port: int, now: Int64,
      nonce: string): string {
    t.write(Signed(k, t, Relay("message", from, Seal(k, pkt, rnd), "message", "relay", host, port), now, nonce))
  }

  // ---------- receiving ----------

  function Key(from: string, nonce: string): string { from + "|" + nonce }

  /** The envelope carries all four fields and is neither too old nor too new. */
  predicate Timely(t: Texts, d: Dict, now: Int64) {
    && GetStr(d, "fromId") != "" && GetStr(d, "ts") != "" && GetStr(d, "nonce") != "" && GetStr(d, "sig") != ""
    && t.int64(GetStr(d, "ts")).Some?
    && t.int64(GetStr(d, "ts")).value - WINDOW <= now <= t.int64(GetStr(d, "ts")).value + WINDOW
  }

  predicate SignatureHolds(k: Keys, t: Texts, d: Dict) {
    Verify(k, t.write(d - {"ts", "nonce", "sig"}), GetStr(d, "ts"), GetStr(d, "nonce"), GetStr(d, "sig"))
  }

  datatype Verdict = Verdict(ok: bool, seen: set<string>)

  function KeyOf(d: Dict): string { Key(GetStr(d, "fromId"), GetStr(d, "nonce")) }

  function Pruned(seen: set<string>): set<string> { if |seen| > SEEN_CAP then {} else seen }

  /** Checks one frame; what is remembered grows by every timely frame, whether or not its signature holds. */
  function VerifyFrame(k: Keys, t: Texts, seen: set<string>, json: string, now: Int64): Verdict {
    if !k.enabled then Verdict(true, seen) else
    match t.read(json)
    case None => Verdict(false, seen)
    case Some(d) =>
      if !Timely(t, d, now) then Verdict(false, seen)
      else Verdict(KeyOf(d) !in Pruned(seen) && SignatureHolds(k, t, d), Pruned(seen) + {KeyOf(d)})
  }

  datatype Chat = Chat(from: string, pkt: Dict)

  /** What an accepted message envelope delivers: nothing if it is malformed, one's own, or cannot be opened. */
  function Inbound(k: Keys, t: Texts, self: string, json: string): Option<Chat> {
    match t.read(json)
    case None => None
    case Some(d) =>
      var from := GetStr(d, "fromId");
      if from == "" || from == self || "pkt" !in d || !d["pkt"].Sub? then None
      else
        var pkt := d["pkt"].fields;
        if GetStr(pkt, "ackOf") != "" then None  // a delivery receipt
        else if !k.enabled || FindString(pkt, "enc") != Some("aesgcm") then Some(Chat(from, pkt))
        else
          match Open(k, pkt)
          case None => None
          case Some(chat) => Some(Chat(from, chat))
  }

  class PeerGate {
    const k: Keys
    const t: Texts
    var seen: set<string>

    constructor (k: Keys, t: Texts)
      ensures this.k == k && this.t == t && seen == {}
    {
      this.k, this.t, seen := k, t, {};
    }

    method VerifyPeerFrame(json: string, now: Int64) returns (ok: bool)
      modifies this
      ensures Verdict(ok, seen) == VerifyFrame(k, t, old(seen), json, now)
    {
      if !k.enabled { return true; }
      var parsed := t.read(json);
      if parsed.None? { return false; }
      var d := parsed.value;
      var from, ts, nonce, sig := GetStr(d, "fromId"), GetStr(d, "ts"), GetStr(d, "nonce"), GetStr(d, "sig");
      if from == "" || ts == "" || nonce == "" || sig == "" { return false; }
      var time := t.int64(ts);
      if time.None? { return false; }
      if now < time.value - WINDOW || now > time.value + WINDOW { return false; }
      if |seen| > SEEN_CAP { seen := {}; }
      var key := from + "|" + nonce;
      if key in seen {
        assert seen + {key} == seen;
        return false;
      }
      seen := seen + {key};
      return Verify(k, t.write(d - {"ts", "nonce", "sig"}), ts, nonce, sig);
    }
  }

  // ---------- sealing ----------

  /** Sealing twice is sealing once. */
  lemma SealTwice(k: Keys, pkt: Dict, rnd: string, again: string)
    requires LawfulKeys(k)
    ensures Seal(k, Seal(k, pkt, rnd), again) == Seal(k, pkt, rnd)
  {
    if Seal(k, pkt, rnd) != pkt {
      assert FindString(Seal(k, pkt, rnd), "enc") == Some("aesgcm");
    }
  }

  /** What is sealed opens again, and to the very packet exactly if that had no marks of its own. */
  lemma OpenSealed(k: Keys, pkt: Dict, rnd: string)
    requires LawfulKeys(k) && k.enabled
    requires FindString(pkt, "enc").None? && GetStr(pkt, "body") != ""
    ensures Open(k, Seal(k, pkt, rnd)) == Some(pkt - {"iv", "enc"})
    ensures Open(k, Seal(k, pkt, rnd)) == Some(pkt) <==> "iv" !in pkt && "enc" !in pkt
  {
    var body := pkt["body"].s;
    var box := k.encrypt(body, rnd).value;
    assert Opens(k, box, body);
    var s := Seal(k, pkt, rnd);
    assert GetStr(s, "body") == box.ct && GetStr(s, "iv") == box.iv && FindString(s, "enc") == Some("aesgcm");
    assert Box(GetStr(s, "body"), GetStr(s, "iv")) == box;
    assert Open(k, s) == Some(s["body" := Str(body)] - {"iv", "enc"});
    assert s["body" := Str(body)] - {"iv", "enc"} == pkt - {"iv", "enc"};
    if "iv" in pkt { assert "iv" !in pkt - {"iv", "enc"}; }
    if "enc" in pkt { assert "enc" !in pkt - {"iv", "enc"}; }
    if "iv" !in pkt && "enc" !in pkt { assert pkt - {"iv", "enc"} == pkt; }
  }

  // ---------- signing ----------

  lemma CutAtNewline(a: string, x: string, b: string, y: string)
    requires '\n' !in a && '\n' !in b && a + "\n" + x == b + "\n" + y
    ensures a == b && x == y
  {
    var s, u := a + "\n" + x, b + "\n" + y;
    LineEndIs(a, x);
    LineEndIs(b, y);
    assert a == s[..|a|] && b == u[..|b|];
    assert x == s[|a| + 1..] && y == u[|b| + 1..];
  }

  /** Position of the first line feed. */
  function LineEnd(s: string): nat { if s == "" || s[0] == '\n' then 0 else 1 + LineEnd(s[1..]) }

  lemma {:induction false} LineEndIs(a: string, x: string)
    requires '\n' !in a
    ensures LineEnd(a + "\n" + x) == |a|
  {
    var s := a + "\n" + x;
    if a != "" {
      assert s[0] == a[0] && a[0] in a;
      assert s[1..] == a[1..] + "\n" + x;
      LineEndIs(a[1..], x);
    }
  }

  lemma DropPrefix(p: string, x: string, y: string)
    requires p + x == p + y
    ensures x == y
  {
    assert x == (p + x)[|p|..] && y == (p + y)[|p|..];
  }

  /** The authenticated text determines body, time and nonce as long as body and time have no line feed. */
  lemma MacInputInjective(b1: string, t1: string, n1: string, b2: string, t2: string, n2: string)
    requires '\n' !in b1 && '\n' !in b2 && '\n' !in t1 && '\n' !in t2
    ensures MacInput(b1, t1, n1) == MacInput(b2, t2, n2) <==> b1 == b2 && t1 == t2 && n1 == n2
  {
    if MacInput(b1, t1, n1) == MacInput(b2, t2, n2) {
      var r1, r2 := t1 + "\n" + ("nonce=" + n1), t2 + "\n" + ("nonce=" + n2);
      assert MacInput(b1, t1, n1) == b1 + "\n" + ("ts=" + r1);
      assert MacInput(b2, t2, n2) == b2 + "\n" + ("ts=" + r2);
      CutAtNewline(b1, "ts=" + r1, b2, "ts=" + r2);
      DropPrefix("ts=", r1, r2);
      CutAtNewline(t1, "nonce=" + n1, t2, "nonce=" + n2);
      DropPrefix("nonce=", n1, n2);
    }
  }

  /** What a signed envelope reads as. */
  lemma SignedFields(k: Keys, t: Texts, relay: Dict, now: Int64, nonce: string)
    requires k.enabled && relay.Keys !! {"ts", "nonce", "sig"}
    ensures
      var d := Signed(k, t, relay, now, nonce);
      && d - {"ts", "nonce", "sig"} == relay && relay - {"ts", "nonce"} == relay
      && GetStr(d, "ts") == t.show(now) && GetStr(d, "nonce") == nonce
      && GetStr(d, "sig") == Sign(k, t.write(relay), t.show(now), nonce)
      && GetStr(d, "fromId") == GetStr(relay, "fromId")
  {
    assert relay - {"ts", "nonce"} == relay;
  }

  /** An honest frame is accepted exactly if it arrives within two minutes and its sender and nonce are not
      among those remembered, which are forgotten first if they are too many. */
  lemma HonestFrameAccepted(k: Keys, t: Texts, relay: Dict, sent: Int64, nonce: string, seen: set<string>, now: Int64)
    requires LawfulKeys(k) && LawfulTexts(t) && k.enabled
    requires relay.Keys !! {"ts", "nonce", "sig"} && GetStr(relay, "fromId") != "" && nonce != ""
    ensures VerifyFrame(k, t, seen, t.write(Signed(k, t, relay, sent, nonce)), now).ok <==>
      sent - 120_000 <= now <= sent + 120_000 && (|seen| > 65536 || GetStr(relay, "fromId") + "|" + nonce !in seen)
  {
    var d := Signed(k, t, relay, sent, nonce);
    SignedFields(k, t, relay, sent, nonce);
    assert t.read(t.write(d)) == Some(d);
    assert t.int64(t.show(sent)) == Some(sent);
    var mac := k.hmac(MacInput(t.write(relay), t.show(sent), nonce));
    assert |mac| == 32 && k.fromHex(k.toHex(mac)) == Some(mac);
  }

  /** Sealed and signed by one daemon, verified and opened by another with the same key within two minutes:
      a chat message arrives as it was. */
  lemma MessageRoundTrip(
    k: Keys, t: Texts, from: string, self: string, pkt: Dict, rnd: string, host: string, port: int,
    sent: Int64, nonce: string, seen: set<string>, now: Int64)
    requires LawfulKeys(k) && LawfulTexts(t) && k.enabled
    requires from != "" && from != self && nonce != ""
    requires GetStr(pkt, "body") != "" && "iv" !in pkt && "enc" !in pkt && GetStr(pkt, "ackOf") == ""
    requires sent - 120_000 <= now <= sent + 120_000 && from + "|" + nonce !in seen
    ensures
      var json := SendMessage(k, t, from, pkt, rnd, host, port, sent, nonce);
      && VerifyFrame(k, t, seen, json, now).ok
      && Inbound(k, t, self, json) == Some(Chat(from, pkt))
  {
    var sealed := Seal(k, pkt, rnd);
    var relay := Relay("message", from, sealed, "message", "relay", host, port);
    RelayFields("message", from, sealed, "message", "relay", host, port);
    var d := Signed(k, t, relay, sent, nonce);
    assert VerifyFrame(k, t, seen, t.write(d), now).ok by {
      HonestFrameAccepted(k, t, relay, sent, nonce, seen, now);
    }
    assert GetStr(d, "fromId") == from && "pkt" in d && d["pkt"] == Sub(sealed) by {
      SignedFields(k, t, relay, sent, nonce);
      SignedKeeps(k, t, relay, sent, nonce, "pkt");
    }
    assert t.read(t.write(d)) == Some(d);
    assert Open(k, sealed) == Some(pkt) by {
      OpenSealed(k, pkt, rnd);
    }
    SealedFields(k, pkt, rnd);
    InboundOpens(k, t, self, t.write(d), d, from, sealed, pkt);
  }

  lemma RelayFields(ns: string, from: string, pkt: Dict, innerNs: string, innerM: string, host: string, port: int)
    ensures
      var relay := Relay(ns, from, pkt, innerNs, innerM, host, port);
      && FindString(relay, "fromId") == Some(from) && "pkt" in relay && relay["pkt"] == Sub(pkt)
      && relay.Keys !! {"ts", "nonce", "sig"}
  {
  }

  lemma InboundOpens(k: Keys, t: Texts, self: string, json: string, d: Dict, from: string, sealed: Dict, pkt: Dict)
    requires t.read(json) == Some(d) && GetStr(d, "fromId") == from && from != "" && from != self && k.enabled
    requires "pkt" in d && d["pkt"] == Sub(sealed) && GetStr(sealed, "ackOf") == ""
    requires FindString(sealed, "enc") == Some("aesgcm") && Open(k, sealed) == Some(pkt)
    ensures Inbound(k, t, self, json) == Some(Chat(from, pkt))
  {
  }

  lemma SignedKeeps(k: Keys, t: Texts, relay: Dict, now: Int64, nonce: string, key: string)
    requires key in relay && key !in {"ts", "nonce", "sig"}
    ensures key in Signed(k, t, relay, now, nonce) && Signed(k, t, relay, now, nonce)[key] == relay[key]
  {
  }

  lemma SealedFields(k: Keys, pkt: Dict, rnd: string)
    requires LawfulKeys(k) && k.enabled && GetStr(pkt, "body") != "" && FindString(pkt, "enc").None?
    ensures FindString(Seal(k, pkt, rnd), "enc") == Some("aesgcm")
    ensures GetStr(Seal(k, pkt, rnd), "ackOf") == GetStr(pkt, "ackOf")
  {
    assert k.encrypt(GetStr(pkt, "body"), rnd).Some?;
  }

  /** If the keyed hash has no collisions, an accepted frame that carries an honest frame's signature is that
      frame: no field, time or nonce was changed. */
  lemma AcceptedIsAuthentic(
    k: Keys, t: Texts, relay: Dict, sent: Int64, nonce: string, forged: Dict, seen: set<string>, now: Int64)
    requires LawfulKeys(k) && LawfulTexts(t) && k.enabled
    requires forall x, y :: k.hmac(x) == k.hmac(y) ==> x == y
    requires relay.Keys !! {"ts", "nonce", "sig"}
    requires k.fromHex(GetStr(forged, "sig")) == k.fromHex(Sign(k, t.write(relay), t.show(sent), nonce))
    requires VerifyFrame(k, t, seen, t.write(forged), now).ok
    ensures forged - {"sig"} == Signed(k, t, relay, sent, nonce) - {"sig"}
  {
    SignedFields(k, t, relay, sent, nonce);
    assert t.read(t.write(forged)) == Some(forged);
    var rest := forged - {"ts", "nonce", "sig"};
    var mine := MacInput(t.write(relay), t.show(sent), nonce);
    var other := MacInput(t.write(rest), GetStr(forged, "ts"), GetStr(forged, "nonce"));
    assert k.fromHex(k.toHex(k.hmac(mine))) == Some(k.hmac(mine));
    assert k.hmac(mine) == k.hmac(other);
    assert t.int64(t.show(sent)).Some?;
    MacInputInjective(
      t.write(relay), t.show(sent), nonce, t.write(rest), GetStr(forged, "ts"), GetStr(forged, "nonce"));
    assert t.read(t.write(relay)) == Some(relay) && t.read(t.write(rest)) == Some(rest);
    SameFrame(forged, Signed(k, t, relay, sent, nonce));
  }

  lemma SameFrame(a: Dict, b: Dict)
    requires a - {"ts", "nonce", "sig"} == b - {"ts", "nonce", "sig"}
    requires GetStr(a, "ts") == GetStr(b, "ts") != "" && GetStr(a, "nonce") == GetStr(b, "nonce") != ""
    ensures a - {"sig"} == b - {"sig"}
  {
    var three := {"ts", "nonce", "sig"};
    forall key ensures key in a - {"sig"} <==> key in b - {"sig"} {
      assert key in a - three <==> key in b - three;
    }
    forall key | key in a - {"sig"} ensures (a - {"sig"})[key] == (b - {"sig"})[key] {
      if key !in three { assert (a - three)[key] == (b - three)[key]; }
    }
  }

  // ---------- without a passphrase, and frame by frame ----------

  /** Without a passphrase every frame passes and none is remembered. */
  lemma {:induction false} PlaintextPasses(k: Keys, t: Texts, run: seq<Frame>)
    requires !k.enabled
    ensures forall i :: 0 <= i <= |run| ==> Memory(k, t, run)[i] == {}
    ensures forall i :: 0 <= i < |run| ==> Accepts(k, t, run, i)
  {
    if run != [] {
      PlaintextPasses(k, t, run[..|run| - 1]);
    }
  }

  /** A message arrives as it was, and in the clear, if there is no passphrase or it has no body to seal. */
  lemma PlainRoundTrip(
    k: Keys, t: Texts, from: string, self: string, pkt: Dict, rnd: string, host: string, port: int, sent: Int64,
    nonce: string)
    requires LawfulTexts(t) && from != "" && from != self && GetStr(pkt, "ackOf") == ""
    requires !k.enabled || (GetStr(pkt, "body") == "" && FindString(pkt, "enc") != Some("aesgcm"))
    ensures
      var json := SendMessage(k, t, from, pkt, rnd, host, port, sent, nonce);
      && t.read(json).Some? && "pkt" in t.read(json).value && t.read(json).value["pkt"] == Sub(pkt)
      && Inbound(k, t, self, json) == Some(Chat(from, pkt))
  {
    var relay := Relay("message", from, pkt, "message", "relay", host, port);
    var d := Signed(k, t, relay, sent, nonce);
    RelayFields("message", from, pkt, "message", "relay", host, port);
    assert Seal(k, pkt, rnd) == pkt;
    assert t.read(t.write(d)) == Some(d);
    if k.enabled {
      SignedFields(k, t, relay, sent, nonce);
      SignedKeeps(k, t, relay, sent, nonce, "pkt");
    }
  }

  /** With a passphrase the verdict on a frame that reads as `d`, and what is remembered behind it: times apart by
      no more than two minutes, no memory of sender and nonce (which is cleared beyond 65536 entries), and the
      keyed hash of the frame without its three marks, behind which the time and the nonce are written. */
  lemma VerdictExactly(k: Keys, t: Texts, seen: set<string>, json: string, now: Int64)
    requires k.enabled && LawfulKeys(k)
    ensures
      var v := VerifyFrame(k, t, seen, json, now);
      if t.read(json).None? then !v.ok && v.seen == seen
      else
        var d := t.read(json).value;
        var from, ts, nonce, sig := GetStr(d, "fromId"), GetStr(d, "ts"), GetStr(d, "nonce"), GetStr(d, "sig");
        if from == "" || ts == "" || nonce == "" || sig == "" || t.int64(ts).None?
           || now - t.int64(ts).value > 120_000 || t.int64(ts).value - now > 120_000
        then !v.ok && v.seen == seen
        else
          var kept := if |seen| > 65536 then {} else seen;
          var text := t.write(d - {"ts", "nonce", "sig"}) + "\nts=" + ts + "\nnonce=" + nonce;
          && v.seen == kept + {from + "|" + nonce}
          && (v.ok <==> from + "|" + nonce !in kept && k.fromHex(sig) == Some(k.hmac(text)))
  {
    if t.read(json).Some? {
      var d := t.read(json).value;
      MacText(t.write(d - {"ts", "nonce", "sig"}), GetStr(d, "ts"), GetStr(d, "nonce"));
    }
  }

  lemma MacText(body: string, ts: string, nonce: string)
    ensures MacInput(body, ts, nonce) == body + "\nts=" + ts + "\nnonce=" + nonce
  {
    assert "\n" + "ts=" == "\nts=" && "\n" + "nonce=" == "\nnonce=";
    assert MacInput(body, ts, nonce) == body + ("\n" + "ts=") + ts + ("\n" + "nonce=") + nonce;
  }

  /** What an accepted envelope delivers: nothing exactly if it does not read, names no sender or this device, holds
      no packet, holds a receipt, or holds a sealed packet that this daemon's passphrase does not open. Without a
      passphrase a sealed packet is delivered sealed. */
  lemma InboundExactly(k: Keys, t: Texts, self: string, json: string)
    ensures
      var delivered := Inbound(k, t, self, json);
      if t.read(json).None? then delivered == None
      else
        var d := t.read(json).value;
        var from := GetStr(d, "fromId");
        if from == "" || from == self || "pkt" !in d || !d["pkt"].Sub? then delivered == None
        else
          var pkt := d["pkt"].fields;
          var box := Box(GetStr(pkt, "body"), GetStr(pkt, "iv"));
          if GetStr(pkt, "ackOf") != "" then delivered == None
          else if k.enabled && GetStr(pkt, "enc") == "aesgcm" then
            if box.ct == "" || box.iv == "" || k.decrypt(box).None? then delivered == None
            else delivered == Some(Chat(from, pkt["body" := Str(k.decrypt(box).value)] - {"iv", "enc"}))
          else delivered == Some(Chat(from, pkt))
  {
  }

  predicate Holds(d: Dict, key: string, v: Value) { key in d && d[key] == v }

  /** The fields of a chat message's envelope, but for its packet. */
  predicate IsEnvelope(d: Dict, from: string, host: string, port: int) {
    && Holds(d, "ns", Str("message")) && Holds(d, "m", Str("relay")) && Holds(d, "fromId", Str(from))
    && Holds(d, "innerNs", Str("message")) && Holds(d, "innerM", Str("relay"))
    && Holds(d, "v", Int(1)) && Holds(d, "dir", Str("req"))
    && Holds(d, "fromHost", Str(host)) && Holds(d, "fromPort", Int(port))
  }

  const FIELDS: set<string> := {"ns", "m", "fromId", "pkt", "innerNs", "innerM", "v", "dir", "fromHost", "fromPort"}

  /** What leaves has those fields and the packet, with the three marks if there is a passphrase, and none else. */
  lemma EnvelopeFields(
    k: Keys, t: Texts, from: string, pkt: Dict, rnd: string, host: string, port: int, now: Int64, nonce: string)
    requires LawfulTexts(t)
    ensures
      var read := t.read(SendMessage(k, t, from, pkt, rnd, host, port, now, nonce));
      && read.Some?
      && var d := read.value;
         && d.Keys == FIELDS + (if k.enabled then {"sig", "ts", "nonce"} else {})
         && IsEnvelope(d, from, host, port)
         && (k.enabled ==> Holds(d, "ts", Str(t.show(now))) && Holds(d, "nonce", Str(nonce)))
  {
    var relay := Relay("message", from, Seal(k, pkt, rnd), "message", "relay", host, port);
    var d := Signed(k, t, relay, now, nonce);
    assert t.read(t.write(d)) == Some(d);
    RelayIs(from, Seal(k, pkt, rnd), host, port);
    SignedEnvelope(k, t, relay, now, nonce, from, host, port);
  }

  lemma RelayIs(from: string, pkt: Dict, host: string, port: int)
    ensures
      var relay := Relay("message", from, pkt, "message", "relay", host, port);
      relay.Keys == FIELDS && IsEnvelope(relay, from, host, port)
  {
  }

  lemma SignedEnvelope(
    k: Keys, t: Texts, relay: Dict, now: Int64, nonce: string, from: string, host: string, port: int)
    requires relay.Keys == FIELDS && IsEnvelope(relay, from, host, port)
    ensures
      var d := Signed(k, t, relay, now, nonce);
      && d.Keys == FIELDS + (if k.enabled then {"sig", "ts", "nonce"} else {})
      && IsEnvelope(d, from, host, port)
      && (k.enabled ==> Holds(d, "ts", Str(t.show(now))) && Holds(d, "nonce", Str(nonce)))
  {
    SignedIs(k, t, relay, now, nonce);
  }

  lemma SignedIs(k: Keys, t: Texts, relay: Dict, now: Int64, nonce: string)
    requires relay.Keys !! {"ts", "nonce", "sig"}
    ensures
      var d := Signed(k, t, relay, now, nonce);
      && d.Keys == relay.Keys + (if k.enabled then {"sig", "ts", "nonce"} else {})
      && (forall key <- relay :: d[key] == relay[key])
      && (k.enabled ==> d["ts"] == Str(t.show(now)) && d["nonce"] == Str(nonce))
  {
  }

  /** Which packets are sealed: those with a body and no mark, if there is a passphrase. Nothing but body, `iv` and
      `enc` is touched. */
  lemma SealedExactly(k: Keys, pkt: Dict, rnd: string)
    requires LawfulKeys(k)
    ensures
      var body := GetStr(pkt, "body");
      Seal(k, pkt, rnd) ==
        if k.enabled && body != "" && !("enc" in pkt && pkt["enc"].Str?) then
          var box := k.encrypt(body, rnd).value;
          pkt["body" := Str(box.ct)]["iv" := Str(box.iv)]["enc" := Str("aesgcm")]
        else pkt
  {
    assert k.encrypt(GetStr(pkt, "body"), rnd).Some?;
  }

  // ---------- replays ----------

  datatype Frame = Frame(json: string, now: Int64)

  /** What is remembered before the first frame, and after each. */
  function Memory(k: Keys, t: Texts, run: seq<Frame>): (m: seq<set<string>>)
    ensures |m| == |run| + 1
  {
    if run == [] then [{}]
    else
      var m, f := Memory(k, t, run[..|run| - 1]), run[|run| - 1];
      m + [VerifyFrame(k, t, m[|run| - 1], f.json, f.now).seen]
  }

  predicate Accepts(k: Keys, t: Texts, run: seq<Frame>, i: nat)
    requires i < |run|
  {
    VerifyFrame(k, t, Memory(k, t, run)[i], run[i].json, run[i].now).ok
  }

  predicate Overflow(seen: set<string>) { |seen| > SEEN_CAP }

  lemma {:induction false} MemoryGrows(k: Keys, t: Texts, run: seq<Frame>, n: nat)
    requires n < |run|
    ensures Memory(k, t, run)[n + 1] == VerifyFrame(k, t, Memory(k, t, run)[n], run[n].json, run[n].now).seen
  {
    var init := run[..|run| - 1];
    if n < |init| {
      MemoryGrows(k, t, init, n);
      assert Memory(k, t, run)[..|run|] == Memory(k, t, init);
    }
  }

  /** A frame is accepted a second time only if in between the memory overflowed and was cleared, and never
      more than four minutes later. */
  lemma ReplayNeedsOverflow(k: Keys, t: Texts, run: seq<Frame>, i: nat, j: nat)
    requires k.enabled && i < j < |run| && run[i].json == run[j].json
    requires Accepts(k, t, run, i) && Accepts(k, t, run, j)
    ensures exists c :: i < c <= j && |Memory(k, t, run)[c]| > 65536
    ensures run[j].now - run[i].now <= 240_000
  {
    var m, json := Memory(k, t, run), run[i].json;
    AcceptedMeans(k, t, m[i], json, run[i].now);
    AcceptedMeans(k, t, m[j], json, run[j].now);
    MemoryGrows(k, t, run, i);
    var key := KeyOf(t.read(json).value);
    forall n | 0 <= n < |run| ensures Kept(m, n, key) {
      MemoryGrows(k, t, run, n);
      if !Overflow(m[n]) { FrameKeepsKey(k, t, m[n], run[n], key); }
    }
    KeyLost(m, i + 1, j, key);
    var c :| i < c <= j && Overflow(m[c]);
    assert |m[c]| > 65536;
  }

  predicate Kept(m: seq<set<string>>, n: nat, key: string)
    requires n + 1 < |m|
  {
    key in m[n] && !Overflow(m[n]) ==> key in m[n + 1]
  }

  /** An accepted frame is timely, its key was not remembered, and now is. */
  lemma AcceptedMeans(k: Keys, t: Texts, seen: set<string>, json: string, now: Int64)
    requires k.enabled && VerifyFrame(k, t, seen, json, now).ok
    ensures t.read(json).Some?
    ensures
      var d := t.read(json).value;
      Timely(t, d, now) && KeyOf(d) !in Pruned(seen) && KeyOf(d) in VerifyFrame(k, t, seen, json, now).seen
  {
  }

  lemma FrameKeepsKey(k: Keys, t: Texts, seen: set<string>, f: Frame, key: string)
    requires !Overflow(seen)
    ensures key in seen ==> key in VerifyFrame(k, t, seen, f.json, f.now).seen
  {
  }

  /** A key that is remembered and later not any more was cleared by an overflow. */
  lemma {:induction false} KeyLost(m: seq<set<string>>, i: nat, j: nat, key: string)
    requires i <= j < |m| && key in m[i] && key !in Pruned(m[j])
    requires forall n :: 0 <= n < |m| - 1 ==> Kept(m, n, key)
    ensures exists c :: i <= c <= j && Overflow(m[c])
  {
    if !Overflow(m[j]) && i < j && !Overflow(m[j - 1]) {
      assert Kept(m, j - 1, key);
      KeyLost(m, i, j - 1, key);
    }
  }
}
