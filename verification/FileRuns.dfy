/** Whole runs of resumable transfers: any number of sessions per file, interrupted, cancelled, cut off
    and resumed at any step, with frames of all of them arriving interleaved. */
module FileRuns {
  import opened Options
  import opened WsFrames
  import opened Arithmetic
  import opened FileTransfer

  const CHUNK: nat := 65536

  /** The sender's files. Files in `hashed` are announced with their digest. */
  datatype World = World(src: map<FileId, seq<byte>>, digest: seq<byte> -> Digest, hashed: set<FileId>) {
    function MetaOf(f: FileId): Meta
      requires f in src
    {
      Meta(f, |src[f]|, if f in hashed then Some(digest(src[f])) else None)
    }
  }

  datatype Phase = Awaiting | Sending | Halted

  /** One session: the sender's loop, everything it has put on the channel, and how much of that has
      reached the receiver. `from` is where the loop started, `next` the chunk it sends next. */
  datatype Channel = Channel(
    file: FileId, phase: Phase, from: nat, next: nat,
    sent: seq<Msg>, delivered: nat, acks: seq<nat>, recv: Session,
    open: bool, canceled: bool, silent: bool)

  /** `keeps` are the files whose source the sender still holds; `latest` is, per file, the session the
      receiver last heard the beginning of. */
  datatype Sys = Sys(page: Page, chans: seq<Channel>, keeps: set<FileId>, latest: map<FileId, nat>)

  /** What can happen at the sender's end of one session. */
  datatype Act = Ack | Timeout | Turn | Interrupt | Cancel | CutOff

  datatype Event =
    | Start(f: FileId)
    | Resume(f: FileId)
    | AtSender(c: nat, act: Act)
    | Deliver(c: nat)
    | Digested(k: nat)

  function Init(): Sys { Sys(Page(map[], [], []), [], {}, map[]) }

  /** Number of chunks of a file. */
  function Count(src: seq<byte>): nat { CeilDiv(|src|, CHUNK) }

  /** The sending loop begins at chunk `from`: it announces the file first. */
  function Begin(w: World, ch: Channel, from: nat): Channel
    requires ch.file in w.src
  {
    if ch.open then ch.(phase := Sending, from := from, next := from, sent := ch.sent + [FMeta(w.MetaOf(ch.file))])
    else ch.(phase := Halted)
  }

  /** One turn of the sending loop; the second component says whether the source is given up. */
  function SendTurn(w: World, ch: Channel): (Channel, bool)
    requires ch.file in w.src
  {
    var src := w.src[ch.file];
    if ch.canceled then
      if ch.silent then (ch.(phase := Halted), false)
      else if ch.open then (ch.(phase := Halted, sent := ch.sent + [FEnd(ch.file, true)]), true)
      else (ch.(phase := Halted), false)  // sending throws, and the source is kept
    else if !ch.open then (ch.(phase := Halted), false)
    else if ch.next * CHUNK >= |src| then (ch.(phase := Halted), true)
    else
      var chunk := [FHead(ch.file, ch.next), Data(Slice(src, CHUNK, ch.next))];
      (ch.(next := ch.next + 1, sent := ch.sent + chunk), false)
  }

  /** The sender's end of a session after one action; a late answer is dropped. */
  function Acted(w: World, ch: Channel, act: Act): (Channel, bool)
    requires ch.file in w.src
  {
    match act
    case Ack =>
      if ch.acks == [] then (ch, false) else
      var rest := ch.(acks := ch.acks[1..]);
      (if ch.phase == Awaiting then Begin(w, rest, StartIndex(ch.acks[0], |w.src[ch.file]|, CHUNK)) else rest, false)
    case Timeout => (if ch.phase == Awaiting then Begin(w, ch, 0) else ch, false)
    case Turn => if ch.phase == Sending then SendTurn(w, ch) else (ch, false)
    case Interrupt => (ch.(canceled := true, silent := true), false)
    case Cancel => (ch.(canceled := true), false)
    case CutOff => (ch.(open := false), false)
  }

  /** The session no longer receives a file. */
  function Forgetful(ch: Channel): Channel { ch.(recv := ch.recv.(active := None)) }

  function Step(w: World, s: Sys, ev: Event): Sys {
    match ev
    case Start(f) =>
      if f !in w.src then s else
      var ch := Channel(f, Sending, 0, 0, [FMeta(w.MetaOf(f))], 0, [], Session(None, 0), true, false, false);
      s.(chans := s.chans + [ch], keeps := s.keeps + {f}, latest := s.latest[f := |s.chans|])
    case Resume(f) =>
      if f !in s.keeps || f !in w.src then s else
      s.(chans := s.chans + [Channel(f, Awaiting, 0, 0, [FResume(f)], 0, [], Session(None, 0), true, false, false)])
    case AtSender(c, act) =>
      if c >= |s.chans| || s.chans[c].file !in w.src then s else
      var (ch, dropped) := Acted(w, s.chans[c], act);
      s.(chans := s.chans[c := ch], keeps := if dropped then s.keeps - {ch.file} else s.keeps)
    case Deliver(c) =>
      if !(c < |s.chans| && s.chans[c].open && s.chans[c].delivered < |s.chans[c].sent|) then s else
      var ch := s.chans[c];
      var m := ch.sent[ch.delivered];
      var (page, recv, answer) := OnMessage(s.page, c, ch.recv, m);
      var acks := if answer.Some? && answer.value.FResumeAck? then ch.acks + [answer.value.got] else ch.acks;
      Sys(page, s.chans[c := ch.(delivered := ch.delivered + 1, recv := recv, acks := acks)], s.keeps,
          if m.FResume? then s.latest[ch.file := c] else s.latest)
    case Digested(k) =>
      if k >= |s.page.finishing| then s else
      var c := s.page.finishing[k].sid;
      s.(page := FinishEnd(s.page, k, w.digest),
         chans := if c < |s.chans| then s.chans[c := Forgetful(s.chans[c])] else s.chans)
  }

  function Run(w: World, s: Sys, evs: seq<Event>): Sys
    decreases |evs|
  {
    if evs == [] then s else Run(w, Step(w, s, evs[0]), evs[1..])
  }

  // ---------- what is on a channel ----------

  /** Everything an honest loop from chunk `from` has sent by the time it is at chunk `next`. */
  function Script(w: World, f: FileId, from: nat, next: nat): (ms: seq<Msg>)
    requires f in w.src && from <= next
    requires from < next ==> (next - 1) * CHUNK < |w.src[f]|
    ensures |ms| == 1 + 2 * (next - from)
  {
    if from == next then [FMeta(w.MetaOf(f))]
    else
      assert from < next - 1 ==> (next - 2) * CHUNK < |w.src[f]|;
      Script(w, f, from, next - 1) + [FHead(f, next - 1), Data(Slice(w.src[f], CHUNK, next - 1))]
  }

  /** Frame `k` of the loop is the announcement, a chunk's header, or the chunk. */
  predicate InScript(w: World, f: FileId, from: nat, next: nat, k: nat, m: Msg)
    requires f in w.src
  {
    if k == 0 then m == FMeta(w.MetaOf(f))
    else
      var i := from + (k - 1) / 2;
      i < next && i * CHUNK < |w.src[f]| && m == if k % 2 == 1 then FHead(f, i) else Data(Slice(w.src[f], CHUNK, i))
  }

  lemma {:induction false} ScriptAt(w: World, f: FileId, from: nat, next: nat, k: nat)
    requires f in w.src && from <= next
    requires from < next ==> (next - 1) * CHUNK < |w.src[f]|
    requires k < 1 + 2 * (next - from)
    ensures InScript(w, f, from, next, k, Script(w, f, from, next)[k])
  {
    if from < next && k < 1 + 2 * (next - 1 - from) {
      ScriptAt(w, f, from, next - 1, k);
    }
  }

  /** Frames in front of the announcement: the question a resumed session starts with. */
  function Lead(sent: seq<Msg>): nat { if sent != [] && sent[0].FResume? then 1 else 0 }

  /** What has been sent is the question (if resumed), the loop's script, and at most a cancellation. */
  ghost predicate SentOk(w: World, f: FileId, phase: Phase, from: nat, next: nat, sent: seq<Msg>) {
    && f in w.src
    && sent != [] && (Lead(sent) == 1 ==> sent[0] == FResume(f))
    && (phase == Awaiting ==> sent == [FResume(f)])
    && (phase == Sending ==> |sent| > Lead(sent))
    && (|sent| > Lead(sent) ==>
          && from <= next
          && (from < next ==> (next - 1) * CHUNK < |w.src[f]|)
          && var script := Script(w, f, from, next);
             sent[Lead(sent)..] == script || (phase == Halted && sent[Lead(sent)..] == script + [FEnd(f, true)]))
  }

  /** A frame an honest channel may bring to a session in this state. */
  ghost predicate HonestNext(w: World, f: FileId, recv: Session, m: Msg) {
    && f in w.src
    && (recv.active.Some? ==> recv.active == Some(f))
    && match m
       case FMeta(meta) => meta == w.MetaOf(f)
       case FHead(id, i) => id == f && i * CHUNK < |w.src[f]|
       case Data(bytes) =>
         recv.active.Some? ==> recv.index * CHUNK < |w.src[f]| && bytes == Slice(w.src[f], CHUNK, recv.index)
       case FEnd(id, canceled) => id == f && canceled
       case FResume(id) => id == f
       case FResumeAck(_, _) => false
  }

  ghost predicate ChannelOk(w: World, ch: Channel) {
    SentOk(w, ch.file, ch.phase, ch.from, ch.next, ch.sent) && SessionOk(ch)
  }

  /** The session knows which chunk is coming. */
  ghost predicate SessionOk(ch: Channel) {
    && ch.delivered <= |ch.sent|
    && (ch.recv.active.Some? ==> ch.recv.active == Some(ch.file))
    && (ch.recv.active.Some? && AtData(ch) ==> ch.recv.index == ch.from + (ch.delivered - Lead(ch.sent) - 1) / 2)
  }

  /** The next frame to arrive is a chunk. */
  predicate AtData(ch: Channel) {
    ch.delivered < |ch.sent| && ch.sent[ch.delivered].Data?
  }

  ghost predicate RecOk(w: World, f: FileId, rec: RecvState) {
    f in w.src && rec.meta == w.MetaOf(f) && Faithful(rec, w.src[f], CHUNK)
  }

  ghost predicate Rebuilt(w: World, meta: Meta, blob: seq<byte>) {
    var f := meta.fileId;
    f in w.src && meta == w.MetaOf(f) && blob == w.src[f] && blob != []
  }

  ghost predicate Inv(w: World, s: Sys) {
    && (forall f <- s.page.recs :: RecOk(w, f, s.page.recs[f]))
    && (forall c :: 0 <= c < |s.chans| ==> ChannelOk(w, s.chans[c]))
    && (forall k :: 0 <= k < |s.page.finishing| ==> Rebuilt(w, s.page.finishing[k].meta, s.page.finishing[k].blob))
    && (forall d <- s.page.done :: Rebuilt(w, d.meta, d.blob)
          && d.sha256Ok == if d.meta.fileId in w.hashed then Some(true) else None)
  }

  // ---------- safety of every run ----------

  /** What frame `d` of an honest channel is: the question, the announcement, a chunk's header, the
      chunk, or the final cancellation. */
  ghost predicate FrameIs(w: World, ch: Channel, d: nat)
    requires ch.file in w.src && d < |ch.sent|
  {
    var m := ch.sent[d];
    var j := d - Lead(ch.sent);
    if j < 0 then m == FResume(ch.file)
    else if j <= 2 * (ch.next - ch.from) then InScript(w, ch.file, ch.from, ch.next, j, m)
    else m == FEnd(ch.file, true)
  }

  lemma FrameAt(w: World, ch: Channel, d: nat)
    requires SentOk(w, ch.file, ch.phase, ch.from, ch.next, ch.sent) && d < |ch.sent|
    ensures FrameIs(w, ch, d)
  {
    var l := Lead(ch.sent);
    if d >= l {
      var j := d - l;
      var script := Script(w, ch.file, ch.from, ch.next);
      assert ch.sent[l..][j] == ch.sent[d];
      if j < |script| {
        assert ch.sent[d] == script[j];
        ScriptAt(w, ch.file, ch.from, ch.next, j);
      }
    }
  }

  lemma NextIsHonest(w: World, ch: Channel)
    requires ch.file in w.src && SessionOk(ch) && ch.delivered < |ch.sent| && FrameIs(w, ch, ch.delivered)
    ensures HonestNext(w, ch.file, ch.recv, ch.sent[ch.delivered])
  {
  }

  lemma HonestDelivery(w: World, ch: Channel)
    requires ChannelOk(w, ch) && ch.delivered < |ch.sent|
    ensures HonestNext(w, ch.file, ch.recv, ch.sent[ch.delivered])
  {
    FrameAt(w, ch, ch.delivered);
    NextIsHonest(w, ch);
  }

  /** The session's own state stays in step with the frames it has taken. */
  lemma SessionAfterDelivery(w: World, ch: Channel, page: Page, c: nat, acks: seq<nat>)
    requires ch.file in w.src && SessionOk(ch) && ch.delivered < |ch.sent| && FrameIs(w, ch, ch.delivered)
    requires ch.delivered + 1 < |ch.sent| ==> FrameIs(w, ch, ch.delivered + 1)
    ensures
      var recv := OnMessage(page, c, ch.recv, ch.sent[ch.delivered]).1;
      SessionOk(ch.(delivered := ch.delivered + 1, recv := recv, acks := acks))
  {
  }

  lemma ChannelAfterDelivery(w: World, ch: Channel, page: Page, c: nat, acks: seq<nat>)
    requires ChannelOk(w, ch) && ch.delivered < |ch.sent|
    ensures
      var recv := OnMessage(page, c, ch.recv, ch.sent[ch.delivered]).1;
      ChannelOk(w, ch.(delivered := ch.delivered + 1, recv := recv, acks := acks))
  {
    FrameAt(w, ch, ch.delivered);
    if ch.delivered + 1 < |ch.sent| {
      FrameAt(w, ch, ch.delivered + 1);
    }
    SessionAfterDelivery(w, ch, page, c, acks);
  }

  /** A frame of an honest channel keeps every record faithful and rebuilds only the source. */
  lemma PageAfterDelivery(w: World, f: FileId, recv: Session, m: Msg, page: Page, c: nat)
    requires HonestNext(w, f, recv, m)
    requires forall g <- page.recs :: RecOk(w, g, page.recs[g])
    ensures PageOk(w, page, OnMessage(page, c, recv, m).0)
  {
    match m
    case FMeta(_) => AfterMeta(w, f, page, c, recv);
    case Data(bytes) =>
      if recv.active.Some? && f in page.recs {
        AfterData(w, f, page, c, recv);
      }
    case _ =>
  }

  /** What a delivery may do to the page: records stay faithful, and at most one rebuilt source joins
      those waiting for their digest. */
  ghost predicate PageOk(w: World, page: Page, p: Page) {
    && (forall f <- p.recs :: RecOk(w, f, p.recs[f]))
    && p.done == page.done
    && |page.finishing| <= |p.finishing|
    && (forall k :: 0 <= k < |page.finishing| ==>
          p.finishing[k].meta == page.finishing[k].meta && p.finishing[k].blob == page.finishing[k].blob)
    && forall k :: |page.finishing| <= k < |p.finishing| ==> Rebuilt(w, p.finishing[k].meta, p.finishing[k].blob)
  }

  lemma AfterMeta(w: World, f: FileId, page: Page, c: nat, recv: Session)
    requires f in w.src
    requires forall g <- page.recs :: RecOk(w, g, page.recs[g])
    ensures PageOk(w, page, OnMessage(page, c, recv, FMeta(w.MetaOf(f))).0)
  {
    FreshFaithful(w.MetaOf(f), w.src[f], CHUNK);
    var p := OnMessage(page, c, recv, FMeta(w.MetaOf(f))).0;
    assert RecOk(w, f, p.recs[f]);
    forall g <- p.recs ensures RecOk(w, g, p.recs[g]) {
      assert g != f ==> p.recs[g] == page.recs[g];
    }
  }

  lemma AfterData(w: World, f: FileId, page: Page, c: nat, recv: Session)
    requires f in w.src && f in page.recs && recv.active == Some(f) && recv.index * CHUNK < |w.src[f]|
    requires forall g <- page.recs :: RecOk(w, g, page.recs[g])
    ensures PageOk(w, page, OnMessage(page, c, recv, Data(Slice(w.src[f], CHUNK, recv.index))).0)
  {
    var rec := Land(page.recs[f], recv.index, Slice(w.src[f], CHUNK, recv.index));
    LandFaithful(page.recs[f], recv.index, w.src[f], CHUNK);
    RebuiltIsSource(rec, w.src[f], CHUNK);
    assert RecOk(w, f, rec);
    var p := OnMessage(page, c, recv, Data(Slice(w.src[f], CHUNK, recv.index))).0;
    forall g <- p.recs ensures RecOk(w, g, p.recs[g]) {
      assert g != f ==> p.recs[g] == page.recs[g];
    }
  }

  lemma DeliverKeepsInv(w: World, s: Sys, c: nat)
    requires Inv(w, s)
    ensures Inv(w, Step(w, s, Deliver(c)))
  {
    if c < |s.chans| && s.chans[c].open && s.chans[c].delivered < |s.chans[c].sent| {
      var t := Step(w, s, Deliver(c));
      HonestDelivery(w, s.chans[c]);
      PageAfterDelivery(w, s.chans[c].file, s.chans[c].recv, s.chans[c].sent[s.chans[c].delivered], s.page, c);
      ChannelAfterDelivery(w, s.chans[c], s.page, c, t.chans[c].acks);
      forall i | 0 <= i < |t.chans| ensures ChannelOk(w, t.chans[i]) {
        assert i != c ==> t.chans[i] == s.chans[i];
      }
    }
  }

  lemma ActedOk(w: World, ch: Channel, act: Act)
    requires ChannelOk(w, ch)
    ensures ChannelOk(w, Acted(w, ch, act).0)
  {
    match act
    case Ack =>
      if ch.acks != [] && ch.phase == Awaiting {
        BeginOk(w, ch.(acks := ch.acks[1..]), StartIndex(ch.acks[0], |w.src[ch.file]|, CHUNK));
      }
    case Timeout =>
      if ch.phase == Awaiting {
        BeginOk(w, ch, 0);
      }
    case Turn =>
      if ch.phase == Sending {
        TurnOk(w, ch);
      }
    case _ =>
  }

  lemma BeginOk(w: World, ch: Channel, from: nat)
    requires ChannelOk(w, ch) && ch.phase == Awaiting
    ensures ChannelOk(w, Begin(w, ch, from))
  {
    var ch' := Begin(w, ch, from);
    assert ch.open ==> ch'.sent[1..] == [FMeta(w.MetaOf(ch.file))];
    assert SentOk(w, ch.file, ch'.phase, ch'.from, ch'.next, ch'.sent);
  }

  lemma TurnOk(w: World, ch: Channel)
    requires ChannelOk(w, ch) && ch.phase == Sending
    ensures ChannelOk(w, SendTurn(w, ch).0)
  {
    var ch' := SendTurn(w, ch).0;
    var f, more := ch.file, ch'.sent[|ch.sent|..];
    assert ch'.sent == ch.sent + more;
    SentGrows(w, f, ch.from, ch.next, ch.sent, more, ch'.phase, ch'.next);
  }

  lemma SentGrows(w: World, f: FileId, from: nat, next: nat, sent: seq<Msg>, more: seq<Msg>, phase: Phase, next': nat)
    requires SentOk(w, f, Sending, from, next, sent)
    requires phase != Awaiting
    requires
      if next' == next then more == [] || (phase == Halted && more == [FEnd(f, true)])
      else
        && next' == next + 1 && next * CHUNK < |w.src[f]|
        && more == [FHead(f, next), Data(Slice(w.src[f], CHUNK, next))]
    ensures SentOk(w, f, phase, from, next', sent + more)
  {
    var l := Lead(sent);
    TailGrows(sent, more, l);
    assert sent[l..] == Script(w, f, from, next);
    if next' == next + 1 {
      assert Script(w, f, from, next') == Script(w, f, from, next) + more;
    } else {
      assert sent[l..] + [] == sent[l..];
    }
  }

  lemma TailGrows(sent: seq<Msg>, more: seq<Msg>, l: nat)
    requires sent != [] && l == Lead(sent)
    ensures Lead(sent + more) == l && (sent + more)[l..] == sent[l..] + more
  {
  }

  lemma StepKeepsInv(w: World, s: Sys, ev: Event)
    requires Inv(w, s)
    ensures Inv(w, Step(w, s, ev))
  {
    match ev
    case Deliver(c) => DeliverKeepsInv(w, s, c);
    case AtSender(c, act) =>
      if c < |s.chans| {
        ActedOk(w, s.chans[c], act);
      }
    case _ =>
  }

  /** In every run every record is a faithful part of its source, and every file handed over is the
      source byte for byte, non-empty, with its digest confirmed. */
  lemma {:induction false} RunIsSafe(w: World, s: Sys, evs: seq<Event>)
    requires Inv(w, s)
    ensures Inv(w, Run(w, s, evs))
    decreases |evs|
  {
    if evs != [] {
      StepKeepsInv(w, s, evs[0]);
      RunIsSafe(w, Step(w, s, evs[0]), evs[1..]);
    }
  }

  /** From the start: everything ever handed over is its source, and what is still being received is a
      faithful part of one. */
  lemma EveryTransferIsFaithful(w: World, evs: seq<Event>)
    ensures
      var page := Run(w, Init(), evs).page;
      && (forall d <- page.done ::
            && d.meta.fileId in w.src && d.blob == w.src[d.meta.fileId] && d.blob != []
            && d.sha256Ok == if d.meta.fileId in w.hashed then Some(true) else None)
      && (forall f <- page.recs :: f in w.src && Faithful(page.recs[f], w.src[f], CHUNK))
  {
    RunIsSafe(w, Init(), evs);
    assert forall d <- Run(w, Init(), evs).page.done :: Rebuilt(w, d.meta, d.blob);
    assert forall f <- Run(w, Init(), evs).page.recs :: RecOk(w, f, Run(w, Init(), evs).page.recs[f]);
  }
}
