/** What a page makes of file frames whoever sends them: frames may come in any order, on any session, for any
    file, with any content. Constants are written out here. */
module FileFrames {
  import opened Options
  import opened WsFrames
  import opened Arithmetic
  import opened FileTransfer
  import opened FileRuns

  /** A frame arrives on session `sid`, whatever that remembers; or the digest of a rebuilt file is ready. */
  datatype Happening = Arrives(sid: nat, s: Session, m: Msg) | Ready(k: nat)

  function PageStep(page: Page, e: Happening, digest: seq<byte> -> Digest): Page {
    match e
    case Arrives(sid, s, m) => OnMessage(page, sid, s, m).0
    case Ready(k) => if k < |page.finishing| then FinishEnd(page, k, digest) else page
  }

  function PageAfter(es: seq<Happening>, digest: seq<byte> -> Digest): Page {
    if es == [] then Page(map[], [], [])
    else PageStep(PageAfter(es[..|es| - 1], digest), es[|es| - 1], digest)
  }

  // ---------- where the bytes of a file come from ----------

  /** These bytes arrived as chunk `i` of file `id`. */
  ghost predicate Came(es: seq<Happening>, id: FileId, i: nat, bytes: seq<byte>) {
    exists e <- es :: IsChunk(e, id, i, bytes)
  }

  predicate IsChunk(e: Happening, id: FileId, i: nat, bytes: seq<byte>) {
    e.Arrives? && e.s == Session(Some(id), i) && e.m == Data(bytes)
  }

  ghost predicate Announced(es: seq<Happening>, meta: Meta) {
    exists e <- es :: IsMeta(e, meta)
  }

  predicate IsMeta(e: Happening, meta: Meta) { e.Arrives? && e.m == FMeta(meta) }

  function Concat(parts: seq<seq<byte>>): seq<byte> {
    if parts == [] then [] else Concat(parts[..|parts| - 1]) + parts[|parts| - 1]
  }

  ghost predicate AllCame(es: seq<Happening>, id: FileId, parts: seq<seq<byte>>) {
    forall i :: 0 <= i < |parts| ==> Came(es, id, i, parts[i])
  }

  /** An announced file, put together from chunks 0, 1, 2, ... of it that arrived. */
  ghost predicate Composed(es: seq<Happening>, meta: Meta, blob: seq<byte>) {
    Announced(es, meta) && exists parts :: AllCame(es, meta.fileId, parts) && blob == Concat(parts)
  }

  /** The digest announced with the file, if any, has been compared with the rebuilt bytes' own. */
  predicate Compared(d: Completion, digest: seq<byte> -> Digest) {
    match d.meta.sha256
    case Some(announced) => d.sha256Ok == Some(digest(d.blob) == announced)
    case None => d.sha256Ok == None
  }

  ghost predicate RecCame(es: seq<Happening>, id: FileId, rec: RecvState) {
    && rec.meta.fileId == id && Announced(es, rec.meta)
    && (forall i <- rec.chunks :: Came(es, id, i, rec.chunks[i]))
    && (forall i :: 0 <= i < rec.contig ==> i in rec.chunks)
  }

  ghost predicate AllComposed(es: seq<Happening>, page: Page, digest: seq<byte> -> Digest) {
    && (forall id <- page.recs :: RecCame(es, id, page.recs[id]))
    && (forall k :: 0 <= k < |page.finishing| ==> Composed(es, page.finishing[k].meta, page.finishing[k].blob))
    && (forall d <- page.done :: Composed(es, d.meta, d.blob) && Compared(d, digest))
  }

  lemma {:induction false} JoinComposed(es: seq<Happening>, id: FileId, rec: RecvState, k: nat)
    returns (parts: seq<seq<byte>>)
    requires RecCame(es, id, rec) && k <= rec.contig
    ensures |parts| == k && AllCame(es, id, parts) && Concat(parts) == Join(rec.chunks, k)
  {
    if k == 0 { return []; }
    parts := JoinComposed(es, id, rec, k - 1);
    var before := parts;
    parts := parts + [rec.chunks[k - 1]];
    assert parts[..k - 1] == before;
  }

  lemma CameGrows(es: seq<Happening>, e: Happening, id: FileId, i: nat, bytes: seq<byte>)
    requires Came(es, id, i, bytes) || IsChunk(e, id, i, bytes)
    ensures Came(es + [e], id, i, bytes)
  {
    if Came(es, id, i, bytes) {
      var x :| x in es && IsChunk(x, id, i, bytes);
      assert x in es + [e];
    } else {
      assert (es + [e])[|es|] == e;
    }
  }

  lemma AnnouncedGrows(es: seq<Happening>, e: Happening, meta: Meta)
    requires Announced(es, meta) || IsMeta(e, meta)
    ensures Announced(es + [e], meta)
  {
    if Announced(es, meta) {
      var x :| x in es && IsMeta(x, meta);
      assert x in es + [e];
    } else {
      assert (es + [e])[|es|] == e;
    }
  }

  lemma RecGrows(es: seq<Happening>, e: Happening, id: FileId, rec: RecvState)
    requires RecCame(es, id, rec)
    ensures RecCame(es + [e], id, rec)
  {
    AnnouncedGrows(es, e, rec.meta);
    forall i <- rec.chunks ensures Came(es + [e], id, i, rec.chunks[i]) {
      CameGrows(es, e, id, i, rec.chunks[i]);
    }
  }

  lemma ComposedGrows(es: seq<Happening>, e: Happening, meta: Meta, blob: seq<byte>)
    requires Composed(es, meta, blob)
    ensures Composed(es + [e], meta, blob)
  {
    AnnouncedGrows(es, e, meta);
    var parts :| AllCame(es, meta.fileId, parts) && blob == Concat(parts);
    forall i | 0 <= i < |parts| ensures Came(es + [e], meta.fileId, i, parts[i]) {
      CameGrows(es, e, meta.fileId, i, parts[i]);
    }
    assert AllCame(es + [e], meta.fileId, parts);
  }

  /** Time passing spoils nothing. */
  lemma AllGrows(es: seq<Happening>, e: Happening, page: Page, digest: seq<byte> -> Digest)
    requires AllComposed(es, page, digest)
    ensures AllComposed(es + [e], page, digest)
  {
    forall id <- page.recs ensures RecCame(es + [e], id, page.recs[id]) {
      RecGrows(es, e, id, page.recs[id]);
    }
    forall k | 0 <= k < |page.finishing|
      ensures Composed(es + [e], page.finishing[k].meta, page.finishing[k].blob)
    {
      ComposedGrows(es, e, page.finishing[k].meta, page.finishing[k].blob);
    }
    forall d <- page.done ensures Composed(es + [e], d.meta, d.blob) && Compared(d, digest) {
      ComposedGrows(es, e, d.meta, d.blob);
    }
  }

  lemma LandCame(es: seq<Happening>, id: FileId, rec: RecvState, i: nat, bytes: seq<byte>)
    requires RecCame(es, id, rec) && Came(es, id, i, bytes)
    ensures RecCame(es, id, Land(rec, i, bytes))
  {
  }

  lemma DataComposes(
      es: seq<Happening>, page: Page, sid: nat, s: Session, bytes: seq<byte>, digest: seq<byte> -> Digest)
    requires AllComposed(es, page, digest) && Arrives(sid, s, Data(bytes)) in es
    ensures AllComposed(es, OnMessage(page, sid, s, Data(bytes)).0, digest)
  {
    if s.active.Some? && s.active.value in page.recs {
      var id := s.active.value;
      var rec := Land(page.recs[id], s.index, bytes);
      assert IsChunk(Arrives(sid, s, Data(bytes)), id, s.index, bytes);
      LandCame(es, id, page.recs[id], s.index, bytes);
      var parts := JoinComposed(es, id, rec, rec.contig);
      assert Composed(es, rec.meta, Join(rec.chunks, rec.contig));
    }
  }

  lemma FrameComposes(es: seq<Happening>, page: Page, sid: nat, s: Session, m: Msg, digest: seq<byte> -> Digest)
    requires AllComposed(es, page, digest) && Arrives(sid, s, m) in es
    ensures AllComposed(es, OnMessage(page, sid, s, m).0, digest)
  {
    match m
    case Data(bytes) => DataComposes(es, page, sid, s, bytes, digest);
    case FMeta(meta) => assert IsMeta(Arrives(sid, s, m), meta);
    case _ =>
  }

  lemma ReadyComposes(es: seq<Happening>, page: Page, k: nat, digest: seq<byte> -> Digest)
    requires AllComposed(es, page, digest) && k < |page.finishing|
    ensures AllComposed(es, FinishEnd(page, k, digest), digest)
  {
    var fin, p := page.finishing[k], FinishEnd(page, k, digest);
    forall j | 0 <= j < |p.finishing| ensures Composed(es, p.finishing[j].meta, p.finishing[j].blob) {
      var from := page.finishing[if j < k then j else j + 1];
      assert p.finishing[j] == Frozen(from, fin.meta.fileId, BytesHeard(page, fin.meta.fileId));
      assert Composed(es, from.meta, from.blob);
    }
    assert Composed(es, fin.meta, fin.blob);
  }

  lemma {:induction false} RunComposes(es: seq<Happening>, digest: seq<byte> -> Digest)
    ensures AllComposed(es, PageAfter(es, digest), digest)
  {
    if es != [] {
      var n := |es| - 1;
      var init, e := es[..n], es[n];
      assert es == init + [e];
      RunComposes(init, digest);
      AllGrows(init, e, PageAfter(init, digest), digest);
      match e
      case Arrives(sid, s, m) => FrameComposes(es, PageAfter(init, digest), sid, s, m, digest);
      case Ready(k) =>
        if k < |PageAfter(init, digest).finishing| {
          ReadyComposes(es, PageAfter(init, digest), k, digest);
        }
    }
  }

  /** Whoever sends, and whatever: every file handed over was announced as it is reported, its bytes are those of
      chunks of it that arrived, joined from index 0 on without a gap, and if the announcement carries a digest the
      report says whether the bytes have it, else it says nothing. */
  lemma HandedOverIsComposed(es: seq<Happening>, digest: seq<byte> -> Digest)
    ensures forall d <- PageAfter(es, digest).done ::
      && Announced(es, d.meta)
      && (exists parts :: AllCame(es, d.meta.fileId, parts) && d.blob == Concat(parts))
      && d.sha256Ok == if d.meta.sha256.Some? then Some(digest(d.blob) == d.meta.sha256.value) else None
  {
    RunComposes(es, digest);
    forall d <- PageAfter(es, digest).done
      ensures Composed(es, d.meta, d.blob)
      ensures d.sha256Ok == if d.meta.sha256.Some? then Some(digest(d.blob) == d.meta.sha256.value) else None
    {
      assert Compared(d, digest);
    }
  }

  // ---------- frame by frame ----------

  /** The files waiting for their digest afterwards: those that came from the record of `id` keep its count. */
  ghost predicate Keeps(page: Page, finishing: seq<Finish>, id: FileId) {
    && |finishing| == |page.finishing|
    && forall k :: 0 <= k < |finishing| ==>
         var f := page.finishing[k];
         finishing[k] ==
           if f.meta.fileId == id && f.last == None
           then f.(last := Some(if id in page.recs then page.recs[id].recvBytes else 0)) else f
  }

  /** An announcement makes its file the session's. A record with the announced size is carried on under the new
      announcement; one with another size, or none, gives way to an empty one. */
  lemma AnnouncementStarts(page: Page, sid: nat, s: Session, meta: Meta)
    ensures
      var (p, t, answer) := OnMessage(page, sid, s, FMeta(meta));
      var id := meta.fileId;
      && t == Session(Some(id), s.index) && answer == None && p.done == page.done
      && p.recs.Keys == page.recs.Keys + {id}
      && (forall other <- page.recs :: other != id ==> p.recs[other] == page.recs[other])
      && if id in page.recs && page.recs[id].meta.size == meta.size
         then p.recs[id] == page.recs[id].(meta := meta) && p.finishing == page.finishing
         else p.recs[id] == RecvState(meta, map[], 0, 0, 0) && Keeps(page, p.finishing, id)
  {
  }

  /** A header tells a session that has a file which chunk is next; an end frees the session of that file, and with
      the mark of a cancellation the record goes; a question is answered with the bytes in front of the first gap. */
  lemma ControlFrames(page: Page, sid: nat, s: Session, id: FileId, n: nat, canceled: bool)
    ensures
      var index := if s.active.Some? then n else s.index;
      OnMessage(page, sid, s, FHead(id, n)) == (page, Session(s.active, index), None)
    ensures
      var (p, t, answer) := OnMessage(page, sid, s, FEnd(id, canceled));
      && t == Session(if s.active == Some(id) then None else s.active, s.index) && answer == None
      && p.done == page.done
      && if canceled then p.recs == page.recs - {id} && Keeps(page, p.finishing, id) else p == page
    ensures
      var got := if id in page.recs then page.recs[id].got else 0;
      OnMessage(page, sid, s, FResume(id)) == (page, s, Some(FResumeAck(id, got)))
    ensures OnMessage(page, sid, s, FResumeAck(id, n)) == (page, s, None)
  {
  }

  /** A chunk lands in the record of the session's file, at the announced index: the prefix then ends at the first
      index without a chunk, and the counters grow by the bytes the prefix gained and by those that arrived. The
      file is rebuilt as soon as the prefix holds the announced number of bytes. Without a file or without its
      record the bytes are dropped. */
  lemma ChunkLands(page: Page, sid: nat, s: Session, bytes: seq<byte>)
    ensures
      var (p, t, answer) := OnMessage(page, sid, s, Data(bytes));
      && t == s && answer == None && p.done == page.done
      && if s.active == None || s.active.value !in page.recs then p == page
         else
           var id := s.active.value;
           var was, rec := page.recs[id], p.recs[id];
           && p.recs == page.recs[id := rec]
           && rec.meta == was.meta && rec.chunks == was.chunks[s.index := bytes]
           && was.contig <= rec.contig && rec.contig !in rec.chunks
           && (forall i :: was.contig <= i < rec.contig ==> i in rec.chunks)
           && rec.got == was.got + Bytes(rec.chunks, was.contig, rec.contig)
           && rec.recvBytes == was.recvBytes + |bytes|
           && p.finishing == page.finishing +
                if rec.got >= rec.meta.size then [Finish(sid, rec.meta, Join(rec.chunks, rec.contig), None)] else []
  {
  }

  /** A ready digest hands the file over, once, and takes its record and every other rebuilt file's claim on it. */
  lemma ReadyHandsOver(page: Page, k: nat, digest: seq<byte> -> Digest)
    requires k < |page.finishing|
    ensures
      var fin, p := page.finishing[k], FinishEnd(page, k, digest);
      var id := fin.meta.fileId;
      && p.recs == page.recs - {id}
      && Keeps(page.(finishing := page.finishing[..k] + page.finishing[k + 1..]), p.finishing, id)
      && |p.done| == |page.done| + 1 && p.done[..|page.done|] == page.done
      && var d := p.done[|page.done|];
         && d.meta == fin.meta && d.blob == fin.blob && Compared(d, digest)
         && d.recvBytes ==
              if fin.last.Some? then fin.last.value else if id in page.recs then page.recs[id].recvBytes else 0
  {
  }

  // ---------- the sender's end ----------

  /** The sender keeps a file's source until a loop for it ends over an open channel: with all chunks of 65536 bytes
      sent, or by telling the receiver that it was cancelled. */
  lemma SourceKeptUntil(w: World, s: Sys, ev: Event, f: FileId)
    requires forall c :: 0 <= c < |s.chans| ==> s.chans[c].file in w.src
    ensures
      f in Step(w, s, ev).keeps <==>
        || (ev == Start(f) && f in w.src)
        || (f in s.keeps && !(
              && ev.AtSender? && ev.act == Turn && ev.c < |s.chans|
              && var ch := s.chans[ev.c];
                 && ch.file == f && ch.phase == Sending && ch.open
                 && if ch.canceled then !ch.silent else ch.next * 65536 >= |w.src[f]|))
  {
  }

  /** What a turn of the loop puts on the channel: the next chunk of 65536 bytes behind its header, as long as there
      is one and nothing stopped the loop; a cancellation that is not silent; nothing on a closed channel. */
  lemma TurnPuts(w: World, s: Sys, c: nat)
    requires c < |s.chans| && s.chans[c].file in w.src && s.chans[c].phase == Sending
    ensures
      var ch, t := s.chans[c], Step(w, s, AtSender(c, Turn));
      var src := w.src[ch.file];
      var goesOn := ch.open && !ch.canceled && ch.next * 65536 < |src|;
      && t.chans == s.chans[c := t.chans[c]] && t.page == s.page
      && t.chans[c] == ch.(phase := if goesOn then Sending else Halted, next := if goesOn then ch.next + 1 else ch.next,
                           sent := t.chans[c].sent)
      && t.chans[c].sent == ch.sent +
           if !ch.open then []
           else if ch.canceled then if ch.silent then [] else [FEnd(ch.file, true)]
           else if goesOn
           then [FHead(ch.file, ch.next), Data(src[ch.next * 65536..Min(ch.next * 65536 + 65536, |src|)])]
           else []
  {
  }

  /** The loop of a resumed session begins, with the announcement, at the chunk behind all the bytes the receiver
      has reported, or at 0 without an answer; answers that come later change nothing, and over a closed channel
      it does not begin. */
  lemma ResumeBegins(w: World, ch: Channel, act: Act)
    requires ch.file in w.src && (act == Timeout || (act == Ack && ch.acks != []))
    ensures
      var t := Acted(w, ch, act).0;
      var got := if act == Ack then Min(ch.acks[0], |w.src[ch.file]|) else 0;
      && t.acks == (if act == Ack then ch.acks[1..] else ch.acks)
      && if ch.phase != Awaiting then t == ch.(acks := t.acks)
         else if !ch.open then t == ch.(acks := t.acks, phase := Halted)
         else
           && t == ch.(acks := t.acks, phase := Sending, from := t.next, next := t.next,
                       sent := ch.sent + [FMeta(w.MetaOf(ch.file))])
           && t.next * 65536 >= got && (t.next > 0 ==> (t.next - 1) * 65536 < got)
  {
  }

  function Acting(w: World, ch: Channel, acts: seq<Act>): (r: Channel)
    requires ch.file in w.src
    ensures r.file == ch.file
    decreases |acts|
  {
    if acts == [] then ch else Acting(w, Acted(w, ch, acts[0]).0, acts[1..])
  }

  predicate Stops(a: Act) { a == Cancel || a == Interrupt }

  /** However often a running transfer is cancelled or interrupted before the loop's next turn, that turn ends the
      loop; the receiver is told exactly if there was no interruption, and then the source is given up. */
  lemma StoppedLoop(w: World, ch: Channel, acts: seq<Act>)
    requires ch.file in w.src && ch.phase == Sending && ch.open && !ch.canceled && !ch.silent
    requires acts != [] && forall a <- acts :: Stops(a)
    ensures
      var t, dropped := Acted(w, Acting(w, ch, acts), Turn).0, Acted(w, Acting(w, ch, acts), Turn).1;
      && t.phase == Halted && (dropped <==> Interrupt !in acts)
      && t.sent == ch.sent + if Interrupt in acts then [] else [FEnd(ch.file, true)]
  {
    Stopping(w, ch, acts);
    assert ch.sent + [] == ch.sent;
  }

  lemma {:induction false} Stopping(w: World, ch: Channel, acts: seq<Act>)
    requires ch.file in w.src && forall a <- acts :: Stops(a)
    ensures Acting(w, ch, acts) == ch.(canceled := ch.canceled || acts != [], silent := ch.silent || Interrupt in acts)
    decreases |acts|
  {
    if acts != [] {
      assert Stops(acts[0]) && acts == [acts[0]] + acts[1..];
      Stopping(w, Acted(w, ch, acts[0]).0, acts[1..]);
    }
  }
}
