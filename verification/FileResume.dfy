/** Resumption sends only what is missing, and is enough to finish the file. */
module FileResume {
  import opened Options
  import opened WsFrames
  import opened Arithmetic
  import opened FileTransfer
  import opened FileRuns

  // ---------- only missing chunks are sent again ----------

  /** Every resumed session waits for its answer; once the receiver has heard the beginning of a session the
      older sessions of that file deliver nothing more; and no cancellation arrives while a rebuilt copy of the
      same file still waits for its digest. */
  ghost predicate Orderly(s: Sys, ev: Event) {
    match ev
    case Start(f) => f !in s.latest
    case Resume(_) => true
    case AtSender(_, act) => act != Timeout
    case Deliver(c) =>
      c < |s.chans| && s.chans[c].delivered < |s.chans[c].sent| ==>
        var f, m := s.chans[c].file, s.chans[c].sent[s.chans[c].delivered];
        && (m.FResume? || (f in s.latest && s.latest[f] == c))
        && (m.FEnd? ==> !Waits(s.page, f))
    case Digested(_) => true
  }

  /** A rebuilt copy of the file waits for its digest. */
  ghost predicate Waits(page: Page, f: FileId) {
    exists k :: 0 <= k < |page.finishing| && page.finishing[k].meta.fileId == f
  }

  ghost predicate OrderlyRun(w: World, s: Sys, evs: seq<Event>)
    decreases |evs|
  {
    evs != [] ==> Orderly(s, evs[0]) && OrderlyRun(w, Step(w, s, evs[0]), evs[1..])
  }

  /** Chunks arrived in order, each once. */
  ghost predicate InOrder(rec: RecvState) {
    (forall i: nat :: i in rec.chunks <==> i < rec.contig) && rec.recvBytes == rec.got
  }

  ghost predicate Complete(rec: RecvState) { rec.got >= rec.meta.size }

  /** Chunk `i` is the first missing one, or there is nothing to send from there on. */
  predicate StartsRight(size: nat, contig: nat, i: nat) {
    i == contig || i * CHUNK >= size
  }

  /** Number of the chunk a session's next chunk frame carries. */
  function Position(ch: Channel): nat
    requires ch.delivered >= Lead(ch.sent)
  {
    if ch.delivered == Lead(ch.sent) then ch.from else ch.from + (ch.delivered - Lead(ch.sent) - 1) / 2
  }

  /** Without timeouts a session is in one of four simple shapes: asking, cut off before it began, sending, or
      at its end, perhaps behind a cancellation. */
  ghost predicate Shape(ch: Channel) {
    && (ch.phase == Awaiting ==> |ch.acks| == ch.delivered && |ch.sent| == Lead(ch.sent))
    && (ch.sent != [] && |ch.sent| == Lead(ch.sent) && ch.phase != Awaiting ==> !ch.open)
    && (|ch.sent| > Lead(ch.sent) ==>
          && ch.delivered >= Lead(ch.sent)
          && ch.from <= ch.next
          && (|ch.sent| == Lead(ch.sent) + 1 + 2 * (ch.next - ch.from)
              || (ch.phase == Halted && |ch.sent| == Lead(ch.sent) + 2 + 2 * (ch.next - ch.from))))
  }

  /** Where the latest session of a file stands, compared with the file's record (`contig` 0 if none). */
  ghost predicate Aligned(ch: Channel, size: nat, known: bool, contig: nat) {
    if ch.phase == Awaiting then
      ch.delivered == 1 == |ch.acks| && StartsRight(size, contig, StartIndex(ch.acks[0], size, CHUNK))
    else
      |ch.sent| > Lead(ch.sent) ==>
        if ch.delivered <= Lead(ch.sent) then StartsRight(size, contig, ch.from)
        else known && ch.recv.active.Some? ==> StartsRight(size, contig, Position(ch))
  }

  function Contig(page: Page, f: FileId): nat { if f in page.recs then page.recs[f].contig else 0 }

  ghost predicate LatestOk(w: World, s: Sys, f: FileId)
    requires f in s.latest && f in w.src
  {
    var c := s.latest[f];
    && c < |s.chans| && s.chans[c].file == f
    && Shape(s.chans[c])
    && Aligned(s.chans[c], |w.src[f]|, f in s.page.recs, Contig(s.page, f))
  }

  /** At most one rebuilt file per record waits for its digest, and only a complete one does. */
  ghost predicate FinishingOk(page: Page) {
    && (forall k :: 0 <= k < |page.finishing| ==>
          var fin := page.finishing[k];
          && fin.meta.fileId in page.recs && Complete(page.recs[fin.meta.fileId])
          && page.recs[fin.meta.fileId].meta == fin.meta && fin.last.None?)
    && (forall k, l :: 0 <= k < l < |page.finishing| ==> page.finishing[k].meta.fileId != page.finishing[l].meta.fileId)
    && (forall d <- page.done :: d.recvBytes == d.meta.size)
  }

  ghost predicate OrderlyInv(w: World, s: Sys) {
    Inv(w, s) && Tidy(w, s)
  }

  ghost predicate Tidy(w: World, s: Sys) {
    && RecordsTidy(s)
    && (forall c :: 0 <= c < |s.chans| ==> Shape(s.chans[c]))
    && LatestTidy(w, s)
    && FinishingOk(s.page)
  }

  ghost predicate RecordsTidy(s: Sys) {
    forall f <- s.page.recs :: InOrder(s.page.recs[f]) && f in s.latest
  }

  ghost predicate LatestTidy(w: World, s: Sys) {
    forall f <- s.latest :: f in w.src && LatestOk(w, s, f)
  }

  /** A chunk landing at the first gap extends the prefix by exactly one. */
  lemma LandInOrder(rec: RecvState, src: seq<byte>)
    requires Faithful(rec, src, CHUNK) && InOrder(rec) && rec.contig * CHUNK < |src|
    ensures
      var r := Land(rec, rec.contig, Slice(src, CHUNK, rec.contig));
      InOrder(r) && r.contig == rec.contig + 1 && r.meta == rec.meta
  {
    var chunks := rec.chunks[rec.contig := Slice(src, CHUNK, rec.contig)];
    assert FirstGap(chunks, rec.contig + 1) == rec.contig + 1;
    var k := rec.contig;
    assert Bytes(chunks, k, k + 1) == |chunks[k]| + Bytes(chunks, k + 1, k + 1);
  }

  lemma CompleteMeansPast(rec: RecvState, src: seq<byte>)
    requires Faithful(rec, src, CHUNK)
    ensures Complete(rec) <==> rec.contig * CHUNK >= |src|
    ensures InOrder(rec) && Complete(rec) ==> rec.recvBytes == rec.meta.size
  {
  }

  /** The session after one more frame, given the state it moves to and the answers waiting for it. */
  function Advanced(ch: Channel, recv: Session, acks: seq<nat>): Channel {
    ch.(delivered := ch.delivered + 1, recv := recv, acks := acks)
  }

  ghost predicate RecordOrderly(w: World, f: FileId, page: Page) {
    f in page.recs ==> RecOk(w, f, page.recs[f]) && InOrder(page.recs[f])
  }

  /** A session's question is answered with the first missing chunk. */
  lemma AnswerAligned(w: World, ch: Channel, page: Page, c: nat)
    requires ch.file in w.src && SessionOk(ch) && Shape(ch) && RecordOrderly(w, ch.file, page)
    requires ch.open && ch.delivered < |ch.sent| && FrameIs(w, ch, ch.delivered) && ch.sent[ch.delivered].FResume?
    ensures
      var (p, recv, answer) := OnMessage(page, c, ch.recv, ch.sent[ch.delivered]);
      && answer.Some? && answer.value.FResumeAck? && p == page
      && var ch' := Advanced(ch, recv, ch.acks + [answer.value.got]);
         Shape(ch') && Aligned(ch', |w.src[ch.file]|, ch.file in page.recs, Contig(page, ch.file))
  {
    var f := ch.file;
    assert ch.phase == Awaiting && ch.acks == [];
    if f in page.recs {
      ResumeAtFirstGap(page.recs[f], w.src[f], CHUNK);
    }
  }

  /** Any other frame leaves the latest session aligned with the record, and the record in order. */
  lemma FrameAligned(w: World, ch: Channel, page: Page, c: nat)
    requires ch.file in w.src && SessionOk(ch) && Shape(ch) && RecordOrderly(w, ch.file, page)
    requires ch.delivered < |ch.sent| && FrameIs(w, ch, ch.delivered) && !ch.sent[ch.delivered].FResume?
    requires Aligned(ch, |w.src[ch.file]|, ch.file in page.recs, Contig(page, ch.file))
    ensures
      var (p, recv, answer) := OnMessage(page, c, ch.recv, ch.sent[ch.delivered]);
      var ch' := Advanced(ch, recv, ch.acks);
      && answer.None? && Shape(ch')
      && Aligned(ch', |w.src[ch.file]|, ch.file in p.recs, Contig(p, ch.file))
      && (ch.file in p.recs ==> InOrder(p.recs[ch.file]))
  {
    var j := ch.delivered - Lead(ch.sent);
    assert j >= 0 && |ch.sent| > Lead(ch.sent) && ch.phase != Awaiting;
    match ch.sent[ch.delivered]
    case Data(_) => DataAligned(w, ch, page, c);
    case FHead(_, _) => assert j % 2 == 1;
    case FMeta(_) => assert j == 0;
    case FEnd(_, _) =>
  }

  lemma DataAligned(w: World, ch: Channel, page: Page, c: nat)
    requires ch.file in w.src && SessionOk(ch) && Shape(ch) && RecordOrderly(w, ch.file, page)
    requires ch.delivered < |ch.sent| && FrameIs(w, ch, ch.delivered) && ch.sent[ch.delivered].Data?
    requires |ch.sent| > Lead(ch.sent) && ch.phase != Awaiting && ch.delivered > Lead(ch.sent)
    requires Aligned(ch, |w.src[ch.file]|, ch.file in page.recs, Contig(page, ch.file))
    ensures
      var (p, recv, answer) := OnMessage(page, c, ch.recv, ch.sent[ch.delivered]);
      var ch' := Advanced(ch, recv, ch.acks);
      && answer.None? && Shape(ch')
      && Aligned(ch', |w.src[ch.file]|, ch.file in p.recs, Contig(p, ch.file))
      && (ch.file in p.recs ==> InOrder(p.recs[ch.file]))
  {
    var f := ch.file;
    ChunkComing(w, ch);
    if ch.recv.active.Some? && f in page.recs {
      assert ch.recv.index == page.recs[f].contig;
      LandInOrder(page.recs[f], w.src[f]);
    }
  }

  /** A chunk on its way is the one at the session's position, and the session knows it. */
  lemma ChunkComing(w: World, ch: Channel)
    requires ch.file in w.src && SessionOk(ch) && ch.delivered < |ch.sent| && FrameIs(w, ch, ch.delivered)
    requires ch.sent[ch.delivered].Data? && ch.delivered > Lead(ch.sent)
    ensures
      var i := Position(ch);
      && i * CHUNK < |w.src[ch.file]| && ch.sent[ch.delivered] == Data(Slice(w.src[ch.file], CHUNK, i))
      && (ch.recv.active.Some? ==> ch.recv.index == i)
      && forall recv, acks :: Position(Advanced(ch, recv, acks)) == i + 1
  {
    assert (ch.delivered - Lead(ch.sent)) % 2 == 0;
  }

  /** Delivering one frame keeps the waiting rebuilt files tied to complete records. */
  lemma FrameFinishing(w: World, ch: Channel, page: Page, c: nat)
    requires ch.file in w.src && SessionOk(ch) && RecordOrderly(w, ch.file, page) && FinishingOk(page)
    requires ch.delivered < |ch.sent| && FrameIs(w, ch, ch.delivered) && ch.delivered >= Lead(ch.sent)
    requires ch.sent[ch.delivered].FEnd? ==> !Waits(page, ch.file)
    requires ch.delivered > Lead(ch.sent) && ch.file in page.recs && ch.recv.active.Some? ==>
      StartsRight(|w.src[ch.file]|, page.recs[ch.file].contig, Position(ch))
    ensures FinishingOk(OnMessage(page, c, ch.recv, ch.sent[ch.delivered]).0)
  {
    var f := ch.file;
    match ch.sent[ch.delivered]
    case Data(bytes) =>
      if ch.recv.active.Some? && f in page.recs {
        ChunkComing(w, ch);
        assert ch.recv.index == page.recs[f].contig;
        ChunkFinishing(w, f, ch.recv, page, c);
      }
    case FMeta(_) => MetaFinishing(w, f, ch.recv, page, c);
    case FHead(_, _) =>
    case FEnd(_, _) => assert forall k :: 0 <= k < |page.finishing| ==> page.finishing[k].meta.fileId != f;
    case FResume(_) => assert false;
    case FResumeAck(_, _) => assert false;
  }

  lemma MetaFinishing(w: World, f: FileId, recv: Session, page: Page, c: nat)
    requires f in w.src && RecordOrderly(w, f, page) && FinishingOk(page)
    ensures FinishingOk(OnMessage(page, c, recv, FMeta(w.MetaOf(f))).0)
  {
    var p := OnMessage(page, c, recv, FMeta(w.MetaOf(f))).0;
    assert p.finishing == page.finishing && p.done == page.done;
    assert f in page.recs ==> p.recs == page.recs[f := page.recs[f]];
  }

  /** The chunk at the first gap arrives: it completes the record at most once. */
  lemma ChunkFinishing(w: World, f: FileId, recv: Session, page: Page, c: nat)
    requires f in page.recs && RecordOrderly(w, f, page) && FinishingOk(page) && recv.active == Some(f)
    requires recv.index == page.recs[f].contig && recv.index * CHUNK < |w.src[f]|
    ensures FinishingOk(OnMessage(page, c, recv, Data(Slice(w.src[f], CHUNK, recv.index))).0)
  {
    var rec := page.recs[f];
    CompleteMeansPast(rec, w.src[f]);
    LandInOrder(rec, w.src[f]);
    LandFaithful(rec, rec.contig, w.src[f], CHUNK);
    CompleteMeansPast(Land(rec, rec.contig, Slice(w.src[f], CHUNK, rec.contig)), w.src[f]);
    assert forall k :: 0 <= k < |page.finishing| ==> page.finishing[k].meta.fileId != f;
  }

  /** The page's records and channel `c` have changed as far as file `f` is concerned, nothing else has. */
  lemma OthersUntouched(w: World, s: Sys, t: Sys, c: nat, f: FileId)
    requires Tidy(w, s)
    requires c < |s.chans| == |t.chans| && s.chans[c].file == t.chans[c].file == f && f in w.src
    requires forall i :: 0 <= i < |s.chans| && i != c ==> t.chans[i] == s.chans[i]
    requires t.latest == s.latest[f := c]
    requires forall g :: g != f ==> (g in s.page.recs <==> g in t.page.recs)
    requires forall g <- t.page.recs :: g != f ==> t.page.recs[g] == s.page.recs[g]
    requires Shape(t.chans[c]) && Aligned(t.chans[c], |w.src[f]|, f in t.page.recs, Contig(t.page, f))
    requires f in t.page.recs ==> InOrder(t.page.recs[f])
    requires FinishingOk(t.page)
    ensures Tidy(w, t)
  {
    OthersLatest(w, s, t, c, f);
    assert RecordsTidy(t);
  }

  lemma OthersLatest(w: World, s: Sys, t: Sys, c: nat, f: FileId)
    requires c < |s.chans| == |t.chans| && s.chans[c].file == t.chans[c].file == f && f in w.src
    requires LatestTidy(w, s)
    requires forall i :: 0 <= i < |s.chans| && i != c ==> t.chans[i] == s.chans[i]
    requires t.latest == s.latest[f := c]
    requires forall g :: g != f ==> (g in s.page.recs <==> g in t.page.recs)
    requires forall g <- t.page.recs :: g != f ==> t.page.recs[g] == s.page.recs[g]
    requires Shape(t.chans[c]) && Aligned(t.chans[c], |w.src[f]|, f in t.page.recs, Contig(t.page, f))
    ensures LatestTidy(w, t)
  {
    forall g <- t.latest ensures g in w.src && LatestOk(w, t, g) {
      if g != f {
        assert LatestOk(w, s, g);
        SameLatest(w, s, t, c, g);
      }
    }
  }

  lemma SameLatest(w: World, s: Sys, t: Sys, c: nat, g: FileId)
    requires g in s.latest && g in w.src && LatestOk(w, s, g)
    requires c < |s.chans| == |t.chans| && s.chans[c].file != g
    requires forall i :: 0 <= i < |s.chans| && i != c ==> t.chans[i] == s.chans[i]
    requires g in t.latest && t.latest[g] == s.latest[g]
    requires (g in s.page.recs <==> g in t.page.recs) && (g in t.page.recs ==> t.page.recs[g] == s.page.recs[g])
    ensures LatestOk(w, t, g)
  {
  }

  /** A frame touches the record of its own file only. */
  lemma OnlyOwnRecord(w: World, f: FileId, recv: Session, m: Msg, page: Page, c: nat)
    requires HonestNext(w, f, recv, m)
    ensures
      var p := OnMessage(page, c, recv, m).0;
      && (forall g :: g != f ==> (g in page.recs <==> g in p.recs))
      && (forall g <- p.recs :: g != f ==> p.recs[g] == page.recs[g])
  {
  }

  lemma TidyAnswer(w: World, s: Sys, c: nat)
    requires Tidy(w, s)
    requires c < |s.chans| && s.chans[c].open && s.chans[c].delivered < |s.chans[c].sent|
    requires s.chans[c].file in w.src && SessionOk(s.chans[c]) && FrameIs(w, s.chans[c], s.chans[c].delivered)
    requires RecordOrderly(w, s.chans[c].file, s.page) && s.chans[c].sent[s.chans[c].delivered].FResume?
    ensures Tidy(w, Step(w, s, Deliver(c)))
  {
    AnswerAligned(w, s.chans[c], s.page, c);
    OthersUntouched(w, s, Step(w, s, Deliver(c)), c, s.chans[c].file);
  }

  lemma TidyFrame(w: World, s: Sys, c: nat)
    requires Tidy(w, s)
    requires c < |s.chans| && s.chans[c].open && s.chans[c].delivered < |s.chans[c].sent|
    requires s.chans[c].file in w.src && SessionOk(s.chans[c]) && FrameIs(w, s.chans[c], s.chans[c].delivered)
    requires RecordOrderly(w, s.chans[c].file, s.page) && !s.chans[c].sent[s.chans[c].delivered].FResume?
    requires s.chans[c].file in s.latest && s.latest[s.chans[c].file] == c
    requires s.chans[c].sent[s.chans[c].delivered].FEnd? ==> !Waits(s.page, s.chans[c].file)
    ensures Tidy(w, Step(w, s, Deliver(c)))
  {
    var ch := s.chans[c];
    var f := ch.file;
    assert LatestOk(w, s, f);
    FrameAligned(w, ch, s.page, c);
    FrameFinishing(w, ch, s.page, c);
    FrameTouches(w, s, c);
    OthersUntouched(w, s, Step(w, s, Deliver(c)), c, f);
  }

  /** Delivering any frame but a question changes its channel and the record of its file. */
  lemma FrameTouches(w: World, s: Sys, c: nat)
    requires c < |s.chans| && s.chans[c].open && s.chans[c].delivered < |s.chans[c].sent|
    requires s.chans[c].file in w.src && SessionOk(s.chans[c]) && FrameIs(w, s.chans[c], s.chans[c].delivered)
    requires !s.chans[c].sent[s.chans[c].delivered].FResume?
    requires s.chans[c].file in s.latest && s.latest[s.chans[c].file] == c
    ensures
      var ch, t := s.chans[c], Step(w, s, Deliver(c));
      var (p, recv, answer) := OnMessage(s.page, c, ch.recv, ch.sent[ch.delivered]);
      && answer.None? && t.page == p && t.chans == s.chans[c := Advanced(ch, recv, ch.acks)]
      && t.latest == s.latest[ch.file := c]
      && (forall g :: g != ch.file ==> (g in s.page.recs <==> g in p.recs))
      && (forall g <- p.recs :: g != ch.file ==> p.recs[g] == s.page.recs[g])
  {
    var ch := s.chans[c];
    NextIsHonest(w, ch);
    OnlyOwnRecord(w, ch.file, ch.recv, ch.sent[ch.delivered], s.page, c);
    assert s.latest == s.latest[ch.file := c];
  }

  lemma FinishingAfterDigest(page: Page, k: nat, digest: seq<byte> -> Digest)
    requires FinishingOk(page) && k < |page.finishing|
    requires
      var rec := page.recs[page.finishing[k].meta.fileId];
      rec.recvBytes == rec.meta.size
    ensures FinishingOk(FinishEnd(page, k, digest))
  {
    var p := FinishEnd(page, k, digest);
    forall i | 0 <= i < |p.finishing| ensures p.finishing[i] == page.finishing[if i < k then i else i + 1] {
    }
  }

  /** Ending the session's reception never hurts; dropping the complete record does not either. */
  lemma AlignedAfterDigest(ch: Channel, size: nat, known: bool, contig: nat)
    requires Shape(ch) && Aligned(ch, size, known, contig)
    ensures Aligned(ch.(recv := ch.recv.(active := None)), size, known, contig)
    ensures contig * CHUNK >= size ==>
      Aligned(ch, size, false, 0) && Aligned(ch.(recv := ch.recv.(active := None)), size, false, 0)
  {
  }

  lemma LatestAfterDigest(w: World, s: Sys, k: nat, g: FileId)
    requires k < |s.page.finishing| && g in s.latest && g in w.src && LatestOk(w, s, g)
    requires
      var f := s.page.finishing[k].meta.fileId;
      f in w.src && f in s.page.recs && s.page.recs[f].contig * CHUNK >= |w.src[f]|
    ensures LatestOk(w, Step(w, s, Digested(k)), g)
  {
    AlignedAfterDigest(s.chans[s.latest[g]], |w.src[g]|, g in s.page.recs, Contig(s.page, g));
  }

  lemma TidyDigested(w: World, s: Sys, k: nat)
    requires Tidy(w, s) && k < |s.page.finishing|
    requires
      var f := s.page.finishing[k].meta.fileId;
      && f in w.src && f in s.page.recs && s.page.recs[f].contig * CHUNK >= |w.src[f]|
      && s.page.recs[f].recvBytes == s.page.recs[f].meta.size
    ensures Tidy(w, Step(w, s, Digested(k)))
  {
    var t := Step(w, s, Digested(k));
    FinishingAfterDigest(s.page, k, w.digest);
    forall g <- t.latest ensures g in w.src && LatestOk(w, t, g) {
      LatestAfterDigest(w, s, k, g);
    }
  }

  lemma OrderlyActed(w: World, ch: Channel, act: Act, size: nat, known: bool, contig: nat)
    requires ch.file in w.src && |w.src[ch.file]| == size && Shape(ch)
    requires ch.sent != []
    requires act != Timeout
    ensures Shape(Acted(w, ch, act).0)
    ensures Aligned(ch, size, known, contig) ==> Aligned(Acted(w, ch, act).0, size, known, contig)
  {
    match act
    case Turn => if ch.phase == Sending { TurnAligned(w, ch, size, known, contig); }
    case Ack => if ch.acks != [] { AckAligned(w, ch, size, known, contig); }
    case _ =>
  }

  lemma TurnAligned(w: World, ch: Channel, size: nat, known: bool, contig: nat)
    requires ch.file in w.src && Shape(ch) && ch.sent != [] && ch.phase == Sending
    ensures Shape(SendTurn(w, ch).0)
    ensures Aligned(ch, size, known, contig) ==> Aligned(SendTurn(w, ch).0, size, known, contig)
  {
    assert Lead(SendTurn(w, ch).0.sent) == Lead(ch.sent);
  }

  lemma AckAligned(w: World, ch: Channel, size: nat, known: bool, contig: nat)
    requires ch.file in w.src && |w.src[ch.file]| == size && Shape(ch) && ch.sent != [] && ch.acks != []
    ensures Shape(Acted(w, ch, Ack).0)
    ensures Aligned(ch, size, known, contig) ==> Aligned(Acted(w, ch, Ack).0, size, known, contig)
  {
    if ch.phase == Awaiting {
      assert Lead(Acted(w, ch, Ack).0.sent) == Lead(ch.sent) == 1;
    }
  }

  lemma TidyActed(w: World, s: Sys, c: nat, act: Act)
    requires Tidy(w, s) && act != Timeout
    requires c < |s.chans| && s.chans[c].file in w.src && s.chans[c].sent != []
    ensures Tidy(w, Step(w, s, AtSender(c, act)))
  {
    var t := Step(w, s, AtSender(c, act));
    var f := s.chans[c].file;
    OrderlyActed(w, s.chans[c], act, |w.src[f]|, f in s.page.recs, Contig(s.page, f));
    forall g <- t.latest ensures g in w.src && LatestOk(w, t, g) {
      assert LatestOk(w, s, g);
    }
  }

  lemma TidyOpened(w: World, s: Sys, ev: Event)
    requires Tidy(w, s) && Orderly(s, ev) && (ev.Start? || ev.Resume?)
    ensures Tidy(w, Step(w, s, ev))
  {
    var t := Step(w, s, ev);
    forall g <- t.latest ensures g in w.src && LatestOk(w, t, g) {
      if g in s.latest {
        assert LatestOk(w, s, g);
      }
    }
  }

  lemma OrderlyStep(w: World, s: Sys, ev: Event)
    requires OrderlyInv(w, s) && Orderly(s, ev)
    ensures OrderlyInv(w, Step(w, s, ev))
  {
    StepKeepsInv(w, s, ev);
    match ev
    case Deliver(c) =>
      if c < |s.chans| && s.chans[c].open && s.chans[c].delivered < |s.chans[c].sent| {
        FrameAt(w, s.chans[c], s.chans[c].delivered);
        if s.chans[c].sent[s.chans[c].delivered].FResume? {
          TidyAnswer(w, s, c);
        } else {
          TidyFrame(w, s, c);
        }
      }
    case Digested(k) =>
      if k < |s.page.finishing| {
        var f := s.page.finishing[k].meta.fileId;
        CompleteMeansPast(s.page.recs[f], w.src[f]);
        TidyDigested(w, s, k);
      }
    case AtSender(c, act) =>
      if c < |s.chans| {
        TidyActed(w, s, c, act);
      }
    case _ =>
      TidyOpened(w, s, ev);
  }

  /** If every resume is answered, older sessions fall silent once it is, and no cancellation overtakes the
      digest of its own file, no chunk is ever received twice: every file handed over cost exactly its size in
      received bytes, over any number of interruptions and cancellations. */
  lemma {:induction false} OnlyMissingBytesAreSent(w: World, s: Sys, evs: seq<Event>)
    requires OrderlyInv(w, s) && OrderlyRun(w, s, evs)
    ensures OrderlyInv(w, Run(w, s, evs))
    ensures forall d <- Run(w, s, evs).page.done :: d.recvBytes == d.meta.size
    ensures
      var page := Run(w, s, evs).page;
      forall f <- page.recs :: page.recs[f].recvBytes == page.recs[f].got
    decreases |evs|
  {
    if evs != [] {
      OrderlyStep(w, s, evs[0]);
      OnlyMissingBytesAreSent(w, Step(w, s, evs[0]), evs[1..]);
    }
  }

  lemma {:induction false} OrderlyFromTheStart(w: World, evs: seq<Event>)
    requires OrderlyRun(w, Init(), evs)
    ensures
      var page := Run(w, Init(), evs).page;
      && (forall d <- page.done :: d.recvBytes == d.meta.size)
      && (forall f <- page.recs :: page.recs[f].recvBytes == page.recs[f].got)
  {
    OnlyMissingBytesAreSent(w, Init(), evs);
  }

  // ---------- a resumed session is enough ----------

  /** A run of frames arriving on one session. */
  function DeliverAll(page: Page, c: nat, recv: Session, ms: seq<Msg>): (Page, Session) {
    if ms == [] then (page, recv)
    else
      var (p, s) := DeliverAll(page, c, recv, ms[..|ms| - 1]);
      var (p', s', _) := OnMessage(p, c, s, ms[|ms| - 1]);
      (p', s')
  }

  lemma DeliverTwo(page: Page, c: nat, recv: Session, ms: seq<Msg>, a: Msg, b: Msg)
    ensures
      var (p, s) := DeliverAll(page, c, recv, ms);
      var (p1, s1, _) := OnMessage(p, c, s, a);
      var (p2, s2, _) := OnMessage(p1, c, s1, b);
      DeliverAll(page, c, recv, ms + [a, b]) == (p2, s2)
  {
    var all := ms + [a, b];
    assert all[..|all| - 1] == ms + [a];
    assert (ms + [a])[..|ms + [a]| - 1] == ms;
  }

  /** The page and session after the loop's script from `from` to `next` has been delivered: the prefix
      covers it, the bytes received are those of its chunks, and if it reached the end of a file that
      was incomplete, that file has been rebuilt. */
  ghost predicate ScriptTaken(w: World, f: FileId, page: Page, from: nat, next: nat, p: Page, s: Session) {
    && f in w.src && f in p.recs && RecOk(w, f, p.recs[f]) && s.active == Some(f) && next <= p.recs[f].contig
    && p.recs[f].recvBytes == (if f in page.recs then page.recs[f].recvBytes else 0)
                              + Min(next * CHUNK, |w.src[f]|) - Min(from * CHUNK, |w.src[f]|)
    && |p.finishing| >= |page.finishing|
    && (from == next ==> |p.finishing| == |page.finishing|)
    && (from < next && next * CHUNK >= |w.src[f]| ==>
          && |p.finishing| > |page.finishing|
          && p.finishing[|p.finishing| - 1].blob == w.src[f]
          && p.finishing[|p.finishing| - 1].meta == w.MetaOf(f))
  }

  lemma {:induction false} ScriptDelivered(w: World, f: FileId, page: Page, c: nat, from: nat, next: nat)
    requires f in w.src && from <= next && (from < next ==> (next - 1) * CHUNK < |w.src[f]|)
    requires f in page.recs ==> RecOk(w, f, page.recs[f])
    requires from == Contig(page, f)
    ensures
      var (p, s) := DeliverAll(page, c, Session(None, 0), Script(w, f, from, next));
      ScriptTaken(w, f, page, from, next, p, s)
  {
    var src := w.src[f];
    if from == next {
      AnnouncementTaken(w, f, page, c);
    } else {
      var i := next - 1;
      assert from < i ==> (i - 1) * CHUNK < |src|;
      ScriptDelivered(w, f, page, c, from, i);
      var script := Script(w, f, from, i);
      assert Script(w, f, from, next) == script + [FHead(f, i), Data(Slice(src, CHUNK, i))];
      DeliverTwo(page, c, Session(None, 0), script, FHead(f, i), Data(Slice(src, CHUNK, i)));
      var (p, s) := DeliverAll(page, c, Session(None, 0), script);
      ChunkTaken(w, f, page, from, i, p, s, c);
    }
  }

  lemma AnnouncementTaken(w: World, f: FileId, page: Page, c: nat)
    requires f in w.src && (f in page.recs ==> RecOk(w, f, page.recs[f]))
    ensures
      var (p, s) := DeliverAll(page, c, Session(None, 0), [FMeta(w.MetaOf(f))]);
      ScriptTaken(w, f, page, Contig(page, f), Contig(page, f), p, s)
  {
    FreshFaithful(w.MetaOf(f), w.src[f], CHUNK);
    var ms := [FMeta(w.MetaOf(f))];
    assert ms[..|ms| - 1] == [];
    assert DeliverAll(page, c, Session(None, 0), []) == (page, Session(None, 0));
  }

  /** Header and chunk `i` after the script up to `i`. */
  lemma ChunkTaken(w: World, f: FileId, page: Page, from: nat, i: nat, p: Page, s: Session, c: nat)
    requires ScriptTaken(w, f, page, from, i, p, s) && from <= i && i * CHUNK < |w.src[f]|
    ensures
      var (p1, s1, _) := OnMessage(p, c, s, FHead(f, i));
      var (p2, s2, _) := OnMessage(p1, c, s1, Data(Slice(w.src[f], CHUNK, i)));
      ScriptTaken(w, f, page, from, i + 1, p2, s2)
  {
    LandAfterPrefix(p.recs[f], i, w.src[f]);
    assert (i + 1) * CHUNK == i * CHUNK + CHUNK;
  }

  lemma LandAfterPrefix(rec: RecvState, i: nat, src: seq<byte>)
    requires Faithful(rec, src, CHUNK) && i <= rec.contig && i * CHUNK < |src|
    ensures
      var r := Land(rec, i, Slice(src, CHUNK, i));
      && Faithful(r, src, CHUNK) && i + 1 <= r.contig
      && r.recvBytes == rec.recvBytes + Min((i + 1) * CHUNK, |src|) - i * CHUNK
      && ((i + 1) * CHUNK >= |src| ==> r.got >= r.meta.size && Join(r.chunks, r.contig) == src && src != [])
  {
    var r := Land(rec, i, Slice(src, CHUNK, i));
    LandFaithful(rec, i, src, CHUNK);
    RebuiltIsSource(r, src, CHUNK);
    assert (i + 1) * CHUNK == i * CHUNK + CHUNK;
  }

  lemma CountCovers(size: nat)
    ensures size > 0 ==> CeilDiv(size, CHUNK) > 0 && (CeilDiv(size, CHUNK) - 1) * CHUNK < size
    ensures size <= CeilDiv(size, CHUNK) * CHUNK
  {
  }

  /** Whatever interruptions left behind, delivering what one resumed session sends rebuilds the source
      at the cost of exactly the bytes that were missing; this works for every file but an empty one. */
  lemma ResumeCompletes(w: World, f: FileId, page: Page, c: nat)
    requires f in w.src
    requires f in page.recs ==> RecOk(w, f, page.recs[f]) && !Complete(page.recs[f])
    ensures
      var src := w.src[f];
      var got := if f in page.recs then page.recs[f].got else 0;
      var from := StartIndex(got, |src|, CHUNK);
      && from <= Count(src) && (from < Count(src) ==> (Count(src) - 1) * CHUNK < |src|)
      && var (p, _) := DeliverAll(page, c, Session(None, 0), Script(w, f, from, Count(src)));
         && f in p.recs && RecOk(w, f, p.recs[f]) && Complete(p.recs[f])
         && p.recs[f].recvBytes == (if f in page.recs then page.recs[f].recvBytes else 0) + |src| - got
         && (|p.finishing| > |page.finishing| <==> src != [])
         && (src != [] ==> p.finishing != [] && p.finishing[|p.finishing| - 1].blob == src)
  {
    var src, n := w.src[f], Count(w.src[f]);
    var from := Contig(page, f);
    ResumeStart(w, f, page);
    ScriptDelivered(w, f, page, c, from, n);
    var (p, _) := DeliverAll(page, c, Session(None, 0), Script(w, f, from, n));
    CompleteMeansPast(p.recs[f], src);
    assert from == n <==> src == [];
  }

  /** A resumed session starts at the first gap, in front of the end of the file unless that is empty. */
  lemma ResumeStart(w: World, f: FileId, page: Page)
    requires f in w.src
    requires f in page.recs ==> RecOk(w, f, page.recs[f]) && !Complete(page.recs[f])
    ensures
      var src := w.src[f];
      var got := if f in page.recs then page.recs[f].got else 0;
      var from, n := Contig(page, f), Count(src);
      && StartIndex(got, |src|, CHUNK) == from && got == from * CHUNK
      && from <= n && (from == n <==> src == []) && (from < n ==> (n - 1) * CHUNK < |src|) && |src| <= n * CHUNK
  {
    var src, n := w.src[f], Count(w.src[f]);
    CountCovers(|src|);
    if f in page.recs {
      ResumeAtFirstGap(page.recs[f], src, CHUNK);
      CompleteMeansPast(page.recs[f], src);
    }
  }
}
