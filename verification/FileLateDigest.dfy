/** The one way a cancellation makes a transfer receive bytes twice: it arrives while a rebuilt copy of the file
    still waits for its digest. Told as a run from the empty page. */
module FileLateDigest {
  import opened Options
  import opened WsFrames
  import opened Arithmetic
  import opened FileTransfer
  import opened FileRuns
  import opened FileResume

  /** A file of two chunks, announced with its digest. */
  predicate TwoChunks(w: World, f: FileId) { f in w.src && f in w.hashed && CHUNK < |w.src[f]| <= 2 * CHUNK }

  function First(w: World, f: FileId): seq<byte>
    requires TwoChunks(w, f)
  {
    Slice(w.src[f], CHUNK, 0)
  }

  function Second(w: World, f: FileId): seq<byte>
    requires TwoChunks(w, f)
  {
    Slice(w.src[f], CHUNK, 1)
  }

  // ---------- the records on the way ----------

  function NoChunk(w: World, f: FileId): RecvState
    requires TwoChunks(w, f)
  {
    RecvState(w.MetaOf(f), map[], 0, 0, 0)
  }

  function OneChunk(w: World, f: FileId): RecvState
    requires TwoChunks(w, f)
  {
    RecvState(w.MetaOf(f), map[0 := First(w, f)], 1, CHUNK, CHUNK)
  }

  function BothChunks(w: World, f: FileId): RecvState
    requires TwoChunks(w, f)
  {
    RecvState(w.MetaOf(f), map[0 := First(w, f), 1 := Second(w, f)], 2, |w.src[f]|, |w.src[f]|)
  }

  /** The second chunk behind a gap. */
  function Gap(w: World, f: FileId): RecvState
    requires TwoChunks(w, f)
  {
    RecvState(w.MetaOf(f), map[1 := Second(w, f)], 0, 0, |w.src[f]| - CHUNK)
  }

  lemma Lands(w: World, f: FileId)
    requires TwoChunks(w, f)
    ensures Land(NoChunk(w, f), 0, First(w, f)) == OneChunk(w, f)
    ensures Land(OneChunk(w, f), 1, Second(w, f)) == BothChunks(w, f)
    ensures Land(NoChunk(w, f), 1, Second(w, f)) == Gap(w, f)
    ensures Join(BothChunks(w, f).chunks, 2) == w.src[f]
    ensures StartIndex(CHUNK, |w.src[f]|, CHUNK) == 1
  {
    var src := w.src[f];
    FreshFaithful(w.MetaOf(f), src, CHUNK);
    LandsFirst(w, f);
    LandsSecond(w, f);
    LandsBehindGap(w, f);
    CeilDivUnique(CHUNK, CHUNK, 1);
  }

  lemma LandsFirst(w: World, f: FileId)
    requires TwoChunks(w, f)
    ensures Land(NoChunk(w, f), 0, First(w, f)) == OneChunk(w, f)
  {
    var chunks := map[0 := First(w, f)];
    assert NoChunk(w, f).chunks[0 := First(w, f)] == chunks;
    assert FirstGap(chunks, 1) == 1 && FirstGap(chunks, 0) == 1;
    assert Bytes(chunks, 1, 1) == 0 && Bytes(chunks, 0, 1) == CHUNK;
  }

  lemma LandsSecond(w: World, f: FileId)
    requires TwoChunks(w, f)
    ensures Land(OneChunk(w, f), 1, Second(w, f)) == BothChunks(w, f)
    ensures Join(BothChunks(w, f).chunks, 2) == w.src[f]
  {
    var chunks := map[0 := First(w, f), 1 := Second(w, f)];
    assert OneChunk(w, f).chunks[1 := Second(w, f)] == chunks;
    assert FirstGap(chunks, 2) == 2 && FirstGap(chunks, 1) == 2;
    assert Bytes(chunks, 2, 2) == 0 && Bytes(chunks, 1, 2) == |w.src[f]| - CHUNK;
    assert Join(chunks, 0) == [] && Join(chunks, 1) == First(w, f);
    assert Join(chunks, 2) == First(w, f) + Second(w, f) == w.src[f];
  }

  lemma LandsBehindGap(w: World, f: FileId)
    requires TwoChunks(w, f)
    ensures Land(NoChunk(w, f), 1, Second(w, f)) == Gap(w, f)
  {
    var chunks := map[1 := Second(w, f)];
    assert NoChunk(w, f).chunks[1 := Second(w, f)] == chunks;
    assert FirstGap(chunks, 0) == 0 && Bytes(chunks, 0, 0) == 0;
  }

  // ---------- the sessions on the way ----------

  const IDLE: Session := Session(None, 0)

  /** The first session, its announcement and both chunks sent, then cancelled. */
  function Canceled(w: World, f: FileId): Channel
    requires TwoChunks(w, f)
  {
    Channel(f, Halted, 0, 2,
      [FMeta(w.MetaOf(f)), FHead(f, 0), Data(First(w, f)), FHead(f, 1), Data(Second(w, f)), FEnd(f, true)],
      0, [], IDLE, true, true, false)
  }

  /** A resumed session that has asked. */
  function Asking(f: FileId): Channel { Channel(f, Awaiting, 0, 0, [FResume(f)], 0, [], IDLE, true, false, false) }

  /** A resumed session that has sent chunk `i` and nothing else. */
  function SentOne(w: World, f: FileId, i: nat): Channel
    requires TwoChunks(w, f) && i < 2
  {
    Channel(f, Sending, i, i + 1,
      [FResume(f), FMeta(w.MetaOf(f)), FHead(f, i), Data(Slice(w.src[f], CHUNK, i))],
      1, [], IDLE, true, false, false)
  }

  function Rebuilding(w: World, f: FileId): Finish
    requires TwoChunks(w, f)
  {
    Finish(0, w.MetaOf(f), w.src[f], Some(|w.src[f]|))
  }

  // ---------- the run ----------

  lemma {:induction false} RunConcat(w: World, s: Sys, a: seq<Event>, b: seq<Event>)
    ensures Run(w, s, a + b) == Run(w, Run(w, s, a), b)
    decreases |a|
  {
    if a == [] {
      assert a + b == b;
    } else {
      assert (a + b)[0] == a[0] && (a + b)[1..] == a[1..] + b;
      RunConcat(w, Step(w, s, a[0]), a[1..], b);
    }
  }

  lemma RunOne(w: World, s: Sys, a: Event)
    ensures Run(w, s, [a]) == Step(w, s, a)
  {
    assert [a][1..] == [];
  }

  lemma RunThree(w: World, s: Sys, a: Event, b: Event, c: Event)
    ensures Run(w, s, [a, b, c]) == Step(w, Step(w, Step(w, s, a), b), c)
  {
    RunConcat(w, s, [a], [b, c]);
    RunConcat(w, Step(w, s, a), [b], [c]);
    RunOne(w, s, a);
    RunOne(w, Step(w, s, a), b);
    RunOne(w, Step(w, Step(w, s, a), b), c);
    assert [a] + [b, c] == [a, b, c] && [b] + [c] == [b, c];
  }

  /** The state at each stage, told by the page and what differs in the three sessions. */
  function Stage(page: Page, chans: seq<Channel>, keeps: set<FileId>, f: FileId, latest: nat): Sys {
    Sys(page, chans, keeps, map[f := latest])
  }

  const EMPTY: Page := Page(map[], [], [])

  /** The announcement of the file sent on the first session, and `n` chunks. */
  function Sending0(w: World, f: FileId, n: nat): Channel
    requires TwoChunks(w, f) && n <= 2
  {
    Canceled(w, f).(phase := Sending, next := n, sent := Canceled(w, f).sent[..1 + 2 * n], canceled := false)
  }

  /** Both chunks are sent. */
  lemma SendsBoth(w: World, f: FileId)
    requires TwoChunks(w, f)
    ensures
      Run(w, Init(), [Start(f), AtSender(0, Turn), AtSender(0, Turn)]) ==
      Stage(EMPTY, [Sending0(w, f, 2)], {f}, f, 0)
  {
    var s1, s2, s3 := Stage(EMPTY, [Sending0(w, f, 0)], {f}, f, 0), Stage(EMPTY, [Sending0(w, f, 1)], {f}, f, 0),
      Stage(EMPTY, [Sending0(w, f, 2)], {f}, f, 0);
    RunThree(w, Init(), Start(f), AtSender(0, Turn), AtSender(0, Turn));
    Starts(w, f);
    Sends(w, f, 0);
    Sends(w, f, 1);
  }

  lemma Starts(w: World, f: FileId)
    requires TwoChunks(w, f)
    ensures Step(w, Init(), Start(f)) == Stage(EMPTY, [Sending0(w, f, 0)], {f}, f, 0)
  {
    assert Sending0(w, f, 0).sent == [FMeta(w.MetaOf(f))];
    assert {} + {f} == {f};
  }

  lemma Sends(w: World, f: FileId, n: nat)
    requires TwoChunks(w, f) && n < 2
    ensures
      Step(w, Stage(EMPTY, [Sending0(w, f, n)], {f}, f, 0), AtSender(0, Turn)) ==
      Stage(EMPTY, [Sending0(w, f, n + 1)], {f}, f, 0)
  {
    var c := Sending0(w, f, n);
    assert Sending0(w, f, n + 1).sent == c.sent + [FHead(f, n), Data(Slice(w.src[f], CHUNK, n))];
    assert SendTurn(w, c) == (Sending0(w, f, n + 1), false);
    assert [c][0 := Sending0(w, f, n + 1)] == [Sending0(w, f, n + 1)];
  }

  /** Two more sessions ask, and the first is cancelled. */
  lemma Cancels(w: World, f: FileId)
    requires TwoChunks(w, f)
    ensures
      Run(w, Stage(EMPTY, [Sending0(w, f, 2)], {f}, f, 0), [Resume(f), Resume(f), AtSender(0, Cancel)]) ==
      Stage(EMPTY, [Sending0(w, f, 2).(canceled := true), Asking(f), Asking(f)], {f}, f, 0)
    ensures
      var ended := Sending0(w, f, 2).(canceled := true);
      Step(w, Stage(EMPTY, [ended, Asking(f), Asking(f)], {f}, f, 0), AtSender(0, Turn)) ==
      Stage(EMPTY, [Canceled(w, f), Asking(f), Asking(f)], {}, f, 0)
  {
    var a := Sending0(w, f, 2);
    var s1 := Stage(EMPTY, [a], {f}, f, 0);
    RunThree(w, s1, Resume(f), Resume(f), AtSender(0, Cancel));
    assert Step(w, s1, Resume(f)) == Stage(EMPTY, [a, Asking(f)], {f}, f, 0);
    var s2 := Stage(EMPTY, [a, Asking(f)], {f}, f, 0);
    assert Step(w, s2, Resume(f)) == Stage(EMPTY, [a, Asking(f), Asking(f)], {f}, f, 0);
    var b := a.(canceled := true);
    assert [a, Asking(f), Asking(f)][0 := b] == [b, Asking(f), Asking(f)];
    assert Canceled(w, f).sent == a.sent + [FEnd(f, true)];
    assert SendTurn(w, b) == (Canceled(w, f), true);
    assert [b, Asking(f), Asking(f)][0 := Canceled(w, f)] == [Canceled(w, f), Asking(f), Asking(f)];
    assert {f} - {f} == {};
  }

  /** Delivering the next frame of a session, given what it does to page and session. */
  lemma Delivers(w: World, s: Sys, c: nat, page: Page, recv: Session)
    requires c < |s.chans| && s.chans[c].open && s.chans[c].delivered < |s.chans[c].sent|
    requires
      var ch := s.chans[c];
      OnMessage(s.page, c, ch.recv, ch.sent[ch.delivered]) == (page, recv, None) && !ch.sent[ch.delivered].FResume?
    ensures
      var ch := s.chans[c];
      Step(w, s, Deliver(c)) ==
        s.(page := page, chans := s.chans[c := ch.(delivered := ch.delivered + 1, recv := recv)])
  {
  }

  // ---------- the first session is received, cancelled last ----------

  function Holding(rec: RecvState, f: FileId, finishing: seq<Finish>): Page { Page(map[f := rec], finishing, []) }

  lemma TakesMeta(w: World, f: FileId, c: nat, recv: Session, finishing: seq<Finish>, done: seq<Completion>)
    requires TwoChunks(w, f) && Freeze(finishing, f, 0) == finishing
    ensures
      OnMessage(Page(map[], finishing, done), c, recv, FMeta(w.MetaOf(f))) ==
      (Page(map[f := NoChunk(w, f)], finishing, done), recv.(active := Some(f)), None)
  {
    var none: map<FileId, RecvState> := map[];
    assert none - {f} == none && none[f := NoChunk(w, f)] == map[f := NoChunk(w, f)];
  }

  lemma TakesChunk(w: World, f: FileId, c: nat, i: nat, bytes: seq<byte>, rec: RecvState, next: RecvState, page: Page)
    requires page.recs == map[f := rec] && Land(rec, i, bytes) == next && next.got < next.meta.size
    ensures
      OnMessage(page, c, Session(Some(f), i), Data(bytes)) ==
      (page.(recs := map[f := next]), Session(Some(f), i), None)
  {
    assert map[f := rec][f := next] == map[f := next];
  }

  lemma TakesLastChunk(w: World, f: FileId)
    requires TwoChunks(w, f)
    ensures
      OnMessage(Holding(OneChunk(w, f), f, []), 0, Session(Some(f), 1), Data(Second(w, f))) ==
      (Holding(BothChunks(w, f), f, [Rebuilding(w, f).(last := None)]), Session(Some(f), 1), None)
  {
    LandsSecond(w, f);
    assert map[f := OneChunk(w, f)][f := BothChunks(w, f)] == map[f := BothChunks(w, f)];
    assert [] + [Rebuilding(w, f).(last := None)] == [Rebuilding(w, f).(last := None)];
  }

  lemma TakesEnd(w: World, f: FileId)
    requires TwoChunks(w, f)
    ensures
      var page := Holding(BothChunks(w, f), f, [Rebuilding(w, f).(last := None)]);
      OnMessage(page, 0, Session(Some(f), 1), FEnd(f, true)) ==
      (Page(map[], [Rebuilding(w, f)], []), Session(None, 1), None)
  {
    var before := [Rebuilding(w, f).(last := None)];
    assert Freeze(before, f, |w.src[f]|) == [Rebuilding(w, f)];
    assert map[f := BothChunks(w, f)] - {f} == map[];
  }

  /** The first session after `d` frames. */
  function Heard0(w: World, f: FileId, d: nat, recv: Session): Channel
    requires TwoChunks(w, f) && d <= 6
  {
    Canceled(w, f).(delivered := d, recv := recv)
  }

  function At0(w: World, f: FileId, page: Page, d: nat, recv: Session): Sys
    requires TwoChunks(w, f) && d <= 6
  {
    Stage(page, [Heard0(w, f, d, recv), Asking(f), Asking(f)], {}, f, 0)
  }

  lemma Delivers0(w: World, f: FileId, page: Page, d: nat, recv: Session, page': Page, recv': Session)
    requires TwoChunks(w, f) && d < 6
    requires OnMessage(page, 0, recv, Canceled(w, f).sent[d]) == (page', recv', None)
    ensures Step(w, At0(w, f, page, d, recv), Deliver(0)) == At0(w, f, page', d + 1, recv')
  {
    var s := At0(w, f, page, d, recv);
    Delivers(w, s, 0, page', recv');
    assert s.chans[0 := Heard0(w, f, d + 1, recv')] == At0(w, f, page', d + 1, recv').chans;
  }

  /** The announcement and the first chunk arrive. */
  lemma FirstHalf(w: World, f: FileId)
    requires TwoChunks(w, f)
    ensures
      Run(w, At0(w, f, EMPTY, 0, IDLE), [Deliver(0), Deliver(0), Deliver(0)]) ==
      At0(w, f, Holding(OneChunk(w, f), f, []), 3, Session(Some(f), 0))
  {
    RunThree(w, At0(w, f, EMPTY, 0, IDLE), Deliver(0), Deliver(0), Deliver(0));
    assert Freeze([], f, 0) == [];
    TakesMeta(w, f, 0, IDLE, [], []);
    var p1, p2 := Holding(NoChunk(w, f), f, []), Holding(OneChunk(w, f), f, []);
    Delivers0(w, f, EMPTY, 0, IDLE, p1, Session(Some(f), 0));
    Delivers0(w, f, p1, 1, Session(Some(f), 0), p1, Session(Some(f), 0));
    LandsFirst(w, f);
    TakesChunk(w, f, 0, 0, First(w, f), NoChunk(w, f), OneChunk(w, f), p1);
    Delivers0(w, f, p1, 2, Session(Some(f), 0), p2, Session(Some(f), 0));
  }

  /** The second chunk completes the file, and the cancellation drops its record. */
  lemma SecondHalf(w: World, f: FileId)
    requires TwoChunks(w, f)
    ensures
      Run(w, At0(w, f, Holding(OneChunk(w, f), f, []), 3, Session(Some(f), 0)), [Deliver(0), Deliver(0), Deliver(0)]) ==
      At0(w, f, Page(map[], [Rebuilding(w, f)], []), 6, Session(None, 1))
  {
    var p2 := Holding(OneChunk(w, f), f, []);
    var p3 := Holding(BothChunks(w, f), f, [Rebuilding(w, f).(last := None)]);
    RunThree(w, At0(w, f, p2, 3, Session(Some(f), 0)), Deliver(0), Deliver(0), Deliver(0));
    Delivers0(w, f, p2, 3, Session(Some(f), 0), p2, Session(Some(f), 1));
    TakesLastChunk(w, f);
    Delivers0(w, f, p2, 4, Session(Some(f), 1), p3, Session(Some(f), 1));
    TakesEnd(w, f);
    Delivers0(w, f, p3, 5, Session(Some(f), 1), Page(map[], [Rebuilding(w, f)], []), Session(None, 1));
  }

  // ---------- a resumed session asks, is answered, and sends one chunk ----------

  /** A question is answered with the byte count of the file's record. */
  lemma Answers(w: World, f: FileId, s: Sys, c: nat, got: nat)
    requires c < |s.chans| && s.chans[c] == Asking(f)
    requires got == if f in s.page.recs then s.page.recs[f].got else 0
    ensures
      Step(w, s, Deliver(c)) ==
        s.(chans := s.chans[c := Asking(f).(delivered := 1, acks := [got])], latest := s.latest[f := c])
  {
    assert Asking(f).acks + [got] == [got];
  }

  /** The answer sets the start, and one chunk follows. */
  lemma SendsOne(w: World, f: FileId, s: Sys, c: nat, got: nat, i: nat)
    requires TwoChunks(w, f) && i < 2 && StartIndex(got, |w.src[f]|, CHUNK) == i
    requires c < |s.chans| && s.chans[c] == Asking(f).(delivered := 1, acks := [got])
    ensures
      Step(w, Step(w, s, AtSender(c, Ack)), AtSender(c, Turn)) == s.(chans := s.chans[c := SentOne(w, f, i)])
  {
    var begun := Asking(f).(
      phase := Sending, from := i, next := i, delivered := 1, sent := [FResume(f), FMeta(w.MetaOf(f))]);
    assert [got][1..] == [];
    assert [FResume(f)] + [FMeta(w.MetaOf(f))] == [FResume(f), FMeta(w.MetaOf(f))];
    assert Acted(w, s.chans[c], Ack) == (begun, false);
    assert begun.sent + [FHead(f, i), Data(Slice(w.src[f], CHUNK, i))] == SentOne(w, f, i).sent;
    assert SendTurn(w, begun) == (SentOne(w, f, i), false);
    assert s.chans[c := begun][c := SentOne(w, f, i)] == s.chans[c := SentOne(w, f, i)];
  }

  /** Announcement, header and chunk of such a session arrive at a page without a record of the file. */
  lemma TakesOne(w: World, f: FileId, s: Sys, c: nat, i: nat, next: RecvState)
    requires TwoChunks(w, f) && i < 2 && c < |s.chans| && s.chans[c] == SentOne(w, f, i)
    requires s.page.recs == map[] && Freeze(s.page.finishing, f, 0) == s.page.finishing
    requires Land(NoChunk(w, f), i, Slice(w.src[f], CHUNK, i)) == next && next.got < next.meta.size
    ensures
      Run(w, s, [Deliver(c), Deliver(c), Deliver(c)]) ==
      s.(page := s.page.(recs := map[f := next]),
         chans := s.chans[c := SentOne(w, f, i).(delivered := 4, recv := Session(Some(f), i))])
  {
    RunThree(w, s, Deliver(c), Deliver(c), Deliver(c));
    var ch, p1 := SentOne(w, f, i), s.page.(recs := map[f := NoChunk(w, f)]);
    var p2 := s.page.(recs := map[f := next]);
    TakesMeta(w, f, c, IDLE, s.page.finishing, s.page.done);
    Delivers(w, s, c, p1, Session(Some(f), 0));
    var s1 := s.(page := p1, chans := s.chans[c := ch.(delivered := 2, recv := Session(Some(f), 0))]);
    Delivers(w, s1, c, p1, Session(Some(f), i));
    var s2 := s.(page := p1, chans := s.chans[c := ch.(delivered := 3, recv := Session(Some(f), i))]);
    assert s1.chans[c := ch.(delivered := 3, recv := Session(Some(f), i))] == s2.chans;
    TakesChunk(w, f, c, i, Slice(w.src[f], CHUNK, i), NoChunk(w, f), next, p1);
    Delivers(w, s2, c, p2, Session(Some(f), i));
    assert s2.chans[c := ch.(delivered := 4, recv := Session(Some(f), i))] ==
      s.chans[c := ch.(delivered := 4, recv := Session(Some(f), i))];
  }

  /** The late digest hands the cancelled copy over and drops the record begun since. */
  lemma DigestDrops(w: World, f: FileId, s: Sys, rec: RecvState)
    requires TwoChunks(w, f) && s.page == Holding(rec, f, [Rebuilding(w, f)]) && s.chans != []
    ensures
      var t := Step(w, s, Digested(0));
      && t.page.recs == map[] && t.page.finishing == []
      && t.page.done == [Completion(w.MetaOf(f), w.src[f], t.page.done[0].sha256Ok, |w.src[f]|)]
      && t.chans == s.chans[0 := Forgetful(s.chans[0])] && t.keeps == s.keeps && t.latest == s.latest
  {
    var fin := [Rebuilding(w, f)];
    assert fin[..0] + fin[1..] == [];
    assert map[f := rec] - {f} == map[];
  }

  // ---------- the whole run ----------

  function Opening(f: FileId): seq<Event> {
    [Start(f), AtSender(0, Turn), AtSender(0, Turn)] +
    ([Resume(f), Resume(f), AtSender(0, Cancel)] + [AtSender(0, Turn)])
  }

  function Thrice(c: nat): seq<Event> { [Deliver(c), Deliver(c), Deliver(c)] }

  function Resumed(c: nat): seq<Event> { [AtSender(c, Ack)] + ([AtSender(c, Turn)] + Thrice(c)) }

  /** A session sends both chunks while two more ask, and is cancelled. Both chunks arrive, then the cancellation.
      The second session is told to start from nothing, and its first chunk arrives; the third is told to start
      behind that. The digest comes, and then the third session's chunk. */
  function LateDigestRun(f: FileId): seq<Event> {
    Opening(f) +
    ((Thrice(0) + Thrice(0)) + (([Deliver(1)] + Resumed(1)) + ([Deliver(2)] + ([Digested(0)] + Resumed(2)))))
  }

  lemma AfterOpening(w: World, f: FileId)
    requires TwoChunks(w, f)
    ensures Run(w, Init(), Opening(f)) == At0(w, f, EMPTY, 0, IDLE)
  {
    var first, second := [Start(f), AtSender(0, Turn), AtSender(0, Turn)], [Resume(f), Resume(f), AtSender(0, Cancel)];
    SendsBoth(w, f);
    Cancels(w, f);
    RunConcat(w, Init(), first, second + [AtSender(0, Turn)]);
    RunConcat(w, Run(w, Init(), first), second, [AtSender(0, Turn)]);
    RunOne(w, Run(w, Run(w, Init(), first), second), AtSender(0, Turn));
  }

  lemma AfterCancellation(w: World, f: FileId)
    requires TwoChunks(w, f)
    ensures
      Run(w, At0(w, f, EMPTY, 0, IDLE), Thrice(0) + Thrice(0)) ==
      At0(w, f, Page(map[], [Rebuilding(w, f)], []), 6, Session(None, 1))
  {
    FirstHalf(w, f);
    SecondHalf(w, f);
    RunConcat(w, At0(w, f, EMPTY, 0, IDLE), Thrice(0), Thrice(0));
  }

  /** A session that has been answered sends its chunk, and that arrives. */
  lemma AfterResumed(w: World, f: FileId, s: Sys, c: nat, got: nat, i: nat, next: RecvState)
    requires TwoChunks(w, f) && i < 2 && StartIndex(got, |w.src[f]|, CHUNK) == i
    requires c < |s.chans| && s.chans[c] == Asking(f).(delivered := 1, acks := [got])
    requires s.page.recs == map[] && Freeze(s.page.finishing, f, 0) == s.page.finishing
    requires Land(NoChunk(w, f), i, Slice(w.src[f], CHUNK, i)) == next && next.got < next.meta.size
    ensures
      var t := Run(w, s, Resumed(c));
      && t.page == s.page.(recs := map[f := next]) && t.latest == s.latest && |t.chans| == |s.chans|
      && forall d :: 0 <= d < |s.chans| && d != c ==> t.chans[d] == s.chans[d]
  {
    var asked := Step(w, s, AtSender(c, Ack));
    SendsOne(w, f, s, c, got, i);
    var sent := Step(w, asked, AtSender(c, Turn));
    TakesOne(w, f, sent, c, i, next);
    RunConcat(w, s, [AtSender(c, Ack)], [AtSender(c, Turn)] + Thrice(c));
    RunConcat(w, asked, [AtSender(c, Turn)], Thrice(c));
    RunOne(w, s, AtSender(c, Ack));
    RunOne(w, asked, AtSender(c, Turn));
  }

  lemma AfterSecondSession(w: World, f: FileId)
    requires TwoChunks(w, f)
    ensures
      var s := At0(w, f, Page(map[], [Rebuilding(w, f)], []), 6, Session(None, 1));
      var t := Run(w, s, [Deliver(1)] + Resumed(1));
      t.page == Holding(OneChunk(w, f), f, [Rebuilding(w, f)]) && |t.chans| == 3 && t.chans[2] == Asking(f)
  {
    var s := At0(w, f, Page(map[], [Rebuilding(w, f)], []), 6, Session(None, 1));
    var asked := Step(w, s, Deliver(1));
    Answers(w, f, s, 1, 0);
    assert Freeze([Rebuilding(w, f)], f, 0) == [Rebuilding(w, f)];
    LandsFirst(w, f);
    AfterResumed(w, f, asked, 1, 0, 0, OneChunk(w, f));
    RunConcat(w, s, [Deliver(1)], Resumed(1));
    RunOne(w, s, Deliver(1));
  }

  lemma AfterThirdSession(w: World, f: FileId, s: Sys)
    requires TwoChunks(w, f)
    requires s.page == Holding(OneChunk(w, f), f, [Rebuilding(w, f)]) && |s.chans| == 3 && s.chans[2] == Asking(f)
    ensures
      var t := Run(w, s, [Deliver(2)] + ([Digested(0)] + Resumed(2)));
      && t.page.recs == map[f := Gap(w, f)]
      && |t.page.done| == 1 && t.page.done[0].blob == w.src[f] && t.page.done[0].recvBytes == |w.src[f]|
  {
    var asked := Step(w, s, Deliver(2));
    var late := Step(w, asked, Digested(0));
    Answers(w, f, s, 2, CHUNK);
    DigestDrops(w, f, asked, OneChunk(w, f));
    assert late.chans[2] == Asking(f).(delivered := 1, acks := [CHUNK]);
    assert Freeze([], f, 0) == [];
    Lands(w, f);
    AfterResumed(w, f, late, 2, CHUNK, 1, Gap(w, f));
    RunConcat(w, s, [Deliver(2)], [Digested(0)] + Resumed(2));
    RunConcat(w, asked, [Digested(0)], Resumed(2));
    RunOne(w, s, Deliver(2));
    RunOne(w, asked, Digested(0));
  }

  /** In this run, from the empty page, the last chunk has been received and lies behind a gap: the next session
      will be told to start from nothing and to send it again. So the run cannot be orderly. */
  lemma LateDigestCostsBytes(w: World, f: FileId)
    requires TwoChunks(w, f)
    ensures
      var t := Run(w, Init(), LateDigestRun(f));
      && f in t.page.recs && t.page.recs[f].got == 0 && t.page.recs[f].recvBytes == |w.src[f]| - CHUNK > 0
      && |t.page.done| == 1 && t.page.done[0].blob == w.src[f] && t.page.done[0].recvBytes == |w.src[f]|
    ensures !OrderlyRun(w, Init(), LateDigestRun(f))
  {
    var a, b := Opening(f), Thrice(0) + Thrice(0);
    var c, d := [Deliver(1)] + Resumed(1), [Deliver(2)] + ([Digested(0)] + Resumed(2));
    var s1 := At0(w, f, EMPTY, 0, IDLE);
    var s2 := At0(w, f, Page(map[], [Rebuilding(w, f)], []), 6, Session(None, 1));
    AfterOpening(w, f);
    RunConcat(w, Init(), a, b + (c + d));
    AfterCancellation(w, f);
    RunConcat(w, s1, b, c + d);
    AfterSecondSession(w, f);
    RunConcat(w, s2, c, d);
    AfterThirdSession(w, f, Run(w, s2, c));
    if OrderlyRun(w, Init(), LateDigestRun(f)) {
      OrderlyFromTheStart(w, LateDigestRun(f));
      assert false;
    }
  }
}
