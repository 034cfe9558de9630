/** Resumable file transfer, receiving side: chunks land by index, a contiguous prefix is tracked,
    and the file is rebuilt when the prefix reaches the declared size. */
module FileTransfer {
  import opened Options
  import opened WsFrames
  import opened Arithmetic

  type FileId = string
  type Digest = seq<byte>

  datatype Meta = Meta(fileId: FileId, size: nat, sha256: Option<Digest>)

  /** One partly received file: a sparse array of chunks, its contiguous prefix, and byte counters. */
  datatype RecvState = RecvState(meta: Meta, chunks: map<nat, seq<byte>>, contig: nat, got: nat, recvBytes: nat)

  /** Frames of a data channel. */
  datatype Msg =
    | FMeta(meta: Meta)
    | FHead(fileId: FileId, index: nat)
    | Data(bytes: seq<byte>)
    | FEnd(fileId: FileId, canceled: bool)
    | FResume(fileId: FileId)
    | FResumeAck(fileId: FileId, got: nat)

  /** What a session remembers between frames: the file being received and the announced chunk. */
  datatype Session = Session(active: Option<FileId>, index: nat)

  /** A rebuilt file whose digest is being computed, and one that has been handed to the user. While the record
      it came from is still the file's, `last` is absent; after that it is the record's final byte count. */
  datatype Finish = Finish(sid: nat, meta: Meta, blob: seq<byte>, last: Option<nat>)
  datatype Completion = Completion(meta: Meta, blob: seq<byte>, sha256Ok: Option<bool>, recvBytes: nat)

  /** State shared by all sessions of the page. */
  datatype Page = Page(recs: map<FileId, RecvState>, finishing: seq<Finish>, done: seq<Completion>)

  // ---------- one frame ----------

  /** First index at or after `k` that holds no chunk. */
  function FirstGap(chunks: map<nat, seq<byte>>, k: nat): (r: nat)
    ensures k <= r && r !in chunks
    ensures forall i :: k <= i < r ==> i in chunks
    decreases KeysFrom(chunks, k)
  {
    if k in chunks then
      assert k in KeysFrom(chunks, k);
      FirstGap(chunks, k + 1)
    else k
  }

  ghost function KeysFrom(chunks: map<nat, seq<byte>>, k: nat): set<nat> {
    set i | i in chunks && k <= i
  }

  /** Bytes in chunks `a` to `b`. */
  function Bytes(chunks: map<nat, seq<byte>>, a: nat, b: nat): nat
    requires a <= b && forall i :: a <= i < b ==> i in chunks
    decreases b - a
  {
    if a == b then 0 else |chunks[a]| + Bytes(chunks, a + 1, b)
  }

  /** Chunks below `k` in index order, gaps skipped. */
  function Join(chunks: map<nat, seq<byte>>, k: nat): seq<byte> {
    if k == 0 then [] else Join(chunks, k - 1) + if k - 1 in chunks then chunks[k - 1] else []
  }

  /** The record after a chunk landed at `index`. */
  function Land(rec: RecvState, index: nat, bytes: seq<byte>): RecvState {
    var chunks := rec.chunks[index := bytes];
    var contig := FirstGap(chunks, rec.contig);
    rec.(chunks := chunks, contig := contig, got := rec.got + Bytes(chunks, rec.contig, contig),
         recvBytes := rec.recvBytes + |bytes|)
  }

  /** The record of `id`, with `n` bytes received, is dropped or replaced: rebuilt files that came from it keep
      its count. */
  function Freeze(finishing: seq<Finish>, id: FileId, n: nat): (r: seq<Finish>)
    ensures |r| == |finishing|
    ensures forall k :: 0 <= k < |r| ==> r[k] == Frozen(finishing[k], id, n)
  {
    seq(|finishing|, k requires 0 <= k < |finishing| => Frozen(finishing[k], id, n))
  }

  function Frozen(fin: Finish, id: FileId, n: nat): Finish {
    if fin.meta.fileId == id && fin.last.None? then fin.(last := Some(n)) else fin
  }

  /** The page without the record of `id`. */
  function Dropped(page: Page, id: FileId): Page {
    page.(recs := page.recs - {id}, finishing := Freeze(page.finishing, id, BytesHeard(page, id)))
  }

  function BytesHeard(page: Page, id: FileId): nat { if id in page.recs then page.recs[id].recvBytes else 0 }

  /** One frame arriving on session `sid`; the last component is the answer sent back, if any. */
  function OnMessage(page: Page, sid: nat, s: Session, m: Msg): (Page, Session, Option<Msg>)
  {
    match m
    case FMeta(meta) =>
      var id := meta.fileId;
      var p :=
        if id in page.recs && page.recs[id].meta.size == meta.size
        then page.(recs := page.recs[id := page.recs[id].(meta := meta)])
        else Dropped(page, id).(recs := page.recs[id := RecvState(meta, map[], 0, 0, 0)]);
      (p, s.(active := Some(id)), None)
    case FHead(_, index) =>
      (page, if s.active.Some? then s.(index := index) else s, None)
    case FEnd(id, canceled) =>
      (if canceled then Dropped(page, id) else page,
       if s.active == Some(id) then s.(active := None) else s, None)
    case FResume(id) =>
      (page, s, Some(FResumeAck(id, if id in page.recs then page.recs[id].got else 0)))
    case FResumeAck(_, _) => (page, s, None)
    case Data(bytes) =>
      if s.active.Some? && s.active.value in page.recs then
        var id := s.active.value;
        var rec := Land(page.recs[id], s.index, bytes);
        var p := page.(recs := page.recs[id := rec]);
        if rec.got >= rec.meta.size
        then (p.(finishing := p.finishing + [Finish(sid, rec.meta, Join(rec.chunks, rec.contig), None)]), s, None)
        else (p, s, None)
      else (page, s, None)
  }

  /** The digest of a rebuilt file has been computed: the file is handed over and its record dropped. */
  function FinishEnd(page: Page, k: nat, digest: seq<byte> -> Digest): Page
    requires k < |page.finishing|
  {
    var fin := page.finishing[k];
    var id := fin.meta.fileId;
    var ok := if fin.meta.sha256.Some? then Some(digest(fin.blob) == fin.meta.sha256.value) else None;
    var bytes := if fin.last.Some? then fin.last.value else BytesHeard(page, id);
    Dropped(page.(finishing := page.finishing[..k] + page.finishing[k + 1..],
                  done := page.done + [Completion(fin.meta, fin.blob, ok, bytes)]), id)
  }

  // ---------- the source file and its chunks ----------

  /** Offset of chunk `i`, and the chunk itself. */
  function Slice(src: seq<byte>, chunk: nat, i: nat): seq<byte>
    requires i * chunk < |src|
  {
    src[i * chunk..Min(i * chunk + chunk, |src|)]
  }

  predicate IsSlice(bytes: seq<byte>, src: seq<byte>, chunk: nat, i: nat) {
    i * chunk < |src| && bytes == Slice(src, chunk, i)
  }

  /** A record is a faithful part of `src`: every stored chunk is the source's, the prefix is as long
      as it can be, and the counter is the prefix's length. */
  ghost predicate Faithful(rec: RecvState, src: seq<byte>, chunk: nat) {
    && chunk > 0
    && rec.meta.size == |src|
    && (forall i <- rec.chunks :: IsSlice(rec.chunks[i], src, chunk, i))
    && (forall i :: 0 <= i < rec.contig ==> i in rec.chunks)
    && rec.contig !in rec.chunks
    && rec.got == Min(rec.contig * chunk, |src|)
  }

  lemma FreshFaithful(meta: Meta, src: seq<byte>, chunk: nat)
    requires chunk > 0 && meta.size == |src|
    ensures Faithful(RecvState(meta, map[], 0, 0, 0), src, chunk)
  {
  }

  lemma {:induction false} BytesOfSlices(chunks: map<nat, seq<byte>>, a: nat, b: nat, src: seq<byte>, chunk: nat)
    requires chunk > 0 && a <= b
    requires forall i :: a <= i < b ==> i in chunks
    requires forall i <- chunks :: IsSlice(chunks[i], src, chunk, i)
    ensures Min(a * chunk, |src|) + Bytes(chunks, a, b) == Min(b * chunk, |src|)
    decreases b - a
  {
    if a < b {
      SliceAfter(chunks[a], src, chunk, a);
      BytesOfSlices(chunks, a + 1, b, src, chunk);
    }
  }

  lemma {:induction false} JoinOfSlices(chunks: map<nat, seq<byte>>, k: nat, src: seq<byte>, chunk: nat)
    requires chunk > 0
    requires forall i :: 0 <= i < k ==> i in chunks
    requires forall i <- chunks :: IsSlice(chunks[i], src, chunk, i)
    ensures Join(chunks, k) == src[..Min(k * chunk, |src|)]
  {
    if k > 0 {
      assert Join(chunks, k - 1) == src[..Min((k - 1) * chunk, |src|)] by {
        JoinOfSlices(chunks, k - 1, src, chunk);
      }
      JoinNext(chunks, k, src, chunk);
    }
  }

  lemma JoinNext(chunks: map<nat, seq<byte>>, k: nat, src: seq<byte>, chunk: nat)
    requires k > 0 && k - 1 in chunks && IsSlice(chunks[k - 1], src, chunk, k - 1)
    requires Join(chunks, k - 1) == src[..Min((k - 1) * chunk, |src|)]
    ensures Join(chunks, k) == src[..Min(k * chunk, |src|)]
  {
    SliceAfter(chunks[k - 1], src, chunk, k - 1);
    assert k - 1 + 1 == k;
  }

  lemma SliceAfter(bytes: seq<byte>, src: seq<byte>, chunk: nat, i: nat)
    requires IsSlice(bytes, src, chunk, i)
    ensures src[..Min(i * chunk, |src|)] + bytes == src[..Min((i + 1) * chunk, |src|)]
    ensures Min(i * chunk, |src|) + |bytes| == Min((i + 1) * chunk, |src|)
  {
    assert (i + 1) * chunk == i * chunk + chunk;
  }

  /** A chunk of the source landing at its own index keeps the record faithful, in any order and
      however often it lands. */
  lemma LandFaithful(rec: RecvState, i: nat, src: seq<byte>, chunk: nat)
    requires Faithful(rec, src, chunk) && i * chunk < |src|
    ensures Faithful(Land(rec, i, Slice(src, chunk, i)), src, chunk)
  {
    var r := Land(rec, i, Slice(src, chunk, i));
    BytesOfSlices(r.chunks, rec.contig, r.contig, src, chunk);
  }

  /** The prefix covers the source as soon as the byte counter reaches the size; what is rebuilt then
      is the source, byte for byte. */
  lemma RebuiltIsSource(rec: RecvState, src: seq<byte>, chunk: nat)
    requires Faithful(rec, src, chunk)
    ensures rec.got >= rec.meta.size <==> Join(rec.chunks, rec.contig) == src
  {
    JoinOfSlices(rec.chunks, rec.contig, src, chunk);
    assert src[..|src|] == src;
  }

  /** Start chunk of a resumed transfer, from the byte count the receiver reported. */
  function StartIndex(got: nat, size: nat, chunk: nat): nat
    requires chunk > 0
  {
    if Min(got, size) > 0 then CeilDiv(Min(got, size), chunk) else 0
  }

  /** Resuming starts exactly at the first missing chunk. */
  lemma ResumeAtFirstGap(rec: RecvState, src: seq<byte>, chunk: nat)
    requires Faithful(rec, src, chunk)
    ensures StartIndex(rec.got, |src|, chunk) == FirstGap(rec.chunks, 0) == rec.contig
  {
    GapAt(rec.chunks, rec.contig);
    if rec.contig > 0 {
      assert IsSlice(rec.chunks[rec.contig - 1], src, chunk, rec.contig - 1);
    }
    StartAfter(rec.contig, |src|, chunk);
  }

  lemma GapAt(chunks: map<nat, seq<byte>>, k: nat)
    requires (forall i :: 0 <= i < k ==> i in chunks) && k !in chunks
    ensures FirstGap(chunks, 0) == k
  {
  }

  lemma StartAfter(k: nat, size: nat, chunk: nat)
    requires chunk > 0 && (k > 0 ==> (k - 1) * chunk < size)
    ensures StartIndex(Min(k * chunk, size), size, chunk) == k
  {
    if k > 0 {
      assert (k - 1) * chunk == k * chunk - chunk;
      CeilDivUnique(Min(k * chunk, size), chunk, k);
    }
  }
}
