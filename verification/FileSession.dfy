/** The two halves of a session as the objects the page keeps: the receiving half, which updates the
    records shared by all sessions, and the sending half, whose loop sends one chunk per turn. */
module FileSession {
  import opened Options
  import opened WsFrames
  import opened Arithmetic
  import opened FileTransfer
  import opened FileRuns

  class RecvStore {
    var persistRecv: map<FileId, RecvState>
    var finishing: seq<Finish>
    var done: seq<Completion>

    function View(): Page
      reads this
    {
      Page(persistRecv, finishing, done)
    }

    constructor ()
      ensures View() == Page(map[], [], [])
    {
      persistRecv, finishing, done := map[], [], [];
    }

    /** Rebuilds the file from its chunks in index order and starts the digest. */
    method FinishReceive(sid: nat, rec: RecvState)
      modifies this`finishing
      ensures finishing == old(finishing) + [Finish(sid, rec.meta, Join(rec.chunks, rec.contig), None)]
    {
      var ordered: seq<byte> := [];
      for i := 0 to rec.contig
        invariant ordered == Join(rec.chunks, i)
      {
        if i in rec.chunks {
          ordered := ordered + rec.chunks[i];
        }
      }
      finishing := finishing + [Finish(sid, rec.meta, ordered, None)];
    }

    /** Lets go of a file's record. Rebuilt files still hold on to it, with the count it has by now. */
    method Drop(id: FileId)
      modifies this`persistRecv, this`finishing
      ensures View() == Dropped(old(View()), id)
    {
      if id in persistRecv {
        finishing := Freeze(finishing, id, persistRecv[id].recvBytes);
      } else {
        finishing := Freeze(finishing, id, 0);
      }
      persistRecv := persistRecv - {id};
    }

    /** The digest of the `k`-th waiting file is known. */
    method OnDigest(k: nat, digest: seq<byte> -> Digest)
      requires k < |finishing|
      modifies this
      ensures View() == FinishEnd(old(View()), k, digest)
    {
      var fin := finishing[k];
      var ok := None;
      if fin.meta.sha256.Some? {
        ok := Some(digest(fin.blob) == fin.meta.sha256.value);
      }
      var bytes := 0;
      if fin.last.Some? {
        bytes := fin.last.value;
      } else if fin.meta.fileId in persistRecv {
        bytes := persistRecv[fin.meta.fileId].recvBytes;
      }
      done := done + [Completion(fin.meta, fin.blob, ok, bytes)];
      finishing := finishing[..k] + finishing[k + 1..];
      Drop(fin.meta.fileId);
    }
  }

  class Receiver {
    const sid: nat
    const store: RecvStore
    var activeFileId: Option<FileId>
    var activeChunkIndex: nat
    var answers: seq<Msg>  // frames sent back on the channel

    function View(): Session
      reads this
    {
      Session(activeFileId, activeChunkIndex)
    }

    constructor (sid: nat, store: RecvStore)
      ensures View() == Session(None, 0) && answers == [] && this.sid == sid && this.store == store
    {
      this.sid, this.store := sid, store;
      activeFileId, activeChunkIndex, answers := None, 0, [];
    }

    /** One frame of the channel. */
    method OnChannelMessage(m: Msg)
      modifies this, store
      ensures
        var (page, session, answer) := OnMessage(old(store.View()), sid, old(View()), m);
        && store.View() == page && View() == session
        && answers == old(answers) + if answer.Some? then [answer.value] else []
    {
      match m
      case FMeta(meta) =>
        var id := meta.fileId;
        activeFileId := Some(id);
        if id !in store.persistRecv || store.persistRecv[id].meta.size != meta.size {
          store.Drop(id);
          store.persistRecv := store.persistRecv[id := RecvState(meta, map[], 0, 0, 0)];
        } else {
          store.persistRecv := store.persistRecv[id := store.persistRecv[id].(meta := meta)];
        }
      case FHead(_, index) =>
        if activeFileId.Some? {
          activeChunkIndex := index;
        }
      case FEnd(id, canceled) =>
        if canceled {
          store.Drop(id);
        }
        if activeFileId == Some(id) {
          activeFileId := None;
        }
      case FResume(id) =>
        var got := 0;
        if id in store.persistRecv {
          got := store.persistRecv[id].got;
        }
        answers := answers + [FResumeAck(id, got)];
      case FResumeAck(_, _) =>
      case Data(bytes) =>
        if activeFileId.Some? && activeFileId.value in store.persistRecv {
          var rec := Accept(store.persistRecv[activeFileId.value], activeChunkIndex, bytes);
          store.persistRecv := store.persistRecv[activeFileId.value := rec];
          if rec.got >= rec.meta.size {
            store.FinishReceive(sid, rec);
          }
        }
    }

    /** Files a chunk under its index and pushes the contiguous prefix as far as it goes. */
    static method Accept(rec: RecvState, index: nat, bytes: seq<byte>) returns (r: RecvState)
      ensures r == Land(rec, index, bytes)
    {
      var chunks := rec.chunks[index := bytes];
      var contig, got := rec.contig, rec.got;
      while contig in chunks
        invariant rec.contig <= contig
        invariant forall i :: rec.contig <= i < contig ==> i in chunks
        invariant FirstGap(chunks, rec.contig) == FirstGap(chunks, contig)
        invariant got == rec.got + Bytes(chunks, rec.contig, contig)
        decreases KeysFrom(chunks, contig)
      {
        assert contig in KeysFrom(chunks, contig);
        BytesSnoc(chunks, rec.contig, contig);
        got := got + |chunks[contig]|;
        contig := contig + 1;
      }
      r := rec.(chunks := chunks, contig := contig, got := got, recvBytes := rec.recvBytes + |bytes|);
    }

    static lemma {:induction false} BytesSnoc(chunks: map<nat, seq<byte>>, a: nat, b: nat)
      requires a <= b && forall i :: a <= i <= b ==> i in chunks
      ensures Bytes(chunks, a, b + 1) == Bytes(chunks, a, b) + |chunks[b]|
      decreases b - a
    {
      if a < b {
        BytesSnoc(chunks, a + 1, b);
      }
    }
  }

  class Sender {
    const file: FileId
    const meta: Meta
    const src: seq<byte>
    var phase: Phase
    var from: nat
    var next: nat
    var sent: seq<Msg>  // frames put on the channel
    var open: bool
    var sendCanceled: bool
    var interruptSilent: bool

    /** The sender's end of a session, with the given answers waiting to be read. */
    function View(acks: seq<nat>): Channel
      reads this
    {
      Channel(file, phase, from, next, sent, 0, acks, Session(None, 0), open, sendCanceled, interruptSilent)
    }

    ghost predicate Sends(w: World)
    {
      file in w.src && w.src[file] == src && meta == w.MetaOf(file)
    }

    /** A session opened to resume a transfer asks first how far the receiver got. */
    constructor Resuming(w: World, file: FileId)
      requires file in w.src
      ensures Sends(w) && fresh(this)
      ensures View([]) == Channel(file, Awaiting, 0, 0, [FResume(file)], 0, [], Session(None, 0), true, false, false)
    {
      this.file, meta, src := file, w.MetaOf(file), w.src[file];
      phase, from, next, sent := Awaiting, 0, 0, [FResume(file)];
      open, sendCanceled, interruptSilent := true, false, false;
    }

    /** Announces the file and starts the loop at a chunk, if the channel is open. */
    method SendFile(w: World, fromIndex: nat)
      requires Sends(w)
      modifies this`phase, this`from, this`next, this`sent
      ensures View([]) == Begin(w, old(View([])), fromIndex)
    {
      if !open {
        phase := Halted;
        return;
      }
      sent := sent + [FMeta(meta)];
      phase, from, next := Sending, fromIndex, fromIndex;
    }

    /** The receiver's answer arrived: start behind what it already holds. Late answers are ignored. */
    method OnResumeAck(w: World, got: nat)
      requires Sends(w)
      modifies this`phase, this`from, this`next, this`sent
      ensures View([]) == Acted(w, old(View([got])), Ack).0
    {
      if phase == Awaiting {
        var fromIndex := 0;
        if Min(got, meta.size) > 0 {
          fromIndex := CeilDiv(Min(got, meta.size), CHUNK);
        }
        SendFile(w, fromIndex);
      }
    }

    method OnResumeTimeout(w: World)
      requires Sends(w)
      modifies this`phase, this`from, this`next, this`sent
      ensures View([]) == Acted(w, old(View([])), Timeout).0
    {
      if phase == Awaiting {
        SendFile(w, 0);
      }
    }

    /** One turn of the loop; reports whether the source is no longer kept. */
    method Turn(w: World) returns (dropped: bool)
      requires Sends(w) && phase == Sending
      modifies this`phase, this`next, this`sent
      ensures (View([]), dropped) == SendTurn(w, old(View([])))
    {
      dropped := false;
      var offset := next * CHUNK;
      if sendCanceled {
        phase := Halted;
        if !interruptSilent && open {
          sent := sent + [FEnd(file, true)];
          dropped := true;
        }
        return;
      }
      if !open {
        phase := Halted;
        return;
      }
      if offset >= meta.size {
        phase := Halted;
        dropped := true;
        return;
      }
      var slice := src[offset..Min(offset + CHUNK, meta.size)];
      ghost var before := sent;
      sent := sent + [FHead(file, next)];
      sent := sent + [Data(slice)];
      assert sent == before + [FHead(file, next), Data(slice)];
      next := next + 1;
    }

    method Cancel()
      modifies this`sendCanceled
      ensures sendCanceled
    {
      sendCanceled := true;
    }

    method Interrupt()
      modifies this`sendCanceled, this`interruptSilent
      ensures sendCanceled && interruptSilent
    {
      sendCanceled := true;
      interruptSilent := true;
    }
  }
}
