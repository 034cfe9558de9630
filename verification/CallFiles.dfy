/** Offers that wait for nobody's acceptance: those of file transfers, and those of calls never announced. And what
    holds for the candidates of every call in every run. */
module CallFiles {
  import opened Options
  import opened CallAnswer
  import opened CallProgress

  // ---------- one offer ----------

  /** From every state: an offer that is a file's, or of a call never announced, and whose call is not armed, starts
      being answered at once and empties the slot. */
  lemma FileOfferStarts(s: State, c: Id, sdp: Sdp, file: bool, rejects: bool)
    requires c !in s.armed && (file || c !in s.calls)
    ensures
      var x := Ses(s, c);
      Step(s, EOffer(c, sdp, file), rejects) ==
        Put(s, c, x.(offers := x.offers + [sdp], tasks := x.tasks + [Describing(sdp, false)])).(offer := None)
  {
  }

  /** A session with its task `k` done: the answer is out, the candidates queued before are applied in order. */
  function Done(x: Session, k: nat, applied: seq<Candidate>, iceQueue: seq<Candidate>, sdp: Sdp, last: bool): Session
    requires k < |x.tasks|
  {
    x.(tasks := x.tasks[..k] + x.tasks[k + 1..], remote := true, applied := applied, iceQueue := iceQueue,
       out := x.out + [Answer(sdp)] + if last then [CallAccept] else [])
  }

  lemma StepsCons(s: State, e: Event, more: seq<Event>, rejects: bool)
    ensures Steps(s, [e] + more, rejects) == Steps(Step(s, e, rejects), more, rejects)
  {
    assert ([e] + more)[0] == e && ([e] + more)[1..] == more;
  }

  lemma {:induction false} FlushingFinishes(s: State, c: Id, k: nat, rejects: bool) returns (more: seq<Event>)
    requires k < |Ses(s, c).tasks| && Ses(s, c).tasks[k].Flushing? && Ses(s, c).remote
    ensures forall e <- more :: e == EContinue(c, k)
    ensures
      var x := Ses(s, c);
      var t := x.tasks[k];
      Steps(s, more, rejects) == Put(s, c, Done(x, k, x.applied + t.left, x.iceQueue, t.sdp, t.last))
    decreases |Ses(s, c).tasks[k].left|
  {
    var x := Ses(s, c);
    var t := x.tasks[k];
    var s' := Step(s, EContinue(c, k), rejects);
    var x' := Ses(s', c);
    assert s' == Put(s, c, x');
    if t.left == [] {
      var no: seq<Event> := [];
      var s'' := Step(s', EContinue(c, k), rejects);
      StepsCons(s', EContinue(c, k), no, rejects);
      more := [EContinue(c, k), EContinue(c, k)];
      assert more == [EContinue(c, k)] + ([EContinue(c, k)] + no);
      StepsCons(s, EContinue(c, k), [EContinue(c, k)] + no, rejects);
      assert x'.tasks[..k] == x.tasks[..k] && x'.tasks[k + 1..] == x.tasks[k + 1..];
      assert x.applied + t.left == x.applied;
      assert Ses(s'', c) == Done(x, k, x.applied + t.left, x.iceQueue, t.sdp, t.last);
    } else {
      more := FlushingFinishes(s', c, k, rejects);
      StepsCons(s, EContinue(c, k), more, rejects);
      more := [EContinue(c, k)] + more;
      FlushedOne(x, k);
    }
  }

  lemma FlushedOne(x: Session, k: nat)
    requires k < |x.tasks| && x.tasks[k].Flushing? && x.tasks[k].left != [] && x.remote
    ensures
      var t, y := x.tasks[k], Continued(x, k);
      Done(y, k, y.applied + y.tasks[k].left, y.iceQueue, t.sdp, t.last) ==
      Done(x, k, x.applied + t.left, x.iceQueue, t.sdp, t.last)
  {
    var t, y := x.tasks[k], Continued(x, k);
    assert y.tasks[..k] == x.tasks[..k] && y.tasks[k + 1..] == x.tasks[k + 1..];
    assert x.applied + [t.left[0]] + t.left[1..] == x.applied + t.left;
  }

  /** From every state, whatever else is being answered: the continuations of an offer whose answer has begun lead to
      exactly one answer to it, with the queued candidates applied once each in the order in which they came. */
  lemma OfferFinishes(s: State, c: Id, k: nat, rejects: bool) returns (more: seq<Event>)
    requires k < |Ses(s, c).tasks| && Ses(s, c).tasks[k].Describing?
    ensures forall e <- more :: e == EContinue(c, k)
    ensures
      var x := Ses(s, c);
      Steps(s, more, rejects) == Put(s, c, Done(x, k, x.applied + x.iceQueue, [], x.tasks[k].sdp, x.tasks[k].last))
  {
    var x := Ses(s, c);
    var s' := Step(s, EContinue(c, k), rejects);
    var y := Ses(s', c);
    assert s' == Put(s, c, y);
    more := FlushingFinishes(s', c, k, rejects);
    StepsCons(s, EContinue(c, k), more, rejects);
    more := [EContinue(c, k)] + more;
    assert y.tasks[..k] == x.tasks[..k] && y.tasks[k + 1..] == x.tasks[k + 1..];
  }

  /** An incoming file's offer is answered without anybody's doing: from every state in which its call is not armed,
      its continuations put one answer to it on the session's output and leave every other call, every other offer
      being answered and everything accepted as it was, but for the slot, which is empty. */
  lemma FileOfferIsAnswered(s: State, c: Id, sdp: Sdp, file: bool, rejects: bool) returns (more: seq<Event>)
    requires c !in s.armed && (file || c !in s.calls)
    ensures forall e <- more :: e == EContinue(c, |Ses(s, c).tasks|)
    ensures
      var x, t := Ses(s, c), Steps(Step(s, EOffer(c, sdp, file), rejects), more, rejects);
      && t.calls == s.calls && t.armed == s.armed && t.offer == None
      && t.sessions == s.sessions[c := Ses(t, c)]
      && Ses(t, c) == x.(offers := x.offers + [sdp], out := x.out + [Answer(sdp)], remote := true, iceQueue := [],
                         applied := x.applied + x.iceQueue)
  {
    var k := |Ses(s, c).tasks|;
    var s' := Step(s, EOffer(c, sdp, file), rejects);
    FileOfferStarts(s, c, sdp, file, rejects);
    more := OfferFinishes(s', c, k, rejects);
    var y := Ses(s', c);
    assert y.tasks[..k] + y.tasks[k + 1..] == Ses(s, c).tasks;
    assert y.out + [Answer(sdp)] + [] == y.out + [Answer(sdp)];
  }

  // ---------- every other event ----------

  /** An offer whose call is armed, or has its stream captured, is answered at once, with the stream's tracks added
      first; a browser that rejects tracks it sends already leaves it at that. Any other offer of an announced call
      takes the slot and waits. */
  lemma CallOffer(s: State, c: Id, sdp: Sdp, rejects: bool)
    ensures
      var x, t := Ses(s, c), Step(s, EOffer(c, sdp, false), rejects);
      var y := x.(offers := x.offers + [sdp]);
      if c !in s.armed && c in s.calls && s.calls[c].None? then
        t == Put(s, c, y).(offer := Some(Waiting(c, sdp)))
      else
        && t.armed == s.armed - {c} && t.offer == None && t.calls == s.calls
        && t.sessions == s.sessions[c := t.sessions[c]]
        && t.sessions[c] ==
             if c !in s.calls || s.calls[c].None? then y.(tasks := x.tasks + [Describing(sdp, false)])
             else
               var stream := s.calls[c].value;
               if rejects && stream in x.tracks then y
               else y.(tracks := x.tracks + {stream}, tasks := x.tasks + [Tracking(sdp, false)])
  {
    if c !in s.armed { assert s.armed - {c} == s.armed; }
  }

  /** An announcement puts the call on record without a stream, also if it was there before. An acceptance without
      capture answers the offer that waits for it, and then tells the caller; or it tells the caller at once and
      arms the answer. One with capture waits for that. */
  lemma CallAccepted(s: State, c: Id, rejects: bool)
    ensures Step(s, EInvite(c), rejects) == s.(calls := s.calls[c := None])
    ensures
      var x, t := Ses(s, c), Step(s, EAccept(c, false), rejects);
      var y := x.(accepted := x.accepted + 1);
      if s.offer.Some? && s.offer.value.id == c then
        t == Put(s, c, y.(tasks := x.tasks + [Describing(s.offer.value.sdp, true)])).(offer := None)
      else t == Put(s, c, y.(out := x.out + [CallAccept])).(armed := s.armed + {c})
    ensures
      var x := Ses(s, c);
      Step(s, EAccept(c, true), rejects) == Put(s, c, x.(accepts := x.accepts + [Capturing]))
  {
  }

  /** A refused capture ends the acceptance. A captured stream is kept with the call if that is announced, and its
      tracks are added, unless the browser rejects them, which ends the acceptance too; once they are added the
      acceptance goes on as one without capture. */
  lemma CallCaptured(s: State, c: Id, k: nat, stream: Option<Stream>, rejects: bool)
    requires k < |Ses(s, c).accepts|
    ensures
      var x, t := Ses(s, c), Step(s, ECaptured(c, k, stream), rejects);
      var ended := x.(accepts := x.accepts[..k] + x.accepts[k + 1..]);
      if x.accepts[k] == Adding then t == s
      else
        && t.calls == (if stream.Some? && c in s.calls then s.calls[c := stream] else s.calls)
        && t.armed == s.armed && t.offer == s.offer && t.sessions == s.sessions[c := t.sessions[c]]
        && t.sessions[c] ==
             if stream.None? || (rejects && stream.value in x.tracks) then ended
             else x.(tracks := x.tracks + {stream.value}, accepts := x.accepts[k := Adding])
    ensures
      var x, t := Ses(s, c), Step(s, ETracksAdded(c, k), rejects);
      var ended := x.(accepts := x.accepts[..k] + x.accepts[k + 1..]);
      t == if x.accepts[k] == Capturing then s else Step(Put(s, c, ended), EAccept(c, false), rejects)
  {
  }

  // ---------- whole runs ----------

  /** What tasks carry, all together. */
  function Total<T>(tasks: seq<Task>, of: Task -> multiset<T>): multiset<T> {
    if tasks == [] then multiset{} else Total(tasks[..|tasks| - 1], of) + of(tasks[|tasks| - 1])
  }

  lemma {:induction false} TotalConcat<T>(a: seq<Task>, b: seq<Task>, of: Task -> multiset<T>)
    ensures Total(a + b, of) == Total(a, of) + Total(b, of)
    decreases |b|
  {
    if b == [] {
      assert a + b == a;
    } else {
      var init := b[..|b| - 1];
      assert (a + b)[..|a + b| - 1] == a + init;
      TotalConcat(a, init, of);
    }
  }

  lemma TotalOne<T>(t: Task, of: Task -> multiset<T>)
    ensures Total([t], of) == of(t)
  {
    assert [t][..0] == [];
  }

  lemma TotalAdd<T>(tasks: seq<Task>, t: Task, of: Task -> multiset<T>)
    ensures Total(tasks + [t], of) == Total(tasks, of) + of(t)
  {
    TotalConcat(tasks, [t], of);
    TotalOne(t, of);
  }

  lemma {:induction false} TotalAt<T>(tasks: seq<Task>, k: nat, of: Task -> multiset<T>)
    requires k < |tasks|
    ensures Total(tasks, of) == Total(Without(tasks, k), of) + of(tasks[k])
  {
    var init, last := tasks[..|tasks| - 1], tasks[|tasks| - 1];
    if k == |init| {
      assert Without(tasks, k) == init;
    } else {
      TotalAt(init, k, of);
      assert Without(tasks, k) == Without(init, k) + [last];
      TotalAdd(Without(init, k), last, of);
      Swap(Total(Without(init, k), of), of(tasks[k]), of(last));
    }
  }

  lemma Swap<T>(a: multiset<T>, b: multiset<T>, c: multiset<T>)
    ensures a + b + c == a + c + b
  {
  }

  lemma TotalUpdate<T>(tasks: seq<Task>, k: nat, t: Task, of: Task -> multiset<T>)
    requires k < |tasks|
    ensures Total(tasks[k := t], of) == Total(Without(tasks, k), of) + of(t)
  {
    TotalAt(tasks[k := t], k, of);
    assert Without(tasks[k := t], k) == Without(tasks, k);
  }

  lemma TotalSame<T>(tasks: seq<Task>, k: nat, t: Task, of: Task -> multiset<T>)
    requires k < |tasks| && of(t) == of(tasks[k])
    ensures Total(tasks[k := t], of) == Total(tasks, of)
  {
    TotalAt(tasks, k, of);
    TotalUpdate(tasks, k, t, of);
  }

  /** Candidates taken off the queue by a task and not yet applied. */
  function Hand(t: Task): multiset<Candidate> { if t.Flushing? then multiset(t.left) else multiset{} }

  function Offer(t: Task): multiset<Sdp> { multiset{t.sdp} }

  /** Each candidate heard is applied, queued, or in the hands of one offer's answer. */
  ghost predicate Counted(x: Session) {
    multiset(x.heard) == multiset(x.applied) + multiset(x.iceQueue) + Total(x.tasks, Hand)
  }

  ghost predicate Accounted(x: Session) {
    Counted(x) && RemoteOk(x)
  }

  /** Without the remote description nothing has been applied; with it nothing is queued. */
  ghost predicate RemoteOk(x: Session) {
    if x.remote then x.iceQueue == []
    else x.applied == [] && forall k :: 0 <= k < |x.tasks| ==> !RemoteKnown(x.tasks[k])
  }

  lemma ContinuedAccounted(x: Session, k: nat)
    requires Accounted(x) && k < |x.tasks|
    ensures Accounted(Continued(x, k))
  {
    assert Counted(Continued(x, k)) by {
      match x.tasks[k]
      case Flushing(_, _, _) => FlushedCounted(x, k);
      case Answering(_, _) => AnsweredCounted(x, k);
      case _ => StartedCounted(x, k);
    }
    assert RemoteOk(Continued(x, k)) by {
      ContinuedRemote(x, k);
    }
  }

  lemma AnsweredCounted(x: Session, k: nat)
    requires Counted(x) && k < |x.tasks| && x.tasks[k].Answering?
    ensures Counted(Continued(x, k))
  {
    TotalAt(x.tasks, k, Hand);
  }

  lemma ContinuedRemote(x: Session, k: nat)
    requires RemoteOk(x) && k < |x.tasks|
    ensures RemoteOk(Continued(x, k))
  {
  }

  lemma StartedCounted(x: Session, k: nat)
    requires Accounted(x) && k < |x.tasks| && !RemoteKnown(x.tasks[k])
    ensures Counted(Continued(x, k))
  {
    var t := Continued(x, k).tasks[k];
    TotalAt(x.tasks, k, Hand);
    TotalUpdate(x.tasks, k, t, Hand);
    assert Hand(x.tasks[k]) == multiset{};
  }

  lemma FlushedCounted(x: Session, k: nat)
    requires Counted(x) && k < |x.tasks| && x.tasks[k].Flushing?
    ensures Counted(Continued(x, k))
  {
    var left, t, rest := x.tasks[k].left, Continued(x, k).tasks[k], Total(Without(x.tasks, k), Hand);
    assert Total(x.tasks, Hand) == rest + multiset(left) by { TotalAt(x.tasks, k, Hand); }
    assert Total(Continued(x, k).tasks, Hand) == rest + Hand(t) by { TotalUpdate(x.tasks, k, t, Hand); }
    if left != [] {
      assert left == [left[0]] + left[1..];
      assert multiset(x.applied + [left[0]]) == multiset(x.applied) + multiset{left[0]};
      MovesOn(multiset(x.applied), multiset(x.iceQueue), rest, multiset{left[0]}, multiset(left[1..]));
    }
  }

  lemma MovesOn<T>(applied: multiset<T>, queue: multiset<T>, rest: multiset<T>, one: multiset<T>, more: multiset<T>)
    ensures applied + queue + (rest + (one + more)) == applied + one + queue + (rest + more)
  {
  }

  // ---------- what has come for a call ----------

  /** The offers and the candidates of call `c` in a run, in order. */
  function OffersOf(run: seq<Event>, c: Id): seq<Sdp> {
    if run == [] then []
    else
      var e := run[|run| - 1];
      OffersOf(run[..|run| - 1], c) + if e.EOffer? && e.id == c then [e.sdp] else []
  }

  function CandidatesOf(run: seq<Event>, c: Id): seq<Candidate> {
    if run == [] then []
    else
      var e := run[|run| - 1];
      CandidatesOf(run[..|run| - 1], c) + if e.EIce? && e.id == c then [e.candidate] else []
  }

  /** Besides its continuations and what is recorded, at most a new answer begins in a session. */
  ghost predicate Moved(x: Session, y: Session, offered: seq<Sdp>) {
    && y.heard == x.heard && y.applied == x.applied && y.iceQueue == x.iceQueue && y.remote == x.remote
    && y.offers == x.offers + offered
    && (y.tasks == x.tasks || (y.tasks != [] && Grown(x.tasks, y.tasks, y.tasks[|y.tasks| - 1])))
  }

  lemma BeginMoves(x: Session, t: Task)
    requires !RemoteKnown(t)
    ensures Moved(x, Begin(x, t), [])
  {
    assert x.offers + [] == x.offers;
  }

  lemma RespondMoves(x: Session, stream: Option<Stream>, sdp: Sdp, rejects: bool)
    ensures Moved(x, Respond(x, stream, sdp, rejects), [])
  {
    assert x.offers + [] == x.offers;
    if stream.None? {
      BeginMoves(x, Describing(sdp, false));
    } else {
      BeginMoves(x.(tracks := x.tracks + {stream.value}), Tracking(sdp, false));
    }
  }

  lemma OfferMoves(s: State, c: Id, sdp: Sdp, file: bool, rejects: bool)
    ensures Moved(Ses(s, c), Ses(OnOffer(s, c, sdp, file, rejects), c), [sdp])
  {
    var x := Ses(s, c).(offers := Ses(s, c).offers + [sdp]);
    assert x.offers + [] == x.offers;
    RespondMoves(x, Stored(s, c), sdp, rejects);
    RespondMoves(x, None, sdp, rejects);
  }

  lemma TakeMoves(s: State, c: Id)
    ensures Moved(Ses(s, c), Ses(TakeOrArm(s, c), c), [])
  {
    var x := Ses(s, c).(accepted := Ses(s, c).accepted + 1);
    assert x.offers + [] == x.offers;
    if s.offer.Some? {
      BeginMoves(x, Describing(s.offer.value.sdp, true));
    }
  }

  lemma CaptureMoves(s: State, c: Id, k: nat, stream: Option<Stream>, rejects: bool)
    ensures Moved(Ses(s, c), Ses(Captured(s, c, k, stream, rejects), c), [])
  {
    assert Ses(s, c).offers + [] == Ses(s, c).offers;
  }

  lemma StepMoves(s: State, e: Event, rejects: bool)
    ensures
      var x, y := Ses(s, e.id), Ses(Step(s, e, rejects), e.id);
      match e
      case EContinue(_, k) => y == if k < |x.tasks| then Continued(x, k) else x
      case EIce(_, candidate) => y == HeardOne(x, candidate)
      case EOffer(_, sdp, _) => Moved(x, y, [sdp])
      case _ => Moved(x, y, [])
  {
    var x := Ses(s, e.id);
    assert x.offers + [] == x.offers;
    match e
    case EOffer(c, sdp, file) => OfferMoves(s, c, sdp, file, rejects);
    case EAccept(c, captures) => if !captures { TakeMoves(s, c); }
    case ETracksAdded(c, k) =>
      if k < |x.accepts| { TakeMoves(Put(s, c, x.(accepts := Without(x.accepts, k))), c); }
    case ECaptured(c, k, stream) => CaptureMoves(s, c, k, stream, rejects);
    case _ =>
  }

  predicate Grown(was: seq<Task>, now: seq<Task>, t: Task) { now == was + [t] && !RemoteKnown(t) }

  function HeardOne(x: Session, candidate: Candidate): Session {
    var y := x.(heard := x.heard + [candidate]);
    if x.remote then y.(applied := x.applied + [candidate]) else y.(iceQueue := x.iceQueue + [candidate])
  }

  lemma StepRecords(s: State, c: Id, e: Event, rejects: bool)
    ensures
      var x, y := Ses(s, c), Ses(Step(s, e, rejects), c);
      && y.offers == x.offers + (if e.EOffer? && e.id == c then [e.sdp] else [])
      && y.heard == x.heard + if e.EIce? && e.id == c then [e.candidate] else []
  {
    var x := Ses(s, c);
    assert x.offers + [] == x.offers && x.heard + [] == x.heard;
    if e.id == c {
      StepMoves(s, e, rejects);
    } else {
      OthersKept(s, c, e, rejects);
    }
  }

  lemma {:induction false} RunRecords(run: seq<Event>, c: Id, rejects: bool)
    ensures
      var x := Ses(After(run, rejects), c);
      x.offers == OffersOf(run, c) && x.heard == CandidatesOf(run, c)
  {
    if run != [] {
      var n := |run| - 1;
      RunRecords(run[..n], c, rejects);
      StepRecords(After(run[..n], rejects), c, run[n], rejects);
      assert After(run, rejects) == Step(After(run[..n], rejects), run[n], rejects);
    }
  }

  lemma IceAccounted(x: Session, candidate: Candidate)
    requires Accounted(x)
    ensures Accounted(HeardOne(x, candidate))
  {
    assert multiset(x.heard + [candidate]) == multiset(x.heard) + multiset{candidate};
    assert Total(HeardOne(x, candidate).tasks, Hand) == Total(x.tasks, Hand);
  }

  lemma MovedAccounted(x: Session, y: Session, offered: seq<Sdp>)
    requires Accounted(x) && Moved(x, y, offered)
    ensures Accounted(y)
  {
    if y.tasks != x.tasks {
      TotalAdd(x.tasks, y.tasks[|y.tasks| - 1], Hand);
    }
  }

  lemma StepAccounted(s: State, c: Id, e: Event, rejects: bool)
    requires Accounted(Ses(s, c))
    ensures Accounted(Ses(Step(s, e, rejects), c))
  {
    var x, y := Ses(s, c), Ses(Step(s, e, rejects), c);
    if e.id == c {
      StepMoves(s, e, rejects);
      match e
      case EContinue(_, k) => if k < |x.tasks| { ContinuedAccounted(x, k); }
      case EIce(_, candidate) => IceAccounted(x, candidate);
      case EOffer(_, sdp, _) => MovedAccounted(x, y, [sdp]);
      case _ => MovedAccounted(x, y, []);
    } else {
      OthersKept(s, c, e, rejects);
    }
  }

  lemma OthersKept(s: State, c: Id, e: Event, rejects: bool)
    requires e.id != c
    ensures Ses(Step(s, e, rejects), c) == Ses(s, c)
    ensures c in Step(s, e, rejects).armed <==> c in s.armed
  {
  }

  lemma {:induction false} RunAccounted(run: seq<Event>, c: Id, rejects: bool)
    ensures Accounted(Ses(After(run, rejects), c))
  {
    if run != [] {
      var n := |run| - 1;
      RunAccounted(run[..n], c, rejects);
      StepAccounted(After(run[..n], rejects), c, run[n], rejects);
    }
  }

  /** In every run whatever, each candidate that came for a call is applied, queued, or in the hands of one of the
      answers under way, once; none is applied before the remote description is set, and with that set and no answer
      under way all have been. */
  lemma CandidatesAreConserved(run: seq<Event>, c: Id, rejects: bool)
    ensures
      var x := Ses(After(run, rejects), c);
      && multiset(CandidatesOf(run, c)) == multiset(x.applied) + multiset(x.iceQueue) + Total(x.tasks, Hand)
      && (!x.remote ==> x.applied == [])
      && (x.remote && x.tasks == [] ==> multiset(x.applied) == multiset(CandidatesOf(run, c)))
  {
    RunAccounted(run, c, rejects);
    RunRecords(run, c, rejects);
  }

  // ---------- a call nobody accepts ----------

  /** Nobody accepts the call, and its offers are a file's or come before it is announced. */
  ghost predicate Unattended(run: seq<Event>, c: Id, rejects: bool) {
    forall i: nat :: i < |run| ==> UnattendedAt(run, i, c, rejects)
  }

  predicate UnattendedAt(run: seq<Event>, i: nat, c: Id, rejects: bool)
    requires i < |run|
  {
    run[i].id == c ==> Unanswerable(After(run[..i], rejects), run[i])
  }

  predicate Unanswerable(s: State, e: Event) {
    match e
    case EAccept(_, _) => false
    case EOffer(c, _, file) => file || c !in s.calls
    case _ => true
  }

  function Answers(offers: seq<Sdp>): (r: seq<Out>)
    ensures |r| == |offers|
    ensures forall i :: 0 <= i < |offers| ==> r[i] == Answer(offers[i])
  {
    seq(|offers|, i requires 0 <= i < |offers| => Answer(offers[i]))
  }

  function Promise(t: Task): multiset<Out> { multiset{Answer(t.sdp)} }

  /** Answered and being answered are together the offers. */
  ghost predicate Promised(x: Session) {
    multiset(x.out) + Total(x.tasks, Promise) == multiset(Answers(x.offers))
  }

  predicate Plain(x: Session) {
    x.accepts == [] && (x.out != [] ==> x.remote) && forall k :: 0 <= k < |x.tasks| ==> !x.tasks[k].last
  }

  lemma StartPromised(x: Session, sdp: Sdp)
    requires Promised(x)
    ensures Promised(x.(offers := x.offers + [sdp], tasks := x.tasks + [Describing(sdp, false)]))
  {
    TotalAdd(x.tasks, Describing(sdp, false), Promise);
    var was := Answers(x.offers);
    assert Answers(x.offers + [sdp]) == was + [Answer(sdp)];
    assert multiset(was + [Answer(sdp)]) == multiset(was) + multiset{Answer(sdp)};
  }

  lemma ContinuedPromised(x: Session, k: nat)
    requires Promised(x) && Plain(x) && k < |x.tasks|
    ensures Promised(Continued(x, k))
  {
    if x.tasks[k].Answering? {
      AnsweredPromised(x, k);
    } else {
      AnsweringPromised(x, Continued(x, k), k);
    }
  }

  lemma AnsweredPromised(x: Session, k: nat)
    requires Promised(x) && k < |x.tasks| && x.tasks[k].Answering? && !x.tasks[k].last
    ensures Promised(Continued(x, k))
  {
    var t, y := x.tasks[k], Continued(x, k);
    assert y.out == x.out + [Answer(t.sdp)] && y.tasks == Without(x.tasks, k);
    TotalAt(x.tasks, k, Promise);
    SaidOne(x.out, Answer(t.sdp), Total(y.tasks, Promise));
  }

  lemma AnsweringPromised(x: Session, y: Session, k: nat)
    requires Promised(x) && k < |x.tasks|
    requires |y.tasks| == |x.tasks| && y.tasks == x.tasks[k := y.tasks[k]] && y.tasks[k].sdp == x.tasks[k].sdp
    requires y.out == x.out && y.offers == x.offers
    ensures Promised(y)
  {
    TotalSame(x.tasks, k, y.tasks[k], Promise);
    SamePromise(x, y);
  }

  lemma SamePromise(x: Session, y: Session)
    requires Promised(x) && y.out == x.out && y.offers == x.offers
    requires Total(y.tasks, Promise) == Total(x.tasks, Promise)
    ensures Promised(y)
  {
  }

  lemma SaidOne(out: seq<Out>, o: Out, rest: multiset<Out>)
    ensures multiset(out + [o]) + rest == multiset(out) + (rest + multiset{o})
  {
    assert multiset(out + [o]) == multiset(out) + multiset{o};
  }

  lemma ContinuedPlain(x: Session, k: nat)
    requires Plain(x) && RemoteOk(x) && k < |x.tasks|
    ensures Plain(Continued(x, k))
  {
  }

  /** News other than offers and continuations leave out, tasks and offers alone. */
  lemma IdleStep(s: State, e: Event, rejects: bool)
    requires !e.EOffer? && !e.EContinue? && !e.EAccept? && Ses(s, e.id).accepts == []
    ensures
      var x, t := Ses(s, e.id), Step(s, e, rejects);
      var y := Ses(t, e.id);
      && t.armed == s.armed && y.accepts == [] && y.remote == x.remote
      && y.out == x.out && y.tasks == x.tasks && y.offers == x.offers
  {
  }

  lemma ContinuePromised(s: State, c: Id, k: nat)
    requires Promised(Ses(s, c)) && Plain(Ses(s, c)) && RemoteOk(Ses(s, c))
    ensures
      var t := Continue(s, c, k);
      Promised(Ses(t, c)) && Plain(Ses(t, c)) && t.armed == s.armed
  {
    if k < |Ses(s, c).tasks| {
      assert Ses(Continue(s, c, k), c) == Continued(Ses(s, c), k);
      ContinuedPromised(Ses(s, c), k);
      ContinuedPlain(Ses(s, c), k);
    }
  }

  lemma OfferPromised(s: State, c: Id, sdp: Sdp, file: bool, rejects: bool)
    requires Promised(Ses(s, c)) && Plain(Ses(s, c)) && c !in s.armed && (file || c !in s.calls)
    ensures
      var t := Step(s, EOffer(c, sdp, file), rejects);
      Promised(Ses(t, c)) && Plain(Ses(t, c)) && t.armed == s.armed
  {
    FileOfferStarts(s, c, sdp, file, rejects);
    StartPromised(Ses(s, c), sdp);
  }

  lemma StepPromised(s: State, e: Event, rejects: bool)
    requires Promised(Ses(s, e.id)) && Plain(Ses(s, e.id)) && RemoteOk(Ses(s, e.id)) && e.id !in s.armed
    requires Unanswerable(s, e)
    ensures
      var t := Step(s, e, rejects);
      Promised(Ses(t, e.id)) && Plain(Ses(t, e.id)) && e.id !in t.armed
  {
    var x := Ses(s, e.id);
    match e
    case EOffer(c, sdp, file) => OfferPromised(s, c, sdp, file, rejects);
    case EContinue(_, k) =>
      ContinuePromised(s, e.id, k);
    case _ =>
      IdleStep(s, e, rejects);
      SamePromise(x, Ses(Step(s, e, rejects), e.id));
  }

  lemma {:induction false} RunPromised(run: seq<Event>, c: Id, rejects: bool)
    requires Unattended(run, c, rejects)
    ensures
      var s := After(run, rejects);
      Promised(Ses(s, c)) && Plain(Ses(s, c)) && c !in s.armed
  {
    if run != [] {
      var n := |run| - 1;
      var init := run[..n];
      forall i: nat | i < n ensures UnattendedAt(init, i, c, rejects) {
        assert init[..i] == run[..i] && UnattendedAt(run, i, c, rejects);
      }
      RunPromised(init, c, rejects);
      RunAccounted(init, c, rejects);
      assert UnattendedAt(run, n, c, rejects);
      if run[n].id == c {
        StepPromised(After(init, rejects), run[n], rejects);
      } else {
        OthersKept(After(init, rejects), c, run[n], rejects);
      }
    } else {
      assert Answers([]) == [];
    }
  }

  /** Offers that need no acceptance, in every run: each has been answered or is being answered, once; when nothing is
      under way there is exactly one answer per offer and nothing else, and every candidate has been applied once. */
  lemma EveryFileOfferIsAnswered(run: seq<Event>, c: Id, rejects: bool)
    requires Unattended(run, c, rejects)
    ensures
      var x := Ses(After(run, rejects), c);
      && multiset(x.out) + Total(x.tasks, Promise) == multiset(Answers(OffersOf(run, c)))
      && (x.tasks == [] ==> multiset(x.out) == multiset(Answers(OffersOf(run, c))))
      && (x.tasks == [] && OffersOf(run, c) != [] ==> multiset(x.applied) == multiset(CandidatesOf(run, c)))
  {
    RunPromised(run, c, rejects);
    RunRecords(run, c, rejects);
    CandidatesAreConserved(run, c, rejects);
    var x, answers := Ses(After(run, rejects), c), Answers(OffersOf(run, c));
    if x.tasks == [] && answers != [] {
      assert answers[0] in multiset(answers);
      assert x.out != [];
    }
  }
}
