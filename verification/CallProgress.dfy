/** What answering keeps and brings about for one call among others: one answer at most, and exactly one
    unless the waiting offer was displaced or the browser rejected the tracks; no candidate is lost. */
module CallProgress {
  import opened Options
  import opened CallAnswer

  /** All the state there is about one call. */
  datatype View = View(called: bool, stream: Option<Stream>, armed: bool, waits: Option<Sdp>, x: Session)

  function Of(s: State, c: Id): View {
    View(c in s.calls, Stored(s, c), c in s.armed,
         if s.offer.Some? && s.offer.value.id == c then Some(s.offer.value.sdp) else None, Ses(s, c))
  }

  // ---------- the premise ----------

  /** The call is announced once and before its one offer, which is not a file transfer's, and the user
      does not accept again while an acceptance is under way or done. */
  predicate Orderly(v: View, e: Event) {
    match e
    case EInvite(_) => !v.called
    case EOffer(_, _, file) => v.called && !file && v.x.offers == []
    case EAccept(_, _) => v.x.accepts == [] && v.x.accepted == 0
    case _ => true
  }

  ghost predicate OrderlyRun(run: seq<Event>, c: Id, rejects: bool) {
    forall i: nat :: i < |run| ==> OrderlyAt(run, i, c, rejects)
  }

  predicate OrderlyAt(run: seq<Event>, i: nat, c: Id, rejects: bool)
    requires i < |run|
  {
    run[i].id == c ==> Orderly(Of(After(run[..i], rejects), c), run[i])
  }

  // ---------- what every step keeps ----------

  predicate Answered(v: View) { v.x.offers != [] && Answer(v.x.offers[0]) in v.x.out }

  predicate Told(v: View) { v.x.accepted == 1 && !(v.x.tasks != [] && v.x.tasks[0].last) }

  /** Candidates taken from the queue but not yet applied. */
  function InHand(x: Session): seq<Candidate> {
    if x.tasks != [] && x.tasks[0].Flushing? then x.tasks[0].left else []
  }

  predicate RemoteKnown(t: Task) { t.Flushing? || t.Answering? }

  /** Every candidate that arrived is applied, queued or in hand, and counted once. */
  predicate IceKept(x: Session) {
    && multiset(x.heard) == multiset(x.applied) + multiset(x.iceQueue) + multiset(InHand(x))
    && (if x.remote then x.iceQueue == [] else x.applied == [])
  }

  predicate Single(x: Session) { |x.offers| <= 1 && |x.tasks| <= 1 && |x.accepts| + x.accepted <= 1 }

  /** The acceptance was announced at most once, and so was the answer. */
  predicate Said(v: View) {
    multiset(v.x.out) ==
      (if Told(v) then multiset{CallAccept} else multiset{}) +
      if Answered(v) then multiset{Answer(v.x.offers[0])} else multiset{}
  }

  predicate WaitsOk(v: View) {
    v.waits.Some? ==> v.called && v.x.offers == [v.waits.value] && !v.armed && v.x.accepted == 0
  }

  /** The user has accepted, and what there was to capture is captured. */
  predicate Engaged(x: Session) { x.accepts == [Adding] || x.accepted == 1 }

  predicate TaskOk(x: Session) {
    && (x.tasks != [] ==>
          && x.offers == [x.tasks[0].sdp] && Engaged(x)
          && (x.tasks[0].last ==> x.accepted == 1)
          && (x.remote <==> RemoteKnown(x.tasks[0])))
  }

  predicate Phases(v: View) {
    && (v.x.offers == [] ==> (v.armed <==> v.x.accepted == 1))
    && (v.armed ==> v.x.accepted == 1)
    && (v.stream.Some? ==> v.stream.value in v.x.tracks && Engaged(v.x))
    && (!Engaged(v.x) ==> v.x.tracks == {})
    && (v.waits.Some? || v.x.tasks != [] ==> !Answered(v))
    && (v.waits.Some? ==> v.x.tasks == [])
    && (v.x.tasks == [] ==> (v.x.remote <==> Answered(v)))
    && (Answered(v) ==> Engaged(v.x))
  }

  predicate Good(v: View) {
    Single(v.x) && IceKept(v.x) && Said(v) && WaitsOk(v) && TaskOk(v.x) && Phases(v)
  }

  /** The offer came, and will never be answered. */
  predicate Dead(v: View) { v.x.offers != [] && v.waits.None? && v.x.tasks == [] && !Answered(v) }

  /** The event takes away the call's chance of an answer: any other offer while its own one waits, or its
      own offer when the captured tracks are already sent and the browser rejects them. */
  predicate Loses(v: View, c: Id, e: Event, rejects: bool) {
    e.EOffer? && if e.id == c then rejects && v.stream.Some? else v.waits.Some?
  }

  lemma StepKeeps(s: State, c: Id, e: Event, rejects: bool)
    requires Good(Of(s, c))
    requires e.id == c ==> Orderly(Of(s, c), e)
    ensures Good(Of(Step(s, e, rejects), c))
    ensures Dead(Of(Step(s, e, rejects), c)) <==> Dead(Of(s, c)) || Loses(Of(s, c), c, e, rejects)
  {
    if e.id != c {
      OthersStep(s, c, e, rejects);
    } else {
      OwnStep(s, c, e, rejects);
    }
  }

  lemma OwnStep(s: State, c: Id, e: Event, rejects: bool)
    requires Good(Of(s, c)) && e.id == c && Orderly(Of(s, c), e)
    ensures Good(Of(Step(s, e, rejects), c))
    ensures Dead(Of(Step(s, e, rejects), c)) <==> Dead(Of(s, c)) || Loses(Of(s, c), c, e, rejects)
  {
    match e
    case EInvite(_) => assert Of(OnInvite(s, c), c) == Of(s, c).(called := true);
    case EOffer(_, sdp, file) => OfferStep(s, c, sdp, rejects);
    case EIce(_, candidate) => IceStep(s, c, candidate);
    case EAccept(_, captures) => AcceptStep(s, c, captures);
    case ECaptured(_, k, stream) => CapturedStep(s, c, k, stream, rejects);
    case ETracksAdded(_, k) => TracksStep(s, c, k);
    case EContinue(_, k) => ContinueStep(s, c, k);
  }

  /** Steps about other calls leave this one alone, except that any other offer empties the slot. */
  lemma OthersStep(s: State, c: Id, e: Event, rejects: bool)
    requires e.id != c
    ensures Of(Step(s, e, rejects), c) == if e.EOffer? then Of(s, c).(waits := None) else Of(s, c)
  {
    match e
    case EInvite(_) =>
    case EOffer(d, sdp, file) => OthersOffer(s, c, d, sdp, file, rejects);
    case EIce(d, candidate) => OthersPut(s, c, d, Arrived(Ses(s, d), candidate));
    case EAccept(d, captures) => OthersAccept(s, c, d, captures);
    case ECaptured(d, k, stream) => OthersCaptured(s, c, d, k, stream, rejects);
    case ETracksAdded(d, k) => OthersTracks(s, c, d, k);
    case EContinue(d, k) => if k < |Ses(s, d).tasks| { OthersPut(s, c, d, Continued(Ses(s, d), k)); }
  }

  lemma OthersPut(s: State, c: Id, d: Id, x: Session)
    requires d != c
    ensures Of(Put(s, d, x), c) == Of(s, c)
  {
  }

  lemma OthersAccept(s: State, c: Id, d: Id, captures: bool)
    requires d != c
    ensures Of(Accept(s, d, captures), c) == Of(s, c)
  {
    if captures {
      OthersPut(s, c, d, Ses(s, d).(accepts := Ses(s, d).accepts + [Capturing]));
    } else {
      OthersTake(s, c, d);
    }
  }

  lemma OthersCaptured(s: State, c: Id, d: Id, k: nat, stream: Option<Stream>, rejects: bool)
    requires d != c
    ensures Of(Captured(s, d, k, stream, rejects), c) == Of(s, c)
  {
  }

  lemma OthersTracks(s: State, c: Id, d: Id, k: nat)
    requires d != c
    ensures Of(TracksAdded(s, d, k), c) == Of(s, c)
  {
    if k < |Ses(s, d).accepts| && Ses(s, d).accepts[k].Adding? {
      var x := Ses(s, d).(accepts := Without(Ses(s, d).accepts, k));
      OthersPut(s, c, d, x);
      OthersTake(Put(s, d, x), c, d);
    }
  }

  lemma OthersOffer(s: State, c: Id, d: Id, sdp: Sdp, file: bool, rejects: bool)
    requires d != c
    ensures Of(OnOffer(s, d, sdp, file, rejects), c) == Of(s, c).(waits := None)
  {
  }

  lemma OthersTake(s: State, c: Id, d: Id)
    requires d != c
    ensures Of(TakeOrArm(s, d), c) == Of(s, c)
  {
  }

  lemma OfferStep(s: State, c: Id, sdp: Sdp, rejects: bool)
    requires Good(Of(s, c)) && c in s.calls && Ses(s, c).offers == []
    ensures Good(Of(OnOffer(s, c, sdp, false, rejects), c))
    ensures Dead(Of(OnOffer(s, c, sdp, false, rejects), c)) <==> rejects && Stored(s, c).Some?
  {
    var v, w := Of(s, c), Of(OnOffer(s, c, sdp, false, rejects), c);
    OfOffer(s, c, sdp, rejects);
    OfferedView(v, sdp, rejects);
  }

  lemma OfOffer(s: State, c: Id, sdp: Sdp, rejects: bool)
    requires c in s.calls && Ses(s, c).offers == []
    ensures Of(OnOffer(s, c, sdp, false, rejects), c) == AfterOffer(Of(s, c), sdp, rejects)
  {
    assert Ses(s, c).offers + [sdp] == [sdp];
  }

  function AfterOffer(v: View, sdp: Sdp, rejects: bool): View {
    var noted := v.x.(offers := [sdp]);
    if v.armed || v.stream.Some? then v.(armed := false, waits := None, x := Respond(noted, v.stream, sdp, rejects))
    else v.(waits := Some(sdp), x := noted)
  }

  lemma OfferedView(v: View, sdp: Sdp, rejects: bool)
    requires Good(v) && v.called && v.x.offers == []
    ensures Good(AfterOffer(v, sdp, rejects))
    ensures Dead(AfterOffer(v, sdp, rejects)) <==> rejects && v.stream.Some?
  {
    var w := AfterOffer(v, sdp, rejects);
    assert v.x.tasks == [];
    assert IceKept(w.x);
    if v.armed || v.stream.Some? {
      assert w.x.tasks == [] || !w.x.tasks[0].last;
    }
    assert Told(w) == Told(v) && !Answered(v);
    NoAnswerYet(v, Answer(sdp));
    assert !Answered(w);
  }

  lemma NoAnswerYet(v: View, a: Out)
    requires Said(v) && !Answered(v) && a.Answer?
    ensures a !in v.x.out
  {
    assert a in v.x.out <==> a in multiset(v.x.out);
  }

  lemma IceStep(s: State, c: Id, candidate: Candidate)
    requires Good(Of(s, c))
    ensures Good(Of(OnIce(s, c, candidate), c))
    ensures Dead(Of(OnIce(s, c, candidate), c)) <==> Dead(Of(s, c))
  {
    OfPut(s, c, Arrived(Ses(s, c), candidate));
    ArrivedView(Of(s, c), candidate);
  }

  function Arrived(x: Session, candidate: Candidate): Session {
    var y := x.(heard := x.heard + [candidate]);
    if x.remote then y.(applied := x.applied + [candidate]) else y.(iceQueue := x.iceQueue + [candidate])
  }

  lemma ArrivedView(v: View, candidate: Candidate)
    requires Good(v)
    ensures
      var w := v.(x := Arrived(v.x, candidate));
      Good(w) && (Dead(w) <==> Dead(v))
  {
    ArrivedIce(v.x, candidate);
  }

  lemma ArrivedIce(x: Session, candidate: Candidate)
    requires IceKept(x)
    ensures IceKept(Arrived(x, candidate))
  {
  }

  lemma AcceptStep(s: State, c: Id, captures: bool)
    requires Good(Of(s, c)) && Ses(s, c).accepts == [] && Ses(s, c).accepted == 0
    ensures Good(Of(Accept(s, c, captures), c))
    ensures Dead(Of(Accept(s, c, captures), c)) <==> Dead(Of(s, c))
  {
    if !captures { TakeStep(s, c, Ses(s, c)); }
  }

  /** The acceptance proper, once `x` has nothing left to wait for. */
  lemma TakeStep(s: State, c: Id, x: Session)
    requires Good(Of(s, c)) && Ses(s, c).accepted == 0
    requires x == Ses(s, c).(accepts := [])
    ensures Good(Of(TakeOrArm(Put(s, c, x), c), c))
    ensures Dead(Of(TakeOrArm(Put(s, c, x), c), c)) <==> Dead(Of(s, c))
  {
    OfTake(s, c, x);
    TakenView(Of(s, c));
  }

  lemma OfTake(s: State, c: Id, x: Session)
    requires x == Ses(s, c).(accepts := [])
    ensures Of(TakeOrArm(Put(s, c, x), c), c) == AfterTake(Of(s, c))
  {
  }

  function AfterTake(v: View): View {
    var x := v.x.(accepts := [], accepted := v.x.accepted + 1);
    if v.waits.Some? then v.(waits := None, x := Begin(x, Describing(v.waits.value, true)))
    else v.(armed := true, x := x.(out := x.out + [CallAccept]))
  }

  lemma TakenView(v: View)
    requires Good(v) && v.x.accepted == 0
    ensures Good(AfterTake(v)) && (Dead(AfterTake(v)) <==> Dead(v))
  {
    var w := AfterTake(v);
    assert !Told(v);
    if v.waits.Some? {
      assert v.x.tasks == [] && !Told(w);
    } else {
      assert w.x.tasks == v.x.tasks && Told(w);
    }
    assert IceKept(w.x);
  }

  lemma CapturedStep(s: State, c: Id, k: nat, stream: Option<Stream>, rejects: bool)
    requires Good(Of(s, c))
    ensures Good(Of(Captured(s, c, k, stream, rejects), c))
    ensures Dead(Of(Captured(s, c, k, stream, rejects), c)) <==> Dead(Of(s, c))
  {
    var v, w := Of(s, c), Of(Captured(s, c, k, stream, rejects), c);
    if w != v {
      assert v.x.accepts == [Capturing] && k == 0;
      CapturedView(v, stream);
      CapturedFrom(s, c, stream, rejects);
    }
  }

  lemma CapturedFrom(s: State, c: Id, stream: Option<Stream>, rejects: bool)
    requires Ses(s, c).accepts == [Capturing] && Ses(s, c).tracks == {}
    ensures Of(Captured(s, c, 0, stream, rejects), c) == AfterCapture(Of(s, c), stream)
  {
    assert Without([Capturing], 0) == [];
  }

  function AfterCapture(v: View, stream: Option<Stream>): View {
    var x :=
      if stream.None? then v.x.(accepts := [])
      else v.x.(tracks := v.x.tracks + {stream.value}, accepts := [Adding]);
    v.(stream := if v.called && stream.Some? then stream else v.stream, x := x)
  }

  lemma CapturedView(v: View, stream: Option<Stream>)
    requires Good(v) && v.x.accepts == [Capturing]
    ensures Good(AfterCapture(v, stream)) && (Dead(AfterCapture(v, stream)) <==> Dead(v))
  {
  }

  lemma TracksStep(s: State, c: Id, k: nat)
    requires Good(Of(s, c))
    ensures Good(Of(TracksAdded(s, c, k), c))
    ensures Dead(Of(TracksAdded(s, c, k), c)) <==> Dead(Of(s, c))
  {
    if k < |Ses(s, c).accepts| && Ses(s, c).accepts[k].Adding? {
      assert Without(Ses(s, c).accepts, k) == [];
      TakeStep(s, c, Ses(s, c).(accepts := []));
    }
  }

  lemma ContinueStep(s: State, c: Id, k: nat)
    requires Good(Of(s, c))
    ensures Good(Of(Continue(s, c, k), c))
    ensures Dead(Of(Continue(s, c, k), c)) <==> Dead(Of(s, c))
  {
    if k < |Ses(s, c).tasks| {
      assert k == 0;
      ContinuedView(Of(s, c));
      OfPut(s, c, Continued(Ses(s, c), 0));
    }
  }

  lemma OfPut(s: State, c: Id, x: Session)
    ensures Of(Put(s, c, x), c) == Of(s, c).(x := x)
  {
  }

  lemma ContinuedView(v: View)
    requires Good(v) && v.x.tasks != []
    ensures Good(v.(x := Continued(v.x, 0)))
    ensures !Dead(v) && !Dead(v.(x := Continued(v.x, 0)))
  {
    assert Good(v.(x := Continued(v.x, 0))) by {
      match v.x.tasks[0]
      case Tracking(_, _) => TrackingView(v);
      case Describing(_, _) => DescribingView(v);
      case Flushing(_, _, _) => FlushingView(v);
      case Answering(_, _) => AnsweringView(v);
    }
    if v.x.tasks[0].Answering? {
      AnsweringView(v);
    } else {
      StillAtIt(v.x);
    }
  }

  lemma StillAtIt(x: Session)
    requires x.tasks != [] && !x.tasks[0].Answering?
    ensures Continued(x, 0).tasks != []
  {
  }

  lemma TrackingView(v: View)
    requires Good(v) && v.x.tasks != [] && v.x.tasks[0].Tracking?
    ensures Good(v.(x := Continued(v.x, 0)))
  {
    var w := v.(x := Continued(v.x, 0));
    assert Told(w) == Told(v);
  }

  lemma DescribingView(v: View)
    requires Good(v) && v.x.tasks != [] && v.x.tasks[0].Describing?
    ensures Good(v.(x := Continued(v.x, 0)))
  {
    var w := v.(x := Continued(v.x, 0));
    assert Told(w) == Told(v);
  }

  lemma FlushingView(v: View)
    requires Good(v) && v.x.tasks != [] && v.x.tasks[0].Flushing?
    ensures Good(v.(x := Continued(v.x, 0)))
  {
    var w := v.(x := Continued(v.x, 0));
    assert Told(w) == Told(v);
    assert IceKept(w.x) by {
      FlushingKeepsIce(v.x);
    }
  }

  lemma FlushingKeepsIce(x: Session)
    requires Single(x) && IceKept(x) && x.remote && x.tasks != [] && x.tasks[0].Flushing?
    ensures IceKept(Continued(x, 0))
  {
    var left := x.tasks[0].left;
    if left != [] {
      assert left == [left[0]] + left[1..];
    }
  }

  lemma AnsweringView(v: View)
    requires Good(v) && v.x.tasks != [] && v.x.tasks[0].Answering?
    ensures Good(v.(x := Continued(v.x, 0))) && Answered(v.(x := Continued(v.x, 0)))
  {
    assert Without(v.x.tasks, 0) == [];
  }

  // ---------- whole runs ----------

  /** Event `i` costs the call its answer. */
  ghost predicate LostAt(run: seq<Event>, i: nat, c: Id, rejects: bool) {
    i < |run| && Loses(Of(After(run[..i], rejects), c), c, run[i], rejects)
  }

  lemma LostSnoc(run: seq<Event>, c: Id, rejects: bool)
    requires run != []
    ensures
      var n := |run| - 1;
      (exists i: nat :: LostAt(run, i, c, rejects)) <==>
        (exists i: nat :: LostAt(run[..n], i, c, rejects)) || Loses(Of(After(run[..n], rejects), c), c, run[n], rejects)
  {
    var n := |run| - 1;
    forall i: nat
      ensures LostAt(run, i, c, rejects) <==> LostAt(run[..n], i, c, rejects) || (i == n && LostAt(run, n, c, rejects))
    {
      if i < n { assert run[..n][..i] == run[..i]; }
    }
    assert LostAt(run, n, c, rejects) <==> Loses(Of(After(run[..n], rejects), c), c, run[n], rejects);
  }

  lemma OrderlySnoc(run: seq<Event>, c: Id, rejects: bool)
    requires run != [] && OrderlyRun(run, c, rejects)
    ensures OrderlyRun(run[..|run| - 1], c, rejects) && OrderlyAt(run, |run| - 1, c, rejects)
  {
    var init := run[..|run| - 1];
    forall i: nat | i < |init| ensures OrderlyAt(init, i, c, rejects) {
      assert init[..i] == run[..i];
      assert OrderlyAt(run, i, c, rejects);
    }
  }

  lemma {:induction false} RunKeeps(run: seq<Event>, c: Id, rejects: bool)
    requires OrderlyRun(run, c, rejects)
    ensures Good(Of(After(run, rejects), c))
    ensures Dead(Of(After(run, rejects), c)) <==> exists i: nat :: LostAt(run, i, c, rejects)
  {
    if run != [] {
      var n := |run| - 1;
      OrderlySnoc(run, c, rejects);
      RunKeeps(run[..n], c, rejects);
      StepKeeps(After(run[..n], rejects), c, run[n], rejects);
      LostSnoc(run, c, rejects);
    }
  }

  /** Nothing of the call is waiting for a continuation. */
  predicate Settled(v: View) { v.x.accepts == [] && v.x.tasks == [] }

  /** In every orderly run: at most one answer, only for the call's own offer and only after acceptance. Once
      offered, accepted and settled, the acceptance was announced once, and the answer was sent exactly if
      nothing cost the call its answer. */
  lemma AnsweredExactlyOnce(run: seq<Event>, c: Id, rejects: bool)
    requires OrderlyRun(run, c, rejects)
    ensures
      var v := Of(After(run, rejects), c);
      && (forall d :: Answer(d) in v.x.out ==> v.x.offers == [d] && Engaged(v.x) && multiset(v.x.out)[Answer(d)] == 1)
      && (v.x.offers != [] && v.x.accepted == 1 && Settled(v) ==>
            multiset(v.x.out) == multiset{CallAccept} +
              if exists i: nat :: LostAt(run, i, c, rejects) then multiset{} else multiset{Answer(v.x.offers[0])})
  {
    RunKeeps(run, c, rejects);
    var v := Of(After(run, rejects), c);
    forall d | Answer(d) in v.x.out ensures v.x.offers == [d] && Engaged(v.x) && multiset(v.x.out)[Answer(d)] == 1 {
      assert Answer(d) in multiset(v.x.out);
    }
  }

  /** In every orderly run each candidate that arrived is applied, queued or in hand, once; with the remote
      description set and the call settled, the candidates applied are exactly those that arrived. */
  lemma CandidatesAppliedOnce(run: seq<Event>, c: Id, rejects: bool)
    requires OrderlyRun(run, c, rejects)
    ensures
      var x := Of(After(run, rejects), c).x;
      && multiset(x.heard) == multiset(x.applied) + multiset(x.iceQueue) + multiset(InHand(x))
      && (!x.remote ==> x.applied == [])
      && (x.remote && x.tasks == [] ==> multiset(x.applied) == multiset(x.heard))
  {
    RunKeeps(run, c, rejects);
  }

  // ---------- nothing is stuck ----------

  /** Continuations still to come. */
  function ToCome(x: Session): nat {
    (if x.accepts == [] then 0 else if x.accepts[0].Capturing? then 20 else 10) +
    (if x.tasks == [] then 0 else
     match x.tasks[0]
     case Tracking(_, _) => 5
     case Describing(_, _) => 4
     case Flushing(_, _, _) => 3
     case Answering(_, _) => 2)
  }

  /** The next continuation of the call. */
  function NextUp(v: View, c: Id, stream: Stream): Event
    requires !Settled(v)
  {
    if v.x.tasks != [] then EContinue(c, 0)
    else if v.x.accepts[0].Capturing? then ECaptured(c, 0, Some(stream))
    else ETracksAdded(c, 0)
  }

  /** If the captures succeed, every reachable state of the call settles after finitely many continuations. */
  lemma {:induction false} Settles(s: State, c: Id, stream: Stream, rejects: bool) returns (more: seq<Event>)
    requires Good(Of(s, c))
    ensures forall e <- more :: e.id == c && !e.EOffer? && !e.EInvite? && !e.EAccept? && !e.EIce?
    ensures Settled(Of(Steps(s, more, rejects), c))
    decreases ToCome(Ses(s, c)), |InHand(Ses(s, c))|
  {
    if Settled(Of(s, c)) { return []; }
    var e := NextUp(Of(s, c), c, stream);
    StepKeeps(s, c, e, rejects);
    NextUpAdvances(s, c, stream, rejects);
    more := Settles(Step(s, e, rejects), c, stream, rejects);
    more := [e] + more;
  }

  function Steps(s: State, es: seq<Event>, rejects: bool): State
    decreases |es|
  {
    if es == [] then s else Steps(Step(s, es[0], rejects), es[1..], rejects)
  }

  lemma NextUpAdvances(s: State, c: Id, stream: Stream, rejects: bool)
    requires Good(Of(s, c)) && !Settled(Of(s, c))
    ensures
      var x, y := Ses(s, c), Ses(Step(s, NextUp(Of(s, c), c, stream), rejects), c);
      ToCome(y) < ToCome(x) || (ToCome(y) == ToCome(x) && |InHand(y)| < |InHand(x)|)
  {
    var x := Ses(s, c);
    if x.tasks != [] {
      OfPut(s, c, Continued(x, 0));
      ContinuedAdvances(Of(s, c));
    } else if x.accepts[0].Capturing? {
      CaptureAdvances(s, c, stream, rejects);
    } else {
      TracksAdvance(s, c);
    }
  }

  lemma CaptureAdvances(s: State, c: Id, stream: Stream, rejects: bool)
    requires Good(Of(s, c)) && Ses(s, c).tasks == [] && Ses(s, c).accepts == [Capturing]
    ensures ToCome(Ses(Captured(s, c, 0, Some(stream), rejects), c)) < ToCome(Ses(s, c))
  {
    CapturedFrom(s, c, Some(stream), rejects);
    assert Of(Captured(s, c, 0, Some(stream), rejects), c).x.accepts == [Adding];
  }

  lemma TracksAdvance(s: State, c: Id)
    requires Ses(s, c).tasks == [] && Ses(s, c).accepts == [Adding]
    ensures ToCome(Ses(TracksAdded(s, c, 0), c)) < ToCome(Ses(s, c))
  {
    assert Without([Adding], 0) == [];
    OfTake(s, c, Ses(s, c).(accepts := []));
    assert Of(TracksAdded(s, c, 0), c) == AfterTake(Of(s, c));
  }

  lemma ContinuedAdvances(v: View)
    requires Good(v) && v.x.tasks != []
    ensures
      var x, y := v.x, Continued(v.x, 0);
      ToCome(y) < ToCome(x) || (ToCome(y) == ToCome(x) && |InHand(y)| < |InHand(x)|)
  {
    assert Continued(v.x, 0).accepts == v.x.accepts;
    assert Without(v.x.tasks, 0) == [];
  }

  // ---------- the two ways to lose the answer ----------

  lemma AfterSnoc(run: seq<Event>, e: Event, rejects: bool)
    ensures After(run + [e], rejects) == Step(After(run, rejects), e, rejects)
  {
    assert (run + [e])[..|run|] == run;
  }

  /** The call is announced, and nothing else. */
  const RINGING: View := View(true, None, false, None, NEW)

  lemma Rings(c: Id, rejects: bool)
    ensures Of(After([EInvite(c)], rejects), c) == RINGING
  {
    AfterSnoc([], EInvite(c), rejects);
    assert [] + [EInvite(c)] == [EInvite(c)];
  }

  lemma RingsWithOffer(c: Id, sdp: Sdp, rejects: bool)
    ensures
      Of(After([EInvite(c), EOffer(c, sdp, false)], rejects), c) ==
      RINGING.(waits := Some(sdp), x := NEW.(offers := [sdp]))
  {
    Rings(c, rejects);
    AfterSnoc([EInvite(c)], EOffer(c, sdp, false), rejects);
    assert [EInvite(c)] + [EOffer(c, sdp, false)] == [EInvite(c), EOffer(c, sdp, false)];
    OfOffer(After([EInvite(c)], rejects), c, sdp, rejects);
  }

  lemma OfferDisplaced(c: Id, d: Id, sdp: Sdp, other: Sdp)
    requires c != d
    ensures
      Of(After([EInvite(c), EOffer(c, sdp, false), EOffer(d, other, true)], false), c) ==
      RINGING.(x := NEW.(offers := [sdp]))
  {
    var two := [EInvite(c), EOffer(c, sdp, false)];
    RingsWithOffer(c, sdp, false);
    AfterSnoc(two, EOffer(d, other, true), false);
    assert two + [EOffer(d, other, true)] == [EInvite(c), EOffer(c, sdp, false), EOffer(d, other, true)];
    OthersOffer(After(two, false), c, d, other, true, false);
  }

  /** A file offer from elsewhere arrives while the call rings: the accepted call is never answered. */
  lemma DisplacedOfferIsLost(c: Id, d: Id, sdp: Sdp, other: Sdp)
    requires c != d
    ensures
      var run := [EInvite(c), EOffer(c, sdp, false), EOffer(d, other, true), EAccept(c, false)];
      var v := Of(After(run, false), c);
      Settled(v) && Dead(v) && v.x.out == [CallAccept]
  {
    var three := [EInvite(c), EOffer(c, sdp, false), EOffer(d, other, true)];
    var s := After(three, false);
    OfferDisplaced(c, d, sdp, other);
    AfterSnoc(three, EAccept(c, false), false);
    assert three + [EAccept(c, false)] ==
      [EInvite(c), EOffer(c, sdp, false), EOffer(d, other, true), EAccept(c, false)];
    OfTakeNow(s, c);
  }

  lemma OfTakeNow(s: State, c: Id)
    requires Ses(s, c).accepts == []
    ensures Of(TakeOrArm(s, c), c) == AfterTake(Of(s, c))
  {
  }

  /** The call is accepted and its stream captured and added, all before its offer comes. */
  function EarlyAccepted(stream: Stream): View {
    RINGING.(stream := Some(stream), armed := true, x := NEW.(tracks := {stream}, out := [CallAccept], accepted := 1))
  }

  lemma AcceptsEarly(c: Id, stream: Stream, rejects: bool)
    ensures
      Of(After([EInvite(c), EAccept(c, true), ECaptured(c, 0, Some(stream))], rejects), c) ==
      RINGING.(stream := Some(stream), x := NEW.(tracks := {stream}, accepts := [Adding]))
  {
    var one, two := [EInvite(c)], [EInvite(c), EAccept(c, true)];
    Rings(c, rejects);
    AfterSnoc(one, EAccept(c, true), rejects);
    assert one + [EAccept(c, true)] == two;
    OfPut(After(one, rejects), c, NEW.(accepts := [Capturing]));
    AfterSnoc(two, ECaptured(c, 0, Some(stream)), rejects);
    assert two + [ECaptured(c, 0, Some(stream))] == [EInvite(c), EAccept(c, true), ECaptured(c, 0, Some(stream))];
    CapturedFrom(After(two, rejects), c, Some(stream), rejects);
    assert {} + {stream} == {stream};
  }

  lemma AddsEarly(c: Id, stream: Stream, rejects: bool)
    ensures
      Of(After([EInvite(c), EAccept(c, true), ECaptured(c, 0, Some(stream)), ETracksAdded(c, 0)], rejects), c) ==
      EarlyAccepted(stream)
  {
    var three := [EInvite(c), EAccept(c, true), ECaptured(c, 0, Some(stream))];
    var s := After(three, rejects);
    AcceptsEarly(c, stream, rejects);
    AfterSnoc(three, ETracksAdded(c, 0), rejects);
    assert three + [ETracksAdded(c, 0)] ==
      [EInvite(c), EAccept(c, true), ECaptured(c, 0, Some(stream)), ETracksAdded(c, 0)];
    assert Without([Adding], 0) == [];
    OfTake(s, c, Ses(s, c).(accepts := []));
  }

  /** A voice or video call accepted before its offer comes: the tracks are added twice, and a browser that
      rejects that leaves the call unanswered. */
  lemma EarlyAcceptWithTracks(c: Id, stream: Stream, sdp: Sdp, rejects: bool)
    ensures
      var run :=
        [EInvite(c), EAccept(c, true), ECaptured(c, 0, Some(stream)), ETracksAdded(c, 0), EOffer(c, sdp, false)];
      Dead(Of(After(run, rejects), c)) <==> rejects
  {
    var four := [EInvite(c), EAccept(c, true), ECaptured(c, 0, Some(stream)), ETracksAdded(c, 0)];
    AddsEarly(c, stream, rejects);
    AfterSnoc(four, EOffer(c, sdp, false), rejects);
    assert four + [EOffer(c, sdp, false)] ==
      [EInvite(c), EAccept(c, true), ECaptured(c, 0, Some(stream)), ETracksAdded(c, 0), EOffer(c, sdp, false)];
    OfOffer(After(four, rejects), c, sdp, rejects);
  }
}
