/** Answering incoming calls: the offer, the user's acceptance with its capture of media, and network
    candidates arrive in any order; each continuation after an await is one step. */
module CallAnswer {
  import opened Options

  type Id = string
  type Sdp = string
  type Candidate = string
  type Stream = nat

  /** An acceptance waiting for the capture, or for the captured tracks to be added. */
  datatype Accepting = Capturing | Adding

  /** An offer being answered; `last` if the acceptance is reported after the answer. */
  datatype Task =
    | Tracking(sdp: Sdp, last: bool)
    | Describing(sdp: Sdp, last: bool)
    | Flushing(sdp: Sdp, last: bool, left: seq<Candidate>)
    | Answering(sdp: Sdp, last: bool)

  datatype Out = Answer(sdp: Sdp) | CallAccept

  datatype Session = Session(
    tracks: set<Stream>,  // streams whose tracks the connection sends
    remote: bool,  // the remote description is set
    iceQueue: seq<Candidate>,
    applied: seq<Candidate>,  // candidates handed to the connection
    accepts: seq<Accepting>,  // acceptances under way
    tasks: seq<Task>,  // offers being answered
    out: seq<Out>,
    // what has happened to the call
    offers: seq<Sdp>,
    heard: seq<Candidate>,
    accepted: nat)  // acceptances that took the waiting offer or armed the answer

  const NEW: Session := Session({}, false, [], [], [], [], [], [], [], 0)

  datatype Waiting = Waiting(id: Id, sdp: Sdp)

  datatype State = State(
    calls: map<Id, Option<Stream>>,  // announced calls, with the captured stream
    sessions: map<Id, Session>,
    armed: set<Id>,
    offer: Option<Waiting>)  // the one slot for an offer that waits for its acceptance

  const START: State := State(map[], map[], {}, None)

  function Ses(s: State, c: Id): Session { if c in s.sessions then s.sessions[c] else NEW }

  function Put(s: State, c: Id, x: Session): State { s.(sessions := s.sessions[c := x]) }

  function Stored(s: State, c: Id): Option<Stream> { if c in s.calls then s.calls[c] else None }

  // ---------- the handlers ----------

  function Begin(x: Session, t: Task): Session { x.(tasks := x.tasks + [t]) }

  /** Adds the stream's tracks, then answers. A browser that rejects a track it already sends (section
      5.1 of the W3C WebRTC recommendation, addTrack) ends the attempt silently. */
  function BeginWith(x: Session, stream: Stream, sdp: Sdp, rejects: bool): Session {
    if rejects && stream in x.tracks then x
    else Begin(x.(tracks := x.tracks + {stream}), Tracking(sdp, false))
  }

  function Respond(x: Session, stream: Option<Stream>, sdp: Sdp, rejects: bool): Session {
    if stream.Some? then BeginWith(x, stream.value, sdp, rejects) else Begin(x, Describing(sdp, false))
  }

  function OnInvite(s: State, c: Id): State { s.(calls := s.calls[c := None]) }

  function OnOffer(s: State, c: Id, sdp: Sdp, file: bool, rejects: bool): State {
    var x := Ses(s, c).(offers := Ses(s, c).offers + [sdp]);
    var stream := Stored(s, c);
    if c in s.armed then Put(s, c, Respond(x, stream, sdp, rejects)).(armed := s.armed - {c}, offer := None)
    else if file || c !in s.calls then Put(s, c, Respond(x, None, sdp, rejects)).(offer := None)
    else if stream.Some? then Put(s, c, Respond(x, stream, sdp, rejects)).(offer := None)
    else Put(s, c, x).(offer := Some(Waiting(c, sdp)))
  }

  function OnIce(s: State, c: Id, candidate: Candidate): State {
    var x := Ses(s, c).(heard := Ses(s, c).heard + [candidate]);
    Put(s, c, if x.remote then x.(applied := x.applied + [candidate]) else x.(iceQueue := x.iceQueue + [candidate]))
  }

  /** The acceptance proper: answer the offer that waits, else arm the answer for when it comes. */
  function TakeOrArm(s: State, c: Id): State {
    var x := Ses(s, c).(accepted := Ses(s, c).accepted + 1);
    if s.offer.Some? && s.offer.value.id == c then
      Put(s, c, Begin(x, Describing(s.offer.value.sdp, true))).(offer := None)
    else
      Put(s, c, x.(out := x.out + [CallAccept])).(armed := s.armed + {c})
  }

  /** The user accepts: sharing and remote control need no capture. */
  function Accept(s: State, c: Id, captures: bool): State {
    if captures then Put(s, c, Ses(s, c).(accepts := Ses(s, c).accepts + [Capturing])) else TakeOrArm(s, c)
  }

  function Without<T>(s: seq<T>, k: nat): seq<T>
    requires k < |s|
  {
    s[..k] + s[k + 1..]
  }

  /** The capture of acceptance `k` ends: refused, or with a stream that is kept with the call and added. */
  function Captured(s: State, c: Id, k: nat, stream: Option<Stream>, rejects: bool): State {
    var x := Ses(s, c);
    if k >= |x.accepts| || !x.accepts[k].Capturing? then s
    else if stream.None? then Put(s, c, x.(accepts := Without(x.accepts, k)))
    else
      var kept := if c in s.calls then s.(calls := s.calls[c := stream]) else s;
      if rejects && stream.value in x.tracks then Put(kept, c, x.(accepts := Without(x.accepts, k)))
      else Put(kept, c, x.(tracks := x.tracks + {stream.value}, accepts := x.accepts[k := Adding]))
  }

  function TracksAdded(s: State, c: Id, k: nat): State {
    var x := Ses(s, c);
    if k >= |x.accepts| || !x.accepts[k].Adding? then s
    else TakeOrArm(Put(s, c, x.(accepts := Without(x.accepts, k))), c)
  }

  /** The next step of answering offer `k`. */
  function Continued(x: Session, k: nat): Session
    requires k < |x.tasks|
  {
    match x.tasks[k]
    case Tracking(sdp, last) => x.(tasks := x.tasks[k := Describing(sdp, last)])
    case Describing(sdp, last) =>
      x.(remote := true, iceQueue := [], tasks := x.tasks[k := Flushing(sdp, last, x.iceQueue)])
    case Flushing(sdp, last, left) =>
      if left == [] then x.(tasks := x.tasks[k := Answering(sdp, last)])
      else x.(applied := x.applied + [left[0]], tasks := x.tasks[k := Flushing(sdp, last, left[1..])])
    case Answering(sdp, last) =>
      x.(out := x.out + [Answer(sdp)] + (if last then [CallAccept] else []), tasks := Without(x.tasks, k))
  }

  function Continue(s: State, c: Id, k: nat): State {
    if k < |Ses(s, c).tasks| then Put(s, c, Continued(Ses(s, c), k)) else s
  }

  datatype Event =
    | EInvite(id: Id)
    | EOffer(id: Id, sdp: Sdp, file: bool)
    | EIce(id: Id, candidate: Candidate)
    | EAccept(id: Id, captures: bool)
    | ECaptured(id: Id, k: nat, stream: Option<Stream>)
    | ETracksAdded(id: Id, k: nat)
    | EContinue(id: Id, k: nat)

  function Step(s: State, e: Event, rejects: bool): State {
    match e
    case EInvite(c) => OnInvite(s, c)
    case EOffer(c, sdp, file) => OnOffer(s, c, sdp, file, rejects)
    case EIce(c, candidate) => OnIce(s, c, candidate)
    case EAccept(c, captures) => Accept(s, c, captures)
    case ECaptured(c, k, stream) => Captured(s, c, k, stream, rejects)
    case ETracksAdded(c, k) => TracksAdded(s, c, k)
    case EContinue(c, k) => Continue(s, c, k)
  }

  function After(run: seq<Event>, rejects: bool): State {
    if run == [] then START else Step(After(run[..|run| - 1], rejects), run[|run| - 1], rejects)
  }

  // ---------- the handlers as they run ----------

  class CallDesk {
    const rejects: bool
    var calls: map<Id, Option<Stream>>
    var sessions: map<Id, Session>
    var armed: set<Id>
    var offer: Option<Waiting>

    function Now(): State
      reads this
    {
      State(calls, sessions, armed, offer)
    }

    constructor (rejects: bool)
      ensures Now() == START && this.rejects == rejects
    {
      this.rejects := rejects;
      calls, sessions, armed, offer := map[], map[], {}, None;
    }

    method Invited(c: Id)
      modifies this
      ensures Now() == OnInvite(old(Now()), c)
    {
      calls := calls[c := None];
    }

    method Offered(c: Id, sdp: Sdp, file: bool)
      modifies this
      ensures Now() == OnOffer(old(Now()), c, sdp, file, rejects)
    {
      var x := Ses(Now(), c);
      x := x.(offers := x.offers + [sdp]);
      var stream := if c in calls then calls[c] else None;
      if c in armed {
        armed, offer := armed - {c}, None;
        x := StartAnswer(x, stream, sdp);
      } else if file || c !in calls {
        offer := None;
        x := StartAnswer(x, None, sdp);
      } else if stream.Some? {
        offer := None;
        x := StartAnswer(x, stream, sdp);
      } else {
        offer := Some(Waiting(c, sdp));
      }
      sessions := sessions[c := x];
    }

    method StartAnswer(x: Session, stream: Option<Stream>, sdp: Sdp) returns (r: Session)
      ensures r == Respond(x, stream, sdp, rejects)
    {
      if stream.None? { return Begin(x, Describing(sdp, false)); }
      if rejects && stream.value in x.tracks { return x; }
      return Begin(x.(tracks := x.tracks + {stream.value}), Tracking(sdp, false));
    }

    method IceArrived(c: Id, candidate: Candidate)
      modifies this
      ensures Now() == OnIce(old(Now()), c, candidate)
    {
      if c !in sessions { sessions := sessions[c := NEW]; }
      var x := sessions[c];
      x := x.(heard := x.heard + [candidate]);
      if x.remote {
        x := x.(applied := x.applied + [candidate]);
      } else {
        x := x.(iceQueue := x.iceQueue + [candidate]);
      }
      sessions := sessions[c := x];
    }

    method AcceptIncomingCall(c: Id, captures: bool)
      modifies this
      ensures Now() == Accept(old(Now()), c, captures)
    {
      if captures {
        var x := Ses(Now(), c);
        sessions := sessions[c := x.(accepts := x.accepts + [Capturing])];
      } else {
        TakeWaitingOffer(c);
      }
    }

    method TakeWaitingOffer(c: Id)
      modifies this
      ensures Now() == TakeOrArm(old(Now()), c)
    {
      if c !in sessions { sessions := sessions[c := NEW]; }
      var x := sessions[c];
      x := x.(accepted := x.accepted + 1);
      if offer.Some? && offer.value.id == c {
        x := Begin(x, Describing(offer.value.sdp, true));
        offer := None;
      } else {
        armed := armed + {c};
        x := x.(out := x.out + [CallAccept]);
      }
      sessions := sessions[c := x];
    }

    method CaptureEnded(c: Id, k: nat, stream: Option<Stream>)
      modifies this
      ensures Now() == Captured(old(Now()), c, k, stream, rejects)
    {
      var x := Ses(Now(), c);
      if k >= |x.accepts| || !x.accepts[k].Capturing? { return; }
      if stream.None? || (rejects && stream.value in x.tracks) {
        x := x.(accepts := Without(x.accepts, k));
      } else {
        x := x.(tracks := x.tracks + {stream.value}, accepts := x.accepts[k := Adding]);
      }
      if stream.Some? && c in calls { calls := calls[c := stream]; }
      sessions := sessions[c := x];
    }

    method TracksReady(c: Id, k: nat)
      modifies this
      ensures Now() == TracksAdded(old(Now()), c, k)
    {
      var x := Ses(Now(), c);
      if k >= |x.accepts| || !x.accepts[k].Adding? { return; }
      sessions := sessions[c := x.(accepts := Without(x.accepts, k))];
      TakeWaitingOffer(c);
    }

    method SignalContinues(c: Id, k: nat)
      modifies this
      ensures Now() == Continue(old(Now()), c, k)
    {
      if c !in sessions || k >= |sessions[c].tasks| { return; }
      var x := sessions[c];
      match x.tasks[k] {
        case Tracking(sdp, last) =>
          x := x.(tasks := x.tasks[k := Describing(sdp, last)]);
        case Describing(sdp, last) =>
          var queue := x.iceQueue;
          x := x.(remote := true, iceQueue := []);
          x := x.(tasks := x.tasks[k := Flushing(sdp, last, queue)]);
        case Flushing(sdp, last, left) =>
          if left == [] {
            x := x.(tasks := x.tasks[k := Answering(sdp, last)]);
          } else {
            x := x.(applied := x.applied + [left[0]]);
            x := x.(tasks := x.tasks[k := Flushing(sdp, last, left[1..])]);
          }
        case Answering(sdp, last) =>
          var out := x.out + [Answer(sdp)];
          assert out + [] == out;
          if last { out := out + [CallAccept]; }
          x := x.(out := out, tasks := x.tasks[..k] + x.tasks[k + 1..]);
      }
      sessions := sessions[c := x];
    }
  }
}
