// The Android on-device dictation channel: one current session, and callbacks
// that may still reach any session it ever had.
module Dictation {
  import opened Basics

  // What a session tells Dart.
  datatype Event = Words(confirmed: string, provisional: string) | Completed | Failed(reason: string)

  // The answer to a start.
  datatype Answer = Started | Rejected(reason: string)

  // The answer to a channel call; a start's own comes from its session.
  datatype Reply = Success | Available(yes: bool) | BadArguments | StartFailed | NotImplemented | Deferred

  // What the session's audio thread was given.
  datatype Job = Write(bytes: seq<Byte>) | Close

  datatype RecognizerError = NoMatch | LanguageUnavailable | Other(code: int)

  datatype ChannelCall =
    | Prepare
    | Start(sessionId: Option<int>, sampleRate: Option<int>)
    | SendAudio(sessionId: Option<int>, bytes: Option<seq<Byte>>)
    | Finish(sessionId: Option<int>)
    | Cancel(sessionId: Option<int>)
    | Unknown

  ghost predicate OnlyWords(events: seq<Event>) {
    forall i | 0 <= i < |events| :: events[i].Words?
  }

  // Words, then perhaps one ending.
  ghost predicate WordsThenEnd(events: seq<Event>) {
    events == [] || OnlyWords(events[..|events| - 1])
  }

  lemma OneEnding(events: seq<Event>, i: nat, j: nat)
    requires WordsThenEnd(events) && i < |events| && j < |events|
    requires !events[i].Words? && !events[j].Words?
    ensures i == j == |events| - 1
  {
    forall k | 0 <= k < |events| - 1 ensures events[k].Words? {
      assert events[..|events| - 1][k].Words?;
    }
  }

  class Session {
    const service: Service
    const id: int
    var pendingStart: bool
    var ended: bool
    var released: bool // recognizer and pipe given back, the audio thread shut down
    ghost var started: bool
    ghost var answers: seq<Answer>
    ghost var events: seq<Event>
    ghost var jobs: seq<Job>

    ghost predicate Valid()
      reads this
    {
      && |answers| + (if pendingStart then 1 else 0) == (if started then 1 else 0)
      && (if ended then WordsThenEnd(events) else OnlyWords(events))
      && released == ended
    }

    // Nothing is said or handed to the audio thread any more.
    twostate predicate Silent()
      reads this
    {
      old(ended) ==> ended && events == old(events) && jobs == old(jobs)
    }

    constructor (service: Service, id: int)
      ensures this.service == service && this.id == id
      ensures Valid() && !started && !ended && !pendingStart && answers == [] && events == [] && jobs == []
    {
      this.service, this.id := service, id;
      pendingStart, ended, released, started := false, false, false, false;
      answers, events, jobs := [], [], [];
    }

    // startListening may throw, which rejects the start at once.
    method Start(listening: Result)
      requires service.Valid() && this in service.all && service.starting == this && !started && !ended
      modifies this, service`session, service`starting
      ensures service.Valid() && service.starting == null && started && Silent()
      ensures if listening.Ok? then service.session == old(service.session) && pendingStart && !ended && answers == []
              else service.session == (if old(service.session) == this then null else old(service.session)) &&
                   ended && answers == [Rejected(listening.reason)]
      ensures events == old(events)
    {
      pendingStart, started := true, true;
      service.starting := null;
      if listening.Threw? {
        var thrown := RejectStart(listening.reason);
      }
    }

    // The recognizer is ready, or the wait for it is over.
    method AnswerStart()
      requires Valid()
      modifies this`pendingStart, this`answers
      ensures Valid() && !pendingStart
      ensures answers == if old(pendingStart) then old(answers) + [Started] else old(answers)
    {
      if pendingStart { answers := answers + [Started]; }
      pendingStart := false;
    }

    // thrown: the second release of a session hands a job to a writer that has
    // been shut down.
    method RejectStart(reason: string) returns (thrown: bool)
      requires service.Valid() && this in service.all && pendingStart
      modifies this, service`session
      ensures service.Valid() && Silent() && ended && started == old(started)
      ensures answers == old(answers) + [Rejected(reason)] && !pendingStart && events == old(events)
      ensures thrown <==> old(ended)
      ensures service.session == if old(service.session) == this then null else old(service.session)
    {
      answers := answers + [Rejected(reason)];
      pendingStart := false;
      ended := true;
      thrown := Release();
      if thrown { return; }
      if service.session == this { service.session := null; }
    }

    method Append(bytes: seq<Byte>)
      requires Valid()
      modifies this`jobs
      ensures Valid() && jobs == if ended then old(jobs) else old(jobs) + [Write(bytes)]
    {
      if ended { return; }
      jobs := jobs + [Write(bytes)];
    }

    method Finish()
      requires Valid()
      modifies this`jobs
      ensures Valid() && jobs == if ended then old(jobs) else old(jobs) + [Close]
    {
      if ended { return; }
      jobs := jobs + [Close];
    }

    method Cancel()
      requires Valid()
      modifies this
      ensures Valid() && ended && started == old(started) && Silent() && events == old(events)
      ensures !old(ended) ==> !pendingStart
      ensures answers == if !old(ended) && old(pendingStart) then old(answers) + [Started] else old(answers)
    {
      if ended { return; }
      AnswerStart();
      ended := true;
      var thrown := Release();
    }

    method OnPartialResults(first: string)
      requires Valid()
      modifies this`events
      ensures Valid() && events == if ended then old(events) else old(events) + [Words("", first)]
    {
      EmitWords("", first);
    }

    method OnSegmentResults(first: string)
      requires Valid()
      modifies this`events
      ensures Valid() && events == if ended then old(events) else old(events) + [Words(first, "")]
    {
      EmitWords(first, "");
    }

    method OnEndOfSegmentedSession()
      requires service.Valid() && this in service.all
      modifies this, service`session
      ensures service.Valid() && Silent() && EndedWith(Completed)
    {
      EndWith(Completed);
    }

    method OnResults(first: string)
      requires service.Valid() && this in service.all
      modifies this, service`session
      ensures service.Valid() && Silent() && ended
      ensures !old(ended) ==> events == old(events) + [Words(first, ""), Completed]
      ensures answers == old(answers) && pendingStart == old(pendingStart)
      ensures service.session == if old(service.session) == this then null else old(service.session)
    {
      EmitWords(first, "");
      EndWith(Completed);
    }

    // The audio thread failed to write or close, and posted it.
    method OnWriterFailed(reason: string)
      requires service.Valid() && this in service.all
      modifies this, service`session
      ensures service.Valid() && Silent() && EndedWith(Failed(reason))
    {
      EndWith(Failed(reason));
    }

    // It throws exactly when the session has already ended with its start still
    // unanswered.
    method OnError(error: RecognizerError, reason: string) returns (thrown: bool)
      requires service.Valid() && this in service.all
      modifies this, service`session, service`modelRequested, service`downloads
      ensures service.Valid() && Silent() && ended && !pendingStart
      ensures thrown <==> old(ended) && old(pendingStart)
      ensures answers == if old(pendingStart) then old(answers) + [Rejected(reason)] else old(answers)
      ensures events == if old(pendingStart) || old(ended) then old(events)
                        else old(events) + [if error == NoMatch then Completed else Failed(reason)]
      ensures service.session == if old(service.session) == this then null else old(service.session)
      // The first missing language asks for the model's download.
      ensures var asks := error == LanguageUnavailable && !old(service.modelRequested);
              && service.modelRequested == (old(service.modelRequested) || asks)
              && service.downloads == old(service.downloads) + if asks then 1 else 0
    {
      if error == LanguageUnavailable && !service.modelRequested {
        service.modelRequested := true;
        service.downloads := service.downloads + 1;
      }
      if pendingStart {
        thrown := RejectStart(reason);
        return;
      }
      EndWith(if error == NoMatch then Completed else Failed(reason));
      thrown := false;
    }

    method EmitWords(confirmed: string, provisional: string)
      requires Valid()
      modifies this`events
      ensures Valid() && events == if ended then old(events) else old(events) + [Words(confirmed, provisional)]
    {
      if ended { return; }
      events := events + [Words(confirmed, provisional)];
    }

    twostate predicate EndedWith(e: Event)
      reads this, service
    {
      && ended && pendingStart == old(pendingStart) && answers == old(answers)
      && events == (if old(ended) then old(events) else old(events) + [e])
      && service.session == (if old(service.session) == this then null else old(service.session))
    }

    method EndWith(e: Event)
      requires service.Valid() && this in service.all && !e.Words?
      modifies this, service`session
      ensures service.Valid() && Silent() && EndedWith(e)
    {
      if ended { return; }
      assert (events + [e])[..|events|] == events;
      events := events + [e];
      ended := true;
      var thrown := Release();
      if service.session == this { service.session := null; }
    }

    // Handing the audio thread its last job throws once it is shut down.
    method Release() returns (thrown: bool)
      modifies this`released
      ensures released && thrown == old(released)
    {
      thrown := released;
      released := true;
    }
  }

  datatype Result = Ok | Threw(reason: string)

  class Service {
    var session: Session?
    var modelRequested: bool
    ghost var downloads: nat
    ghost var all: set<Session>
    ghost var starting: Session? // being created by a start

    // Every session but the current one has ended, and the current one has not.
    ghost predicate Valid()
      reads this, all
    {
      && (session != null ==> session in all && !session.ended)
      && (forall s | s in all ::
            s.service == this && s.Valid() && (s != session ==> s.ended) && (s.started || s == starting))
      && downloads == (if modelRequested then 1 else 0)
    }

    // Sessions that had ended stay as they were.
    twostate predicate PastIsSilent()
      reads this, all
    {
      old(all) <= all && forall s: Session | s in old(all) :: s.Silent()
    }

    constructor ()
      ensures Valid() && session == null && starting == null && all == {} && !modelRequested
    {
      starting := null;
      session, modelRequested, downloads, all := null, false, 0, {};
    }

    // A session the channel call names.
    function Current(sessionId: Option<int>): (s: Session?)
      reads this, session
    {
      if session != null && sessionId == Some(session.id) then session else null
    }

    // Ends the current session, if there is one.
    method EndCurrent()
      requires Valid() && starting == null
      modifies this`session, session
      ensures Valid() && session == null && PastIsSilent()
      ensures old(session) != null ==> old(session).ended && old(session).events == old(session.events)
      ensures old(session) != null ==>
                old(session).answers == old(session.answers) + if old(session.pendingStart) then [Started] else []
    {
      if session != null { session.Cancel(); }
      session := null;
    }

    // created: the platform made the recognizer, pipe and writer.
    method StartSession(sessionId: int, created: bool, listening: Result) returns (reply: Reply, s: Session?)
      requires Valid() && starting == null
      modifies this`session, this`all, this`starting, session
      ensures Valid() && starting == null && PastIsSilent()
      ensures if created then reply == Deferred && s != null && fresh(s) && all == old(all) + {s}
              else reply == StartFailed && s == null && session == null && all == old(all)
      ensures old(session) != null ==> old(session).ended && old(session).events == old(session.events)
      ensures created && listening.Ok? ==> session == s && s.id == sessionId && s.pendingStart
      ensures created && listening.Threw? ==> session == null && s.answers == [Rejected(listening.reason)]
    {
      EndCurrent();
      if !created { return StartFailed, null; }
      var started := new Session(this, sessionId);
      session, starting := started, started;
      all := all + {started};
      started.Start(listening);
      return Deferred, started;
    }

    method SendAudio(sessionId: Option<int>, bytes: Option<seq<Byte>>) returns (reply: Reply)
      requires Valid() && starting == null
      modifies session
      ensures Valid() && PastIsSilent()
      ensures reply == if bytes == None then BadArguments else Success
      ensures var current := old(Current(sessionId));
              current != null ==>
                current.jobs == old(session.jobs) + (if bytes == None then [] else [Write(bytes.value)])
      ensures (bytes == None || old(Current(sessionId)) == null) && session != null ==> unchanged(session)
    {
      if bytes == None { return BadArguments; }
      var current := Current(sessionId);
      if current != null { current.Append(bytes.value); }
      return Success;
    }

    method FinishAudio(sessionId: Option<int>)
      requires Valid() && starting == null
      modifies session
      ensures Valid() && PastIsSilent()
      ensures var current := old(Current(sessionId)); current != null ==> current.jobs == old(session.jobs) + [Close]
      ensures old(Current(sessionId)) == null && session != null ==> unchanged(session)
    {
      var current := Current(sessionId);
      if current != null { current.Finish(); }
    }

    // Cancelling any session but the current one changes nothing.
    method CancelSession(sessionId: Option<int>)
      requires Valid() && starting == null
      modifies this`session, session
      ensures Valid() && PastIsSilent()
      ensures old(Current(sessionId)) == null ==> unchanged(this) && (session != null ==> unchanged(session))
      ensures old(Current(sessionId)) != null ==>
                session == null && old(session).ended && old(session).events == old(session.events) &&
                old(session).answers == old(session.answers) + if old(session.pendingStart) then [Started] else []
    {
      var current := Current(sessionId);
      if current != null { EndCurrent(); }
    }

    // A call that names no current session, or has no business with one.
    predicate Passes(call: ChannelCall)
      reads this, session
    {
      match call
      case Prepare => true
      case Start(id, rate) => id == None || rate == None
      case SendAudio(id, bytes) => Current(id) == null || bytes == None
      case Finish(id) => Current(id) == null
      case Cancel(id) => Current(id) == null
      case Unknown => true
    }

    // started: the session a start leaves with the platform.
    method Handle(call: ChannelCall, available: bool, created: bool, listening: Result)
      returns (reply: Reply, started: Session?)
      requires Valid() && starting == null
      modifies this`session, this`all, this`starting, session
      ensures Valid() && starting == null && PastIsSilent()
      ensures reply == match call
                       case Prepare => Available(available)
                       case Start(id, rate) => if id == None || rate == None then BadArguments
                                               else if created then Deferred else StartFailed
                       case SendAudio(_, bytes) => if bytes == None then BadArguments else Success
                       case Finish(_) => Success
                       case Cancel(_) => Success
                       case Unknown => NotImplemented
      ensures old(Passes(call)) ==> session == old(session) && (session != null ==> unchanged(session))
      ensures (call.SendAudio? || call.Finish? || call.Cancel?) && old(session) != null ==>
                (call.sessionId != Some(old(session.id)) ==> session == old(session) && unchanged(session))
      // A start ends the session before it and takes its place.
      ensures if reply.Deferred? then started != null && fresh(started) && all == old(all) + {started}
              else started == null && all == old(all)
      ensures call.Start? && !old(Passes(call)) && old(session) != null ==>
                old(session).ended && old(session).events == old(session.events)
      ensures call.Start? && !old(Passes(call)) ==> session == if created && listening.Ok? then started else null
      ensures reply.Deferred? && listening.Ok? ==> Some(started.id) == call.sessionId && started.pendingStart
      ensures reply.Deferred? && listening.Threw? ==> started.answers == [Rejected(listening.reason)]
      // The other calls do to the current session what they say.
      ensures call.SendAudio? && call.bytes.Some? && old(session) != null && call.sessionId == Some(old(session.id)) ==>
                session == old(session) && session.jobs == old(session.jobs) + [Write(call.bytes.value)]
      ensures call.Finish? && old(session) != null && call.sessionId == Some(old(session.id)) ==>
                session == old(session) && session.jobs == old(session.jobs) + [Close]
      ensures call.Cancel? && old(session) != null && call.sessionId == Some(old(session.id)) ==>
                session == null && old(session).ended && old(session).events == old(session.events) &&
                old(session).answers == old(session.answers) + if old(session.pendingStart) then [Started] else []
    {
      started := null;
      match call
      case Prepare => reply := Available(available);
      case Start(id, rate) =>
        if id == None || rate == None {
          reply := BadArguments;
        } else {
          reply, started := StartSession(id.value, created, listening);
        }
      case SendAudio(id, bytes) => reply := SendAudio(id, bytes);
      case Finish(id) => FinishAudio(id); reply := Success;
      case Cancel(id) => CancelSession(id); reply := Success;
      case Unknown => reply := NotImplemented;
    }

    method Dispose()
      requires Valid() && starting == null
      modifies this`session, session
      ensures Valid() && session == null && PastIsSilent()
    {
      EndCurrent();
    }
  }

  // --- Every run -----------------------------------------------------------------------

  // What the recognizer, the timer or the audio thread may report to a session.
  datatype Callback =
    | ReadyForSpeech // or the wait for it is over
    | PartialResults(first: string)
    | SegmentResults(first: string)
    | EndOfSegmentedSession
    | Results(first: string)
    | RecognizerFailed(error: RecognizerError, reason: string)
    | WriterFailed(reason: string)

  // index: which of the sessions ever started, in order, is called back.
  datatype Input =
    | Calls(call: ChannelCall, available: bool, created: bool, listening: Result)
    | Reports(index: nat, callback: Callback)
    | Disposes

  method Deliver(service: Service, s: Session, callback: Callback)
    requires service.Valid() && service.starting == null && s in service.all
    modifies service`session, service`modelRequested, service`downloads, s
    ensures service.Valid() && service.starting == null && service.PastIsSilent()
    ensures s.started == old(s.started)
    // What is said, and how a pending start is answered, by what was reported.
    ensures s.events == old(s.events) +
              if old(s.ended) || callback.ReadyForSpeech? || (callback.RecognizerFailed? && old(s.pendingStart)) then []
              else match callback
                case ReadyForSpeech => []
                case PartialResults(first) => [Words("", first)]
                case SegmentResults(first) => [Words(first, "")]
                case EndOfSegmentedSession => [Completed]
                case Results(first) => [Words(first, ""), Completed]
                case RecognizerFailed(error, reason) => [if error == NoMatch then Completed else Failed(reason)]
                case WriterFailed(reason) => [Failed(reason)]
    ensures s.answers == old(s.answers) +
              if !old(s.pendingStart) then []
              else match callback
                case ReadyForSpeech => [Started]
                case RecognizerFailed(_, reason) => [Rejected(reason)]
                case _ => []
    ensures s.ended <==> old(s.ended) || callback.EndOfSegmentedSession? || callback.Results? ||
                         callback.RecognizerFailed? || callback.WriterFailed?
    ensures service.session == if s.ended && old(service.session) == s then null else old(service.session)
  {
    match callback
    case ReadyForSpeech => s.AnswerStart();
    case PartialResults(first) => s.OnPartialResults(first);
    case SegmentResults(first) => s.OnSegmentResults(first);
    case EndOfSegmentedSession => s.OnEndOfSegmentedSession();
    case Results(first) => s.OnResults(first);
    case RecognizerFailed(error, reason) => var thrown := s.OnError(error, reason);
    case WriterFailed(reason) => s.OnWriterFailed(reason);
  }

  // Whatever happens, in whatever order, to however many sessions: every session
  // but the current one has ended, each has said words and then at most one
  // ending and had its start answered at most once, and those that had ended at
  // any point say and do nothing after it.
  method Perform(service: Service, known: seq<Session>, inputs: seq<Input>) returns (sessions: seq<Session>)
    requires service.Valid() && service.starting == null
    requires forall s :: s in known <==> s in service.all
    modifies service, service.all
    ensures service.Valid() && service.starting == null && service.PastIsSilent()
    ensures fresh(service.all - old(service.all))
    ensures known <= sessions && forall s :: s in sessions <==> s in service.all
  {
    sessions := known;
    for k := 0 to |inputs|
      invariant service.Valid() && service.starting == null && service.PastIsSilent()
      invariant fresh(service.all - old(service.all))
      invariant known <= sessions && forall s :: s in sessions <==> s in service.all
    {
      match inputs[k] {
        case Calls(call, available, created, listening) =>
          var reply, started := service.Handle(call, available, created, listening);
          if started != null { sessions := sessions + [started]; }
        case Reports(index, callback) =>
          if index < |sessions| { Deliver(service, sessions[index], callback); }
        case Disposes => service.Dispose();
      }
    }
  }

  // Nothing is heard of a cancelled session, whatever comes after.
  method CancelIsFinal(service: Service, known: seq<Session>, inputs: seq<Input>)
    requires service.Valid() && service.starting == null && service.session != null
    requires forall s :: s in known <==> s in service.all
    modifies service, service.all
    ensures old(service.session).ended && old(service.session).events == old(service.session.events)
  {
    var reply, started := service.Handle(Cancel(Some(service.session.id)), true, true, Ok);
    var sessions := Perform(service, known, inputs);
  }

  // A session that ends before its start is answered lets a later error through
  // to a second release.
  method ErrorAfterEarlyEnd() returns (thrown: bool)
    ensures thrown
  {
    var service := new Service();
    var reply, s := service.StartSession(1, true, Ok);
    var session := service.session;
    session.OnEndOfSegmentedSession();
    thrown := session.OnError(NoMatch, "no match");
  }
}
