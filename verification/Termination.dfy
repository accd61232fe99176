// Arbitration of quit requests on macOS: native code asks, Dart answers later.
module Termination {

  datatype TerminateReply = TerminateNow | TerminateCancel | TerminateLater

  datatype Event =
    | Attach
    | BeginQuit                                // native code starts a quit of its own
    | QuitRequest                              // AppKit asks whether to terminate
    | Terminate                                // Dart's exit work is done
    | CancelTermination                        // Dart calls the quit off
    | QuitRequestedReturned(implemented: bool) // the channel call to Dart returns

  // What was seen from outside.
  datatype Step =
    | Attached
    | Began
    | Approved
    | Cancelled
    | Answered(reply: TerminateReply)
    | Replied(terminate: bool)

  // All of it so far, the last step outermost.
  datatype History = Start | Then(before: History, step: Step)

  // --- What a history says ------------------------------------------------------------

  predicate Has(h: History, s: Step) {
    h.Then? && (h.step == s || Has(h.before, s))
  }

  // A quit is running: one was begun, by native code or by a deferred request,
  // and not called off since.
  predicate Running(h: History) {
    h.Then? &&
    match h.step
    case Began => true
    case Answered(r) => r == TerminateLater || Running(h.before)
    case Cancelled => false
    case _ => Running(h.before)
  }

  // AppKit still waits for the reply to a deferred request.
  predicate Waiting(h: History) {
    h.Then? &&
    match h.step
    case Answered(r) => r == TerminateLater || Waiting(h.before)
    case Replied(_) => false
    case _ => Waiting(h.before)
  }

  // The answer a quit request deserves after h.
  function RightAnswer(h: History): TerminateReply {
    if Has(h, Approved) || !Has(h, Attached) then TerminateNow
    else if Running(h) || Waiting(h) then TerminateCancel
    else TerminateLater
  }

  // s may come after h: requests get the right answer, a reply goes to a waiting
  // request and tells AppKit to quit exactly when that was approved.
  predicate MayFollow(h: History, s: Step) {
    match s
    case Answered(r) => r == RightAnswer(h)
    case Replied(terminate) => Waiting(h) && (terminate <==> Has(h, Approved))
    case _ => true
  }

  predicate Sound(h: History) {
    h.Then? ==> MayFollow(h.before, h.step) && Sound(h.before)
  }

  // g is where h was at some moment.
  predicate IsPast(g: History, h: History) {
    g == h || (h.Then? && IsPast(g, h.before))
  }

  function Answers(h: History, r: TerminateReply): nat {
    if h == Start then 0 else Answers(h.before, r) + if h.step == Answered(r) then 1 else 0
  }

  function Replies(h: History): nat {
    if h == Start then 0 else Replies(h.before) + if h.step.Replied? then 1 else 0
  }

  // --- Every run ----------------------------------------------------------------------------

  // What an event adds to the history.
  function After(h: History, e: Event): History {
    match e
    case Attach => Then(h, Attached)
    case BeginQuit => Then(h, Began)
    case QuitRequest => Then(h, Answered(RightAnswer(h)))
    case Terminate =>
      // Without a waiting request NSApp.terminate asks again, and is let through.
      Then(Then(h, Approved), if Waiting(h) then Replied(true) else Answered(TerminateNow))
    case CancelTermination =>
      if Waiting(h) then Then(Then(h, Cancelled), Replied(false)) else Then(h, Cancelled)
    case QuitRequestedReturned(implemented) =>
      // Dart is not listening yet.
      if Waiting(h) && !implemented then Then(Then(h, Approved), Replied(true)) else h
  }

  function Run(events: seq<Event>): History {
    if events == [] then Start else After(Run(events[..|events| - 1]), events[|events| - 1])
  }

  // Between events a waiting request has a quit running and no approval.
  predicate Inv(h: History) {
    Sound(h) && (Waiting(h) ==> Running(h) && !Has(h, Approved))
  }

  lemma AfterKeepsInv(h: History, e: Event)
    requires Inv(h)
    ensures Inv(After(h, e))
  {
    match e
    case QuitRequest => assert MayFollow(h, Answered(RightAnswer(h)));
    case Terminate =>
      var g := Then(h, Approved);
      assert Sound(g) && Has(g, Approved) && (Waiting(g) <==> Waiting(h));
    case _ =>
  }

  lemma {:induction false} RunKeepsInv(events: seq<Event>)
    ensures Inv(Run(events))
  {
    if events != [] {
      RunKeepsInv(events[..|events| - 1]);
      AfterKeepsInv(Run(events[..|events| - 1]), events[|events| - 1]);
    }
  }

  lemma {:induction false} RepliesCounted(h: History)
    requires Sound(h)
    ensures Answers(h, TerminateLater) == Replies(h) + if Waiting(h) then 1 else 0
  {
    if h.Then? { RepliesCounted(h.before); }
  }

  // Every deferred request gets exactly one reply, the last one perhaps later;
  // while it waits, a quit is running and nothing is approved.
  lemma EachDeferralReplied(events: seq<Event>)
    ensures var h := Run(events);
            Answers(h, TerminateLater) == Replies(h) + if Waiting(h) then 1 else 0
    ensures Waiting(Run(events)) ==> Running(Run(events)) && !Has(Run(events), Approved)
  {
    RunKeepsInv(events);
    RepliesCounted(Run(events));
  }

  lemma {:induction false} PastIsSound(g: History, h: History)
    requires Sound(h) && IsPast(g, h)
    ensures Sound(g)
  {
    if g != h { PastIsSound(g, h.before); }
  }

  // At any moment of any run: once approved, a request is let through; AppKit is
  // told to quit after approval and to stay before it; and a request is deferred
  // only when Dart is attached, nothing is approved and no quit runs.
  lemma ApprovalIsFinal(events: seq<Event>, h: History, s: Step)
    requires IsPast(Then(h, s), Run(events))
    ensures Has(h, Approved) && s.Answered? ==> s.reply == TerminateNow
    ensures s.Replied? ==> (s.terminate <==> Has(h, Approved))
    ensures s == Answered(TerminateLater) ==> Has(h, Attached) && !Has(h, Approved) && !Running(h) && !Waiting(h)
  {
    RunKeepsInv(events);
    PastIsSound(Then(h, s), Run(events));
  }

  // Before Dart is attached a request is let through, whatever else has happened.
  lemma UnattachedIsLetThrough(events: seq<Event>)
    requires Event.Attach !in events
    ensures RightAnswer(Run(events)) == TerminateNow
  {
    NeverAttached(events);
  }

  lemma {:induction false} NeverAttached(events: seq<Event>)
    requires Event.Attach !in events
    ensures !Has(Run(events), Attached)
  {
    if events != [] {
      NeverAttached(events[..|events| - 1]);
      assert events[|events| - 1] != Event.Attach;
    }
  }

  // A quit begun, by native code or by a deferred request, runs on until Dart
  // calls it off.
  lemma {:induction false} QuitRunsOn(events: seq<Event>, more: seq<Event>)
    requires Running(Run(events)) && CancelTermination !in more
    ensures Running(Run(events + more))
  {
    if more == [] {
      assert events + more == events;
    } else {
      var n := |more| - 1;
      QuitRunsOn(events, more[..n]);
      OneMoreEvent(events + more[..n], more[n]);
      assert events + more == events + more[..n] + [more[n]];
      RunsOnStep(Run(events + more[..n]), more[n]);
    }
  }

  lemma RunsOnStep(h: History, e: Event)
    requires Running(h) && e != CancelTermination
    ensures Running(After(h, e))
  {}

  // While it runs, unapproved, every request is declined; called off, the next
  // one is deferred.
  lemma DeclinedWhileQuitRuns(events: seq<Event>, start: Event, more: seq<Event>)
    requires start == BeginQuit || start == QuitRequest
    requires Has(Run(events), Attached) && !Has(Run(events), Approved) && CancelTermination !in more
    ensures var h := Run(events + [start] + more);
            Has(h, Attached) && !Has(h, Approved) ==> RightAnswer(h) == TerminateCancel
  {
    OneMoreEvent(events, start);
    StartsQuit(Run(events), start);
    RunKeepsInv(events);
    QuitRunsOn(events + [start], more);
  }

  lemma StartsQuit(h: History, start: Event)
    requires (start == BeginQuit || start == QuitRequest) && Has(h, Attached) && !Has(h, Approved)
    ensures Running(After(h, start)) || (Waiting(h) && !Running(h))
  {}

  lemma DeferredAfterCancel(events: seq<Event>)
    requires Has(Run(events), Attached) && !Has(Run(events), Approved)
    ensures RightAnswer(Run(events + [CancelTermination])) == TerminateLater
  {
    OneMoreEvent(events, CancelTermination);
    CalledOff(Run(events));
  }

  lemma CalledOff(h: History)
    requires Has(h, Attached) && !Has(h, Approved)
    ensures RightAnswer(After(h, CancelTermination)) == TerminateLater
  {
    var g := Then(h, Cancelled);
    assert Has(g, Attached) && !Has(g, Approved) && !Running(g) && (Waiting(g) <==> Waiting(h));
    assert Has(Then(g, Replied(false)), Attached) && !Has(Then(g, Replied(false)), Approved);
  }

  // A request that waits is replied to when Dart terminates, calls the quit off,
  // or turns out not to listen.
  lemma NothingLeftWaiting(events: seq<Event>)
    ensures !Waiting(Run(events + [Terminate])) && !Waiting(Run(events + [CancelTermination]))
    ensures !Waiting(Run(events + [QuitRequestedReturned(false)]))
    ensures Run(events + [QuitRequestedReturned(true)]) == Run(events)
  {
    OneMoreEvent(events, Terminate);
    OneMoreEvent(events, CancelTermination);
    OneMoreEvent(events, QuitRequestedReturned(false));
    OneMoreEvent(events, QuitRequestedReturned(true));
  }

  // Once Dart has terminated, or did not listen to a waiting request, every
  // request is let through, whatever else happens.
  lemma LetThroughForGood(events: seq<Event>, approval: Event, more: seq<Event>)
    requires approval == Terminate || (approval == QuitRequestedReturned(false) && Waiting(Run(events)))
    ensures RightAnswer(Run(events + [approval] + more)) == TerminateNow
  {
    OneMoreEvent(events, approval);
    Approves(Run(events), approval);
    StaysApproved(events + [approval], more);
  }

  lemma Approves(h: History, approval: Event)
    requires approval == Terminate || (approval == QuitRequestedReturned(false) && Waiting(h))
    ensures Has(After(h, approval), Approved)
  {
    assert Has(Then(h, Approved), Approved);
  }

  lemma {:induction false} StaysApproved(events: seq<Event>, more: seq<Event>)
    requires Has(Run(events), Approved)
    ensures Has(Run(events + more), Approved)
  {
    if more == [] {
      assert events + more == events;
    } else {
      var n := |more| - 1;
      StaysApproved(events, more[..n]);
      OneMoreEvent(events + more[..n], more[n]);
      assert events + more == events + more[..n] + [more[n]];
      KeepsApproved(Run(events + more[..n]), more[n]);
    }
  }

  lemma KeepsApproved(h: History, e: Event)
    requires Has(h, Approved)
    ensures Has(After(h, e), Approved)
  {
    forall s: Step ensures Has(Then(h, s), Approved) {}
  }

  lemma OneMoreEvent(events: seq<Event>, e: Event)
    ensures Run(events + [e]) == After(Run(events), e)
  {
    assert (events + [e])[..|events|] == events;
  }

  // --- The object ---------------------------------------------------------------------------

  // Four fields stand for the whole history.
  class ApplicationTermination {
    var channel: bool
    var terminationApproved: bool
    var replyPending: bool
    var quitRunning: bool
    ghost var history: History

    ghost predicate Valid()
      reads this
    {
      && Inv(history)
      && (channel <==> Has(history, Attached))
      && (terminationApproved <==> Has(history, Approved))
      && (replyPending <==> Waiting(history))
      && (quitRunning <==> Running(history))
    }

    constructor ()
      ensures Valid() && history == Start
    {
      channel, terminationApproved, replyPending, quitRunning := false, false, false, false;
      history := Start;
    }

    method Attach()
      requires Valid()
      modifies this
      ensures Valid() && history == After(old(history), Event.Attach)
    {
      channel := true;
      history := Then(history, Attached);
    }

    method BeginQuit()
      requires Valid()
      modifies this
      ensures Valid() && history == After(old(history), Event.BeginQuit)
    {
      quitRunning := true;
      history := Then(history, Began);
    }

    // The fields alone decide the answer, and it is the one the history asks for.
    method ShouldTerminate() returns (reply: TerminateReply)
      requires Valid()
      modifies this
      ensures Valid() && reply == RightAnswer(old(history)) && history == Then(old(history), Answered(reply))
    {
      AfterKeepsInv(history, Event.QuitRequest);
      if terminationApproved {
        reply := TerminateNow;
      } else if !channel {
        reply := TerminateNow;
      } else if replyPending || quitRunning {
        reply := TerminateCancel;
      } else {
        replyPending := true;
        quitRunning := true;
        reply := TerminateLater;
      }
      history := Then(history, Answered(reply));
    }

    method Terminate()
      requires Valid()
      modifies this
      ensures Valid() && history == After(old(history), Event.Terminate)
    {
      terminationApproved := true;
      history := Then(history, Approved);
      if replyPending {
        replyPending := false;
        history := Then(history, Replied(true));
      } else {
        var reply := ShouldTerminate();
      }
    }

    method CancelTermination()
      requires Valid()
      modifies this
      ensures Valid() && history == After(old(history), Event.CancelTermination)
    {
      quitRunning := false;
      history := Then(history, Cancelled);
      if replyPending {
        replyPending := false;
        history := Then(history, Replied(false));
      }
    }

    method QuitRequestedReturned(implemented: bool)
      requires Valid()
      modifies this
      ensures Valid() && history == After(old(history), Event.QuitRequestedReturned(implemented))
    {
      if implemented || !replyPending { return; }
      replyPending := false;
      terminationApproved := true;
      history := Then(Then(history, Approved), Replied(true));
    }
  }
}
