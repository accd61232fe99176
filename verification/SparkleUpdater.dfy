// Update checks that join the update cycle already running, and the callbacks
// that end them.
module SparkleUpdater {
  import opened Basics

  datatype CheckOutcome = UpToDate | Downloaded(item: string) | Failed

  // A caller's completion: what it does when it is called depends on the
  // outcome. It may start checks, and it may run a window's event loop in which
  // the updater's own callbacks arrive.
  datatype Completion = Completion(id: nat, onUpToDate: seq<Action>, onDownloaded: seq<Action>, onFailed: seq<Action>)

  // failed: with an error other than that there is no update.
  datatype Action =
    | Start
    | Check(completion: Completion, inProgress: bool) // whether Sparkle has a session running
    | WillInstallOnQuit(item: string)
    | DidFinishCycle(failed: bool)

  datatype Call = Call(completion: Completion, outcome: CheckOutcome)

  function Reaction(c: Completion, outcome: CheckOutcome): seq<Action> {
    match outcome
    case UpToDate => c.onUpToDate
    case Downloaded(_) => c.onDownloaded
    case Failed => c.onFailed
  }

  // --- How much can still happen ---------------------------------------------------

  function Weight(c: Completion): nat {
    1 + Weights(c.onUpToDate) + Weights(c.onDownloaded) + Weights(c.onFailed)
  }

  function ActionWeight(a: Action): nat {
    match a
    case Check(c, _) => 1 + Weight(c)
    case _ => 1
  }

  function Weights(actions: seq<Action>): nat {
    if actions == [] then 0 else ActionWeight(actions[0]) + Weights(actions[1..])
  }

  function Waiting(cs: seq<Completion>): nat {
    if cs == [] then 0 else Weight(cs[0]) + Waiting(cs[1..])
  }

  lemma {:induction false} WaitingAppend(cs: seq<Completion>, c: Completion)
    ensures Waiting(cs + [c]) == Waiting(cs) + Weight(c)
  {
    if cs == [] {
      assert cs + [c] == [c];
    } else {
      WaitingAppend(cs[1..], c);
      assert (cs + [c])[1..] == cs[1..] + [c];
    }
  }

  lemma TakeHead(others: multiset<Completion>, cs: seq<Completion>)
    requires cs != []
    ensures cs[0] in others + multiset(cs)
    ensures others + multiset(cs) - multiset{cs[0]} == others + multiset(cs[1..])
  {
    assert cs == [cs[0]] + cs[1..];
  }

  // --- What was called ----------------------------------------------------------------

  function Completions(calls: seq<Call>): seq<Completion> {
    seq(|calls|, i requires 0 <= i < |calls| => calls[i].completion)
  }

  // The log calls every one of cs with the outcome, in order; other calls may
  // stand between them.
  ghost predicate InOrder(cs: seq<Completion>, outcome: CheckOutcome, log: seq<Call>) {
    cs == [] ||
    exists k :: 0 <= k < |log| && log[k] == Call(cs[|cs| - 1], outcome) && InOrder(cs[..|cs| - 1], outcome, log[..k])
  }

  lemma InOrderNext(cs: seq<Completion>, k: nat, outcome: CheckOutcome, n: nat, before: seq<Call>, after: seq<Call>)
    requires k < |cs| && n <= |before| && InOrder(cs[..k], outcome, before[n..])
    requires before + [Call(cs[k], outcome)] <= after
    ensures InOrder(cs[..k + 1], outcome, after[n..])
  {
    var log, longer, done := before[n..], after[n..], cs[..k + 1];
    assert log + [Call(cs[k], outcome)] <= longer;
    assert done[..k] == cs[..k] && longer[..|log|] == log;
    assert longer[|log|] == (log + [Call(cs[k], outcome)])[|log|];
  }

  function Latest(items: seq<string>): Option<string> {
    if items == [] then None else Some(items[|items| - 1])
  }

  class SparkleUpdater {
    var started: bool
    var downloadedItem: Option<string>
    var checkCompletions: seq<Completion>
    ghost var accepted: multiset<Completion>
    ghost var inFlight: multiset<Completion> // taken off the waiting list, not yet called
    ghost var calls: seq<Call>
    ghost var launched: nat // background checks asked of Sparkle
    ghost var announced: seq<string> // the updates downloaded, in order

    // Every accepted completion waits, is about to be called, or was called, and
    // nothing waits once an update has downloaded.
    ghost predicate Valid()
      reads this
    {
      && accepted == multiset(checkCompletions) + inFlight + multiset(Completions(calls))
      && (downloadedItem.Some? ==> checkCompletions == [])
      && downloadedItem == Latest(announced)
    }

    constructor ()
      ensures Valid() && !started && downloadedItem == None
      ensures checkCompletions == [] && calls == [] && accepted == inFlight == multiset{}
    {
      started, downloadedItem, checkCompletions := false, None, [];
      accepted, inFlight, calls, launched, announced := multiset{}, multiset{}, [], 0, [];
    }

    // Calls one completion that is in flight and runs all it does.
    method CallCompletion(c: Completion, outcome: CheckOutcome)
      requires Valid() && c in inFlight
      modifies this
      ensures Valid() && inFlight == old(inFlight) - multiset{c}
      ensures old(calls) + [Call(c, outcome)] <= calls && old(accepted) <= accepted
      ensures old(announced) <= announced
      ensures Waiting(checkCompletions) < old(Waiting(checkCompletions)) + Weight(c)
      decreases Weight(c) + Waiting(checkCompletions), 0
    {
      Log(c, outcome);
      PerformAll(Reaction(c, outcome));
    }

    ghost method Log(c: Completion, outcome: CheckOutcome)
      requires Valid() && c in inFlight
      modifies this`inFlight, this`calls
      ensures Valid() && inFlight == old(inFlight) - multiset{c} && calls == old(calls) + [Call(c, outcome)]
    {
      assert Completions(calls + [Call(c, outcome)]) == Completions(calls) + [c];
      inFlight := inFlight - multiset{c};
      calls := calls + [Call(c, outcome)];
    }

    method PerformAll(actions: seq<Action>)
      requires Valid()
      modifies this
      ensures Valid() && inFlight == old(inFlight)
      ensures old(calls) <= calls && old(accepted) <= accepted
      ensures old(announced) <= announced
      ensures Waiting(checkCompletions) <= old(Waiting(checkCompletions)) + Weights(actions)
      decreases Weights(actions) + Waiting(checkCompletions), 1
    {
      for k := 0 to |actions|
        invariant Valid() && inFlight == old(inFlight)
        invariant old(calls) <= calls && old(accepted) <= accepted
        invariant old(announced) <= announced
        invariant Waiting(checkCompletions) + Weights(actions[k..]) <= old(Waiting(checkCompletions)) + Weights(actions)
      {
        assert actions[k..][1..] == actions[k + 1..];
        Perform(actions[k]);
      }
    }

    method Perform(a: Action)
      requires Valid()
      modifies this
      ensures Valid() && inFlight == old(inFlight)
      ensures old(calls) <= calls && old(accepted) <= accepted
      ensures old(announced) <= announced
      ensures Waiting(checkCompletions) < old(Waiting(checkCompletions)) + ActionWeight(a)
      decreases ActionWeight(a) + Waiting(checkCompletions), 0
    {
      match a
      case Start => started := true;
      case Check(c, inProgress) => CheckNow(c, inProgress);
      case WillInstallOnQuit(item) => WillInstall(item);
      case DidFinishCycle(failed) => DidFinish(failed);
    }

    method CheckNow(c: Completion, inProgress: bool)
      requires Valid()
      modifies this
      ensures Valid() && inFlight == old(inFlight)
      ensures old(calls) <= calls && old(accepted) + multiset{c} <= accepted
      ensures old(announced) <= announced
      // It is called at once when there is nothing to wait for, and joins the
      // waiting ones otherwise.
      ensures !old(started) ==> old(calls) + [Call(c, Failed)] <= calls
      ensures old(started) && old(downloadedItem).Some? ==>
                old(calls) + [Call(c, Downloaded(old(downloadedItem).value))] <= calls
      ensures old(started) && old(downloadedItem) == None ==>
                && checkCompletions == old(checkCompletions) + [c] && calls == old(calls)
                && launched == old(launched) + if inProgress then 0 else 1
      ensures Waiting(checkCompletions) <= old(Waiting(checkCompletions)) + Weight(c)
      decreases Weight(c) + Waiting(checkCompletions), 2
    {
      if !started {
        CallAtOnce(c, Failed);
        return;
      }
      if downloadedItem.Some? {
        CallAtOnce(c, Downloaded(downloadedItem.value));
        return;
      }
      Join(c, inProgress);
    }

    // Waits for the cycle running, or for one asked of Sparkle now.
    method Join(c: Completion, inProgress: bool)
      requires Valid() && downloadedItem == None
      modifies this`accepted, this`checkCompletions, this`launched
      ensures Valid() && accepted == old(accepted) + multiset{c}
      ensures checkCompletions == old(checkCompletions) + [c]
      ensures launched == old(launched) + if inProgress then 0 else 1
      ensures Waiting(checkCompletions) == old(Waiting(checkCompletions)) + Weight(c)
    {
      WaitingAppend(checkCompletions, c);
      accepted := accepted + multiset{c};
      checkCompletions := checkCompletions + [c];
      if !inProgress { launched := launched + 1; }
    }

    method CallAtOnce(c: Completion, outcome: CheckOutcome)
      requires Valid()
      modifies this
      ensures Valid() && inFlight == old(inFlight)
      ensures old(calls) + [Call(c, outcome)] <= calls && old(accepted) + multiset{c} <= accepted
      ensures old(announced) <= announced
      ensures Waiting(checkCompletions) < old(Waiting(checkCompletions)) + Weight(c)
      decreases Weight(c) + Waiting(checkCompletions), 1
    {
      accepted := accepted + multiset{c};
      inFlight := inFlight + multiset{c};
      CallCompletion(c, outcome);
    }

    method WillInstall(item: string)
      requires Valid()
      modifies this
      ensures Valid() && inFlight == old(inFlight) && downloadedItem.Some? && checkCompletions == []
      ensures old(announced) + [item] <= announced
      ensures old(calls) <= calls && old(accepted) <= accepted
      ensures InOrder(old(checkCompletions), Downloaded(item), calls[|old(calls)|..])
      ensures Waiting(checkCompletions) <= old(Waiting(checkCompletions))
      decreases Waiting(checkCompletions), 3
    {
      downloadedItem := Some(item);
      announced := announced + [item];
      CompleteChecks(Downloaded(item));
    }

    method DidFinish(failed: bool)
      requires Valid()
      modifies this
      ensures Valid() && inFlight == old(inFlight)
      ensures old(calls) <= calls && old(accepted) <= accepted
      ensures old(announced) <= announced
      ensures InOrder(old(checkCompletions), if failed then Failed else UpToDate, calls[|old(calls)|..])
      ensures Waiting(checkCompletions) <= old(Waiting(checkCompletions))
      decreases Waiting(checkCompletions), 3
    {
      if failed {
        CompleteChecks(Failed);
      } else {
        CompleteChecks(UpToDate);
      }
    }

    // Calls everything that waits; what starts to wait meanwhile is left for the
    // next end of a cycle.
    method CompleteChecks(outcome: CheckOutcome)
      requires accepted == multiset(checkCompletions) + inFlight + multiset(Completions(calls))
      requires downloadedItem == Latest(announced)
      modifies this
      ensures Valid() && inFlight == old(inFlight)
      ensures old(calls) <= calls && old(accepted) <= accepted
      ensures old(announced) <= announced
      ensures InOrder(old(checkCompletions), outcome, calls[|old(calls)|..])
      ensures Waiting(checkCompletions) <= old(Waiting(checkCompletions))
      decreases Waiting(checkCompletions), 2
    {
      var completions := checkCompletions;
      checkCompletions := [];
      inFlight := inFlight + multiset(completions);
      CallAll(completions, outcome, old(inFlight));
    }

    method CallAll(completions: seq<Completion>, outcome: CheckOutcome, ghost others: multiset<Completion>)
      requires Valid() && inFlight == others + multiset(completions)
      modifies this
      ensures Valid() && inFlight == others
      ensures old(calls) <= calls && old(accepted) <= accepted
      ensures old(announced) <= announced
      ensures InOrder(completions, outcome, calls[|old(calls)|..])
      ensures Waiting(checkCompletions) <= old(Waiting(checkCompletions)) + Waiting(completions)
      decreases Waiting(completions) + Waiting(checkCompletions), 1
    {
      ghost var n := |calls|;
      ghost var rest := completions;
      for k := 0 to |completions|
        invariant rest == completions[k..]
        invariant Valid() && inFlight == others + multiset(rest)
        invariant old(calls) <= calls && old(accepted) <= accepted
        invariant old(announced) <= announced
        invariant InOrder(completions[..k], outcome, calls[n..])
        invariant Waiting(checkCompletions) + Waiting(rest) <= old(Waiting(checkCompletions)) + Waiting(completions)
      {
        var c := completions[k];
        TakeHead(others, rest);
        rest := rest[1..];
        ghost var log := calls;
        CallCompletion(c, outcome);
        InOrderNext(completions, k, outcome, n, log, calls);
      }
      assert completions[..|completions|] == completions;
    }
  }

  // Between events a completion accepted once either waits, or was called, and
  // was called once only.
  lemma WaitsOrWasCalledOnce(u: SparkleUpdater, c: Completion)
    requires u.Valid() && u.inFlight == multiset{} && u.accepted[c] == 1
    ensures c in u.checkCompletions <==> forall i | 0 <= i < |u.calls| :: u.calls[i].completion != c
    ensures forall i, j | 0 <= i < j < |u.calls| :: !(u.calls[i].completion == c == u.calls[j].completion)
    ensures u.downloadedItem.Some? ==> exists i :: 0 <= i < |u.calls| && u.calls[i].completion == c
  {
    var called := Completions(u.calls);
    assert u.accepted[c] == multiset(u.checkCompletions)[c] + multiset(called)[c];
    assert c in called <==> multiset(called)[c] > 0;
    forall i, j | 0 <= i < j < |u.calls|
      ensures !(u.calls[i].completion == c == u.calls[j].completion)
    {
      if called[i] == c == called[j] {
        TwiceCounted(called, i, j);
        assert false;
      }
    }
    assert c in called <==> exists i :: 0 <= i < |u.calls| && u.calls[i].completion == c by {
      if c in called {
        var i :| 0 <= i < |called| && called[i] == c;
        assert u.calls[i].completion == c;
      }
      if i :| 0 <= i < |u.calls| && u.calls[i].completion == c {
        assert called[i] == c;
      }
    }
  }

  lemma TwiceCounted(s: seq<Completion>, i: nat, j: nat)
    requires i < j < |s| && s[i] == s[j]
    ensures multiset(s)[s[i]] >= 2
  {
    assert s == s[..j] + s[j..];
    assert s[..j][i] == s[i] && s[j..][0] == s[j];
    assert multiset(s) == multiset(s[..j]) + multiset(s[j..]);
  }
}
