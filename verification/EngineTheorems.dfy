/** The main results about the engine: what holds in every state that any interleaving of callers, executors, crashes,
    publish failures and revision conflicts can reach. */
module EngineTheorems {
  import opened Options
  import opened Orchestrations
  import opened Engine
  import opened EngineSafety
  import opened EngineProgress
  import opened EngineTerminal
  import opened EngineCounts
  import opened EngineRetry
  import opened EngineHandOver

  /** A hypothesis on the steps of a run. */
  type Hypothesis = (System, nat, Action) -> bool

  ghost const ANY: Hypothesis := (s: System, p: nat, a: Action) => true
  ghost const CALM: Hypothesis := (s: System, p: nat, a: Action) => Calm(s, p, a)
  ghost const CALM_NO_WAIT: Hypothesis := (s: System, p: nat, a: Action) => Calm(s, p, a) && (a.Run? ==> !a.result.ResultWait?)
  ghost const CALM_ONE_HANDLER: Hypothesis := (s: System, p: nat, a: Action) => Calm(s, p, a) && OneHandler(s, p, a)
  ghost const ONE_WRITER: Hypothesis := (s: System, p: nat, a: Action) => OneWriter(s, p, a)
  ghost const RETRIABLE: Hypothesis := (s: System, p: nat, a: Action) => Retriable(s, p, a)
  ghost const SOLO: Hypothesis := (s: System, p: nat, a: Action) => Solo(s, p, a) && Retriable(s, p, a)

  /** The events are enabled one after the other, starting in `s`, and satisfy the hypothesis. */
  ghost predicate IsRun(s: System, events: seq<Event>, maxRetries: Limits, h: Hypothesis)
    decreases |events|
  {
    |events| == 0 ||
    var Event(p, a) := events[0];
    Enabled(s, p, a) && h(s, p, a) && IsRun(Do(s, p, a, maxRetries), events[1..], maxRetries, h)
  }

  ghost function After(s: System, events: seq<Event>, maxRetries: Limits): System
    decreases |events|
  {
    if |events| == 0 then s
    else
      var Event(p, a) := events[0];
      if Enabled(s, p, a) then After(Do(s, p, a, maxRetries), events[1..], maxRetries) else s
  }

  lemma {:induction false} Append(s: System, events: seq<Event>, e: Event, maxRetries: Limits, h: Hypothesis)
    requires IsRun(s, events, maxRetries, h)
    requires var t := After(s, events, maxRetries); Enabled(t, e.p, e.action) && h(t, e.p, e.action)
    ensures IsRun(s, events + [e], maxRetries, h)
    ensures After(s, events + [e], maxRetries) == Do(After(s, events, maxRetries), e.p, e.action, maxRetries)
    decreases |events|
  {
    hide Do, Enabled;
    if |events| == 0 {
      assert events + [e] == [e] && [e][1..] == [];
      var s' := Do(s, e.p, e.action, maxRetries);
      assert IsRun(s', [], maxRetries, h) && After(s', [], maxRetries) == s';
    } else {
      Append(Do(s, events[0].p, events[0].action, maxRetries), events[1..], e, maxRetries, h);
      assert (events + [e])[1..] == events[1..] + [e];
    }
  }

  lemma InitSafe()
    ensures Safe(INIT) && Wakes(INIT) && Exclusive(INIT) && Kept(INIT)
    ensures forall maxRetries: Limits :: Limited(INIT, maxRetries)
    ensures forall maxRetries: Limits :: Positive(maxRetries) ==> Counted(INIT, maxRetries) && Bounded(INIT, maxRetries)
  {
  }

  // ----- Any run -----

  lemma {:induction false} RunSafe(s: System, events: seq<Event>, maxRetries: Limits, h: Hypothesis)
    requires Safe(s) && IsRun(s, events, maxRetries, h)
    ensures Safe(After(s, events, maxRetries)) && Grows(s, After(s, events, maxRetries))
    decreases |events|
  {
    hide Safe, Do, Enabled;
    if |events| > 0 {
      var Event(p, a) := events[0];
      SafeEvent(s, p, a, maxRetries);
      RunSafe(Do(s, p, a, maxRetries), events[1..], maxRetries, h);
    } else {
      GrowsReflexive(s);
    }
  }

  lemma GrowsReflexive(s: System)
    ensures Grows(s, s)
  {
  }

  /** Whenever the message of an activity has been published, everything the activity depends on has completed. */
  lemma DependenciesFirst(events: seq<Event>, maxRetries: Limits, i: nat, k: nat, dependency: Id)
    requires IsRun(INIT, events, maxRetries, ANY)
    requires var s := After(INIT, events, maxRetries);
      && s.record.Some? && i < |s.record.value.steps| && k < |s.record.value.steps[i]|
      && s.record.value.steps[i][k].id in s.published
      && dependency in s.record.value.steps[i][k].dependsOn
    ensures dependency in After(INIT, events, maxRetries).record.value.completed
  {
    var s := After(INIT, events, maxRetries);
    InitSafe();
    RunSafe(INIT, events, maxRetries, ANY);
    var steps: seq<Step> := s.record.value.steps;
    assert steps[i][k] in steps[i];
    assert InStep(steps, i, steps[i][k].id);
    assert DoneBefore(s, i);
    var j :| 0 <= j < i && InStep(steps, j, dependency);
  }

  /** The record is marked completed only when every activity of every step has completed. */
  lemma CompletedMeansAllDone(events: seq<Event>, maxRetries: Limits)
    requires IsRun(INIT, events, maxRetries, ANY)
    ensures
      var s := After(INIT, events, maxRetries);
      s.record.Some? && s.record.value.state.Completed? ==> AllDone(s.record.value.steps, s.record.value.completed)
  {
    InitSafe();
    RunSafe(INIT, events, maxRetries, ANY);
  }

  /** No completion is lost or invented: the stored set is the set of activities whose completion was written. */
  lemma CompletedIsCommitted(events: seq<Event>, maxRetries: Limits)
    requires IsRun(INIT, events, maxRetries, ANY)
    ensures
      var s := After(INIT, events, maxRetries);
      s.record.Some? ==> s.record.value.completed == s.committed && s.committed <= s.published
  {
    InitSafe();
    RunSafe(INIT, events, maxRetries, ANY);
  }

  /** From any reachable state on: the steps are fixed, completions stay, a terminal state stays terminal, no state
      returns to Initialized, and Running is not entered from a terminal state. */
  lemma HistoryOnlyAdvances(before: seq<Event>, after: seq<Event>, maxRetries: Limits)
    requires IsRun(INIT, before, maxRetries, ANY)
    requires IsRun(After(INIT, before, maxRetries), after, maxRetries, ANY)
    requires After(INIT, before, maxRetries).record.Some?
    ensures
      var s := After(INIT, before, maxRetries);
      var s' := After(s, after, maxRetries);
      && s'.record.Some?
      && var o := s.record.value; var o' := s'.record.value;
      && o'.steps == o.steps && o.completed <= o'.completed
      && (o.state.IsTerminal() ==> o'.state.IsTerminal())
      && (o'.state.Initialized? ==> o.state.Initialized?)
      && (o'.state.Running? ==> o.state.Initialized? || o.state.Running?)
  {
    InitSafe();
    RunSafe(INIT, before, maxRetries, ANY);
    RunSafe(After(INIT, before, maxRetries), after, maxRetries, ANY);
  }

  // ----- Crash-safe start -----

  /** Event `k` creates the record from the content of the call that takes it, and the steps stay those of the call. */
  ghost predicate CreatedAt(s: System, events: seq<Event>, k: nat, maxRetries: Limits) {
    && k < |events| && events[k].action.Store?
    && var before := After(s, events[..k], maxRetries);
    var created := After(s, events[..k + 1], maxRetries);
    var last := After(s, events, maxRetries);
    && before.record.None? && IsStarter(before, events[k].p)
    && created.record == Some(before.processes[events[k].p].role.content)
    && last.record.Some? && last.record.value.steps == created.record.value.steps
  }

  /** Over any number of calls of Execute exactly one event creates the record, with the content of the call that won. */
  lemma FirstCallWins(events: seq<Event>, maxRetries: Limits)
    requires IsRun(INIT, events, maxRetries, ANY) && After(INIT, events, maxRetries).record.Some?
    ensures exists k: nat :: CreatedAt(INIT, events, k, maxRetries)
    ensures forall j: nat, k: nat :: CreatedAt(INIT, events, j, maxRetries) && CreatedAt(INIT, events, k, maxRetries) ==> j == k
  {
    InitSafe();
    hide Safe;
    SomeCallWins(INIT, events, maxRetries);
    forall j: nat, k: nat | CreatedAt(INIT, events, j, maxRetries) && CreatedAt(INIT, events, k, maxRetries)
      ensures j == k
    {
      if j < k {
        CreatedOnce(INIT, events, j, k, maxRetries);
      } else if k < j {
        CreatedOnce(INIT, events, k, j, maxRetries);
      }
    }
  }

  lemma {:induction false} SomeCallWins(s: System, events: seq<Event>, maxRetries: Limits)
    requires Safe(s) && s.record.None? && IsRun(s, events, maxRetries, ANY)
    requires After(s, events, maxRetries).record.Some?
    ensures exists k: nat :: CreatedAt(s, events, k, maxRetries)
    decreases |events|
  {
    hide Safe, Do, Enabled;
    var Event(p, a) := events[0];
    var s1 := Do(s, p, a, maxRetries);
    SafeEvent(s, p, a, maxRetries);
    assert events[..1] == [events[0]] && events[..0] == [];
    if s1.record.Some? {
      CreatedByStore(s, p, a, maxRetries);
      RunSafe(s1, events[1..], maxRetries, ANY);
      assert events[..1][1..] == [];
      assert After(s, events[..1], maxRetries) == After(s1, [], maxRetries) == s1;
      assert After(s, events, maxRetries) == After(s1, events[1..], maxRetries);
      assert CreatedAt(s, events, 0, maxRetries);
    } else {
      SomeCallWins(s1, events[1..], maxRetries);
      var k: nat :| CreatedAt(s1, events[1..], k, maxRetries);
      assert events[..k + 1][1..] == events[1..][..k];
      assert events[..k + 2][1..] == events[1..][..k + 1];
      assert CreatedAt(s, events, k + 1, maxRetries);
    }
  }

  lemma RunHead(s: System, events: seq<Event>, maxRetries: Limits, h: Hypothesis)
    requires |events| > 0
    ensures
      var Event(p, a) := events[0];
      IsRun(s, events, maxRetries, h) <==>
        Enabled(s, p, a) && h(s, p, a) && IsRun(Do(s, p, a, maxRetries), events[1..], maxRetries, h)
    ensures
      var Event(p, a) := events[0];
      Enabled(s, p, a) ==> After(s, events, maxRetries) == After(Do(s, p, a, maxRetries), events[1..], maxRetries)
  {
    hide Do, Enabled;
  }

  lemma RunEmpty(s: System, maxRetries: Limits, h: Hypothesis)
    ensures IsRun(s, [], maxRetries, h) && After(s, [], maxRetries) == s
  {
  }

  /** A prefix of a run is a run, and the rest continues it. */
  lemma {:induction false} RunSplits(s: System, events: seq<Event>, k: nat, maxRetries: Limits, h: Hypothesis)
    requires IsRun(s, events, maxRetries, h) && k <= |events|
    ensures IsRun(s, events[..k], maxRetries, h) && IsRun(After(s, events[..k], maxRetries), events[k..], maxRetries, h)
    ensures After(After(s, events[..k], maxRetries), events[k..], maxRetries) == After(s, events, maxRetries)
    decreases k
  {
    hide Do, Enabled, IsRun, After;
    if k == 0 {
      assert events[..0] == [] && events[0..] == events;
      RunEmpty(s, maxRetries, h);
    } else {
      var Event(p, a) := events[0];
      RunHead(s, events, maxRetries, h);
      RunHead(s, events[..k], maxRetries, h);
      RunSplits(Do(s, p, a, maxRetries), events[1..], k - 1, maxRetries, h);
      assert events[..k][1..] == events[1..][..k - 1] && events[1..][k - 1..] == events[k..];
    }
  }

  /** Once there is a record, no later event creates one. */
  lemma CreatedOnce(s: System, events: seq<Event>, j: nat, k: nat, maxRetries: Limits)
    requires Safe(s) && IsRun(s, events, maxRetries, ANY) && j < k && CreatedAt(s, events, j, maxRetries)
    ensures !CreatedAt(s, events, k, maxRetries)
  {
    hide Safe, IsRun, Do, Enabled;
    if k < |events| {
      RunSplits(s, events, k, maxRetries, ANY);
      assert events[..k][..j + 1] == events[..j + 1];
      RunSplits(s, events[..k], j + 1, maxRetries, ANY);
      RunSafe(s, events[..j + 1], maxRetries, ANY);
      RunSafe(After(s, events[..j + 1], maxRetries), events[..k][j + 1..], maxRetries, ANY);
    }
  }

  lemma CreatedByStore(s: System, p: nat, a: Action, maxRetries: Limits)
    requires Safe(s) && Enabled(s, p, a) && s.record.None? && Do(s, p, a, maxRetries).record.Some?
    ensures a.Store? && IsStarter(s, p) && Do(s, p, a, maxRetries).record == Some(s.processes[p].role.content)
  {
    if At(s, p) {
      FreshContent(s, p);
    }
    hide Safe, DoUpdate;
  }

  /** Running or Completed implies that all activities of the first step were published. */
  lemma StartedMeansPublished(events: seq<Event>, maxRetries: Limits)
    requires IsRun(INIT, events, maxRetries, ANY)
    ensures
      var s := After(INIT, events, maxRetries);
      s.record.Some? && (s.record.value.state.Running? || s.record.value.state.Completed?) ==>
        |s.record.value.steps| > 0 && StepIds(s.record.value.steps[0]) <= s.published
  {
    InitSafe();
    RunSafe(INIT, events, maxRetries, ANY);
  }

  /** Once a call of Execute has returned without error, the record has left Initialized for good. */
  lemma ReturnedMeansStarted(before: seq<Event>, after: seq<Event>, maxRetries: Limits, p: nat)
    requires IsRun(INIT, before, maxRetries, ANY)
    requires var s := After(INIT, before, maxRetries); At(s, p) && PhaseOf(s, p) == Returned(true)
    requires IsRun(After(INIT, before, maxRetries), after, maxRetries, ANY)
    ensures
      var s' := After(After(INIT, before, maxRetries), after, maxRetries);
      s'.record.Some? && !s'.record.value.state.Initialized?
  {
    InitSafe();
    RunSafe(INIT, before, maxRetries, ANY);
    var s := After(INIT, before, maxRetries);
    assert ProcessOk(s, s.processes[p]);
    RunSafe(s, after, maxRetries, ANY);
  }

  // ----- No lost wake-up -----

  lemma {:induction false} RunWakes(s: System, events: seq<Event>, maxRetries: Limits, h: Hypothesis)
    requires Safe(s) && Wakes(s) && IsRun(s, events, maxRetries, h)
    requires forall s: System, p: nat, a: Action :: h(s, p, a) ==> Calm(s, p, a)
    ensures Wakes(After(s, events, maxRetries))
    decreases |events|
  {
    hide Safe, Wakes, Calm, Do, Enabled;
    if |events| > 0 {
      var Event(p, a) := events[0];
      SafeEvent(s, p, a, maxRetries);
      WakesEvent(s, p, a, maxRetries);
      RunWakes(Do(s, p, a, maxRetries), events[1..], maxRetries, h);
    }
  }

  /** The activity has an unacknowledged message, or acknowledged one by waiting. */
  ghost predicate HasTurn(s: System, activity: Id) {
    activity in s.waited || Outstanding(s, activity)
  }

  /** In every reachable state that is neither completed nor errored, a published activity that has not completed still
      has its turn; and the activity whose completion made a step complete still has its turn, unless the next step is
      wholly published. */
  lemma NoLostWakeUp(events: seq<Event>, maxRetries: Limits)
    requires IsRun(INIT, events, maxRetries, CALM)
    requires Live(After(INIT, events, maxRetries))
    ensures
      var s := After(INIT, events, maxRetries);
      forall activity :: activity in s.published && activity !in s.record.value.completed ==> HasTurn(s, activity)
    ensures
      var s := After(INIT, events, maxRetries);
      forall i :: StepFull(s, i) ==>
        && i in s.closers && s.closers[i] in StepIds(s.record.value.steps[i])
        && (NextPublished(s, i) || HasTurn(s, s.closers[i]))
  {
    InitSafe();
    RunSafe(INIT, events, maxRetries, CALM);
    RunWakes(INIT, events, maxRetries, CALM);
    var s := After(INIT, events, maxRetries);
    forall i | StepFull(s, i)
      ensures i in s.closers && s.closers[i] in StepIds(s.record.value.steps[i])
      ensures NextPublished(s, i) || HasTurn(s, s.closers[i])
    {
      assert HandsOver(s, i);
    }
  }

  lemma {:induction false} RunKept(s: System, events: seq<Event>, maxRetries: Limits)
    requires Safe(s) && Wakes(s) && Exclusive(s) && Kept(s) && IsRun(s, events, maxRetries, CALM_ONE_HANDLER)
    ensures var s' := After(s, events, maxRetries); Wakes(s') && Kept(s')
    decreases |events|
  {
    hide Safe, Wakes, Exclusive, Kept, Calm, OneHandler, Do, Enabled;
    if |events| > 0 {
      var Event(p, a) := events[0];
      SafeEvent(s, p, a, maxRetries);
      WakesEvent(s, p, a, maxRetries);
      OneHandlerIsOneWriter(s, p, a);
      ExclusiveEvent(s, p, a, maxRetries);
      KeptEvent(s, p, a, maxRetries);
      RunKept(Do(s, p, a, maxRetries), events[1..], maxRetries);
    }
  }

  /** With one handler per activity at a time there is no exception for waiting: in every reachable state that is neither
      completed nor errored, a complete step has the next one wholly published, or one of its activities has an
      unacknowledged message. */
  lemma NoLostHandOver(events: seq<Event>, maxRetries: Limits, i: nat)
    requires IsRun(INIT, events, maxRetries, CALM_ONE_HANDLER)
    requires var s := After(INIT, events, maxRetries); Live(s) && StepFull(s, i)
    ensures
      var s := After(INIT, events, maxRetries);
      NextPublished(s, i) || exists m :: m in s.messages && s.messages[m] in StepIds(s.record.value.steps[i])
  {
    InitSafe();
    RunKept(INIT, events, maxRetries);
    var s := After(INIT, events, maxRetries);
    hide IsRun, After;
    WakesClosers(s);
    assert Closed(s, i);
    if !NextPublished(s, i) {
      var m :| m in s.messages && s.messages[m] == s.closers[i];
      assert s.messages[m] in StepIds(s.record.value.steps[i]);
    }
  }

  /** With one handler per activity at a time, a running orchestration without any message has a published activity that
      has not completed and has acknowledged its message by waiting. */
  lemma OnlyWaitersHoldUp(events: seq<Event>, maxRetries: Limits)
    requires IsRun(INIT, events, maxRetries, CALM_ONE_HANDLER)
    requires var s := After(INIT, events, maxRetries); s.record.Some? && s.record.value.state.Running? && s.messages == map[]
    ensures
      var s := After(INIT, events, maxRetries);
      exists a :: a in s.published && a !in s.record.value.completed && a in s.waited
  {
    InitSafe();
    RunSafe(INIT, events, maxRetries, CALM_ONE_HANDLER);
    RunKept(INIT, events, maxRetries);
    hide IsRun, After;
    SomeoneWaits(After(INIT, events, maxRetries), 0);
  }

  lemma {:induction false} SomeoneWaits(s: System, i: nat)
    requires Wakes(s) && Kept(s) && Live(s) && s.messages == map[] && i < |s.record.value.steps|
    requires StepIds(s.record.value.steps[i]) <= s.published
    ensures exists a :: a in s.published && a !in s.record.value.completed && a in s.waited
    decreases |s.record.value.steps| - i
  {
    if StepFull(s, i) {
      assert Closed(s, i);
      SomeoneWaits(s, i + 1);
    } else {
      var a :| a in StepIds(s.record.value.steps[i]) && a !in s.record.value.completed;
    }
  }

  /** No process is about to acknowledge a wait. */
  ghost predicate NeverWaited(s: System) {
    s.waited == {} && forall p :: At(s, p) ==> !Writes(PhaseOf(s, p), Wait)
  }

  lemma NeverWaitedEvent(s: System, p: nat, a: Action, maxRetries: Limits)
    requires NeverWaited(s) && Enabled(s, p, a) && (a.Run? ==> !a.result.ResultWait?)
    ensures NeverWaited(Do(s, p, a, maxRetries))
  {
    hide Moved, Enabled, Do, NeverWaited;
    var s' := Do(s, p, a, maxRetries);
    OnlyMoves(s, p, a, maxRetries);
    OthersStay(s, s', p);
    NeverWaitedAt(s, p);
    NeverWaitedDo(s, p, a, maxRetries);
    NeverWaitedFrame(s, s', p);
  }

  lemma NeverWaitedAt(s: System, p: nat)
    requires NeverWaited(s)
    ensures s.waited == {} && (At(s, p) ==> !Writes(PhaseOf(s, p), Wait))
  {
  }

  lemma NeverWaitedFrame(s: System, s': System, p: nat)
    requires NeverWaited(s) && s'.waited == {} && (At(s', p) ==> !Writes(PhaseOf(s', p), Wait))
    requires forall q :: q != p ==> (At(s, q) <==> At(s', q)) && (At(s, q) ==> s'.processes[q] == s.processes[q])
    ensures NeverWaited(s')
  {
  }

  lemma NeverWaitedDo(s: System, p: nat, a: Action, maxRetries: Limits)
    requires s.waited == {} && (At(s, p) ==> !Writes(PhaseOf(s, p), Wait))
    requires Enabled(s, p, a) && (a.Run? ==> !a.result.ResultWait?)
    ensures var s' := Do(s, p, a, maxRetries); s'.waited == {} && (At(s', p) ==> !Writes(PhaseOf(s', p), Wait))
  {
    hide DoUpdate;
    if a.Update? {
      NeverWaitedUpdate(s, p, a.outcome);
    }
  }

  lemma NeverWaitedUpdate(s: System, p: nat, outcome: Outcome)
    requires s.waited == {} && At(s, p) && PhaseOf(s, p).Writing? && !Writes(PhaseOf(s, p), Wait)
    ensures var s' := DoUpdate(s, p, outcome); s'.waited == {} && (At(s', p) ==> !Writes(PhaseOf(s', p), Wait))
  {
    hide CanProceed, Apply, AfterWrite, Commit;
    var Writing(write, local, cur, rev, _) := PhaseOf(s, p);
    var a := ActivityOf(s.processes[p].role);
    var o := Apply(write, a, local, cur);
    NoFailureAfter(write, a, o, s.rev + 1);
    WaitsOnly(s, write, a, o);
  }

  lemma WaitsOnly(s: System, write: Write, a: Id, o: Orchestration)
    ensures var s1 := Commit(s, write, a, o);
      s1.processes == s.processes && (!write.Wait? ==> s1.waited == s.waited)
  {
  }

  lemma {:induction false} RunNeverWaited(s: System, events: seq<Event>, maxRetries: Limits)
    requires NeverWaited(s) && IsRun(s, events, maxRetries, CALM_NO_WAIT)
    ensures After(s, events, maxRetries).waited == {}
    decreases |events|
  {
    hide Do, Enabled;
    if |events| > 0 {
      var Event(p, a) := events[0];
      NeverWaitedEvent(s, p, a, maxRetries);
      RunNeverWaited(Do(s, p, a, maxRetries), events[1..], maxRetries);
    }
  }

  /** If no activity waits, a live orchestration always has a message that can move it on, or has not finished
      publishing its first step. */
  lemma NeverStuck(events: seq<Event>, maxRetries: Limits)
    requires IsRun(INIT, events, maxRetries, CALM_NO_WAIT)
    requires Live(After(INIT, events, maxRetries))
    ensures
      var s := After(INIT, events, maxRetries);
      s.record.value.state.Running? ==> exists m :: m in s.messages && InSteps(s.record.value.steps, s.messages[m])
  {
    InitSafe();
    RunSafe(INIT, events, maxRetries, CALM_NO_WAIT);
    RunWakes(INIT, events, maxRetries, CALM_NO_WAIT);
    RunNeverWaited(INIT, events, maxRetries);
    var s := After(INIT, events, maxRetries);
    if s.record.value.state.Running? {
      SomeoneOutstanding(s, 0);
    }
  }

  /** Going up the steps, some published activity has a message left. */
  lemma {:induction false} SomeoneOutstanding(s: System, i: nat)
    requires Safe(s) && Wakes(s) && Live(s) && s.waited == {} && i < |s.record.value.steps|
    requires StepIds(s.record.value.steps[i]) <= s.published
    ensures exists m :: m in s.messages && InSteps(s.record.value.steps, s.messages[m])
    decreases |s.record.value.steps| - i
  {
    var o := s.record.value;
    var a: Id;
    if StepFull(s, i) {
      assert HandsOver(s, i);
      if NextPublished(s, i) {
        SomeoneOutstanding(s, i + 1);
        return;
      }
      a := s.closers[i];
    } else {
      a :| a in StepIds(o.steps[i]) && a !in o.completed;
    }
    assert InStep(o.steps, i, a) && Outstanding(s, a);
    var m :| m in s.messages && s.messages[m] == a;
    assert InSteps(o.steps, s.messages[m]);
  }

  // ----- Terminal states -----

  lemma {:induction false} RunExclusive(s: System, events: seq<Event>, maxRetries: Limits)
    requires Safe(s) && Exclusive(s) && IsRun(s, events, maxRetries, ONE_WRITER)
    ensures Exclusive(After(s, events, maxRetries))
    ensures s.record.Some? && s.record.value.state.IsTerminal() ==>
              var s' := After(s, events, maxRetries); s'.record.Some? && s'.record.value.state == s.record.value.state
    decreases |events|
  {
    hide Safe, Exclusive, OneWriter, Do, Enabled;
    if |events| > 0 {
      var Event(p, a) := events[0];
      SafeEvent(s, p, a, maxRetries);
      ExclusiveEvent(s, p, a, maxRetries);
      if s.record.Some? && s.record.value.state.IsTerminal() {
        TerminalStays(s, p, a, maxRetries);
      }
      RunExclusive(Do(s, p, a, maxRetries), events[1..], maxRetries);
    }
  }

  /** If at most one handler per activity may write for it at a time, and no message is delivered for the last time, the
      first terminal state is the last state. */
  lemma TerminalIsFinal(before: seq<Event>, after: seq<Event>, maxRetries: Limits)
    requires IsRun(INIT, before, maxRetries, ONE_WRITER)
    requires IsRun(After(INIT, before, maxRetries), after, maxRetries, ONE_WRITER)
    requires var s := After(INIT, before, maxRetries); s.record.Some? && s.record.value.state.IsTerminal()
    ensures
      var s := After(INIT, before, maxRetries);
      var s' := After(s, after, maxRetries);
      s'.record.Some? && s'.record.value.state == s.record.value.state
  {
    InitSafe();
    RunSafe(INIT, before, maxRetries, ONE_WRITER);
    RunExclusive(INIT, before, maxRetries);
    RunExclusive(After(INIT, before, maxRetries), after, maxRetries);
  }

  // ----- Updates are atomic -----

  /** A write that lands applies the update function to the record it replaces. The data and retry counts are those of
      the handler's own copy on the first attempt, and those of the record itself after a conflict. */
  lemma UpdateIsAtomic(events: seq<Event>, maxRetries: Limits, p: nat, outcome: Outcome)
    requires IsRun(INIT, events, maxRetries, ANY)
    requires var s := After(INIT, events, maxRetries);
      At(s, p) && PhaseOf(s, p).Writing? && Lands(s, PhaseOf(s, p).rev, outcome)
    ensures
      var s := After(INIT, events, maxRetries);
      var s' := DoUpdate(s, p, outcome);
      var Writing(write, local, cur, rev, conflicts) := PhaseOf(s, p);
      && s.record.Some? && s'.record.Some? && s'.rev == s.rev + 1 && conflicts < MAX_CONFLICTS
      && var applied := Apply(write, ActivityOf(s.processes[p].role), local, s.record.value);
      && s'.record.value ==
           if conflicts == 0 && Carries(write) then applied.(data := local.values, retries := local.retries) else applied
  {
    InitSafe();
    RunSafe(INIT, events, maxRetries, ANY);
    hide Safe, AfterWrite, RecordOk, Grows, IsRun, After;
    var s := After(INIT, events, maxRetries);
    LandsOnCurrent(s, p);
    LandsAs(s, p, outcome);
    var Writing(write, local, cur, _, conflicts) := PhaseOf(s, p);
    assert local.values + local.values == local.values && local.retries + local.retries == local.retries;
  }

  lemma LandsOnCurrent(s: System, p: nat)
    requires Safe(s) && At(s, p) && PhaseOf(s, p).Writing? && PhaseOf(s, p).rev == s.rev
    ensures
      var Writing(write, local, cur, _, conflicts) := PhaseOf(s, p);
      && s.record.Some? && conflicts < MAX_CONFLICTS
      && cur == s.record.value.(data := cur.data, retries := cur.retries)
      && (conflicts > 0 || !Carries(write) ==> cur == s.record.value)
      && (conflicts == 0 && Carries(write) ==> cur.data == local.values && cur.retries == local.retries)
      && (cur.data == s.record.value.data || s.record.value.data.Keys <= local.held)
  {
    assert ProcessOk(s, s.processes[p]);
  }

  lemma LandsAs(s: System, p: nat, outcome: Outcome)
    requires At(s, p) && PhaseOf(s, p).Writing? && Lands(s, PhaseOf(s, p).rev, outcome)
    ensures
      var s' := DoUpdate(s, p, outcome);
      var Writing(write, local, cur, _, _) := PhaseOf(s, p);
      s'.rev == s.rev + 1 && s'.record == Some(Apply(write, ActivityOf(s.processes[p].role), local, cur))
  {
    hide AfterWrite, Apply;
  }

  /** A data key that a sibling has stored survives the write of a handler that neither held it in the copy it started
      from nor set it. */
  lemma SiblingDataSurvives(events: seq<Event>, maxRetries: Limits, p: nat, outcome: Outcome, key: DataKey)
    requires IsRun(INIT, events, maxRetries, ANY)
    requires var s := After(INIT, events, maxRetries);
      && At(s, p) && PhaseOf(s, p).Writing? && Lands(s, PhaseOf(s, p).rev, outcome)
      && s.record.Some? && key in s.record.value.data
      && key !in PhaseOf(s, p).local.held && key !in PhaseOf(s, p).local.values
    ensures
      var s := After(INIT, events, maxRetries);
      var s' := DoUpdate(s, p, outcome);
      s'.record.Some? && key in s'.record.value.data && s'.record.value.data[key] == s.record.value.data[key]
  {
    InitSafe();
    RunSafe(INIT, events, maxRetries, ANY);
    hide Safe, AfterWrite, RecordOk, Grows, IsRun, After, DoUpdate, Apply;
    var s := After(INIT, events, maxRetries);
    LandsOnCurrent(s, p);
    LandsAs(s, p, outcome);
    var Writing(write, local, cur, _, _) := PhaseOf(s, p);
    KeyKept(write, ActivityOf(s.processes[p].role), local, cur, s.record.value, key);
  }

  lemma KeyKept(write: Write, a: Id, local: Local, cur: Orchestration, o: Orchestration, key: DataKey)
    requires key in o.data && key !in local.held && key !in local.values
    requires cur.data == o.data || o.data.Keys <= local.held
    ensures var applied := Apply(write, a, local, cur); key in applied.data && applied.data[key] == o.data[key]
  {
  }

  // ----- Retry bound -----

  lemma {:induction false} RunLimited(s: System, events: seq<Event>, maxRetries: Limits, h: Hypothesis)
    requires Safe(s) && Limited(s, maxRetries) && IsRun(s, events, maxRetries, h)
    requires forall s: System, p: nat, a: Action :: h(s, p, a) ==> Retriable(s, p, a)
    ensures Limited(After(s, events, maxRetries), maxRetries)
    decreases |events|
  {
    hide Safe, Limited, Retriable, Do, Enabled;
    if |events| > 0 {
      var Event(p, a) := events[0];
      SafeEvent(s, p, a, maxRetries);
      LimitedEvent(s, p, a, maxRetries);
      RunLimited(Do(s, p, a, maxRetries), events[1..], maxRetries, h);
    }
  }

  /** However many handlers race, crash, or fail to persist: a stored count is never ahead of the retriable errors that
      were reported, and the orchestration is errored only if an activity has used up its retries. */
  lemma CountsNeverAhead(events: seq<Event>, maxRetries: Limits)
    requires IsRun(INIT, events, maxRetries, RETRIABLE) && After(INIT, events, maxRetries).record.Some?
    ensures
      var s := After(INIT, events, maxRetries);
      && (forall a :: Count(s.record.value.retries, a) <= Count(s.retryErrors, a))
      && (s.record.value.state.Errored? ==> exists a :: Count(s.retryErrors, a) >= maxRetries(a))
  {
    InitSafe();
    RunLimited(INIT, events, maxRetries, RETRIABLE);
    hide IsRun, After;
  }

  lemma {:induction false} RunCounted(s: System, events: seq<Event>, maxRetries: Limits)
    requires Safe(s) && Counted(s, maxRetries) && Exclusive(s) && Bounded(s, maxRetries) && Positive(maxRetries)
    requires IsRun(s, events, maxRetries, SOLO)
    ensures var s' := After(s, events, maxRetries); Counted(s', maxRetries) && Bounded(s', maxRetries)
    decreases |events|
  {
    hide Safe, Counted, Exclusive, Bounded, Solo, Retriable, Do, Enabled, OneWriter;
    if |events| > 0 {
      var Event(p, a) := events[0];
      SafeEvent(s, p, a, maxRetries);
      SoloIsOneWriter(s, p, a);
      ExclusiveEvent(s, p, a, maxRetries);
      CountedEvent(s, p, a, maxRetries);
      BoundedEvent(s, p, a, maxRetries);
      RunCounted(Do(s, p, a, maxRetries), events[1..], maxRetries);
    }
  }

  lemma SoloIsOneWriter(s: System, p: nat, a: Action)
    requires Solo(s, p, a)
    ensures OneWriter(s, p, a)
  {
  }

  /** If one handler at a time may merge its copy into the record, retriable errors are persisted, and activities report
      no other errors: whenever no error is waiting to be persisted, the stored counts are the numbers of retriable errors
      so far, whatever was rescheduled in between, and the orchestration is errored if and only if an activity has used up
      its retries. */
  lemma RetryBound(events: seq<Event>, maxRetries: Limits)
    requires Positive(maxRetries) && IsRun(INIT, events, maxRetries, SOLO)
    requires var s := After(INIT, events, maxRetries); s.record.Some? && !SomePending(s)
    ensures
      var s := After(INIT, events, maxRetries);
      && (forall a :: Count(s.record.value.retries, a) == Count(s.retryErrors, a))
      && (s.record.value.state.Errored? <==> exists a :: Count(s.retryErrors, a) >= maxRetries(a))
  {
    InitSafe();
    RunCounted(INIT, events, maxRetries);
    RunLimited(INIT, events, maxRetries, SOLO);
    var s := After(INIT, events, maxRetries);
    hide IsRun, After, PhaseCounts, CopyBelow;
    assert SomeFatal(s) ==> SomePending(s);
    assert Exhausted(s, maxRetries) <==> exists a :: Count(s.retryErrors, a) >= maxRetries(a);
  }
}
