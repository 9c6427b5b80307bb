/** What holds of the counts of retriable errors however many handlers race, crash, or fail to persist: a stored count is
    never ahead of the errors that were reported. */
module EngineCounts {
  import opened Options
  import opened Orchestrations
  import opened Engine
  import opened EngineSafety
  import opened EngineTerminal

  /** The hypothesis: no message is delivered for the last time, and activities report no fatal errors of their own. */
  ghost predicate Retriable(s: System, p: nat, a: Action) {
    (a.Deliver? ==> !a.final) && (a.Run? ==> !a.result.ResultFatalError?)
  }

  ghost predicate Below(counts: map<Id, nat>, s: System) {
    forall a :: Count(counts, a) <= Count(s.retryErrors, a)
  }

  /** An activity has failed as often as is allowed. */
  ghost predicate Exhausted(s: System, maxRetries: Limits) {
    exists a :: Count(s.retryErrors, a) >= maxRetries(a)
  }

  /** The copies of the counts that a process holds. */
  ghost predicate CopyBelow(s: System, phase: Phase) {
    match phase
    case Working(cur, _) => Below(cur.retries, s)
    case Writing(_, local, cur, _, _) => Below(local.retries, s) && Below(cur.retries, s)
    case Rereading(_, local, _) => Below(local.retries, s)
    case Publishing(cur, _, _, _) => Below(cur.retries, s)
    case _ => true
  }

  ghost predicate ProcessBelow(s: System, process: Process, maxRetries: Limits) {
    && (process.role.Executor? ==> !process.role.final)
    && CopyBelow(s, process.phase)
    && (Writes(process.phase, Fatal) ==> Exhausted(s, maxRetries))
  }

  ghost predicate Limited(s: System, maxRetries: Limits) {
    && (s.record.Some? ==> Below(s.record.value.retries, s))
    && (Erroneous(s) ==> Exhausted(s, maxRetries))
    && (forall p :: At(s, p) ==> ProcessBelow(s, s.processes[p], maxRetries))
  }

  /** No error is forgotten. */
  ghost predicate Remembers(s: System, s': System) {
    forall a :: Count(s.retryErrors, a) <= Count(s'.retryErrors, a)
  }

  lemma ExhaustedStays(s: System, s': System, maxRetries: Limits)
    requires Remembers(s, s') && Exhausted(s, maxRetries)
    ensures Exhausted(s', maxRetries)
  {
    var a :| Count(s.retryErrors, a) >= maxRetries(a);
    assert Count(s'.retryErrors, a) >= maxRetries(a);
  }

  lemma BelowStays(s: System, s': System, process: Process, maxRetries: Limits)
    requires Remembers(s, s') && ProcessBelow(s, process, maxRetries)
    ensures ProcessBelow(s', process, maxRetries)
  {
    if Exhausted(s, maxRetries) {
      ExhaustedStays(s, s', maxRetries);
    }
  }

  /** One process has moved, and the record is still limited. */
  lemma LimitedAfter(s: System, s': System, p: nat, maxRetries: Limits)
    requires Limited(s, maxRetries) && Moved(s, s', p) && Remembers(s, s')
    requires s'.record.Some? ==> Below(s'.record.value.retries, s')
    requires Erroneous(s') ==> Exhausted(s', maxRetries)
    requires At(s', p) ==> ProcessBelow(s', s'.processes[p], maxRetries)
    ensures Limited(s', maxRetries)
  {
    OthersStay(s, s', p);
    hide Moved, Below, Exhausted, Remembers, ProcessBelow;
    forall q | At(s', q) ensures ProcessBelow(s', s'.processes[q], maxRetries) {
      if q != p {
        BelowStays(s, s', s'.processes[q], maxRetries);
      }
    }
  }

  /** Nothing but process `p`, and perhaps the messages, has changed. */
  lemma LimitedMove(s: System, s': System, p: nat, maxRetries: Limits)
    requires Limited(s, maxRetries) && Moved(s, s', p) && s'.retryErrors == s.retryErrors && s'.record == s.record
    requires At(s', p) ==> ProcessBelow(s, s'.processes[p], maxRetries)
    ensures Limited(s', maxRetries)
  {
    SameErrors(s, s', maxRetries);
    if At(s', p) {
      BelowStays(s, s', s'.processes[p], maxRetries);
    }
    LimitedAfter(s, s', p, maxRetries);
  }

  lemma SameErrors(s: System, s': System, maxRetries: Limits)
    requires s'.retryErrors == s.retryErrors
    ensures Remembers(s, s') && Exhausted(s', maxRetries) == Exhausted(s, maxRetries)
    ensures s'.record == s.record && s'.record.Some? && Below(s.record.value.retries, s) ==> Below(s'.record.value.retries, s')
  {
  }

  lemma BelowAt(s: System, p: nat, maxRetries: Limits)
    requires Limited(s, maxRetries) && At(s, p)
    ensures ProcessBelow(s, s.processes[p], maxRetries)
  {
  }

  lemma ApplyBelow(s: System, write: Write, activity: Id, local: Local, cur: Orchestration)
    requires Below(local.retries, s) && Below(cur.retries, s)
    ensures Below(Apply(write, activity, local, cur).retries, s)
  {
  }

  lemma CommitFrame(s: System, write: Write, a: Id, o: Orchestration)
    ensures var s1 := Commit(s, write, a, o);
      s1.processes == s.processes && s1.retryErrors == s.retryErrors && s1.record == Some(o)
  {
  }

  /** Whatever follows a write holds the written counts, or none. */
  lemma NextBelow(s: System, write: Write, activity: Id, o: Orchestration, rev: nat)
    requires Below(o.retries, s)
    ensures var next := AfterWrite(write, activity, o, rev);
      next.Some? ==> CopyBelow(s, next.value) && !Writes(next.value, Fatal)
    ensures AfterFailedWrite(write).Some? ==>
      CopyBelow(s, AfterFailedWrite(write).value) && !Writes(AfterFailedWrite(write).value, Fatal)
  {
    hide CanProceed, StepIndex;
  }

  lemma LimitedLanding(s: System, p: nat, outcome: Outcome, maxRetries: Limits)
    requires Safe(s) && Limited(s, maxRetries) && At(s, p) && PhaseOf(s, p).Writing?
    requires Lands(s, PhaseOf(s, p).rev, outcome)
    ensures Limited(DoUpdate(s, p, outcome), maxRetries)
  {
    hide Safe, Limited, Below, Exhausted, Apply, AfterWrite, Commit;
    var Writing(write, local, cur, rev, _) := PhaseOf(s, p);
    var role := s.processes[p].role;
    var a := ActivityOf(role);
    var o := Apply(write, a, local, cur);
    var s1 := Commit(s, write, a, o);
    var s' := DoUpdate(s, p, outcome);
    BelowAt(s, p, maxRetries);
    ApplyBelow(s, write, a, local, cur);
    CommitFrame(s, write, a, o);
    SameErrors(s, s', maxRetries);
    NextBelow(s, write, a, o, s.rev + 1);
    SameBelow(s, s');
    StateOf(s, p, maxRetries);
    UpdateMoves(s, p, outcome);
    LimitedAfter(s, s', p, maxRetries);
  }

  lemma SameBelow(s: System, s': System)
    requires s'.retryErrors == s.retryErrors
    ensures forall counts :: Below(counts, s) <==> Below(counts, s')
  {
  }

  /** An update writes Errored only if it records a fatal error, or the record was errored before. */
  lemma StateOf(s: System, p: nat, maxRetries: Limits)
    requires Safe(s) && Limited(s, maxRetries) && At(s, p) && PhaseOf(s, p).Writing? && PhaseOf(s, p).rev == s.rev
    ensures
      var Writing(write, local, cur, _, _) := PhaseOf(s, p);
      Apply(write, ActivityOf(s.processes[p].role), local, cur).state.Errored? ==> Exhausted(s, maxRetries)
  {
    MayWriteAt(s, p);
    BelowAt(s, p, maxRetries);
    hide Safe, Below, Exhausted;
  }

  lemma LimitedUpdate(s: System, p: nat, outcome: Outcome, maxRetries: Limits)
    requires Safe(s) && Limited(s, maxRetries) && At(s, p) && PhaseOf(s, p).Writing?
    ensures Limited(DoUpdate(s, p, outcome), maxRetries)
  {
    hide Safe, Limited, Below, Exhausted, Apply, AfterWrite, Commit;
    if Lands(s, PhaseOf(s, p).rev, outcome) {
      LimitedLanding(s, p, outcome, maxRetries);
    } else {
      BelowAt(s, p, maxRetries);
      UpdateMoves(s, p, outcome);
      LimitedMove(s, DoUpdate(s, p, outcome), p, maxRetries);
    }
  }

  lemma LimitedRun(s: System, p: nat, result: Result, values: Data, maxRetries: Limits)
    requires Limited(s, maxRetries) && IsExecutor(s, p) && PhaseOf(s, p).Working? && !result.ResultFatalError?
    ensures Limited(DoRun(s, p, result, values, maxRetries), maxRetries)
  {
    var s' := DoRun(s, p, result, values, maxRetries);
    BelowAt(s, p, maxRetries);
    OnlyMoves(s, p, Run(result, values), maxRetries);
    assert Remembers(s, s');
    if Exhausted(s, maxRetries) {
      ExhaustedStays(s, s', maxRetries);
    }
    RunBelow(s, p, result, values, maxRetries);
    LimitedAfter(s, s', p, maxRetries);
  }

  lemma RunBelow(s: System, p: nat, result: Result, values: Data, maxRetries: Limits)
    requires IsExecutor(s, p) && PhaseOf(s, p).Working? && !result.ResultFatalError?
    requires ProcessBelow(s, s.processes[p], maxRetries)
    ensures var s' := DoRun(s, p, result, values, maxRetries); ProcessBelow(s', s'.processes[p], maxRetries)
  {
    var s' := DoRun(s, p, result, values, maxRetries);
    var a := s.processes[p].role.activity;
    var cur := PhaseOf(s, p).cur;
    forall b ensures Count(PhaseOf(s', p).local.retries, b) <= Count(s'.retryErrors, b) {
      assert Count(cur.retries, b) <= Count(s.retryErrors, b);
    }
    assert Count(PhaseOf(s', p).local.retries, a) <= Count(s'.retryErrors, a);
  }

  /** A read copies the counts of the record. */
  lemma LimitedRead(s: System, p: nat, a: Action, maxRetries: Limits)
    requires Limited(s, maxRetries) && Enabled(s, p, a) && (a.Read? || a.Reread? || a.ReadExisting?)
    ensures Limited(Do(s, p, a, maxRetries), maxRetries)
  {
    hide Below, Exhausted, DoUpdate, DoRun, Limited;
    OnlyMoves(s, p, a, maxRetries);
    RecordBelow(s, maxRetries);
    BelowAt(s, p, maxRetries);
    LimitedMove(s, Do(s, p, a, maxRetries), p, maxRetries);
  }

  lemma RecordBelow(s: System, maxRetries: Limits)
    requires Limited(s, maxRetries)
    ensures s.record.Some? ==> Below(s.record.value.retries, s)
  {
  }

  lemma NoneBelow(s: System)
    ensures Below(map[], s)
  {
  }

  lemma LimitedStore(s: System, p: nat, outcome: Outcome, maxRetries: Limits)
    requires Safe(s) && Limited(s, maxRetries) && IsStarter(s, p) && PhaseOf(s, p).Storing?
    ensures Limited(DoStore(s, p, outcome), maxRetries)
  {
    var s' := DoStore(s, p, outcome);
    assert ProcessOk(s, s.processes[p]);
    OnlyMoves(s, p, Store(outcome), maxRetries);
    SameErrors(s, s', maxRetries);
    hide Safe, RecordOk, Exhausted;
    LimitedAfter(s, s', p, maxRetries);
  }

  lemma EnqueueFrame(s: System, id: Id, duplicate: bool)
    ensures var s1 := Enqueue(s, id, duplicate);
      s1.record == s.record && s1.retryErrors == s.retryErrors && s1.processes == s.processes
  {
  }

  /** What follows a publish holds the same copy, or none. */
  lemma PublishBelow(s: System, p: nat, ok: bool, stored: bool, duplicate: bool, maxRetries: Limits)
    requires At(s, p) && PhaseOf(s, p).Publishing? && ProcessBelow(s, s.processes[p], maxRetries)
    ensures
      var s' := DoPublish(s, p, ok, stored, duplicate);
      && s'.record == s.record && s'.retryErrors == s.retryErrors
      && (At(s', p) ==> ProcessBelow(s, s'.processes[p], maxRetries))
  {
    hide Below, Exhausted, Enqueue;
    NoneBelow(s);
    var Publishing(cur, _, step, next) := PhaseOf(s, p);
    if step < |cur.steps| && next < |cur.steps[step]| {
      EnqueueFrame(s, cur.steps[step][next].id, duplicate);
    }
  }

  lemma LimitedPublish(s: System, p: nat, ok: bool, stored: bool, duplicate: bool, maxRetries: Limits)
    requires Limited(s, maxRetries) && At(s, p) && PhaseOf(s, p).Publishing?
    ensures Limited(DoPublish(s, p, ok, stored, duplicate), maxRetries)
  {
    hide Limited, Moved, ProcessBelow, DoPublish;
    PublishMoves(s, p, ok, stored, duplicate);
    BelowAt(s, p, maxRetries);
    PublishBelow(s, p, ok, stored, duplicate, maxRetries);
    LimitedMove(s, DoPublish(s, p, ok, stored, duplicate), p, maxRetries);
  }

  lemma LimitedOther(s: System, p: nat, a: Action, maxRetries: Limits)
    requires Limited(s, maxRetries) && Enabled(s, p, a) && Retriable(s, p, a)
    requires !a.Update? && !a.Run? && !a.Read? && !a.Reread? && !a.ReadExisting? && !a.Store? && !a.Publish?
    ensures Limited(Do(s, p, a, maxRetries), maxRetries)
  {
    hide Below, Exhausted, DoUpdate, DoRun, DoStore, DoPublish, DoRead, Limited;
    OnlyMoves(s, p, a, maxRetries);
    if At(s, p) {
      BelowAt(s, p, maxRetries);
    }
    hide Moved;
    LimitedMove(s, Do(s, p, a, maxRetries), p, maxRetries);
  }

  lemma LimitedEvent(s: System, p: nat, a: Action, maxRetries: Limits)
    requires Safe(s) && Limited(s, maxRetries) && Enabled(s, p, a) && Retriable(s, p, a)
    ensures Limited(Do(s, p, a, maxRetries), maxRetries)
  {
    hide Safe, Limited, DoUpdate, DoRun, DoStore, DoRead, DoReread, DoReadExisting, DoPublish;
    if a.Update? {
      LimitedUpdate(s, p, a.outcome, maxRetries);
    } else if a.Run? {
      LimitedRun(s, p, a.result, a.values, maxRetries);
    } else if a.Read? || a.Reread? || a.ReadExisting? {
      LimitedRead(s, p, a, maxRetries);
    } else if a.Store? {
      LimitedStore(s, p, a.outcome, maxRetries);
    } else if a.Publish? {
      LimitedPublish(s, p, a.ok, a.stored, a.duplicate, maxRetries);
    } else {
      LimitedOther(s, p, a, maxRetries);
    }
  }
}
