/** The retry bound, when one handler at a time merges its copy into the record and retriable errors are persisted. */
module EngineRetry {
  import opened Options
  import opened Orchestrations
  import opened Engine
  import opened EngineSafety
  import opened EngineTerminal
  import opened EngineProgress
  import opened EngineCounts

  predicate Persists(write: Write) { write.Retry? || write.Fatal? }

  predicate Pending(phase: Phase) {
    (phase.Writing? || phase.Rereading?) && Persists(phase.write)
  }

  /** The hypothesis: a message is not delivered while another handler may still merge its copy into the record, nor for
      the last time; and a handler that is to persist a retriable or fatal error succeeds in doing so. */
  ghost predicate Solo(s: System, p: nat, a: Action) {
    && (a.Deliver? ==> !a.final && forall q :: !IsMerging(s, q))
    && (At(s, p) && Pending(PhaseOf(s, p)) ==>
          match a
          case Crash => false
          case Panic => false
          case Reread(ok) => ok
          case Update(outcome) =>
            outcome.Reply? && PhaseOf(s, p).Writing? &&
            (PhaseOf(s, p).rev == s.rev || PhaseOf(s, p).conflicts + 1 < MAX_CONFLICTS)
          case _ => true)
  }

  ghost predicate SameCounts(m: map<Id, nat>, n: map<Id, nat>) {
    forall a :: Count(m, a) == Count(n, a)
  }

  /** The copy of the merging handler has all counts, and writing it leaves none behind. */
  ghost predicate PhaseCounts(s: System, phase: Phase) {
    match phase
    case Working(cur, _) => SameCounts(cur.retries, s.retryErrors) && s.record.Some?
      && s.record.value.retries.Keys <= cur.retries.Keys
    case Writing(write, local, cur, rev, _) =>
      Carries(write) ==>
        && SameCounts(local.retries, s.retryErrors) && s.record.Some?
        && s.record.value.retries.Keys <= local.retries.Keys && cur.retries.Keys <= local.retries.Keys
    case Rereading(write, local, _) =>
      Carries(write) ==>
        && SameCounts(local.retries, s.retryErrors) && s.record.Some?
        && s.record.value.retries.Keys <= local.retries.Keys
    case _ => true
  }

  ghost predicate SomePending(s: System) {
    exists p :: At(s, p) && Pending(PhaseOf(s, p))
  }

  ghost predicate SomeFatal(s: System) {
    exists p :: At(s, p) && Pending(PhaseOf(s, p)) && PhaseOf(s, p).write.Fatal?
  }

  ghost predicate Counted(s: System, maxRetries: Limits) {
    && (forall p, q :: IsMerging(s, p) && IsMerging(s, q) ==> p == q)
    && (forall p :: IsMerging(s, p) ==> !s.processes[p].role.final && PhaseCounts(s, PhaseOf(s, p)))
    && (s.record.None? ==> s.retryErrors == map[])
    && (s.record.Some? && !SomePending(s) ==> SameCounts(s.record.value.retries, s.retryErrors))
    && (Exhausted(s, maxRetries) && s.record.Some? && !s.record.value.state.IsTerminal() ==> SomeFatal(s))
  }

  // ----- The handler that merges -----

  /** What a process in phase `next` has to satisfy when no other one merges. */
  ghost predicate Alone(s: System, next: Option<Phase>, maxRetries: Limits) {
    && (next.Some? ==> PhaseCounts(s, next.value))
    && (s.record.Some? && !(next.Some? && Pending(next.value)) ==> SameCounts(s.record.value.retries, s.retryErrors))
    && (Exhausted(s, maxRetries) && Live(s) ==> next.Some? && Pending(next.value) && next.value.write.Fatal?)
  }

  lemma PendingMerges(s: System, p: nat)
    requires Safe(s) && At(s, p) && Pending(PhaseOf(s, p))
    ensures IsMerging(s, p)
  {
    assert ProcessOk(s, s.processes[p]);
  }

  lemma OnlyPending(s: System, p: nat, maxRetries: Limits)
    requires Safe(s) && Counted(s, maxRetries) && IsMerging(s, p)
    ensures forall q :: At(s, q) && Pending(PhaseOf(s, q)) ==> q == p
  {
    forall q | At(s, q) && Pending(PhaseOf(s, q)) ensures q == p {
      PendingMerges(s, q);
      hide Safe, PhaseCounts;
    }
  }

  /** In a counted state the merging handler satisfies this. */
  lemma AloneBefore(s: System, p: nat, maxRetries: Limits)
    requires Safe(s) && Counted(s, maxRetries) && IsMerging(s, p)
    ensures Alone(s, Some(PhaseOf(s, p)), maxRetries)
  {
    OnlyPending(s, p, maxRetries);
    hide Safe, PhaseCounts, Exhausted;
  }

  lemma AloneAfter(s: System, s': System, p: nat, maxRetries: Limits)
    requires Counted(s, maxRetries) && IsMerging(s, p) && Moved(s, s', p) && s'.record.Some?
    requires Alone(s', if At(s', p) then Some(PhaseOf(s', p)) else None, maxRetries)
    ensures Counted(s', maxRetries)
  {
    OthersStay(s, s', p);
    hide Moved, PhaseCounts, SameCounts, Exhausted;
    forall q | IsMerging(s', q) ensures q == p {
      assert q != p ==> IsMerging(s, q);
    }
    if At(s', p) && Pending(PhaseOf(s', p)) {
      assert SomePending(s');
    }
  }

  /** Merging leaves the handler's own counts in the record. */
  lemma MergeCounts(s: System, write: Write, a: Id, local: Local, cur: Orchestration)
    requires Carries(write) && SameCounts(local.retries, s.retryErrors) && cur.retries.Keys <= local.retries.Keys
    ensures SameCounts(Apply(write, a, local, cur).retries, s.retryErrors)
  {
    assert Apply(write, a, local, cur).retries == cur.retries + local.retries == local.retries;
  }

  /** Nothing that follows a merge merges again. */
  lemma NextCounts(s: System, write: Write, a: Id, o: Orchestration, rev: nat)
    ensures var next := AfterWrite(write, a, o, rev); next.Some? ==> PhaseCounts(s, next.value) && !Pending(next.value)
    ensures var next := AfterFailedWrite(write); next.Some? ==> PhaseCounts(s, next.value) && !Pending(next.value)
  {
    hide CanProceed, StepIndex, SameCounts;
  }

  lemma SameExhausted(s: System, s': System, maxRetries: Limits)
    requires s'.retryErrors == s.retryErrors
    ensures Exhausted(s', maxRetries) == Exhausted(s, maxRetries)
  {
  }

  lemma FinishesCurrent(s: System, p: nat)
    requires Safe(s) && At(s, p) && PhaseOf(s, p).Writing? && PhaseOf(s, p).rev == s.rev
    ensures
      var Writing(write, local, cur, rev, _) := PhaseOf(s, p);
      && s.record.Some? && cur.state == s.record.value.state
      && (!Carries(write) ==> cur == s.record.value)
  {
    assert ProcessOk(s, s.processes[p]);
  }

  /** A merge that keeps the orchestration live is none of a fatal error, so no activity has used up its retries. */
  lemma AloneCommit(s: System, s1: System, p: nat, next: Option<Phase>, maxRetries: Limits)
    requires Safe(s) && IsMerging(s, p) && PhaseOf(s, p).Writing? && PhaseOf(s, p).rev == s.rev
    requires Alone(s, Some(PhaseOf(s, p)), maxRetries)
    requires
      var Writing(write, local, cur, rev, _) := PhaseOf(s, p);
      var a := s.processes[p].role.activity;
      var o := Apply(write, a, local, cur);
      && s1.record == Some(o) && s1.retryErrors == s.retryErrors
      && (next == AfterWrite(write, a, o, s.rev + 1) || (next == AfterFailedWrite(write) && !Persists(write)))
    ensures Alone(s1, next, maxRetries)
  {
    hide Safe, SameCounts, Exhausted, AfterWrite, AfterFailedWrite;
    var Writing(write, local, cur, rev, _) := PhaseOf(s, p);
    var a := s.processes[p].role.activity;
    FinishesCurrent(s, p);
    MergeCounts(s, write, a, local, cur);
    NextCounts(s1, write, a, Apply(write, a, local, cur), s.rev + 1);
    SameExhausted(s, s1, maxRetries);
  }

  lemma AloneSame(s: System, s': System, next: Option<Phase>, maxRetries: Limits)
    requires Alone(s, next, maxRetries) && s'.record == s.record && s'.retryErrors == s.retryErrors
    ensures Alone(s', next, maxRetries)
  {
  }

  lemma CountedUpdate(s: System, p: nat, outcome: Outcome, maxRetries: Limits)
    requires Safe(s) && Counted(s, maxRetries) && IsMerging(s, p) && PhaseOf(s, p).Writing?
    requires Solo(s, p, Update(outcome))
    ensures Counted(DoUpdate(s, p, outcome), maxRetries)
  {
    hide Safe, Counted, Apply, AfterWrite, Commit, Alone;
    var s' := DoUpdate(s, p, outcome);
    var Writing(write, local, cur, rev, conflicts) := PhaseOf(s, p);
    var a := s.processes[p].role.activity;
    AloneBefore(s, p, maxRetries);
    UpdateMoves(s, p, outcome);
    SafeUpdate(s, p, outcome);
    var next := if At(s', p) then Some(PhaseOf(s', p)) else None;
    if Lands(s, rev, outcome) {
      var s1 := Commit(s, write, a, Apply(write, a, local, cur));
      CommitFrame(s, write, a, Apply(write, a, local, cur));
      AloneCommit(s, s1, p, next, maxRetries);
      AloneSame(s1, s', next, maxRetries);
    } else {
      AloneConflict(s, p, outcome, maxRetries);
      AloneSame(s, s', next, maxRetries);
    }
    RecordStays(s, s', p);
    AloneAfter(s, s', p, maxRetries);
  }

  lemma RecordStays(s: System, s': System, p: nat)
    requires Safe(s) && Grows(s, s') && IsExecutor(s, p)
    ensures s.record.Some? && s'.record.Some?
  {
    assert ProcessOk(s, s.processes[p]);
  }

  lemma AloneConflict(s: System, p: nat, outcome: Outcome, maxRetries: Limits)
    requires IsMerging(s, p) && PhaseOf(s, p).Writing? && !Lands(s, PhaseOf(s, p).rev, outcome)
    requires Alone(s, Some(PhaseOf(s, p)), maxRetries) && Solo(s, p, Update(outcome))
    ensures
      var Writing(write, local, _, _, conflicts) := PhaseOf(s, p);
      Alone(s, AfterConflict(write, local, conflicts, outcome.Reply?), maxRetries)
  {
    hide SameCounts, Exhausted;
  }

  lemma CountedRun(s: System, p: nat, result: Result, values: Data, maxRetries: Limits)
    requires Safe(s) && Counted(s, maxRetries) && IsExecutor(s, p) && PhaseOf(s, p).Working?
    ensures Counted(DoRun(s, p, result, values, maxRetries), maxRetries)
  {
    hide Safe, Counted;
    var s' := DoRun(s, p, result, values, maxRetries);
    AloneBefore(s, p, maxRetries);
    SafeRun(s, p, result, values, maxRetries);
    RecordStays(s, s', p);
    if Exhausted(s', maxRetries) && Live(s') {
      var b :| Count(s'.retryErrors, b) >= maxRetries(b);
      var a := s.processes[p].role.activity;
      assert !Exhausted(s, maxRetries);
      assert Count(s.retryErrors, b) < maxRetries(b) && Count(s.retryErrors, a) < maxRetries(a);
      assert b == a && result.ResultRetryError?;
      assert Count(PhaseOf(s, p).cur.retries, a) == Count(s.retryErrors, a);
    }
    RunCounts(s, s', p, result, maxRetries);
    AloneAfter(s, s', p, maxRetries);
  }

  lemma RunCounts(s: System, s': System, p: nat, result: Result, maxRetries: Limits)
    requires IsExecutor(s, p) && PhaseOf(s, p).Working? && Alone(s, Some(PhaseOf(s, p)), maxRetries)
    requires exists values :: s' == DoRun(s, p, result, values, maxRetries)
    requires Exhausted(s', maxRetries) && Live(s') ==> PhaseOf(s', p).Writing? && PhaseOf(s', p).write.Fatal?
    ensures Alone(s', Some(PhaseOf(s', p)), maxRetries)
  {
    var a := s.processes[p].role.activity;
    var cur := PhaseOf(s, p).cur;
    assert Count(cur.retries, a) == Count(s.retryErrors, a);
    forall b ensures Count(PhaseOf(s', p).local.retries, b) == Count(s'.retryErrors, b) {
      assert Count(cur.retries, b) == Count(s.retryErrors, b);
    }
  }

  /** The merging handler reads, reads again, crashes, or panics. */
  lemma CountedOther(s: System, p: nat, a: Action, maxRetries: Limits)
    requires Safe(s) && Counted(s, maxRetries) && Enabled(s, p, a) && Solo(s, p, a) && IsMerging(s, p)
    requires a.Read? || a.Reread? || a.Crash? || a.Panic?
    ensures Counted(Do(s, p, a, maxRetries), maxRetries)
  {
    hide Safe, Counted, SameCounts, Exhausted, Moved;
    var s' := Do(s, p, a, maxRetries);
    AloneBefore(s, p, maxRetries);
    MergingIsNotFinal(s, p, maxRetries);
    OnlyMoves(s, p, a, maxRetries);
    SafeEvent(s, p, a, maxRetries);
    RecordStays(s, s', p);
    SameExhausted(s, s', maxRetries);
    AloneAfter(s, s', p, maxRetries);
  }

  lemma MergingIsNotFinal(s: System, p: nat, maxRetries: Limits)
    requires Counted(s, maxRetries) && IsMerging(s, p)
    ensures !s.processes[p].role.final
  {
  }

  // ----- Everything else -----

  /** A process that does not merge changes neither the counts nor a terminal state. */
  lemma QuietKeepsRetries(s: System, p: nat, a: Action, maxRetries: Limits)
    requires Safe(s) && Enabled(s, p, a) && At(s, p) && !IsMerging(s, p) && s.record.Some?
    ensures
      var s' := Do(s, p, a, maxRetries);
      && s'.record.Some? && s'.record.value.retries == s.record.value.retries && s'.retryErrors == s.retryErrors
      && (Live(s') ==> Live(s)) && !IsMerging(s', p)
  {
    hide Safe, DoUpdate, DoRun;
    if IsStarter(s, p) {
      StarterNeverMerges(s, p);
    }
    if a.Update? {
      QuietUpdate(s, p, a.outcome);
    } else {
      OnlyUpdatesWrite(s, p, a, maxRetries);
    }
  }

  lemma StarterNeverMerges(s: System, p: nat)
    requires Safe(s) && IsStarter(s, p)
    ensures !Merging(PhaseOf(s, p))
  {
    assert ProcessOk(s, s.processes[p]);
  }

  lemma QuietUpdate(s: System, p: nat, outcome: Outcome)
    requires Safe(s) && At(s, p) && !IsMerging(s, p) && PhaseOf(s, p).Writing? && s.record.Some?
    ensures
      var s' := DoUpdate(s, p, outcome);
      && s'.record.Some? && s'.record.value.retries == s.record.value.retries && s'.retryErrors == s.retryErrors
      && (Live(s') ==> Live(s)) && !IsMerging(s', p)
  {
    hide Safe, AfterWrite, Apply, Commit;
    MayWriteAt(s, p);
    var Writing(write, local, cur, rev, _) := PhaseOf(s, p);
    if IsStarter(s, p) {
      StarterNeverMerges(s, p);
    }
    if Lands(s, rev, outcome) {
      var a := ActivityOf(s.processes[p].role);
      var o := Apply(write, a, local, cur);
      FinishesCurrent(s, p);
      QuietApply(write, a, local, cur);
      CommitFrame(s, write, a, o);
      NoFailureAfter(write, a, o, s.rev + 1);
    }
  }

  lemma QuietApply(write: Write, a: Id, local: Local, cur: Orchestration)
    requires !Carries(write)
    ensures var o := Apply(write, a, local, cur);
      o.retries == cur.retries && (!o.state.IsTerminal() ==> !cur.state.IsTerminal())
  {
  }

  /** A step that keeps retry counts and error counts does not affect the merging handler. */
  lemma CountedFrame(s: System, s': System, p: nat, maxRetries: Limits)
    requires Safe(s) && Counted(s, maxRetries) && Moved(s, s', p) && !IsMerging(s, p)
    requires IsMerging(s', p) ==> PhaseOf(s', p).Reading? && !s'.processes[p].role.final && forall q :: !IsMerging(s, q)
    requires s.record.Some? && s'.record.Some? && s'.record.value.retries == s.record.value.retries
    requires s'.retryErrors == s.retryErrors && (Live(s') ==> Live(s))
    ensures Counted(s', maxRetries)
  {
    OthersStay(s, s', p);
    PendingStays(s, s', p);
    SameExhausted(s, s', maxRetries);
    hide Safe, Moved, SomePending, SomeFatal, Exhausted;
    forall q, r | IsMerging(s', q) && IsMerging(s', r) ensures q == r {
      assert q != p ==> IsMerging(s, q);
      assert r != p ==> IsMerging(s, r);
    }
    forall q | IsMerging(s', q) ensures !s'.processes[q].role.final && PhaseCounts(s', PhaseOf(s', q)) {
      assert q != p ==> IsMerging(s, q);
    }
  }

  lemma PendingStays(s: System, s': System, p: nat)
    requires Safe(s) && Moved(s, s', p) && !IsMerging(s, p)
    ensures SomePending(s) ==> SomePending(s')
    ensures SomeFatal(s) ==> SomeFatal(s')
  {
    OthersStay(s, s', p);
    forall q | At(s, q) && Pending(PhaseOf(s, q)) ensures q != p && At(s', q) && PhaseOf(s', q) == PhaseOf(s, q) {
      PendingMerges(s, q);
    }
  }

  lemma CountedStart(s: System, s': System, p: nat, maxRetries: Limits)
    requires Safe(s) && Counted(s, maxRetries) && Safe(s') && s.record.None? && Positive(maxRetries)
    requires s'.retryErrors == s.retryErrors && (forall q :: !IsExecutor(s', q))
    requires s'.record.Some? ==> s'.record.value.retries == map[]
    ensures Counted(s', maxRetries)
  {
    assert forall a :: Count(s'.retryErrors, a) == 0;
  }

  lemma CountedMerging(s: System, p: nat, a: Action, maxRetries: Limits)
    requires Safe(s) && Counted(s, maxRetries) && Enabled(s, p, a) && Solo(s, p, a) && IsMerging(s, p)
    ensures Counted(Do(s, p, a, maxRetries), maxRetries)
  {
    hide Safe, Counted, Solo, DoUpdate, DoRun;
    if a.Update? {
      CountedUpdate(s, p, a.outcome, maxRetries);
    } else if a.Run? {
      CountedRun(s, p, a.result, a.values, maxRetries);
    } else {
      CountedOther(s, p, a, maxRetries);
    }
  }

  lemma CountedEvent(s: System, p: nat, a: Action, maxRetries: Limits)
    requires Safe(s) && Counted(s, maxRetries) && Enabled(s, p, a) && Solo(s, p, a) && Positive(maxRetries)
    ensures Counted(Do(s, p, a, maxRetries), maxRetries)
  {
    hide Safe, Counted, DoUpdate, DoRun, DoPublish, DoStore, DoRead, Moved;
    var s' := Do(s, p, a, maxRetries);
    SafeEvent(s, p, a, maxRetries);
    OnlyMoves(s, p, a, maxRetries);
    if IsMerging(s, p) {
      CountedMerging(s, p, a, maxRetries);
    } else if s.record.Some? {
      if At(s, p) {
        QuietKeepsRetries(s, p, a, maxRetries);
      }
      CountedFrame(s, s', p, maxRetries);
    } else {
      NoRecord(s, p, a, maxRetries);
      CountedStart(s, s', p, maxRetries);
    }
  }

  lemma NoRecord(s: System, p: nat, a: Action, maxRetries: Limits)
    requires Safe(s) && Enabled(s, p, a) && s.record.None?
    ensures
      var s' := Do(s, p, a, maxRetries);
      && s'.retryErrors == s.retryErrors && (forall q :: !IsExecutor(s', q))
      && (s'.record.Some? ==> s'.record.value.retries == map[])
  {
    forall q | At(s, q) ensures IsStarter(s, q) {
      assert ProcessOk(s, s.processes[q]);
    }
    if At(s, p) {
      assert ProcessOk(s, s.processes[p]);
    }
  }

  // ----- A completed orchestration has no activity that used up its retries -----

  ghost predicate Bounded(s: System, maxRetries: Limits) {
    s.record.Some? && s.record.value.state.Completed? ==> !Exhausted(s, maxRetries)
  }

  /** The state that an update leaves behind. */
  lemma StateAfterUpdate(s: System, p: nat, outcome: Outcome)
    requires Safe(s) && At(s, p) && PhaseOf(s, p).Writing?
    ensures
      var s' := DoUpdate(s, p, outcome);
      && s.record.Some? && s'.record.Some?
      && (s'.record.value.state == s.record.value.state
          || (Writes(PhaseOf(s, p), Fatal) && s'.record.value.state.Errored?)
          || (Writes(PhaseOf(s, p), Finish) && s'.record.value.state.Completed?)
          || s'.record.value.state.Running?)
  {
    hide Safe, AfterWrite;
    MayWriteAt(s, p);
  }

  /** Completed is entered only by a handler that finishes the last step. */
  lemma CompletedAppears(s: System, p: nat, a: Action, maxRetries: Limits)
    requires Safe(s) && Enabled(s, p, a)
    requires var s' := Do(s, p, a, maxRetries); s'.record.Some? && s'.record.value.state.Completed?
    requires !(s.record.Some? && s.record.value.state.Completed?)
    ensures At(s, p) && Writes(PhaseOf(s, p), Finish) && s.record.Some? && a.Update?
  {
    hide Safe, DoUpdate, DoRun, DoPublish, DoRead, Writes;
    if a.Update? {
      StateAfterUpdate(s, p, a.outcome);
      MayWriteAt(s, p);
    } else if s.record.Some? {
      OnlyUpdatesWrite(s, p, a, maxRetries);
    } else if At(s, p) {
      FreshContent(s, p);
    }
    WritesFinish(s, p);
  }

  lemma WritesFinish(s: System, p: nat)
    ensures At(s, p) && PhaseOf(s, p).Writing? && PhaseOf(s, p).write.Finish? ==> Writes(PhaseOf(s, p), Finish)
  {
  }

  lemma FreshContent(s: System, p: nat)
    requires Safe(s) && At(s, p) && s.record.None?
    ensures PhaseOf(s, p).Storing? ==> IsStarter(s, p) && Fresh(s.processes[p].role.content)
    ensures !PhaseOf(s, p).Writing? && !PhaseOf(s, p).Publishing? && !IsExecutor(s, p)
  {
    assert ProcessOk(s, s.processes[p]);
  }

  lemma ErrorsChangeInRuns(s: System, p: nat, a: Action, maxRetries: Limits)
    requires Enabled(s, p, a) && !a.Run?
    ensures Do(s, p, a, maxRetries).retryErrors == s.retryErrors
  {
    hide AfterRead, AfterRun, AfterWrite, Apply, Commit;
    if a.Update? {
      var Writing(write, local, cur, _, _) := PhaseOf(s, p);
      var activity := ActivityOf(s.processes[p].role);
      CommitFrame(s, write, activity, Apply(write, activity, local, cur));
    }
  }

  /** Once everything has completed, no activity runs. */
  lemma NothingRuns(s: System, p: nat)
    requires Safe(s) && Exclusive(s) && IsExecutor(s, p) && PhaseOf(s, p).Working?
    ensures s.record.Some? && !s.record.value.state.Completed?
  {
    assert ProcessOk(s, s.processes[p]) && HandlerOk(s, s.processes[p]);
    if s.record.value.state.Completed? {
      AllPublishedDone(s, s.processes[p].role.activity);
      assert false;
    }
  }

  /** Whoever finishes the last step found no activity that had used up its retries. */
  lemma NotExhaustedAtFinish(s: System, p: nat, maxRetries: Limits)
    requires Safe(s) && Counted(s, maxRetries) && Exclusive(s) && s.record.Some? && !s.record.value.state.Completed?
    requires At(s, p) && Writes(PhaseOf(s, p), Finish)
    ensures !Exhausted(s, maxRetries)
  {
    if Exhausted(s, maxRetries) && SomeFatal(s) {
      var q :| At(s, q) && Pending(PhaseOf(s, q)) && PhaseOf(s, q).write.Fatal?;
      PendingMerges(s, q);
      NoFailureOnceDone(s, q, p);
      assert false;
    }
    hide Safe, Exhausted;
  }

  lemma BoundedEvent(s: System, p: nat, a: Action, maxRetries: Limits)
    requires Safe(s) && Counted(s, maxRetries) && Exclusive(s) && Bounded(s, maxRetries) && Enabled(s, p, a)
    ensures Bounded(Do(s, p, a, maxRetries), maxRetries)
  {
    hide Safe, Counted, Exclusive, DoUpdate, DoRun, DoPublish, DoStore, DoRead, DoReread, DoReadExisting, Writes, Exhausted;
    var s' := Do(s, p, a, maxRetries);
    if s'.record.Some? && s'.record.value.state.Completed? {
      if s.record.Some? && s.record.value.state.Completed? {
        if a.Run? {
          NothingRuns(s, p);
          assert false;
        }
      } else {
        CompletedAppears(s, p, a, maxRetries);
        NotExhaustedAtFinish(s, p, maxRetries);
      }
      ErrorsChangeInRuns(s, p, a, maxRetries);
      SameExhausted(s, s', maxRetries);
    }
  }
}
