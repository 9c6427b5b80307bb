/** The hand-over from step to step, when an activity has one handler at a time: no handler has to be excused for
    waiting, since an activity that waits has not completed and so has not closed its step. */
module EngineHandOver {
  import opened Options
  import opened Orchestrations
  import opened Engine
  import opened EngineSafety
  import opened EngineProgress
  import opened EngineTerminal
  import opened EngineRetry

  /** The hypothesis: a message is not delivered while its activity is being handled, nor for the last time. */
  ghost predicate OneHandler(s: System, p: nat, a: Action) {
    a.Deliver? ==>
      && !a.final
      && forall q :: IsExecutor(s, q) && a.msg in s.messages ==> s.processes[q].role.activity != s.messages[a.msg]
  }

  lemma OneHandlerIsOneWriter(s: System, p: nat, a: Action)
    requires OneHandler(s, p, a)
    ensures OneWriter(s, p, a)
  {
  }

  /** The handler has found its activity not completed, and has not completed it. */
  predicate Undone(phase: Phase) {
    phase.Working? || Writes(phase, Wait) || phase == Responding(WaitPersisted) || phase == Acking(WaitPersisted)
  }

  /** The activity that closed step `i` still has a message, or the next step is wholly published. */
  ghost predicate Closed(s: System, i: int) {
    i in s.closers && (NextPublished(s, i) || Outstanding(s, s.closers[i]))
  }

  ghost predicate HandlerKeeps(s: System, process: Process) {
    process.role.Executor? ==>
      && process.role.msg in s.messages
      && (Undone(process.phase) ==> s.record.Some? && process.role.activity !in s.record.value.completed)
  }

  ghost predicate Kept(s: System) {
    && (forall p, q :: IsExecutor(s, p) && IsExecutor(s, q) && p != q ==>
          s.processes[p].role.activity != s.processes[q].role.activity)
    && (forall p :: At(s, p) ==> HandlerKeeps(s, s.processes[p]))
    && (Live(s) ==> forall i :: StepFull(s, i) ==> Closed(s, i))
  }

  // ----- Events that acknowledge nothing -----

  /** Steps become full only by the completion of process `p`. */
  ghost predicate FilledBy(s: System, s': System, p: nat) {
    && (forall i :: StepFull(s', i) && !StepFull(s, i) ==>
          IsExecutor(s, p) && i in s'.closers && s'.closers[i] == s.processes[p].role.activity)
    && (forall i :: i in s.closers ==> i in s'.closers && s'.closers[i] == s.closers[i])
  }

  lemma SameProgress(s: System, s1: System, s': System, p: nat)
    requires Extends(s, s1) && FilledBy(s, s1, p) && s' == s1.(processes := s'.processes)
    ensures Extends(s, s') && FilledBy(s, s', p)
  {
    SameFull(s1, s');
    hide StepFull;
  }

  lemma FilledByUpdate(s: System, p: nat, outcome: Outcome)
    requires Safe(s) && Wakes(s) && s.record.Some? && At(s, p) && PhaseOf(s, p).Writing?
    ensures Extends(s, DoUpdate(s, p, outcome)) && FilledBy(s, DoUpdate(s, p, outcome), p)
  {
    hide Safe, Wakes, Apply, AfterWrite, Commit, ClosersOk, StepFull, Extends, FilledBy;
    var Writing(write, local, cur, rev, _) := PhaseOf(s, p);
    var role := s.processes[p].role;
    if Lands(s, rev, outcome) {
      var s1 := Commit(s, write, ActivityOf(role), Apply(write, ActivityOf(role), local, cur));
      FilledByCommit(s, p);
      CommitIsFrame(s, write, ActivityOf(role), Apply(write, ActivityOf(role), local, cur));
      SameProgress(s, s1, DoUpdate(s, p, outcome), p);
    } else {
      NothingFilled(s, s, p);
      SameProgress(s, s, DoUpdate(s, p, outcome), p);
    }
  }

  lemma CommitIsFrame(s: System, write: Write, a: Id, o: Orchestration)
    ensures Commit(s, write, a, o).processes == s.processes
  {
  }

  lemma FilledByCommit(s: System, p: nat)
    requires Safe(s) && Wakes(s) && s.record.Some? && At(s, p) && PhaseOf(s, p).Writing? && PhaseOf(s, p).rev == s.rev
    ensures
      var Writing(write, local, cur, _, _) := PhaseOf(s, p);
      var a := ActivityOf(s.processes[p].role);
      var s1 := Commit(s, write, a, Apply(write, a, local, cur));
      Extends(s, s1) && FilledBy(s, s1, p)
  {
    var Writing(write, local, cur, _, _) := PhaseOf(s, p);
    var role := s.processes[p].role;
    SafeRecord(s);
    WakesClosers(s);
    MayWriteAt(s, p);
    hide Safe, Wakes, RecordOk, OwnSnapshot;
    ExtendsCommit(s, role, write, local, cur);
    OnlyCompletionFills(s, write, ActivityOf(role), Apply(write, ActivityOf(role), local, cur));
  }

  lemma OnlyCompletionFills(s: System, write: Write, a: Id, o: Orchestration)
    requires s.record.Some? && ClosersOk(s)
    requires !write.Complete? ==> o.steps == s.record.value.steps && o.completed == s.record.value.completed
    ensures !write.Complete? ==> forall i :: StepFull(Commit(s, write, a, o), i) <==> StepFull(s, i)
  {
    if !write.Complete? {
      SameClosers(s, write, a, o);
    }
  }

  lemma NothingFilled(s: System, s': System, p: nat)
    requires s'.record == s.record && s'.closers == s.closers && s'.messages == s.messages && s'.rev == s.rev
    requires s'.published == s.published && s'.nextMsg == s.nextMsg && s'.waited == s.waited
    ensures Extends(s, s') && FilledBy(s, s', p)
  {
    SameFull(s, s');
    hide StepFull;
  }

  lemma FilledByPublish(s: System, p: nat, ok: bool, stored: bool, duplicate: bool)
    requires Safe(s) && Wakes(s) && At(s, p) && PhaseOf(s, p).Publishing?
    ensures var s' := DoPublish(s, p, ok, stored, duplicate); Extends(s, s') && FilledBy(s, s', p)
  {
    hide Safe, Wakes, StepFull, Enqueue, Extends, FilledBy;
    PublishingAt(s, p);
    var Publishing(cur, _, step, next) := PhaseOf(s, p);
    var s' := DoPublish(s, p, ok, stored, duplicate);
    if next < |cur.steps[step]| && (ok || stored) {
      var s1 := Enqueue(s, cur.steps[step][next].id, duplicate);
      WakesClosers(s);
      EnqueueExtends(s, step, next, duplicate);
      EnqueueFills(s, cur.steps[step][next].id, duplicate, p);
      SameProgress(s, s1, s', p);
    } else {
      NothingFilled(s, s, p);
      SameProgress(s, s, s', p);
    }
  }

  lemma EnqueueFills(s: System, id: Id, duplicate: bool, p: nat)
    ensures FilledBy(s, Enqueue(s, id, duplicate), p) && Enqueue(s, id, duplicate).processes == s.processes
  {
    SameFull(s, Enqueue(s, id, duplicate));
    hide StepFull;
  }

  lemma FilledByRead(s: System, p: nat, ok: bool)
    requires Exclusive(s) && Safe(s) && IsExecutor(s, p) && PhaseOf(s, p).Reading? && s.record.Some?
    ensures var s' := DoRead(s, p, ok); Extends(s, s') && FilledBy(s, s', p)
  {
    MayFailAt(s, p);
    hide Safe, Exclusive, Extends, FilledBy;
    NothingFilled(s, DoRead(s, p, ok), p);
  }

  lemma FilledByOther(s: System, p: nat, a: Action, maxRetries: Limits)
    requires Enabled(s, p, a) && !a.Panic? && s.record.Some?
    requires !a.Update? && !a.Publish? && !a.Read? && (a.Ack? ==> !a.ok)
    ensures var s' := Do(s, p, a, maxRetries); Extends(s, s') && FilledBy(s, s', p)
  {
    hide AfterRun, Extends, FilledBy, DoUpdate, DoPublish, DoRead;
    NothingFilled(s, Do(s, p, a, maxRetries), p);
  }

  lemma FilledByEvent(s: System, p: nat, a: Action, maxRetries: Limits)
    requires Safe(s) && Wakes(s) && Exclusive(s) && Enabled(s, p, a) && Calm(s, p, a) && s.record.Some?
    requires a.Ack? ==> !a.ok
    ensures var s' := Do(s, p, a, maxRetries); Extends(s, s') && FilledBy(s, s', p)
  {
    hide Safe, Wakes, Exclusive, Extends, FilledBy, DoUpdate, DoPublish, DoRead, FatalRecords;
    if a.Update? {
      FilledByUpdate(s, p, a.outcome);
    } else if a.Publish? {
      FilledByPublish(s, p, a.ok, a.stored, a.duplicate);
    } else if a.Read? {
      FilledByRead(s, p, a.ok);
    } else {
      FilledByOther(s, p, a, maxRetries);
    }
  }

  // ----- What a handler finds -----

  /** The step of a handler leaves it undone only if its activity is not completed. */
  ghost predicate StaysUndone(s: System, s': System, p: nat) {
    IsExecutor(s', p) && Undone(PhaseOf(s', p)) ==>
      s'.record.Some? && s'.processes[p].role.activity !in s'.record.value.completed
  }

  lemma UndoneUpdate(s: System, p: nat, outcome: Outcome)
    requires Safe(s) && At(s, p) && PhaseOf(s, p).Writing? && HandlerKeeps(s, s.processes[p])
    ensures StaysUndone(s, DoUpdate(s, p, outcome), p)
  {
    hide Safe, CanProceed, StepIndex;
    MayWriteAt(s, p);
  }

  lemma UndoneRead(s: System, p: nat, ok: bool)
    requires IsExecutor(s, p) && PhaseOf(s, p).Reading? && s.record.Some? && !s.processes[p].role.final
    ensures StaysUndone(s, DoRead(s, p, ok), p)
  {
  }

  /** Any other step of a handler leaves it undone only if it was, and keeps the record. */
  lemma UndoneOther(s: System, p: nat, a: Action, maxRetries: Limits)
    requires Enabled(s, p, a) && !a.Update? && !a.Read?
    requires At(s, p) ==> HandlerKeeps(s, s.processes[p])
    ensures StaysUndone(s, Do(s, p, a, maxRetries), p)
  {
    hide DoUpdate, DoRead, AfterRead;
    if s.record.Some? {
      OnlyUpdatesWrite(s, p, a, maxRetries);
    }
  }

  lemma UndoneEvent(s: System, p: nat, a: Action, maxRetries: Limits)
    requires Safe(s) && Exclusive(s) && Enabled(s, p, a)
    requires At(s, p) ==> HandlerKeeps(s, s.processes[p])
    ensures StaysUndone(s, Do(s, p, a, maxRetries), p)
  {
    hide Safe, Exclusive, HandlerKeeps, StaysUndone, DoUpdate;
    if a.Update? {
      UndoneUpdate(s, p, a.outcome);
    } else if a.Read? {
      MayFailAt(s, p);
      UndoneRead(s, p, a.ok);
    } else {
      UndoneOther(s, p, a, maxRetries);
    }
  }

  // ----- Every event keeps the invariant -----

  /** Only the handler of an activity completes it. */
  ghost predicate CompletesOwn(s: System, s': System, p: nat) {
    s.record.Some? && s'.record.Some? &&
    forall a :: a in s'.record.value.completed && a !in s.record.value.completed ==>
      IsExecutor(s, p) && a == s.processes[p].role.activity
  }

  lemma CompletesOwnEvent(s: System, p: nat, a: Action, maxRetries: Limits)
    requires Safe(s) && Exclusive(s) && Enabled(s, p, a) && s.record.Some?
    ensures CompletesOwn(s, Do(s, p, a, maxRetries), p)
  {
    hide Safe, Exclusive, DoUpdate;
    if a.Update? {
      AdvancesUpdate(s, p, a.outcome);
    } else {
      OnlyUpdatesWrite(s, p, a, maxRetries);
    }
  }

  lemma OthersKeep(s: System, s': System, p: nat, process: Process)
    requires Extends(s, s') && CompletesOwn(s, s', p) && HandlerKeeps(s, process) && process.role.Executor?
    requires IsExecutor(s, p) ==> process.role.activity != s.processes[p].role.activity
    ensures HandlerKeeps(s', process)
  {
  }

  lemma ClosedStays(s: System, s': System, i: int)
    requires Extends(s, s') && Closed(s, i)
    ensures Closed(s', i)
  {
    if Outstanding(s, s.closers[i]) {
      OutstandingStable(s, s', s.closers[i]);
    }
  }

  lemma ClosedNow(s: System, s': System, p: nat, i: int)
    requires Safe(s) && Extends(s, s') && FilledBy(s, s', p) && StepFull(s', i) && !StepFull(s, i)
    requires IsExecutor(s, p) ==> HandlerKeeps(s, s.processes[p])
    ensures Closed(s', i)
  {
    assert ProcessOk(s, s.processes[p]);
    var role := s.processes[p].role;
    assert s.messages[role.msg] == role.activity;
    hide Safe, StepFull;
    OutstandingStable(s, s', role.activity);
  }

  lemma ExecutorsStay(s: System, s': System, p: nat, a: Action, maxRetries: Limits)
    requires Enabled(s, p, a) && s' == Do(s, p, a, maxRetries)
    ensures forall q :: q != p ==> (At(s, q) <==> At(s', q)) && (At(s, q) ==> s'.processes[q] == s.processes[q])
    ensures At(s, p) && At(s', p) ==> s'.processes[p].role == s.processes[p].role
  {
    OnlyMoves(s, p, a, maxRetries);
    OthersStay(s, s', p);
  }

  lemma KeptWithoutAck(s: System, p: nat, a: Action, maxRetries: Limits)
    requires Safe(s) && Wakes(s) && Exclusive(s) && Kept(s) && s.record.Some?
    requires Enabled(s, p, a) && Calm(s, p, a) && OneHandler(s, p, a) && (a.Ack? ==> !a.ok)
    ensures Kept(Do(s, p, a, maxRetries))
  {
    hide Safe, Wakes, Exclusive, Calm, Do, Extends, FilledBy, StepFull, Closed, HandlerKeeps, StaysUndone, Grows, CompletesOwn;
    var s' := Do(s, p, a, maxRetries);
    FilledByEvent(s, p, a, maxRetries);
    UndoneEvent(s, p, a, maxRetries);
    CompletesOwnEvent(s, p, a, maxRetries);
    ExecutorsStay(s, s', p, a, maxRetries);
    LiveBefore(s, s');
    forall q | At(s', q) ensures HandlerKeeps(s', s'.processes[q]) {
      if q != p && IsExecutor(s, q) {
        OthersKeep(s, s', p, s'.processes[q]);
      } else if q == p {
        MoverKeeps(s, s', p, a, maxRetries);
      } else {
        StarterKeeps(s', s'.processes[q]);
      }
    }
    if Live(s') {
      forall i | StepFull(s', i) ensures Closed(s', i) {
        if StepFull(s, i) {
          ClosedStays(s, s', i);
        } else {
          ClosedNow(s, s', p, i);
        }
      }
    }
    NewHandlerIsAlone(s, s', p, a, maxRetries);
  }

  lemma LiveBefore(s: System, s': System)
    requires Extends(s, s') && s.record.Some?
    ensures Live(s') ==> Live(s)
  {
  }

  lemma StarterKeeps(s: System, process: Process)
    requires process.role.Starter?
    ensures HandlerKeeps(s, process)
  {
  }

  lemma MoverKeeps(s: System, s': System, p: nat, a: Action, maxRetries: Limits)
    requires Enabled(s, p, a) && s' == Do(s, p, a, maxRetries) && Extends(s, s') && StaysUndone(s, s', p) && At(s', p)
    requires At(s, p) ==> HandlerKeeps(s, s.processes[p]) && s'.processes[p].role == s.processes[p].role
    ensures HandlerKeeps(s', s'.processes[p])
  {
    hide Grows;
    if At(s, p) {
      hide Do;
    }
  }

  lemma NewHandlerIsAlone(s: System, s': System, p: nat, a: Action, maxRetries: Limits)
    requires Kept(s) && Enabled(s, p, a) && OneHandler(s, p, a) && s' == Do(s, p, a, maxRetries)
    requires forall q :: q != p ==> (At(s, q) <==> At(s', q)) && (At(s, q) ==> s'.processes[q] == s.processes[q])
    requires At(s, p) && At(s', p) ==> s'.processes[p].role == s.processes[p].role
    ensures forall q, r :: IsExecutor(s', q) && IsExecutor(s', r) && q != r ==>
              s'.processes[q].role.activity != s'.processes[r].role.activity
  {
    hide HandlerKeeps, StepFull, Closed;
    if At(s, p) {
      hide Do;
    }
  }

  /** The handler that acknowledges has closed no step, or has enqueued the next one. */
  lemma KeptAck(s: System, p: nat)
    requires Safe(s) && Wakes(s) && Kept(s) && IsExecutor(s, p) && PhaseOf(s, p).Acking?
    ensures Kept(DoAck(s, p, true))
  {
    hide Safe, Wakes, StepFull, Closed, RoleOk;
    var s' := DoAck(s, p, true);
    ProcessAt(s, p);
    WakesClosers(s);
    SafeRecord(s);
    forall q | At(s', q) ensures HandlerKeeps(s', s'.processes[q]) {
      if IsExecutor(s, q) {
        ProcessAt(s, q);
        DistinctMessages(s, p, q);
      }
    }
    if Live(s') {
      forall i | StepFull(s', i) ensures Closed(s', i) {
        SameFull(s, s');
        ClosedAcked(s, s', p, i);
      }
    }
  }

  lemma DistinctMessages(s: System, p: nat, q: nat)
    requires Kept(s) && IsExecutor(s, p) && IsExecutor(s, q) && p != q
    requires RoleOk(s, s.processes[p].role) && RoleOk(s, s.processes[q].role)
    ensures s.processes[p].role.msg != s.processes[q].role.msg
  {
    assert HandlerKeeps(s, s.processes[p]) && HandlerKeeps(s, s.processes[q]);
  }

  lemma ClosedAcked(s: System, s': System, p: nat, i: int)
    requires IsExecutor(s, p) && PhaseOf(s, p).Acking? && ClosersOk(s) && Live(s) && StepFull(s, i) && Closed(s, i)
    requires RoleOk(s, s.processes[p].role) && WellFormed(s.record.value.steps)
    requires HandlerKeeps(s, s.processes[p]) && Justified(s, s.processes[p].role.activity, PhaseOf(s, p).reason)
    requires s' == DoAck(s, p, true)
    ensures Closed(s', i)
  {
    var role := s.processes[p].role;
    var closer := s.closers[i];
    assert InStep(s.record.value.steps, i, closer) && closer in s.closers.Values;
    if Outstanding(s, closer) && closer != role.activity {
      OthersOutstanding(s, s', role.msg, role.activity, closer);
    }
  }

  lemma KeptEvent(s: System, p: nat, a: Action, maxRetries: Limits)
    requires Safe(s) && Wakes(s) && Exclusive(s) && Kept(s)
    requires Enabled(s, p, a) && Calm(s, p, a) && OneHandler(s, p, a)
    ensures Kept(Do(s, p, a, maxRetries))
  {
    hide Safe, Wakes, Exclusive, Kept, Calm, OneHandler, DoUpdate, DoPublish, DoRun, DoRead, DoStore;
    if s.record.None? {
      KeptStart(s, p, a, maxRetries);
    } else if a.Ack? && a.ok && IsExecutor(s, p) {
      KeptAck(s, p);
    } else if a.Ack? && a.ok {
      NoStarterAcks(s, p);
      assert false;
    } else {
      KeptWithoutAck(s, p, a, maxRetries);
    }
  }

  lemma NoStarterAcks(s: System, p: nat)
    requires Safe(s) && IsStarter(s, p)
    ensures !PhaseOf(s, p).Acking?
  {
    assert ProcessOk(s, s.processes[p]);
  }

  lemma KeptStart(s: System, p: nat, a: Action, maxRetries: Limits)
    requires Safe(s) && Enabled(s, p, a) && s.record.None?
    ensures Kept(Do(s, p, a, maxRetries))
  {
    hide Safe, Do;
    var s' := Do(s, p, a, maxRetries);
    NoRecord(s, p, a, maxRetries);
    if s'.record.Some? {
      CreatedFresh(s, p, a, maxRetries);
      FreshIsNotFull(s');
    }
    forall q | At(s', q) ensures HandlerKeeps(s', s'.processes[q]) {
      assert !IsExecutor(s', q);
    }
  }

  lemma CreatedFresh(s: System, p: nat, a: Action, maxRetries: Limits)
    requires Safe(s) && Enabled(s, p, a) && s.record.None? && Do(s, p, a, maxRetries).record.Some?
    ensures Fresh(Do(s, p, a, maxRetries).record.value)
  {
    hide Safe, Fresh;
    if At(s, p) {
      FreshContent(s, p);
    }
    hide DoUpdate, DoRun, DoRead, DoPublish;
  }

  lemma FreshIsNotFull(s: System)
    requires s.record.Some? && Fresh(s.record.value)
    ensures forall i :: !StepFull(s, i)
  {
    var steps: seq<Step> := s.record.value.steps;
    forall i | 0 <= i < |steps| ensures !StepFull(s, i) {
      assert steps[i][0] in steps[i] && steps[i][0].id in StepIds(steps[i]);
    }
  }
}
