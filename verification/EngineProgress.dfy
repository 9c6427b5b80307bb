/** No lost wake-up: while the orchestration is neither completed nor errored, an activity that was published and has
    not completed keeps a message, and a complete step keeps a message until the next step is enqueued. */
module EngineProgress {
  import opened Options
  import opened Orchestrations
  import opened Engine
  import opened EngineSafety

  ghost predicate Outstanding(s: System, activity: Id) {
    exists m :: m in s.messages && s.messages[m] == activity
  }

  ghost predicate Live(s: System) {
    s.record.Some? && !s.record.value.state.IsTerminal()
  }

  ghost predicate NextPublished(s: System, i: int) {
    s.record.Some? && 0 <= i && i + 1 < |s.record.value.steps| && StepIds(s.record.value.steps[i + 1]) <= s.published
  }

  ghost predicate StepFull(s: System, i: int) {
    s.record.Some? && 0 <= i < |s.record.value.steps| && StepIds(s.record.value.steps[i]) <= s.record.value.completed
  }

  /** The write of handleFatalError that is next does not fail. */
  ghost predicate FatalRecords(s: System, p: nat, a: Action) {
    At(s, p) ==>
      match PhaseOf(s, p)
      case Writing(write, _, _, rev, conflicts) =>
        a.Update? && write.Fatal? ==> a.outcome.Reply? && (rev == s.rev || conflicts + 1 < MAX_CONFLICTS)
      case Rereading(write, _, _) => a.Reread? && write.Fatal? ==> a.ok
      case _ => true
  }

  /** The hypotheses under which nothing is lost: no panic, no final delivery, and fatal errors are recorded. */
  ghost predicate Calm(s: System, p: nat, a: Action) {
    !a.Panic? && (a.Deliver? ==> !a.final) && FatalRecords(s, p, a)
  }

  /** What a handler that is about to acknowledge its message leaves behind. */
  ghost predicate Justified(s: System, activity: Id, reason: Reason) {
    Live(s) ==>
      match reason
      case AwaitSiblings => activity in s.record.value.completed && activity !in s.closers.Values
      case NextEnqueued =>
        activity in s.record.value.completed && forall i :: InStep(s.record.value.steps, i, activity) ==> NextPublished(s, i)
      case WaitPersisted => activity in s.waited
      case _ => false
  }

  ghost predicate ProcessWakes(s: System, process: Process) {
    var role := process.role;
    role.Executor? ==>
      && !role.final
      && match process.phase
         case Publishing(cur, _, step, _) => s.record.Some? && role.activity in s.record.value.completed &&
           0 < step && InStep(s.record.value.steps, step - 1, role.activity)
         case Responding(reason) => Justified(s, role.activity, reason)
         case Acking(reason) => Justified(s, role.activity, reason)
         case _ => true
  }

  /** The activity that completed step `i` last still has a message, or the next step is wholly published. */
  ghost predicate HandsOver(s: System, i: int) {
    i in s.closers && (NextPublished(s, i) || s.closers[i] in s.waited || Outstanding(s, s.closers[i]))
  }

  ghost predicate Wakes(s: System) {
    && ClosersOk(s)
    && (forall p :: p in s.processes ==> ProcessWakes(s, s.processes[p]))
    && (Live(s) ==>
          && (forall a :: a in s.published && a !in s.record.value.completed ==> a in s.waited || Outstanding(s, a))
          && (forall i :: StepFull(s, i) ==> HandsOver(s, i)))
  }

  // ----- Preservation -----

  /** Nothing is acknowledged: messages only appear, and new closers had not completed before. */
  ghost predicate Extends(s: System, s': System) {
    && Grows(s, s')
    && (forall m :: m in s.messages ==> m in s'.messages && s'.messages[m] == s.messages[m])
    && (forall i :: i in s'.closers && i !in s.closers ==> s.record.Some? && s'.closers[i] !in s.record.value.completed)
  }

  lemma JustifiedStable(s: System, s': System, activity: Id, reason: Reason)
    requires Extends(s, s') && s.record.Some? && Justified(s, activity, reason)
    ensures Justified(s', activity, reason)
  {
  }

  lemma WakesStable(s: System, s': System, process: Process)
    requires Extends(s, s') && s.record.Some? && ProcessWakes(s, process)
    ensures ProcessWakes(s', process)
  {
    match process.phase
    case Responding(reason) => if process.role.Executor? { JustifiedStable(s, s', process.role.activity, reason); }
    case Acking(reason) => if process.role.Executor? { JustifiedStable(s, s', process.role.activity, reason); }
    case _ =>
  }

  lemma OutstandingStable(s: System, s': System, activity: Id)
    requires Extends(s, s') && Outstanding(s, activity)
    ensures Outstanding(s', activity)
  {
    var m :| m in s.messages && s.messages[m] == activity;
    assert m in s'.messages;
  }

  lemma HandsOverStable(s: System, s': System, i: int)
    requires Extends(s, s') && HandsOver(s, i)
    ensures HandsOver(s', i)
  {
    if Outstanding(s, s.closers[i]) {
      OutstandingStable(s, s', s.closers[i]);
    }
  }

  ghost predicate ClosersOk(s: System) {
    && (forall i :: i in s.closers ==> StepFull(s, i) && s.closers[i] in StepIds(s.record.value.steps[i]))
    && (forall i :: StepFull(s, i) ==> i in s.closers)
  }

  /** The state has grown to `s'` without an acknowledgement, and one process has moved. */
  lemma WakesAfter(s: System, s': System, p: nat)
    requires Wakes(s) && s.record.Some? && Extends(s, s') && ClosersOk(s')
    requires s'.processes - {p} == s.processes - {p}
    requires p in s'.processes ==> ProcessWakes(s', s'.processes[p])
    requires Live(s') ==> forall i :: StepFull(s', i) && !StepFull(s, i) ==> HandsOver(s', i)
    requires forall a :: a in s'.published && a !in s.published ==> Outstanding(s', a)
    ensures Wakes(s')
  {
    forall q | q in s'.processes ensures ProcessWakes(s', s'.processes[q]) {
      if q != p {
        assert q in s'.processes - {p};
        WakesStable(s, s', s.processes[q]);
      }
    }
    if Live(s') {
      forall a | a in s'.published && a !in s'.record.value.completed ensures a in s'.waited || Outstanding(s', a) {
        if a in s.published && a !in s.waited {
          OutstandingStable(s, s', a);
        }
      }
      forall i | StepFull(s', i) ensures HandsOver(s', i) {
        if StepFull(s, i) {
          HandsOverStable(s, s', i);
        }
      }
    }
  }

  lemma ExtendsCommit(s: System, role: Role, write: Write, local: Local, cur: Orchestration)
    requires RecordOk(s) && ClosersOk(s)
    requires RoleOk(s, role) && MayWrite(s, role, write) && OwnSnapshot(s, local, cur, s.rev)
    ensures
      var s1 := Commit(s, write, ActivityOf(role), Apply(write, ActivityOf(role), local, cur));
      && Extends(s, s1) && ClosersOk(s1)
      && (forall i :: StepFull(s1, i) && !StepFull(s, i) ==>
            s1.closers[i] == ActivityOf(role) && ActivityOf(role) !in s.record.value.completed)
  {
    hide RecordOk, WellFormed, Grows, ClosersOk, Commit, StepFull;
    SafeCommit(s, role, write, local, cur);
    var activity := ActivityOf(role);
    var o := Apply(write, activity, local, cur);
    PublishedInSteps(s);
    CommitKeepsMessages(s, write, activity, o);
    if write.Complete? {
      CompleteCloses(s, activity, o);
    } else {
      SameClosers(s, write, activity, o);
    }
  }

  lemma PublishedInSteps(s: System)
    requires RecordOk(s)
    ensures s.record.Some? ==> WellFormed(s.record.value.steps)
    ensures s.record.Some? ==> forall a :: a in s.published ==> InSteps(s.record.value.steps, a)
  {
  }

  lemma CommitKeepsMessages(s: System, write: Write, activity: Id, o: Orchestration)
    ensures Commit(s, write, activity, o).messages == s.messages
  {
  }

  lemma SameClosers(s: System, write: Write, activity: Id, o: Orchestration)
    requires ClosersOk(s) && s.record.Some? && !write.Complete?
    requires o.steps == s.record.value.steps && o.completed == s.record.value.completed
    ensures
      var s1 := Commit(s, write, activity, o);
      && ClosersOk(s1) && s1.closers == s.closers
      && forall i :: StepFull(s1, i) <==> StepFull(s, i)
  {
  }

  /** The completion that makes a step full is recorded as the one that closed it. */
  lemma CompleteCloses(s: System, activity: Id, o: Orchestration)
    requires ClosersOk(s) && s.record.Some? && o.steps == s.record.value.steps && WellFormed(o.steps)
    requires o.completed == s.record.value.completed + {activity} && InSteps(o.steps, activity)
    ensures
      var s1 := Commit(s, Complete, activity, o);
      && ClosersOk(s1)
      && (forall i :: i in s1.closers && i !in s.closers ==> s1.closers[i] !in s.record.value.completed)
      && (forall i :: StepFull(s1, i) && !StepFull(s, i) ==>
            s1.closers[i] == activity && activity !in s.record.value.completed)
  {
    var i := StepIndex(o.steps, activity);
    var k :| InStep(o.steps, k, activity);
    StepIndexUnique(o.steps, k, activity);
    forall j | 0 <= j < |o.steps| && j != i ensures activity !in StepIds(o.steps[j]) {
      assert !InStep(o.steps, j, activity) || !InStep(o.steps, i, activity);
    }
    hide WellFormed;
  }

  lemma NextJustified(s: System, role: Role, write: Write, local: Local, cur: Orchestration)
    requires Safe(s) && ClosersOk(s) && role.Executor? && !role.final
    requires RoleOk(s, role) && MayWrite(s, role, write) && OwnSnapshot(s, local, cur, s.rev)
    ensures
      var o := Apply(write, role.activity, local, cur);
      var s1 := Commit(s, write, role.activity, o);
      var next := AfterWrite(write, role.activity, o, s.rev + 1);
      next.Some? ==> ProcessWakes(s1, Process(role, next.value))
  {
    ExtendsCommit(s, role, write, local, cur);
    SafeRecord(s);
    hide Safe, Extends, ClosersOk;
    var o := Apply(write, role.activity, local, cur);
    if write.Complete? && CanProceed(o, role.activity) == Some(false) {
      WaitsForSiblings(Commit(s, write, role.activity, o), role.activity);
    }
  }

  lemma WaitsForSiblings(s: System, activity: Id)
    requires s.record.Some? && WellFormed(s.record.value.steps) && ClosersOk(s)
    requires activity in s.record.value.completed && CanProceed(s.record.value, activity) == Some(false)
    ensures activity !in s.closers.Values
  {
    forall j | j in s.closers ensures s.closers[j] != activity {
      assert StepFull(s, j);
      if s.closers[j] == activity {
        StepIndexUnique(s.record.value.steps, j, activity);
        assert false;
      }
    }
  }

  lemma ProcessAt(s: System, p: nat)
    requires Safe(s) && Wakes(s) && At(s, p)
    ensures ProcessOk(s, s.processes[p]) && ProcessWakes(s, s.processes[p])
    ensures s.processes[p].role.Executor? ==> s.record.Some?
  {
    hide RecordOk, ClosersOk, Live;
  }

  lemma WakesClosers(s: System)
    requires Wakes(s)
    ensures ClosersOk(s)
  {
  }

  lemma SafeRecord(s: System)
    requires Safe(s)
    ensures RecordOk(s)
  {
  }

  /** The state has grown to `s1` without an acknowledgement and process `p` continues there, or leaves. */
  lemma WakesContinue(s: System, s1: System, p: nat, next: Option<Phase>)
    requires Wakes(s) && s.record.Some? && At(s, p) && Extends(s, s1) && ClosersOk(s1) && s1.processes == s.processes
    requires next.Some? ==> ProcessWakes(s1, Process(s.processes[p].role, next.value))
    requires Live(s1) ==> forall i :: StepFull(s1, i) && !StepFull(s, i) ==> HandsOver(s1, i)
    requires forall a :: a in s1.published && a !in s.published ==> Outstanding(s1, a)
    ensures Wakes(Continue(s1, p, next))
  {
    hide Wakes, Extends, Grows, ClosersOk, HandsOver, StepFull, ProcessWakes, Live;
    var s' := Continue(s1, p, next);
    MoveExtends(s, s1, p, next);
    if next.Some? {
      WakesStable(s1, s', Process(s.processes[p].role, next.value));
    }
    SameFull(s1, s');
    forall i | Live(s') && StepFull(s', i) && !StepFull(s, i) ensures HandsOver(s', i) {
      HandsOverStable(s1, s', i);
    }
    forall a | a in s'.published && a !in s.published ensures Outstanding(s', a) {
      OutstandingStable(s1, s', a);
    }
    WakesAfter(s, s', p);
  }

  /** Moving a process keeps everything else. */
  lemma MoveExtends(s: System, s1: System, p: nat, next: Option<Phase>)
    requires At(s1, p) && Extends(s, s1) && ClosersOk(s1)
    ensures var s' := Continue(s1, p, next);
      Extends(s, s') && Extends(s1, s') && ClosersOk(s') && s'.published == s1.published && (Live(s') <==> Live(s1))
    ensures s.record.Some? ==> s1.record.Some?
  {
    var s' := Continue(s1, p, next);
    SameFull(s1, s');
    hide StepFull;
  }

  /** Process `p` moves or leaves and nothing else changes. */
  lemma WakesMove(s: System, p: nat, next: Option<Phase>)
    requires Wakes(s) && s.record.Some? && At(s, p)
    requires next.Some? ==> ProcessWakes(s, Process(s.processes[p].role, next.value))
    ensures Wakes(Continue(s, p, next))
  {
    hide StepFull, HandsOver, ProcessWakes;
    WakesContinue(s, s, p, next);
  }

  lemma FullHandsOver(s: System, role: Role, write: Write, local: Local, cur: Orchestration, i: int)
    requires Safe(s) && Wakes(s)
    requires RoleOk(s, role) && MayWrite(s, role, write) && OwnSnapshot(s, local, cur, s.rev)
    requires
      var s1 := Commit(s, write, ActivityOf(role), Apply(write, ActivityOf(role), local, cur));
      Live(s1) && StepFull(s1, i) && !StepFull(s, i)
    ensures
      var s1 := Commit(s, write, ActivityOf(role), Apply(write, ActivityOf(role), local, cur));
      HandsOver(s1, i)
  {
    var a := ActivityOf(role);
    var s1 := Commit(s, write, a, Apply(write, a, local, cur));
    ExtendsCommit(s, role, write, local, cur);
    assert s1.closers[i] == a;
    assert role.Executor?;
    assert a in s.published && Live(s);
    hide Safe, RecordOk, OwnSnapshot;
    if a !in s.waited {
      OutstandingStable(s, s1, a);
    }
  }

  lemma CommitNext(s: System, p: nat, outcome: Outcome, o: Orchestration, s1: System, next: Option<Phase>)
    requires Safe(s) && Wakes(s) && At(s, p) && PhaseOf(s, p).Writing? && FatalRecords(s, p, Update(outcome))
    requires Lands(s, PhaseOf(s, p).rev, outcome)
    requires
      var Writing(write, local, cur, rev, _) := PhaseOf(s, p);
      var a := ActivityOf(s.processes[p].role);
      && o == Apply(write, a, local, cur) && s1 == Commit(s, write, a, o)
      && next == if outcome.Reply? then AfterWrite(write, a, o, s.rev + 1) else AfterFailedWrite(write)
    ensures next.Some? ==> ProcessWakes(s1, Process(s.processes[p].role, next.value))
  {
    hide Safe, Wakes, ClosersOk, Apply, AfterWrite, CanProceed, Commit;
    var Writing(write, local, cur, rev, _) := PhaseOf(s, p);
    var role := s.processes[p].role;
    if role.Executor? {
      ProcessAt(s, p);
      MayWriteAt(s, p);
      WakesClosers(s);
      NextJustified(s, role, write, local, cur);
    }
  }

  lemma WakesCommit(s: System, p: nat, outcome: Outcome)
    requires Safe(s) && Wakes(s) && At(s, p) && PhaseOf(s, p).Writing? && FatalRecords(s, p, Update(outcome))
    requires Lands(s, PhaseOf(s, p).rev, outcome)
    ensures Wakes(DoUpdate(s, p, outcome))
  {
    hide Safe, RecordOk, Wakes, ClosersOk, HandsOver, StepFull, Grows, Apply, AfterWrite, AfterFailedWrite, ProcessWakes, FatalRecords;
    var Writing(write, local, cur, rev, _) := PhaseOf(s, p);
    var role := s.processes[p].role;
    var a := ActivityOf(role);
    var o := Apply(write, a, local, cur);
    var s1 := Commit(s, write, a, o);
    var next := if outcome.Reply? then AfterWrite(write, a, o, s.rev + 1) else AfterFailedWrite(write);
    CommitNext(s, p, outcome, o, s1, next);
    MayWriteAt(s, p);
    WakesClosers(s);
    SafeRecord(s);
    ExtendsCommit(s, role, write, local, cur);
    forall i | Live(s1) && StepFull(s1, i) && !StepFull(s, i) ensures HandsOver(s1, i) {
      FullHandsOver(s, role, write, local, cur, i);
    }
    WakesContinue(s, s1, p, next);
  }

  lemma WakesUpdate(s: System, p: nat, outcome: Outcome)
    requires Safe(s) && Wakes(s) && At(s, p) && PhaseOf(s, p).Writing? && FatalRecords(s, p, Update(outcome))
    ensures Wakes(DoUpdate(s, p, outcome))
  {
    hide Safe, Wakes, Commit, Apply, AfterWrite;
    var Writing(write, local, cur, rev, conflicts) := PhaseOf(s, p);
    if Lands(s, rev, outcome) {
      WakesCommit(s, p, outcome);
    } else {
      ProcessAt(s, p);
      WakesMove(s, p, AfterConflict(write, local, conflicts, outcome.Reply?));
    }
  }

  lemma PublishingAt(s: System, p: nat)
    requires Safe(s) && Wakes(s) && At(s, p) && PhaseOf(s, p).Publishing?
    ensures
      var Publishing(cur, rev, step, next) := PhaseOf(s, p);
      && s.record.Some? && s.record.value.steps == cur.steps && step < |cur.steps| && next <= |cur.steps[step]|
      && DoneBefore(s, step)
      && ProcessWakes(s, s.processes[p])
      && (next == |cur.steps[step]| ==>
            ProcessWakes(s, Process(s.processes[p].role, AfterPublishing(s.processes[p].role, cur, rev))))
  {
    hide Justified, Safe, Wakes, RoleOk, StepIds, DoneUpTo;
    var Publishing(cur, rev, step, next) := PhaseOf(s, p);
    var role := s.processes[p].role;
    ProcessAt(s, p);
    if next == |cur.steps[step]| && role.Executor? {
      StepPublished(s, role, cur, rev, step);
    }
  }

  lemma WakesPublish(s: System, p: nat, ok: bool, stored: bool, duplicate: bool)
    requires Safe(s) && Wakes(s) && At(s, p) && PhaseOf(s, p).Publishing?
    ensures Wakes(DoPublish(s, p, ok, stored, duplicate))
  {
    hide Safe, Wakes, Justified, InStep, Grows, DoneBefore, AfterPublishing, Enqueue;
    PublishingAt(s, p);
    var Publishing(cur, rev, step, next) := PhaseOf(s, p);
    var role := s.processes[p].role;
    if next == |cur.steps[step]| {
      WakesMove(s, p, Some(AfterPublishing(role, cur, rev)));
    } else {
      var after := if ok then Some(Publishing(cur, rev, step, next + 1)) else AfterFailedPublish(role);
      if ok || stored {
        WakesEnqueue(s, p, cur, step, next, duplicate, after);
      } else {
        WakesMove(s, p, after);
      }
    }
  }

  lemma NextIsNew(s: System)
    requires Safe(s)
    ensures s.nextMsg !in s.messages
  {
  }

  lemma EnqueueExtends(s: System, step: nat, next: nat, duplicate: bool)
    requires Safe(s) && ClosersOk(s) && s.record.Some? && DoneBefore(s, step)
    requires step < |s.record.value.steps| && next < |s.record.value.steps[step]|
    ensures
      var id := s.record.value.steps[step][next].id;
      var s1 := Enqueue(s, id, duplicate);
      && Extends(s, s1) && ClosersOk(s1)
      && (forall a :: a in s1.published && a !in s.published ==> Outstanding(s1, a))
  {
    hide Safe, RecordOk, Grows, DoneBefore, StepFull, ClosersOk;
    var id := s.record.value.steps[step][next].id;
    var s1 := Enqueue(s, id, duplicate);
    SafeEnqueue(s, step, next, duplicate);
    ClosersSame(s, s1);
    NextIsNew(s);
    assert s1.published != s.published ==> s1.messages[s.nextMsg] == id;
  }

  lemma WakesEnqueue(s: System, p: nat, cur: Orchestration, step: nat, next: nat, duplicate: bool, after: Option<Phase>)
    requires Safe(s) && Wakes(s) && At(s, p) && DoneBefore(s, step) && s.record.value.steps == cur.steps
    requires step < |cur.steps| && next < |cur.steps[step]|
    requires after.Some? ==> ProcessWakes(s, Process(s.processes[p].role, after.value))
    ensures Wakes(Continue(Enqueue(s, cur.steps[step][next].id, duplicate), p, after))
  {
    hide Safe, Wakes, ClosersOk, Extends, HandsOver, InStep, StepFull, ProcessWakes, Live;
    var s1 := Enqueue(s, cur.steps[step][next].id, duplicate);
    WakesClosers(s);
    EnqueueExtends(s, step, next, duplicate);
    if after.Some? {
      WakesStable(s, s1, Process(s.processes[p].role, after.value));
    }
    SameFull(s, s1);
    WakesContinue(s, s1, p, after);
  }

  lemma SameFull(s: System, s': System)
    requires s'.record == s.record
    ensures forall i :: StepFull(s', i) <==> StepFull(s, i)
  {
  }

  lemma StepPublished(s: System, role: Role, cur: Orchestration, rev: nat, step: nat)
    requires Safe(s) && role.Executor? && Snapshot(s, cur, rev) && 0 < step < |cur.steps|
    requires forall k :: 0 <= k < |cur.steps[step]| ==> cur.steps[step][k].id in s.published
    requires InStep(cur.steps, step - 1, role.activity) && role.activity in s.record.value.completed
    ensures Justified(s, role.activity, NextEnqueued)
  {
    assert NextPublished(s, step - 1);
    forall i | InStep(cur.steps, i, role.activity) ensures NextPublished(s, i) {
      assert i == step - 1;
    }
  }

  lemma WakesStore(s: System, p: nat, outcome: Outcome)
    requires Safe(s) && Wakes(s) && IsStarter(s, p) && PhaseOf(s, p).Storing?
    ensures Wakes(DoStore(s, p, outcome))
  {
    var s' := DoStore(s, p, outcome);
    assert ProcessOk(s, s.processes[p]);
    if s.record.Some? {
      hide Safe, Wakes;
      WakesMove(s, p, Some(s'.processes[p].phase));
    } else {
      forall p | p in s'.processes ensures ProcessWakes(s', s'.processes[p]) {
        assert p in s.processes && ProcessOk(s, s.processes[p]);
      }
      assert s.closers == map[];
      if s'.record.Some? {
        hide Safe;
        var steps: seq<Step> := s'.record.value.steps;
        forall i | 0 <= i < |steps| ensures !StepFull(s', i) {
          assert steps[i][0].id in StepIds(steps[i]);
        }
      }
    }
  }

  /** Removing a message, and process `p`, leaves the messages of other activities alone. */
  lemma OthersOutstanding(s: System, s': System, acked: nat, activity: Id, other: Id)
    requires acked in s.messages ==> s.messages[acked] == activity
    requires s'.messages == s.messages - {acked}
    requires Outstanding(s, other) && other != activity
    ensures Outstanding(s', other)
  {
    var m :| m in s.messages && s.messages[m] == other;
    assert m in s'.messages;
  }

  lemma WakesAck(s: System, p: nat)
    requires Safe(s) && Wakes(s) && IsExecutor(s, p) && PhaseOf(s, p).Acking?
    ensures Wakes(DoAck(s, p, true))
  {
    hide Safe, PhaseOk, StepFull, HandsOver;
    var s' := DoAck(s, p, true);
    var role := s.processes[p].role;
    ProcessAt(s, p);
    SafeRecord(s);
    assert ClosersOk(s') by { ClosersSame(s, s'); }
    if Live(s') {
      AckedWakes(s, s', role, PhaseOf(s, p).reason);
    }
    forall q | q in s'.processes ensures ProcessWakes(s', s'.processes[q]) {
      assert ProcessWakes(s, s.processes[q]);
    }
  }

  lemma ClosersSame(s: System, s': System)
    requires ClosersOk(s) && s'.record == s.record && s'.closers == s.closers
    ensures ClosersOk(s')
  {
  }

  lemma AckedWakes(s: System, s': System, role: Role, reason: Reason)
    requires Wakes(s) && Live(s) && RoleOk(s, role) && role.Executor? && WellFormed(s.record.value.steps)
    requires Justified(s, role.activity, reason)
    requires s' == s.(messages := s.messages - {role.msg}, processes := s'.processes)
    ensures forall a :: a in s'.published && a !in s'.record.value.completed ==> a in s'.waited || Outstanding(s', a)
    ensures forall i :: StepFull(s', i) ==> HandsOver(s', i)
  {
    hide ProcessWakes;
    forall a | a in s'.published && a !in s'.record.value.completed ensures a in s'.waited || Outstanding(s', a) {
      if a !in s.waited {
        OthersOutstanding(s, s', role.msg, role.activity, a);
      }
    }
    forall i | StepFull(s', i) ensures HandsOver(s', i) {
      assert StepFull(s, i) && HandsOver(s, i);
      HandsOverAcked(s, s', role, reason, i);
    }
  }

  lemma HandsOverAcked(s: System, s': System, role: Role, reason: Reason, i: int)
    requires RoleOk(s, role) && role.Executor? && WellFormed(s.record.value.steps) && ClosersOk(s) && Live(s)
    requires s' == s.(messages := s.messages - {role.msg}, processes := s'.processes)
    requires HandsOver(s, i)
    requires Justified(s, role.activity, reason)
    ensures HandsOver(s', i)
  {
    var closer := s.closers[i];
    assert InStep(s.record.value.steps, i, closer) && closer in s.closers.Values;
    if Outstanding(s, closer) && closer != role.activity {
      OthersOutstanding(s, s', role.msg, role.activity, closer);
    }
  }

  lemma WakesLeave(s: System, p: nat)
    requires Wakes(s) && At(s, p)
    ensures Wakes(Gone(s, p))
  {
    var s' := Gone(s, p);
    forall p | p in s'.processes ensures ProcessWakes(s', s'.processes[p]) {
      assert ProcessWakes(s, s.processes[p]);
    }
    if s.record.Some? {
      hide StepFull, HandsOver, ProcessWakes;
      WakesContinue(s, s, p, None);
    }
  }

  lemma WakesArrival(s: System, p: nat, process: Process)
    requires Wakes(s) && !At(s, p) && ProcessWakes(s, process)
    ensures Wakes(s.(processes := s.processes[p := process]))
  {
    var s' := s.(processes := s.processes[p := process]);
    if s.record.Some? {
      assert Extends(s, s') && ClosersOk(s') && ProcessWakes(s', process);
      hide StepFull, HandsOver, ProcessWakes, Extends, ClosersOk;
      WakesAfter(s, s', p);
    } else {
      forall q | q in s'.processes ensures ProcessWakes(s', s'.processes[q]) {
        assert q != p ==> ProcessWakes(s, s.processes[q]);
      }
    }
  }

  lemma WakesRun(s: System, p: nat, result: Result, values: Data, maxRetries: Limits)
    requires Wakes(s) && IsExecutor(s, p) && PhaseOf(s, p).Working? && s.record.Some?
    ensures Wakes(DoRun(s, p, result, values, maxRetries))
  {
    var s' := DoRun(s, p, result, values, maxRetries);
    assert ProcessWakes(s, s.processes[p]);
    assert Extends(s, s') && ClosersOk(s') && ProcessWakes(s', s'.processes[p]);
    hide StepFull, HandsOver, ProcessWakes, Extends, ClosersOk;
    WakesAfter(s, s', p);
  }

  lemma WakesEvent(s: System, p: nat, a: Action, maxRetries: Limits)
    requires Safe(s) && Wakes(s) && Enabled(s, p, a) && Calm(s, p, a)
    ensures Wakes(Do(s, p, a, maxRetries))
  {
    if At(s, p) {
      assert ProcessOk(s, s.processes[p]) && ProcessWakes(s, s.processes[p]);
    }
    hide Safe, Wakes, Apply, AfterWrite, OwnSnapshot, Snapshot;
    match a
    case Call(content) => WakesArrival(s, p, Process(Starter(content), Storing));
    case Deliver(msg, final) => WakesArrival(s, p, Process(Executor(s.messages[msg], msg, final), Reading));
    case Store(outcome) => WakesStore(s, p, outcome);
    case Update(outcome) => WakesUpdate(s, p, outcome);
    case Publish(ok, stored, duplicate) => WakesPublish(s, p, ok, stored, duplicate);
    case Ack(ok) => if ok { WakesAck(s, p); } else { WakesLeave(s, p); }
    case Crash => WakesLeave(s, p);
    case ReadExisting(ok) => WakesMove(s, p, Some(DoReadExisting(s, p, ok).processes[p].phase));
    case Read(ok) => WakesMove(s, p, if ok then Some(AfterRead(s.processes[p].role, s.record.value, s.rev)) else None);
    case Run(result, values) => WakesRun(s, p, result, values, maxRetries);
    case Reread(ok) =>
      var Rereading(write, local, conflicts) := PhaseOf(s, p);
      WakesMove(s, p,
        if ok then Some(Writing(write, local, s.record.value, s.rev, conflicts)) else AfterFailedWrite(write));
    case Respond(ok) => WakesMove(s, p, if ok then Some(Acking(PhaseOf(s, p).reason)) else None);
  }
}
