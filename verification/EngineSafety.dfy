/** What every event of the step system keeps: snapshots are never ahead of the record, a step is published only when
    all earlier steps are complete, and the record is marked completed only when everything is. */
module EngineSafety {
  import opened Options
  import opened Orchestrations
  import opened Engine

  // ----- Invariant -----

  /** A copy of the record read or written at revision `rev`. */
  ghost predicate Snapshot(s: System, cur: Orchestration, rev: nat) {
    && s.record.Some? && rev <= s.rev
    && cur.steps == s.record.value.steps && cur.completed <= s.record.value.completed
    && (rev == s.rev ==> cur == s.record.value)
  }

  /** Such a copy with the handler's own changes to the data maps and retry counts in it. */
  ghost predicate OwnSnapshot(s: System, local: Local, cur: Orchestration, rev: nat) {
    && s.record.Some? && rev <= s.rev
    && cur.steps == s.record.value.steps && cur.completed <= s.record.value.completed
    && (rev == s.rev ==>
          var o := s.record.value;
          && cur == o.(data := cur.data, retries := cur.retries)
          && (cur.data == o.data || o.data.Keys <= local.held))
  }

  /** All steps before step `i` are complete. */
  ghost predicate DoneBefore(s: System, i: nat) {
    s.record.Some? && DoneUpTo(s.record.value.steps, i, s.record.value.completed)
  }

  ghost predicate FirstPublished(s: System) {
    s.record.Some? && |s.record.value.steps| > 0 && StepIds(s.record.value.steps[0]) <= s.published
  }

  ghost predicate MayWrite(s: System, role: Role, write: Write) {
    && (write.MarkRunning? <==> role.Starter?)
    && (write.MarkRunning? ==> FirstPublished(s))
    && (write.Finish? ==> s.record.Some? && AllDone(s.record.value.steps, s.record.value.completed))
  }

  ghost predicate PhaseOk(s: System, role: Role, phase: Phase) {
    match phase
    case Storing => role.Starter? && (Fresh(role.content) || s.record.Some?)
    case ReadingExisting => role.Starter? && s.record.Some?
    case Reading => role.Executor?
    case Working(cur, rev) => role.Executor? && Snapshot(s, cur, rev)
    case Writing(write, local, cur, rev, conflicts) =>
      && MayWrite(s, role, write) && OwnSnapshot(s, local, cur, rev) && conflicts < MAX_CONFLICTS
      && (rev == s.rev && (conflicts > 0 || !Carries(write)) ==> cur == s.record.value)
      && (conflicts == 0 && Carries(write) ==> cur.data == local.values && cur.retries == local.retries)
      && (conflicts == 0 && Carries(write) && rev == s.rev ==> s.record.value.retries.Keys <= local.retries.Keys)
    case Rereading(write, local, conflicts) =>
      MayWrite(s, role, write) && s.record.Some? && 0 < conflicts < MAX_CONFLICTS
    case Publishing(cur, rev, step, next) =>
      && Snapshot(s, cur, rev) && step < |cur.steps| && next <= |cur.steps[step]|
      && (role.Starter? ==> step == 0) && DoneBefore(s, step)
      && (forall k :: 0 <= k < next ==> cur.steps[step][k].id in s.published)
    case Responding(_) => role.Executor?
    case Acking(_) => role.Executor?
    case Returned(ok) => role.Starter? && (ok ==> s.record.Some? && !s.record.value.state.Initialized?)
  }

  ghost predicate RoleOk(s: System, role: Role) {
    role.Executor? ==>
      && s.record.Some? && role.activity in s.published && role.msg < s.nextMsg
      && (role.msg in s.messages ==> s.messages[role.msg] == role.activity)
  }

  ghost predicate ProcessOk(s: System, process: Process) {
    RoleOk(s, process.role) && PhaseOk(s, process.role, process.phase)
  }

  ghost predicate RecordOk(s: System) {
    match s.record
    case None => s.published == {} && s.committed == {}
    case Some(o) =>
      && WellFormed(o.steps)
      && (forall a :: a in s.published ==> InSteps(o.steps, a))
      && o.completed <= s.published
      && o.completed == s.committed
      && (forall i, a :: InStep(o.steps, i, a) && a in s.published ==> DoneBefore(s, i))
      && (o.state.Completed? ==> AllDone(o.steps, o.completed))
      && (o.state.Running? || o.state.Completed? ==> FirstPublished(s))
  }

  ghost predicate Safe(s: System) {
    && RecordOk(s)
    && (forall m :: m in s.messages ==> m < s.nextMsg && s.messages[m] in s.published)
    && (forall p :: p in s.processes ==> ProcessOk(s, s.processes[p]))
  }

  const INIT := System(None, 0, map[], 0, {}, map[], {}, map[], {}, map[])

  // ----- What an event may change -----

  /** The parts of the state that other processes rely on only grow. */
  ghost predicate Grows(s: System, s': System) {
    && (s.record.Some? ==>
          && s'.record.Some?
          && s'.record.value.steps == s.record.value.steps
          && s.record.value.completed <= s'.record.value.completed
          && (!s.record.value.state.Initialized? ==> !s'.record.value.state.Initialized?)
          && (s.record.value.state.IsTerminal() ==> s'.record.value.state.IsTerminal())
          && (s'.record.value.state.Initialized? ==> s.record.value.state.Initialized?)
          && (s'.record.value.state.Running? ==> !s.record.value.state.IsTerminal()))
    && s.rev <= s'.rev && (s.rev == s'.rev ==> s'.record == s.record)
    && s.published <= s'.published && s.nextMsg <= s'.nextMsg
    && (forall m :: m in s'.messages && m < s.nextMsg ==> m in s.messages && s'.messages[m] == s.messages[m])
    && s.waited <= s'.waited
    && (forall i :: i in s.closers ==> i in s'.closers && s'.closers[i] == s.closers[i])
  }

  lemma ProcessStable(s: System, s': System, process: Process)
    requires Grows(s, s') && ProcessOk(s, process)
    ensures ProcessOk(s', process)
  {
  }

  /** An event that leaves the record alone, apart from creating it, and moves one process to a good phase. */
  lemma SafeAfter(s: System, s': System, p: nat)
    requires Safe(s) && Grows(s, s') && RecordOk(s')
    requires forall m :: m in s'.messages ==> m < s'.nextMsg && s'.messages[m] in s'.published
    requires s'.processes - {p} == s.processes - {p}
    requires p in s'.processes ==> ProcessOk(s', s'.processes[p])
    ensures Safe(s')
  {
    forall q | q in s'.processes ensures ProcessOk(s', s'.processes[q]) {
      if q != p {
        assert q in s'.processes - {p};
        ProcessStable(s, s', s.processes[q]);
      }
    }
  }

  /** Moving a process changes nothing that others rely on. */
  lemma SameWorld(s: System, s1: System, p: nat, next: Option<Phase>)
    requires At(s1, p) && Grows(s, s1) && RecordOk(s1)
    ensures Grows(s, Continue(s1, p, next)) && RecordOk(Continue(s1, p, next)) && Grows(s1, Continue(s1, p, next))
  {
  }

  /** The state has grown to `s1` and process `p` continues there with a good phase, or leaves. */
  lemma SafeContinue(s: System, s1: System, p: nat, next: Option<Phase>)
    requires Safe(s) && At(s, p) && Grows(s, s1) && RecordOk(s1) && s1.processes == s.processes
    requires forall m :: m in s1.messages ==> m < s1.nextMsg && s1.messages[m] in s1.published
    requires next.Some? ==> PhaseOk(s1, s.processes[p].role, next.value)
    ensures Safe(Continue(s1, p, next)) && Grows(s, Continue(s1, p, next))
  {
    var s' := Continue(s1, p, next);
    var role := s.processes[p].role;
    assert RoleOk(s, role) by {
      assert ProcessOk(s, s.processes[p]);
    }
    hide Safe, RecordOk, Grows, PhaseOk, RoleOk;
    SameWorld(s, s1, p, next);
    RoleStable(s, s', role);
    if next.Some? {
      PhaseStable(s1, s', role, next.value);
    }
    SafeAfter(s, s', p);
  }

  lemma RoleStable(s: System, s': System, role: Role)
    requires Grows(s, s') && RoleOk(s, role)
    ensures RoleOk(s', role)
  {
  }

  lemma PhaseStable(s: System, s': System, role: Role, phase: Phase)
    requires Grows(s, s') && PhaseOk(s, role, phase)
    ensures PhaseOk(s', role, phase)
  {
  }

  /** Only one process moves; messages may be removed. */
  ghost predicate Moves(s: System, s': System, p: nat) {
    && s'.record == s.record && s'.rev == s.rev && s'.published == s.published && s'.nextMsg == s.nextMsg
    && s'.committed == s.committed && s'.waited == s.waited && s'.closers == s.closers
    && (forall m :: m in s'.messages ==> m in s.messages && s'.messages[m] == s.messages[m])
    && s'.processes - {p} == s.processes - {p}
  }

  lemma SafeMove(s: System, s': System, p: nat)
    requires Safe(s) && Moves(s, s', p)
    requires p in s'.processes ==> ProcessOk(s', s'.processes[p])
    ensures Safe(s') && Grows(s, s')
  {
    SafeAfter(s, s', p);
  }

  // ----- Every event keeps the invariant -----

  lemma SafeCommit(s: System, role: Role, write: Write, local: Local, cur: Orchestration)
    requires RecordOk(s) && RoleOk(s, role) && MayWrite(s, role, write) && OwnSnapshot(s, local, cur, s.rev)
    ensures
      var s1 := Commit(s, write, ActivityOf(role), Apply(write, ActivityOf(role), local, cur));
      Grows(s, s1) && RecordOk(s1)
  {
    var s1 := Commit(s, write, ActivityOf(role), Apply(write, ActivityOf(role), local, cur));
    assert Grows(s, s1);
    if write.Finish? {
      var steps := s.record.value.steps;
      assert StepIds(steps[0]) <= s.record.value.completed;
    }
    forall i, a | InStep(s1.record.value.steps, i, a) && a in s1.published ensures DoneBefore(s1, i) {
      assert DoneBefore(s, i);
    }
  }

  /** After the completion that makes a step complete, all steps up to it are. */
  lemma NextStepMayBegin(s: System, activity: Id)
    requires RecordOk(s) && s.record.Some? && activity in s.published && activity in s.record.value.completed
    requires CanProceed(s.record.value, activity) == Some(true)
    ensures DoneBefore(s, StepIndex(s.record.value.steps, activity) + 1)
  {
    var o := s.record.value;
    var i := StepIndex(o.steps, activity);
    assert InStep(o.steps, i, activity);
    assert DoneBefore(s, i);
    assert StepIds(o.steps[i]) <= o.completed;
  }

  /** Where a process continues after `o` was written as the record. */
  lemma NextOk(s: System, role: Role, write: Write, o: Orchestration)
    requires RecordOk(s) && s.record == Some(o) && RoleOk(s, role) && (write.MarkRunning? <==> role.Starter?)
    requires write.Complete? ==> role.activity in o.completed
    requires write.MarkRunning? ==> !o.state.Initialized?
    ensures
      var next := AfterWrite(write, ActivityOf(role), o, s.rev);
      next.Some? ==> PhaseOk(s, role, next.value)
  {
    if write.Complete? {
      if CanProceed(o, role.activity) == Some(true) {
        NextStepMayBegin(s, role.activity);
      }
      hide RecordOk, CanProceed, DoneUpTo;
      CompletionMayFinish(s, role.activity);
    }
  }

  lemma CompletionMayFinish(s: System, activity: Id)
    requires s.record.Some?
    ensures
      var o := s.record.value;
      var i := StepIndex(o.steps, activity);
      i + 1 == |o.steps| && DoneBefore(s, i + 1) ==> AllDone(o.steps, o.completed)
  {
  }

  lemma SafeNext(s: System, role: Role, write: Write, local: Local, cur: Orchestration)
    requires RecordOk(s) && RoleOk(s, role) && MayWrite(s, role, write) && OwnSnapshot(s, local, cur, s.rev)
    ensures
      var o := Apply(write, ActivityOf(role), local, cur);
      var s1 := Commit(s, write, ActivityOf(role), o);
      var next := AfterWrite(write, ActivityOf(role), o, s.rev + 1);
      next.Some? ==> PhaseOk(s1, role, next.value)
  {
    hide RecordOk, RoleOk, PhaseOk, AfterWrite, Grows;
    SafeCommit(s, role, write, local, cur);
    var o := Apply(write, ActivityOf(role), local, cur);
    var s1 := Commit(s, write, ActivityOf(role), o);
    RoleStable(s, s1, role);
    CommitIs(s, write, ActivityOf(role), o);
    NextOk(s1, role, write, o);
  }

  lemma CommitIs(s: System, write: Write, a: Id, o: Orchestration)
    ensures var s1 := Commit(s, write, a, o); s1.record == Some(o) && s1.rev == s.rev + 1
  {
  }

  lemma MayWriteAt(s: System, p: nat)
    requires Safe(s) && At(s, p) && PhaseOf(s, p).Writing?
    ensures
      var Writing(write, local, cur, rev, _) := PhaseOf(s, p);
      var role := s.processes[p].role;
      RoleOk(s, role) && MayWrite(s, role, write) && OwnSnapshot(s, local, cur, rev)
  {
    assert ProcessOk(s, s.processes[p]);
  }

  lemma SafeConflict(s: System, p: nat, conflict: bool)
    requires Safe(s) && At(s, p) && PhaseOf(s, p).Writing?
    ensures
      var Writing(write, local, _, _, conflicts) := PhaseOf(s, p);
      var next := AfterConflict(write, local, conflicts, conflict);
      next.Some? ==> PhaseOk(s, s.processes[p].role, next.value)
  {
    assert ProcessOk(s, s.processes[p]);
    hide RecordOk;
  }

  lemma SafeUpdate(s: System, p: nat, outcome: Outcome)
    requires Safe(s) && At(s, p) && PhaseOf(s, p).Writing?
    ensures Safe(DoUpdate(s, p, outcome)) && Grows(s, DoUpdate(s, p, outcome))
  {
    hide RecordOk, Apply, AfterWrite, CanProceed, PhaseOk, AfterConflict;
    var Writing(write, local, cur, rev, conflicts) := PhaseOf(s, p);
    var role := s.processes[p].role;
    var activity := ActivityOf(role);
    MayWriteAt(s, p);
    SafeConflict(s, p, outcome.Reply?);
    if Lands(s, rev, outcome) {
      SafeCommit(s, role, write, local, cur);
      SafeNext(s, role, write, local, cur);
      var o := Apply(write, activity, local, cur);
      var s1 := Commit(s, write, activity, o);
      FailedWriteOk(s1, role, write);
      var next := if outcome.Reply? then AfterWrite(write, activity, o, s.rev + 1) else AfterFailedWrite(write);
      SafeContinue(s, s1, p, next);
    } else {
      SafeContinue(s, s, p, AfterConflict(write, local, conflicts, outcome.Reply?));
    }
  }

  lemma FailedWriteOk(s: System, role: Role, write: Write)
    requires write.MarkRunning? <==> role.Starter?
    ensures AfterFailedWrite(write).Some? ==> PhaseOk(s, role, AfterFailedWrite(write).value)
  {
  }

  /** The record that a caller of Execute creates. */
  lemma CreateGrows(s: System, content: Orchestration)
    requires Safe(s) && s.record.None? && Fresh(content)
    ensures
      var s1 := s.(record := Some(content), rev := s.rev + 1);
      && Grows(s, s1) && RecordOk(s1) && DoneBefore(s1, 0)
      && (forall m :: m in s1.messages ==> m < s1.nextMsg && s1.messages[m] in s1.published)
  {
  }

  lemma StoringAt(s: System, p: nat)
    requires Safe(s) && At(s, p) && PhaseOf(s, p).Storing?
    ensures var role := s.processes[p].role; role.Starter? && (Fresh(role.content) || s.record.Some?)
  {
    assert ProcessOk(s, s.processes[p]);
  }

  lemma FirstOfFresh(o: Orchestration)
    requires Fresh(o)
    ensures FirstStep(o.steps) == 0 && |o.steps| > 0
  {
  }

  lemma SafeStays(s: System, p: nat, next: Option<Phase>)
    requires Safe(s) && At(s, p) && (next.Some? ==> PhaseOk(s, s.processes[p].role, next.value))
    ensures Safe(Continue(s, p, next)) && Grows(s, Continue(s, p, next))
  {
    assert Grows(s, s) && RecordOk(s);
    hide Grows, RecordOk, PhaseOk;
    SafeContinue(s, s, p, next);
  }

  lemma SafeStore(s: System, p: nat, outcome: Outcome)
    requires Safe(s) && IsStarter(s, p) && PhaseOf(s, p).Storing?
    ensures Safe(DoStore(s, p, outcome)) && Grows(s, DoStore(s, p, outcome))
  {
    hide Safe, Grows, RecordOk, Fresh, DoneBefore;
    StoringAt(s, p);
    var content := s.processes[p].role.content;
    var s1 := s.(record := Some(content), rev := s.rev + 1);
    if s.record.Some? {
      SafeStays(s, p, Some(if outcome.Reply? then ReadingExisting else Returned(false)));
    } else if outcome.Reply? {
      CreateGrows(s, content);
      FirstOfFresh(content);
      SafeContinue(s, s1, p, Some(Publishing(content, s.rev + 1, 0, 0)));
    } else if outcome.applied {
      CreateGrows(s, content);
      SafeContinue(s, s1, p, Some(Returned(false)));
    } else {
      SafeStays(s, p, Some(Returned(false)));
    }
  }

  lemma SafeEnqueue(s: System, step: nat, next: nat, duplicate: bool)
    requires Safe(s) && s.record.Some? && DoneBefore(s, step)
    requires step < |s.record.value.steps| && next < |s.record.value.steps[step]|
    ensures
      var id := s.record.value.steps[step][next].id;
      var s1 := Enqueue(s, id, duplicate);
      && Grows(s, s1) && RecordOk(s1) && id in s1.published
      && (forall m :: m in s1.messages ==> m < s1.nextMsg && s1.messages[m] in s1.published)
  {
    var o := s.record.value;
    var id := o.steps[step][next].id;
    var s1 := Enqueue(s, id, duplicate);
    assert o.steps[step][next] in o.steps[step];
    assert InStep(o.steps, step, id);
    forall i, a | InStep(o.steps, i, a) && a in s1.published ensures DoneBefore(s1, i) {
      assert a != id ==> DoneBefore(s, i);
    }
  }

  lemma SafePublish(s: System, p: nat, ok: bool, stored: bool, duplicate: bool)
    requires Safe(s) && At(s, p) && PhaseOf(s, p).Publishing?
    ensures Safe(DoPublish(s, p, ok, stored, duplicate)) && Grows(s, DoPublish(s, p, ok, stored, duplicate))
  {
    hide RecordOk;
    var Publishing(cur, rev, step, next) := PhaseOf(s, p);
    var role := s.processes[p].role;
    assert ProcessOk(s, s.processes[p]);
    if next == |cur.steps[step]| {
      assert role.Starter? ==> FirstPublished(s);
      SafeContinue(s, s, p, Some(AfterPublishing(role, cur, rev)));
    } else {
      var s1 := s;
      if ok || stored {
        SafeEnqueue(s, step, next, duplicate);
        s1 := Enqueue(s, cur.steps[step][next].id, duplicate);
        ProcessStable(s, s1, s.processes[p]);
      }
      SafeContinue(s, s1, p, if ok then Some(Publishing(cur, rev, step, next + 1)) else AfterFailedPublish(role));
    }
  }

  /** Whatever follows a read is a good phase for the record that was read. */
  lemma ReadOk(s: System, role: Role)
    requires s.record.Some? && role.Executor?
    ensures PhaseOk(s, role, AfterRead(role, s.record.value, s.rev))
  {
  }

  lemma SafeRead(s: System, p: nat, ok: bool)
    requires Safe(s) && IsExecutor(s, p) && PhaseOf(s, p).Reading? && s.record.Some?
    ensures Safe(DoRead(s, p, ok)) && Grows(s, DoRead(s, p, ok))
  {
    hide Safe, Grows, AfterRead, PhaseOk;
    if ok {
      ReadOk(s, s.processes[p].role);
      SafeStays(s, p, Some(AfterRead(s.processes[p].role, s.record.value, s.rev)));
    } else {
      SafeMove(s, DoRead(s, p, ok), p);
    }
  }

  lemma SafeRun(s: System, p: nat, result: Result, values: Data, maxRetries: Limits)
    requires Safe(s) && IsExecutor(s, p) && PhaseOf(s, p).Working?
    ensures var s' := DoRun(s, p, result, values, maxRetries); Safe(s') && Grows(s, s')
  {
    assert ProcessOk(s, s.processes[p]);
    hide Grows, RecordOk;
    SafeMove(s, DoRun(s, p, result, values, maxRetries), p);
  }

  lemma SafeReread(s: System, p: nat, ok: bool)
    requires Safe(s) && At(s, p) && PhaseOf(s, p).Rereading? && s.record.Some?
    ensures Safe(DoReread(s, p, ok)) && Grows(s, DoReread(s, p, ok))
  {
    assert ProcessOk(s, s.processes[p]);
    var Rereading(write, local, conflicts) := PhaseOf(s, p);
    hide RecordOk;
    SafeContinue(s, s, p,
      if ok then Some(Writing(write, local, s.record.value, s.rev, conflicts)) else AfterFailedWrite(write));
  }

  lemma SafeReadExisting(s: System, p: nat, ok: bool)
    requires Safe(s) && IsStarter(s, p) && PhaseOf(s, p).ReadingExisting? && s.record.Some?
    ensures Safe(DoReadExisting(s, p, ok)) && Grows(s, DoReadExisting(s, p, ok))
  {
    assert ProcessOk(s, s.processes[p]);
    assert |s.record.value.steps| > 0 && |s.record.value.steps[0]| > 0;
    hide Grows, RecordOk;
    SafeMove(s, DoReadExisting(s, p, ok), p);
  }

  lemma SafeRespond(s: System, p: nat, ok: bool)
    requires Safe(s) && At(s, p) && PhaseOf(s, p).Responding?
    ensures Safe(DoRespond(s, p, ok)) && Grows(s, DoRespond(s, p, ok))
  {
    assert ProcessOk(s, s.processes[p]);
    hide Grows, RecordOk;
    SafeMove(s, DoRespond(s, p, ok), p);
  }

  lemma SafeLeave(s: System, s': System, p: nat)
    requires Safe(s) && At(s, p) && (s' == Gone(s, p) || s' == DoAck(s, p, true))
    ensures Safe(s') && Grows(s, s')
  {
    assert ProcessOk(s, s.processes[p]);
    hide Grows, RecordOk;
    SafeMove(s, s', p);
  }

  lemma SafeArrival(s: System, p: nat, a: Action, maxRetries: Limits)
    requires Safe(s) && Enabled(s, p, a) && (a.Call? || a.Deliver?)
    ensures Safe(Do(s, p, a, maxRetries)) && Grows(s, Do(s, p, a, maxRetries))
  {
    SafeMove(s, Do(s, p, a, maxRetries), p);
  }

  lemma SafeEvent(s: System, p: nat, a: Action, maxRetries: Limits)
    requires Safe(s) && Enabled(s, p, a)
    ensures Safe(Do(s, p, a, maxRetries)) && Grows(s, Do(s, p, a, maxRetries))
  {
    hide Safe, Grows;
    match a
    case Store(outcome) => SafeStore(s, p, outcome);
    case Update(outcome) => SafeUpdate(s, p, outcome);
    case Publish(ok, stored, duplicate) => SafePublish(s, p, ok, stored, duplicate);
    case Read(ok) => SafeRead(s, p, ok);
    case Run(result, values) => SafeRun(s, p, result, values, maxRetries);
    case Reread(ok) => SafeReread(s, p, ok);
    case ReadExisting(ok) => SafeReadExisting(s, p, ok);
    case Respond(ok) => SafeRespond(s, p, ok);
    case Call(_) => SafeArrival(s, p, a, maxRetries);
    case Deliver(_, _) => SafeArrival(s, p, a, maxRetries);
    case _ => SafeLeave(s, Do(s, p, a, maxRetries), p);
  }
}
