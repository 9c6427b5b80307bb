/** Completed and Errored exclude each other, as long as an activity has one handler at a time that may write for it,
    and no message reaches its final delivery. */
module EngineTerminal {
  import opened Options
  import opened Orchestrations
  import opened Engine
  import opened EngineSafety

  /** The handler may still merge what it has read, or is about to read, into the record. */
  predicate Merging(phase: Phase) {
    phase.Reading? || phase.Working? || ((phase.Writing? || phase.Rereading?) && Carries(phase.write))
  }

  predicate IsMerging(s: System, p: nat) { IsExecutor(s, p) && Merging(PhaseOf(s, p)) }

  /** The hypothesis: a message is not delivered while another handler of its activity may still merge its copy into the
      record, nor for the last time. */
  ghost predicate OneWriter(s: System, p: nat, a: Action) {
    a.Deliver? ==>
      && !a.final
      && forall q :: IsMerging(s, q) && a.msg in s.messages ==> s.processes[q].role.activity != s.messages[a.msg]
  }

  predicate Writes(phase: Phase, write: Write) {
    (phase.Writing? && phase.write == write) || (phase.Rereading? && phase.write == write)
  }

  /** The handler is running its activity or recording its fatal error. */
  predicate MayFail(phase: Phase) {
    phase.Working? || Writes(phase, Fatal)
  }

  ghost predicate HandlerOk(s: System, process: Process) {
    process.role.Executor? ==>
      && !process.role.final
      && (MayFail(process.phase) ==> s.record.Some? && process.role.activity !in s.record.value.completed)
  }

  ghost predicate Erroneous(s: System) {
    s.record.Some? && s.record.value.state.Errored?
  }

  ghost predicate Exclusive(s: System) {
    && (forall p, q :: IsMerging(s, p) && IsMerging(s, q) && p != q ==>
          s.processes[p].role.activity != s.processes[q].role.activity)
    && (forall p :: p in s.processes ==> HandlerOk(s, s.processes[p]))
    && (Erroneous(s) ==> forall p :: p in s.processes ==> !Writes(s.processes[p].phase, Finish))
  }

  /** What one step may do to the completed set and the state. */
  ghost predicate Advances(s: System, s': System, p: nat) {
    && (s.record.Some? ==> s'.record.Some?)
    && (forall a :: s.record.Some? && a in s'.record.value.completed && a !in s.record.value.completed ==>
          IsMerging(s, p) && a == s.processes[p].role.activity)
    && (IsMerging(s', p) ==> IsMerging(s, p))
    && (Erroneous(s') && !Erroneous(s) ==> IsExecutor(s, p) && Writes(s.processes[p].phase, Fatal))
    && (p in s'.processes && Writes(s'.processes[p].phase, Finish) ==>
          At(s, p) && (Writes(s.processes[p].phase, Finish) || !Erroneous(s')))
    && (IsExecutor(s', p) && MayFail(s'.processes[p].phase) ==>
          s'.record.Some? && s.record == s'.record && At(s, p) &&
          (MayFail(s.processes[p].phase) || s'.processes[p].role.activity !in s'.record.value.completed))
  }

  lemma ExclusiveAfter(s: System, s': System, p: nat)
    requires Safe(s) && Exclusive(s) && Advances(s, s', p)
    requires Moved(s, s', p) && (At(s', p) ==> At(s, p))
    ensures Exclusive(s')
  {
    OthersStay(s, s', p);
    hide Moved;
    forall q | q in s'.processes ensures HandlerOk(s', s'.processes[q]) {
      if q != p {
        assert HandlerOk(s, s.processes[q]);
      } else if p in s.processes {
        assert HandlerOk(s, s.processes[p]);
      }
    }
    if Erroneous(s') {
      forall q | q in s'.processes ensures !Writes(s'.processes[q].phase, Finish) {
        if Writes(s'.processes[q].phase, Finish) && !Erroneous(s) {
          NoFailureOnceDone(s, p, q);
        }
      }
    }
  }

  /** Once everything is complete, no handler is left that could record a fatal error. */
  lemma NoFailureOnceDone(s: System, p: nat, q: nat)
    requires Safe(s) && Exclusive(s)
    requires At(s, q) && Writes(s.processes[q].phase, Finish)
    ensures !(IsExecutor(s, p) && Writes(s.processes[p].phase, Fatal))
  {
    assert ProcessOk(s, s.processes[q]);
    if IsExecutor(s, p) && Writes(s.processes[p].phase, Fatal) {
      assert ProcessOk(s, s.processes[p]) && HandlerOk(s, s.processes[p]);
      AllPublishedDone(s, s.processes[p].role.activity);
      assert false;
    }
  }

  lemma AllPublishedDone(s: System, a: Id)
    requires RecordOk(s) && s.record.Some? && AllDone(s.record.value.steps, s.record.value.completed) && a in s.published
    ensures a in s.record.value.completed
  {
    var i :| InStep(s.record.value.steps, i, a);
  }

  lemma AdvancesUpdate(s: System, p: nat, outcome: Outcome)
    requires Safe(s) && At(s, p) && PhaseOf(s, p).Writing?
    ensures Advances(s, DoUpdate(s, p, outcome), p)
  {
    hide Safe, RecordOk, CanProceed, Commit, Apply, AfterWrite;
    MayWriteAt(s, p);
    if Lands(s, PhaseOf(s, p).rev, outcome) {
      AdvancesCommit(s, p, outcome);
    }
  }

  lemma AdvancesCommit(s: System, p: nat, outcome: Outcome)
    requires Safe(s) && At(s, p) && PhaseOf(s, p).Writing? && Lands(s, PhaseOf(s, p).rev, outcome)
    ensures Advances(s, DoUpdate(s, p, outcome), p)
  {
    hide Safe, RecordOk, AfterWrite, Advances;
    MayWriteAt(s, p);
    var Writing(write, local, cur, rev, conflicts) := PhaseOf(s, p);
    var a := ActivityOf(s.processes[p].role);
    var o := Apply(write, a, local, cur);
    var s1 := Commit(s, write, a, o);
    assert s1.record == Some(o) && s1.processes == s.processes;
    NoFailureAfter(write, a, o, s.rev + 1);
    AdvancesContinue(s, s1, p, if outcome.Reply? then AfterWrite(write, a, o, s.rev + 1) else AfterFailedWrite(write));
  }

  lemma AdvancesContinue(s: System, s1: System, p: nat, next: Option<Phase>)
    requires At(s, p) && s1.processes == s.processes && s1.record.Some? && s.record.Some?
    requires forall a :: a in s1.record.value.completed && a !in s.record.value.completed ==>
               IsMerging(s, p) && a == s.processes[p].role.activity
    requires Erroneous(s1) && !Erroneous(s) ==> IsExecutor(s, p) && Writes(PhaseOf(s, p), Fatal)
    requires next.Some? ==> !Merging(next.value) && (Writes(next.value, Finish) ==> !Erroneous(s1))
    ensures Advances(s, Continue(s1, p, next), p)
  {
  }

  /** A handler goes on to mark the orchestration completed only if it found it not errored. */
  lemma NoFailureAfter(write: Write, a: Id, o: Orchestration, rev: nat)
    ensures
      var next := AfterWrite(write, a, o, rev);
      next.Some? ==> !Merging(next.value) && (Writes(next.value, Finish) ==> !o.state.Errored?)
  {
    hide CanProceed;
  }

  lemma AdvancesStore(s: System, p: nat, outcome: Outcome)
    requires Safe(s) && IsStarter(s, p) && PhaseOf(s, p).Storing?
    ensures Advances(s, DoStore(s, p, outcome), p)
  {
    assert ProcessOk(s, s.processes[p]);
    hide Safe, RecordOk;
  }

  lemma AdvancesPublish(s: System, p: nat, ok: bool, stored: bool, duplicate: bool)
    requires Safe(s) && At(s, p) && PhaseOf(s, p).Publishing?
    ensures Advances(s, DoPublish(s, p, ok, stored, duplicate), p)
  {
    hide Safe, RecordOk;
    var Publishing(cur, rev, step, next) := PhaseOf(s, p);
  }

  lemma AdvancesOther(s: System, p: nat, a: Action, maxRetries: Limits)
    requires Safe(s) && Exclusive(s) && Enabled(s, p, a)
    requires !a.Update? && !a.Store? && !a.Publish? && !a.Deliver? && !a.Call?
    ensures Advances(s, Do(s, p, a, maxRetries), p)
  {
    MayFailAt(s, p);
    hide Safe, Exclusive, AfterRun, AfterRead, Advances;
    if a.Read? {
      AdvancesRead(s, p, a.ok);
    } else {
      if a.Run? {
        RunFails(s, p, a.result, a.values, maxRetries);
      }
      AdvancesQuietly(s, Do(s, p, a, maxRetries), p);
    }
  }

  lemma MayFailAt(s: System, p: nat)
    requires Safe(s) && Exclusive(s) && At(s, p)
    ensures IsExecutor(s, p) ==> !s.processes[p].role.final
    ensures IsExecutor(s, p) && MayFail(PhaseOf(s, p)) ==> s.record.Some?
  {
    assert HandlerOk(s, s.processes[p]);
  }

  /** The record stays and the process does not get closer to a terminal write. */
  lemma AdvancesQuietly(s: System, s': System, p: nat)
    requires At(s, p) && s'.record == s.record
    requires IsExecutor(s, p) && MayFail(PhaseOf(s, p)) ==> s.record.Some?
    requires At(s', p) ==>
      && s'.processes[p].role == s.processes[p].role
      && (Writes(PhaseOf(s', p), Finish) ==> Writes(PhaseOf(s, p), Finish))
      && (MayFail(PhaseOf(s', p)) ==> MayFail(PhaseOf(s, p)))
      && (Merging(PhaseOf(s', p)) ==> Merging(PhaseOf(s, p)))
    ensures Advances(s, s', p)
  {
  }

  lemma RunFails(s: System, p: nat, result: Result, values: Data, maxRetries: Limits)
    requires IsExecutor(s, p) && PhaseOf(s, p).Working?
    ensures var s' := DoRun(s, p, result, values, maxRetries); !Writes(PhaseOf(s', p), Finish)
  {
  }

  lemma AdvancesRead(s: System, p: nat, ok: bool)
    requires IsExecutor(s, p) && PhaseOf(s, p).Reading? && s.record.Some? && !s.processes[p].role.final
    ensures Advances(s, DoRead(s, p, ok), p)
  {
  }

  lemma ExclusiveArrival(s: System, p: nat, a: Action, maxRetries: Limits)
    requires Safe(s) && Exclusive(s) && Enabled(s, p, a) && OneWriter(s, p, a) && (a.Deliver? || a.Call?)
    ensures Exclusive(Do(s, p, a, maxRetries))
  {
    hide Safe;
    var s' := Do(s, p, a, maxRetries);
    forall q | q in s'.processes ensures HandlerOk(s', s'.processes[q]) {
      assert q != p ==> HandlerOk(s, s.processes[q]);
    }
  }

  lemma ExclusiveEvent(s: System, p: nat, a: Action, maxRetries: Limits)
    requires Safe(s) && Exclusive(s) && Enabled(s, p, a) && OneWriter(s, p, a)
    ensures Exclusive(Do(s, p, a, maxRetries))
  {
    hide Safe, Exclusive, Advances, OneWriter, Commit, Apply, AfterWrite, AfterRead, AfterRun, Enqueue;
    if a.Call? || a.Deliver? {
      ExclusiveArrival(s, p, a, maxRetries);
    } else {
      match a {
        case Update(outcome) => AdvancesUpdate(s, p, outcome);
        case Store(outcome) => AdvancesStore(s, p, outcome);
        case Publish(ok, stored, duplicate) => AdvancesPublish(s, p, ok, stored, duplicate);
        case _ => AdvancesOther(s, p, a, maxRetries);
      }
      OnlyMoves(s, p, a, maxRetries);
      ExclusiveAfter(s, Do(s, p, a, maxRetries), p);
    }
  }

  lemma UpdateKeepsTerminal(s: System, p: nat, outcome: Outcome)
    requires Safe(s) && Exclusive(s) && At(s, p) && PhaseOf(s, p).Writing?
    requires s.record.Some? && s.record.value.state.IsTerminal()
    ensures
      var s' := DoUpdate(s, p, outcome);
      s'.record.Some? && s'.record.value.state == s.record.value.state
  {
    MayWriteAt(s, p);
    assert HandlerOk(s, s.processes[p]);
    if Writes(s.processes[p].phase, Fatal) && s.record.value.state.Completed? {
      AllPublishedDone(s, s.processes[p].role.activity);
    }
    hide Safe, RecordOk, Exclusive, AfterWrite;
  }

  /** A terminal state is never left, neither for a live state nor for the other terminal state. */
  lemma TerminalStays(s: System, p: nat, a: Action, maxRetries: Limits)
    requires Safe(s) && Exclusive(s) && Enabled(s, p, a)
    requires s.record.Some? && s.record.value.state.IsTerminal()
    ensures var s' := Do(s, p, a, maxRetries); s'.record.Some? && s'.record.value.state == s.record.value.state
  {
    hide Safe, Exclusive, DoUpdate;
    if a.Update? {
      UpdateKeepsTerminal(s, p, a.outcome);
    } else {
      OnlyUpdatesWrite(s, p, a, maxRetries);
    }
  }
}
