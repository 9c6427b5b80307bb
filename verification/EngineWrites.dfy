/** What handlers write and where they go on, field by field: nothing here is said through the functions of the step
    system that the code follows. */
module EngineWrites {
  import opened Options
  import opened Orchestrations
  import opened Engine
  import opened EngineSafety
  import opened EngineTheorems

  // ----- What a write leaves in the record -----

  /** Every key has its value in the other map. */
  ghost predicate Holds<K(!new), V(!new)>(m: map<K, V>, values: map<K, V>) {
    forall key :: key in values ==> key in m && m[key] == values[key]
  }

  /** The two agree on the key: the same value, or none. */
  predicate SameAt<K, V(==)>(m: map<K, V>, n: map<K, V>, key: K) {
    (key in m <==> key in n) && (key in m ==> m[key] == n[key])
  }

  /** In every reachable state, after any number of conflicts, a write of an executor that lands leaves the steps alone;
      adds the activity to the completed ones if it completes it; makes the state Errored if it reports a fatal error,
      Completed if it ends the orchestration, and keeps it otherwise. Unless it ends the orchestration, every data key
      of the handler has its value in the record, every retry count that it carries is stored, and what it does not
      carry is kept, but for keys that the handler has read and deleted: those are gone if there was no conflict, and
      kept if there was one. */
  lemma WriteLands(events: seq<Event>, maxRetries: Limits, p: nat, outcome: Outcome)
    requires IsRun(INIT, events, maxRetries, ANY)
    requires var s := After(INIT, events, maxRetries);
      IsExecutor(s, p) && PhaseOf(s, p).Writing? && Lands(s, PhaseOf(s, p).rev, outcome)
    ensures
      var s := After(INIT, events, maxRetries);
      var s' := Do(s, p, Update(outcome), maxRetries);
      var Process(role, Writing(write, local, _, _, conflicts)) := s.processes[p];
      && s.record.Some? && s'.record.Some? && s'.rev == s.rev + 1 && !write.MarkRunning?
      && var before, o := s.record.value, s'.record.value;
      && o.steps == before.steps
      && o.completed == (if write.Complete? then before.completed + {role.activity} else before.completed)
      && o.state == (if write.Fatal? then Errored else if write.Finish? then Completed else before.state)
      && (if write.Finish? then o.data == before.data && o.retries == before.retries
          else
            && Holds(o.data, local.values)
            && (forall key :: key !in local.values ==>
                  if conflicts == 0 && key in local.held then key !in o.data else SameAt(o.data, before.data, key))
            && (forall a :: if a in local.retries then a in o.retries && o.retries[a] == local.retries[a]
                            else SameAt(o.retries, before.retries, a)))
  {
    InitSafe();
    RunSafe(INIT, events, maxRetries, ANY);
    hide Safe, IsRun, After, Grows, DoUpdate, Holds, SameAt;
    WriteLandsAt(After(INIT, events, maxRetries), p, outcome);
  }

  lemma WriteLandsAt(s: System, p: nat, outcome: Outcome)
    requires Safe(s) && IsExecutor(s, p) && PhaseOf(s, p).Writing? && Lands(s, PhaseOf(s, p).rev, outcome)
    ensures
      var s' := DoUpdate(s, p, outcome);
      var Process(role, Writing(write, local, _, _, conflicts)) := s.processes[p];
      && s.record.Some? && s'.record.Some? && s'.rev == s.rev + 1 && !write.MarkRunning?
      && var before, o := s.record.value, s'.record.value;
      && o.steps == before.steps
      && o.completed == (if write.Complete? then before.completed + {role.activity} else before.completed)
      && o.state == (if write.Fatal? then Errored else if write.Finish? then Completed else before.state)
      && (if write.Finish? then o.data == before.data && o.retries == before.retries
          else DataMerged(local, conflicts, before.data, o.data) && CountsMerged(local, before.retries, o.retries))
  {
    hide Safe, AfterWrite, DoUpdate, Apply, DataMerged, CountsMerged;
    LandsOnCurrent(s, p);
    LandsAs(s, p, outcome);
    CountsCarried(s, p);
    var Process(role, Writing(write, local, cur, _, conflicts)) := s.processes[p];
    Applied(write, role.activity, local, cur);
    if !write.Finish? {
      Merged(local, conflicts, s.record.value, cur);
    }
  }

  ghost predicate DataMerged(local: Local, conflicts: nat, before: Data, after: Data) {
    && Holds(after, local.values)
    && forall key :: key !in local.values ==>
         if conflicts == 0 && key in local.held then key !in after else SameAt(after, before, key)
  }

  ghost predicate CountsMerged(local: Local, before: map<Id, nat>, after: map<Id, nat>) {
    forall a :: if a in local.retries then a in after && after[a] == local.retries[a] else SameAt(after, before, a)
  }

  lemma Merged(local: Local, conflicts: nat, before: Orchestration, cur: Orchestration)
    requires conflicts > 0 ==> cur == before
    requires conflicts == 0 ==>
      && cur.data == local.values && cur.retries == local.retries && before.retries.Keys <= local.retries.Keys
      && (cur.data == before.data || before.data.Keys <= local.held)
    ensures DataMerged(local, conflicts, before.data, cur.data + local.values)
    ensures CountsMerged(local, before.retries, cur.retries + local.retries)
  {
  }

  lemma CountsCarried(s: System, p: nat)
    requires Safe(s) && IsExecutor(s, p) && PhaseOf(s, p).Writing? && PhaseOf(s, p).rev == s.rev
    ensures
      var Writing(write, local, cur, _, conflicts) := PhaseOf(s, p);
      && s.record.Some? && !write.MarkRunning?
      && (conflicts == 0 && Carries(write) ==> s.record.value.retries.Keys <= local.retries.Keys)
  {
    assert ProcessOk(s, s.processes[p]);
  }

  lemma Applied(write: Write, a: Id, local: Local, cur: Orchestration)
    requires !write.MarkRunning?
    ensures
      var o := Apply(write, a, local, cur);
      && o.steps == cur.steps
      && o.completed == (if write.Complete? then cur.completed + {a} else cur.completed)
      && o.state == (if write.Fatal? then Errored else if write.Finish? then Completed else cur.state)
      && o.data == (if write.Finish? then cur.data else cur.data + local.values)
      && o.retries == (if write.Finish? then cur.retries else cur.retries + local.retries)
  {
  }

  /** The write of a caller of Execute makes an orchestration Running that is Initialized, and changes nothing else. */
  lemma MarkRunningLands(events: seq<Event>, maxRetries: Limits, p: nat, outcome: Outcome)
    requires IsRun(INIT, events, maxRetries, ANY)
    requires var s := After(INIT, events, maxRetries);
      IsStarter(s, p) && PhaseOf(s, p).Writing? && Lands(s, PhaseOf(s, p).rev, outcome)
    ensures
      var s := After(INIT, events, maxRetries);
      var s' := Do(s, p, Update(outcome), maxRetries);
      && s.record.Some? && s'.record.Some?
      && var before, o := s.record.value, s'.record.value;
      && o.state == (if before.state.Initialized? then Running else before.state)
      && o.steps == before.steps && o.completed == before.completed && o.data == before.data && o.retries == before.retries
  {
    InitSafe();
    RunSafe(INIT, events, maxRetries, ANY);
    var s := After(INIT, events, maxRetries);
    hide IsRun, After, Grows, DoUpdate, RecordOk;
    assert ProcessOk(s, s.processes[p]);
    hide Safe;
    LandsOnCurrent(s, p);
    LandsAs(s, p, outcome);
  }

  /** A write that meets a newer revision is tried again until its 50th conflict; then a fatal error is acknowledged
      unrecorded, a call of Execute fails, and any other message is left to be delivered again. */
  lemma ConflictsAreRetried(s: System, p: nat)
    requires At(s, p) && PhaseOf(s, p).Writing? && PhaseOf(s, p).rev != s.rev
    ensures
      var s' := DoUpdate(s, p, Reply);
      var Writing(write, local, _, _, conflicts) := PhaseOf(s, p);
      && s'.record == s.record && s'.messages == s.messages
      && (At(s', p) <==> conflicts < 49 || write.Fatal? || write.MarkRunning?)
      && (conflicts < 49 ==> PhaseOf(s', p) == Rereading(write, local, conflicts + 1))
      && (conflicts >= 49 && write.Fatal? ==> PhaseOf(s', p) == Responding(FatalLost))
      && (conflicts >= 49 && write.MarkRunning? ==> PhaseOf(s', p) == Returned(false))
  {
  }

  // ----- What an activity leaves is what its handler writes -----

  /** The result decides what is written; the values are those that the activity left, and only a retriable error counts:
      once, and for the activity itself. */
  lemma RunIsCaptured(s: System, p: nat, result: Result, values: Data, maxRetries: Limits)
    requires IsExecutor(s, p) && PhaseOf(s, p).Working?
    ensures
      var s' := Do(s, p, Run(result, values), maxRetries);
      var a := s.processes[p].role.activity;
      var cur := PhaseOf(s, p).cur;
      && s'.record == s.record && s'.messages == s.messages && At(s', p) && PhaseOf(s', p).Writing?
      && var Writing(write, local, _, rev, conflicts) := PhaseOf(s', p);
      && rev == PhaseOf(s, p).rev && conflicts == 0 && local.values == values && local.held == cur.data.Keys
      && (result.ResultComplete? <==> write.Complete?)
      && (result.ResultWait? <==> write.Wait?)
      && (result.ResultSchedule? <==> write.Schedule?)
      && (result.ResultFatalError? ==> write.Fatal?)
      && (result.ResultRetryError? ==>
            if Count(cur.retries, a) + 1 < maxRetries(a) then write.Retry? else write.Fatal?)
      && (forall b :: b != a || !result.ResultRetryError? ==> SameAt(local.retries, cur.retries, b))
      && (result.ResultRetryError? ==> a in local.retries && local.retries[a] == Count(cur.retries, a) + 1)
  {
  }

  /** A handler that has run its activity: all that it may still merge into the record are these values. */
  ghost predicate HasRun(s: System, p: nat, values: Data) {
    At(s, p) ==>
      && IsExecutor(s, p) && !PhaseOf(s, p).Reading? && !PhaseOf(s, p).Working?
      && ((PhaseOf(s, p).Writing? || PhaseOf(s, p).Rereading?) && Carries(PhaseOf(s, p).write) ==>
            PhaseOf(s, p).local.values == values)
  }

  lemma StillHasRun(s: System, e: Event, p: nat, values: Data, maxRetries: Limits)
    requires HasRun(s, p, values) && Enabled(s, e.p, e.action)
    requires e.p == p ==> !e.action.Deliver? && !e.action.Call?
    ensures HasRun(Do(s, e.p, e.action, maxRetries), p, values)
  {
    var Event(q, a) := e;
    OnlyMoves(s, q, a, maxRetries);
    OthersStay(s, Do(s, q, a, maxRetries), q);
    hide Moved, HasRun;
    if q == p && At(s, p) {
      if a.Update? {
        HasRunUpdate(s, p, a.outcome, values);
      } else {
        HasRunOther(s, p, a, values, maxRetries);
      }
    } else if q != p {
      HasRunSame(s, Do(s, q, a, maxRetries), p, values);
    }
  }

  lemma HasRunSame(s: System, s': System, p: nat, values: Data)
    requires HasRun(s, p, values) && (At(s, p) <==> At(s', p)) && (At(s, p) ==> s'.processes[p] == s.processes[p])
    ensures HasRun(s', p, values)
  {
  }

  lemma HasRunUpdate(s: System, p: nat, outcome: Outcome, values: Data)
    requires At(s, p) && PhaseOf(s, p).Writing? && HasRun(s, p, values)
    ensures HasRun(DoUpdate(s, p, outcome), p, values)
  {
    var Process(role, Writing(write, local, cur, rev, conflicts)) := s.processes[p];
    hide DoUpdate, Apply, AfterWrite, AfterConflict;
    UpdateLeads(s, p, outcome);
    CarriesNoMore(write, ActivityOf(role), Apply(write, ActivityOf(role), local, cur), s.rev + 1);
    CarriesTheSame(write, local, conflicts, outcome.Reply?);
  }

  /** After a write that has landed, a handler merges nothing more into the record. */
  lemma CarriesNoMore(write: Write, a: Id, o: Orchestration, rev: nat)
    ensures
      var next := AfterWrite(write, a, o, rev);
      next.Some? ==>
        && !next.value.Reading? && !next.value.Working? && !next.value.Rereading?
        && (next.value.Writing? ==> !Carries(next.value.write))
  {
    hide StepIndex, CanProceed;
  }

  /** After one that has not, it merges what it would have. */
  lemma CarriesTheSame(write: Write, local: Local, conflicts: nat, conflict: bool)
    ensures
      var next := AfterConflict(write, local, conflicts, conflict);
      next.Some? ==>
        && !next.value.Reading? && !next.value.Working? && !next.value.Writing?
        && (next.value.Rereading? ==> next.value.write == write && next.value.local == local)
  {
  }

  lemma HasRunOther(s: System, p: nat, a: Action, values: Data, maxRetries: Limits)
    requires Enabled(s, p, a) && At(s, p) && HasRun(s, p, values) && !a.Update?
    ensures HasRun(Do(s, p, a, maxRetries), p, values)
  {
    hide DoUpdate;
  }

  lemma {:induction false} RunHasRun(s: System, events: seq<Event>, p: nat, values: Data, maxRetries: Limits)
    requires HasRun(s, p, values) && IsRun(s, events, maxRetries, ANY)
    requires forall e :: e in events && e.p == p ==> !e.action.Deliver? && !e.action.Call?
    ensures HasRun(After(s, events, maxRetries), p, values)
    decreases |events|
  {
    hide HasRun, Do, Enabled;
    if |events| > 0 {
      StillHasRun(s, events[0], p, values, maxRetries);
      RunHasRun(Do(s, events[0].p, events[0].action, maxRetries), events[1..], p, values, maxRetries);
    }
  }

  /** The activity runs and leaves `values`; whatever happens in between, and however often the write conflicts: when its
      handler's write lands, all of them are in the record. */
  lemma OutputIsStored(before: seq<Event>, p: nat, result: Result, values: Data, between: seq<Event>, outcome: Outcome,
                       maxRetries: Limits)
    requires IsRun(INIT, before, maxRetries, ANY)
    requires Enabled(After(INIT, before, maxRetries), p, Run(result, values))
    requires
      var s := Do(After(INIT, before, maxRetries), p, Run(result, values), maxRetries);
      && IsRun(s, between, maxRetries, ANY)
      && (forall e :: e in between && e.p == p ==> !e.action.Deliver? && !e.action.Call?)
      && var t := After(s, between, maxRetries);
      At(t, p) && PhaseOf(t, p).Writing? && Carries(PhaseOf(t, p).write) && Lands(t, PhaseOf(t, p).rev, outcome)
    ensures
      var s := Do(After(INIT, before, maxRetries), p, Run(result, values), maxRetries);
      var t := Do(After(s, between, maxRetries), p, Update(outcome), maxRetries);
      t.record.Some? && Holds(t.record.value.data, values)
  {
    InitSafe();
    RunSafe(INIT, before, maxRetries, ANY);
    hide Safe, IsRun, After, Grows, Do, Enabled, HasRun, Holds;
    JustRun(After(INIT, before, maxRetries), p, result, values, maxRetries);
    var s := Do(After(INIT, before, maxRetries), p, Run(result, values), maxRetries);
    RunSafe(s, between, maxRetries, ANY);
    RunHasRun(s, between, p, values, maxRetries);
    HasRunLands(After(s, between, maxRetries), p, outcome, values, maxRetries);
  }

  lemma JustRun(s: System, p: nat, result: Result, values: Data, maxRetries: Limits)
    requires Safe(s) && Enabled(s, p, Run(result, values))
    ensures var s' := Do(s, p, Run(result, values), maxRetries); Safe(s') && HasRun(s', p, values)
  {
    SafeEvent(s, p, Run(result, values), maxRetries);
    hide Safe, Grows;
  }

  lemma HasRunLands(s: System, p: nat, outcome: Outcome, values: Data, maxRetries: Limits)
    requires Safe(s) && HasRun(s, p, values)
    requires At(s, p) && PhaseOf(s, p).Writing? && Carries(PhaseOf(s, p).write) && Lands(s, PhaseOf(s, p).rev, outcome)
    ensures Enabled(s, p, Update(outcome))
    ensures var s' := Do(s, p, Update(outcome), maxRetries); s'.record.Some? && Holds(s'.record.value.data, values)
  {
    hide Safe, DoUpdate, Holds;
    WriteLandsAt(s, p, outcome);
  }

  // ----- Activities run, steps start, and messages leave for a reason -----

  /** Only an activity that has not completed in the record that was read is run, and not on a final delivery. A next step
      is published only by a handler whose completion was written into an orchestration that is not errored. */
  ghost predicate Proceeds(s: System, p: nat) {
    IsExecutor(s, p) ==>
      var Process(role, phase) := s.processes[p];
      && (phase.Working? ==> role.activity !in phase.cur.completed && !role.final)
      && (phase.Publishing? ==> role.activity in phase.cur.completed && !phase.cur.state.Errored?)
      && (phase.Rereading? ==> phase.conflicts > 0)
      && (phase.Writing? && phase.write.Finish? && phase.conflicts == 0 ==> !phase.cur.state.Errored?)
  }

  lemma ProceedsEvent(s: System, e: Event, p: nat, maxRetries: Limits)
    requires Enabled(s, e.p, e.action) && Proceeds(s, p)
    ensures Proceeds(Do(s, e.p, e.action, maxRetries), p)
  {
    var Event(q, a) := e;
    OnlyMoves(s, q, a, maxRetries);
    OthersStay(s, Do(s, q, a, maxRetries), q);
    hide Moved, Proceeds;
    if q == p {
      if a.Update? {
        ProceedsUpdate(s, p, a.outcome);
      } else if a.Publish? {
        ProceedsPublish(s, p, a.ok, a.stored, a.duplicate);
      } else {
        ProceedsOther(s, p, a, maxRetries);
      }
    } else {
      ProceedsSame(s, Do(s, q, a, maxRetries), p);
    }
  }

  lemma ProceedsSame(s: System, s': System, p: nat)
    requires Proceeds(s, p) && (At(s, p) <==> At(s', p)) && (At(s, p) ==> s'.processes[p] == s.processes[p])
    ensures Proceeds(s', p)
  {
  }

  lemma ProceedsUpdate(s: System, p: nat, outcome: Outcome)
    requires At(s, p) && PhaseOf(s, p).Writing? && Proceeds(s, p)
    ensures Proceeds(DoUpdate(s, p, outcome), p)
  {
    var Process(role, Writing(write, local, cur, _, _)) := s.processes[p];
    UpdateLeads(s, p, outcome);
    if write.Complete? {
      Applied(write, ActivityOf(role), local, cur);
    }
    hide DoUpdate, StepIndex, CanProceed, Apply;
  }

  lemma ProceedsPublish(s: System, p: nat, ok: bool, stored: bool, duplicate: bool)
    requires At(s, p) && PhaseOf(s, p).Publishing? && Proceeds(s, p)
    ensures Proceeds(DoPublish(s, p, ok, stored, duplicate), p)
  {
  }

  lemma ProceedsOther(s: System, p: nat, a: Action, maxRetries: Limits)
    requires Enabled(s, p, a) && Proceeds(s, p) && !a.Update? && !a.Publish?
    ensures Proceeds(Do(s, p, a, maxRetries), p)
  {
    hide DoUpdate, DoPublish;
  }

  lemma {:induction false} RunProceeds(s: System, events: seq<Event>, p: nat, maxRetries: Limits)
    requires Proceeds(s, p) && IsRun(s, events, maxRetries, ANY)
    ensures Proceeds(After(s, events, maxRetries), p)
    decreases |events|
  {
    hide Proceeds, Do, Enabled;
    if |events| > 0 {
      ProceedsEvent(s, events[0], p, maxRetries);
      RunProceeds(Do(s, events[0].p, events[0].action, maxRetries), events[1..], p, maxRetries);
    }
  }

  /** In every reachable state: an activity that is run had not completed in the record that its handler read, and is not
      on its final delivery. */
  lemma CompletedIsNotRunAgain(events: seq<Event>, maxRetries: Limits, p: nat, result: Result, values: Data)
    requires IsRun(INIT, events, maxRetries, ANY) && Enabled(After(INIT, events, maxRetries), p, Run(result, values))
    ensures
      var Process(role, phase) := After(INIT, events, maxRetries).processes[p];
      role.activity !in phase.cur.completed && !role.final
  {
    RunProceeds(INIT, events, p, maxRetries);
  }

  /** In every reachable state: a handler that publishes a step has completed its activity, in a record that was not
      errored when it did. */
  lemma ErrorStopsTheNextStep(events: seq<Event>, maxRetries: Limits, p: nat)
    requires IsRun(INIT, events, maxRetries, ANY)
    requires var s := After(INIT, events, maxRetries); IsExecutor(s, p) && PhaseOf(s, p).Publishing?
    ensures
      var Process(role, phase) := After(INIT, events, maxRetries).processes[p];
      role.activity in phase.cur.completed && !phase.cur.state.Errored?
  {
    RunProceeds(INIT, events, p, maxRetries);
  }

  /** A message leaves the stream exactly if its handler acknowledges it with success, panics, or cannot read the record
      on the final delivery. */
  lemma MessageLeaves(s: System, p: nat, a: Action, m: nat, maxRetries: Limits)
    requires Enabled(s, p, a) && m in s.messages
    ensures m !in Do(s, p, a, maxRetries).messages <==>
              && IsExecutor(s, p) && s.processes[p].role.msg == m
              && (a == Ack(true) || a.Panic? || (a == Read(false) && s.processes[p].role.final))
  {
    hide Apply, AfterWrite, AfterRun, AfterRead, DoUpdate, DoPublish;
    if a.Update? {
      UpdateKeepsMessages(s, p, a.outcome);
    } else if a.Publish? {
      PublishKeepsMessages(s, p, a.ok, a.stored, a.duplicate, m);
    }
  }

  lemma UpdateKeepsMessages(s: System, p: nat, outcome: Outcome)
    requires At(s, p) && PhaseOf(s, p).Writing?
    ensures DoUpdate(s, p, outcome).messages == s.messages
  {
    hide Apply, AfterWrite, AfterConflict;
  }

  lemma PublishKeepsMessages(s: System, p: nat, ok: bool, stored: bool, duplicate: bool, m: nat)
    requires At(s, p) && PhaseOf(s, p).Publishing? && m in s.messages
    ensures m in DoPublish(s, p, ok, stored, duplicate).messages
  {
  }

  /** A call of Execute that finds an orchestration resumes it if it is Initialized, and otherwise returns without error;
      one that cannot read it fails. */
  lemma CallResumes(s: System, p: nat, ok: bool, maxRetries: Limits)
    requires Enabled(s, p, ReadExisting(ok))
    ensures
      var s' := Do(s, p, ReadExisting(ok), maxRetries);
      && s'.record == s.record && s'.messages == s.messages && At(s', p)
      && (!ok ==> PhaseOf(s', p) == Returned(false))
      && (ok && !s.record.value.state.Initialized? ==> PhaseOf(s', p) == Returned(true))
      && (ok && s.record.value.state.Initialized? ==>
            var phase := PhaseOf(s', p);
            phase.Publishing? && phase.cur == s.record.value && phase.rev == s.rev && phase.next == 0)
  {
  }
}
