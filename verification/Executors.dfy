/** The code of the executors and of Execute (pmanager/natsorchestration: client.go, activity.go, orchestration.go), as
    methods on the cluster. Process `p` of the step system follows the code: each operation of the cluster requires that
    the process is just at that operation, with the very arguments of the code, so that whatever is proved about all runs
    of the step system holds of the code. A process that is gone has finished handling its message, which is delivered
    again unless it was acknowledged. */
module Executors {
  import opened Options
  import opened Orchestrations
  import opened Engine
  import opened EngineSafety
  import EngineProgress
  import opened EngineTheorems
  import opened EngineWrites
  import opened Messaging
  import Retry

  // ----- client.go -----

  /** Publishes the messages of the given activities; stops at the first failure. */
  method EnqueueActivityMessages(cluster: Cluster, p: nat, activities: seq<Activity>) returns (ok: bool)
    requires cluster.Valid() && At(cluster.state, p) && PhaseOf(cluster.state, p).Publishing?
    requires
      var Publishing(cur, _, step, next) := PhaseOf(cluster.state, p);
      step < |cur.steps| && next == 0 && activities == cur.steps[step]
    modifies cluster
    ensures cluster.Later()
    ensures
      var Process(role, Publishing(cur, rev, _, _)) := old(cluster.state.processes[p]);
      cluster.Is(p, role, if ok then Some(AfterPublishing(role, cur, rev)) else AfterFailedPublish(role))
    ensures ok ==> StepIds(activities) <= cluster.state.published
  {
    ghost var s0 := cluster.state;
    var Publishing(cur, rev, step, _) := PhaseOf(cluster.state, p);
    GrowsReflexive(cluster.state);
    for i := 0 to |activities|
      invariant cluster.Later()
      invariant cluster.Is(p, s0.processes[p].role, Some(Publishing(cur, rev, step, i)))
      invariant forall k :: 0 <= k < i ==> activities[k].id in cluster.state.published
    {
      ghost var s1 := cluster.state;
      ok := cluster.PublishMsg(p, activities[i].id);
      GrowsTransitive(s0, s1, cluster.state);
      if !ok {
        return false;
      }
    }
    ghost var s1 := cluster.state;
    cluster.PublishedAll(p);
    GrowsTransitive(s0, s1, cluster.state);
    return true;
  }

  /** `o`, written as revision `rev`, is the update function applied to the record it replaced. */
  ghost predicate UpdateOf(s: System, before: System, cur: Orchestration, conflicts: nat,
                           o: Orchestration, rev: nat, updateFn: Orchestration -> Orchestration) {
    Replaced(s, before, cur, rev - 1, conflicts) && o == updateFn(cur)
  }

  /** Applies `updateFn` to the record and writes the result if the record is still at the given revision. After a
      conflict the record is read and the update is applied again, up to 50 times; any other error ends it. */
  method UpdateOrchestration(cluster: Cluster, p: nat, orchestration: Orchestration, revision: nat,
                             updateFn: Orchestration -> Orchestration, ghost write: Write, ghost local: Local)
    returns (r: Option<(Orchestration, nat)>)
    requires cluster.Valid()
    requires At(cluster.state, p) && PhaseOf(cluster.state, p) == Writing(write, local, orchestration, revision, 0)
    requires forall o :: updateFn(o) == Apply(write, ActivityOf(cluster.state.processes[p].role), local, o)
    modifies cluster
    ensures cluster.Later()
    ensures r.Some? ==> cluster.state.record == Some(r.value.0) && cluster.state.rev == r.value.1
    ensures r.Some? && write.Wait? ==> ActivityOf(old(cluster.state.processes[p].role)) in cluster.state.waited
    ensures r.Some? ==> exists before, cur, n ::
      UpdateOf(old(cluster.state), before, cur, n, r.value.0, r.value.1, updateFn)
    ensures
      var role := old(cluster.state.processes[p].role);
      cluster.Is(p, role,
        if r.Some? then AfterWrite(write, ActivityOf(role), r.value.0, r.value.1) else AfterFailedWrite(write))
  {
    hide Apply, AfterWrite;
    ghost var s0 := cluster.state;
    ghost var role := s0.processes[p].role;
    var current, rev := orchestration, revision;
    var conflicts := 0;
    GrowsReflexive(cluster.state);
    while true
      invariant cluster.Later() && conflicts < MAX_CONFLICTS
      invariant cluster.Is(p, role, Some(Writing(write, local, current, rev, conflicts)))
      decreases MAX_CONFLICTS - conflicts
    {
      ghost var s1 := cluster.state;
      var updated := updateFn(current);
      var written := cluster.Update(p, updated, rev);
      GrowsTransitive(s0, s1, cluster.state);
      if written.Stored? {
        ghost var before :| Replaced(s1, before, current, rev, conflicts);
        GrowsTransitive(s0, s1, before);
        assert UpdateOf(s0, before, current, conflicts, updated, written.rev, updateFn);
        return Some((updated, written.rev));
      }
      if !written.Conflict? || conflicts + 1 >= MAX_CONFLICTS {
        return None;
      }
      s1 := cluster.state;
      var read := cluster.Get(p);
      GrowsTransitive(s0, s1, cluster.state);
      if read.None? {
        return None;
      }
      current, rev := read.value.0, read.value.1;
      conflicts := conflicts + 1;
    }
  }

  // ----- orchestration.go -----

  /** Publishes the first activities and then marks the orchestration running, unless it has moved on already. */
  method Start(cluster: Cluster, p: nat, orchestration: Orchestration, revision: nat) returns (ok: bool)
    requires cluster.Valid() && IsStarter(cluster.state, p)
    requires PhaseOf(cluster.state, p) == Publishing(orchestration, revision, FirstStep(orchestration.steps), 0)
    requires FirstStep(orchestration.steps) < |orchestration.steps|
    modifies cluster
    ensures cluster.Later() && cluster.Is(p, old(cluster.state.processes[p].role), Some(Returned(ok)))
  {
    ghost var s0 := cluster.state;
    var activities := GetInitialActivities(orchestration);
    var enqueued := EnqueueActivityMessages(cluster, p, activities);
    if !enqueued {
      return false;
    }
    ghost var s1 := cluster.state;
    var updated := UpdateOrchestration(cluster, p, orchestration, revision,
      (o: Orchestration) => if o.state.Initialized? then o.(state := Running) else o,
      MarkRunning, Local(map[], map[], {}));
    GrowsTransitive(s0, s1, cluster.state);
    return updated.Some?;
  }

  /** Stores the orchestration unless it exists, publishes its first activities and marks it running; resumes an existing
      orchestration that was stored but not started. */
  method Execute(cluster: Cluster, p: nat, orchestration: Orchestration) returns (ok: bool)
    requires cluster.Valid() && !At(cluster.state, p) && (Fresh(orchestration) || cluster.state.record.Some?)
    modifies cluster
    ensures cluster.Later()
    ensures FirstStep(orchestration.steps) == |orchestration.steps| ==> !ok && cluster.state == old(cluster.state)
    ensures ok ==> cluster.state.record.Some? && !cluster.state.record.value.state.Initialized?
  {
    hide Fresh;
    ghost var s0 := cluster.state;
    GrowsReflexive(s0);
    var initial := GetInitialActivities(orchestration);
    if |initial| == 0 {
      return false;
    }
    cluster.Call(p, orchestration);
    ghost var s1 := cluster.state;
    var written := cluster.Create(p, orchestration);
    GrowsTransitive(s0, s1, cluster.state);
    s1 := cluster.state;
    match written {
      case Stored(revision) => ok := Start(cluster, p, orchestration, revision);
      case Conflict => ok := Resume(cluster, p);
      case Failed => return false;
    }
    GrowsTransitive(s0, s1, cluster.state);
    if ok {
      ReturnedOk(cluster, p);
    }
  }

  /** The part of Execute for an orchestration that exists already: it is started if that was not completed. */
  method Resume(cluster: Cluster, p: nat) returns (ok: bool)
    requires cluster.Valid() && IsStarter(cluster.state, p) && PhaseOf(cluster.state, p).ReadingExisting?
    modifies cluster
    ensures cluster.Later() && cluster.Is(p, old(cluster.state.processes[p].role), Some(Returned(ok)))
  {
    ghost var s0 := cluster.state;
    var existing := cluster.Get(p);
    if existing.None? {
      return false;
    }
    if !existing.value.0.state.Initialized? {
      return true;
    }
    ghost var s1 := cluster.state;
    FirstStepExists(cluster, p);
    ok := Start(cluster, p, existing.value.0, existing.value.1);
    GrowsTransitive(s0, s1, cluster.state);
  }

  lemma FirstStepExists(cluster: Cluster, p: nat)
    requires cluster.Valid() && At(cluster.state, p) && PhaseOf(cluster.state, p).Publishing?
    ensures var Publishing(cur, _, step, _) := PhaseOf(cluster.state, p); step < |cur.steps|
  {
    ReachesSafe(cluster.history, cluster.maxRetries);
    assert ProcessOk(cluster.state, cluster.state.processes[p]);
  }

  lemma ReturnedOk(cluster: Cluster, p: nat)
    requires cluster.Valid() && At(cluster.state, p) && PhaseOf(cluster.state, p) == Returned(true)
    ensures cluster.state.record.Some? && !cluster.state.record.value.state.Initialized?
  {
    ReachesSafe(cluster.history, cluster.maxRetries);
    assert ProcessOk(cluster.state, cluster.state.processes[p]);
  }

  // ----- activity.go -----

  /** What it means that a handler of an activity acknowledges its message, for each reason to do so. */
  ghost predicate AckMeans(s: System, activity: Id, reason: Reason) {
    && s.record.Some?
    && var o := s.record.value;
    match reason
    case Stopped => o.state.IsTerminal()
    case AwaitSiblings => activity in o.completed
    case NextEnqueued =>
      activity in o.completed && forall i :: InStep(o.steps, i, activity) ==> EngineProgress.NextPublished(s, i)
    case Finished => o.state.IsTerminal() && AllDone(o.steps, o.completed)
    case WaitPersisted => activity in s.waited
    case FatalRecorded => o.state.IsTerminal()
    case FatalLost => true
  }

  /** The handler has acknowledged its message for the given reason, or not at all. */
  ghost predicate Settled(s: System, role: Role, reason: Option<Reason>)
    requires role.Executor?
  {
    reason.Some? ==> role.msg !in s.messages && AckMeans(s, role.activity, reason.value)
  }

  lemma AckMeansStays(s: System, s': System, activity: Id, reason: Reason)
    requires AckMeans(s, activity, reason) && Grows(s, s')
    ensures AckMeans(s', activity, reason)
  {
  }

  /** Acknowledges the message, for the reason for which the step system does. */
  method Acknowledge(cluster: Cluster, p: nat, reason: Reason) returns (r: Option<Reason>)
    requires cluster.Valid() && IsExecutor(cluster.state, p) && PhaseOf(cluster.state, p) == Acking(reason)
    requires AckMeans(cluster.state, cluster.state.processes[p].role.activity, reason)
    modifies cluster
    ensures cluster.Later() && !At(cluster.state, p)
    ensures r.Some? ==> r.value == reason
    ensures Settled(cluster.state, old(cluster.state.processes[p].role), r)
  {
    ghost var s0 := cluster.state;
    var ok := cluster.AckMessage(p);
    AckMeansStays(s0, cluster.state, s0.processes[p].role.activity, reason);
    return if ok then Some(reason) else None;
  }

  /** Between the two states there was a record with all these values and retry counts, in which, if that is asked, the
      activity was completed. */
  ghost predicate Recorded(s: System, t: System, values: Data, retries: map<Id, nat>, completed: set<Id>) {
    exists u :: RecordedAt(s, u, t, values, retries, completed)
  }

  ghost predicate RecordedAt(s: System, u: System, t: System, values: Data, retries: map<Id, nat>, completed: set<Id>) {
    && Grows(s, u) && Grows(u, t) && u.record.Some?
    && Holds(u.record.value.data, values) && Holds(u.record.value.retries, retries) && completed <= u.record.value.completed
  }

  lemma RecordedLater(s: System, s1: System, t: System, t1: System, values: Data, retries: map<Id, nat>, completed: set<Id>)
    requires Grows(s, s1) && Recorded(s1, t, values, retries, completed) && Grows(t, t1)
    ensures Recorded(s, t1, values, retries, completed)
  {
    hide Grows, Holds;
    var u :| RecordedAt(s1, u, t, values, retries, completed);
    GrowsTransitive(s, s1, u);
    GrowsTransitive(u, t, t1);
    assert RecordedAt(s, u, t1, values, retries, completed);
  }

  lemma RecordedNow(s: System, t: System, cur: Orchestration, values: Data, retries: map<Id, nat>, completed: set<Id>)
    requires Grows(s, t) && t.record.Some?
    requires var o := t.record.value;
      o.data == cur.data + values && o.retries == cur.retries + retries && completed <= o.completed
    ensures Recorded(s, t, values, retries, completed)
  {
    GrowsReflexive(t);
    hide Grows;
    assert RecordedAt(s, t, t, values, retries, completed);
  }

  /** Saves the data the activity produced and the retry counts. */
  method PersistState(cluster: Cluster, p: nat, orchestration: Orchestration, revision: nat,
                      values: Data, ghost write: Write, ghost held: set<DataKey>) returns (ok: bool)
    requires cluster.Valid() && IsExecutor(cluster.state, p) && (write.Wait? || write.Schedule? || write.Retry?)
    requires PhaseOf(cluster.state, p)
          == Writing(write, Local(values, orchestration.retries, held), orchestration, revision, 0)
    modifies cluster
    ensures cluster.Later()
    ensures
      var role := old(cluster.state.processes[p].role);
      && cluster.Is(p, role, if ok && write.Wait? then Some(Acking(WaitPersisted)) else None)
      && (ok && write.Wait? ==> role.activity in cluster.state.waited)
    ensures ok ==> Recorded(old(cluster.state), cluster.state, values, orchestration.retries, {})
  {
    ghost var s0 := cluster.state;
    var retries := orchestration.retries;
    var updated := UpdateOrchestration(cluster, p, orchestration, revision,
      (o: Orchestration) => o.(data := o.data + values, retries := o.retries + retries),
      write, Local(values, retries, held));
    if updated.Some? {
      ghost var before, cur, n :| UpdateOf(s0, before, cur, n, updated.value.0, updated.value.1,
        (o: Orchestration) => o.(data := o.data + values, retries := o.retries + retries));
      RecordedNow(s0, cluster.state, cur, values, retries, {});
    }
    return updated.Some?;
  }

  /** Publishes the final response and acknowledges the message. */
  method RespondAndAck(cluster: Cluster, p: nat, reason: Reason) returns (r: Option<Reason>)
    requires cluster.Valid() && IsExecutor(cluster.state, p) && PhaseOf(cluster.state, p) == Responding(reason)
    requires AckMeans(cluster.state, cluster.state.processes[p].role.activity, reason)
    modifies cluster
    ensures cluster.Later() && !At(cluster.state, p)
    ensures r.Some? ==> r.value == reason
    ensures Settled(cluster.state, old(cluster.state.processes[p].role), r)
  {
    ghost var s0 := cluster.state;
    var published := cluster.PublishResponse(p);
    if !published {
      return None;
    }
    ghost var s1 := cluster.state;
    AckMeansStays(s0, s1, s0.processes[p].role.activity, reason);
    r := Acknowledge(cluster, p, reason);
    GrowsTransitive(s0, s1, cluster.state);
  }

  /** Marks the orchestration completed, publishes the response and acknowledges the message. */
  method HandleOrchestrationCompletion(cluster: Cluster, p: nat, orchestration: Orchestration, revision: nat)
    returns (r: Option<Reason>)
    requires cluster.Valid() && IsExecutor(cluster.state, p)
    requires PhaseOf(cluster.state, p) == Writing(Finish, Local(map[], map[], {}), orchestration, revision, 0)
    modifies cluster
    ensures cluster.Later() && !At(cluster.state, p)
    ensures Settled(cluster.state, old(cluster.state.processes[p].role), r)
  {
    ghost var s0 := cluster.state;
    var updated := UpdateOrchestration(cluster, p, orchestration, revision,
      (o: Orchestration) => o.(state := Completed), Finish, Local(map[], map[], {}));
    if updated.None? {
      return None;
    }
    ghost var s1 := cluster.state;
    RecordedOk(cluster);
    r := RespondAndAck(cluster, p, Finished);
    GrowsTransitive(s0, s1, cluster.state);
  }

  lemma RecordedOk(cluster: Cluster)
    requires cluster.Valid()
    ensures RecordOk(cluster.state)
  {
    ReachesSafe(cluster.history, cluster.maxRetries);
  }

  /** Records that the activity has completed. The handler whose completion makes the step complete enqueues the next
      step, or ends the orchestration after the last one. */
  method ProcessOnActivityCompletion(cluster: Cluster, p: nat, orchestration: Orchestration, revision: nat, values: Data,
                                     ghost held: set<DataKey>) returns (r: Option<Reason>)
    requires cluster.Valid() && IsExecutor(cluster.state, p)
    requires PhaseOf(cluster.state, p)
          == Writing(Complete, Local(values, orchestration.retries, held), orchestration, revision, 0)
    modifies cluster
    ensures cluster.Later() && !At(cluster.state, p)
    ensures Settled(cluster.state, old(cluster.state.processes[p].role), r)
    ensures r.Some? ==> Recorded(old(cluster.state), cluster.state, values, orchestration.retries,
                                 {old(cluster.state.processes[p].role.activity)})
  {
    ghost var s0 := cluster.state;
    var activity := cluster.state.processes[p].role.activity;
    var retries := orchestration.retries;
    var updated := UpdateOrchestration(cluster, p, orchestration, revision,
      (o: Orchestration) =>
        o.(data := o.data + values, retries := o.retries + retries, completed := o.completed + {activity}),
      Complete, Local(values, retries, held));
    if updated.None? {
      return None;
    }
    ghost var s1 := cluster.state;
    ghost var before, cur, n :| UpdateOf(s0, before, cur, n, updated.value.0, updated.value.1,
      (o: Orchestration) =>
        o.(data := o.data + values, retries := o.retries + retries, completed := o.completed + {activity}));
    RecordedNow(s0, s1, cur, values, retries, {activity});
    r := ContinueAfter(cluster, p, activity, updated.value.0, updated.value.1);
    GrowsReflexive(s0);
    RecordedLater(s0, s0, s1, cluster.state, values, retries, {activity});
    GrowsTransitive(s0, s1, cluster.state);
  }

  /** The part of processOnActivityCompletion after the completion was written as `o`. */
  method ContinueAfter(cluster: Cluster, p: nat, activity: Id, o: Orchestration, rev: nat) returns (r: Option<Reason>)
    requires cluster.Valid() && cluster.state.record == Some(o) && activity in o.completed
    requires
      var next := AfterWrite(Complete, activity, o, rev);
      && (next.None? <==> !At(cluster.state, p))
      && (next.Some? ==>
            && IsExecutor(cluster.state, p) && PhaseOf(cluster.state, p) == next.value
            && cluster.state.processes[p].role.activity == activity)
    modifies cluster
    ensures cluster.Later() && !At(cluster.state, p)
    ensures At(old(cluster.state), p) ==> Settled(cluster.state, old(cluster.state.processes[p].role), r)
    ensures !At(old(cluster.state), p) ==> r.None?
  {
    ghost var s0 := cluster.state;
    GrowsReflexive(s0);
    if o.state.Errored? {
      r := Acknowledge(cluster, p, Stopped);
      return;
    }
    var canProceed := CanProceedToNextStep(o, activity);
    if canProceed.None? {
      return None;
    }
    if !canProceed.value {
      r := Acknowledge(cluster, p, AwaitSiblings);
      return;
    }
    var next := GetNextStepActivities(o, activity);
    if |next| == 0 {
      r := HandleOrchestrationCompletion(cluster, p, o, rev);
      return;
    }
    var enqueued := EnqueueActivityMessages(cluster, p, next);
    if !enqueued {
      return None;
    }
    ghost var s1 := cluster.state;
    EnqueuedMeans(cluster, o, activity, s0);
    r := Acknowledge(cluster, p, NextEnqueued);
    GrowsTransitive(s0, s1, cluster.state);
  }

  lemma EnqueuedMeans(cluster: Cluster, o: Orchestration, activity: Id, before: System)
    requires cluster.Valid() && before.record == Some(o) && Grows(before, cluster.state) && activity in o.completed
    requires
      var i := StepIndex(o.steps, activity);
      i + 1 < |o.steps| && StepIds(o.steps[i + 1]) <= cluster.state.published
    ensures AckMeans(cluster.state, activity, NextEnqueued)
  {
    RecordedOk(cluster);
    forall i | InStep(o.steps, i, activity) ensures EngineProgress.NextPublished(cluster.state, i) {
      StepIndexUnique(o.steps, i, activity);
    }
  }

  /** Marks the orchestration errored, publishes the response and acknowledges the message, even if marking failed. */
  method HandleFatalError(cluster: Cluster, p: nat, orchestration: Orchestration, revision: nat, values: Data,
                          ghost held: set<DataKey>) returns (r: Option<Reason>)
    requires cluster.Valid() && IsExecutor(cluster.state, p)
    requires PhaseOf(cluster.state, p)
          == Writing(Fatal, Local(values, orchestration.retries, held), orchestration, revision, 0)
    modifies cluster
    ensures cluster.Later() && !At(cluster.state, p)
    ensures Settled(cluster.state, old(cluster.state.processes[p].role), r)
    ensures r.Some? ==> r.value.FatalRecorded? || r.value.FatalLost?
    ensures r == Some(FatalRecorded) ==> Recorded(old(cluster.state), cluster.state, values, orchestration.retries, {})
  {
    ghost var s0 := cluster.state;
    var retries := orchestration.retries;
    var updated := UpdateOrchestration(cluster, p, orchestration, revision,
      (o: Orchestration) => o.(data := o.data + values, state := Errored, retries := o.retries + retries),
      Fatal, Local(values, retries, held));
    ghost var s1 := cluster.state;
    RecordExists(cluster, p);
    if updated.Some? {
      ghost var before, cur, n :| UpdateOf(s0, before, cur, n, updated.value.0, updated.value.1,
        (o: Orchestration) => o.(data := o.data + values, state := Errored, retries := o.retries + retries));
      RecordedNow(s0, s1, cur, values, retries, {});
    }
    r := RespondAndAck(cluster, p, if updated.Some? then FatalRecorded else FatalLost);
    if updated.Some? {
      GrowsReflexive(s0);
      RecordedLater(s0, s0, s1, cluster.state, values, retries, {});
    }
    GrowsTransitive(s0, s1, cluster.state);
  }

  lemma RecordExists(cluster: Cluster, p: nat)
    requires cluster.Valid() && IsExecutor(cluster.state, p)
    ensures cluster.state.record.Some?
  {
    ReachesSafe(cluster.history, cluster.maxRetries);
    assert ProcessOk(cluster.state, cluster.state.processes[p]);
  }

  lemma RecordedLess(s: System, t: System, values: Data, retries: map<Id, nat>, fewer: map<Id, nat>, completed: set<Id>)
    requires Recorded(s, t, values, retries, completed) && Holds(retries, fewer)
    ensures Recorded(s, t, values, fewer, {})
  {
    hide Grows;
    var u :| RecordedAt(s, u, t, values, retries, completed);
    assert RecordedAt(s, u, t, values, fewer, {});
  }

  /** Counts a retriable error and persists the count; the last one that is allowed is fatal. The message is delivered
      again after the delay that the activity asked for, or else one that grows with the retries. */
  method HandleRetryError(cluster: Cluster, p: nat, orchestration: Orchestration, revision: nat, values: Data,
                          wait: int, ghost held: set<DataKey>) returns (r: Option<Reason>, delay: Option<int>)
    requires cluster.Valid() && IsExecutor(cluster.state, p)
    requires
      var activity := cluster.state.processes[p].role.activity;
      var retries := orchestration.retries[activity := Count(orchestration.retries, activity) + 1];
      PhaseOf(cluster.state, p) == Writing(if retries[activity] >= cluster.maxRetries(activity) then Fatal else Engine.Retry,
        Local(values, retries, held), orchestration.(retries := retries), revision, 0)
    modifies cluster
    ensures cluster.Later() && !At(cluster.state, p)
    ensures Settled(cluster.state, old(cluster.state.processes[p].role), r)
    ensures
      var activity := old(cluster.state.processes[p].role.activity);
      var retries := Count(orchestration.retries, activity) + 1;
      && (r.Some? ==> retries >= cluster.maxRetries(activity) && (r.value.FatalRecorded? || r.value.FatalLost?))
      && (r == Some(FatalRecorded) ==> Recorded(old(cluster.state), cluster.state, values, map[activity := retries], {}))
      && delay == (if retries >= cluster.maxRetries(activity) then None
                   else Some(if wait > 0 then wait else Retry.DelayOf(retries)))
  {
    var activity := cluster.state.processes[p].role.activity;
    var retries := (if activity in orchestration.retries then orchestration.retries[activity] else 0) + 1;
    var counted := orchestration.(retries := orchestration.retries[activity := retries]);
    if retries >= cluster.maxRetries(activity) {
      ghost var s0 := cluster.state;
      r := HandleFatalError(cluster, p, counted, revision, values, held);
      if r == Some(FatalRecorded) {
        RecordedLess(s0, cluster.state, values, counted.retries, map[activity := retries], {});
      }
      return r, None;
    }
    var pause := wait;
    if pause <= 0 {
      pause := Retry.RetryDelay(retries);
    }
    var _ := PersistState(cluster, p, counted, revision, values, Engine.Retry, held);
    return None, Some(pause);
  }

  /** How the activity ran: its result, what it left in the data, and the delay that it asked for. */
  datatype Ran = Ran(result: Result, values: Data, wait: int)

  /** What one delivery means for an activity that ran: if the message is acknowledged, all that the activity left was
      recorded, unless a fatal error could not be; with its completion, if it completed. Only a retriable error or a
      request to be scheduled has the message delivered again after a chosen delay: the one the activity asked for, or
      if it asked for none, one between a second and a minute. */
  ghost predicate Delivered(s: System, t: System, activity: Id, r: Option<Reason>, ran: Option<Ran>, delay: Option<int>) {
    && (ran.None? ==> delay.None?)
    && (ran.Some? ==>
          var Ran(result, values, wait) := ran.value;
          && (r.Some? && !r.value.FatalLost? ==> Recorded(s, t, values, map[], {}))
          && (r.Some? && result.ResultComplete? ==> Recorded(s, t, values, map[], {activity}))
          && (delay.Some? ==>
                && r.None? && (result.ResultRetryError? || result.ResultSchedule?)
                && (if result.ResultSchedule? || wait > 0 then delay.value == wait else 1 <= delay.value <= 60)
                && (result.ResultSchedule? ==> Recorded(s, t, values, map[], {}))))
  }

  lemma DeliveredLater(s: System, s1: System, t: System, activity: Id, r: Option<Reason>, ran: Option<Ran>, delay: Option<int>)
    requires Grows(s, s1) && Delivered(s1, t, activity, r, ran, delay)
    ensures Delivered(s, t, activity, r, ran, delay)
  {
    GrowsReflexive(t);
    hide Grows, Recorded;
    if ran.Some? {
      if Recorded(s1, t, ran.value.values, map[], {}) {
        RecordedLater(s, s1, t, t, ran.value.values, map[], {});
      }
      if Recorded(s1, t, ran.value.values, map[], {activity}) {
        RecordedLater(s, s1, t, t, ran.value.values, map[], {activity});
      }
    }
  }

  /** Handles one delivery of a message from start to end. Whatever happens, the handler's steps are steps of the
      engine, and at the end the handler is gone: its message is acknowledged, for a reason that then holds, or will be
      delivered again. */
  method ProcessMessage(cluster: Cluster, p: nat, msg: nat, finalDelivery: bool)
    returns (r: Option<Reason>, ran: Option<Ran>, delay: Option<int>)
    requires cluster.Valid() && !At(cluster.state, p) && msg in cluster.state.messages
    modifies cluster
    ensures cluster.Later() && !At(cluster.state, p)
    ensures r.Some? ==> msg !in cluster.state.messages && AckMeans(cluster.state, old(cluster.state).messages[msg], r.value)
    ensures finalDelivery ==> ran.None?
    ensures Delivered(old(cluster.state), cluster.state, old(cluster.state).messages[msg], r, ran, delay)
  {
    ghost var s0 := cluster.state;
    var activity := cluster.state.messages[msg];
    cluster.Deliver(p, msg, finalDelivery);
    ghost var s1 := cluster.state;
    var read := cluster.Get(p);
    GrowsTransitive(s0, s1, cluster.state);
    if read.None? {
      return None, None, None;
    }
    s1 := cluster.state;
    r, ran, delay := HandleDelivery(cluster, p, activity, finalDelivery, read.value.0, read.value.1);
    DeliveredLater(s0, s1, cluster.state, activity, r, ran, delay);
    GrowsTransitive(s0, s1, cluster.state);
  }

  /** The part of processMessage after the record was read. */
  method HandleDelivery(cluster: Cluster, p: nat, activity: Id, finalDelivery: bool, orchestration: Orchestration,
                        revision: nat) returns (r: Option<Reason>, ran: Option<Ran>, delay: Option<int>)
    requires cluster.Valid() && IsExecutor(cluster.state, p) && cluster.state.record == Some(orchestration)
    requires
      var Process(role, phase) := cluster.state.processes[p];
      role.activity == activity && role.final == finalDelivery && phase == AfterRead(role, orchestration, revision)
    modifies cluster
    ensures cluster.Later() && !At(cluster.state, p)
    ensures Settled(cluster.state, old(cluster.state.processes[p].role), r)
    ensures ran.Some? <==> activity !in orchestration.completed && !finalDelivery
    ensures Delivered(old(cluster.state), cluster.state, activity, r, ran, delay)
  {
    ghost var s0 := cluster.state;
    ghost var held := orchestration.data.Keys;
    if activity in orchestration.completed && !finalDelivery {
      if orchestration.state.Completed? || orchestration.state.Errored? {
        r := Acknowledge(cluster, p, Stopped);
        return r, None, None;
      }
      r := ProcessOnActivityCompletion(cluster, p, orchestration, revision, orchestration.data, held);
      return r, None, None;
    }
    if finalDelivery {
      r := HandleFatalError(cluster, p, orchestration, revision, orchestration.data, held);
      return r, None, None;
    }
    var result, values, wait := cluster.RunActivity(p);
    ran := Some(Ran(result, values, wait));
    ghost var s1 := cluster.state;
    r, delay := HandleResult(cluster, p, activity, orchestration, revision, result, values, wait);
    Retry.RetryDelayNonDecreasing(Count(orchestration.retries, activity) + 1, Count(orchestration.retries, activity) + 1);
    DeliveredLater(s0, s1, cluster.state, activity, r, ran, delay);
    GrowsTransitive(s0, s1, cluster.state);
  }

  /** The part of processMessage after the activity has run. */
  method HandleResult(cluster: Cluster, p: nat, activity: Id, orchestration: Orchestration, revision: nat,
                      result: Result, values: Data, wait: int) returns (r: Option<Reason>, delay: Option<int>)
    requires cluster.Valid() && IsExecutor(cluster.state, p) && cluster.state.processes[p].role.activity == activity
    requires PhaseOf(cluster.state, p)
          == AfterRun(activity, result, values, orchestration, revision, cluster.maxRetries)
    modifies cluster
    ensures cluster.Later() && !At(cluster.state, p)
    ensures Settled(cluster.state, old(cluster.state.processes[p].role), r)
    ensures r.Some? && !r.value.FatalLost? ==> Recorded(old(cluster.state), cluster.state, values, map[], {})
    ensures delay.Some? ==> r.None?
    ensures r.Some? && result.ResultComplete? ==>
              Recorded(old(cluster.state), cluster.state, values, map[], {activity})
    ensures
      var retries := Count(orchestration.retries, activity) + 1;
      match result
      case ResultRetryError =>
        delay == (if retries >= cluster.maxRetries(activity) then None
                  else Some(if wait > 0 then wait else Retry.DelayOf(retries)))
      case ResultSchedule =>
        delay.Some? ==> delay.value == wait && Recorded(old(cluster.state), cluster.state, values, map[], {})
      case _ => delay.None?
  {
    hide Recorded, Grows, Holds, AckMeans;
    ghost var s0 := cluster.state;
    delay := None;
    ghost var held := orchestration.data.Keys;
    // the processor writes into the maps of the orchestration that the handler holds
    var mine := orchestration.(data := values);
    match result {
      case ResultRetryError =>
        r, delay := HandleRetryError(cluster, p, mine, revision, values, wait, held);
        if r == Some(FatalRecorded) {
          RecordedValues(s0, cluster.state, values, map[activity := Count(mine.retries, activity) + 1], {});
        }
      case ResultFatalError =>
        r := HandleFatalError(cluster, p, mine, revision, values, held);
        if r == Some(FatalRecorded) {
          RecordedValues(s0, cluster.state, values, mine.retries, {});
        }
      case ResultWait =>
        var persisted := PersistState(cluster, p, mine, revision, values, Wait, held);
        if !persisted {
          return None, None;
        }
        ghost var s1 := cluster.state;
        RecordedValues(s0, s1, values, mine.retries, {});
        RecordExists(cluster, p);
        r := Acknowledge(cluster, p, WaitPersisted);
        GrowsReflexive(s0);
        RecordedLater(s0, s0, s1, cluster.state, values, map[], {});
        GrowsTransitive(s0, s1, cluster.state);
      case ResultSchedule =>
        var persisted := PersistState(cluster, p, mine, revision, values, Schedule, held);
        if !persisted {
          return None, None;
        }
        RecordedValues(s0, cluster.state, values, mine.retries, {});
        return None, Some(wait);
      case ResultComplete =>
        r := ProcessOnActivityCompletion(cluster, p, mine, revision, values, held);
        if r.Some? {
          RecordedValues(s0, cluster.state, values, mine.retries, {activity});
        }
    }
  }

  lemma RecordedValues(s: System, t: System, values: Data, retries: map<Id, nat>, completed: set<Id>)
    requires Recorded(s, t, values, retries, completed)
    ensures Recorded(s, t, values, map[], completed) && Recorded(s, t, values, map[], {})
  {
    hide Grows;
    var u :| RecordedAt(s, u, t, values, retries, completed);
    assert RecordedAt(s, u, t, values, map[], completed) && RecordedAt(s, u, t, values, map[], {});
  }
}
