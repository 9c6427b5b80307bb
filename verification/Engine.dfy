/** The orchestration engine as a step system (pmanager/natsorchestration): one orchestration record in a
    compare-and-swap store, activity messages delivered at least once, and any number of executors and callers of
    Execute racing on the record. Every read, write, publish and acknowledgement is one atomic event, and events of
    different processes interleave freely. JSON is the identity. */
module Engine {
  import opened Options
  import opened Orchestrations

  /** How often each activity may report a retriable error: the executor of its type has the limit. */
  type Limits = Id -> nat

  ghost predicate Positive(limits: Limits) { forall a :: limits(a) > 0 }

  /** What an executor or a caller of Execute is about to write with UpdateOrchestration. */
  datatype Write =
    | Complete   // processOnActivityCompletion
    | Wait       // persistState before acknowledging an activity that waits
    | Schedule   // persistState before rescheduling
    | Retry      // persistState after a retriable error
    | Finish     // handleOrchestrationCompletion
    | Fatal      // handleFatalError
    | MarkRunning // start

  /** What a handler captured before its first write: the data and retry counts it writes, and the keys it had read. */
  datatype Local = Local(values: Data, retries: map<Id, nat>, held: set<DataKey>)

  /** Why a handler acknowledges its message. */
  datatype Reason = Stopped | AwaitSiblings | NextEnqueued | Finished | WaitPersisted | FatalRecorded | FatalLost

  datatype Phase =
    | Storing                                                // Execute: store with revision 0
    | ReadingExisting                                        // Execute: the record exists already
    | Reading                                                // processMessage: read the record
    | Working(cur: Orchestration, rev: nat)                  // running the activity processor
    | Writing(write: Write, local: Local, cur: Orchestration, rev: nat, conflicts: nat)
    | Rereading(write: Write, local: Local, conflicts: nat)  // after a revision conflict
    | Publishing(cur: Orchestration, rev: nat, step: nat, next: nat)
    | Responding(reason: Reason)                             // publishing the final response
    | Acking(reason: Reason)
    | Returned(ok: bool)                                     // Execute has returned

  datatype Role = Executor(activity: Id, msg: nat, final: bool) | Starter(content: Orchestration)

  datatype Process = Process(role: Role, phase: Phase)

  /** `published`: activities with a message in the stream's history. The last four fields are history variables:
      activities that acknowledged on Wait, the activity whose completion made a step complete, the activities whose
      completion was committed, and the number of retriable errors of each activity. */
  datatype System = System(
    record: Option<Orchestration>, rev: nat,
    messages: map<nat, Id>, nextMsg: nat, published: set<Id>,
    processes: map<nat, Process>,
    waited: set<Id>, closers: map<nat, Id>, committed: set<Id>, retryErrors: map<Id, nat>)

  datatype Outcome =
    | Reply                    // the server compared the revision and answered
    | NoReply(applied: bool)   // an error other than a conflict; the request may have been applied all the same

  datatype Result = ResultComplete | ResultWait | ResultSchedule | ResultRetryError | ResultFatalError

  datatype Action =
    | Call(content: Orchestration)                       // Execute is called
    | Store(outcome: Outcome)
    | ReadExisting(ok: bool)
    | Deliver(msg: nat, final: bool)
    | Read(ok: bool)
    | Run(result: Result, values: Data)
    | Update(outcome: Outcome)
    | Reread(ok: bool)
    | Publish(ok: bool, stored: bool, duplicate: bool)
    | Respond(ok: bool)
    | Ack(ok: bool)
    | Crash
    | Panic                                              // TermOnPanic terminates the message

  /** Process `p` takes one step. */
  datatype Event = Event(p: nat, action: Action)

  const MAX_CONFLICTS: nat := 50

  function Count(counts: map<Id, nat>, id: Id): nat {
    if id in counts then counts[id] else 0
  }

  // ----- The effect of one update and the control flow after it -----

  /** The update functions passed to UpdateOrchestration. */
  function Apply(write: Write, activity: Id, local: Local, o: Orchestration): Orchestration {
    match write
    case Complete =>
      o.(data := o.data + local.values, retries := o.retries + local.retries, completed := o.completed + {activity})
    case Wait => o.(data := o.data + local.values, retries := o.retries + local.retries)
    case Schedule => o.(data := o.data + local.values, retries := o.retries + local.retries)
    case Retry => o.(data := o.data + local.values, retries := o.retries + local.retries)
    case Fatal => o.(data := o.data + local.values, retries := o.retries + local.retries, state := Errored)
    case Finish => o.(state := Completed)
    case MarkRunning => if o.state.Initialized? then o.(state := Running) else o
  }

  /** The update merges the data and retry counts that the handler captured into the record. */
  predicate Carries(write: Write) { !write.Finish? && !write.MarkRunning? }

  /** Where a process continues after its update was written as `o` at revision `rev`; None if it is done. */
  function AfterWrite(write: Write, activity: Id, o: Orchestration, rev: nat): Option<Phase> {
    match write
    case Complete =>
      if o.state.Errored? then Some(Acking(Stopped))
      else
        var proceed := CanProceed(o, activity);
        if proceed.None? then None
        else if !proceed.value then Some(Acking(AwaitSiblings))
        else
          var i := StepIndex(o.steps, activity);
          if i + 1 < |o.steps| && |o.steps[i + 1]| > 0 then Some(Publishing(o, rev, i + 1, 0))
          else Some(Writing(Finish, Local(map[], map[], {}), o, rev, 0))
    case Wait => Some(Acking(WaitPersisted))
    case Schedule => None
    case Retry => None
    case Finish => Some(Responding(Finished))
    case Fatal => Some(Responding(FatalRecorded))
    case MarkRunning => Some(Returned(true))
  }

  /** Where a process continues after its update failed: messages are rejected, fatal errors acknowledged anyway. */
  function AfterFailedWrite(write: Write): Option<Phase> {
    match write
    case Fatal => Some(Responding(FatalLost))
    case MarkRunning => Some(Returned(false))
    case _ => None
  }

  /** Where processMessage continues after reading the record. */
  function AfterRead(role: Role, cur: Orchestration, rev: nat): Phase
    requires role.Executor?
  {
    var local := Local(cur.data, cur.retries, cur.data.Keys);
    if role.activity in cur.completed && !role.final then
      if cur.state.IsTerminal() then Acking(Stopped) else Writing(Complete, local, cur, rev, 0)
    else if role.final then Writing(Fatal, local, cur, rev, 0)
    else Working(cur, rev)
  }

  /** Where processMessage continues after the activity returned, leaving `values` in the data maps it was given. */
  function AfterRun(activity: Id, result: Result, values: Data, cur: Orchestration, rev: nat, maxRetries: Limits): Phase {
    var retries := if result.ResultRetryError? then cur.retries[activity := Count(cur.retries, activity) + 1]
                   else cur.retries;
    var local := Local(values, retries, cur.data.Keys);
    var mine := cur.(data := values, retries := retries);
    match result
    case ResultComplete => Writing(Complete, local, mine, rev, 0)
    case ResultWait => Writing(Wait, local, mine, rev, 0)
    case ResultSchedule => Writing(Schedule, local, mine, rev, 0)
    case ResultRetryError => Writing(if retries[activity] >= maxRetries(activity) then Fatal else Retry, local, mine, rev, 0)
    case ResultFatalError => Writing(Fatal, local, mine, rev, 0)
  }

  // ----- Events -----

  predicate At(s: System, p: nat) { p in s.processes }

  function PhaseOf(s: System, p: nat): Phase requires At(s, p) { s.processes[p].phase }

  /** An orchestration as InstantiateOrchestration returns it. */
  predicate Fresh(o: Orchestration) {
    WellFormed(o.steps) && o.state.Initialized? && o.completed == {} && o.retries == map[]
  }

  predicate IsExecutor(s: System, p: nat) { At(s, p) && s.processes[p].role.Executor? }

  predicate IsStarter(s: System, p: nat) { At(s, p) && s.processes[p].role.Starter? }

  predicate Enabled(s: System, p: nat, a: Action) {
    match a
    case Call(content) =>
      !At(s, p) && FirstStep(content.steps) < |content.steps| && (Fresh(content) || s.record.Some?)
    case Store(_) => IsStarter(s, p) && PhaseOf(s, p).Storing?
    case ReadExisting(_) => IsStarter(s, p) && PhaseOf(s, p).ReadingExisting? && s.record.Some?
    case Deliver(msg, _) => !At(s, p) && msg in s.messages
    case Read(_) => IsExecutor(s, p) && PhaseOf(s, p).Reading? && s.record.Some?
    case Run(_, _) => IsExecutor(s, p) && PhaseOf(s, p).Working?
    case Update(_) => At(s, p) && PhaseOf(s, p).Writing?
    case Reread(_) => At(s, p) && PhaseOf(s, p).Rereading? && s.record.Some?
    case Publish(_, _, _) => At(s, p) && PhaseOf(s, p).Publishing?
    case Respond(_) => At(s, p) && PhaseOf(s, p).Responding?
    case Ack(_) => At(s, p) && PhaseOf(s, p).Acking?
    case Crash => At(s, p)
    case Panic => IsExecutor(s, p)
  }

  function Goto(s: System, p: nat, phase: Phase): System requires At(s, p) {
    s.(processes := s.processes[p := s.processes[p].(phase := phase)])
  }

  function Gone(s: System, p: nat): System {
    s.(processes := s.processes - {p})
  }

  /** Go to the given phase, or leave if there is none. */
  function Continue(s: System, p: nat, phase: Option<Phase>): System requires At(s, p) {
    if phase.Some? then Goto(s, p, phase.value) else Gone(s, p)
  }

  function ActivityOf(role: Role): Id {
    if role.Executor? then role.activity else ""
  }

  /** The record after `o` was written, with the history variables brought up to date. */
  function Commit(s: System, write: Write, activity: Id, o: Orchestration): System {
    var s' := s.(record := Some(o), rev := s.rev + 1);
    match write
    case Complete =>
      var i := StepIndex(o.steps, activity);
      s'.(committed := s.committed + {activity},
          closers := if i < |o.steps| && StepIds(o.steps[i]) <= o.completed && i !in s.closers
                     then s.closers[i := activity] else s.closers)
    case Wait => s'.(waited := s.waited + {activity})
    case _ => s'
  }

  function DoStore(s: System, p: nat, outcome: Outcome): System
    requires At(s, p) && s.processes[p].role.Starter?
  {
    var content := s.processes[p].role.content;
    match outcome
    case Reply =>
      if s.record.Some? then Goto(s, p, ReadingExisting)
      else Goto(s.(record := Some(content), rev := s.rev + 1), p, Publishing(content, s.rev + 1, FirstStep(content.steps), 0))
    case NoReply(applied) =>
      Goto(if applied && s.record.None? then s.(record := Some(content), rev := s.rev + 1) else s, p, Returned(false))
  }

  /** The write reaches the store: its revision is the current one and the request was not lost. */
  predicate Lands(s: System, rev: nat, outcome: Outcome) {
    rev == s.rev && (outcome.Reply? || outcome.applied)
  }

  /** Where a process continues when its write did not succeed: a conflict is retried up to the limit. */
  function AfterConflict(write: Write, local: Local, conflicts: nat, conflict: bool): Option<Phase> {
    if conflict && conflicts + 1 < MAX_CONFLICTS then Some(Rereading(write, local, conflicts + 1))
    else AfterFailedWrite(write)
  }

  function DoUpdate(s: System, p: nat, outcome: Outcome): System
    requires At(s, p) && PhaseOf(s, p).Writing?
  {
    var Writing(write, local, cur, rev, conflicts) := PhaseOf(s, p);
    var activity := ActivityOf(s.processes[p].role);
    if Lands(s, rev, outcome) then
      var o := Apply(write, activity, local, cur);
      Continue(Commit(s, write, activity, o), p,
        if outcome.Reply? then AfterWrite(write, activity, o, s.rev + 1) else AfterFailedWrite(write))
    else Continue(s, p, AfterConflict(write, local, conflicts, outcome.Reply?))
  }

  /** Publishes the message of an activity. The stream drops a message whose ID it has seen before, if that is within
      its duplicate window. */
  function Enqueue(s: System, id: Id, duplicate: bool): System {
    if duplicate && id in s.published then s
    else s.(messages := s.messages[s.nextMsg := id], nextMsg := s.nextMsg + 1, published := s.published + {id})
  }

  /** Where a process continues once all activities of a step are enqueued. */
  function AfterPublishing(role: Role, cur: Orchestration, rev: nat): Phase {
    if role.Starter? then Writing(MarkRunning, Local(map[], map[], {}), cur, rev, 0) else Acking(NextEnqueued)
  }

  function AfterFailedPublish(role: Role): Option<Phase> {
    if role.Starter? then Some(Returned(false)) else None
  }

  function DoPublish(s: System, p: nat, ok: bool, stored: bool, duplicate: bool): System
    requires At(s, p) && PhaseOf(s, p).Publishing?
  {
    var Publishing(cur, rev, step, next) := PhaseOf(s, p);
    var role := s.processes[p].role;
    if step >= |cur.steps| || next >= |cur.steps[step]| then Continue(s, p, Some(AfterPublishing(role, cur, rev)))
    else
      var s1 := if ok || stored then Enqueue(s, cur.steps[step][next].id, duplicate) else s;
      Continue(s1, p, if ok then Some(Publishing(cur, rev, step, next + 1)) else AfterFailedPublish(role))
  }

  function DoReadExisting(s: System, p: nat, ok: bool): System
    requires At(s, p) && s.record.Some?
  {
    var o := s.record.value;
    Goto(s, p,
      if !ok then Returned(false)
      else if !o.state.Initialized? then Returned(true)
      else Publishing(o, s.rev, FirstStep(o.steps), 0))
  }

  function DoRead(s: System, p: nat, ok: bool): System
    requires IsExecutor(s, p) && s.record.Some?
  {
    var role := s.processes[p].role;
    if ok then Goto(s, p, AfterRead(role, s.record.value, s.rev))
    else if role.final then Gone(s.(messages := s.messages - {role.msg}), p)
    else Gone(s, p)
  }

  function DoRun(s: System, p: nat, result: Result, values: Data, maxRetries: Limits): System
    requires IsExecutor(s, p) && PhaseOf(s, p).Working?
  {
    var activity := s.processes[p].role.activity;
    var Working(cur, rev) := PhaseOf(s, p);
    var s1 := if result.ResultRetryError?
              then s.(retryErrors := s.retryErrors[activity := Count(s.retryErrors, activity) + 1]) else s;
    Goto(s1, p, AfterRun(activity, result, values, cur, rev, maxRetries))
  }

  function DoReread(s: System, p: nat, ok: bool): System
    requires At(s, p) && PhaseOf(s, p).Rereading? && s.record.Some?
  {
    var Rereading(write, local, conflicts) := PhaseOf(s, p);
    Continue(s, p,
      if ok then Some(Writing(write, local, s.record.value, s.rev, conflicts)) else AfterFailedWrite(write))
  }

  function DoRespond(s: System, p: nat, ok: bool): System
    requires At(s, p) && PhaseOf(s, p).Responding?
  {
    Continue(s, p, if ok then Some(Acking(PhaseOf(s, p).reason)) else None)
  }

  function DoAck(s: System, p: nat, ok: bool): System
    requires At(s, p)
  {
    var role := s.processes[p].role;
    Gone(if ok && role.Executor? then s.(messages := s.messages - {role.msg}) else s, p)
  }

  /** The state after process `p` takes an enabled step. `maxRetries` are the executors' limits on retriable errors. */
  function Do(s: System, p: nat, a: Action, maxRetries: Limits): System
    requires Enabled(s, p, a)
  {
    match a
    case Call(content) => s.(processes := s.processes[p := Process(Starter(content), Storing)])
    case Store(outcome) => DoStore(s, p, outcome)
    case ReadExisting(ok) => DoReadExisting(s, p, ok)
    case Deliver(msg, final) =>
      s.(processes := s.processes[p := Process(Executor(s.messages[msg], msg, final), Reading)])
    case Read(ok) => DoRead(s, p, ok)
    case Run(result, values) => DoRun(s, p, result, values, maxRetries)
    case Update(outcome) => DoUpdate(s, p, outcome)
    case Reread(ok) => DoReread(s, p, ok)
    case Publish(ok, stored, duplicate) => DoPublish(s, p, ok, stored, duplicate)
    case Respond(ok) => DoRespond(s, p, ok)
    case Ack(ok) => DoAck(s, p, ok)
    case Crash => Gone(s, p)
    case Panic => DoAck(s, p, true)
  }

  /** Only process `p` is affected and it keeps its role. */
  ghost predicate Moved(s: System, s': System, p: nat) {
    && s'.processes - {p} == s.processes - {p}
    && (At(s, p) && At(s', p) ==> s'.processes[p].role == s.processes[p].role)
  }

  lemma OthersStay(s: System, s': System, p: nat)
    requires Moved(s, s', p)
    ensures forall q :: q != p ==> (At(s, q) <==> At(s', q)) && (At(s, q) ==> s'.processes[q] == s.processes[q])
  {
    forall q | q != p ensures (At(s, q) <==> At(s', q)) && (At(s, q) ==> s'.processes[q] == s.processes[q]) {
      assert q in s.processes <==> q in s.processes - {p};
      assert q in s'.processes <==> q in s'.processes - {p};
    }
  }

  lemma UpdateMoves(s: System, p: nat, outcome: Outcome)
    requires At(s, p) && PhaseOf(s, p).Writing?
    ensures Moved(s, DoUpdate(s, p, outcome), p)
  {
    hide Apply, AfterWrite, StepIds, StepIndex;
  }

  /** Where an update leads, as the process sees it. */
  lemma UpdateLeads(s: System, p: nat, outcome: Outcome)
    requires At(s, p) && PhaseOf(s, p).Writing?
    ensures
      var s' := DoUpdate(s, p, outcome);
      var Process(role, Writing(write, local, cur, rev, conflicts)) := s.processes[p];
      var a := ActivityOf(role);
      var o := Apply(write, a, local, cur);
      var next := if rev == s.rev && outcome.Reply? then AfterWrite(write, a, o, s.rev + 1)
                  else AfterConflict(write, local, conflicts, outcome.Reply?);
      && (next.Some? ==> At(s', p) && s'.processes[p] == Process(role, next.value))
      && (next.None? ==> !At(s', p))
      && (rev == s.rev && outcome.Reply? ==> s'.record == Some(o) && s'.rev == s.rev + 1 && (write.Wait? ==> a in s'.waited))
  {
    hide Apply, AfterWrite;
  }

  lemma PublishMoves(s: System, p: nat, ok: bool, stored: bool, duplicate: bool)
    requires At(s, p) && PhaseOf(s, p).Publishing?
    ensures Moved(s, DoPublish(s, p, ok, stored, duplicate), p)
  {
  }

  /** A step of a process leaves all other processes alone and does not change its role. */
  lemma OnlyMoves(s: System, p: nat, a: Action, maxRetries: Limits)
    requires Enabled(s, p, a)
    ensures Moved(s, Do(s, p, a, maxRetries), p)
  {
    hide DoUpdate, DoPublish, AfterRead, AfterRun, Lands, Fresh;
    if a.Update? {
      UpdateMoves(s, p, a.outcome);
    } else if a.Publish? {
      PublishMoves(s, p, a.ok, a.stored, a.duplicate);
    }
  }

  /** Once there is a record, only the compare-and-swap of UpdateOrchestration changes it. */
  lemma OnlyUpdatesWrite(s: System, p: nat, a: Action, maxRetries: Limits)
    requires Enabled(s, p, a) && s.record.Some? && !a.Update?
    ensures var s' := Do(s, p, a, maxRetries); s'.record == s.record && s'.rev == s.rev
  {
    hide DoUpdate, AfterRead, AfterRun;
  }
}
