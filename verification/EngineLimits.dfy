/** Why the hypotheses of the theorems are needed: reachable states in which the conclusions fail without them. */
module EngineLimits {
  import opened Options
  import opened Orchestrations
  import opened Engine
  import opened EngineSafety
  import opened EngineProgress
  import opened EngineTerminal
  import opened EngineTheorems

  ghost predicate Reachable(s: System, maxRetries: Limits, h: Hypothesis) {
    exists events :: IsRun(INIT, events, maxRetries, h) && After(INIT, events, maxRetries) == s
  }

  /** One more event. */
  lemma Take(s: System, p: nat, a: Action, maxRetries: Limits, h: Hypothesis) returns (s': System)
    requires Reachable(s, maxRetries, h) && Enabled(s, p, a) && h(s, p, a)
    ensures s' == Do(s, p, a, maxRetries) && Reachable(s', maxRetries, h)
  {
    hide Do, Enabled;
    s' := Do(s, p, a, maxRetries);
    var events :| IsRun(INIT, events, maxRetries, h) && After(INIT, events, maxRetries) == s;
    Append(INIT, events, Event(p, a), maxRetries, h);
  }

  // ----- One event of each kind -----

  lemma Deliver(s: System, p: nat, msg: nat, final: bool, maxRetries: Limits, h: Hypothesis) returns (s': System)
    requires Reachable(s, maxRetries, h) && !At(s, p) && msg in s.messages && h(s, p, Action.Deliver(msg, final))
    ensures Reachable(s', maxRetries, h)
    ensures s' == s.(processes := s.processes[p := Process(Executor(s.messages[msg], msg, final), Reading)])
  {
    s' := Take(s, p, Action.Deliver(msg, final), maxRetries, h);
  }

  lemma Read(s: System, p: nat, maxRetries: Limits, h: Hypothesis) returns (s': System)
    requires Reachable(s, maxRetries, h) && IsExecutor(s, p) && PhaseOf(s, p).Reading? && s.record.Some?
    requires h(s, p, Action.Read(true))
    ensures Reachable(s', maxRetries, h)
    ensures s' == Goto(s, p, AfterRead(s.processes[p].role, s.record.value, s.rev))
  {
    s' := Take(s, p, Action.Read(true), maxRetries, h);
  }

  lemma Work(s: System, p: nat, result: Result, maxRetries: Limits, h: Hypothesis) returns (s': System)
    requires Reachable(s, maxRetries, h) && IsExecutor(s, p) && PhaseOf(s, p).Working?
    requires h(s, p, Action.Run(result, map[]))
    ensures Reachable(s', maxRetries, h) && s' == DoRun(s, p, result, map[], maxRetries)
  {
    s' := Take(s, p, Action.Run(result, map[]), maxRetries, h);
  }

  lemma Land(s: System, p: nat, maxRetries: Limits, h: Hypothesis) returns (s': System)
    requires Reachable(s, maxRetries, h) && At(s, p) && PhaseOf(s, p).Writing? && PhaseOf(s, p).rev == s.rev
    requires h(s, p, Update(Reply))
    ensures Reachable(s', maxRetries, h)
    ensures
      var Writing(write, local, cur, rev, _) := PhaseOf(s, p);
      var a := ActivityOf(s.processes[p].role);
      var o := Apply(write, a, local, cur);
      s' == Continue(Commit(s, write, a, o), p, AfterWrite(write, a, o, s.rev + 1))
  {
    s' := Take(s, p, Update(Reply), maxRetries, h);
  }

  /** The write is not applied. */
  lemma Miss(s: System, p: nat, outcome: Outcome, maxRetries: Limits, h: Hypothesis) returns (s': System)
    requires Reachable(s, maxRetries, h) && At(s, p) && PhaseOf(s, p).Writing? && !Lands(s, PhaseOf(s, p).rev, outcome)
    requires h(s, p, Update(outcome))
    ensures Reachable(s', maxRetries, h)
    ensures
      var Writing(write, local, _, _, conflicts) := PhaseOf(s, p);
      s' == Continue(s, p, AfterConflict(write, local, conflicts, outcome.Reply?))
  {
    s' := Take(s, p, Update(outcome), maxRetries, h);
  }

  lemma ReadAgain(s: System, p: nat, maxRetries: Limits, h: Hypothesis) returns (s': System)
    requires Reachable(s, maxRetries, h) && At(s, p) && PhaseOf(s, p).Rereading? && s.record.Some?
    requires h(s, p, Reread(true))
    ensures Reachable(s', maxRetries, h)
    ensures
      var Rereading(write, local, conflicts) := PhaseOf(s, p);
      s' == Goto(s, p, Writing(write, local, s.record.value, s.rev, conflicts))
  {
    s' := Take(s, p, Reread(true), maxRetries, h);
  }

  /** A conflict, the new read after it, and the second attempt, which lands. */
  lemma LandLater(s: System, p: nat, maxRetries: Limits, h: Hypothesis) returns (s': System)
    requires Reachable(s, maxRetries, h) && At(s, p) && PhaseOf(s, p).Writing? && PhaseOf(s, p).rev != s.rev
    requires s.record.Some? && PhaseOf(s, p).conflicts == 0
    requires forall t, a: Action :: a == Update(Reply) || a == Reread(true) ==> h(t, p, a)
    ensures Reachable(s', maxRetries, h)
    ensures
      var Writing(write, local, _, _, _) := PhaseOf(s, p);
      var a := ActivityOf(s.processes[p].role);
      var o := Apply(write, a, local, s.record.value);
      s' == Continue(Commit(s, write, a, o), p, AfterWrite(write, a, o, s.rev + 1))
  {
    hide Do, Enabled, Reachable, Apply, AfterWrite, Commit;
    var Writing(write, local, _, _, _) := PhaseOf(s, p);
    var s1 := Miss(s, p, Reply, maxRetries, h);
    var s2 := ReadAgain(s1, p, maxRetries, h);
    var phase := Writing(write, local, s.record.value, s.rev, 1);
    assert s2 == Goto(s, p, phase);
    s' := Land(s2, p, maxRetries, h);
    var a := ActivityOf(s.processes[p].role);
    var o := Apply(write, a, local, s.record.value);
    Overwrites(s, p, phase, AfterWrite(write, a, o, s.rev + 1), write, o);
  }

  lemma Overwrites(s: System, p: nat, phase: Phase, next: Option<Phase>, write: Write, o: Orchestration)
    requires At(s, p)
    ensures
      var a := ActivityOf(s.processes[p].role);
      Continue(Commit(Goto(s, p, phase), write, a, o), p, next) == Continue(Commit(s, write, a, o), p, next)
  {
    var a := ActivityOf(s.processes[p].role);
    var left := Continue(Commit(Goto(s, p, phase), write, a, o), p, next);
    var right := Continue(Commit(s, write, a, o), p, next);
    assert left.processes == right.processes;
  }

  lemma Respond(s: System, p: nat, maxRetries: Limits, h: Hypothesis) returns (s': System)
    requires Reachable(s, maxRetries, h) && At(s, p) && PhaseOf(s, p).Responding? && h(s, p, Action.Respond(true))
    ensures Reachable(s', maxRetries, h) && s' == Goto(s, p, Acking(PhaseOf(s, p).reason))
  {
    s' := Take(s, p, Action.Respond(true), maxRetries, h);
  }

  lemma Acknowledge(s: System, p: nat, maxRetries: Limits, h: Hypothesis) returns (s': System)
    requires Reachable(s, maxRetries, h) && IsExecutor(s, p) && PhaseOf(s, p).Acking? && h(s, p, Ack(true))
    ensures Reachable(s', maxRetries, h)
    ensures s' == Gone(s.(messages := s.messages - {s.processes[p].role.msg}), p)
  {
    s' := Take(s, p, Ack(true), maxRetries, h);
  }

  lemma CrashAt(s: System, p: nat, maxRetries: Limits, h: Hypothesis) returns (s': System)
    requires Reachable(s, maxRetries, h) && At(s, p) && h(s, p, Crash)
    ensures Reachable(s', maxRetries, h) && s' == Gone(s, p)
  {
    s' := Take(s, p, Crash, maxRetries, h);
  }

  /** Publishes the only activity of step `i`. */
  lemma PublishStep(s: System, p: nat, maxRetries: Limits, h: Hypothesis) returns (s': System)
    requires Reachable(s, maxRetries, h) && At(s, p) && PhaseOf(s, p).Publishing? && PhaseOf(s, p).next == 0
    requires PhaseOf(s, p).step < |PhaseOf(s, p).cur.steps| && |PhaseOf(s, p).cur.steps[PhaseOf(s, p).step]| == 1
    requires forall t, a: Action :: a == Publish(true, true, false) ==> h(t, p, a)
    ensures Reachable(s', maxRetries, h)
    ensures
      var Publishing(cur, rev, step, _) := PhaseOf(s, p);
      s' == Goto(Enqueue(s, cur.steps[step][0].id, false), p, AfterPublishing(s.processes[p].role, cur, rev))
  {
    var Publishing(cur, rev, step, _) := PhaseOf(s, p);
    var s1 := Take(s, p, Publish(true, true, false), maxRetries, h);
    assert s1 == Goto(Enqueue(s, cur.steps[step][0].id, false), p, Publishing(cur, rev, step, 1));
    s' := Take(s1, p, Publish(true, true, false), maxRetries, h);
    var s2 := Goto(Enqueue(s, cur.steps[step][0].id, false), p, AfterPublishing(s.processes[p].role, cur, rev));
    assert s'.processes == s2.processes;
  }

  // ----- Two small orchestrations -----

  const A: Activity := Activity("a", "", "", [])
  const B: Activity := Activity("b", "", "", ["a"])
  const ONE: seq<Step> := [[A]]
  const TWO: seq<Step> := [[A], [B]]

  function Record(steps: seq<Step>, state: State): Orchestration {
    Orchestration(steps, state, {}, map[], map[])
  }

  /** The first activity is published and the record is running; no process is left. */
  function Started(steps: seq<Step>): System {
    System(Some(Record(steps, Running)), 2, map[0 := "a"], 1, {"a"}, map[], {}, map[], {}, map[])
  }

  lemma FreshRecords(steps: seq<Step>)
    requires steps == ONE || steps == TWO
    ensures Fresh(Record(steps, Initialized))
  {
    assert A.id != B.id;
    forall i, j, id | InStep(steps, i, id) && InStep(steps, j, id) ensures i == j {
      assert id == steps[i][0].id && id == steps[j][0].id;
    }
    assert steps == TWO ==> A in steps[0] && InStep(steps, 0, "a");
  }

  ghost predicate Current(s: System, p: nat) {
    At(s, p) && PhaseOf(s, p).Writing? && PhaseOf(s, p).rev == s.rev
  }

  /** The events by which every run starts satisfy the hypothesis. */
  ghost predicate AllowsStart(h: Hypothesis) {
    forall s, p: nat, a: Action ::
      a.Call? || a.Store? || a.Publish? || (a == Update(Reply) && Current(s, p)) || a.Crash? ==> h(s, p, a)
  }

  lemma InitReachable(maxRetries: Limits, h: Hypothesis)
    ensures Reachable(INIT, maxRetries, h)
  {
    assert IsRun(INIT, [], maxRetries, h) && After(INIT, [], maxRetries) == INIT;
  }

  lemma StartedReachable(steps: seq<Step>, maxRetries: Limits, h: Hypothesis)
    requires (steps == ONE || steps == TWO) && AllowsStart(h)
    ensures Reachable(Started(steps), maxRetries, h)
  {
    hide Do, Enabled, AllowsStart, WellFormed, Fresh, Reachable;
    FreshRecords(steps);
    InitReachable(maxRetries, h);
    var o := Record(steps, Initialized);
    var s := StoreFirst(o, maxRetries, h);
    AllowsStartAt(h, 0);
    s := PublishStep(s, 0, maxRetries, h);
    assert s.processes == map[0 := Process(Starter(o), Writing(MarkRunning, Local(map[], map[], {}), o, 1, 0))];
    s := Land(s, 0, maxRetries, h);
    s := CrashAt(s, 0, maxRetries, h);
    assert s == Started(steps);
  }

  lemma AllowsStartAt(h: Hypothesis, p: nat)
    requires AllowsStart(h)
    ensures forall s, a: Action :: a.Publish? || (a == Update(Reply) && Current(s, p)) || a.Crash? ==> h(s, p, a)
  {
  }

  lemma StoreFirst(o: Orchestration, maxRetries: Limits, h: Hypothesis) returns (s: System)
    requires Fresh(o) && AllowsStart(h) && |o.steps[0]| > 0 && Reachable(INIT, maxRetries, h)
    ensures Reachable(s, maxRetries, h)
    ensures s == INIT.(record := Some(o), rev := 1, processes := map[0 := Process(Starter(o), Publishing(o, 1, 0, 0))])
  {
    s := Take(INIT, 0, Call(o), maxRetries, h);
    s := Take(s, 0, Store(Reply), maxRetries, h);
  }

  // ----- The limits -----

  const THREE: Limits := (a: Id) => 3

  ghost const NO_FINAL: Hypothesis := (s: System, p: nat, a: Action) => !a.Panic? && (a.Deliver? ==> !a.final)
  ghost const ONE_HANDLER_OR_FINAL: Hypothesis :=
    (s: System, p: nat, a: Action) => a.Deliver? ==> forall q :: !IsExecutor(s, q)

  /** A handler of the only activity is about to record a fatal error. */
  lemma FatalNext() returns (s: System)
    ensures Reachable(s, THREE, NO_FINAL) && s.(processes := map[]) == Started(ONE)
    ensures s.processes == map[
              0 := Process(Executor("a", 0, false), Writing(Fatal, Local(map[], map[], {}), Record(ONE, Running), 2, 0))]
  {
    hide Do, Enabled, Reachable, WellFormed;
    StartedReachable(ONE, THREE, NO_FINAL);
    s := Deliver(Started(ONE), 0, 0, false, THREE, NO_FINAL);
    s := Read(s, 0, THREE, NO_FINAL);
    s := Work(s, 0, ResultFatalError, THREE, NO_FINAL);
    assert Record(ONE, Running).data.Keys == {};
    assert PhaseOf(s, 0) == Writing(Fatal, Local(map[], map[], {}), Record(ONE, Running), 2, 0);
  }

  /** handleFatalError acknowledges its message although the write failed: an activity is left that has not completed,
      that has no message, and whose orchestration is still running. */
  lemma FatalErrorLost() returns (s: System)
    ensures Reachable(s, THREE, NO_FINAL) && Live(s)
    ensures "a" in s.published && "a" !in s.record.value.completed && !HasTurn(s, "a")
  {
    hide Do, Enabled, Reachable;
    s := FatalNext();
    s := Miss(s, 0, NoReply(false), THREE, NO_FINAL);
    s := Respond(s, 0, THREE, NO_FINAL);
    s := Acknowledge(s, 0, THREE, NO_FINAL);
    assert s.messages == map[];
  }

  /** The steps of the two activities. */
  lemma StepsOf(steps: seq<Step>)
    requires steps == ONE || steps == TWO
    ensures StepIndex(steps, "a") == 0 && StepIds(steps[0]) == {"a"}
    ensures steps == TWO ==> StepIndex(steps, "b") == 1 && StepIds(steps[1]) == {"b"}
  {
    FreshRecords(steps);
    assert A in steps[0] && InStep(steps, 0, "a");
    StepIndexUnique(steps, 0, "a");
    if steps == TWO {
      assert B in steps[1] && InStep(steps, 1, "b");
      StepIndexUnique(steps, 1, "b");
    }
  }

  const ENDING: Orchestration := Record(ONE, Running).(completed := {"a"})
  const NOTHING: Local := Local(map[], map[], {})

  lemma CompletesA(rev: nat)
    ensures Apply(Complete, "a", NOTHING, Record(ONE, Running)) == ENDING
    ensures AfterWrite(Complete, "a", ENDING, rev) == Some(Writing(Finish, NOTHING, ENDING, rev, 0))
  {
    StepsOf(ONE);
    var o := Apply(Complete, "a", NOTHING, Record(ONE, Running));
    assert o.data == map[] && o.retries == map[] && o.completed == {"a"};
  }

  /** The only handler's process, before and after it has run its activity. */
  ghost predicate Runs(s: System, p: nat, msg: nat) {
    && s.record == Some(Record(ONE, Running)) && At(s, p)
    && s.processes[p] == Process(Executor("a", msg, false), Working(Record(ONE, Running), s.rev))
  }

  /** The handler of the only activity completes it and marks the orchestration completed. */
  lemma CompleteOne(s: System, p: nat, msg: nat, h: Hypothesis) returns (s': System)
    requires Reachable(s, THREE, h) && Runs(s, p, msg)
    requires forall t, a: Action :: a == Update(Reply) || a == Run(ResultComplete, map[]) ==> h(t, p, a)
    ensures Reachable(s', THREE, h)
    ensures s'.record == Some(ENDING.(state := Completed)) && s'.rev == s.rev + 2 && s'.messages == s.messages
    ensures s'.processes == s.processes[p := Process(s.processes[p].role, Responding(Finished))]
  {
    hide Do, Enabled, Reachable, WellFormed, StepIds, StepIndex, CanProceed;
    CompletesA(s.rev + 1);
    s' := Work(s, p, ResultComplete, THREE, h);
    assert PhaseOf(s', p) == Writing(Complete, NOTHING, Record(ONE, Running), s.rev, 0);
    s' := Land(s', p, THREE, h);
    assert s'.record == Some(ENDING) && PhaseOf(s', p) == Writing(Finish, NOTHING, ENDING, s'.rev, 0);
    s' := Land(s', p, THREE, h);
  }

  /** A second handler of the same activity that started before the orchestration was completed marks it errored. */
  lemma SecondHandlerFails() returns (s: System, p: nat)
    ensures Reachable(s, THREE, NO_FINAL) && s.record.Some? && s.record.value.state.Completed?
    ensures Enabled(s, p, Update(Reply)) && Erroneous(Do(s, p, Update(Reply), THREE))
  {
    hide Do, Enabled, Reachable, Commit;
    StartedReachable(ONE, THREE, NO_FINAL);
    s := Deliver(Started(ONE), 0, 0, false, THREE, NO_FINAL);
    s := Deliver(s, 1, 0, false, THREE, NO_FINAL);
    s := Read(s, 0, THREE, NO_FINAL);
    s := Read(s, 1, THREE, NO_FINAL);
    s := CompleteOne(s, 0, 0, NO_FINAL);
    p := 1;
    assert PhaseOf(s, p) == Working(Record(ONE, Running), 2);
    s := Work(s, p, ResultFatalError, THREE, NO_FINAL);
    s := Miss(s, p, Reply, THREE, NO_FINAL);
    s := ReadAgain(s, p, THREE, NO_FINAL);
    FatalLands(s, p);
  }

  lemma FatalLands(s: System, p: nat)
    requires At(s, p) && PhaseOf(s, p).Writing? && PhaseOf(s, p).write.Fatal? && PhaseOf(s, p).rev == s.rev
    ensures Enabled(s, p, Update(Reply)) && Erroneous(Do(s, p, Update(Reply), THREE))
  {
  }

  /** The final delivery of a message whose activity has completed marks the orchestration errored. */
  lemma FinalDeliveryFails() returns (s: System, p: nat)
    ensures Reachable(s, THREE, ONE_HANDLER_OR_FINAL) && s.record.Some? && s.record.value.state.Completed?
    ensures Enabled(s, p, Update(Reply)) && Erroneous(Do(s, p, Update(Reply), THREE))
  {
    hide Do, Enabled, Reachable, Commit;
    StartedReachable(ONE, THREE, ONE_HANDLER_OR_FINAL);
    s := Deliver(Started(ONE), 0, 0, false, THREE, ONE_HANDLER_OR_FINAL);
    s := Read(s, 0, THREE, ONE_HANDLER_OR_FINAL);
    s := CompleteOne(s, 0, 0, ONE_HANDLER_OR_FINAL);
    s := CrashAt(s, 0, THREE, ONE_HANDLER_OR_FINAL);
    p := 0;
    s := Deliver(s, p, 0, true, THREE, ONE_HANDLER_OR_FINAL);
    s := Read(s, p, THREE, ONE_HANDLER_OR_FINAL);
    FatalLands(s, p);
  }

  const HALF: Orchestration := Record(TWO, Running).(completed := {"a"})

  lemma CompletesFirst(rev: nat)
    ensures Apply(Complete, "a", NOTHING, Record(TWO, Running)) == HALF
    ensures Apply(Wait, "a", NOTHING, Record(TWO, Running)) == Record(TWO, Running)
    ensures AfterWrite(Complete, "a", HALF, rev) == Some(Publishing(HALF, rev, 1, 0))
  {
    StepsOf(TWO);
    var o := Apply(Complete, "a", NOTHING, Record(TWO, Running));
    assert o.data == map[] && o.retries == map[] && o.completed == {"a"};
  }

  /** Two handlers of the first activity have read the record; the first has persisted that it waits. */
  lemma OneWaits() returns (s: System)
    ensures Reachable(s, THREE, CALM) && s.record == Some(Record(TWO, Running)) && s.rev == 3
    ensures s.messages == map[0 := "a"] && s.published == {"a"}
    ensures s.processes == map[
      0 := Process(Executor("a", 0, false), Acking(WaitPersisted)),
      1 := Process(Executor("a", 0, false), Working(Record(TWO, Running), 2))]
  {
    hide Do, Enabled, Reachable, WellFormed, StepIds, StepIndex, CanProceed;
    CompletesFirst(4);
    StartedReachable(TWO, THREE, CALM);
    s := Deliver(Started(TWO), 0, 0, false, THREE, CALM);
    s := Deliver(s, 1, 0, false, THREE, CALM);
    s := Read(s, 0, THREE, CALM);
    s := Read(s, 1, THREE, CALM);
    s := Work(s, 0, ResultWait, THREE, CALM);
    assert PhaseOf(s, 0) == Writing(Wait, NOTHING, Record(TWO, Running), 2, 0);
    s := Land(s, 0, THREE, CALM);
  }

  /** An activity that waits in one handler and completes in another: when the second crashes before it has enqueued the
      next step and the first acknowledges the message, the orchestration is running and no message is left. */
  lemma WaitLosesHandOver() returns (s: System)
    ensures Reachable(s, THREE, CALM) && Live(s) && s.messages == map[]
    ensures StepFull(s, 0) && |s.record.value.steps| == 2 && !NextPublished(s, 0)
  {
    hide Do, Enabled, Reachable, WellFormed, StepIds, StepIndex, CanProceed;
    StepsOf(TWO);
    CompletesFirst(4);
    s := OneWaits();
    s := Work(s, 1, ResultComplete, THREE, CALM);
    assert PhaseOf(s, 1) == Writing(Complete, NOTHING, Record(TWO, Running), 2, 0);
    s := Miss(s, 1, Reply, THREE, CALM);
    s := ReadAgain(s, 1, THREE, CALM);
    s := Land(s, 1, THREE, CALM);
    assert s.record == Some(HALF) && s.published == {"a"};
    s := CrashAt(s, 1, THREE, CALM);
    s := Acknowledge(s, 0, THREE, CALM);
  }

  function CountedB(n: nat): Orchestration { HALF.(retries := map["b" := n]) }

  /** The first activity has completed, its message is not acknowledged, and the second has been published. */
  lemma SecondPublished() returns (s: System)
    ensures Reachable(s, THREE, NO_FINAL) && s.record == Some(HALF) && s.rev == 3 && s.retryErrors == map[]
    ensures s.messages == map[0 := "a", 1 := "b"] && s.processes == map[]
  {
    hide Do, Enabled, Reachable, WellFormed, StepIds, StepIndex, CanProceed;
    CompletesFirst(3);
    StartedReachable(TWO, THREE, NO_FINAL);
    s := Deliver(Started(TWO), 0, 0, false, THREE, NO_FINAL);
    s := Read(s, 0, THREE, NO_FINAL);
    s := Work(s, 0, ResultComplete, THREE, NO_FINAL);
    assert PhaseOf(s, 0) == Writing(Complete, NOTHING, Record(TWO, Running), 2, 0);
    s := Land(s, 0, THREE, NO_FINAL);
    s := PublishStep(s, 0, THREE, NO_FINAL);
    s := CrashAt(s, 0, THREE, NO_FINAL);
  }

  /** What a handler of the second activity does that reports a retriable error. */
  lemma RetriesB(o: Orchestration, n: nat, rev: nat)
    requires o == HALF.(retries := o.retries) && Count(o.retries, "b") == n < 2 && o.retries.Keys <= {"b"}
    ensures AfterRead(Executor("b", 1, false), o, rev) == Working(o, rev)
    ensures AfterRun("b", ResultRetryError, map[], o, rev, THREE)
         == Writing(Retry, Local(map[], map["b" := n + 1], {}), CountedB(n + 1), rev, 0)
    ensures Apply(Retry, "b", Local(map[], map["b" := n + 1], {}), CountedB(n + 1)) == CountedB(n + 1)
  {
    assert o.retries["b" := n + 1] == map["b" := n + 1];
    assert CountedB(n + 1).data == map[] && CountedB(n + 1).retries == map["b" := n + 1];
  }

  lemma StartB(s: System) returns (s': System)
    requires Reachable(s, THREE, NO_FINAL) && !At(s, 9) && s.messages == map[0 := "a", 1 := "b"] && s.record.Some?
    requires AfterRead(Executor("b", 1, false), s.record.value, s.rev) == Working(s.record.value, s.rev)
    ensures Reachable(s', THREE, NO_FINAL)
    ensures s' == s.(processes :=
              s.processes[9 := Process(Executor("b", 1, false), Working(s.record.value, s.rev))])
  {
    hide Do, Enabled, Reachable, AfterRead;
    s' := Deliver(s, 9, 1, false, THREE, NO_FINAL);
    s' := Read(s', 9, THREE, NO_FINAL);
    assert s'.processes == s.processes[9 := Process(Executor("b", 1, false), Working(s.record.value, s.rev))];
  }

  /** A handler of the second activity reports a retriable error. */
  lemma WorkB(s: System, n: nat) returns (s': System)
    requires Reachable(s, THREE, NO_FINAL) && !At(s, 9) && n < 2 && s.messages == map[0 := "a", 1 := "b"]
    requires s.record == Some(HALF.(retries := s.retryErrors)) && Count(s.retryErrors, "b") == n
    requires s.retryErrors.Keys <= {"b"}
    ensures Reachable(s', THREE, NO_FINAL)
    ensures s' == s.(retryErrors := map["b" := n + 1], processes := s.processes[9 := Process(Executor("b", 1, false),
              Writing(Retry, Local(map[], map["b" := n + 1], {}), CountedB(n + 1), s.rev, 0))])
  {
    hide Do, Enabled, Reachable, AfterRead, AfterRun, HALF, CountedB;
    RetriesB(s.record.value, n, s.rev);
    s' := StartB(s);
    s' := Work(s', 9, ResultRetryError, THREE, NO_FINAL);
    assert s.retryErrors["b" := n + 1] == map["b" := n + 1];
    assert s'.processes[9].phase == Writing(Retry, Local(map[], map["b" := n + 1], {}), CountedB(n + 1), s.rev, 0);
  }

  /** A handler of the second activity reports a retriable error and persists it. */
  lemma FailB(s: System, n: nat) returns (s': System)
    requires Reachable(s, THREE, NO_FINAL) && !At(s, 9) && n < 2 && s.messages == map[0 := "a", 1 := "b"]
    requires s.record == Some(HALF.(retries := s.retryErrors)) && Count(s.retryErrors, "b") == n
    requires s.retryErrors.Keys <= {"b"}
    ensures Reachable(s', THREE, NO_FINAL) && s'.record == Some(CountedB(n + 1)) && s'.rev == s.rev + 1
    ensures s'.messages == s.messages && s'.processes == s.processes && s'.retryErrors == map["b" := n + 1]
  {
    hide Do, Enabled, Reachable, Apply, HALF, CountedB, Count;
    RetriesB(s.record.value, n, s.rev);
    s' := WorkB(s, n);
    s' := Land(s', 9, THREE, NO_FINAL);
    assert s'.processes == s.processes;
  }

  /** A redelivered message of an earlier step takes the count of retriable errors back, although every step has one
      activity only and every write succeeds. */
  lemma StaleCopyForgetsRetries() returns (s: System)
    ensures Reachable(s, THREE, NO_FINAL) && s.record.Some? && forall p :: IsExecutor(s, p) ==> PhaseOf(s, p).Publishing?
    ensures Count(s.retryErrors, "b") == 2 && Count(s.record.value.retries, "b") == 1
  {
    hide Do, Enabled, Reachable, WellFormed, AfterWrite, Apply;
    var local := Local(map[], map["b" := 1], {});
    s := SecondPublished();
    s := FailB(s, 0);
    s := Deliver(s, 0, 0, false, THREE, NO_FINAL);
    s := Read(s, 0, THREE, NO_FINAL);
    assert CountedB(1).data.Keys == {};
    assert PhaseOf(s, 0) == Writing(Complete, local, CountedB(1), s.rev, 0);
    s := FailB(s, 1);
    HandsOverAgain(local, s.rev + 1);
    s := LandLater(s, 0, THREE, NO_FINAL);
  }

  lemma HandsOverAgain(local: Local, rev: nat)
    requires local == Local(map[], map["b" := 1], {})
    ensures
      var o := Apply(Complete, "a", local, CountedB(2));
      o == CountedB(1) && AfterWrite(Complete, "a", o, rev) == Some(Publishing(o, rev, 1, 0))
  {
    StepsOf(TWO);
    var o := Apply(Complete, "a", local, CountedB(2));
    assert o.data == map[] && o.completed == {"a"} && o.retries == map["b" := 1];
  }
}
