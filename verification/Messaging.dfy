/** The key-value store and the message stream as one process sees them: before each of its operations, other processes
    take steps of their own, and the operation itself may fail. What the others do and how operations turn out is
    chosen in advance, by `choices`, and arbitrary. */
module Messaging {
  import opened Options
  import opened Orchestrations
  import opened Engine
  import opened EngineSafety
  import opened EngineTheorems

  /** How one operation turns out: what happens before it, and what the server and the activity answer. */
  datatype Choice = Choice(
    others: seq<Event>, outcome: Outcome, ok: bool, stored: bool, duplicate: bool, result: Result, values: Data, wait: int)

  datatype Written = Stored(rev: nat) | Conflict | Failed

  /** `cur` is the record of a later state at revision `rev`, with the data and retry counts of a handler's own copy on
      its first attempt, and all of it after a conflict. */
  ghost predicate Replaced(s: System, before: System, cur: Orchestration, rev: int, conflicts: nat) {
    && Grows(s, before) && before.record.Some? && before.rev == rev
    && var o := before.record.value;
    && cur == o.(data := cur.data, retries := cur.retries) && (conflicts > 0 ==> cur == o)
  }

  class Cluster {
    const maxRetries: Limits
    var state: System
    var choices: seq<Choice>
    /** All events so far. */
    ghost var history: seq<Event>

    /** The state is the one the step system reaches by the events so far. */
    ghost predicate Valid()
      reads this
    {
      IsRun(INIT, history, maxRetries, ANY) && After(INIT, history, maxRetries) == state
    }

    /** Process `p` is in the given phase; it is gone if there is none. */
    ghost predicate Is(p: nat, role: Role, phase: Option<Phase>)
      reads this
    {
      if phase.Some? then At(state, p) && state.processes[p] == Process(role, phase.value) else !At(state, p)
    }

    twostate predicate Later()
      reads this
    {
      Valid() && old(history) <= history && Grows(old(state), state)
    }

    constructor (maxRetries: Limits, choices: seq<Choice>)
      ensures Valid() && state == INIT && this.maxRetries == maxRetries
    {
      this.maxRetries := maxRetries;
      this.choices := choices;
      state := INIT;
      history := [];
      new;
      assert IsRun(INIT, [], maxRetries, ANY);
    }

    /** Takes one step of process `p`. */
    method Take(p: nat, a: Action)
      requires Valid() && Enabled(state, p, a)
      modifies this
      ensures Later() && state == Do(old(state), p, a, maxRetries) && history == old(history) + [Event(p, a)]
    {
      ReachesSafe(history, maxRetries);
      SafeEvent(state, p, a, maxRetries);
      Append(INIT, history, Event(p, a), maxRetries, ANY);
      state := Do(state, p, a, maxRetries);
      history := history + [Event(p, a)];
    }

    /** Lets other processes go first. */
    method Await(p: nat) returns (choice: Choice)
      requires Valid()
      modifies this
      ensures Later()
      ensures At(state, p) <==> At(old(state), p)
      ensures At(state, p) ==> state.processes[p] == old(state.processes[p])
    {
      choice := Choice([], Reply, true, true, false, ResultComplete, map[], 0);
      if |choices| > 0 {
        choice := choices[0];
        choices := choices[1..];
      }
      GrowsReflexive(state);
      for i := 0 to |choice.others|
        invariant Later()
        invariant At(state, p) <==> At(old(state), p)
        invariant At(state, p) ==> state.processes[p] == old(state.processes[p])
      {
        var Event(q, a) := choice.others[i];
        if q != p && Enabled(state, q, a) {
          ghost var s := state;
          OnlyMoves(state, q, a, maxRetries);
          OthersStay(state, Do(state, q, a, maxRetries), q);
          Take(q, a);
          GrowsTransitive(old(state), s, state);
        }
      }
    }

    /** A new handler for a message. */
    method Deliver(p: nat, msg: nat, final: bool)
      requires Valid() && !At(state, p) && msg in state.messages
      modifies this
      ensures Later() && Is(p, Executor(old(state).messages[msg], msg, final), Some(Reading))
    {
      Take(p, Action.Deliver(msg, final));
    }

    /** A new call of Execute. */
    method Call(p: nat, content: Orchestration)
      requires Valid() && !At(state, p) && FirstStep(content.steps) < |content.steps|
      requires Fresh(content) || state.record.Some?
      modifies this
      ensures Later() && Is(p, Starter(content), Some(Storing))
    {
      Take(p, Action.Call(content));
    }

    /** Reads the record and its revision. A handler that cannot read the record for its first time gives up, and on the
        final delivery terminates its message. */
    method Get(p: nat) returns (r: Option<(Orchestration, nat)>)
      requires Valid() && At(state, p)
      requires PhaseOf(state, p).Reading? || PhaseOf(state, p).Rereading? || PhaseOf(state, p).ReadingExisting?
      modifies this
      ensures Later() && (r.Some? ==> state.record == Some(r.value.0) && state.rev == r.value.1)
      ensures
        var Process(role, phase) := old(state.processes[p]);
        Is(p, role,
          match phase
          case Reading => if r.Some? && role.Executor? then Some(AfterRead(role, r.value.0, r.value.1)) else None
          case Rereading(write, local, n) =>
            if r.Some? then Some(Writing(write, local, r.value.0, r.value.1, n)) else AfterFailedWrite(write)
          case _ => Some(
            if r.None? then Returned(false)
            else if !r.value.0.state.Initialized? then Returned(true)
            else Publishing(r.value.0, r.value.1, FirstStep(r.value.0.steps), 0)))
    {
      ghost var s0 := state;
      var choice := Await(p);
      ghost var s1 := state;
      ReachesSafe(history, maxRetries);
      RecordAt(state, p);
      r := if choice.ok then Some((state.record.value, state.rev)) else None;
      if PhaseOf(state, p).Reading? {
        Take(p, Read(choice.ok));
      } else if PhaseOf(state, p).Rereading? {
        Take(p, Reread(choice.ok));
      } else {
        Take(p, ReadExisting(choice.ok));
      }
      GrowsTransitive(s0, s1, state);
    }

    /** Stores `o` if there is no record, as a write at revision 0 does. */
    method Create(p: nat, o: Orchestration) returns (r: Written)
      requires Valid() && IsStarter(state, p) && PhaseOf(state, p).Storing? && o == state.processes[p].role.content
      modifies this
      ensures Later() && (r.Stored? ==> state.record == Some(o) && state.rev == r.rev)
      ensures
        var role := old(state.processes[p].role);
        Is(p, role,
          match r
          case Stored(rev) => Some(Publishing(o, rev, FirstStep(o.steps), 0))
          case Conflict => Some(ReadingExisting)
          case Failed => Some(Returned(false)))
    {
      ghost var s0 := state;
      var choice := Await(p);
      ghost var s1 := state;
      r := if choice.outcome.NoReply? then Failed else if state.record.None? then Stored(state.rev + 1) else Conflict;
      Take(p, Store(choice.outcome));
      GrowsTransitive(s0, s1, state);
    }

    /** Writes `o` if the record is still at revision `rev`. */
    method Update(p: nat, o: Orchestration, rev: nat) returns (r: Written)
      requires Valid() && At(state, p) && PhaseOf(state, p).Writing? && rev == PhaseOf(state, p).rev
      requires
        var Process(role, Writing(write, local, cur, _, _)) := state.processes[p];
        o == Apply(write, ActivityOf(role), local, cur)
      modifies this
      ensures Later() && (r.Stored? ==> state.record == Some(o) && state.rev == r.rev == rev + 1)
      ensures
        var Writing(_, _, cur, _, conflicts) := old(PhaseOf(state, p));
        r.Stored? ==> exists before :: Replaced(old(state), before, cur, rev, conflicts)
      ensures
        var Process(role, Writing(write, _, _, _, _)) := old(state.processes[p]);
        r.Stored? && write.Wait? ==> ActivityOf(role) in state.waited
      ensures
        var Process(role, Writing(write, local, cur, _, conflicts)) := old(state.processes[p]);
        Is(p, role,
          if r.Stored? then AfterWrite(write, ActivityOf(role), o, r.rev)
          else AfterConflict(write, local, conflicts, r.Conflict?))
    {
      hide Grows, DoUpdate, Apply, AfterWrite;
      ghost var s0 := state;
      var choice := Await(p);
      ghost var s1 := state;
      r := if choice.outcome.NoReply? then Failed else if state.rev == rev then Stored(rev + 1) else Conflict;
      UpdateLeads(state, p, choice.outcome);
      if state.rev == rev {
        ReachesSafe(history, maxRetries);
        ReplacedNow(s0, state, p);
      }
      Take(p, Action.Update(choice.outcome));
      GrowsTransitive(s0, s1, state);
    }

    /** Publishes the message of the next activity; the stream drops a message whose ID it has seen recently. */
    method PublishMsg(p: nat, id: Id) returns (ok: bool)
      requires Valid() && At(state, p) && PhaseOf(state, p).Publishing?
      requires
        var Publishing(cur, _, step, next) := PhaseOf(state, p);
        step < |cur.steps| && next < |cur.steps[step]| && id == cur.steps[step][next].id
      modifies this
      ensures Later() && (ok ==> id in state.published)
      ensures
        var Process(role, Publishing(cur, rev, step, next)) := old(state.processes[p]);
        Is(p, role, if ok then Some(Publishing(cur, rev, step, next + 1)) else AfterFailedPublish(role))
    {
      ghost var s0 := state;
      var choice := Await(p);
      ghost var s1 := state;
      ok := choice.ok;
      Take(p, Publish(choice.ok, choice.stored, choice.duplicate));
      GrowsTransitive(s0, s1, state);
    }

    /** All messages of the step are published. */
    method PublishedAll(p: nat)
      requires Valid() && At(state, p) && PhaseOf(state, p).Publishing?
      requires var Publishing(cur, _, step, next) := PhaseOf(state, p); step >= |cur.steps| || next >= |cur.steps[step]|
      modifies this
      ensures Later()
      ensures
        var Process(role, Publishing(cur, rev, _, _)) := old(state.processes[p]);
        Is(p, role, Some(AfterPublishing(role, cur, rev)))
    {
      Take(p, Publish(true, true, false));
    }

    /** Runs the activity processor on the record that the handler has read; `wait` is the delay it asks for, if any. */
    method RunActivity(p: nat) returns (result: Result, values: Data, wait: int)
      requires Valid() && IsExecutor(state, p) && PhaseOf(state, p).Working?
      modifies this
      ensures Later()
      ensures
        var Process(role, Working(cur, rev)) := old(state.processes[p]);
        Is(p, role, Some(AfterRun(role.activity, result, values, cur, rev, maxRetries)))
    {
      ghost var s0 := state;
      var choice := Await(p);
      ghost var s1 := state;
      result, values, wait := choice.result, choice.values, choice.wait;
      Take(p, Run(result, values));
      GrowsTransitive(s0, s1, state);
    }

    method PublishResponse(p: nat) returns (ok: bool)
      requires Valid() && At(state, p) && PhaseOf(state, p).Responding?
      modifies this
      ensures Later()
      ensures
        var Process(role, Responding(reason)) := old(state.processes[p]);
        Is(p, role, if ok then Some(Acking(reason)) else None)
    {
      ghost var s0 := state;
      var choice := Await(p);
      ghost var s1 := state;
      ok := choice.ok;
      Take(p, Respond(ok));
      GrowsTransitive(s0, s1, state);
    }

    /** Acknowledges the message of a handler, which ends. */
    method AckMessage(p: nat) returns (ok: bool)
      requires Valid() && IsExecutor(state, p) && PhaseOf(state, p).Acking?
      modifies this
      ensures Later() && !At(state, p)
      ensures ok ==> old(state.processes[p].role.msg) !in state.messages
    {
      ghost var s0 := state;
      var choice := Await(p);
      ghost var s1 := state;
      ok := choice.ok;
      Take(p, Ack(ok));
      GrowsTransitive(s0, s1, state);
    }
  }

  lemma RecordAt(s: System, p: nat)
    requires Safe(s) && At(s, p)
    requires PhaseOf(s, p).Reading? || PhaseOf(s, p).Rereading? || PhaseOf(s, p).ReadingExisting?
    ensures s.record.Some?
    ensures PhaseOf(s, p).Reading? ==> IsExecutor(s, p)
    ensures PhaseOf(s, p).ReadingExisting? ==> IsStarter(s, p)
  {
    assert ProcessOk(s, s.processes[p]);
  }

  lemma ReplacedNow(s: System, before: System, p: nat)
    requires Grows(s, before) && Safe(before) && At(before, p) && PhaseOf(before, p).Writing?
    requires PhaseOf(before, p).rev == before.rev
    ensures Replaced(s, before, PhaseOf(before, p).cur, before.rev, PhaseOf(before, p).conflicts)
  {
    LandsOnCurrent(before, p);
  }

  lemma ReachesSafe(history: seq<Event>, maxRetries: Limits)
    requires IsRun(INIT, history, maxRetries, ANY)
    ensures Safe(After(INIT, history, maxRetries))
  {
    InitSafe();
    RunSafe(INIT, history, maxRetries, ANY);
  }

  lemma GrowsTransitive(s: System, t: System, u: System)
    requires Grows(s, t) && Grows(t, u)
    ensures Grows(s, u)
  {
  }
}
