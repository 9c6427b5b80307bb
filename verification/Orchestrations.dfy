/** The orchestration record of the Provision Manager and the questions the engine asks about its steps
    (pmanager/api/types.go). The read-only operations are methods, as in the source; each is proved against a
    function that the step system of module `Engine` uses. */
module Orchestrations {
  import opened Options

  type Id = string

  datatype Activity = Activity(id: Id, kind: string, discriminator: string, dependsOn: seq<Id>)

  /** The activities of one step run in parallel. */
  type Step = seq<Activity>

  datatype State = Initialized | Running | Completed | Errored {
    predicate IsTerminal() { Completed? || Errored? }
  }

  /** Keys of the two data maps of an orchestration; both maps are written in the same way. */
  datatype DataKey = Processing(key: string) | Output(key: string)

  type Data = map<DataKey, string>

  /** `retries` is the part of the engine's bookkeeping that decides control flow. */
  datatype Orchestration = Orchestration(
    steps: seq<Step>, state: State, completed: set<Id>, data: Data, retries: map<Id, nat>)

  function StepIds(step: Step): set<Id> {
    set activity | activity in step :: activity.id
  }

  predicate InStep(steps: seq<Step>, i: int, id: Id) {
    0 <= i < |steps| && id in StepIds(steps[i])
  }

  ghost predicate InSteps(steps: seq<Step>, id: Id) {
    exists i :: InStep(steps, i, id)
  }

  /** The first `n` steps are complete. */
  ghost predicate DoneUpTo(steps: seq<Step>, n: int, done: set<Id>) {
    forall i :: 0 <= i < n && i < |steps| ==> StepIds(steps[i]) <= done
  }

  ghost predicate AllDone(steps: seq<Step>, done: set<Id>) {
    DoneUpTo(steps, |steps|, done)
  }

  /** What InstantiateOrchestration guarantees of the steps it builds: there is a step, no step is empty, an ID
      occurs in one step only, and the dependencies of an activity lie in earlier steps. */
  predicate WellFormed(steps: seq<Step>) {
    && |steps| > 0
    && (forall i :: 0 <= i < |steps| ==> |steps[i]| > 0)
    && (forall i, j, id {:trigger InStep(steps, i, id), InStep(steps, j, id)} ::
          0 <= i < |steps| && id in StepIds(steps[i]) && 0 <= j < |steps| && InStep(steps, i, id) && InStep(steps, j, id)
          ==> i == j)
    && (forall i, k, d :: 0 <= i < |steps| && 0 <= k < |steps[i]| && d in steps[i][k].dependsOn
          ==> exists j :: 0 <= j < i && InStep(steps, j, d))
  }

  predicate HasId(step: Step, id: Id) {
    exists activity :: activity in step && activity.id == id
  }

  /** The index of the first step holding the activity; the number of steps if there is none. */
  function StepIndex(steps: seq<Step>, id: Id): (i: nat)
    ensures i <= |steps|
    ensures i < |steps| ==> InStep(steps, i, id)
    ensures forall j :: 0 <= j < i ==> !InStep(steps, j, id)
  {
    if |steps| == 0 then 0
    else if HasId(steps[0], id) then 0
    else
      var rest := StepIndex(steps[1..], id);
      assert forall j :: 0 < j < |steps| ==> (InStep(steps, j, id) <==> InStep(steps[1..], j - 1, id));
      1 + rest
  }

  /** Every other activity of the step of `id` has completed; an error if there is no such step. */
  function CanProceed(o: Orchestration, id: Id): Option<bool> {
    var i := StepIndex(o.steps, id);
    if i == |o.steps| then None else Some(StepIds(o.steps[i]) - {id} <= o.completed)
  }

  /** The orchestration can proceed past the first step that holds the activity exactly if all other activities of that
      step have completed; there is no answer exactly if no step holds it. */
  lemma CanProceedExactly(o: Orchestration, id: Id, i: nat)
    requires i < |o.steps| && InStep(o.steps, i, id) && forall j :: 0 <= j < i ==> !InStep(o.steps, j, id)
    ensures CanProceed(o, id) ==
              Some(forall k :: 0 <= k < |o.steps[i]| && o.steps[i][k].id != id ==> o.steps[i][k].id in o.completed)
  {
    assert StepIndex(o.steps, id) == i;
    assert forall k :: 0 <= k < |o.steps[i]| ==> o.steps[i][k].id in StepIds(o.steps[i]);
  }

  /** In a well-formed orchestration the step of an activity is the only one it is in. */
  lemma StepIndexUnique(steps: seq<Step>, i: nat, id: Id)
    requires WellFormed(steps) && InStep(steps, i, id)
    ensures StepIndex(steps, id) == i
  {
    var j := StepIndex(steps, id);
    assert j < |steps|;
    assert InStep(steps, j, id);
  }

  /** Retrieves the step containing the activity. */
  method GetStepForActivity(o: Orchestration, id: Id) returns (step: Option<Step>)
    ensures step == (var i := StepIndex(o.steps, id); if i == |o.steps| then None else Some(o.steps[i]))
  {
    for i := 0 to |o.steps|
      invariant forall j :: 0 <= j < i ==> !InStep(o.steps, j, id)
    {
      for k := 0 to |o.steps[i]|
        invariant forall l :: 0 <= l < k ==> o.steps[i][l].id != id
      {
        if o.steps[i][k].id == id {
          assert InStep(o.steps, i, id);
          return Some(o.steps[i]);
        }
      }
    }
    return None;
  }

  /** Reports whether the step of the activity is complete once the activity itself is; an error if it has no step. */
  method CanProceedToNextStep(o: Orchestration, id: Id) returns (r: Option<bool>)
    ensures r == CanProceed(o, id)
  {
    var found := GetStepForActivity(o, id);
    if found.None? {
      return None;
    }
    var step := found.value;
    for k := 0 to |step|
      invariant forall l :: 0 <= l < k ==> step[l].id == id || step[l].id in o.completed
    {
      if step[k].id == id {
        continue;
      }
      if step[k].id !in o.completed {
        assert step[k].id in StepIds(step) - {id};
        return Some(false);
      }
    }
    return Some(true);
  }

  /** The activities of the step after the one containing the activity; none if it is the last or not found. */
  method GetNextStepActivities(o: Orchestration, id: Id) returns (next: Step)
    ensures next == (var i := StepIndex(o.steps, id); if i + 1 < |o.steps| then o.steps[i + 1] else [])
  {
    for i := 0 to |o.steps|
      invariant forall j :: 0 <= j < i ==> !InStep(o.steps, j, id)
    {
      for k := 0 to |o.steps[i]|
        invariant forall l :: 0 <= l < k ==> o.steps[i][l].id != id
      {
        if o.steps[i][k].id == id {
          assert InStep(o.steps, i, id);
          if i + 1 < |o.steps| {
            return o.steps[i + 1];
          }
          return [];
        }
      }
    }
    return [];
  }

  /** The first step that has activities; the number of steps if there is none. */
  function FirstStep(steps: seq<Step>): (i: nat)
    ensures i <= |steps| && (i < |steps| ==> |steps[i]| > 0)
    ensures forall j :: 0 <= j < i ==> |steps[j]| == 0
  {
    if |steps| == 0 then 0 else if |steps[0]| > 0 then 0 else 1 + FirstStep(steps[1..])
  }

  method GetInitialActivities(o: Orchestration) returns (initial: Step)
    ensures initial == (var i := FirstStep(o.steps); if i < |o.steps| then o.steps[i] else [])
  {
    for i := 0 to |o.steps|
      invariant forall j :: 0 <= j < i ==> |o.steps[j]| == 0
    {
      if |o.steps[i]| > 0 {
        return o.steps[i];
      }
    }
    return [];
  }

  /** Copies the retry counts of `from` over those in `onto`; counts of other activities in `onto` are kept. */
  method MergeRetries(onto: map<Id, nat>, from: map<Id, nat>) returns (merged: map<Id, nat>)
    ensures merged == onto + from
  {
    merged := onto;
    var rest := from.Keys;
    while rest != {}
      invariant rest <= from.Keys
      invariant merged == onto + (map id | id in from.Keys - rest :: from[id])
      decreases rest
    {
      var id :| id in rest;
      merged := merged[id := from[id]];
      rest := rest - {id};
    }
    assert (map id | id in from.Keys - rest :: from[id]) == from;
  }
}
