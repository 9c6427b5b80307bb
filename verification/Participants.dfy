/** The deployment state of a participant profile (tmanager/core/service_participant.go, references.go): dispose
    requests, their reversal, and responses of the Provision Manager, which may come twice, late, or in any order. Here
    each is one step; module `ProfileTransactions` has the transactions, which overlap. */
module Participants {
  import opened Options

  datatype DeploymentState = Initial | Pending | Active | Disposing | Disposed | Locked | Offline | Error

  datatype OrchestrationType = Deploy | Dispose | Other(name: string)

  /** A virtual participant agent; an empty cell ID stands for no cell. */
  datatype Vpa = Vpa(id: string, cellID: string, state: DeploymentState)

  /** The orchestration that was last started for a profile. */
  datatype Manifest = Manifest(id: string, kind: OrchestrationType)

  datatype Profile = Profile(
    tenantID: string, dataspaceProfileIDs: seq<string>, vpas: seq<Vpa>,
    pending: Option<Manifest>, hasStateData: bool, error: bool)

  datatype Response = Response(manifestID: string, compensatedManifestID: string, kind: OrchestrationType, success: bool)

  // ----- References (references.go) -----

  predicate UsesCell(profile: Profile, cellID: string) {
    exists vpa :: vpa in profile.vpas && vpa.cellID == cellID && !vpa.state.Disposed?
  }

  /** All agents of the profile are disposed; a profile without agents is not. */
  predicate IsDisposed(profile: Profile) {
    |profile.vpas| > 0 && forall vpa :: vpa in profile.vpas ==> vpa.state.Disposed?
  }

  // ----- What the transactions make of a profile -----

  function WithState(vpas: seq<Vpa>, state: DeploymentState): (r: seq<Vpa>)
    ensures |r| == |vpas|
    ensures forall i :: 0 <= i < |r| ==> r[i] == vpas[i].(state := state)
  {
    seq(|vpas|, i requires 0 <= i < |vpas| => vpas[i].(state := state))
  }

  /** The response is that of the pending orchestration, or of the dispose orchestration that compensates it. */
  predicate IsPendingOrchestration(profile: Profile, response: Response) {
    && profile.pending.Some? && profile.pending.value.id != ""
    && var Manifest(id, kind) := profile.pending.value;
    && if id == response.manifestID then kind == response.kind
       else id == response.compensatedManifestID && kind.Deploy? && response.kind.Dispose?
  }

  function Deployed(profile: Profile, manifestID: string): Profile {
    profile.(pending := Some(Manifest(manifestID, Deploy)))
  }

  predicate MayDispose(profile: Profile) {
    profile.hasStateData && forall vpa :: vpa in profile.vpas ==> vpa.state.Active?
  }

  function DisposeStarted(profile: Profile, manifestID: string): Profile {
    profile.(vpas := WithState(profile.vpas, Disposing), pending := Some(Manifest(manifestID, Dispose)))
  }

  function Reverted(profile: Profile, manifestID: string): Profile {
    if IsPendingOrchestration(profile, Response(manifestID, "", Dispose, true))
    then profile.(vpas := WithState(profile.vpas, Active), pending := None)
    else profile
  }

  /** A response without a handler, or not of the pending orchestration, is ignored. A failed orchestration stays
      pending, so that its compensation can still be applied. */
  function Responded(profile: Profile, response: Response): Profile {
    if response.kind.Other? || !IsPendingOrchestration(profile, response) then profile
    else
      var next := profile.(pending := if response.success then None else profile.pending,
                           error := profile.error || !response.success);
      if response.kind.Deploy?
      then next.(vpas := WithState(profile.vpas, if response.success then Active else Error), hasStateData := true)
      else next.(vpas := WithState(profile.vpas, Disposed))
  }

  // ----- Runs -----

  /** What may happen to a profile after it was deployed. */
  datatype Step = BeginDispose(manifestID: string) | Revert(manifestID: string) | Respond(response: Response)

  function After(profile: Profile, step: Step): Profile {
    match step
    case BeginDispose(id) => if MayDispose(profile) then DisposeStarted(profile, id) else profile
    case Revert(id) => Reverted(profile, id)
    case Respond(response) => Responded(profile, response)
  }

  /** The step changes the profile; otherwise the transaction ends without an update. */
  predicate Applies(profile: Profile, step: Step) {
    match step
    case BeginDispose(_) => MayDispose(profile)
    case Revert(id) => IsPendingOrchestration(profile, Response(id, "", Dispose, true))
    case Respond(response) => !response.kind.Other? && IsPendingOrchestration(profile, response)
  }

  // ----- What each step makes of a profile, field by field -----

  /** All agents are in the given state, and nothing else about them has changed. */
  ghost predicate AllIn(vpas: seq<Vpa>, before: seq<Vpa>, state: DeploymentState) {
    |vpas| == |before| && forall i :: 0 <= i < |vpas| ==>
      vpas[i].state == state && vpas[i].id == before[i].id && vpas[i].cellID == before[i].cellID
  }

  ghost predicate SameOwner(p: Profile, q: Profile) {
    p.tenantID == q.tenantID && p.dataspaceProfileIDs == q.dataspaceProfileIDs
  }

  /** A response is applied if it is of the type and for the manifest that are pending, or of a dispose orchestration that
      compensates the pending deployment. A deploy response makes all agents active if it succeeded and puts them in the
      error state if it failed; a dispose response makes them disposed. A failure sets the error and stays pending; a
      success ends the wait and leaves the error as it was. Any other response changes nothing. */
  lemma ResponseExactly(profile: Profile, response: Response)
    ensures
      var next := After(profile, Respond(response));
      var waits := profile.pending.Some? && profile.pending.value.id != "";
      var own := waits && profile.pending.value.id == response.manifestID && profile.pending.value.kind == response.kind;
      var compensates := waits && profile.pending.value.id != response.manifestID
        && profile.pending.value.id == response.compensatedManifestID
        && profile.pending.value.kind == Deploy && response.kind == Dispose;
      if (own || compensates) && (response.kind == Deploy || response.kind == Dispose) then
        && AllIn(next.vpas, profile.vpas,
                 if response.kind == Dispose then Disposed else if response.success then Active else Error)
        && next.pending == (if response.success then None else profile.pending)
        && next.error == (if response.success then profile.error else true)
        && next.hasStateData == (if response.kind == Deploy then true else profile.hasStateData)
        && SameOwner(profile, next)
      else next == profile
  {
  }

  /** A dispose request is accepted if the profile has been deployed and all its agents are active. Then all of them are
      disposing, and the new manifest is pending. */
  lemma DisposeExactly(profile: Profile, manifestID: string)
    ensures
      var next := After(profile, BeginDispose(manifestID));
      if profile.hasStateData && forall i :: 0 <= i < |profile.vpas| ==> profile.vpas[i].state == Active then
        && AllIn(next.vpas, profile.vpas, Disposing) && next.pending == Some(Manifest(manifestID, Dispose))
        && next.error == profile.error && next.hasStateData && SameOwner(profile, next)
      else next == profile
  {
    assert (forall vpa :: vpa in profile.vpas ==> vpa.state.Active?)
      <==> forall i :: 0 <= i < |profile.vpas| ==> profile.vpas[i].state == Active;
  }

  /** A reversal is accepted if its manifest is the pending dispose orchestration. Then all agents are active, and nothing
      is pending. */
  lemma RevertExactly(profile: Profile, manifestID: string)
    ensures
      var next := After(profile, Revert(manifestID));
      if manifestID != "" && profile.pending == Some(Manifest(manifestID, Dispose)) then
        && AllIn(next.vpas, profile.vpas, Active) && next.pending.None?
        && next.error == profile.error && next.hasStateData == profile.hasStateData && SameOwner(profile, next)
      else next == profile
  {
  }

  /** The reversal undoes the dispose request that could not be sent; what the profile waited for before is forgotten. */
  lemma RevertUndoesDispose(profile: Profile, manifestID: string)
    requires Applies(profile, BeginDispose(manifestID)) && manifestID != ""
    ensures After(After(profile, BeginDispose(manifestID)), Revert(manifestID)) == profile.(pending := None)
  {
    var next := After(After(profile, BeginDispose(manifestID)), Revert(manifestID));
    forall i | 0 <= i < |profile.vpas| ensures next.vpas[i] == profile.vpas[i] {
      assert profile.vpas[i] in profile.vpas;
    }
    assert next.vpas == profile.vpas;
  }

  /** A step that applies decides the state of every agent. */
  lemma AppliedDecides(profile: Profile, step: Step)
    requires Applies(profile, step)
    ensures AllIn(After(profile, step).vpas, profile.vpas,
              match step
              case BeginDispose(_) => Disposing
              case Revert(_) => Active
              case Respond(response) =>
                if response.kind == Dispose then Disposed else if response.success then Active else Error)
  {
  }

  function Run(profile: Profile, steps: seq<Step>): Profile {
    if |steps| == 0 then profile else After(Run(profile, steps[..|steps| - 1]), steps[|steps| - 1])
  }

  /** All agents of the profile are in one state. */
  ghost predicate Uniform(profile: Profile) {
    forall v, w :: v in profile.vpas && w in profile.vpas ==> v.state == w.state
  }

  /** A step changes the states of the agents only, and of all of them alike. */
  lemma StepKeeps(profile: Profile, step: Step)
    ensures var next := After(profile, step);
      && next.tenantID == profile.tenantID && next.dataspaceProfileIDs == profile.dataspaceProfileIDs
      && |next.vpas| == |profile.vpas|
      && (forall i :: 0 <= i < |next.vpas| ==> next.vpas[i] == profile.vpas[i].(state := next.vpas[i].state))
      && (next.vpas == profile.vpas || Uniform(next))
  {
  }

  /** In every run of dispose requests, reversals and responses of any kind, all agents share one state. */
  lemma {:induction false} AgentsShareOneState(profile: Profile, steps: seq<Step>)
    requires Uniform(profile)
    ensures Uniform(Run(profile, steps))
  {
    if |steps| > 0 {
      AgentsShareOneState(profile, steps[..|steps| - 1]);
      StepKeeps(Run(profile, steps[..|steps| - 1]), steps[|steps| - 1]);
    }
  }

  /** The manifests of the dispose orchestrations that are started are not those that a response names. */
  ghost predicate StartsOthers(steps: seq<Step>, response: Response) {
    forall i :: 0 <= i < |steps| && steps[i].BeginDispose? ==>
      steps[i].manifestID != response.manifestID && steps[i].manifestID != response.compensatedManifestID
  }

  lemma {:induction false} NotPending(profile: Profile, steps: seq<Step>, response: Response)
    requires profile.pending.None? && StartsOthers(steps, response)
    ensures !IsPendingOrchestration(Run(profile, steps), response)
    ensures var pending := Run(profile, steps).pending;
      pending.Some? ==> pending.value.id != response.manifestID && pending.value.id != response.compensatedManifestID
  {
    if |steps| > 0 {
      NotPending(profile, steps[..|steps| - 1], response);
    }
  }

  /** Once a successful response has been applied, a later one is ignored unless it names a manifest that was started
      since: the same response again, or the one of the compensation, changes nothing. */
  lemma AppliedAtMostOnce(profile: Profile, response: Response, steps: seq<Step>, later: Response)
    requires IsPendingOrchestration(profile, response) && response.success && !response.kind.Other?
    requires StartsOthers(steps, later)
    ensures var now := Run(Responded(profile, response), steps); Responded(now, later) == now
  {
    NotPending(Responded(profile, response), steps, later);
  }

  /** A disposed profile that waits for no orchestration never changes again. */
  lemma {:induction false} DisposedIsFinal(profile: Profile, steps: seq<Step>)
    requires IsDisposed(profile) && profile.pending.None?
    ensures Run(profile, steps) == profile
  {
    if |steps| > 0 {
      DisposedIsFinal(profile, steps[..|steps| - 1]);
      assert profile.vpas[0] in profile.vpas;
    }
  }

  /** The step is a deploy response for the pending orchestration, or reverts the pending dispose orchestration. */
  predicate BringsBack(profile: Profile, step: Step) {
    match step
    case BeginDispose(_) => false
    case Revert(id) => IsPendingOrchestration(profile, Response(id, "", Dispose, true))
    case Respond(response) => response.kind.Deploy? && IsPendingOrchestration(profile, response)
  }

  /** A step takes a disposed profile back exactly if it is one of these. */
  lemma RevivesExactly(profile: Profile, step: Step)
    requires IsDisposed(profile)
    ensures !IsDisposed(After(profile, step)) <==> BringsBack(profile, step)
  {
    assert profile.vpas[0] in profile.vpas;
    var next := After(profile, step);
    assert next.vpas[0] in next.vpas;
  }

  /** A step makes a profile use a cell, or makes it not disposed, that was not so before only if it brings back. */
  lemma UsesNoMore(profile: Profile, step: Step, cellID: string)
    requires !BringsBack(profile, step) || !IsDisposed(profile)
    requires Uniform(profile)
    ensures UsesCell(After(profile, step), cellID) ==> UsesCell(profile, cellID)
    ensures IsDisposed(profile) ==> IsDisposed(After(profile, step))
  {
    StepKeeps(profile, step);
    var next := After(profile, step);
    if IsDisposed(profile) {
      RevivesExactly(profile, step);
    }
    if UsesCell(next, cellID) {
      var vpa :| vpa in next.vpas && vpa.cellID == cellID && !vpa.state.Disposed?;
      var i :| 0 <= i < |next.vpas| && next.vpas[i] == vpa;
      assert profile.vpas[i] in profile.vpas && profile.vpas[i].cellID == cellID;
      assert profile.vpas[i].state.Disposed? ==> IsDisposed(profile) && IsDisposed(next);
    }
  }

  /** It does happen: the compensation of a failed deployment fails, which leaves the agents disposed but the deployment
      pending; the failed response of the deployment comes again and sets the agents to the error state. */
  lemma DisposedProfileComesBack(profile: Profile)
    requires |profile.vpas| > 0 && profile.pending == Some(Manifest("m", Deploy))
    ensures
      var failed := Respond(Response("m", "", Deploy, false));
      var compensated := Respond(Response("m-compensation", "m", Dispose, false));
      && IsDisposed(Run(profile, [failed, compensated]))
      && !IsDisposed(Run(profile, [failed, compensated, failed]))
  {
    var failed := Respond(Response("m", "", Deploy, false));
    var compensated := Respond(Response("m-compensation", "m", Dispose, false));
    var one := After(profile, failed);
    var two := After(one, compensated);
    assert two.vpas[0] in two.vpas;
    RevivesExactly(two, failed);
    assert IsDisposed(two) && BringsBack(two, failed);
    hide After, IsDisposed, Run;
    RunNext(profile, [], failed);
    RunNext(profile, [failed], compensated);
    RunNext(profile, [failed, compensated], failed);
    assert [] + [failed] == [failed] && [failed] + [compensated] == [failed, compensated];
    assert [failed, compensated] + [failed] == [failed, compensated, failed];
  }

  lemma RunNext(profile: Profile, steps: seq<Step>, step: Step)
    ensures Run(profile, steps + [step]) == After(Run(profile, steps), step)
    ensures Run(profile, []) == profile
  {
    assert (steps + [step])[..|steps|] == steps;
  }
}
