/** The transactions on participant profiles (tmanager/core/service_participant.go, common/sqlstore/sqlstore.go): each
    reads its profile without a lock and later overwrites the whole row, whatever was written in between. An update
    waits for another one of the row that is not committed, and is seen once it is: update and commit are one event. */
module ProfileTransactions {
  import opened Options
  import opened Participants

  /** A transaction that has read a profile and is going to write what its step makes of it. */
  datatype Open = Open(id: string, snapshot: Profile, step: Step) {
    function Written(): Profile { After(snapshot, step) }
  }

  datatype Store = Store(profiles: map<string, Profile>, open: map<nat, Open>)

  datatype Access =
    | Read(t: nat, id: string, step: Step)
    | Update(t: nat)
    | Rollback(t: nat)
    | Create(id: string, profile: Profile, manifestID: string)
    | Remove(id: string)

  /** A profile or a transaction has the ID. IDs are generated: a new profile gets one that is not known. */
  predicate Known(s: Store, id: string) {
    id in s.profiles || exists t :: t in s.open && s.open[t].id == id
  }

  /** A transaction that finds no profile, or one that its step does not apply to, ends. So does an update of a profile
      that was removed. */
  function Do(s: Store, a: Access): Store {
    match a
    case Read(t, id, step) =>
      if t in s.open || id !in s.profiles || !Applies(s.profiles[id], step) then s
      else s.(open := s.open[t := Open(id, s.profiles[id], step)])
    case Update(t) =>
      if t !in s.open then s
      else
        var o := s.open[t];
        Store(if o.id in s.profiles then s.profiles[o.id := o.Written()] else s.profiles, s.open - {t})
    case Rollback(t) => s.(open := s.open - {t})
    case Create(id, profile, manifestID) =>
      if Known(s, id) then s else s.(profiles := s.profiles[id := Deployed(profile, manifestID)])
    case Remove(id) => s.(profiles := s.profiles - {id})
  }

  function Follow(s: Store, accesses: seq<Access>): Store {
    if |accesses| == 0 then s else Do(Follow(s, accesses[..|accesses| - 1]), accesses[|accesses| - 1])
  }

  /** The access is none of transaction `t`. */
  predicate OfOther(a: Access, t: nat) {
    a.Create? || a.Remove? || a.t != t
  }

  // ----- The code -----

  class ParticipantStore {
    var store: Store

    /** `step` is what the transaction is about to do. */
    method FindByID(t: nat, id: string, step: Step) returns (r: Option<Profile>)
      requires t !in store.open
      modifies this
      ensures store == Do(old(store), Read(t, id, step))
      ensures r == if id in store.profiles then Some(store.profiles[id]) else None
    {
      if id !in store.profiles {
        return None;
      }
      var profile := store.profiles[id];
      if Applies(profile, step) {
        store := store.(open := store.open[t := Open(id, profile, step)]);
      }
      return Some(profile);
    }

    /** Overwrites the row; its version is not looked at. */
    method Write(t: nat, profile: Profile) returns (ok: bool)
      requires t in store.open && profile == store.open[t].Written()
      modifies this
      ensures store == Do(old(store), Update(t)) && (ok <==> old(store).open[t].id in store.profiles)
      ensures ok ==> store.profiles[old(store).open[t].id] == profile
    {
      var id := store.open[t].id;
      ok := id in store.profiles;
      store := Store(if ok then store.profiles[id := profile] else store.profiles, store.open - {t});
    }

    method Abandon(t: nat)
      modifies this
      ensures store == Do(old(store), Rollback(t))
    {
      store := store.(open := store.open - {t});
    }

    /** Lets other transactions go first. */
    method Await(t: nat, others: seq<Access>)
      requires forall a :: a in others ==> OfOther(a, t)
      modifies this
      ensures store == Follow(old(store), others)
      ensures t in store.open <==> t in old(store).open
      ensures t in store.open ==> store.open[t] == old(store).open[t]
    {
      for i := 0 to |others|
        invariant store == Follow(old(store), others[..i])
        invariant t in store.open <==> t in old(store).open
        invariant t in store.open ==> store.open[t] == old(store).open[t]
      {
        assert others[..i + 1][..i] == others[..i] && OfOther(others[i], t);
        store := Do(store, others[i]);
      }
      assert others[..|others|] == others;
    }

    method SetStates(vpas: seq<Vpa>, state: DeploymentState) returns (r: seq<Vpa>)
      ensures r == WithState(vpas, state)
    {
      r := vpas;
      for i := 0 to |vpas|
        invariant |r| == |vpas|
        invariant forall k :: 0 <= k < |r| ==> r[k] == if k < i then vpas[k].(state := state) else vpas[k]
      {
        r := r[i := r[i].(state := state)];
      }
    }

    /** Ends transaction `t`, which has read a profile: others go first, and then the update is written unless it fails
        (`stored`) or the profile is gone. */
    method Finish(t: nat, profile: Profile, others: seq<Access>, stored: bool) returns (ok: bool)
      requires t in store.open && profile == store.open[t].Written()
      requires forall a :: a in others ==> OfOther(a, t)
      modifies this
      ensures ok <==> stored && old(store).open[t].id in store.profiles
      ensures store == Ended(old(store), t, others, ok)
      ensures ok ==> store.profiles[old(store).open[t].id] == profile
    {
      Await(t, others);
      if stored {
        ok := Write(t, profile);
      } else {
        Abandon(t);
        ok := false;
      }
    }

    /** `allowed` is the outcome of the access check; `dataspacesFound` says whether the dataspace profiles can be read and
        there are any; `others` is what happens between the read and the update; `stored` says whether the update
        succeeds. */
    method DisposeProfile(t: nat, tenantID: string, id: string, manifestID: string, allowed: bool, dataspacesFound: bool,
                          others: seq<Access>, stored: bool) returns (ok: bool)
      requires t !in store.open && forall a :: a in others ==> OfOther(a, t)
      modifies this
      ensures
        var s := old(store);
        if id in s.profiles && s.profiles[id].tenantID == tenantID && allowed && MayDispose(s.profiles[id]) && dataspacesFound
        then
          && store == Ended(Do(s, Read(t, id, BeginDispose(manifestID))), t, others, ok)
          && (ok <==> stored && id in store.profiles)
          && (ok ==> store.profiles[id] == DisposeStarted(s.profiles[id], manifestID))
          && (ok ==> AllIn(store.profiles[id].vpas, s.profiles[id].vpas, Disposing)
                     && store.profiles[id].pending == Some(Manifest(manifestID, Dispose)))
        else !ok && store == s
    {
      var found := FindByID(t, id, BeginDispose(manifestID));
      if found.None? {
        return false;
      }
      var profile := found.value;
      if profile.tenantID != tenantID || !allowed {
        Abandon(t);
        return false;
      }
      var states: seq<string> := [];
      for i := 0 to |profile.vpas|
        invariant |states| == 0 <==> forall k :: 0 <= k < i ==> profile.vpas[k].state.Active?
      {
        if !profile.vpas[i].state.Active? {
          states := states + [profile.vpas[i].id];
        }
      }
      if |states| > 0 || !profile.hasStateData || !dataspacesFound {
        Abandon(t);
        return false;
      }
      var vpas := SetStates(profile.vpas, Disposing);
      ok := Finish(t, profile.(vpas := vpas, pending := Some(Manifest(manifestID, Dispose))), others, stored);
    }

    /** Makes the agents active again after the dispose orchestration could not be sent. */
    method RevertDispose(t: nat, id: string, manifestID: string, others: seq<Access>, stored: bool) returns (ok: bool)
      requires t !in store.open && forall a :: a in others ==> OfOther(a, t)
      modifies this
      ensures
        var s := old(store);
        if id in s.profiles && IsPendingOrchestration(s.profiles[id], Response(manifestID, "", Dispose, true)) then
          && store == Ended(Do(s, Read(t, id, Revert(manifestID))), t, others, ok)
          && (ok <==> stored && id in store.profiles)
          && (ok ==> store.profiles[id] == Reverted(s.profiles[id], manifestID))
          && (ok ==> AllIn(store.profiles[id].vpas, s.profiles[id].vpas, Active) && store.profiles[id].pending.None?)
        else store == s && (ok <==> id in s.profiles)
    {
      var found := FindByID(t, id, Revert(manifestID));
      if found.None? {
        return false;
      }
      var profile := found.value;
      if !IsPendingOrchestration(profile, Response(manifestID, "", Dispose, true)) {
        return true;
      }
      var vpas := SetStates(profile.vpas, Active);
      ok := Finish(t, profile.(vpas := vpas, pending := None), others, stored);
    }

    /** The callback for a response about profile `id`; a response without a handler is an error. */
    method Handle(t: nat, id: string, response: Response, others: seq<Access>, stored: bool) returns (ok: bool)
      requires t !in store.open && forall a :: a in others ==> OfOther(a, t)
      modifies this
      ensures
        var s := old(store);
        if id in s.profiles && Applies(s.profiles[id], Respond(response)) then
          && store == Ended(Do(s, Read(t, id, Respond(response))), t, others, ok)
          && (ok <==> stored && id in store.profiles)
          && (ok ==> store.profiles[id] == Responded(s.profiles[id], response))
          && (ok ==>
                var next := store.profiles[id];
                && AllIn(next.vpas, s.profiles[id].vpas,
                         if response.kind.Dispose? then Disposed else if response.success then Active else Error)
                && next.pending == (if response.success then None else s.profiles[id].pending)
                && next.error == (s.profiles[id].error || !response.success))
        else store == s && (ok <==> !response.kind.Other?)
    {
      if response.kind.Other? {
        return false;
      }
      var found := FindByID(t, id, Respond(response));
      if found.None? {
        return true;
      }
      var profile := found.value;
      if !IsPendingOrchestration(profile, response) {
        return true;
      }
      if response.success {
        profile := profile.(pending := None);
      } else {
        profile := profile.(error := true);
      }
      if response.kind.Deploy? {
        var targetState := Active;
        if !response.success {
          targetState := Error;
        }
        var vpas := SetStates(profile.vpas, targetState);
        profile := profile.(vpas := vpas, hasStateData := true);
      } else {
        var vpas := SetStates(profile.vpas, Disposed);
        profile := profile.(vpas := vpas);
      }
      ok := Finish(t, profile, others, stored);
    }
  }

  /** Others go first; then transaction `t` updates, or is rolled back. */
  function Ended(s: Store, t: nat, others: seq<Access>, ok: bool): Store {
    Do(Follow(s, others), if ok then Update(t) else Rollback(t))
  }

  // ----- What every access keeps -----

  predicate SameShape(p: Profile, q: Profile) {
    && p.tenantID == q.tenantID && p.dataspaceProfileIDs == q.dataspaceProfileIDs && |p.vpas| == |q.vpas|
    && forall i :: 0 <= i < |p.vpas| ==> p.vpas[i].cellID == q.vpas[i].cellID
  }

  ghost predicate OpenOk(s: Store, o: Open) {
    Uniform(o.snapshot) && Applies(o.snapshot, o.step) && (o.id in s.profiles ==> SameShape(o.snapshot, s.profiles[o.id]))
  }

  /** The agents of a profile share one state, in the store and in all copies. */
  ghost predicate StoreOk(s: Store) {
    && (forall id :: id in s.profiles ==> Uniform(s.profiles[id]))
    && forall t :: t in s.open ==> OpenOk(s, s.open[t])
  }

  lemma WrittenOk(o: Open)
    requires Uniform(o.snapshot)
    ensures Uniform(o.Written()) && SameShape(o.snapshot, o.Written())
  {
    StepKeeps(o.snapshot, o.step);
  }

  /** An update changes the states of the agents only. */
  lemma KeepsShape(s: Store, t: nat)
    requires StoreOk(s) && t in s.open && s.open[t].id in s.profiles
    ensures var next := s.open[t].Written(); SameShape(s.profiles[s.open[t].id], next) && Uniform(next)
    ensures Uniform(s.profiles[s.open[t].id])
  {
    assert OpenOk(s, s.open[t]);
    hide After, Applies, Uniform;
    WrittenOk(s.open[t]);
  }

  /** Agents share one state in all profiles and all copies, however transactions overlap. */
  lemma AccessKeeps(s: Store, a: Access)
    requires StoreOk(s) && (a.Create? ==> Uniform(a.profile))
    ensures StoreOk(Do(s, a))
  {
    hide Applies, Uniform, After;
    if a.Update? && a.t in s.open {
      WrittenOk(s.open[a.t]);
    }
    if a.Create? {
      DeployedUniform(a.profile, a.manifestID);
    }
  }

  lemma DeployedUniform(profile: Profile, manifestID: string)
    requires Uniform(profile)
    ensures Uniform(Deployed(profile, manifestID))
  {
  }

  /** In every run of overlapping transactions the agents of a profile share one state. */
  lemma {:induction false} AgentsShareOneState(s: Store, accesses: seq<Access>)
    requires StoreOk(s) && forall a :: a in accesses && a.Create? ==> Uniform(a.profile)
    ensures StoreOk(Follow(s, accesses))
  {
    hide StoreOk, Uniform, Do;
    if |accesses| > 0 {
      AgentsShareOneState(s, accesses[..|accesses| - 1]);
      AccessKeeps(Follow(s, accesses[..|accesses| - 1]), accesses[|accesses| - 1]);
    }
  }

  // ----- Transactions of which none writes between another's read and update -----

  /** If the access is an update, then of a profile that is as its transaction read it. */
  predicate Current(s: Store, a: Access) {
    a.Update? && a.t in s.open && s.open[a.t].id in s.profiles ==> s.profiles[s.open[a.t].id] == s.open[a.t].snapshot
  }

  predicate AlwaysCurrent(s: Store, accesses: seq<Access>) {
    |accesses| == 0 ||
    (AlwaysCurrent(s, accesses[..|accesses| - 1]) && Current(Follow(s, accesses[..|accesses| - 1]), accesses[|accesses| - 1]))
  }

  /** The access writes or removes the profile. */
  predicate Touches(s: Store, a: Access, id: string) {
    (a.Update? && a.t in s.open && s.open[a.t].id == id) || a == Remove(id)
  }

  predicate NeverTouches(s: Store, accesses: seq<Access>, id: string) {
    |accesses| == 0 ||
    (NeverTouches(s, accesses[..|accesses| - 1], id) && !Touches(Follow(s, accesses[..|accesses| - 1]), accesses[|accesses| - 1], id))
  }

  /** An update is of a current profile if nothing was written to it since the transaction read it. */
  lemma {:induction false} UntouchedIsCurrent(s: Store, t: nat, id: string, step: Step, others: seq<Access>)
    requires t !in s.open && id in s.profiles && Applies(s.profiles[id], step)
    requires forall a :: a in others ==> OfOther(a, t)
    requires NeverTouches(Do(s, Read(t, id, step)), others, id)
    ensures
      var s' := Follow(Do(s, Read(t, id, step)), others);
      && t in s'.open && s'.open[t] == Open(id, s.profiles[id], step)
      && id in s'.profiles && s'.profiles[id] == s.profiles[id] && Current(s', Update(t))
  {
    if |others| > 0 {
      UntouchedIsCurrent(s, t, id, step, others[..|others| - 1]);
      assert OfOther(others[|others| - 1], t);
    }
  }

  /** The steps that were written to the profile, in the order of their updates. */
  function Steps(s: Store, accesses: seq<Access>, id: string): seq<Step> {
    if |accesses| == 0 then []
    else
      var before, a := Follow(s, accesses[..|accesses| - 1]), accesses[|accesses| - 1];
      Steps(s, accesses[..|accesses| - 1], id)
      + (if a.Update? && a.t in before.open && before.open[a.t].id == id then [before.open[a.t].step] else [])
  }

  /** Such transactions have the effect of their steps one after another. */
  lemma {:induction false} Serializable(s: Store, accesses: seq<Access>, id: string)
    requires id in s.profiles && AlwaysCurrent(s, accesses) && Remove(id) !in accesses
    ensures
      var s' := Follow(s, accesses);
      id in s'.profiles && s'.profiles[id] == Run(s.profiles[id], Steps(s, accesses, id))
  {
    hide After, Applies;
    if |accesses| > 0 {
      var front, a := accesses[..|accesses| - 1], accesses[|accesses| - 1];
      Serializable(s, front, id);
      var before := Follow(s, front);
      if a.Update? && a.t in before.open && before.open[a.t].id == id {
        RunNext(s.profiles[id], Steps(s, front, id), before.open[a.t].step);
      } else {
        assert Steps(s, accesses, id) == Steps(s, front, id);
      }
    }
  }

  /** Once a successful response was written, no transaction finds a response to apply unless it names a manifest that was
      started since. */
  lemma AppliedAtMostOnce(s: Store, id: string, before: Profile, response: Response, accesses: seq<Access>, later: Response)
    requires IsPendingOrchestration(before, response) && response.success && !response.kind.Other?
    requires id in s.profiles && s.profiles[id] == Responded(before, response)
    requires AlwaysCurrent(s, accesses) && Remove(id) !in accesses && StartsOthers(Steps(s, accesses, id), later)
    ensures var s' := Follow(s, accesses); id in s'.profiles && !Applies(s'.profiles[id], Respond(later))
  {
    Serializable(s, accesses, id);
    NotPending(s.profiles[id], Steps(s, accesses, id), later);
  }

  /** A disposed profile that waits for no orchestration never changes again. */
  lemma DisposedIsFinal(s: Store, id: string, accesses: seq<Access>)
    requires id in s.profiles && IsDisposed(s.profiles[id]) && s.profiles[id].pending.None?
    requires AlwaysCurrent(s, accesses) && Remove(id) !in accesses
    ensures var s' := Follow(s, accesses); id in s'.profiles && s'.profiles[id] == s.profiles[id]
  {
    Serializable(s, accesses, id);
    Participants.DisposedIsFinal(s.profiles[id], Steps(s, accesses, id));
  }

  // ----- All transactions -----

  /** The update writes a profile that is not disposed over one that is. */
  predicate TakesBack(s: Store, t: nat) {
    && t in s.open && s.open[t].id in s.profiles
    && IsDisposed(s.profiles[s.open[t].id]) && !IsDisposed(s.open[t].Written())
  }

  /** An update over a disposed profile takes it back exactly if it is not that of a dispose response; if the profile is as
      it was read, exactly if the step brings it back. */
  lemma TakesBackExactly(s: Store, t: nat)
    requires StoreOk(s) && t in s.open && s.open[t].id in s.profiles && IsDisposed(s.profiles[s.open[t].id])
    ensures
      var Open(id, snapshot, step) := s.open[t];
      && (TakesBack(s, t) <==> !(step.Respond? && step.response.kind.Dispose?))
      && (Current(s, Update(t)) ==> (TakesBack(s, t) <==> BringsBack(snapshot, step)))
  {
    var o := s.open[t];
    assert OpenOk(s, o) && |o.snapshot.vpas| > 0;
    hide After, Applies, BringsBack, Uniform;
    DisposedExactly(o.snapshot, o.step);
    if o.snapshot == s.profiles[o.id] {
      RevivesExactly(o.snapshot, o.step);
    }
  }

  lemma DisposedExactly(profile: Profile, step: Step)
    requires Applies(profile, step) && |profile.vpas| > 0
    ensures IsDisposed(After(profile, step)) <==> step.Respond? && step.response.kind.Dispose?
  {
    var next := After(profile, step);
    assert next.vpas[0] in next.vpas;
  }

  /** An update makes a profile use no further cell, unless it takes it back. */
  lemma UsesNoMore(s: Store, t: nat, cellID: string)
    requires StoreOk(s) && t in s.open && s.open[t].id in s.profiles && !TakesBack(s, t)
    ensures UsesCell(s.open[t].Written(), cellID) ==> UsesCell(s.profiles[s.open[t].id], cellID)
  {
    hide After, Applies, Uniform, UsesCell, IsDisposed, SameShape;
    KeepsShape(s, t);
    UsesNoFurtherCell(s.profiles[s.open[t].id], s.open[t].Written(), cellID);
  }

  lemma UsesNoFurtherCell(now: Profile, next: Profile, cellID: string)
    requires SameShape(now, next) && Uniform(now) && (IsDisposed(now) ==> IsDisposed(next))
    ensures UsesCell(next, cellID) ==> UsesCell(now, cellID)
  {
    if vpa :| vpa in next.vpas && vpa.cellID == cellID && !vpa.state.Disposed? {
      var i :| 0 <= i < |next.vpas| && next.vpas[i] == vpa;
      assert now.vpas[i] in now.vpas && now.vpas[i].cellID == cellID;
      assert !IsDisposed(now);
    }
  }

  /** A response has a handler. */
  predicate IsHandled(step: Step) {
    step.Respond? ==> step.response.kind == Deploy || step.response.kind == Dispose
  }

  /** However transactions overlap, the last update of a profile decides the state of all its agents. */
  lemma {:induction false} LastUpdateDecides(s: Store, accesses: seq<Access>, id: string)
    requires StoreOk(s) && id in s.profiles && Remove(id) !in accesses
    requires forall a :: a in accesses && a.Create? ==> Uniform(a.profile)
    ensures
      var s' := Follow(s, accesses);
      var steps := Steps(s, accesses, id);
      && id in s'.profiles && SameShape(s.profiles[id], s'.profiles[id])
      && if steps == [] then s'.profiles[id] == s.profiles[id]
         else IsHandled(steps[|steps| - 1]) && forall i :: 0 <= i < |s'.profiles[id].vpas| ==>
           s'.profiles[id].vpas[i].state ==
             match steps[|steps| - 1]
             case BeginDispose(_) => Disposing
             case Revert(_) => Active
             case Respond(response) =>
               if response.kind == Dispose then Disposed else if response.success then Active else Error
  {
    hide StoreOk, After, Applies, Uniform;
    if |accesses| > 0 {
      var front, a := accesses[..|accesses| - 1], accesses[|accesses| - 1];
      LastUpdateDecides(s, front, id);
      AgentsShareOneState(s, front);
      var before := Follow(s, front);
      if a.Update? && a.t in before.open && before.open[a.t].id == id {
        UpdateDecides(before, a.t);
      } else {
        assert Steps(s, accesses, id) == Steps(s, front, id);
      }
    }
  }

  lemma UpdateDecides(s: Store, t: nat)
    requires StoreOk(s) && t in s.open && s.open[t].id in s.profiles
    ensures
      var next := s.open[t].Written();
      && SameShape(s.profiles[s.open[t].id], next) && IsHandled(s.open[t].step)
      && forall i :: 0 <= i < |next.vpas| ==>
           next.vpas[i].state ==
             match s.open[t].step
             case BeginDispose(_) => Disposing
             case Revert(_) => Active
             case Respond(response) =>
               if response.kind == Dispose then Disposed else if response.success then Active else Error
  {
    KeepsShape(s, t);
    assert OpenOk(s, s.open[t]);
    AppliedDecides(s.open[t].snapshot, s.open[t].step);
  }

  /** An agent that was not active is active only after a successful deploy response or a reversal was written. */
  lemma ActiveOnlyAfterSuccess(s: Store, accesses: seq<Access>, id: string, i: nat)
    requires StoreOk(s) && id in s.profiles && Remove(id) !in accesses
    requires forall a :: a in accesses && a.Create? ==> Uniform(a.profile)
    requires i < |s.profiles[id].vpas| && !s.profiles[id].vpas[i].state.Active?
    requires var s' := Follow(s, accesses);
      id in s'.profiles && i < |s'.profiles[id].vpas| && s'.profiles[id].vpas[i].state.Active?
    ensures exists step ::
              && step in Steps(s, accesses, id)
              && (step.Revert? || (step.Respond? && step.response.kind == Deploy && step.response.success))
  {
    LastUpdateDecides(s, accesses, id);
    var steps := Steps(s, accesses, id);
    assert steps != [] ==> steps[|steps| - 1] in steps;
  }

  // ----- Where transactions that overlap do not have the effect of their steps -----

  lemma FollowNext(s: Store, accesses: seq<Access>, a: Access, id: string)
    ensures
      var s1 := Follow(s, accesses);
      && Follow(s, accesses + [a]) == Do(s1, a)
      && Steps(s, accesses + [a], id) == Steps(s, accesses, id)
           + (if a.Update? && a.t in s1.open && s1.open[a.t].id == id then [s1.open[a.t].step] else [])
  {
    assert (accesses + [a])[..|accesses|] == accesses;
  }

  lemma DeployedApplies(profile: Profile, m: string, n: string)
    requires profile.pending == Some(Manifest(m, Deploy)) && m != ""
    ensures
      var response := Respond(Response(m, "", Deploy, true));
      var deployed := After(profile, response);
      && Applies(profile, response) && Applies(deployed, BeginDispose(n))
      && forall success :: !Applies(deployed, Respond(Response(n, "", Dispose, success)))
  {
  }

  lemma BothRead(profile: Profile, step: Step) returns (accesses: seq<Access>)
    requires Applies(profile, step)
    ensures
      var s := Store(map["p" := profile], map[]);
      && Follow(s, accesses) == s.(open := map[0 := Open("p", profile, step), 1 := Open("p", profile, step)])
      && Steps(s, accesses, "p") == []
  {
    hide Applies;
    var s := Store(map["p" := profile], map[]);
    FollowNext(s, [], Read(0, "p", step), "p");
    accesses := [] + [Read(0, "p", step)];
    FollowNext(s, accesses, Read(1, "p", step), "p");
    accesses := accesses + [Read(1, "p", step)];
  }

  /** A transaction that no other one comes in between. */
  lemma Undisturbed(s: Store, before: seq<Access>, t: nat, step: Step) returns (accesses: seq<Access>)
    requires var s1 := Follow(s, before); "p" in s1.profiles && t !in s1.open && Applies(s1.profiles["p"], step)
    ensures
      var s1 := Follow(s, before);
      && Follow(s, accesses) == s1.(profiles := s1.profiles["p" := After(s1.profiles["p"], step)])
      && Steps(s, accesses, "p") == Steps(s, before, "p") + [step]
  {
    hide Applies, After;
    FollowNext(s, before, Read(t, "p", step), "p");
    accesses := before + [Read(t, "p", step)];
    assert Follow(s, accesses).open - {t} == Follow(s, before).open;
    FollowNext(s, accesses, Update(t), "p");
    accesses := accesses + [Update(t)];
  }

  /** Two copies of a successful response are read before either is written, and a dispose request comes in between: the
      second copy is applied too and overwrites the dispose request, whose response will find nothing pending. */
  lemma AppliedTwice(profile: Profile, m: string, n: string) returns (accesses: seq<Access>)
    requires profile.pending == Some(Manifest(m, Deploy)) && m != ""
    ensures
      var s := Store(map["p" := profile], map[]);
      var s' := Follow(s, accesses);
      var response := Respond(Response(m, "", Deploy, true));
      && Steps(s, accesses, "p") == [response, BeginDispose(n), response]
      && "p" in s'.profiles && s'.profiles["p"] == After(profile, response)
      && forall success :: !Applies(s'.profiles["p"], Respond(Response(n, "", Dispose, success)))
  {
    var response, dispose := Respond(Response(m, "", Deploy, true)), BeginDispose(n);
    var s := Store(map["p" := profile], map[]);
    var deployed := After(profile, response);
    DeployedApplies(profile, m, n);
    hide Applies, After;
    accesses := BothRead(profile, response);
    FollowNext(s, accesses, Update(0), "p");
    accesses := accesses + [Update(0)];
    assert Follow(s, accesses) == Store(map["p" := deployed], map[1 := Open("p", profile, response)]);
    accesses := Undisturbed(s, accesses, 2, dispose);
    FollowNext(s, accesses, Update(1), "p");
    accesses := accesses + [Update(1)];
  }
}
