/** Runs that show why a disposed profile may be taken back only while what it refers to exists: from a database without
    profiles, with all references valid until the last update. */
module LockLimits {
  import opened Options
  import opened Participants
  import opened ProfileTransactions
  import opened Locks

  /** A run leads from `s` to `s'` in which every event so far restores what it takes back. */
  ghost predicate Reaches(s: Database, s': Database) {
    exists events :: IsRun(s, events) && AlwaysRestores(s, events) && Reached(s, events) == s'
  }

  lemma Next(s0: Database, s: Database, e: Event) returns (s': Database)
    requires Reaches(s0, s) && Enabled(s, e) && Restores(s, e)
    ensures s' == Locks.Do(s, e) && Reaches(s0, s')
  {
    hide Locks.Do, Enabled, Restores;
    s' := Locks.Do(s, e);
    var events :| IsRun(s0, events) && AlwaysRestores(s0, events) && Reached(s0, events) == s;
    Append(s0, events, e);
  }

  lemma {:induction false} Append(s: Database, events: seq<Event>, e: Event)
    requires IsRun(s, events) && AlwaysRestores(s, events)
    requires Enabled(Reached(s, events), e) && Restores(Reached(s, events), e)
    ensures IsRun(s, events + [e]) && AlwaysRestores(s, events + [e])
    ensures Reached(s, events + [e]) == Locks.Do(Reached(s, events), e)
    decreases |events|
  {
    hide Locks.Do, Enabled, Restores;
    if |events| == 0 {
      assert events + [e] == [e] && [e][1..] == [];
      var s' := Locks.Do(s, e);
      assert IsRun(s', []) && AlwaysRestores(s', []) && Reached(s', []) == s';
    } else {
      Append(Locks.Do(s, events[0]), events[1..], e);
      assert (events + [e])[1..] == events[1..] + [e];
    }
  }

  lemma NothingYet(s: Database)
    ensures Reaches(s, s)
  {
    assert IsRun(s, []) && AlwaysRestores(s, []) && Reached(s, []) == s;
  }

  lemma ReachedIsValid(rows: set<Row>, s: Database)
    requires Reaches(Empty(rows), s)
    ensures Inv(s)
  {
    var events :| IsRun(Empty(rows), events) && AlwaysRestores(Empty(rows), events) && Reached(Empty(rows), events) == s;
    RunKeeps(Empty(rows), events);
  }

  // ----- Parts of runs -----

  /** A deployment that runs alone gets all its locks. */
  lemma {:induction false} LockAll(s0: Database, s: Database, n: nat) returns (s': Database)
    requires Reaches(s0, s) && s.txs.Keys == {0} && s.txs[0].Deploying? && s.txs[0].next == n <= |s.txs[0].rows|
    requires forall row :: row in s.txs[0].rows ==> row in s.rows
    ensures Reaches(s0, s') && s' == s.(txs := map[0 := s.txs[0].(next := |s.txs[0].rows|)])
    decreases |s.txs[0].rows| - n
  {
    var rows := s.txs[0].rows;
    if n == |rows| {
      s' := s;
    } else {
      hide Reaches;
      var s1 := Next(s0, s, Lock(0));
      assert s1 == s.(txs := map[0 := s.txs[0].(next := n + 1)]);
      s' := LockAll(s0, s1, n + 1);
    }
  }

  /** A database with these rows. */
  function WithRows(rows: seq<Row>): Database {
    Empty(set row | row in rows)
  }

  /** A database with these rows and this profile, that transactions may have read. */
  function With(rows: seq<Row>, profile: Profile, open: map<nat, Open>): Database {
    WithRows(rows).(store := Store(map["p" := profile], open))
  }

  /** Deploying a profile, starting with the rows that it locks. */
  lemma DeployAlone(profile: Profile, rows: seq<Row>)
    requires New(profile) && LockPlan(profile, rows)
    ensures Reaches(WithRows(rows), With(rows, Deployed(profile, "m"), map[]))
  {
    var s0 := WithRows(rows);
    NothingYet(s0);
    hide Reaches, LockPlan;
    var s := Next(s0, s0, BeginDeploy(0, "p", profile, "m", rows));
    assert s.txs == map[0 := Deploying("p", profile, "m", rows, 0)];
    s := LockAll(s0, s, 0);
    s := Next(s0, s, Commit(0));
    assert s == With(rows, Deployed(profile, "m"), map[]);
  }

  /** A transaction reads the profile. */
  lemma ReadProfile(s0: Database, s: Database, t: nat, step: Step)
    requires Reaches(s0, s) && "p" in s.store.profiles && t !in s.store.open && Applies(s.store.profiles["p"], step)
    ensures Reaches(s0, s.(store := s.store.(open := s.store.open[t := Open("p", s.store.profiles["p"], step)])))
  {
    hide Reaches, Applies;
    var s' := Next(s0, s, Change(Read(t, "p", step)));
  }

  /** A transaction that no other one comes in between. */
  lemma Transact(rows: seq<Row>, profile: Profile, open: map<nat, Open>, t: nat, step: Step)
    requires Reaches(WithRows(rows), With(rows, profile, open)) && t !in open && Applies(profile, step)
    requires IsDisposed(profile) ==> IsDisposed(After(profile, step))
    ensures Reaches(WithRows(rows), With(rows, After(profile, step), open))
  {
    hide Reaches, Applies, After, IsDisposed;
    var s := With(rows, profile, open);
    ReadProfile(WithRows(rows), s, t, step);
    s := With(rows, profile, open[t := Open("p", profile, step)]);
    s := Next(WithRows(rows), s, Change(Update(t)));
    assert open[t := Open("p", profile, step)] - {t} == open;
    assert s == With(rows, After(profile, step), open);
  }

  /** Deleting a row that nothing uses. */
  lemma DeleteAlone(s0: Database, s: Database, row: Row)
    requires Reaches(s0, s) && s.txs == map[] && row in s.rows
    requires forall id :: id in s.store.profiles ==> !Uses(s.store.profiles[id], row)
    ensures Reaches(s0, s.(rows := s.rows - {row}))
  {
    hide Reaches, Uses;
    var s' := Next(s0, s, BeginDelete(0, row));
    assert s'.txs == map[0 := Deleting(row, Waiting)];
    s' := Next(s0, s', Lock(0));
    assert s'.txs == map[0 := Deleting(row, Held)];
    s' := Next(s0, s', Scan(0));
    assert s'.txs == map[0 := Deleting(row, Unused)];
    s' := Next(s0, s', Commit(0));
    assert s'.txs == map[];
  }

  lemma FirstCellPlanned(profile: Profile, rows: seq<Row>)
    requires New(profile) && LockPlan(profile, rows) && |profile.vpas| > 0 && profile.vpas[0].cellID != ""
    ensures CellRow(profile.vpas[0].cellID) in rows
  {
    assert profile.vpas[0] in profile.vpas;
    assert UsesCell(profile, profile.vpas[0].cellID);
    PlanCovers(profile, rows, CellRow(profile.vpas[0].cellID));
  }

  /** A run leads to a disposed profile and deletes the cell of its first agent; all references are valid. Then a
      transaction updates the profile, and they are not. */
  ghost predicate Breaks(rows: seq<Row>, s: Database, e: Event) {
    && Reaches(WithRows(rows), s) && Inv(s) && "p" in s.store.profiles && IsDisposed(s.store.profiles["p"])
    && Enabled(s, e) && Revives(s, e) && s.store.open[e.access.t].id == "p" && !Integrity(Locks.Do(s, e))
  }

  /** The cell of a disposed profile is deleted. */
  lemma CellGone(rows: seq<Row>, profile: Profile, open: map<nat, Open>)
    requires Reaches(WithRows(rows), With(rows, profile, open)) && IsDisposed(profile)
    requires CellRow(profile.vpas[0].cellID) in rows
    ensures
      var s := With(rows, profile, open);
      Reaches(WithRows(rows), s.(rows := s.rows - {CellRow(profile.vpas[0].cellID)}))
  {
    hide Reaches;
    assert forall vpa :: vpa in profile.vpas ==> vpa.state.Disposed?;
    DeleteAlone(WithRows(rows), With(rows, profile, open), CellRow(profile.vpas[0].cellID));
  }

  /** An update that takes the profile back breaks the references to the cell. */
  lemma UpdateBreaks(rows: seq<Row>, s: Database, t: nat)
    requires Reaches(WithRows(rows), s) && TakesBack(s.store, t) && s.store.open[t].id == "p"
    requires s.store.profiles["p"].vpas[0].cellID != "" && CellRow(s.store.profiles["p"].vpas[0].cellID) !in s.rows
    ensures Breaks(rows, s, Change(Update(t)))
  {
    ReachedIsValid(WithRows(rows).rows, s);
    CellMissing(s, t);
    var e := Change(Update(t));
    assert IsDisposed(s.store.profiles["p"]) && Enabled(s, e) && Revives(s, e) && Revived(s, e) == s.store.open[t].Written();
    hide Inv, Integrity, RowsExist, NoneDoomed, Reaches, IsDisposed, After, Locks.Do, Enabled, Revives, Revived;
    RevivalKeepsExactly(s, e);
  }

  lemma FirstCell(s: Store, t: nat)
    requires StoreOk(s) && TakesBack(s, t)
    ensures
      var now, next := s.profiles[s.open[t].id], s.open[t].Written();
      |now.vpas| == |next.vpas| > 0 && next.vpas[0] in next.vpas && next.vpas[0].cellID == now.vpas[0].cellID
  {
    RevivedOk(s, t);
  }

  lemma CellMissing(s: Database, t: nat)
    requires Inv(s) && TakesBack(s.store, t)
    requires var now := s.store.profiles[s.store.open[t].id];
      |now.vpas| > 0 ==> now.vpas[0].cellID != "" && CellRow(now.vpas[0].cellID) !in s.rows
    ensures !RowsExist(s, s.store.open[t].Written())
  {
    hide StoreOk, After, IsDisposed, Integrity, Excluded, LockedExist, StillUnused, TxOk;
    FirstCell(s.store, t);
  }

  // ----- A response that comes again -----

  const FAILED: Step := Respond(Response("m", "", Deploy, false))
  const COMPENSATION_FAILED: Step := Respond(Response("m-compensation", "m", Dispose, false))

  /** What the two responses make of a deployed profile. */
  lemma FailsTwice(profile: Profile)
    requires profile.pending == Some(Manifest("m", Deploy)) && |profile.vpas| > 0 && New(profile)
    ensures
      var failed := After(profile, FAILED);
      var disposed := After(failed, COMPENSATION_FAILED);
      && Applies(profile, FAILED) && Applies(failed, COMPENSATION_FAILED) && Applies(disposed, FAILED)
      && !IsDisposed(profile) && IsDisposed(disposed) && disposed.vpas == WithState(profile.vpas, Disposed)
  {
    assert profile.vpas[0] in profile.vpas;
    assert After(After(profile, FAILED), COMPENSATION_FAILED).vpas == WithState(profile.vpas, Disposed);
  }

  /** For every profile with agents in a cell: it is deployed, the deployment fails, its compensation fails too, the cell
      is deleted, and the failure of the deployment is delivered again. No transactions on the profile overlap. */
  lemma RevivalBreaksIntegrity(profile: Profile, rows: seq<Row>) returns (s: Database, e: Event)
    requires New(profile) && LockPlan(profile, rows) && |profile.vpas| > 0 && profile.vpas[0].cellID != ""
    ensures Breaks(rows, s, e) && Current(s.store, e.access)
  {
    hide Reaches, LockPlan, IsDisposed, Uses, After, Applies, Breaks, TakesBack;
    var s0, deployed := WithRows(rows), Deployed(profile, "m");
    var failed := After(deployed, FAILED);
    var disposed := After(failed, COMPENSATION_FAILED);
    DeployAlone(profile, rows);
    FailsTwice(deployed);
    FirstCellPlanned(profile, rows);
    NotDisposed(deployed, FAILED);
    Transact(rows, deployed, map[], 0, FAILED);
    Transact(rows, failed, map[], 0, COMPENSATION_FAILED);
    CellGone(rows, disposed, map[]);
    s := With(rows, disposed, map[]);
    s := s.(rows := s.rows - {CellRow(profile.vpas[0].cellID)});
    ReadProfile(s0, s, 0, FAILED);
    s := s.(store := s.store.(open := s.store.open[0 := Open("p", disposed, FAILED)]));
    TakenBack(s.store, 0);
    e := Change(Update(0));
    UpdateBreaks(rows, s, 0);
  }

  lemma NotDisposed(profile: Profile, step: Step)
    requires Applies(profile, step) && |profile.vpas| > 0 && !(step.Respond? && step.response.kind.Dispose?)
    ensures !IsDisposed(After(profile, step)) && |After(profile, step).vpas| == |profile.vpas|
  {
    DisposedExactly(profile, step);
    StepKeeps(profile, step);
  }

  /** Only a dispose response leaves a disposed profile disposed. */
  lemma TakenBack(s: Store, t: nat)
    requires t in s.open && s.open[t].id in s.profiles && IsDisposed(s.profiles[s.open[t].id])
    requires var Open(_, snapshot, step) := s.open[t];
      Applies(snapshot, step) && |snapshot.vpas| > 0 && !(step.Respond? && step.response.kind.Dispose?)
    ensures TakesBack(s, t)
  {
    NotDisposed(s.open[t].snapshot, s.open[t].step);
  }

  // ----- Transactions that overlap -----

  const DEPLOYED: Step := Respond(Response("m", "", Deploy, true))
  const DISPOSE: Step := BeginDispose("n")
  const DISPOSED: Step := Respond(Response("n", "", Dispose, true))

  /** The profile is deployed, and then disposed. */
  lemma IsThenDisposed(profile: Profile)
    requires profile.pending == Some(Manifest("m", Deploy)) && |profile.vpas| > 0
    ensures
      var active := After(profile, DEPLOYED);
      var disposing := After(active, DISPOSE);
      var disposed := After(disposing, DISPOSED);
      && Applies(profile, DEPLOYED) && Applies(active, DISPOSE) && Applies(disposing, DISPOSED)
      && Applies(disposing, Revert("n")) && Applies(active, BeginDispose("n'"))
      && IsDisposed(disposed) && disposed.pending.None? && disposed.vpas == WithState(profile.vpas, Disposed)
      && |active.vpas| == |disposing.vpas| == |profile.vpas| && !IsDisposed(active) && !IsDisposed(disposing)
  {
    NotDisposed(profile, DEPLOYED);
    NotDisposed(After(profile, DEPLOYED), DISPOSE);
  }

  /** For every profile with agents in a cell: of two dispose requests that read the deployed profile, one disposes it, the
      cell is deleted, and the other one's update is written over the disposed profile, which waits for nothing. */
  lemma StaleDisposeBreaksIntegrity(profile: Profile, rows: seq<Row>) returns (s: Database, e: Event)
    requires New(profile) && LockPlan(profile, rows) && |profile.vpas| > 0 && profile.vpas[0].cellID != ""
    ensures Breaks(rows, s, e) && s.store.profiles["p"].pending.None? && !Current(s.store, e.access)
  {
    hide Reaches, LockPlan, IsDisposed, Uses, After, Applies, Breaks, TakesBack;
    var s0, deployed := WithRows(rows), Deployed(profile, "m");
    var active := After(deployed, DEPLOYED);
    var disposing := After(active, DISPOSE);
    var disposed := After(disposing, DISPOSED);
    var open := map[0 := Open("p", active, BeginDispose("n'"))];
    DeployAlone(profile, rows);
    IsThenDisposed(deployed);
    FirstCellPlanned(profile, rows);
    AgainNotDisposed(deployed);
    Transact(rows, deployed, map[], 0, DEPLOYED);
    ReadProfile(s0, With(rows, active, map[]), 0, BeginDispose("n'"));
    assert map[][0 := Open("p", active, BeginDispose("n'"))] == open;
    assert Reaches(s0, With(rows, active, open));
    Transact(rows, active, open, 1, DISPOSE);
    Transact(rows, disposing, open, 1, DISPOSED);
    CellGone(rows, disposed, open);
    s := With(rows, disposed, open);
    s := s.(rows := s.rows - {CellRow(profile.vpas[0].cellID)});
    TakenBack(s.store, 0);
    e := Change(Update(0));
    UpdateBreaks(rows, s, 0);
  }

  lemma AgainNotDisposed(profile: Profile)
    requires New(profile) && |profile.vpas| > 0
    ensures !IsDisposed(profile)
  {
    assert profile.vpas[0] in profile.vpas;
  }

  /** The same for a reversal that read the profile before the dispose response was written. */
  lemma StaleRevertBreaksIntegrity(profile: Profile, rows: seq<Row>) returns (s: Database, e: Event)
    requires New(profile) && LockPlan(profile, rows) && |profile.vpas| > 0 && profile.vpas[0].cellID != ""
    ensures Breaks(rows, s, e) && s.store.profiles["p"].pending.None? && !Current(s.store, e.access)
  {
    hide Reaches, LockPlan, IsDisposed, Uses, After, Applies, Breaks, TakesBack;
    var s0, deployed := WithRows(rows), Deployed(profile, "m");
    var active := After(deployed, DEPLOYED);
    var disposing := After(active, DISPOSE);
    var disposed := After(disposing, DISPOSED);
    var open := map[0 := Open("p", disposing, Revert("n"))];
    DeployAlone(profile, rows);
    IsThenDisposed(deployed);
    FirstCellPlanned(profile, rows);
    AgainNotDisposed(deployed);
    Transact(rows, deployed, map[], 0, DEPLOYED);
    Transact(rows, active, map[], 0, DISPOSE);
    ReadProfile(s0, With(rows, disposing, map[]), 0, Revert("n"));
    assert map[][0 := Open("p", disposing, Revert("n"))] == open;
    assert Reaches(s0, With(rows, disposing, open));
    Transact(rows, disposing, open, 1, DISPOSED);
    CellGone(rows, disposed, open);
    s := With(rows, disposed, open);
    s := s.(rows := s.rows - {CellRow(profile.vpas[0].cellID)});
    TakenBack(s.store, 0);
    e := Change(Update(0));
    UpdateBreaks(rows, s, 0);
  }
}
