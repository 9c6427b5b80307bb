/** Referential integrity of the Tenant Manager's database under row locks (tmanager/core: service_participant.go,
    service_tenant.go, service_cell.go, service_dataspace.go). Transactions interleave statement by statement, those of
    module `ProfileTransactions` included; a read sees what is committed, and a lock is granted as soon as no other
    transaction holds a conflicting one. */
module Locks {
  import opened Options
  import opened Participants
  import opened ProfileTransactions

  datatype Row = TenantRow(id: string) | CellRow(id: string) | DataspaceRow(id: string)

  datatype DeletePhase = Waiting | Held | Unused

  datatype Tx =
    /** DeployProfile: the first `next` of the rows are share-locked. */
    | Deploying(profileID: string, profile: Profile, manifestID: string, rows: seq<Row>, next: nat)
    /** DeleteTenant, DeleteCell or DeleteProfile: the row is locked exclusively, then found not to be used. */
    | Deleting(row: Row, phase: DeletePhase)

  datatype Database = Database(rows: set<Row>, store: Store, txs: map<nat, Tx>)

  datatype Event =
    | BeginDeploy(t: nat, profileID: string, profile: Profile, manifestID: string, rows: seq<Row>)
    | BeginDelete(t: nat, row: Row)
    | Lock(t: nat)
    | Scan(t: nat)
    | Commit(t: nat)
    | Abort(t: nat)
    | Change(access: Access)       // of DisposeProfile, revertDispose, or a callback
    | Withdraw(profileID: string)  // the deployment could not be sent
    | Insert(row: Row)

  // ----- References -----

  /** What the check before a delete looks for. */
  predicate Uses(profile: Profile, row: Row) {
    match row
    case TenantRow(id) => profile.tenantID == id
    case CellRow(id) => UsesCell(profile, id)
    case DataspaceRow(id) => id in profile.dataspaceProfileIDs && !IsDisposed(profile)
  }

  /** The rows that have to exist while the profile does. */
  predicate References(profile: Profile, row: Row) {
    Uses(profile, row) && row != CellRow("")
  }

  /** The rows that the profile refers to if none of its agents is disposed. */
  predicate Names(profile: Profile, row: Row) {
    match row
    case TenantRow(id) => id == profile.tenantID
    case CellRow(id) => id != "" && exists vpa :: vpa in profile.vpas && vpa.cellID == id
    case DataspaceRow(id) => id in profile.dataspaceProfileIDs
  }

  ghost predicate Integrity(s: Database) {
    forall id, row :: id in s.store.profiles && References(s.store.profiles[id], row) ==> row in s.rows
  }

  /** A profile as it is generated. */
  predicate New(profile: Profile) {
    forall vpa :: vpa in profile.vpas ==> vpa.state.Pending?
  }

  /** The order in which a deployment locks: the tenant, the cells of its agents in any order, the dataspace profiles. */
  ghost predicate LockPlan(profile: Profile, rows: seq<Row>) {
    exists cells: seq<string> ::
      && rows == [TenantRow(profile.tenantID)] + RowsOf(cells, true) + RowsOf(profile.dataspaceProfileIDs, false)
      && forall vpa :: vpa in profile.vpas && vpa.cellID != "" ==> vpa.cellID in cells
  }

  function RowsOf(ids: seq<string>, cells: bool): seq<Row> {
    seq(|ids|, i requires 0 <= i < |ids| => if cells then CellRow(ids[i]) else DataspaceRow(ids[i]))
  }

  // ----- Locks -----

  predicate HoldsShared(tx: Tx, row: Row) {
    tx.Deploying? && tx.next <= |tx.rows| && row in tx.rows[..tx.next]
  }

  predicate HoldsExclusive(tx: Tx, row: Row) {
    tx.Deleting? && tx.row == row && !tx.phase.Waiting?
  }

  /** The transaction's next statement asks for a lock. */
  predicate Asks(tx: Tx) {
    if tx.Deploying? then tx.next < |tx.rows| else tx.phase.Waiting?
  }

  function Asked(tx: Tx): Row
    requires Asks(tx)
  {
    if tx.Deploying? then tx.rows[tx.next] else tx.row
  }

  /** Transaction `t` waits for a lock that `u` holds. */
  predicate Waits(s: Database, t: nat, u: nat) {
    && t in s.txs && u in s.txs && t != u && Asks(s.txs[t])
    && (HoldsExclusive(s.txs[u], Asked(s.txs[t])) || (s.txs[t].Deleting? && HoldsShared(s.txs[u], Asked(s.txs[t]))))
  }

  // ----- Events -----

  ghost predicate Enabled(s: Database, e: Event) {
    match e
    case BeginDeploy(t, profileID, profile, _, rows) =>
      t !in s.txs && !Known(s.store, profileID) && New(profile) && LockPlan(profile, rows)
    case BeginDelete(t, _) => t !in s.txs
    case Lock(t) => t in s.txs && Asks(s.txs[t]) && forall u :: !Waits(s, t, u)
    case Scan(t) => t in s.txs && s.txs[t].Deleting? && s.txs[t].phase.Held?
    case Commit(t) =>
      && t in s.txs
      && if s.txs[t].Deploying? then s.txs[t].next == |s.txs[t].rows| && !Known(s.store, s.txs[t].profileID)
         else s.txs[t].phase.Unused?
    case Abort(t) => t in s.txs
    case Change(a) => a.Read? || a.Update? || a.Rollback?
    case Withdraw(profileID) => profileID in s.store.profiles
    case Insert(_) => true
  }

  function End(s: Database, t: nat): Database {
    s.(txs := s.txs - {t})
  }

  /** A lock on a row that does not exist any more fails, and with it the transaction. */
  function AfterLock(s: Database, t: nat): Database
    requires t in s.txs && Asks(s.txs[t])
  {
    var tx := s.txs[t];
    if Asked(tx) !in s.rows then End(s, t)
    else if tx.Deploying? then s.(txs := s.txs[t := tx.(next := tx.next + 1)])
    else s.(txs := s.txs[t := tx.(phase := Held)])
  }

  function AfterScan(s: Database, t: nat): Database
    requires t in s.txs && s.txs[t].Deleting?
  {
    if exists id :: id in s.store.profiles && Uses(s.store.profiles[id], s.txs[t].row) then End(s, t)
    else s.(txs := s.txs[t := s.txs[t].(phase := Unused)])
  }

  function Do(s: Database, e: Event): Database
    requires Enabled(s, e)
  {
    match e
    case BeginDeploy(t, profileID, profile, manifestID, rows) =>
      s.(txs := s.txs[t := Deploying(profileID, profile, manifestID, rows, 0)])
    case BeginDelete(t, row) => s.(txs := s.txs[t := Deleting(row, Waiting)])
    case Lock(t) => AfterLock(s, t)
    case Scan(t) => AfterScan(s, t)
    case Commit(t) =>
      (match s.txs[t]
       case Deploying(profileID, profile, manifestID, _, _) =>
         End(s, t).(store := ProfileTransactions.Do(s.store, Create(profileID, profile, manifestID)))
       case Deleting(row, _) => End(s, t).(rows := s.rows - {row}))
    case Abort(t) => End(s, t)
    case Change(a) => s.(store := ProfileTransactions.Do(s.store, a))
    case Withdraw(profileID) => s.(store := ProfileTransactions.Do(s.store, Remove(profileID)))
    case Insert(row) => s.(rows := s.rows + {row})
  }

  /** The event takes a disposed profile back; `ProfileTransactions.TakesBackExactly` says when that happens. */
  predicate Revives(s: Database, e: Event) {
    e.Change? && e.access.Update? && TakesBack(s.store, e.access.t)
  }

  /** What the update writes. */
  function Revived(s: Database, e: Event): Profile
    requires Revives(s, e)
  {
    s.store.open[e.access.t].Written()
  }

  /** The cells of all agents of the profile and all its dataspace profiles exist. */
  predicate RowsExist(s: Database, profile: Profile) {
    && (forall vpa :: vpa in profile.vpas && vpa.cellID != "" ==> CellRow(vpa.cellID) in s.rows)
    && forall d :: d in profile.dataspaceProfileIDs ==> DataspaceRow(d) in s.rows
  }

  /** None of them was found unused by a transaction that is about to delete it. */
  predicate NoneDoomed(s: Database, profile: Profile) {
    forall t :: t in s.txs && s.txs[t].Deleting? && s.txs[t].phase.Unused? ==>
      match s.txs[t].row
      case TenantRow(_) => true
      case CellRow(id) => id == "" || forall vpa :: vpa in profile.vpas ==> vpa.cellID != id
      case DataspaceRow(id) => id !in profile.dataspaceProfileIDs
  }

  /** The hypothesis: a disposed profile is brought back only while all it refers to exists and is not about to be
      deleted. */
  predicate Restores(s: Database, e: Event) {
    Revives(s, e) ==> RowsExist(s, Revived(s, e)) && NoneDoomed(s, Revived(s, e))
  }

  // ----- What a delete refuses -----

  /** A tenant is used by the profiles that are its own; a cell by the agents in it that are not disposed; a dataspace
      profile by the participant profiles that list it and have no agents, or an agent that is not disposed. */
  ghost predicate UsedBy(row: Row, profile: Profile) {
    match row
    case TenantRow(id) => profile.tenantID == id
    case CellRow(id) =>
      exists i :: 0 <= i < |profile.vpas| && profile.vpas[i].cellID == id && profile.vpas[i].state != Disposed
    case DataspaceRow(id) =>
      && id in profile.dataspaceProfileIDs
      && (|profile.vpas| == 0 || exists i :: 0 <= i < |profile.vpas| && profile.vpas[i].state != Disposed)
  }

  lemma UsedExactly(profile: Profile, row: Row)
    ensures Uses(profile, row) <==> UsedBy(row, profile)
  {
    if i :| 0 <= i < |profile.vpas| && profile.vpas[i].state != Disposed && (row.CellRow? ==> profile.vpas[i].cellID == row.id) {
      assert profile.vpas[i] in profile.vpas;
    }
  }

  /** The check of a delete ends the transaction if and only if some profile uses the row, and changes nothing else. */
  lemma ScanExactly(s: Database, t: nat)
    requires Enabled(s, Scan(t))
    ensures
      var s', row := Do(s, Scan(t)), s.txs[t].row;
      && s'.rows == s.rows && s'.store == s.store && s'.txs - {t} == s.txs - {t}
      && (if exists id :: id in s.store.profiles && UsedBy(row, s.store.profiles[id]) then t !in s'.txs
          else t in s'.txs && s'.txs[t] == Deleting(row, Unused))
  {
    var row := s.txs[t].row;
    forall id | id in s.store.profiles ensures Uses(s.store.profiles[id], row) <==> UsedBy(row, s.store.profiles[id]) {
      UsedExactly(s.store.profiles[id], row);
    }
    hide Uses, UsedBy;
  }

  /** A delete that nobody holds locks against removes the row if no profile uses it, and is refused if one does or if
      there is no such row. */
  lemma DeleteExactly(s: Database, t: nat, row: Row)
    requires t !in s.txs && forall u :: u in s.txs ==> !HoldsExclusive(s.txs[u], row) && !HoldsShared(s.txs[u], row)
    ensures
      var begun := Do(s, BeginDelete(t, row));
      && Enabled(begun, Lock(t))
      && var locked := Do(begun, Lock(t));
      if row !in s.rows then locked == s
      else
        && Enabled(locked, Scan(t))
        && var scanned := Do(locked, Scan(t));
        if exists id :: id in s.store.profiles && UsedBy(row, s.store.profiles[id]) then scanned == s
        else Enabled(scanned, Commit(t)) && Do(scanned, Commit(t)) == s.(rows := s.rows - {row})
  {
    var begun := Do(s, BeginDelete(t, row));
    assert begun == s.(txs := s.txs[t := Deleting(row, Waiting)]);
    assert forall u :: !Waits(begun, t, u);
    assert s.txs[t := Deleting(row, Waiting)] - {t} == s.txs;
    if row in s.rows {
      var locked := Do(begun, Lock(t));
      assert locked == s.(txs := s.txs[t := Deleting(row, Held)]);
      assert s.txs[t := Deleting(row, Held)] - {t} == s.txs;
      ScanExactly(locked, t);
      hide UsedBy, Uses;
      var scanned := Do(locked, Scan(t));
      if t in scanned.txs {
        assert scanned.txs == s.txs[t := Deleting(row, Unused)];
        assert scanned.txs - {t} == s.txs;
      }
    }
  }

  /** A deployment that could not be sent leaves nothing behind. */
  lemma WithdrawUndoesDeploy(s: Database, t: nat)
    requires Enabled(s, Commit(t)) && s.txs[t].Deploying?
    ensures
      var deployed := Do(s, Commit(t));
      var Deploying(profileID, profile, manifestID, _, _) := s.txs[t];
      && profileID in deployed.store.profiles && deployed.store.profiles[profileID] == Deployed(profile, manifestID)
      && Enabled(deployed, Withdraw(profileID)) && Do(deployed, Withdraw(profileID)) == End(s, t)
  {
    var profileID := s.txs[t].profileID;
    assert Do(Do(s, Commit(t)), Withdraw(profileID)).store.profiles == s.store.profiles;
  }

  // ----- The invariant -----

  ghost predicate TxOk(tx: Tx) {
    tx.Deploying? ==> tx.next <= |tx.rows| && New(tx.profile) && LockPlan(tx.profile, tx.rows)
  }

  /** Locks exclude each other. */
  ghost predicate Excluded(s: Database) {
    forall t, u, row :: t in s.txs && u in s.txs && t != u && HoldsExclusive(s.txs[t], row) ==>
      !HoldsExclusive(s.txs[u], row) && !HoldsShared(s.txs[u], row)
  }

  /** Locked rows exist. */
  ghost predicate LockedExist(s: Database) {
    forall t, row :: t in s.txs && (HoldsShared(s.txs[t], row) || HoldsExclusive(s.txs[t], row)) ==> row in s.rows
  }

  /** A row that was found not to be used is still not. */
  ghost predicate StillUnused(s: Database) {
    forall t, id :: t in s.txs && s.txs[t].Deleting? && s.txs[t].phase.Unused? && id in s.store.profiles ==>
      !References(s.store.profiles[id], s.txs[t].row)
  }

  ghost predicate Inv(s: Database) {
    && (forall t :: t in s.txs ==> TxOk(s.txs[t]))
    && StoreOk(s.store)
    && Excluded(s) && LockedExist(s) && StillUnused(s) && Integrity(s)
  }

  lemma PlanCovers(profile: Profile, rows: seq<Row>, row: Row)
    requires LockPlan(profile, rows) && References(profile, row)
    ensures row in rows
  {
    var cells: seq<string> :|
      && rows == [TenantRow(profile.tenantID)] + RowsOf(cells, true) + RowsOf(profile.dataspaceProfileIDs, false)
      && forall vpa :: vpa in profile.vpas && vpa.cellID != "" ==> vpa.cellID in cells;
    match row
    case TenantRow(_) => assert rows[0] == row;
    case CellRow(id) =>
      var i :| 0 <= i < |cells| && cells[i] == id;
      assert rows[1 + i] == row;
    case DataspaceRow(id) =>
      var i :| 0 <= i < |profile.dataspaceProfileIDs| && profile.dataspaceProfileIDs[i] == id;
      assert rows[1 + |cells| + i] == row;
  }

  /** All transactions but `t` are as before, and `t` holds no more than before. */
  ghost predicate Releases(s: Database, s': Database, t: nat) {
    && s'.txs - {t} == s.txs - {t}
    && (t in s'.txs ==> t in s.txs && forall row ::
          && (HoldsShared(s'.txs[t], row) ==> HoldsShared(s.txs[t], row))
          && (HoldsExclusive(s'.txs[t], row) ==> HoldsExclusive(s.txs[t], row)))
  }

  lemma OthersSame(s: Database, s': Database, t: nat)
    requires s'.txs - {t} == s.txs - {t}
    ensures forall u :: u != t ==> (u in s'.txs <==> u in s.txs) && (u in s.txs ==> s'.txs[u] == s.txs[u])
  {
    forall u | u != t ensures (u in s'.txs <==> u in s.txs) && (u in s.txs ==> s'.txs[u] == s.txs[u]) {
      assert u in s'.txs <==> u in s'.txs - {t};
      assert u in s.txs <==> u in s.txs - {t};
    }
  }

  lemma ReleaseKeepsLocks(s: Database, s': Database, t: nat)
    requires Excluded(s) && LockedExist(s) && s.rows <= s'.rows && Releases(s, s', t)
    ensures Excluded(s') && LockedExist(s')
  {
    OthersSame(s, s', t);
  }

  lemma EndKeeps(s: Database, t: nat)
    requires Inv(s)
    ensures Inv(End(s, t))
  {
    OthersSame(s, End(s, t), t);
    ReleaseKeepsLocks(s, End(s, t), t);
  }

  lemma BeginKeeps(s: Database, t: nat, tx: Tx)
    requires Inv(s) && t !in s.txs && TxOk(tx)
    requires forall row :: !HoldsShared(tx, row) && !HoldsExclusive(tx, row)
    requires tx.Deleting? ==> tx.phase.Waiting?
    ensures Inv(s.(txs := s.txs[t := tx]))
  {
  }

  lemma LockKeeps(s: Database, t: nat)
    requires Inv(s) && Enabled(s, Lock(t))
    ensures Inv(AfterLock(s, t))
  {
    var tx := s.txs[t];
    var row := Asked(tx);
    if row !in s.rows {
      EndKeeps(s, t);
    } else {
      var s' := AfterLock(s, t);
      var tx' := s'.txs[t];
      assert tx.Deploying? ==> tx'.rows[..tx'.next] == tx.rows[..tx.next] + [row];
      assert forall r :: HoldsShared(tx', r) ==> HoldsShared(tx, r) || (tx.Deploying? && r == row);
      assert forall r :: HoldsExclusive(tx', r) ==> tx.Deleting? && r == row;
      assert forall u :: u in s.txs && u != t ==> !Waits(s, t, u);
      GrantKeepsLocks(s, s', t, row);
      hide Integrity, Excluded, LockedExist, HoldsShared, HoldsExclusive;
      assert StillUnused(s');
    }
  }

  /** A lock that conflicts with no other is granted. */
  lemma GrantKeepsLocks(s: Database, s': Database, t: nat, row: Row)
    requires Excluded(s) && LockedExist(s) && t in s.txs && s'.rows == s.rows && row in s.rows
    requires t in s'.txs && s'.txs == s.txs[t := s'.txs[t]] && s'.txs[t].Deploying? == s.txs[t].Deploying?
    requires forall r :: HoldsShared(s'.txs[t], r) ==> HoldsShared(s.txs[t], r) || r == row
    requires forall r :: HoldsExclusive(s'.txs[t], r) ==> r == row
    requires forall u :: u in s.txs && u != t ==>
      !HoldsExclusive(s.txs[u], row) && (s.txs[t].Deleting? ==> !HoldsShared(s.txs[u], row))
    ensures Excluded(s') && LockedExist(s')
  {
  }

  lemma ScanKeeps(s: Database, t: nat)
    requires Inv(s) && Enabled(s, Scan(t))
    ensures Inv(AfterScan(s, t))
  {
    if exists id :: id in s.store.profiles && Uses(s.store.profiles[id], s.txs[t].row) {
      EndKeeps(s, t);
    } else {
      ReleaseKeepsLocks(s, AfterScan(s, t), t);
    }
  }

  /** The rows that a deployment references are all locked by it, so they exist and nobody is about to delete them. */
  lemma CommitDeployKeeps(s: Database, t: nat)
    requires Inv(s) && Enabled(s, Commit(t)) && s.txs[t].Deploying?
    ensures Inv(Do(s, Commit(t)))
  {
    var s' := Do(s, Commit(t));
    var tx := s.txs[t];
    var profile := Deployed(tx.profile, tx.manifestID);
    forall row | References(profile, row)
      ensures row in s.rows && forall u :: u in s.txs && u != t ==> !HoldsExclusive(s.txs[u], row)
    {
      SameReferences(tx.profile, tx.manifestID, row);
      PlanCovers(tx.profile, tx.rows, row);
      assert tx.rows[..tx.next] == tx.rows;
      assert HoldsShared(tx, row);
    }
    ReleaseKeepsLocks(s, s', t);
    OthersSame(s, s', t);
    hide LockPlan, References, Excluded, LockedExist;
    assert StillUnused(s');
  }

  lemma SameReferences(profile: Profile, manifestID: string, row: Row)
    ensures References(Deployed(profile, manifestID), row) == References(profile, row)
  {
  }

  /** A row that is deleted is used by no profile and locked by nobody else. */
  lemma CommitDeleteKeeps(s: Database, t: nat)
    requires Inv(s) && Enabled(s, Commit(t)) && s.txs[t].Deleting?
    ensures Inv(Do(s, Commit(t)))
  {
    var s' := Do(s, Commit(t));
    var row := s.txs[t].row;
    OthersSame(s, s', t);
    assert HoldsExclusive(s.txs[t], row);
    assert Excluded(s');
    forall u, r | u in s'.txs && (HoldsShared(s'.txs[u], r) || HoldsExclusive(s'.txs[u], r)) ensures r in s'.rows {
      assert u != t && u in s.txs && s.txs[u] == s'.txs[u];
    }
    hide References, HoldsShared, HoldsExclusive;
  }

  /** All that a profile refers to whose agents share one state other than disposed. */
  lemma LiveReferences(profile: Profile, row: Row)
    requires Uniform(profile) && !IsDisposed(profile)
    ensures References(profile, row) <==> Names(profile, row)
  {
    assert forall vpa :: vpa in profile.vpas ==> !vpa.state.Disposed?;
  }

  /** An update that writes a profile over a disposed one keeps the references valid exactly if all that it refers to
      exists, and keeps the invariant exactly if, besides, none of it is about to be deleted. */
  lemma RevivalKeepsExactly(s: Database, e: Event)
    requires Inv(s) && Revives(s, e)
    ensures
      var s', next := Do(s, e), Revived(s, e);
      && (Integrity(s') <==> RowsExist(s, next))
      && (Inv(s') <==> RowsExist(s, next) && NoneDoomed(s, next))
  {
    var s', next := Do(s, e), Revived(s, e);
    var id := s.store.open[e.access.t].id;
    RevivedOk(s.store, e.access.t);
    AccessKeeps(s.store, e.access);
    ReleaseKeepsLocks(s, s', 0);
    hide References, After, Excluded, LockedExist, Uniform, TxOk, IsDisposed, StoreOk, Applies, SameShape, RowsExist, NoneDoomed;
    IntegrityExactly(s, s', id);
    UnusedExactly(s, s', id);
  }

  lemma RevivedOk(s: Store, t: nat)
    requires StoreOk(s) && TakesBack(s, t)
    ensures
      var now, next := s.profiles[s.open[t].id], s.open[t].Written();
      && SameShape(now, next) && References(now, TenantRow(next.tenantID))
      && forall row :: References(next, row) <==> Names(next, row)
  {
    var next := s.open[t].Written();
    hide After, Uniform, IsDisposed, StoreOk;
    KeepsShape(s, t);
    assert References(s.profiles[s.open[t].id], TenantRow(next.tenantID));
    hide SameShape, References, Names;
    forall row ensures References(next, row) <==> Names(next, row) {
      LiveReferences(next, row);
    }
  }

  lemma IntegrityExactly(s: Database, s': Database, id: string)
    requires Integrity(s) && id in s.store.profiles && s'.rows == s.rows
    requires id in s'.store.profiles && s'.store.profiles == s.store.profiles[id := s'.store.profiles[id]]
    requires var next := s'.store.profiles[id];
      && References(s.store.profiles[id], TenantRow(next.tenantID))
      && forall row :: References(next, row) <==> Names(next, row)
    ensures Integrity(s') <==> RowsExist(s, s'.store.profiles[id])
  {
    hide References;
    var next := s'.store.profiles[id];
    if Integrity(s') {
      forall vpa | vpa in next.vpas && vpa.cellID != "" ensures CellRow(vpa.cellID) in s.rows {
        assert References(next, CellRow(vpa.cellID));
      }
      forall d | d in next.dataspaceProfileIDs ensures DataspaceRow(d) in s.rows {
        assert References(next, DataspaceRow(d));
      }
    }
  }

  lemma UnusedExactly(s: Database, s': Database, id: string)
    requires StillUnused(s) && id in s.store.profiles && s'.txs == s.txs
    requires id in s'.store.profiles && s'.store.profiles == s.store.profiles[id := s'.store.profiles[id]]
    requires var next := s'.store.profiles[id];
      && References(s.store.profiles[id], TenantRow(next.tenantID))
      && forall row :: References(next, row) <==> Names(next, row)
    ensures StillUnused(s') <==> NoneDoomed(s, s'.store.profiles[id])
  {
    hide References;
  }

  lemma ChangeKeeps(s: Database, a: Access)
    requires Inv(s) && Enabled(s, Change(a)) && Restores(s, Change(a))
    ensures Inv(Do(s, Change(a)))
  {
    var s' := Do(s, Change(a));
    AccessKeeps(s.store, a);
    ReleaseKeepsLocks(s, s', 0);
    hide References, After, Excluded, LockedExist, Uniform, TxOk, StoreOk, Applies;
    if Revives(s, Change(a)) {
      RevivalKeepsExactly(s, Change(a));
    } else if a.Update? && a.t in s.store.open && s.store.open[a.t].id in s.store.profiles {
      forall row | References(s.store.open[a.t].Written(), row)
        ensures References(s.store.profiles[s.store.open[a.t].id], row)
      {
        ReferencesNoMore(s.store, a.t, row);
      }
    }
  }

  lemma ReferencesNoMore(s: Store, t: nat, row: Row)
    requires StoreOk(s) && t in s.open && s.open[t].id in s.profiles && !TakesBack(s, t)
    requires References(s.open[t].Written(), row)
    ensures References(s.profiles[s.open[t].id], row)
  {
    hide After, Uniform, UsesCell, StoreOk;
    KeepsShape(s, t);
    if row.CellRow? {
      ProfileTransactions.UsesNoMore(s, t, row.id);
    }
  }

  lemma EventKeeps(s: Database, e: Event)
    requires Inv(s) && Enabled(s, e) && Restores(s, e)
    ensures Inv(Do(s, e))
  {
    match e
    case BeginDeploy(t, profileID, profile, manifestID, rows) =>
      BeginKeeps(s, t, Deploying(profileID, profile, manifestID, rows, 0));
    case BeginDelete(t, row) => BeginKeeps(s, t, Deleting(row, Waiting));
    case Lock(t) => LockKeeps(s, t);
    case Scan(t) => ScanKeeps(s, t);
    case Commit(t) => if s.txs[t].Deploying? { CommitDeployKeeps(s, t); } else { CommitDeleteKeeps(s, t); }
    case Abort(t) => EndKeeps(s, t);
    case Change(a) => ChangeKeeps(s, a);
    case Withdraw(profileID) =>
    case Insert(row) =>
  }

  // ----- Main results -----

  /** A database without profiles. */
  function Empty(rows: set<Row>): Database {
    Database(rows, Store(map[], map[]), map[])
  }

  ghost predicate IsRun(s: Database, events: seq<Event>)
    decreases |events|
  {
    |events| == 0 || (Enabled(s, events[0]) && IsRun(Do(s, events[0]), events[1..]))
  }

  ghost function Reached(s: Database, events: seq<Event>): Database
    requires IsRun(s, events)
    decreases |events|
  {
    if |events| == 0 then s else Reached(Do(s, events[0]), events[1..])
  }

  ghost predicate AlwaysRestores(s: Database, events: seq<Event>)
    requires IsRun(s, events)
    decreases |events|
  {
    |events| == 0 || (Restores(s, events[0]) && AlwaysRestores(Do(s, events[0]), events[1..]))
  }

  lemma {:induction false} RunKeeps(s: Database, events: seq<Event>)
    requires Inv(s) && IsRun(s, events) && AlwaysRestores(s, events)
    ensures Inv(Reached(s, events))
    decreases |events|
  {
    hide Inv, Enabled, Do, Restores;
    if |events| > 0 {
      EventKeeps(s, events[0]);
      RunKeeps(Do(s, events[0]), events[1..]);
    }
  }

  /** Over every interleaving of deployments, deletes and state changes that brings disposed profiles back only while what
      they refer to exists and is not about to be deleted: the tenant
      of each profile exists, the cells of its agents that are not disposed exist, and so do the dataspace profiles of
      each profile that is not disposed. */
  lemma ReferencesStayValid(rows: set<Row>, events: seq<Event>, id: string)
    requires IsRun(Empty(rows), events) && AlwaysRestores(Empty(rows), events)
    requires id in Reached(Empty(rows), events).store.profiles
    ensures
      var s := Reached(Empty(rows), events);
      var profile := s.store.profiles[id];
      && TenantRow(profile.tenantID) in s.rows
      && (forall vpa :: vpa in profile.vpas && !vpa.state.Disposed? && vpa.cellID != "" ==> CellRow(vpa.cellID) in s.rows)
      && (!IsDisposed(profile) ==> forall d :: d in profile.dataspaceProfileIDs ==> DataspaceRow(d) in s.rows)
  {
    var s0 := Empty(rows);
    RunKeeps(s0, events);
    var s := Reached(s0, events);
    var profile := s.store.profiles[id];
    hide Reached, IsRun, AlwaysRestores, Excluded, LockedExist, StillUnused;
    assert References(profile, TenantRow(profile.tenantID));
    forall vpa | vpa in profile.vpas && !vpa.state.Disposed? && vpa.cellID != "" ensures CellRow(vpa.cellID) in s.rows {
      assert References(profile, CellRow(vpa.cellID));
    }
    forall d | d in profile.dataspaceProfileIDs && !IsDisposed(profile) ensures DataspaceRow(d) in s.rows {
      assert References(profile, DataspaceRow(d));
    }
  }

  /** A transaction waits only for transactions of lower rank: a delete for deployments, a deployment for deletes that
      have their only lock. */
  function Rank(tx: Tx): nat {
    if tx.Deploying? then 1 else if tx.phase.Waiting? then 2 else 0
  }

  lemma WaitsDescend(s: Database, t: nat, u: nat)
    requires Waits(s, t, u)
    ensures Rank(s.txs[u]) < Rank(s.txs[t])
  {
  }

  lemma {:induction false} ChainDescends(s: Database, w: seq<nat>)
    requires |w| > 1 && forall i :: 0 < i < |w| ==> Waits(s, w[i - 1], w[i])
    ensures w[0] in s.txs && w[|w| - 1] in s.txs && Rank(s.txs[w[|w| - 1]]) < Rank(s.txs[w[0]])
  {
    WaitsDescend(s, w[0], w[1]);
    if |w| > 2 {
      ChainDescends(s, w[1..]);
    }
  }

  /** No transactions wait for each other in a circle. */
  lemma NoDeadlock(s: Database, w: seq<nat>)
    requires |w| > 1 && w[0] == w[|w| - 1]
    ensures exists i :: 0 < i < |w| && !Waits(s, w[i - 1], w[i])
  {
    if forall i :: 0 < i < |w| ==> Waits(s, w[i - 1], w[i]) {
      ChainDescends(s, w);
      assert false;
    }
  }

  /** A transaction that is not waiting can take its next step. */
  predicate CanProceed(s: Database, t: nat) {
    t in s.txs && forall u :: u in s.txs ==> !Waits(s, t, u)
  }

  /** While there are transactions, one of them can take its next step. */
  lemma {:induction false} SomeoneCanProceed(s: Database, t: nat) returns (u: nat)
    requires t in s.txs
    ensures CanProceed(s, u)
    decreases Rank(s.txs[t])
  {
    if CanProceed(s, t) {
      return t;
    }
    var v :| v in s.txs && Waits(s, t, v);
    WaitsDescend(s, t, v);
    u := SomeoneCanProceed(s, v);
  }

  /** The next step of such a transaction is enabled. */
  lemma ProceedIsEnabled(s: Database, t: nat)
    requires Inv(s) && CanProceed(s, t)
    requires s.txs[t].Deploying? ==> !Known(s.store, s.txs[t].profileID)
    ensures Enabled(s, Lock(t)) || Enabled(s, Scan(t)) || Enabled(s, Commit(t))
  {
    assert TxOk(s.txs[t]);
    hide LockPlan, New, Integrity, Excluded, LockedExist, StillUnused;
  }
}
