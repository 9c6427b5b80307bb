/** The index of orchestrations and the start of compensations (pmanager/natsorchestration/watcher.go), and the
    de-duplication of starts (pmanager/core/provision.go). */
module Watcher {
  import opened Options
  import opened Orchestrations

  datatype Entry = Entry(state: State, timestamp: int)

  /** An update of an orchestration, as its record in the key-value store is written; `hasCompensation` says whether
      there is a definition for its compensation. */
  datatype Update = Update(id: string, state: State, timestamp: int, isDispose: bool, hasCompensation: bool)

  /** What goes wrong while an update is handled: the index cannot be read or written, the compensation cannot be
      looked up or started, or the transaction cannot be committed. */
  datatype Outcome = Outcome(readFails: bool, writeFails: bool, startFails: bool, commitFails: bool)

  // ----- The decision -----

  /** Terminal entries are not changed, nor are entries that already show the update. */
  predicate Changes(entry: Option<Entry>, u: Update) {
    || entry.None?
    || (!entry.value.state.IsTerminal() && entry.value != Entry(u.state, u.timestamp))
  }

  /** An existing entry changes to Errored, and the orchestration is not itself a compensation. */
  predicate Fails(entry: Option<Entry>, u: Update) {
    entry.Some? && Changes(entry, u) && u.state.Errored? && !u.isDispose
  }

  predicate Compensates(entry: Option<Entry>, u: Update) {
    Fails(entry, u) && u.hasCompensation
  }

  predicate Commits(entry: Option<Entry>, u: Update, outcome: Outcome) {
    && !outcome.readFails && !outcome.commitFails
    && (Changes(entry, u) ==> !outcome.writeFails)
    && (Fails(entry, u) ==> !outcome.startFails)
  }

  function Next(entry: Option<Entry>, u: Update, outcome: Outcome): Option<Entry> {
    if Commits(entry, u, outcome) && Changes(entry, u) then Some(Entry(u.state, u.timestamp)) else entry
  }

  function CompensationID(id: string): string { id + "-compensation" }

  /** Different orchestrations have different compensations. */
  lemma CompensationIDIsInjective(a: string, b: string)
    requires CompensationID(a) == CompensationID(b)
    ensures a == b
  {
    assert a == CompensationID(a)[..|CompensationID(a)| - |"-compensation"|];
  }

  class OrchestrationIndexWatcher {
    var index: map<string, Entry>
    /** The compensations that were requested; requests are not taken back when a transaction is. */
    var started: seq<string>

    constructor ()
      ensures index == map[] && started == []
    {
      index, started := map[], [];
    }

    function Lookup(id: string): Option<Entry>
      reads this
    {
      if id in index then Some(index[id]) else None
    }

    /** Handles one delivery of an update; true stands for an acknowledgement, false for a request to redeliver. */
    method OnMessage(u: Update, outcome: Outcome) returns (ack: bool)
      modifies this
      ensures ack <==> Commits(old(Lookup(u.id)), u, outcome)
      ensures Lookup(u.id) == Next(old(Lookup(u.id)), u, outcome)
      ensures forall id :: id != u.id ==> Lookup(id) == old(Lookup(id))
      ensures started == old(started) + if Compensates(old(Lookup(u.id)), u) && !outcome.readFails && !outcome.writeFails
                                          && !outcome.startFails then [CompensationID(u.id)] else []
    {
      if outcome.readFails {
        return false;
      }
      var before := index;
      if u.id !in index {
        if outcome.writeFails {
          return false;
        }
        index := index[u.id := Entry(u.state, u.timestamp)];
      } else {
        var current := index[u.id];
        if !((current.state == u.state && current.timestamp == u.timestamp) || current.state.Completed? || current.state.Errored?) {
          if outcome.writeFails {
            return false;
          }
          index := index[u.id := Entry(u.state, u.timestamp)];
          if u.state.Errored? && !u.isDispose {
            if outcome.startFails {
              index := before;
              return false;
            }
            if u.hasCompensation {
              started := started + [CompensationID(u.id)];
            }
          }
        }
      }
      if outcome.commitFails {
        index := before;
        return false;
      }
      return true;
    }
  }

  // ----- Runs: the deliveries of the updates of one orchestration, in any order and number -----

  datatype Delivery = Delivery(u: Update, outcome: Outcome)

  function Run(entry: Option<Entry>, ds: seq<Delivery>): Option<Entry> {
    if |ds| == 0 then entry
    else
      var last := ds[|ds| - 1];
      Next(Run(entry, ds[..|ds| - 1]), last.u, last.outcome)
  }

  /** Delivery `k` commits a change to Errored together with a compensation. */
  predicate CompensatesAt(entry: Option<Entry>, ds: seq<Delivery>, k: int) {
    && 0 <= k < |ds|
    && var before := Run(entry, ds[..k]);
    Compensates(before, ds[k].u) && Commits(before, ds[k].u, ds[k].outcome)
  }

  lemma {:induction false} TerminalStays(entry: Option<Entry>, ds: seq<Delivery>)
    requires entry.Some? && entry.value.state.IsTerminal()
    ensures Run(entry, ds) == entry
  {
    if |ds| > 0 {
      TerminalStays(entry, ds[..|ds| - 1]);
    }
  }

  lemma {:induction false} RunSplits(entry: Option<Entry>, ds: seq<Delivery>, more: seq<Delivery>)
    ensures Run(entry, ds + more) == Run(Run(entry, ds), more)
  {
    if |more| == 0 {
      assert ds + more == ds;
    } else {
      RunSplits(entry, ds, more[..|more| - 1]);
      assert (ds + more)[..|ds + more| - 1] == ds + more[..|more| - 1];
    }
  }

  /** Once an entry is terminal, no delivery changes it. */
  lemma TerminalEntryNeverChanges(entry: Option<Entry>, ds: seq<Delivery>, k: nat)
    requires k <= |ds|
    requires Run(entry, ds[..k]).Some? && Run(entry, ds[..k]).value.state.IsTerminal()
    ensures Run(entry, ds) == Run(entry, ds[..k])
  {
    RunSplits(entry, ds[..k], ds[k..]);
    assert ds[..k] + ds[k..] == ds;
    TerminalStays(Run(entry, ds[..k]), ds[k..]);
  }

  /** A change to Errored with a compensation is committed at most once. */
  lemma CompensatedAtMostOnce(entry: Option<Entry>, ds: seq<Delivery>, j: nat, k: nat)
    requires CompensatesAt(entry, ds, j) && CompensatesAt(entry, ds, k)
    ensures j == k
  {
    if j < k {
      NotAfterCompensation(entry, ds, j, k);
    } else if k < j {
      NotAfterCompensation(entry, ds, k, j);
    }
  }

  lemma NotAfterCompensation(entry: Option<Entry>, ds: seq<Delivery>, j: nat, k: nat)
    requires j < k < |ds| && CompensatesAt(entry, ds, j)
    ensures !CompensatesAt(entry, ds, k)
  {
    var prefix := ds[..k];
    assert prefix[..j + 1][..j] == ds[..j] && prefix[..j + 1] == ds[..j + 1] && ds[..j + 1][..j] == ds[..j];
    TerminalEntryNeverChanges(entry, prefix, j + 1);
  }

  /** A dispose orchestration is never compensated, in particular no compensation is. */
  lemma DisposeNotCompensated(entry: Option<Entry>, ds: seq<Delivery>, k: int)
    requires forall i :: 0 <= i < |ds| ==> ds[i].u.isDispose
    ensures !CompensatesAt(entry, ds, k)
  {
  }

  /** No other terminal state than `t` occurs. */
  predicate OnlyTerminal(ds: seq<Delivery>, t: State) {
    forall i :: 0 <= i < |ds| && ds[i].u.state.IsTerminal() ==> ds[i].u.state == t
  }

  predicate CommittedAt(entry: Option<Entry>, ds: seq<Delivery>, k: int) {
    0 <= k < |ds| && Commits(Run(entry, ds[..k]), ds[k].u, ds[k].outcome)
  }

  lemma {:induction false} OnlyReachable(ds: seq<Delivery>, t: State)
    requires OnlyTerminal(ds, t)
    ensures var r := Run(None, ds); r.Some? && r.value.state.IsTerminal() ==> r.value.state == t
  {
    if |ds| > 0 {
      OnlyReachable(ds[..|ds| - 1], t);
    }
  }

  /** If one terminal state only occurs, and is delivered once with success, the index ends in it, whatever else is
      delivered before or after, late or twice. */
  lemma IndexConverges(ds: seq<Delivery>, t: State, k: nat)
    requires t.IsTerminal() && OnlyTerminal(ds, t)
    requires CommittedAt(None, ds, k) && ds[k].u.state == t
    ensures Run(None, ds).Some? && Run(None, ds).value.state == t
  {
    OnlyReachable(ds[..k], t);
    assert ds[..k + 1][..k] == ds[..k];
    TerminalEntryNeverChanges(None, ds, k + 1);
  }

  /** A delivery is acknowledged if and only if the entry can be read, the transaction commits, and what is to be done
      succeeds: nothing if the entry is Completed or Errored, or shows this state and timestamp; otherwise the write; and
      for the failure of an orchestration with an entry that is not a dispose, also the start of the compensation. */
  lemma AcknowledgedExactly(entry: Option<Entry>, u: Update, outcome: Outcome)
    ensures
      var final := entry.Some? && (entry.value.state == Completed || entry.value.state == Errored);
      var shown := entry.Some? && entry.value.state == u.state && entry.value.timestamp == u.timestamp;
      && (Commits(entry, u, outcome) <==>
            && !outcome.readFails && !outcome.commitFails
            && (final || shown || !outcome.writeFails)
            && (entry.Some? && !final && !shown && u.state == Errored && !u.isDispose ==> !outcome.startFails))
      && (Compensates(entry, u) <==>
            entry.Some? && !final && !shown && u.state == Errored && !u.isDispose && u.hasCompensation)
  {
  }

  /** The latest delivery before `k` that committed. */
  predicate LastCommitted(ds: seq<Delivery>, k: int, j: int) {
    0 <= j < k <= |ds| && CommittedAt(None, ds, j) && forall i :: j < i < k ==> !CommittedAt(None, ds, i)
  }

  /** Delivery `j` is the first to commit a terminal state. */
  predicate FirstFinal(ds: seq<Delivery>, j: nat) {
    && j < |ds| && CommittedAt(None, ds, j) && (ds[j].u.state == Completed || ds[j].u.state == Errored)
    && forall i :: 0 <= i < j && CommittedAt(None, ds, i) ==> ds[i].u.state != Completed && ds[i].u.state != Errored
  }

  /** No delivery before `k` has committed a terminal state. */
  predicate NoneFinal(ds: seq<Delivery>, k: nat)
    requires k <= |ds|
  {
    forall i :: 0 <= i < k && CommittedAt(None, ds, i) ==> ds[i].u.state != Completed && ds[i].u.state != Errored
  }

  /** While no terminal state has been committed, the index shows the state and timestamp of the last delivery that
      committed, and nothing if none has. */
  lemma {:induction false} IndexFollows(ds: seq<Delivery>, k: nat)
    requires k <= |ds| && NoneFinal(ds, k)
    ensures forall j :: LastCommitted(ds, k, j) ==> Run(None, ds[..k]) == Some(Entry(ds[j].u.state, ds[j].u.timestamp))
    ensures (forall i :: 0 <= i < k ==> !CommittedAt(None, ds, i)) ==> Run(None, ds[..k]).None?
    ensures Run(None, ds[..k]).Some? ==> exists j :: LastCommitted(ds, k, j)
  {
    if k > 0 {
      assert ds[..k][..k - 1] == ds[..k - 1];
      IndexFollows(ds, k - 1);
      forall j | LastCommitted(ds, k, j) && j < k - 1 ensures LastCommitted(ds, k - 1, j) {
      }
      if CommittedAt(None, ds, k - 1) {
        assert LastCommitted(ds, k, k - 1);
        ShownAfterCommit(Run(None, ds[..k - 1]), ds[k - 1]);
      } else if Run(None, ds[..k - 1]).Some? {
        var j :| LastCommitted(ds, k - 1, j);
        assert LastCommitted(ds, k, j);
      }
    }
  }

  /** An entry that is not final shows an update that is committed. */
  lemma ShownAfterCommit(entry: Option<Entry>, d: Delivery)
    requires Commits(entry, d.u, d.outcome)
    requires entry.Some? ==> entry.value.state != Completed && entry.value.state != Errored
    ensures Next(entry, d.u, d.outcome) == Some(Entry(d.u.state, d.u.timestamp))
  {
  }

  lemma RunNext(ds: seq<Delivery>, j: nat)
    requires j < |ds|
    ensures Run(None, ds[..j + 1]) == Next(Run(None, ds[..j]), ds[j].u, ds[j].outcome)
  {
    assert ds[..j + 1][..j] == ds[..j];
  }

  /** The first terminal state that is committed is what the index shows from then on. */
  lemma FirstFinalStays(ds: seq<Delivery>, j: nat)
    requires FirstFinal(ds, j)
    ensures Run(None, ds) == Some(Entry(ds[j].u.state, ds[j].u.timestamp))
  {
    hide Commits, Next, Run;
    IndexFollows(ds, j);
    if Run(None, ds[..j]).Some? {
      var i :| LastCommitted(ds, j, i);
      assert ds[i].u.state != Completed && ds[i].u.state != Errored;
    }
    RunNext(ds, j);
    ShownAfterCommit(Run(None, ds[..j]), ds[j]);
    TerminalEntryNeverChanges(None, ds, j + 1);
  }

  /** If no update says completed, and the orchestration can be compensated: its failure is compensated exactly if it is
      delivered with success after a first successful delivery that was not the failure already. */
  lemma FailureIsCompensated(ds: seq<Delivery>)
    requires OnlyTerminal(ds, Errored) && forall i :: 0 <= i < |ds| ==> !ds[i].u.isDispose && ds[i].u.hasCompensation
    ensures (exists k :: CompensatesAt(None, ds, k)) <==> exists j, k :: FailsAfterFirst(ds, j, k)
  {
    if k :| CompensatesAt(None, ds, k) {
      var j := FirstCommitted(ds, k);
      if ds[j].u.state.Errored? {
        assert ds[..k][..j + 1][..j] == ds[..j] && ds[..k][..j + 1] == ds[..j + 1] && ds[..j + 1][..j] == ds[..j];
        TerminalEntryNeverChanges(None, ds[..k], j + 1);
        assert false;
      }
      assert FailsAfterFirst(ds, j, k);
    }
    if j, k :| FailsAfterFirst(ds, j, k) {
      assert ds[..j + 1][..j] == ds[..j];
      var _ := FirstFailure(ds, j + 1, k);
    }
  }

  /** Delivery `j` is the first to succeed and no failure, and the later delivery `k` of the failure succeeds. */
  predicate FailsAfterFirst(ds: seq<Delivery>, j: int, k: int) {
    && 0 <= j < k
    && CommittedAt(None, ds, j) && Run(None, ds[..j]).None? && !ds[j].u.state.Errored?
    && CommittedAt(None, ds, k) && ds[k].u.state.Errored?
  }

  /** The delivery that created the entry. */
  lemma {:induction false} FirstCommitted(ds: seq<Delivery>, k: nat) returns (j: nat)
    requires k <= |ds| && Run(None, ds[..k]).Some?
    ensures j < k && CommittedAt(None, ds, j) && Run(None, ds[..j]).None?
    decreases k
  {
    assert ds[..k][..k - 1] == ds[..k - 1];
    if Run(None, ds[..k - 1]).Some? {
      j := FirstCommitted(ds, k - 1);
    } else {
      j := k - 1;
    }
  }

  /** While the entry is not terminal, the first failure that is delivered with success is compensated. */
  lemma {:induction false} FirstFailure(ds: seq<Delivery>, i: nat, k: nat) returns (r: nat)
    requires OnlyTerminal(ds, Errored) && forall i :: 0 <= i < |ds| ==> !ds[i].u.isDispose && ds[i].u.hasCompensation
    requires i <= k < |ds| && Run(None, ds[..i]).Some? && !Run(None, ds[..i]).value.state.IsTerminal()
    requires CommittedAt(None, ds, k) && ds[k].u.state.Errored?
    ensures CompensatesAt(None, ds, r)
    decreases k - i
  {
    if CommittedAt(None, ds, i) && ds[i].u.state.Errored? {
      return i;
    }
    assert ds[..i + 1][..i] == ds[..i];
    r := FirstFailure(ds, i + 1, k);
  }

  // ----- Starting orchestrations (provision.go) -----

  datatype Manifest = Manifest(id: string, kind: string, correlationID: string)

  datatype Record = Record(kind: string, correlationID: string, state: State)

  /** How starting goes on: no definition, the lookup or the instantiation fails, storing fails, or publishing the first
      activities fails once the orchestration is stored. */
  datatype Attempt = NoDefinition | LookupFails | InstantiationFails | StoringFails | PublishingFails | Succeeds

  datatype Started = Orchestration(kind: string, correlationID: string) | Invalid | Conflict | FailedStart

  class ProvisionManager {
    var orchestrations: map<string, Record>

    constructor ()
      ensures orchestrations == map[]
    {
      orchestrations := map[];
    }

    /** Starts an orchestration, once for each ID. The same manifest may be submitted again, which resumes a start that
        did not complete; another manifest with the ID is refused. */
    method Start(manifest: Manifest, attempt: Attempt) returns (r: Started)
      modifies this
      ensures forall id :: id in old(orchestrations) ==>
                id in orchestrations && orchestrations[id].kind == old(orchestrations)[id].kind
                && orchestrations[id].correlationID == old(orchestrations)[id].correlationID
      ensures forall id :: id != manifest.id ==>
                (id in orchestrations <==> id in old(orchestrations))
                && (id in orchestrations ==> orchestrations[id] == old(orchestrations)[id])
      ensures r.Invalid? <==> manifest.id == "" || manifest.kind == ""
      ensures r.Orchestration? ==>
        && manifest.id in orchestrations && !orchestrations[manifest.id].state.Initialized?
        && orchestrations[manifest.id].kind == r.kind == manifest.kind
        && orchestrations[manifest.id].correlationID == r.correlationID == manifest.correlationID
      ensures r.Invalid? || attempt.NoDefinition? || attempt.LookupFails? ==> orchestrations == old(orchestrations)
      ensures !r.Invalid? && (attempt.NoDefinition? || attempt.LookupFails?) ==> r.FailedStart?
      ensures !r.Invalid? && !attempt.NoDefinition? && !attempt.LookupFails? && manifest.id in old(orchestrations) ==>
        var known := old(orchestrations)[manifest.id];
        if known.kind != manifest.kind || known.correlationID != manifest.correlationID then
          r.Conflict? && orchestrations == old(orchestrations)
        else if known.state != Initialized then
          r.Orchestration? && orchestrations == old(orchestrations)
        else if attempt.Succeeds? then
          r.Orchestration?
          && orchestrations == old(orchestrations)[manifest.id := Record(known.kind, known.correlationID, Running)]
        else r.FailedStart? && orchestrations == old(orchestrations)
      ensures !r.Invalid? && manifest.id !in old(orchestrations) ==>
        match attempt
        case Succeeds =>
          r.Orchestration?
          && orchestrations == old(orchestrations)[manifest.id := Record(manifest.kind, manifest.correlationID, Running)]
        case PublishingFails =>
          r.FailedStart?
          && orchestrations == old(orchestrations)[manifest.id := Record(manifest.kind, manifest.correlationID, Initialized)]
        case _ => r.FailedStart? && orchestrations == old(orchestrations)
    {
      if manifest.id == "" || manifest.kind == "" {
        return Invalid;
      }
      if attempt.NoDefinition? || attempt.LookupFails? {
        return FailedStart;
      }
      if manifest.id in orchestrations {
        var known := orchestrations[manifest.id];
        if known.kind != manifest.kind || known.correlationID != manifest.correlationID {
          return Conflict;
        }
        if !known.state.Initialized? {
          return Started.Orchestration(known.kind, known.correlationID);
        }
        if !attempt.Succeeds? {
          return FailedStart;
        }
        orchestrations := orchestrations[manifest.id := known.(state := Running)];
        return Started.Orchestration(manifest.kind, manifest.correlationID);
      }
      if attempt.InstantiationFails? || attempt.StoringFails? {
        return FailedStart;
      }
      var record := Record(manifest.kind, manifest.correlationID, Initialized);
      orchestrations := orchestrations[manifest.id := record];
      if attempt.PublishingFails? {
        return FailedStart;
      }
      orchestrations := orchestrations[manifest.id := record.(state := Running)];
      return Started.Orchestration(manifest.kind, manifest.correlationID);
    }
  }
}
