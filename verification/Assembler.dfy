/** Starting services in the order of their dependencies (common/system/assembler.go). */
module Assembler {
  import opened Options
  import opened Slices
  import opened Graphs
  import Dag

  datatype Assembly = Assembly(name: string, provided: seq<string>, required: seq<string>)

  datatype Phase = Init | Prepare | Start

  datatype Call = Call(phase: Phase, name: string)

  datatype Assembled = Done | NotProvided(service: string) | Cycle | Failed(call: Call)

  function Names(assemblies: seq<Assembly>): set<string> {
    set a | a in assemblies :: a.name
  }

  /** The assembly that provides the service: the last one that was registered. */
  function Provider(assemblies: seq<Assembly>, service: string): (r: Option<string>)
    ensures r.Some? ==> r.value in Names(assemblies)
  {
    if |assemblies| == 0 then None
    else
      var last := assemblies[|assemblies| - 1];
      if service in last.provided then Some(last.name) else Provider(assemblies[..|assemblies| - 1], service)
  }

  /** A service is provided by the assembly at position `i` if and only if that one provides it and no later one does. */
  lemma {:induction false} LastRegistered(assemblies: seq<Assembly>, service: string)
    ensures Provider(assemblies, service).None? <==> forall a :: a in assemblies ==> service !in a.provided
    ensures forall i ::
              (&& 0 <= i < |assemblies| && service in assemblies[i].provided
               && forall j :: i < j < |assemblies| ==> service !in assemblies[j].provided)
              ==> Provider(assemblies, service) == Some(assemblies[i].name)
  {
    if |assemblies| > 0 {
      var n := |assemblies| - 1;
      LastRegistered(assemblies[..n], service);
      assert assemblies == assemblies[..n] + [assemblies[n]];
      forall i | 0 <= i < n && service in assemblies[i].provided && service !in assemblies[n].provided
                 && forall j :: i < j < |assemblies| ==> service !in assemblies[j].provided
        ensures Provider(assemblies, service) == Some(assemblies[i].name)
      {
        assert assemblies[..n][i] == assemblies[i];
      }
    }
  }

  ghost predicate Requires(assemblies: seq<Assembly>, name: string, service: string) {
    exists a :: a in assemblies && a.name == name && service in a.required
  }

  /** The assembly `name` requires a service that `provider` provides. */
  ghost predicate Needs(assemblies: seq<Assembly>, name: string, provider: string) {
    exists service :: Requires(assemblies, name, service) && Provider(assemblies, service) == Some(provider)
  }

  ghost predicate Unprovided(assemblies: seq<Assembly>, service: string) {
    Provider(assemblies, service).None? && exists name :: Requires(assemblies, name, service)
  }

  /** Following requirements to their providers leads from some assembly back to it. */
  ghost predicate Circular(assemblies: seq<Assembly>) {
    exists w: seq<string> :: |w| > 1 && w[0] == w[|w| - 1] && forall i :: 0 < i < |w| ==> Needs(assemblies, w[i - 1], w[i])
  }

  /** Every assembly once, after its providers. */
  ghost predicate StartOrder(assemblies: seq<Assembly>, order: seq<string>) {
    && NoRepeats(order) && Elements(order) == Names(assemblies)
    && forall i, j :: 0 <= i < |order| && 0 <= j < |order| && Needs(assemblies, order[i], order[j]) ==> j < i
  }

  function CallsOf(phase: Phase, order: seq<string>): (calls: seq<Call>) {
    seq(|order|, i requires 0 <= i < |order| => Call(phase, order[i]))
  }

  function Calls(order: seq<string>): seq<Call> {
    CallsOf(Init, order) + CallsOf(Prepare, order) + CallsOf(Start, order)
  }

  /** What is called: all of it, or everything up to and including the first call that fails. */
  ghost predicate Called(calls: seq<Call>, fails: set<Call>, called: seq<Call>, failed: Option<Call>) {
    match failed
    case None => called == calls && forall c :: c in calls ==> c !in fails
    case Some(c) =>
      && 0 < |called| <= |calls| && called == calls[..|called|] && c == called[|called| - 1] && c in fails
      && forall b :: b in called[..|called| - 1] ==> b !in fails
  }

  function Offset(phase: Phase, n: nat): nat {
    match phase case Init => 0 case Prepare => n case Start => 2 * n
  }

  lemma CallAt(order: seq<string>, phase: Phase, i: nat)
    requires i < |order|
    ensures Offset(phase, |order|) + i < |Calls(order)|
    ensures Calls(order)[Offset(phase, |order|) + i] == Call(phase, order[i])
  {
  }

  lemma PositionOf(order: seq<string>, k: nat, phase: Phase, name: string) returns (i: nat)
    requires k < |Calls(order)| && Calls(order)[k] == Call(phase, name)
    ensures i < |order| && k == Offset(phase, |order|) + i && order[i] == name
  {
    var n := |order|;
    i := if k < n then k else if k < 2 * n then k - n else k - 2 * n;
    CallAt(order, if k < n then Init else if k < 2 * n then Prepare else Start, i);
  }

  /** Whatever is called at a position in the phases is called before any later one. */
  lemma CalledBefore(order: seq<string>, k: nat, phase: Phase, name: string, j: nat)
    requires j < |order| && order[j] == name && Offset(phase, |order|) + j < k <= |Calls(order)|
    ensures Call(phase, name) in Calls(order)[..k]
  {
    CallAt(order, phase, j);
    hide Calls;
    assert Calls(order)[..k][Offset(phase, |order|) + j] == Call(phase, name);
  }

  /** An assembly is called only after its providers were called in the same phase, and after all assemblies were called
      in the phase before. */
  lemma ProvidersFirst(assemblies: seq<Assembly>, order: seq<string>, k: nat, name: string, provider: string, phase: Phase)
    requires StartOrder(assemblies, order) && Needs(assemblies, name, provider)
    requires k < |Calls(order)| && Calls(order)[k] == Call(phase, name)
    ensures Call(phase, provider) in Calls(order)[..k]
    ensures phase.Prepare? ==> forall n :: n in Names(assemblies) ==> Call(Init, n) in Calls(order)[..k]
    ensures phase.Start? ==> forall n :: n in Names(assemblies) ==> Call(Prepare, n) in Calls(order)[..k]
  {
    hide Calls;
    var i := PositionOf(order, k, phase, name);
    assert provider in Elements(order);
    var j :| 0 <= j < |order| && order[j] == provider;
    CalledBefore(order, k, phase, provider, j);
    forall n | n in Names(assemblies)
      ensures phase.Prepare? ==> Call(Init, n) in Calls(order)[..k]
      ensures phase.Start? ==> Call(Prepare, n) in Calls(order)[..k]
    {
      assert n in Elements(order);
      var l :| 0 <= l < |order| && order[l] == n;
      if phase.Prepare? {
        CalledBefore(order, k, Init, n, l);
      } else if phase.Start? {
        CalledBefore(order, k, Prepare, n, l);
      }
    }
  }

  // ----- The dependency graph -----

  /** The requirements of `some` of the assemblies. */
  ghost predicate NeedsOf(some: seq<Assembly>, assemblies: seq<Assembly>, name: string, provider: string) {
    exists service :: Requires(some, name, service) && Provider(assemblies, service) == Some(provider)
  }

  /** The graph has an edge from each assembly to each of its providers. */
  ghost predicate NeedsGraph(e: Edges, assemblies: seq<Assembly>) {
    e.Keys == Names(assemblies) && forall u, v :: Edge(e, u, v) <==> Needs(assemblies, u, v)
  }

  lemma RequiresNext(assemblies: seq<Assembly>, i: nat)
    requires i < |assemblies|
    ensures forall n, s :: Requires(assemblies[..i + 1], n, s) <==>
              Requires(assemblies[..i], n, s) || (n == assemblies[i].name && s in assemblies[i].required)
  {
    forall n, s
      ensures Requires(assemblies[..i + 1], n, s) <==>
                Requires(assemblies[..i], n, s) || (n == assemblies[i].name && s in assemblies[i].required)
    {
      assert assemblies[i] in assemblies[..i + 1];
    }
  }

  /** Requirements of one more assembly add edges to the providers of these. */
  lemma NeedsNext(assemblies: seq<Assembly>, i: nat, u: string, v: string)
    requires i < |assemblies|
    ensures NeedsOf(assemblies[..i + 1], assemblies, u, v) <==>
              || NeedsOf(assemblies[..i], assemblies, u, v)
              || (u == assemblies[i].name && Provides(assemblies, assemblies[i].required, v))
  {
    RequiresNext(assemblies, i);
  }

  ghost predicate Provides(assemblies: seq<Assembly>, services: seq<string>, provider: string) {
    exists s :: s in services && Provider(assemblies, s) == Some(provider)
  }

  lemma CircularMeans(e: Edges, assemblies: seq<Assembly>)
    requires NeedsGraph(e, assemblies)
    ensures Circular(assemblies) <==> !Acyclic(e)
  {
    if Circular(assemblies) {
      var w: seq<string> :| |w| > 1 && w[0] == w[|w| - 1] && forall i :: 0 < i < |w| ==> Needs(assemblies, w[i - 1], w[i]);
      assert Needs(assemblies, w[0], w[1]) && Edge(e, w[0], w[1]);
      assert ClosedWalk(e, w);
    }
    if !Acyclic(e) {
      var w :| ClosedWalk(e, w);
      assert forall i :: 0 < i < |w| ==> Edge(e, w[i - 1], w[i]);
    }
  }

  /** Adds the edges from one assembly; reports the first requirement that nothing provides. */
  method AddRequirements(graph: Dag.Graph<Assembly>, assembly: Assembly, mapped: map<string, string>,
                         ghost assemblies: seq<Assembly>) returns (missing: Option<string>)
    requires graph.Valid() && graph.edges.Keys == Names(assemblies) && assembly in assemblies
    requires forall s :: Provider(assemblies, s) == if s in mapped then Some(mapped[s]) else None
    modifies graph
    ensures graph.Valid() && graph.values == old(graph.values)
    ensures missing.Some? ==> missing.value in assembly.required && Provider(assemblies, missing.value).None?
    ensures missing.None? ==>
      && (forall s :: s in assembly.required ==> Provider(assemblies, s).Some?)
      && forall u, v :: Edge(graph.edges, u, v) <==>
           Edge(old(graph.edges), u, v) || (u == assembly.name && Provides(assemblies, assembly.required, v))
  {
    hide Closed, Edge;
    var required := assembly.required;
    for k := 0 to |required|
      invariant graph.Valid() && graph.values == old(graph.values)
      invariant forall u, v :: Edge(graph.edges, u, v) <==>
                  Edge(old(graph.edges), u, v) || (u == assembly.name && Provides(assemblies, required[..k], v))
      invariant forall s :: s in required[..k] ==> Provider(assemblies, s).Some?
    {
      assert required[..k + 1] == required[..k] + [required[k]];
      if required[k] !in mapped {
        return Some(required[k]);
      }
      graph.AddEdge(assembly.name, mapped[required[k]]);
    }
    assert required[..|required|] == required;
    return None;
  }

  method BuildGraph(assemblies: seq<Assembly>, mapped: map<string, string>)
    returns (graph: Dag.Graph<Assembly>, missing: Option<string>)
    requires forall s :: Provider(assemblies, s) == if s in mapped then Some(mapped[s]) else None
    ensures fresh(graph) && graph.Valid() && graph.values.Keys == Names(assemblies)
    ensures forall n :: n in graph.values ==> graph.values[n] in assemblies && graph.values[n].name == n
    ensures missing.Some? ==> Unprovided(assemblies, missing.value)
    ensures missing.None? ==> NeedsGraph(graph.edges, assemblies) && forall s :: !Unprovided(assemblies, s)
  {
    graph := new Dag.Graph();
    AddVertices(graph, assemblies);
    ghost var values := graph.values;
    assert forall u, v :: !Edge(graph.edges, u, v);
    NothingRequired(assemblies);
    hide Closed, Edge, NeedsOf, Requires, Names;
    for i := 0 to |assemblies|
      invariant graph.Valid() && graph.values == values
      invariant forall u, v :: Edge(graph.edges, u, v) <==> NeedsOf(assemblies[..i], assemblies, u, v)
      invariant forall n, s :: Requires(assemblies[..i], n, s) ==> Provider(assemblies, s).Some?
    {
      missing := AddRequirements(graph, assemblies[i], mapped, assemblies);
      if missing.Some? {
        IsRequired(assemblies, assemblies[i], missing.value);
        return;
      }
      RequiresNext(assemblies, i);
      ghost var some := assemblies[..i + 1];
      forall n, s | Requires(some, n, s) ensures Provider(assemblies, s).Some? {
        assert Requires(assemblies[..i], n, s) || s in assemblies[i].required;
      }
      forall u, v ensures Edge(graph.edges, u, v) <==> NeedsOf(assemblies[..i + 1], assemblies, u, v) {
        NeedsNext(assemblies, i, u, v);
      }
    }
    assert assemblies[..|assemblies|] == assemblies;
    GraphOf(graph.edges, assemblies);
    return graph, None;
  }

  method AddVertices(graph: Dag.Graph<Assembly>, assemblies: seq<Assembly>)
    requires graph.Valid() && graph.edges == map[] && graph.values == map[]
    modifies graph
    ensures graph.Valid() && graph.values.Keys == Names(assemblies)
    ensures forall n :: n in graph.values ==> graph.values[n] in assemblies && graph.values[n].name == n
    ensures forall u :: u in graph.edges ==> graph.edges[u] == []
  {
    for i := 0 to |assemblies|
      invariant graph.Valid() && graph.values.Keys == Names(assemblies[..i])
      invariant forall n :: n in graph.values ==> graph.values[n] in assemblies && graph.values[n].name == n
      invariant forall u :: u in graph.edges ==> graph.edges[u] == []
    {
      assert assemblies[..i + 1] == assemblies[..i] + [assemblies[i]];
      assert Names(assemblies[..i + 1]) == Names(assemblies[..i]) + {assemblies[i].name};
      graph.AddVertex(assemblies[i].name, assemblies[i]);
    }
    assert assemblies[..|assemblies|] == assemblies;
  }

  lemma NothingRequired(assemblies: seq<Assembly>)
    ensures forall n, s :: !Requires([], n, s)
    ensures forall u, v :: !NeedsOf([], assemblies, u, v)
  {
  }

  lemma IsRequired(assemblies: seq<Assembly>, a: Assembly, service: string)
    requires a in assemblies && service in a.required
    ensures Requires(assemblies, a.name, service)
  {
  }

  lemma GraphOf(e: Edges, assemblies: seq<Assembly>)
    requires e.Keys == Names(assemblies) && forall u, v :: Edge(e, u, v) <==> NeedsOf(assemblies, assemblies, u, v)
    ensures NeedsGraph(e, assemblies)
  {
  }

  ghost predicate MapsProviders(assemblies: seq<Assembly>, mapped: map<string, string>) {
    forall s :: Provider(assemblies, s) == if s in mapped then Some(mapped[s]) else None
  }

  /** The services are mapped to the assembly, the others as before. */
  ghost predicate MapsMore(before: map<string, string>, services: seq<string>, name: string, mapped: map<string, string>) {
    && (forall s :: s in mapped <==> s in before || s in services)
    && forall s :: s in mapped ==> mapped[s] == if s in services then name else before[s]
  }

  lemma ProvidersNext(assemblies: seq<Assembly>, i: nat, before: map<string, string>, mapped: map<string, string>)
    requires i < |assemblies| && MapsProviders(assemblies[..i], before)
    requires MapsMore(before, assemblies[i].provided, assemblies[i].name, mapped)
    ensures MapsProviders(assemblies[..i + 1], mapped)
  {
    assert assemblies[..i + 1][..i] == assemblies[..i];
  }

  class ServiceAssembler {
    var assemblies: seq<Assembly>
    /** The calls that were made. */
    var log: seq<Call>

    constructor ()
      ensures assemblies == [] && log == []
    {
      assemblies, log := [], [];
    }

    method Register(assembly: Assembly)
      modifies this
      ensures assemblies == old(assemblies) + [assembly] && log == old(log)
    {
      assemblies := assemblies + [assembly];
    }

    /** The assemblies by the services they provide. */
    method MapProviders() returns (mapped: map<string, string>)
      ensures forall s :: Provider(assemblies, s) == if s in mapped then Some(mapped[s]) else None
    {
      mapped := map[];
      for i := 0 to |assemblies|
        invariant MapsProviders(assemblies[..i], mapped)
      {
        var provided := assemblies[i].provided;
        ghost var before := mapped;
        for k := 0 to |provided|
          invariant MapsMore(before, provided[..k], assemblies[i].name, mapped)
        {
          assert provided[..k + 1] == provided[..k] + [provided[k]];
          mapped := mapped[provided[k] := assemblies[i].name];
        }
        assert provided[..|provided|] == provided;
        ProvidersNext(assemblies, i, before, mapped);
      }
      assert assemblies[..|assemblies|] == assemblies;
    }

    /** Calls the assemblies of one phase in order, up to the first failure. */
    method RunPhase(phase: Phase, order: seq<string>, fails: set<Call>) returns (failed: Option<Call>, ghost called: seq<Call>)
      modifies this`log
      ensures Called(CallsOf(phase, order), fails, called, failed) && log == old(log) + called
    {
      ghost var calls := CallsOf(phase, order);
      for i := 0 to |order|
        invariant log == old(log) + calls[..i]
        invariant forall c :: c in calls[..i] ==> c !in fails
      {
        var call := Call(phase, order[i]);
        assert calls[..i + 1] == calls[..i] + [call];
        log := log + [call];
        if call in fails {
          return Some(call), calls[..i + 1];
        }
      }
      assert calls[..|order|] == calls;
      return None, calls;
    }

    /** Initializes, prepares and starts all assemblies, each after those that provide what it requires. */
    method Assemble(fails: set<Call>) returns (r: Assembled, ghost order: seq<string>, ghost called: seq<Call>)
      modifies this
      ensures r.NotProvided? <==> exists s :: Unprovided(old(assemblies), s)
      ensures r.NotProvided? ==> Unprovided(old(assemblies), r.service)
      ensures r.Cycle? <==> (forall s :: !Unprovided(old(assemblies), s)) && Circular(old(assemblies))
      ensures r.NotProvided? || r.Cycle? ==> log == old(log)
      ensures r.Failed? || r.Done? ==>
        && StartOrder(old(assemblies), order) && log == old(log) + called
        && Called(Calls(order), fails, called, if r.Failed? then Some(r.call) else None)
      ensures if r.Done? then Reordered(old(assemblies), order, assemblies) else assemblies == old(assemblies)
    {
      hide Closed, NeedsGraph, Acyclic, Circular, StartOrder, IsTopological, Called, CallsOf, Unprovided, Names;
      order, called := [], [];
      var mapped := MapProviders();
      var graph, missing := BuildGraph(assemblies, mapped);
      if missing.Some? {
        r := NotProvided(missing.value);
        return;
      }
      var sorted := graph.TopologicalSort();
      CircularMeans(graph.edges, assemblies);
      if sorted.hasCycle {
        r := Cycle;
        return;
      }
      var reverseOrder := Reverse(sorted.order);
      order := reverseOrder;
      OrderOf(graph.edges, assemblies, sorted.order, order);
      var failed;
      failed, called := RunPhase(Init, reverseOrder, fails);
      if failed.Some? {
        CalledStops(CallsOf(Init, order), CallsOf(Prepare, order) + CallsOf(Start, order), fails, called, failed);
        assert Calls(order) == CallsOf(Init, order) + (CallsOf(Prepare, order) + CallsOf(Start, order));
        r := Failed(failed.value);
        return;
      }
      ghost var next;
      failed, next := RunPhase(Prepare, reverseOrder, fails);
      CalledThen(CallsOf(Init, order), CallsOf(Prepare, order), fails, called, next, failed);
      called := called + next;
      if failed.Some? {
        CalledStops(CallsOf(Init, order) + CallsOf(Prepare, order), CallsOf(Start, order), fails, called, failed);
        r := Failed(failed.value);
        return;
      }
      failed, next := RunPhase(Start, reverseOrder, fails);
      CalledThen(CallsOf(Init, order) + CallsOf(Prepare, order), CallsOf(Start, order), fails, called, next, failed);
      called := called + next;
      if failed.Some? {
        r := Failed(failed.value);
        return;
      }
      InGraph(assemblies, reverseOrder, graph.values.Keys);
      var values := graph.values;
      assemblies := seq(|reverseOrder|, i requires 0 <= i < |reverseOrder| => values[reverseOrder[i]]);
      r := Done;
    }
  }

  /** The same assemblies in the given order; of several with one name, one. */
  ghost predicate Reordered(assemblies: seq<Assembly>, order: seq<string>, after: seq<Assembly>) {
    |after| == |order| && forall i :: 0 <= i < |order| ==> after[i].name == order[i] && after[i] in assemblies
  }

  lemma InGraph(assemblies: seq<Assembly>, order: seq<string>, keys: set<string>)
    requires StartOrder(assemblies, order) && keys == Names(assemblies)
    ensures forall i :: 0 <= i < |order| ==> order[i] in keys
  {
    forall i | 0 <= i < |order| ensures order[i] in keys {
      assert order[i] in Elements(order);
    }
  }

  lemma OrderOf(e: Edges, assemblies: seq<Assembly>, order: seq<string>, reversed: seq<string>)
    requires NeedsGraph(e, assemblies) && IsTopological(e, order) && IsReverse(order, reversed)
    ensures StartOrder(assemblies, reversed)
  {
    var n := |order|;
    forall v ensures v in Elements(reversed) <==> v in Elements(order) {
      if v in order {
        var i :| 0 <= i < n && order[i] == v;
        assert reversed[n - 1 - i] == v;
      }
    }
    assert Elements(reversed) == Elements(order);
    forall i, j | 0 <= i < n && 0 <= j < n && Needs(assemblies, reversed[i], reversed[j]) ensures j < i {
      assert Edge(e, order[n - 1 - i], order[n - 1 - j]);
    }
  }

  /** A phase without failures is followed by the next one. */
  lemma CalledThen(first: seq<Call>, second: seq<Call>, fails: set<Call>, called: seq<Call>, next: seq<Call>, failed: Option<Call>)
    requires Called(first, fails, called, None) && Called(second, fails, next, failed)
    ensures Called(first + second, fails, called + next, failed)
  {
    if failed.Some? {
      assert (called + next)[..|called + next| - 1] == called + next[..|next| - 1];
    }
  }

  /** A phase with a failure is not followed by anything. */
  lemma CalledStops(first: seq<Call>, second: seq<Call>, fails: set<Call>, called: seq<Call>, failed: Option<Call>)
    requires Called(first, fails, called, failed) && failed.Some?
    ensures Called(first + second, fails, called, failed)
  {
    assert (first + second)[..|called|] == called;
  }
}
