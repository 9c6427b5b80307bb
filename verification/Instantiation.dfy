/** Building an orchestration from a definition (InstantiateOrchestration in pmanager/api/types.go): activities are
    grouped into steps by the parallel levels of their dependency graph, in reverse. */
module Instantiation {
  import opened Options
  import opened Orchestrations
  import opened Slices
  import opened Graphs
  import opened Levels
  import Dag
  import Engine

  datatype Instantiated =
    | Ok(orchestration: Orchestration)
    | NoDefinition
    | DependencyNotFound(dependency: Id)
    | CycleDetected(path: seq<Id>)

  function Ids(activities: seq<Activity>): set<Id> {
    StepIds(activities)
  }

  ghost predicate DependsOn(activities: seq<Activity>, id: Id, dependency: Id) {
    exists a :: a in activities && a.id == id && dependency in a.dependsOn
  }

  ghost predicate Missing(activities: seq<Activity>, dependency: Id) {
    dependency !in Ids(activities) && exists id :: DependsOn(activities, id, dependency)
  }

  /** Following dependencies leads from some activity back to it. */
  ghost predicate Cyclic(activities: seq<Activity>) {
    exists w: seq<Id> :: |w| > 1 && w[0] == w[|w| - 1] && forall i :: 0 < i < |w| ==> DependsOn(activities, w[i - 1], w[i])
  }

  /** The first of the activities that have its ID. */
  ghost predicate IsFirst(activities: seq<Activity>, a: Activity) {
    exists k :: 0 <= k < |activities| && activities[k] == a && forall j :: 0 <= j < k ==> activities[j].id != a.id
  }

  /** Any division into groups in which dependencies come in earlier groups. */
  ghost predicate Schedule(activities: seq<Activity>, groups: seq<set<Id>>) {
    && (forall id :: id in Ids(activities) ==> exists i :: 0 <= i < |groups| && id in groups[i])
    && forall i, j, id, d :: 0 <= i < |groups| && 0 <= j < |groups| ==>
         id in groups[i] && d in groups[j] && DependsOn(activities, id, d) ==> j < i
  }

  // ----- The dependency graph -----

  /** The graph has an edge from each activity to each of its dependencies. */
  ghost predicate DependencyGraph(e: Edges, activities: seq<Activity>) {
    && e.Keys == Ids(activities)
    && forall u, v :: Edge(e, u, v) <==> DependsOn(activities, u, v)
  }

  lemma CyclicMeans(e: Edges, activities: seq<Activity>)
    requires DependencyGraph(e, activities)
    ensures Cyclic(activities) <==> !Acyclic(e)
  {
    if Cyclic(activities) {
      var w: seq<Id> :| |w| > 1 && w[0] == w[|w| - 1] && forall i :: 0 < i < |w| ==> DependsOn(activities, w[i - 1], w[i]);
      assert DependsOn(activities, w[0], w[1]) && Edge(e, w[0], w[1]);
      assert ClosedWalk(e, w);
    }
    if !Acyclic(e) {
      var w :| ClosedWalk(e, w);
      assert forall i :: 0 < i < |w| ==> Edge(e, w[i - 1], w[i]);
    }
  }

  lemma DependsOnNext(activities: seq<Activity>, i: nat)
    requires i < |activities|
    ensures forall u, v :: DependsOn(activities[..i + 1], u, v) <==>
              DependsOn(activities[..i], u, v) || (u == activities[i].id && v in activities[i].dependsOn)
  {
    assert activities[..i + 1] == activities[..i] + [activities[i]];
    forall u, v
      ensures DependsOn(activities[..i + 1], u, v) <==>
                DependsOn(activities[..i], u, v) || (u == activities[i].id && v in activities[i].dependsOn)
    {
      assert activities[i] in activities[..i + 1];
    }
  }

  lemma IdsNext(activities: seq<Activity>, i: nat)
    requires i < |activities|
    ensures Ids(activities[..i + 1]) == Ids(activities[..i]) + {activities[i].id}
  {
    assert activities[..i + 1] == activities[..i] + [activities[i]];
  }

  /** The values of the vertices: for each ID the first activity that has it. */
  ghost predicate FirstValues(values: map<Id, Activity>, activities: seq<Activity>) {
    forall id :: id in values ==> values[id].id == id && IsFirst(activities, values[id])
  }

  lemma FirstValuesNext(values: map<Id, Activity>, activities: seq<Activity>, i: nat)
    requires i < |activities| && values.Keys == Ids(activities[..i]) && FirstValues(values, activities)
    ensures activities[i].id !in values ==> FirstValues(values[activities[i].id := activities[i]], activities)
  {
    if activities[i].id !in values {
      assert forall j :: 0 <= j < i ==> activities[j] in activities[..i];
      assert IsFirst(activities, activities[i]);
    }
  }

  /** The vertices of the first `i` activities, without edges. */
  ghost predicate VerticesUpTo(values: map<Id, Activity>, e: Edges, activities: seq<Activity>, i: nat)
    requires i <= |activities|
  {
    && values.Keys == Ids(activities[..i]) && FirstValues(values, activities)
    && forall u :: u in e ==> e[u] == []
  }

  lemma NextVertex(values: map<Id, Activity>, e: Edges, activities: seq<Activity>, i: nat)
    requires i < |activities| && VerticesUpTo(values, e, activities, i)
    ensures
      var a := activities[i];
      if a.id in values then VerticesUpTo(values, e, activities, i + 1)
      else VerticesUpTo(values[a.id := a], e[a.id := []], activities, i + 1)
  {
    IdsNext(activities, i);
    FirstValuesNext(values, activities, i);
  }

  method AddVertices(graph: Dag.Graph<Activity>, activities: seq<Activity>)
    requires graph.Valid() && graph.edges == map[] && graph.values == map[]
    modifies graph
    ensures graph.Valid() && graph.values.Keys == Ids(activities) && FirstValues(graph.values, activities)
    ensures forall u :: u in graph.edges ==> graph.edges[u] == []
  {
    assert VerticesUpTo(graph.values, graph.edges, activities, 0);
    hide VerticesUpTo, Closed;
    for i := 0 to |activities|
      invariant graph.Valid() && VerticesUpTo(graph.values, graph.edges, activities, i)
    {
      NextVertex(graph.values, graph.edges, activities, i);
      graph.AddVertex(activities[i].id, activities[i]);
    }
    AllVertices(graph.values, graph.edges, activities);
  }

  lemma AllVertices(values: map<Id, Activity>, e: Edges, activities: seq<Activity>)
    requires VerticesUpTo(values, e, activities, |activities|)
    ensures values.Keys == Ids(activities) && FirstValues(values, activities) && forall u :: u in e ==> e[u] == []
  {
    assert activities[..|activities|] == activities;
  }

  /** The edges of `e` lead to the dependencies of some of the activities, which are all vertices. */
  ghost predicate EdgesOf(e: Edges, some: seq<Activity>) {
    && (forall u, v :: Edge(e, u, v) <==> DependsOn(some, u, v))
    && (forall u, v :: DependsOn(some, u, v) ==> v in e)
  }

  /** `next` has the edges of one more activity. */
  ghost predicate EdgesAdded(e: Edges, next: Edges, activity: Activity) {
    && next.Keys == e.Keys
    && (forall d :: d in activity.dependsOn ==> d in e)
    && forall u, v :: Edge(next, u, v) <==> Edge(e, u, v) || (u == activity.id && v in activity.dependsOn)
  }

  lemma EdgesNext(e: Edges, next: Edges, activities: seq<Activity>, i: nat)
    requires i < |activities| && EdgesOf(e, activities[..i]) && EdgesAdded(e, next, activities[i])
    ensures EdgesOf(next, activities[..i + 1])
  {
    hide DependsOn, Edge;
    DependsOnNext(activities, i);
    var some := activities[..i + 1];
    forall u, v ensures (Edge(next, u, v) <==> DependsOn(some, u, v)) && (DependsOn(some, u, v) ==> v in next) {
      assert DependsOn(some, u, v) <==>
        DependsOn(activities[..i], u, v) || (u == activities[i].id && v in activities[i].dependsOn);
    }
  }

  lemma AllEdgesOf(e: Edges, activities: seq<Activity>)
    requires EdgesOf(e, activities) && e.Keys == Ids(activities)
    ensures DependencyGraph(e, activities) && forall d :: !Missing(activities, d)
  {
    hide DependsOn, Edge;
  }

  /** Adds the edges of one activity; reports the first dependency that does not exist. */
  method AddDependencies(graph: Dag.Graph<Activity>, activity: Activity) returns (missing: Option<Id>)
    requires graph.Valid() && activity.id in graph.values
    modifies graph
    ensures graph.Valid() && graph.values == old(graph.values)
    ensures missing.Some? ==> missing.value in activity.dependsOn && missing.value !in graph.values
    ensures missing.None? ==> EdgesAdded(old(graph.edges), graph.edges, activity)
  {
    hide Closed, Edge;
    var dependsOn := activity.dependsOn;
    for k := 0 to |dependsOn|
      invariant graph.Valid() && graph.values == old(graph.values)
      invariant forall u, v :: Edge(graph.edges, u, v) <==>
                  Edge(old(graph.edges), u, v) || (u == activity.id && v in dependsOn[..k])
      invariant forall d :: d in dependsOn[..k] ==> d in graph.values
    {
      assert dependsOn[..k + 1] == dependsOn[..k] + [dependsOn[k]];
      if dependsOn[k] !in graph.values {
        return Some(dependsOn[k]);
      }
      graph.AddEdge(activity.id, dependsOn[k]);
    }
    assert dependsOn[..|dependsOn|] == dependsOn;
    return None;
  }

  method BuildGraph(activities: seq<Activity>) returns (graph: Dag.Graph<Activity>, missing: Option<Id>)
    ensures fresh(graph) && graph.Valid()
    ensures missing.Some? ==> Missing(activities, missing.value)
    ensures missing.None? ==> DependencyGraph(graph.edges, activities) && forall d :: !Missing(activities, d)
    ensures graph.values.Keys == Ids(activities) && FirstValues(graph.values, activities)
  {
    hide Closed, FirstValues, DependsOn, Edge, EdgesOf, EdgesAdded, DependencyGraph, Ids, StepIds;
    graph := new Dag.Graph();
    AddVertices(graph, activities);
    NoEdgesYet(graph.edges);
    for i := 0 to |activities|
      invariant fresh(graph) && graph.Valid()
      invariant graph.values.Keys == Ids(activities) && FirstValues(graph.values, activities)
      invariant EdgesOf(graph.edges, activities[..i])
    {
      ghost var before := graph.edges;
      IsActivity(activities, i);
      missing := AddDependencies(graph, activities[i]);
      if missing.Some? {
        IsDependency(activities, activities[i], missing.value);
        return;
      }
      EdgesNext(before, graph.edges, activities, i);
    }
    assert activities[..|activities|] == activities;
    AllEdgesOf(graph.edges, activities);
    return graph, None;
  }

  lemma NoEdgesYet(e: Edges)
    requires forall u :: u in e ==> e[u] == []
    ensures EdgesOf(e, [])
  {
    NoDependencies();
    hide DependsOn;
  }

  lemma IsActivity(activities: seq<Activity>, i: nat)
    requires i < |activities|
    ensures activities[i].id in Ids(activities)
  {
  }

  lemma NoDependencies()
    ensures forall u, v :: !DependsOn([], u, v)
  {
  }

  lemma IsDependency(activities: seq<Activity>, a: Activity, d: Id)
    requires a in activities && d in a.dependsOn
    ensures DependsOn(activities, a.id, d) && a.id in Ids(activities)
  {
  }

  // ----- The steps -----

  function StepOf(values: map<Id, Activity>, vertices: seq<Id>): (step: Step)
    requires forall v :: v in vertices ==> v in values && values[v].id == v
    ensures |step| == |vertices| && StepIds(step) == Elements(vertices)
    ensures forall k :: 0 <= k < |step| ==> step[k] == values[vertices[k]]
  {
    if |vertices| == 0 then []
    else
      var step := [values[vertices[0]]] + StepOf(values, vertices[1..]);
      assert Elements(vertices) == {vertices[0]} + Elements(vertices[1..]);
      assert StepIds(step) == {values[vertices[0]].id} + StepIds(step[1..]);
      step
  }

  ghost predicate IsStepOf(step: Step, vertices: seq<Id>, values: map<Id, Activity>) {
    && |step| == |vertices| && StepIds(step) == Elements(vertices)
    && forall a :: a in step ==> a.id in values && a == values[a.id]
  }

  /** Step `i` holds the activities of level `n - 1 - i`. */
  ghost predicate StepsOf(steps: seq<Step>, levels: seq<ParallelLevel>, values: map<Id, Activity>) {
    && |steps| == |levels|
    && forall i :: 0 <= i < |steps| ==> IsStepOf(steps[i], levels[|levels| - 1 - i].vertices, values)
  }

  lemma InStepIsInLevel(steps: seq<Step>, levels: seq<ParallelLevel>, values: map<Id, Activity>, i: int, id: Id)
    requires StepsOf(steps, levels, values)
    ensures InStep(steps, i, id) <==> InLevel(levels, |levels| - 1 - i, id)
  {
  }

  lemma WellFormedSteps(e: Edges, activities: seq<Activity>, levels: seq<ParallelLevel>, values: map<Id, Activity>,
                        steps: seq<Step>)
    requires DependencyGraph(e, activities) && Leveled(e, levels, {}) && |activities| > 0 && Closed(e)
    requires FirstValues(values, activities) && StepsOf(steps, levels, values)
    ensures WellFormed(steps)
  {
    NonEmptySteps(e, activities, levels, values, steps);
    hide DependencyGraph, Leveled, FirstValues, StepsOf, Closed, InStep;
    forall i, j, id | InStep(steps, i, id) && InStep(steps, j, id) ensures i == j {
      OneStep(e, levels, values, steps, i, j, id);
    }
    forall i, k, d | 0 <= i < |steps| && 0 <= k < |steps[i]| && d in steps[i][k].dependsOn
      ensures exists j :: 0 <= j < i && InStep(steps, j, d)
    {
      HoldsItself(steps, i, k);
      DependencyBefore(e, activities, levels, values, steps, i, steps[i][k], d);
    }
  }

  lemma HoldsItself(steps: seq<Step>, i: nat, k: nat)
    requires i < |steps| && k < |steps[i]|
    ensures steps[i][k] in steps[i] && InStep(steps, i, steps[i][k].id)
  {
  }

  lemma NonEmptySteps(e: Edges, activities: seq<Activity>, levels: seq<ParallelLevel>, values: map<Id, Activity>,
                      steps: seq<Step>)
    requires DependencyGraph(e, activities) && Leveled(e, levels, {}) && |activities| > 0
    requires StepsOf(steps, levels, values)
    ensures |steps| > 0 && forall i :: 0 <= i < |steps| ==> |steps[i]| > 0
  {
    assert activities[0] in activities && activities[0].id in e;
    OneLevel(e, levels, activities[0].id);
    hide Disjoint, Supported, Covered, Tight, DependencyGraph;
    forall i | 0 <= i < |steps| ensures |steps[i]| > 0 {
      assert levels[|levels| - 1 - i].vertices != [];
    }
  }

  lemma OneStep(e: Edges, levels: seq<ParallelLevel>, values: map<Id, Activity>, steps: seq<Step>, i: int, j: int, id: Id)
    requires Leveled(e, levels, {}) && StepsOf(steps, levels, values) && InStep(steps, i, id) && InStep(steps, j, id)
    ensures i == j
  {
    InStepIsInLevel(steps, levels, values, i, id);
    InStepIsInLevel(steps, levels, values, j, id);
    hide Leveled, StepsOf, InStep, InLevel;
    SameLevel(e, levels, |levels| - 1 - i, |levels| - 1 - j, id);
  }

  lemma SameLevel(e: Edges, levels: seq<ParallelLevel>, j: int, k: int, v: Id)
    requires Leveled(e, levels, {}) && InLevel(levels, j, v) && InLevel(levels, k, v)
    ensures j == k
  {
  }

  lemma DependencyBefore(e: Edges, activities: seq<Activity>, levels: seq<ParallelLevel>, values: map<Id, Activity>,
                         steps: seq<Step>, i: nat, a: Activity, d: Id)
    requires DependencyGraph(e, activities) && Leveled(e, levels, {})
    requires FirstValues(values, activities) && StepsOf(steps, levels, values) && Closed(e)
    requires InStep(steps, i, a.id) && a in steps[i] && d in a.dependsOn
    ensures exists j :: 0 <= j < i && InStep(steps, j, d)
  {
    hide DependencyGraph, Leveled, FirstValues;
    DependencyEdge(e, activities, values, a, d);
    InStepIsInLevel(steps, levels, values, i, a.id);
    DependencyAbove(e, levels, |levels| - 1 - i, a.id, d);
    var k :| |levels| - 1 - i < k < |levels| && InLevel(levels, k, d);
    InStepIsInLevel(steps, levels, values, |levels| - 1 - k, d);
  }

  lemma DependencyEdge(e: Edges, activities: seq<Activity>, values: map<Id, Activity>, a: Activity, d: Id)
    requires DependencyGraph(e, activities) && FirstValues(values, activities) && Closed(e)
    requires a.id in values && values[a.id] == a && d in a.dependsOn
    ensures Edge(e, a.id, d) && d in e
  {
    assert IsFirst(activities, a) && a in activities;
    assert DependsOn(activities, a.id, d);
  }

  lemma DependencyAbove(e: Edges, levels: seq<ParallelLevel>, j: nat, u: Id, v: Id)
    requires Leveled(e, levels, {}) && InLevel(levels, j, u) && Edge(e, u, v) && v in e
    ensures exists k :: j < k < |levels| && InLevel(levels, k, v)
  {
    OneLevel(e, levels, v);
    var k :| InLevel(levels, k, v);
    EdgesLeadUp(e, levels, j, k, u, v);
  }

  function InReverse(groups: seq<set<Id>>): (r: seq<set<Id>>)
    ensures |r| == |groups| && forall i :: 0 <= i < |r| ==> r[i] == groups[|groups| - 1 - i]
  {
    seq(|groups|, i requires 0 <= i < |groups| => groups[|groups| - 1 - i])
  }

  /** Dependencies come in earlier groups, so the groups in reverse are a grouping of the graph. */
  lemma ReverseSchedule(e: Edges, activities: seq<Activity>, groups: seq<set<Id>>)
    requires DependencyGraph(e, activities) && Schedule(activities, groups)
    ensures Grouping(e, InReverse(groups))
  {
    hide DependsOn, Edge;
    var n := |groups|;
    var reversed := InReverse(groups);
    hide InReverse;
    forall v | v in e ensures exists i :: 0 <= i < n && v in reversed[i] {
      var i :| 0 <= i < n && v in groups[i];
      assert reversed[n - 1 - i] == groups[i];
    }
    forall i, j, u, v | 0 <= i < n && 0 <= j < n && u in reversed[i] && v in reversed[j] && Edge(e, u, v) ensures i < j {
      assert DependsOn(activities, u, v) && u in groups[n - 1 - i] && v in groups[n - 1 - j];
    }
  }

  lemma FewestSteps(e: Edges, activities: seq<Activity>, levels: seq<ParallelLevel>, groups: seq<set<Id>>)
    requires DependencyGraph(e, activities) && Closed(e) && Leveled(e, levels, {}) && Schedule(activities, groups)
    ensures |levels| <= |groups|
  {
    hide DependencyGraph, Closed, Leveled, Schedule, Grouping;
    ReverseSchedule(e, activities, groups);
    FewestLevels(e, levels, InReverse(groups));
  }

  lemma CoversAll(e: Edges, activities: seq<Activity>, levels: seq<ParallelLevel>, values: map<Id, Activity>,
                  steps: seq<Step>, a: Activity)
    requires DependencyGraph(e, activities) && Leveled(e, levels, {}) && StepsOf(steps, levels, values)
    requires values.Keys == Ids(activities) && FirstValues(values, activities)
    ensures (exists i :: 0 <= i < |steps| && a in steps[i]) <==> IsFirst(activities, a)
  {
    hide DependencyGraph, Leveled, StepsOf, FirstValues, Ids, IsFirst;
    if IsFirst(activities, a) {
      FirstIsInStep(e, activities, levels, values, steps, a);
    }
    if i :| 0 <= i < |steps| && a in steps[i] {
      StepHoldsFirst(levels, activities, values, steps, i, a);
    }
  }

  lemma StepHoldsFirst(levels: seq<ParallelLevel>, activities: seq<Activity>, values: map<Id, Activity>, steps: seq<Step>,
                       i: nat, a: Activity)
    requires StepsOf(steps, levels, values) && FirstValues(values, activities) && i < |steps| && a in steps[i]
    ensures a.id in values && a == values[a.id] && IsFirst(activities, a)
  {
    assert IsStepOf(steps[i], levels[|levels| - 1 - i].vertices, values);
    hide IsFirst;
  }

  lemma FirstIsInStep(e: Edges, activities: seq<Activity>, levels: seq<ParallelLevel>, values: map<Id, Activity>,
                      steps: seq<Step>, a: Activity)
    requires DependencyGraph(e, activities) && Leveled(e, levels, {}) && StepsOf(steps, levels, values)
    requires FirstValues(values, activities) && IsFirst(activities, a)
    ensures exists i :: 0 <= i < |steps| && a in steps[i]
  {
    assert a in activities && a.id in e;
    hide DependencyGraph, Leveled, StepsOf, FirstValues, IsFirst;
    OneLevel(e, levels, a.id);
    var k :| InLevel(levels, k, a.id);
    var i := |levels| - 1 - k;
    InStepIsInLevel(steps, levels, values, i, a.id);
    SameSize(steps, levels, values);
    var b :| b in steps[i] && b.id == a.id;
    StepHoldsFirst(levels, activities, values, steps, i, b);
    OneFirst(activities, a, b);
  }

  lemma OneFirst(activities: seq<Activity>, a: Activity, b: Activity)
    requires IsFirst(activities, a) && IsFirst(activities, b) && a.id == b.id
    ensures a == b
  {
  }

  lemma IsStep(values: map<Id, Activity>, vertices: seq<Id>)
    requires forall v :: v in vertices ==> v in values && values[v].id == v
    ensures IsStepOf(StepOf(values, vertices), vertices, values)
  {
    var step := StepOf(values, vertices);
    forall a | a in step ensures a.id in values && a == values[a.id] {
      var k :| 0 <= k < |step| && step[k] == a;
    }
  }

  lemma StepsReversed(steps: seq<Step>, levels: seq<ParallelLevel>, reversed: seq<ParallelLevel>, values: map<Id, Activity>)
    requires IsReverse(levels, reversed) && |steps| == |levels|
    requires forall k :: 0 <= k < |steps| ==> IsStepOf(steps[k], reversed[k].vertices, values)
    ensures StepsOf(steps, levels, values)
  {
  }

  lemma VerticesOf(e: Edges, levels: seq<ParallelLevel>, k: nat, values: map<Id, Activity>, activities: seq<Activity>)
    requires Leveled(e, levels, {}) && k < |levels| && values.Keys == Ids(activities)
    requires DependencyGraph(e, activities) && FirstValues(values, activities)
    ensures forall v :: v in levels[k].vertices ==> v in values && values[v].id == v
  {
    forall v | v in levels[k].vertices ensures v in values && values[v].id == v {
      assert InLevel(levels, k, v);
      assert Below(levels, |levels|, v);
    }
  }

  lemma NoSteps(e: Edges, activities: seq<Activity>, levels: seq<ParallelLevel>)
    requires DependencyGraph(e, activities) && Leveled(e, levels, {}) && activities == []
    ensures levels == []
  {
    if levels != [] {
      assert InLevel(levels, 0, levels[0].vertices[0]);
      assert Below(levels, |levels|, levels[0].vertices[0]);
      assert false;
    }
  }

  /** Each activity of the path depends on the next; the last is the first, and no other occurs twice. */
  ghost predicate IsDependencyCycle(activities: seq<Activity>, path: seq<Id>) {
    && |path| > 1 && path[0] == path[|path| - 1] && NoRepeats(path[1..])
    && forall i :: 0 < i < |path| ==> DependsOn(activities, path[i - 1], path[i])
  }

  lemma CycleOfDependencies(e: Edges, activities: seq<Activity>, path: seq<Id>)
    requires DependencyGraph(e, activities) && IsCycle(e, path)
    ensures IsDependencyCycle(activities, path)
  {
    forall i | 0 < i < |path| ensures DependsOn(activities, path[i - 1], path[i]) {
      assert Edge(e, path[i - 1], path[i]);
    }
  }

  /** Turns the levels into steps, the last level first. */
  method BuildSteps(values: map<Id, Activity>, levels: seq<ParallelLevel>, ghost e: Edges, ghost activities: seq<Activity>)
    returns (steps: seq<Step>)
    requires Leveled(e, levels, {}) && values.Keys == Ids(activities)
    requires DependencyGraph(e, activities) && FirstValues(values, activities)
    ensures StepsOf(steps, levels, values)
  {
    hide Leveled, DependencyGraph, FirstValues, IsStepOf, IsReverse;
    var reversed := Reverse(levels);
    ReverseAt(levels, reversed);
    steps := [];
    for i := 0 to |reversed|
      invariant |steps| == i
      invariant forall k :: 0 <= k < i ==> IsStepOf(steps[k], reversed[k].vertices, values)
    {
      VerticesOf(e, levels, |levels| - 1 - i, values, activities);
      steps := steps + [StepOf(values, reversed[i].vertices)];
      IsStep(values, reversed[i].vertices);
    }
    StepsReversed(steps, levels, reversed, values);
  }

  lemma ReverseAt(levels: seq<ParallelLevel>, reversed: seq<ParallelLevel>)
    requires IsReverse(levels, reversed)
    ensures |reversed| == |levels|
    ensures forall i :: 0 <= i < |levels| ==> reversed[i] == levels[|levels| - 1 - i]
  {
  }

  /** The steps hold for each ID the first activity that has it, and no schedule has fewer groups. */
  ghost predicate StepsRight(steps: seq<Step>, activities: seq<Activity>) {
    && (if |activities| > 0 then WellFormed(steps) else steps == [])
    && (forall a :: (exists i :: 0 <= i < |steps| && a in steps[i]) <==> IsFirst(activities, a))
    && (forall groups :: Schedule(activities, groups) ==> |steps| <= |groups|)
  }

  lemma StepsAreRight(e: Edges, activities: seq<Activity>, levels: seq<ParallelLevel>, values: map<Id, Activity>,
                      steps: seq<Step>)
    requires DependencyGraph(e, activities) && Leveled(e, levels, {}) && Closed(e)
    requires values.Keys == Ids(activities) && FirstValues(values, activities) && StepsOf(steps, levels, values)
    ensures StepsRight(steps, activities)
  {
    SameSize(steps, levels, values);
    hide DependencyGraph, Leveled, FirstValues, Closed, StepsOf, Schedule, IsFirst, WellFormed;
    if |activities| > 0 {
      WellFormedSteps(e, activities, levels, values, steps);
    } else {
      NoSteps(e, activities, levels);
    }
    forall a ensures (exists i :: 0 <= i < |steps| && a in steps[i]) <==> IsFirst(activities, a) {
      CoversAll(e, activities, levels, values, steps, a);
    }
    forall groups | Schedule(activities, groups) ensures |steps| <= |groups| {
      FewestSteps(e, activities, levels, groups);
    }
  }

  lemma SameSize(steps: seq<Step>, levels: seq<ParallelLevel>, values: map<Id, Activity>)
    requires StepsOf(steps, levels, values)
    ensures |steps| == |levels|
  {
  }

  /** The payload is the processing data; there is no output yet. */
  function InitialData(data: map<string, string>): (r: Data)
    ensures forall k :: Processing(k) in r <==> k in data
    ensures forall key :: key in r ==> key.Processing? && r[key] == data[key.key]
  {
    map k | k in data :: Processing(k) := data[k]
  }

  /** Validates the dependencies and organizes the activities into steps. */
  method InstantiateOrchestration(definitionID: Id, activities: seq<Activity>, data: map<string, string>)
    returns (r: Instantiated)
    ensures r.NoDefinition? <==> definitionID == ""
    ensures r.DependencyNotFound? <==> definitionID != "" && exists d :: Missing(activities, d)
    ensures r.DependencyNotFound? ==> Missing(activities, r.dependency)
    ensures r.CycleDetected? <==> definitionID != "" && (forall d :: !Missing(activities, d)) && Cyclic(activities)
    ensures r.CycleDetected? ==> IsDependencyCycle(activities, r.path)
    ensures r.Ok? ==> StepsRight(r.orchestration.steps, activities)
    ensures r.Ok? && |activities| > 0 ==> Engine.Fresh(r.orchestration)
    ensures r.Ok? ==>
      r.orchestration.state.Initialized? && r.orchestration.completed == {} && r.orchestration.retries == map[]
    ensures r.Ok? ==> r.orchestration.data == InitialData(data)
  {
    if definitionID == "" {
      return NoDefinition;
    }
    hide DependencyGraph, Leveled, FirstValues, StepsOf, StepsRight, Acyclic, Cyclic, Missing, IsCycle, IsTopological,
      WellFormed, Engine.Fresh, IsDependencyCycle, InitialData;
    var graph, missing := BuildGraph(activities);
    if missing.Some? {
      return DependencyNotFound(missing.value);
    }
    var sorted := graph.ParallelTopologicalSort();
    CyclicMeans(graph.edges, activities);
    if sorted.sort.hasCycle {
      CycleOfDependencies(graph.edges, activities, sorted.sort.cyclePath);
      return CycleDetected(sorted.sort.cyclePath);
    }
    var steps := BuildSteps(graph.values, sorted.levels, graph.edges, activities);
    StepsAreRight(graph.edges, activities, sorted.levels, graph.values, steps);
    var o := Orchestration(steps, Initialized, {}, InitialData(data), map[]);
    if |activities| > 0 {
      RightIsFresh(o, activities);
    }
    return Ok(o);
  }

  lemma RightIsFresh(o: Orchestration, activities: seq<Activity>)
    requires StepsRight(o.steps, activities) && |activities| > 0
    requires o.state.Initialized? && o.completed == {} && o.retries == map[]
    ensures Engine.Fresh(o)
  {
  }
}
