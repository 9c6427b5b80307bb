/** The graph kernel (common/dag/dag.go): depth-first cycle detection that reconstructs the cycle, Kahn's topological
    sort, and the grouping of vertices into parallel levels. The iteration order of maps is arbitrary. */
module Dag {
  import opened Slices
  import opened Graphs
  import opened Levels

  datatype VisitState = Unvisited | Visiting | Visited

  type Visits = map<string, VisitState>

  function Rest(visits: Visits): set<string> {
    set u | u in visits && visits[u].Unvisited?
  }

  // ----- What the search keeps -----

  /** `stack` is the walk from the start of the search to the current vertex; each vertex has the one before it as its
      parent. */
  ghost predicate Chain(e: Edges, parent: map<string, string>, stack: seq<string>) {
    && NoRepeats(stack) && (forall i :: 0 <= i < |stack| ==> stack[i] in e)
    && (forall i :: 0 < i < |stack| ==>
          Edge(e, stack[i - 1], stack[i]) && stack[i] in parent && parent[stack[i]] == stack[i - 1])
  }

  /** `rank` numbers vertices from 0, and along the edges from a numbered vertex the number goes down. */
  ghost predicate Numbered(e: Edges, rank: map<string, nat>) {
    && (forall u :: u in rank ==> u in e && rank[u] < |rank|)
    && (forall u, v :: u in rank && Edge(e, u, v) ==> v in rank && rank[v] < rank[u])
  }

  /** The vertices being visited are those on the stack, and the visited ones are numbered in the order in which their
      visits ended. */
  ghost predicate Consistent(e: Edges, visits: Visits, parent: map<string, string>, rank: map<string, nat>,
                             stack: seq<string>) {
    && Closed(e) && visits.Keys == e.Keys
    && Chain(e, parent, stack) && Numbered(e, rank)
    && (forall u :: u in e ==> (visits[u].Visiting? <==> u in stack) && (visits[u].Visited? <==> u in rank))
  }

  lemma Enter(e: Edges, visits: Visits, parent: map<string, string>, rank: map<string, nat>, stack: seq<string>, u: string)
    requires Consistent(e, visits, parent, rank, stack) && u in e && visits[u].Unvisited?
    requires |stack| > 0 ==> Edge(e, stack[|stack| - 1], u) && u in parent && parent[u] == stack[|stack| - 1]
    ensures Consistent(e, visits[u := Visiting], parent, rank, stack + [u])
    ensures Rest(visits[u := Visiting]) == Rest(visits) - {u} && u in Rest(visits)
  {
    assert Chain(e, parent, stack + [u]);
    hide Chain, Numbered;
  }

  lemma Link(e: Edges, visits: Visits, parent: map<string, string>, rank: map<string, nat>, stack: seq<string>,
             u: string, v: string)
    requires Consistent(e, visits, parent, rank, stack) && v in e && visits[v].Unvisited?
    ensures Consistent(e, visits, parent[v := u], rank, stack)
  {
    assert v !in stack;
    assert Chain(e, parent[v := u], stack);
    hide Numbered;
  }

  lemma LeaveChain(e: Edges, parent: map<string, string>, stack: seq<string>, u: string)
    requires Chain(e, parent, stack + [u])
    ensures Chain(e, parent, stack) && u !in stack
  {
    assert u == (stack + [u])[|stack|] && forall i :: 0 <= i < |stack| ==> (stack + [u])[i] == stack[i];
  }

  lemma LeaveNumber(e: Edges, rank: map<string, nat>, u: string)
    requires Numbered(e, rank) && u in e && u !in rank && forall k :: 0 <= k < |e[u]| ==> e[u][k] in rank
    ensures Numbered(e, rank[u := |rank|])
  {
  }

  lemma Leave(e: Edges, visits: Visits, parent: map<string, string>, rank: map<string, nat>, stack: seq<string>, u: string)
    requires Consistent(e, visits, parent, rank, stack + [u]) && u in e
    requires forall k :: 0 <= k < |e[u]| ==> e[u][k] in rank
    ensures Consistent(e, visits[u := Visited], parent, rank[u := |rank|], stack)
    ensures Rest(visits[u := Visited]) == Rest(visits)
  {
    hide Chain, Numbered, Closed;
    assert forall w :: w in stack + [u] <==> w in stack || w == u;
    assert visits[u].Visiting?;
    LeaveChain(e, parent, stack, u);
    LeaveNumber(e, rank, u);
  }

  lemma SuccessorIn(e: Edges, visits: Visits, parent: map<string, string>, rank: map<string, nat>, stack: seq<string>,
                    u: string, v: string)
    requires Consistent(e, visits, parent, rank, stack) && Edge(e, u, v)
    ensures v in e
  {
  }

  lemma StateOf(e: Edges, visits: Visits, parent: map<string, string>, rank: map<string, nat>, stack: seq<string>, u: string)
    requires Consistent(e, visits, parent, rank, stack) && u in e
    ensures u in visits && (visits[u].Visiting? <==> u in stack) && (visits[u].Visited? <==> u in rank)
    ensures Closed(e) && Chain(e, parent, stack)
  {
  }

  /** The maps that one cycle detection updates. */
  class Search {
    const edges: Edges
    var visitState: Visits
    var parent: map<string, string>
    ghost var rank: map<string, nat>

    ghost predicate Valid(stack: seq<string>)
      reads this
    {
      Consistent(edges, visitState, parent, rank, stack)
    }

    constructor (edges: Edges)
      requires Closed(edges)
      ensures this.edges == edges && Valid([]) && rank == map[] && Rest(visitState) == edges.Keys
    {
      this.edges := edges;
      visitState := map u | u in edges :: Unvisited;
      parent := map[];
      rank := map[];
    }

    /** Follows the parents from `u` back to `v` and returns the cycle that the edge from `u` to `v` closes. */
    method TraceBack(u: string, v: string, ghost stack: seq<string>) returns (cycle: seq<string>)
      requires Chain(edges, parent, stack) && |stack| > 0 && u == stack[|stack| - 1]
      requires Edge(edges, u, v) && v in stack
      ensures IsCycle(edges, cycle)
    {
      ghost var j :| 0 <= j < |stack| && stack[j] == v;
      ghost var k := |stack| - 1;
      cycle := [v];
      var current := u;
      while current != v
        invariant j <= k < |stack| && current == stack[k]
        invariant |cycle| == |stack| - k && cycle[0] == v
        invariant forall i :: 1 <= i < |cycle| ==> cycle[i] == stack[|stack| - i]
        decreases k
      {
        cycle := cycle + [current];
        current := parent[current];
        k := k - 1;
      }
      assert k == j;
      cycle := cycle + [v];
      cycle := Reverse(cycle);
      assert cycle == stack[j..] + [v];
      ChainCloses(edges, parent, stack, j);
    }

    /** Visits everything that can be reached from `u`; reports a cycle if it meets one. */
    method DetectCycle(u: string, ghost stack: seq<string>) returns (hasCycle: bool, path: seq<string>)
      requires Valid(stack) && u in edges && u in visitState && visitState[u].Unvisited?
      requires |stack| > 0 ==>
        Edge(edges, stack[|stack| - 1], u) && u in parent && parent[u] == stack[|stack| - 1]
      modifies this
      ensures hasCycle ==> IsCycle(edges, path)
      ensures !hasCycle ==> Valid(stack) && u in rank && path == []
      ensures !hasCycle ==> old(rank).Keys <= rank.Keys && Rest(visitState) <= old(Rest(visitState)) - {u}
      decreases Rest(visitState)
    {
      hide Consistent, Chain, IsCycle, Closed;
      Enter(edges, visitState, parent, rank, stack, u);
      visitState := visitState[u := Visiting];
      ghost var inner := stack + [u];
      for i := 0 to |edges[u]|
        invariant Valid(inner) && Rest(visitState) <= old(Rest(visitState)) - {u}
        invariant forall k :: 0 <= k < i ==> edges[u][k] in rank
        invariant old(rank).Keys <= rank.Keys
      {
        var v := edges[u][i];
        assert Edge(edges, u, v);
        SuccessorIn(edges, visitState, parent, rank, inner, u, v);
        StateOf(edges, visitState, parent, rank, inner, v);
        if visitState[v].Visiting? {
          path := TraceBack(u, v, inner);
          return true, path;
        } else if visitState[v].Unvisited? {
          Link(edges, visitState, parent, rank, inner, u, v);
          parent := parent[v := u];
          hasCycle, path := DetectCycle(v, inner);
          if hasCycle {
            return true, path;
          }
        }
      }
      Leave(edges, visitState, parent, rank, stack, u);
      visitState := visitState[u := Visited];
      rank := rank[u := |rank|];
      return false, [];
    }
  }

  lemma AllNumbered(e: Edges, rank: map<string, nat>)
    requires Closed(e) && Numbered(e, rank) && rank.Keys == e.Keys
    ensures Ranked(e, rank)
  {
  }

  lemma ChainCloses(e: Edges, parent: map<string, string>, stack: seq<string>, j: nat)
    requires Chain(e, parent, stack) && j < |stack| && Edge(e, stack[|stack| - 1], stack[j])
    ensures IsCycle(e, stack[j..] + [stack[j]])
  {
    var c := stack[j..] + [stack[j]];
    assert forall i :: 0 <= i < |c| - 1 ==> c[i] == stack[j + i];
    forall i | 0 < i < |c| ensures Edge(e, c[i - 1], c[i]) {
      if i < |c| - 1 {
        assert Edge(e, stack[j + i - 1], stack[j + i]);
      }
    }
    assert c[1..] == stack[j + 1..] + [stack[j]];
  }

  // ----- The graph -----

  datatype SortResult = SortResult(order: seq<string>, hasCycle: bool, cyclePath: seq<string>)

  datatype ParallelSortResult = ParallelSortResult(sort: SortResult, levels: seq<ParallelLevel>)

  class Graph<T> {
    var values: map<string, T>
    var edges: Edges

    ghost predicate Valid()
      reads this
    {
      Closed(edges) && values.Keys == edges.Keys
    }

    constructor ()
      ensures Valid() && edges == map[] && values == map[]
    {
      values, edges := map[], map[];
    }

    /** Adds a vertex; the first value of an ID is kept. */
    method AddVertex(id: string, value: T)
      requires Valid()
      modifies this
      ensures Valid()
      ensures values == if id in old(values) then old(values) else old(values)[id := value]
      ensures edges == if id in old(values) then old(edges) else old(edges)[id := []]
    {
      if id !in values {
        values := values[id := value];
        edges := edges[id := []];
      }
    }

    /** Adds an edge unless it exists or one of its ends does not. */
    method AddEdge(from: string, to: string)
      requires Valid()
      modifies this
      ensures Valid() && values == old(values)
      ensures forall u, v :: Edge(edges, u, v) <==>
                Edge(old(edges), u, v) || (u == from && v == to && from in old(edges) && to in old(edges))
      ensures edges == if from !in old(edges) || to !in old(edges) || to in old(edges)[from] then old(edges)
                       else old(edges)[from := old(edges)[from] + [to]]
    {
      if from !in edges || to !in edges {
        return;
      }
      for i := 0 to |edges[from]|
        invariant edges == old(edges)
        invariant forall k :: 0 <= k < i ==> edges[from][k] != to
      {
        if edges[from][i] == to {
          return;
        }
      }
      edges := edges[from := edges[from] + [to]];
    }

    /** Searches from every vertex that was not visited yet. The graph has a cycle exactly if one is reported. */
    method DetectCycleWithPath() returns (hasCycle: bool, path: seq<string>, ghost rank: map<string, nat>)
      requires Valid()
      ensures hasCycle <==> !Acyclic(edges)
      ensures if hasCycle then IsCycle(edges, path) else path == [] && Ranked(edges, rank)
    {
      hide Consistent, Numbered, Closed, Chain;
      var search := new Search(edges);
      rank := map[];
      var rest := edges.Keys;
      while rest != {}
        invariant search.edges == edges && search.Valid([])
        invariant rest <= edges.Keys && edges.Keys - rest <= search.rank.Keys
        decreases rest
      {
        var id :| id in rest;
        StateOf(edges, search.visitState, search.parent, search.rank, [], id);
        if search.visitState[id].Unvisited? {
          hasCycle, path := search.DetectCycle(id, []);
          if hasCycle {
            return;
          }
        }
        rest := rest - {id};
      }
      rank := search.rank;
      RankOf(edges, search.visitState, search.parent, rank);
      RankedAcyclic(edges, rank);
      return false, [], rank;
    }

    /** Orders the vertices so that every edge leads forward, or reports a cycle. */
    method TopologicalSort() returns (r: SortResult)
      requires Valid()
      ensures r.hasCycle <==> !Acyclic(edges)
      ensures if r.hasCycle then r.order == [] && IsCycle(edges, r.cyclePath)
              else r.cyclePath == [] && IsTopological(edges, r.order)
    {
      hide Closed, In, Acyclic, IsCycle, Ranked, Between, IsInDegree, Frontier, IsTopological;
      var hasCycle, path, rank := DetectCycleWithPath();
      if hasCycle {
        return SortResult([], true, path);
      }
      var inDegree := InDegrees(edges);
      var queue := SourcesOf(edges, inDegree, edges.Keys);
      var order := [];
      assert edges.Keys - Elements([]) == edges.Keys;
      StartFrontier(edges, inDegree, queue);
      while |queue| > 0
        invariant Frontier(edges, inDegree, order, queue)
        invariant IsInDegree(edges, inDegree, edges.Keys - Elements(order))
        decreases edges.Keys - Elements(order)
      {
        Dequeue(edges, inDegree, order, queue);
        var u := queue[0];
        queue := queue[1..];
        ghost var rest := edges.Keys - Elements(order);
        order := order + [u];
        assert edges.Keys - Elements(order) == rest - {u};
        NoEdges(edges, inDegree, rest, u, -1);
        for k := 0 to |edges[u]|
          invariant Between(edges, inDegree, rest, u, k, -1)
          invariant Frontier(edges, inDegree, order, queue)
        {
          var v := edges[u][k];
          NextEdge(edges, inDegree, rest, u, k, -1);
          HasPredecessor(edges, rest, u, v);
          Enqueue(edges, inDegree, order, queue, v, inDegree[v] - 1);
          inDegree := inDegree[v := inDegree[v] - 1];
          if inDegree[v] == 0 {
            queue := queue + [v];
          }
        }
        AllEdges(edges, inDegree, rest, u, -1);
      }
      AllOrdered(edges, inDegree, order, rank);
      OrderSize(order);
      var visited, total := |order|, |edges.Keys|;
      if visited != total {
        assert false;
        return SortResult([], true, path);
      }
      return SortResult(order, false, path);
    }

    /** Groups the vertices into levels that can be processed in parallel, or reports a cycle. */
    method ParallelTopologicalSort() returns (r: ParallelSortResult)
      requires Valid()
      ensures r.sort.hasCycle <==> !Acyclic(edges)
      ensures if r.sort.hasCycle then r.levels == [] && r.sort.order == [] && IsCycle(edges, r.sort.cyclePath)
              else IsTopological(edges, r.sort.order) && Leveled(edges, r.levels, {})
    {
      hide Closed, In, Acyclic, IsCycle, Ranked, IsInDegree, IsTopological, Leveled, HeldBack, Increasing, IsDegreeOf;
      var hasCycle, path, rank := DetectCycleWithPath();
      if hasCycle {
        return ParallelSortResult(SortResult([], true, path), []);
      }
      var result := TopologicalSort();
      if result.hasCycle {
        assert false;
        return ParallelSortResult(result, []);
      }
      var inDegree := InDegrees(edges);
      var remaining := edges.Keys;
      var levels := [];
      NoLevels(edges);
      DegreesOfRest(edges, inDegree);
      while remaining != {}
        invariant remaining <= edges.Keys && inDegree.Keys == edges.Keys && IsDegreeOf(edges, inDegree, remaining)
        invariant Leveled(edges, levels, remaining) && HeldBack(edges, levels, remaining)
        decreases remaining
      {
        var current := SourcesOf(edges, inDegree, remaining);
        SourcesAre(edges, inDegree, remaining);
        var source := SourceExists(edges, rank, remaining);
        if |current| == 0 {
          assert false;
          return ParallelSortResult(result.(hasCycle := true), levels);
        }
        SortedIsIncreasing(current);
        current := Sorted(current);
        AddLevel(edges, levels, remaining, current);
        levels := levels + [ParallelLevel(|levels|, current)];
        remaining, inDegree := RemoveLevel(edges, inDegree, remaining, current);
      }
      return ParallelSortResult(result, levels);
    }
  }

  /** The in-degrees of the vertices of `rest`, from the vertices of `rest`. */
  ghost predicate IsDegreeOf(e: Edges, inDegree: map<string, int>, rest: set<string>) {
    forall v :: v in rest ==> v in inDegree && inDegree[v] == |In(e, v, rest)|
  }

  lemma DegreesOfRest(e: Edges, inDegree: map<string, int>)
    requires IsInDegree(e, inDegree, e.Keys)
    ensures IsDegreeOf(e, inDegree, e.Keys)
  {
  }

  /** The vertices with in-degree 0 are those without predecessors in the rest. */
  lemma SourcesAre(e: Edges, inDegree: map<string, int>, rest: set<string>)
    requires IsDegreeOf(e, inDegree, rest)
    ensures forall v :: v in rest ==> v in inDegree && (inDegree[v] == 0 <==> In(e, v, rest) == {})
  {
  }

  /** Removes the vertices of a level and the edges that lead from them to what remains. */
  method RemoveLevel(e: Edges, inDegree: map<string, int>, remaining: set<string>, current: seq<string>)
    returns (remaining': set<string>, inDegree': map<string, int>)
    requires Closed(e) && inDegree.Keys == e.Keys && remaining <= e.Keys && IsDegreeOf(e, inDegree, remaining)
    requires Increasing(current) && forall v :: v in current ==> v in remaining && In(e, v, remaining) == {}
    ensures remaining' == remaining - Elements(current) && inDegree'.Keys == e.Keys
    ensures IsDegreeOf(e, inDegree', remaining')
  {
    remaining', inDegree' := remaining, inDegree;
    IncreasingIsDistinct(current);
    for i := 0 to |current|
      invariant remaining' == remaining - Elements(current[..i]) && inDegree'.Keys == e.Keys
      invariant IsDegreeOf(e, inDegree', remaining')
    {
      var u := current[i];
      assert current[..i + 1] == current[..i] + [u];
      ghost var before := remaining';
      remaining' := remaining' - {u};
      for k := 0 to |e[u]|
        invariant inDegree'.Keys == e.Keys
        invariant forall v :: v in remaining' ==> inDegree'[v] == |In(e, v, before)| - if v in e[u][..k] then 1 else 0
      {
        assert e[u][..k + 1] == e[u][..k] + [e[u][k]];
        if e[u][k] in remaining' {
          inDegree' := inDegree'[e[u][k] := inDegree'[e[u][k]] - 1];
        }
      }
      assert e[u][..|e[u]|] == e[u] && before == remaining' + {u};
      forall v | v in remaining' ensures inDegree'[v] == |In(e, v, remaining')| {
        InGrows(e, v, remaining', u);
      }
    }
  }

  lemma RankOf(e: Edges, visits: Visits, parent: map<string, string>, rank: map<string, nat>)
    requires Consistent(e, visits, parent, rank, []) && e.Keys <= rank.Keys
    ensures Ranked(e, rank)
  {
    AllNumbered(e, rank);
  }

  // ----- Kahn's sort -----

  ghost predicate IsInDegree(e: Edges, inDegree: map<string, int>, rest: set<string>) {
    inDegree.Keys == e.Keys && forall v :: v in e ==> inDegree[v] == |In(e, v, rest)|
  }

  /** The in-degrees from the vertices of `rest`, and from the first `k` edges of `u` once more or once less. */
  ghost predicate Between(e: Edges, inDegree: map<string, int>, rest: set<string>, u: string, k: nat, more: int)
    requires u in e && k <= |e[u]|
  {
    && inDegree.Keys == e.Keys
    && forall v :: v in e ==> inDegree[v] == |In(e, v, rest)| + if v in e[u][..k] then more else 0
  }

  lemma InGrows(e: Edges, v: string, rest: set<string>, u: string)
    requires u in e && u !in rest
    ensures |In(e, v, rest + {u})| == |In(e, v, rest)| + if v in e[u] then 1 else 0
  {
    assert In(e, v, rest + {u}) == In(e, v, rest) + if v in e[u] then {u} else {};
  }

  lemma NextEdge(e: Edges, inDegree: map<string, int>, rest: set<string>, u: string, k: nat, more: int)
    requires Closed(e) && u in e && k < |e[u]| && Between(e, inDegree, rest, u, k, more)
    ensures e[u][k] in inDegree && e[u][k] in e
    ensures Between(e, inDegree[e[u][k] := inDegree[e[u][k]] + more], rest, u, k + 1, more)
    ensures inDegree[e[u][k]] == |In(e, e[u][k], rest)|
  {
    assert e[u][..k + 1] == e[u][..k] + [e[u][k]];
  }

  lemma AllEdges(e: Edges, inDegree: map<string, int>, rest: set<string>, u: string, more: int)
    requires u in e && Between(e, inDegree, rest, u, |e[u]|, more)
    ensures more == 1 && u !in rest ==> IsInDegree(e, inDegree, rest + {u})
    ensures more == -1 && u in rest ==> IsInDegree(e, inDegree, rest - {u})
  {
    assert e[u][..|e[u]|] == e[u];
    forall v | v in e
      ensures more == 1 && u !in rest ==> inDegree[v] == |In(e, v, rest + {u})|
      ensures more == -1 && u in rest ==> inDegree[v] == |In(e, v, rest - {u})|
    {
      if u !in rest {
        InGrows(e, v, rest, u);
      } else {
        InGrows(e, v, rest - {u}, u);
        assert rest - {u} + {u} == rest;
      }
    }
  }

  lemma NoEdges(e: Edges, inDegree: map<string, int>, rest: set<string>, u: string, more: int)
    requires u in e && IsInDegree(e, inDegree, rest)
    ensures Between(e, inDegree, rest, u, 0, more)
  {
  }

  /** The number of edges into each vertex. */
  method InDegrees(e: Edges) returns (inDegree: map<string, int>)
    requires Closed(e)
    ensures IsInDegree(e, inDegree, e.Keys) && inDegree.Keys == e.Keys
  {
    hide Between, IsInDegree, Closed, In;
    inDegree := map v | v in e :: 0;
    var rest := e.Keys;
    NothingCounted(e);
    while rest != {}
      invariant rest <= e.Keys && IsInDegree(e, inDegree, e.Keys - rest)
      decreases rest
    {
      var u :| u in rest;
      ghost var counted := e.Keys - rest;
      NoEdges(e, inDegree, counted, u, 1);
      for k := 0 to |e[u]|
        invariant Between(e, inDegree, counted, u, k, 1)
      {
        NextEdge(e, inDegree, counted, u, k, 1);
        inDegree := inDegree[e[u][k] := inDegree[e[u][k]] + 1];
      }
      AllEdges(e, inDegree, counted, u, 1);
      rest := rest - {u};
      assert e.Keys - rest == counted + {u};
    }
    assert e.Keys - rest == e.Keys;
    SameKeys(e, inDegree);
  }

  lemma SameKeys(e: Edges, inDegree: map<string, int>)
    requires IsInDegree(e, inDegree, e.Keys)
    ensures inDegree.Keys == e.Keys
  {
  }

  lemma NothingCounted(e: Edges)
    ensures IsInDegree(e, map v | v in e :: 0, e.Keys - e.Keys)
  {
    assert forall v :: In(e, v, e.Keys - e.Keys) == {};
  }

  /** The vertices without incoming edges from the rest of the graph are those in the order or in the queue; those in
      the order come after all their predecessors. */
  ghost predicate Frontier(e: Edges, inDegree: map<string, int>, order: seq<string>, queue: seq<string>) {
    && NoRepeats(order + queue) && inDegree.Keys == e.Keys
    && (forall v :: v in order || v in queue <==> v in e && inDegree[v] == 0)
    && (forall i, u :: 0 <= i < |order| && Edge(e, u, order[i]) ==> u in order[..i])
  }

  lemma Dequeue(e: Edges, inDegree: map<string, int>, order: seq<string>, queue: seq<string>)
    requires Closed(e) && Frontier(e, inDegree, order, queue) && |queue| > 0
    requires IsInDegree(e, inDegree, e.Keys - Elements(order))
    ensures Frontier(e, inDegree, order + [queue[0]], queue[1..]) && queue[0] in e.Keys - Elements(order)
  {
    var u := queue[0];
    assert order + queue == order + [u] + queue[1..];
    assert u in queue && (order + queue)[|order|] == u;
    assert forall i :: 0 <= i < |order| ==> (order + queue)[i] == order[i];
    assert In(e, u, e.Keys - Elements(order)) == {};
    forall w | Edge(e, w, u) ensures w in order {
      assert w !in order ==> w in In(e, u, e.Keys - Elements(order));
    }
    forall i, w | 0 <= i < |order + [u]| && Edge(e, w, (order + [u])[i]) ensures w in (order + [u])[..i] {
      assert (order + [u])[..i] == order[..i];
    }
  }

  lemma Enqueue(e: Edges, inDegree: map<string, int>, order: seq<string>, queue: seq<string>, v: string, degree: int)
    requires Frontier(e, inDegree, order, queue) && v in e && degree == inDegree[v] - 1 >= 0
    ensures Frontier(e, inDegree[v := degree], order, if degree == 0 then queue + [v] else queue)
  {
    assert v !in order + queue;
    assert order + (queue + [v]) == order + queue + [v];
  }

  /** The vertices of `rest` that have in-degree 0. */
  method SourcesOf(e: Edges, inDegree: map<string, int>, rest: set<string>) returns (sources: seq<string>)
    requires rest <= inDegree.Keys
    ensures NoRepeats(sources) && forall v :: v in sources <==> v in rest && inDegree[v] == 0
  {
    sources := [];
    var todo := rest;
    while todo != {}
      invariant todo <= rest && NoRepeats(sources)
      invariant forall v :: v in sources <==> v in rest - todo && inDegree[v] == 0
      decreases todo
    {
      var v :| v in todo;
      if inDegree[v] == 0 {
        sources := sources + [v];
      }
      todo := todo - {v};
    }
  }

  lemma StartFrontier(e: Edges, inDegree: map<string, int>, queue: seq<string>)
    requires inDegree.Keys == e.Keys && NoRepeats(queue)
    requires forall v :: v in queue <==> v in e && inDegree[v] == 0
    ensures Frontier(e, inDegree, [], queue)
  {
    assert [] + queue == queue;
  }

  lemma HasPredecessor(e: Edges, rest: set<string>, u: string, v: string)
    requires Edge(e, u, v) && u in rest
    ensures |In(e, v, rest)| > 0
  {
    assert u in In(e, v, rest);
  }

  lemma AllOrdered(e: Edges, inDegree: map<string, int>, order: seq<string>, rank: map<string, nat>)
    requires Frontier(e, inDegree, order, []) && IsInDegree(e, inDegree, e.Keys - Elements(order)) && Ranked(e, rank)
    ensures IsTopological(e, order)
  {
    assert order + [] == order;
    if e.Keys - Elements(order) != {} {
      var v := SourceExists(e, rank, e.Keys - Elements(order));
      assert false;
    }
    assert Elements(order) == e.Keys;
    forall i, j | 0 <= i < |order| && 0 <= j < |order| && Edge(e, order[i], order[j]) ensures i < j {
      var k :| 0 <= k < j && order[k] == order[i];
    }
  }

  lemma {:induction false} OrderSize(order: seq<string>)
    requires NoRepeats(order)
    ensures |Elements(order)| == |order|
  {
    if order != [] {
      var n := |order| - 1;
      OrderSize(order[..n]);
      assert Elements(order) == Elements(order[..n]) + {order[n]};
    }
  }
}
