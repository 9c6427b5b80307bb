/** Directed graphs as maps from vertex IDs to lists of successors: walks, cycles and ranks. */
module Graphs {
  import opened Slices

  type Edges = map<string, seq<string>>

  /** Edges lead to vertices of the graph, and no edge occurs twice. */
  ghost predicate Closed(e: Edges) {
    && (forall u, v :: u in e && v in e[u] ==> v in e)
    && (forall u :: u in e ==> NoRepeats(e[u]))
  }

  ghost predicate Edge(e: Edges, u: string, v: string) {
    u in e && v in e[u]
  }

  ghost predicate Walk(e: Edges, w: seq<string>) {
    |w| > 0 && w[0] in e && forall i :: 0 < i < |w| ==> Edge(e, w[i - 1], w[i])
  }

  ghost predicate ClosedWalk(e: Edges, w: seq<string>) {
    Walk(e, w) && |w| > 1 && w[0] == w[|w| - 1]
  }

  ghost predicate Acyclic(e: Edges) {
    forall w :: !ClosedWalk(e, w)
  }

  /** A closed walk that visits no vertex twice before it returns to its start. */
  ghost predicate IsCycle(e: Edges, path: seq<string>) {
    ClosedWalk(e, path) && NoRepeats(path[1..])
  }

  /** Along every edge the rank goes down. */
  ghost predicate Ranked(e: Edges, rank: map<string, nat>) {
    rank.Keys == e.Keys && forall u, v :: Edge(e, u, v) ==> v in e && rank[v] < rank[u]
  }

  lemma {:induction false} WalkDescends(e: Edges, w: seq<string>, rank: map<string, nat>)
    requires Ranked(e, rank) && Walk(e, w)
    ensures w[|w| - 1] in e && rank[w[|w| - 1]] + |w| <= rank[w[0]] + 1
    decreases |w|
  {
    if |w| > 1 {
      assert Edge(e, w[0], w[1]);
      WalkDescends(e, w[1..], rank);
    }
  }

  lemma RankedAcyclic(e: Edges, rank: map<string, nat>)
    requires Ranked(e, rank)
    ensures Acyclic(e)
  {
    forall w | ClosedWalk(e, w) ensures false {
      WalkDescends(e, w, rank);
    }
  }

  // ----- Orders -----

  function Elements(s: seq<string>): set<string> {
    set v | v in s
  }

  /** The vertices of `rest` with an edge to `v`. */
  function In(e: Edges, v: string, rest: set<string>): set<string> {
    set u | u in rest && u in e && v in e[u]
  }

  /** Every vertex once, and every edge leads forward. */
  ghost predicate IsTopological(e: Edges, order: seq<string>) {
    && NoRepeats(order) && Elements(order) == e.Keys
    && forall i, j :: 0 <= i < |order| && 0 <= j < |order| && Edge(e, order[i], order[j]) ==> i < j
  }

  /** Whatever is left of a ranked graph has a vertex without incoming edges. */
  lemma SourceExists(e: Edges, rank: map<string, nat>, rest: set<string>) returns (v: string)
    requires Ranked(e, rank) && rest <= e.Keys && rest != {}
    ensures v in rest && In(e, v, rest) == {}
  {
    v :| v in rest;
    v := Climb(e, rest, rank, v, Above(rank, rest, v));
  }

  function Above(rank: map<string, nat>, rest: set<string>, v: string): set<string>
    requires rest <= rank.Keys && v in rank
  {
    set u | u in rest && rank[u] > rank[v]
  }

  lemma {:induction false} Climb(e: Edges, rest: set<string>, rank: map<string, nat>, v: string, above: set<string>)
    returns (top: string)
    requires Ranked(e, rank) && rest <= e.Keys && v in rest && above == Above(rank, rest, v)
    ensures top in rest && In(e, top, rest) == {}
    decreases above
  {
    if In(e, v, rest) == {} {
      return v;
    }
    var u :| u in In(e, v, rest);
    assert Edge(e, u, v) && u in above && u !in Above(rank, rest, u);
    top := Climb(e, rest, rank, u, Above(rank, rest, u));
  }
}
