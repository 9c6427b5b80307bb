/** Grouping the vertices of a graph into levels so that every edge leads to a higher level, as early as possible. */
module Levels {
  import opened Slices
  import opened Graphs

  datatype ParallelLevel = ParallelLevel(level: nat, vertices: seq<string>)

  ghost predicate InLevel(levels: seq<ParallelLevel>, k: int, v: string) {
    0 <= k < |levels| && v in levels[k].vertices
  }

  ghost predicate Below(levels: seq<ParallelLevel>, k: int, v: string) {
    exists j :: 0 <= j < k && InLevel(levels, j, v)
  }

  ghost predicate Ordered(levels: seq<ParallelLevel>) {
    forall k :: 0 <= k < |levels| ==>
      levels[k].level == k && levels[k].vertices != [] && Increasing(levels[k].vertices)
  }

  /** The vertices that are in some level are those that are not in `rest`. */
  ghost predicate Covered(e: Edges, levels: seq<ParallelLevel>, rest: set<string>) {
    forall v :: Below(levels, |levels|, v) <==> v in e && v !in rest
  }

  ghost predicate Disjoint(levels: seq<ParallelLevel>) {
    forall j, k, v :: InLevel(levels, j, v) && InLevel(levels, k, v) ==> j == k
  }

  /** The predecessors of a vertex are in lower levels. */
  ghost predicate Supported(e: Edges, levels: seq<ParallelLevel>) {
    forall k, u, v :: InLevel(levels, k, v) && Edge(e, u, v) ==> Below(levels, k, u)
  }

  /** One of them is in the level just below. */
  ghost predicate Tight(e: Edges, levels: seq<ParallelLevel>) {
    forall k, v :: InLevel(levels, k, v) && 0 < k ==> exists u :: InLevel(levels, k - 1, u) && Edge(e, u, v)
  }

  ghost predicate Leveled(e: Edges, levels: seq<ParallelLevel>, rest: set<string>) {
    Ordered(levels) && Covered(e, levels, rest) && Disjoint(levels) && Supported(e, levels) && Tight(e, levels)
  }

  /** Every vertex is in exactly one level, and there only once. */
  lemma OneLevel(e: Edges, levels: seq<ParallelLevel>, v: string)
    requires Leveled(e, levels, {}) && v in e
    ensures exists k :: InLevel(levels, k, v) && NoRepeats(levels[k].vertices) && forall j :: InLevel(levels, j, v) ==> j == k
  {
    assert Below(levels, |levels|, v);
    var k :| 0 <= k < |levels| && InLevel(levels, k, v);
    IncreasingIsDistinct(levels[k].vertices);
  }

  /** Every edge leads to a strictly higher level. */
  lemma EdgesLeadUp(e: Edges, levels: seq<ParallelLevel>, j: nat, k: nat, u: string, v: string)
    requires Leveled(e, levels, {}) && InLevel(levels, j, u) && InLevel(levels, k, v) && Edge(e, u, v)
    ensures j < k
  {
    assert Below(levels, k, u);
    var i :| 0 <= i < k && InLevel(levels, i, u);
  }

  // ----- Adding a level -----

  /** Every vertex of `rest` is held back by one of the last level, or by another one of `rest`. */
  ghost predicate HeldBack(e: Edges, levels: seq<ParallelLevel>, rest: set<string>) {
    |levels| > 0 ==> forall v :: v in rest ==>
      In(e, v, rest) != {} || exists u :: InLevel(levels, |levels| - 1, u) && Edge(e, u, v)
  }

  lemma NoLevels(e: Edges)
    ensures Leveled(e, [], e.Keys) && HeldBack(e, [], e.Keys)
  {
  }

  /** `next` has one level more than `levels`, with the vertices of `current`. */
  ghost predicate OneMore(levels: seq<ParallelLevel>, next: seq<ParallelLevel>, current: seq<string>) {
    && |next| == |levels| + 1
    && forall k, v :: InLevel(next, k, v) <==> InLevel(levels, k, v) || (k == |levels| && v in current)
  }

  lemma AddLevel(e: Edges, levels: seq<ParallelLevel>, rest: set<string>, current: seq<string>)
    requires Closed(e) && Leveled(e, levels, rest) && HeldBack(e, levels, rest) && rest <= e.Keys
    requires Increasing(current) && current != []
    requires forall v :: v in current <==> v in rest && In(e, v, rest) == {}
    ensures
      var next := levels + [ParallelLevel(|levels|, current)];
      Leveled(e, next, rest - Elements(current)) && HeldBack(e, next, rest - Elements(current))
  {
    var next := levels + [ParallelLevel(|levels|, current)];
    assert OneMore(levels, next, current);
    BelowNext(levels, next, current);
    hide OneMore, Covered, Disjoint, Supported, Tight, HeldBack, Closed, Increasing, In;
    AddCovered(e, levels, rest, current, next);
    AddDisjoint(e, levels, rest, current, next);
    AddSupported(e, levels, rest, current, next);
    AddTight(e, levels, rest, current, next);
  }

  lemma AddCovered(e: Edges, levels: seq<ParallelLevel>, rest: set<string>, current: seq<string>,
                   next: seq<ParallelLevel>)
    requires Covered(e, levels, rest) && rest <= e.Keys && OneMore(levels, next, current)
    requires forall v :: v in current ==> v in rest
    ensures Covered(e, next, rest - Elements(current))
  {
    BelowNext(levels, next, current);
    hide OneMore;
    forall v ensures Below(next, |next|, v) <==> v in e && v !in rest - Elements(current) {
      assert Below(next, |next|, v) <==> Below(levels, |levels|, v) || v in current;
    }
  }

  lemma AddDisjoint(e: Edges, levels: seq<ParallelLevel>, rest: set<string>, current: seq<string>,
                    next: seq<ParallelLevel>)
    requires Covered(e, levels, rest) && Disjoint(levels) && OneMore(levels, next, current)
    requires forall v :: v in current ==> v in rest
    ensures Disjoint(next)
  {
    forall k, v | InLevel(levels, k, v) ensures v !in current {
      assert Below(levels, |levels|, v);
    }
    hide Covered;
  }

  lemma AddSupported(e: Edges, levels: seq<ParallelLevel>, rest: set<string>, current: seq<string>,
                     next: seq<ParallelLevel>)
    requires Covered(e, levels, rest) && Supported(e, levels) && OneMore(levels, next, current)
    requires forall v :: v in current ==> In(e, v, rest) == {}
    ensures Supported(e, next)
  {
    BelowNext(levels, next, current);
    hide Below;
    forall k, u, v | InLevel(next, k, v) && Edge(e, u, v) ensures Below(next, k, u) {
      if InLevel(levels, k, v) {
        assert Below(levels, k, u);
      } else {
        assert u in rest ==> u in In(e, v, rest);
        assert Below(levels, |levels|, u);
      }
    }
  }

  lemma AddTight(e: Edges, levels: seq<ParallelLevel>, rest: set<string>, current: seq<string>,
                 next: seq<ParallelLevel>)
    requires Tight(e, levels) && HeldBack(e, levels, rest) && OneMore(levels, next, current)
    requires forall v :: v in current <==> v in rest && In(e, v, rest) == {}
    ensures Tight(e, next) && HeldBack(e, next, rest - Elements(current))
  {
    var n := |levels|;
    var rest' := rest - Elements(current);
    forall k, v | InLevel(next, k, v) && 0 < k ensures exists u :: InLevel(next, k - 1, u) && Edge(e, u, v) {
      if InLevel(levels, k, v) {
        var u :| InLevel(levels, k - 1, u) && Edge(e, u, v);
        assert InLevel(next, k - 1, u);
      } else {
        var u :| InLevel(levels, n - 1, u) && Edge(e, u, v);
        assert InLevel(next, k - 1, u);
      }
    }
    forall v | v in rest' ensures In(e, v, rest') != {} || exists u :: InLevel(next, n, u) && Edge(e, u, v) {
      var u :| u in In(e, v, rest);
      assert u in rest' ==> u in In(e, v, rest');
      assert u !in rest' ==> InLevel(next, n, u) && Edge(e, u, v);
    }
  }

  lemma BelowNext(levels: seq<ParallelLevel>, next: seq<ParallelLevel>, current: seq<string>)
    requires OneMore(levels, next, current)
    ensures forall k, v :: k <= |levels| ==> (Below(next, k, v) <==> Below(levels, k, v))
    ensures forall v :: Below(next, |next|, v) <==> Below(levels, |levels|, v) || v in current
  {
    forall v ensures Below(next, |next|, v) <==> Below(levels, |levels|, v) || v in current {
      assert v in current ==> InLevel(next, |levels|, v);
      if Below(levels, |levels|, v) {
        var j :| 0 <= j < |levels| && InLevel(levels, j, v);
        assert InLevel(next, j, v);
      }
    }
  }

  // ----- What levels mean -----

  ghost predicate WalkTo(e: Edges, w: seq<string>, v: string) {
    Walk(e, w) && w[|w| - 1] == v
  }

  lemma {:induction false} WalkOfLevel(e: Edges, levels: seq<ParallelLevel>, k: nat, v: string) returns (w: seq<string>)
    requires Leveled(e, levels, {}) && InLevel(levels, k, v)
    ensures WalkTo(e, w, v) && |w| == k + 1
    decreases k
  {
    assert Below(levels, |levels|, v);
    if k == 0 {
      return [v];
    }
    var u :| InLevel(levels, k - 1, u) && Edge(e, u, v);
    w := WalkOfLevel(e, levels, k - 1, u);
    w := w + [v];
  }

  lemma SupportOf(e: Edges, levels: seq<ParallelLevel>, k: nat, u: string, v: string) returns (j: nat)
    requires Leveled(e, levels, {}) && InLevel(levels, k, v) && Edge(e, u, v)
    ensures j < k && InLevel(levels, j, u)
  {
    assert Below(levels, k, u);
    j :| 0 <= j < k && InLevel(levels, j, u);
  }

  lemma {:induction false} WalkFitsLevel(e: Edges, levels: seq<ParallelLevel>, k: nat, v: string, w: seq<string>)
    requires Leveled(e, levels, {}) && InLevel(levels, k, v) && WalkTo(e, w, v)
    ensures |w| <= k + 1
    decreases |w|
  {
    hide Leveled;
    if |w| > 1 {
      var n := |w| - 1;
      assert Edge(e, w[n - 1], w[n]);
      var j := SupportOf(e, levels, k, w[n - 1], v);
      WalkFitsLevel(e, levels, j, w[n - 1], w[..n]);
    }
  }

  /** The level of a vertex is the length of the longest path that ends in it. */
  lemma LevelIsLongestPath(e: Edges, levels: seq<ParallelLevel>, k: nat, v: string)
    requires Leveled(e, levels, {}) && InLevel(levels, k, v)
    ensures exists w :: WalkTo(e, w, v) && |w| == k + 1
    ensures forall w :: WalkTo(e, w, v) ==> |w| <= k + 1
  {
    var w := WalkOfLevel(e, levels, k, v);
    forall w | WalkTo(e, w, v) ensures |w| <= k + 1 {
      WalkFitsLevel(e, levels, k, v, w);
    }
  }

  /** Any grouping of the vertices in which edges lead to later groups. */
  ghost predicate Grouping(e: Edges, groups: seq<set<string>>) {
    && (forall v :: v in e ==> exists i :: 0 <= i < |groups| && v in groups[i])
    && (forall i, j, u, v :: 0 <= i < |groups| && 0 <= j < |groups| && u in groups[i] && v in groups[j] && Edge(e, u, v)
          ==> i < j)
  }

  lemma {:induction false} WalkNeedsGroups(e: Edges, groups: seq<set<string>>, w: seq<string>, i: nat)
    requires Closed(e) && Grouping(e, groups) && Walk(e, w) && i < |groups| && w[|w| - 1] in groups[i]
    ensures |w| <= i + 1
    decreases |w|
  {
    if |w| > 1 {
      var n := |w| - 1;
      assert Edge(e, w[n - 1], w[n]);
      var j :| 0 <= j < |groups| && w[n - 1] in groups[j];
      WalkNeedsGroups(e, groups, w[..n], j);
    }
  }

  /** No grouping has fewer groups than there are levels. */
  lemma FewestLevels(e: Edges, levels: seq<ParallelLevel>, groups: seq<set<string>>)
    requires Closed(e) && Leveled(e, levels, {}) && Grouping(e, groups)
    ensures |levels| <= |groups|
  {
    if |levels| > 0 {
      var k := |levels| - 1;
      var v := levels[k].vertices[0];
      assert InLevel(levels, k, v);
      var w := WalkOfLevel(e, levels, k, v);
      assert v in e by { assert Below(levels, |levels|, v); }
      var i :| 0 <= i < |groups| && v in groups[i];
      WalkNeedsGroups(e, groups, w, i);
    }
  }
}
