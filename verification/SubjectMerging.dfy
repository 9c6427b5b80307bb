/** Merging subjects into those of a stream without overlaps (mergeStreamSubjects in common/natsclient/stream.go). */
module SubjectMerging {
  import opened Strings
  import opened Subjects

  datatype Merged = Merged(subjects: seq<string>, changed: bool) | PartialOverlap(added: string, existing: string)

  // ----- Covering as an order -----

  lemma {:induction false} CoversReflexive(p: Tokens)
    requires Pattern(p)
    ensures Covers(p, p)
  {
    if |p| > 0 && p[0] != REST {
      assert Pattern(p[1..]);
      CoversReflexive(p[1..]);
    }
  }

  lemma {:induction false} CoversTransitive(p: Tokens, q: Tokens, r: Tokens)
    requires Covers(p, q) && Covers(q, r) && Pattern(q)
    ensures Covers(p, r)
  {
    if |p| > 0 && p[0] != REST {
      assert Pattern(q[1..]);
      CoversTransitive(p[1..], q[1..], r[1..]);
    }
  }

  lemma {:induction false} CoversAntisymmetric(p: Tokens, q: Tokens)
    requires Covers(p, q) && Covers(q, p) && Pattern(p) && Pattern(q)
    ensures p == q
  {
    if |p| > 0 && |q| > 0 {
      assert Pattern(p[1..]) && Pattern(q[1..]);
      assert p[0] == q[0];
      if p[0] == REST {
        assert |p| == 1 && |q| == 1;
      } else {
        CoversAntisymmetric(p[1..], q[1..]);
        assert p == [p[0]] + p[1..] && q == [q[0]] + q[1..];
      }
    }
  }

  lemma {:induction false} CoversCollides(p: Tokens, q: Tokens)
    requires Covers(p, q) && Pattern(q)
    ensures Collide(p, q) && Collide(q, p)
  {
    if |p| > 0 && p[0] != REST {
      assert Pattern(q[1..]);
      CoversCollides(p[1..], q[1..]);
    }
  }

  lemma {:induction false} CollideSymmetric(a: Tokens, b: Tokens)
    ensures Collide(a, b) == Collide(b, a)
  {
    if |a| > 0 && |b| > 0 {
      CollideSymmetric(a[1..], b[1..]);
    }
  }

  lemma IncludesAntisymmetric(p: string, q: string)
    requires Includes(p, q) && Includes(q, p) && WellFormed(p) && WellFormed(q)
    ensures p == q
  {
    CoversAntisymmetric(Split(p), Split(q));
    SplitTokens(p);
    SplitTokens(q);
  }

  lemma IncludesReflexive(p: string)
    requires WellFormed(p)
    ensures Includes(p, p)
  {
    CoversReflexive(Split(p));
  }

  lemma IncludesTransitive(p: string, q: string, r: string)
    requires Includes(p, q) && Includes(q, r) && WellFormed(q)
    ensures Includes(p, r)
  {
    CoversTransitive(Split(p), Split(q), Split(r));
  }

  lemma IncludesOverlaps(p: string, q: string)
    requires Includes(p, q) && WellFormed(q)
    ensures Overlaps(p, q) && Overlaps(q, p)
  {
    CoversCollides(Split(p), Split(q));
  }

  lemma OverlapsSymmetric(p: string, q: string)
    ensures Overlaps(p, q) == Overlaps(q, p)
  {
    CollideSymmetric(Split(p), Split(q));
  }

  // ----- What merging computes -----

  ghost predicate AllWellFormed(subjects: seq<string>) {
    forall p :: p in subjects ==> WellFormed(p)
  }

  /** No two of the subjects match a common concrete subject; in particular none occurs twice. */
  ghost predicate Disjoint(subjects: seq<string>) {
    forall i, j :: 0 <= i < j < |subjects| ==> !Overlaps(subjects[i], subjects[j])
  }

  predicate AnyIncludes(subjects: seq<string>, subject: string) {
    exists p :: p in subjects && Includes(p, subject)
  }

  /** The subjects that no other of them covers. */
  ghost predicate IsMaximal(all: seq<string>, p: string) {
    p in all && forall q :: q in all && Includes(q, p) ==> q == p
  }

  /** The subjects that `a` does not supersede; the first of them that partially overlaps `a` stops the merge. */
  function Keep(subjects: seq<string>, a: string): Merged {
    if |subjects| == 0 then Merged([], false)
    else
      var n := |subjects| - 1;
      var kept := Keep(subjects[..n], a);
      if kept.PartialOverlap? then kept
      else if Includes(a, subjects[n]) then Merged(kept.subjects, true)
      else if Overlaps(a, subjects[n]) then PartialOverlap(a, subjects[n])
      else Merged(kept.subjects + [subjects[n]], kept.changed)
  }

  function Add(subjects: seq<string>, a: string): Merged {
    if AnyIncludes(subjects, a) then Merged(subjects, false)
    else
      var kept := Keep(subjects, a);
      if kept.PartialOverlap? then kept else Merged(kept.subjects + [a], true)
  }

  function Merge(existing: seq<string>, additional: seq<string>): Merged {
    if |additional| == 0 then Merged(existing, false)
    else
      var n := |additional| - 1;
      var before := Merge(existing, additional[..n]);
      if before.PartialOverlap? then before
      else
        var after := Add(before.subjects, additional[n]);
        if after.PartialOverlap? then after else Merged(after.subjects, before.changed || after.changed)
  }

  // ----- The loops -----

  method AnySubjectCovers(subjects: seq<string>, subject: string) returns (r: bool)
    ensures r == AnyIncludes(subjects, subject)
  {
    for i := 0 to |subjects|
      invariant !AnyIncludes(subjects[..i], subject)
    {
      var covers := SubjectCovers(subjects[i], subject);
      if covers {
        return true;
      }
      assert subjects[..i + 1] == subjects[..i] + [subjects[i]];
    }
    assert subjects[..|subjects|] == subjects;
    return false;
  }

  method MergeStreamSubjects(existing: seq<string>, additional: seq<string>) returns (r: Merged)
    ensures r == Merge(existing, additional)
  {
    hide Includes, Overlaps, AnyIncludes, Keep, Merge;
    MergeNothing(existing, additional);
    var result, changed := existing, false;
    for i := 0 to |additional|
      invariant Merge(existing, additional[..i]) == Merged(result, changed)
    {
      var a := additional[i];
      MergeNext(existing, additional, i);
      ghost var before := result;
      var covered := AnySubjectCovers(result, a);
      if covered {
        continue;
      }
      var kept: seq<string> := [];
      KeepNext(result, 0, a);
      for k := 0 to |result|
        invariant result == before && Keep(result[..k], a).Merged? && Keep(result[..k], a).subjects == kept
      {
        KeepNext(result, k, a);
        var supersedes := SubjectCovers(a, result[k]);
        if supersedes {
          changed := true;
          continue;
        }
        var collides := SubjectsCollide(a, result[k]);
        if collides {
          KeepStops(result, k + 1, a);
          MergeStops(existing, additional, i + 1);
          return PartialOverlap(a, result[k]);
        }
        kept := kept + [result[k]];
      }
      assert result[..|result|] == result;
      result := kept + [a];
      changed := true;
    }
    assert additional[..|additional|] == additional;
    return Merged(result, changed);
  }

  lemma MergeNothing(existing: seq<string>, additional: seq<string>)
    ensures Merge(existing, additional[..0]) == Merged(existing, false)
  {
  }

  lemma MergeNext(existing: seq<string>, additional: seq<string>, i: nat)
    requires i < |additional| && Merge(existing, additional[..i]).Merged?
    ensures
      var before := Merge(existing, additional[..i]);
      var after := Add(before.subjects, additional[i]);
      Merge(existing, additional[..i + 1]) ==
        if after.PartialOverlap? then after else Merged(after.subjects, before.changed || after.changed)
  {
    assert additional[..i + 1][..i] == additional[..i];
    hide Add;
  }

  lemma KeepNext(subjects: seq<string>, k: nat, a: string)
    requires k <= |subjects|
    ensures k == 0 ==> Keep(subjects[..k], a) == Merged([], false)
    ensures k < |subjects| && Keep(subjects[..k], a).Merged? ==>
      var kept := Keep(subjects[..k], a);
      Keep(subjects[..k + 1], a) ==
        if Includes(a, subjects[k]) then Merged(kept.subjects, true)
        else if Overlaps(a, subjects[k]) then PartialOverlap(a, subjects[k])
        else Merged(kept.subjects + [subjects[k]], kept.changed)
  {
    hide Includes, Overlaps;
    if k < |subjects| {
      assert subjects[..k + 1][..k] == subjects[..k];
    }
  }

  lemma {:induction false} KeepStops(subjects: seq<string>, k: nat, a: string)
    requires k <= |subjects| && Keep(subjects[..k], a).PartialOverlap?
    ensures Keep(subjects, a) == Keep(subjects[..k], a)
    decreases |subjects| - k
  {
    if k < |subjects| {
      assert subjects[..k + 1][..k] == subjects[..k];
      KeepStops(subjects, k + 1, a);
    } else {
      assert subjects[..k] == subjects;
    }
  }

  lemma {:induction false} MergeStops(existing: seq<string>, additional: seq<string>, i: nat)
    requires i <= |additional| && Merge(existing, additional[..i]).PartialOverlap?
    ensures Merge(existing, additional) == Merge(existing, additional[..i])
    decreases |additional| - i
  {
    if i < |additional| {
      assert additional[..i + 1][..i] == additional[..i];
      MergeStops(existing, additional, i + 1);
    } else {
      assert additional[..i] == additional;
    }
  }

  // ----- The result -----

  /** `result` consists of some of `all`, is disjoint, and covers them all. */
  ghost predicate Merges(result: seq<string>, all: seq<string>) {
    && (forall p :: p in result ==> p in all)
    && (forall p :: p in all ==> AnyIncludes(result, p))
    && Disjoint(result)
  }

  lemma {:induction false} KeepResult(subjects: seq<string>, a: string)
    requires Keep(subjects, a).Merged? && Disjoint(subjects)
    ensures var kept := Keep(subjects, a).subjects;
      && (forall p :: p in kept <==> p in subjects && !Includes(a, p))
      && (forall p :: p in kept ==> !Overlaps(a, p))
      && Disjoint(kept)
  {
    if |subjects| > 0 {
      var n := |subjects| - 1;
      KeepResult(subjects[..n], a);
      var kept := Keep(subjects[..n], a).subjects;
      forall p | p in kept ensures !Overlaps(p, subjects[n]) {
        var i :| 0 <= i < n && subjects[i] == p;
      }
      assert subjects == subjects[..n] + [subjects[n]];
    }
  }

  lemma AddMerges(subjects: seq<string>, all: seq<string>, a: string)
    requires Merges(subjects, all) && AllWellFormed(all) && WellFormed(a) && Add(subjects, a).Merged?
    ensures Merges(Add(subjects, a).subjects, all + [a])
  {
    hide Includes, Overlaps, WellFormed, Keep, Disjoint;
    var next := Add(subjects, a).subjects;
    if !AnyIncludes(subjects, a) {
      KeepResult(subjects, a);
      var kept := Keep(subjects, a).subjects;
      IncludesReflexive(a);
      assert next == kept + [a] && a in next;
      forall p | p in all ensures AnyIncludes(next, p) {
        StillIncluded(subjects, all, a, kept, p);
      }
      DisjointWith(kept, a);
    }
  }

  /** What a removed subject includes, the new one includes. */
  lemma StillIncluded(subjects: seq<string>, all: seq<string>, a: string, kept: seq<string>, p: string)
    requires Merges(subjects, all) && AllWellFormed(all) && p in all
    requires forall q :: q in kept <==> q in subjects && !Includes(a, q)
    ensures AnyIncludes(kept + [a], p)
  {
    hide Includes, WellFormed, Disjoint;
    var q :| q in subjects && Includes(q, p);
    if Includes(a, q) {
      IncludesTransitive(a, q, p);
      assert a in kept + [a];
    } else {
      assert q in kept + [a];
    }
  }

  lemma DisjointWith(kept: seq<string>, a: string)
    requires Disjoint(kept) && forall p :: p in kept ==> !Overlaps(a, p)
    ensures Disjoint(kept + [a])
  {
    hide Overlaps;
    forall i | 0 <= i < |kept| ensures !Overlaps(kept[i], a) {
      OverlapsSymmetric(a, kept[i]);
    }
  }

  lemma {:induction false} MergeMerges(existing: seq<string>, additional: seq<string>)
    requires AllWellFormed(existing + additional) && Disjoint(existing) && Merge(existing, additional).Merged?
    ensures Merges(Merge(existing, additional).subjects, existing + additional)
  {
    hide Includes, Overlaps, WellFormed;
    if |additional| == 0 {
      assert existing + additional == existing;
      forall p | p in existing ensures AnyIncludes(existing, p) {
        IncludesReflexive(p);
      }
    } else {
      var n := |additional| - 1;
      assert existing + additional == existing + additional[..n] + [additional[n]];
      assert forall p :: p in existing + additional[..n] ==> p in existing + additional;
      assert additional[n] in existing + additional;
      MergeMerges(existing, additional[..n]);
      AddMerges(Merge(existing, additional[..n]).subjects, existing + additional[..n], additional[n]);
    }
  }

  /** A disjoint selection that covers everything consists of the maximal subjects. */
  lemma MergesIsMaximal(result: seq<string>, all: seq<string>, p: string)
    requires Merges(result, all) && AllWellFormed(all)
    ensures p in result <==> IsMaximal(all, p)
  {
    hide Includes, Overlaps, WellFormed;
    if p in result {
      forall q | q in all && Includes(q, p) ensures q == p {
        var r :| r in result && Includes(r, q);
        IncludesTransitive(r, q, p);
        IncludesOverlaps(r, p);
        SameMember(result, p, r);
        IncludesAntisymmetric(q, p);
      }
    }
    if IsMaximal(all, p) {
      var r :| r in result && Includes(r, p);
    }
  }

  lemma SameMember(result: seq<string>, p: string, r: string)
    requires Disjoint(result) && p in result && r in result && Overlaps(p, r) && Overlaps(r, p)
    ensures p == r
  {
    hide Overlaps;
    var i :| 0 <= i < |result| && result[i] == p;
    var j :| 0 <= j < |result| && result[j] == r;
    assert i == j;
  }

  // ----- Main results -----

  ghost predicate MatchesAny(subjects: seq<string>, s: string) {
    exists p :: p in subjects && Matches(p, s)
  }

  /** When merging succeeds, the result is disjoint, matches exactly the concrete subjects that the existing or the
      additional subjects match, and consists of the maximal ones among these. */
  lemma MergeIsRight(existing: seq<string>, additional: seq<string>)
    requires AllWellFormed(existing + additional) && Disjoint(existing) && Merge(existing, additional).Merged?
    ensures
      var result := Merge(existing, additional).subjects;
      && Disjoint(result)
      && (forall s :: MatchesAny(result, s) <==> MatchesAny(existing + additional, s))
      && (forall p :: p in result <==> IsMaximal(existing + additional, p))
  {
    hide Includes, Overlaps, Matches, WellFormed, Merge, IsMaximal, Disjoint;
    var result := Merge(existing, additional).subjects;
    var all := existing + additional;
    MergeMerges(existing, additional);
    forall s ensures MatchesAny(result, s) <==> MatchesAny(all, s) {
      if MatchesAny(all, s) {
        var p :| p in all && Matches(p, s);
        var q :| q in result && Includes(q, p);
        InclusionMatches(q, p, s);
      }
    }
    forall p ensures p in result <==> IsMaximal(all, p) {
      MergesIsMaximal(result, all, p);
    }
  }

  lemma InclusionMatches(q: string, p: string, s: string)
    requires Includes(q, p) && WellFormed(p) && Matches(p, s)
    ensures Matches(q, s)
  {
    CoversIsInclusion(q, p);
  }

  /** The order in which subjects are added does not matter for what they are merged to. */
  lemma OrderDoesNotMatter(existing: seq<string>, additional: seq<string>, reordered: seq<string>, p: string)
    requires AllWellFormed(existing + additional) && Disjoint(existing)
    requires multiset(reordered) == multiset(additional)
    requires Merge(existing, additional).Merged? && Merge(existing, reordered).Merged?
    ensures p in Merge(existing, additional).subjects <==> p in Merge(existing, reordered).subjects
  {
    hide Includes, Merge, WellFormed, Disjoint, MatchesAny;
    forall q ensures q in existing + additional <==> q in existing + reordered {
      assert q in multiset(reordered) <==> q in multiset(additional);
    }
    MergeIsRight(existing, additional);
    MergeIsRight(existing, reordered);
    assert IsMaximal(existing + additional, p) <==> IsMaximal(existing + reordered, p);
  }

  /** Every additional subject is carried by the result, so merging again changes nothing. */
  lemma MergeAgain(existing: seq<string>, additional: seq<string>)
    requires AllWellFormed(existing + additional) && Disjoint(existing) && Merge(existing, additional).Merged?
    ensures
      var result := Merge(existing, additional).subjects;
      Merge(result, additional) == Merged(result, false)
  {
    MergeMerges(existing, additional);
    CoveredMerge(Merge(existing, additional).subjects, additional);
  }

  lemma {:induction false} CoveredMerge(subjects: seq<string>, additional: seq<string>)
    requires forall a :: a in additional ==> AnyIncludes(subjects, a)
    ensures Merge(subjects, additional) == Merged(subjects, false)
  {
    if |additional| > 0 {
      CoveredMerge(subjects, additional[..|additional| - 1]);
    }
  }

  /** The flag is false exactly when the set of subjects is unchanged, and then so is their order. */
  lemma ChangedIsExact(existing: seq<string>, additional: seq<string>)
    requires AllWellFormed(existing + additional) && Disjoint(existing) && Merge(existing, additional).Merged?
    ensures
      var Merged(result, changed) := Merge(existing, additional);
      && (!changed <==> forall p :: p in result <==> p in existing)
      && (!changed ==> result == existing)
  {
    hide Includes, WellFormed, Overlaps;
    var Merged(result, changed) := Merge(existing, additional);
    if changed {
      var a := NewSubject(existing, additional);
      MergeMerges(existing, additional);
      assert a in existing + additional;
      var p :| p in result && Includes(p, a);
      assert p !in existing;
    } else {
      Unchanged(existing, additional);
    }
  }

  lemma {:induction false} Unchanged(existing: seq<string>, additional: seq<string>)
    requires Merge(existing, additional).Merged? && !Merge(existing, additional).changed
    ensures Merge(existing, additional).subjects == existing
  {
    if |additional| > 0 {
      Unchanged(existing, additional[..|additional| - 1]);
    }
  }

  /** A merge that changes something adds a subject that none of the existing ones covers. */
  lemma {:induction false} NewSubject(existing: seq<string>, additional: seq<string>) returns (a: string)
    requires AllWellFormed(existing + additional) && Disjoint(existing)
    requires Merge(existing, additional).Merged? && Merge(existing, additional).changed
    ensures a in additional && !AnyIncludes(existing, a)
  {
    hide Includes, WellFormed, Overlaps;
    var n := |additional| - 1;
    assert forall p :: p in existing + additional[..n] ==> p in existing + additional;
    var before := Merge(existing, additional[..n]);
    if before.changed {
      a := NewSubject(existing, additional[..n]);
    } else {
      Unchanged(existing, additional[..n]);
      a := additional[n];
    }
  }

  ghost predicate PartiallyOverlap(p: string, q: string) {
    Overlaps(p, q) && !Includes(p, q) && !Includes(q, p)
  }

  /** Merging fails only on a subject that overlaps another one without covering it or being covered by it. */
  lemma {:induction false} FailureIsPartialOverlap(existing: seq<string>, additional: seq<string>)
    requires Merge(existing, additional).PartialOverlap?
    ensures
      var PartialOverlap(a, e) := Merge(existing, additional);
      a in additional && e in existing + additional && PartiallyOverlap(a, e)
  {
    hide Includes, Overlaps;
    var n := |additional| - 1;
    var before := Merge(existing, additional[..n]);
    if before.PartialOverlap? {
      FailureIsPartialOverlap(existing, additional[..n]);
    } else {
      KeepFails(before.subjects, additional[n]);
      MergeSelects(existing, additional[..n]);
    }
  }

  lemma {:induction false} KeepFails(subjects: seq<string>, a: string)
    requires Keep(subjects, a).PartialOverlap? && !AnyIncludes(subjects, a)
    ensures var PartialOverlap(b, e) := Keep(subjects, a); b == a && e in subjects && PartiallyOverlap(a, e)
  {
    hide Includes, Overlaps;
    var n := |subjects| - 1;
    assert subjects[n] in subjects;
    if Keep(subjects[..n], a).PartialOverlap? {
      KeepFails(subjects[..n], a);
    }
  }

  lemma {:induction false} MergeSelects(existing: seq<string>, additional: seq<string>)
    requires Merge(existing, additional).Merged?
    ensures forall p :: p in Merge(existing, additional).subjects ==> p in existing + additional
  {
    hide Includes, Overlaps;
    if |additional| > 0 {
      var n := |additional| - 1;
      MergeSelects(existing, additional[..n]);
      var before := Merge(existing, additional[..n]).subjects;
      if !AnyIncludes(before, additional[n]) {
        KeepSelects(before, additional[n]);
      }
    }
  }

  lemma {:induction false} KeepSelects(subjects: seq<string>, a: string)
    requires Keep(subjects, a).Merged?
    ensures forall p :: p in Keep(subjects, a).subjects ==> p in subjects
  {
    hide Includes, Overlaps;
    if |subjects| > 0 {
      KeepSelects(subjects[..|subjects| - 1], a);
    }
  }
}
