/** NATS subjects and patterns (common/natsclient/stream.go): a pattern is a sequence of tokens separated by dots, where
    "*" matches one token and ">" one or more at the end. Its language is the set of concrete subjects it matches. */
module Subjects {
  import opened Strings

  const ANY: string := "*"
  const REST: string := ">"

  // ----- Languages -----

  predicate Literal(token: string) { token != ANY && token != REST && |token| > 0 && NoDot(token) }

  /** Tokens of a concrete subject, or of the rest of one. */
  predicate Concrete(c: Tokens) { forall i :: 0 <= i < |c| ==> Literal(c[i]) }

  /** Tokens of a well-formed pattern, or of the rest of one: ">" is last if it occurs. */
  predicate Pattern(p: Tokens) {
    forall i :: 0 <= i < |p| ==> Literal(p[i]) || p[i] == ANY || (p[i] == REST && i == |p| - 1)
  }

  predicate Match(p: Tokens, c: Tokens) {
    if |p| == 0 then |c| == 0
    else if p[0] == REST then |c| > 0
    else |c| > 0 && (p[0] == ANY || p[0] == c[0]) && Match(p[1..], c[1..])
  }

  predicate WellFormed(pattern: string) { Pattern(Split(pattern)) }

  predicate Matches(pattern: string, subject: string) {
    Concrete(Split(subject)) && Match(Split(pattern), Split(subject))
  }

  // ----- Covering -----

  predicate Covers(super: Tokens, sub: Tokens) {
    if |super| == 0 then |sub| == 0
    else if super[0] == REST then |sub| > 0
    else
      && |sub| > 0
      && (if super[0] == ANY then sub[0] != REST else super[0] == sub[0])
      && Covers(super[1..], sub[1..])
  }

  predicate Includes(super: string, sub: string) { Covers(Split(super), Split(sub)) }

  /** A subject that the pattern matches. */
  function Instance(p: Tokens): Tokens {
    if |p| == 0 then []
    else if p[0] == REST then ["x"]
    else [if p[0] == ANY then "x" else p[0]] + Instance(p[1..])
  }

  lemma {:induction false} InstanceMatches(p: Tokens)
    requires Pattern(p)
    ensures Concrete(Instance(p)) && Match(p, Instance(p)) && (|p| > 0 ==> |Instance(p)| > 0)
  {
    if |p| > 0 && p[0] != REST {
      assert Pattern(p[1..]);
      InstanceMatches(p[1..]);
    }
  }

  lemma {:induction false} CoversSound(super: Tokens, sub: Tokens, c: Tokens)
    requires Covers(super, sub) && Pattern(sub) && Match(sub, c)
    ensures Match(super, c)
  {
    if |super| > 0 && super[0] != REST {
      assert Pattern(sub[1..]);
      CoversSound(super[1..], sub[1..], c[1..]);
    }
  }

  /** A subject that the one pattern matches and the other does not. */
  lemma {:induction false} CoversWitness(super: Tokens, sub: Tokens) returns (c: Tokens)
    requires !Covers(super, sub) && Pattern(sub)
    ensures Concrete(c) && Match(sub, c) && !Match(super, c)
  {
    if |super| == 0 || |sub| == 0 || super[0] == REST {
      c := Instance(sub);
      InstanceMatches(sub);
      return;
    }
    assert Pattern(sub[1..]);
    var token := if sub[0] == ANY || sub[0] == REST then if super[0] == "x" then "y" else "x" else sub[0];
    if sub[0] == REST {
      c := if |super| == 1 then [token, token] else [token];
    } else if super[0] == ANY || super[0] == sub[0] {
      var rest := CoversWitness(super[1..], sub[1..]);
      c := [token] + rest;
    } else {
      InstanceMatches(sub[1..]);
      c := [token] + Instance(sub[1..]);
    }
  }

  /** Covering is inclusion of languages. */
  lemma CoversIsInclusion(super: string, sub: string)
    requires WellFormed(sub)
    ensures Includes(super, sub) <==> forall s :: Matches(sub, s) ==> Matches(super, s)
  {
    if Includes(super, sub) {
      forall s | Matches(sub, s) ensures Matches(super, s) {
        CoversSound(Split(super), Split(sub), Split(s));
      }
    } else {
      var c := CoversWitness(Split(super), Split(sub));
      SplitJoin(c);
      assert Matches(sub, Join(c)) && !Matches(super, Join(c));
    }
  }

  // ----- Colliding -----

  predicate Collide(a: Tokens, b: Tokens) {
    if |a| == 0 && |b| == 0 then true
    else if |a| == 0 || |b| == 0 then false
    else if a[0] == REST || b[0] == REST then true
    else (a[0] == ANY || b[0] == ANY || a[0] == b[0]) && Collide(a[1..], b[1..])
  }

  predicate Overlaps(a: string, b: string) { Collide(Split(a), Split(b)) }

  lemma {:induction false} CollideWitness(a: Tokens, b: Tokens) returns (c: Tokens)
    requires Collide(a, b) && Pattern(a) && Pattern(b)
    ensures Concrete(c) && Match(a, c) && Match(b, c)
  {
    if |a| == 0 {
      return [];
    }
    assert Pattern(a[1..]) && Pattern(b[1..]);
    if a[0] == REST {
      c := Instance(b);
      InstanceMatches(b);
    } else if b[0] == REST {
      c := Instance(a);
      InstanceMatches(a);
    } else {
      var rest := CollideWitness(a[1..], b[1..]);
      c := [if a[0] != ANY then a[0] else if b[0] != ANY then b[0] else "x"] + rest;
    }
  }

  lemma {:induction false} CommonMatchCollides(a: Tokens, b: Tokens, c: Tokens)
    requires Match(a, c) && Match(b, c)
    ensures Collide(a, b)
  {
    if |a| > 0 && |b| > 0 && a[0] != REST && b[0] != REST {
      CommonMatchCollides(a[1..], b[1..], c[1..]);
    }
  }

  /** Colliding is intersection of languages. */
  lemma CollideIsIntersection(a: string, b: string)
    requires WellFormed(a) && WellFormed(b)
    ensures Overlaps(a, b) <==> exists s :: Matches(a, s) && Matches(b, s)
  {
    if Overlaps(a, b) {
      var c := CollideWitness(Split(a), Split(b));
      SplitJoin(c);
      assert Matches(a, Join(c)) && Matches(b, Join(c));
    }
    if exists s :: Matches(a, s) && Matches(b, s) {
      var s :| Matches(a, s) && Matches(b, s);
      CommonMatchCollides(Split(a), Split(b), Split(s));
    }
  }

  // ----- The index loops -----

  /** Reports whether every concrete subject that matches `sub` also matches `super`. */
  method SubjectCovers(super: string, sub: string) returns (r: bool)
    ensures r == Includes(super, sub)
    ensures WellFormed(sub) ==> (r <==> forall s :: Matches(sub, s) ==> Matches(super, s))
  {
    if WellFormed(sub) {
      CoversIsInclusion(super, sub);
    }
    var st, ft := Split(super), Split(sub);
    var si, fi := 0, 0;
    while true
      invariant 0 <= si <= |st| && 0 <= fi <= |ft|
      invariant Covers(st, ft) == Covers(st[si..], ft[fi..])
      decreases |st| - si
    {
      if si == |st| {
        return fi == |ft|;
      }
      if st[si] == REST {
        return fi < |ft|;
      }
      if fi == |ft| {
        return false;
      }
      if st[si] == ANY {
        if ft[fi] == REST {
          return false;
        }
      } else if st[si] != ft[fi] {
        return false;
      }
      assert st[si..][1..] == st[si + 1..] && ft[fi..][1..] == ft[fi + 1..];
      si, fi := si + 1, fi + 1;
    }
  }

  /** Reports whether some concrete subject matches both. */
  method SubjectsCollide(a: string, b: string) returns (r: bool)
    ensures r == Overlaps(a, b)
    ensures WellFormed(a) && WellFormed(b) ==> (r <==> exists s :: Matches(a, s) && Matches(b, s))
  {
    if WellFormed(a) && WellFormed(b) {
      CollideIsIntersection(a, b);
    }
    var at, bt := Split(a), Split(b);
    var i := 0;
    while true
      invariant 0 <= i <= |at| && i <= |bt|
      invariant Collide(at, bt) == Collide(at[i..], bt[i..])
      decreases |at| - i
    {
      var aDone, bDone := i == |at|, i == |bt|;
      if aDone && bDone {
        return true;
      }
      if aDone || bDone {
        return false;
      }
      if at[i] == REST || bt[i] == REST {
        return true;
      }
      if at[i] != ANY && bt[i] != ANY && at[i] != bt[i] {
        return false;
      }
      assert at[i..][1..] == at[i + 1..] && bt[i..][1..] == bt[i + 1..];
      i := i + 1;
    }
  }
}
