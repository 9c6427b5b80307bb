/** Operations on slices that several components share. */
module Slices {

  ghost predicate NoRepeats<T(!new)>(s: seq<T>) {
    forall i, j :: 0 <= i < j < |s| ==> s[i] != s[j]
  }

  ghost predicate IsReverse<T(!new)>(s: seq<T>, r: seq<T>) {
    |r| == |s| && forall i :: 0 <= i < |s| ==> r[i] == s[|s| - 1 - i]
  }

  /** Reverses a slice by swapping from both ends. */
  method Reverse<T(!new)>(s: seq<T>) returns (r: seq<T>)
    ensures IsReverse(s, r)
  {
    r := s;
    var i, j := 0, |s| - 1;
    while i < j
      invariant 0 <= i <= j + 2 && j == |s| - 1 - i && |r| == |s|
      invariant forall k :: i <= k <= j ==> r[k] == s[k]
      invariant forall k :: 0 <= k < i || j < k < |s| ==> r[k] == s[|s| - 1 - k]
    {
      r := r[i := r[j]][j := r[i]];
      i, j := i + 1, j - 1;
    }
  }

  // ----- Sorting strings -----

  /** The order of Go's `<` on strings, by code points. */
  predicate Less(a: string, b: string) {
    |b| > 0 && (|a| == 0 || a[0] < b[0] || (a[0] == b[0] && Less(a[1..], b[1..])))
  }

  lemma {:induction false} LessIsLinear(a: string, b: string)
    ensures Less(a, b) || a == b || Less(b, a)
    ensures !(Less(a, b) && Less(b, a))
    ensures a == b ==> !Less(a, b)
  {
    if |a| > 0 && |b| > 0 && a[0] == b[0] {
      LessIsLinear(a[1..], b[1..]);
      assert a == [a[0]] + a[1..] && b == [b[0]] + b[1..];
    }
  }

  /** The strings agree up to a place where the first one ends or has the smaller character. */
  ghost predicate Before(a: string, b: string) {
    exists k :: 0 <= k <= |a| && k < |b| && a[..k] == b[..k] && (k == |a| || a[k] < b[k])
  }

  /** One string is less than another exactly if it comes first at the first difference. */
  lemma {:induction false} LessExactly(a: string, b: string)
    ensures Less(a, b) <==> Before(a, b)
  {
    if |a| > 0 && |b| > 0 && a[0] == b[0] {
      LessExactly(a[1..], b[1..]);
      if k :| 0 <= k <= |a[1..]| && k < |b[1..]| && a[1..][..k] == b[1..][..k] && (k == |a[1..]| || a[1..][k] < b[1..][k]) {
        assert a[..k + 1] == [a[0]] + a[1..][..k] && b[..k + 1] == [b[0]] + b[1..][..k];
      }
      if k :| 0 <= k <= |a| && k < |b| && a[..k] == b[..k] && (k == |a| || a[k] < b[k]) {
        assert k > 0;
        assert a[1..][..k - 1] == a[..k][1..] && b[1..][..k - 1] == b[..k][1..];
      }
    } else if |b| > 0 && (|a| == 0 || a[0] < b[0]) {
      assert a[..0] == b[..0];
    } else {
      forall k | 0 < k <= |a| && k < |b| ensures a[..k] != b[..k] {
        assert a[..k][0] == a[0] && b[..k][0] == b[0];
      }
    }
  }

  lemma {:induction false} LessTransitive(a: string, b: string, c: string)
    requires Less(a, b) && Less(b, c)
    ensures Less(a, c)
  {
    if |a| > 0 && a[0] == b[0] == c[0] {
      LessTransitive(a[1..], b[1..], c[1..]);
    }
  }

  ghost predicate Increasing(s: seq<string>) {
    forall i, j :: 0 <= i < j < |s| ==> Less(s[i], s[j])
  }

  /** Inserts a string before the first one that is not less. */
  function Insert(s: seq<string>, x: string): seq<string> {
    if |s| == 0 || !Less(s[0], x) then [x] + s else [s[0]] + Insert(s[1..], x)
  }

  /** Stands for sort.Slice on distinct strings. */
  function Sorted(s: seq<string>): seq<string> {
    if |s| == 0 then [] else Insert(Sorted(s[1..]), s[0])
  }

  lemma {:induction false} InsertKeepsOrder(s: seq<string>, x: string)
    requires Increasing(s) && x !in s
    ensures Increasing(Insert(s, x)) && forall y :: y in Insert(s, x) <==> y in s || y == x
  {
    if |s| > 0 {
      LessIsLinear(s[0], x);
      if Less(s[0], x) {
        InsertKeepsOrder(s[1..], x);
        var rest := Insert(s[1..], x);
        forall j | 0 <= j < |rest| ensures Less(s[0], rest[j]) {
          assert rest[j] in rest;
        }
      } else {
        forall j | 0 < j < |s| ensures Less(x, s[j]) {
          LessTransitive(x, s[0], s[j]);
        }
      }
    }
  }

  /** Sorting keeps the elements and puts them in increasing order. */
  lemma {:induction false} SortedIsIncreasing(s: seq<string>)
    requires NoRepeats(s)
    ensures Increasing(Sorted(s)) && forall x :: x in Sorted(s) <==> x in s
  {
    if |s| > 0 {
      SortedIsIncreasing(s[1..]);
      InsertKeepsOrder(Sorted(s[1..]), s[0]);
    }
  }

  lemma IncreasingIsDistinct(s: seq<string>)
    requires Increasing(s)
    ensures NoRepeats(s)
  {
    forall i, j | 0 <= i < j < |s| ensures s[i] != s[j] {
      LessIsLinear(s[i], s[j]);
    }
  }
}
