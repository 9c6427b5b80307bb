/** Predicates over records and their evaluation in memory (common/query). */
module Query {
  import opened Options
  import opened Strings
  import Slices

  /** A Go value as reflection sees it. `boxed` marks a map[string]any: what it holds has the kind of an interface and is
      not walked further. The keys of a struct are its JSON names, which differ from its Go names in letter case only, and
      include those of the structs embedded in it. `NilPointer` is a nil pointer or a nil map: it holds nothing, but does
      not equal nil. A pointer leads to something that is no pointer. */
  datatype Value =
    | Nil
    | Str(s: string)
    | Num(n: int)
    | Struct(fields: map<string, Value>)
    | Map(entries: map<string, Value>, boxed: bool)
    | Slice(elems: seq<Value>)
    | Pointer(to: Value)
    | NilPointer

  datatype Operator =
    | Equal | NotEqual | Greater | GreaterEqual | Less | LessEqual | In | NotIn
    | Like | NotLike | IsNull | IsNotNull | Contains | StartsWith | EndsWith

  datatype Operand = Single(value: Value) | List(values: seq<Value>)

  datatype Junction = And | Or

  datatype Predicate =
    | Atomic(field: string, op: Operator, operand: Operand)
    | Compound(junction: Junction, predicates: seq<Predicate>)
    | MatchAll

  // ----- Field access (reflect.go) -----

  function NamesLike(fields: map<string, Value>, part: string): set<string> {
    set k | k in fields && EqualFold(k, part)
  }

  /** The field whose name equals `part` up to letter case, if there is exactly one. */
  function FieldLike(fields: map<string, Value>, part: string): (r: Option<string>)
    ensures r.Some? <==> exists k :: NamesLike(fields, part) == {k}
    ensures r.Some? ==> NamesLike(fields, part) == {r.value} && r.value in fields
  {
    var names := NamesLike(fields, part);
    if exists k :: k in names && names == {k} then
      var k :| k in names && names == {k};
      Some(k)
    else
      assert forall k :: names == {k} ==> k in names;
      None
  }

  function Deref(v: Value): Value {
    if v.Pointer? then v.to else v
  }

  predicate IsPointer(v: Value) { v.Pointer? || v.NilPointer? }

  /** The value at the end of a path. A slice before the end yields the slice of what its elements have there. */
  function Get(v: Value, parts: Tokens, boxed: bool): Option<Value>
    decreases |parts|, 0
  {
    if |parts| == 0 then Some(v)
    else if boxed then None
    else
      match Deref(v)
      case Map(entries, b) => if parts[0] in entries then Get(entries[parts[0]], parts[1..], b) else None
      case Struct(fields) =>
        var name := FieldLike(fields, parts[0]);
        if name.None? then None
        else
          var field := fields[name.value];
          if |parts| > 1 && Deref(field).Slice? then
            var found := Collect(Deref(field).elems, parts[1..]);
            if |found| > 0 then Some(Slice(found)) else None
          else Get(field, parts[1..], false)
      case _ => None
  }

  function Collect(elems: seq<Value>, parts: Tokens): seq<Value>
    decreases |parts|, |elems| + 1
  {
    if |elems| == 0 then []
    else
      var rest := Collect(elems[..|elems| - 1], parts);
      var v := Get(elems[|elems| - 1], parts, false);
      if v.Some? && !v.value.Nil? then rest + [v.value] else rest
  }

  /** Walks along the path; recursion is on the rest of the path, for every element of a slice. */
  method GetFieldValue(obj: Value, fieldPath: string) returns (r: Option<Value>)
    ensures r == Get(obj, Split(fieldPath), false)
    decreases |Split(fieldPath)|
  {
    var parts := Split(fieldPath);
    SplitTokens(fieldPath);
    var val, boxed := obj, false;
    for i := 0 to |parts|
      invariant Get(obj, parts, false) == Get(val, parts[i..], boxed)
    {
      var part := parts[i];
      assert parts[i..][0] == part && parts[i..][1..] == parts[i + 1..];
      if boxed {
        return None;
      }
      if val.Pointer? {
        val := val.to;
      }
      if val.Map? {
        if part !in val.entries {
          return None;
        }
        val, boxed := val.entries[part], val.boxed;
        continue;
      }
      if !val.Struct? {
        return None;
      }
      var name := FieldLike(val.fields, part);
      if name.None? {
        return None;
      }
      val := val.fields[name.value];
      if i < |parts| - 1 && val.Pointer? && val.to.Slice? {
        val := val.to;
      }
      if i < |parts| - 1 && val.Slice? {
        var remainingPath := Join(parts[i + 1..]);
        SplitJoin(parts[i + 1..]);
        var results := [];
        for j := 0 to |val.elems|
          invariant results == Collect(val.elems[..j], parts[i + 1..])
        {
          var elem := GetFieldValue(val.elems[j], remainingPath);
          assert val.elems[..j + 1][..j] == val.elems[..j];
          if elem.Some? && !elem.value.Nil? {
            results := results + [elem.value];
          }
        }
        assert val.elems[..|val.elems|] == val.elems;
        return if |results| > 0 then Some(Slice(results)) else None;
      }
    }
    return Some(val);
  }

  // ----- Comparison -----

  predicate IsOrdering(op: Operator) { op.Less? || op.LessEqual? || op.Greater? || op.GreaterEqual? }

  predicate CompareNumbers(op: Operator, a: int, b: int)
    requires IsOrdering(op)
  {
    match op case Less => a < b case LessEqual => a <= b case Greater => a > b case GreaterEqual => a >= b
  }

  predicate CompareTexts(op: Operator, a: string, b: string)
    requires IsOrdering(op)
  {
    match op
    case Less => Slices.Less(a, b)
    case LessEqual => !Slices.Less(b, a)
    case Greater => Slices.Less(b, a)
    case GreaterEqual => !Slices.Less(a, b)
  }

  /** Pointers to numbers are followed, others are not. */
  predicate Same(v: Value, w: Value) {
    if Deref(v).Num? && Deref(w).Num? then Deref(v).n == Deref(w).n else v == w
  }

  /** Numbers are compared as numbers and texts as texts. Anything else would be formatted as text, and substring tests
      are not modelled either: these are false here. */
  predicate CompareOne(op: Operator, v: Value, operand: Operand) {
    match op
    case Equal => operand.Single? && Same(v, operand.value)
    case NotEqual => !(operand.Single? && Same(v, operand.value))
    case In => operand.List? && exists w :: w in operand.values && Same(v, w)
    case NotIn => !(operand.List? && exists w :: w in operand.values && Same(v, w))
    case IsNull => v.Nil?
    case IsNotNull => !v.Nil?
    case _ =>
      && IsOrdering(op) && operand.Single?
      && if Deref(v).Num? && operand.value.Num? then CompareNumbers(op, Deref(v).n, operand.value.n)
         else v.Str? && operand.value.Str? && CompareTexts(op, v.s, operand.value.s)
  }

  /** Two numbers compare as numbers, two texts by the first difference. */
  lemma ComparesExactly(a: int, b: int, s: string, t: string)
    ensures CompareOne(Equal, Num(a), Single(Num(b))) <==> a == b
    ensures CompareOne(NotEqual, Num(a), Single(Num(b))) <==> a != b
    ensures CompareOne(Less, Num(a), Single(Num(b))) <==> a < b
    ensures CompareOne(LessEqual, Num(a), Single(Num(b))) <==> a <= b
    ensures CompareOne(Greater, Num(a), Single(Num(b))) <==> b < a
    ensures CompareOne(GreaterEqual, Num(a), Single(Num(b))) <==> b <= a
    ensures CompareOne(Equal, Str(s), Single(Str(t))) <==> s == t
    ensures CompareOne(NotEqual, Str(s), Single(Str(t))) <==> s != t
    ensures CompareOne(Less, Str(s), Single(Str(t))) <==> Slices.Before(s, t)
    ensures CompareOne(LessEqual, Str(s), Single(Str(t))) <==> Slices.Before(s, t) || s == t
    ensures CompareOne(Greater, Str(s), Single(Str(t))) <==> Slices.Before(t, s)
    ensures CompareOne(GreaterEqual, Str(s), Single(Str(t))) <==> Slices.Before(t, s) || s == t
  {
    Slices.LessExactly(s, t);
    Slices.LessExactly(t, s);
    Slices.LessIsLinear(s, t);
    hide Slices.Before, Slices.Less;
  }

  /** A slice compares like any of its elements. */
  predicate CompareValues(op: Operator, v: Value, operand: Operand) {
    if v.Slice? then exists e :: e in v.elems && CompareOne(op, e, operand) else CompareOne(op, v, operand)
  }

  // ----- Evaluation (predicate.go) -----

  predicate MatchesAtom(field: string, op: Operator, operand: Operand, record: Value) {
    var v := Get(record, Split(field), false);
    if v.None? then op.IsNull? else CompareValues(op, v.value, operand)
  }

  predicate Matches(p: Predicate, record: Value) {
    match p
    case Atomic(field, op, operand) => MatchesAtom(field, op, operand, record)
    case Compound(junction, predicates) =>
      || |predicates| == 0
      || (match junction
          case And => forall q :: q in predicates ==> Matches(q, record)
          case Or => exists q :: q in predicates && Matches(q, record))
    case MatchAll => true
  }
}
