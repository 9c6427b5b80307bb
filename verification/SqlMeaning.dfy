/** What the generated SQL means under three-valued logic, and that it selects exactly the records that match. */
module SqlMeaning {
  import opened Options
  import opened Strings
  import opened Query
  import opened SqlBuilder

  datatype Truth = True | False | Unknown

  /** NULL, a text, a number, a JSON value, the text of a JSON number, or that of another JSON value. */
  datatype Cell = Null | Text(s: string) | Number(n: int) | Json(j: Value) | NumberText(n: int) | OtherText

  type Row = map<string, Cell>

  function Not3(t: Truth): Truth {
    match t case True => False case False => True case Unknown => Unknown
  }

  // ----- Expressions -----

  /** Pointers are written as what they lead to. */
  function Key(j: Value, key: string): Option<Value> {
    match Deref(j)
    case Struct(fields) => if key in fields then Some(fields[key]) else None
    case Map(entries, _) => if key in entries then Some(entries[key]) else None
    case _ => None
  }

  /** `->>` of a string is its text; of JSON null and of a missing key it is NULL. */
  function TextOf(j: Option<Value>): Cell {
    if j.None? then Null
    else
      var v := Deref(j.value);
      if v.Str? then Text(v.s) else if v.Nil? || v.NilPointer? then Null else if v.Num? then NumberText(v.n) else OtherText
  }

  /** A string that JSON writes between quotes as it is. */
  predicate Plain(s: string) {
    forall c :: c in s ==> ' ' <= c <= '~' && c != '"' && c != '\\'
  }

  function Eval(e: Expr, row: Row, elem: Cell): Cell {
    match e
    case Column(name) => if name in row then row[name] else Null
    case Elem => elem
    case Arrow(of, key) =>
      var c := Eval(of, row, elem);
      if c.Json? && Key(c.j, key).Some? then Json(Key(c.j, key).value) else Null
    case ArrowText(of, key) =>
      var c := Eval(of, row, elem);
      if c.Json? then TextOf(Key(c.j, key)) else Null
    case AsText(of) =>
      var c := Eval(of, row, elem);
      if c.Json? && c.j.Str? && Plain(c.j.s) then Text("\"" + c.j.s + "\"")
      else if c.Json? && c.j.Num? then NumberText(c.j.n)
      else if c.Text? || c.Null? then c
      else OtherText
  }

  function Arg(args: seq<Operand>, n: nat): Cell {
    if !(1 <= n <= |args| && args[n - 1].Single?) then OtherText
    else
      var v := args[n - 1].value;
      if v.Str? then Text(v.s) else if v.Num? then Number(v.n) else OtherText
  }

  // ----- Conditions -----

  /** Equality of texts; unknown if a side is NULL, and here also if it is a text that is not modelled. */
  function Eq3(a: Cell, b: Cell): Truth {
    if a.Text? && b.Text? then if a.s == b.s then True else False else Unknown
  }

  function NumberOf(c: Cell): Option<int> {
    if c.Number? then Some(c.n) else if c.NumberText? then Some(c.n)
    else if c.Json? && c.j.Num? then Some(c.j.n) else None
  }

  /** Comparison of numbers; unknown if a side is NULL, and here also if it is no number. */
  function Compare3(op: Operator, a: Cell, b: Cell): Truth
    requires IsOrdering(op)
  {
    var x, y := NumberOf(a), NumberOf(b);
    if x.None? || y.None? then Unknown else if CompareNumbers(op, x.value, y.value) then True else False
  }

  function In3(a: Cell, args: seq<Operand>, params: seq<nat>): Truth {
    if exists n :: n in params && Eq3(a, Arg(args, n)).True? then True
    else if exists n :: n in params && Eq3(a, Arg(args, n)).Unknown? then Unknown
    else False
  }

  predicate Selects(row: Row, column: string) {
    column in row && row[column].Json? && row[column].j.Slice?
  }

  /** Conditions that are not modelled are unknown: the order of texts, which depends on the collation, pattern matching,
      and `@>` with a parameter. */
  function Holds(sql: Sql, row: Row, elem: Cell, args: seq<Operand>): Truth {
    match sql
    case Always => True
    case NullTest(e, isNull) => if Eval(e, row, elem).Null? == isNull then True else False
    case Test(e, op, n) =>
      if op.Equal? then Eq3(Eval(e, row, elem), Arg(args, n))
      else if op.NotEqual? then Not3(Eq3(Eval(e, row, elem), Arg(args, n)))
      else if IsOrdering(op) && Eval(e, row, elem).Number? then Compare3(op, Eval(e, row, elem), Arg(args, n))
      else Unknown
    case NumericTest(e, op, n) => if IsOrdering(op) then Compare3(op, Eval(e, row, elem), Arg(args, n)) else Unknown
    case Membership(e, negated, params) =>
      var t := In3(Eval(e, row, elem), args, params);
      if negated then Not3(t) else t
    case HasText(e, n) =>
      var c := Eval(e, row, elem);
      if !c.Json? || !Arg(args, n).Text? then Unknown
      else if c.j.Slice? && Str(Arg(args, n).s) in c.j.elems then True
      else False
    case IsJsonText(e, n) =>
      var c := Eval(e, row, elem);
      if !c.Json? || !Arg(args, n).Text? then Unknown
      else if c.j == Str(Arg(args, n).s) then True
      else False
    case AnyElement(column, condition) =>
      if Selects(row, column) && exists j :: j in row[column].j.elems && Holds(condition, row, Json(j), args).True?
      then True else False
    case Joined(junction, parts) =>
      (match junction
       case And =>
         if exists p :: p in parts && Holds(p, row, elem, args).False? then False
         else if exists p :: p in parts && Holds(p, row, elem, args).Unknown? then Unknown
         else True
       case Or =>
         if exists p :: p in parts && Holds(p, row, elem, args).True? then True
         else if exists p :: p in parts && Holds(p, row, elem, args).Unknown? then Unknown
         else False)
    case _ => Unknown
  }

  /** A WHERE clause selects a row only when it is true. */
  predicate Where(sql: Sql, row: Row, args: seq<Operand>) {
    Holds(sql, row, Null, args).True?
  }

  // ----- When a leaf means the same in the database and in memory -----

  predicate IsNullTest(op: Operator) { op.IsNull? || op.IsNotNull? }

  /** Equality and membership tests with text operands. */
  predicate TextOperand(op: Operator, operand: Operand) {
    if op.Equal? || op.NotEqual? then operand.Single? && operand.value.Str?
    else (op.In? || op.NotIn?) && operand.List? && |operand.values| > 0 && forall v :: v in operand.values ==> v.Str?
  }

  /** Ordering tests with a number. */
  predicate NumberOperand(op: Operator, operand: Operand) {
    IsOrdering(op) && operand.Single? && operand.value.Num?
  }

  /** What a path leads to. */
  datatype Leaf = TextLeaf | NumberLeaf | ListLeaf | AnyLeaf

  predicate NoPointers(elems: seq<Value>) { forall e :: e in elems ==> !IsPointer(e) }

  /** A pointer at the end of a path is not followed when it is compared in memory. */
  predicate IsLeaf(v: Value, leaf: Leaf) {
    match leaf
    case TextLeaf => v.Nil? || v.Str?
    case NumberLeaf => v.Num?
    case ListLeaf => v.Nil? || (v.Slice? && NoPointers(v.elems))
    case AnyLeaf => !IsPointer(v)
  }

  /** The path leads through objects to such a value; it ends early where a key is missing. Struct fields are written with
      their exact names, no array lies on the way, and nothing is looked up below an untyped map. */
  predicate Straight(v: Value, path: Tokens, boxed: bool, leaf: Leaf)
    decreases |path|
  {
    if |path| == 0 then IsLeaf(v, leaf)
    else
      && !boxed
      && match Deref(v)
         case Struct(fields) =>
           && ExactKeys(fields, path[0])
           && (path[0] in fields ==>
                 Straight(fields[path[0]], path[1..], false, leaf) && (|path| > 1 ==> !Deref(fields[path[0]]).Slice?))
         case Map(entries, b) => path[0] in entries ==> Straight(entries[path[0]], path[1..], b, leaf)
         case Slice(_) => false
         case _ => true
  }

  /** No other key equals this one up to letter case. */
  predicate ExactKeys(fields: map<string, Value>, key: string) {
    forall k :: k in fields && EqualFold(k, key) ==> k == key
  }

  function CellAt(row: Row, column: string): Cell {
    if column in row then row[column] else Null
  }

  /** The JSONB column holds what the record has in the field, or NULL for nothing. */
  predicate Stored(row: Row, column: string, v: Option<Value>) {
    CellAt(row, column) == if v.None? || v.value.Nil? then Null else Json(v.value)
  }

  /** The column holds the text or the number that the record has in the field, or NULL for nothing. */
  predicate StoredPlainly(row: Row, column: string, v: Option<Value>) {
    var cell := CellAt(row, column);
    if v.None? || v.value.Nil? then cell.Null?
    else if v.value.Str? then cell == Text(v.value.s)
    else if v.value.Num? then cell == Number(v.value.n)
    else !cell.Null?
  }

  predicate Negated(op: Operator) { op.NotEqual? || op.NotIn? }

  /** When a null test of a value that is written as JSON means the same as of the value itself. JSON null is not NULL, and
      an array is not NULL, while in memory a slice is tested for elements that are nil or that are not. */
  predicate NullAgrees(op: Operator, v: Option<Value>) {
    v.Some? ==>
      && !v.value.Nil? && !IsPointer(v.value)
      && (v.value.Slice? ==> if op.IsNull? then Nil !in v.value.elems else exists e :: e in v.value.elems && !e.Nil?)
  }

  /** The same for a column, which is NULL if the value is nil. */
  predicate ColumnNullAgrees(op: Operator, v: Option<Value>) {
    v == Some(Nil) || NullAgrees(op, v)
  }

  /** A test of a column: of a text, of a number, or for null. */
  predicate FaithfulColumn(op: Operator, operand: Operand, v: Option<Value>) {
    || (TextOperand(op, operand) && (v.Some? ==> v.value.Str? || (v.value.Nil? && !Negated(op))))
    || (NumberOperand(op, operand) && (v.Some? ==> v.value.Num?))
    || (IsNullTest(op) && ColumnNullAgrees(op, v))
  }

  /** A test of what a path through objects leads to, `end`, from the value `v` of the column. */
  predicate FaithfulPath(op: Operator, operand: Operand, v: Value, path: Tokens) {
    var end := Get(v, path, false);
    || (TextOperand(op, operand) && Straight(v, path, false, TextLeaf) && (Negated(op) ==> end != Some(Nil)))
    || (NumberOperand(op, operand) && Straight(v, path, false, NumberLeaf))
    || (IsNullTest(op) && Straight(v, path, false, AnyLeaf) && NullAgrees(op, end))
  }

  /** The element has a value at the end of the path. */
  predicate HasValue(e: Value, path: Tokens) {
    var end := Get(e, path, false);
    end.Some? && !end.value.Nil?
  }

  /** There is an element, and either all of them have a value at the end of the path, or none has. */
  predicate AllOrNone(elems: seq<Value>, path: Tokens) {
    |elems| > 0 && ((forall e :: e in elems ==> HasValue(e, path)) || (forall e :: e in elems ==> !HasValue(e, path)))
  }

  /** A test of what a path leads to in some element of an array. */
  predicate FaithfulElements(op: Operator, operand: Operand, elems: seq<Value>, path: Tokens) {
    && (op.IsNull? ==> AllOrNone(elems, path))
    && forall e :: e in elems ==>
         || (TextOperand(op, operand) && Straight(e, path, false, TextLeaf))
         || (NumberOperand(op, operand) && Straight(e, path, false, NumberLeaf))
         || (IsNullTest(op) && Straight(e, path, false, AnyLeaf))
  }

  predicate FaithfulScalars(op: Operator, operand: Operand, elems: seq<Value>) {
    || (op.Equal? && TextOperand(op, operand) && NoPointers(elems))
    || (NumberOperand(op, operand) && forall e :: e in elems ==> e.Num?)
  }

  /** A test of a JSONB column of the given type, whose value in memory is `v`. */
  predicate FaithfulJson(fieldType: FieldType, op: Operator, operand: Operand, v: Option<Value>, path: Tokens) {
    if |path| == 0 && IsNullTest(op) then ColumnNullAgrees(op, v)
    else
      && (TextOperand(op, operand) || NumberOperand(op, operand) || IsNullTest(op))
      && match fieldType
         case Scalar => |path| > 0 && (v.Some? ==> FaithfulPath(op, operand, v.value, path))
         case ArrayOfObjects =>
           && |path| > 0 && (op.IsNull? ==> v.Some?)
           && (v.Some? ==> v.value.Slice? && FaithfulElements(op, operand, v.value.elems, path))
         case ArrayOfScalars =>
           && |path| == 0 && (op.Equal? || NumberOperand(op, operand))
           && (v.Some? ==> v.value.Slice? && FaithfulScalars(op, operand, v.value.elems))
         case MapOfArrays =>
           && |path| > 0 && op.Equal? && TextOperand(op, operand)
           && (v.Some? ==> Straight(v.value, path, false, ListLeaf))
  }

  /** The database stores the record, and the leaf is one of these tests. */
  predicate Faithful(c: Config, field: string, op: Operator, operand: Operand, record: Value, row: Row) {
    var parts := Split(field);
    var root := ToLower(parts[0]);
    && record.Struct?
    && if root !in c.jsonbFields then
         var v := Get(record, parts, false);
         StoredPlainly(row, if field in c.mappings then c.mappings[field] else field, v) && FaithfulColumn(op, operand, v)
       else
         var v := Get(record, parts[..1], false);
         && Stored(row, if parts[0] in c.mappings then c.mappings[parts[0]] else root, v)
         && FaithfulJson(if root in c.fieldTypes then c.fieldTypes[root] else ArrayOfObjects, op, operand, v, parts[1..])
  }

  predicate AllFaithful(c: Config, p: Predicate, record: Value, row: Row) {
    match p
    case Atomic(field, op, operand) => Faithful(c, field, op, operand, record, row)
    case Compound(_, predicates) => forall q :: q in predicates ==> AllFaithful(c, q, record, row)
    case MatchAll => true
  }

  // ----- Paths -----

  lemma ExactName(fields: map<string, Value>, part: string)
    requires ExactKeys(fields, part)
    ensures FieldLike(fields, part) == if part in fields then Some(part) else None
  {
    if part in fields {
      assert NamesLike(fields, part) == {part};
    } else {
      assert NamesLike(fields, part) == {};
    }
  }

  /** One step along a straight path is the same in memory and in JSON. */
  lemma StraightStep(v: Value, path: Tokens, boxed: bool, leaf: Leaf)
    requires |path| > 0 && Straight(v, path, boxed, leaf)
    ensures
      var next := Key(v, path[0]);
      var b := Deref(v).Map? && Deref(v).boxed;
      && (next.Some? ==> Straight(next.value, path[1..], b, leaf))
      && Get(v, path, boxed) == if next.Some? then Get(next.value, path[1..], b) else None
  {
    if Deref(v).Struct? {
      ExactName(Deref(v).fields, path[0]);
    }
  }

  function JsonOf(v: Option<Value>): Cell {
    if v.Some? then Json(v.value) else Null
  }

  /** Along a straight path, the accessor finds the value that is found in memory, as text or as JSON. */
  lemma {:induction false} PathAgrees(v: Value, path: Tokens, boxed: bool, leaf: Leaf, text: bool, e: Expr, row: Row, elem: Cell)
    requires |path| > 0 && Straight(v, path, boxed, leaf) && Eval(e, row, elem) == Json(v)
    ensures var r := Get(v, path, boxed);
      && Eval(Access(e, path, text), row, elem) == (if text then TextOf(r) else JsonOf(r))
      && (r.Some? ==> IsLeaf(r.value, leaf))
    decreases |path|
  {
    StraightStep(v, path, boxed, leaf);
    var next := Key(v, path[0]);
    if |path| == 1 {
      assert path[1..] == [];
    } else if next.Some? {
      PathAgrees(next.value, path[1..], Deref(v).Map? && Deref(v).boxed, leaf, text, Arrow(e, path[0]), row, elem);
    } else {
      NullPath(Arrow(e, path[0]), path[1..], text, row, elem);
    }
  }

  lemma {:induction false} NullPath(e: Expr, path: Tokens, text: bool, row: Row, elem: Cell)
    requires |path| > 0 && Eval(e, row, elem).Null?
    ensures Eval(Access(e, path, text), row, elem).Null?
    decreases |path|
  {
    if |path| > 1 {
      NullPath(Arrow(e, path[0]), path[1..], text, row, elem);
    }
  }

  /** A path from the root, through a field that is not a slice, goes on below that field. */
  lemma RootPath(record: Value, parts: Tokens)
    requires record.Struct? && |parts| > 1
    ensures
      var v := Get(record, parts[..1], false);
      Get(record, parts, false) ==
        if v.None? then None
        else if Deref(v.value).Slice? then
          var found := Collect(Deref(v.value).elems, parts[1..]);
          if |found| > 0 then Some(Slice(found)) else None
        else Get(v.value, parts[1..], false)
  {
    assert parts[..1][1..] == [];
  }

  /** What is collected from the elements of an array of objects. */
  lemma {:induction false} Collected(elems: seq<Value>, path: Tokens, w: Value)
    ensures w in Collect(elems, path) <==> exists e :: e in elems && Get(e, path, false) == Some(w) && !w.Nil?
  {
    hide Get;
    if |elems| > 0 {
      var n := |elems| - 1;
      Collected(elems[..n], path, w);
      assert elems[n] in elems;
      if w in Collect(elems[..n], path) {
        var e :| e in elems[..n] && Get(e, path, false) == Some(w);
        assert e in elems;
      }
      if e :| e in elems && Get(e, path, false) == Some(w) && !w.Nil? {
        assert e in elems[..n] || e == elems[n];
      }
    }
  }

  // ----- Tests of one cell -----

  /** The arguments of a statement built with counter `n`, in those of the whole query. */
  predicate Passed(args: seq<Operand>, n: nat, part: seq<Operand>) {
    n + |part| <= |args| && args[n..n + |part|] == part
  }

  lemma PassedOne(args: seq<Operand>, n: nat, operand: Operand)
    requires Passed(args, n, [operand])
    ensures n < |args| && args[n] == operand
  {
    assert args[n..n + 1][0] == operand;
  }

  /** The test of a text or of NULL. */
  function TextTest(e: Expr, op: Operator, operand: Operand, n: nat): Sql {
    if op.Equal? || op.NotEqual? then Test(e, op, n + 1)
    else Membership(e, op.NotIn?, Numbered(n, if operand.List? then |operand.values| else 0))
  }

  /** A test of a text agrees with the comparison in memory; a test of NULL is not true. */
  lemma TextTestAgrees(e: Expr, op: Operator, operand: Operand, n: nat, row: Row, elem: Cell, args: seq<Operand>)
    requires TextOperand(op, operand) && Passed(args, n, LeafArgs(op, operand))
    requires Eval(e, row, elem).Null? || Eval(e, row, elem).Text?
    ensures Holds(TextTest(e, op, operand, n), row, elem, args).True? <==>
              var c := Eval(e, row, elem); c.Text? && CompareOne(op, Str(c.s), operand)
  {
    var c := Eval(e, row, elem);
    if op.In? || op.NotIn? {
      var part := LeafArgs(op, operand);
      forall i | 0 <= i < |part| ensures part[i] == args[n + i] {
        assert part[i] == args[n..n + |part|][i];
      }
      MembershipAgrees(c, operand.values, n, args);
    } else {
      PassedOne(args, n, operand);
    }
  }

  lemma MembershipAgrees(c: Cell, values: seq<Value>, n: nat, args: seq<Operand>)
    requires c.Null? || c.Text?
    requires |values| > 0 && (forall v :: v in values ==> v.Str?) && n + |values| <= |args|
    requires forall i :: 0 <= i < |values| ==> args[n + i] == Single(values[i])
    ensures In3(c, args, Numbered(n, |values|)) ==
            if c.Null? then Unknown else if Str(c.s) in values then True else False
  {
    var params := Numbered(n, |values|);
    forall i | 0 <= i < |values| ensures Arg(args, params[i]) == Text(values[i].s) {
      assert values[i] in values;
    }
    forall k | k in params ensures Arg(args, k).Text? {
      var i :| 0 <= i < |values| && params[i] == k;
    }
    if c.Null? {
      assert params[0] in params && Eq3(c, Arg(args, params[0])).Unknown?;
    } else if Str(c.s) in values {
      var i :| 0 <= i < |values| && values[i] == Str(c.s);
      assert params[i] in params && Eq3(c, Arg(args, params[i])).True?;
    } else {
      forall k | k in params ensures Eq3(c, Arg(args, k)).False? {
        var i :| 0 <= i < |values| && params[i] == k;
        assert values[i] in values;
      }
    }
  }

  /** A numeric test agrees with the comparison in memory; a test of NULL is not true. */
  lemma NumberTestAgrees(e: Expr, op: Operator, operand: Operand, n: nat, row: Row, elem: Cell, args: seq<Operand>, v: Option<Value>)
    requires NumberOperand(op, operand) && Passed(args, n, LeafArgs(op, operand))
    requires var c := Eval(e, row, elem);
      match v case None => c.Null? case Some(w) => w.Num? && NumberOf(c) == Some(w.n)
    ensures Holds(NumericTest(e, op, n + 1), row, elem, args).True? <==> v.Some? && CompareOne(op, v.value, operand)
    ensures Eval(e, row, elem).Null? || Eval(e, row, elem).Number? ==>
              (Holds(Test(e, op, n + 1), row, elem, args).True? <==> v.Some? && CompareOne(op, v.value, operand))
  {
    PassedOne(args, n, operand);
  }

  /** What a cell with a text or NULL shows of a value that is a text, nil, or missing. */
  lemma TextCellExactly(v: Option<Value>, e: Expr, op: Operator, operand: Operand, n: nat, row: Row, args: seq<Operand>)
    requires TextOperand(op, operand) && Passed(args, n, LeafArgs(op, operand))
    requires (v.Some? ==> IsLeaf(v.value, TextLeaf)) && Eval(e, row, Null) == TextOf(v)
    ensures
      (Holds(TextTest(e, op, operand, n), row, Null, args).True? <==> v.Some? && CompareValues(op, v.value, operand))
      <==> !(Negated(op) && v == Some(Nil))
  {
    TextTestAgrees(e, op, operand, n, row, Null, args);
  }

  /** What NULL and anything else shows of a value, in memory and in JSON. */
  lemma NullTestInMemory(op: Operator, v: Value, operand: Operand)
    requires IsNullTest(op) && !IsPointer(v)
    ensures CompareValues(op, v, operand) <==>
            if v.Slice? then if op.IsNull? then Nil in v.elems else exists e :: e in v.elems && !e.Nil?
            else op.IsNull? == v.Nil?
  {
  }

  /** Whether a leaf selects the row exactly if it matches the record. */
  predicate Agrees(sql: Sql, row: Row, args: seq<Operand>, field: string, op: Operator, operand: Operand, record: Value) {
    Where(sql, row, args) <==> MatchesAtom(field, op, operand, record)
  }

  // ----- Leaves -----

  /** A test of texts, or for null, of a plain column means the same exactly if it is faithful: a negated test of a column
      that is NULL does not. */
  lemma ColumnExactly(column: string, field: string, op: Operator, operand: Operand, n: nat, record: Value, row: Row,
                      args: seq<Operand>)
    requires op.In? || op.NotIn? ==> operand.List?
    requires Passed(args, n, LeafArgs(op, operand))
    requires
      var v := Get(record, Split(field), false);
      && StoredPlainly(row, column, v)
      && ((TextOperand(op, operand) && (v.Some? ==> IsLeaf(v.value, TextLeaf)))
          || (IsNullTest(op) && (v.Some? ==> !IsPointer(v.value))))
    ensures
      Agrees(Standard(column, op, operand, n).sql, row, args, field, op, operand, record) <==>
        FaithfulColumn(op, operand, Get(record, Split(field), false))
  {
    hide Split, Get, Passed, LeafArgs, CompareValues, StoredPlainly, Standard, Where, FaithfulColumn, IsLeaf, TextOperand;
    var v := Get(record, Split(field), false);
    if IsNullTest(op) {
      NullTestHasNoText(op, operand);
      ColumnNullExactly(column, op, operand, n, row, args, v);
    } else {
      ColumnTextExactly(column, op, operand, n, row, args, v);
    }
  }

  lemma NullTestHasNoText(op: Operator, operand: Operand)
    ensures !(IsNullTest(op) && TextOperand(op, operand))
  {
  }

  /** What the value of a leaf means in memory. */
  predicate MatchesValue(op: Operator, operand: Operand, v: Option<Value>) {
    if v.None? then op.IsNull? else CompareValues(op, v.value, operand)
  }

  lemma ColumnTextExactly(column: string, op: Operator, operand: Operand, n: nat, row: Row, args: seq<Operand>,
                          v: Option<Value>)
    requires op.In? || op.NotIn? ==> operand.List?
    requires Passed(args, n, LeafArgs(op, operand)) && TextOperand(op, operand)
    requires StoredPlainly(row, column, v) && (v.Some? ==> IsLeaf(v.value, TextLeaf))
    ensures (Where(Standard(column, op, operand, n).sql, row, args) <==> MatchesValue(op, operand, v))
            <==> FaithfulColumn(op, operand, v)
  {
    hide Passed, LeafArgs, CompareValues;
    TextCellExactly(v, Column(column), op, operand, n, row, args);
  }

  lemma ColumnNullExactly(column: string, op: Operator, operand: Operand, n: nat, row: Row, args: seq<Operand>,
                          v: Option<Value>)
    requires IsNullTest(op) && StoredPlainly(row, column, v) && (v.Some? ==> !IsPointer(v.value))
    ensures (Where(Standard(column, op, operand, n).sql, row, args) <==> MatchesValue(op, operand, v))
            <==> FaithfulColumn(op, operand, v)
  {
    if v.Some? {
      NullTestInMemory(op, v.value, operand);
    }
    hide CompareValues;
  }

  lemma ColumnAgrees(c: Config, field: string, op: Operator, operand: Operand, n: nat, record: Value, row: Row,
                     args: seq<Operand>)
    requires Faithful(c, field, op, operand, record, row) && ToLower(Split(field)[0]) !in c.jsonbFields
    requires op.In? || op.NotIn? ==> operand.List?
    requires Passed(args, n, LeafArgs(op, operand))
    ensures Agrees(BuildAtom(c, field, op, operand, n).sql, row, args, field, op, operand, record)
  {
    hide Split, ToLower, Get, Passed, LeafArgs;
    var column := if field in c.mappings then c.mappings[field] else field;
    var v := Get(record, Split(field), false);
    if NumberOperand(op, operand) {
      NumberTestAgrees(Column(column), op, operand, n, row, Null, args, v);
    } else {
      ColumnExactly(column, field, op, operand, n, record, row, args);
    }
  }

  /** A null test of a whole JSONB column. */
  lemma NoPathExactly(column: string, field: string, fieldType: FieldType, op: Operator, operand: Operand, n: nat,
                      record: Value, row: Row, args: seq<Operand>)
    requires IsNullTest(op) && |Split(field)| == 1
    requires var v := Get(record, Split(field), false); Stored(row, column, v) && (v.Some? ==> !IsPointer(v.value))
    ensures
      Agrees(Condition(column, Split(field)[1..], fieldType, field, op, operand, n).sql, row, args, field, op, operand, record)
      <==> ColumnNullAgrees(op, Get(record, Split(field), false))
  {
    hide Split, Get;
    var v := Get(record, Split(field), false);
    if v.Some? {
      NullTestInMemory(op, v.value, operand);
    }
  }

  /** What the accessor of a scalar path finds. */
  lemma ScalarCell(column: string, record: Value, parts: Tokens, leaf: Leaf, text: bool, row: Row)
    requires record.Struct? && |parts| > 1
    requires
      var v := Get(record, parts[..1], false);
      Stored(row, column, v) && (v.Some? ==> Straight(v.value, parts[1..], false, leaf))
    ensures
      var end := Get(record, parts, false);
      var v := Get(record, parts[..1], false);
      && Eval(Access(Column(column), parts[1..], text), row, Null) == (if text then TextOf(end) else JsonOf(end))
      && (end.Some? ==> IsLeaf(end.value, leaf))
      && (if v.None? then end.None? else end == Get(v.value, parts[1..], false))
  {
    var path := parts[1..];
    var v := Get(record, parts[..1], false);
    RootPath(record, parts);
    if v.None? || v.value.Nil? {
      NullPath(Column(column), path, text, row, Null);
    } else {
      PathAgrees(v.value, path, false, leaf, text, Column(column), row, Null);
    }
  }

  /** A test of texts on a scalar path means the same exactly if it is not negated or the value is not nil; a null test
      exactly if the value is not JSON null, and a slice shows no nil, or something else, whichever is asked for. */
  lemma ScalarPathExactly(column: string, field: string, op: Operator, operand: Operand, n: nat, record: Value, row: Row,
                          args: seq<Operand>)
    requires record.Struct? && (op.In? || op.NotIn? ==> operand.List?) && Passed(args, n, LeafArgs(op, operand))
    requires TextOperand(op, operand) || IsNullTest(op)
    requires
      var parts := Split(field);
      var v := Get(record, parts[..1], false);
      && |parts| > 1 && Stored(row, column, v)
      && (v.Some? ==> Straight(v.value, parts[1..], false, if IsNullTest(op) then AnyLeaf else TextLeaf))
    ensures
      var parts := Split(field);
      var v := Get(record, parts[..1], false);
      Agrees(Condition(column, parts[1..], Scalar, field, op, operand, n).sql, row, args, field, op, operand, record)
      <==> (v.Some? ==> FaithfulPath(op, operand, v.value, parts[1..]))
  {
    hide Split, Get, Access, Straight, Passed, LeafArgs, Stored;
    var parts := Split(field);
    var end := Get(record, parts, false);
    ScalarCell(column, record, parts, if IsNullTest(op) then AnyLeaf else TextLeaf, !IsNullTest(op), row);
    var e := Access(Column(column), parts[1..], !IsNullTest(op));
    if TextOperand(op, operand) {
      TextCellExactly(end, e, op, operand, n, row, args);
    } else if end.Some? {
      NullTestInMemory(op, end.value, operand);
    }
  }

  lemma ScalarPathAgrees(column: string, field: string, op: Operator, operand: Operand, n: nat, record: Value, row: Row,
                         args: seq<Operand>)
    requires record.Struct? && (op.In? || op.NotIn? ==> operand.List?) && Passed(args, n, LeafArgs(op, operand))
    requires
      var parts := Split(field);
      var v := Get(record, parts[..1], false);
      && |parts| > 1 && Stored(row, column, v)
      && (TextOperand(op, operand) || NumberOperand(op, operand) || IsNullTest(op))
      && (v.Some? ==> FaithfulPath(op, operand, v.value, parts[1..]))
    ensures
      Agrees(Condition(column, Split(field)[1..], Scalar, field, op, operand, n).sql, row, args, field, op, operand, record)
  {
    hide Split, Get, Access, Straight, Passed, LeafArgs, Stored;
    if NumberOperand(op, operand) {
      var parts := Split(field);
      ScalarCell(column, record, parts, NumberLeaf, true, row);
      NumberTestAgrees(Access(Column(column), parts[1..], true), op, operand, n, row, Null, args, Get(record, parts, false));
    } else {
      ScalarPathExactly(column, field, op, operand, n, record, row, args);
    }
  }

  /** The test of an element that is generated for a path. */
  function ElementTest(path: Tokens, op: Operator, operand: Operand, n: nat): Sql {
    if IsOrdering(op) then NumericTest(Access(Elem, path, false), op, n + 1)
    else if IsNullTest(op) then NullTest(Access(Elem, path, true), op.IsNull?)
    else TextTest(Access(Elem, path, true), op, operand, n)
  }

  lemma ElementAgrees(e: Value, path: Tokens, op: Operator, operand: Operand, n: nat, row: Row, args: seq<Operand>)
    requires op.In? || op.NotIn? ==> operand.List?
    requires Passed(args, n, LeafArgs(op, operand)) && |path| > 0 && !op.IsNull?
    requires FaithfulElements(op, operand, [e], path)
    ensures
      Holds(ElementTest(path, op, operand, n), row, Json(e), args).True? <==>
        HasValue(e, path) && CompareOne(op, Get(e, path, false).value, operand)
  {
    hide Passed, LeafArgs, Straight, Access, Get;
    assert e in [e];
    if TextOperand(op, operand) {
      PathAgrees(e, path, false, TextLeaf, true, Elem, row, Json(e));
      TextTestAgrees(Access(Elem, path, true), op, operand, n, row, Json(e), args);
    } else if NumberOperand(op, operand) {
      PathAgrees(e, path, false, NumberLeaf, false, Elem, row, Json(e));
      NumberTestAgrees(Access(Elem, path, false), op, operand, n, row, Json(e), args, Get(e, path, false));
    } else {
      PathAgrees(e, path, false, AnyLeaf, true, Elem, row, Json(e));
    }
  }

  /** A test of some element of an array, on what the paths lead to. */
  lemma ArrayAgrees(elems: seq<Value>, path: Tokens, column: string, op: Operator, operand: Operand, n: nat, row: Row,
                    args: seq<Operand>)
    requires op.In? || op.NotIn? ==> operand.List?
    requires Passed(args, n, LeafArgs(op, operand)) && |path| > 0 && !op.IsNull?
    requires FaithfulElements(op, operand, elems, path)
    requires column in row && row[column] == Json(Slice(elems))
    ensures Holds(AnyElement(column, ElementTest(path, op, operand, n)), row, Null, args).True? <==>
              exists w :: w in Collect(elems, path) && CompareOne(op, w, operand)
  {
    hide ElementTest, LeafArgs, Passed, Straight, CompareOne, Get, Collect, NumberOperand, TextOperand;
    var test := ElementTest(path, op, operand, n);
    if e :| e in elems && Holds(test, row, Json(e), args).True? {
      ElementAgrees(e, path, op, operand, n, row, args);
      Collected(elems, path, Get(e, path, false).value);
    }
    if w :| w in Collect(elems, path) && CompareOne(op, w, operand) {
      Collected(elems, path, w);
      var e :| e in elems && Get(e, path, false) == Some(w) && !w.Nil?;
      ElementAgrees(e, path, op, operand, n, row, args);
    }
  }

  /** In the database IS NULL below an array holds if some element has no value at the path. */
  lemma NullInDatabase(elems: seq<Value>, path: Tokens, column: string, row: Row, args: seq<Operand>)
    requires |path| > 0 && column in row && row[column] == Json(Slice(elems))
    requires forall e :: e in elems ==> Straight(e, path, false, AnyLeaf)
    ensures Where(AnyElement(column, NullTest(Access(Elem, path, true), true)), row, args) <==>
              exists e :: e in elems && !HasValue(e, path)
  {
    hide Straight, Access, Get;
    forall e | e in elems
      ensures Holds(NullTest(Access(Elem, path, true), true), row, Json(e), args).True? <==> !HasValue(e, path)
    {
      PathAgrees(e, path, false, AnyLeaf, true, Elem, row, Json(e));
    }
  }

  /** In memory it holds if no element has. */
  lemma NullInMemory(elems: seq<Value>, path: Tokens)
    ensures Collect(elems, path) == [] <==> forall e :: e in elems ==> !HasValue(e, path)
    ensures Nil !in Collect(elems, path)
  {
    Collected(elems, path, Nil);
    var found := Collect(elems, path);
    hide Get, Collect;
    if found != [] {
      Collected(elems, path, found[0]);
    }
    if e :| e in elems && HasValue(e, path) {
      Collected(elems, path, Get(e, path, false).value);
    }
  }

  /** IS NULL below an array of objects means the same in the database and in memory if and only if there is an element,
      and either all elements have a value at the end of the path, or none has. */
  lemma NullInArrayExactly(column: string, field: string, operand: Operand, n: nat, record: Value, row: Row, args: seq<Operand>)
    requires record.Struct? && |Split(field)| > 1
    requires
      var parts := Split(field);
      var v := Get(record, parts[..1], false);
      && Stored(row, column, v)
      && (v.Some? ==> v.value.Slice? && forall e :: e in v.value.elems ==> Straight(e, parts[1..], false, AnyLeaf))
    ensures
      var parts := Split(field);
      var v := Get(record, parts[..1], false);
      Agrees(Condition(column, parts[1..], ArrayOfObjects, field, IsNull, operand, n).sql, row, args, field, IsNull, operand, record)
      <==> v.Some? && AllOrNone(v.value.elems, parts[1..])
  {
    hide Split, Access, Straight, Get, Collect, HasValue;
    var parts := Split(field);
    var path := parts[1..];
    var v := Get(record, parts[..1], false);
    RootPath(record, parts);
    var sql := AnyElement(column, NullTest(Access(Elem, path, true), true));
    assert Condition(column, path, ArrayOfObjects, field, IsNull, operand, n).sql == sql;
    if v.Some? {
      var elems := v.value.elems;
      NullInDatabase(elems, path, column, row, args);
      NullInMemory(elems, path);
      assert MatchesAtom(field, IsNull, operand, record) <==> forall e :: e in elems ==> !HasValue(e, path);
      assert |elems| > 0 ==> elems[0] in elems;
    }
  }

  lemma ObjectsAgree(column: string, field: string, op: Operator, operand: Operand, n: nat, record: Value, row: Row,
                     args: seq<Operand>)
    requires record.Struct? && (op.In? || op.NotIn? ==> operand.List?) && Passed(args, n, LeafArgs(op, operand))
    requires TextOperand(op, operand) || NumberOperand(op, operand) || IsNullTest(op)
    requires
      var parts := Split(field);
      var v := Get(record, parts[..1], false);
      && |parts| > 1 && Stored(row, column, v) && (op.IsNull? ==> v.Some?)
      && (v.Some? ==> v.value.Slice? && FaithfulElements(op, operand, v.value.elems, parts[1..]))
    ensures
      Agrees(Condition(column, Split(field)[1..], ArrayOfObjects, field, op, operand, n).sql, row, args, field, op, operand, record)
  {
    hide Split, Access, Straight, Passed, LeafArgs, Get, Collect, CompareOne, AllOrNone;
    var parts := Split(field);
    var v := Get(record, parts[..1], false);
    if op.IsNull? {
      NullInArrayExactly(column, field, operand, n, record, row, args);
    } else {
      RootPath(record, parts);
      var s := Condition(column, parts[1..], ArrayOfObjects, field, op, operand, n).sql;
      assert s == AnyElement(column, ElementTest(parts[1..], op, operand, n));
      hide FaithfulElements;
      if v.Some? {
        ArrayAgrees(v.value.elems, parts[1..], column, op, operand, n, row, args);
      }
    }
  }

  lemma ScalarsAgree(column: string, field: string, op: Operator, operand: Operand, n: nat, record: Value, row: Row,
                     args: seq<Operand>)
    requires record.Struct? && (op.In? || op.NotIn? ==> operand.List?) && Passed(args, n, LeafArgs(op, operand))
    requires (op.Equal? && TextOperand(op, operand)) || NumberOperand(op, operand)
    requires
      var parts := Split(field);
      var v := Get(record, parts[..1], false);
      && |parts| == 1 && Stored(row, column, v)
      && (v.Some? ==> v.value.Slice? && FaithfulScalars(op, operand, v.value.elems))
    ensures
      Agrees(Condition(column, Split(field)[1..], ArrayOfScalars, field, op, operand, n).sql, row, args, field, op, operand, record)
  {
    var parts := Split(field);
    var v := Get(record, parts[..1], false);
    assert parts[..1] == parts;
    PassedOne(args, n, operand);
    hide Split, Get;
    if v.Some? && TextOperand(op, operand) {
      forall e | e in v.value.elems
        ensures CompareOne(op, e, operand) <==> e == operand.value
        ensures Holds(IsJsonText(Elem, n + 1), row, Json(e), args).True? <==> e == operand.value
      {
        assert !IsPointer(e);
      }
    }
    if v.Some? && NumberOperand(op, operand) {
      forall e | e in v.value.elems
        ensures Holds(NumericTest(AsText(Elem), op, n + 1), row, Json(e), args).True? <==> CompareOne(op, e, operand)
      {
        NumberTestAgrees(AsText(Elem), op, operand, n, row, Json(e), args, Some(e));
      }
    }
  }

  lemma ListsAgree(column: string, field: string, operand: Operand, n: nat, record: Value, row: Row, args: seq<Operand>)
    requires TextOperand(Equal, operand) && record.Struct? && Passed(args, n, [operand])
    requires
      var parts := Split(field);
      var v := Get(record, parts[..1], false);
      && |parts| > 1 && Stored(row, column, v) && (v.Some? ==> Straight(v.value, parts[1..], false, ListLeaf))
    ensures
      Agrees(Condition(column, Split(field)[1..], MapOfArrays, field, Equal, operand, n).sql, row, args, field, Equal, operand, record)
  {
    PassedOne(args, n, operand);
    ScalarCell(column, record, Split(field), ListLeaf, false, row);
    hide Split, Access, Get, Straight;
  }

  lemma JsonAgrees(fieldType: FieldType, column: string, field: string, op: Operator, operand: Operand, n: nat,
                   record: Value, row: Row, args: seq<Operand>)
    requires record.Struct? && (op.In? || op.NotIn? ==> operand.List?) && Passed(args, n, LeafArgs(op, operand))
    requires
      var parts := Split(field);
      var v := Get(record, parts[..1], false);
      Stored(row, column, v) && FaithfulJson(fieldType, op, operand, v, parts[1..])
    ensures
      Agrees(Condition(column, Split(field)[1..], fieldType, field, op, operand, n).sql, row, args, field, op, operand, record)
  {
    hide Split, Get, Condition, Agrees, Passed, Stored, Straight, FaithfulPath, FaithfulElements, FaithfulScalars;
    if |Split(field)| == 1 && IsNullTest(op) {
      assert Split(field)[..1] == Split(field);
      NoPathExactly(column, field, fieldType, op, operand, n, record, row, args);
    } else {
      match fieldType {
        case Scalar => ScalarPathAgrees(column, field, op, operand, n, record, row, args);
        case ArrayOfObjects => ObjectsAgree(column, field, op, operand, n, record, row, args);
        case ArrayOfScalars => ScalarsAgree(column, field, op, operand, n, record, row, args);
        case MapOfArrays => ListsAgree(column, field, operand, n, record, row, args);
      }
    }
  }

  lemma AtomAgrees(c: Config, field: string, op: Operator, operand: Operand, n: nat, record: Value, row: Row,
                   args: seq<Operand>)
    requires Faithful(c, field, op, operand, record, row)
    requires op.In? || op.NotIn? ==> operand.List?
    requires Passed(args, n, LeafArgs(op, operand))
    ensures Agrees(BuildAtom(c, field, op, operand, n).sql, row, args, field, op, operand, record)
  {
    hide Split, ToLower, Get, Condition, Agrees, Passed, Stored, FaithfulJson, FaithfulColumn;
    var parts := Split(field);
    var root := ToLower(parts[0]);
    if root !in c.jsonbFields {
      ColumnAgrees(c, field, op, operand, n, record, row, args);
    } else {
      JsonAgrees(if root in c.fieldTypes then c.fieldTypes[root] else ArrayOfObjects,
        if parts[0] in c.mappings then c.mappings[parts[0]] else root, field, op, operand, n, record, row, args);
    }
  }

  // ----- Trees -----

  /** For every tree of AND and OR whose leaves are faithful, the WHERE clause that is built, with the arguments that are
      built, selects the row of a record exactly if the record matches. */
  lemma GeneratedSqlPreservesMeaning(c: Config, p: Predicate, record: Value, row: Row)
    requires Listed(p) && AllFaithful(c, p, record, row)
    ensures var s := Build(c, p, 0); Where(s.sql, row, s.args) <==> Matches(p, record)
  {
    var s := Build(c, p, 0);
    assert s.args[0..0 + |s.args|] == s.args;
    TreeAgrees(c, p, 0, record, row, s.args);
  }

  lemma {:induction false} TreeAgrees(c: Config, p: Predicate, n: nat, record: Value, row: Row, args: seq<Operand>)
    requires Listed(p) && AllFaithful(c, p, record, row) && Passed(args, n, Build(c, p, n).args)
    ensures Where(Build(c, p, n).sql, row, args) <==> Matches(p, record)
    decreases p, if p.Compound? then |p.predicates| + 1 else 0
  {
    hide BuildAtom, Faithful, MatchesAtom;
    match p
    case Atomic(field, op, operand) =>
      AtomNumbers(c, field, op, operand, n);
      AtomAgrees(c, field, op, operand, n, record, row, args);
    case Compound(junction, predicates) =>
      if |predicates| == 1 {
        TreeAgrees(c, predicates[0], n, record, row, args);
      } else if |predicates| > 1 {
        PartsAgree(c, p, |predicates|, n, record, row, args);
        var parts := BuildParts(c, p, |predicates|, n).0;
        JoinedAgrees(junction, predicates, parts, record, row, args);
      }
    case MatchAll =>
  }

  lemma {:induction false} PartsAgree(c: Config, p: Predicate, k: nat, n: nat, record: Value, row: Row, args: seq<Operand>)
    requires p.Compound? && Listed(p) && AllFaithful(c, p, record, row) && k <= |p.predicates|
    requires Passed(args, n, BuildParts(c, p, k, n).1)
    ensures
      var parts := BuildParts(c, p, k, n).0;
      forall i :: 0 <= i < k ==> (Where(parts[i], row, args) <==> Matches(p.predicates[i], record))
    decreases p, k
  {
    hide Build, Where, Matches, Passed;
    if k > 0 {
      var (parts, before, counter) := BuildParts(c, p, k - 1, n);
      var last := Build(c, p.predicates[k - 1], counter);
      PartsCounter(c, p, k - 1, n);
      PassedParts(args, n, before, last.args);
      PartsAgree(c, p, k - 1, n, record, row, args);
      TreeAgrees(c, p.predicates[k - 1], counter, record, row, args);
    }
  }

  lemma PartsCounter(c: Config, p: Predicate, k: nat, n: nat)
    requires p.Compound? && Listed(p) && k <= |p.predicates|
    ensures var (_, args, counter) := BuildParts(c, p, k, n); counter == n + |args|
  {
    var (parts, args, counter) := BuildParts(c, p, k, n);
    PartsNumber(c, p, k, n, Joined(And, parts));
  }

  lemma PassedParts(args: seq<Operand>, n: nat, left: seq<Operand>, right: seq<Operand>)
    requires Passed(args, n, left + right)
    ensures Passed(args, n, left) && Passed(args, n + |left|, right)
  {
    var both := args[n..n + |left + right|];
    assert args[n..n + |left|] == both[..|left|] == left;
    assert args[n + |left|..n + |left| + |right|] == both[|left|..] == right;
  }

  lemma JoinedAgrees(junction: Junction, predicates: seq<Predicate>, parts: seq<Sql>, record: Value, row: Row,
                     args: seq<Operand>)
    requires |parts| == |predicates| > 1
    requires forall i :: 0 <= i < |parts| ==> (Where(parts[i], row, args) <==> Matches(predicates[i], record))
    ensures Where(Joined(junction, parts), row, args) <==> Matches(Compound(junction, predicates), record)
  {
    match junction {
      case And => AllAgree(predicates, parts, record, row, args);
      case Or => SomeAgrees(predicates, parts, record, row, args);
    }
  }

  lemma AllAgree(predicates: seq<Predicate>, parts: seq<Sql>, record: Value, row: Row, args: seq<Operand>)
    requires |parts| == |predicates|
    requires forall i :: 0 <= i < |parts| ==> (Where(parts[i], row, args) <==> Matches(predicates[i], record))
    ensures (forall p :: p in parts ==> Where(p, row, args)) <==> (forall q :: q in predicates ==> Matches(q, record))
  {
    hide Where, Matches;
    if p :| p in parts && !Where(p, row, args) {
      var i :| 0 <= i < |parts| && parts[i] == p;
      assert predicates[i] in predicates;
    }
    if q :| q in predicates && !Matches(q, record) {
      var i :| 0 <= i < |parts| && predicates[i] == q;
      assert parts[i] in parts;
    }
  }

  lemma SomeAgrees(predicates: seq<Predicate>, parts: seq<Sql>, record: Value, row: Row, args: seq<Operand>)
    requires |parts| == |predicates|
    requires forall i :: 0 <= i < |parts| ==> (Where(parts[i], row, args) <==> Matches(predicates[i], record))
    ensures (exists p :: p in parts && Where(p, row, args)) <==> (exists q :: q in predicates && Matches(q, record))
  {
    hide Where, Matches;
    if p :| p in parts && Where(p, row, args) {
      var i :| 0 <= i < |parts| && parts[i] == p;
      assert predicates[i] in predicates;
    }
    if q :| q in predicates && Matches(q, record) {
      var i :| 0 <= i < |parts| && predicates[i] == q;
      assert parts[i] in parts;
    }
  }

  // ----- Where the meaning is not preserved -----

  /** A text as JSON writes it. */
  function Quoted(v: Value): Value
    requires v.Str?
  {
    Str("\"" + v.s + "\"")
  }

  lemma QuotedTest(e: Value, values: seq<Value>, negated: bool, n: nat, row: Row, args: seq<Operand>)
    requires e.Str? && Plain(e.s) && |values| > 0 && (forall v :: v in values ==> v.Str?) && Passed(args, n, Singles(values))
    ensures Holds(Membership(AsText(Elem), negated, Numbered(n, |values|)), row, Json(e), args).True?
            <==> (Quoted(e) in values) != negated
  {
    forall i | 0 <= i < |values| ensures args[n + i] == Single(values[i]) {
      assert args[n..n + |values|][i] == Singles(values)[i];
    }
    assert Eval(AsText(Elem), row, Json(e)) == Text(Quoted(e).s);
    MembershipAgrees(Text(Quoted(e).s), values, n, args);
  }

  /** A text is in a list or is not, in memory. */
  lemma ListTest(op: Operator, e: Value, values: seq<Value>)
    requires e.Str? && (op.In? || op.NotIn?)
    ensures CompareOne(op, e, List(values)) <==> (e in values) == op.In?
  {
    assert forall v :: Same(e, v) <==> e == v;
    assert e in values <==> exists w :: w in values && Same(e, w);
  }

  /** Membership of an element of an array of scalars: the database compares the element with its quotes. Against values
      without quotes IN then never selects, and NOT IN selects unless the array is empty; so IN means the same exactly if
      no element is in the list, and NOT IN exactly if some element is not, or there is none. */
  lemma MembershipOfScalarsDiffers(column: string, field: string, op: Operator, values: seq<Value>, n: nat, row: Row,
                                   args: seq<Operand>, elems: seq<Value>)
    requires column in row && row[column] == Json(Slice(elems)) && (op.In? || op.NotIn?)
    requires forall e :: e in elems ==> e.Str? && Plain(e.s)
    requires |values| > 0 && (forall v :: v in values ==> v.Str?) && Passed(args, n, Singles(values))
    ensures
      var selected := Where(Condition(column, [], ArrayOfScalars, field, op, List(values), n).sql, row, args);
      var matched := CompareValues(op, Slice(elems), List(values));
      && (selected <==> exists e :: e in elems && (Quoted(e) in values) == op.In?)
      && (matched <==> exists e :: e in elems && (e in values) == op.In?)
      && ((forall v :: v in values ==> Plain(v.s)) ==>
            && (selected <==> op.NotIn? && |elems| > 0)
            && ((selected <==> matched)
                <==> if op.In? then forall e :: e in elems ==> e !in values
                     else |elems| == 0 || exists e :: e in elems && e !in values))
  {
    forall e | e in elems
      ensures Holds(Membership(AsText(Elem), op.NotIn?, Numbered(n, |values|)), row, Json(e), args).True?
              <==> (Quoted(e) in values) == op.In?
      ensures CompareOne(op, e, List(values)) <==> (e in values) == op.In?
      ensures !Plain(Quoted(e).s)
    {
      QuotedTest(e, values, op.NotIn?, n, row, args);
      ListTest(op, e, values);
      assert Quoted(e).s[0] in Quoted(e).s;
    }
    assert |elems| > 0 ==> elems[0] in elems;
    hide CompareOne, Quoted, Plain, Passed;
  }

  /** An inequality test of an array of scalars is built as an equality test: it means the same exactly if there is no
      element, or both an element that equals the text and one that does not. */
  lemma InequalityOfScalarsDiffers(column: string, field: string, text: string, n: nat, row: Row, args: seq<Operand>,
                                   elems: seq<Value>)
    requires column in row && row[column] == Json(Slice(elems)) && NoPointers(elems)
    requires Passed(args, n, [Single(Str(text))])
    ensures
      var selected := Where(Condition(column, [], ArrayOfScalars, field, NotEqual, Single(Str(text)), n).sql, row, args);
      var matched := CompareValues(NotEqual, Slice(elems), Single(Str(text)));
      && (selected <==> Str(text) in elems)
      && (matched <==> exists e :: e in elems && e != Str(text))
      && ((selected <==> matched) <==> |elems| == 0 || (Str(text) in elems && exists e :: e in elems && e != Str(text)))
  {
    PassedOne(args, n, Single(Str(text)));
    forall e | e in elems
      ensures Holds(IsJsonText(Elem, n + 1), row, Json(e), args).True? <==> e == Str(text)
      ensures CompareOne(NotEqual, e, Single(Str(text))) <==> e != Str(text)
    {
    }
    assert |elems| > 0 ==> elems[0] in elems;
    hide CompareOne;
  }

  /** The path leads below an untyped map that something untyped holds. */
  predicate Blocked(v: Value, path: Tokens, boxed: bool)
    decreases |path|
  {
    && |path| > 0
    && (boxed
        || match Deref(v)
           case Struct(fields) =>
             && ExactKeys(fields, path[0]) && path[0] in fields && (|path| > 1 ==> !Deref(fields[path[0]]).Slice?)
             && Blocked(fields[path[0]], path[1..], false)
           case Map(entries, b) => path[0] in entries && Blocked(entries[path[0]], path[1..], b)
           case _ => false)
  }

  lemma {:induction false} BlockedFindsNothing(v: Value, path: Tokens, boxed: bool)
    requires Blocked(v, path, boxed)
    ensures Get(v, path, boxed).None?
    decreases |path|
  {
    if !boxed {
      if Deref(v).Struct? {
        ExactName(Deref(v).fields, path[0]);
        BlockedFindsNothing(Deref(v).fields[path[0]], path[1..], false);
      } else {
        BlockedFindsNothing(Deref(v).entries[path[0]], path[1..], Deref(v).boxed);
      }
    }
  }

  /** On every scalar path that leads below such a map nothing is found in memory. A null test then means the same exactly
      if the accessor is NULL; a test of texts exactly if the accessor finds no text that passes it. */
  lemma UntypedMapsExactly(column: string, field: string, op: Operator, operand: Operand, n: nat, record: Value, row: Row,
                           args: seq<Operand>)
    requires record.Struct? && (op.In? || op.NotIn? ==> operand.List?) && Passed(args, n, LeafArgs(op, operand))
    requires
      var parts := Split(field);
      var v := Get(record, parts[..1], false);
      |parts| > 1 && v.Some? && Blocked(v.value, parts[1..], false)
    requires TextOperand(op, operand) || IsNullTest(op)
    ensures
      var parts := Split(field);
      var cell := Eval(Access(Column(column), parts[1..], !IsNullTest(op)), row, Null);
      && Get(record, parts, false).None?
      && (cell.Null? || cell.Text? || IsNullTest(op) ==>
            (Agrees(Condition(column, parts[1..], Scalar, field, op, operand, n).sql, row, args, field, op, operand, record)
             <==> if IsNullTest(op) then cell.Null? else !(cell.Text? && CompareOne(op, Str(cell.s), operand))))
  {
    hide Split, Access, Passed, LeafArgs;
    var parts := Split(field);
    var v := Get(record, parts[..1], false);
    RootPath(record, parts);
    BlockedFindsNothing(v.value, parts[1..], false);
    hide Get;
    var e := Access(Column(column), parts[1..], true);
    if TextOperand(op, operand) && (Eval(e, row, Null).Null? || Eval(e, row, Null).Text?) {
      TextTestAgrees(e, op, operand, n, row, Null, args);
    }
  }

  /** Such a path does find a text in the database. */
  lemma NestedMapsDiffer(outer: string, inner: string, s: string, e: Expr, row: Row)
    requires Eval(e, row, Null) == Json(Map(map[outer := Map(map[inner := Str(s)], true)], true))
    ensures Blocked(Map(map[outer := Map(map[inner := Str(s)], true)], true), [outer, inner], false)
    ensures Eval(Access(e, [outer, inner], true), row, Null) == Text(s)
  {
    assert [outer, inner][1..] == [inner];
  }

  /** A negated test of a column that is NULL is not true, while in memory nil differs from every text. */
  lemma NullDiffers(name: string, op: Operator, operand: Operand, row: Row, args: seq<Operand>, n: nat)
    requires TextOperand(op, operand) && Negated(op) && Passed(args, n, LeafArgs(op, operand))
    requires name !in row || row[name].Null?
    ensures !Where(Standard(name, op, operand, n).sql, row, args)
    ensures CompareValues(op, Nil, operand)
  {
    TextTestAgrees(Column(name), op, operand, n, row, Null, args);
  }
}
