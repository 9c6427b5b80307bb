/** The SQL that PostgresJSONBBuilder generates for a predicate (common/sqlstore/query.go), as a syntax tree, with the
    numbers of its placeholders and its arguments. */
module SqlBuilder {
  import opened Strings
  import opened Query

  /** A column, the element of a subquery, `->` and `->>` with a key, and `::text`. */
  datatype Expr = Column(name: string) | Elem | Arrow(of: Expr, key: string) | ArrowText(of: Expr, key: string) | AsText(of: Expr)

  datatype Sql =
    | Always                                                      // true
    | NullTest(e: Expr, isNull: bool)                             // e IS [NOT] NULL
    | Test(e: Expr, op: Operator, param: nat)                     // e op $n
    | NumericTest(e: Expr, op: Operator, param: nat)              // (e)::numeric op $n::numeric
    | Membership(e: Expr, negated: bool, params: seq<nat>)        // e [NOT] IN ($n, ...)
    | HasText(e: Expr, param: nat)                                // e @> jsonb_build_array($n::text)
    | HasJson(e: Expr, param: nat)                                // e @> $n
    | IsJsonText(e: Expr, param: nat)                             // e = to_jsonb($n::text)
    | AnyElement(column: string, condition: Sql)                  // EXISTS (SELECT 1 FROM jsonb_array_elements(column) elem WHERE ...)
    | Joined(junction: Junction, parts: seq<Sql>)                 // (part) AND|OR (part) ...

  datatype FieldType = Scalar | ArrayOfObjects | ArrayOfScalars | MapOfArrays

  datatype Config = Config(jsonbFields: set<string>, fieldTypes: map<string, FieldType>, mappings: map<string, string>)

  /** The SQL, its arguments, and the number of the last placeholder. */
  datatype Statement = Statement(sql: Sql, args: seq<Operand>, counter: nat)

  /** An IN list is a list; the builder panics otherwise. */
  predicate Listed(p: Predicate) {
    match p
    case Atomic(_, op, operand) => op.In? || op.NotIn? ==> operand.List?
    case Compound(_, predicates) => forall q :: q in predicates ==> Listed(q)
    case MatchAll => true
  }

  // ----- Accessors and placeholders -----

  /** `base->'k'->...->'last'`, with `->>` in front of the last key if text is wanted. */
  function Access(base: Expr, path: seq<string>, text: bool): Expr
    decreases |path|
  {
    if |path| == 0 then base
    else if |path| == 1 then if text then ArrowText(base, path[0]) else Arrow(base, path[0])
    else Access(Arrow(base, path[0]), path[1..], text)
  }

  function ElementAccess(path: seq<string>, text: bool): Expr {
    if |path| == 0 then if text then AsText(Elem) else Elem else Access(Elem, path, text)
  }

  method BuildJSONBAccessor(field: Expr, path: seq<string>, textCast: bool) returns (result: Expr)
    ensures result == Access(field, path, textCast)
  {
    if |path| == 0 {
      return field;
    }
    result := field;
    var lastIdx := |path| - 1;
    for i := 0 to lastIdx
      invariant Access(field, path, textCast) == Access(result, path[i..], textCast)
    {
      assert path[i..][1..] == path[i + 1..];
      result := Arrow(result, path[i]);
    }
    assert path[lastIdx..] == [path[lastIdx]];
    return if textCast then ArrowText(result, path[lastIdx]) else Arrow(result, path[lastIdx]);
  }

  /** The `k` numbers that follow `n`. */
  function Numbered(n: nat, k: nat): seq<nat> {
    seq(k, i requires 0 <= i < k => n + 1 + i)
  }

  method NextPlaceholders(values: seq<Value>, paramCounter: nat) returns (placeholders: seq<nat>, counter: nat)
    ensures placeholders == Numbered(paramCounter, |values|) && counter == paramCounter + |values|
  {
    placeholders, counter := [], paramCounter;
    for i := 0 to |values|
      invariant placeholders == Numbered(paramCounter, i) && counter == paramCounter + i
    {
      counter := counter + 1;
      placeholders := placeholders + [counter];
    }
  }

  // ----- Leaves -----

  function Singles(values: seq<Value>): seq<Operand> {
    seq(|values|, i requires 0 <= i < |values| => Single(values[i]))
  }

  /** A condition with one more placeholder, for the operand. */
  function OneMore(sql: Sql, operand: Operand, n: nat): Statement {
    Statement(sql, [operand], n + 1)
  }

  function InList(e: Expr, negated: bool, values: seq<Value>, n: nat): Statement {
    Statement(Membership(e, negated, Numbered(n, |values|)), Singles(values), n + |values|)
  }

  /** A test of a column that is not JSONB. */
  function Standard(name: string, op: Operator, operand: Operand, n: nat): Statement
    requires op.In? || op.NotIn? ==> operand.List?
  {
    match op
    case IsNull => Statement(NullTest(Column(name), true), [], n)
    case IsNotNull => Statement(NullTest(Column(name), false), [], n)
    case In => InList(Column(name), false, operand.values, n)
    case NotIn => InList(Column(name), true, operand.values, n)
    case _ => OneMore(Test(Column(name), op, n + 1), operand, n)
  }

  function NullCondition(column: string, path: seq<string>, fieldType: FieldType, isNull: bool): Sql {
    if |path| == 0 then NullTest(Column(column), isNull)
    else if fieldType.Scalar? then NullTest(Access(Column(column), path, false), isNull)
    else AnyElement(column, NullTest(ElementAccess(path, true), isNull))
  }

  function ArraySearch(column: string, path: seq<string>, op: Operator, fieldType: FieldType, param: nat): Sql {
    if |path| == 0 && fieldType.ArrayOfScalars? then AnyElement(column, IsJsonText(Elem, param))
    else AnyElement(column, Test(ElementAccess(path, true), op, param))
  }

  function EqualCondition(column: string, path: seq<string>, fieldType: FieldType, operand: Operand, n: nat): Statement {
    var param := n + 1;
    if fieldType.MapOfArrays? && |path| > 0 then OneMore(HasText(Access(Column(column), path, false), param), operand, n)
    else if fieldType.Scalar? then OneMore(Test(Access(Column(column), path, true), Equal, param), operand, n)
    else OneMore(ArraySearch(column, path, Equal, fieldType, param), operand, n)
  }

  function NotEqualCondition(column: string, path: seq<string>, fieldType: FieldType, operand: Operand, n: nat): Statement {
    var param := n + 1;
    if fieldType.Scalar? then OneMore(Test(Access(Column(column), path, true), NotEqual, param), operand, n)
    else OneMore(ArraySearch(column, path, NotEqual, fieldType, param), operand, n)
  }

  function ComparisonCondition(column: string, path: seq<string>, fieldType: FieldType, op: Operator, operand: Operand,
                               n: nat): Statement {
    var param := n + 1;
    if fieldType.Scalar? then OneMore(NumericTest(Access(Column(column), path, true), op, param), operand, n)
    else if |path| > 0 then OneMore(AnyElement(column, NumericTest(ElementAccess(path, false), op, param)), operand, n)
    else OneMore(AnyElement(column, NumericTest(AsText(Elem), op, param)), operand, n)
  }

  function ListCondition(column: string, path: seq<string>, fieldType: FieldType, negated: bool, values: seq<Value>,
                         n: nat): Statement {
    if fieldType.Scalar? then InList(Access(Column(column), path, true), negated, values, n)
    else
      var Statement(sql, args, counter) := InList(ElementAccess(path, true), negated, values, n);
      Statement(AnyElement(column, sql), args, counter)
  }

  function ContainsCondition(column: string, path: seq<string>, fieldType: FieldType, operand: Operand, n: nat): Statement {
    OneMore(HasJson(if fieldType.Scalar? then Access(Column(column), path, false) else Column(column), n + 1), operand, n)
  }

  /** A test of a JSONB column; operators without support are applied to the name of the field as it is. */
  function Condition(column: string, path: seq<string>, fieldType: FieldType, field: string, op: Operator,
                     operand: Operand, n: nat): Statement
    requires op.In? || op.NotIn? ==> operand.List?
  {
    match op
    case IsNull => Statement(NullCondition(column, path, fieldType, true), [], n)
    case IsNotNull => Statement(NullCondition(column, path, fieldType, false), [], n)
    case Equal => EqualCondition(column, path, fieldType, operand, n)
    case NotEqual => NotEqualCondition(column, path, fieldType, operand, n)
    case In => ListCondition(column, path, fieldType, false, operand.values, n)
    case NotIn => ListCondition(column, path, fieldType, true, operand.values, n)
    case Less => ComparisonCondition(column, path, fieldType, op, operand, n)
    case LessEqual => ComparisonCondition(column, path, fieldType, op, operand, n)
    case Greater => ComparisonCondition(column, path, fieldType, op, operand, n)
    case GreaterEqual => ComparisonCondition(column, path, fieldType, op, operand, n)
    case Contains => ContainsCondition(column, path, fieldType, operand, n)
    case _ => OneMore(Test(Column(field), op, n + 1), operand, n)
  }

  function BuildAtom(c: Config, field: string, op: Operator, operand: Operand, n: nat): Statement
    requires op.In? || op.NotIn? ==> operand.List?
  {
    var parts := Split(field);
    var root := ToLower(parts[0]);
    if root !in c.jsonbFields then Standard(if field in c.mappings then c.mappings[field] else field, op, operand, n)
    else
      var fieldType := if root in c.fieldTypes then c.fieldTypes[root] else ArrayOfObjects;
      var column := if parts[0] in c.mappings then c.mappings[parts[0]] else root;
      Condition(column, parts[1..], fieldType, field, op, operand, n)
  }

  // ----- Predicates -----

  function Build(c: Config, p: Predicate, n: nat): Statement
    requires Listed(p)
    decreases p, if p.Compound? then |p.predicates| + 1 else 0
  {
    match p
    case Atomic(field, op, operand) => BuildAtom(c, field, op, operand, n)
    case Compound(junction, predicates) =>
      if |predicates| == 0 then Statement(Always, [], n)
      else if |predicates| == 1 then Build(c, predicates[0], n)
      else
        var (parts, args, counter) := BuildParts(c, p, |predicates|, n);
        Statement(Joined(junction, parts), args, counter)
    case MatchAll => Statement(Always, [], n)
  }

  /** The first `k` predicates of a compound one, each built with the counter that the one before left. */
  function BuildParts(c: Config, p: Predicate, k: nat, n: nat): (r: (seq<Sql>, seq<Operand>, nat))
    requires p.Compound? && Listed(p) && k <= |p.predicates|
    ensures |r.0| == k
    decreases p, k
  {
    if k == 0 then ([], [], n)
    else
      var (parts, args, counter) := BuildParts(c, p, k - 1, n);
      var last := Build(c, p.predicates[k - 1], counter);
      (parts + [last.sql], args + last.args, last.counter)
  }

  function Lowered(fields: seq<string>): set<string> {
    set f | f in fields :: ToLower(f)
  }

  function LoweredKeys(fields: set<string>): set<string> {
    set f | f in fields :: ToLower(f)
  }

  lemma LoweredMore(fields: set<string>, field: string)
    ensures LoweredKeys(fields + {field}) == LoweredKeys(fields) + {ToLower(field)}
  {
  }

  lemma LoweredNext(fields: seq<string>, i: nat)
    requires i < |fields|
    ensures Lowered(fields[..i + 1]) == Lowered(fields[..i]) + {ToLower(fields[i])}
  {
    assert fields[..i + 1] == fields[..i] + [fields[i]];
  }

  class PostgresJSONBBuilder {
    var jsonbFields: set<string>
    var jsonbFieldTypes: map<string, FieldType>
    var fieldMappings: map<string, string>

    function Configured(): Config
      reads this
    {
      Config(jsonbFields, jsonbFieldTypes, fieldMappings)
    }

    constructor ()
      ensures Configured() == Config({}, map[], map[])
    {
      jsonbFields, jsonbFieldTypes, fieldMappings := {}, map[], map[];
    }

    /** JSONB fields are arrays of objects unless their type was set. */
    method WithJSONBFields(fields: seq<string>)
      modifies this
      ensures fieldMappings == old(fieldMappings) && jsonbFields == old(jsonbFields) + Lowered(fields)
      ensures jsonbFieldTypes.Keys == old(jsonbFieldTypes).Keys + Lowered(fields)
      ensures forall f :: f in jsonbFieldTypes ==>
                jsonbFieldTypes[f] == if f in old(jsonbFieldTypes) then old(jsonbFieldTypes)[f] else ArrayOfObjects
    {
      for i := 0 to |fields|
        invariant fieldMappings == old(fieldMappings) && jsonbFields == old(jsonbFields) + Lowered(fields[..i])
        invariant jsonbFieldTypes.Keys == old(jsonbFieldTypes).Keys + Lowered(fields[..i])
        invariant forall f :: f in jsonbFieldTypes ==>
          jsonbFieldTypes[f] == if f in old(jsonbFieldTypes) then old(jsonbFieldTypes)[f] else ArrayOfObjects
      {
        var lowerField := ToLower(fields[i]);
        LoweredNext(fields, i);
        jsonbFields := jsonbFields + {lowerField};
        if lowerField !in jsonbFieldTypes {
          jsonbFieldTypes := jsonbFieldTypes[lowerField := ArrayOfObjects];
        }
      }
      assert fields[..|fields|] == fields;
    }

    /** Sets the types of JSONB fields; of names that differ in letter case only, one counts. */
    method WithJSONBFieldTypes(fieldTypes: map<string, FieldType>)
      modifies this
      ensures fieldMappings == old(fieldMappings)
      ensures forall f :: f in jsonbFields <==> f in old(jsonbFields) || f in LoweredKeys(fieldTypes.Keys)
      ensures jsonbFieldTypes.Keys == old(jsonbFieldTypes).Keys + LoweredKeys(fieldTypes.Keys)
      ensures forall f :: f in jsonbFieldTypes ==>
                if f in LoweredKeys(fieldTypes.Keys)
                then exists k :: k in fieldTypes && ToLower(k) == f && fieldTypes[k] == jsonbFieldTypes[f]
                else jsonbFieldTypes[f] == old(jsonbFieldTypes)[f]
    {
      var rest := fieldTypes.Keys;
      ghost var done: set<string> := {};
      while rest != {}
        invariant rest !! done && rest + done == fieldTypes.Keys && fieldMappings == old(fieldMappings)
        invariant forall f :: f in jsonbFields <==> f in old(jsonbFields) || f in LoweredKeys(done)
        invariant jsonbFieldTypes.Keys == old(jsonbFieldTypes).Keys + LoweredKeys(done)
        invariant forall f :: f in jsonbFieldTypes ==>
          if f in LoweredKeys(done)
          then exists k :: k in done && ToLower(k) == f && fieldTypes[k] == jsonbFieldTypes[f]
          else jsonbFieldTypes[f] == old(jsonbFieldTypes)[f]
        decreases rest
      {
        var field :| field in rest;
        var lowerField := ToLower(field);
        LoweredMore(done, field);
        jsonbFieldTypes := jsonbFieldTypes[lowerField := fieldTypes[field]];
        jsonbFields := jsonbFields + {lowerField};
        rest, done := rest - {field}, done + {field};
      }
      assert done == fieldTypes.Keys;
    }

    method WithFieldMappings(mappings: map<string, string>)
      modifies this
      ensures fieldMappings == old(fieldMappings) + mappings
      ensures jsonbFields == old(jsonbFields) && jsonbFieldTypes == old(jsonbFieldTypes)
    {
      fieldMappings := fieldMappings + mappings;
    }

    /** Converts a predicate; the counter runs on through all of its parts. */
    method BuildSQLFrom(p: Predicate, paramCounter: nat) returns (r: Statement)
      requires Listed(p)
      ensures r == Build(Configured(), p, paramCounter)
      decreases p
    {
      match p {
        case Atomic(field, op, operand) => return BuildAtom(Configured(), field, op, operand, paramCounter);
        case MatchAll => return Statement(Always, [], paramCounter);
        case Compound(junction, predicates) =>
          if |predicates| == 0 {
            return Statement(Always, [], paramCounter);
          }
          if |predicates| == 1 {
            r := BuildSQLFrom(predicates[0], paramCounter);
            return;
          }
          var parts, args, counter := [], [], paramCounter;
          for i := 0 to |predicates|
            invariant BuildParts(Configured(), p, i, paramCounter) == (parts, args, counter)
          {
            var part := BuildSQLFrom(predicates[i], counter);
            parts, args, counter := parts + [part.sql], args + part.args, part.counter;
          }
          return Statement(Joined(junction, parts), args, counter);
      }
    }

    method BuildSQL(p: Predicate) returns (sql: Sql, args: seq<Operand>)
      requires Listed(p)
      ensures var r := Build(Configured(), p, 0); sql == r.sql && args == r.args
      ensures Params(sql) == Numbered(0, |args|) && args == ArgsOf(p)
    {
      var r := BuildSQLFrom(p, 0);
      BuildNumbers(Configured(), p, 0);
      return r.sql, r.args;
    }
  }

  // ----- Placeholders -----

  /** The numbers of the placeholders, read from left to right. */
  function Params(sql: Sql): seq<nat> {
    match sql
    case Test(_, _, param) => [param]
    case NumericTest(_, _, param) => [param]
    case Membership(_, _, params) => params
    case HasText(_, param) => [param]
    case HasJson(_, param) => [param]
    case IsJsonText(_, param) => [param]
    case AnyElement(_, condition) => Params(condition)
    case Joined(_, parts) => ParamsOfParts(sql, |parts|)
    case _ => []
  }

  function ParamsOfParts(sql: Sql, k: nat): seq<nat>
    requires sql.Joined? && k <= |sql.parts|
    decreases sql, k
  {
    if k == 0 then [] else ParamsOfParts(sql, k - 1) + Params(sql.parts[k - 1])
  }

  /** The operands of a leaf that are sent to the database: none for a null test, each of a list, or the one value. */
  function LeafArgs(op: Operator, operand: Operand): seq<Operand>
    requires op.In? || op.NotIn? ==> operand.List?
  {
    if op.IsNull? || op.IsNotNull? then []
    else if op.In? || op.NotIn? then Singles(operand.values)
    else [operand]
  }

  /** The arguments of the leaves, from left to right. */
  function ArgsOf(p: Predicate): seq<Operand>
    requires Listed(p)
  {
    match p
    case Atomic(_, op, operand) => LeafArgs(op, operand)
    case Compound(_, predicates) => ArgsOfParts(p, |predicates|)
    case MatchAll => []
  }

  function ArgsOfParts(p: Predicate, k: nat): seq<Operand>
    requires p.Compound? && Listed(p) && k <= |p.predicates|
    decreases p, k
  {
    if k == 0 then [] else ArgsOfParts(p, k - 1) + ArgsOf(p.predicates[k - 1])
  }

  /** The placeholders of a statement are numbered without gaps from the counter on, one for each argument. */
  ghost predicate NumberedFrom(s: Statement, n: nat) {
    s.counter == n + |s.args| && Params(s.sql) == Numbered(n, |s.args|)
  }

  lemma OneNumber(n: nat)
    ensures Numbered(n, 1) == [n + 1] && Numbered(n, 0) == []
  {
  }

  lemma NumbersJoin(n: nat, j: nat, k: nat)
    ensures Numbered(n, j) + Numbered(n + j, k) == Numbered(n, j + k)
  {
  }

  lemma StandardNumbers(name: string, op: Operator, operand: Operand, n: nat)
    requires op.In? || op.NotIn? ==> operand.List?
    ensures var s := Standard(name, op, operand, n); NumberedFrom(s, n) && s.args == LeafArgs(op, operand)
  {
    OneNumber(n);
  }

  lemma ConditionNumbers(column: string, path: seq<string>, fieldType: FieldType, field: string, op: Operator,
                         operand: Operand, n: nat)
    requires op.In? || op.NotIn? ==> operand.List?
    ensures
      var s := Condition(column, path, fieldType, field, op, operand, n);
      NumberedFrom(s, n) && s.args == LeafArgs(op, operand)
  {
    hide Access, ElementAccess;
    OneNumber(n);
    var s := Condition(column, path, fieldType, field, op, operand, n);
    if s.sql.AnyElement? {
      assert Params(s.sql) == Params(s.sql.condition);
    }
  }

  lemma AtomNumbers(c: Config, field: string, op: Operator, operand: Operand, n: nat)
    requires op.In? || op.NotIn? ==> operand.List?
    ensures var s := BuildAtom(c, field, op, operand, n); NumberedFrom(s, n) && s.args == LeafArgs(op, operand)
  {
    hide Split, ToLower, Standard, Condition, NumberedFrom, LeafArgs;
    var parts := Split(field);
    var root := ToLower(parts[0]);
    StandardNumbers(if field in c.mappings then c.mappings[field] else field, op, operand, n);
    ConditionNumbers(if parts[0] in c.mappings then c.mappings[parts[0]] else root, parts[1..],
      if root in c.fieldTypes then c.fieldTypes[root] else ArrayOfObjects, field, op, operand, n);
  }

  /** Read from left to right, the placeholders of the SQL are $1 to $k if there are k arguments, and the arguments are
      the operands of the leaves in order: the i-th is that of the leaf which emitted $i. */
  lemma {:induction false} BuildNumbers(c: Config, p: Predicate, n: nat)
    requires Listed(p)
    ensures NumberedFrom(Build(c, p, n), n) && Build(c, p, n).args == ArgsOf(p)
    decreases p, if p.Compound? then |p.predicates| + 1 else 0
  {
    hide BuildAtom, Numbered;
    OneNumber(n);
    match p
    case Atomic(field, op, operand) => AtomNumbers(c, field, op, operand, n);
    case Compound(junction, predicates) =>
      if |predicates| == 1 {
        BuildNumbers(c, predicates[0], n);
        OnePart(p);
      } else if |predicates| > 1 {
        PartsNumber(c, p, |predicates|, n, Joined(junction, BuildParts(c, p, |predicates|, n).0));
      }
    case MatchAll =>
  }

  lemma OnePart(p: Predicate)
    requires p.Compound? && Listed(p) && |p.predicates| == 1
    ensures ArgsOf(p) == ArgsOf(p.predicates[0])
  {
    assert ArgsOfParts(p, 1) == ArgsOfParts(p, 0) + ArgsOf(p.predicates[0]);
  }

  lemma {:induction false} PartsNumber(c: Config, p: Predicate, k: nat, n: nat, sql: Sql)
    requires p.Compound? && Listed(p) && k <= |p.predicates|
    requires sql.Joined? && k <= |sql.parts| && sql.parts[..k] == BuildParts(c, p, k, n).0
    ensures var (parts, args, counter) := BuildParts(c, p, k, n);
      counter == n + |args| && ParamsOfParts(sql, k) == Numbered(n, |args|) && args == ArgsOfParts(p, k)
    decreases p, k
  {
    OneNumber(n);
    if k > 0 {
      var (parts, args, counter) := BuildParts(c, p, k - 1, n);
      assert sql.parts[..k - 1] == sql.parts[..k][..k - 1];
      PartsNumber(c, p, k - 1, n, sql);
      BuildNumbers(c, p.predicates[k - 1], counter);
      var last := Build(c, p.predicates[k - 1], counter);
      assert sql.parts[k - 1] == last.sql;
      NumbersJoin(n, |args|, |last.args|);
    }
  }
}
