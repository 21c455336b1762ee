/**
 The compiler from custom-field filter conditions to SQL: one LEFT JOIN and one WHERE conjunct per
 condition, and numbered parameters continuing the caller's. The SQL is a small syntax tree with
 PostgreSQL's three-valued evaluation, where a failed cast fails the query.
 */
module CustomFieldFilters {
  import opened Wrappers

  datatype FieldType = TextField | LongTextField | BooleanField | SingleSelect | MultiSelect | NumberField | DateField

  datatype Operator =
    | Contains | DoesNotContain | Equals | IsEmpty | IsNotEmpty | Is | IsNot | IncludesAny | IncludesAll
    | Yes | No | GreaterThan | LessThan | Between | Before | After | On | IsOverdue
    | Other(name: string)

  // What the compiler reads off a JSON operand: its text ("" when absent), its plain String(),
  // its Number(), and its elements when it is an array.
  datatype Operand = Operand(text: string, plain: string, number: real, list: Option<seq<string>>)

  datatype Filter = Filter(definition: string, operator: Operator, value: Operand, valueTo: Operand)

  datatype Param = Id(id: string) | Text(text: string) | Number(number: real) | List(list: seq<string>)

  // ---------------------------------------------------------------------------------------
  // The SQL it emits
  // ---------------------------------------------------------------------------------------

  datatype Scalar =
    | Value(alias: nat)                 // cfvN.value
    | TextOf(alias: nat)                // (cfvN.value #>> '{}')
    | ToNumber(of: Scalar)              // ...::numeric
    | ToDate(of: Scalar)                // ...::date
    | Placeholder(n: nat)               // $n
    | JsonText(n: nat)                  // to_jsonb($n::text)
    | JsonBool(value: bool)             // 'true'::jsonb
    | CurrentDate

  datatype Condition =
    | IdIsNull(alias: nat)
    | IdIsNotNull(alias: nat)
    | ILike(text: Scalar, part: Scalar)     // text ILIKE '%' || part || '%'
    | NotILike(text: Scalar, part: Scalar)
    | Equal(left: Scalar, right: Scalar)
    | NotEqual(left: Scalar, right: Scalar)
    | Less(left: Scalar, right: Scalar)
    | Greater(left: Scalar, right: Scalar)
    | InRange(of: Scalar, low: Scalar, high: Scalar)
    | HasKey(value: Scalar, key: Scalar)    // ?
    | HasAny(value: Scalar, keys: Scalar)   // ?|
    | HasAll(value: Scalar, keys: Scalar)   // ?&
    | Or(first: Condition, second: Condition)
    | Not(negated: Condition)

  // LEFT JOIN custom_field_values cfvN ON cfvN.testcase_id = testcases.id AND cfvN.definition_id = $n
  datatype Join = Join(alias: nat, definition: nat)

  datatype Query = Query(joins: seq<Join>, wheres: seq<Condition>, params: seq<Param>)

  datatype Error = UnknownField(definition: string) | EmptyList | UnsupportedOperator(name: string)

  datatype Clause = Clause(condition: Condition, values: seq<Param>)

  function ArrayClause(filter: Filter, condition: Condition): Result<Clause, Error> {
    if filter.value.list.None? || filter.value.list.value == [] then Err(EmptyList)
    else Ok(Clause(condition, [List(filter.value.list.value)]))
  }

  function BuildOperatorClause(alias: nat, fieldType: FieldType, filter: Filter, p: nat): Result<Clause, Error> {
    var text, number, date := TextOf(alias), ToNumber(TextOf(alias)), ToDate(TextOf(alias));
    var value, given := filter.value, Placeholder(p);
    match filter.operator
    case IsEmpty => Ok(Clause(IdIsNull(alias), []))
    case IsNotEmpty => Ok(Clause(IdIsNotNull(alias), []))
    case Contains => Ok(Clause(ILike(text, given), [Text(value.text)]))
    case DoesNotContain => Ok(Clause(Or(IdIsNull(alias), NotILike(text, given)), [Text(value.text)]))
    case Equals =>
      if fieldType == NumberField then Ok(Clause(Equal(number, given), [Number(value.number)]))
      else Ok(Clause(Equal(text, given), [Text(value.text)]))
    case Is =>
      if fieldType == MultiSelect then Ok(Clause(HasKey(Value(alias), given), [Text(value.text)]))
      else Ok(Clause(Equal(Value(alias), JsonText(p)), [Text(value.text)]))
    case IsNot =>
      if fieldType == MultiSelect then
        Ok(Clause(Or(IdIsNull(alias), Not(HasKey(Value(alias), given))), [Text(value.text)]))
      else Ok(Clause(Or(IdIsNull(alias), NotEqual(Value(alias), JsonText(p))), [Text(value.text)]))
    case IncludesAny => ArrayClause(filter, HasAny(Value(alias), given))
    case IncludesAll => ArrayClause(filter, HasAll(Value(alias), given))
    case Yes => Ok(Clause(Equal(Value(alias), JsonBool(true)), []))
    case No => Ok(Clause(Equal(Value(alias), JsonBool(false)), []))
    case GreaterThan => Ok(Clause(Greater(number, given), [Number(value.number)]))
    case LessThan => Ok(Clause(Less(number, given), [Number(value.number)]))
    case Between =>
      if fieldType == DateField then
        Ok(Clause(InRange(date, ToDate(given), ToDate(Placeholder(p + 1))),
                  [Text(value.plain), Text(filter.valueTo.plain)]))
      else
        Ok(Clause(InRange(number, given, Placeholder(p + 1)), [Number(value.number), Number(filter.valueTo.number)]))
    case Before => Ok(Clause(Less(date, ToDate(given)), [Text(value.plain)]))
    case After => Ok(Clause(Greater(date, ToDate(given)), [Text(value.plain)]))
    case On => Ok(Clause(Equal(date, ToDate(given)), [Text(value.plain)]))
    case IsOverdue => Ok(Clause(Less(date, CurrentDate), []))
    case Other(name) => Err(UnsupportedOperator(name))
  }

  type Definitions = map<string, FieldType>

  // The query after the first filters, in order; the first filter that cannot be compiled is the
  // error.
  function Compiled(filters: seq<Filter>, definitions: Definitions, start: nat): (r: Result<Query, Error>)
    ensures r.Ok? ==> |r.value.joins| == |filters| && |r.value.wheres| == |filters|
  {
    if filters == [] then Ok(Query([], [], []))
    else
      var front := Compiled(filters[..|filters| - 1], definitions, start);
      if front.Err? then front else Appended(front.value, filters[|filters| - 1], definitions, start)
  }

  function Appended(q: Query, filter: Filter, definitions: Definitions, start: nat): Result<Query, Error> {
    if filter.definition !in definitions then Err(UnknownField(filter.definition))
    else
      var alias, index := |q.joins|, start + |q.params| + 1;
      var clause := BuildOperatorClause(alias, definitions[filter.definition], filter, index + 1);
      if clause.Err? then Err(clause.error)
      else
        Ok(Query(q.joins + [Join(alias, index)], q.wheres + [clause.value.condition],
                 q.params + [Id(filter.definition)] + clause.value.values))
  }

  lemma OneMoreFilter(filters: seq<Filter>, definitions: Definitions, start: nat, i: nat, q: Query)
    requires i < |filters| && Compiled(filters[..i], definitions, start) == Ok(q)
    ensures Compiled(filters[..i + 1], definitions, start) == Appended(q, filters[i], definitions, start)
    ensures Appended(q, filters[i], definitions, start).Err?
        ==> Compiled(filters, definitions, start) == Appended(q, filters[i], definitions, start)
  {
    assert filters[..i + 1][..i] == filters[..i];
    if Compiled(filters[..i + 1], definitions, start).Err? {
      FirstError(filters, definitions, start, i + 1);
    }
  }

  method BuildCustomFieldFiltersSql(filters: seq<Filter>, definitions: Definitions, paramIndexStart: nat)
    returns (r: Result<Query, Error>)
    ensures r == Compiled(filters, definitions, paramIndexStart)
  {
    if filters == [] {
      return Ok(Query([], [], []));
    }
    var joins: seq<Join>, wheres: seq<Condition>, params: seq<Param> := [], [], [];
    var paramIndex := paramIndexStart;
    for i := 0 to |filters|
      invariant Compiled(filters[..i], definitions, paramIndexStart) == Ok(Query(joins, wheres, params))
      invariant |joins| == i && paramIndex == paramIndexStart + |params|
    {
      var filter := filters[i];
      OneMoreFilter(filters, definitions, paramIndexStart, i, Query(joins, wheres, params));
      if filter.definition !in definitions {
        return Err(UnknownField(filter.definition));
      }
      paramIndex := paramIndex + 1;
      params := params + [Id(filter.definition)];
      joins := joins + [Join(i, paramIndex)];
      var clause := BuildOperatorClause(i, definitions[filter.definition], filter, paramIndex + 1);
      if clause.Err? {
        return Err(clause.error);
      }
      wheres := wheres + [clause.value.condition];
      params := params + clause.value.values;
      paramIndex := paramIndex + |clause.value.values|;
    }
    assert filters[..|filters|] == filters;
    return Ok(Query(joins, wheres, params));
  }

  lemma {:induction false} FirstError(filters: seq<Filter>, definitions: Definitions, start: nat, k: nat)
    requires k <= |filters| && Compiled(filters[..k], definitions, start).Err?
    ensures Compiled(filters, definitions, start) == Compiled(filters[..k], definitions, start)
    decreases |filters|
  {
    if k == |filters| {
      assert filters[..k] == filters;
    } else {
      assert filters[..|filters| - 1][..k] == filters[..k];
      FirstError(filters[..|filters| - 1], definitions, start, k);
    }
  }

  predicate Compilable(filter: Filter, definitions: Definitions) {
    && filter.definition in definitions && !filter.operator.Other?
    && (filter.operator.IncludesAny? || filter.operator.IncludesAll? ==> filter.value.list.GetOr([]) != [])
  }

  function Complaint(filter: Filter, definitions: Definitions): Error {
    if filter.definition !in definitions then UnknownField(filter.definition)
    else if filter.operator.Other? then UnsupportedOperator(filter.operator.name)
    else EmptyList
  }

  lemma AppendsIff(q: Query, filter: Filter, definitions: Definitions, start: nat)
    ensures var r := Appended(q, filter, definitions, start);
            (r.Ok? <==> Compilable(filter, definitions)) && (r.Err? ==> r.error == Complaint(filter, definitions))
  {
  }

  lemma {:induction false} AllCompilable(filters: seq<Filter>, definitions: Definitions, start: nat)
    requires Compiled(filters, definitions, start).Ok?
    ensures forall i :: 0 <= i < |filters| ==> Compilable(filters[i], definitions)
  {
    if filters != [] {
      var last := |filters| - 1;
      AllCompilable(filters[..last], definitions, start);
      AppendsIff(Compiled(filters[..last], definitions, start).value, filters[last], definitions, start);
      assert forall i :: 0 <= i < last ==> filters[..last][i] == filters[i];
    }
  }

  lemma {:induction false} FirstOffender(filters: seq<Filter>, definitions: Definitions, start: nat) returns (i: nat)
    requires Compiled(filters, definitions, start).Err?
    ensures i < |filters| && !Compilable(filters[i], definitions)
    ensures forall j :: 0 <= j < i ==> Compilable(filters[j], definitions)
    ensures Compiled(filters, definitions, start).error == Complaint(filters[i], definitions)
  {
    var last := |filters| - 1;
    var front := Compiled(filters[..last], definitions, start);
    if front.Err? {
      i := FirstOffender(filters[..last], definitions, start);
      assert forall j :: 0 <= j <= i ==> filters[..last][j] == filters[j];
    } else {
      i := last;
      AllCompilable(filters[..last], definitions, start);
      AppendsIff(front.value, filters[last], definitions, start);
      assert forall j :: 0 <= j < last ==> filters[..last][j] == filters[j];
    }
  }

  // Compilation fails if and only if some filter names an unknown field or an unsupported operator
  // or gives an `includes` operator no list, and then the first such filter's error is the answer.
  lemma CompilesIff(filters: seq<Filter>, definitions: Definitions, start: nat)
    ensures Compiled(filters, definitions, start).Ok?
            <==> forall i :: 0 <= i < |filters| ==> Compilable(filters[i], definitions)
    ensures Compiled(filters, definitions, start).Err? ==>
              exists i :: 0 <= i < |filters| && !Compilable(filters[i], definitions)
                          && (forall j :: 0 <= j < i ==> Compilable(filters[j], definitions))
                          && Compiled(filters, definitions, start).error == Complaint(filters[i], definitions)
  {
    if Compiled(filters, definitions, start).Ok? {
      AllCompilable(filters, definitions, start);
    } else {
      var i := FirstOffender(filters, definitions, start);
    }
  }

  // ---------------------------------------------------------------------------------------
  // What SQL means
  // ---------------------------------------------------------------------------------------

  datatype Json = JText(text: string) | JNumber(number: real) | JBool(value: bool) | JList(items: seq<string>)

  // What the database decides: how it renders and casts text, and what ILIKE matches.
  datatype Postgres = Postgres(
    renderNumber: real -> string, renderList: seq<string> -> string,
    toNumber: string -> Option<real>, toDate: string -> Option<int>,
    matches: (string, string) -> bool, today: int)

  function Rendered(pg: Postgres, json: Json): string {
    match json
    case JText(text) => text
    case JNumber(number) => pg.renderNumber(number)
    case JBool(value) => if value then "true" else "false"
    case JList(items) => pg.renderList(items)
  }

  // A bad value is a failed cast, or operands no operator takes.
  datatype SqlValue = Null | TextValue(text: string) | NumberValue(number: real) | DateValue(date: int)
                    | JsonValue(json: Json) | ListValue(list: seq<string>) | Bad

  datatype Truth = True | False | Unknown | Fails

  // One joined row: the stored value behind each alias, if its join found one.
  type Joined = seq<Option<Json>>

  function Bound(params: seq<Param>, n: nat): SqlValue {
    if n == 0 || n > |params| then Bad
    else
      match params[n - 1]
      case Id(id) => TextValue(id)
      case Text(text) => TextValue(text)
      case Number(number) => NumberValue(number)
      case List(list) => ListValue(list)
  }

  function Read(pg: Postgres, scalar: Scalar, row: Joined, params: seq<Param>): SqlValue {
    match scalar
    case Value(alias) =>
      if alias >= |row| then Bad else if row[alias].None? then Null else JsonValue(row[alias].value)
    case TextOf(alias) =>
      if alias >= |row| then Bad else if row[alias].None? then Null else TextValue(Rendered(pg, row[alias].value))
    case ToNumber(of) => CastToNumber(pg, Read(pg, of, row, params))
    case ToDate(of) => CastToDate(pg, Read(pg, of, row, params))
    case Placeholder(n) => Bound(params, n)
    case JsonText(n) => if Bound(params, n).TextValue? then JsonValue(JText(Bound(params, n).text)) else Bad
    case JsonBool(value) => JsonValue(JBool(value))
    case CurrentDate => DateValue(pg.today)
  }

  function CastToNumber(pg: Postgres, v: SqlValue): SqlValue {
    if v.Null? then Null
    else if v.TextValue? && pg.toNumber(v.text).Some? then NumberValue(pg.toNumber(v.text).value)
    else Bad
  }

  function CastToDate(pg: Postgres, v: SqlValue): SqlValue {
    if v.Null? then Null
    else if v.TextValue? && pg.toDate(v.text).Some? then DateValue(pg.toDate(v.text).value)
    else Bad
  }

  function Holds(b: bool): Truth {
    if b then True else False
  }

  // Any operator on a bad operand fails, and on a NULL operand is unknown.
  function Strict(a: SqlValue, b: SqlValue, otherwise: Truth): Truth {
    if a.Bad? || b.Bad? then Fails else if a.Null? || b.Null? then Unknown else otherwise
  }

  function SameValue(a: SqlValue, b: SqlValue): Truth {
    match (a, b)
    case (TextValue(x), TextValue(y)) => Holds(x == y)
    case (NumberValue(x), NumberValue(y)) => Holds(x == y)
    case (DateValue(x), DateValue(y)) => Holds(x == y)
    case (JsonValue(x), JsonValue(y)) => Holds(x == y)
    case _ => Fails
  }

  function Below(a: SqlValue, b: SqlValue): Truth {
    match (a, b)
    case (NumberValue(x), NumberValue(y)) => Holds(x < y)
    case (DateValue(x), DateValue(y)) => Holds(x < y)
    case _ => Fails
  }

  function Negated(t: Truth): Truth {
    match t
    case True => False
    case False => True
    case Unknown => Unknown
    case Fails => Fails
  }

  function Either(a: Truth, b: Truth): Truth {
    if a == Fails || b == Fails then Fails
    else if a == True || b == True then True
    else if a == Unknown || b == Unknown then Unknown
    else False
  }

  function Both(a: Truth, b: Truth): Truth {
    Negated(Either(Negated(a), Negated(b)))
  }

  // The top-level strings of a JSON value.
  predicate HasString(json: Json, s: string) {
    (json.JText? && json.text == s) || (json.JList? && s in json.items)
  }

  function Eval(pg: Postgres, condition: Condition, row: Joined, params: seq<Param>): Truth {
    match condition
    case IdIsNull(alias) => if alias >= |row| then Fails else Holds(row[alias].None?)
    case IdIsNotNull(alias) => if alias >= |row| then Fails else Holds(row[alias].Some?)
    case ILike(text, part) => LikeTruth(pg, Read(pg, text, row, params), Read(pg, part, row, params))
    case NotILike(text, part) => Negated(LikeTruth(pg, Read(pg, text, row, params), Read(pg, part, row, params)))
    case Equal(left, right) => EqualTruth(Read(pg, left, row, params), Read(pg, right, row, params))
    case NotEqual(left, right) => Negated(EqualTruth(Read(pg, left, row, params), Read(pg, right, row, params)))
    case Less(left, right) => LessTruth(Read(pg, left, row, params), Read(pg, right, row, params))
    case Greater(left, right) => LessTruth(Read(pg, right, row, params), Read(pg, left, row, params))
    case InRange(of, low, high) =>
      RangeTruth(Read(pg, of, row, params), Read(pg, low, row, params), Read(pg, high, row, params))
    case HasKey(value, key) => KeyTruth(Read(pg, value, row, params), Read(pg, key, row, params))
    case HasAny(value, keys) => AnyTruth(Read(pg, value, row, params), Read(pg, keys, row, params))
    case HasAll(value, keys) => AllTruth(Read(pg, value, row, params), Read(pg, keys, row, params))
    case Or(first, second) => Either(Eval(pg, first, row, params), Eval(pg, second, row, params))
    case Not(negated) => Negated(Eval(pg, negated, row, params))
  }

  function LikeTruth(pg: Postgres, text: SqlValue, part: SqlValue): Truth {
    Strict(text, part, if text.TextValue? && part.TextValue? then Holds(pg.matches(text.text, part.text)) else Fails)
  }

  function EqualTruth(a: SqlValue, b: SqlValue): Truth {
    Strict(a, b, SameValue(a, b))
  }

  function LessTruth(a: SqlValue, b: SqlValue): Truth {
    Strict(a, b, Below(a, b))
  }

  // BETWEEN: not below the low end, and the high end not below it.
  function RangeTruth(x: SqlValue, low: SqlValue, high: SqlValue): Truth {
    Both(Negated(LessTruth(x, low)), Negated(LessTruth(high, x)))
  }

  function KeyTruth(value: SqlValue, key: SqlValue): Truth {
    Strict(value, key, if value.JsonValue? && key.TextValue? then Holds(HasString(value.json, key.text)) else Fails)
  }

  function AnyTruth(value: SqlValue, keys: SqlValue): Truth {
    Strict(value, keys,
           if value.JsonValue? && keys.ListValue? then Holds(exists k :: k in keys.list && HasString(value.json, k))
           else Fails)
  }

  function AllTruth(value: SqlValue, keys: SqlValue): Truth {
    Strict(value, keys,
           if value.JsonValue? && keys.ListValue? then Holds(forall k :: k in keys.list ==> HasString(value.json, k))
           else Fails)
  }

  datatype StoredValue = StoredValue(definition: string, testcase: nat, value: Json)

  // The rows of the values table a join's condition accepts.
  function Matching(values: seq<StoredValue>, definition: SqlValue, testcase: nat): seq<Json> {
    if values == [] then []
    else
      var last := values[|values| - 1];
      Matching(values[..|values| - 1], definition, testcase)
      + if last.testcase == testcase && definition == TextValue(last.definition) then [last.value] else []
  }

  // LEFT JOIN: each row once per match, or once with NULLs when nothing matches.
  function LeftJoin(rows: seq<Joined>, found: seq<Json>): seq<Joined> {
    if rows == [] then []
    else
      var row := rows[|rows| - 1];
      LeftJoin(rows[..|rows| - 1], found)
      + if found == [] then [row + [None]] else seq(|found|, i requires 0 <= i < |found| => row + [Some(found[i])])
  }

  function JoinAll(joins: seq<Join>, values: seq<StoredValue>, testcase: nat, params: seq<Param>): seq<Joined> {
    if joins == [] then [[]]
    else
      LeftJoin(JoinAll(joins[..|joins| - 1], values, testcase, params),
               Matching(values, Bound(params, joins[|joins| - 1].definition), testcase))
  }

  // The whole WHERE clause on one joined row; it fails when any conjunct does.
  function Where(pg: Postgres, wheres: seq<Condition>, row: Joined, params: seq<Param>): Truth {
    if wheres == [] then True
    else Both(Where(pg, wheres[..|wheres| - 1], row, params), Eval(pg, wheres[|wheres| - 1], row, params))
  }

  // The rows a test case contributes to the result.
  function Selected(pg: Postgres, q: Query, values: seq<StoredValue>, testcase: nat, params: seq<Param>): seq<Joined> {
    Kept(pg, q, JoinAll(q.joins, values, testcase, params), params)
  }

  function Kept(pg: Postgres, q: Query, rows: seq<Joined>, params: seq<Param>): seq<Joined> {
    if rows == [] then []
    else
      var row := rows[|rows| - 1];
      Kept(pg, q, rows[..|rows| - 1], params) + if Where(pg, q.wheres, row, params) == True then [row] else []
  }

  predicate QueryFails(pg: Postgres, q: Query, values: seq<StoredValue>, testcase: nat, params: seq<Param>) {
    exists i :: 0 <= i < |JoinAll(q.joins, values, testcase, params)|
                && Where(pg, q.wheres, JoinAll(q.joins, values, testcase, params)[i], params) == Fails
  }

  // ---------------------------------------------------------------------------------------
  // What a filter means
  // ---------------------------------------------------------------------------------------

  datatype Verdict = Meets | Misses | Incomparable

  function Decide(b: bool): Verdict {
    if b then Meets else Misses
  }

  function Opposite(v: Verdict): Verdict {
    match v
    case Meets => Misses
    case Misses => Meets
    case Incomparable => Incomparable
  }

  // A comparison of numbers: a test case without a value misses it.
  function OnNumber(pg: Postgres, stored: Option<Json>, test: real -> bool): Verdict {
    if stored.None? then Misses
    else
      var x := pg.toNumber(Rendered(pg, stored.value));
      if x.None? then Incomparable else Decide(test(x.value))
  }

  // A comparison of dates, with the operands' dates known to be good or not.
  function OnDate(pg: Postgres, stored: Option<Json>, good: bool, test: int -> bool): Verdict {
    if !good then Incomparable
    else if stored.None? then Misses
    else
      var x := pg.toDate(Rendered(pg, stored.value));
      if x.None? then Incomparable else Decide(test(x.value))
  }

  // What a condition asks of the one stored value, read directly.
  function Judge(pg: Postgres, fieldType: FieldType, filter: Filter, stored: Option<Json>): Verdict {
    var value, from, to := filter.value, pg.toDate(filter.value.plain), pg.toDate(filter.valueTo.plain);
    var low, high := from.GetOr(0), to.GetOr(0);
    match filter.operator
    case IsEmpty => Decide(stored.None?)
    case IsNotEmpty => Decide(stored.Some?)
    case Contains => Decide(stored.Some? && pg.matches(Rendered(pg, stored.value), value.text))
    case DoesNotContain => Decide(!(stored.Some? && pg.matches(Rendered(pg, stored.value), value.text)))
    case Equals =>
      if fieldType == NumberField then OnNumber(pg, stored, x => x == value.number)
      else Decide(stored.Some? && Rendered(pg, stored.value) == value.text)
    case Is => Decide(IsOption(fieldType, stored, value.text))
    case IsNot => Decide(!IsOption(fieldType, stored, value.text))
    case IncludesAny => Decide(stored.Some? && exists k :: k in value.list.GetOr([]) && HasString(stored.value, k))
    case IncludesAll => Decide(stored.Some? && forall k :: k in value.list.GetOr([]) ==> HasString(stored.value, k))
    case Yes => Decide(stored == Some(JBool(true)))
    case No => Decide(stored == Some(JBool(false)))
    case GreaterThan => OnNumber(pg, stored, x => x > value.number)
    case LessThan => OnNumber(pg, stored, x => x < value.number)
    case Between =>
      if fieldType == DateField then OnDate(pg, stored, from.Some? && to.Some?, x => low <= x && x <= high)
      else OnNumber(pg, stored, x => value.number <= x <= filter.valueTo.number)
    case Before => OnDate(pg, stored, from.Some?, x => x < low)
    case After => OnDate(pg, stored, from.Some?, x => x > low)
    case On => OnDate(pg, stored, from.Some?, x => x == low)
    case IsOverdue => OnDate(pg, stored, true, x => x < pg.today)
    case Other(_) => Incomparable
  }

  predicate IsOption(fieldType: FieldType, stored: Option<Json>, option: string) {
    stored.Some? && if fieldType == MultiSelect then HasString(stored.value, option) else stored.value == JText(option)
  }

  // The truth values a WHERE clause may have for a verdict: NULL counts as a miss.
  predicate Agrees(t: Truth, v: Verdict) {
    (t == True <==> v == Meets) && (t == Fails <==> v == Incomparable)
  }

  // The parameters numbered from `p` on are these values.
  predicate Carries(params: seq<Param>, p: nat, values: seq<Param>) {
    p > 0 && p - 1 + |values| <= |params| && forall k :: 0 <= k < |values| ==> params[p - 1 + k] == values[k]
  }

  lemma CarriedIsBound(params: seq<Param>, p: nat, values: seq<Param>)
    requires Carries(params, p, values)
    ensures values != [] ==> Bound(params, p) == Bound(values, 1)
    ensures |values| > 1 ==> Bound(params, p + 1) == Bound(values, 2)
  {
    assert values != [] ==> params[p - 1 + 0] == values[0];
    assert |values| > 1 ==> params[p - 1 + 1] == values[1];
  }

  lemma ReadCasts(pg: Postgres, alias: nat, p: nat, row: Joined, params: seq<Param>)
    requires alias < |row|
    ensures var text := if row[alias].None? then Null else TextValue(Rendered(pg, row[alias].value));
            && Read(pg, ToNumber(TextOf(alias)), row, params) == CastToNumber(pg, text)
            && Read(pg, ToDate(TextOf(alias)), row, params) == CastToDate(pg, text)
    ensures Read(pg, ToDate(Placeholder(p)), row, params) == CastToDate(pg, Bound(params, p))
  {
  }

  // The clause compiled from a filter, with its alias joined and its values among the parameters.
  predicate Placed(clause: Clause, alias: nat, fieldType: FieldType, filter: Filter, p: nat, row: Joined,
                   params: seq<Param>)
  {
    alias < |row| && BuildOperatorClause(alias, fieldType, filter, p) == Ok(clause) && Carries(params, p, clause.values)
  }

  predicate Faithful(pg: Postgres, clause: Clause, fieldType: FieldType, filter: Filter, stored: Option<Json>,
                     row: Joined, params: seq<Param>)
  {
    Agrees(Eval(pg, clause.condition, row, params), Judge(pg, fieldType, filter, stored))
  }

  lemma PresenceClause(pg: Postgres, clause: Clause, alias: nat, fieldType: FieldType, filter: Filter, p: nat,
                       row: Joined, params: seq<Param>)
    requires Placed(clause, alias, fieldType, filter, p, row, params)
    requires filter.operator.IsEmpty? || filter.operator.IsNotEmpty? || filter.operator.Yes? || filter.operator.No?
    ensures Faithful(pg, clause, fieldType, filter, row[alias], row, params)
  {
  }

  lemma TextClause(pg: Postgres, clause: Clause, alias: nat, fieldType: FieldType, filter: Filter, p: nat, row: Joined,
                   params: seq<Param>)
    requires Placed(clause, alias, fieldType, filter, p, row, params)
    requires filter.operator.Contains? || filter.operator.DoesNotContain?
    ensures Faithful(pg, clause, fieldType, filter, row[alias], row, params)
  {
    CarriedIsBound(params, p, clause.values);
  }

  lemma OptionClause(pg: Postgres, clause: Clause, alias: nat, fieldType: FieldType, filter: Filter, p: nat,
                     row: Joined, params: seq<Param>)
    requires Placed(clause, alias, fieldType, filter, p, row, params)
    requires filter.operator.Is? || filter.operator.IsNot?
    ensures Faithful(pg, clause, fieldType, filter, row[alias], row, params)
  {
    CarriedIsBound(params, p, clause.values);
    var has := HasKey(Value(alias), Placeholder(p));
    assert Eval(pg, Not(has), row, params) == Negated(Eval(pg, has, row, params));
  }

  lemma ListClause(pg: Postgres, clause: Clause, alias: nat, fieldType: FieldType, filter: Filter, p: nat, row: Joined,
                   params: seq<Param>)
    requires Placed(clause, alias, fieldType, filter, p, row, params)
    requires filter.operator.IncludesAny? || filter.operator.IncludesAll?
    ensures Faithful(pg, clause, fieldType, filter, row[alias], row, params)
  {
    CarriedIsBound(params, p, clause.values);
  }

  lemma NumberClause(pg: Postgres, clause: Clause, alias: nat, fieldType: FieldType, filter: Filter, p: nat,
                     row: Joined, params: seq<Param>)
    requires Placed(clause, alias, fieldType, filter, p, row, params)
    requires filter.operator.Equals? || filter.operator.GreaterThan? || filter.operator.LessThan?
    ensures Faithful(pg, clause, fieldType, filter, row[alias], row, params)
  {
    CarriedIsBound(params, p, clause.values);
    ReadCasts(pg, alias, p, row, params);
    var number, given := ToNumber(TextOf(alias)), Placeholder(p);
    match filter.operator
    case Equals => assert fieldType == NumberField ==> clause.condition == Equal(number, given);
    case GreaterThan => assert clause.condition == Greater(number, given);
    case LessThan => assert clause.condition == Less(number, given);
    case _ =>
  }

  lemma NumberRangeClause(pg: Postgres, clause: Clause, alias: nat, fieldType: FieldType, filter: Filter, p: nat,
                          row: Joined, params: seq<Param>)
    requires Placed(clause, alias, fieldType, filter, p, row, params)
    requires filter.operator.Between? && fieldType != DateField
    ensures Faithful(pg, clause, fieldType, filter, row[alias], row, params)
  {
    CarriedIsBound(params, p, clause.values);
    ReadCasts(pg, alias, p, row, params);
    assert Read(pg, Placeholder(p + 1), row, params) == NumberValue(filter.valueTo.number);
  }

  lemma DateRangeClause(pg: Postgres, clause: Clause, alias: nat, fieldType: FieldType, filter: Filter, p: nat,
                        row: Joined, params: seq<Param>)
    requires Placed(clause, alias, fieldType, filter, p, row, params)
    requires filter.operator.Between? && fieldType == DateField
    ensures Faithful(pg, clause, fieldType, filter, row[alias], row, params)
  {
    CarriedIsBound(params, p, clause.values);
    ReadCasts(pg, alias, p, row, params);
    ReadCasts(pg, alias, p + 1, row, params);
    assert Bound(params, p) == TextValue(filter.value.plain) && Bound(params, p + 1) == TextValue(filter.valueTo.plain);
    var from, to := pg.toDate(filter.value.plain), pg.toDate(filter.valueTo.plain);
    if row[alias].Some? && from.Some? && to.Some? {
      var x := pg.toDate(Rendered(pg, row[alias].value));
      assert x.Some? ==>
               RangeTruth(DateValue(x.value), DateValue(from.value), DateValue(to.value))
                 == Holds(from.value <= x.value <= to.value);
    }
  }

  lemma DateClause(pg: Postgres, clause: Clause, alias: nat, fieldType: FieldType, filter: Filter, p: nat, row: Joined,
                   params: seq<Param>)
    requires Placed(clause, alias, fieldType, filter, p, row, params)
    requires filter.operator.Before? || filter.operator.After?
    ensures Faithful(pg, clause, fieldType, filter, row[alias], row, params)
  {
    CarriedIsBound(params, p, clause.values);
    ReadCasts(pg, alias, p, row, params);
    assert clause.values == [Text(filter.value.plain)];
    var date, given := ToDate(TextOf(alias)), ToDate(Placeholder(p));
    assert clause.condition == if filter.operator.Before? then Less(date, given) else Greater(date, given);
  }

  lemma SameDateClause(pg: Postgres, clause: Clause, alias: nat, fieldType: FieldType, filter: Filter, p: nat,
                       row: Joined, params: seq<Param>)
    requires Placed(clause, alias, fieldType, filter, p, row, params)
    requires filter.operator.On?
    ensures Faithful(pg, clause, fieldType, filter, row[alias], row, params)
  {
    CarriedIsBound(params, p, clause.values);
    ReadCasts(pg, alias, p, row, params);
    assert clause.values == [Text(filter.value.plain)];
    assert clause.condition == Equal(ToDate(TextOf(alias)), ToDate(Placeholder(p)));
  }

  lemma OverdueClause(pg: Postgres, clause: Clause, alias: nat, fieldType: FieldType, filter: Filter, p: nat,
                      row: Joined, params: seq<Param>)
    requires Placed(clause, alias, fieldType, filter, p, row, params)
    requires filter.operator.IsOverdue?
    ensures Faithful(pg, clause, fieldType, filter, row[alias], row, params)
  {
    ReadCasts(pg, alias, p, row, params);
  }

  // A clause whose alias and parameter numbers hold its value and its operands says what the
  // filter means.
  lemma ClauseMeaning(pg: Postgres, clause: Clause, alias: nat, fieldType: FieldType, filter: Filter, p: nat,
                      row: Joined, params: seq<Param>)
    requires Placed(clause, alias, fieldType, filter, p, row, params)
    ensures Faithful(pg, clause, fieldType, filter, row[alias], row, params)
  {
    match filter.operator
    case IsEmpty => PresenceClause(pg, clause, alias, fieldType, filter, p, row, params);
    case IsNotEmpty => PresenceClause(pg, clause, alias, fieldType, filter, p, row, params);
    case Yes => PresenceClause(pg, clause, alias, fieldType, filter, p, row, params);
    case No => PresenceClause(pg, clause, alias, fieldType, filter, p, row, params);
    case Contains => TextClause(pg, clause, alias, fieldType, filter, p, row, params);
    case DoesNotContain => TextClause(pg, clause, alias, fieldType, filter, p, row, params);
    case Is => OptionClause(pg, clause, alias, fieldType, filter, p, row, params);
    case IsNot => OptionClause(pg, clause, alias, fieldType, filter, p, row, params);
    case IncludesAny => ListClause(pg, clause, alias, fieldType, filter, p, row, params);
    case IncludesAll => ListClause(pg, clause, alias, fieldType, filter, p, row, params);
    case Equals => NumberClause(pg, clause, alias, fieldType, filter, p, row, params);
    case GreaterThan => NumberClause(pg, clause, alias, fieldType, filter, p, row, params);
    case LessThan => NumberClause(pg, clause, alias, fieldType, filter, p, row, params);
    case Between =>
      if fieldType == DateField {
        DateRangeClause(pg, clause, alias, fieldType, filter, p, row, params);
      } else {
        NumberRangeClause(pg, clause, alias, fieldType, filter, p, row, params);
      }
    case Before => DateClause(pg, clause, alias, fieldType, filter, p, row, params);
    case After => DateClause(pg, clause, alias, fieldType, filter, p, row, params);
    case On => SameDateClause(pg, clause, alias, fieldType, filter, p, row, params);
    case IsOverdue => OverdueClause(pg, clause, alias, fieldType, filter, p, row, params);
    case Other(_) =>
  }

  // ---------------------------------------------------------------------------------------
  // Parameters
  // ---------------------------------------------------------------------------------------

  function ScalarMentions(scalar: Scalar): set<nat> {
    match scalar
    case ToNumber(of) => ScalarMentions(of)
    case ToDate(of) => ScalarMentions(of)
    case Placeholder(n) => {n}
    case JsonText(n) => {n}
    case _ => {}
  }

  // The numbers of a condition's placeholders.
  function Mentions(condition: Condition): set<nat> {
    match condition
    case IdIsNull(_) => {}
    case IdIsNotNull(_) => {}
    case ILike(text, part) => ScalarMentions(text) + ScalarMentions(part)
    case NotILike(text, part) => ScalarMentions(text) + ScalarMentions(part)
    case Equal(left, right) => ScalarMentions(left) + ScalarMentions(right)
    case NotEqual(left, right) => ScalarMentions(left) + ScalarMentions(right)
    case Less(left, right) => ScalarMentions(left) + ScalarMentions(right)
    case Greater(left, right) => ScalarMentions(left) + ScalarMentions(right)
    case InRange(of, low, high) => ScalarMentions(of) + ScalarMentions(low) + ScalarMentions(high)
    case HasKey(value, key) => ScalarMentions(value) + ScalarMentions(key)
    case HasAny(value, keys) => ScalarMentions(value) + ScalarMentions(keys)
    case HasAll(value, keys) => ScalarMentions(value) + ScalarMentions(keys)
    case Or(first, second) => Mentions(first) + Mentions(second)
    case Not(negated) => Mentions(negated)
  }

  lemma CastMentions(scalar: Scalar)
    ensures ScalarMentions(ToNumber(scalar)) == ScalarMentions(scalar) == ScalarMentions(ToDate(scalar))
  {
  }

  ghost predicate MentionsBlock(clause: Clause, p: nat) {
    forall n: nat :: n in Mentions(clause.condition) <==> p <= n < p + |clause.values|
  }

  lemma TextMentions(clause: Clause, alias: nat, fieldType: FieldType, filter: Filter, p: nat)
    requires BuildOperatorClause(alias, fieldType, filter, p) == Ok(clause)
    requires filter.operator.Contains? || filter.operator.DoesNotContain? || filter.operator.Is?
             || filter.operator.IsNot?
    ensures MentionsBlock(clause, p)
  {
    if filter.operator.IsNot? {
      var has := HasKey(Value(alias), Placeholder(p));
      assert Mentions(Not(has)) == {p};
    }
    assert Mentions(clause.condition) == {p};
  }

  lemma ListMentions(clause: Clause, alias: nat, fieldType: FieldType, filter: Filter, p: nat)
    requires BuildOperatorClause(alias, fieldType, filter, p) == Ok(clause)
    requires filter.operator.IncludesAny? || filter.operator.IncludesAll?
    ensures MentionsBlock(clause, p)
  {
    assert Mentions(clause.condition) == {p};
  }

  lemma RangeMentions(clause: Clause, alias: nat, fieldType: FieldType, filter: Filter, p: nat)
    requires BuildOperatorClause(alias, fieldType, filter, p) == Ok(clause) && filter.operator.Between?
    ensures MentionsBlock(clause, p)
  {
    CastMentions(TextOf(alias));
    CastMentions(Placeholder(p));
    CastMentions(Placeholder(p + 1));
    assert Mentions(clause.condition) == {p, p + 1};
  }

  // A clause mentions its own values' numbers, all of them and no others.
  lemma ClauseMentions(clause: Clause, alias: nat, fieldType: FieldType, filter: Filter, p: nat)
    requires BuildOperatorClause(alias, fieldType, filter, p) == Ok(clause)
    ensures MentionsBlock(clause, p)
  {
    CastMentions(TextOf(alias));
    CastMentions(Placeholder(p));
    match filter.operator
    case Contains => TextMentions(clause, alias, fieldType, filter, p);
    case DoesNotContain => TextMentions(clause, alias, fieldType, filter, p);
    case Is => TextMentions(clause, alias, fieldType, filter, p);
    case IsNot => TextMentions(clause, alias, fieldType, filter, p);
    case IncludesAny => ListMentions(clause, alias, fieldType, filter, p);
    case IncludesAll => ListMentions(clause, alias, fieldType, filter, p);
    case Between => RangeMentions(clause, alias, fieldType, filter, p);
    case _ =>
  }

  // The part of the query that came from one filter: the join on its definition, its clause, and
  // the block of parameters from `base` + 1 on, which hold its definition and its clause's values.
  predicate PartAt(q: Query, filter: Filter, definitions: Definitions, start: nat, i: nat, base: nat) {
    && i < |q.joins| && i < |q.wheres| && filter.definition in definitions && start <= base
    && var clause := BuildOperatorClause(i, definitions[filter.definition], filter, base + 2);
       && clause.Ok? && q.joins[i] == Join(i, base + 1) && q.wheres[i] == clause.value.condition
       && Carries(q.params, base - start + 1, [Id(filter.definition)] + clause.value.values)
  }

  lemma AppendedPart(q: Query, filter: Filter, definitions: Definitions, start: nat)
    requires |q.joins| == |q.wheres| && Appended(q, filter, definitions, start).Ok?
    ensures PartAt(Appended(q, filter, definitions, start).value, filter, definitions, start, |q.joins|,
                   start + |q.params|)
  {
  }

  lemma PartStays(q: Query, more: Query, filter: Filter, definitions: Definitions, start: nat, i: nat, base: nat)
    requires PartAt(q, filter, definitions, start, i, base)
    requires q.joins <= more.joins && q.wheres <= more.wheres && q.params <= more.params
    ensures PartAt(more, filter, definitions, start, i, base)
  {
  }

  lemma {:induction false} CompiledPart(filters: seq<Filter>, definitions: Definitions, start: nat, i: nat)
    returns (base: nat)
    requires Compiled(filters, definitions, start).Ok? && i < |filters|
    ensures PartAt(Compiled(filters, definitions, start).value, filters[i], definitions, start, i, base)
  {
    var last := |filters| - 1;
    var q := Compiled(filters[..last], definitions, start).value;
    if i == last {
      base := start + |q.params|;
      AppendedPart(q, filters[last], definitions, start);
    } else {
      base := CompiledPart(filters[..last], definitions, start, i);
      PartStays(q, Compiled(filters, definitions, start).value, filters[i], definitions, start, i, base);
    }
  }

  lemma CarriesHead(params: seq<Param>, p: nat, first: Param, rest: seq<Param>)
    requires Carries(params, p, [first] + rest)
    ensures Carries(params, p, [first])
  {
    assert params[p - 1 + 0] == ([first] + rest)[0];
  }

  lemma CarriesTail(params: seq<Param>, p: nat, first: Param, rest: seq<Param>)
    requires Carries(params, p, [first] + rest)
    ensures Carries(params, p + 1, rest)
  {
    forall k | 0 <= k < |rest|
      ensures params[p + k] == rest[k]
    {
      assert params[p - 1 + (k + 1)] == ([first] + rest)[k + 1];
    }
  }

  // Every placeholder of the query is one of its own parameters, and is bound to what its own
  // filter put there: the join's to the filter's definition, and the clause's, from base + 2 on, to
  // the filter's values in order.
  lemma PlaceholdersBound(filters: seq<Filter>, definitions: Definitions, start: nat, i: nat) returns (base: nat)
    requires Compiled(filters, definitions, start).Ok? && i < |filters|
    ensures var q := Compiled(filters, definitions, start).value;
            && start <= base && q.joins[i].definition == base + 1 && filters[i].definition in definitions
            && Carries(q.params, q.joins[i].definition - start, [Id(filters[i].definition)])
            && var clause := BuildOperatorClause(i, definitions[filters[i].definition], filters[i], base + 2);
               && clause.Ok? && q.wheres[i] == clause.value.condition
               && MentionsBlock(clause.value, base + 2) && Carries(q.params, base + 2 - start, clause.value.values)
  {
    base := CompiledPart(filters, definitions, start, i);
    var q := Compiled(filters, definitions, start).value;
    var clause := BuildOperatorClause(i, definitions[filters[i].definition], filters[i], base + 2);
    ClauseMentions(clause.value, i, definitions[filters[i].definition], filters[i], base + 2);
    CarriesTail(q.params, base - start + 1, Id(filters[i].definition), clause.value.values);
    CarriesHead(q.params, base - start + 1, Id(filters[i].definition), clause.value.values);
  }

  // ---------------------------------------------------------------------------------------
  // Meaning
  // ---------------------------------------------------------------------------------------

  // UNIQUE (definition_id, testcase_id).
  predicate Unique(values: seq<StoredValue>) {
    forall i, j :: 0 <= i < j < |values| ==>
      values[i].definition != values[j].definition || values[i].testcase != values[j].testcase
  }

  function Stored(values: seq<StoredValue>, definition: string, testcase: nat): (r: Option<Json>)
    ensures r.Some?
            <==> exists i :: 0 <= i < |values| && values[i].definition == definition && values[i].testcase == testcase
  {
    if values == [] then None
    else
      var last := values[|values| - 1];
      if last.definition == definition && last.testcase == testcase then Some(last.value)
      else Stored(values[..|values| - 1], definition, testcase)
  }

  lemma {:induction false} MatchingIsStored(values: seq<StoredValue>, definition: string, testcase: nat)
    requires Unique(values)
    ensures var stored := Stored(values, definition, testcase);
            Matching(values, TextValue(definition), testcase) == if stored.None? then [] else [stored.value]
  {
    if values != [] {
      MatchingIsStored(values[..|values| - 1], definition, testcase);
    }
  }

  function VerdictOn(pg: Postgres, definitions: Definitions, filter: Filter, values: seq<StoredValue>,
                     testcase: nat): Verdict
  {
    if filter.definition !in definitions then Incomparable
    else Judge(pg, definitions[filter.definition], filter, Stored(values, filter.definition, testcase))
  }

  function StoredRow(filters: seq<Filter>, values: seq<StoredValue>, testcase: nat): (r: Joined)
    ensures |r| == |filters|
  {
    seq(|filters|, i requires 0 <= i < |filters| => Stored(values, filters[i].definition, testcase))
  }

  lemma OneRowJoined(row: Joined, found: seq<Json>)
    requires |found| <= 1
    ensures LeftJoin([row], found) == [row + [if found == [] then None else Some(found[0])]]
  {
    assert LeftJoin([], found) == [];
  }

  lemma JoinFindsStored(row: Joined, values: seq<StoredValue>, definition: string, testcase: nat)
    requires Unique(values)
    ensures LeftJoin([row], Matching(values, TextValue(definition), testcase))
            == [row + [Stored(values, definition, testcase)]]
  {
    MatchingIsStored(values, definition, testcase);
    OneRowJoined(row, Matching(values, TextValue(definition), testcase));
  }

  lemma StoredRowOfMore(filters: seq<Filter>, values: seq<StoredValue>, testcase: nat)
    requires filters != []
    ensures var last := |filters| - 1;
            StoredRow(filters, values, testcase)
            == StoredRow(filters[..last], values, testcase) + [Stored(values, filters[last].definition, testcase)]
  {
  }

  // No fan-out: one joined row per test case, holding each filter's stored value.
  lemma {:induction false} JoinsFindStored(filters: seq<Filter>, joins: seq<Join>, values: seq<StoredValue>,
                                           testcase: nat, params: seq<Param>)
    requires Unique(values) && |joins| == |filters|
    requires forall i :: 0 <= i < |joins| ==> Bound(params, joins[i].definition) == TextValue(filters[i].definition)
    ensures JoinAll(joins, values, testcase, params) == [StoredRow(filters, values, testcase)]
  {
    if joins == [] {
      assert StoredRow(filters, values, testcase) == [];
    } else {
      var last := |joins| - 1;
      JoinsFindStored(filters[..last], joins[..last], values, testcase, params);
      JoinFindsStored(StoredRow(filters[..last], values, testcase), values, filters[last].definition, testcase);
      StoredRowOfMore(filters, values, testcase);
    }
  }

  lemma BothTruth(a: Truth, b: Truth)
    ensures Both(a, b) == True <==> a == True && b == True
    ensures Both(a, b) == Fails <==> a == Fails || b == Fails
  {
  }

  lemma {:induction false} WhereIsAll(pg: Postgres, wheres: seq<Condition>, row: Joined, params: seq<Param>)
    ensures Where(pg, wheres, row, params) == True
            <==> forall i :: 0 <= i < |wheres| ==> Eval(pg, wheres[i], row, params) == True
    ensures Where(pg, wheres, row, params) == Fails
            <==> exists i :: 0 <= i < |wheres| && Eval(pg, wheres[i], row, params) == Fails
  {
    if wheres != [] {
      var last := |wheres| - 1;
      WhereIsAll(pg, wheres[..last], row, params);
      BothTruth(Where(pg, wheres[..last], row, params), Eval(pg, wheres[last], row, params));
      assert forall i :: 0 <= i < last ==> wheres[..last][i] == wheres[i];
    }
  }

  // The parameters as the caller sends them: its own, the query's, and any it adds afterwards.
  predicate Sent(params: seq<Param>, start: nat, own: seq<Param>) {
    start + |own| <= |params| && params[start..start + |own|] == own
  }

  lemma CarriedOn(params: seq<Param>, start: nat, own: seq<Param>, p: nat, values: seq<Param>)
    requires Sent(params, start, own) && Carries(own, p, values)
    ensures Carries(params, start + p, values)
  {
    forall k | 0 <= k < |values|
      ensures params[start + p - 1 + k] == values[k]
    {
      assert params[start..start + |own|][p - 1 + k] == own[p - 1 + k];
    }
  }

  lemma PartMeaning(pg: Postgres, filters: seq<Filter>, definitions: Definitions, start: nat, i: nat,
                    values: seq<StoredValue>, testcase: nat, params: seq<Param>)
    requires Compiled(filters, definitions, start).Ok? && i < |filters|
    requires Sent(params, start, Compiled(filters, definitions, start).value.params)
    ensures var q := Compiled(filters, definitions, start).value;
            && Bound(params, q.joins[i].definition) == TextValue(filters[i].definition)
            && Agrees(Eval(pg, q.wheres[i], StoredRow(filters, values, testcase), params),
                      VerdictOn(pg, definitions, filters[i], values, testcase))
  {
    var q := Compiled(filters, definitions, start).value;
    var base := CompiledPart(filters, definitions, start, i);
    var fieldType := definitions[filters[i].definition];
    var clause := BuildOperatorClause(i, fieldType, filters[i], base + 2).value;
    CarriedOn(params, start, q.params, base - start + 1, [Id(filters[i].definition)] + clause.values);
    CarriedIsBound(params, base + 1, [Id(filters[i].definition)] + clause.values);
    CarriesTail(params, base + 1, Id(filters[i].definition), clause.values);
    ClauseMeaning(pg, clause, i, fieldType, filters[i], base + 2, StoredRow(filters, values, testcase), params);
  }

  predicate MeetsAll(pg: Postgres, definitions: Definitions, filters: seq<Filter>, values: seq<StoredValue>,
                     testcase: nat)
  {
    forall i :: 0 <= i < |filters| ==> VerdictOn(pg, definitions, filters[i], values, testcase) == Meets
  }

  predicate Spoils(pg: Postgres, definitions: Definitions, filters: seq<Filter>, values: seq<StoredValue>,
                   testcase: nat)
  {
    exists i :: 0 <= i < |filters| && VerdictOn(pg, definitions, filters[i], values, testcase) == Incomparable
  }

  // Compilation preserves meaning: whatever parameters the caller has before and after, a test
  // case is selected at most once, exactly when its stored values meet every filter, and the query
  // fails exactly when some filter cannot be compared with what is stored.
  lemma FiltersSelect(pg: Postgres, filters: seq<Filter>, definitions: Definitions, start: nat,
                      values: seq<StoredValue>, testcase: nat, params: seq<Param>)
    requires Compiled(filters, definitions, start).Ok? && Unique(values)
    requires Sent(params, start, Compiled(filters, definitions, start).value.params)
    ensures var q := Compiled(filters, definitions, start).value;
            && |Selected(pg, q, values, testcase, params)|
               == (if MeetsAll(pg, definitions, filters, values, testcase) then 1 else 0)
            && (QueryFails(pg, q, values, testcase, params) <==> Spoils(pg, definitions, filters, values, testcase))
  {
    var q := Compiled(filters, definitions, start).value;
    var row := StoredRow(filters, values, testcase);
    forall i | 0 <= i < |filters|
      ensures Bound(params, q.joins[i].definition) == TextValue(filters[i].definition)
      ensures Agrees(Eval(pg, q.wheres[i], row, params), VerdictOn(pg, definitions, filters[i], values, testcase))
    {
      PartMeaning(pg, filters, definitions, start, i, values, testcase, params);
    }
    JoinsFindStored(filters, q.joins, values, testcase, params);
    WhereIsAll(pg, q.wheres, row, params);
    OneRowKept(pg, q, row, params);
    assert JoinAll(q.joins, values, testcase, params)[0] == row;
  }

  lemma OneRowKept(pg: Postgres, q: Query, row: Joined, params: seq<Param>)
    ensures |Kept(pg, q, [row], params)| == if Where(pg, q.wheres, row, params) == True then 1 else 0
  {
    assert Kept(pg, q, [], params) == [];
  }

  // ---------------------------------------------------------------------------------------
  // The whole listing
  // ---------------------------------------------------------------------------------------

  function Times(n: nat, testcase: nat): (r: seq<nat>)
    ensures |r| == n && forall i :: 0 <= i < n ==> r[i] == testcase
  {
    seq(n, _ => testcase)
  }

  // What one test case adds to the listing, once per row kept for it, or None when the query fails
  // on it.
  function Listed(pg: Postgres, q: Query, values: seq<StoredValue>, testcase: nat,
                  params: seq<Param>): Option<seq<nat>>
  {
    if QueryFails(pg, q, values, testcase, params) then None
    else Some(Times(|Selected(pg, q, values, testcase, params)|, testcase))
  }

  function Gathered(answers: seq<Option<seq<nat>>>): Option<seq<nat>> {
    if answers == [] then Some([])
    else
      var front, last := Gathered(answers[..|answers| - 1]), answers[|answers| - 1];
      if front.None? || last.None? then None else Some(front.value + last.value)
  }

  // One query answers for all test cases, and fails when it fails on any.
  function Listing(pg: Postgres, q: Query, values: seq<StoredValue>, testcases: seq<nat>,
                   params: seq<Param>): Option<seq<nat>>
  {
    Gathered(seq(|testcases|, i requires 0 <= i < |testcases| => Listed(pg, q, values, testcases[i], params)))
  }

  // All the filters together.
  function Overall(pg: Postgres, definitions: Definitions, filters: seq<Filter>, values: seq<StoredValue>,
                   testcase: nat): Verdict
  {
    if Spoils(pg, definitions, filters, values, testcase) then Incomparable
    else Decide(MeetsAll(pg, definitions, filters, values, testcase))
  }

  function Overalls(pg: Postgres, definitions: Definitions, filters: seq<Filter>, values: seq<StoredValue>,
                    testcases: seq<nat>): (r: seq<Verdict>)
    ensures |r| == |testcases|
  {
    seq(|testcases|, i requires 0 <= i < |testcases| => Overall(pg, definitions, filters, values, testcases[i]))
  }

  function Meeting(testcases: seq<nat>, verdicts: seq<Verdict>): seq<nat>
    requires |testcases| == |verdicts|
  {
    if testcases == [] then []
    else
      var last := |testcases| - 1;
      Meeting(testcases[..last], verdicts[..last]) + if verdicts[last] == Meets then [testcases[last]] else []
  }

  function Contribution(testcase: nat, verdict: Verdict): Option<seq<nat>> {
    if verdict == Incomparable then None else Some(if verdict == Meets then [testcase] else [])
  }

  lemma {:induction false} GatheredMeeting(answers: seq<Option<seq<nat>>>, testcases: seq<nat>, verdicts: seq<Verdict>)
    requires |answers| == |testcases| == |verdicts|
    requires forall i :: 0 <= i < |answers| ==> answers[i] == Contribution(testcases[i], verdicts[i])
    ensures Gathered(answers) == if Incomparable in verdicts then None else Some(Meeting(testcases, verdicts))
  {
    if answers != [] {
      var last := |answers| - 1;
      GatheredMeeting(answers[..last], testcases[..last], verdicts[..last]);
      assert verdicts == verdicts[..last] + [verdicts[last]];
    }
  }

  lemma ListedIs(pg: Postgres, q: Query, filters: seq<Filter>, definitions: Definitions, start: nat,
                 values: seq<StoredValue>, testcase: nat, params: seq<Param>)
    requires Compiled(filters, definitions, start) == Ok(q) && Unique(values) && Sent(params, start, q.params)
    ensures Listed(pg, q, values, testcase, params)
            == Contribution(testcase, Overall(pg, definitions, filters, values, testcase))
  {
    FiltersSelect(pg, filters, definitions, start, values, testcase, params);
    assert Times(1, testcase) == [testcase] && Times(0, testcase) == [];
    if Spoils(pg, definitions, filters, values, testcase) {
      var i :| 0 <= i < |filters| && VerdictOn(pg, definitions, filters[i], values, testcase) == Incomparable;
    }
  }

  // The listing returns the test cases that meet every filter, each once and in order, unless some
  // filter cannot be compared with a value of one of them: then that one fails it for them all.
  lemma ListingIsMeeting(pg: Postgres, q: Query, filters: seq<Filter>, definitions: Definitions, start: nat,
                         values: seq<StoredValue>, testcases: seq<nat>, params: seq<Param>)
    requires Compiled(filters, definitions, start) == Ok(q) && Unique(values) && Sent(params, start, q.params)
    ensures Listing(pg, q, values, testcases, params)
         == if exists i :: 0 <= i < |testcases| && Spoils(pg, definitions, filters, values, testcases[i]) then None
            else Some(Meeting(testcases, Overalls(pg, definitions, filters, values, testcases)))
  {
    var answers := seq(|testcases|, i requires 0 <= i < |testcases| => Listed(pg, q, values, testcases[i], params));
    var verdicts := Overalls(pg, definitions, filters, values, testcases);
    forall i | 0 <= i < |testcases|
      ensures answers[i] == Contribution(testcases[i], verdicts[i])
    {
      ListedIs(pg, q, filters, definitions, start, values, testcases[i], params);
    }
    GatheredMeeting(answers, testcases, verdicts);
    SomeSpoils(pg, definitions, filters, values, testcases);
    assert Listing(pg, q, values, testcases, params) == Gathered(answers);
  }

  lemma MeetingOfOne(testcase: nat)
    ensures Meeting([testcase], [Meets]) == [testcase]
  {
    assert [testcase][..0] == [] && [Meets][..0] == [];
  }

  lemma ListedAlone(pg: Postgres, q: Query, filters: seq<Filter>, definitions: Definitions, start: nat,
                    values: seq<StoredValue>, testcase: nat, params: seq<Param>)
    requires Compiled(filters, definitions, start) == Ok(q) && Unique(values) && Sent(params, start, q.params)
    requires Overall(pg, definitions, filters, values, testcase) == Meets
    ensures Listing(pg, q, values, [testcase], params) == Some([testcase])
  {
    ListingIsMeeting(pg, q, filters, definitions, start, values, [testcase], params);
    assert !Spoils(pg, definitions, filters, values, testcase);
    assert Overalls(pg, definitions, filters, values, [testcase]) == [Meets];
    MeetingOfOne(testcase);
  }

  lemma SomeSpoils(pg: Postgres, definitions: Definitions, filters: seq<Filter>, values: seq<StoredValue>,
                   testcases: seq<nat>)
    ensures Incomparable in Overalls(pg, definitions, filters, values, testcases)
       <==> exists i :: 0 <= i < |testcases| && Spoils(pg, definitions, filters, values, testcases[i])
  {
    var verdicts := Overalls(pg, definitions, filters, values, testcases);
    forall i | 0 <= i < |testcases|
      ensures verdicts[i] == Incomparable <==> Spoils(pg, definitions, filters, values, testcases[i])
    {
      assert verdicts[i] == Overall(pg, definitions, filters, values, testcases[i]);
    }
  }

  // ---------------------------------------------------------------------------------------
  // Negated operators
  // ---------------------------------------------------------------------------------------

  function Positive(operator: Operator): Option<Operator> {
    match operator
    case DoesNotContain => Some(Contains)
    case IsNot => Some(Is)
    case IsEmpty => Some(IsNotEmpty)
    case _ => None
  }

  lemma OneFilterSelects(pg: Postgres, filter: Filter, definitions: Definitions, start: nat,
                         values: seq<StoredValue>, testcase: nat, params: seq<Param>)
    requires Compiled([filter], definitions, start).Ok? && Unique(values)
    requires Sent(params, start, Compiled([filter], definitions, start).value.params)
    ensures var q := Compiled([filter], definitions, start).value;
            var verdict := VerdictOn(pg, definitions, filter, values, testcase);
            && |Selected(pg, q, values, testcase, params)| == (if verdict == Meets then 1 else 0)
            && (QueryFails(pg, q, values, testcase, params) <==> verdict == Incomparable)
  {
    FiltersSelect(pg, [filter], definitions, start, values, testcase, params);
    assert [filter][0] == filter;
  }

  lemma NegationCompiles(filter: Filter, definitions: Definitions, start: nat)
    requires Positive(filter.operator).Some? && Compiled([filter], definitions, start).Ok?
    ensures var positive := filter.(operator := Positive(filter.operator).value);
            && Compiled([positive], definitions, start).Ok?
            && Compiled([positive], definitions, start).value.params
               == Compiled([filter], definitions, start).value.params
  {
    var positive := filter.(operator := Positive(filter.operator).value);
    assert [filter][..0] == [] && [positive][..0] == [];
    assert Compiled([filter], definitions, start) == Appended(Query([], [], []), filter, definitions, start);
    assert Compiled([positive], definitions, start) == Appended(Query([], [], []), positive, definitions, start);
  }

  lemma NegationIsOpposite(pg: Postgres, fieldType: FieldType, filter: Filter, stored: Option<Json>)
    requires Positive(filter.operator).Some?
    ensures var positive := filter.(operator := Positive(filter.operator).value);
            Judge(pg, fieldType, filter, stored) == Opposite(Judge(pg, fieldType, positive, stored)) != Incomparable
  {
  }

  // A negated filter selects exactly the test cases its positive one leaves out, those without a
  // value included, and neither ever fails the query.
  lemma NegationComplements(pg: Postgres, filter: Filter, definitions: Definitions, start: nat,
                            values: seq<StoredValue>, testcase: nat, params: seq<Param>)
    requires Positive(filter.operator).Some? && Unique(values) && Compiled([filter], definitions, start).Ok?
    requires Sent(params, start, Compiled([filter], definitions, start).value.params)
    ensures var positive := filter.(operator := Positive(filter.operator).value);
            && Compiled([positive], definitions, start).Ok?
            && var no := Compiled([filter], definitions, start).value;
               var yes := Compiled([positive], definitions, start).value;
               && |Selected(pg, no, values, testcase, params)| + |Selected(pg, yes, values, testcase, params)| == 1
               && !QueryFails(pg, no, values, testcase, params) && !QueryFails(pg, yes, values, testcase, params)
  {
    var positive := filter.(operator := Positive(filter.operator).value);
    NegationCompiles(filter, definitions, start);
    OneFilterSelects(pg, filter, definitions, start, values, testcase, params);
    OneFilterSelects(pg, positive, definitions, start, values, testcase, params);
    var base := CompiledPart([filter], definitions, start, 0);
    NegationIsOpposite(pg, definitions[filter.definition], filter, Stored(values, filter.definition, testcase));
  }

  // ---------------------------------------------------------------------------------------
  // When the query cannot fail
  // ---------------------------------------------------------------------------------------

  predicate ComparesNumbers(operator: Operator, fieldType: FieldType) {
    || operator.GreaterThan? || operator.LessThan? || (operator.Equals? && fieldType == NumberField)
    || (operator.Between? && fieldType != DateField)
  }

  predicate ComparesDates(operator: Operator, fieldType: FieldType) {
    || operator.Before? || operator.After? || operator.On? || operator.IsOverdue?
    || (operator.Between? && fieldType == DateField)
  }

  predicate GoodDates(pg: Postgres, filter: Filter) {
    && (filter.operator.IsOverdue? || pg.toDate(filter.value.plain).Some?)
    && (filter.operator.Between? ==> pg.toDate(filter.valueTo.plain).Some?)
  }

  // The compiler never checks that an operator suits its field. A compiled filter can be compared
  // with a stored value if and only if, when it compares numbers, the value reads as a number,
  // and when it compares dates, its own dates are dates and the value reads as one.
  lemma ComparableIff(pg: Postgres, alias: nat, fieldType: FieldType, filter: Filter, p: nat, stored: Option<Json>)
    requires BuildOperatorClause(alias, fieldType, filter, p).Ok?
    ensures Judge(pg, fieldType, filter, stored) != Incomparable
       <==> && (ComparesNumbers(filter.operator, fieldType) && stored.Some? ==>
                  pg.toNumber(Rendered(pg, stored.value)).Some?)
            && (ComparesDates(filter.operator, fieldType) ==> GoodDates(pg, filter))
            && (ComparesDates(filter.operator, fieldType) && stored.Some? ==>
                  pg.toDate(Rendered(pg, stored.value)).Some?)
  {
  }

  // Only a value is not empty, and without one the operators that look for something find nothing.
  lemma PresenceCompares(pg: Postgres, fieldType: FieldType, filter: Filter, stored: Option<Json>)
    ensures Judge(pg, fieldType, filter.(operator := IsEmpty), stored) == Decide(stored.None?)
    ensures Judge(pg, fieldType, filter.(operator := IsNotEmpty), stored) == Decide(stored.Some?)
    ensures stored.None? && (filter.operator.Contains? || filter.operator.Is? || filter.operator.Yes?
                             || filter.operator.No? || filter.operator.IncludesAny? || filter.operator.IncludesAll?) ==>
              Judge(pg, fieldType, filter, stored) == Misses
  {
  }

  // Of yes and no a stored boolean meets the one it is, and nothing else meets either.
  lemma BooleansCompare(pg: Postgres, filter: Filter, stored: Json)
    ensures Judge(pg, BooleanField, filter.(operator := Yes), Some(stored)) == Decide(stored == JBool(true))
    ensures Judge(pg, BooleanField, filter.(operator := No), Some(stored)) == Decide(stored == JBool(false))
  {
  }

  // A text contains what ILIKE finds in it, and equals or is a given text when it is that text.
  lemma TextsCompare(pg: Postgres, fieldType: FieldType, filter: Filter, text: string)
    requires fieldType != NumberField && fieldType != MultiSelect
    ensures var given := filter.value.text;
            && Judge(pg, fieldType, filter.(operator := Contains), Some(JText(text))) == Decide(pg.matches(text, given))
            && Judge(pg, fieldType, filter.(operator := Equals), Some(JText(text))) == Decide(text == given)
            && Judge(pg, fieldType, filter.(operator := Is), Some(JText(text))) == Decide(text == given)
  {
  }

  // How the operators on numbers stand to one another: of the three comparisons with one number, a
  // stored number meets exactly one, and it is between two when it is neither below the first nor
  // above the second.
  lemma NumbersCompare(pg: Postgres, filter: Filter, stored: Json, x: real)
    requires pg.toNumber(Rendered(pg, stored)) == Some(x)
    ensures var value := filter.value.number;
            && Judge(pg, NumberField, filter.(operator := LessThan), Some(stored)) == Decide(x < value)
            && Judge(pg, NumberField, filter.(operator := Equals), Some(stored)) == Decide(x == value)
            && Judge(pg, NumberField, filter.(operator := GreaterThan), Some(stored)) == Decide(value < x)
            && (Judge(pg, NumberField, filter.(operator := Between), Some(stored)) == Meets
                <==> && Judge(pg, NumberField, filter.(operator := LessThan), Some(stored)) == Misses
                     && Judge(pg, NumberField, filter.(operator := GreaterThan, value := filter.valueTo), Some(stored))
                        == Misses)
  {
  }

  // The same of dates; and a date is overdue when it is before today.
  lemma DatesCompare(pg: Postgres, filter: Filter, stored: Json, x: int, from: int, to: int)
    requires pg.toDate(Rendered(pg, stored)) == Some(x)
    requires pg.toDate(filter.value.plain) == Some(from) && pg.toDate(filter.valueTo.plain) == Some(to)
    ensures Judge(pg, DateField, filter.(operator := Before), Some(stored)) == Decide(x < from)
    ensures Judge(pg, DateField, filter.(operator := On), Some(stored)) == Decide(x == from)
    ensures Judge(pg, DateField, filter.(operator := After), Some(stored)) == Decide(from < x)
    ensures Judge(pg, DateField, filter.(operator := Between), Some(stored)) == Meets
       <==> && Judge(pg, DateField, filter.(operator := Before), Some(stored)) == Misses
            && Judge(pg, DateField, filter.(operator := After, value := filter.valueTo), Some(stored)) == Misses
    ensures Judge(pg, DateField, filter.(operator := IsOverdue), Some(stored)) == Decide(x < pg.today)
  {
  }

  // How the operators on options do: including any of a list is being one of it, including all is
  // being each; on a list of one option the two agree, with one another and, in a multi-select, with
  // being that option.
  lemma ListsCompare(pg: Postgres, fieldType: FieldType, filter: Filter, stored: Json)
    ensures var list := filter.value.list.GetOr([]);
            && (Judge(pg, fieldType, filter.(operator := IncludesAny), Some(stored)) == Meets
                <==> exists k :: k in list && HasString(stored, k))
            && (Judge(pg, fieldType, filter.(operator := IncludesAll), Some(stored)) == Meets
                <==> forall k :: k in list ==> HasString(stored, k))
            && (list == [filter.value.text] && fieldType == MultiSelect ==>
                  Judge(pg, fieldType, filter.(operator := IncludesAny), Some(stored))
                  == Judge(pg, fieldType, filter.(operator := IncludesAll), Some(stored))
                  == Judge(pg, fieldType, filter.(operator := Is), Some(stored)))
  {
    if filter.value.list.GetOr([]) == [filter.value.text] {
      assert filter.value.text in filter.value.list.GetOr([]);
    }
  }

  // greater_than 5 on a text field, which one test case answers with a number and another with a
  // word.
  const OVER_FIVE := Filter("size", GreaterThan, Operand("5", "5", 5.0, None), Operand("", "", 0.0, None))
  const SIZE_IS_TEXT: Definitions := map["size" := TextField]
  const SIZES := [StoredValue("size", 1, JText("7")), StoredValue("size", 2, JText("big"))]
  const OVER_FIVE_QUERY := Query([Join(0, 1)], [Greater(ToNumber(TextOf(0)), Placeholder(2))],
                                 [Id("size"), Number(5.0)])

  lemma OverFiveCompiles()
    ensures Compiled([OVER_FIVE], SIZE_IS_TEXT, 0) == Ok(OVER_FIVE_QUERY)
  {
    assert [OVER_FIVE][..0] == [];
    assert Compiled([OVER_FIVE][..0], SIZE_IS_TEXT, 0) == Ok(Query([], [], []));
    var condition := Greater(ToNumber(TextOf(0)), Placeholder(2));
    assert BuildOperatorClause(0, TextField, OVER_FIVE, 2) == Ok(Clause(condition, [Number(5.0)]));
    assert [] + [Join(0, 1)] == [Join(0, 1)] && [] + [condition] == [condition];
    assert [] + [Id("size")] + [Number(5.0)] == [Id("size"), Number(5.0)];
    assert Appended(Query([], [], []), OVER_FIVE, SIZE_IS_TEXT, 0) == Ok(OVER_FIVE_QUERY);
  }

  lemma SizesJudged(pg: Postgres)
    requires pg.toNumber("7") == Some(7.0) && pg.toNumber("big").None?
    ensures Overall(pg, SIZE_IS_TEXT, [OVER_FIVE], SIZES, 1) == Meets
    ensures Spoils(pg, SIZE_IS_TEXT, [OVER_FIVE], SIZES, 2)
  {
    assert SIZES[..1] == [SIZES[0]];
    assert Stored(SIZES, "size", 1) == Some(JText("7")) && Stored(SIZES, "size", 2) == Some(JText("big"));
    assert VerdictOn(pg, SIZE_IS_TEXT, [OVER_FIVE][0], SIZES, 1) == Meets;
    assert VerdictOn(pg, SIZE_IS_TEXT, [OVER_FIVE][0], SIZES, 2) == Incomparable;
  }

  lemma SevenIsListed(pg: Postgres)
    requires pg.toNumber("7") == Some(7.0) && pg.toNumber("big").None?
    ensures Listing(pg, OVER_FIVE_QUERY, SIZES, [1], OVER_FIVE_QUERY.params) == Some([1])
  {
    OverFiveCompiles();
    SizesJudged(pg);
    ListedAlone(pg, OVER_FIVE_QUERY, [OVER_FIVE], SIZE_IS_TEXT, 0, SIZES, 1, OVER_FIVE_QUERY.params);
  }

  // The query is compiled without complaint and lists the first test case, until the second is
  // there as well.
  lemma OneWordSpoilsTheListing(pg: Postgres)
    requires pg.toNumber("7") == Some(7.0) && pg.toNumber("big").None?
    ensures Compiled([OVER_FIVE], SIZE_IS_TEXT, 0) == Ok(OVER_FIVE_QUERY)
    ensures Listing(pg, OVER_FIVE_QUERY, SIZES, [1], OVER_FIVE_QUERY.params) == Some([1])
    ensures Listing(pg, OVER_FIVE_QUERY, SIZES, [1, 2], OVER_FIVE_QUERY.params) == None
  {
    OverFiveCompiles();
    SevenIsListed(pg);
    SizesJudged(pg);
    assert [1, 2][1] == 2;
    ListingIsMeeting(pg, OVER_FIVE_QUERY, [OVER_FIVE], SIZE_IS_TEXT, 0, SIZES, [1, 2], OVER_FIVE_QUERY.params);
  }
}
