/**
 * pkg/support/repository/condition.go: the condition builders of the first
 * repository generation and the `GetQuery`/`GetValues` walks that render a
 * condition tree for the query builder.
 */
module LegacyCondition {
  import opened GoTypes
  import GoStrings
  import opened ConditionTree

  /** The `GetQuery` methods of the node types; a join collects its children's fragments in a loop. */
  method GetQuery(c: Condition) returns (q: string)
    ensures q == Query(c)
    decreases c
  {
    match c {
      case Join(cs, sep) =>
        var queries: seq<string> := [];
        var i := 0;
        while i < |cs|
          invariant 0 <= i <= |cs|
          invariant queries == seq(i, k requires 0 <= k < i => Query(cs[k]))
        {
          var part := GetQuery(cs[i]);
          queries := queries + [part];
          i := i + 1;
        }
        assert queries == seq(|cs|, k requires 0 <= k < |cs| => Query(cs[k]));
        q := "(" + GoStrings.Join(queries, Glue(sep)) + ")";
      case Not(inner) =>
        var iq := GetQuery(inner);
        q := " NOT (" + iq + ")";
      case Binary(f, op, _) =>
        q := f + " " + op + " ?";
      case Margin(f, op, _, _) =>
        q := f + " " + op + " ? AND ?";
      case Raw(text) =>
        q := text;
      case Array(f, _, _) =>
        q := f + " IN (?)";
    }
  }

  /** The `GetValues` methods of the node types; a join appends its children's arguments in a loop. */
  method GetValues(c: Condition) returns (vs: seq<Value>)
    ensures vs == Values(c)
    decreases c
  {
    match c {
      case Join(cs, _) =>
        vs := [];
        var i := 0;
        ghost var parts := seq(|cs|, k requires 0 <= k < |cs| => Values(cs[k]));
        while i < |cs|
          invariant 0 <= i <= |cs|
          invariant vs + Flatten(parts[i..]) == Flatten(parts)
        {
          var part := GetValues(cs[i]);
          assert parts[i..][0] == part && parts[i..][1..] == parts[i + 1..];
          vs := vs + part;
          i := i + 1;
        }
      case Not(inner) =>
        vs := GetValues(inner);
      case Binary(_, _, v) =>
        vs := [v];
      case Margin(_, _, low, high) =>
        vs := [low, high];
      case Raw(_) =>
        vs := [];
      case Array(_, _, values) =>
        vs := [List(values)];
    }
  }

  function And(conditions: seq<Condition>): (c: Condition)
    ensures Values(c) == Flatten(seq(|conditions|, i requires 0 <= i < |conditions| => Values(conditions[i])))
    ensures |conditions| == 2 ==> Query(c) == "(" + Query(conditions[0]) + " AND " + Query(conditions[1]) + ")"
  {
    PairJoin(conditions, "AND");
    Join(conditions, "AND")
  }

  function Or(conditions: seq<Condition>): (c: Condition)
    ensures Values(c) == Flatten(seq(|conditions|, i requires 0 <= i < |conditions| => Values(conditions[i])))
    ensures |conditions| == 2 ==> Query(c) == "(" + Query(conditions[0]) + " OR " + Query(conditions[1]) + ")"
  {
    PairJoin(conditions, "OR");
    Join(conditions, "OR")
  }

  /** The `not` node embeds its child, so its arguments are the child's. */
  function NotOf(condition: Condition): (c: Condition)
    ensures Query(c) == " NOT (" + Query(condition) + ")"
    ensures Values(c) == Values(condition)
  {
    Not(condition)
  }

  function Equal(field: string, value: Value): (c: Condition)
    ensures Query(c) == field + " = ?" && Values(c) == [value]
  {
    Binary(field, "=", value)
  }

  function GreaterThan(field: string, value: Value): (c: Condition)
    ensures Query(c) == field + " > ?" && Values(c) == [value]
  {
    Binary(field, ">", value)
  }

  function GreaterOrEqual(field: string, value: Value): (c: Condition)
    ensures Query(c) == field + " >= ?" && Values(c) == [value]
  {
    Binary(field, ">=", value)
  }

  function LessThan(field: string, value: Value): (c: Condition)
    ensures Query(c) == field + " < ?" && Values(c) == [value]
  {
    Binary(field, "<", value)
  }

  /** As written: the operator is ">=", so "at most" renders as "at least". */
  function LessOrEqual(field: string, value: Value): (c: Condition)
    ensures Query(c) == field + " >= ?" && Values(c) == [value]
  {
    Binary(field, ">=", value)
  }

  /** LessOrEqual("age", 30) produces exactly the condition GreaterOrEqual("age", 30) does. */
  lemma LessOrEqualIsGreaterOrEqual(field: string, value: Value)
    ensures LessOrEqual(field, value) == GreaterOrEqual(field, value)
    ensures Query(LessOrEqual("age", Int(30))) == "age >= ?"
  {
  }

  /** The intended builder: the "<=" operator. */
  function LessOrEqualIntended(field: string, value: Value): (c: Condition)
    ensures Query(c) == field + " <= ?" && Values(c) == [value]
    ensures c != GreaterOrEqual(field, value)
  {
    Binary(field, "<=", value)
  }

  /** The argument is wrapped in '%' wildcards for a LIKE match. */
  function Contains(field: string, value: string): (c: Condition)
    ensures Query(c) == field + " like ?" && Values(c) == [Str("%" + value + "%")]
  {
    Binary(field, "like", Str("%" + value + "%"))
  }

  function Between(field: string, low: Value, high: Value): (c: Condition)
    ensures Query(c) == field + " between ? AND ?" && Values(c) == [low, high]
  {
    Margin(field, "between", low, high)
  }

  function NotBetween(field: string, low: Value, high: Value): (c: Condition)
    ensures Query(c) == field + " not between ? AND ?" && Values(c) == [low, high]
  {
    Margin(field, "not between", low, high)
  }

  function IsNull(field: string): (c: Condition)
    ensures Query(c) == field + " IS NULL" && Values(c) == []
  {
    Raw(field + " IS NULL")
  }

  /** The whole list is bound to the single placeholder. */
  function In(field: string, values: seq<Value>): (c: Condition)
    ensures Query(c) == field + " IN (?)" && Values(c) == [List(values)]
  {
    Array(field, "in", values)
  }

  /** As written: the array node ignores its operator, so NotIn renders an IN test. */
  function NotIn(field: string, values: seq<Value>): (c: Condition)
    ensures Query(c) == field + " IN (?)" && Values(c) == [List(values)]
  {
    Array(field, "not in", values)
  }

  /** NotIn and In render the same fragment and arguments. */
  lemma NotInRendersIn(field: string, values: seq<Value>)
    ensures Query(NotIn(field, values)) == Query(In(field, values))
    ensures Values(NotIn(field, values)) == Values(In(field, values))
  {
  }

  /** The intended builder: the negation of the IN test, over the same arguments. */
  function NotInIntended(field: string, values: seq<Value>): (c: Condition)
    ensures Query(c) == " NOT (" + Query(In(field, values)) + ")"
    ensures Values(c) == Values(In(field, values))
    ensures Query(c) != Query(In(field, values))
  {
    var r := Not(In(field, values));
    assert |Query(r)| > |Query(In(field, values))|;
    r
  }
}
