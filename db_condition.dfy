/**
 * pkg/support/db_repository/condition.go: the condition builders of the
 * second repository generation. Its `join` node pre-sizes the slices it then
 * appends to, so every join fragment starts with one empty entry per child
 * and every argument list with one nil per child. `QueryAsWritten` and
 * `ValuesAsWritten` model that rendering; `ConditionTree.Query` and
 * `ConditionTree.Values` are the rendering the package's own tests expect.
 */
module DbCondition {
  import opened GoTypes
  import GoStrings
  import opened ConditionTree

  /** make([]string, n) */
  function Blanks(n: nat): (r: seq<string>)
    ensures |r| == n && forall i :: 0 <= i < n ==> r[i] == ""
  {
    seq(n, _ => "")
  }

  /** make([]any, n) */
  function Nils(n: nat): (r: seq<Value>)
    ensures |r| == n && forall i :: 0 <= i < n ==> r[i] == Nil
  {
    seq(n, _ => Nil)
  }

  /** The fragment the package renders, with the padding of every join. */
  function QueryAsWritten(c: Condition): string
    decreases c
  {
    match c
    case Join(cs, sep) => "(" + GoStrings.Join(Blanks(|cs|) + seq(|cs|, i requires 0 <= i < |cs| => QueryAsWritten(cs[i])), Glue(sep)) + ")"
    case Not(inner) => " NOT (" + QueryAsWritten(inner) + ")"
    case _ => Query(c)
  }

  /** The argument list the package renders, with the padding of every join. */
  function ValuesAsWritten(c: Condition): seq<Value>
    decreases c
  {
    match c
    case Join(cs, _) => Nils(|cs|) + Flatten(seq(|cs|, i requires 0 <= i < |cs| => ValuesAsWritten(cs[i])))
    case Not(inner) => ValuesAsWritten(inner)
    case _ => Values(c)
  }

  /** The `GetQuery` methods of the node types as written: the join's slice starts with len(conditions) blanks. */
  method GetQuery(c: Condition) returns (q: string)
    ensures q == QueryAsWritten(c)
    decreases c
  {
    match c {
      case Join(cs, sep) =>
        var queries: seq<string> := Blanks(|cs|);
        var i := 0;
        while i < |cs|
          invariant 0 <= i <= |cs|
          invariant queries == Blanks(|cs|) + seq(i, k requires 0 <= k < i => QueryAsWritten(cs[k]))
        {
          var part := GetQuery(cs[i]);
          queries := queries + [part];
          i := i + 1;
        }
        assert queries == Blanks(|cs|) + seq(|cs|, k requires 0 <= k < |cs| => QueryAsWritten(cs[k]));
        q := "(" + GoStrings.Join(queries, Glue(sep)) + ")";
      case Not(inner) =>
        var iq := GetQuery(inner);
        q := " NOT (" + iq + ")";
      case Binary(f, op, _) =>
        q := f + " " + op + " ?";
      case Margin(f, op, _, _) =>
        q := f + " " + op + " ? AND ?";
      case Raw(text) =>
        q := text;
      case Array(f, _, _) =>
        q := f + " IN (?)";
    }
  }

  /** The `GetValues` methods of the node types as written: the join's slice starts with len(conditions) nils. */
  method GetValues(c: Condition) returns (vs: seq<Value>)
    ensures vs == ValuesAsWritten(c)
    decreases c
  {
    match c {
      case Join(cs, _) =>
        vs := Nils(|cs|);
        var i := 0;
        ghost var parts := seq(|cs|, k requires 0 <= k < |cs| => ValuesAsWritten(cs[k]));
        while i < |cs|
          invariant 0 <= i <= |cs|
          invariant vs + Flatten(parts[i..]) == Nils(|cs|) + Flatten(parts)
        {
          var part := GetValues(cs[i]);
          assert parts[i..][0] == part && parts[i..][1..] == parts[i + 1..];
          vs := vs + part;
          i := i + 1;
        }
      case Not(inner) =>
        vs := GetValues(inner);
      case Binary(_, _, v) =>
        vs := [v];
      case Margin(_, _, low, high) =>
        vs := [low, high];
      case Raw(_) =>
        vs := [];
      case Array(_, _, values) =>
        vs := [List(values)];
    }
  }

  /** Every non-empty join binds nil to its first placeholders, whatever its children are. */
  lemma JoinStartsWithNils(cs: seq<Condition>, sep: string)
    requires |cs| > 0
    ensures |ValuesAsWritten(Join(cs, sep))| >= |cs|
    ensures ValuesAsWritten(Join(cs, sep))[..|cs|] == Nils(|cs|)
    ensures ValuesAsWritten(Join(cs, sep))[0] == Nil
  {
  }

  /** The node shapes without children, which both renderings write alike. */
  predicate Leaf(c: Condition)
  {
    c.Binary? || c.Margin? || c.Raw? || c.Array?
  }

  /** Flattening skips empty argument lists in front. */
  lemma {:induction false} FlattenAfterEmpties(n: nat, vs: seq<seq<Value>>)
    ensures Flatten(seq(n, _ => []) + vs) == Flatten(vs)
    decreases n
  {
    var all: seq<seq<Value>> := seq(n, _ => []) + vs;
    if n == 0 {
      assert all == vs;
    } else {
      var rest: seq<seq<Value>> := seq(n - 1, _ => []) + vs;
      assert all[0] == [] && all[1..] == rest;
      assert Flatten(all) == [] + Flatten(rest);
      FlattenAfterEmpties(n - 1, vs);
    }
  }

  /**
   * A join of well-formed leaves, as written, keeps the placeholders of the
   * intended rendering but binds one nil per child in front of the intended
   * arguments: it always has |cs| arguments more than placeholders, and every
   * real argument is bound |cs| places too late.
   */
  lemma PaddedJoinOverbinds(cs: seq<Condition>, sep: string)
    requires '?' !in sep
    requires forall i :: 0 <= i < |cs| ==> Leaf(cs[i]) && WellFormed(cs[i])
    ensures QCount(QueryAsWritten(Join(cs, sep))) == |Values(Join(cs, sep))|
    ensures ValuesAsWritten(Join(cs, sep)) == Nils(|cs|) + Values(Join(cs, sep))
    ensures |ValuesAsWritten(Join(cs, sep))| == QCount(QueryAsWritten(Join(cs, sep))) + |cs|
  {
    var n := |cs|;
    var qs := seq(n, i requires 0 <= i < n => QueryAsWritten(cs[i]));
    var vs := seq(n, i requires 0 <= i < n => Values(cs[i]));
    assert seq(n, i requires 0 <= i < n => ValuesAsWritten(cs[i])) == vs;
    forall i | 0 <= i < n
      ensures QCount(qs[i]) == |vs[i]|
    {
      PlaceholderCount(cs[i]);
    }
    var empties: seq<seq<Value>> := seq(n, _ => []);
    var parts := Blanks(n) + qs;
    var args := empties + vs;
    forall i | 0 <= i < |parts|
      ensures QCount(parts[i]) == |args[i]|
    {
      if i >= n {
        assert parts[i] == qs[i - n] && args[i] == vs[i - n];
      }
    }
    JoinCount(parts, args, Glue(sep));
    FlattenAfterEmpties(n, vs);
    Wrapped(GoStrings.Join(parts, Glue(sep)));
    PlaceholderCount(Join(cs, sep));
  }

  /** A conjunction of one condition, as written: one blank joined in front of it, one nil before its arguments. */
  lemma AndOfOne(c: Condition)
    ensures QueryAsWritten(And([c])) == "( AND " + QueryAsWritten(c) + ")"
    ensures ValuesAsWritten(And([c])) == [Nil] + ValuesAsWritten(c)
  {
    var parts := Blanks(1) + seq(1, i requires 0 <= i < 1 => QueryAsWritten([c][i]));
    assert parts == ["", QueryAsWritten(c)] && parts[1..] == [QueryAsWritten(c)];
    assert GoStrings.Join(parts, Glue("AND")) == "" + " AND " + QueryAsWritten(c);
    var vparts := seq(1, i requires 0 <= i < 1 => ValuesAsWritten([c][i]));
    assert vparts == [ValuesAsWritten(c)];
    assert Flatten(vparts) == ValuesAsWritten(c) + Flatten([]);
  }

  /**
   * The package's TestAnd: the children Equal("name", "test") and
   * NotEqual("age", 30) are rendered "( AND  AND name = ? AND age != ?)" with
   * four arguments for two placeholders, where the test expects
   * "(name = ? AND age != ?)" with two.
   */
  lemma AndAsWrittenFailsTest()
    ensures QueryAsWritten(TestAnd()) == "(" + ("" + " AND " + ("" + " AND " + ("name = ?" + " AND " + "age != ?"))) + ")"
    ensures QueryAsWritten(TestAnd()) != Query(TestAnd())
    ensures ValuesAsWritten(TestAnd()) == [Nil, Nil, Str("test"), Int(30)]
    ensures Query(TestAnd()) == "(name = ? AND age != ?)"
    ensures Values(TestAnd()) == [Str("test"), Int(30)]
  {
    TestAndQuery();
    TestAndValues();
    JoinOfTwo(Equal("name", Str("test")), NotEqual("age", Int(30)), "AND");
  }

  /** The condition of the package's TestAnd. */
  function TestAnd(): Condition
  {
    And([Equal("name", Str("test")), NotEqual("age", Int(30))])
  }

  /** The rendering of TestAnd as written, piece by piece: "( AND  AND name = ? AND age != ?)". */
  lemma TestAndQuery()
    ensures QueryAsWritten(TestAnd()) == "(" + ("" + " AND " + ("" + " AND " + ("name = ?" + " AND " + "age != ?"))) + ")"
  {
    TestAndParts();
    JoinOfFour("", "", "name = ?", "age != ?", " AND ");
  }

  /** The four parts the package joins for TestAnd: two blanks, then the children. */
  lemma TestAndParts()
    ensures QueryAsWritten(TestAnd()) == "(" + GoStrings.Join(["", "", "name = ?", "age != ?"], " AND ") + ")"
  {
    var cs := TestAnd().conditions;
    var q1 := QueryAsWritten(cs[0]);
    var q2 := QueryAsWritten(cs[1]);
    assert q1 == "name = ?" && q2 == "age != ?";
    var parts := Blanks(2) + seq(2, i requires 0 <= i < 2 => QueryAsWritten(cs[i]));
    assert parts == ["", "", q1, q2];
    assert Glue("AND") == " AND ";
  }

  /** Four parts joined by a separator, spelled out. */
  lemma JoinOfFour(a: string, b: string, c: string, d: string, sep: string)
    ensures GoStrings.Join([a, b, c, d], sep) == a + sep + (b + sep + (c + sep + d))
  {
    var parts := [a, b, c, d];
    assert parts[1..] == [b, c, d] && parts[1..][1..] == [c, d] && parts[1..][1..][1..] == [d];
    assert GoStrings.Join([c, d], sep) == c + sep + d;
    assert GoStrings.Join([b, c, d], sep) == b + sep + (c + sep + d);
  }

  lemma TestAndValues()
    ensures ValuesAsWritten(TestAnd()) == [Nil, Nil, Str("test"), Int(30)]
  {
    var cs := TestAnd().conditions;
    var vparts := seq(2, i requires 0 <= i < 2 => ValuesAsWritten(cs[i]));
    assert vparts == [[Str("test")], [Int(30)]];
    assert Flatten(vparts[1..]) == [Int(30)] + Flatten([]);
  }

  function And(conditions: seq<Condition>): (c: Condition)
    ensures WellFormedParts(conditions) ==> WellFormed(c)
    ensures |conditions| == 2 ==> Query(c) == "(" + Query(conditions[0]) + " AND " + Query(conditions[1]) + ")"
    ensures |ValuesAsWritten(c)| >= |conditions| && ValuesAsWritten(c)[..|conditions|] == Nils(|conditions|)
  {
    PairJoin(conditions, "AND");
    Join(conditions, "AND")
  }

  function Or(conditions: seq<Condition>): (c: Condition)
    ensures WellFormedParts(conditions) ==> WellFormed(c)
    ensures |conditions| == 2 ==> Query(c) == "(" + Query(conditions[0]) + " OR " + Query(conditions[1]) + ")"
    ensures |ValuesAsWritten(c)| >= |conditions| && ValuesAsWritten(c)[..|conditions|] == Nils(|conditions|)
  {
    PairJoin(conditions, "OR");
    Join(conditions, "OR")
  }

  predicate WellFormedParts(cs: seq<Condition>)
  {
    forall i :: 0 <= i < |cs| ==> WellFormed(cs[i])
  }

  /** The `not` node keeps its child's arguments. */
  function NotOf(condition: Condition): (c: Condition)
    ensures QueryAsWritten(c) == " NOT (" + QueryAsWritten(condition) + ")"
    ensures ValuesAsWritten(c) == ValuesAsWritten(condition)
  {
    Not(condition)
  }

  function Equal(field: string, value: Value): (c: Condition)
    ensures QueryAsWritten(c) == field + " = ?" && ValuesAsWritten(c) == [value]
  {
    Binary(field, "=", value)
  }

  function NotEqual(field: string, value: Value): (c: Condition)
    ensures QueryAsWritten(c) == field + " != ?" && ValuesAsWritten(c) == [value]
  {
    Binary(field, "!=", value)
  }

  function GreaterThan(field: string, value: Value): (c: Condition)
    ensures QueryAsWritten(c) == field + " > ?" && ValuesAsWritten(c) == [value]
  {
    Binary(field, ">", value)
  }

  function GreaterOrEqual(field: string, value: Value): (c: Condition)
    ensures QueryAsWritten(c) == field + " >= ?" && ValuesAsWritten(c) == [value]
  {
    Binary(field, ">=", value)
  }

  function LessThan(field: string, value: Value): (c: Condition)
    ensures QueryAsWritten(c) == field + " < ?" && ValuesAsWritten(c) == [value]
  {
    Binary(field, "<", value)
  }

  function LessOrEqual(field: string, value: Value): (c: Condition)
    ensures QueryAsWritten(c) == field + " <= ?" && ValuesAsWritten(c) == [value]
  {
    Binary(field, "<=", value)
  }

  /** The argument is wrapped in '%' wildcards for a LIKE match. */
  function Contains(field: string, value: string): (c: Condition)
    ensures QueryAsWritten(c) == field + " like ?" && ValuesAsWritten(c) == [Str("%" + value + "%")]
  {
    Binary(field, "like", Str("%" + value + "%"))
  }

  function Between(field: string, low: Value, high: Value): (c: Condition)
    ensures QueryAsWritten(c) == field + " BETWEEN ? AND ?" && ValuesAsWritten(c) == [low, high]
  {
    Margin(field, "BETWEEN", low, high)
  }

  function NotBetween(field: string, low: Value, high: Value): (c: Condition)
    ensures QueryAsWritten(c) == field + " NOT BETWEEN ? AND ?" && ValuesAsWritten(c) == [low, high]
  {
    Margin(field, "NOT BETWEEN", low, high)
  }

  function IsNull(field: string): (c: Condition)
    ensures QueryAsWritten(c) == field + " IS NULL" && ValuesAsWritten(c) == []
  {
    Raw(field + " IS NULL")
  }

  /** The whole list is bound to the single placeholder. */
  function In(field: string, values: seq<Value>): (c: Condition)
    ensures QueryAsWritten(c) == field + " IN (?)" && ValuesAsWritten(c) == [List(values)]
  {
    Array(field, "in", values)
  }

  /** As written: the array node ignores its operator, so NotIn renders an IN test. */
  function NotIn(field: string, values: seq<Value>): (c: Condition)
    ensures QueryAsWritten(c) == field + " IN (?)" && ValuesAsWritten(c) == [List(values)]
  {
    Array(field, "not in", values)
  }

  /** NotIn and In render the same fragment and arguments. */
  lemma NotInRendersIn(field: string, values: seq<Value>)
    ensures QueryAsWritten(NotIn(field, values)) == QueryAsWritten(In(field, values))
    ensures ValuesAsWritten(NotIn(field, values)) == ValuesAsWritten(In(field, values))
  {
  }

  /** The intended builder: the negation of the IN test, over the same arguments. */
  function NotInIntended(field: string, values: seq<Value>): (c: Condition)
    ensures QueryAsWritten(c) == " NOT (" + QueryAsWritten(In(field, values)) + ")"
    ensures ValuesAsWritten(c) == ValuesAsWritten(In(field, values))
    ensures QueryAsWritten(c) != QueryAsWritten(In(field, values))
  {
    var r := Not(In(field, values));
    assert |QueryAsWritten(r)| > |QueryAsWritten(In(field, values))|;
    r
  }
}
