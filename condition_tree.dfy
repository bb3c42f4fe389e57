/**
 * The query-condition trees of pkg/support/repository and
 * pkg/support/db_repository. Both packages build the same six node shapes;
 * this module gives the rendering the tests of both packages expect: a
 * parenthesised join of the children's fragments, with the children's
 * arguments concatenated in order.
 */
module ConditionTree {
  import opened GoTypes
  import GoStrings

  datatype Condition =
    | Join(conditions: seq<Condition>, separator: string)
    | Not(inner: Condition)
    | Binary(field: string, operator: string, value: Value)
    | Margin(field: string, operator: string, low: Value, high: Value)
    | Raw(text: string)
    | Array(field: string, operator: string, values: seq<Value>)

  /** fmt.Sprintf(" %s ", separator) */
  function Glue(separator: string): string
  {
    " " + separator + " "
  }

  /** Concatenation of a list of argument lists. */
  function Flatten(vs: seq<seq<Value>>): (r: seq<Value>)
    decreases |vs|
  {
    if |vs| == 0 then [] else vs[0] + Flatten(vs[1..])
  }

  /** The SQL fragment of a condition. */
  function Query(c: Condition): string
    decreases c
  {
    match c
    case Join(cs, sep) => "(" + GoStrings.Join(seq(|cs|, i requires 0 <= i < |cs| => Query(cs[i])), Glue(sep)) + ")"
    case Not(inner) => " NOT (" + Query(inner) + ")"
    case Binary(f, op, _) => f + " " + op + " ?"
    case Margin(f, op, _, _) => f + " " + op + " ? AND ?"
    case Raw(text) => text
    case Array(f, _, _) => f + " IN (?)"
  }

  /** The arguments bound to the placeholders of Query(c), in order. */
  function Values(c: Condition): seq<Value>
    decreases c
  {
    match c
    case Join(cs, _) => Flatten(seq(|cs|, i requires 0 <= i < |cs| => Values(cs[i])))
    case Not(inner) => Values(inner)
    case Binary(_, _, v) => [v]
    case Margin(_, _, low, high) => [low, high]
    case Raw(_) => []
    case Array(_, _, vs) => [List(vs)]
  }

  /** No caller-supplied text of the tree contains the placeholder character. */
  predicate WellFormed(c: Condition)
    decreases c
  {
    match c
    case Join(cs, sep) => '?' !in sep && forall i :: 0 <= i < |cs| ==> WellFormed(cs[i])
    case Not(inner) => WellFormed(inner)
    case Binary(f, op, _) => '?' !in f && '?' !in op
    case Margin(f, op, _, _) => '?' !in f && '?' !in op
    case Raw(text) => '?' !in text
    case Array(f, _, _) => '?' !in f
  }

  function QCount(s: string): nat
  {
    GoStrings.CountChar(s, '?')
  }

  /** Placeholders of a join are the sum of the placeholders of its parts. */
  lemma {:induction false} JoinCount(qs: seq<string>, vs: seq<seq<Value>>, glue: string)
    requires |qs| == |vs|
    requires '?' !in glue
    requires forall i :: 0 <= i < |qs| ==> QCount(qs[i]) == |vs[i]|
    ensures QCount(GoStrings.Join(qs, glue)) == |Flatten(vs)|
    decreases |qs|
  {
    if |qs| == 1 {
      assert Flatten(vs) == vs[0] + Flatten(vs[1..]);
    } else if |qs| > 1 {
      JoinCount(qs[1..], vs[1..], glue);
      GoStrings.CountCharConcat(qs[0], glue, '?');
      GoStrings.CountCharConcat(qs[0] + glue, GoStrings.Join(qs[1..], glue), '?');
    }
  }

  /** "(" + s + ")" and " NOT (" + s + ")" add no placeholders. */
  lemma Wrapped(s: string)
    ensures QCount("(" + s + ")") == QCount(s)
    ensures QCount(" NOT (" + s + ")") == QCount(s)
  {
    GoStrings.CountCharConcat("(", s, '?');
    GoStrings.CountCharConcat("(" + s, ")", '?');
    GoStrings.CountCharConcat(" NOT (", s, '?');
    GoStrings.CountCharConcat(" NOT (" + s, ")", '?');
  }

  /** A field and operator followed by a fixed tail: the placeholders are the tail's. */
  lemma Fragment(f: string, op: string, tail: string)
    requires '?' !in f && '?' !in op
    ensures QCount(f + " " + op + tail) == QCount(tail)
  {
    GoStrings.CountCharConcat(f + " " + op, tail, '?');
    GoStrings.CountCharConcat(f + " ", op, '?');
    GoStrings.CountCharConcat(f, " ", '?');
  }

  /**
   * Every placeholder of a well-formed condition has exactly one argument:
   * the number of '?' in Query(c) is the length of Values(c).
   */
  lemma {:induction false} PlaceholderCount(c: Condition)
    requires WellFormed(c)
    ensures QCount(Query(c)) == |Values(c)|
    decreases c
  {
    match c
    case Join(cs, sep) =>
      forall i | 0 <= i < |cs| ensures QCount(Query(cs[i])) == |Values(cs[i])| {
        PlaceholderCount(cs[i]);
      }
      JoinPlaceholders(cs, sep);
    case Not(inner) =>
      PlaceholderCount(inner);
      Wrapped(Query(inner));
    case Binary(_, _, _) => LeafPlaceholders(c);
    case Margin(_, _, _, _) => LeafPlaceholders(c);
    case Raw(_) =>
    case Array(_, _, _) => LeafPlaceholders(c);
  }

  /** The leaf steps of PlaceholderCount. */
  lemma LeafPlaceholders(c: Condition)
    requires c.Binary? || c.Margin? || c.Array?
    requires WellFormed(c)
    ensures QCount(Query(c)) == |Values(c)|
  {
    match c
    case Binary(f, op, _) => Fragment(f, op, " ?"); TailCount(" ", "?", "");
    case Margin(f, op, _, _) => Fragment(f, op, " ? AND ?"); MarginTail();
    case Array(f, _, _) =>
      assert Query(c) == f + " " + "IN" + (" (" + "?" + ")");
      Fragment(f, "IN", " (" + "?" + ")");
      TailCount(" (", "?", ")");
  }

  /** A fixed text with one placeholder in it. */
  lemma TailCount(a: string, q: string, b: string)
    requires '?' !in a && '?' !in b && q == "?"
    ensures QCount(a + q + b) == 1
  {
    GoStrings.CountCharConcat(a, q, '?');
    GoStrings.CountCharConcat(a + q, b, '?');
  }

  lemma MarginTail()
    ensures QCount(" ? AND ?") == 2
  {
    var x: string, y: string := " ?", " AND ?";
    assert x + y == " ? AND ?";
    assert x == " " + "?" + "" && y == " AND " + "?" + "";
    TailCount(" ", "?", "");
    TailCount(" AND ", "?", "");
    GoStrings.CountCharConcat(x, y, '?');
  }

  /** The join step of PlaceholderCount. */
  lemma JoinPlaceholders(cs: seq<Condition>, sep: string)
    requires '?' !in sep
    requires forall i :: 0 <= i < |cs| ==> QCount(Query(cs[i])) == |Values(cs[i])|
    ensures QCount(Query(Join(cs, sep))) == |Values(Join(cs, sep))|
  {
    var qs := seq(|cs|, i requires 0 <= i < |cs| => Query(cs[i]));
    var vs := seq(|cs|, i requires 0 <= i < |cs| => Values(cs[i]));
    JoinCount(qs, vs, Glue(sep));
    Wrapped(GoStrings.Join(qs, Glue(sep)));
  }

  /** The two-child join the package tests check: "(q1 SEP q2)" with the arguments of both in order. */
  lemma JoinOfTwo(c1: Condition, c2: Condition, sep: string)
    ensures Query(Join([c1, c2], sep)) == "(" + Query(c1) + " " + sep + " " + Query(c2) + ")"
    ensures Values(Join([c1, c2], sep)) == Values(c1) + Values(c2)
  {
    JoinOfTwoQuery(c1, c2, sep);
    ParenGlue(Query(c1), sep, Query(c2));
    JoinOfTwoValues(c1, c2, sep);
  }

  lemma JoinOfTwoQuery(c1: Condition, c2: Condition, sep: string)
    ensures Query(Join([c1, c2], sep)) == "(" + (Query(c1) + Glue(sep) + Query(c2)) + ")"
  {
    var qs := seq(2, i requires 0 <= i < 2 => Query([c1, c2][i]));
    assert qs == [Query(c1), Query(c2)];
    assert qs[1..] == [Query(c2)];
    assert GoStrings.Join(qs, Glue(sep)) == Query(c1) + Glue(sep) + Query(c2);
  }

  lemma ParenGlue(q1: string, sep: string, q2: string)
    ensures "(" + (q1 + Glue(sep) + q2) + ")" == "(" + q1 + " " + sep + " " + q2 + ")"
  {
  }

  lemma JoinOfTwoValues(c1: Condition, c2: Condition, sep: string)
    ensures Values(Join([c1, c2], sep)) == Values(c1) + Values(c2)
  {
    var vs := seq(2, i requires 0 <= i < 2 => Values([c1, c2][i]));
    assert vs == [Values(c1), Values(c2)];
    assert vs[1..] == [Values(c2)];
    assert Flatten(vs[1..]) == Values(c2) + Flatten([]);
  }

  /** JoinOfTwo for a list that happens to have two elements. */
  lemma PairJoin(cs: seq<Condition>, sep: string)
    ensures |cs| == 2 ==> Query(Join(cs, sep)) == "(" + Query(cs[0]) + " " + sep + " " + Query(cs[1]) + ")"
  {
    if |cs| == 2 {
      assert cs == [cs[0], cs[1]];
      JoinOfTwo(cs[0], cs[1], sep);
    }
  }
}
