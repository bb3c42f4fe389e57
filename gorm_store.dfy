/**
 * The database as the repositories see it through gorm: a query builder that
 * the `Apply*` helpers fill in, and one table of rows kept in primary-key
 * order. What a WHERE fragment means for a row is the backend's business and
 * is given as the function `eval`; a backend failure is given to each call as
 * `fault`.
 */
module GormStore {
  import opened GoTypes

  /** A WHERE fragment with its arguments, as handed to the query builder. */
  datatype Clause = Clause(query: string, args: seq<Value>)

  /** The WHERE fragment `Exists` writes by hand and `Equal("id", id)` renders. */
  function IdClause(id: int): Clause
  {
    Clause("id = ?", [Int(id)])
  }

  /** gorm.ErrRecordNotFound */
  const ErrRecordNotFound: GoError := GoError("record not found")
  /** gorm.ErrMissingWhereClause: a model without a primary key cannot be updated or deleted. */
  const ErrMissingWhereClause: GoError := GoError("WHERE conditions required")
  /** The backend's unique-key violation. */
  const ErrDuplicatedKey: GoError := GoError("duplicated key not allowed")

  /** errors.Is(err, gorm.ErrRecordNotFound) */
  predicate IsNotFound(err: GoError)
  {
    err == ErrRecordNotFound
  }

  /**
   * A gorm statement being built: the parts that decide which rows come back.
   * Column selection, eager loading, scopes and ordering are not recorded.
   */
  class Statement {
    var table: string
    var wheres: seq<Clause>
    var offset: Option<int>
    var limit: Option<int>

    constructor(table: string)
      ensures this.table == table && wheres == [] && offset == None && limit == None
    {
      this.table := table;
      wheres := [];
      offset := None;
      limit := None;
    }

    method Where(c: Clause)
      modifies this`wheres
      ensures wheres == old(wheres) + [c]
    {
      wheres := wheres + [c];
    }

    method Offset(n: int)
      modifies this`offset
      ensures offset == Some(n)
    {
      offset := Some(n);
    }

    method Limit(n: int)
      modifies this`limit
      ensures limit == Some(n)
    {
      limit := Some(n);
    }
  }

  /**
   * The OFFSET/LIMIT window gorm emits: an offset of zero or less and a
   * negative limit are left out of the SQL.
   */
  function Window<M>(rs: seq<M>, offset: Option<int>, limit: Option<int>): (r: seq<M>)
    ensures |r| <= |rs|
    ensures var start := if offset.Some? && offset.value > 0 then offset.value else 0;
      forall i :: 0 <= i < |r| ==> start + i < |rs| && r[i] == rs[start + i]
    ensures var start := if offset.Some? && offset.value > 0 then offset.value else 0;
      var available := if start < |rs| then |rs| - start else 0;
      |r| == if limit.Some? && 0 <= limit.value < available then limit.value else available
  {
    var start := if offset.Some? && offset.value > 0 then (if offset.value < |rs| then offset.value else |rs|) else 0;
    var rest := rs[start..];
    if limit.Some? && 0 <= limit.value < |rest| then rest[..limit.value] else rest
  }

  /** The outcome of a batch insert: the new rows, the next key, the models as stored. */
  datatype Batch<M> = Batch(rows: seq<M>, next: int, stored: seq<M>)

  /** A batch outcome with `done` stored ahead of it. */
  function Prepend<M>(done: seq<M>, r: Option<Batch<M>>): (p: Option<Batch<M>>)
    ensures p.Some? <==> r.Some?
    ensures r.Some? ==> p.value.rows == r.value.rows && p.value.next == r.value.next
    ensures r.Some? ==> p.value.stored == done + r.value.stored
  {
    match r
    case None => None
    case Some(b) => Some(Batch(b.rows, b.next, done + b.stored))
  }

  lemma PrependTwice<M>(a: seq<M>, b: seq<M>, r: Option<Batch<M>>)
    ensures Prepend(a, Prepend(b, r)) == Prepend(a + b, r)
  {
    if r.Some? {
      assert a + (b + r.value.stored) == (a + b) + r.value.stored;
    }
  }

  /** A pointer `*T` that a repository method writes through. */
  class Ref<T> {
    var value: T

    constructor(v: T)
      ensures value == v
    {
      value := v;
    }
  }

  /** One table: rows in strictly increasing primary-key order and the next key to hand out. */
  class Table<M(==,!new)> {
    var rows: seq<M>
    var nextId: int
    /** The primary key of a row. */
    const key: M -> int
    /** The row with its primary key set, as gorm writes a generated key back into a model. */
    const withKey: (M, int) -> M
    /** `Updates(model)`: the stored row overlaid with the non-zero fields of the model. */
    const overlay: (M, M) -> M
    /** The backend's reading of a WHERE fragment for one row. */
    const eval: (Clause, M) -> bool

    /** The assumptions about the backend the repositories rely on. */
    ghost predicate Lawful()
    {
      (forall m, k :: key(withKey(m, k)) == k) &&
      (forall a, b :: key(overlay(a, b)) == key(a)) &&
      (forall m, k :: eval(IdClause(k), m) == (key(m) == k))
    }

    ghost predicate Valid()
      reads this
    {
      Lawful() && nextId >= 1 && Sorted(rows) && KeysBelow(rows, nextId)
    }

    constructor(key: M -> int, withKey: (M, int) -> M, overlay: (M, M) -> M, eval: (Clause, M) -> bool)
      requires forall m, k :: key(withKey(m, k)) == k
      requires forall a, b :: key(overlay(a, b)) == key(a)
      requires forall m, k :: eval(IdClause(k), m) == (key(m) == k)
      ensures Valid() && rows == [] && nextId == 1
      ensures this.key == key && this.withKey == withKey && this.overlay == overlay && this.eval == eval
    {
      this.key := key;
      this.withKey := withKey;
      this.overlay := overlay;
      this.eval := eval;
      rows := [];
      nextId := 1;
    }

    predicate Sorted(rs: seq<M>)
    {
      forall i, j :: 0 <= i < j < |rs| ==> key(rs[i]) < key(rs[j])
    }

    /** Some row carries the primary key `k`. */
    predicate HasKey(rs: seq<M>, k: int)
    {
      exists x :: x in rs && key(x) == k
    }

    /** Every key is non-zero and below `n`. */
    predicate KeysBelow(rs: seq<M>, n: int)
    {
      forall x :: x in rs ==> key(x) != 0 && key(x) < n
    }

    predicate Satisfies(m: M, wheres: seq<Clause>)
    {
      forall i :: 0 <= i < |wheres| ==> eval(wheres[i], m)
    }

    /** The rows a statement's WHERE clauses select, in key order. */
    function Matching(rs: seq<M>, wheres: seq<Clause>): (r: seq<M>)
      ensures |r| <= |rs|
      ensures forall i :: 0 <= i < |r| ==> Satisfies(r[i], wheres)
      ensures (exists i :: 0 <= i < |rs| && Satisfies(rs[i], wheres)) <==> |r| > 0
      ensures |r| > 0 ==> exists i :: 0 <= i < |rs| && r[0] == rs[i] && Satisfies(rs[i], wheres) && forall j :: 0 <= j < i ==> !Satisfies(rs[j], wheres)
      decreases |rs|
    {
      if |rs| == 0 then []
      else
        var rest := Matching(rs[1..], wheres);
        assert forall i :: 1 <= i < |rs| ==> rs[i] == rs[1..][i - 1];
        if Satisfies(rs[0], wheres) then [rs[0]] + rest else rest
    }

    /** No WHERE clause selects every row. */
    lemma {:induction false} MatchingEverything(rs: seq<M>)
      ensures Matching(rs, []) == rs
      decreases |rs|
    {
      if |rs| > 0 {
        MatchingEverything(rs[1..]);
        assert Satisfies(rs[0], []);
        assert Matching(rs, []) == [rs[0]] + Matching(rs[1..], []);
        assert [rs[0]] + rs[1..] == rs;
      }
    }

    lemma SatisfiesOne(m: M, c: Clause)
      ensures Satisfies(m, [c]) == eval(c, m)
    {
      assert [c][0] == c;
    }

    /** The rows in key order with the given key: none or one in a sorted table. */
    lemma {:induction false} IdMatches(rs: seq<M>, k: int)
      requires Lawful() && Sorted(rs)
      ensures |Matching(rs, [IdClause(k)])| <= 1
      ensures |Matching(rs, [IdClause(k)])| == 1 <==> HasKey(rs, k)
      ensures forall i :: 0 <= i < |rs| && key(rs[i]) == k ==> Matching(rs, [IdClause(k)]) == [rs[i]]
      decreases |rs|
    {
      if |rs| > 0 {
        var tail := rs[1..];
        IdMatches(tail, k);
        assert forall i :: 1 <= i < |rs| ==> rs[i] == tail[i - 1];
        SatisfiesOne(rs[0], IdClause(k));
        assert forall x :: x in rs <==> x == rs[0] || x in tail;
        if key(rs[0]) == k {
          forall x | x in tail ensures key(x) != k {
            var j :| 0 <= j < |tail| && tail[j] == x;
            assert key(rs[0]) < key(rs[j + 1]);
          }
          assert !HasKey(tail, k);
        }
      }
    }

    /** The number of rows whose key is below `k`: where a row with key `k` belongs. */
    function InsertPos(rs: seq<M>, k: int): (p: nat)
      requires Sorted(rs)
      ensures p <= |rs|
      ensures forall i :: 0 <= i < p ==> key(rs[i]) < k
      ensures forall i :: p <= i < |rs| ==> key(rs[i]) >= k
      decreases |rs|
    {
      if |rs| == 0 || key(rs[0]) >= k then 0 else 1 + InsertPos(rs[1..], k)
    }

    /** Inserting into key order. */
    function InsertSorted(rs: seq<M>, m: M): (r: seq<M>)
      requires Sorted(rs) && !HasKey(rs, key(m))
      ensures Sorted(r) && |r| == |rs| + 1
      ensures r == rs[..InsertPos(rs, key(m))] + [m] + rs[InsertPos(rs, key(m))..]
    {
      var p := InsertPos(rs, key(m));
      var r := rs[..p] + [m] + rs[p..];
      forall i | p <= i < |rs| ensures key(rs[i]) > key(m) {
        assert rs[i] in rs;
      }
      r
    }

    /** An insertion adds the one row and keeps the others. */
    lemma InsertMembers(rs: seq<M>, m: M)
      requires Sorted(rs) && !HasKey(rs, key(m))
      ensures forall x :: x in InsertSorted(rs, m) <==> x == m || x in rs
    {
      var p := InsertPos(rs, key(m));
      assert rs == rs[..p] + rs[p..];
    }

    /** What an insertion adds: the row, its key, and the key bound it keeps. */
    lemma InsertFacts(rs: seq<M>, m: M, n: int)
      requires Sorted(rs) && !HasKey(rs, key(m))
      ensures forall x :: x in InsertSorted(rs, m) <==> x == m || x in rs
      ensures forall k :: HasKey(InsertSorted(rs, m), k) <==> k == key(m) || HasKey(rs, k)
      ensures KeysBelow(rs, n) && key(m) != 0 && key(m) < n ==> KeysBelow(InsertSorted(rs, m), n)
    {
      InsertMembers(rs, m);
      var r := InsertSorted(rs, m);
      forall k ensures HasKey(r, k) <==> k == key(m) || HasKey(rs, k) {
        if k == key(m) {
          assert m in r;
        }
      }
    }

    /** Removing every row with the given key. */
    function RemoveKey(rs: seq<M>, k: int): (r: seq<M>)
      ensures |r| <= |rs|
      ensures forall i :: 0 <= i < |r| ==> key(r[i]) != k
      decreases |rs|
    {
      if |rs| == 0 then []
      else if key(rs[0]) == k then RemoveKey(rs[1..], k)
      else [rs[0]] + RemoveKey(rs[1..], k)
    }

    /** A removal drops exactly the rows with the key. */
    lemma {:induction false} RemoveMembers(rs: seq<M>, k: int)
      ensures forall x :: x in RemoveKey(rs, k) <==> x in rs && key(x) != k
      decreases |rs|
    {
      if |rs| > 0 {
        RemoveMembers(rs[1..], k);
        assert forall x :: x in rs <==> x == rs[0] || x in rs[1..];
      }
    }

    /** A removal keeps the key order. */
    lemma {:induction false} RemoveSorted(rs: seq<M>, k: int)
      requires Sorted(rs)
      ensures Sorted(RemoveKey(rs, k))
      decreases |rs|
    {
      if |rs| > 0 {
        var tail := RemoveKey(rs[1..], k);
        RemoveSorted(rs[1..], k);
        RemoveMembers(rs[1..], k);
        if key(rs[0]) != k {
          forall j | 0 <= j < |tail| ensures key(rs[0]) < key(tail[j]) {
            assert tail[j] in rs[1..];
            var l :| 0 <= l < |rs[1..]| && rs[1..][l] == tail[j];
            assert rs[l + 1] == tail[j];
          }
          var r := [rs[0]] + tail;
          forall i, j | 0 <= i < j < |r| ensures key(r[i]) < key(r[j]) {
            if i > 0 {
              assert r[i] == tail[i - 1] && r[j] == tail[j - 1];
            }
          }
        }
      }
    }

    /** A removal keeps every other key and the key bound. */
    lemma RemoveFacts(rs: seq<M>, k: int, n: int)
      requires Sorted(rs)
      ensures Sorted(RemoveKey(rs, k)) && !HasKey(RemoveKey(rs, k), k)
      ensures forall j :: j != k ==> (HasKey(RemoveKey(rs, k), j) <==> HasKey(rs, j))
      ensures KeysBelow(rs, n) ==> KeysBelow(RemoveKey(rs, k), n)
    {
      RemoveSorted(rs, k);
      RemoveMembers(rs, k);
    }

    /** Overlaying the row with the model's key; keys and key order are kept. */
    function UpdateKey(rs: seq<M>, m: M): (r: seq<M>)
      requires Lawful() && Sorted(rs)
      ensures |r| == |rs|
      ensures forall i :: 0 <= i < |rs| ==> r[i] == (if key(rs[i]) == key(m) then overlay(rs[i], m) else rs[i])
    {
      seq(|rs|, i requires 0 <= i < |rs| => if key(rs[i]) == key(m) then overlay(rs[i], m) else rs[i])
    }

    /** An update keeps the key order, the set of keys and the key bound. */
    lemma UpdateFacts(rs: seq<M>, m: M, n: int)
      requires Lawful() && Sorted(rs)
      ensures Sorted(UpdateKey(rs, m))
      ensures forall k :: HasKey(UpdateKey(rs, m), k) <==> HasKey(rs, k)
      ensures KeysBelow(rs, n) ==> KeysBelow(UpdateKey(rs, m), n)
    {
      var r := UpdateKey(rs, m);
      assert forall i :: 0 <= i < |rs| ==> key(r[i]) == key(rs[i]);
      forall k ensures HasKey(r, k) <==> HasKey(rs, k) {
        if HasKey(rs, k) {
          var x :| x in rs && key(x) == k;
          var i :| 0 <= i < |rs| && rs[i] == x;
          assert r[i] in r;
        }
        if HasKey(r, k) {
          var x :| x in r && key(x) == k;
          var i :| 0 <= i < |r| && r[i] == x;
          assert rs[i] in rs;
        }
      }
      if KeysBelow(rs, n) {
        forall x | x in r ensures key(x) != 0 && key(x) < n {
          var i :| 0 <= i < |r| && r[i] == x;
          assert rs[i] in rs;
        }
      }
    }

    /** The first selected row in key order, if any. */
    function FirstMatching(rs: seq<M>, wheres: seq<Clause>): (r: Option<M>)
      ensures r.None? <==> forall i :: 0 <= i < |rs| ==> !Satisfies(rs[i], wheres)
      ensures r.Some? ==> exists i :: 0 <= i < |rs| && r.value == rs[i] && Satisfies(rs[i], wheres) && forall j :: 0 <= j < i ==> !Satisfies(rs[j], wheres)
    {
      var selected := Matching(rs, wheres);
      if |selected| == 0 then None else Some(selected[0])
    }

    /** SELECT count(*): the number of selected rows. */
    method Count(q: Statement, fault: Option<GoError>) returns (n: int, err: Option<GoError>)
      requires Valid()
      ensures err == fault
      ensures fault.Some? ==> n == 0
      ensures fault.None? ==> n == |Matching(rows, q.wheres)|
    {
      err := fault;
      n := if fault.None? then |Matching(rows, q.wheres)| else 0;
    }

    /** SELECT count(*) > 0: whether any row is selected. */
    method Any(q: Statement, fault: Option<GoError>) returns (b: bool, err: Option<GoError>)
      requires Valid()
      ensures err == fault
      ensures b <==> fault.None? && exists i :: 0 <= i < |rows| && Satisfies(rows[i], q.wheres)
    {
      err := fault;
      b := fault.None? && |Matching(rows, q.wheres)| > 0;
    }

    /** SELECT: the selected rows in key order, cut to the statement's window. */
    method Find(q: Statement, fault: Option<GoError>) returns (ms: seq<M>, err: Option<GoError>)
      requires Valid()
      ensures err == fault
      ensures fault.Some? ==> ms == []
      ensures fault.None? ==> ms == Window(Matching(rows, q.wheres), q.offset, q.limit)
    {
      err := fault;
      ms := if fault.None? then Window(Matching(rows, q.wheres), q.offset, q.limit) else [];
    }

    /** First: the selected row with the smallest key, or gorm.ErrRecordNotFound. */
    method First(q: Statement, fault: Option<GoError>) returns (m: Option<M>, err: Option<GoError>)
      requires Valid()
      ensures fault.Some? ==> err == fault && m.None?
      ensures fault.None? ==> m == FirstMatching(rows, q.wheres)
      ensures fault.None? ==> (m.None? <==> err == Some(ErrRecordNotFound)) && (m.Some? <==> err.None?)
    {
      if fault.Some? {
        m, err := None, fault;
      } else {
        var selected := Matching(rows, q.wheres);
        if |selected| == 0 {
          m, err := None, Some(ErrRecordNotFound);
        } else {
          m, err := Some(selected[0]), None;
        }
      }
    }

    /**
     * INSERT one row: a zero key is replaced by the next generated key, a key
     * already taken is refused.
     */
    method Create(m: M, fault: Option<GoError>) returns (stored: M, err: Option<GoError>)
      requires Valid()
      modifies this
      ensures Valid()
      ensures fault.Some? ==> err == fault
      ensures fault.None? && key(m) != 0 && old(HasKey(rows, key(m))) ==> err == Some(ErrDuplicatedKey)
      ensures err.Some? ==> rows == old(rows) && nextId == old(nextId)
      ensures fault.None? && (key(m) == 0 || !old(HasKey(rows, key(m)))) ==> err.None?
      ensures err.None? ==> stored == (if key(m) == 0 then withKey(m, old(nextId)) else m)
      ensures err.None? ==> !old(HasKey(rows, key(stored))) && rows == InsertSorted(old(rows), stored)
      ensures err.None? ==> forall k :: HasKey(rows, k) <==> k == key(stored) || old(HasKey(rows, k))
    {
      stored := m;
      if fault.Some? {
        err := fault;
        return;
      }
      if key(m) != 0 && HasKey(rows, key(m)) {
        err := Some(ErrDuplicatedKey);
        return;
      }
      if key(m) == 0 {
        stored := withKey(m, nextId);
        assert !HasKey(rows, nextId);
      }
      var newNext := if key(stored) + 1 > nextId then key(stored) + 1 else nextId;
      InsertFacts(rows, stored, newNext);
      rows := InsertSorted(rows, stored);
      nextId := newNext;
      err := None;
    }

    /** The model as INSERT stores it: a zero key replaced by the next generated key. */
    function Stamp(m: M, next: int): (s: M)
      requires Lawful()
      ensures key(s) == (if key(m) == 0 then next else key(m))
    {
      if key(m) == 0 then withKey(m, next) else m
    }

    /** The next generated key after storing a row with key `k`. */
    function Bump(k: int, next: int): (n: int)
      ensures n >= next && n > k
    {
      if k + 1 > next then k + 1 else next
    }

    /** The key of `m` is free: generated, or not yet taken. */
    predicate Free(rs: seq<M>, m: M)
    {
      key(m) == 0 || !HasKey(rs, key(m))
    }

    /**
     * A batch insert, row by row: zero keys are generated in turn, a key
     * already taken (before or earlier in the batch) fails the whole batch.
     */
    function InsertAll(rs: seq<M>, next: int, ms: seq<M>): (r: Option<Batch<M>>)
      requires Lawful() && next >= 1 && Sorted(rs) && KeysBelow(rs, next)
      ensures r.Some? ==> Sorted(r.value.rows) && KeysBelow(r.value.rows, r.value.next)
      ensures r.Some? ==> r.value.next >= next && |r.value.stored| == |ms|
      decreases |ms|
    {
      if |ms| == 0 then Some(Batch(rs, next, []))
      else if !Free(rs, ms[0]) then None
      else
        var s := Stamp(ms[0], next);
        var n := Bump(key(s), next);
        InsertFacts(rs, s, n);
        Prepend([s], InsertAll(InsertSorted(rs, s), n, ms[1..]))
    }

    /** One step of a batch: the first model is stored, the rest go on from there. */
    lemma InsertAllStep(rs: seq<M>, next: int, ms: seq<M>)
      requires Lawful() && next >= 1 && Sorted(rs) && KeysBelow(rs, next)
      requires |ms| > 0 && Free(rs, ms[0])
      ensures var s := Stamp(ms[0], next);
        !HasKey(rs, key(s)) && key(s) != 0 && key(s) < Bump(key(s), next) &&
        KeysBelow(InsertSorted(rs, s), Bump(key(s), next)) &&
        (forall x :: x in InsertSorted(rs, s) <==> x == s || x in rs) &&
        (forall k :: HasKey(InsertSorted(rs, s), k) <==> k == key(s) || HasKey(rs, k)) &&
        InsertAll(rs, next, ms) == Prepend([s], InsertAll(InsertSorted(rs, s), Bump(key(s), next), ms[1..]))
    {
      var s := Stamp(ms[0], next);
      InsertFacts(rs, s, Bump(key(s), next));
    }

    /** A batch whose models all have zero keys never fails. */
    lemma {:induction false} InsertAllGenerated(rs: seq<M>, next: int, ms: seq<M>)
      requires Lawful() && next >= 1 && Sorted(rs) && KeysBelow(rs, next)
      requires forall i :: 0 <= i < |ms| ==> key(ms[i]) == 0
      ensures InsertAll(rs, next, ms).Some?
      decreases |ms|
    {
      if |ms| > 0 {
        InsertAllStep(rs, next, ms);
        var s := Stamp(ms[0], next);
        assert forall i :: 0 <= i < |ms[1..]| ==> ms[1..][i] == ms[i + 1];
        InsertAllGenerated(InsertSorted(rs, s), Bump(key(s), next), ms[1..]);
      }
    }

    /**
     * What a successful batch stores: each model with its key filled in, on
     * keys new to the table and distinct from each other, and nothing else.
     */
    lemma InsertAllFacts(rs: seq<M>, next: int, ms: seq<M>)
      requires Lawful() && next >= 1 && Sorted(rs) && KeysBelow(rs, next)
      requires InsertAll(rs, next, ms).Some?
      ensures var b := InsertAll(rs, next, ms).value;
        (forall i :: 0 <= i < |ms| ==> b.stored[i] == (if key(ms[i]) == 0 then withKey(ms[i], key(b.stored[i])) else ms[i])) &&
        (forall i :: 0 <= i < |ms| ==> !HasKey(rs, key(b.stored[i]))) &&
        (forall i, j :: 0 <= i < j < |ms| ==> key(b.stored[i]) != key(b.stored[j])) &&
        (forall x :: x in b.rows <==> x in b.stored || x in rs)
    {
      InsertAllStored(rs, next, ms);
      InsertAllKeys(rs, next, ms);
    }

    /** The stored models are the batch with keys filled in, and the rows are the old ones and those. */
    lemma {:induction false} InsertAllStored(rs: seq<M>, next: int, ms: seq<M>)
      requires Lawful() && next >= 1 && Sorted(rs) && KeysBelow(rs, next)
      requires InsertAll(rs, next, ms).Some?
      ensures var b := InsertAll(rs, next, ms).value;
        (forall i :: 0 <= i < |ms| ==> b.stored[i] == (if key(ms[i]) == 0 then withKey(ms[i], key(b.stored[i])) else ms[i])) &&
        (forall x :: x in b.rows <==> x in b.stored || x in rs)
      decreases |ms|
    {
      if |ms| > 0 {
        InsertAllStep(rs, next, ms);
        var s := Stamp(ms[0], next);
        var rs' := InsertSorted(rs, s);
        var n := Bump(key(s), next);
        InsertAllStored(rs', n, ms[1..]);
        var b := InsertAll(rs', n, ms[1..]).value;
        var st := [s] + b.stored;
        assert forall i :: 1 <= i < |ms| ==> st[i] == b.stored[i - 1] && ms[i] == ms[1..][i - 1];
      }
    }

    /** The stored keys are new to the table and distinct from each other. */
    lemma {:induction false} InsertAllKeys(rs: seq<M>, next: int, ms: seq<M>)
      requires Lawful() && next >= 1 && Sorted(rs) && KeysBelow(rs, next)
      requires InsertAll(rs, next, ms).Some?
      ensures var b := InsertAll(rs, next, ms).value;
        (forall i :: 0 <= i < |ms| ==> !HasKey(rs, key(b.stored[i]))) &&
        (forall i, j :: 0 <= i < j < |ms| ==> key(b.stored[i]) != key(b.stored[j]))
      decreases |ms|
    {
      if |ms| > 0 {
        InsertAllStep(rs, next, ms);
        var s := Stamp(ms[0], next);
        var rs' := InsertSorted(rs, s);
        var n := Bump(key(s), next);
        InsertAllKeys(rs', n, ms[1..]);
        var b := InsertAll(rs', n, ms[1..]).value;
        var st := [s] + b.stored;
        assert forall i :: 1 <= i < |ms| ==> st[i] == b.stored[i - 1];
        assert forall i :: 0 <= i < |ms| ==> !HasKey(rs', key(st[i])) || i == 0;
        forall i | 0 <= i < |ms| ensures !HasKey(rs, key(st[i])) {
        }
        forall i, j | 0 <= i < j < |ms| ensures key(st[i]) != key(st[j]) {
          if i == 0 {
            assert HasKey(rs', key(s));
          }
        }
      }
    }

    /** INSERT a batch in one statement: either every row is stored or none is. */
    method CreateMany(ms: seq<M>, fault: Option<GoError>) returns (stored: seq<M>, err: Option<GoError>)
      requires Valid()
      modifies this
      ensures Valid()
      ensures fault.Some? ==> err == fault
      ensures err.Some? ==> rows == old(rows) && nextId == old(nextId)
      ensures fault.None? ==> (err.None? <==> InsertAll(old(rows), old(nextId), ms).Some?)
      ensures err.None? ==> InsertAll(old(rows), old(nextId), ms) == Some(Batch(rows, nextId, stored))
      ensures err.Some? && fault.None? ==> err == Some(ErrDuplicatedKey)
    {
      stored := [];
      if fault.Some? {
        err := fault;
        return;
      }
      ghost var outcome := InsertAll(rows, nextId, ms);
      var rs, next := rows, nextId;
      var done: seq<M> := [];
      var i := 0;
      assert ms[0..] == ms;
      if outcome.Some? {
        assert [] + outcome.value.stored == outcome.value.stored;
      }
      while i < |ms|
        invariant 0 <= i <= |ms|
        invariant rows == old(rows) && nextId == old(nextId)
        invariant next >= 1 && Sorted(rs) && KeysBelow(rs, next)
        invariant outcome == Prepend(done, InsertAll(rs, next, ms[i..]))
        decreases |ms| - i
      {
        var m := ms[i];
        assert ms[i..][0] == m && ms[i..][1..] == ms[i + 1..];
        if !Free(rs, m) {
          err := Some(ErrDuplicatedKey);
          return;
        }
        var s := Stamp(m, next);
        var newNext := Bump(key(s), next);
        InsertAllStep(rs, next, ms[i..]);
        PrependTwice(done, [s], InsertAll(InsertSorted(rs, s), newNext, ms[i + 1..]));
        rs := InsertSorted(rs, s);
        next := newNext;
        done := done + [s];
        i := i + 1;
      }
      assert ms[i..] == [] && done + [] == done;
      rows, nextId, stored := rs, next, done;
      err := None;
    }

    /**
     * UPDATE by primary key with the model's non-zero fields. A model with a
     * zero key has no WHERE clause and is refused; a key that matches no row
     * changes nothing.
     */
    method Updates(m: M, fault: Option<GoError>) returns (err: Option<GoError>)
      requires Valid()
      modifies this`rows
      ensures Valid()
      ensures err == (if fault.Some? then fault else if key(m) == 0 then Some(ErrMissingWhereClause) else None)
      ensures err.Some? ==> rows == old(rows)
      ensures err.None? ==> rows == UpdateKey(old(rows), m)
    {
      if fault.Some? {
        err := fault;
      } else if key(m) == 0 {
        err := Some(ErrMissingWhereClause);
      } else {
        UpdateFacts(rows, m, nextId);
        rows := UpdateKey(rows, m);
        err := None;
      }
    }

    /** DELETE by primary key; a model with a zero key is refused. */
    method Delete(m: M, fault: Option<GoError>) returns (err: Option<GoError>)
      requires Valid()
      modifies this`rows
      ensures Valid()
      ensures err == (if fault.Some? then fault else if key(m) == 0 then Some(ErrMissingWhereClause) else None)
      ensures err.Some? ==> rows == old(rows)
      ensures err.None? ==> rows == RemoveKey(old(rows), key(m))
    {
      if fault.Some? {
        err := fault;
      } else if key(m) == 0 {
        err := Some(ErrMissingWhereClause);
      } else {
        RemoveFacts(rows, key(m), nextId);
        rows := RemoveKey(rows, key(m));
        err := None;
      }
    }
  }
}
