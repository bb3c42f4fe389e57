/**
 * pkg/support/repository: the first generation of the generic repository.
 * Query options arrive as a positional `vars ...interface{}` list that the
 * `Get*` helpers decode by position and dynamic type; the repository runs
 * its statements against one table.
 */
module LegacyRepository {
  import opened GoTypes
  import opened ConditionTree
  import LegacyCondition
  import Paginate
  import Slices
  import opened GormStore

  /** pkg/support/repository/preload.go: a relation to load, its filter and its columns. */
  datatype Preload = Preload(relation: string, condition: Option<Condition>, columns: seq<string>)

  /**
   * One element of a `vars` list, by its dynamic type. A scope function is
   * represented by a number that names it.
   */
  datatype Var =
    | VNil
    | VPreloads(preloads: seq<Preload>)
    | VPreload(preload: Preload)
    | VScopes(scopes: seq<nat>)
    | VColumns(columns: seq<string>)
    | VOrders(orders: map<string, string>)
    | VInt(n: int)
    | VCondition(condition: Condition)
    | VOther

  /** The result of decoding an option: its value, or the panic of a failed type assertion. */
  datatype Outcome<T> = Ok(value: T) | Panic

  /** With(relation, vars...): vars[0] is the filter, vars[1] the column list. */
  function With(relation: string, vars: seq<Var>): (r: Outcome<Preload>)
    ensures r.Ok? <==> (|vars| == 0 || vars[0].VNil? || vars[0].VCondition?) && (|vars| <= 1 || vars[1].VNil? || vars[1].VColumns?)
    ensures r.Ok? ==> r.value.relation == relation
    ensures r.Ok? ==> (r.value.condition.Some? <==> |vars| > 0 && vars[0].VCondition?)
    ensures r.Ok? && r.value.condition.Some? ==> r.value.condition.value == vars[0].condition
    ensures r.Ok? ==> r.value.columns == (if |vars| > 1 && vars[1].VColumns? then vars[1].columns else ["*"])
  {
    var condition := if |vars| > 0 && !vars[0].VNil? then (if vars[0].VCondition? then Ok(Some(vars[0].condition)) else Panic) else Ok(None);
    var columns := if |vars| > 1 && !vars[1].VNil? then (if vars[1].VColumns? then Ok(vars[1].columns) else Panic) else Ok(["*"]);
    if condition.Panic? || columns.Panic? then Panic else Ok(Preload(relation, condition.value, columns.value))
  }

  /** A preload with no options loads every column of the relation, unfiltered. */
  lemma WithNoOptions(relation: string)
    ensures With(relation, []) == Ok(Preload(relation, None, ["*"]))
  {
  }

  /** GetPreload: vars[0] as a preload list; a single preload becomes a list of one. */
  function GetPreload(vars: seq<Var>): (r: Outcome<seq<Preload>>)
    ensures |vars| == 0 || vars[0].VNil? ==> r == Ok([])
    ensures |vars| > 0 && vars[0].VPreloads? ==> r == Ok(vars[0].preloads)
    ensures |vars| > 0 && vars[0].VPreload? ==> r == Ok([vars[0].preload])
    ensures r.Panic? <==> |vars| > 0 && !(vars[0].VNil? || vars[0].VPreloads? || vars[0].VPreload?)
  {
    if |vars| > 0 && !vars[0].VNil? then
      match vars[0]
      case VPreloads(ps) => Ok(ps)
      case VPreload(p) => Ok([p])
      case _ => Panic
    else Ok([])
  }

  /** GetScopes: vars[1], or no scopes. */
  function GetScopes(vars: seq<Var>): (r: Outcome<seq<nat>>)
    ensures |vars| <= 1 || vars[1].VNil? ==> r == Ok([])
    ensures |vars| > 1 && vars[1].VScopes? ==> r == Ok(vars[1].scopes)
    ensures r.Panic? <==> |vars| > 1 && !(vars[1].VNil? || vars[1].VScopes?)
  {
    if |vars| > 1 && !vars[1].VNil? then
      if vars[1].VScopes? then Ok(vars[1].scopes) else Panic
    else Ok([])
  }

  /** GetSelectColumns: vars[2], or every column. */
  function GetSelectColumns(vars: seq<Var>): (r: Outcome<seq<string>>)
    ensures |vars| <= 2 || vars[2].VNil? ==> r == Ok(["*"])
    ensures |vars| > 2 && vars[2].VColumns? ==> r == Ok(vars[2].columns)
    ensures r.Panic? <==> |vars| > 2 && !(vars[2].VNil? || vars[2].VColumns?)
  {
    if |vars| > 2 && !vars[2].VNil? then
      if vars[2].VColumns? then Ok(vars[2].columns) else Panic
    else Ok(["*"])
  }

  /**
   * GetOrders: vars[3], but only when the list is longer than four, so an
   * order given as the last of four options is ignored.
   */
  function GetOrders(vars: seq<Var>): (r: Outcome<map<string, string>>)
    ensures |vars| <= 4 || vars[3].VNil? ==> r == Ok(map[])
    ensures |vars| > 4 && vars[3].VOrders? ==> r == Ok(vars[3].orders)
    ensures r.Panic? <==> |vars| > 4 && !(vars[3].VNil? || vars[3].VOrders?)
  {
    if |vars| > 4 && !vars[3].VNil? then
      if vars[3].VOrders? then Ok(vars[3].orders) else Panic
    else Ok(map[])
  }

  /** Four options with an order in the last place: the order is dropped. */
  lemma OrdersNeedFiveOptions(orders: map<string, string>)
    ensures GetOrders([VNil, VNil, VNil, VOrders(orders)]) == Ok(map[])
    ensures GetOrders([VNil, VNil, VNil, VOrders(orders), VNil]) == Ok(orders)
  {
  }

  /** GetPage: vars[4], with a missing or zero page read as page 1. */
  function GetPage(vars: seq<Var>): (r: Outcome<int>)
    ensures r.Ok? ==> r.value != 0
    ensures |vars| < 5 || vars[4].VNil? ==> r == Ok(1)
    ensures |vars| >= 5 && vars[4].VInt? ==> r == Ok(if vars[4].n == 0 then 1 else vars[4].n)
    ensures r.Panic? <==> |vars| >= 5 && !(vars[4].VNil? || vars[4].VInt?)
  {
    var page := if |vars| >= 5 && !vars[4].VNil? then (if vars[4].VInt? then Ok(vars[4].n) else Panic) else Ok(0);
    if page.Panic? then Panic else if page.value == 0 then Ok(1) else page
  }

  /** GetPerPage: vars[5], with a missing or zero size read as 10. */
  function GetPerPage(vars: seq<Var>): (r: Outcome<int>)
    ensures r.Ok? ==> r.value != 0
    ensures |vars| < 6 || vars[5].VNil? ==> r == Ok(10)
    ensures |vars| >= 6 && vars[5].VInt? ==> r == Ok(if vars[5].n == 0 then 10 else vars[5].n)
    ensures r.Panic? <==> |vars| >= 6 && !(vars[5].VNil? || vars[5].VInt?)
  {
    var size := if |vars| >= 6 && !vars[5].VNil? then (if vars[5].VInt? then Ok(vars[5].n) else Panic) else Ok(0);
    if size.Panic? then Panic else if size.value == 0 then Ok(10) else size
  }

  /** Every option decodes: none of the `Get*` helpers panics. */
  predicate Decodes(vars: seq<Var>)
  {
    GetPreload(vars).Ok? && GetScopes(vars).Ok? && GetSelectColumns(vars).Ok? &&
    GetOrders(vars).Ok? && GetPage(vars).Ok? && GetPerPage(vars).Ok?
  }

  /** No options at all decode to the defaults: page 1 of 10 rows, every column. */
  lemma DefaultOptions()
    ensures Decodes([])
    ensures GetPage([]) == Ok(1) && GetPerPage([]) == Ok(10) && GetSelectColumns([]) == Ok(["*"])
  {
  }

  /** ApplyCondition: the condition's fragment and arguments as one WHERE clause. */
  function ClauseOf(c: Condition): Clause
  {
    Clause(Query(c), Values(c))
  }

  /** FindByID filters with Equal("id", id), which is the primary-key clause. */
  lemma EqualIdIsIdClause(id: int)
    ensures ClauseOf(LegacyCondition.Equal("id", Int(id))) == IdClause(id)
  {
    assert "id" + " = ?" == "id = ?";
  }

  /**
   * ApplyPaginate: with both pointers set, OFFSET for the page and LIMIT
   * for its size; it reports whether it did so.
   */
  method ApplyPaginate(q: Statement, page: Option<int>, perPage: Option<int>) returns (applied: bool)
    modifies q`offset, q`limit
    ensures applied <==> page.Some? && perPage.Some?
    ensures applied ==> q.offset == Some(Paginate.ResolveOffset(page.value, perPage.value)) && q.limit == Some(perPage.value)
    ensures !applied ==> q.offset == old(q.offset) && q.limit == old(q.limit)
  {
    applied := false;
    if page.Some? && perPage.Some? {
      q.Offset(Paginate.ResolveOffset(page.value, perPage.value));
      q.Limit(perPage.value);
      applied := true;
    }
  }

  /**
   * A page between 1 and the page count holds at least one row; a page past
   * the count holds none.
   */
  lemma PageHasRows<T>(rs: seq<T>, page: int, limit: int)
    requires page >= 1 && limit > 0
    ensures var w := Window(rs, Some(Paginate.ResolveOffset(page, limit)), Some(limit));
      (|w| > 0 <==> page <= Paginate.ResolveTotalPages(|rs|, limit)) && |w| <= limit
  {
    var pages := Paginate.ResolveTotalPages(|rs|, limit);
    var offset := Paginate.ResolveOffset(page, limit);
    assert offset == (page - 1) * limit;
    if page <= pages {
      Paginate.MulMono(page - 1, pages - 1, limit);
    } else if |rs| > 0 {
      Paginate.MulMono(pages, page - 1, limit);
    }
  }

  /** A repository over one table; models and entities convert through two functions. */
  class Repository<M(==,!new), E> {
    const table: Table<M>
    const tableName: string
    const toEntity: M -> E
    const fromEntity: E -> M

    constructor(table: Table<M>, tableName: string, toEntity: M -> E, fromEntity: E -> M)
      ensures this.table == table && this.tableName == tableName
      ensures this.toEntity == toEntity && this.fromEntity == fromEntity
    {
      this.table := table;
      this.tableName := tableName;
      this.toEntity := toEntity;
      this.fromEntity := fromEntity;
    }

    /** The entities of a list of models, in order. */
    function Entities(ms: seq<M>): (es: seq<E>)
      ensures |es| == |ms| && forall i :: 0 <= i < |ms| ==> es[i] == toEntity(ms[i])
    {
      seq(|ms|, i requires 0 <= i < |ms| => toEntity(ms[i]))
    }

    /** The page of selected rows All and AllBy return. */
    ghost function PageOf(wheres: seq<Clause>, vars: seq<Var>): seq<M>
      reads table
      requires table.Valid() && Decodes(vars)
    {
      Window(table.Matching(table.rows, wheres), Some(Paginate.ResolveOffset(GetPage(vars).value, GetPerPage(vars).value)), Some(GetPerPage(vars).value))
    }

    /**
     * A read that selects with `wheres`: COUNT, then the page, as All and
     * AllBy both do once their WHERE clause is in place.
     */
    method CountAndPage(q: Statement, vars: seq<Var>, countFault: Option<GoError>, findFault: Option<GoError>)
      returns (list: seq<E>, pg: Option<Paginate.Paginator>, err: Option<GoError>)
      requires table.Valid() && Decodes(vars)
      modifies q`offset, q`limit
      ensures err == (if countFault.Some? then countFault else findFault)
      ensures err.Some? ==> list == [] && pg.None?
      ensures err.None? ==> list == Entities(PageOf(q.wheres, vars))
      ensures err.None? ==> pg == Some(Paginate.Populate(GetPage(vars).value, GetPerPage(vars).value, |table.Matching(table.rows, q.wheres)|))
    {
      var count, e1 := table.Count(q, countFault);
      if e1.Some? {
        return [], None, e1;
      }
      var page := GetPage(vars).value;
      var limit := GetPerPage(vars).value;
      var applied := ApplyPaginate(q, Some(page), Some(limit));
      var ms, e2 := table.Find(q, findFault);
      if e2.Some? {
        return [], None, e2;
      }
      list := Slices.Map(ms, toEntity);
      pg := if applied then Some(Paginate.Populate(page, limit, count)) else None;
      err := None;
    }

    /** All: every row, counted, then one page of them as entities. */
    method All(vars: seq<Var>, countFault: Option<GoError>, findFault: Option<GoError>)
      returns (list: seq<E>, pg: Option<Paginate.Paginator>, err: Option<GoError>)
      requires table.Valid() && Decodes(vars)
      ensures err == (if countFault.Some? then countFault else findFault)
      ensures err.Some? ==> list == [] && pg.None?
      ensures err.None? ==> list == Entities(PageOf([], vars))
      ensures err.None? ==> pg == Some(Paginate.Populate(GetPage(vars).value, GetPerPage(vars).value, |table.rows|))
    {
      var q := new Statement(tableName);
      table.MatchingEverything(table.rows);
      list, pg, err := CountAndPage(q, vars, countFault, findFault);
    }

    /** AllBy: the rows the condition selects, counted, then one page of them. */
    method AllBy(c: Condition, vars: seq<Var>, countFault: Option<GoError>, findFault: Option<GoError>)
      returns (list: seq<E>, pg: Option<Paginate.Paginator>, err: Option<GoError>)
      requires table.Valid() && Decodes(vars)
      ensures err == (if countFault.Some? then countFault else findFault)
      ensures err.Some? ==> list == [] && pg.None?
      ensures err.None? ==> list == Entities(PageOf([ClauseOf(c)], vars))
      ensures err.None? ==> pg == Some(Paginate.Populate(GetPage(vars).value, GetPerPage(vars).value, |table.Matching(table.rows, [ClauseOf(c)])|))
    {
      var q := new Statement(tableName);
      q.Where(ClauseOf(c));
      assert q.wheres == [ClauseOf(c)];
      list, pg, err := CountAndPage(q, vars, countFault, findFault);
    }

    /**
     * The shared tail of FirstBy and FindByID: single-row SELECT, with
     * "record not found" turned into no entity and no error.
     */
    method FirstOf(q: Statement, fault: Option<GoError>) returns (e: Option<E>, err: Option<GoError>)
      requires table.Valid()
      ensures err == (if fault.Some? && !IsNotFound(fault.value) then fault else None)
      ensures fault.Some? ==> e.None?
      ensures fault.None? ==> e == match table.FirstMatching(table.rows, q.wheres) case None => None case Some(m) => Some(toEntity(m))
    {
      var m, qerr := table.First(q, fault);
      if qerr.None? {
        return Some(toEntity(m.value)), None;
      } else if IsNotFound(qerr.value) {
        return None, None;
      }
      return None, qerr;
    }

    /** FirstBy: the first row the condition selects, or none. */
    method FirstBy(c: Condition, vars: seq<Var>, fault: Option<GoError>) returns (e: Option<E>, err: Option<GoError>)
      requires table.Valid() && Decodes(vars)
      ensures err == (if fault.Some? && !IsNotFound(fault.value) then fault else None)
      ensures fault.Some? ==> e.None?
      ensures fault.None? ==> e == match table.FirstMatching(table.rows, [ClauseOf(c)]) case None => None case Some(m) => Some(toEntity(m))
    {
      var q := new Statement(tableName);
      q.Where(ClauseOf(c));
      assert q.wheres == [ClauseOf(c)];
      e, err := FirstOf(q, fault);
    }

    /** FindByID: the row with the primary key, or none; a store error is passed on. */
    method FindByID(id: int, vars: seq<Var>, fault: Option<GoError>) returns (e: Option<E>, err: Option<GoError>)
      requires table.Valid() && Decodes(vars)
      ensures err == (if fault.Some? && !IsNotFound(fault.value) then fault else None)
      ensures fault.Some? ==> e.None?
      ensures fault.None? ==> (e.Some? <==> table.HasKey(table.rows, id))
      ensures fault.None? ==> forall i :: 0 <= i < |table.rows| && table.key(table.rows[i]) == id ==> e == Some(toEntity(table.rows[i]))
    {
      var q := new Statement(tableName);
      EqualIdIsIdClause(id);
      q.Where(ClauseOf(LegacyCondition.Equal("id", Int(id))));
      assert q.wheres == [IdClause(id)];
      table.IdMatches(table.rows, id);
      e, err := FirstOf(q, fault);
    }

    /** Insert: the entity is stored and overwritten with the stored row (its generated key filled in). */
    method Insert(e: Ref<E>, fault: Option<GoError>) returns (err: Option<GoError>)
      requires table.Valid()
      modifies e, table
      ensures table.Valid()
      ensures fault.Some? ==> err == fault
      ensures err.Some? ==> e.value == old(e.value) && table.rows == old(table.rows) && table.nextId == old(table.nextId)
      ensures err.None? ==> var m := table.Stamp(fromEntity(old(e.value)), old(table.nextId));
        e.value == toEntity(m) && old(table.Free(table.rows, fromEntity(e.value))) && table.rows == table.InsertSorted(old(table.rows), m)
      ensures fault.None? ==> (err.None? <==> old(table.Free(table.rows, fromEntity(e.value))))
    {
      var model := fromEntity(e.value);
      var stored, cerr := table.Create(model, fault);
      if cerr.Some? {
        return cerr;
      }
      e.value := toEntity(stored);
      err := None;
    }

    /** InsertMany: one batch statement; the list is overwritten with the stored rows, same length. */
    method InsertMany(es: Ref<seq<E>>, fault: Option<GoError>) returns (err: Option<GoError>)
      requires table.Valid()
      modifies es, table
      ensures table.Valid()
      ensures fault.Some? ==> err == fault
      ensures err.Some? ==> es.value == old(es.value) && table.rows == old(table.rows) && table.nextId == old(table.nextId)
      ensures err.None? ==> |es.value| == |old(es.value)|
      ensures err.None? ==> exists b :: (table.InsertAll(old(table.rows), old(table.nextId), Models(old(es.value))) == Some(b) &&
        es.value == Entities(b.stored) && table.rows == b.rows)
    {
      var models := Slices.Map(es.value, fromEntity);
      assert models == Models(es.value);
      var stored, cerr := table.CreateMany(models, fault);
      if cerr.Some? {
        return cerr;
      }
      es.value := Slices.Map(stored, toEntity);
      err := None;
    }

    /** The models of a list of entities, in order. */
    function Models(es: seq<E>): (ms: seq<M>)
      ensures |ms| == |es| && forall i :: 0 <= i < |es| ==> ms[i] == fromEntity(es[i])
    {
      seq(|es|, i requires 0 <= i < |es| => fromEntity(es[i]))
    }

    /** Update: the non-zero fields by primary key; on success the entity is re-read from its own model. */
    method Update(e: Ref<E>, fault: Option<GoError>) returns (err: Option<GoError>)
      requires table.Valid()
      modifies e, table`rows
      ensures table.Valid()
      ensures err == (if fault.Some? then fault else if table.key(fromEntity(old(e.value))) == 0 then Some(ErrMissingWhereClause) else None)
      ensures err.Some? ==> e.value == old(e.value) && table.rows == old(table.rows)
      ensures err.None? ==> e.value == toEntity(fromEntity(old(e.value))) && table.rows == table.UpdateKey(old(table.rows), fromEntity(old(e.value)))
    {
      var model := fromEntity(e.value);
      err := table.Updates(model, fault);
      if err.None? {
        e.value := toEntity(model);
      }
    }

    /** Delete: the row with the entity's primary key. */
    method Delete(e: E, fault: Option<GoError>) returns (err: Option<GoError>)
      requires table.Valid()
      modifies table`rows
      ensures table.Valid()
      ensures err == (if fault.Some? then fault else if table.key(fromEntity(e)) == 0 then Some(ErrMissingWhereClause) else None)
      ensures err.Some? ==> table.rows == old(table.rows)
      ensures err.None? ==> table.rows == table.RemoveKey(old(table.rows), table.key(fromEntity(e)))
      ensures err.None? ==> !table.HasKey(table.rows, table.key(fromEntity(e)))
    {
      var model := fromEntity(e);
      table.RemoveFacts(table.rows, table.key(model), table.nextId);
      err := table.Delete(model, fault);
    }

    /** Exists: `count(*) > 0` over the rows with the key; no row is read. */
    method Exists(id: int, fault: Option<GoError>) returns (b: bool, err: Option<GoError>)
      requires table.Valid()
      ensures err == fault
      ensures b <==> fault.None? && table.HasKey(table.rows, id)
    {
      var q := new Statement(tableName);
      q.Where(IdClause(id));
      assert q.wheres == [IdClause(id)];
      table.IdMatches(table.rows, id);
      b, err := table.Any(q, fault);
    }

    /** ExistsBy: `count(*) > 0` over the rows the condition selects. */
    method ExistsBy(c: Condition, fault: Option<GoError>) returns (b: bool, err: Option<GoError>)
      requires table.Valid()
      ensures err == fault
      ensures b <==> fault.None? && exists i :: 0 <= i < |table.rows| && table.Satisfies(table.rows[i], [ClauseOf(c)])
    {
      var q := new Statement(tableName);
      q.Where(ClauseOf(c));
      assert q.wheres == [ClauseOf(c)];
      b, err := table.Any(q, fault);
    }
  }
}
