/**
 * pkg/support/db_repository: the second generation of the generic
 * repository. Query options arrive as one `Param` record whose getters
 * supply the defaults; the repository runs its statements against one table.
 */
module DbRepository {
  import opened GoTypes
  import opened ConditionTree
  import DbCondition
  import Paginate
  import PageList
  import Slices
  import opened GormStore

  /** A relation to load eagerly, its filter and its columns. */
  datatype Preload = Preload(relation: string, condition: Option<Condition>, columns: seq<string>)

  /**
   * Param: the options of one repository call. A nil slice or condition is
   * `None`; a scope function is represented by a number that names it.
   */
  datatype Param = Param(
    condition: Option<Condition>,
    preloads: Option<seq<Preload>>,
    selects: Option<seq<string>>,
    scopes: Option<seq<nat>>,
    orders: map<string, string>,
    page: int,
    limit: int)
  {
    /** A nil preload list reads as an empty one. */
    function GetPreload(): (r: seq<Preload>)
      ensures preloads.Some? ==> r == preloads.value
      ensures preloads.None? ==> r == []
    {
      if preloads.Some? then preloads.value else []
    }

    /** A nil column list reads as every column; an empty one is kept. */
    function GetSelectColumns(): (r: seq<string>)
      ensures selects.Some? ==> r == selects.value
      ensures selects.None? ==> r == ["*"]
    {
      if selects.Some? then selects.value else ["*"]
    }

    /** A nil scope list reads as an empty one. */
    function GetScopes(): (r: seq<nat>)
      ensures scopes.Some? ==> r == scopes.value
      ensures scopes.None? ==> r == []
    {
      if scopes.Some? then scopes.value else []
    }

    /** Page 0 reads as page 1; every other page, negative ones included, is kept. */
    function GetPage(): (r: int)
      ensures r != 0
      ensures page != 0 ==> r == page
      ensures page == 0 ==> r == 1
    {
      if page == 0 then 1 else page
    }

    /** Limit 0 reads as 10; every other limit is kept. */
    function GetLimit(): (r: int)
      ensures r != 0
      ensures limit != 0 ==> r == limit
      ensures limit == 0 ==> r == 10
    {
      if limit == 0 then 10 else limit
    }
  }

  /** The zero Param asks for page 1 of 10 rows, every column, no condition. */
  lemma ZeroParam()
    ensures var p := Param(None, None, None, None, map[], 0, 0);
      p.GetPage() == 1 && p.GetLimit() == 10 && p.GetSelectColumns() == ["*"] &&
      p.GetPreload() == [] && p.GetScopes() == [] && p.condition.None?
  {
  }

  /**
   * The getters only fill in defaults: reading a Param back from its own
   * getters changes nothing more.
   */
  lemma GettersIdempotent(p: Param)
    ensures var q := Param(p.condition, Some(p.GetPreload()), Some(p.GetSelectColumns()), Some(p.GetScopes()), p.orders, p.GetPage(), p.GetLimit());
      q.GetPage() == p.GetPage() && q.GetLimit() == p.GetLimit() &&
      q.GetSelectColumns() == p.GetSelectColumns() && q.GetPreload() == p.GetPreload() && q.GetScopes() == p.GetScopes()
  {
  }

  /**
   * The WHERE clause the store is given for a condition: helper.go passes
   * the condition's own GetQuery and GetValues, so every join in it carries
   * the package's padding.
   */
  function ClauseOf(c: Condition): Clause
  {
    Clause(DbCondition.QueryAsWritten(c), DbCondition.ValuesAsWritten(c))
  }

  /** ApplyCondition: a nil condition adds no WHERE clause. */
  function WheresOf(c: Option<Condition>): (ws: seq<Clause>)
    ensures c.None? ==> ws == []
    ensures c.Some? ==> ws == [ClauseOf(c.value)]
  {
    if c.Some? then [ClauseOf(c.value)] else []
  }

  method ApplyCondition(q: Statement, c: Option<Condition>)
    modifies q`wheres
    ensures q.wheres == old(q.wheres) + WheresOf(c)
  {
    if c.Some? {
      q.Where(ClauseOf(c.value));
    } else {
      assert old(q.wheres) + [] == q.wheres;
    }
  }

  /** FindByID filters with Equal("id", id), which is the primary-key clause. */
  lemma EqualIdIsIdClause(id: int)
    ensures ClauseOf(DbCondition.Equal("id", Int(id))) == IdClause(id)
  {
    assert "id" + " = ?" == "id = ?";
  }

  /** ApplyPaginate: OFFSET for the page and LIMIT for its size, unconditionally. */
  method ApplyPaginate(q: Statement, page: int, limit: int)
    modifies q`offset, q`limit
    ensures q.offset == Some(Paginate.ResolveOffset(page, limit)) && q.limit == Some(limit)
  {
    q.Offset(Paginate.ResolveOffset(page, limit));
    q.Limit(limit);
  }

  /** The offset the repository asks for is never negative: the page it passes is never 0. */
  lemma PaginateOffset(p: Param)
    requires p.GetLimit() > 0
    ensures Paginate.ResolveOffset(p.GetPage(), p.GetLimit()) >= 0
  {
    Paginate.OffsetsAgreeOffPageZero(p.GetPage(), p.GetLimit());
  }

  /** A repository over one table; models and entities convert through two functions. */
  class Repository<M(==,!new), E> {
    const table: Table<M>
    const tableName: string
    const toEntity: M -> E
    const fromEntity: E -> M

    constructor(table: Table<M>, tableName: string, toEntity: M -> E, fromEntity: E -> M)
      ensures this.table == table && this.tableName == tableName
      ensures this.toEntity == toEntity && this.fromEntity == fromEntity
    {
      this.table := table;
      this.tableName := tableName;
      this.toEntity := toEntity;
      this.fromEntity := fromEntity;
    }

    /** The entities of a list of models, in order. */
    function Entities(ms: seq<M>): (es: seq<E>)
      ensures |es| == |ms| && forall i :: 0 <= i < |ms| ==> es[i] == toEntity(ms[i])
    {
      seq(|ms|, i requires 0 <= i < |ms| => toEntity(ms[i]))
    }

    /** The models of a list of entities, in order. */
    function Models(es: seq<E>): (ms: seq<M>)
      ensures |ms| == |es| && forall i :: 0 <= i < |es| ==> ms[i] == fromEntity(es[i])
    {
      seq(|es|, i requires 0 <= i < |es| => fromEntity(es[i]))
    }

    /** All: every row as an entity, with no condition and no paging. */
    method All(p: Param, fault: Option<GoError>) returns (list: seq<E>, err: Option<GoError>)
      requires table.Valid()
      ensures err == fault
      ensures fault.Some? ==> list == []
      ensures fault.None? ==> list == Entities(table.rows)
    {
      var q := new Statement(tableName);
      table.MatchingEverything(table.rows);
      var ms, ferr := table.Find(q, fault);
      if ferr.Some? {
        return [], ferr;
      }
      list := Slices.Map(ms, toEntity);
      err := None;
    }

    /** AllBy: the rows the Param's condition selects, with no paging. */
    method AllBy(p: Param, fault: Option<GoError>) returns (list: seq<E>, err: Option<GoError>)
      requires table.Valid()
      ensures err == fault
      ensures fault.Some? ==> list == []
      ensures fault.None? ==> list == Entities(table.Matching(table.rows, WheresOf(p.condition)))
    {
      var q := new Statement(tableName);
      ApplyCondition(q, p.condition);
      assert q.wheres == WheresOf(p.condition);
      var ms, ferr := table.Find(q, fault);
      if ferr.Some? {
        return [], ferr;
      }
      list := Slices.Map(ms, toEntity);
      err := None;
    }

    /**
     * AllByWithPaginate: COUNT of the selected rows, then the page the Param
     * asks for, wrapped in a PageList with the Param's page and limit.
     */
    method AllByWithPaginate(p: Param, countFault: Option<GoError>, findFault: Option<GoError>)
      returns (r: Option<PageList.PageList<E>>, err: Option<GoError>)
      requires table.Valid()
      ensures err == (if countFault.Some? then countFault else findFault)
      ensures err.Some? <==> r.None?
      ensures r.Some? ==> var selected := table.Matching(table.rows, WheresOf(p.condition));
        r.value == PageList.NewPageList(Entities(Window(selected, Some(Paginate.ResolveOffset(p.GetPage(), p.GetLimit())), Some(p.GetLimit()))), p.GetPage(), p.GetLimit(), |selected|)
    {
      var q := new Statement(tableName);
      ApplyCondition(q, p.condition);
      assert q.wheres == WheresOf(p.condition);
      var count, cerr := table.Count(q, countFault);
      if cerr.Some? {
        return None, cerr;
      }
      ApplyPaginate(q, p.GetPage(), p.GetLimit());
      var ms, ferr := table.Find(q, findFault);
      if ferr.Some? {
        return None, ferr;
      }
      var list := Slices.Map(ms, toEntity);
      r := Some(PageList.NewPageList(list, p.GetPage(), p.GetLimit(), count));
      err := None;
    }

    /** The shared tail of FirstBy and FindByID: "record not found" is no entity and no error. */
    method FirstOf(q: Statement, fault: Option<GoError>) returns (e: Option<E>, err: Option<GoError>)
      requires table.Valid()
      ensures err == (if fault.Some? && !IsNotFound(fault.value) then fault else None)
      ensures fault.Some? ==> e.None?
      ensures fault.None? ==> e == match table.FirstMatching(table.rows, q.wheres) case None => None case Some(m) => Some(toEntity(m))
    {
      var m, qerr := table.First(q, fault);
      if qerr.None? {
        return Some(toEntity(m.value)), None;
      } else if IsNotFound(qerr.value) {
        return None, None;
      }
      return None, qerr;
    }

    /** FirstBy: the first row the Param's condition selects, or none. */
    method FirstBy(p: Param, fault: Option<GoError>) returns (e: Option<E>, err: Option<GoError>)
      requires table.Valid()
      ensures err == (if fault.Some? && !IsNotFound(fault.value) then fault else None)
      ensures fault.Some? ==> e.None?
      ensures fault.None? ==> e == match table.FirstMatching(table.rows, WheresOf(p.condition)) case None => None case Some(m) => Some(toEntity(m))
    {
      var q := new Statement(tableName);
      ApplyCondition(q, p.condition);
      assert q.wheres == WheresOf(p.condition);
      e, err := FirstOf(q, fault);
    }

    /** FindByID: the row with the primary key, or none; a store error is passed on. */
    method FindByID(id: int, p: Param, fault: Option<GoError>) returns (e: Option<E>, err: Option<GoError>)
      requires table.Valid()
      ensures err == (if fault.Some? && !IsNotFound(fault.value) then fault else None)
      ensures fault.Some? ==> e.None?
      ensures fault.None? ==> (e.Some? <==> table.HasKey(table.rows, id))
      ensures fault.None? ==> forall i :: 0 <= i < |table.rows| && table.key(table.rows[i]) == id ==> e == Some(toEntity(table.rows[i]))
    {
      var q := new Statement(tableName);
      EqualIdIsIdClause(id);
      q.Where(ClauseOf(DbCondition.Equal("id", Int(id))));
      assert q.wheres == [IdClause(id)];
      table.IdMatches(table.rows, id);
      e, err := FirstOf(q, fault);
    }

    /** Insert: the entity is stored and overwritten with the stored row (its generated key filled in). */
    method Insert(e: Ref<E>, fault: Option<GoError>) returns (err: Option<GoError>)
      requires table.Valid()
      modifies e, table
      ensures table.Valid()
      ensures fault.Some? ==> err == fault
      ensures err.Some? ==> e.value == old(e.value) && table.rows == old(table.rows) && table.nextId == old(table.nextId)
      ensures err.None? ==> var m := table.Stamp(fromEntity(old(e.value)), old(table.nextId));
        e.value == toEntity(m) && old(table.Free(table.rows, fromEntity(e.value))) && table.rows == table.InsertSorted(old(table.rows), m)
      ensures fault.None? ==> (err.None? <==> old(table.Free(table.rows, fromEntity(e.value))))
    {
      var model := fromEntity(e.value);
      var stored, cerr := table.Create(model, fault);
      if cerr.Some? {
        return cerr;
      }
      e.value := toEntity(stored);
      err := None;
    }

    /** InsertMany: one batch statement; the list is overwritten with the stored rows, same length. */
    method InsertMany(es: Ref<seq<E>>, fault: Option<GoError>) returns (err: Option<GoError>)
      requires table.Valid()
      modifies es, table
      ensures table.Valid()
      ensures fault.Some? ==> err == fault
      ensures err.Some? ==> es.value == old(es.value) && table.rows == old(table.rows) && table.nextId == old(table.nextId)
      ensures err.None? ==> |es.value| == |old(es.value)|
      ensures err.None? ==> exists b :: (table.InsertAll(old(table.rows), old(table.nextId), Models(old(es.value))) == Some(b) &&
        es.value == Entities(b.stored) && table.rows == b.rows)
    {
      var models := Slices.Map(es.value, fromEntity);
      assert models == Models(es.value);
      var stored, cerr := table.CreateMany(models, fault);
      if cerr.Some? {
        return cerr;
      }
      es.value := Slices.Map(stored, toEntity);
      err := None;
    }

    /** Update: the non-zero fields by primary key; on success the entity is re-read from its own model. */
    method Update(e: Ref<E>, fault: Option<GoError>) returns (err: Option<GoError>)
      requires table.Valid()
      modifies e, table`rows
      ensures table.Valid()
      ensures err == (if fault.Some? then fault else if table.key(fromEntity(old(e.value))) == 0 then Some(ErrMissingWhereClause) else None)
      ensures err.Some? ==> e.value == old(e.value) && table.rows == old(table.rows)
      ensures err.None? ==> e.value == toEntity(fromEntity(old(e.value))) && table.rows == table.UpdateKey(old(table.rows), fromEntity(old(e.value)))
    {
      var model := fromEntity(e.value);
      err := table.Updates(model, fault);
      if err.None? {
        e.value := toEntity(model);
      }
    }

    /** Delete: the row with the entity's primary key. */
    method Delete(e: E, fault: Option<GoError>) returns (err: Option<GoError>)
      requires table.Valid()
      modifies table`rows
      ensures table.Valid()
      ensures err == (if fault.Some? then fault else if table.key(fromEntity(e)) == 0 then Some(ErrMissingWhereClause) else None)
      ensures err.Some? ==> table.rows == old(table.rows)
      ensures err.None? ==> table.rows == table.RemoveKey(old(table.rows), table.key(fromEntity(e)))
      ensures err.None? ==> !table.HasKey(table.rows, table.key(fromEntity(e)))
    {
      var model := fromEntity(e);
      table.RemoveFacts(table.rows, table.key(model), table.nextId);
      err := table.Delete(model, fault);
    }

    /** Exists: `count(*) > 0` over the rows with the key; an error gives false. */
    method Exists(id: int, fault: Option<GoError>) returns (b: bool, err: Option<GoError>)
      requires table.Valid()
      ensures err == fault
      ensures b <==> fault.None? && table.HasKey(table.rows, id)
    {
      var q := new Statement(tableName);
      q.Where(IdClause(id));
      assert q.wheres == [IdClause(id)];
      table.IdMatches(table.rows, id);
      b, err := table.Any(q, fault);
    }

    /** ExistsBy: `count(*) > 0` over the rows the condition selects; a nil condition selects all. */
    method ExistsBy(c: Option<Condition>, fault: Option<GoError>) returns (b: bool, err: Option<GoError>)
      requires table.Valid()
      ensures err == fault
      ensures b <==> fault.None? && exists i :: 0 <= i < |table.rows| && table.Satisfies(table.rows[i], WheresOf(c))
    {
      var q := new Statement(tableName);
      ApplyCondition(q, c);
      assert q.wheres == WheresOf(c);
      b, err := table.Any(q, fault);
    }
  }
}
