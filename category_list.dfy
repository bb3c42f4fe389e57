/**
 * The category listing of internal/category/datasource/cat_repo.go (over
 * the first-generation repository) and of
 * internal/category/data/datasource/cat_datasource.go (over db_repository):
 * both turn the filter map into the same three conditions, each with its
 * own builders, and hand them to the generic paginated query.
 */
module CategoryList {
  import opened GoTypes
  import opened GoStrings
  import opened ConditionTree
  import LegacyCondition
  import DbCondition
  import LegacyRepository
  import DbRepository
  import Paginate
  import PageList
  import opened CategoryEntities
  import opened CategoryModels
  import opened GormStore

  /** Indexing a Go map: a missing key reads as "". */
  function Lookup(filters: map<string, string>, key: string): (v: string)
    ensures key in filters ==> v == filters[key]
    ensures key !in filters ==> v == ""
  {
    if key in filters then filters[key] else ""
  }

  /**
   * The created_at filter: used only when it splits on ',' into exactly two
   * bounds, that is when it holds exactly one comma.
   */
  function CreatedAtRange(filters: map<string, string>): (r: Option<(string, string)>)
    ensures r.Some? <==> CountChar(Lookup(filters, "created_at"), ',') == 1
    ensures r.Some? ==> (Lookup(filters, "created_at") == r.value.0 + "," + r.value.1
      && ',' !in r.value.0 && ',' !in r.value.1)
  {
    var s := Lookup(filters, "created_at");
    SplitCount(s, ',');
    if s != "" then
      var parts := Split(s, ',');
      if |parts| == 2 then
        JoinSplit(s, ',');
        assert GoStrings.Join(parts[1..], [',']) == parts[1];
        Some((parts[0], parts[1]))
      else None
    else None
  }

  /** The number of conditions a filter map yields. */
  function ConditionCount(filters: map<string, string>): nat
  {
    1 + (if Lookup(filters, "status") != "" then 1 else 0) + (if CreatedAtRange(filters).Some? then 1 else 0)
  }

  /** cat_repo.go: the conditions, in the order they are appended. */
  function LegacyConditions(filters: map<string, string>): (cs: seq<Condition>)
    ensures |cs| == ConditionCount(filters)
    ensures cs[0] == LegacyCondition.Contains("name", Lookup(filters, "name"))
    ensures Lookup(filters, "status") != "" ==> cs[1] == LegacyCondition.Equal("status", Str(Lookup(filters, "status")))
    ensures CreatedAtRange(filters).Some? ==> var r := CreatedAtRange(filters).value;
      cs[|cs| - 1] == LegacyCondition.Between("created_at", Str(r.0), Str(r.1))
  {
    var name := [LegacyCondition.Contains("name", Lookup(filters, "name"))];
    var status := Lookup(filters, "status");
    var withStatus := if status != "" then name + [LegacyCondition.Equal("status", Str(status))] else name;
    var range := CreatedAtRange(filters);
    if range.Some? then withStatus + [LegacyCondition.Between("created_at", Str(range.value.0), Str(range.value.1))]
    else withStatus
  }

  /** cat_datasource.go: the same conditions with the db_repository builders. */
  function DbConditions(filters: map<string, string>): (cs: seq<Condition>)
    ensures |cs| == ConditionCount(filters)
    ensures cs[0] == DbCondition.Contains("name", Lookup(filters, "name"))
    ensures Lookup(filters, "status") != "" ==> cs[1] == DbCondition.Equal("status", Str(Lookup(filters, "status")))
    ensures CreatedAtRange(filters).Some? ==> var r := CreatedAtRange(filters).value;
      cs[|cs| - 1] == DbCondition.Between("created_at", Str(r.0), Str(r.1))
  {
    var name := [DbCondition.Contains("name", Lookup(filters, "name"))];
    var status := Lookup(filters, "status");
    var withStatus := if status != "" then name + [DbCondition.Equal("status", Str(status))] else name;
    var range := CreatedAtRange(filters);
    if range.Some? then withStatus + [DbCondition.Between("created_at", Str(range.value.0), Str(range.value.1))]
    else withStatus
  }

  /**
   * The two builders agree on every condition but the range, whose operator
   * the first generation spells in lower case.
   */
  lemma ConditionsAgree(filters: map<string, string>)
    ensures |LegacyConditions(filters)| == |DbConditions(filters)|
    ensures forall i :: 0 <= i < |LegacyConditions(filters)| && !LegacyConditions(filters)[i].Margin? ==>
      LegacyConditions(filters)[i] == DbConditions(filters)[i]
    ensures CreatedAtRange(filters).None? ==> LegacyConditions(filters) == DbConditions(filters)
  {
  }

  /** An empty filter map still filters by name, with the pattern "%%". */
  lemma EmptyFiltersMatchName()
    ensures LegacyConditions(map[]) == [LegacyCondition.Contains("name", "")]
    ensures Values(LegacyConditions(map[])[0]) == [Str("%%")]
  {
    SplitCount("", ',');
    assert "%" + "" + "%" == "%%";
  }

  /** The positional options cat_repo.go passes: no preloads, no scopes, every column, the sort, the page. */
  function ListVars(sort: map<string, string>, page: int, perPage: int): (vars: seq<LegacyRepository.Var>)
    ensures LegacyRepository.Decodes(vars)
    ensures LegacyRepository.GetOrders(vars) == LegacyRepository.Ok(sort)
    ensures LegacyRepository.GetSelectColumns(vars) == LegacyRepository.Ok(["*"])
    ensures LegacyRepository.GetPage(vars) == LegacyRepository.Ok(if page == 0 then 1 else page)
    ensures LegacyRepository.GetPerPage(vars) == LegacyRepository.Ok(if perPage == 0 then 10 else perPage)
    ensures LegacyRepository.GetScopes(vars) == LegacyRepository.Ok([])
  {
    [LegacyRepository.VNil, LegacyRepository.VNil, LegacyRepository.VColumns(["*"]), LegacyRepository.VOrders(sort),
     LegacyRepository.VInt(page), LegacyRepository.VInt(perPage)]
  }

  /** The Param cat_datasource.go passes: the conjunction, the sort, the page and its size, nothing else. */
  function ListParam(filters: map<string, string>, sort: map<string, string>, page: int, perPage: int): (p: DbRepository.Param)
    ensures p.condition == Some(DbCondition.And(DbConditions(filters)))
    ensures p.orders == sort && p.page == page && p.limit == perPage
    ensures p.preloads.None? && p.selects.None? && p.scopes.None?
  {
    DbRepository.Param(Some(DbCondition.And(DbConditions(filters))), None, None, None, sort, page, perPage)
  }

  /** cat_repo.go List: AllBy with the conjunction of the filter conditions. */
  method LegacyListCategories(r: LegacyRepository.Repository<CategoryModel, Category>, filters: map<string, string>,
                              sort: map<string, string>, page: int, perPage: int,
                              countFault: Option<GoError>, findFault: Option<GoError>)
    returns (list: seq<Category>, pg: Option<Paginate.Paginator>, err: Option<GoError>)
    requires r.table.Valid()
    ensures var c := LegacyRepository.ClauseOf(LegacyCondition.And(LegacyConditions(filters)));
      var vars := ListVars(sort, page, perPage);
      err == (if countFault.Some? then countFault else findFault)
      && (err.Some? ==> list == [] && pg.None?)
      && (err.None? ==> (list == r.Entities(r.PageOf([c], vars))
            && pg == Some(Paginate.Populate(if page == 0 then 1 else page, if perPage == 0 then 10 else perPage,
                                            |r.table.Matching(r.table.rows, [c])|))))
  {
    list, pg, err := r.AllBy(LegacyCondition.And(LegacyConditions(filters)), ListVars(sort, page, perPage), countFault, findFault);
  }

  /** cat_datasource.go List: AllByWithPaginate with the Param above. */
  method DbListCategories(r: DbRepository.Repository<CategoryModel, Category>, filters: map<string, string>,
                          sort: map<string, string>, page: int, perPage: int,
                          countFault: Option<GoError>, findFault: Option<GoError>)
    returns (pl: Option<PageList.PageList<Category>>, err: Option<GoError>)
    requires r.table.Valid()
    ensures var p := ListParam(filters, sort, page, perPage);
      err == (if countFault.Some? then countFault else findFault)
      && (err.Some? <==> pl.None?)
      && (pl.Some? ==> var selected := r.table.Matching(r.table.rows, DbRepository.WheresOf(p.condition));
            pl.value == PageList.NewPageList(
              r.Entities(Window(selected, Some(Paginate.ResolveOffset(p.GetPage(), p.GetLimit())), Some(p.GetLimit()))),
              p.GetPage(), p.GetLimit(), |selected|))
  {
    pl, err := r.AllByWithPaginate(ListParam(filters, sort, page, perPage), countFault, findFault);
  }

  /**
   * The WHERE clause cat_datasource.go's listing hands the store: one clause
   * whose arguments start with a nil per filter condition before the real
   * ones, so it binds more arguments than its fragment has placeholders.
   */
  lemma DbListClauseIsPadded(filters: map<string, string>, sort: map<string, string>, page: int, perPage: int)
    ensures var ws := DbRepository.WheresOf(ListParam(filters, sort, page, perPage).condition);
      var c := DbCondition.And(DbConditions(filters));
      |ws| == 1 && ws[0].args == DbCondition.Nils(ConditionCount(filters)) + Values(c)
      && |ws[0].args| == QCount(ws[0].query) + ConditionCount(filters)
  {
    var cs := DbConditions(filters);
    DbConditionsAreLeaves(filters);
    DbCondition.PaddedJoinOverbinds(cs, "AND");
    assert DbCondition.And(cs) == Join(cs, "AND");
    assert ListParam(filters, sort, page, perPage).condition == Some(Join(cs, "AND"));
  }

  /** Every filter condition is a well-formed leaf. */
  lemma DbConditionsAreLeaves(filters: map<string, string>)
    ensures forall i :: 0 <= i < |DbConditions(filters)| ==>
      DbCondition.Leaf(DbConditions(filters)[i]) && WellFormed(DbConditions(filters)[i])
  {
    var cs := DbConditions(filters);
    assert '?' !in "name" && '?' !in "like";
    assert '?' !in "status" && '?' !in "=";
    assert '?' !in "created_at" && '?' !in "BETWEEN";
    forall i | 0 <= i < |cs|
      ensures DbCondition.Leaf(cs[i]) && WellFormed(cs[i])
    {
      if i == 0 {
      } else if i == |cs| - 1 && CreatedAtRange(filters).Some? {
      } else {
        assert i == 1 && Lookup(filters, "status") != "";
      }
    }
  }

  /** With no filters the listing sends "( AND name like ?)" with a nil and then "%%". */
  lemma DbListEmptyFilters(sort: map<string, string>, page: int, perPage: int)
    ensures DbRepository.WheresOf(ListParam(map[], sort, page, perPage).condition)
      == [Clause("( AND name like ?)", [Nil, Str("%%")])]
  {
    EmptyDbConditions();
    NameOnlyClause();
  }

  /** The clause of a conjunction of the one empty name filter. */
  lemma NameOnlyClause()
    ensures DbRepository.ClauseOf(DbCondition.And([DbCondition.Contains("name", "")]))
      == Clause("( AND name like ?)", [Nil, Str("%%")])
  {
    var c := DbCondition.Contains("name", "");
    DbCondition.AndOfOne(c);
    assert "%" + "" + "%" == "%%";
    assert DbCondition.QueryAsWritten(c) == "name like ?" && DbCondition.ValuesAsWritten(c) == [Str("%%")];
    assert "( AND " + "name like ?" + ")" == "( AND name like ?)";
    assert [Nil] + [Str("%%")] == [Nil, Str("%%")];
  }

  lemma EmptyDbConditions()
    ensures DbConditions(map[]) == [DbCondition.Contains("name", "")]
  {
    SplitCount("", ',');
  }
}
