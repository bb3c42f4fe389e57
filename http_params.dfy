/**
 * pkg/support/http/params.go and helper.go: query-string decoding and the
 * merging of validation errors. The request is given as its query values;
 * the struct validator is a parameter returning the field errors it finds.
 */
module HttpParams {
  import opened GoTypes
  import opened GoStrings
  import opened GoStrconv

  /** Validation errors: field name to messages, as the validator package returns them. */
  type FieldErrors = map<string, seq<string>>

  const DefaultPage := "1"
  const DefaultPerPage := "10"

  /** The three results of GetPaginateParams. */
  datatype PaginateParams = PaginateParams(page: int, perPage: int, errs: FieldErrors)

  /**
   * GetPaginateParams: any validation error gives 0, 0 and the errors;
   * otherwise a missing value defaults and the text is read by Atoi, whose
   * error is dropped.
   */
  function GetPaginateParams(page: string, perPage: string, validate: (string, string) -> FieldErrors): (r: PaginateParams)
    ensures |validate(page, perPage)| > 0 ==> r == PaginateParams(0, 0, validate(page, perPage))
    ensures |validate(page, perPage)| == 0 ==> r.errs == map[]
    ensures |validate(page, perPage)| == 0 && page == "" ==> r.page == 1
    ensures |validate(page, perPage)| == 0 && perPage == "" ==> r.perPage == 10
    ensures |validate(page, perPage)| == 0 && page != "" ==> r.page == Atoi(page).n
    ensures |validate(page, perPage)| == 0 && perPage != "" ==> r.perPage == Atoi(perPage).n
  {
    var errs := validate(page, perPage);
    if |errs| > 0 then PaginateParams(0, 0, errs)
    else
      var p := if page == "" then DefaultPage else page;
      var pp := if perPage == "" then DefaultPerPage else perPage;
      DefaultsParse();
      PaginateParams(Atoi(p).n, Atoi(pp).n, errs)
  }

  /** The default texts read as 1 and 10. */
  lemma DefaultsParse()
    ensures Atoi(DefaultPage) == AtoiResult(1, None)
    ensures Atoi(DefaultPerPage) == AtoiResult(10, None)
  {
    assert DefaultPage == FormatInt(1);
    AtoiFormatInt(1);
    assert DefaultPerPage == FormatInt(10);
    AtoiFormatInt(10);
  }

  /** Numbers written in decimal come back as themselves once validation passes. */
  lemma PaginateReadsNumbers(page: int, perPage: int, validate: (string, string) -> FieldErrors)
    requires MinInt64 <= page <= MaxInt64 && MinInt64 <= perPage <= MaxInt64
    requires |validate(FormatInt(page), FormatInt(perPage))| == 0
    ensures GetPaginateParams(FormatInt(page), FormatInt(perPage), validate) == PaginateParams(page, perPage, map[])
  {
    AtoiFormatInt(page);
    AtoiFormatInt(perPage);
  }

  /** The field a sort term names: without its leading '-'. */
  function SortField(term: string): (f: string)
    ensures HasPrefix(term, "-") ==> term == "-" + f
    ensures !HasPrefix(term, "-") ==> f == term
  {
    if HasPrefix(term, "-") then term[1..] else term
  }

  /** The direction a sort term asks for: "desc" after '-', else "asc". */
  function SortDir(term: string): (d: string)
    ensures d == "desc" <==> HasPrefix(term, "-")
    ensures d == "asc" <==> !HasPrefix(term, "-")
  {
    if HasPrefix(term, "-") then "desc" else "asc"
  }

  /** The sort map the terms build in order: a later term for the same field overwrites. */
  function Sorts(terms: seq<string>): map<string, string>
    decreases |terms|
  {
    if |terms| == 0 then map[]
    else Sorts(terms[..|terms| - 1])[SortField(terms[|terms| - 1]) := SortDir(terms[|terms| - 1])]
  }

  /** The sort terms of the `sort` query value; "" and "-" have none. */
  function SortTerms(sort: string): (terms: seq<string>)
    ensures sort == "" || sort == "-" ==> terms == []
  {
    if sort == "" || sort == "-" then [] else Split(sort, ',')
  }

  /** GetSortParams: the terms of `sort`, split at ',', written into a map one by one. */
  method GetSortParams(sort: string) returns (sorts: map<string, string>)
    ensures sorts == Sorts(SortTerms(sort))
  {
    sorts := map[];
    if sort == "" || sort == "-" {
      return;
    }
    var split := Split(sort, ',');
    for i := 0 to |split|
      invariant sorts == Sorts(split[..i])
    {
      assert split[..i + 1][..i] == split[..i];
      sorts := sorts[SortField(split[i]) := SortDir(split[i])];
    }
    assert split[..|split|] == split;
  }

  /** Some term names field `k`. */
  predicate Names(terms: seq<string>, k: string)
  {
    exists i :: 0 <= i < |terms| && SortField(terms[i]) == k
  }

  /** The fields sorted are exactly the fields the terms name. */
  lemma {:induction false} SortsKeys(terms: seq<string>)
    ensures forall k :: k in Sorts(terms) <==> Names(terms, k)
    decreases |terms|
  {
    if |terms| > 0 {
      var init := terms[..|terms| - 1];
      var last := terms[|terms| - 1];
      SortsKeys(init);
      forall k
        ensures k in Sorts(terms) <==> Names(terms, k)
      {
        if k == SortField(last) {
          assert SortField(terms[|terms| - 1]) == k;
        } else {
          if k in Sorts(init) {
            var i :| 0 <= i < |init| && SortField(init[i]) == k;
            assert terms[i] == init[i];
          }
          if Names(terms, k) {
            var i :| 0 <= i < |terms| && SortField(terms[i]) == k;
            assert init[i] == terms[i];
          }
        }
      }
    }
  }

  /** Every direction is "asc" or "desc". */
  lemma {:induction false} SortsDirections(terms: seq<string>)
    ensures forall k :: k in Sorts(terms) ==> Sorts(terms)[k] == "asc" || Sorts(terms)[k] == "desc"
    decreases |terms|
  {
    if |terms| > 0 {
      SortsDirections(terms[..|terms| - 1]);
    }
  }

  /** The last term that names a field decides its direction. */
  lemma {:induction false} SortsLastWins(terms: seq<string>, i: int)
    requires 0 <= i < |terms|
    requires forall j :: i < j < |terms| ==> SortField(terms[j]) != SortField(terms[i])
    ensures SortField(terms[i]) in Sorts(terms) && Sorts(terms)[SortField(terms[i])] == SortDir(terms[i])
    decreases |terms|
  {
    if i < |terms| - 1 {
      var init := terms[..|terms| - 1];
      assert init[i] == terms[i];
      assert forall j :: i < j < |init| ==> init[j] == terms[j];
      SortsLastWins(init, i);
    }
  }

  /** Two pieces without the separator, joined by it, split back into those two. */
  lemma SplitTwo(p: string, t: string, sep: char)
    requires sep !in p && sep !in t
    ensures Split(p + [sep] + t, sep) == [p, t]
  {
    SplitPrefixed(p, t, sep);
  }

  /** The terms of "name,-id". */
  lemma SortTermsExample()
    ensures SortTerms("name,-id") == ["name", "-id"]
  {
    var p: string, t: string := "name", "-id";
    assert p + [','] + t == "name,-id";
    assert ',' !in p by {
      assert forall i :: 0 <= i < |p| ==> p[i] != ',';
    }
    assert ',' !in t by {
      assert forall i :: 0 <= i < |t| ==> t[i] != ',';
    }
    SplitTwo(p, t, ',');
  }

  /** "name,-id": the name ascending, the id descending. */
  lemma SortExample()
    ensures Sorts(["name", "-id"]) == map["name" := "asc", "id" := "desc"]
  {
    var terms := ["name", "-id"];
    assert terms[..1] == ["name"];
    assert ["name"][..0] == [];
    assert HasPrefix("-id", "-") && "-id"[1..] == "id";
    assert "name"[..1] != "-" by {
      assert "name"[..1][0] == 'n';
    }
  }

  /** The query key a filter is read from. */
  function FilterKey(key: string): string
  {
    "filters[" + key + "]"
  }

  /** A filter's value: the first value of its query key, or "". */
  function FilterValue(query: map<string, seq<string>>, key: string): (v: string)
    ensures FilterKey(key) !in query || |query[FilterKey(key)]| == 0 ==> v == ""
    ensures FilterKey(key) in query && |query[FilterKey(key)]| > 0 ==> v == query[FilterKey(key)][0]
  {
    if FilterKey(key) in query && |query[FilterKey(key)]| > 0 then query[FilterKey(key)][0] else ""
  }

  /** GetFilterParams: every requested key is present, with its filter's value or "". */
  method GetFilterParams(query: map<string, seq<string>>, keys: seq<string>) returns (filters: map<string, string>)
    ensures filters.Keys == set k | k in keys
    ensures forall k :: k in filters ==> filters[k] == FilterValue(query, k)
  {
    filters := map[];
    for i := 0 to |keys|
      invariant filters.Keys == set k | k in keys[..i]
      invariant forall k :: k in filters ==> filters[k] == FilterValue(query, k)
    {
      assert keys[..i + 1] == keys[..i] + [keys[i]];
      filters := filters[keys[i] := ""];
      var filterKey := FilterKey(keys[i]);
      if filterKey in query && |query[filterKey]| > 0 {
        filters := filters[keys[i] := query[filterKey][0]];
      }
    }
    assert keys[..|keys|] == keys;
  }

  /** The route parameter GetIDRouteParam reads: its first argument when that is a string, else "id". */
  function IdKey(vars: seq<Value>): (k: string)
    ensures |vars| > 0 && vars[0].Str? ==> k == vars[0].s
    ensures !(|vars| > 0 && vars[0].Str?) ==> k == "id"
  {
    if |vars| > 0 && vars[0].Str? then vars[0].s else "id"
  }

  /** The two results of GetIDRouteParam. */
  datatype IdParam = IdParam(id: int, errs: Option<FieldErrors>)

  /**
   * GetIDRouteParam: the route parameter under IdKey, validated by
   * `validate` (the rule "numeric,gte=1"); its errors come back under the key.
   */
  function GetIDRouteParam(param: string -> string, vars: seq<Value>, validate: string -> seq<string>): (r: IdParam)
    ensures |validate(param(IdKey(vars)))| > 0 ==> r == IdParam(0, Some(map[IdKey(vars) := validate(param(IdKey(vars)))]))
    ensures |validate(param(IdKey(vars)))| == 0 ==> r == IdParam(Atoi(param(IdKey(vars))).n, None)
  {
    var idKey := IdKey(vars);
    var id := param(idKey);
    var errValidate := validate(id);
    if |errValidate| > 0 then IdParam(0, Some(map[idKey := errValidate]))
    else IdParam(Atoi(id).n, None)
  }

  /** The validation errors of several maps in order: a later map wins on the same field. */
  function Merged(errors: seq<FieldErrors>): FieldErrors
    decreases |errors|
  {
    if |errors| == 0 then map[] else Merged(errors[..|errors| - 1]) + errors[|errors| - 1]
  }

  /**
   * MergeErrorValidate: each map's entries written into the result in turn.
   * The entries of one Go map have distinct fields, so writing them in any
   * order is the map union `errs + err`.
   */
  method MergeErrorValidate(errors: seq<FieldErrors>) returns (errs: FieldErrors)
    ensures errs == Merged(errors)
  {
    errs := map[];
    for i := 0 to |errors|
      invariant errs == Merged(errors[..i])
    {
      assert errors[..i + 1][..i] == errors[..i];
      if |errors[i]| == 0 {
        assert Merged(errors[..i]) + errors[i] == Merged(errors[..i]);
        continue;
      }
      errs := errs + errors[i];
    }
    assert errors[..|errors|] == errors;
  }

  /** Some map has field `k`. */
  predicate HasField(errors: seq<FieldErrors>, k: string)
  {
    exists i :: 0 <= i < |errors| && k in errors[i]
  }

  /** The merged fields are the union of the inputs' fields. */
  lemma {:induction false} MergedKeys(errors: seq<FieldErrors>)
    ensures forall k :: k in Merged(errors) <==> HasField(errors, k)
    decreases |errors|
  {
    if |errors| > 0 {
      var init := errors[..|errors| - 1];
      var last := errors[|errors| - 1];
      MergedKeys(init);
      forall k
        ensures k in Merged(errors) <==> HasField(errors, k)
      {
        if k in last {
          assert k in errors[|errors| - 1];
        } else {
          if k in Merged(init) {
            var i :| 0 <= i < |init| && k in init[i];
            assert errors[i] == init[i];
          }
          if HasField(errors, k) {
            var i :| 0 <= i < |errors| && k in errors[i];
            assert init[i] == errors[i];
          }
        }
      }
    }
  }

  /** A field takes the messages of the last map that has it. */
  lemma {:induction false} MergedLastWins(errors: seq<FieldErrors>, i: int, k: string)
    requires 0 <= i < |errors| && k in errors[i]
    requires forall j :: i < j < |errors| ==> k !in errors[j]
    ensures k in Merged(errors) && Merged(errors)[k] == errors[i][k]
    decreases |errors|
  {
    if i < |errors| - 1 {
      var init := errors[..|errors| - 1];
      assert init[i] == errors[i];
      assert forall j :: i < j < |init| ==> init[j] == errors[j];
      MergedLastWins(init, i, k);
    }
  }

  /** An empty map adds nothing wherever it stands, and no maps merge to nothing. */
  lemma {:induction false} MergedSkipsEmpty(a: seq<FieldErrors>, b: seq<FieldErrors>)
    ensures Merged(a + [map[]] + b) == Merged(a + b)
    ensures Merged([]) == map[]
    decreases |b|
  {
    if |b| == 0 {
      assert a + [map[]] + b == a + [map[]];
      assert (a + [map[]])[..|a|] == a;
      assert a + b == a;
    } else {
      var b' := b[..|b| - 1];
      MergedSkipsEmpty(a, b');
      assert (a + [map[]] + b)[..|a + [map[]] + b| - 1] == a + [map[]] + b';
      assert (a + b)[..|a + b| - 1] == a + b';
    }
  }
}
