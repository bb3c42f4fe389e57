/**
 * The category use case: internal/category/usecase/cat_usecase.go and its
 * successor internal/category/domain/usecase/cat_usecase.go, whose Store,
 * Update and Delete are the same code. The repository behind the use case
 * is seen through its contract: a table of categories keyed by id, with the
 * generic Insert, Updates and Delete of the repositories and the table-wide
 * UpdateDefault of the category datasource. Every repository error reaches
 * the use case wrapped as a datasource error.
 *
 * Each use-case method is proved against a pure outcome function; the
 * properties the rules are there for (at most one default category, and a
 * default category is published) are lemmas about those functions.
 */
module CategoryUseCase {
  import opened GoTypes
  import opened Errors
  import opened CategoryEntities
  import opened GormStore

  const ErrDefaultCatMustPublish := GoError("default category must be published")
  const ErrDefaultCatMustSet := GoError("default category must be set")
  const ErrCannotDeleteDefaultCat := GoError("cannot delete default category")

  type Rows = map<int, Category>

  /** No two rows are both the default category. */
  predicate AtMostOneDefault(rows: Rows)
  {
    forall a, b :: a in rows && b in rows && rows[a].isDefault && rows[b].isDefault ==> a == b
  }

  /** Every default row is published. */
  predicate DefaultsPublic(rows: Rows)
  {
    forall a :: a in rows && rows[a].isDefault ==> rows[a].IsPublic()
  }

  /** The state after a repository call, and the entity the caller holds afterwards. */
  datatype Outcome = Outcome(rows: Rows, nextId: int, cat: Option<Category>, err: Option<Contract>)

  // ---------------------------------------------------------------- repository

  /** Insert: gorm's Create; a zero id is generated, an id already stored is a duplicate. */
  function InsertOutcome(rows: Rows, nextId: int, c: Category, fault: Option<GoError>): (o: Outcome)
    ensures o.cat.Some?
    ensures o.err.Some? ==> o.rows == rows && o.nextId == nextId && o.cat == Some(c)
    ensures o.err.None? <==> fault.None? && (c.id == 0 || c.id !in rows)
    ensures o.err.None? ==> (o.cat.value == (if c.id == 0 then c.(id := nextId) else c)
      && o.rows == rows[o.cat.value.id := o.cat.value] && o.nextId > o.cat.value.id && o.nextId >= nextId)
  {
    if fault.Some? then Outcome(rows, nextId, Some(c), Some(NewDatasource(fault.value)))
    else if c.id != 0 && c.id in rows then Outcome(rows, nextId, Some(c), Some(NewDatasource(ErrDuplicatedKey)))
    else
      var stored := if c.id == 0 then c.(id := nextId) else c;
      Outcome(rows[stored.id := stored], if stored.id >= nextId then stored.id + 1 else nextId, Some(stored), None)
  }

  /** gorm's Updates with a struct: the stored row takes the model's non-zero fields. */
  function Overlay(stored: Category, m: Category): (r: Category)
    ensures r.id == stored.id
    ensures r.isDefault == (stored.isDefault || m.isDefault)
    ensures r.status == (if m.status != 0 then m.status else stored.status)
  {
    Category(
      stored.id,
      if m.name != "" then m.name else stored.name,
      if m.description.Some? then m.description else stored.description,
      if m.status != 0 then m.status else stored.status,
      if m.isDefault then true else stored.isDefault,
      if m.createdAt.Some? then m.createdAt else stored.createdAt,
      if m.updatedAt.Some? then m.updatedAt else stored.updatedAt)
  }

  /** The row with the model's id overlaid; an update that matches no row changes nothing. */
  function Written(rows: Rows, m: Category): (r: Rows)
    ensures r.Keys == rows.Keys
    ensures forall id :: id in rows ==> r[id] == (if id == m.id then Overlay(rows[id], m) else rows[id])
  {
    if m.id in rows then rows[m.id := Overlay(rows[m.id], m)] else rows
  }

  /** The repository's Update: a zero id has no WHERE clause and is refused. */
  function UpdateWrite(rows: Rows, m: Category, fault: Option<GoError>): (o: (Rows, Option<Contract>))
    ensures o.1.None? <==> fault.None? && m.id != 0
    ensures o.0 == (if o.1.None? then Written(rows, m) else rows)
  {
    if fault.Some? then (rows, Some(NewDatasource(fault.value)))
    else if m.id == 0 then (rows, Some(NewDatasource(ErrMissingWhereClause)))
    else (Written(rows, m), None)
  }

  /** UpdateDefault's `is_default = false WHERE id != except`. */
  function ClearDefaults(rows: Rows, except: int): (r: Rows)
    ensures r.Keys == rows.Keys
    ensures forall id :: id in rows ==> r[id] == (if id == except then rows[id] else rows[id].(isDefault := false))
  {
    map id | id in rows :: if id == except then rows[id] else rows[id].(isDefault := false)
  }

  /** UpdateDefault as the use case sees it: a failure leaves the table as it was. */
  function UpdateDefaultWrite(rows: Rows, except: int, fault: Option<GoError>): (o: (Rows, Option<Contract>))
    ensures o.1.None? <==> fault.None?
    ensures o.0 == (if fault.None? then ClearDefaults(rows, except) else rows)
  {
    if fault.Some? then (rows, Some(NewDatasource(fault.value))) else (ClearDefaults(rows, except), None)
  }

  /** The repository's Delete: the row with the entity's id. */
  function DeleteWrite(rows: Rows, m: Category, fault: Option<GoError>): (o: (Rows, Option<Contract>))
    ensures o.1.None? <==> fault.None? && m.id != 0
    ensures o.0 == (if o.1.None? then rows - {m.id} else rows)
  {
    if fault.Some? then (rows, Some(NewDatasource(fault.value)))
    else if m.id == 0 then (rows, Some(NewDatasource(ErrMissingWhereClause)))
    else (rows - {m.id}, None)
  }

  /** The category repository: its table, and the backend's answers given as faults. */
  class CategoryRepo {
    var rows: Rows
    var nextId: int

    ghost predicate Valid()
      reads this
    {
      forall id :: id in rows ==> rows[id].id == id && id < nextId
    }

    constructor ()
      ensures Valid() && rows == map[] && nextId == 1
    {
      rows := map[];
      nextId := 1;
    }

    /** Store: Insert, which writes the stored row back into the entity. */
    method Store(cat: Ref<Category>, fault: Option<GoError>) returns (err: Option<Contract>)
      requires Valid()
      modifies this, cat
      ensures Valid()
      ensures Outcome(rows, nextId, Some(cat.value), err) == InsertOutcome(old(rows), old(nextId), old(cat.value), fault)
    {
      var o := InsertOutcome(rows, nextId, cat.value, fault);
      rows, nextId, cat.value, err := o.rows, o.nextId, o.cat.value, o.err;
    }

    /** UpdateDefault: every row but `except` loses its default flag. */
    method UpdateDefault(except: int, fault: Option<GoError>) returns (err: Option<Contract>)
      requires Valid()
      modifies this`rows
      ensures Valid()
      ensures (rows, err) == UpdateDefaultWrite(old(rows), except, fault)
    {
      if fault.Some? {
        return Some(NewDatasource(fault.value));
      }
      rows := ClearDefaults(rows, except);
      err := None;
    }

    /** Update: the entity's non-zero fields written over its row. */
    method Update(cat: Category, fault: Option<GoError>) returns (err: Option<Contract>)
      requires Valid()
      modifies this`rows
      ensures Valid()
      ensures (rows, err) == UpdateWrite(old(rows), cat, fault)
    {
      var o := UpdateWrite(rows, cat, fault);
      rows, err := o.0, o.1;
    }

    method Delete(cat: Category, fault: Option<GoError>) returns (err: Option<Contract>)
      requires Valid()
      modifies this`rows
      ensures Valid()
      ensures (rows, err) == DeleteWrite(old(rows), cat, fault)
    {
      var o := DeleteWrite(rows, cat, fault);
      rows, err := o.0, o.1;
    }
  }

  // ---------------------------------------------------------------- Store

  /** The entity Store builds from the form; `now` is time.Now(). */
  function NewCategory(dto: CategoryFormData, now: int): (c: Category)
    ensures c.id == 0 && c.name == dto.name && c.description == dto.description && c.status == dto.status
    ensures c.isDefault == dto.GetIsDefault() && c.createdAt == Some(now) && c.updatedAt == Some(now)
  {
    Category(0, dto.name, dto.description, dto.status, dto.GetIsDefault(), Some(now), Some(now))
  }

  /** Store's rule: a default category must be published. */
  function StoreRule(c: Category): (e: Option<Contract>)
    ensures e.Some? <==> c.isDefault && !c.IsPublic()
    ensures e.Some? ==> e == Some(NewDomain(ErrDefaultCatMustPublish))
  {
    if c.isDefault && !c.IsPublic() then Some(NewDomain(ErrDefaultCatMustPublish)) else None
  }

  /** Store: the rule, Insert, then UpdateDefault for a default category. */
  function StoreOutcome(rows: Rows, nextId: int, dto: CategoryFormData, now: int,
                        storeFault: Option<GoError>, defaultFault: Option<GoError>): Outcome
  {
    var c := NewCategory(dto, now);
    if StoreRule(c).Some? then Outcome(rows, nextId, None, StoreRule(c))
    else
      var ins := InsertOutcome(rows, nextId, c, storeFault);
      if ins.err.Some? then ins.(cat := None)
      else if !ins.cat.value.isDefault then ins
      else
        var cleared := UpdateDefaultWrite(ins.rows, ins.cat.value.id, defaultFault);
        if cleared.1.Some? then Outcome(cleared.0, ins.nextId, None, cleared.1)
        else Outcome(cleared.0, ins.nextId, ins.cat, None)
  }

  method Store(repo: CategoryRepo, dto: CategoryFormData, now: int, storeFault: Option<GoError>, defaultFault: Option<GoError>)
    returns (cat: Option<Category>, err: Option<Contract>)
    requires repo.Valid()
    modifies repo
    ensures repo.Valid()
    ensures Outcome(repo.rows, repo.nextId, cat, err) == StoreOutcome(old(repo.rows), old(repo.nextId), dto, now, storeFault, defaultFault)
  {
    var c := NewCategory(dto, now);
    if c.isDefault && !c.IsPublic() {
      return None, Some(NewDomain(ErrDefaultCatMustPublish));
    }
    var ref := new Ref(c);
    err := repo.Store(ref, storeFault);
    if err.Some? {
      return None, err;
    }
    if ref.value.isDefault {
      err := repo.UpdateDefault(ref.value.id, defaultFault);
      if err.Some? {
        return None, err;
      }
    }
    return Some(ref.value), None;
  }

  /**
   * A successful Store returns the form's category under a fresh id, stored
   * under that id, and keeps both invariants; a refused one changes nothing.
   */
  lemma StoreSucceeds(rows: Rows, nextId: int, dto: CategoryFormData, now: int,
                      storeFault: Option<GoError>, defaultFault: Option<GoError>)
    requires forall id :: id in rows ==> id < nextId
    requires AtMostOneDefault(rows) && DefaultsPublic(rows)
    ensures var o := StoreOutcome(rows, nextId, dto, now, storeFault, defaultFault);
      (o.err.None? <==> storeFault.None? && !(dto.GetIsDefault() && !NewCategory(dto, now).IsPublic())
                         && (dto.GetIsDefault() ==> defaultFault.None?))
      && (o.err.None? ==> o.cat == Some(NewCategory(dto, now).(id := nextId)) && nextId in o.rows
                          && o.rows[nextId] == o.cat.value && AtMostOneDefault(o.rows) && DefaultsPublic(o.rows))
      && (StoreRule(NewCategory(dto, now)).Some? || storeFault.Some? ==> o.rows == rows && o.cat.None?)
  {
    var o := StoreOutcome(rows, nextId, dto, now, storeFault, defaultFault);
    var c := NewCategory(dto, now);
    if o.err.None? && c.isDefault {
      var stored := c.(id := nextId);
      assert o.rows == ClearDefaults(rows[nextId := stored], nextId);
    }
  }

  // ---------------------------------------------------------------- Update

  /** Update's rules as written: both look at the category as it was, not as the form makes it. */
  function UpdateRule(cat: Category, dto: CategoryFormData): (e: Option<Contract>)
    ensures e == Some(NewDomain(ErrDefaultCatMustPublish)) <==> cat.isDefault && dto.status == StatusDraft
    ensures e == Some(NewDomain(ErrDefaultCatMustSet)) <==> cat.isDefault && dto.status != StatusDraft && !dto.GetIsDefault()
    ensures e.None? <==> !cat.isDefault || (dto.status != StatusDraft && dto.GetIsDefault())
  {
    if cat.isDefault && dto.status == StatusDraft then Some(NewDomain(ErrDefaultCatMustPublish))
    else if cat.isDefault && !dto.GetIsDefault() then Some(NewDomain(ErrDefaultCatMustSet))
    else None
  }

  /** The publish rule applied to the category the form produces, as Store applies it. */
  function UpdateRuleIntended(cat: Category, dto: CategoryFormData): (e: Option<Contract>)
    ensures e == Some(NewDomain(ErrDefaultCatMustPublish)) <==> dto.GetIsDefault() && dto.status != StatusPublish
    ensures e.None? <==> (dto.GetIsDefault() ==> dto.status == StatusPublish) && (cat.isDefault ==> dto.GetIsDefault())
  {
    if dto.GetIsDefault() && dto.status != StatusPublish then Some(NewDomain(ErrDefaultCatMustPublish))
    else if cat.isDefault && !dto.GetIsDefault() then Some(NewDomain(ErrDefaultCatMustSet))
    else None
  }

  /** The caller's category after Update copied the form into it. */
  function Edited(cat: Category, dto: CategoryFormData, now: int): (c: Category)
    ensures c.id == cat.id && c.createdAt == cat.createdAt && c.updatedAt == Some(now)
    ensures c.name == dto.name && c.description == dto.description && c.status == dto.status && c.isDefault == dto.GetIsDefault()
  {
    cat.(name := dto.name, description := dto.description, status := dto.status, isDefault := dto.GetIsDefault(), updatedAt := Some(now))
  }

  /**
   * Update under a given rule: the rule, UpdateDefault when the form asks for
   * a default, the fields copied into the caller's category (even when the
   * repository then fails), and the repository's Update.
   */
  function UpdateOutcome(rule: Option<Contract>, rows: Rows, nextId: int, cat: Category, dto: CategoryFormData, now: int,
                         defaultFault: Option<GoError>, updateFault: Option<GoError>): Outcome
  {
    if rule.Some? then Outcome(rows, nextId, Some(cat), rule)
    else
      var cleared := if dto.GetIsDefault() then UpdateDefaultWrite(rows, cat.id, defaultFault) else (rows, None);
      if cleared.1.Some? then Outcome(rows, nextId, Some(cat), cleared.1)
      else
        var edited := Edited(cat, dto, now);
        var written := UpdateWrite(cleared.0, edited, updateFault);
        Outcome(written.0, nextId, Some(edited), written.1)
  }

  method Update(repo: CategoryRepo, cat: Ref<Category>, dto: CategoryFormData, now: int,
                defaultFault: Option<GoError>, updateFault: Option<GoError>) returns (err: Option<Contract>)
    requires repo.Valid()
    modifies repo`rows, cat
    ensures repo.Valid()
    ensures Outcome(repo.rows, repo.nextId, Some(cat.value), err)
      == UpdateOutcome(UpdateRule(old(cat.value), dto), old(repo.rows), repo.nextId, old(cat.value), dto, now, defaultFault, updateFault)
  {
    if cat.value.isDefault && dto.status == StatusDraft {
      return Some(NewDomain(ErrDefaultCatMustPublish));
    }
    if cat.value.isDefault && !dto.GetIsDefault() {
      return Some(NewDomain(ErrDefaultCatMustSet));
    }
    if dto.GetIsDefault() {
      err := repo.UpdateDefault(cat.value.id, defaultFault);
      if err.Some? {
        return err;
      }
    }
    cat.value := Edited(cat.value, dto, now);
    err := repo.Update(cat.value, updateFault);
  }

  /** Whatever the rule, and even when it fails, Update never leaves two default categories. */
  lemma UpdateKeepsOneDefault(rule: Option<Contract>, rows: Rows, nextId: int, cat: Category, dto: CategoryFormData, now: int,
                              defaultFault: Option<GoError>, updateFault: Option<GoError>)
    requires AtMostOneDefault(rows)
    ensures AtMostOneDefault(UpdateOutcome(rule, rows, nextId, cat, dto, now, defaultFault, updateFault).rows)
  {
    var o := UpdateOutcome(rule, rows, nextId, cat, dto, now, defaultFault, updateFault);
    if rule.None? && dto.GetIsDefault() && defaultFault.None? {
      var cleared := ClearDefaults(rows, cat.id);
      assert forall a :: a in cleared && cleared[a].isDefault ==> a == cat.id;
      assert forall a :: a in o.rows && o.rows[a].isDefault ==> a == cat.id;
    } else if rule.None? && !dto.GetIsDefault() {
      assert forall a :: a in o.rows && o.rows[a].isDefault ==> rows[a].isDefault;
    }
  }

  /**
   * A refused Update, or one whose UpdateDefault fails, leaves the table and
   * the caller's category as they were; a successful one copies the form into
   * the category and over its row.
   */
  lemma UpdateEffects(rows: Rows, nextId: int, cat: Category, dto: CategoryFormData, now: int,
                      defaultFault: Option<GoError>, updateFault: Option<GoError>)
    ensures var o := UpdateOutcome(UpdateRule(cat, dto), rows, nextId, cat, dto, now, defaultFault, updateFault);
      UpdateRule(cat, dto).Some? || (dto.GetIsDefault() && defaultFault.Some?) ==> o.rows == rows && o.cat == Some(cat) && o.err.Some?
    ensures var o := UpdateOutcome(UpdateRule(cat, dto), rows, nextId, cat, dto, now, defaultFault, updateFault);
      o.err.None? <==> UpdateRule(cat, dto).None? && (dto.GetIsDefault() ==> defaultFault.None?) && updateFault.None? && cat.id != 0
    ensures var o := UpdateOutcome(UpdateRule(cat, dto), rows, nextId, cat, dto, now, defaultFault, updateFault);
      o.err.None? ==> (o.cat == Some(Edited(cat, dto, now)) && o.rows.Keys == rows.Keys
        && (cat.id in rows ==> o.rows[cat.id] == Overlay(rows[cat.id], Edited(cat, dto, now))))
  {
  }

  /**
   * Update's publish rule looks at the old flag, so a draft category that is
   * not yet default can be made the default: the result is a default draft.
   */
  lemma DraftMadeDefault()
    ensures var draft := Category(1, "news", None, StatusDraft, false, None, None);
      var dto := CategoryFormData("news", None, StatusDraft, Some(true));
      var rows := map[1 := draft];
      var o := UpdateOutcome(UpdateRule(draft, dto), rows, 2, draft, dto, 0, None, None);
      DefaultsPublic(rows) && o.err.None? && !DefaultsPublic(o.rows)
  {
    var draft := Category(1, "news", None, StatusDraft, false, None, None);
    var dto := CategoryFormData("news", None, StatusDraft, Some(true));
    var rows := map[1 := draft];
    var o := UpdateOutcome(UpdateRule(draft, dto), rows, 2, draft, dto, 0, None, None);
    assert ClearDefaults(rows, 1) == rows;
    assert o.rows[1].isDefault && o.rows[1].status == StatusDraft;
  }

  /**
   * With the rule applied to the edited category, and with the caller holding
   * the stored row, Update keeps every default category published, failed or not.
   */
  lemma UpdateIntendedKeepsDefaultsPublic(rows: Rows, nextId: int, cat: Category, dto: CategoryFormData, now: int,
                                          defaultFault: Option<GoError>, updateFault: Option<GoError>)
    requires DefaultsPublic(rows)
    requires cat.id in rows ==> rows[cat.id] == cat
    ensures DefaultsPublic(UpdateOutcome(UpdateRuleIntended(cat, dto), rows, nextId, cat, dto, now, defaultFault, updateFault).rows)
  {
    var o := UpdateOutcome(UpdateRuleIntended(cat, dto), rows, nextId, cat, dto, now, defaultFault, updateFault);
    forall a | a in o.rows && o.rows[a].isDefault
      ensures o.rows[a].IsPublic()
    {
      if a != cat.id {
        assert o.rows[a].isDefault ==> rows[a].isDefault;
      }
    }
  }

  // ---------------------------------------------------------------- Delete

  /** Delete refuses the default category; otherwise it is the repository's Delete. */
  function DeleteOutcome(rows: Rows, cat: Category, fault: Option<GoError>): (o: (Rows, Option<Contract>))
  {
    if cat.isDefault then (rows, Some(NewDomain(ErrCannotDeleteDefaultCat))) else DeleteWrite(rows, cat, fault)
  }

  method Delete(repo: CategoryRepo, cat: Category, fault: Option<GoError>) returns (err: Option<Contract>)
    requires repo.Valid()
    modifies repo`rows
    ensures repo.Valid()
    ensures (repo.rows, err) == DeleteOutcome(old(repo.rows), cat, fault)
  {
    if cat.isDefault {
      return Some(NewDomain(ErrCannotDeleteDefaultCat));
    }
    err := repo.Delete(cat, fault);
  }

  /**
   * Delete removes at most the caller's row, keeps both invariants, and,
   * when the caller holds the stored row, never removes the default category.
   */
  lemma DeleteKeepsDefault(rows: Rows, cat: Category, fault: Option<GoError>)
    requires AtMostOneDefault(rows) && DefaultsPublic(rows)
    requires cat.id in rows ==> rows[cat.id] == cat
    ensures var o := DeleteOutcome(rows, cat, fault);
      o.0.Keys <= rows.Keys && rows.Keys - o.0.Keys <= {cat.id}
      && AtMostOneDefault(o.0) && DefaultsPublic(o.0)
      && (forall a :: a in rows && rows[a].isDefault ==> a in o.0)
      && (o.1.None? <==> !cat.isDefault && fault.None? && cat.id != 0)
  {
  }

  // ---------------------------------------------------------------- form rule

  /**
   * The form's `oneof=1 2` admits no public status, so no validated form
   * can create a default category: Store always refuses it.
   */
  lemma ValidatedDefaultNeverStored(rows: Rows, nextId: int, dto: CategoryFormData, now: int,
                                    storeFault: Option<GoError>, defaultFault: Option<GoError>)
    requires StatusAllowed(dto.status) && dto.GetIsDefault()
    ensures StoreOutcome(rows, nextId, dto, now, storeFault, defaultFault)
      == Outcome(rows, nextId, None, Some(NewDomain(ErrDefaultCatMustPublish)))
  {
  }

  /**
   * With the statuses the entity defines, a validated published form can
   * create the default category, and the default is stored under the new id.
   */
  lemma IntendedDefaultStored(rows: Rows, nextId: int, dto: CategoryFormData, now: int)
    requires StatusAllowedIntended(dto.status) && dto.status == StatusPublish && dto.GetIsDefault()
    requires forall id :: id in rows ==> id < nextId
    ensures var o := StoreOutcome(rows, nextId, dto, now, None, None);
      o.err.None? && o.cat.Some? && o.cat.value.isDefault && o.cat.value.IsPublic()
      && nextId in o.rows && o.rows[nextId].isDefault
      && forall a :: a in o.rows && o.rows[a].isDefault ==> a == nextId
  {
    var c := NewCategory(dto, now);
    var stored := c.(id := nextId);
    var o := StoreOutcome(rows, nextId, dto, now, None, None);
    assert o.rows == ClearDefaults(rows[nextId := stored], nextId);
  }
}
