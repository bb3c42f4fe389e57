/**
 * internal/category/entities/category.go and the category form of
 * internal/category/transport/http/v1/form_data.go.
 */
module CategoryEntities {
  import opened GoTypes

  const StatusPublish := 10
  const StatusDraft := 11

  const CategoryKeys: set<string> := {"id", "name", "description", "status", "is_default", "created_at", "updated_at"}

  /** A category; the optional fields are Go pointers and times are Unix seconds. */
  datatype Category = Category(
    id: int,
    name: string,
    description: Option<string>,
    status: int,
    isDefault: bool,
    createdAt: Option<int>,
    updatedAt: Option<int>)
  {
    /** IsPublic: published, and nothing else counts as published. */
    predicate IsPublic()
    {
      status == StatusPublish
    }

    /** ToMap: the seven JSON keys, each holding its field. */
    function ToMap(): (m: map<string, Value>)
      ensures m.Keys == CategoryKeys
      ensures m["id"] == Int(id) && m["name"] == Str(name) && m["description"] == StrPtr(description)
      ensures m["status"] == Int(status) && m["is_default"] == Bool(isDefault)
      ensures m["created_at"] == TimePtr(createdAt) && m["updated_at"] == TimePtr(updatedAt)
    {
      map[
        "id" := Int(id),
        "name" := Str(name),
        "description" := StrPtr(description),
        "status" := Int(status),
        "is_default" := Bool(isDefault),
        "created_at" := TimePtr(createdAt),
        "updated_at" := TimePtr(updatedAt)]
    }
  }

  /** Only the publish status is public; a draft is not. */
  lemma PublicIffPublished(c: Category)
    ensures c.IsPublic() <==> c.status == StatusPublish
    ensures c.status == StatusDraft ==> !c.IsPublic()
  {
  }

  /** ToMap loses nothing: two categories with the same map are the same category. */
  lemma ToMapInjective(c: Category, d: Category)
    ensures c.ToMap() == d.ToMap() ==> c == d
  {
    if c.ToMap() == d.ToMap() {
      assert c.ToMap()["description"] == d.ToMap()["description"];
      assert c.ToMap()["created_at"] == d.ToMap()["created_at"];
      assert c.ToMap()["updated_at"] == d.ToMap()["updated_at"];
    }
  }

  /** The category form; `isDefault` is a pointer so that a missing field can be told from false. */
  datatype CategoryFormData = CategoryFormData(name: string, description: Option<string>, status: int, isDefault: Option<bool>)
  {
    /** GetIsDefault: true only for a pointer to true. */
    function GetIsDefault(): (b: bool)
      ensures b <==> isDefault == Some(true)
    {
      var b := true;
      if isDefault.None? || isDefault.value == false then false else b
    }
  }

  /** The form's status rule as written, `oneof=1 2`. */
  predicate StatusAllowed(status: int)
  {
    status == 1 || status == 2
  }

  /** The rule the entity's constants call for: published or draft. */
  predicate StatusAllowedIntended(status: int)
  {
    status == StatusPublish || status == StatusDraft
  }

  /** No status the form lets through is public, and every intended status is refused. */
  lemma AllowedStatusNeverPublic(c: Category)
    ensures StatusAllowed(c.status) ==> !c.IsPublic()
    ensures StatusAllowedIntended(c.status) ==> !StatusAllowed(c.status)
  {
  }
}
