/**
 * The category persistence model of internal/category/datasource/models and
 * of internal/category/data/model: both declare the same seven fields and
 * the same field-by-field mappings.
 */
module CategoryModels {
  import opened GoTypes
  import opened CategoryEntities

  datatype CategoryModel = CategoryModel(
    id: int,
    name: string,
    description: Option<string>,
    status: int,
    isDefault: bool,
    createdAt: Option<int>,
    updatedAt: Option<int>)
  {
    /** TableName: always "categories". */
    function TableName(): (t: string)
      ensures t == "categories"
    {
      "categories"
    }

    /** ToEntity: every field copied. */
    function ToEntity(): (e: Category)
      ensures e.id == id && e.name == name && e.description == description && e.status == status
      ensures e.isDefault == isDefault && e.createdAt == createdAt && e.updatedAt == updatedAt
    {
      Category(id, name, description, status, isDefault, createdAt, updatedAt)
    }

    /** FromEntity: every field copied back; the receiver plays no part. */
    function FromEntity(e: Category): (m: CategoryModel)
      ensures m.id == e.id && m.name == e.name && m.description == e.description && m.status == e.status
      ensures m.isDefault == e.isDefault && m.createdAt == e.createdAt && m.updatedAt == e.updatedAt
    {
      CategoryModel(e.id, e.name, e.description, e.status, e.isDefault, e.createdAt, e.updatedAt)
    }
  }

  /** Model to entity and back gives the model; entity to model and back gives the entity. */
  lemma RoundTrips(m: CategoryModel, any: CategoryModel, e: Category)
    ensures any.FromEntity(m.ToEntity()) == m
    ensures any.FromEntity(e).ToEntity() == e
  {
  }
}
