/**
 * The persistence models of the accounts: the admin and admin access token
 * of internal/admin/datasource/models/models.go, and the user of
 * internal/auth/datasource/models/user.go (generic in its key) and of
 * internal/auth/data/model/user.go (an int64 key). The three account models
 * share one generic datatype; only their tables differ.
 */
module AccountModels {
  import opened GoTypes
  import opened AccountEntities

  const AdminsTable := "admins"
  const UsersTable := "users"
  const AdminAccessTokensTable := "admin_access_tokens"

  datatype UserModel<K> = UserModel(
    id: K,
    name: string,
    email: string,
    password: string,
    lastLoginAt: Option<int>,
    createdAt: Option<int>,
    updatedAt: Option<int>)
  {
    /** ToEntity: every field, the password hash included. */
    function ToEntity(): (e: User<K>)
      ensures e.id == id && e.name == name && e.email == email && e.password == password
      ensures e.lastLoginAt == lastLoginAt && e.createdAt == createdAt && e.updatedAt == updatedAt
    {
      User(id, name, email, password, lastLoginAt, createdAt, updatedAt)
    }

    /** FromEntity: every field back; the receiver plays no part. */
    function FromEntity(e: User<K>): (m: UserModel<K>)
      ensures m.id == e.id && m.name == e.name && m.email == e.email && m.password == e.password
      ensures m.lastLoginAt == e.lastLoginAt && m.createdAt == e.createdAt && m.updatedAt == e.updatedAt
    {
      UserModel(e.id, e.name, e.email, e.password, e.lastLoginAt, e.createdAt, e.updatedAt)
    }
  }

  /** For every key type, both round trips are the identity. */
  lemma UserRoundTrips<K>(m: UserModel<K>, any: UserModel<K>, e: User<K>)
    ensures any.FromEntity(m.ToEntity()) == m
    ensures any.FromEntity(e).ToEntity() == e
  {
  }

  type AdminModel = UserModel<int>

  datatype AdminAccessTokenModel = AdminAccessTokenModel(
    id: int,
    accessToken: string,
    expiredAt: int,
    adminId: int,
    createdAt: Option<int>,
    admin: Option<AdminModel>)
  {
    /** ToEntity: the fields, the preloaded admin converted when present; ExpiredIn starts at zero. */
    function ToEntity(): (e: AdminAccessToken)
      ensures e.id == id && e.accessToken == accessToken && e.expiredAt == expiredAt
      ensures e.adminId == adminId && e.createdAt == createdAt && e.expiredIn == 0.0
      ensures e.admin.Some? <==> admin.Some?
      ensures admin.Some? ==> e.admin.value == admin.value.ToEntity()
    {
      AdminAccessToken(id, accessToken, expiredAt, 0.0, adminId, createdAt,
        if admin.Some? then Some(admin.value.ToEntity()) else None)
    }

    /** FromEntity: the stored fields; the admin association and ExpiredIn are dropped. */
    function FromEntity(e: AdminAccessToken): (m: AdminAccessTokenModel)
      ensures m.id == e.id && m.accessToken == e.accessToken && m.expiredAt == e.expiredAt
      ensures m.adminId == e.adminId && m.createdAt == e.createdAt && m.admin.None?
    {
      AdminAccessTokenModel(e.id, e.accessToken, e.expiredAt, e.adminId, e.createdAt, None)
    }
  }

  /**
   * The token round trips are exact on everything but the admin (and the
   * entity's ExpiredIn, which has no column): a model loses its preloaded
   * admin, an entity its admin and its lifetime.
   */
  lemma TokenRoundTrips(m: AdminAccessTokenModel, any: AdminAccessTokenModel, e: AdminAccessToken)
    ensures any.FromEntity(m.ToEntity()) == m.(admin := None)
    ensures any.FromEntity(e).ToEntity() == e.(admin := None, expiredIn := 0.0)
    ensures m.admin.Some? ==> any.FromEntity(m.ToEntity()) != m
  {
  }
}
