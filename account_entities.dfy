/**
 * The account entities: the admin of internal/admin/entities/admin.go, the
 * user of internal/auth/entities/user.go (generic in its key type) and of
 * internal/auth/domain/entity/user.go (an int64 key) all have the same seven
 * fields and the same JSON projection, so one generic datatype stands for
 * the three; and the admin's access token of
 * internal/admin/entities/admin_access_token.go. Times are Unix seconds.
 */
module AccountEntities {
  import opened GoTypes

  const UserKeys: set<string> := {"name", "email", "last_login_at"}

  datatype User<K> = User(
    id: K,
    name: string,
    email: string,
    password: string,
    lastLoginAt: Option<int>,
    createdAt: Option<int>,
    updatedAt: Option<int>)
  {
    /** ToMap: name, email and last login only; the id and the password hash stay out. */
    function ToMap(): (m: map<string, Value>)
      ensures m.Keys == UserKeys
      ensures m["name"] == Str(name) && m["email"] == Str(email) && m["last_login_at"] == TimePtr(lastLoginAt)
    {
      map["name" := Str(name), "email" := Str(email), "last_login_at" := TimePtr(lastLoginAt)]
    }

    /** CheckPassword: the checker gets the stored hash first and the plain password second. */
    function CheckPassword(plain: string, check: (string, string) -> bool): (ok: bool)
      ensures ok == check(password, plain)
    {
      check(password, plain)
    }
  }

  type Admin = User<int>

  /** Two users that differ only in id, password or timestamps other than the last login show the same map. */
  lemma ToMapHidesSecrets<K>(u: User<K>, v: User<K>)
    ensures u.ToMap() == v.ToMap() <==> u.name == v.name && u.email == v.email && u.lastLoginAt == v.lastLoginAt
  {
    if u.ToMap() == v.ToMap() {
      assert u.ToMap()["name"] == v.ToMap()["name"];
      assert u.ToMap()["email"] == v.ToMap()["email"];
      assert u.ToMap()["last_login_at"] == v.ToMap()["last_login_at"];
    }
  }

  /** The answer depends on the stored hash and the plain password only. */
  lemma CheckPasswordSeesOnlyHash<K>(u: User<K>, v: User<K>, plain: string, check: (string, string) -> bool)
    requires u.password == v.password
    ensures u.CheckPassword(plain, check) == v.CheckPassword(plain, check)
    ensures u.CheckPassword(plain, (h: string, p: string) => h == p) <==> u.password == plain
  {
  }

  const TokenKeys: set<string> := {"access_token", "expired_in"}

  /** `expiredIn` is the float64 number of seconds the token is valid for. */
  datatype AdminAccessToken = AdminAccessToken(
    id: int,
    accessToken: string,
    expiredAt: int,
    expiredIn: real,
    adminId: int,
    createdAt: Option<int>,
    admin: Option<Admin>)
  {
    /** IsExpired at time `now`: strictly past its expiry second. */
    predicate IsExpired(now: int)
    {
      expiredAt < now
    }

    /** ToMap: the token and its lifetime only. */
    function ToMap(): (m: map<string, Value>)
      ensures m.Keys == TokenKeys
      ensures m["access_token"] == Str(accessToken) && m["expired_in"] == Float(expiredIn)
    {
      map["access_token" := Str(accessToken), "expired_in" := Float(expiredIn)]
    }
  }

  /**
   * A token is still valid in the second it expires, and once expired it
   * stays expired.
   */
  lemma ExpiryIsMonotone(t: AdminAccessToken, now: int, later: int)
    ensures !t.IsExpired(t.expiredAt)
    ensures t.IsExpired(now) <==> now > t.expiredAt
    ensures t.IsExpired(now) && now <= later ==> t.IsExpired(later)
  {
  }

  /** The token map does not reveal the admin, the admin id or the expiry instant. */
  lemma TokenMapHidesOwner(t: AdminAccessToken, u: AdminAccessToken)
    ensures t.ToMap() == u.ToMap() <==> t.accessToken == u.accessToken && t.expiredIn == u.expiredIn
  {
    if t.ToMap() == u.ToMap() {
      assert t.ToMap()["access_token"] == u.ToMap()["access_token"];
      assert t.ToMap()["expired_in"] == u.ToMap()["expired_in"];
    }
  }
}
