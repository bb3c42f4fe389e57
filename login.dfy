/**
 * The login flow of the three account usecases:
 * internal/admin/usecase/usecase.go, internal/auth/usecase/usecase.go and
 * internal/auth/domain/usecase/user_usecase.go. They differ only in the key
 * type, in the token type and in how the last-login time reaches the
 * repository, so one generic function stands for all three. The repository
 * and the token manager are collaborators: their answers are parameters and
 * what the usecase asks of them is recorded as a sequence of calls.
 */
module Login {
  import opened GoTypes
  import opened Errors
  import opened AccountEntities
  import AdminTokens

  const ErrEmailNotFound := GoError("email not found")
  const ErrPasswordNotMatch := GoError("password not match")

  /**
   * How the login time is handed over: the admin and auth usecases set
   * `LastLoginAt` on the user before UpdateLastLoginTime; the domain usecase
   * passes the time as an argument and leaves the user as it was read.
   */
  datatype Stamping = SetsField | PassesTime

  /** A call the usecase makes on its repository or its token manager. */
  datatype LoginCall<K> =
    | GetUser(email: string)
    | CreateToken(user: User<K>)
    | UpdateLastLoginTime(user: User<K>, at: int)

  /** A collaborator's answer: a value, or an error that aborts the usecase. */
  datatype Answer<T> = Answer(value: Option<T>, err: Option<Contract>)

  datatype LoginResult<K, T> = LoginResult(token: Option<T>, err: Option<Contract>, calls: seq<LoginCall<K>>)

  /** The user handed to UpdateLastLoginTime. */
  function Stamped<K>(style: Stamping, u: User<K>, now: int): (v: User<K>)
    ensures v.id == u.id && v.password == u.password && v.email == u.email
    ensures style == SetsField ==> v.lastLoginAt == Some(now)
    ensures style == PassesTime ==> v == u
  {
    if style == SetsField then u.(lastLoginAt := Some(now)) else u
  }

  /**
   * Login: GetUser by email, a nil user is "email not found", the password
   * check, CreateToken, then the last-login update; any error ends the run.
   * `issue(u)` is the token manager's answer for `u`, `now` the clock.
   */
  function Login<K, T>(style: Stamping, email: string, password: string,
                       found: Option<User<K>>, findErr: Option<Contract>, check: (string, string) -> bool,
                       issue: User<K> -> Answer<T>, now: int, updateErr: Option<Contract>): (r: LoginResult<K, T>)
    ensures 1 <= |r.calls| <= 3 && r.calls[0] == GetUser(email)
    ensures r.err.None? <==> findErr.None? && found.Some? && found.value.CheckPassword(password, check)
                             && issue(found.value).err.None? && updateErr.None?
    ensures r.err.None? ==> r.token == issue(found.value).value
    ensures r.err.Some? ==> r.token.None?
    // a token is asked for only for the user found and only once the password matched
    ensures |r.calls| >= 2 ==> (found.Some? && findErr.None? && found.value.CheckPassword(password, check)
                                && r.calls[1] == CreateToken(found.value))
    // the login time is recorded only after the token was issued
    ensures |r.calls| == 3 ==> (issue(found.value).err.None?
                                && r.calls[2] == UpdateLastLoginTime(Stamped(style, found.value, now), now))
    ensures r.err.None? ==> |r.calls| == 3
  {
    var calls := [GetUser(email)];
    if findErr.Some? then LoginResult(None, findErr, calls)
    else if found.None? then LoginResult(None, Some(NewDomain(ErrEmailNotFound)), calls)
    else
      var user := found.value;
      if !user.CheckPassword(password, check) then LoginResult(None, Some(NewDomain(ErrPasswordNotMatch)), calls)
      else
        var token := issue(user);
        var calls := calls + [CreateToken(user)];
        if token.err.Some? then LoginResult(None, token.err, calls)
        else
          var stamped := Stamped(style, user, now);
          var calls := calls + [UpdateLastLoginTime(stamped, now)];
          if updateErr.Some? then LoginResult(None, updateErr, calls)
          else LoginResult(token.value, None, calls)
  }

  /** The error answers, each with how far the usecase got. */
  lemma LoginFailures<K, T>(style: Stamping, email: string, password: string,
                             found: Option<User<K>>, findErr: Option<Contract>, check: (string, string) -> bool,
                             issue: User<K> -> Answer<T>, now: int, updateErr: Option<Contract>)
    ensures var r := Login(style, email, password, found, findErr, check, issue, now, updateErr);
      (findErr.Some? ==> r == LoginResult(None, findErr, [GetUser(email)]))
      && (findErr.None? && found.None? ==> r == LoginResult(None, Some(NewDomain(ErrEmailNotFound)), [GetUser(email)]))
      && (findErr.None? && found.Some? && !check(found.value.password, password) ==>
            r == LoginResult(None, Some(NewDomain(ErrPasswordNotMatch)), [GetUser(email)]))
      && (findErr.None? && found.Some? && check(found.value.password, password) && issue(found.value).err.Some? ==>
            r == LoginResult(None, issue(found.value).err, [GetUser(email), CreateToken(found.value)]))
      && ((findErr.None? && found.Some? && check(found.value.password, password) && issue(found.value).err.None?
           && updateErr.Some?) ==> r.token.None? && r.err == updateErr && |r.calls| == 3)
  {
  }

  /**
   * The three usecases agree on every answer and on what is called; they
   * differ only in the user the last-login update receives.
   */
  lemma StampingOnlyChangesTheUpdate<K, T>(email: string, password: string,
                                          found: Option<User<K>>, findErr: Option<Contract>, check: (string, string) -> bool,
                                          issue: User<K> -> Answer<T>, now: int, updateErr: Option<Contract>)
    ensures var a := Login(SetsField, email, password, found, findErr, check, issue, now, updateErr);
      var b := Login(PassesTime, email, password, found, findErr, check, issue, now, updateErr);
      a.token == b.token && a.err == b.err && |a.calls| == |b.calls| && a.calls[..|a.calls| - 1] == b.calls[..|b.calls| - 1]
      && (|a.calls| == 3 ==> (a.calls[2].UpdateLastLoginTime? && b.calls[2].UpdateLastLoginTime?
            && a.calls[2].at == b.calls[2].at && a.calls[2].user.id == b.calls[2].user.id))
  {
  }

  /** The admin usecase's issuer: the token manager's CreateToken for the user, which never panics. */
  function IssueAdminToken(c: AdminTokens.JwtConfig, now: int, later: int, sign: AdminTokens.Signer,
                           newId: int, createFault: Option<Contract>, u: Admin): (a: Answer<AdminAccessToken>)
    ensures a.value.Some? <==> a.err.None?
    ensures a.value.Some? ==> a.value.value.adminId == u.id && a.value.value.id == newId
  {
    var run := AdminTokens.CreateToken(c, Some(u), now, later, sign, newId, createFault);
    if run.Done? then Answer(run.token, run.err) else assert false; Answer(None, None)
  }

  /**
   * An admin who logs in gets a token of their own that is not expired at
   * the login time (for a non-negative timeout), and their last login is
   * that time.
   */
  lemma AdminLoginIssuesOwnToken(email: string, password: string, found: Option<Admin>, findErr: Option<Contract>,
                                 check: (string, string) -> bool, c: AdminTokens.JwtConfig, now: int, later: int,
                                 sign: AdminTokens.Signer, newId: int, createFault: Option<Contract>, updateErr: Option<Contract>)
    requires AdminTokens.GetConfig(c).Config? && AdminTokens.GetConfig(c).timeout >= 0
    ensures var r := Login(SetsField, email, password, found, findErr, check,
                           u => IssueAdminToken(c, now, later, sign, newId, createFault, u), now, updateErr);
      r.err.None? ==> (r.token.Some? && r.token.value.adminId == found.value.id && !r.token.value.IsExpired(now)
                       && r.calls[2].user.lastLoginAt == Some(now))
  {
    var r := Login(SetsField, email, password, found, findErr, check,
                   u => IssueAdminToken(c, now, later, sign, newId, createFault, u), now, updateErr);
    if r.err.None? {
      var run := AdminTokens.CreateToken(c, Some(found.value), now, later, sign, newId, createFault);
      assert run.Done? && run.token == r.token;
    }
  }

  /**
   * The admin usecase's GetProfile: CheckToken, then GetUserById with the
   * token's admin id, whose answer is `byId`. `lookedUp` is the id asked for.
   */
  function AdminGetProfile(found: Option<AdminAccessToken>, findErr: Option<Contract>, now: int,
                           byId: int -> Answer<Admin>): (r: (Answer<Admin>, Option<int>))
    ensures r.1.Some? <==> AdminTokens.CheckToken(found, findErr, now).1.None?
    ensures r.1.Some? ==> r.1.value == found.value.adminId && !found.value.IsExpired(now)
                          && r.0 == (if byId(r.1.value).err.Some? then Answer(None, byId(r.1.value).err) else byId(r.1.value))
    ensures r.1.None? ==> r.0 == Answer(None, AdminTokens.CheckToken(found, findErr, now).1)
  {
    var checked := AdminTokens.CheckToken(found, findErr, now);
    if checked.1.Some? then (Answer(None, checked.1), None)
    else
      var id := checked.0.value.adminId;
      var user := byId(id);
      if user.err.Some? then (Answer(None, user.err), Some(id)) else (user, Some(id))
  }

  /** An expired or unknown token never reaches the user lookup. */
  lemma ProfileNeedsLiveToken(found: Option<AdminAccessToken>, findErr: Option<Contract>, now: int, byId: int -> Answer<Admin>)
    ensures found.None? || found.value.IsExpired(now) || findErr.Some? ==>
      AdminGetProfile(found, findErr, now, byId).1.None? && AdminGetProfile(found, findErr, now, byId).0.err.Some?
  {
  }
}
