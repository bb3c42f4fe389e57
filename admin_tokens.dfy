/**
 * internal/admin/usecase/token_manager.go: access tokens for admins. The
 * JWT signer, the clock and the token repository are collaborators: the
 * signer is a function, `now` is the Unix second CreateToken and CheckToken
 * read, and each repository call's answer is a parameter. What the manager
 * asks the repository to do is recorded as a sequence of calls.
 */
module AdminTokens {
  import opened GoTypes
  import opened Errors
  import opened GoStrconv
  import opened AccountEntities

  /** config.JWT */
  datatype JwtConfig = JwtConfig(secret: string, timeout: string)

  /** getConfig's three results: the secret and the timeout in minutes, or an error. */
  datatype Config = Config(secret: string, timeout: int) | ConfigError(err: GoError)

  const ErrSecretMismatch := GoError("jwt secret mismatch")
  const DefaultTimeout := "1440"
  /** The jwt library's sentinel errors. */
  const ErrTokenNotValidYet := GoError("token is not valid yet")
  const ErrTokenExpired := GoError("token is expired")

  /** The message of strconv's NumError for Atoi (the quoting of the input is not escaped here). */
  function AtoiError(s: string, e: NumError): GoError
  {
    GoError("strconv.Atoi: parsing \"" + s + "\": " + (if e == ErrSyntax then "invalid syntax" else "value out of range"))
  }

  /** The timeout text getConfig parses: "1440" when none is configured. */
  function TimeoutText(c: JwtConfig): (t: string)
    ensures c.timeout == "" ==> t == DefaultTimeout
    ensures c.timeout != "" ==> t == c.timeout
  {
    if c.timeout == "" then DefaultTimeout else c.timeout
  }

  function GetConfig(c: JwtConfig): (r: Config)
    ensures c.secret == "" ==> r == ConfigError(ErrSecretMismatch)
    ensures r.Config? <==> c.secret != "" && Atoi(TimeoutText(c)).err.None?
    ensures r.Config? ==> r.secret == c.secret && r.timeout == Atoi(TimeoutText(c)).n
    ensures c.secret != "" && Atoi(TimeoutText(c)).err.Some? ==>
      r == ConfigError(AtoiError(TimeoutText(c), Atoi(TimeoutText(c)).err.value))
  {
    if c.secret == "" then ConfigError(ErrSecretMismatch)
    else
      var parsed := Atoi(TimeoutText(c));
      if parsed.err.Some? then ConfigError(AtoiError(TimeoutText(c), parsed.err.value))
      else Config(c.secret, parsed.n)
  }

  /** With a secret, an empty timeout means a day; a timeout written in decimal is read back exactly. */
  lemma ConfigTimeouts(secret: string, minutes: int)
    requires secret != ""
    requires MinInt64 <= minutes <= MaxInt64
    ensures GetConfig(JwtConfig(secret, "")) == Config(secret, 1440)
    ensures GetConfig(JwtConfig(secret, FormatInt(minutes))) == Config(secret, minutes)
  {
    assert DefaultTimeout == FormatInt(1440);
    AtoiFormatInt(1440);
    AtoiFormatInt(minutes);
  }

  /** A timeout that is not a number is a configuration error, whatever the secret. */
  lemma ConfigRejectsText(secret: string)
    ensures GetConfig(JwtConfig(secret, "one day")).ConfigError?
  {
    assert !IsDigit("one day"[0]);
  }

  /** A repository call the manager makes. */
  datatype TokenCall = Create(token: AdminAccessToken) | Invalid(token: AdminAccessToken)

  /** A run of a manager method: a panic (a nil dereference) or its results and the calls it made. */
  datatype Run = Panic | Done(token: Option<AdminAccessToken>, err: Option<Contract>, calls: seq<TokenCall>)

  /** The JWT signer: the secret and the claims `sub`, `expired_in` and `expired_at` give a token or an error. */
  type Signer = (string, int, real, int) -> (string, Option<GoError>)

  /**
   * The token's lifetime in whole seconds, measured from the clock reading
   * `later` that CreateToken takes after computing the expiry. Clock readings
   * are whole Unix seconds here, so taking the floor changes nothing.
   */
  function ExpiredIn(expiredAt: int, later: int): (r: real)
    ensures r.Floor == expiredAt - later
  {
    (expiredAt - later) as real
  }

  /** The token row CreateToken hands to the repository. */
  function NewToken(signed: string, expiredAt: int, u: Admin, now: int): AdminAccessToken
  {
    AdminAccessToken(0, signed, expiredAt, 0.0, u.id, Some(now), None)
  }

  /**
   * CreateToken: configuration, signing, then the repository's Create, which
   * gives the row the id `newId`; the lifetime is set only after the row is
   * stored. A nil admin is dereferenced for its id once the configuration
   * is read. `now` is the clock reading for the creation time and the expiry,
   * `later` the one the remaining lifetime is measured from.
   */
  function CreateToken(c: JwtConfig, u: Option<Admin>, now: int, later: int, sign: Signer,
                       newId: int, createFault: Option<Contract>): (r: Run)
    ensures r.Panic? <==> GetConfig(c).Config? && u.None?
    ensures r.Done? ==> (r.token.Some? <==> r.err.None?) && |r.calls| <= 1
    ensures GetConfig(c).ConfigError? ==> r == Done(None, Some(NewDomain(GetConfig(c).err)), [])
    ensures r.Done? && r.token.Some? ==> (var expiredAt := now + GetConfig(c).timeout * 60;
      var expiredIn := ExpiredIn(expiredAt, later);
      var signed := sign(GetConfig(c).secret, u.value.id, expiredIn, expiredAt);
      u.Some? && signed.1.None?
      && r.calls == [Create(NewToken(signed.0, expiredAt, u.value, now))]
      && r.token.value == r.calls[0].token.(id := newId, expiredIn := expiredIn)
      && r.token.value.adminId == u.value.id && !r.token.value.IsExpired(now) == (GetConfig(c).timeout >= 0)
      && (later >= now ==> r.token.value.expiredIn <= (GetConfig(c).timeout * 60) as real))
  {
    match GetConfig(c)
    case ConfigError(e) => Done(None, Some(NewDomain(e)), [])
    case Config(secret, timeout) =>
      if u.None? then Panic
      else
        var expiredAt := now + timeout * 60;
        var expiredIn := ExpiredIn(expiredAt, later);
        var signed := sign(secret, u.value.id, expiredIn, expiredAt);
        if signed.1.Some? then Done(None, Some(NewDomain(signed.1.value)), [])
        else
          var row := NewToken(signed.0, expiredAt, u.value, now);
          if createFault.Some? then Done(None, createFault, [Create(row)])
          else Done(Some(row.(id := newId, expiredIn := expiredIn)), None, [Create(row)])
  }

  /** CheckToken: a lookup error, then a missing token, then an expired one; else the token. */
  function CheckToken(found: Option<AdminAccessToken>, findErr: Option<Contract>, now: int): (r: (Option<AdminAccessToken>, Option<Contract>))
    ensures r.0.Some? <==> r.1.None?
    ensures findErr.Some? ==> r.1 == findErr
    ensures findErr.None? && found.None? ==> r.1 == Some(NewDomain(ErrTokenNotValidYet))
    ensures findErr.None? && found.Some? && found.value.IsExpired(now) ==> r.1 == Some(NewDomain(ErrTokenExpired))
    ensures r.0.Some? ==> r.0 == found && !found.value.IsExpired(now)
  {
    if findErr.Some? then (None, findErr)
    else if found.None? then (None, Some(NewDomain(ErrTokenNotValidYet)))
    else if found.value.IsExpired(now) then (None, Some(NewDomain(ErrTokenExpired)))
    else (found, None)
  }

  /**
   * RefreshToken as written: the looked-up token is used without a nil check
   * and without CheckToken, so an unknown token is dereferenced.
   */
  function RefreshToken(found: Option<AdminAccessToken>, findErr: Option<Contract>, c: JwtConfig, now: int,
                        later: int, sign: Signer, newId: int, createFault: Option<Contract>,
                        invalidFault: Option<Contract>): Run
  {
    if findErr.Some? then Done(None, findErr, [])
    else if found.None? then Panic
    else
      var created := CreateToken(c, found.value.admin, now, later, sign, newId, createFault);
      if created.Panic? || created.err.Some? then created
      else if invalidFault.Some? then Done(None, invalidFault, created.calls + [Invalid(found.value)])
      else Done(created.token, None, created.calls + [Invalid(found.value)])
  }

  /** An unknown token makes RefreshToken panic instead of answering with an error. */
  lemma RefreshUnknownTokenPanics(c: JwtConfig, now: int, later: int, sign: Signer, newId: int,
                                  createFault: Option<Contract>, invalidFault: Option<Contract>)
    ensures RefreshToken(None, None, c, now, later, sign, newId, createFault, invalidFault) == Panic
  {
  }

  /**
   * The old token is invalidated only after the new one is stored: a failed
   * Create keeps the old token, and a failed Invalid leaves both.
   */
  lemma RefreshCreatesBeforeInvalidating(found: Option<AdminAccessToken>, findErr: Option<Contract>, c: JwtConfig, now: int,
                                         later: int, sign: Signer, newId: int, createFault: Option<Contract>,
                                         invalidFault: Option<Contract>)
    ensures var r := RefreshToken(found, findErr, c, now, later, sign, newId, createFault, invalidFault);
      r.Done? ==> (forall i :: 0 <= i < |r.calls| && r.calls[i].Invalid? ==>
                     i == 1 && r.calls[0].Create? && createFault.None? && r.calls[i].token == found.value)
    ensures var r := RefreshToken(found, findErr, c, now, later, sign, newId, createFault, invalidFault);
      r.Done? && r.err.None? ==> (|r.calls| == 2 && r.calls[0].Create? && r.calls[1] == Invalid(found.value)
        && r.token.Some? && r.token.value.adminId == found.value.admin.value.id)
  {
  }

  /** The intended RefreshToken: an unknown token is answered as CheckToken answers it. */
  function RefreshTokenChecked(found: Option<AdminAccessToken>, findErr: Option<Contract>, c: JwtConfig, now: int,
                               later: int, sign: Signer, newId: int, createFault: Option<Contract>,
                               invalidFault: Option<Contract>): Run
  {
    if findErr.None? && found.None? then Done(None, Some(NewDomain(ErrTokenNotValidYet)), [])
    else RefreshToken(found, findErr, c, now, later, sign, newId, createFault, invalidFault)
  }

  /**
   * With the nil check, RefreshToken never panics on a token whose admin
   * was loaded with it, and an unknown token is "not valid yet".
   */
  lemma RefreshCheckedNeverPanics(found: Option<AdminAccessToken>, findErr: Option<Contract>, c: JwtConfig, now: int,
                                  later: int, sign: Signer, newId: int, createFault: Option<Contract>,
                                  invalidFault: Option<Contract>)
    requires found.Some? ==> found.value.admin.Some?
    ensures var r := RefreshTokenChecked(found, findErr, c, now, later, sign, newId, createFault, invalidFault);
      r.Done? && (findErr.None? && found.None? ==> r == Done(None, Some(NewDomain(ErrTokenNotValidYet)), []))
  {
  }

  /** InvalidToken: CheckToken, then the repository's Invalid on the token it returned. */
  function InvalidToken(found: Option<AdminAccessToken>, findErr: Option<Contract>, now: int,
                        invalidFault: Option<Contract>): (r: (Option<Contract>, seq<TokenCall>))
  {
    var checked := CheckToken(found, findErr, now);
    if checked.1.Some? then (checked.1, []) else (invalidFault, [Invalid(checked.0.value)])
  }

  /** Only a present, unexpired token is ever invalidated, and then exactly that token. */
  lemma InvalidOnlyValidTokens(found: Option<AdminAccessToken>, findErr: Option<Contract>, now: int, invalidFault: Option<Contract>)
    ensures var r := InvalidToken(found, findErr, now, invalidFault);
      (|r.1| > 0 <==> findErr.None? && found.Some? && !found.value.IsExpired(now))
      && (|r.1| > 0 ==> r.1 == [Invalid(found.value)] && r.0 == invalidFault)
      && (|r.1| == 0 ==> r.0 == CheckToken(found, findErr, now).1 && r.0.Some?)
  {
  }
}
