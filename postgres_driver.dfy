/**
 * pkg/database/postgres: the Postgres driver with functional options. The
 * object's fields are updated in place by the options, by Connect's retry
 * loop and by the transaction methods; each method is proved against the
 * pure specifications in DbBackend.
 */
module PostgresDriver {
  import opened GoTypes
  import opened DbBackend

  const DefaultMaxPoolSize := 1
  const DefaultConnAttempts := 10
  /** time.Second, in nanoseconds. */
  const DefaultConnTimeout := 1_000_000_000

  /** The functional options of options.go. */
  datatype PgOption =
    | MaxPoolSize(size: int)
    | ConnAttempts(attempts: int)
    | ConnTimeout(timeout: int)
    | SSLMode(enable: bool)
    | Timezone(tz: string)

  /** The fields the options may set. */
  datatype Settings = Settings(maxPoolSize: int, connAttempts: int, connTimeout: int, sslMode: string, timezone: string)

  const Defaults := Settings(DefaultMaxPoolSize, DefaultConnAttempts, DefaultConnTimeout, "disable", "UTC")

  /** One option: it sets its own field and no other. */
  function Set(s: Settings, o: PgOption): (r: Settings)
    ensures r.maxPoolSize == (if o.MaxPoolSize? then o.size else s.maxPoolSize)
    ensures r.connAttempts == (if o.ConnAttempts? then o.attempts else s.connAttempts)
    ensures r.connTimeout == (if o.ConnTimeout? then o.timeout else s.connTimeout)
    ensures r.sslMode == (if o.SSLMode? then (if o.enable then "enable" else "disable") else s.sslMode)
    ensures r.timezone == (if o.Timezone? then o.tz else s.timezone)
  {
    match o
    case MaxPoolSize(size) => s.(maxPoolSize := size)
    case ConnAttempts(attempts) => s.(connAttempts := attempts)
    case ConnTimeout(timeout) => s.(connTimeout := timeout)
    case SSLMode(enable) => s.(sslMode := if enable then "enable" else "disable")
    case Timezone(tz) => s.(timezone := tz)
  }

  /** The options applied in order. */
  function SetAll(s: Settings, os: seq<PgOption>): Settings
    decreases |os|
  {
    if |os| == 0 then s else SetAll(Set(s, os[0]), os[1..])
  }

  /** Applying one more option sets on top of what the earlier ones left. */
  lemma {:induction false} SetAllSnoc(s: Settings, os: seq<PgOption>, o: PgOption)
    ensures SetAll(s, os + [o]) == Set(SetAll(s, os), o)
    decreases |os|
  {
    if |os| > 0 {
      assert (os + [o])[1..] == os[1..] + [o];
      SetAllSnoc(Set(s, os[0]), os[1..], o);
    } else {
      assert SetAll(Set(s, o), []) == Set(s, o);
    }
  }

  /** The last ConnAttempts option decides the attempts; without one the default stays. */
  lemma {:induction false} LastConnAttemptsWins(s: Settings, os: seq<PgOption>)
    ensures (forall i :: 0 <= i < |os| ==> !os[i].ConnAttempts?) ==> SetAll(s, os).connAttempts == s.connAttempts
    ensures forall i :: (0 <= i < |os| && os[i].ConnAttempts? && (forall j :: i < j < |os| ==> !os[j].ConnAttempts?)
      ==> SetAll(s, os).connAttempts == os[i].attempts)
    decreases |os|
  {
    if |os| > 0 {
      var init := os[..|os| - 1];
      var o := os[|os| - 1];
      assert os == init + [o];
      SetAllSnoc(s, init, o);
      LastConnAttemptsWins(s, init);
      forall i | 0 <= i < |os| && os[i].ConnAttempts? && (forall j :: i < j < |os| ==> !os[j].ConnAttempts?)
        ensures SetAll(s, os).connAttempts == os[i].attempts
      {
        if i < |os| - 1 {
          assert init[i] == os[i];
          assert forall j :: i < j < |init| ==> init[j] == os[j];
        }
      }
    }
  }

  class Postgres {
    var maxPoolSize: int
    var connAttempts: int
    /** time.Duration, in nanoseconds; the pause between attempts is not modelled. */
    var connTimeout: int
    var sslMode: string
    var timezone: string

    var cfg: DBConn
    var isTransaction: bool
    var db: Option<Handle>
    var tx: Option<Handle>
    /** The limit `SetMaxOpenConns` gave the pool behind `db`, once Connect got that far. */
    var maxOpenConns: Option<int>

    function Config(): Settings
      reads this
    {
      Settings(maxPoolSize, connAttempts, connTimeout, sslMode, timezone)
    }

    function State(): TxState
      reads this
    {
      TxState(isTransaction, db, tx)
    }

    /** The connection string Connect passes to every attempt. */
    function Dsn(): string
      reads this
    {
      "host=" + cfg.host + " user=" + cfg.username + " password=" + cfg.password
        + " dbname=" + cfg.databaseName + " port=" + cfg.port
        + " sslmode=" + sslMode + " TimeZone=" + timezone
    }

    /** New: the defaults, then each option in order; no connection and no transaction yet. */
    constructor (cfg: DBConn, options: seq<PgOption>)
      ensures Config() == SetAll(Defaults, options)
      ensures this.cfg == cfg && State() == TxState(false, None, None) && maxOpenConns.None?
    {
      maxPoolSize := DefaultMaxPoolSize;
      connAttempts := DefaultConnAttempts;
      connTimeout := DefaultConnTimeout;
      sslMode := "disable";
      timezone := "UTC";
      this.cfg := cfg;
      isTransaction := false;
      db := None;
      tx := None;
      maxOpenConns := None;
      new;
      for i := 0 to |options|
        invariant Config() == SetAll(Defaults, options[..i])
        invariant this.cfg == cfg && State() == TxState(false, None, None) && maxOpenConns.None?
      {
        assert options[..i + 1] == options[..i] + [options[i]];
        SetAllSnoc(Defaults, options[..i], options[i]);
        Apply(options[i]);
      }
      assert options[..|options|] == options;
    }

    /** One option closure run on the driver: it touches its own setting and nothing else. */
    method Apply(o: PgOption)
      modifies this`maxPoolSize, this`connAttempts, this`connTimeout, this`sslMode, this`timezone
      ensures Config() == Set(old(Config()), o)
    {
      match o
      case MaxPoolSize(size) => maxPoolSize := size;
      case ConnAttempts(attempts) => connAttempts := attempts;
      case ConnTimeout(timeout) => connTimeout := timeout;
      case SSLMode(enable) => sslMode := if enable then "enable" else "disable";
      case Timezone(tz) => timezone := tz;
    }

    /**
     * Close: with a handle, the pool's `DB()` and then its `Close()`; the first
     * error is returned. `dbErr` and `closeErr` are the backend's answers.
     */
    method Close(dbErr: Option<GoError>, closeErr: Option<GoError>) returns (err: Option<GoError>)
      ensures db.None? ==> err.None?
      ensures db.Some? ==> err == (if dbErr.Some? then dbErr else closeErr)
    {
      if db.Some? {
        if dbErr.Some? {
          return dbErr;
        }
        if closeErr.Some? {
          return closeErr;
        }
      }
      return None;
    }

    /**
     * Connect: the k-th `gorm.Open` with the DSN answers `open(Dsn(), k)`;
     * `poolErr` is the answer of `p.db.DB()` afterwards. When no attempt is
     * left the loop does not run and `p.db.DB()` is called on the old handle,
     * so that handle must exist.
     */
    method Connect(open: (string, nat) -> Attempt, poolErr: Option<GoError>) returns (err: Option<GoError>)
      requires connAttempts > 0 || db.Some?
      requires OpensHandle(Tries(open, Dsn()))
      modifies this`db, this`connAttempts, this`maxOpenConns
      ensures var c := Retry(Tries(open, Dsn()), old(connAttempts), old(db));
        db == c.db && connAttempts == c.attemptsLeft
        && (c.err.Some? ==> err == c.err && maxOpenConns == old(maxOpenConns))
        && (c.err.None? ==> (db.Some? && err == poolErr
              && maxOpenConns == (if poolErr.None? then Some(maxPoolSize) else old(maxOpenConns))))
    {
      var dsn := Dsn();
      var c := RetryLoop(Tries(open, dsn), connAttempts, db);
      db, connAttempts, err := c.db, c.attemptsLeft, c.err;
      if err.None? {
        if poolErr.Some? {
          err := poolErr;
        } else {
          maxOpenConns := Some(maxPoolSize);
        }
      }
    }

    /** Begin: `p.db.Begin()` on the pool, whose answer is `began` and `beginErr`. */
    method Begin(began: Handle, beginErr: Option<GoError>) returns (err: Option<GoError>)
      requires db.Some?
      modifies this`isTransaction, this`tx
      ensures Step(State(), err) == AfterBegin(old(State()), began, beginErr)
    {
      if beginErr.Some? {
        return beginErr;
      }
      isTransaction := true;
      tx := Some(began);
      return None;
    }

    /** Commit: `commitErr` is the answer of `p.tx.Commit()`. */
    method Commit(commitErr: Option<GoError>) returns (err: Option<GoError>)
      modifies this`isTransaction, this`tx
      ensures Step(State(), err) == AfterFinish(old(State()), commitErr)
    {
      if tx.None? || !isTransaction {
        return Some(ErrTxNotStarted);
      }
      if commitErr.Some? {
        return commitErr;
      }
      isTransaction := false;
      tx := None;
      return None;
    }

    /** Rollback: `rollbackErr` is the answer of `p.tx.Rollback()`. */
    method Rollback(rollbackErr: Option<GoError>) returns (err: Option<GoError>)
      modifies this`isTransaction, this`tx
      ensures Step(State(), err) == AfterFinish(old(State()), rollbackErr)
    {
      if tx.None? || !isTransaction {
        return Some(ErrTxNotStarted);
      }
      if rollbackErr.Some? {
        return rollbackErr;
      }
      isTransaction := false;
      tx := None;
      return None;
    }

    predicate IsTransaction()
      reads this
    {
      isTransaction
    }

    /** GetDB: the transaction while one is open, else the pool; a nil handle would be dereferenced. */
    function GetDB(): (h: Handle)
      reads this
      requires isTransaction ==> tx.Some?
      requires !isTransaction ==> db.Some?
      ensures Current(State()) == Some(h)
    {
      if IsTransaction() then tx.value else db.value
    }
  }
}
