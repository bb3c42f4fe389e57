/**
 * pkg/database/driver.go: the older Postgres and MySQL drivers. They take no
 * options; Connect reads its settings from the environment through viper,
 * given here as `env` (strings) and `envInt` (integers).
 */
module LegacyDriver {
  import opened GoTypes
  import opened DbBackend

  const PostgresDefaultMaxPoolSize := 1
  const PostgresDefaultConnAttempts := 10
  const MySqlDefaultMaxConnection := 1
  const MySqlDefaultConnAttempts := 10
  /** time.Second, in nanoseconds. */
  const DefaultConnTimeout := 1_000_000_000

  /** The environment keys the drivers read. */
  const PostgresMaxPoolSizeKey := "POSTGRES_DB_MAX_POOL_SIZE"

  /** A zero setting from the environment falls back to the default. */
  function OrDefault(v: int, default: int): (r: int)
    ensures v == 0 ==> r == default
    ensures v != 0 ==> r == v
  {
    if v == 0 then default else v
  }

  class Postgres {
    var connAttempts: int
    /** time.Duration, in nanoseconds; the pause between attempts is not modelled. */
    var connTimeout: int
    var isTransaction: bool
    var db: Option<Handle>
    var tx: Option<Handle>
    /** The limit `SetMaxOpenConns` gave the pool behind `db`, once Connect got that far. */
    var maxOpenConns: Option<int>

    function State(): TxState
      reads this
    {
      TxState(isTransaction, db, tx)
    }

    /** newPostgres: ten attempts a second apart, nothing connected. */
    constructor ()
      ensures connAttempts == PostgresDefaultConnAttempts && connTimeout == DefaultConnTimeout
      ensures State() == TxState(false, None, None) && maxOpenConns.None?
    {
      connAttempts := PostgresDefaultConnAttempts;
      connTimeout := DefaultConnTimeout;
      isTransaction := false;
      db := None;
      tx := None;
      maxOpenConns := None;
    }

    method Close(dbErr: Option<GoError>, closeErr: Option<GoError>) returns (err: Option<GoError>)
      ensures db.None? ==> err.None?
      ensures db.Some? ==> err == (if dbErr.Some? then dbErr else closeErr)
    {
      if db.Some? {
        if dbErr.Some? {
          return dbErr;
        }
        if closeErr.Some? {
          return closeErr;
        }
      }
      return None;
    }

    /** POSTGRES_DB_MAX_POOL_SIZE, with 0 meaning the default. */
    static function PoolSize(envInt: string -> int): int
    {
      OrDefault(envInt(PostgresMaxPoolSizeKey), PostgresDefaultMaxPoolSize)
    }

    static function Dsn(env: string -> string): string
    {
      "host=" + env("POSTGRES_DB_HOST") + " user=" + env("POSTGRES_DB_USER")
        + " password=" + env("POSTGRES_DB_PASSWORD") + " dbname=" + env("POSTGRES_DB_NAME")
        + " port=" + env("POSTGRES_DB_PORT")
    }

    /**
     * Connect: as the newer driver, with the pool size taken from
     * POSTGRES_DB_MAX_POOL_SIZE (0 meaning 1) and the DSN from the environment.
     */
    method Connect(env: string -> string, envInt: string -> int, open: (string, nat) -> Attempt, poolErr: Option<GoError>)
      returns (err: Option<GoError>)
      requires connAttempts > 0 || db.Some?
      requires OpensHandle(Tries(open, Dsn(env)))
      modifies this`db, this`connAttempts, this`maxOpenConns
      ensures var c := Retry(Tries(open, Dsn(env)), old(connAttempts), old(db));
        db == c.db && connAttempts == c.attemptsLeft
        && (c.err.Some? ==> err == c.err && maxOpenConns == old(maxOpenConns))
        && (c.err.None? ==> (db.Some? && err == poolErr
              && maxOpenConns == (if poolErr.None? then Some(PoolSize(envInt)) else old(maxOpenConns))))
    {
      var maxPoolSize := PoolSize(envInt);
      var dsn := Dsn(env);
      var c := RetryLoop(Tries(open, dsn), connAttempts, db);
      db, connAttempts, err := c.db, c.attemptsLeft, c.err;
      if err.None? {
        if poolErr.Some? {
          err := poolErr;
        } else {
          maxOpenConns := Some(maxPoolSize);
        }
      }
    }

    method Begin(began: Handle, beginErr: Option<GoError>) returns (err: Option<GoError>)
      requires db.Some?
      modifies this`isTransaction, this`tx
      ensures Step(State(), err) == AfterBegin(old(State()), began, beginErr)
    {
      if beginErr.Some? {
        return beginErr;
      }
      isTransaction := true;
      tx := Some(began);
      return None;
    }

    method Commit(commitErr: Option<GoError>) returns (err: Option<GoError>)
      modifies this`isTransaction, this`tx
      ensures Step(State(), err) == AfterFinish(old(State()), commitErr)
    {
      if tx.None? || !isTransaction {
        return Some(ErrTxNotStarted);
      }
      if commitErr.Some? {
        return commitErr;
      }
      isTransaction := false;
      tx := None;
      return None;
    }

    method Rollback(rollbackErr: Option<GoError>) returns (err: Option<GoError>)
      modifies this`isTransaction, this`tx
      ensures Step(State(), err) == AfterFinish(old(State()), rollbackErr)
    {
      if tx.None? || !isTransaction {
        return Some(ErrTxNotStarted);
      }
      if rollbackErr.Some? {
        return rollbackErr;
      }
      isTransaction := false;
      tx := None;
      return None;
    }

    predicate IsTransaction()
      reads this
    {
      isTransaction
    }

    function GetDB(): (h: Handle)
      reads this
      requires isTransaction ==> tx.Some?
      requires !isTransaction ==> db.Some?
      ensures Current(State()) == Some(h)
    {
      if IsTransaction() then tx.value else db.value
    }
  }

  class MySql {
    var connAttempts: int
    /** time.Duration, in nanoseconds; the pause between attempts is not modelled. */
    var connTimeout: int
    var isTransaction: bool
    var db: Option<Handle>
    var tx: Option<Handle>

    function State(): TxState
      reads this
    {
      TxState(isTransaction, db, tx)
    }

    /** newMySql: ten attempts a second apart, nothing connected. */
    constructor ()
      ensures connAttempts == MySqlDefaultConnAttempts && connTimeout == DefaultConnTimeout
      ensures State() == TxState(false, None, None)
    {
      connAttempts := MySqlDefaultConnAttempts;
      connTimeout := DefaultConnTimeout;
      isTransaction := false;
      db := None;
      tx := None;
    }

    method Close(dbErr: Option<GoError>, closeErr: Option<GoError>) returns (err: Option<GoError>)
      ensures db.None? ==> err.None?
      ensures db.Some? ==> err == (if dbErr.Some? then dbErr else closeErr)
    {
      if db.Some? {
        if dbErr.Some? {
          return dbErr;
        }
        if closeErr.Some? {
          return closeErr;
        }
      }
      return None;
    }

    static function Dsn(env: string -> string): string
    {
      env("MYSQL_DB_USER") + ":" + env("MYSQL_DB_PASSWORD") + "@tcp(" + env("MYSQL_DB_HOST")
        + ":" + env("MYSQL_DB_PORT") + ")/" + env("MYSQL_DB_NAME")
    }

    /**
     * Connect: MYSQL_DB_MAX_CONNECTION is read and defaulted but never used,
     * so only the DSN depends on the environment. With no attempt left it
     * returns nil.
     */
    method Connect(env: string -> string, open: (string, nat) -> Attempt) returns (err: Option<GoError>)
      modifies this`db, this`connAttempts
      ensures Connection(db, connAttempts, err) == Retry(Tries(open, Dsn(env)), old(connAttempts), old(db))
    {
      var dsn := Dsn(env);
      var c := RetryLoop(Tries(open, dsn), connAttempts, db);
      db, connAttempts, err := c.db, c.attemptsLeft, c.err;
    }

    method Begin(began: Handle, beginErr: Option<GoError>) returns (err: Option<GoError>)
      requires db.Some?
      modifies this`isTransaction, this`tx
      ensures Step(State(), err) == AfterBegin(old(State()), began, beginErr)
    {
      if beginErr.Some? {
        return beginErr;
      }
      isTransaction := true;
      tx := Some(began);
      return None;
    }

    method Commit(commitErr: Option<GoError>) returns (err: Option<GoError>)
      modifies this`isTransaction, this`tx
      ensures Step(State(), err) == AfterFinish(old(State()), commitErr)
    {
      if tx.None? || !isTransaction {
        return Some(ErrTxNotStarted);
      }
      if commitErr.Some? {
        return commitErr;
      }
      isTransaction := false;
      tx := None;
      return None;
    }

    method Rollback(rollbackErr: Option<GoError>) returns (err: Option<GoError>)
      modifies this`isTransaction, this`tx
      ensures Step(State(), err) == AfterFinish(old(State()), rollbackErr)
    {
      if tx.None? || !isTransaction {
        return Some(ErrTxNotStarted);
      }
      if rollbackErr.Some? {
        return rollbackErr;
      }
      isTransaction := false;
      tx := None;
      return None;
    }

    predicate IsTransaction()
      reads this
    {
      isTransaction
    }

    function GetDB(): (h: Handle)
      reads this
      requires isTransaction ==> tx.Some?
      requires !isTransaction ==> db.Some?
      ensures Current(State()) == Some(h)
    {
      if IsTransaction() then tx.value else db.value
    }
  }

  /**
   * A failed Connect leaves no attempts, so a second Connect on the same
   * MySQL driver reports success without trying.
   */
  method ReconnectAfterFailure(env: string -> string, open: (string, nat) -> Attempt) returns (first: Option<GoError>, second: Option<GoError>)
    requires forall k: nat :: open(MySql.Dsn(env), k).err.Some?
    ensures first.Some? && second.None?
  {
    var m := new MySql();
    first := m.Connect(env, open);
    RetryBounded(Tries(open, MySql.Dsn(env)), MySqlDefaultConnAttempts, None);
    second := m.Connect(env, open);
  }
}
