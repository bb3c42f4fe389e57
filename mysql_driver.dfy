/**
 * pkg/database/mysql: the MySQL driver with functional options. Like the
 * Postgres driver its fields are updated in place; unlike it, Connect does
 * not touch the pool afterwards, so `maxConnection` is stored but never used.
 */
module MySqlDriver {
  import opened GoTypes
  import opened DbBackend

  const DefaultMaxConnection := 1
  const DefaultConnAttempts := 10
  /** time.Second, in nanoseconds. */
  const DefaultConnTimeout := 1_000_000_000

  /** The functional options of options.go. */
  datatype MySqlOption =
    | MaxConnection(size: int)
    | ConnAttempts(attempts: int)
    | ConnTimeout(timeout: int)
    | Charset(charset: string)
    | ParseTime(parseTime: bool)
    | Loc(loc: string)

  /** The fields the options may set. */
  datatype Settings = Settings(
    maxConnection: int,
    connAttempts: int,
    connTimeout: int,
    charset: string,
    parseTime: bool,
    loc: string)

  const Defaults := Settings(DefaultMaxConnection, DefaultConnAttempts, DefaultConnTimeout, "utf8", true, "Local")

  /** One option: it sets its own field, verbatim, and no other. */
  function Set(s: Settings, o: MySqlOption): (r: Settings)
    ensures r.maxConnection == (if o.MaxConnection? then o.size else s.maxConnection)
    ensures r.connAttempts == (if o.ConnAttempts? then o.attempts else s.connAttempts)
    ensures r.connTimeout == (if o.ConnTimeout? then o.timeout else s.connTimeout)
    ensures r.charset == (if o.Charset? then o.charset else s.charset)
    ensures r.parseTime == (if o.ParseTime? then o.parseTime else s.parseTime)
    ensures r.loc == (if o.Loc? then o.loc else s.loc)
  {
    match o
    case MaxConnection(size) => s.(maxConnection := size)
    case ConnAttempts(attempts) => s.(connAttempts := attempts)
    case ConnTimeout(timeout) => s.(connTimeout := timeout)
    case Charset(charset) => s.(charset := charset)
    case ParseTime(parseTime) => s.(parseTime := parseTime)
    case Loc(loc) => s.(loc := loc)
  }

  /** The options applied in order. */
  function SetAll(s: Settings, os: seq<MySqlOption>): Settings
    decreases |os|
  {
    if |os| == 0 then s else SetAll(Set(s, os[0]), os[1..])
  }

  /** Applying one more option sets on top of what the earlier ones left. */
  lemma {:induction false} SetAllSnoc(s: Settings, os: seq<MySqlOption>, o: MySqlOption)
    ensures SetAll(s, os + [o]) == Set(SetAll(s, os), o)
    decreases |os|
  {
    if |os| > 0 {
      assert (os + [o])[1..] == os[1..] + [o];
      SetAllSnoc(Set(s, os[0]), os[1..], o);
    } else {
      assert SetAll(Set(s, o), []) == Set(s, o);
    }
  }

  /** The last ParseTime option decides the flag; without one the default stays. */
  lemma {:induction false} LastParseTimeWins(s: Settings, os: seq<MySqlOption>)
    ensures (forall i :: 0 <= i < |os| ==> !os[i].ParseTime?) ==> SetAll(s, os).parseTime == s.parseTime
    ensures forall i :: (0 <= i < |os| && os[i].ParseTime? && (forall j :: i < j < |os| ==> !os[j].ParseTime?)
      ==> SetAll(s, os).parseTime == os[i].parseTime)
    decreases |os|
  {
    if |os| > 0 {
      var init := os[..|os| - 1];
      var o := os[|os| - 1];
      assert os == init + [o];
      SetAllSnoc(s, init, o);
      LastParseTimeWins(s, init);
      forall i | 0 <= i < |os| && os[i].ParseTime? && (forall j :: i < j < |os| ==> !os[j].ParseTime?)
        ensures SetAll(s, os).parseTime == os[i].parseTime
      {
        if i < |os| - 1 {
          assert init[i] == os[i];
          assert forall j :: i < j < |init| ==> init[j] == os[j];
        }
      }
    }
  }

  /** The DSN's spelling of the parseTime flag. */
  function ParseTimeText(parseTime: bool): (r: string)
    ensures r == "true" <==> parseTime
    ensures r == "false" <==> !parseTime
  {
    if parseTime then "true" else "false"
  }

  class MySql {
    var maxConnection: int
    var connAttempts: int
    /** time.Duration, in nanoseconds; the pause between attempts is not modelled. */
    var connTimeout: int
    var charset: string
    var parseTime: bool
    var loc: string

    var cfg: DBConn
    var isTransaction: bool
    var db: Option<Handle>
    var tx: Option<Handle>

    function Config(): Settings
      reads this
    {
      Settings(maxConnection, connAttempts, connTimeout, charset, parseTime, loc)
    }

    function State(): TxState
      reads this
    {
      TxState(isTransaction, db, tx)
    }

    /** The connection string Connect passes to every attempt. */
    function Dsn(): (s: string)
      reads this
      ensures var suffix := "&parseTime=" + ParseTimeText(parseTime) + "&loc=" + loc;
        |suffix| <= |s| && s[|s| - |suffix|..] == suffix
    {
      cfg.username + ":" + cfg.password + "@tcp(" + cfg.host + ":" + cfg.port + ")/" + cfg.databaseName
        + "?charset=" + charset + "&parseTime=" + ParseTimeText(parseTime) + "&loc=" + loc
    }

    /** New: the defaults, then each option in order; no connection and no transaction yet. */
    constructor (cfg: DBConn, options: seq<MySqlOption>)
      ensures Config() == SetAll(Defaults, options)
      ensures this.cfg == cfg && State() == TxState(false, None, None)
    {
      maxConnection := DefaultMaxConnection;
      connAttempts := DefaultConnAttempts;
      connTimeout := DefaultConnTimeout;
      charset := "utf8";
      parseTime := true;
      loc := "Local";
      this.cfg := cfg;
      isTransaction := false;
      db := None;
      tx := None;
      new;
      for i := 0 to |options|
        invariant Config() == SetAll(Defaults, options[..i])
        invariant this.cfg == cfg && State() == TxState(false, None, None)
      {
        assert options[..i + 1] == options[..i] + [options[i]];
        SetAllSnoc(Defaults, options[..i], options[i]);
        Apply(options[i]);
      }
      assert options[..|options|] == options;
    }

    /** One option closure run on the driver: it touches its own setting and nothing else. */
    method Apply(o: MySqlOption)
      modifies this`maxConnection, this`connAttempts, this`connTimeout, this`charset, this`parseTime, this`loc
      ensures Config() == Set(old(Config()), o)
    {
      match o
      case MaxConnection(size) => maxConnection := size;
      case ConnAttempts(attempts) => connAttempts := attempts;
      case ConnTimeout(timeout) => connTimeout := timeout;
      case Charset(s) => charset := s;
      case ParseTime(v) => parseTime := v;
      case Loc(v) => loc := v;
    }

    /** Close: with a handle, the pool's `DB()` and then its `Close()`; the first error is returned. */
    method Close(dbErr: Option<GoError>, closeErr: Option<GoError>) returns (err: Option<GoError>)
      ensures db.None? ==> err.None?
      ensures db.Some? ==> err == (if dbErr.Some? then dbErr else closeErr)
    {
      if db.Some? {
        if dbErr.Some? {
          return dbErr;
        }
        if closeErr.Some? {
          return closeErr;
        }
      }
      return None;
    }

    /**
     * Connect: the k-th `gorm.Open` with the DSN answers `open(Dsn(), k)`.
     * With no attempt left nothing is tried and nil is returned, whether or
     * not there is a handle.
     */
    method Connect(open: (string, nat) -> Attempt) returns (err: Option<GoError>)
      modifies this`db, this`connAttempts
      ensures Connection(db, connAttempts, err) == Retry(Tries(open, Dsn()), old(connAttempts), old(db))
    {
      var dsn := Dsn();
      var c := RetryLoop(Tries(open, dsn), connAttempts, db);
      db, connAttempts, err := c.db, c.attemptsLeft, c.err;
    }

    /** Begin: `m.db.Begin()` on the pool, whose answer is `began` and `beginErr`. */
    method Begin(began: Handle, beginErr: Option<GoError>) returns (err: Option<GoError>)
      requires db.Some?
      modifies this`isTransaction, this`tx
      ensures Step(State(), err) == AfterBegin(old(State()), began, beginErr)
    {
      if beginErr.Some? {
        return beginErr;
      }
      isTransaction := true;
      tx := Some(began);
      return None;
    }

    /** Commit: `commitErr` is the answer of `m.tx.Commit()`. */
    method Commit(commitErr: Option<GoError>) returns (err: Option<GoError>)
      modifies this`isTransaction, this`tx
      ensures Step(State(), err) == AfterFinish(old(State()), commitErr)
    {
      if tx.None? || !isTransaction {
        return Some(ErrTxNotStarted);
      }
      if commitErr.Some? {
        return commitErr;
      }
      isTransaction := false;
      tx := None;
      return None;
    }

    /** Rollback: `rollbackErr` is the answer of `m.tx.Rollback()`. */
    method Rollback(rollbackErr: Option<GoError>) returns (err: Option<GoError>)
      modifies this`isTransaction, this`tx
      ensures Step(State(), err) == AfterFinish(old(State()), rollbackErr)
    {
      if tx.None? || !isTransaction {
        return Some(ErrTxNotStarted);
      }
      if rollbackErr.Some? {
        return rollbackErr;
      }
      isTransaction := false;
      tx := None;
      return None;
    }

    predicate IsTransaction()
      reads this
    {
      isTransaction
    }

    /** GetDB: the transaction while one is open, else the pool; a nil handle would be dereferenced. */
    function GetDB(): (h: Handle)
      reads this
      requires isTransaction ==> tx.Some?
      requires !isTransaction ==> db.Some?
      ensures Current(State()) == Some(h)
    {
      if IsTransaction() then tx.value else db.value
    }
  }

  /**
   * The discrepancy with Postgres: a driver built with `ConnAttempts(0)`
   * connects "successfully" and is left without a handle.
   */
  method ZeroAttemptsConnectsNothing(cfg: DBConn, open: (string, nat) -> Attempt) returns (m: MySql, err: Option<GoError>)
    ensures err.None? && m.db.None?
  {
    m := new MySql(cfg, [ConnAttempts(0)]);
    assert SetAll(Defaults, [ConnAttempts(0)]) == SetAll(Set(Defaults, ConnAttempts(0)), []);
    err := m.Connect(open);
  }
}
