/**
 * What the database drivers (pkg/database) share: connection handles, the
 * answers of the gorm backend, and two pure specifications that every driver
 * class is proved against — the transaction state machine behind
 * Begin/Commit/Rollback/GetDB and the bounded retry loop behind Connect.
 */
module DbBackend {
  import opened GoTypes

  /** A `*gorm.DB` value: the connection pool or an open transaction. */
  datatype Handle = Handle(id: nat)

  /** config.DBConn: one configured connection. */
  datatype DBConn = DBConn(
    host: string,
    port: string,
    databaseName: string,
    username: string,
    password: string,
    poolMax: int,
    maxConnection: int)

  /** What one `gorm.Open` call returned: the handle it assigned and its error. */
  datatype Attempt = Attempt(db: Option<Handle>, err: Option<GoError>)

  /** A successful `gorm.Open` always hands back a handle. */
  ghost predicate OpensHandle(open: nat -> Attempt)
  {
    forall k: nat :: open(k).err.None? ==> open(k).db.Some?
  }

  /** The answers of the attempts made with one DSN: the k-th call to `gorm.Open(dsn)` answers `open(dsn, k)`. */
  function Tries(open: (string, nat) -> Attempt, dsn: string): nat -> Attempt
  {
    (k: nat) => open(dsn, k)
  }

  const ErrTxNotStarted := GoError("transaction is not start")

  // ---------------------------------------------------------------------------
  // Transaction state
  // ---------------------------------------------------------------------------

  /** The three fields every driver keeps about its session. */
  datatype TxState = TxState(isTransaction: bool, db: Option<Handle>, tx: Option<Handle>)

  /** A new state together with the error the operation returned. */
  datatype Step = Step(state: TxState, err: Option<GoError>)

  /** The state a driver starts in, with or without a connection. */
  predicate Idle(s: TxState)
  {
    !s.isTransaction && s.tx.None?
  }

  /** The flag and the transaction handle are set and cleared together. */
  predicate Consistent(s: TxState)
  {
    s.isTransaction <==> s.tx.Some?
  }

  /** The guard of Commit and Rollback: the handle is non-nil and the flag is set. */
  predicate Active(s: TxState)
  {
    s.tx.Some? && s.isTransaction
  }

  /** Begin: `tx := db.Begin()`; on success the flag is set and `tx` replaced, whatever was there. */
  function AfterBegin(s: TxState, began: Handle, beginErr: Option<GoError>): Step
  {
    if beginErr.Some? then Step(s, beginErr)
    else Step(s.(isTransaction := true, tx := Some(began)), None)
  }

  /** Commit and Rollback: reject without an active transaction; clear the state only when the backend succeeds. */
  function AfterFinish(s: TxState, finishErr: Option<GoError>): Step
  {
    if !Active(s) then Step(s, Some(ErrTxNotStarted))
    else if finishErr.Some? then Step(s, finishErr)
    else Step(s.(isTransaction := false, tx := None), None)
  }

  /** GetDB: the handle statements run on. */
  function Current(s: TxState): Option<Handle>
  {
    if s.isTransaction then s.tx else s.db
  }

  /** Commit/Rollback without an active transaction fail and change nothing. */
  lemma FinishNeedsTransaction(s: TxState, finishErr: Option<GoError>)
    ensures !Active(s) ==> AfterFinish(s, finishErr) == Step(s, Some(ErrTxNotStarted))
  {
  }

  /** A successful Commit/Rollback ends the transaction and keeps the pool; a failed one keeps the transaction. */
  lemma FinishOutcome(s: TxState, finishErr: Option<GoError>)
    requires Active(s)
    ensures var r := AfterFinish(s, finishErr);
      (r.err.None? <==> finishErr.None?)
      && (finishErr.None? ==> Idle(r.state) && r.state.db == s.db)
      && (finishErr.Some? ==> r.state == s && r.err == finishErr)
  {
  }

  /** Begin followed by a successful Commit or Rollback returns an idle driver to where it was. */
  lemma BeginThenFinish(s: TxState, began: Handle, finishErr: Option<GoError>)
    requires Idle(s)
    ensures var b := AfterBegin(s, began, None);
      b.err.None? && Active(b.state) && Current(b.state) == Some(began)
      && AfterFinish(b.state, finishErr).state == (if finishErr.None? then s else b.state)
  {
  }

  /** Every transition keeps the flag and the handle in step, and leaves the pool alone. */
  lemma TransitionsConsistent(s: TxState, began: Handle, e: Option<GoError>)
    requires Consistent(s)
    ensures Consistent(AfterBegin(s, began, e).state) && AfterBegin(s, began, e).state.db == s.db
    ensures Consistent(AfterFinish(s, e).state) && AfterFinish(s, e).state.db == s.db
  {
  }

  /** In a consistent state GetDB answers the transaction handle exactly when a transaction is open. */
  lemma CurrentIsTransaction(s: TxState)
    requires Consistent(s)
    ensures s.isTransaction ==> Current(s) == s.tx && Current(s).Some?
    ensures !s.isTransaction ==> Current(s) == s.db
  {
  }

  /** As written, a second Begin replaces the open transaction, which then can be neither committed nor rolled back. */
  lemma BeginDiscardsOpenTransaction()
    ensures var s := TxState(true, Some(Handle(0)), Some(Handle(1)));
      AfterBegin(s, Handle(2), None).err.None?
      && AfterBegin(s, Handle(2), None).state.tx == Some(Handle(2))
  {
  }

  const ErrTxAlreadyStarted := GoError("transaction is already started")

  /** Begin as evidently intended: refuse while a transaction is open. */
  function AfterBeginGuarded(s: TxState, began: Handle, beginErr: Option<GoError>): (r: Step)
    ensures Active(s) ==> r == Step(s, Some(ErrTxAlreadyStarted))
    ensures !Active(s) ==> r == AfterBegin(s, began, beginErr)
  {
    if Active(s) then Step(s, Some(ErrTxAlreadyStarted)) else AfterBegin(s, began, beginErr)
  }

  /** The guarded Begin never loses an open transaction handle. */
  lemma GuardedBeginKeepsTransaction(s: TxState, began: Handle, beginErr: Option<GoError>)
    requires Active(s)
    ensures AfterBeginGuarded(s, began, beginErr).state.tx == s.tx
    ensures AfterBeginGuarded(s, began, beginErr).err.Some?
  {
  }

  // ---------------------------------------------------------------------------
  // Connect: bounded retries
  // ---------------------------------------------------------------------------

  /** The attempt the retry loop stops at, counting from `k`: the first success, or the last of the `n` allowed. */
  function StopAt(open: nat -> Attempt, k: nat, n: nat): (r: nat)
    requires k < n
    ensures k <= r < n
    ensures open(r).err.None? || r == n - 1
    ensures forall j :: k <= j < r ==> open(j).err.Some?
    decreases n - k
  {
    if open(k).err.None? || k + 1 == n then k else StopAt(open, k + 1, n)
  }

  /** StopAt is the only index with its three properties. */
  lemma StopAtIs(open: nat -> Attempt, n: nat, r: nat)
    requires r < n
    requires open(r).err.None? || r == n - 1
    requires forall j :: 0 <= j < r ==> open(j).err.Some?
    ensures StopAt(open, 0, n) == r
  {
  }

  /** What Connect's loop leaves behind: the handle, the attempts left, and the error. */
  datatype Connection = Connection(db: Option<Handle>, attemptsLeft: int, err: Option<GoError>)

  /**
   * The retry loop run from `attempts` with `db` as the handle before it.
   * With no attempts left nothing is tried and the error is nil.
   */
  function Retry(open: nat -> Attempt, attempts: int, db: Option<Handle>): Connection
  {
    if attempts <= 0 then Connection(db, attempts, None)
    else
      var r := StopAt(open, 0, attempts);
      Connection(open(r).db, if open(r).err.None? then attempts - r else 0, open(r).err)
  }

  /**
   * The loop makes at most `attempts` tries, each failure costing one attempt:
   * it succeeds iff one of them succeeds, keeping the handle of the first that
   * does; otherwise it ends with no attempts left and the last try's error.
   */
  lemma RetryBounded(open: nat -> Attempt, attempts: int, db: Option<Handle>)
    requires attempts > 0
    ensures var c := Retry(open, attempts, db);
      (c.err.None? <==> exists k :: 0 <= k < attempts && open(k).err.None?)
      && (c.err.None? ==>
            1 <= c.attemptsLeft <= attempts
            && c.db == open(attempts - c.attemptsLeft).db
            && forall j :: 0 <= j < attempts - c.attemptsLeft ==> open(j).err.Some?)
      && (c.err.Some? ==>
            c.attemptsLeft == 0 && c.err == open(attempts - 1).err
            && forall j :: 0 <= j < attempts ==> open(j).err.Some?)
  {
    var r := StopAt(open, 0, attempts);
    if open(r).err.None? {
      assert 0 <= r < attempts && open(r).err.None?;
    }
  }

  /** The loop stopped at the first success, the k-th try. */
  lemma RetrySucceededAt(open: nat -> Attempt, attempts: int, db: Option<Handle>, k: nat)
    requires k < attempts && open(k).err.None?
    requires forall j :: 0 <= j < k ==> open(j).err.Some?
    ensures Retry(open, attempts, db) == Connection(open(k).db, attempts - k, None)
  {
    StopAtIs(open, attempts, k);
  }

  /** The loop ran out of attempts, every try having failed. */
  lemma RetryExhausted(open: nat -> Attempt, attempts: int, db: Option<Handle>)
    requires attempts > 0
    requires forall j :: 0 <= j < attempts ==> open(j).err.Some?
    ensures Retry(open, attempts, db) == Connection(open(attempts - 1).db, 0, open(attempts - 1).err)
  {
    StopAtIs(open, attempts, attempts - 1);
  }

  /**
   * The loop every driver's Connect runs: while attempts are left, open; stop
   * at the first success, otherwise count the attempt off and try again.
   */
  method RetryLoop(open: nat -> Attempt, attempts: int, db: Option<Handle>) returns (c: Connection)
    ensures c == Retry(open, attempts, db)
  {
    var left := attempts;
    var handle := db;
    var err: Option<GoError> := None;
    var k: nat := 0;
    while left > 0
      invariant attempts > 0 ==> k <= attempts
      invariant attempts <= 0 ==> k == 0 && left == attempts
      invariant left == attempts - k
      invariant forall j :: 0 <= j < k ==> open(j).err.Some?
      invariant k == 0 ==> handle == db && err.None?
      invariant k > 0 ==> handle == open(k - 1).db && err == open(k - 1).err
      decreases left
    {
      var a := open(k);
      handle := a.db;
      err := a.err;
      if err.None? {
        RetrySucceededAt(open, attempts, db, k);
        break;
      }
      left := left - 1;
      k := k + 1;
    }
    if attempts > 0 && left == 0 {
      RetryExhausted(open, attempts, db);
    }
    c := Connection(handle, left, err);
  }

  /** As written, a loop with no attempts left reports success and leaves a missing handle missing. */
  lemma NoAttemptsReportsSuccess(open: nat -> Attempt)
    ensures Retry(open, 0, None) == Connection(None, 0, None)
  {
  }

  const ErrNotConnected := GoError("cannot connect to database")

  /** Connect as evidently intended: an error whenever the loop leaves no handle. */
  function RetryChecked(open: nat -> Attempt, attempts: int, db: Option<Handle>): (c: Connection)
    ensures c.db == Retry(open, attempts, db).db && c.attemptsLeft == Retry(open, attempts, db).attemptsLeft
    ensures Retry(open, attempts, db).err.Some? ==> c.err == Retry(open, attempts, db).err
  {
    var c := Retry(open, attempts, db);
    if c.err.None? && c.db.None? then c.(err := Some(ErrNotConnected)) else c
  }

  /** The intended Connect succeeds only with a handle. */
  lemma CheckedConnectHasHandle(open: nat -> Attempt, attempts: int, db: Option<Handle>)
    requires OpensHandle(open)
    ensures RetryChecked(open, attempts, db).err.None? ==> RetryChecked(open, attempts, db).db.Some?
    ensures attempts > 0 ==> RetryChecked(open, attempts, db) == Retry(open, attempts, db)
  {
    if attempts > 0 {
      RetryBounded(open, attempts, db);
    }
  }
}
