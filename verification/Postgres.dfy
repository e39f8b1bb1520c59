/** PostgreSQL as concurrent requests see it: transactions at READ COMMITTED, one savepoint each, one table with a
    unique index on a key, and the failed-transaction state 25P02. */
module Postgres {

  type TxId = nat

  datatype Row = Row(id: nat, key: string, owner: TxId)

  datatype Status = Running | Committed | RolledBack

  /** `savepoint` holds the transaction's own rows at the moment the savepoint was set. */
  datatype Tx = Tx(status: Status, aborted: bool, savepoint: Savepoint)

  datatype Savepoint = NoSavepoint | SavedRows(rows: set<Row>)

  datatype Db = Db(rows: set<Row>, txs: seq<Tx>, next: nat)

  datatype Statement =
    | Check
    | FindByKey(key: string)
    | SetSavepoint
    | Insert(key: string)
    | ReleaseSavepoint
    | RollbackToSavepoint
    | InsertAudit
    | Commit
    | Rollback

  datatype Outcome =
    | Done
    | Passed | Refused
    | Found(row: Row) | NotFound
    | Inserted(row: Row) | UniqueViolation
    | OtherFailure
    | InFailedTransaction

  predicate IsCommitted(db: Db, t: TxId) {
    t < |db.txs| && db.txs[t].status.Committed?
  }

  /** READ COMMITTED: a statement sees committed rows and those of its own transaction. */
  predicate Visible(db: Db, t: TxId, row: Row) {
    row in db.rows && (row.owner == t || IsCommitted(db, row.owner))
  }

  predicate SeesKey(db: Db, t: TxId, key: string) {
    exists row :: row in db.rows && row.key == key && Visible(db, t, row)
  }

  predicate HoldsKey(db: Db, key: string) {
    exists row :: row in db.rows && row.key == key
  }

  function OwnRows(db: Db, t: TxId): set<Row> {
    set row | row in db.rows && row.owner == t
  }

  /** How PostgreSQL may answer. In a failed transaction everything but the end of the transaction and
      ROLLBACK TO is refused. An INSERT that meets the uncommitted row of another transaction waits:
      until that transaction ends, the only answer is a failure such as a timeout. */
  predicate Allowed(db: Db, t: TxId, stmt: Statement, out: Outcome)
    requires t < |db.txs|
  {
    var tx := db.txs[t];
    if stmt.Commit? || stmt.Rollback? then out.Done?
    else if stmt.RollbackToSavepoint? then
      if tx.savepoint.SavedRows? then out.Done? else out.InFailedTransaction? || out.OtherFailure?
    else if tx.aborted then out.InFailedTransaction?
    else if out.OtherFailure? then true
    else if stmt.Check? then out.Passed? || out.Refused?
    else if stmt.FindByKey? then
      if SeesKey(db, t, stmt.key) then IsFound(db, t, stmt.key, out) else out.NotFound?
    else if stmt.Insert? then
      if SeesKey(db, t, stmt.key) then out.UniqueViolation?
      else !HoldsKey(db, stmt.key) && out == Inserted(Row(db.next, stmt.key, t))
    else out.Done?
  }

  predicate IsFound(db: Db, t: TxId, key: string, out: Outcome) {
    out.Found? && out.row.key == key && Visible(db, t, out.row)
  }

  function SetTx(db: Db, t: TxId, tx: Tx): Db
    requires t < |db.txs|
  {
    db.(txs := db.txs[t := tx])
  }

  function EndByRollback(db: Db, t: TxId): Db
    requires t < |db.txs|
  {
    SetTx(db, t, db.txs[t].(status := RolledBack)).(rows := db.rows - OwnRows(db, t))
  }

  function Effect(db: Db, t: TxId, stmt: Statement, out: Outcome): Db
    requires t < |db.txs|
  {
    var tx := db.txs[t];
    if stmt.Rollback? || (stmt.Commit? && tx.aborted) then EndByRollback(db, t)
    else if stmt.Commit? then SetTx(db, t, tx.(status := Committed))
    else if out.InFailedTransaction? then db
    else if out.OtherFailure? || out.UniqueViolation? then SetTx(db, t, tx.(aborted := true))
    else if stmt.RollbackToSavepoint? && tx.savepoint.SavedRows? then
      SetTx(db, t, tx.(aborted := false)).(rows := db.rows - (OwnRows(db, t) - tx.savepoint.rows))
    else if stmt.SetSavepoint? then SetTx(db, t, tx.(savepoint := SavedRows(OwnRows(db, t))))
    else if stmt.ReleaseSavepoint? then SetTx(db, t, tx.(savepoint := NoSavepoint))
    else if out.Inserted? then db.(rows := db.rows + {out.row}, next := db.next + 1)
    else db
  }
}
