/** Concurrent `create` requests of apps/api/src/modules/billing/payment.service.ts against one company's
    payment table, each in its own READ COMMITTED transaction.

    `StatementAt` and `Next` are the code of `create`, the audit interceptor around it and the commit of the
    request transaction. Any number of requests interleave statement by statement.
  */
module PaymentRace {
  import opened Postgres

  // ----- the client -------------------------------------------------------------------

  /** Where a request stands: the statement it issues next, and what it has in hand. */
  datatype Pc =
    | CheckInvoice
    | PreCheck
    | Guard
    | TryInsert
    | Release(row: Row)
    | Undo(keyConflict: bool)
    | Lookup
    | Audit(row: Row)
    | Finish(row: Row, audited: bool)
    | Fail
    | Answered(row: Row, audited: bool)
    | Failed

  datatype Request = Request(key: string, pc: Pc)

  predicate IsOver(pc: Pc) {
    pc.Answered? || pc.Failed?
  }

  function StatementAt(r: Request): Statement
    requires !IsOver(r.pc)
  {
    match r.pc
    case CheckInvoice => Check
    case PreCheck => FindByKey(r.key)
    case Guard => SetSavepoint
    case TryInsert => Insert(r.key)
    case Release(_) => ReleaseSavepoint
    case Undo(_) => RollbackToSavepoint
    case Lookup => FindByKey(r.key)
    case Audit(_) => InsertAudit
    case Finish(_, _) => Commit
    case Fail => Rollback
  }

  /** The code of `create`; the interceptor logs a failed audit insert and answers all the same. */
  function Next(pc: Pc, out: Outcome): Pc
    requires !IsOver(pc)
  {
    match pc
    case CheckInvoice => if out.Passed? then PreCheck else Fail
    case PreCheck => if out.Found? then Audit(out.row) else if out.NotFound? then Guard else Fail
    case Guard => if out.Done? then TryInsert else Fail
    case TryInsert => if out.Inserted? then Release(out.row) else Undo(out.UniqueViolation?)
    case Release(row) => if out.Done? then Audit(row) else Undo(false)
    case Undo(keyConflict) => if out.Done? && keyConflict then Lookup else Fail
    case Lookup => if out.Found? then Audit(out.row) else Fail
    case Audit(row) => Finish(row, out.Done?)
    case Finish(row, audited) => Answered(row, audited)
    case Fail => Failed
  }

  datatype State = State(db: Db, requests: seq<Request>)

  function Start(keys: seq<string>): State {
    State(Db({}, seq(|keys|, i => Tx(Running, false, NoSavepoint)), 0),
          seq(|keys|, i requires 0 <= i < |keys| => Request(keys[i], CheckInvoice)))
  }

  predicate Active(s: State, t: nat) {
    t < |s.requests| && t < |s.db.txs| && !IsOver(s.requests[t].pc)
  }

  /** Request `t` issues its statement and gets the answer `out`. */
  predicate CanAnswer(s: State, t: nat, out: Outcome) {
    Active(s, t) && Allowed(s.db, t, StatementAt(s.requests[t]), out)
  }

  function Answer(s: State, t: nat, out: Outcome): State
    requires CanAnswer(s, t, out)
  {
    var r := s.requests[t];
    State(Effect(s.db, t, StatementAt(r), out), s.requests[t := r.(pc := Next(r.pc, out))])
  }

  /** The process or its connection can die at any time; `committing`: after its COMMIT has reached PostgreSQL. */
  predicate CanCrash(s: State, t: nat, committing: bool) {
    Active(s, t) && (committing ==> s.requests[t].pc.Finish?)
  }

  /** PostgreSQL rolls the transaction back, unless its COMMIT has taken effect and only the reply is lost. */
  function Crash(s: State, t: nat, committing: bool): State
    requires CanCrash(s, t, committing)
  {
    State(if committing then Effect(s.db, t, Commit, Done) else EndByRollback(s.db, t),
          s.requests[t := s.requests[t].(pc := Failed)])
  }

  ghost predicate Step(s: State, s': State) {
    || (exists t: nat, out :: CanAnswer(s, t, out) && s' == Answer(s, t, out))
    || (exists t: nat, committing :: CanCrash(s, t, committing) && s' == Crash(s, t, committing))
  }

  ghost predicate IsRun(run: seq<State>, keys: seq<string>) {
    && run != [] && run[0] == Start(keys)
    && forall i :: 0 <= i < |run| - 1 ==> Step(run[i], run[i + 1])
  }

  // ----- the invariant ----------------------------------------------------------------

  predicate TableInv(s: State) {
    && |s.db.txs| == |s.requests|
    && (forall row :: row in s.db.rows ==>
         && row.owner < |s.requests| && row.key == s.requests[row.owner].key && row.id < s.db.next
         && !s.db.txs[row.owner].status.RolledBack?)
    && (forall row, other :: row in s.db.rows && other in s.db.rows && row.key == other.key ==> row == other)
  }

  /** Only these places of the code are reached with the transaction in the failed state. */
  predicate MayBeAborted(pc: Pc) {
    pc.Undo? || pc.Fail? || IsOver(pc) || (pc.Finish? && !pc.audited)
  }

  predicate RequestInv(s: State, t: nat)
    requires t < |s.requests| == |s.db.txs|
  {
    TxInv(s.requests[t].pc, s.db.txs[t]) && RowsInv(s, t)
  }

  predicate TxInv(pc: Pc, tx: Tx) {
    && (tx.status.Running? <==> !IsOver(pc))
    && (tx.aborted ==> MayBeAborted(pc))
    && ((pc.Finish? && !pc.audited) || pc.Undo? ==> tx.aborted)
    && (pc.TryInsert? || pc.Release? || pc.Undo? ==> tx.savepoint == SavedRows({}))
    && (pc.Answered? ==> (tx.status.Committed? <==> pc.audited))
  }

  predicate RowsInv(s: State, t: nat)
    requires t < |s.requests| == |s.db.txs|
  {
    var r := s.requests[t];
    && (r.pc.CheckInvoice? || r.pc.PreCheck? || r.pc.Guard? || r.pc.TryInsert? || r.pc == Undo(true) || r.pc.Lookup?
        ==> OwnRows(s.db, t) == {})
    && (r.pc == Undo(true) || r.pc.Lookup? ==> SeesKey(s.db, t, r.key))
    && (r.pc.Release? || r.pc.Audit? || r.pc.Finish? ==> r.pc.row.key == r.key && Visible(s.db, t, r.pc.row))
    && (r.pc.Answered? ==> r.pc.row.key == r.key)
    && (r.pc.Answered? && r.pc.audited ==> r.pc.row in s.db.rows && IsCommitted(s.db, r.pc.row.owner))
  }

  predicate Inv(s: State) {
    TableInv(s) && forall t :: 0 <= t < |s.requests| ==> RequestInv(s, t)
  }

  lemma StartInv(keys: seq<string>)
    ensures Inv(Start(keys))
  {
  }

  /** What the other requests rely on: committed rows stay, and their own transaction is not touched. */
  predicate Keeps(db: Db, db': Db, t: TxId)
  {
    && |db.txs| == |db'.txs|
    && (forall u :: 0 <= u < |db.txs| && u != t ==> db'.txs[u] == db.txs[u])
    && (forall row :: row in db.rows && row.owner != t ==> row in db'.rows)
    && (forall row :: row in db'.rows && row.owner != t ==> row in db.rows)
  }

  lemma OthersKeepInv(s: State, s': State, t: nat, u: nat)
    requires Inv(s) && Active(s, t) && u < |s.requests| == |s'.requests| && u != t
    requires Keeps(s.db, s'.db, t) && s'.requests[u] == s.requests[u]
    ensures RequestInv(s', u)
  {
    assert RequestInv(s, u) && RequestInv(s, t);
    var r := s.requests[u];
    assert OwnRows(s'.db, u) == OwnRows(s.db, u);
    if r.pc == Undo(true) || r.pc.Lookup? {
      var row :| row in s.db.rows && row.key == r.key && Visible(s.db, u, row);
      assert Visible(s'.db, u, row);
    }
  }

  lemma EffectKeeps(s: State, t: nat, out: Outcome)
    requires Inv(s) && CanAnswer(s, t, out)
    ensures Keeps(s.db, Answer(s, t, out).db, t)
  {
  }

  lemma AnswerKeepsTable(s: State, t: nat, out: Outcome)
    requires Inv(s) && CanAnswer(s, t, out)
    ensures TableInv(Answer(s, t, out))
  {
    assert RequestInv(s, t);
    if out.Inserted? {
      assert !HoldsKey(s.db, s.requests[t].key);
    }
  }

  lemma AnswerKeepsTx(s: State, t: nat, out: Outcome)
    requires Inv(s) && CanAnswer(s, t, out)
    ensures |Answer(s, t, out).db.txs| == |s.requests|
    ensures TxInv(Answer(s, t, out).requests[t].pc, Answer(s, t, out).db.txs[t])
  {
    assert RequestInv(s, t);
    if StatementAt(s.requests[t]).SetSavepoint? {
      assert OwnRows(s.db, t) == {};
    }
  }

  /** From the conflict on, the conflicting row stays visible: another transaction has committed it. */
  lemma ConflictStillSeen(s: State, t: nat, out: Outcome)
    requires Inv(s) && CanAnswer(s, t, out)
    ensures |Answer(s, t, out).db.txs| == |s.requests|
    ensures var pc := Answer(s, t, out).requests[t].pc;
      pc == Undo(true) || pc.Lookup? ==> SeesKey(Answer(s, t, out).db, t, s.requests[t].key)
  {
    assert RequestInv(s, t);
    var r, s' := s.requests[t], Answer(s, t, out);
    if s'.requests[t].pc == Undo(true) || s'.requests[t].pc.Lookup? {
      var row :| row in s.db.rows && row.key == r.key && Visible(s.db, t, row);
      assert row.owner != t by {
        assert row !in OwnRows(s.db, t);
      }
      assert Visible(s'.db, t, row);
    }
  }

  lemma AnswerKeepsRows(s: State, t: nat, out: Outcome)
    requires Inv(s) && CanAnswer(s, t, out)
    ensures |Answer(s, t, out).db.txs| == |s.requests| && RowsInv(Answer(s, t, out), t)
  {
    assert RequestInv(s, t);
    ConflictStillSeen(s, t, out);
  }

  lemma AnswerKeepsInv(s: State, t: nat, out: Outcome)
    requires Inv(s) && CanAnswer(s, t, out)
    ensures Inv(Answer(s, t, out))
  {
    var s' := Answer(s, t, out);
    AnswerKeepsTable(s, t, out);
    AnswerKeepsTx(s, t, out);
    AnswerKeepsRows(s, t, out);
    EffectKeeps(s, t, out);
    forall u: nat | u < |s.requests| && u != t
      ensures RequestInv(s', u)
    {
      OthersKeepInv(s, s', t, u);
    }
  }

  lemma CrashKeepsInv(s: State, t: nat, committing: bool)
    requires Inv(s) && CanCrash(s, t, committing)
    ensures Inv(Crash(s, t, committing))
  {
    var s' := Crash(s, t, committing);
    assert RequestInv(s, t);
    forall u: nat | u < |s.requests|
      ensures RequestInv(s', u)
    {
      if u != t {
        OthersKeepInv(s, s', t, u);
      }
    }
  }

  lemma StepKeepsInv(s: State, s': State)
    requires Inv(s) && Step(s, s')
    ensures Inv(s')
  {
    if t, out :| CanAnswer(s, t, out) && s' == Answer(s, t, out) {
      AnswerKeepsInv(s, t, out);
    } else {
      var t: nat, committing :| CanCrash(s, t, committing) && s' == Crash(s, t, committing);
      CrashKeepsInv(s, t, committing);
    }
  }

  lemma {:induction false} RunsKeepInv(run: seq<State>, keys: seq<string>, i: nat)
    requires IsRun(run, keys) && i < |run|
    ensures Inv(run[i]) && |run[i].requests| == |keys|
    ensures forall t :: 0 <= t < |keys| ==> run[i].requests[t].key == keys[t]
  {
    if i == 0 {
      StartInv(keys);
    } else {
      RunsKeepInv(run, keys, i - 1);
      assert Step(run[i - 1], run[i - 1 + 1]);
      StepKeepsInv(run[i - 1], run[i]);
    }
  }

  // ----- main results -------------------------------------------------------------------

  /** In every reachable state: answered requests with one key whose transactions committed carry the same
      row, it is in the table, and no other row has the key. */
  lemma OneKeyOnePayment(run: seq<State>, keys: seq<string>, i: nat, t: nat, u: nat)
    requires IsRun(run, keys) && i < |run| && t < |run[i].requests| && u < |run[i].requests|
    requires run[i].requests[t].key == run[i].requests[u].key
    requires run[i].requests[t].pc.Answered? && IsCommitted(run[i].db, t)
    requires run[i].requests[u].pc.Answered? && IsCommitted(run[i].db, u)
    ensures run[i].requests[t].pc.row == run[i].requests[u].pc.row
    ensures run[i].requests[t].pc.row in run[i].db.rows
    ensures forall row :: row in run[i].db.rows && row.key == run[i].requests[t].key ==>
      row == run[i].requests[t].pc.row
  {
    RunsKeepInv(run, keys, i);
    assert RequestInv(run[i], t) && RequestInv(run[i], u);
  }

  predicate Stands(db: Db, row: Row) {
    row in db.rows && IsCommitted(db, row.owner)
  }

  lemma StepKeepsCommitted(s: State, s': State, row: Row)
    requires Inv(s) && Step(s, s') && Stands(s.db, row)
    ensures Stands(s'.db, row)
  {
    assert RequestInv(s, row.owner);
    if t: nat, out :| CanAnswer(s, t, out) && s' == Answer(s, t, out) {
      EffectKeeps(s, t, out);
    }
  }

  lemma {:induction false} CommittedStays(run: seq<State>, keys: seq<string>, i: nat, j: nat, row: Row)
    requires IsRun(run, keys) && i <= j < |run| && Stands(run[i].db, row)
    ensures Stands(run[j].db, row)
    decreases j
  {
    if i < j {
      CommittedStays(run, keys, i, j - 1, row);
      RunsKeepInv(run, keys, j - 1);
      assert Step(run[j - 1], run[j - 1 + 1]);
      StepKeepsCommitted(run[j - 1], run[j], row);
    }
  }

  /** Once a payment is committed, every committed answer with its key is that payment, then and ever after, also
      when the reply to the request that made it was lost. */
  lemma RetryGetsThePayment(run: seq<State>, keys: seq<string>, i: nat, j: nat, row: Row, u: nat)
    requires IsRun(run, keys) && i <= j < |run| && Stands(run[i].db, row)
    requires u < |run[j].requests| && run[j].requests[u].key == row.key
    requires run[j].requests[u].pc.Answered? && IsCommitted(run[j].db, u)
    ensures run[j].requests[u].pc.row == row
  {
    CommittedStays(run, keys, i, j, row);
    OneKeyOnePayment(run, keys, j, u, u);
  }

  /** An answered request's transaction is committed exactly when its audit insert succeeded. */
  lemma AnsweredIsCommittedIffAudited(run: seq<State>, keys: seq<string>, i: nat, t: nat)
    requires IsRun(run, keys) && i < |run| && t < |run[i].requests| && run[i].requests[t].pc.Answered?
    ensures IsCommitted(run[i].db, t) <==> run[i].requests[t].pc.audited
  {
    RunsKeepInv(run, keys, i);
    assert RequestInv(run[i], t);
  }

  /** The code never issues a statement that PostgreSQL refuses with 25P02: in a failed transaction it
      issues only ROLLBACK TO SAVEPOINT and the end of the transaction. */
  lemma NeverInFailedTransaction(run: seq<State>, keys: seq<string>, i: nat, t: nat, out: Outcome)
    requires IsRun(run, keys) && i < |run| && CanAnswer(run[i], t, out)
    ensures !out.InFailedTransaction?
    ensures run[i].db.txs[t].aborted ==>
      var stmt := StatementAt(run[i].requests[t]);
      stmt.RollbackToSavepoint? || stmt.Commit? || stmt.Rollback?
  {
    RunsKeepInv(run, keys, i);
    assert RequestInv(run[i], t);
  }

  /** After a key conflict the lookup can fail, but it never comes back empty. */
  lemma LookupFindsTheWinner(run: seq<State>, keys: seq<string>, i: nat, t: nat, out: Outcome)
    requires IsRun(run, keys) && i < |run| && CanAnswer(run[i], t, out) && run[i].requests[t].pc.Lookup?
    ensures out.OtherFailure?
      || (out.Found? && out.row.key == run[i].requests[t].key && IsCommitted(run[i].db, out.row.owner))
  {
    RunsKeepInv(run, keys, i);
    assert RequestInv(run[i], t);
    if out.Found? {
      assert out.row !in OwnRows(run[i].db, t);
    }
  }

  /** Request `t` has given up before it inserted anything. */
  predicate GaveUp(s: State, t: nat) {
    && t < |s.requests| && (s.requests[t].pc.Fail? || s.requests[t].pc.Failed?)
    && OwnRows(s.db, t) == {}
  }

  lemma AnswerKeepsGaveUp(s: State, u: nat, out: Outcome, t: nat)
    requires Inv(s) && CanAnswer(s, u, out) && GaveUp(s, t)
    ensures GaveUp(Answer(s, u, out), t)
  {
    EffectKeeps(s, u, out);
    if u != t {
      assert OwnRows(Answer(s, u, out).db, t) == OwnRows(s.db, t);
    }
  }

  lemma StepKeepsGaveUp(s: State, s': State, t: nat)
    requires Inv(s) && Step(s, s') && GaveUp(s, t)
    ensures GaveUp(s', t)
  {
    if u: nat, out :| CanAnswer(s, u, out) && s' == Answer(s, u, out) {
      AnswerKeepsGaveUp(s, u, out, t);
    } else {
      var u: nat, committing :| CanCrash(s, u, committing) && s' == Crash(s, u, committing);
      assert OwnRows(s'.db, t) == {};
    }
  }

  lemma {:induction false} GivesUpForGood(run: seq<State>, keys: seq<string>, i: nat, j: nat, t: nat)
    requires IsRun(run, keys) && i <= j < |run| && GaveUp(run[i], t)
    ensures GaveUp(run[j], t)
    decreases j
  {
    if i < j {
      GivesUpForGood(run, keys, i, j - 1, t);
      RunsKeepInv(run, keys, j - 1);
      assert Step(run[j - 1], run[j - 1 + 1]);
      StepKeepsGaveUp(run[j - 1], run[j], t);
    }
  }

  /** A request whose invoice check, or first lookup, is refused or fails never leaves a row and never answers with
      a payment. */
  lemma RefusedLeavesNothing(run: seq<State>, keys: seq<string>, i: nat, j: nat, t: nat, out: Outcome)
    requires IsRun(run, keys) && i < j < |run| && CanAnswer(run[i], t, out) && run[i + 1] == Answer(run[i], t, out)
    requires run[i].requests[t].pc.CheckInvoice? || run[i].requests[t].pc.PreCheck?
    requires Fails(out)
    ensures t < |run[j].requests| && !run[j].requests[t].pc.Answered? && OwnRows(run[j].db, t) == {}
  {
    RunsKeepInv(run, keys, i);
    assert RequestInv(run[i], t);
    GivesUpForGood(run, keys, i + 1, j, t);
  }

  function Remaining(pc: Pc): nat {
    match pc
    case CheckInvoice => 9
    case PreCheck => 8
    case Guard => 7
    case TryInsert => 6
    case Release(_) => 5
    case Undo(_) => 4
    case Lookup => 3
    case Audit(_) => 2
    case Finish(_, _) => 1
    case Fail => 1
    case Answered(_, _) => 0
    case Failed => 0
  }

  function Work(requests: seq<Request>): nat {
    if requests == [] then 0 else Remaining(requests[0].pc) + Work(requests[1..])
  }

  lemma {:induction false} WorkUpdate(requests: seq<Request>, t: nat, r: Request)
    requires t < |requests|
    ensures Work(requests[t := r]) == Work(requests) - Remaining(requests[t].pc) + Remaining(r.pc)
    decreases |requests|
  {
    var updated := requests[t := r];
    if t == 0 {
      assert updated[1..] == requests[1..];
    } else {
      assert updated[1..] == requests[1..][t - 1 := r];
      WorkUpdate(requests[1..], t - 1, r);
    }
  }

  lemma {:induction false} WorkAtStart(requests: seq<Request>)
    requires forall r :: r in requests ==> r.pc.CheckInvoice?
    ensures Work(requests) == 9 * |requests|
    decreases |requests|
  {
    if requests != [] {
      WorkAtStart(requests[1..]);
    }
  }

  lemma NextIsCloser(pc: Pc, out: Outcome)
    requires !IsOver(pc)
    ensures Remaining(Next(pc, out)) < Remaining(pc)
  {
  }

  lemma AnswerReducesWork(s: State, t: nat, out: Outcome)
    requires CanAnswer(s, t, out)
    ensures Work(Answer(s, t, out).requests) < Work(s.requests)
  {
    var r := s.requests[t];
    NextIsCloser(r.pc, out);
    WorkUpdate(s.requests, t, r.(pc := Next(r.pc, out)));
  }

  lemma StepReducesWork(s: State, s': State)
    requires Step(s, s')
    ensures Work(s'.requests) < Work(s.requests)
  {
    if t: nat, out :| CanAnswer(s, t, out) && s' == Answer(s, t, out) {
      AnswerReducesWork(s, t, out);
    } else {
      var t: nat, committing :| CanCrash(s, t, committing) && s' == Crash(s, t, committing);
      WorkUpdate(s.requests, t, s.requests[t].(pc := Failed));
    }
  }

  /** Every run ends: n requests take at most 9n steps. */
  lemma {:induction false} RunsEnd(run: seq<State>, keys: seq<string>)
    requires IsRun(run, keys)
    ensures Work(run[|run| - 1].requests) + |run| - 1 <= 9 * |keys|
    decreases |run|
  {
    if |run| == 1 {
      WorkAtStart(run[0].requests);
    } else {
      var before := run[..|run| - 1];
      assert IsRun(before, keys) by {
        forall i | 0 <= i < |before| - 1
          ensures Step(before[i], before[i + 1])
        {
          assert Step(run[i], run[i + 1]);
        }
      }
      RunsEnd(before, keys);
      var i := |run| - 2;
      assert Step(run[i], run[i + 1]);
      StepReducesWork(run[i], run[i + 1]);
    }
  }

  /** The statement failed, or the invoice cannot be paid. */
  predicate Fails(out: Outcome) {
    out.OtherFailure? || out.Refused?
  }

  /** The answer an active, unblocked request gets when nothing fails. */
  ghost function GoodAnswer(s: State, t: nat): Outcome
    requires Inv(s) && Active(s, t)
  {
    var r := s.requests[t];
    match r.pc
    case CheckInvoice => Passed
    case PreCheck => if SeesKey(s.db, t, r.key) then Found(SeenRow(s.db, t, r.key)) else NotFound
    case Lookup => if SeesKey(s.db, t, r.key) then Found(SeenRow(s.db, t, r.key)) else NotFound
    case TryInsert => if SeesKey(s.db, t, r.key) then UniqueViolation else Inserted(Row(s.db.next, r.key, t))
    case _ => Done
  }

  ghost function SeenRow(db: Db, t: TxId, key: string): (row: Row)
    requires SeesKey(db, t, key)
    ensures row in db.rows && row.key == key && Visible(db, t, row)
  {
    var row :| row in db.rows && row.key == key && Visible(db, t, row);
    row
  }

  lemma UnblockedCanAnswer(s: State, t: nat)
    requires Inv(s) && Active(s, t)
    requires s.requests[t].pc.TryInsert? ==>
      SeesKey(s.db, t, s.requests[t].key) || !HoldsKey(s.db, s.requests[t].key)
    ensures CanAnswer(s, t, GoodAnswer(s, t)) && !Fails(GoodAnswer(s, t))
  {
    assert RequestInv(s, t);
  }

  /** No deadlock: while some request is open, some request can go on without a failure or a crash, because
      the one that holds up an INSERT has passed its own INSERT and waits for nobody. */
  lemma NoDeadlock(run: seq<State>, keys: seq<string>, i: nat, t: nat)
    requires IsRun(run, keys) && i < |run| && Active(run[i], t)
    ensures exists u: nat, out :: CanAnswer(run[i], u, out) && !Fails(out)
  {
    RunsKeepInv(run, keys, i);
    var s := run[i];
    assert RequestInv(s, t);
    var r := s.requests[t];
    if r.pc.TryInsert? && !SeesKey(s.db, t, r.key) && HoldsKey(s.db, r.key) {
      var row :| row in s.db.rows && row.key == r.key;
      var u := row.owner;
      assert RequestInv(s, u);
      assert !Visible(s.db, t, row);
      assert row in OwnRows(s.db, u);
      UnblockedCanAnswer(s, u);
    } else {
      UnblockedCanAnswer(s, t);
    }
  }

  // ----- when nothing fails ---------------------------------------------------------------

  ghost predicate SmoothStep(s: State, s': State) {
    exists t: nat, out :: CanAnswer(s, t, out) && !Fails(out) && s' == Answer(s, t, out)
  }

  ghost predicate IsSmooth(run: seq<State>) {
    forall i :: 0 <= i < |run| - 1 ==> SmoothStep(run[i], run[i + 1])
  }

  ghost predicate CanGoOn(s: State, t: nat) {
    exists out :: CanAnswer(s, t, out) && !Fails(out)
  }

  /** No request can go on without a failure. */
  ghost predicate IsAtRest(s: State) {
    forall t: nat :: !CanGoOn(s, t)
  }

  predicate OnTrack(pc: Pc) {
    && !pc.Fail? && !pc.Failed? && pc != Undo(false)
    && (pc.Finish? ==> pc.audited) && (pc.Answered? ==> pc.audited)
  }

  lemma StaysOnTrack(s: State, t: nat, out: Outcome)
    requires Inv(s) && CanAnswer(s, t, out) && !Fails(out) && OnTrack(s.requests[t].pc)
    ensures OnTrack(Next(s.requests[t].pc, out))
  {
    assert RequestInv(s, t);
  }

  lemma {:induction false} SmoothRunsStayOnTrack(run: seq<State>, keys: seq<string>, i: nat, t: nat)
    requires IsRun(run, keys) && IsSmooth(run) && i < |run| && t < |run[i].requests|
    ensures OnTrack(run[i].requests[t].pc)
  {
    RunsKeepInv(run, keys, i);
    if i > 0 {
      RunsKeepInv(run, keys, i - 1);
      SmoothRunsStayOnTrack(run, keys, i - 1, t);
      assert SmoothStep(run[i - 1], run[i - 1 + 1]);
      var u: nat, out :| CanAnswer(run[i - 1], u, out) && !Fails(out) && run[i] == Answer(run[i - 1], u, out);
      if u == t {
        StaysOnTrack(run[i - 1], t, out);
      }
    }
  }

  /** A run without failures that goes on as long as it can ends with every request answered, audited and
      committed, and the answer is the one payment with its key. */
  lemma EveryoneIsServed(run: seq<State>, keys: seq<string>, t: nat)
    requires IsRun(run, keys) && IsSmooth(run) && IsAtRest(run[|run| - 1]) && t < |keys|
    ensures var s := run[|run| - 1];
      && t < |s.requests| && s.requests[t].pc.Answered? && s.requests[t].pc.audited && IsCommitted(s.db, t)
      && s.requests[t].pc.row in s.db.rows && s.requests[t].pc.row.key == keys[t]
      && forall row :: row in s.db.rows && row.key == keys[t] ==> row == s.requests[t].pc.row
  {
    var last := |run| - 1;
    RunsKeepInv(run, keys, last);
    SmoothRunsStayOnTrack(run, keys, last, t);
    var s := run[last];
    assert RequestInv(s, t);
    if Active(s, t) {
      NoDeadlock(run, keys, last, t);
      var u: nat, out :| CanAnswer(s, u, out) && !Fails(out);
      assert CanGoOn(s, u);
    }
    OneKeyOnePayment(run, keys, last, t, t);
  }

  // ----- an answer without a payment ------------------------------------------------------------

  /** One request, alone. */
  function Alone(rows: set<Row>, tx: Tx, next: nat, pc: Pc): State {
    State(Db(rows, [tx], next), [Request("k", pc)])
  }

  lemma AloneStep(s: State, out: Outcome, tx: Tx, pc: Pc)
    requires |s.db.txs| == |s.requests| == 1 && s.requests[0].key == "k" && CanAnswer(s, 0, out)
    requires Effect(s.db, 0, StatementAt(s.requests[0]), out).txs == [tx] && Next(s.requests[0].pc, out) == pc
    ensures var db := Effect(s.db, 0, StatementAt(s.requests[0]), out);
      Step(s, Alone(db.rows, tx, db.next, pc))
  {
    var db := Effect(s.db, 0, StatementAt(s.requests[0]), out);
    assert s.requests[0 := s.requests[0].(pc := pc)] == [Request("k", pc)];
    assert Answer(s, 0, out) == Alone(db.rows, tx, db.next, pc);
  }

  const OPEN := Tx(Running, false, NoSavepoint)

  const SAVED := Tx(Running, false, SavedRows({}))

  const PAYMENT := Row(0, "k", 0)

  /** Where the request stands after `k` statements when only its audit insert fails. */
  function Stage(k: nat): State
    requires k <= 7
  {
    if k == 0 then Alone({}, OPEN, 0, CheckInvoice)
    else if k == 1 then Alone({}, OPEN, 0, PreCheck)
    else if k == 2 then Alone({}, OPEN, 0, Guard)
    else if k == 3 then Alone({}, SAVED, 0, TryInsert)
    else if k == 4 then Alone({PAYMENT}, SAVED, 1, Release(PAYMENT))
    else if k == 5 then Alone({PAYMENT}, OPEN, 1, Audit(PAYMENT))
    else if k == 6 then Alone({PAYMENT}, Tx(Running, true, NoSavepoint), 1, Finish(PAYMENT, false))
    else Alone({}, Tx(RolledBack, true, NoSavepoint), 1, Answered(PAYMENT, false))
  }

  lemma BeforeSavepoint()
    ensures Step(Stage(0), Stage(1)) && Step(Stage(1), Stage(2))
  {
    AloneStep(Stage(0), Passed, OPEN, PreCheck);
    AloneStep(Stage(1), NotFound, OPEN, Guard);
  }

  lemma AtSavepoint()
    ensures Step(Stage(2), Stage(3))
  {
    assert OwnRows(Stage(2).db, 0) == {};
    AloneStep(Stage(2), Done, SAVED, TryInsert);
  }

  lemma AtInsert()
    ensures Step(Stage(3), Stage(4))
  {
    assert {} + {PAYMENT} == {PAYMENT};
    AloneStep(Stage(3), Inserted(PAYMENT), SAVED, Release(PAYMENT));
  }

  lemma AtRelease()
    ensures Step(Stage(4), Stage(5))
  {
    AloneStep(Stage(4), Done, OPEN, Audit(PAYMENT));
  }

  lemma AtAudit()
    ensures Step(Stage(5), Stage(6))
  {
    AloneStep(Stage(5), OtherFailure, Tx(Running, true, NoSavepoint), Finish(PAYMENT, false));
  }

  lemma AtCommit()
    ensures Step(Stage(6), Stage(7))
  {
    assert OwnRows(Stage(6).db, 0) == {PAYMENT};
    AloneStep(Stage(6), Done, Tx(RolledBack, true, NoSavepoint), Answered(PAYMENT, false));
  }

  lemma LongerRun(run: seq<State>, keys: seq<string>, s: State)
    requires IsRun(run, keys) && Step(run[|run| - 1], s)
    ensures IsRun(run + [s], keys)
  {
    var longer := run + [s];
    forall i | 0 <= i < |longer| - 1
      ensures Step(longer[i], longer[i + 1])
    {
      assert longer[i] == run[i];
      assert i < |run| - 1 ==> Step(run[i], run[i + 1]);
    }
  }

  lemma {:induction false} StagesRun(k: nat) returns (run: seq<State>)
    requires k <= 7 && forall i :: 0 <= i < k ==> Step(Stage(i), Stage(i + 1))
    ensures IsRun(run, ["k"]) && run[|run| - 1] == Stage(k)
    decreases k
  {
    if k == 0 {
      run := [Stage(0)];
      assert Start(["k"]) == Stage(0);
    } else {
      var before := StagesRun(k - 1);
      assert Step(Stage(k - 1), Stage(k - 1 + 1));
      LongerRun(before, ["k"], Stage(k));
      run := before + [Stage(k)];
    }
  }

  lemma EveryStage(i: nat)
    requires i < 7
    ensures Step(Stage(i), Stage(i + 1))
  {
    if i < 2 {
      BeforeSavepoint();
    } else if i == 2 {
      AtSavepoint();
    } else if i == 3 {
      AtInsert();
    } else if i == 4 {
      AtRelease();
    } else if i == 5 {
      AtAudit();
    } else {
      AtCommit();
    }
  }

  /** The audit insert fails, the commit of the failed transaction is a rollback, and the client has been given
      a payment that does not exist. */
  lemma AnsweredButRolledBack() returns (run: seq<State>)
    ensures IsRun(run, ["k"])
    ensures var s := run[|run| - 1];
      |s.requests| == 1 && s.requests[0].pc.Answered? && !IsCommitted(s.db, 0) && s.db.rows == {}
  {
    forall i | 0 <= i < 7
      ensures Step(Stage(i), Stage(i + 1))
    {
      EveryStage(i);
    }
    run := StagesRun(7);
  }
}
