/** The two requests that catch a unique violation without a savepoint: `createBroadcast` of
    apps/api/src/modules/announcement/announcement.service.ts, which looks the winner up, and `createBatch` of
    apps/api/src/modules/billing/invoice.service.ts, which goes on with the next contract.

    The database is the one of the payment requests: after the violation the transaction is failed.
  */
module UnguardedInserts {
  import opened Postgres

  datatype Place =
    | LookUp
    | Prepare
    | Inserting(k: nat)
    | Caught
    | Auditing
    | Ending(audited: bool)
    | Throwing
    | Answered(audited: bool)
    | Failed

  /** A broadcast inserts one row under its idempotency key; a batch one for each contract and period.
      `conflicted` records that some insert met a unique violation, `named` the rows the answer will name. */
  datatype Client = Client(keys: seq<string>, isBatch: bool, place: Place, conflicted: bool, named: seq<Row>)

  datatype System = System(db: Db, clients: seq<Client>)

  predicate Over(place: Place) {
    place.Answered? || place.Failed?
  }

  predicate ValidClient(c: Client) {
    && (!c.isBatch ==> |c.keys| == 1)
    && (c.place.Inserting? ==> c.place.k < |c.keys|)
    && (c.place.LookUp? || c.place.Caught? ==> !c.isBatch)
  }

  function StatementOf(c: Client): Statement
    requires ValidClient(c) && !Over(c.place)
  {
    match c.place
    case LookUp => FindByKey(c.keys[0])
    case Prepare => Check
    case Inserting(k) => Insert(c.keys[k])
    case Caught => FindByKey(c.keys[0])
    case Auditing => InsertAudit
    case Ending(_) => Commit
    case Throwing => Rollback
  }

  /** Where the inserts go on after the first `k`. */
  function InsertFrom(c: Client, k: nat): Place {
    if k < |c.keys| then Inserting(k) else Auditing
  }

  function NextPlace(c: Client, out: Outcome): Place
    requires ValidClient(c) && !Over(c.place)
  {
    match c.place
    case LookUp => if out.Found? then Auditing else if out.NotFound? then Prepare else Throwing
    case Prepare => if out.Passed? then InsertFrom(c, 0) else Throwing
    case Inserting(k) =>
      if out.Inserted? then InsertFrom(c, k + 1)
      else if out.UniqueViolation? then if c.isBatch then InsertFrom(c, k + 1) else Caught
      else Throwing
    case Caught => if out.Found? then Auditing else Throwing
    case Auditing => Ending(out.Done?)
    case Ending(audited) => Answered(audited)
    case Throwing => Failed
  }

  function Moved(c: Client, out: Outcome): Client
    requires ValidClient(c) && !Over(c.place)
  {
    c.(place := NextPlace(c, out),
       conflicted := c.conflicted || (c.place.Inserting? && out.UniqueViolation?),
       named := c.named + Named(c.place, out))
  }

  function Named(place: Place, out: Outcome): seq<Row> {
    if place.Inserting? && out.Inserted? then [out.row]
    else if (place.LookUp? || place.Caught?) && out.Found? then [out.row]
    else []
  }

  /** A broadcast starts with the lookup of its key, a batch with its queries. */
  predicate AtStart(c: Client) {
    ValidClient(c) && !c.conflicted && c.named == [] && c.place == if c.isBatch then Prepare else LookUp
  }

  function Started(clients: seq<Client>): System {
    System(Db({}, seq(|clients|, i => Tx(Running, false, NoSavepoint)), 0), clients)
  }

  predicate Open(s: System, t: nat) {
    t < |s.clients| && t < |s.db.txs| && ValidClient(s.clients[t]) && !Over(s.clients[t].place)
  }

  predicate Answers(s: System, t: nat, out: Outcome) {
    Open(s, t) && Allowed(s.db, t, StatementOf(s.clients[t]), out)
  }

  function After(s: System, t: nat, out: Outcome): System
    requires Answers(s, t, out)
  {
    System(Effect(s.db, t, StatementOf(s.clients[t]), out), s.clients[t := Moved(s.clients[t], out)])
  }

  /** The connection dies: the transaction is rolled back, unless its COMMIT has reached the database. */
  function Crashed(s: System, t: nat, committing: bool): System
    requires CanCrash(s, t, committing)
  {
    System(if committing then Effect(s.db, t, Commit, Done) else EndByRollback(s.db, t),
           s.clients[t := s.clients[t].(place := Failed)])
  }

  ghost predicate Turn(s: System, s': System) {
    || (exists t: nat, out :: Answers(s, t, out) && s' == After(s, t, out))
    || (exists t: nat, committing :: CanCrash(s, t, committing) && s' == Crashed(s, t, committing))
  }

  predicate CanCrash(s: System, t: nat, committing: bool) {
    Open(s, t) && (committing ==> s.clients[t].place.Ending?)
  }

  ghost predicate IsRun(run: seq<System>, clients: seq<Client>) {
    && (forall c :: c in clients ==> AtStart(c))
    && run != [] && run[0] == Started(clients)
    && forall i :: 0 <= i < |run| - 1 ==> Turn(run[i], run[i + 1])
  }

  // ----- the invariant --------------------------------------------------------------------------

  /** A conflict leaves the transaction failed, and from then on it can only be rolled back. */
  predicate ClientInv(c: Client, tx: Tx) {
    && ValidClient(c) && tx.savepoint.NoSavepoint?
    && (tx.status.Running? <==> !Over(c.place))
    && (tx.aborted ==> !tx.status.Committed?)
    && (c.conflicted ==> tx.aborted && !c.place.LookUp? && !c.place.Prepare?)
    && (c.place.Caught? ==> c.conflicted)
    && (tx.aborted ==> c.conflicted || c.place.Throwing? || c.place.Ending? || Over(c.place))
    && (c.place.Ending? ==> (tx.aborted <==> !c.place.audited))
    && (c.place.Answered? ==> (tx.status.Committed? <==> c.place.audited))
    && (c.place.Auditing? || c.place.Ending? || c.place.Answered? ==> c.conflicted ==> c.isBatch)
  }

  /** The rows a request names are its own, which stand and fall with its transaction, or committed by others. */
  predicate NamedInv(s: System, t: nat)
    requires t < |s.clients| == |s.db.txs|
  {
    forall row :: row in s.clients[t].named ==>
      if row.owner == t then row in s.db.rows <==> !s.db.txs[t].status.RolledBack?
      else row in s.db.rows && IsCommitted(s.db, row.owner)
  }

  predicate SystemInv(s: System) {
    && |s.db.txs| == |s.clients|
    && (forall row :: row in s.db.rows ==> row.owner < |s.clients| && !s.db.txs[row.owner].status.RolledBack?)
    && forall t :: 0 <= t < |s.clients| ==> ClientInv(s.clients[t], s.db.txs[t]) && NamedInv(s, t)
  }

  lemma AnswerKeepsClient(s: System, t: nat, out: Outcome)
    requires SystemInv(s) && Answers(s, t, out)
    ensures |After(s, t, out).db.txs| == |s.clients|
    ensures ClientInv(After(s, t, out).clients[t], After(s, t, out).db.txs[t])
  {
    assert ClientInv(s.clients[t], s.db.txs[t]);
  }

  /** What the others rely on: only the client's own rows and its own transaction change. */
  predicate Keeps(s: System, s': System, t: nat) {
    && |s'.db.txs| == |s.db.txs| && |s'.clients| == |s.clients|
    && (forall u :: 0 <= u < |s.db.txs| && u != t ==> s'.db.txs[u] == s.db.txs[u])
    && (forall u :: 0 <= u < |s.clients| && u != t ==> s'.clients[u] == s.clients[u])
    && (forall row :: row in s.db.rows && row.owner != t ==> row in s'.db.rows)
    && (forall row :: row in s'.db.rows && row.owner != t ==> row in s.db.rows)
  }

  lemma OthersKeepInv(s: System, s': System, t: nat, u: nat)
    requires SystemInv(s) && Open(s, t) && Keeps(s, s', t) && u < |s.clients| && u != t
    ensures ClientInv(s'.clients[u], s'.db.txs[u]) && NamedInv(s', u)
  {
    assert ClientInv(s.clients[t], s.db.txs[t]) && NamedInv(s, u);
  }

  lemma AnswerKeepsRows(s: System, t: nat, out: Outcome)
    requires SystemInv(s) && Answers(s, t, out)
    ensures var s' := After(s, t, out);
      && Keeps(s, s', t)
      && forall row :: row in s'.db.rows ==>
           row.owner < |s.clients| && !s'.db.txs[row.owner].status.RolledBack?
  {
    assert ClientInv(s.clients[t], s.db.txs[t]);
  }

  lemma AnswerKeepsNamed(s: System, t: nat, out: Outcome)
    requires SystemInv(s) && Answers(s, t, out) && Keeps(s, After(s, t, out), t)
    ensures NamedInv(After(s, t, out), t)
  {
    assert ClientInv(s.clients[t], s.db.txs[t]) && NamedInv(s, t);
    var s' := After(s, t, out);
    forall row | row in s'.clients[t].named
      ensures if row.owner == t then row in s'.db.rows <==> !s'.db.txs[t].status.RolledBack?
              else row in s'.db.rows && IsCommitted(s'.db, row.owner)
    {
    }
  }

  lemma CrashKeepsInv(s: System, t: nat, committing: bool)
    requires SystemInv(s) && CanCrash(s, t, committing)
    ensures Keeps(s, Crashed(s, t, committing), t)
    ensures ClientInv(Crashed(s, t, committing).clients[t], Crashed(s, t, committing).db.txs[t])
    ensures NamedInv(Crashed(s, t, committing), t)
    ensures forall row :: row in Crashed(s, t, committing).db.rows ==>
      row.owner < |s.clients| && !Crashed(s, t, committing).db.txs[row.owner].status.RolledBack?
  {
    assert ClientInv(s.clients[t], s.db.txs[t]) && NamedInv(s, t);
  }

  lemma TurnKeepsInv(s: System, s': System)
    requires SystemInv(s) && Turn(s, s')
    ensures SystemInv(s') && |s'.clients| == |s.clients|
  {
    var t: nat;
    if u: nat, out :| Answers(s, u, out) && s' == After(s, u, out) {
      t := u;
      AnswerKeepsClient(s, t, out);
      AnswerKeepsRows(s, t, out);
      AnswerKeepsNamed(s, t, out);
    } else {
      var u: nat, committing :| CanCrash(s, u, committing) && s' == Crashed(s, u, committing);
      t := u;
      CrashKeepsInv(s, t, committing);
    }
    forall u: nat | u < |s.clients| && u != t
      ensures ClientInv(s'.clients[u], s'.db.txs[u]) && NamedInv(s', u)
    {
      OthersKeepInv(s, s', t, u);
    }
  }

  lemma {:induction false} RunsKeepInv(run: seq<System>, clients: seq<Client>, i: nat)
    requires IsRun(run, clients) && i < |run|
    ensures SystemInv(run[i]) && |run[i].clients| == |clients|
  {
    if i == 0 {
      forall t | 0 <= t < |clients|
        ensures ClientInv(run[0].clients[t], run[0].db.txs[t]) && NamedInv(run[0], t)
      {
        assert clients[t] in clients;
      }
    } else {
      RunsKeepInv(run, clients, i - 1);
      assert Turn(run[i - 1], run[i - 1 + 1]);
      TurnKeepsInv(run[i - 1], run[i]);
    }
  }

  // ----- main results -----------------------------------------------------------------------------

  /** In every reachable state: an answered request is committed if and only if its audit insert succeeded, and
      after a conflict it did not. A row that the answer names is in the table unless it is the request's own and
      the request is not committed. */
  lemma AnsweredIsCommittedIffAudited(run: seq<System>, clients: seq<Client>, i: nat, t: nat)
    requires IsRun(run, clients) && i < |run| && t < |run[i].clients| && run[i].clients[t].place.Answered?
    ensures var s, c := run[i], run[i].clients[t];
      && (IsCommitted(s.db, t) <==> c.place.audited)
      && (c.conflicted ==> !c.place.audited)
      && forall row :: row in c.named ==> (row in s.db.rows <==> row.owner != t || c.place.audited)
  {
    RunsKeepInv(run, clients, i);
    assert ClientInv(run[i].clients[t], run[i].db.txs[t]) && NamedInv(run[i], t);
  }

  /** In every reachable state, a request one of whose inserts met a conflict is not committed; when it is over
      it has left no row; a broadcast has then failed, and a batch has failed or been answered without its audit
      row. */
  lemma ConflictIsRolledBack(run: seq<System>, clients: seq<Client>, i: nat, t: nat)
    requires IsRun(run, clients) && i < |run| && t < |run[i].clients| && run[i].clients[t].conflicted
    ensures var s, c := run[i], run[i].clients[t];
      && t < |s.db.txs| && !IsCommitted(s.db, t)
      && (Over(c.place) ==> OwnRows(s.db, t) == {})
      && (!c.isBatch ==> !c.place.Answered?)
      && (c.place.Answered? ==> !c.place.audited)
  {
    RunsKeepInv(run, clients, i);
    assert ClientInv(run[i].clients[t], run[i].db.txs[t]);
  }

  function KeysOf(rows: seq<Row>): (keys: seq<string>)
    ensures |keys| == |rows|
  {
    seq(|rows|, i requires 0 <= i < |rows| => rows[i].key)
  }

  /** Without a conflict, a request names a row for every key it is through with. A batch names all but the key that
      conflicted, which was the one before. */
  predicate NamesInv(c: Client) {
    && (c.place.LookUp? || c.place.Prepare? ==> c.named == [])
    && (c.place.Inserting? && c.place.k < |c.keys| && !c.conflicted ==> KeysOf(c.named) == c.keys[..c.place.k])
    && (c.place.Inserting? && c.conflicted ==> 0 < c.place.k <= |c.keys| && KeysOf(c.named) == c.keys[..c.place.k - 1])
    && ((c.place.Auditing? || c.place.Ending? || c.place.Answered?) && !c.conflicted ==> KeysOf(c.named) == c.keys)
    && ((c.place.Auditing? || c.place.Ending? || c.place.Answered?) && c.conflicted ==>
          c.keys != [] && KeysOf(c.named) == c.keys[..|c.keys| - 1])
  }

  lemma MovedKeepsNames(db: Db, t: nat, c: Client, out: Outcome)
    requires t < |db.txs| && ClientInv(c, db.txs[t]) && !Over(c.place) && NamesInv(c)
    requires Allowed(db, t, StatementOf(c), out)
    ensures NamesInv(Moved(c, out))
  {
    if c.place.Inserting? {
      InsertKeepsNames(c, out, c.place.k);
    } else if c.place.LookUp? && out.Found? {
      assert c.named + [out.row] == [out.row] && KeysOf([out.row]) == [out.row.key] == c.keys;
    } else {
      assert Moved(c, out).named == c.named + Named(c.place, out);
      assert !out.Found? ==> c.named + [] == c.named;
      assert c.keys[..0] == [] && KeysOf([]) == [];
    }
  }

  /** What an insert names, if it was the first to fail or none has failed; after a conflict it is refused. */
  lemma InsertKeepsNames(c: Client, out: Outcome, k: nat)
    requires ValidClient(c) && NamesInv(c) && c.place == Inserting(k)
    requires c.conflicted ==> out.InFailedTransaction?
    requires out.Inserted? ==> out.row.key == c.keys[k]
    ensures NamesInv(Moved(c, out))
  {
    assert c.keys[..k + 1] == c.keys[..k] + [c.keys[k]] && c.keys[..|c.keys|] == c.keys;
    if out.Inserted? {
      KeysNext(c.named, out.row);
    } else {
      assert c.named + [] == c.named;
    }
  }

  lemma KeysNext(rows: seq<Row>, row: Row)
    ensures KeysOf(rows + [row]) == KeysOf(rows) + [row.key]
  {
  }

  lemma TurnKeepsNames(s: System, s': System, t: nat)
    requires SystemInv(s) && Turn(s, s') && t < |s.clients| && NamesInv(s.clients[t])
    ensures t < |s'.clients| && NamesInv(s'.clients[t])
  {
    assert ClientInv(s.clients[t], s.db.txs[t]);
    if u: nat, out :| Answers(s, u, out) && s' == After(s, u, out) {
      if u == t {
        MovedKeepsNames(s.db, t, s.clients[t], out);
      }
    } else {
      var u: nat, committing :| CanCrash(s, u, committing) && s' == Crashed(s, u, committing);
    }
  }

  lemma {:induction false} RunsKeepNames(run: seq<System>, clients: seq<Client>, i: nat, t: nat)
    requires IsRun(run, clients) && i < |run| && t < |clients|
    ensures t < |run[i].clients| && NamesInv(run[i].clients[t])
  {
    if i == 0 {
      assert clients[t] in clients;
    } else {
      RunsKeepNames(run, clients, i - 1, t);
      RunsKeepInv(run, clients, i - 1);
      assert Turn(run[i - 1], run[i - 1 + 1]);
      TurnKeepsNames(run[i - 1], run[i], t);
    }
  }

  /** A batch that is answered after a conflict has inserted an invoice for every contract but the last, whose insert
      conflicted; none of them is in the table. */
  lemma AnsweredAfterConflict(run: seq<System>, clients: seq<Client>, i: nat, t: nat)
    requires IsRun(run, clients) && i < |run| && t < |run[i].clients| && run[i].clients[t].place.Answered?
    requires run[i].clients[t].conflicted
    ensures var s, c := run[i], run[i].clients[t];
      && c.isBatch && c.keys != [] && KeysOf(c.named) == c.keys[..|c.keys| - 1]
      && forall row :: row in c.named && row.owner == t ==> row !in s.db.rows
  {
    AnsweredIsCommittedIffAudited(run, clients, i, t);
    ConflictIsRolledBack(run, clients, i, t);
    RunsKeepInv(run, clients, i);
    RunsKeepNames(run, clients, i, t);
  }

  predicate IsFailure(out: Outcome) {
    out.OtherFailure? || out.Refused?
  }

  /** A run in which no statement fails of its own and nobody crashes. */
  ghost predicate IsSmooth(run: seq<System>) {
    forall i :: 0 <= i < |run| - 1 ==> SmoothTurn(run[i], run[i + 1])
  }

  ghost predicate SmoothTurn(s: System, s': System) {
    exists t: nat, out :: Answers(s, t, out) && !IsFailure(out) && s' == After(s, t, out)
  }

  predicate FailsByConflict(c: Client) {
    c.place.Throwing? || c.place.Failed? ==> c.conflicted
  }

  lemma SmoothTurnKeeps(s: System, s': System, t: nat)
    requires SystemInv(s) && SmoothTurn(s, s') && t < |s.clients| && FailsByConflict(s.clients[t])
    ensures t < |s'.clients| && FailsByConflict(s'.clients[t])
  {
    assert ClientInv(s.clients[t], s.db.txs[t]);
  }

  /** When no statement fails of its own, only a conflict makes a request fail: a broadcast whose key is found by its
      first lookup is answered. */
  lemma {:induction false} OnlyConflictsFail(run: seq<System>, clients: seq<Client>, i: nat, t: nat)
    requires IsRun(run, clients) && IsSmooth(run) && i < |run| && t < |clients|
    ensures t < |run[i].clients|
    ensures run[i].clients[t].place.Throwing? || run[i].clients[t].place.Failed? ==> run[i].clients[t].conflicted
  {
    RunsKeepInv(run, clients, i);
    if i == 0 {
      assert clients[t] in clients;
    } else {
      OnlyConflictsFail(run, clients, i - 1, t);
      RunsKeepInv(run, clients, i - 1);
      assert SmoothTurn(run[i - 1], run[i - 1 + 1]);
      SmoothTurnKeeps(run[i - 1], run[i], t);
    }
  }

  /** In every reachable state, the answer of a committed request names one row for each of its keys, in order, and
      all of them are in the table. */
  lemma CommittedAnswerIsComplete(run: seq<System>, clients: seq<Client>, i: nat, t: nat)
    requires IsRun(run, clients) && i < |run| && t < |run[i].clients| && run[i].clients[t].place.Answered?
    requires IsCommitted(run[i].db, t)
    ensures var s, c := run[i], run[i].clients[t];
      && |c.named| == |c.keys|
      && forall k :: 0 <= k < |c.keys| ==> c.named[k].key == c.keys[k] && c.named[k] in s.db.rows
  {
    AnsweredIsCommittedIffAudited(run, clients, i, t);
    RunsKeepInv(run, clients, i);
    RunsKeepNames(run, clients, i, t);
    var c := run[i].clients[t];
    forall k | 0 <= k < |c.named|
      ensures c.named[k].key == KeysOf(c.named)[k] && c.named[k] in c.named
    {
    }
  }

  /** The lookup in the catch block of a broadcast never finds the winner: it is always refused. */
  lemma LookupIsRefused(run: seq<System>, clients: seq<Client>, i: nat, t: nat, out: Outcome)
    requires IsRun(run, clients) && i < |run| && Answers(run[i], t, out) && run[i].clients[t].place.Caught?
    ensures out.InFailedTransaction? && After(run[i], t, out).clients[t].place.Throwing?
  {
    RunsKeepInv(run, clients, i);
    assert ClientInv(run[i].clients[t], run[i].db.txs[t]);
  }

  /** After a conflict the next insert of a batch is refused as well. */
  lemma NextInsertIsRefused(run: seq<System>, clients: seq<Client>, i: nat, t: nat, out: Outcome)
    requires IsRun(run, clients) && i < |run| && Answers(run[i], t, out)
    requires run[i].clients[t].place.Inserting? && run[i].clients[t].conflicted
    ensures out.InFailedTransaction? && After(run[i], t, out).clients[t].place.Throwing?
  {
    RunsKeepInv(run, clients, i);
    assert ClientInv(run[i].clients[t], run[i].db.txs[t]);
  }

  // ----- two requests for one key ----------------------------------------------------------------

  const OPEN := Tx(Running, false, NoSavepoint)

  const COMMITTED := Tx(Committed, false, NoSavepoint)

  const FAILED := Tx(Running, true, NoSavepoint)

  const UNDONE := Tx(RolledBack, true, NoSavepoint)

  const WINNER := Row(0, "k", 0)

  lemma LongerRun(run: seq<System>, clients: seq<Client>, s: System)
    requires IsRun(run, clients) && Turn(run[|run| - 1], s)
    ensures IsRun(run + [s], clients)
  {
    var longer := run + [s];
    forall i | 0 <= i < |longer| - 1
      ensures Turn(longer[i], longer[i + 1])
    {
      assert longer[i] == run[i];
      assert i < |run| - 1 ==> Turn(run[i], run[i + 1]);
    }
  }

  /** Request `t` gets an answer, and the run goes on. */
  lemma Extend(run: seq<System>, clients: seq<Client>, t: nat, out: Outcome, s: System) returns (longer: seq<System>)
    requires IsRun(run, clients) && Answers(run[|run| - 1], t, out)
    requires s.db == Effect(run[|run| - 1].db, t, StatementOf(run[|run| - 1].clients[t]), out)
    requires |s.clients| == |run[|run| - 1].clients|
    requires forall u :: 0 <= u < |s.clients| && u != t ==> s.clients[u] == run[|run| - 1].clients[u]
    requires var c := Moved(run[|run| - 1].clients[t], out);
      s.clients[t].named == c.named && s.clients[t] == c.(named := s.clients[t].named)
    ensures IsRun(longer, clients) && longer[|longer| - 1] == s
  {
    var c := Moved(run[|run| - 1].clients[t], out);
    assert s.clients == run[|run| - 1].clients[t := c];
    assert s == After(run[|run| - 1], t, out);
    LongerRun(run, clients, s);
    longer := run + [s];
  }

  /** Two requests of one kind. The first has the key "k"; the second has `keys`. */
  function Pair(isBatch: bool, keys: seq<string>, rows: set<Row>, next: nat, tx0: Tx, place0: Place, named0: seq<Row>,
                tx1: Tx, place1: Place, conflicted: bool, named1: seq<Row>): System
  {
    System(Db(rows, [tx0, tx1], next),
           [Client(["k"], isBatch, place0, false, named0), Client(keys, isBatch, place1, conflicted, named1)])
  }

  function PairAtStart(isBatch: bool, keys: seq<string>): seq<Client> {
    var first := if isBatch then Prepare else LookUp;
    [Client(["k"], isBatch, first, false, []), Client(keys, isBatch, first, false, [])]
  }

  lemma BothPrepare(isBatch: bool, keys: seq<string>) returns (run: seq<System>)
    requires keys != [] && (!isBatch ==> keys == ["k"])
    ensures IsRun(run, PairAtStart(isBatch, keys))
    ensures run[|run| - 1] == Pair(isBatch, keys, {}, 0, OPEN, Prepare, [], OPEN, Prepare, false, [])
  {
    var clients := PairAtStart(isBatch, keys);
    run := [Started(clients)];
    assert Started(clients).db.txs == [OPEN, OPEN];
    if !isBatch {
      run := Extend(run, clients, 0, NotFound,
                    Pair(false, keys, {}, 0, OPEN, Prepare, [], OPEN, LookUp, false, []));
      run := Extend(run, clients, 1, NotFound,
                    Pair(false, keys, {}, 0, OPEN, Prepare, [], OPEN, Prepare, false, []));
    }
  }

  /** Both have made their checks before either inserts. */
  lemma BothInsert(isBatch: bool, keys: seq<string>) returns (run: seq<System>)
    requires keys != [] && (!isBatch ==> keys == ["k"])
    ensures IsRun(run, PairAtStart(isBatch, keys))
    ensures run[|run| - 1] == Pair(isBatch, keys, {}, 0, OPEN, Inserting(0), [], OPEN, Inserting(0), false, [])
  {
    var clients := PairAtStart(isBatch, keys);
    run := BothPrepare(isBatch, keys);
    run := Extend(run, clients, 0, Passed,
                  Pair(isBatch, keys, {}, 0, OPEN, Inserting(0), [], OPEN, Prepare, false, []));
    run := Extend(run, clients, 1, Passed,
                  Pair(isBatch, keys, {}, 0, OPEN, Inserting(0), [], OPEN, Inserting(0), false, []));
  }

  lemma FirstInserts(isBatch: bool, keys: seq<string>) returns (run: seq<System>)
    requires keys != [] && (!isBatch ==> keys == ["k"])
    ensures IsRun(run, PairAtStart(isBatch, keys))
    ensures run[|run| - 1] == Pair(isBatch, keys, {WINNER}, 1, OPEN, Auditing, [WINNER],
                                   OPEN, Inserting(0), false, [])
  {
    var clients := PairAtStart(isBatch, keys);
    run := BothInsert(isBatch, keys);
    assert {} + {WINNER} == {WINNER};
    run := Extend(run, clients, 0, Inserted(WINNER),
                  Pair(isBatch, keys, {WINNER}, 1, OPEN, Auditing, [WINNER], OPEN, Inserting(0), false, []));
  }

  lemma FirstCommits(isBatch: bool, keys: seq<string>) returns (run: seq<System>)
    requires keys != [] && (!isBatch ==> keys == ["k"])
    ensures IsRun(run, PairAtStart(isBatch, keys))
    ensures run[|run| - 1] == Pair(isBatch, keys, {WINNER}, 1, COMMITTED, Answered(true), [WINNER],
                                   OPEN, Inserting(0), false, [])
  {
    var clients := PairAtStart(isBatch, keys);
    run := FirstInserts(isBatch, keys);
    run := Extend(run, clients, 0, Done,
                  Pair(isBatch, keys, {WINNER}, 1, OPEN, Ending(true), [WINNER], OPEN, Inserting(0), false, []));
    run := Extend(run, clients, 0, Done,
                  Pair(isBatch, keys, {WINNER}, 1, COMMITTED, Answered(true), [WINNER],
                       OPEN, Inserting(0), false, []));
  }

  /** The second request, when the first has committed its row. */
  function Second(isBatch: bool, keys: seq<string>, rows: set<Row>, next: nat, tx: Tx, place: Place,
                  conflicted: bool, named: seq<Row>): System
  {
    Pair(isBatch, keys, rows, next, COMMITTED, Answered(true), [WINNER], tx, place, conflicted, named)
  }

  /** Two broadcasts with one key: the second is refused, although the announcement it should return is
      committed and in the table. */
  lemma SecondBroadcastFails() returns (run: seq<System>)
    ensures IsRun(run, PairAtStart(false, ["k"]))
    ensures run[|run| - 1] == Second(false, ["k"], {WINNER}, 1, UNDONE, Failed, true, [])
  {
    var clients := PairAtStart(false, ["k"]);
    run := FirstCommits(false, ["k"]);
    var s := run[|run| - 1];
    assert WINNER in s.db.rows && Visible(s.db, 1, WINNER);
    run := Extend(run, clients, 1, UniqueViolation, Second(false, ["k"], {WINNER}, 1, FAILED, Caught, true, []));
    run := Extend(run, clients, 1, InFailedTransaction, Second(false, ["k"], {WINNER}, 1, FAILED, Throwing, true, []));
    assert OwnRows(run[|run| - 1].db, 1) == {};
    run := Extend(run, clients, 1, Done, Second(false, ["k"], {WINNER}, 1, UNDONE, Failed, true, []));
  }

  const GHOST := Row(1, "a", 1)

  /** The second of two batches has inserted an invoice of its own before it meets the conflict. */
  lemma SecondBatchConflicts() returns (run: seq<System>)
    ensures IsRun(run, PairAtStart(true, ["a", "k"]))
    ensures run[|run| - 1] == Second(true, ["a", "k"], {WINNER, GHOST}, 2, FAILED, Auditing, true, [GHOST])
  {
    var clients := PairAtStart(true, ["a", "k"]);
    run := FirstCommits(true, ["a", "k"]);
    assert {WINNER} + {GHOST} == {WINNER, GHOST};
    run := Extend(run, clients, 1, Inserted(GHOST),
                  Second(true, ["a", "k"], {WINNER, GHOST}, 2, OPEN, Inserting(1), false, [GHOST]));
    var s := run[|run| - 1];
    assert WINNER in s.db.rows && Visible(s.db, 1, WINNER);
    run := Extend(run, clients, 1, UniqueViolation,
                  Second(true, ["a", "k"], {WINNER, GHOST}, 2, FAILED, Auditing, true, [GHOST]));
  }

  /** Two batches that share a contract: the second inserts the invoice of another contract, skips the shared one
      as a duplicate, its audit row is refused, and it is answered with an invoice that is not in the table. */
  lemma SecondBatchAnsweredButRolledBack() returns (run: seq<System>)
    ensures IsRun(run, PairAtStart(true, ["a", "k"]))
    ensures run[|run| - 1] == Second(true, ["a", "k"], {WINNER}, 2, UNDONE, Answered(false), true, [GHOST])
    ensures GHOST !in run[|run| - 1].db.rows
  {
    var clients := PairAtStart(true, ["a", "k"]);
    run := SecondBatchConflicts();
    run := Extend(run, clients, 1, InFailedTransaction,
                  Second(true, ["a", "k"], {WINNER, GHOST}, 2, FAILED, Ending(false), true, [GHOST]));
    assert OwnRows(run[|run| - 1].db, 1) == {GHOST};
    assert {WINNER, GHOST} - {GHOST} == {WINNER};
    run := Extend(run, clients, 1, Done,
                  Second(true, ["a", "k"], {WINNER}, 2, UNDONE, Answered(false), true, [GHOST]));
  }
}
