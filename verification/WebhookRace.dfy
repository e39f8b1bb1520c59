/** Concurrent deliveries of LINE events: `persistAndEnqueue` of
    apps/api/src/modules/line/line-webhook.service.ts, each call in a READ COMMITTED transaction of its own.

    Any number of calls interleave statement by statement. A call that meets the unique index catches the
    violation without a savepoint and counts the event as a duplicate; its commit is then a rollback.
  */
module WebhookRace {
  import opened Postgres

  datatype Place =
    | LookUp
    | Inserting
    | Ending(isNew: bool)
    | Throwing
    | Counted(isNew: bool)
    | Failed

  datatype Call = Call(eventId: string, place: Place)

  datatype State = State(db: Db, calls: seq<Call>)

  predicate Over(place: Place) {
    place.Counted? || place.Failed?
  }

  function StatementOf(c: Call): Statement
    requires !Over(c.place)
  {
    match c.place
    case LookUp => FindByKey(c.eventId)
    case Inserting => Insert(c.eventId)
    case Ending(_) => Commit
    case Throwing => Rollback
  }

  function NextPlace(place: Place, out: Outcome): Place
    requires !Over(place)
  {
    match place
    case LookUp => if out.Found? then Ending(false) else if out.NotFound? then Inserting else Throwing
    case Inserting => if out.Inserted? then Ending(true) else if out.UniqueViolation? then Ending(false) else Throwing
    case Ending(isNew) => Counted(isNew)
    case Throwing => Failed
  }

  function Start(eventIds: seq<string>): State {
    State(Db({}, seq(|eventIds|, i => Tx(Running, false, NoSavepoint)), 0),
          seq(|eventIds|, i requires 0 <= i < |eventIds| => Call(eventIds[i], LookUp)))
  }

  predicate Active(s: State, t: nat) {
    t < |s.calls| && t < |s.db.txs| && !Over(s.calls[t].place)
  }

  predicate CanAnswer(s: State, t: nat, out: Outcome) {
    Active(s, t) && Allowed(s.db, t, StatementOf(s.calls[t]), out)
  }

  function Answer(s: State, t: nat, out: Outcome): State
    requires CanAnswer(s, t, out)
  {
    var c := s.calls[t];
    State(Effect(s.db, t, StatementOf(c), out), s.calls[t := c.(place := NextPlace(c.place, out))])
  }

  predicate CanCrash(s: State, t: nat, committing: bool) {
    Active(s, t) && (committing ==> s.calls[t].place.Ending?)
  }

  /** The connection dies: the transaction is rolled back, unless its COMMIT has reached the database. */
  function Crash(s: State, t: nat, committing: bool): State
    requires CanCrash(s, t, committing)
  {
    State(if committing then Effect(s.db, t, Commit, Done) else EndByRollback(s.db, t),
          s.calls[t := s.calls[t].(place := Failed)])
  }

  ghost predicate Step(s: State, s': State) {
    || (exists t: nat, out :: CanAnswer(s, t, out) && s' == Answer(s, t, out))
    || (exists t: nat, committing :: CanCrash(s, t, committing) && s' == Crash(s, t, committing))
  }

  ghost predicate IsRun(run: seq<State>, eventIds: seq<string>) {
    && run != [] && run[0] == Start(eventIds)
    && forall i :: 0 <= i < |run| - 1 ==> Step(run[i], run[i + 1])
  }

  // ----- the invariant --------------------------------------------------------------------------

  predicate TableInv(s: State) {
    && |s.db.txs| == |s.calls|
    && (forall row :: row in s.db.rows ==>
         && row.owner < |s.calls| && row.key == s.calls[row.owner].eventId
         && !s.db.txs[row.owner].status.RolledBack?)
    && (forall row, other :: row in s.db.rows && other in s.db.rows && row.key == other.key ==> row == other)
  }

  predicate TxInv(place: Place, tx: Tx) {
    && (tx.status.Running? <==> !Over(place))
    && (tx.aborted ==> place.Throwing? || place == Ending(false) || Over(place))
    && (tx.aborted ==> !tx.status.Committed?)
    && (place == Counted(true) ==> tx.status.Committed?)
  }

  /** A call has a row of its own exactly from its insert on; a duplicate has seen the row of another. */
  predicate RowInv(s: State, t: nat)
    requires t < |s.calls| == |s.db.txs|
  {
    var c := s.calls[t];
    && (c.place.LookUp? || c.place.Inserting? || c.place == Ending(false) || c.place == Counted(false)
        ==> OwnRows(s.db, t) == {})
    && (c.place == Ending(true) || c.place == Counted(true) ==> Owns(s.db, t, c.eventId))
    && (c.place == Ending(false) || c.place == Counted(false) ==> CommittedKey(s.db, c.eventId))
  }

  predicate Owns(db: Db, t: TxId, key: string) {
    exists row :: row in db.rows && row.key == key && row.owner == t
  }

  predicate CommittedKey(db: Db, key: string) {
    exists row :: row in db.rows && row.key == key && IsCommitted(db, row.owner)
  }

  predicate Inv(s: State) {
    TableInv(s) && forall t :: 0 <= t < |s.calls| ==> TxInv(s.calls[t].place, s.db.txs[t]) && RowInv(s, t)
  }

  predicate Keeps(s: State, s': State, t: nat) {
    && |s'.db.txs| == |s.db.txs| && |s'.calls| == |s.calls|
    && (forall u :: 0 <= u < |s.db.txs| && u != t ==> s'.db.txs[u] == s.db.txs[u])
    && (forall u :: 0 <= u < |s.calls| && u != t ==> s'.calls[u] == s.calls[u])
    && (forall row :: row in s.db.rows && row.owner != t ==> row in s'.db.rows)
    && (forall row :: row in s'.db.rows && row.owner != t ==> row in s.db.rows)
  }

  /** A committed row belongs to a call that is over. */
  lemma CommittedKeyStays(s: State, s': State, t: nat, key: string)
    requires Inv(s) && Active(s, t) && Keeps(s, s', t) && CommittedKey(s.db, key)
    ensures CommittedKey(s'.db, key)
  {
    var row :| row in s.db.rows && row.key == key && IsCommitted(s.db, row.owner);
    assert TxInv(s.calls[t].place, s.db.txs[t]);
    assert row in s'.db.rows && IsCommitted(s'.db, row.owner);
  }

  lemma OthersKeepInv(s: State, s': State, t: nat, u: nat)
    requires Inv(s) && Active(s, t) && Keeps(s, s', t) && u < |s.calls| && u != t
    ensures TxInv(s'.calls[u].place, s'.db.txs[u]) && RowInv(s', u)
  {
    var c := s.calls[u];
    assert TxInv(c.place, s.db.txs[u]) && RowInv(s, u);
    assert OwnRows(s'.db, u) == OwnRows(s.db, u);
    if c.place == Ending(true) || c.place == Counted(true) {
      var row :| row in s.db.rows && row.key == c.eventId && row.owner == u;
      assert row in s'.db.rows;
    }
    if c.place == Ending(false) || c.place == Counted(false) {
      CommittedKeyStays(s, s', t, c.eventId);
    }
  }

  lemma AnswerKeepsTable(s: State, t: nat, out: Outcome)
    requires Inv(s) && CanAnswer(s, t, out)
    ensures Keeps(s, Answer(s, t, out), t) && TableInv(Answer(s, t, out))
  {
    assert TxInv(s.calls[t].place, s.db.txs[t]) && RowInv(s, t);
    if out.Inserted? {
      assert !HoldsKey(s.db, s.calls[t].eventId);
    }
  }

  lemma AnswerKeepsTx(s: State, t: nat, out: Outcome)
    requires Inv(s) && CanAnswer(s, t, out)
    ensures |Answer(s, t, out).db.txs| == |s.calls|
    ensures TxInv(Answer(s, t, out).calls[t].place, Answer(s, t, out).db.txs[t])
  {
    assert TxInv(s.calls[t].place, s.db.txs[t]) && RowInv(s, t);
  }

  /** What the lookup or the unique index has met is the committed row of another call. */
  lemma SeenIsCommitted(s: State, t: nat)
    requires Inv(s) && Active(s, t) && OwnRows(s.db, t) == {} && SeesKey(s.db, t, s.calls[t].eventId)
    ensures CommittedKey(s.db, s.calls[t].eventId)
  {
    var row :| row in s.db.rows && row.key == s.calls[t].eventId && Visible(s.db, t, row);
    assert row !in OwnRows(s.db, t);
  }

  lemma AnswerKeepsRow(s: State, t: nat, out: Outcome)
    requires Inv(s) && CanAnswer(s, t, out) && Keeps(s, Answer(s, t, out), t)
    ensures RowInv(Answer(s, t, out), t)
  {
    assert TxInv(s.calls[t].place, s.db.txs[t]) && RowInv(s, t);
    var c, s' := s.calls[t], Answer(s, t, out);
    match c.place
    case LookUp =>
      if out.Found? {
        SeenIsCommitted(s, t);
      }
    case Inserting =>
      if out.UniqueViolation? {
        SeenIsCommitted(s, t);
        CommittedKeyStays(s, s', t, c.eventId);
      } else if out.Inserted? {
        assert out.row in s'.db.rows;
      }
    case Ending(isNew) =>
      if isNew {
        var row :| row in s.db.rows && row.key == c.eventId && row.owner == t;
        assert row in s'.db.rows;
      } else {
        CommittedKeyStays(s, s', t, c.eventId);
      }
    case Throwing =>
  }

  lemma CrashKeepsInv(s: State, t: nat, committing: bool)
    requires Inv(s) && CanCrash(s, t, committing)
    ensures Keeps(s, Crash(s, t, committing), t) && TableInv(Crash(s, t, committing))
    ensures TxInv(Crash(s, t, committing).calls[t].place, Crash(s, t, committing).db.txs[t])
  {
    assert TxInv(s.calls[t].place, s.db.txs[t]) && RowInv(s, t);
  }

  lemma StepKeepsInv(s: State, s': State)
    requires Inv(s) && Step(s, s')
    ensures Inv(s') && |s'.calls| == |s.calls|
    ensures forall t :: 0 <= t < |s.calls| ==> s'.calls[t].eventId == s.calls[t].eventId
  {
    var t: nat;
    if u: nat, out :| CanAnswer(s, u, out) && s' == Answer(s, u, out) {
      t := u;
      AnswerKeepsTable(s, t, out);
      AnswerKeepsTx(s, t, out);
      AnswerKeepsRow(s, t, out);
    } else {
      var u: nat, committing :| CanCrash(s, u, committing) && s' == Crash(s, u, committing);
      t := u;
      CrashKeepsInv(s, t, committing);
    }
    forall u: nat | u < |s.calls| && u != t
      ensures TxInv(s'.calls[u].place, s'.db.txs[u]) && RowInv(s', u)
    {
      OthersKeepInv(s, s', t, u);
    }
  }

  lemma {:induction false} RunsKeepInv(run: seq<State>, eventIds: seq<string>, i: nat)
    requires IsRun(run, eventIds) && i < |run|
    ensures Inv(run[i]) && |run[i].calls| == |eventIds|
    ensures forall t :: 0 <= t < |eventIds| ==> run[i].calls[t].eventId == eventIds[t]
  {
    if i > 0 {
      RunsKeepInv(run, eventIds, i - 1);
      assert Step(run[i - 1], run[i - 1 + 1]);
      StepKeepsInv(run[i - 1], run[i]);
    }
  }

  // ----- main results -----------------------------------------------------------------------------

  predicate IsTheRow(db: Db, key: string, row: Row) {
    && row in db.rows && row.key == key && IsCommitted(db, row.owner)
    && forall other :: other in db.rows && other.key == key ==> other == row
  }

  /** In every reachable state: when a call has counted an event, as new or as a duplicate, the table has one row
      for it, and that row is committed. The call counted it as new if and only if the row is its own. */
  lemma CountedNewIffOwn(run: seq<State>, eventIds: seq<string>, i: nat, t: nat) returns (row: Row)
    requires IsRun(run, eventIds) && i < |run| && t < |run[i].calls| && run[i].calls[t].place.Counted?
    ensures IsTheRow(run[i].db, run[i].calls[t].eventId, row)
    ensures run[i].calls[t].place.isNew <==> row.owner == t
  {
    RunsKeepInv(run, eventIds, i);
    var s := run[i];
    assert TxInv(s.calls[t].place, s.db.txs[t]) && RowInv(s, t);
    if s.calls[t].place.isNew {
      row :| row in s.db.rows && row.key == s.calls[t].eventId && row.owner == t;
    } else {
      row :| row in s.db.rows && row.key == s.calls[t].eventId && IsCommitted(s.db, row.owner);
      assert row !in OwnRows(s.db, t);
    }
  }

  /** However often an event is delivered at the same time: when every call for it has counted it, exactly one
      counted it as new, and all others as a duplicate. */
  lemma OneCountsAsNew(run: seq<State>, eventIds: seq<string>, i: nat, t: nat) returns (first: nat)
    requires IsRun(run, eventIds) && i < |run| && t < |run[i].calls| && run[i].calls[t].place.Counted?
    requires forall u :: 0 <= u < |run[i].calls| && run[i].calls[u].eventId == run[i].calls[t].eventId ==>
      run[i].calls[u].place.Counted?
    ensures first < |run[i].calls| && run[i].calls[first].eventId == run[i].calls[t].eventId
    ensures forall u :: 0 <= u < |run[i].calls| && run[i].calls[u].eventId == run[i].calls[t].eventId ==>
      (run[i].calls[u].place.isNew <==> u == first)
  {
    RunsKeepInv(run, eventIds, i);
    var s := run[i];
    var row := CountedNewIffOwn(run, eventIds, i, t);
    first := row.owner;
    forall u | 0 <= u < |s.calls| && s.calls[u].eventId == s.calls[t].eventId
      ensures s.calls[u].place.isNew <==> u == first
    {
      var other := CountedNewIffOwn(run, eventIds, i, u);
      assert other == row;
    }
  }

  /** No two calls ever count one event as new, whatever became of the others. */
  lemma NewAtMostOnce(run: seq<State>, eventIds: seq<string>, i: nat, t: nat, u: nat)
    requires IsRun(run, eventIds) && i < |run| && t < |run[i].calls| && u < |run[i].calls|
    requires run[i].calls[t].eventId == run[i].calls[u].eventId
    requires run[i].calls[t].place == Counted(true) && run[i].calls[u].place == Counted(true)
    ensures t == u
  {
    var row := CountedNewIffOwn(run, eventIds, i, t);
    var other := CountedNewIffOwn(run, eventIds, i, u);
    assert other == row;
  }

  // ----- when nothing fails -----------------------------------------------------------------------

  ghost predicate SmoothStep(s: State, s': State) {
    exists t: nat, out :: CanAnswer(s, t, out) && !out.OtherFailure? && s' == Answer(s, t, out)
  }

  ghost predicate IsSmooth(run: seq<State>) {
    forall i :: 0 <= i < |run| - 1 ==> SmoothStep(run[i], run[i + 1])
  }

  ghost predicate CanGoOn(s: State, t: nat) {
    exists out :: CanAnswer(s, t, out) && !out.OtherFailure?
  }

  ghost predicate IsAtRest(s: State) {
    forall t: nat :: !CanGoOn(s, t)
  }

  predicate OnTrack(place: Place) {
    !place.Throwing? && !place.Failed?
  }

  lemma StaysOnTrack(s: State, s': State, t: nat)
    requires Inv(s) && SmoothStep(s, s') && t < |s.calls| && OnTrack(s.calls[t].place)
    ensures t < |s'.calls| && OnTrack(s'.calls[t].place)
  {
    assert TxInv(s.calls[t].place, s.db.txs[t]);
  }

  lemma {:induction false} SmoothRunsStayOnTrack(run: seq<State>, eventIds: seq<string>, i: nat, t: nat)
    requires IsRun(run, eventIds) && IsSmooth(run) && i < |run| && t < |eventIds|
    ensures t < |run[i].calls| && OnTrack(run[i].calls[t].place)
  {
    RunsKeepInv(run, eventIds, i);
    if i > 0 {
      RunsKeepInv(run, eventIds, i - 1);
      SmoothRunsStayOnTrack(run, eventIds, i - 1, t);
      assert SmoothStep(run[i - 1], run[i - 1 + 1]);
      StaysOnTrack(run[i - 1], run[i], t);
    }
  }

  lemma UnblockedGoesOn(s: State, t: nat)
    requires Inv(s) && Active(s, t)
    requires s.calls[t].place.Inserting? ==> SeesKey(s.db, t, s.calls[t].eventId) || !HoldsKey(s.db, s.calls[t].eventId)
    ensures CanGoOn(s, t)
  {
    var c := s.calls[t];
    assert TxInv(c.place, s.db.txs[t]);
    match c.place
    case LookUp =>
      if SeesKey(s.db, t, c.eventId) {
        var row :| row in s.db.rows && row.key == c.eventId && Visible(s.db, t, row);
        assert CanAnswer(s, t, Found(row));
      } else {
        assert CanAnswer(s, t, NotFound);
      }
    case Inserting =>
      if SeesKey(s.db, t, c.eventId) {
        assert CanAnswer(s, t, UniqueViolation);
      } else {
        assert CanAnswer(s, t, Inserted(Row(s.db.next, c.eventId, t)));
      }
    case Ending(_) => assert CanAnswer(s, t, Done);
    case Throwing => assert CanAnswer(s, t, Done);
  }

  /** A call that waits for a row waits for one that is about to commit. */
  lemma SomeoneGoesOn(s: State, t: nat)
    requires Inv(s) && Active(s, t)
    ensures exists u: nat :: CanGoOn(s, u)
  {
    var c := s.calls[t];
    if c.place.Inserting? && !SeesKey(s.db, t, c.eventId) && HoldsKey(s.db, c.eventId) {
      var row :| row in s.db.rows && row.key == c.eventId;
      var u := row.owner;
      assert !Visible(s.db, t, row);
      assert TxInv(s.calls[u].place, s.db.txs[u]) && RowInv(s, u);
      assert row in OwnRows(s.db, u);
      UnblockedGoesOn(s, u);
    } else {
      UnblockedGoesOn(s, t);
    }
  }

  /** A run without failures that goes on as long as it can ends with every call having counted its event: one call
      as new, and all others for the same event, conflicts included, as a duplicate. */
  lemma EveryCallCounts(run: seq<State>, eventIds: seq<string>, t: nat) returns (first: nat)
    requires IsRun(run, eventIds) && IsSmooth(run) && IsAtRest(run[|run| - 1]) && t < |eventIds|
    ensures var s := run[|run| - 1];
      && |s.calls| == |eventIds| && first < |eventIds| && eventIds[first] == eventIds[t]
      && forall u :: 0 <= u < |eventIds| && eventIds[u] == eventIds[t] ==> s.calls[u].place == Counted(u == first)
  {
    var last := |run| - 1;
    var s := run[last];
    RunsKeepInv(run, eventIds, last);
    forall u: nat | u < |eventIds|
      ensures s.calls[u].place.Counted?
    {
      SmoothRunsStayOnTrack(run, eventIds, last, u);
      assert TxInv(s.calls[u].place, s.db.txs[u]);
      if Active(s, u) {
        SomeoneGoesOn(s, u);
      }
    }
    first := OneCountsAsNew(run, eventIds, last, t);
  }
}
