/** The announcement fan-out: one job per recipient in a queue that drops jobs whose id it has, workers
    with retries (line-notification.processor.ts), and two counters and a status on one shared row.

    A counter update is a transaction of two statements under the row lock; it can be lost, because the
    processor logs and swallows its errors, and it is always lost while the transaction that creates the
    announcement has not committed, because the row is not there yet.
  */
module Fanout {
  import opened Numerals

  // ----- job ids ------------------------------------------------------------------------

  predicate NoColon(s: string) {
    forall i :: 0 <= i < |s| ==> s[i] != ':'
  }

  /** `buildNotificationJobId` */
  function JobId(kind: string, tenantId: string, resourceId: string): string {
    "notify:" + kind + ":" + tenantId + ":" + resourceId
  }

  /** Kinds and UUIDs contain no colon, so different triples have different job ids. */
  lemma JobIdInjective(kind: string, t: string, r: string, kind': string, t': string, r': string)
    requires NoColon(kind) && NoColon(kind') && NoColon(t) && NoColon(t')
    ensures JobId(kind, t, r) == JobId(kind', t', r') <==> kind == kind' && t == t' && r == r'
  {
    if JobId(kind, t, r) == JobId(kind', t', r') {
      var id, id' := JobId(kind, t, r), JobId(kind', t', r');
      assert id[7..] == kind + ":" + (t + ":" + r) && id'[7..] == kind' + ":" + (t' + ":" + r');
      SameAround(':', kind, t + ":" + r, kind', t' + ":" + r');
      SameAround(':', t, r, t', r');
    }
  }

  // ----- the announcement row -------------------------------------------------------------

  datatype Status = Sending | Sent | Failed

  datatype Row = Row(status: Status, delivered: nat, failed: nat)

  function Incremented(row: Row, delivered: bool): Row {
    if delivered then row.(delivered := row.delivered + 1) else row.(failed := row.failed + 1)
  }

  /** The conditional update behind the increment. */
  function Flipped(row: Row, total: nat): Row {
    if row.delivered + row.failed < total || !row.status.Sending? then row
    else row.(status := if row.delivered > 0 then Sent else Failed)
  }

  /** What the status should be. */
  function StatusFor(delivered: nat, failed: nat, total: nat): Status {
    if delivered + failed < total then Sending else if delivered > 0 then Sent else Failed
  }

  class AnnouncementTable {
    var status: Status
    var deliveredCount: nat
    var failedCount: nat

    function Value(): Row
      reads this
    {
      Row(status, deliveredCount, failedCount)
    }

    constructor ()
      ensures Value() == Row(Sending, 0, 0)
    {
      status, deliveredCount, failedCount := Sending, 0, 0;
    }

    /** `bumpAnnouncementCounter` */
    method BumpAnnouncementCounter(delivered: bool, totalRecipients: nat)
      modifies this
      ensures Value() == Flipped(Incremented(old(Value()), delivered), totalRecipients)
      ensures old(status).Sending? && old(deliveredCount) + old(failedCount) < totalRecipients ==>
        status == StatusFor(deliveredCount, failedCount, totalRecipients)
    {
      if delivered {
        deliveredCount := deliveredCount + 1;
      } else {
        failedCount := failedCount + 1;
      }
      var accounted := deliveredCount + failedCount;
      if accounted < totalRecipients {
        return;
      }
      if status == Sending {
        status := if deliveredCount > 0 then Sent else Failed;
      }
    }
  }

  // ----- the system -----------------------------------------------------------------------

  const MAX_ATTEMPTS := 3

  datatype JobPhase = Waiting | Running | Reporting(delivered: bool) | Counted(delivered: bool) | Lost

  datatype Job = Job(attemptsMade: nat, phase: JobPhase)

  datatype Creation = Open | Live | RolledBack

  /** The counter transaction that holds the row lock, with the row as it has left it so far. */
  datatype Bump = NoBump | Bump(id: string, row: Row)

  datatype State = State(
    creation: Creation,
    row: Row,
    bump: Bump,
    jobs: map<string, Job>,
    unsent: set<string>,
    unqueued: set<string>)

  datatype Broadcast = Broadcast(announcementId: string, tenantIds: set<string>)

  predicate ValidBroadcast(b: Broadcast) {
    b.tenantIds != {} && forall t :: t in b.tenantIds ==> NoColon(t)
  }

  function IdOf(b: Broadcast, tenantId: string): string {
    JobId("announcement", tenantId, b.announcementId)
  }

  function Total(b: Broadcast): nat {
    |b.tenantIds|
  }

  function Start(b: Broadcast): State {
    State(Open, Row(Sending, 0, 0), NoBump, map[], b.tenantIds, {})
  }

  datatype Event =
    | Enqueue(tenantId: string)
    | EnqueueFails(tenantId: string)
    | CommitCreation
    | RollBackCreation
    | Take(id: string)
    | Settle(id: string, delivered: bool)
    | Throw(id: string)
    | Increment(id: string)
    | FinishBump
    | LoseBump(id: string)

  predicate InPhase(s: State, id: string, phase: JobPhase) {
    id in s.jobs && s.jobs[id].phase == phase
  }

  predicate IsReporting(s: State, id: string) {
    id in s.jobs && s.jobs[id].phase.Reporting?
  }

  predicate Enabled(b: Broadcast, s: State, e: Event) {
    match e
    case Enqueue(t) => t in s.unsent
    case EnqueueFails(t) => t in s.unsent
    case CommitCreation => s.creation.Open? && s.unsent == {}
    case RollBackCreation => s.creation.Open?
    case Take(id) => InPhase(s, id, Waiting)
    case Settle(id, _) => InPhase(s, id, Running)
    case Throw(id) => InPhase(s, id, Running)
    case Increment(id) => s.creation.Live? && s.bump.NoBump? && IsReporting(s, id)
    case FinishBump => s.bump.Bump?
    case LoseBump(id) => IsReporting(s, id)
  }

  function SetPhase(s: State, id: string, phase: JobPhase): State
    requires id in s.jobs
  {
    s.(jobs := s.jobs[id := s.jobs[id].(phase := phase)])
  }

  function Effect(b: Broadcast, s: State, e: Event): State
    requires Enabled(b, s, e)
    requires s.bump.Bump? ==> IsReporting(s, s.bump.id)
  {
    match e
    case Enqueue(t) =>
      var id := IdOf(b, t);
      s.(unsent := s.unsent - {t}, jobs := if id in s.jobs then s.jobs else s.jobs[id := Job(0, Waiting)])
    case EnqueueFails(t) => s.(unsent := s.unsent - {t}, unqueued := s.unqueued + {t})
    case CommitCreation => s.(creation := Live)
    case RollBackCreation => s.(creation := RolledBack)
    case Take(id) => SetPhase(s, id, Running)
    case Settle(id, delivered) => SetPhase(s, id, Reporting(delivered))
    case Throw(id) =>
      var attempts := s.jobs[id].attemptsMade + 1;
      s.(jobs := s.jobs[id := Job(attempts, if attempts >= MAX_ATTEMPTS then Reporting(false) else Waiting)])
    case Increment(id) => s.(bump := Bump(id, Incremented(s.row, s.jobs[id].phase.delivered)))
    case FinishBump =>
      var id := s.bump.id;
      SetPhase(s, id, Counted(s.jobs[id].phase.delivered)).(bump := NoBump, row := Flipped(s.bump.row, Total(b)))
    case LoseBump(id) =>
      SetPhase(s, id, Lost).(bump := if s.bump.Bump? && s.bump.id == id then NoBump else s.bump)
  }

  ghost predicate Step(b: Broadcast, s: State, s': State) {
    && (s.bump.Bump? ==> IsReporting(s, s.bump.id))
    && exists e :: Enabled(b, s, e) && s' == Effect(b, s, e)
  }

  ghost predicate IsRun(b: Broadcast, run: seq<State>) {
    && run != [] && run[0] == Start(b)
    && forall i :: 0 <= i < |run| - 1 ==> Step(b, run[i], run[i + 1])
  }

  // ----- the invariant ----------------------------------------------------------------------

  function CountedIds(s: State, delivered: bool): set<string> {
    set id | id in s.jobs && s.jobs[id].phase == Counted(delivered)
  }

  function LostIds(s: State): set<string> {
    set id | id in s.jobs && s.jobs[id].phase.Lost?
  }

  function Queued(b: Broadcast, s: State): set<string> {
    b.tenantIds - s.unsent - s.unqueued
  }

  predicate QueueInv(b: Broadcast, s: State) {
    && s.unsent <= b.tenantIds && s.unqueued <= b.tenantIds - s.unsent
    && s.jobs.Keys == IdsOf(b, Queued(b, s))
    && (s.creation.Live? ==> s.unsent == {})
  }

  predicate RowInv(b: Broadcast, s: State) {
    && s.row.delivered == |CountedIds(s, true)|
    && s.row.failed == |CountedIds(s, false)|
    && s.row.status == StatusFor(s.row.delivered, s.row.failed, Total(b))
    && (s.bump.Bump? ==>
      IsReporting(s, s.bump.id) && s.bump.row == Incremented(s.row, s.jobs[s.bump.id].phase.delivered))
  }

  predicate Inv(b: Broadcast, s: State) {
    QueueInv(b, s) && RowInv(b, s)
  }

  function IdsOf(b: Broadcast, tenants: set<string>): set<string> {
    set t | t in tenants :: IdOf(b, t)
  }

  lemma OneIdMore(b: Broadcast, rest: set<string>, u: string)
    requires ValidBroadcast(b) && rest <= b.tenantIds && u in b.tenantIds && u !in rest
    ensures IdsOf(b, rest + {u}) == IdsOf(b, rest) + {IdOf(b, u)} && IdOf(b, u) !in IdsOf(b, rest)
  {
    forall t | t in rest
      ensures IdOf(b, t) != IdOf(b, u)
    {
      JobIdInjective("announcement", t, b.announcementId, "announcement", u, b.announcementId);
    }
  }

  lemma {:induction false} DistinctIds(b: Broadcast, tenants: set<string>)
    requires ValidBroadcast(b) && tenants <= b.tenantIds
    ensures |IdsOf(b, tenants)| == |tenants|
    decreases tenants
  {
    if tenants != {} {
      var u :| u in tenants;
      var rest := tenants - {u};
      DistinctIds(b, rest);
      OneIdMore(b, rest, u);
      assert tenants == rest + {u};
    }
  }

  lemma JobsAreRecipients(b: Broadcast, s: State)
    requires ValidBroadcast(b) && QueueInv(b, s)
    ensures |s.jobs.Keys| + |s.unsent| + |s.unqueued| == Total(b)
  {
    DistinctIds(b, Queued(b, s));
    assert b.tenantIds == Queued(b, s) + s.unsent + s.unqueued;
  }

  lemma SubsetSize(a: set<string>, c: set<string>)
    requires a <= c
    ensures |a| <= |c|
    ensures |a| == |c| ==> a == c
  {
    assert c == a + (c - a);
    if |a| == |c| {
      assert c - a == {};
    }
  }

  /** Jobs that are counted, and one that still reports, are different jobs of the queue. */
  lemma CountsBounded(b: Broadcast, s: State)
    requires ValidBroadcast(b) && Inv(b, s)
    ensures s.row.delivered + s.row.failed <= Total(b)
    ensures forall id :: id in s.jobs && !s.jobs[id].phase.Counted? ==> s.row.delivered + s.row.failed < Total(b)
  {
    var yes, no := CountedIds(s, true), CountedIds(s, false);
    JobsAreRecipients(b, s);
    assert yes !! no;
    SubsetSize(yes + no, s.jobs.Keys);
    forall id | id in s.jobs && !s.jobs[id].phase.Counted?
      ensures |yes| + |no| < Total(b)
    {
      SubsetSize(yes + no + {id}, s.jobs.Keys);
    }
  }

  lemma EnqueueKeepsInv(b: Broadcast, s: State, t: string)
    requires ValidBroadcast(b) && Inv(b, s) && t in s.unsent
    ensures Inv(b, Effect(b, s, Enqueue(t))) && Inv(b, Effect(b, s, EnqueueFails(t)))
  {
    var s', s'' := Effect(b, s, Enqueue(t)), Effect(b, s, EnqueueFails(t));
    assert Queued(b, s') == Queued(b, s) + {t};
    assert Queued(b, s'') == Queued(b, s);
    assert s'.jobs.Keys == s.jobs.Keys + {IdOf(b, t)};
    assert CountedIds(s', true) == CountedIds(s, true) && CountedIds(s', false) == CountedIds(s, false);
  }

  /** A step of one job that is not a counter update leaves the counters as they are. */
  lemma PhaseChange(b: Broadcast, s: State, s': State, id: string)
    requires Inv(b, s) && id in s.jobs && s.jobs.Keys == s'.jobs.Keys
    requires !s.jobs[id].phase.Counted? && !s'.jobs[id].phase.Counted?
    requires forall other :: other in s.jobs && other != id ==> s'.jobs[other] == s.jobs[other]
    ensures CountedIds(s', true) == CountedIds(s, true) && CountedIds(s', false) == CountedIds(s, false)
  {
  }

  /** Counting a job that was not counted adds it to one of the two sets. */
  lemma OneMoreCounted(s: State, id: string, delivered: bool)
    requires id in s.jobs && !s.jobs[id].phase.Counted?
    ensures var s' := SetPhase(s, id, Counted(delivered));
      && s'.jobs.Keys == s.jobs.Keys
      && |CountedIds(s', delivered)| == |CountedIds(s, delivered)| + 1
      && |CountedIds(s', !delivered)| == |CountedIds(s, !delivered)|
  {
    var s' := SetPhase(s, id, Counted(delivered));
    assert CountedIds(s', delivered) == CountedIds(s, delivered) + {id};
    assert CountedIds(s', !delivered) == CountedIds(s, !delivered);
  }

  lemma FinishKeepsInv(b: Broadcast, s: State)
    requires ValidBroadcast(b) && Inv(b, s) && s.bump.Bump?
    ensures Inv(b, Effect(b, s, FinishBump))
  {
    var id := s.bump.id;
    var delivered := s.jobs[id].phase.delivered;
    var counted, s' := SetPhase(s, id, Counted(delivered)), Effect(b, s, FinishBump);
    OneMoreCounted(s, id, delivered);
    assert CountedIds(s', true) == CountedIds(counted, true);
    assert CountedIds(s', false) == CountedIds(counted, false);
    CountsBounded(b, s);
  }

  lemma EventKeepsInv(b: Broadcast, s: State, e: Event)
    requires ValidBroadcast(b) && Inv(b, s) && Enabled(b, s, e)
    ensures Inv(b, Effect(b, s, e))
  {
    var s' := Effect(b, s, e);
    match e
    case Enqueue(t) => EnqueueKeepsInv(b, s, t);
    case EnqueueFails(t) => EnqueueKeepsInv(b, s, t);
    case CommitCreation => PhaseFree(b, s, s');
    case RollBackCreation => PhaseFree(b, s, s');
    case Take(id) => PhaseChange(b, s, s', id);
    case Settle(id, _) => PhaseChange(b, s, s', id);
    case Throw(id) => PhaseChange(b, s, s', id);
    case Increment(id) => PhaseFree(b, s, s');
    case FinishBump => FinishKeepsInv(b, s);
    case LoseBump(id) => PhaseChange(b, s, s', id);
  }

  lemma PhaseFree(b: Broadcast, s: State, s': State)
    requires s.jobs == s'.jobs
    ensures CountedIds(s', true) == CountedIds(s, true) && CountedIds(s', false) == CountedIds(s, false)
  {
  }

  lemma {:induction false} RunsKeepInv(b: Broadcast, run: seq<State>, i: nat)
    requires ValidBroadcast(b) && IsRun(b, run) && i < |run|
    ensures Inv(b, run[i])
  {
    if i == 0 {
      var s := Start(b);
      assert CountedIds(s, true) == {} && CountedIds(s, false) == {};
      assert Queued(b, s) == {};
    } else {
      RunsKeepInv(b, run, i - 1);
      assert Step(b, run[i - 1], run[i - 1 + 1]);
      var e :| Enabled(b, run[i - 1], e) && run[i] == Effect(b, run[i - 1], e);
      EventKeepsInv(b, run[i - 1], e);
    }
  }

  // ----- main results -------------------------------------------------------------------------

  /** In every reachable state the counters count distinct recipients' jobs, never exceed the total, and
      determine the status: `sending` below the total, then `sent` exactly if something was delivered. */
  lemma CountersAndStatus(b: Broadcast, run: seq<State>, i: nat)
    requires ValidBroadcast(b) && IsRun(b, run) && i < |run|
    ensures var s := run[i];
      && s.row.delivered == |CountedIds(s, true)| && s.row.failed == |CountedIds(s, false)|
      && s.row.delivered + s.row.failed <= Total(b)
      && (s.row.status.Sending? <==> s.row.delivered + s.row.failed < Total(b))
      && (s.row.status.Sent? <==> s.row.delivered + s.row.failed == Total(b) && s.row.delivered > 0)
      && (s.row.status.Failed? <==> s.row.failed == Total(b))
  {
    JobsAreRecipients(b, Start(b));
    RunsKeepInv(b, run, i);
    CountsBounded(b, run[i]);
  }

  lemma EventIsMonotone(b: Broadcast, s: State, e: Event)
    requires ValidBroadcast(b) && Inv(b, s) && Enabled(b, s, e)
    ensures forall id, delivered ::
      InPhase(s, id, Counted(delivered)) ==> InPhase(Effect(b, s, e), id, Counted(delivered))
    ensures CountedIds(s, true) <= CountedIds(Effect(b, s, e), true)
    ensures CountedIds(s, false) <= CountedIds(Effect(b, s, e), false)
    ensures !s.row.status.Sending? ==> Effect(b, s, e).row == s.row
  {
    CountsBounded(b, s);
    var s' := Effect(b, s, e);
    forall id, delivered | InPhase(s, id, Counted(delivered))
      ensures InPhase(s', id, Counted(delivered))
    {
    }
    forall id | id in CountedIds(s, true)
      ensures id in CountedIds(s', true)
    {
      assert InPhase(s, id, Counted(true));
    }
    forall id | id in CountedIds(s, false)
      ensures id in CountedIds(s', false)
    {
      assert InPhase(s, id, Counted(false));
    }
  }

  /** A counted job stays counted the same way, and a row that has left `sending` never changes again. */
  lemma {:induction false} TerminalIsFinal(b: Broadcast, run: seq<State>, i: nat, j: nat)
    requires ValidBroadcast(b) && IsRun(b, run) && i <= j < |run|
    ensures CountedIds(run[i], true) <= CountedIds(run[j], true)
    ensures CountedIds(run[i], false) <= CountedIds(run[j], false)
    ensures !run[i].row.status.Sending? ==> run[j].row == run[i].row
    decreases j - i
  {
    if i < j {
      RunsKeepInv(b, run, i);
      var s, s' := run[i], run[i + 1];
      assert Step(b, s, s');
      var e :| Enabled(b, s, e) && s' == Effect(b, s, e);
      EventIsMonotone(b, s, e);
      TerminalIsFinal(b, run, i + 1, j);
    }
  }

  predicate Quiescent(s: State) {
    && s.unsent == {} && s.bump.NoBump?
    && forall id :: id in s.jobs ==> s.jobs[id].phase.Counted? || s.jobs[id].phase.Lost?
  }

  /** When no job is queued or running any more, the counters fall short of the total by exactly the jobs
      that were never queued and the updates that were lost; so the status is terminal if and only if
      nothing was lost. */
  lemma FinishedIffNothingLost(b: Broadcast, run: seq<State>, i: nat)
    requires ValidBroadcast(b) && IsRun(b, run) && i < |run| && Quiescent(run[i])
    ensures var s := run[i];
      && s.row.delivered + s.row.failed + |LostIds(s)| + |s.unqueued| == Total(b)
      && (!s.row.status.Sending? <==> s.unqueued == {} && LostIds(s) == {})
  {
    RunsKeepInv(b, run, i);
    var s := run[i];
    JobsAreRecipients(b, s);
    CountedOrLost(s);
  }

  lemma CountedOrLost(s: State)
    requires Quiescent(s)
    ensures |s.jobs| == |CountedIds(s, true)| + |CountedIds(s, false)| + |LostIds(s)|
  {
    var yes, no, lost := CountedIds(s, true), CountedIds(s, false), LostIds(s);
    assert yes !! no && (yes + no) !! lost;
    assert s.jobs.Keys == yes + no + lost by {
      forall id | id in s.jobs
        ensures id in yes + no + lost
      {
        assert s.jobs[id].phase == Counted(true) || s.jobs[id].phase == Counted(false) || s.jobs[id].phase.Lost?;
      }
    }
  }

  predicate LosesNothing(s: State, e: Event) {
    !e.EnqueueFails? && !e.RollBackCreation? && (e.LoseBump? ==> s.creation.RolledBack?)
  }

  /** Until then something can go on without losing anything, unless the creation was rolled back: then the
      updates that are still to come can only be lost. */
  lemma NotQuiescentCanGoOn(b: Broadcast, run: seq<State>, i: nat)
    requires ValidBroadcast(b) && IsRun(b, run) && i < |run| && !Quiescent(run[i])
    ensures exists e :: Enabled(b, run[i], e) && LosesNothing(run[i], e)
  {
    RunsKeepInv(b, run, i);
    var s := run[i];
    if t :| t in s.unsent {
      assert Enabled(b, s, Enqueue(t));
    } else if s.bump.Bump? {
      assert Enabled(b, s, FinishBump);
    } else {
      var id :| id in s.jobs && !s.jobs[id].phase.Counted? && !s.jobs[id].phase.Lost?;
      match s.jobs[id].phase
      case Waiting => assert Enabled(b, s, Take(id));
      case Running => assert Enabled(b, s, Settle(id, true));
      case Reporting(_) =>
        match s.creation
        case Open => assert Enabled(b, s, CommitCreation);
        case Live => assert Enabled(b, s, Increment(id));
        case RolledBack => assert Enabled(b, s, LoseBump(id));
    }
  }

  // ----- every run ends ---------------------------------------------------------------------------

  /** The events still ahead of a job: two for each attempt left, and two for its counter update. */
  function JobWork(job: Job): int {
    match job.phase
    case Waiting => 2 * (MAX_ATTEMPTS - job.attemptsMade) + 2
    case Running => 2 * (MAX_ATTEMPTS - job.attemptsMade) + 1
    case Reporting(_) => 2
    case Counted(_) => 0
    case Lost => 0
  }

  function TenantWork(b: Broadcast, s: State, t: string): int {
    var id := IdOf(b, t);
    if t in s.unsent then 9
    else if id in s.jobs then JobWork(s.jobs[id]) - (if s.bump.Bump? && s.bump.id == id then 1 else 0)
    else 0
  }

  predicate AttemptsInv(s: State) {
    forall id :: id in s.jobs && (s.jobs[id].phase.Waiting? || s.jobs[id].phase.Running?) ==>
      s.jobs[id].attemptsMade < MAX_ATTEMPTS
  }

  lemma AttemptsStayInv(b: Broadcast, s: State, e: Event)
    requires AttemptsInv(s) && Enabled(b, s, e) && (s.bump.Bump? ==> IsReporting(s, s.bump.id))
    ensures AttemptsInv(Effect(b, s, e))
  {
  }

  lemma StepKeepsAttempts(b: Broadcast, s: State, s': State)
    requires AttemptsInv(s) && Step(b, s, s')
    ensures AttemptsInv(s')
  {
    var e :| Enabled(b, s, e) && s' == Effect(b, s, e);
    AttemptsStayInv(b, s, e);
  }

  lemma {:induction false} RunsKeepAttempts(b: Broadcast, run: seq<State>, i: nat)
    requires IsRun(b, run) && i < |run|
    ensures AttemptsInv(run[i])
  {
    if i > 0 {
      RunsKeepAttempts(b, run, i - 1);
      assert Step(b, run[i - 1], run[i - 1 + 1]);
      StepKeepsAttempts(b, run[i - 1], run[i]);
    }
  }

  /** The recipient an event is about. */
  predicate Concerns(b: Broadcast, s: State, e: Event, t: string) {
    match e
    case Enqueue(u) => t == u
    case EnqueueFails(u) => t == u
    case CommitCreation => false
    case RollBackCreation => false
    case Take(id) => IdOf(b, t) == id
    case Settle(id, _) => IdOf(b, t) == id
    case Throw(id) => IdOf(b, t) == id
    case Increment(id) => IdOf(b, t) == id
    case FinishBump => s.bump.Bump? && IdOf(b, t) == s.bump.id
    case LoseBump(id) => IdOf(b, t) == id
  }

  /** A recipient has a job exactly if it was queued. */
  lemma JobOfTenant(b: Broadcast, s: State, t: string)
    requires ValidBroadcast(b) && QueueInv(b, s) && t in b.tenantIds
    ensures IdOf(b, t) in s.jobs <==> t in Queued(b, s)
    ensures forall u :: u in b.tenantIds && IdOf(b, u) == IdOf(b, t) ==> u == t
  {
    forall u | u in b.tenantIds && IdOf(b, u) == IdOf(b, t)
      ensures u == t
    {
      JobIdInjective("announcement", t, b.announcementId, "announcement", u, b.announcementId);
    }
  }

  lemma QueueEventWork(b: Broadcast, s: State, u: string, t: string)
    requires ValidBroadcast(b) && Inv(b, s) && u in s.unsent && t in b.tenantIds
    ensures TenantWork(b, Effect(b, s, Enqueue(u)), t) == TenantWork(b, s, t) - (if t == u then 1 else 0)
    ensures TenantWork(b, Effect(b, s, EnqueueFails(u)), t) == TenantWork(b, s, t) - (if t == u then 9 else 0)
  {
    JobOfTenant(b, s, t);
    JobOfTenant(b, s, u);
  }

  lemma EventWork(b: Broadcast, s: State, e: Event, t: string)
    requires ValidBroadcast(b) && Inv(b, s) && AttemptsInv(s) && Enabled(b, s, e) && t in b.tenantIds
    ensures if Concerns(b, s, e, t) then TenantWork(b, Effect(b, s, e), t) < TenantWork(b, s, t)
            else TenantWork(b, Effect(b, s, e), t) == TenantWork(b, s, t)
  {
    JobOfTenant(b, s, t);
    match e
    case Enqueue(u) => QueueEventWork(b, s, u, t);
    case EnqueueFails(u) => QueueEventWork(b, s, u, t);
    case _ =>
  }

  function WorkOf(b: Broadcast, s: State, tenants: seq<string>): int {
    if tenants == [] then 0 else TenantWork(b, s, tenants[0]) + WorkOf(b, s, tenants[1..])
  }

  function AllWork(b: Broadcast, s: State, tenants: seq<string>): int {
    WorkOf(b, s, tenants) + if s.creation.Open? then 1 else 0
  }

  lemma {:induction false} WorkFalls(b: Broadcast, s: State, s': State, tenants: seq<string>)
    requires forall t :: t in tenants ==> TenantWork(b, s', t) <= TenantWork(b, s, t)
    ensures WorkOf(b, s', tenants) <= WorkOf(b, s, tenants)
    ensures (exists t :: t in tenants && TenantWork(b, s', t) < TenantWork(b, s, t)) ==>
      WorkOf(b, s', tenants) < WorkOf(b, s, tenants)
    decreases |tenants|
  {
    if tenants != [] {
      assert tenants[0] in tenants;
      assert forall t :: t in tenants <==> t == tenants[0] || t in tenants[1..];
      WorkFalls(b, s, s', tenants[1..]);
    }
  }

  /** Every event is about one recipient, or decides on the creation. */
  lemma SomeoneConcerned(b: Broadcast, s: State, e: Event) returns (t: string)
    requires ValidBroadcast(b) && Inv(b, s) && Enabled(b, s, e)
    ensures e.CommitCreation? || e.RollBackCreation? || (t in b.tenantIds && Concerns(b, s, e, t))
  {
    t := "";
    match e
    case Enqueue(u) => t := u;
    case EnqueueFails(u) => t := u;
    case CommitCreation =>
    case RollBackCreation =>
    case Take(id) => t := TenantOf(b, s, id);
    case Settle(id, _) => t := TenantOf(b, s, id);
    case Throw(id) => t := TenantOf(b, s, id);
    case Increment(id) => t := TenantOf(b, s, id);
    case FinishBump => t := TenantOf(b, s, s.bump.id);
    case LoseBump(id) => t := TenantOf(b, s, id);
  }

  lemma TenantOf(b: Broadcast, s: State, id: string) returns (t: string)
    requires QueueInv(b, s) && id in s.jobs
    ensures t in b.tenantIds && IdOf(b, t) == id
  {
    assert id in s.jobs.Keys;
    t :| t in Queued(b, s) && IdOf(b, t) == id;
  }

  lemma StepReducesWork(b: Broadcast, s: State, e: Event, tenants: seq<string>)
    requires ValidBroadcast(b) && Inv(b, s) && AttemptsInv(s) && Enabled(b, s, e)
    requires forall t :: t in tenants <==> t in b.tenantIds
    ensures AllWork(b, Effect(b, s, e), tenants) < AllWork(b, s, tenants)
  {
    var s' := Effect(b, s, e);
    forall t | t in tenants
      ensures TenantWork(b, s', t) <= TenantWork(b, s, t)
      ensures Concerns(b, s, e, t) ==> TenantWork(b, s', t) < TenantWork(b, s, t)
    {
      EventWork(b, s, e, t);
    }
    WorkFalls(b, s, s', tenants);
    var t := SomeoneConcerned(b, s, e);
    assert e.CommitCreation? || e.RollBackCreation? || t in tenants;
  }

  lemma {:induction false} WorkAtStart(b: Broadcast, tenants: seq<string>)
    requires forall t :: t in tenants ==> t in b.tenantIds
    ensures WorkOf(b, Start(b), tenants) == 9 * |tenants|
    decreases |tenants|
  {
    if tenants != [] {
      assert tenants[0] in tenants;
      WorkAtStart(b, tenants[1..]);
    }
  }

  lemma {:induction false} WorkNotNegative(b: Broadcast, s: State, tenants: seq<string>)
    requires Inv(b, s) && AttemptsInv(s)
    ensures WorkOf(b, s, tenants) >= 0
    decreases |tenants|
  {
    if tenants != [] {
      WorkNotNegative(b, s, tenants[1..]);
    }
  }

  lemma {:induction false} Listing(tenants: set<string>) returns (list: seq<string>)
    ensures |list| == |tenants| && forall t :: t in list <==> t in tenants
    decreases tenants
  {
    if tenants == {} {
      list := [];
    } else {
      var t :| t in tenants;
      var rest := Listing(tenants - {t});
      list := [t] + rest;
    }
  }

  lemma {:induction false} RunUsesWork(b: Broadcast, run: seq<State>, tenants: seq<string>, i: nat)
    requires ValidBroadcast(b) && IsRun(b, run) && i < |run|
    requires forall t :: t in tenants <==> t in b.tenantIds
    ensures AllWork(b, run[i], tenants) + i <= 9 * |tenants| + 1
  {
    if i == 0 {
      WorkAtStart(b, tenants);
    } else {
      RunUsesWork(b, run, tenants, i - 1);
      RunsKeepInv(b, run, i - 1);
      RunsKeepAttempts(b, run, i - 1);
      assert Step(b, run[i - 1], run[i - 1 + 1]);
      var e :| Enabled(b, run[i - 1], e) && run[i] == Effect(b, run[i - 1], e);
      StepReducesWork(b, run[i - 1], e, tenants);
    }
  }

  /** Every run ends: a broadcast to n recipients takes at most 9n + 1 events, whatever fails. So, as something
      can go on until then, it comes to rest. */
  lemma RunsEnd(b: Broadcast, run: seq<State>)
    requires ValidBroadcast(b) && IsRun(b, run)
    ensures |run| - 1 <= 9 * Total(b) + 1
  {
    var tenants := Listing(b.tenantIds);
    var last := |run| - 1;
    RunUsesWork(b, run, tenants, last);
    RunsKeepInv(b, run, last);
    RunsKeepAttempts(b, run, last);
    WorkNotNegative(b, run[last], tenants);
  }

  /** A worker can be faster than the transaction that creates the announcement: then its update finds no
      row, is lost, and the announcement stays at `sending` although every push has been made. */
  lemma FastWorkerStrandsAnnouncement() returns (b: Broadcast, run: seq<State>)
    ensures ValidBroadcast(b) && IsRun(b, run)
    ensures var last := run[|run| - 1];
      Quiescent(last) && last.creation.Live? && last.unqueued == {} && last.row == Row(Sending, 0, 0)
  {
    b := Broadcast("A", {"T"});
    assert "T" in b.tenantIds && NoColon("T");
    var id := IdOf(b, "T");
    var s0 := Start(b);
    var s1 := Effect(b, s0, Enqueue("T"));
    var s2 := Effect(b, s1, Take(id));
    var s3 := Effect(b, s2, Settle(id, true));
    var s4 := Effect(b, s3, LoseBump(id));
    assert s4.unsent == {};
    var s5 := Effect(b, s4, CommitCreation);
    run := [s0, s1, s2, s3, s4, s5];
    assert Step(b, s0, s1) by { assert Enabled(b, s0, Enqueue("T")); }
    assert Step(b, s1, s2) by { assert Enabled(b, s1, Take(id)); }
    assert Step(b, s2, s3) by { assert Enabled(b, s2, Settle(id, true)); }
    assert Step(b, s3, s4) by { assert Enabled(b, s3, LoseBump(id)); }
    assert Step(b, s4, s5) by { assert Enabled(b, s4, CommitCreation); }
  }

  // ----- losses ---------------------------------------------------------------------------------

  lemma StepNotLive(b: Broadcast, s: State, s': State)
    requires Step(b, s, s') && !s'.creation.Live?
    ensures !s.creation.Live?
    ensures s.bump.NoBump? ==> s'.bump.NoBump? && s'.row == s.row
    ensures s.bump.NoBump? && (forall id :: id in s.jobs ==> !s.jobs[id].phase.Counted?) ==>
      forall id :: id in s'.jobs ==> !s'.jobs[id].phase.Counted?
  {
  }

  /** As long as the transaction that creates the announcement has not committed nothing is counted, whatever the
      workers have done: every update made so far is lost. */
  lemma {:induction false} OpenCreationCountsNothing(b: Broadcast, run: seq<State>, i: nat)
    requires IsRun(b, run) && i < |run| && !run[i].creation.Live?
    ensures run[i].row == Row(Sending, 0, 0) && run[i].bump.NoBump?
    ensures forall id :: id in run[i].jobs ==> !run[i].jobs[id].phase.Counted?
  {
    if i > 0 {
      assert Step(b, run[i - 1], run[i - 1 + 1]);
      StepNotLive(b, run[i - 1], run[i]);
      OpenCreationCountsNothing(b, run, i - 1);
    }
  }

  /** A job was never queued, a counter update was lost, or there is no announcement. */
  predicate SomethingLost(s: State) {
    s.unqueued != {} || LostIds(s) != {} || s.creation.RolledBack?
  }

  lemma LossKeepsSending(b: Broadcast, run: seq<State>, i: nat)
    requires ValidBroadcast(b) && IsRun(b, run) && i < |run| && SomethingLost(run[i])
    ensures run[i].row.status.Sending?
  {
    var s := run[i];
    RunsKeepInv(b, run, i);
    CountsBounded(b, s);
    if s.unqueued != {} {
      var yes, no := CountedIds(s, true), CountedIds(s, false);
      JobsAreRecipients(b, s);
      assert yes !! no;
      SubsetSize(yes + no, s.jobs.Keys);
    } else if id :| id in LostIds(s) {
      assert !s.jobs[id].phase.Counted?;
    } else {
      OpenCreationCountsNothing(b, run, i);
    }
  }

  lemma EventKeepsLoss(b: Broadcast, s: State, e: Event)
    requires Enabled(b, s, e) && (s.bump.Bump? ==> IsReporting(s, s.bump.id)) && SomethingLost(s)
    ensures SomethingLost(Effect(b, s, e))
  {
    var s' := Effect(b, s, e);
    if id :| id in LostIds(s) {
      assert id in s'.jobs && s'.jobs[id].phase.Lost?;
      assert id in LostIds(s');
    } else if t :| t in s.unqueued {
      assert t in s'.unqueued;
    }
  }

  lemma StepKeepsLoss(b: Broadcast, s: State, s': State)
    requires Step(b, s, s') && SomethingLost(s)
    ensures SomethingLost(s')
  {
    var e :| Enabled(b, s, e) && s' == Effect(b, s, e);
    EventKeepsLoss(b, s, e);
  }

  /** Once something is lost the announcement stays at `sending`, however the run goes on. */
  lemma {:induction false} LossIsFinal(b: Broadcast, run: seq<State>, i: nat, j: nat)
    requires ValidBroadcast(b) && IsRun(b, run) && i <= j < |run| && SomethingLost(run[i])
    ensures SomethingLost(run[j]) && run[j].row.status.Sending?
    decreases j
  {
    if i < j {
      LossIsFinal(b, run, i, j - 1);
      assert Step(b, run[j - 1], run[j - 1 + 1]);
      StepKeepsLoss(b, run[j - 1], run[j]);
    }
    LossKeepsSending(b, run, j);
  }

  lemma LongerRun(b: Broadcast, run: seq<State>, s: State)
    requires IsRun(b, run) && Step(b, run[|run| - 1], s)
    ensures IsRun(b, run + [s])
  {
    var longer := run + [s];
    forall i | 0 <= i < |longer| - 1
      ensures Step(b, longer[i], longer[i + 1])
    {
      assert longer[i] == run[i];
      assert i < |run| - 1 ==> Step(b, run[i], run[i + 1]);
    }
  }

  lemma EventLosesNothing(b: Broadcast, s: State, e: Event)
    requires Enabled(b, s, e) && (s.bump.Bump? ==> IsReporting(s, s.bump.id))
    requires !SomethingLost(s) && LosesNothing(s, e)
    ensures !SomethingLost(Effect(b, s, e))
  {
    var s' := Effect(b, s, e);
    forall id | id in s'.jobs
      ensures !s'.jobs[id].phase.Lost?
    {
      assert id in s.jobs ==> id !in LostIds(s);
    }
  }

  /** Every event goes on without a loss, until the status is terminal. */
  lemma {:induction false} Finish(b: Broadcast, run: seq<State>) returns (later: seq<State>)
    requires ValidBroadcast(b) && IsRun(b, run) && !SomethingLost(run[|run| - 1])
    ensures IsRun(b, later) && run <= later && !later[|later| - 1].row.status.Sending?
    decreases 9 * Total(b) + 2 - |run|
  {
    var i := |run| - 1;
    var s := run[i];
    RunsEnd(b, run);
    if Quiescent(s) {
      FinishedIffNothingLost(b, run, i);
      later := run;
    } else {
      RunsKeepInv(b, run, i);
      NotQuiescentCanGoOn(b, run, i);
      var e :| Enabled(b, s, e) && LosesNothing(s, e);
      var s' := Effect(b, s, e);
      assert Step(b, s, s');
      LongerRun(b, run, s');
      EventLosesNothing(b, s, e);
      RunsEnd(b, run + [s']);
      later := Finish(b, run + [s']);
      assert run <= run + [s'];
    }
  }

  ghost predicate CanFinish(b: Broadcast, run: seq<State>) {
    exists later: seq<State> :: IsRun(b, later) && run <= later && !later[|later| - 1].row.status.Sending?
  }

  /** At any time the announcement can still leave `sending` if and only if nothing has been lost. */
  lemma CanFinishIff(b: Broadcast, run: seq<State>)
    requires ValidBroadcast(b) && IsRun(b, run)
    ensures CanFinish(b, run) <==> !SomethingLost(run[|run| - 1])
  {
    if SomethingLost(run[|run| - 1]) {
      forall later: seq<State> | IsRun(b, later) && run <= later
        ensures later[|later| - 1].row.status.Sending?
      {
        assert later[|run| - 1] == run[|run| - 1];
        LossIsFinal(b, later, |run| - 1, |later| - 1);
      }
    } else {
      var later := Finish(b, run);
      assert IsRun(b, later) && run <= later;
    }
  }

  // ----- what is counted ----------------------------------------------------------------------

  ghost predicate IsStep(b: Broadcast, s: State, e: Event, s': State) {
    (s.bump.Bump? ==> IsReporting(s, s.bump.id)) && Enabled(b, s, e) && s' == Effect(b, s, e)
  }

  /** A run with the events that made it. */
  ghost predicate IsTrace(b: Broadcast, run: seq<State>, events: seq<Event>) {
    && |run| == |events| + 1 && run[0] == Start(b)
    && forall i :: 0 <= i < |events| ==> IsStep(b, run[i], events[i], run[i + 1])
  }

  lemma TracePrefix(b: Broadcast, run: seq<State>, events: seq<Event>, n: nat)
    requires IsTrace(b, run, events) && n <= |events|
    ensures IsTrace(b, run[..n + 1], events[..n])
  {
    forall i | 0 <= i < n
      ensures IsStep(b, run[..n + 1][i], events[..n][i], run[..n + 1][i + 1])
    {
      assert IsStep(b, run[i], events[i], run[i + 1]);
    }
  }

  /** Every trace is a run, and every run has a trace. */
  lemma TraceIsRun(b: Broadcast, run: seq<State>, events: seq<Event>)
    requires IsTrace(b, run, events)
    ensures IsRun(b, run)
  {
    forall i | 0 <= i < |run| - 1
      ensures Step(b, run[i], run[i + 1])
    {
      assert IsStep(b, run[i], events[i], run[i + 1]);
    }
  }

  lemma {:induction false} TraceOf(b: Broadcast, run: seq<State>) returns (events: seq<Event>)
    requires IsRun(b, run)
    ensures IsTrace(b, run, events)
    decreases |run|
  {
    events := [];
    if |run| > 1 {
      var n := |run| - 2;
      var before := run[..n + 1];
      forall i | 0 <= i < |before| - 1
        ensures Step(b, before[i], before[i + 1])
      {
        assert Step(b, run[i], run[i + 1]);
      }
      var front := TraceOf(b, before);
      assert Step(b, run[n], run[n + 1]);
      var e :| Enabled(b, run[n], e) && run[n + 1] == Effect(b, run[n], e);
      events := front + [e];
      forall i | 0 <= i < |events|
        ensures IsStep(b, run[i], events[i], run[i + 1])
      {
        assert i < n ==> IsStep(b, before[i], front[i], before[i + 1]);
      }
    }
  }

  /** How many attempts of a job ended in an exception. */
  function Throws(events: seq<Event>, id: string): nat {
    if events == [] then 0
    else Throws(events[..|events| - 1], id) + if events[|events| - 1] == Throw(id) then 1 else 0
  }

  /** How many attempts of a job were begun. */
  function Attempts(events: seq<Event>, id: string): nat {
    if events == [] then 0
    else Attempts(events[..|events| - 1], id) + if events[|events| - 1] == Take(id) then 1 else 0
  }

  /** What the events say about a job: whether LINE took the push, whether an attempt settled without one (LINE
      refused it, or there was nobody to push to), how often it threw, how often it was tried. */
  datatype Tally = Tally(taken: bool, refused: bool, throws: nat, attempts: nat)

  function TallyOf(events: seq<Event>, id: string): Tally {
    Tally(Settle(id, true) in events, Settle(id, false) in events, Throws(events, id), Attempts(events, id))
  }

  /** Every attempt has ended, but for `open` of them. */
  predicate Ended(tally: Tally, open: nat) {
    tally.attempts == tally.throws + (if tally.taken || tally.refused then 1 else 0) + open
  }

  /** LINE took the push, or there was none because an attempt settled without it or every attempt threw. */
  predicate CameOut(tally: Tally, delivered: bool) {
    if delivered then tally.taken && !tally.refused && tally.throws < MAX_ATTEMPTS
    else !tally.taken && (tally.refused <==> tally.throws < MAX_ATTEMPTS)
  }

  predicate Undecided(tally: Tally) {
    !tally.taken && !tally.refused && tally.throws < MAX_ATTEMPTS
  }

  predicate PhaseFollows(tally: Tally, job: Job) {
    && job.attemptsMade == tally.throws <= MAX_ATTEMPTS
    && match job.phase
       case Waiting => Undecided(tally) && Ended(tally, 0)
       case Running => Undecided(tally) && Ended(tally, 1)
       case Reporting(delivered) => CameOut(tally, delivered) && Ended(tally, 0)
       case Counted(delivered) => CameOut(tally, delivered) && Ended(tally, 0)
       case Lost => (CameOut(tally, true) || CameOut(tally, false)) && Ended(tally, 0)
  }

  predicate TallyInv(tally: Tally, s: State, id: string) {
    if id in s.jobs then PhaseFollows(tally, s.jobs[id]) else tally == Tally(false, false, 0, 0)
  }

  function Tallied(tally: Tally, e: Event, id: string): Tally {
    if e == Settle(id, true) then tally.(taken := true)
    else if e == Settle(id, false) then tally.(refused := true)
    else if e == Throw(id) then tally.(throws := tally.throws + 1)
    else if e == Take(id) then tally.(attempts := tally.attempts + 1)
    else tally
  }

  lemma TallyNext(events: seq<Event>, e: Event, id: string)
    ensures TallyOf(events + [e], id) == Tallied(TallyOf(events, id), e, id)
  {
    assert (events + [e])[..|events|] == events;
  }

  lemma TallyInvNext(b: Broadcast, tally: Tally, s: State, e: Event, s': State, id: string)
    requires IsStep(b, s, e, s') && TallyInv(tally, s, id)
    ensures TallyInv(Tallied(tally, e, id), s', id)
  {
    if id in s.jobs && !IsAbout(s, e, id) {
      assert s'.jobs[id] == s.jobs[id];
    }
  }

  /** Events that change the job with this id. */
  predicate IsAbout(s: State, e: Event, id: string) {
    match e
    case Take(other) => other == id
    case Settle(other, _) => other == id
    case Throw(other) => other == id
    case FinishBump => s.bump.Bump? && s.bump.id == id
    case LoseBump(other) => other == id
    case _ => false
  }

  /** In every reachable state the phase of a job is what the events before say of its push. */
  lemma {:induction false} PhaseFollowsEvents(b: Broadcast, run: seq<State>, events: seq<Event>, id: string)
    requires IsTrace(b, run, events)
    ensures TallyInv(TallyOf(events, id), run[|events|], id)
    decreases |events|
  {
    if events != [] {
      var n := |events| - 1;
      TracePrefix(b, run, events, n);
      PhaseFollowsEvents(b, run[..n + 1], events[..n], id);
      assert IsStep(b, run[n], events[n], run[n + 1]) && events == events[..n] + [events[n]];
      TallyNext(events[..n], events[n], id);
      TallyInvNext(b, TallyOf(events[..n], id), run[n], events[n], run[n + 1], id);
    }
  }

  /** A job is counted as delivered only if LINE took its push, and as failed only if an attempt settled without a
      push or exactly `MAX_ATTEMPTS` attempts threw. */
  lemma CountedAsPushed(b: Broadcast, run: seq<State>, events: seq<Event>, j: nat, id: string, delivered: bool)
    requires IsTrace(b, run, events) && j < |run| && InPhase(run[j], id, Counted(delivered))
    ensures delivered ==> Settle(id, true) in events[..j]
    ensures !delivered ==> Settle(id, false) in events[..j] || Throws(events[..j], id) == MAX_ATTEMPTS
  {
    TracePrefix(b, run, events, j);
    PhaseFollowsEvents(b, run[..j + 1], events[..j], id);
  }

  /** A push is tried at most `MAX_ATTEMPTS` times, and every try comes out one way at most: the tries are those that
      threw, the one that settled, and the one under way. */
  lemma AttemptsBounded(b: Broadcast, run: seq<State>, events: seq<Event>, id: string)
    requires IsTrace(b, run, events)
    ensures Attempts(events, id) <= MAX_ATTEMPTS
    ensures Attempts(events, id)
         == Throws(events, id) + (if Settle(id, true) in events || Settle(id, false) in events then 1 else 0)
            + (if InPhase(run[|events|], id, Running) then 1 else 0)
    ensures !(Settle(id, true) in events && Settle(id, false) in events)
  {
    PhaseFollowsEvents(b, run, events, id);
  }

  /** Once an attempt has settled, with a push or without, the job is never counted the other way. */
  lemma PushIsNotMiscounted(b: Broadcast, run: seq<State>, events: seq<Event>, i: nat, j: nat, id: string,
                            delivered: bool)
    requires IsTrace(b, run, events) && i < j < |run| && events[i] == Settle(id, delivered)
    ensures !InPhase(run[j], id, Counted(!delivered))
  {
    TracePrefix(b, run, events, j);
    PhaseFollowsEvents(b, run[..j + 1], events[..j], id);
    assert events[..j][i] == Settle(id, delivered);
  }

  /** The recipients whose push LINE took. */
  function Reached(b: Broadcast, events: seq<Event>): set<string> {
    set t | t in b.tenantIds && Settle(IdOf(b, t), true) in events
  }

  /** At rest with nothing lost, `deliveredCount` is the number of recipients whose push LINE took, and
      `failedCount` that of all others. */
  lemma CountersAreTheOutcomes(b: Broadcast, run: seq<State>, events: seq<Event>)
    requires ValidBroadcast(b) && IsTrace(b, run, events)
    requires Quiescent(run[|events|]) && !SomethingLost(run[|events|])
    ensures run[|events|].row.delivered == |Reached(b, events)|
    ensures run[|events|].row.failed == Total(b) - |Reached(b, events)|
  {
    TraceIsRun(b, run, events);
    var s := run[|events|];
    RunsKeepInv(b, run, |events|);
    FinishedIffNothingLost(b, run, |events|);
    DeliveredAreReached(b, run, events);
    DistinctIds(b, Reached(b, events));
  }

  lemma DeliveredAreReached(b: Broadcast, run: seq<State>, events: seq<Event>)
    requires ValidBroadcast(b) && IsTrace(b, run, events) && QueueInv(b, run[|events|])
    requires Quiescent(run[|events|]) && !SomethingLost(run[|events|])
    ensures CountedIds(run[|events|], true) == IdsOf(b, Reached(b, events))
  {
    var s := run[|events|];
    forall id | id in CountedIds(s, true)
      ensures exists t :: t in Reached(b, events) && IdOf(b, t) == id
    {
      var t := TenantOf(b, s, id);
      PhaseFollowsEvents(b, run, events, id);
      assert t in Reached(b, events);
    }
    forall t | t in Reached(b, events)
      ensures IdOf(b, t) in CountedIds(s, true)
    {
      var id := IdOf(b, t);
      assert t in Queued(b, s);
      PhaseFollowsEvents(b, run, events, id);
      assert id !in LostIds(s);
    }
  }
}
