/** LINE webhook events: recording a delivery once (apps/api/src/modules/line/line-webhook.service.ts), and
    working its events off with retries (line-event.processor.ts, webhook-event-state.service.ts).

    One company is fixed, so an event is known by its event id. The signature check and the payloads are not
    part of this model.
  */
module Webhook {
  import opened Bits
  import opened Numerals
  import opened Options

  datatype Status = Pending | Processed | Failed

  // ----- one delivery -------------------------------------------------------------------------

  function Receive(rows: map<string, Status>, id: string): map<string, Status> {
    if id in rows then rows else rows[id := Pending]
  }

  function ReceiveAll(rows: map<string, Status>, ids: seq<string>): map<string, Status> {
    if ids == [] then rows else Receive(ReceiveAll(rows, ids[..|ids| - 1]), ids[|ids| - 1])
  }

  /** The ids recorded by a delivery, in order. */
  function Recorded(rows: map<string, Status>, ids: seq<string>): seq<string> {
    if ids == [] then []
    else
      var front, last := ids[..|ids| - 1], ids[|ids| - 1];
      Recorded(rows, front) + if last in ReceiveAll(rows, front) then [] else [last]
  }

  /** The recorded ids whose job the queue took; `queueUp` says for each event whether it would. */
  function Enqueued(rows: map<string, Status>, ids: seq<string>, queueUp: seq<bool>): seq<string>
    requires |queueUp| == |ids|
  {
    if ids == [] then []
    else
      var n := |ids| - 1;
      Enqueued(rows, ids[..n], queueUp[..n])
      + if ids[n] in ReceiveAll(rows, ids[..n]) || !queueUp[n] then [] else [ids[n]]
  }

  lemma OneEventMore(rows: map<string, Status>, ids: seq<string>, queueUp: seq<bool>, i: nat)
    requires |queueUp| == |ids| && i < |ids|
    ensures var before, isNew := ReceiveAll(rows, ids[..i]), ids[i] !in ReceiveAll(rows, ids[..i]);
      && ReceiveAll(rows, ids[..i + 1]) == Receive(before, ids[i])
      && |Recorded(rows, ids[..i + 1])| == |Recorded(rows, ids[..i])| + (if isNew then 1 else 0)
      && Enqueued(rows, ids[..i + 1], queueUp[..i + 1])
         == Enqueued(rows, ids[..i], queueUp[..i]) + (if isNew && queueUp[i] then [ids[i]] else [])
  {
    assert ids[..i + 1][..i] == ids[..i] && queueUp[..i + 1][..i] == queueUp[..i];
  }

  class WebhookInbox {
    var rows: map<string, Status>
    var jobs: seq<string>

    constructor ()
      ensures rows == map[] && jobs == []
    {
      rows, jobs := map[], [];
    }

    /** `true` for `'enqueued'`: the row is new, whether or not the queue took the job. */
    method PersistAndEnqueue(eventId: string, queueUp: bool) returns (enqueued: bool)
      modifies this
      ensures rows == Receive(old(rows), eventId)
      ensures enqueued <==> eventId !in old(rows)
      ensures jobs == if enqueued && queueUp then old(jobs) + [eventId] else old(jobs)
    {
      if eventId in rows {
        return false;
      }
      rows := rows[eventId := Pending];
      if queueUp {
        jobs := jobs + [eventId];
      }
      enqueued := true;
    }

    method HandleWebhook(events: seq<string>, queueUp: seq<bool>) returns (processed: nat, deduped: nat)
      requires |queueUp| == |events|
      modifies this
      ensures rows == ReceiveAll(old(rows), events)
      ensures processed == |Recorded(old(rows), events)| && processed + deduped == |events|
      ensures jobs == old(jobs) + Enqueued(old(rows), events, queueUp)
    {
      processed, deduped := 0, 0;
      for i := 0 to |events|
        invariant rows == ReceiveAll(old(rows), events[..i])
        invariant processed == |Recorded(old(rows), events[..i])| && processed + deduped == i
        invariant jobs == old(jobs) + Enqueued(old(rows), events[..i], queueUp[..i])
      {
        OneEventMore(old(rows), events, queueUp, i);
        var enqueued := PersistAndEnqueue(events[i], queueUp[i]);
        if enqueued {
          processed := processed + 1;
        } else {
          deduped := deduped + 1;
        }
      }
      assert events[..|events|] == events && queueUp[..|events|] == queueUp;
    }
  }

  /** A delivery adds a pending row for every event it brings for the first time, and touches no other. */
  lemma {:induction false} ReceiveAllIs(rows: map<string, Status>, ids: seq<string>, id: string)
    ensures id in ReceiveAll(rows, ids) <==> id in rows || id in ids
    ensures id in ReceiveAll(rows, ids) ==>
      ReceiveAll(rows, ids)[id] == if id in rows then rows[id] else Pending
    decreases |ids|
  {
    if ids != [] {
      ReceiveAllIs(rows, ids[..|ids| - 1], id);
      assert ids == ids[..|ids| - 1] + [ids[|ids| - 1]];
    }
  }

  /** It records every new event once: as many as there are new ids. */
  lemma {:induction false} RecordedOnce(rows: map<string, Status>, ids: seq<string>)
    ensures forall id :: id in Recorded(rows, ids) <==> id in ids && id !in rows
    ensures forall i, j :: 0 <= i < j < |Recorded(rows, ids)| ==> Recorded(rows, ids)[i] != Recorded(rows, ids)[j]
    decreases |ids|
  {
    if ids != [] {
      var front, last := ids[..|ids| - 1], ids[|ids| - 1];
      RecordedOnce(rows, front);
      ReceiveAllIs(rows, front, last);
      assert ids == front + [last];
    }
  }

  /** Event `i` of a delivery is the first with its id, is not recorded yet, and the queue would take its job. */
  predicate QueuesAt(rows: map<string, Status>, ids: seq<string>, queueUp: seq<bool>, i: nat)
    requires |queueUp| == |ids| && i < |ids|
  {
    ids[i] !in rows && ids[i] !in ids[..i] && queueUp[i]
  }

  lemma QueuesInPrefix(rows: map<string, Status>, ids: seq<string>, queueUp: seq<bool>, n: nat, i: nat)
    requires |queueUp| == |ids| && i < n <= |ids|
    ensures QueuesAt(rows, ids[..n], queueUp[..n], i) <==> QueuesAt(rows, ids, queueUp, i)
    ensures ids[..n][i] == ids[i]
  {
    assert ids[..n][..i] == ids[..i];
  }

  predicate QueuedFrom(rows: map<string, Status>, ids: seq<string>, queueUp: seq<bool>, id: string)
    requires |queueUp| == |ids|
  {
    exists i :: 0 <= i < |ids| && ids[i] == id && QueuesAt(rows, ids, queueUp, i)
  }

  lemma QueuedFromLast(rows: map<string, Status>, ids: seq<string>, queueUp: seq<bool>, id: string)
    requires |queueUp| == |ids| && ids != []
    ensures var n := |ids| - 1;
      QueuedFrom(rows, ids, queueUp, id) <==>
        QueuedFrom(rows, ids[..n], queueUp[..n], id) || (ids[n] == id && QueuesAt(rows, ids, queueUp, n))
  {
    var n := |ids| - 1;
    if i :| 0 <= i < n && ids[i] == id && QueuesAt(rows, ids, queueUp, i) {
      QueuesInPrefix(rows, ids, queueUp, n, i);
    }
    if i :| 0 <= i < n && ids[..n][i] == id && QueuesAt(rows, ids[..n], queueUp[..n], i) {
      QueuesInPrefix(rows, ids, queueUp, n, i);
    }
  }

  /** The events that are queued are exactly the new ones whose job the queue takes when they first come. */
  lemma {:induction false} EnqueuedAre(rows: map<string, Status>, ids: seq<string>, queueUp: seq<bool>, id: string)
    requires |queueUp| == |ids|
    ensures id in Enqueued(rows, ids, queueUp) <==> QueuedFrom(rows, ids, queueUp, id)
    decreases |ids|
  {
    if ids != [] {
      var n := |ids| - 1;
      EnqueuedAre(rows, ids[..n], queueUp[..n], id);
      ReceiveAllIs(rows, ids[..n], ids[n]);
      QueuedFromLast(rows, ids, queueUp, id);
    }
  }

  /** A delivery of nothing but recorded events changes nothing, records nothing and queues nothing. */
  lemma {:induction false} RedeliveryChangesNothing(rows: map<string, Status>, ids: seq<string>, queueUp: seq<bool>)
    requires |queueUp| == |ids| && forall id :: id in ids ==> id in rows
    ensures ReceiveAll(rows, ids) == rows && Recorded(rows, ids) == [] && Enqueued(rows, ids, queueUp) == []
    decreases |ids|
  {
    if ids != [] {
      assert forall id :: id in ids[..|ids| - 1] ==> id in ids;
      RedeliveryChangesNothing(rows, ids[..|ids| - 1], queueUp[..|ids| - 1]);
      assert ids[|ids| - 1] in ids;
    }
  }

  /** Redelivering any part of a delivery, in any order, after any number of others, is such a delivery. */
  lemma RedeliveredIsRecorded(rows: map<string, Status>, ids: seq<string>, later: seq<string>, again: seq<string>,
                              queueUp: seq<bool>)
    requires |queueUp| == |again| && forall id :: id in again ==> id in ids
    ensures var now := ReceiveAll(ReceiveAll(rows, ids), later);
      ReceiveAll(now, again) == now && Recorded(now, again) == [] && Enqueued(now, again, queueUp) == []
  {
    var now := ReceiveAll(ReceiveAll(rows, ids), later);
    forall id | id in again
      ensures id in now
    {
      ReceiveAllIs(rows, ids, id);
      ReceiveAllIs(ReceiveAll(rows, ids), later, id);
    }
    RedeliveryChangesNothing(now, again, queueUp);
  }

  // ----- ids for events without one --------------------------------------------------------------

  /** The 32-bit hash of a text, as a number from 0; the multiplication wraps around. */
  function Hash(raw: string): nat {
    if raw == "" then 5381
    else Xor(Hash(raw[..|raw| - 1]) * 33 % 0x1_0000_0000, raw[|raw| - 1] as nat)
  }

  lemma {:induction false} XorBelow(a: nat, b: nat, w: nat)
    requires a < Pow2(w) && b < Pow2(w)
    ensures Xor(a, b) < Pow2(w)
    decreases w
  {
    if w > 0 && (a > 0 || b > 0) {
      XorBelow(a / 2, b / 2, w - 1);
    }
  }

  predicate CodeUnits(s: string) {
    forall i :: 0 <= i < |s| ==> s[i] as nat < 0x1_0000
  }

  lemma {:induction false} HashFits(raw: string)
    requires CodeUnits(raw)
    ensures Hash(raw) < 0x1_0000_0000
    decreases |raw|
  {
    if raw != "" {
      HashFits(raw[..|raw| - 1]);
      assert Pow2(8) == 256;
      assert Pow2(16) == 0x1_0000;
      assert Pow2(24) == 0x100_0000;
      assert Pow2(32) == 0x1_0000_0000;
      XorBelow(Hash(raw[..|raw| - 1]) * 33 % 0x1_0000_0000, raw[|raw| - 1] as nat, 32);
    }
  }

  /** `n.toString(16)` */
  function Hex(n: nat): (s: string)
    ensures forall i :: 0 <= i < |s| ==> s[i] != '-'
  {
    (if n < 16 then "" else Hex(n / 16)) + ["0123456789abcdef"[n % 16]]
  }

  lemma {:induction false} HexLength(n: nat, width: nat)
    requires width >= 1 && n < Power(16, width)
    ensures |Hex(n)| <= width
    decreases width
  {
    if n >= 16 {
      PowerOne(16);
      DivBelow(n, 16, Power(16, width - 1));
      HexLength(n / 16, width - 1);
    }
  }

  /** An event without an id. The source is its JSON text, if the event has one. */
  datatype Unnamed = Unnamed(timestamp: nat, kind: string, source: Option<string>)

  function SourceKey(event: Unnamed): string {
    if event.source.Some? then event.source.value else "no-source"
  }

  /** The text that is hashed. */
  function Raw(event: Unnamed): string {
    Numeral(event.timestamp, 10) + ":" + event.kind + ":" + SourceKey(event)
  }

  /** Different events have different texts, as long as types contain no colon. */
  lemma RawFaithful(event: Unnamed, other: Unnamed)
    requires ':' !in event.kind && ':' !in other.kind
    ensures Raw(event) == Raw(other) <==>
      event.timestamp == other.timestamp && event.kind == other.kind && SourceKey(event) == SourceKey(other)
  {
    var t, u := Numeral(event.timestamp, 10), Numeral(other.timestamp, 10);
    NumeralDigits(event.timestamp);
    NumeralDigits(other.timestamp);
    if Raw(event) == Raw(other) {
      assert Raw(event) == t + ":" + (event.kind + ":" + SourceKey(event));
      assert Raw(other) == u + ":" + (other.kind + ":" + SourceKey(other));
      SameAround(':', t, event.kind + ":" + SourceKey(event), u, other.kind + ":" + SourceKey(other));
      SameAround(':', event.kind, SourceKey(event), other.kind, SourceKey(other));
      ValueNumeral(event.timestamp, 10);
      ValueNumeral(other.timestamp, 10);
    }
  }

  function SyntheticId(event: Unnamed): string {
    "synth-" + Hex(Hash(Raw(event))) + "-" + Numeral(event.timestamp, 10)
  }

  method SyntheticEventId(event: Unnamed) returns (id: string)
    ensures id == SyntheticId(event)
  {
    var sourceKey := if event.source.Some? then event.source.value else "no-source";
    var raw := Numeral(event.timestamp, 10) + ":" + event.kind + ":" + sourceKey;
    var hash := 5381;
    for i := 0 to |raw|
      invariant hash == Hash(raw[..i])
    {
      assert raw[..i + 1][..i] == raw[..i];
      hash := Xor(hash * 33 % 0x1_0000_0000, raw[i] as nat);
    }
    assert raw[..|raw|] == raw;
    id := "synth-" + Hex(hash) + "-" + Numeral(event.timestamp, 10);
  }

  lemma RawCodeUnits(event: Unnamed)
    requires CodeUnits(event.kind) && (event.source.Some? ==> CodeUnits(event.source.value))
    ensures CodeUnits(Raw(event))
  {
    NumeralDigits(event.timestamp);
  }

  /** A made-up id fits the 64 characters of its column, for every timestamp JavaScript counts exactly. */
  lemma SyntheticIdFits(event: Unnamed)
    requires CodeUnits(event.kind) && (event.source.Some? ==> CodeUnits(event.source.value))
    requires event.timestamp < Power(10, 16)
    ensures |SyntheticId(event)| <= 64
  {
    RawCodeUnits(event);
    HashFits(Raw(event));
    assert Power(16, 4) == 0x1_0000;
    assert Power(16, 8) == 0x1_0000_0000;
    HexLength(Hash(Raw(event)), 8);
    NumeralLength(event.timestamp, 10, 16);
  }

  lemma SameAfter(start: string, a: string, b: string, x: string, y: string)
    requires start + a + "-" + x == start + b + "-" + y
    ensures a + "-" + x == b + "-" + y
  {
    assert (start + a + "-" + x)[|start|..] == a + "-" + x;
    assert (start + b + "-" + y)[|start|..] == b + "-" + y;
  }

  /** Events of different times never share a made-up id, whatever their hashes are. */
  lemma SyntheticIdsDiffer(event: Unnamed, other: Unnamed)
    requires SyntheticId(event) == SyntheticId(other)
    ensures event.timestamp == other.timestamp && Hex(Hash(Raw(event))) == Hex(Hash(Raw(other)))
  {
    var a, b := Hex(Hash(Raw(event))), Hex(Hash(Raw(other)));
    var x, y := Numeral(event.timestamp, 10), Numeral(other.timestamp, 10);
    SameAfter("synth-", a, b, x, y);
    SameAround('-', a, x, b, y);
    ValueNumeral(event.timestamp, 10);
    ValueNumeral(other.timestamp, 10);
  }

  // ----- deliveries and workers ---------------------------------------------------------------

  const MAX_ATTEMPTS := 5

  /** Where a job stands. `Handled`: the handler is through and the row is about to be marked. */
  datatype Phase =
    | Waiting | Running | Handled | Failing(permanent: bool)
    | Completed(acknowledged: bool) | Exhausted(written: bool)

  datatype Job = Job(attemptsMade: nat, phase: Phase)

  /** For an event id: how often its handler ran to the end, and how often marking it then threw. */
  datatype History = History(handled: nat, unacknowledged: nat)

  datatype Entry = Entry(status: Status, toEnqueue: bool, job: Option<Job>, history: History)

  /** A row with its job, if the queue has one. */
  type State = map<string, Entry>

  datatype Event =
    | Deliver
    | Enqueue | EnqueueFails
    | Take
    | Skip
    | Handle
    | Throw(permanent: bool)
    | Mark
    | MarkThrows(committed: bool)
    | Settle(written: bool)

  predicate HasJob(e: Entry) {
    e.job.Some?
  }

  predicate InPhase(e: Entry, phase: Phase) {
    HasJob(e) && e.job.value.phase == phase
  }

  /** What can happen to a recorded event. A permanent error is raised only after the status check. */
  predicate Enabled(e: Entry, event: Event) {
    match event
    case Deliver => true
    case Enqueue => e.toEnqueue
    case EnqueueFails => e.toEnqueue
    case Take => InPhase(e, Waiting)
    case Skip => InPhase(e, Running) && e.status.Processed?
    case Handle => InPhase(e, Running) && !e.status.Processed?
    case Throw(permanent) => InPhase(e, Running) && (permanent ==> !e.status.Processed?)
    case Mark => InPhase(e, Handled)
    case MarkThrows(_) => InPhase(e, Handled)
    case Settle(_) => HasJob(e) && e.job.value.phase.Failing?
  }

  function SetPhase(e: Entry, phase: Phase): Entry
    requires HasJob(e)
  {
    e.(job := Some(e.job.value.(phase := phase)))
  }

  /** After a failed attempt: the listener records a permanent or final failure, if its write succeeds; the
      queue retries until the attempts are used up, after a permanent failure too. */
  function Settled(e: Entry, written: bool): Entry
    requires HasJob(e) && e.job.value.phase.Failing?
  {
    var attempts := e.job.value.attemptsMade + 1;
    var exhausted := attempts >= MAX_ATTEMPTS;
    var terminal := e.job.value.phase.permanent || exhausted;
    e.(status := if terminal && written then Failed else e.status,
       job := Some(Job(attempts, if exhausted then Exhausted(written) else Waiting)))
  }

  function Effect(e: Entry, event: Event): Entry
    requires Enabled(e, event)
  {
    match event
    case Deliver => e
    case Enqueue => e.(toEnqueue := false, job := if e.job.None? then Some(Job(0, Waiting)) else e.job)
    case EnqueueFails => e.(toEnqueue := false)
    case Take => SetPhase(e, Running)
    case Skip => SetPhase(e, Completed(false))
    case Handle => SetPhase(e, Handled).(history := e.history.(handled := e.history.handled + 1))
    case Throw(permanent) => SetPhase(e, Failing(permanent))
    case Mark => SetPhase(e, Completed(true)).(status := Processed)
    case MarkThrows(committed) =>
      SetPhase(e, Failing(false)).(
        status := if committed then Processed else e.status,
        history := e.history.(unacknowledged := e.history.unacknowledged + 1))
    case Settle(written) => Settled(e, written)
  }

  const NewEntry := Entry(Pending, true, None, History(0, 0))

  ghost predicate Step(s: State, s': State) {
    || (exists id :: id !in s && s' == s[id := NewEntry])
    || (exists id, event :: id in s && Enabled(s[id], event) && s' == s[id := Effect(s[id], event)])
  }

  ghost predicate IsRun(run: seq<State>) {
    && run != [] && run[0] == map[]
    && forall i :: 0 <= i < |run| - 1 ==> Step(run[i], run[i + 1])
  }

  // ----- the invariant --------------------------------------------------------------------------

  predicate EntryInv(e: Entry) {
    && (e.toEnqueue ==> e.job.None?)
    && (e.job.None? ==> e.status.Pending? && e.history == History(0, 0))
    && (e.job.Some? ==> JobInv(e.job.value, e.status, e.history))
  }

  predicate JobInv(job: Job, status: Status, history: History) {
    && (if job.phase.Exhausted? then job.attemptsMade == MAX_ATTEMPTS else job.attemptsMade < MAX_ATTEMPTS)
    && history.handled == history.unacknowledged
                          + (if job.phase.Handled? || job.phase == Completed(true) then 1 else 0)
    && history.handled <= job.attemptsMade
                          + (if job.phase.Waiting? || job.phase.Running? || job.phase.Exhausted? then 0 else 1)
    && (status.Processed? ==> history.handled >= 1)
    && (status.Processed? && history.unacknowledged == 0 ==> job.phase == Completed(true))
    && (job.phase.Completed? ==> status.Processed?)
    && (job.phase == Failing(true) || job.phase.Handled? ==> !status.Processed?)
    && (job.phase == Exhausted(true) ==> status.Failed?)
  }

  predicate Inv(s: State) {
    forall id :: id in s ==> EntryInv(s[id])
  }

  lemma EffectKeepsInv(e: Entry, event: Event)
    requires EntryInv(e) && Enabled(e, event)
    ensures EntryInv(Effect(e, event))
  {
  }

  lemma {:induction false} RunsKeepInv(run: seq<State>, i: nat)
    requires IsRun(run) && i < |run|
    ensures Inv(run[i])
  {
    if i > 0 {
      RunsKeepInv(run, i - 1);
      var s, s' := run[i - 1], run[i];
      assert Step(s, s');
      if id, event :| id in s && Enabled(s[id], event) && s' == s[id := Effect(s[id], event)] {
        EffectKeepsInv(s[id], event);
      }
    }
  }

  /** In every reachable state an event marked processed has been handled; it was handled more than once only
      if marking it threw, and never more than five times. */
  lemma HandledBeforeProcessed(run: seq<State>, i: nat, id: string)
    requires IsRun(run) && i < |run| && id in run[i]
    ensures var e := run[i][id];
      && (e.status.Processed? ==> e.history.handled >= 1)
      && e.history.handled <= e.history.unacknowledged + 1
      && e.history.handled <= MAX_ATTEMPTS
  {
    RunsKeepInv(run, i);
    assert EntryInv(run[i][id]);
  }

  /** Rows are never removed, and never become pending again. */
  lemma {:induction false} RowsStay(run: seq<State>, i: nat, j: nat, id: string)
    requires IsRun(run) && i <= j < |run| && id in run[i]
    ensures id in run[j] && (!run[i][id].status.Pending? ==> !run[j][id].status.Pending?)
    decreases j
  {
    if i < j {
      RowsStay(run, i, j - 1, id);
      assert Step(run[j - 1], run[j]);
    }
  }

  /** When no job is waiting or under way, every event is processed or failed, or its job was lost on the way
      to the queue, or the last write of its listener failed. */
  lemma AllSettled(run: seq<State>, i: nat, id: string)
    requires IsRun(run) && i < |run| && id in run[i]
    requires forall event :: Enabled(run[i][id], event) ==> event.Deliver?
    ensures var e := run[i][id];
      || (HasJob(e) && e.status.Processed?) || (HasJob(e) && e.status.Failed?)
      || e.job.None? || InPhase(e, Exhausted(false))
  {
    RunsKeepInv(run, i);
    var e := run[i][id];
    assert EntryInv(e);
    if HasJob(e) {
      assert !Enabled(e, Take) && !Enabled(e, Skip) && !Enabled(e, Handle);
      assert !Enabled(e, Mark) && !Enabled(e, Settle(true));
    }
  }

  // ----- when a status is final ------------------------------------------------------------------

  /** The status is settled: no job is coming, it is completed or exhausted, or the event is recorded as failed
      and its last attempt has failed. */
  predicate Final(e: Entry) {
    match e.job
    case None => !e.toEnqueue
    case Some(job) =>
      || job.phase.Completed? || job.phase.Exhausted?
      || (e.status.Failed? && job.phase.Failing? && job.attemptsMade == MAX_ATTEMPTS - 1)
  }

  lemma FinalStays(e: Entry, event: Event)
    requires EntryInv(e) && Final(e) && Enabled(e, event)
    ensures Final(Effect(e, event)) && Effect(e, event).status == e.status
  {
  }

  /** What happens to an entry when these events come, up to the first that cannot. */
  function Play(e: Entry, events: seq<Event>): (result: Entry)
    decreases |events|
  {
    if events == [] || !Enabled(e, events[0]) then e else Play(Effect(e, events[0]), events[1..])
  }

  lemma PlayFirst(e: Entry, event: Event, rest: seq<Event>)
    requires Enabled(e, event)
    ensures Play(e, [event] + rest) == Play(Effect(e, event), rest)
  {
    assert ([event] + rest)[1..] == rest;
  }

  lemma {:induction false} FinalStaysForever(e: Entry, events: seq<Event>)
    requires EntryInv(e) && Final(e)
    ensures Play(e, events).status == e.status
    decreases |events|
  {
    if events != [] && Enabled(e, events[0]) {
      FinalStays(e, events[0]);
      EffectKeepsInv(e, events[0]);
      FinalStaysForever(Effect(e, events[0]), events[1..]);
    }
  }

  function Distance(phase: Phase): nat {
    match phase
    case Waiting => 3
    case Running => 2
    case _ => 1
  }

  function AttemptsLeft(e: Entry): int {
    if e.job.None? then MAX_ATTEMPTS + 1 else MAX_ATTEMPTS - e.job.value.attemptsMade
  }

  /** The event that leads on to another status. */
  function TowardsChange(e: Entry): Event
    requires EntryInv(e) && !Final(e)
  {
    if e.job.None? then Enqueue
    else
      match e.job.value.phase
      case Waiting => Take
      case Running => if e.status.Processed? then Throw(false) else Handle
      case Handled => Mark
      case _ => Settle(true)
  }

  /** While it is not final, some course of events changes the status. */
  lemma {:induction false} NotFinalChanges(e: Entry) returns (events: seq<Event>)
    requires EntryInv(e) && !Final(e)
    ensures Play(e, events).status != e.status
    decreases AttemptsLeft(e), if e.job.Some? then Distance(e.job.value.phase) else 0
  {
    var event := TowardsChange(e);
    var e' := Effect(e, event);
    EffectKeepsInv(e, event);
    if e'.status != e.status {
      PlayFirst(e, event, []);
      assert [event] + [] == [event];
      events := [event];
    } else {
      var rest := NotFinalChanges(e');
      PlayFirst(e, event, rest);
      events := [event] + rest;
    }
  }

  /** A status is final if and only if no course of events changes it. */
  lemma StatusFinalIff(e: Entry)
    requires EntryInv(e)
    ensures (forall events :: Play(e, events).status == e.status) <==> Final(e)
  {
    if Final(e) {
      forall events
        ensures Play(e, events).status == e.status
      {
        FinalStaysForever(e, events);
      }
    } else {
      var events := NotFinalChanges(e);
      assert Play(e, events).status != e.status;
    }
  }

  function Last(run: seq<State>): State
    requires run != []
  {
    run[|run| - 1]
  }

  /** However the run goes on, the event keeps its status. */
  ghost predicate KeepsStatus(run: seq<State>, id: string)
    requires run != [] && id in Last(run)
  {
    forall later :: IsRun(later) && run <= later ==>
      id in Last(later) && Last(later)[id].status == Last(run)[id].status
  }

  lemma LongerRun(run: seq<State>, s: State)
    requires IsRun(run) && Step(Last(run), s)
    ensures IsRun(run + [s]) && Last(run + [s]) == s
  {
    var longer := run + [s];
    forall i | 0 <= i < |longer| - 1
      ensures Step(longer[i], longer[i + 1])
    {
      assert longer[i] == run[i];
      assert i < |run| - 1 ==> Step(run[i], run[i + 1]);
    }
  }

  /** Any course of events of one entry can be had by going on with the run. */
  lemma {:induction false} GoOn(run: seq<State>, id: string, events: seq<Event>) returns (later: seq<State>)
    requires IsRun(run) && id in Last(run)
    ensures IsRun(later) && run <= later
    ensures id in Last(later) && Last(later)[id] == Play(Last(run)[id], events)
    decreases |events|
  {
    var s := Last(run);
    if events == [] || !Enabled(s[id], events[0]) {
      later := run;
    } else {
      var s' := s[id := Effect(s[id], events[0])];
      LongerRun(run, s');
      later := GoOn(run + [s'], id, events[1..]);
      assert run <= run + [s'];
    }
  }

  lemma FinalAlongStep(run: seq<State>, i: nat, id: string)
    requires IsRun(run) && i < |run| - 1 && id in run[i] && Final(run[i][id])
    ensures id in run[i + 1] && Final(run[i + 1][id]) && run[i + 1][id].status == run[i][id].status
  {
    RunsKeepInv(run, i);
    var s, s' := run[i], run[i + 1];
    assert Step(s, s') && EntryInv(s[id]);
    if other, event :| other in s && Enabled(s[other], event) && s' == s[other := Effect(s[other], event)] {
      if other == id {
        FinalStays(s[id], event);
      }
    }
  }

  lemma {:induction false} FinalAlongRun(run: seq<State>, i: nat, j: nat, id: string)
    requires IsRun(run) && i <= j < |run| && id in run[i] && Final(run[i][id])
    ensures id in run[j] && Final(run[j][id]) && run[j][id].status == run[i][id].status
    decreases j
  {
    if i < j {
      FinalAlongRun(run, i, j - 1, id);
      FinalAlongStep(run, j - 1, id);
    }
  }

  /** In every reachable state: the status of an event never changes again, however the run goes on, if and
      only if it is final. */
  lemma KeepsStatusIff(run: seq<State>, id: string)
    requires IsRun(run) && id in Last(run)
    ensures KeepsStatus(run, id) <==> Final(Last(run)[id])
  {
    var e := Last(run)[id];
    RunsKeepInv(run, |run| - 1);
    if Final(e) {
      forall later | IsRun(later) && run <= later
        ensures id in Last(later) && Last(later)[id].status == e.status
      {
        assert later[|run| - 1] == Last(run);
        FinalAlongRun(later, |run| - 1, |later| - 1, id);
      }
    } else {
      var events := NotFinalChanges(e);
      var later := GoOn(run, id, events);
      assert IsRun(later) && run <= later && Last(later)[id].status != e.status;
    }
  }

  /** A processed event stays processed, however the run goes on, if and only if its job is completed or
      exhausted. */
  lemma ProcessedIsFinalIff(run: seq<State>, id: string)
    requires IsRun(run) && id in Last(run) && Last(run)[id].status.Processed?
    ensures var e := Last(run)[id];
      KeepsStatus(run, id) <==> HasJob(e) && (e.job.value.phase.Completed? || e.job.value.phase.Exhausted?)
  {
    RunsKeepInv(run, |run| - 1);
    assert EntryInv(Last(run)[id]);
    KeepsStatusIff(run, id);
  }

  /** A failed event stays failed, however the run goes on, if and only if its attempts are used up. */
  lemma FailedIsFinalIff(run: seq<State>, id: string)
    requires IsRun(run) && id in Last(run) && Last(run)[id].status.Failed?
    ensures var e := Last(run)[id];
      KeepsStatus(run, id) <==>
        HasJob(e)
        && e.job.value.attemptsMade + (if e.job.value.phase.Failing? then 1 else 0) == MAX_ATTEMPTS
  {
    RunsKeepInv(run, |run| - 1);
    assert EntryInv(Last(run)[id]);
    KeepsStatusIff(run, id);
  }

  /** A permanent error is recorded as a failure, and the job is retried all the same. */
  lemma FailedMayBeProcessed()
    ensures var failed := Play(NewEntry, [Enqueue, Take, Throw(true), Settle(true)]);
      failed.status.Failed? && Play(failed, [Take, Handle, Mark]).status.Processed?
  {
    var e0 := Effect(NewEntry, Enqueue);
    var e1 := Effect(e0, Take);
    var e2 := Effect(e1, Throw(true));
    var e3 := Effect(e2, Settle(true));
    assert Play(e2, [Settle(true)]) == e3;
    assert Play(e1, [Throw(true), Settle(true)]) == e3;
    assert Play(e0, [Take, Throw(true), Settle(true)]) == e3;
    assert Play(NewEntry, [Enqueue, Take, Throw(true), Settle(true)]) == e3;
    var e4 := Effect(e3, Take);
    var e5 := Effect(e4, Handle);
    assert Play(e5, [Mark]) == Effect(e5, Mark);
    assert Play(e4, [Handle, Mark]) == Effect(e5, Mark);
  }

  /** The attempts that fail before they read the status, until they are used up. */
  function FailingTurns(n: nat): seq<Event> {
    if n == 0 then [] else [Take, Throw(false), Settle(true)] + FailingTurns(n - 1)
  }

  lemma {:induction false} FailingTurnsExhaust(e: Entry, n: nat)
    requires EntryInv(e) && InPhase(e, Waiting) && n >= 1 && e.job.value.attemptsMade + n == MAX_ATTEMPTS
    ensures Play(e, FailingTurns(n)).status.Failed?
    decreases n
  {
    var e1 := Effect(e, Take);
    var e2 := Effect(e1, Throw(false));
    var e3 := Effect(e2, Settle(true));
    var rest := FailingTurns(n - 1);
    PlayFirst(e, Take, [Throw(false), Settle(true)] + rest);
    PlayFirst(e1, Throw(false), [Settle(true)] + rest);
    PlayFirst(e2, Settle(true), rest);
    assert FailingTurns(n) == [Take] + ([Throw(false), Settle(true)] + rest);
    assert [Throw(false), Settle(true)] + rest == [Throw(false)] + ([Settle(true)] + rest);
    if n > 1 {
      EffectKeepsInv(e, Take);
      EffectKeepsInv(e1, Throw(false));
      EffectKeepsInv(e2, Settle(true));
      FailingTurnsExhaust(e3, n - 1);
    }
  }

  /** From a new row: the event is handled and marked, the acknowledgement of the mark is lost, and four more
      attempts fail before they read the status. It was processed and ends failed. */
  lemma ProcessedMayFail()
    ensures var marked := Play(NewEntry, [Enqueue, Take, Handle, MarkThrows(true)]);
      marked.status.Processed? && Play(marked, [Settle(true)] + FailingTurns(4)).status.Failed?
  {
    var e0 := Effect(NewEntry, Enqueue);
    var e1 := Effect(e0, Take);
    var e2 := Effect(e1, Handle);
    var e3 := Effect(e2, MarkThrows(true));
    assert Play(e2, [MarkThrows(true)]) == e3;
    assert Play(e1, [Handle, MarkThrows(true)]) == e3;
    assert Play(e0, [Take, Handle, MarkThrows(true)]) == e3;
    assert Play(NewEntry, [Enqueue, Take, Handle, MarkThrows(true)]) == e3;
    var e4 := Effect(e3, Settle(true));
    PlayFirst(e3, Settle(true), FailingTurns(4));
    FailingTurnsExhaust(e4, 4);
  }

  // ----- what the events say of an entry ----------------------------------------------------------

  /** The course of one recorded event, with what happened to it. */
  predicate IsCourse(entries: seq<Entry>, events: seq<Event>) {
    && |entries| == |events| + 1 && entries[0] == NewEntry
    && forall i :: 0 <= i < |events| ==>
         Enabled(entries[i], events[i]) && entries[i + 1] == Effect(entries[i], events[i])
  }

  function HandledOf(events: seq<Event>): nat {
    if events == [] then 0
    else HandledOf(events[..|events| - 1]) + if events[|events| - 1].Handle? then 1 else 0
  }

  /** How many attempts have failed and been dealt with. */
  function FailedOf(events: seq<Event>): nat {
    if events == [] then 0
    else FailedOf(events[..|events| - 1]) + if events[|events| - 1].Settle? then 1 else 0
  }

  /** The last thing that happened apart from redeliveries. */
  function LastStep(events: seq<Event>): Option<Event> {
    if events == [] then None
    else if events[|events| - 1].Deliver? then LastStep(events[..|events| - 1])
    else Some(events[|events| - 1])
  }

  /** The last status written: a mark that reached the database, or the record of a failure that was permanent or
      the last. */
  function StatusOf(events: seq<Event>): Status {
    if events == [] then Pending
    else
      var before, last := events[..|events| - 1], events[|events| - 1];
      if last.Mark? || last == MarkThrows(true) then Processed
      else if last == Settle(true) && (LastStep(before) == Some(Throw(true)) || FailedOf(before) + 1 == MAX_ATTEMPTS)
      then Failed
      else StatusOf(before)
  }

  predicate Follows(e: Entry, events: seq<Event>) {
    && e.status == StatusOf(events) && e.history.handled == HandledOf(events)
    && (if e.job.None? then FailedOf(events) == 0
        else
          && e.job.value.attemptsMade == FailedOf(events)
          && (e.job.value.phase == Failing(true) <==> LastStep(events) == Some(Throw(true))))
  }

  lemma FollowsNext(e: Entry, events: seq<Event>, event: Event)
    requires EntryInv(e) && Follows(e, events) && Enabled(e, event)
    ensures Follows(Effect(e, event), events + [event])
  {
    assert (events + [event])[..|events|] == events;
  }

  lemma {:induction false} CourseFollows(entries: seq<Entry>, events: seq<Event>)
    requires IsCourse(entries, events)
    ensures EntryInv(entries[|events|]) && Follows(entries[|events|], events)
    decreases |events|
  {
    if events != [] {
      var n := |events| - 1;
      CourseFollows(entries[..n + 1], events[..n]);
      EffectKeepsInv(entries[n], events[n]);
      FollowsNext(entries[n], events[..n], events[n]);
      assert events == events[..n] + [events[n]];
    }
  }

  /** An event's status is the last that was written, and its handler ran to the end at most five times. */
  lemma StatusIsTheLastWritten(entries: seq<Entry>, events: seq<Event>)
    requires IsCourse(entries, events)
    ensures entries[|events|].status == StatusOf(events)
    ensures HandledOf(events) <= MAX_ATTEMPTS && FailedOf(events) <= MAX_ATTEMPTS
    ensures StatusOf(events).Processed? ==> HandledOf(events) >= 1
  {
    CourseFollows(entries, events);
  }
}
