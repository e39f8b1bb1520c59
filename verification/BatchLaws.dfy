/** What a monthly batch does, judged on the tables as they were before it. */
module BatchLaws {
  import opened Ledger
  import opened Money
  import opened Options
  import opened Batch

  // ----- any pass over jobs that have their slots free ----------------------------------------------

  predicate Storable(items: Items) {
    FitsColumn(ItemsTotal(items)) && forall i :: 0 <= i < |items| ==> ItemFits(items[i])
  }

  predicate Fails(jobs: seq<Job>) {
    exists i :: 0 <= i < |jobs| && jobs[i].plan.Bill? && !Storable(jobs[i].plan.items)
  }

  function DraftOf(period: string, job: Job): Invoice
    requires job.plan.Bill?
  {
    Invoice(job.contractId, period, job.plan.items, ItemsTotal(job.plan.items), Draft, None)
  }

  function Drafts(period: string, jobs: seq<Job>): seq<Invoice> {
    if jobs == [] then []
    else
      var job := jobs[|jobs| - 1];
      Drafts(period, jobs[..|jobs| - 1]) + if job.plan.Bill? then [DraftOf(period, job)] else []
  }

  function Skips(jobs: seq<Job>): seq<Skip> {
    if jobs == [] then []
    else
      var job := jobs[|jobs| - 1];
      Skips(jobs[..|jobs| - 1])
      + if job.plan.Leave? then [Skip(job.unitId, job.contractId, job.plan.reason)] else []
  }

  function Ids(first: nat, n: nat): (ids: seq<nat>)
    ensures |ids| == n && forall i :: 0 <= i < n ==> ids[i] == first + i
  {
    seq(n, i requires i >= 0 => first + i)
  }

  function After(t: Tables, period: string, jobs: seq<Job>): Tables {
    t.(invoices := t.invoices + Drafts(period, jobs))
  }

  /** Each contract once, and none to bill whose slot is taken. */
  predicate Clear(t: Tables, period: string, jobs: seq<Job>) {
    && (forall i, j :: 0 <= i < j < |jobs| ==> jobs[i].contractId != jobs[j].contractId)
    && (forall i :: 0 <= i < |jobs| && jobs[i].plan.Bill? ==> !SlotTaken(t.invoices, jobs[i].contractId, period))
  }

  lemma {:induction false} DraftsAre(period: string, jobs: seq<Job>, contractId: string)
    ensures (exists d :: d in Drafts(period, jobs) && d.contractId == contractId)
       <==> exists i :: 0 <= i < |jobs| && jobs[i].plan.Bill? && jobs[i].contractId == contractId
    ensures forall d :: d in Drafts(period, jobs) ==> d.period == period && d.status.Draft?
    decreases |jobs|
  {
    if jobs != [] {
      var front, last := jobs[..|jobs| - 1], jobs[|jobs| - 1];
      DraftsAre(period, front, contractId);
      var before, now := Drafts(period, front), Drafts(period, jobs);
      assert forall d :: d in now <==> d in before || (last.plan.Bill? && d == DraftOf(period, last));
      assert forall i :: 0 <= i < |front| ==> jobs[i] == front[i];
    }
  }

  lemma SlotTakenWith(invoices: seq<Invoice>, drafts: seq<Invoice>, contractId: string, period: string)
    ensures SlotTaken(invoices + drafts, contractId, period) <==>
      SlotTaken(invoices, contractId, period) || exists d :: d in drafts && Occupies(d, contractId, period)
  {
    var all := invoices + drafts;
    if SlotTaken(all, contractId, period) {
      var i :| 0 <= i < |all| && Occupies(all[i], contractId, period);
      assert if i < |invoices| then all[i] == invoices[i] else all[i] == drafts[i - |invoices|];
      assert i >= |invoices| ==> all[i] in drafts;
    }
    if SlotTaken(invoices, contractId, period) {
      var i :| 0 <= i < |invoices| && Occupies(invoices[i], contractId, period);
      assert Occupies(all[i], contractId, period);
    }
    if d :| d in drafts && Occupies(d, contractId, period) {
      var k :| 0 <= k < |drafts| && drafts[k] == d;
      assert Occupies(all[|invoices| + k], contractId, period);
    }
  }

  /** The drafts of earlier jobs take no slot that a later job needs. */
  lemma SlotStillFree(t: Tables, period: string, front: seq<Job>, last: Job)
    requires Clear(t, period, front + [last]) && last.plan.Bill?
    ensures !SlotTaken(After(t, period, front).invoices, last.contractId, period)
  {
    var jobs := front + [last];
    assert jobs[|front|] == last;
    DraftsAre(period, front, last.contractId);
    SlotTakenWith(t.invoices, Drafts(period, front), last.contractId, period);
    assert forall i :: 0 <= i < |front| ==> jobs[i] == front[i] && jobs[i].contractId != jobs[|front|].contractId;
  }

  function Expected(t: Tables, period: string, jobs: seq<Job>): Progress {
    Progress(After(t, period, jobs), Ids(|t.invoices|, |Drafts(period, jobs)|), Skips(jobs), false)
  }

  lemma LeaveOne(t: Tables, period: string, front: seq<Job>, last: Job)
    requires last.plan.Leave?
    ensures Expected(t, period, front + [last])
         == Record(Expected(t, period, front), After(t, period, front), Skipped(last.plan.reason), last)
  {
    assert (front + [last])[..|front|] == front;
    assert Drafts(period, front + [last]) == Drafts(period, front);
  }

  lemma DraftOne(t: Tables, period: string, front: seq<Job>, last: Job)
    requires last.plan.Bill?
    ensures Drafts(period, front + [last]) == Drafts(period, front) + [DraftOf(period, last)]
    ensures After(t, period, front + [last])
         == t.(invoices := After(t, period, front).invoices + [DraftOf(period, last)])
  {
    var drafts := Drafts(period, front);
    assert (front + [last])[..|front|] == front;
    assert t.invoices + (drafts + [DraftOf(period, last)]) == t.invoices + drafts + [DraftOf(period, last)];
  }

  lemma IdsNext(first: nat, n: nat)
    ensures Ids(first, n + 1) == Ids(first, n) + [first + n]
  {
  }

  lemma BillOne(t: Tables, period: string, front: seq<Job>, last: Job)
    requires last.plan.Bill?
    ensures Expected(t, period, front + [last])
         == Record(Expected(t, period, front), After(t, period, front + [last]),
                   Generated(|After(t, period, front).invoices|), last)
  {
    DraftOne(t, period, front, last);
    IdsNext(|t.invoices|, |Drafts(period, front)|);
    NoSkip(front, last);
  }

  lemma NoSkip(front: seq<Job>, last: Job)
    requires last.plan.Bill?
    ensures Skips(front + [last]) == Skips(front)
  {
    assert (front + [last])[..|front|] == front;
  }

  lemma OneTurn(t: Tables, period: string, front: seq<Job>, last: Job)
    requires Clear(t, period, front + [last])
    ensures var now := After(t, period, front);
      TakeTurn(now, period, last)
      == match last.plan
         case Leave(reason) => (now, Skipped(reason))
         case Bill(items) =>
           if Storable(items) then (After(t, period, front + [last]), Generated(|now.invoices|)) else (now, Threw)
  {
    if last.plan.Bill? {
      SlotStillFree(t, period, front, last);
      DraftOne(t, period, front, last);
    }
  }

  lemma PassNext(t: Tables, period: string, front: seq<Job>, last: Job)
    requires Clear(t, period, front + [last])
    requires Visits(t, period, front) == Expected(t, period, front)
    ensures var p := Visits(t, period, front + [last]);
      if last.plan.Bill? && !Storable(last.plan.items) then p.failed else p == Expected(t, period, front + [last])
  {
    var jobs := front + [last];
    assert jobs[..|front|] == front && jobs[..|front| + 1] == jobs;
    OneTurn(t, period, front, last);
    var taken := TakeTurn(After(t, period, front), period, last);
    NextTurn(t, period, jobs, |front|, Expected(t, period, front), taken.0, taken.1);
    if last.plan.Leave? {
      LeaveOne(t, period, front, last);
    } else {
      BillOne(t, period, front, last);
    }
  }

  lemma {:induction false} PassIsExpected(t: Tables, period: string, jobs: seq<Job>)
    requires Clear(t, period, jobs)
    ensures if Fails(jobs) then Visits(t, period, jobs).failed else Visits(t, period, jobs) == Expected(t, period, jobs)
    decreases |jobs|
  {
    if jobs == [] {
      assert t.invoices + [] == t.invoices;
    } else {
      var front, last := jobs[..|jobs| - 1], jobs[|jobs| - 1];
      assert jobs == front + [last];
      PassIsExpected(t, period, front);
      assert Fails(jobs) <==> Fails(front) || (last.plan.Bill? && !Storable(last.plan.items));
      if Fails(front) {
        FailureEndsThePass(t, period, jobs, |front|);
      } else {
        PassNext(t, period, front, last);
      }
    }
  }

  // ----- the request ------------------------------------------------------------------------------------

  /** The primary key of the contract table. */
  predicate DistinctContracts(input: Input) {
    forall i, j :: 0 <= i < j < |input.contracts| ==> input.contracts[i].contractId != input.contracts[j].contractId
  }

  /** The unique index of the meter table. */
  predicate DistinctMeters(meters: seq<Meter>) {
    forall i, j :: 0 <= i < j < |meters| ==> meters[i].unitId != meters[j].unitId || meters[i].kind != meters[j].kind
  }

  /** The whole request: a draft for every contract to bill, in order, and a reason for every other; or
      nothing at all, exactly if some amount does not fit. The check against a concurrent duplicate never
      strikes a batch that runs alone. */
  lemma BatchDoesAsPlanned(t: Tables, input: Input)
    requires DistinctContracts(input)
    ensures var jobs := JobsAt(t, input);
      Generate(t, input)
      == if Fails(jobs) then (t, Failed)
         else (After(t, input.period, jobs), Batched(Ids(|t.invoices|, |Drafts(input.period, jobs)|), Skips(jobs)))
  {
    PassIsExpected(t, input.period, JobsAt(t, input));
  }

  lemma {:induction false} EachOnce(period: string, jobs: seq<Job>)
    ensures |Drafts(period, jobs)| + |Skips(jobs)| == |jobs|
    decreases |jobs|
  {
    if jobs != [] {
      EachOnce(period, jobs[..|jobs| - 1]);
    }
  }

  lemma {:induction false} SkipsAre(jobs: seq<Job>, contractId: string)
    ensures forall s :: s in Skips(jobs) && s.contractId == contractId ==>
      exists i :: 0 <= i < |jobs| && jobs[i].contractId == contractId && jobs[i].plan == Leave(s.reason)
    ensures forall i :: 0 <= i < |jobs| && jobs[i].plan.Leave? && jobs[i].contractId == contractId ==>
      Skip(jobs[i].unitId, contractId, jobs[i].plan.reason) in Skips(jobs)
    decreases |jobs|
  {
    if jobs != [] {
      var front, last := jobs[..|jobs| - 1], jobs[|jobs| - 1];
      SkipsAre(front, contractId);
      var before, now := Skips(front), Skips(jobs);
      assert forall s :: s in now <==>
        s in before || (last.plan.Leave? && s == Skip(last.unitId, last.contractId, last.plan.reason));
      assert forall i :: 0 <= i < |front| ==> jobs[i] == front[i];
    }
  }

  predicate IsGenerated(invoices: seq<Invoice>, generated: seq<nat>, contractId: string) {
    exists k :: 0 <= k < |generated| && generated[k] < |invoices|
      && invoices[generated[k]].contractId == contractId
  }

  predicate IsSkipped(skipped: seq<Skip>, contractId: string) {
    exists s :: s in skipped && s.contractId == contractId
  }

  lemma AppendedAreGenerated(invoices: seq<Invoice>, drafts: seq<Invoice>, contractId: string)
    ensures IsGenerated(invoices + drafts, Ids(|invoices|, |drafts|), contractId)
       <==> exists d :: d in drafts && d.contractId == contractId
  {
    var all, ids := invoices + drafts, Ids(|invoices|, |drafts|);
    if IsGenerated(all, ids, contractId) {
      var k :| 0 <= k < |ids| && ids[k] < |all| && all[ids[k]].contractId == contractId;
      IdOfDraft(invoices, drafts, k);
      assert drafts[k] in drafts;
    }
    if d :| d in drafts && d.contractId == contractId {
      var k :| 0 <= k < |drafts| && drafts[k] == d;
      IdOfDraft(invoices, drafts, k);
    }
  }

  lemma IdOfDraft(invoices: seq<Invoice>, drafts: seq<Invoice>, k: nat)
    requires k < |drafts|
    ensures var id := Ids(|invoices|, |drafts|)[k];
      id < |invoices + drafts| && (invoices + drafts)[id] == drafts[k]
  {
  }

  /** Where a contract that occurs once ends up. */
  lemma PlacedByPlan(invoices: seq<Invoice>, period: string, jobs: seq<Job>, i: nat)
    requires i < |jobs|
    requires forall k, l :: 0 <= k < l < |jobs| ==> jobs[k].contractId != jobs[l].contractId
    ensures var id, drafts := jobs[i].contractId, Drafts(period, jobs);
      && (IsGenerated(invoices + drafts, Ids(|invoices|, |drafts|), id) <==> jobs[i].plan.Bill?)
      && (IsSkipped(Skips(jobs), id) <==> jobs[i].plan.Leave?)
      && (forall s :: s in Skips(jobs) && s.contractId == id ==> jobs[i].plan == Leave(s.reason))
  {
    var id := jobs[i].contractId;
    AppendedAreGenerated(invoices, Drafts(period, jobs), id);
    DraftsAre(period, jobs, id);
    SkipsAre(jobs, id);
  }

  /** Every contract in scope is generated or skipped, never both, and generated exactly if it is active, has
      no invoice for the period that is not void, and no meter of its unit lacks its reading. */
  lemma GeneratedOrSkipped(t: Tables, input: Input, i: nat)
    requires DistinctContracts(input) && DistinctMeters(input.meters) && i < |input.contracts|
    requires Generate(t, input).1.Batched?
    ensures var (t', reply), c := Generate(t, input), input.contracts[i];
      && |reply.generated| + |reply.skipped| == |input.contracts|
      && (IsGenerated(t'.invoices, reply.generated, c.contractId) <==> !IsSkipped(reply.skipped, c.contractId))
      && (IsGenerated(t'.invoices, reply.generated, c.contractId) <==>
            c.status.Active? && !SlotTaken(t.invoices, c.contractId, input.period)
            && forall m :: m in input.meters && m.unitId == c.unitId ==> m.id in input.readings)
  {
    var jobs := JobsAt(t, input);
    BatchDoesAsPlanned(t, input);
    EachOnce(input.period, jobs);
    PlacedByPlan(t.invoices, input.period, jobs, i);
    NothingMissingIff(input, input.contracts[i].unitId);
  }

  /** A skipped contract is reported with the first rule that applies. */
  lemma ReportedReason(t: Tables, input: Input, i: nat, s: Skip)
    requires DistinctContracts(input) && i < |input.contracts| && Generate(t, input).1.Batched?
    requires s in Generate(t, input).1.skipped && s.contractId == input.contracts[i].contractId
    ensures var c := input.contracts[i];
      var unitMeters := UnitMeters(input.meters, c.unitId);
      s.reason
      == if !c.status.Active? then InactiveContract
         else if SlotTaken(t.invoices, c.contractId, input.period) then SkipReason.DuplicateInvoice
         else if LacksReading(unitMeters, input.readings, WaterMeter) then MissingWaterReading
         else MissingElectricReading
  {
    BatchDoesAsPlanned(t, input);
    PlacedByPlan(t.invoices, input.period, JobsAt(t, input), i);
  }

  lemma {:induction false} UnitMetersAre(meters: seq<Meter>, unitId: string, m: Meter)
    ensures m in UnitMeters(meters, unitId) <==> m in meters && m.unitId == unitId
    decreases |meters|
  {
    if meters != [] {
      UnitMetersAre(meters[..|meters| - 1], unitId, m);
    }
  }

  lemma NothingMissingIff(input: Input, unitId: string)
    requires DistinctMeters(input.meters)
    ensures FindMissingReadingReason(UnitMeters(input.meters, unitId), input.readings).None? <==>
      forall m :: m in input.meters && m.unitId == unitId ==> m.id in input.readings
  {
    var own := UnitMeters(input.meters, unitId);
    forall m | m in own || (m in input.meters && m.unitId == unitId)
      ensures m in own && m in input.meters && m.unitId == unitId && FindMeter(own, m.kind) == Some(m)
    {
      UnitMetersAre(input.meters, unitId, m);
      var found := FindMeter(own, m.kind).value;
      UnitMetersAre(input.meters, unitId, found);
    }
    forall kind: MeterKind
      ensures LacksReading(own, input.readings, kind) <==>
        exists m :: m in input.meters && m.unitId == unitId && m.kind == kind && m.id !in input.readings
    {
      var found := FindMeter(own, kind);
      if found.Some? {
        assert found.value in own;
      }
    }
  }

  // ----- the second run ------------------------------------------------------------------------------

  lemma {:induction false} NothingToDo(t: Tables, period: string, jobs: seq<Job>)
    requires forall i :: 0 <= i < |jobs| ==> jobs[i].plan.Leave?
    ensures Drafts(period, jobs) == [] && !Fails(jobs)
    decreases |jobs|
  {
    if jobs != [] {
      NothingToDo(t, period, jobs[..|jobs| - 1]);
    }
  }

  /** After a run, the slot of every contract it billed is taken. */
  lemma NobodyLeftToBill(t: Tables, input: Input, i: nat)
    requires i < |input.contracts|
    ensures var jobs := JobsAt(t, input);
      JobsAt(After(t, input.period, jobs), input)[i].plan.Leave?
  {
    var jobs, id := JobsAt(t, input), input.contracts[i].contractId;
    DraftsAre(input.period, jobs, id);
    SlotTakenWith(t.invoices, Drafts(input.period, jobs), id, input.period);
    if jobs[i].plan.Bill? {
      assert jobs[i].contractId == id;
      var d :| d in Drafts(input.period, jobs) && d.contractId == id;
      assert Occupies(d, id, input.period);
    }
  }

  /** A second run bills nobody and leaves the tables as they are. */
  lemma SecondRunIsIdle(t: Tables, input: Input)
    requires DistinctContracts(input) && Generate(t, input).1.Batched?
    ensures var t' := Generate(t, input).0;
      && Generate(t', input).0 == t'
      && Generate(t', input).1.Batched? && Generate(t', input).1.generated == []
      && |Generate(t', input).1.skipped| == |input.contracts|
  {
    var t' := Generate(t, input).0;
    BatchDoesAsPlanned(t, input);
    BatchDoesAsPlanned(t', input);
    forall i | 0 <= i < |input.contracts|
      ensures JobsAt(t', input)[i].plan.Leave?
    {
      NobodyLeftToBill(t, input, i);
    }
    NothingToDo(t', input.period, JobsAt(t', input));
    EachOnce(input.period, JobsAt(t', input));
    assert t'.invoices + [] == t'.invoices;
  }

  // ----- the items of one draft ---------------------------------------------------------------------

  /** The item that bills a meter at its reading. */
  predicate BillsMeter(item: Item, kind: ItemKind, m: Meter, reading: Reading) {
    && item.kind == kind
    && item.quantity == reading.consumption && item.unitPrice == m.ratePerUnit
    && item.lineTotal == LineTotal(Line(reading.consumption, m.ratePerUnit))
    && item.readingId == Some(reading.id)
  }

  predicate BillsFee(item: Item, fee: Fee) {
    && item.kind == fee.kind
    && item.quantity == fee.line.quantity && item.unitPrice == fee.line.unitPrice
    && item.lineTotal == LineTotal(fee.line) && item.readingId.None?
  }

  function Count(meter: Option<Meter>): nat {
    if meter.Some? then 1 else 0
  }

  lemma TwoKinds(own: seq<Meter>, readings: map<string, Reading>)
    ensures MeterItems(own, readings, METER_KINDS)
         == MeterItem(own, readings, WaterMeter) + MeterItem(own, readings, ElectricMeter)
  {
    assert METER_KINDS[..1] == [WaterMeter];
    assert MeterItems(own, readings, METER_KINDS)
        == MeterItems(own, readings, [WaterMeter]) + MeterItem(own, readings, ElectricMeter);
    assert [WaterMeter][..0] == [];
    assert MeterItems(own, readings, [WaterMeter]) == [] + MeterItem(own, readings, WaterMeter);
  }

  function KindOf(kind: MeterKind): ItemKind {
    if kind.WaterMeter? then Water else Electric
  }

  lemma MeterItemBills(own: seq<Meter>, readings: map<string, Reading>, kind: MeterKind)
    requires !LacksReading(own, readings, kind)
    ensures var meter, items := FindMeter(own, kind), MeterItem(own, readings, kind);
      && |items| == Count(meter)
      && (meter.Some? ==>
            && meter.value.id in readings
            && forall i :: BillsMeter(items[0].(sortOrder := i), KindOf(kind), meter.value, readings[meter.value.id]))
  {
  }

  /** Where an item of a middle part is. */
  lemma Position(before: seq<Item>, part: seq<Item>, after: seq<Item>, k: nat)
    requires k < |part|
    ensures Numbered(before + part + after)[|before| + k] == part[k].(sortOrder := |before| + k)
  {
    assert (before + part + after)[|before| + k] == part[k];
  }

  lemma PositionOfMeter(before: seq<Item>, own: seq<Meter>, readings: map<string, Reading>, kind: MeterKind,
                        after: seq<Item>)
    requires !LacksReading(own, readings, kind)
    ensures var meter, items := FindMeter(own, kind), Numbered(before + MeterItem(own, readings, kind) + after);
      && |items| == |before| + Count(meter) + |after|
      && (meter.Some? ==>
            && meter.value.id in readings
            && BillsMeter(items[|before|], KindOf(kind), meter.value, readings[meter.value.id]))
  {
    MeterItemBills(own, readings, kind);
    if FindMeter(own, kind).Some? {
      Position(before, MeterItem(own, readings, kind), after, 0);
    }
  }

  lemma PositionOfFee(before: seq<Item>, fees: seq<Fee>, k: nat)
    requires k < |fees|
    ensures BillsFee(Numbered(before + FeeItems(fees))[|before| + k], fees[k])
  {
    assert (before + FeeItems(fees))[|before| + k] == FeeItems(fees)[k];
  }

  predicate AllFeesBilled(items: seq<Item>, start: nat, fees: seq<Fee>) {
    |items| == start + |fees| && forall k :: 0 <= k < |fees| ==> BillsFee(items[start + k], fees[k])
  }

  /** The item of a kind stands at a position, if the unit has such a meter. */
  predicate MeterBilledAt(items: seq<Item>, position: nat,
                          own: seq<Meter>, readings: map<string, Reading>, kind: MeterKind) {
    var meter := FindMeter(own, kind);
    meter.Some? ==>
      && position < |items| && meter.value.id in readings
      && BillsMeter(items[position], KindOf(kind), meter.value, readings[meter.value.id])
  }

  lemma Regroup<T>(a: seq<T>, b: seq<T>, c: seq<T>, d: seq<T>)
    ensures a + (b + c) + d == a + b + (c + d)
    ensures a + (b + c) + d == (a + b) + c + d
  {
  }

  lemma FeesBilled(before: seq<Item>, fees: seq<Fee>)
    ensures AllFeesBilled(Numbered(before + FeeItems(fees)), |before|, fees)
  {
    forall k | 0 <= k < |fees|
      ensures BillsFee(Numbered(before + FeeItems(fees))[|before| + k], fees[k])
    {
      PositionOfFee(before, fees, k);
    }
  }

  lemma BatchItemsAre(rentAmount: Amount, own: seq<Meter>, readings: map<string, Reading>, fees: Fees)
    ensures var r, f := [RentItem(rentAmount)], FeeItems(fees);
      var w, e := MeterItem(own, readings, WaterMeter), MeterItem(own, readings, ElectricMeter);
      && BatchItems(rentAmount, own, readings, fees) == Numbered(r + w + (e + f))
      && BatchItems(rentAmount, own, readings, fees) == Numbered(r + w + e + f)
  {
    var r, f := [RentItem(rentAmount)], FeeItems(fees);
    TwoKinds(own, readings);
    Regroup(r, MeterItem(own, readings, WaterMeter), MeterItem(own, readings, ElectricMeter), f);
  }

  lemma BatchItemsBill(rentAmount: Amount, own: seq<Meter>, readings: map<string, Reading>, fees: Fees)
    requires !LacksReading(own, readings, WaterMeter) && !LacksReading(own, readings, ElectricMeter)
    ensures var items := BatchItems(rentAmount, own, readings, fees);
      var water, electric := Count(FindMeter(own, WaterMeter)), Count(FindMeter(own, ElectricMeter));
      && items[0] == Item(Rent, 100, rentAmount * 100, rentAmount, None, 0)
      && MeterBilledAt(items, 1, own, readings, WaterMeter)
      && MeterBilledAt(items, 1 + water, own, readings, ElectricMeter)
      && AllFeesBilled(items, 1 + water + electric, fees)
  {
    var r, f := [RentItem(rentAmount)], FeeItems(fees);
    var w, e := MeterItem(own, readings, WaterMeter), MeterItem(own, readings, ElectricMeter);
    BatchItemsAre(rentAmount, own, readings, fees);
    PositionOfMeter(r, own, readings, WaterMeter, e + f);
    PositionOfMeter(r + w, own, readings, ElectricMeter, f);
    FeesBilled(r + w + e, fees);
    MeterItemBills(own, readings, WaterMeter);
    MeterItemBills(own, readings, ElectricMeter);
  }

  /** A billed contract pays its rent, then its water and electricity, each at the consumption of the meter's
      reading and the meter's rate, then every fee; and nothing else. Items are numbered by position. */
  lemma BilledItems(existing: set<string>, input: Input, c: Tenancy)
    requires PlanFor(existing, input, c).Bill?
    ensures var items, own := PlanFor(existing, input, c).items, UnitMeters(input.meters, c.unitId);
      var water, electric := Count(FindMeter(own, WaterMeter)), Count(FindMeter(own, ElectricMeter));
      && (forall i :: 0 <= i < |items| ==> items[i].sortOrder == i)
      && items[0] == Item(Rent, 100, c.rentAmount * 100, c.rentAmount, None, 0)
      && MeterBilledAt(items, 1, own, input.readings, WaterMeter)
      && MeterBilledAt(items, 1 + water, own, input.readings, ElectricMeter)
      && AllFeesBilled(items, 1 + water + electric, input.fees)
  {
    BatchItemsBill(c.rentAmount, UnitMeters(input.meters, c.unitId), input.readings, input.fees);
  }

  // ----- the invoices of a batch --------------------------------------------------------------------

  predicate HasMeter(input: Input, unitId: string, kind: MeterKind) {
    exists m :: m in input.meters && m.unitId == unitId && m.kind == kind
  }

  /** The meters of this kind at the unit are billed at a position, as items of a kind. */
  predicate UnitBilledAt(items: seq<Item>, position: nat, input: Input, unitId: string, kind: MeterKind,
                         itemKind: ItemKind) {
    forall m :: m in input.meters && m.unitId == unitId && m.kind == kind ==>
      && position < |items| && m.id in input.readings
      && BillsMeter(items[position], itemKind, m, input.readings[m.id])
  }

  /** A draft for the contract and the period, that bills the contract's rent, the readings of its unit's water and
      electricity meters at their rates, and every fee, in this order, and nothing else. */
  predicate BillsContract(invoice: Invoice, input: Input, c: Tenancy) {
    var items := invoice.items;
    var water := if HasMeter(input, c.unitId, WaterMeter) then 1 else 0;
    var electric := if HasMeter(input, c.unitId, ElectricMeter) then 1 else 0;
    && invoice.contractId == c.contractId && invoice.period == input.period
    && invoice.status.Draft? && invoice.promptPayRef.None? && invoice.total == ItemsTotal(items)
    && (forall i :: 0 <= i < |items| ==> items[i].sortOrder == i)
    && items != [] && items[0] == Item(Rent, 100, c.rentAmount * 100, c.rentAmount, None, 0)
    && UnitBilledAt(items, 1, input, c.unitId, WaterMeter, Water)
    && UnitBilledAt(items, 1 + water, input, c.unitId, ElectricMeter, Electric)
    && AllFeesBilled(items, 1 + water + electric, input.fees)
  }

  /** A unit has one meter of a kind at most, and it is the one found. */
  lemma UnitMeterIs(input: Input, unitId: string, kind: MeterKind)
    requires DistinctMeters(input.meters)
    ensures var meter := FindMeter(UnitMeters(input.meters, unitId), kind);
      && (meter.Some? <==> HasMeter(input, unitId, kind))
      && (forall m :: m in input.meters && m.unitId == unitId && m.kind == kind ==> meter == Some(m))
  {
    var own := UnitMeters(input.meters, unitId);
    var meter := FindMeter(own, kind);
    if meter.Some? {
      assert meter.value in own && meter.value.kind == kind;
      UnitMetersAre(input.meters, unitId, meter.value);
    }
    forall m | m in input.meters && m.unitId == unitId && m.kind == kind
      ensures meter == Some(m)
    {
      UnitMetersAre(input.meters, unitId, m);
    }
  }

  lemma PlanBills(existing: set<string>, input: Input, c: Tenancy)
    requires DistinctMeters(input.meters) && PlanFor(existing, input, c).Bill?
    ensures BillsContract(DraftOf(input.period, JobFor(existing, input, c)), input, c)
  {
    BilledItems(existing, input, c);
    UnitMeterIs(input, c.unitId, WaterMeter);
    UnitMeterIs(input, c.unitId, ElectricMeter);
  }

  /** A draft comes from a job of its contract. */
  lemma {:induction false} DraftFromJob(period: string, jobs: seq<Job>, k: nat) returns (i: nat)
    requires k < |Drafts(period, jobs)|
    ensures i < |jobs| && jobs[i].plan.Bill? && Drafts(period, jobs)[k] == DraftOf(period, jobs[i])
    decreases |jobs|
  {
    var n := |jobs| - 1;
    if k < |Drafts(period, jobs[..n])| {
      i := DraftFromJob(period, jobs[..n], k);
    } else {
      i := n;
    }
  }

  lemma GeneratedIsDraft(t: Tables, input: Input, k: nat) returns (i: nat)
    requires DistinctContracts(input) && Generate(t, input).1.Batched? && k < |Generate(t, input).1.generated|
    ensures i < |input.contracts| && JobsAt(t, input)[i].plan.Bill?
    ensures var (t', reply) := Generate(t, input);
      reply.generated[k] < |t'.invoices|
      && t'.invoices[reply.generated[k]] == DraftOf(input.period, JobsAt(t, input)[i])
  {
    var drafts := Drafts(input.period, JobsAt(t, input));
    BatchDoesAsPlanned(t, input);
    IdOfDraft(t.invoices, drafts, k);
    i := DraftFromJob(input.period, JobsAt(t, input), k);
  }

  lemma DraftBills(t: Tables, input: Input, i: nat)
    requires DistinctMeters(input.meters) && i < |input.contracts| && JobsAt(t, input)[i].plan.Bill?
    ensures BillsContract(DraftOf(input.period, JobsAt(t, input)[i]), input, input.contracts[i])
  {
    PlanBills(ExistingSet(t.invoices, input.period), input, input.contracts[i]);
  }

  /** Every invoice that a batch generates bills the contract it is for. */
  lemma GeneratedBills(t: Tables, input: Input, k: nat, i: nat)
    requires DistinctContracts(input) && DistinctMeters(input.meters)
    requires Generate(t, input).1.Batched? && k < |Generate(t, input).1.generated| && i < |input.contracts|
    ensures var (t', reply), c := Generate(t, input), input.contracts[i];
      && reply.generated[k] < |t'.invoices|
      && (t'.invoices[reply.generated[k]].contractId == c.contractId ==>
            BillsContract(t'.invoices[reply.generated[k]], input, c))
  {
    var j := GeneratedIsDraft(t, input, k);
    DraftBills(t, input, j);
    SameContract(input, i, j);
  }

  lemma SameContract(input: Input, i: nat, j: nat)
    requires DistinctContracts(input) && i < |input.contracts| && j < |input.contracts|
    ensures input.contracts[i].contractId == input.contracts[j].contractId <==> i == j
  {
  }

  lemma {:induction false} SkipFromJob(jobs: seq<Job>, s: Skip) returns (i: nat)
    requires s in Skips(jobs)
    ensures i < |jobs| && jobs[i].plan.Leave? && s == Skip(jobs[i].unitId, jobs[i].contractId, jobs[i].plan.reason)
    decreases |jobs|
  {
    var n := |jobs| - 1;
    if s in Skips(jobs[..n]) {
      i := SkipFromJob(jobs[..n], s);
    } else {
      i := n;
    }
  }

  /** Every skip names a contract with its unit. */
  lemma SkippedUnit(t: Tables, input: Input, s: Skip, i: nat)
    requires DistinctContracts(input) && i < |input.contracts|
    requires Generate(t, input).1.Batched? && s in Generate(t, input).1.skipped
    ensures s.contractId == input.contracts[i].contractId ==> s.unitId == input.contracts[i].unitId
    ensures exists c :: c in input.contracts && s.contractId == c.contractId && s.unitId == c.unitId
  {
    BatchDoesAsPlanned(t, input);
    var j := SkipFromJob(JobsAt(t, input), s);
    assert input.contracts[j] in input.contracts;
  }

  /** What the pass would bill this contract, if nothing stands against it. */
  predicate Due(t: Tables, input: Input, c: Tenancy) {
    && c.status.Active? && !SlotTaken(t.invoices, c.contractId, input.period)
    && forall m :: m in input.meters && m.unitId == c.unitId ==> m.id in input.readings
  }

  lemma PlannedIfDue(t: Tables, input: Input, i: nat)
    requires DistinctMeters(input.meters) && i < |input.contracts|
    ensures var c, plan := input.contracts[i], JobsAt(t, input)[i].plan;
      && (plan.Bill? <==> Due(t, input, c))
      && (plan.Bill? ==>
            plan.items == BatchItems(c.rentAmount, UnitMeters(input.meters, c.unitId), input.readings, input.fees))
  {
    NothingMissingIff(input, input.contracts[i].unitId);
  }

  predicate DoesNotFit(t: Tables, input: Input, c: Tenancy) {
    Due(t, input, c)
    && !Storable(BatchItems(c.rentAmount, UnitMeters(input.meters, c.unitId), input.readings, input.fees))
  }

  lemma SomeJobFails(t: Tables, input: Input)
    requires DistinctMeters(input.meters)
    ensures Fails(JobsAt(t, input)) <==> exists c :: c in input.contracts && DoesNotFit(t, input, c)
  {
    var jobs := JobsAt(t, input);
    forall i | 0 <= i < |jobs|
      ensures DoesNotFit(t, input, input.contracts[i]) <==> jobs[i].plan.Bill? && !Storable(jobs[i].plan.items)
      ensures input.contracts[i] in input.contracts
    {
      PlannedIfDue(t, input, i);
    }
    if c :| c in input.contracts && DoesNotFit(t, input, c) {
      var i :| 0 <= i < |input.contracts| && input.contracts[i] == c;
      assert jobs[i].plan.Bill? && !Storable(jobs[i].plan.items);
    }
  }

  /** The batch fails, and changes nothing, if and only if an amount of a contract that is due does not fit its
      column. */
  lemma BatchFailsIff(t: Tables, input: Input)
    requires DistinctContracts(input) && DistinctMeters(input.meters)
    ensures Generate(t, input).1.Failed? <==> exists c :: c in input.contracts && DoesNotFit(t, input, c)
    ensures Generate(t, input).1.Failed? ==> Generate(t, input).0 == t
  {
    BatchDoesAsPlanned(t, input);
    SomeJobFails(t, input);
  }
}
