/** Monthly batch generation: `createBatch` of apps/api/src/modules/billing/invoice.service.ts.

    `Generate` specifies the request: a plan for each contract, made from the tables as they were, then one
    pass that carries the plans out. Method `CreateBatch` does both in its loop, with the lookups the service
    prepares before it.
  */
module Batch {
  import opened Ledger
  import opened Money
  import opened Options
  import Contracts

  // ----- what the queries return ----------------------------------------------------------

  datatype Tenancy = Tenancy(contractId: string, unitId: string, status: Contracts.Status, rentAmount: Amount)

  datatype MeterKind = WaterMeter | ElectricMeter

  datatype Meter = Meter(id: string, unitId: string, kind: MeterKind, ratePerUnit: Rate)

  datatype Reading = Reading(id: string, consumption: Quantity)

  /** A flat fee that goes on every invoice of the batch. */
  datatype Fee = Fee(kind: ItemKind, line: Line)

  /** The wire schema allows ten. */
  type Fees = s: seq<Fee> | |s| <= 10

  /** The readings are those of the period, by meter. */
  datatype Input = Input(
    period: string, contracts: seq<Tenancy>, meters: seq<Meter>, readings: map<string, Reading>, fees: Fees)

  datatype SkipReason = InactiveContract | DuplicateInvoice | MissingWaterReading | MissingElectricReading

  datatype Skip = Skip(unitId: string, contractId: string, reason: SkipReason)

  datatype BatchReply = Batched(generated: seq<nat>, skipped: seq<Skip>) | Failed

  // ----- one contract ---------------------------------------------------------------------

  function UnitMeters(meters: seq<Meter>, unitId: string): seq<Meter> {
    if meters == [] then []
    else
      var last := meters[|meters| - 1];
      UnitMeters(meters[..|meters| - 1], unitId) + if last.unitId == unitId then [last] else []
  }

  predicate IsFirstOfKind(meters: seq<Meter>, i: nat, kind: MeterKind)
    requires i < |meters|
  {
    meters[i].kind == kind && forall k :: 0 <= k < i ==> meters[k].kind != kind
  }

  /** The first meter of the kind. */
  function FindMeter(meters: seq<Meter>, kind: MeterKind): (meter: Option<Meter>)
    ensures meter.Some? ==> exists i :: 0 <= i < |meters| && IsFirstOfKind(meters, i, kind) && meter.value == meters[i]
    ensures meter.None? ==> forall m :: m in meters ==> m.kind != kind
  {
    if meters == [] then None
    else if meters[0].kind == kind then
      assert IsFirstOfKind(meters, 0, kind);
      Some(meters[0])
    else
      var meter := FindMeter(meters[1..], kind);
      assert forall i: nat :: i < |meters| - 1 && IsFirstOfKind(meters[1..], i, kind) ==>
        IsFirstOfKind(meters, i + 1, kind);
      meter
  }

  predicate LacksReading(meters: seq<Meter>, readings: map<string, Reading>, kind: MeterKind) {
    var meter := FindMeter(meters, kind);
    meter.Some? && meter.value.id !in readings
  }

  function FindMissingReadingReason(meters: seq<Meter>, readings: map<string, Reading>): Option<SkipReason> {
    if LacksReading(meters, readings, WaterMeter) then Some(MissingWaterReading)
    else if LacksReading(meters, readings, ElectricMeter) then Some(MissingElectricReading)
    else None
  }

  function RentItem(rentAmount: Amount): Item {
    Item(Rent, 100, rentAmount * 100, rentAmount, None, 0)
  }

  /** The item of the meter of this kind, if there are a meter and a reading. */
  function MeterItem(meters: seq<Meter>, readings: map<string, Reading>, kind: MeterKind): (items: seq<Item>)
    ensures |items| <= 1
  {
    var meter := FindMeter(meters, kind);
    if meter.None? || meter.value.id !in readings then []
    else
      var line := Line(readings[meter.value.id].consumption, meter.value.ratePerUnit);
      [Item(if kind.WaterMeter? then Water else Electric, line.quantity, line.unitPrice, LineTotal(line),
            Some(readings[meter.value.id].id), 0)]
  }

  function FeeItems(fees: seq<Fee>): (items: seq<Item>)
    ensures |items| == |fees|
  {
    seq(|fees|, i requires 0 <= i < |fees| =>
      Item(fees[i].kind, fees[i].line.quantity, fees[i].line.unitPrice, LineTotal(fees[i].line), None, 0))
  }

  function Numbered(items: seq<Item>): (numbered: seq<Item>)
    ensures |numbered| == |items|
    ensures forall i :: 0 <= i < |items| ==> numbered[i] == items[i].(sortOrder := i)
  {
    seq(|items|, i requires 0 <= i < |items| => items[i].(sortOrder := i))
  }

  function MeterItems(meters: seq<Meter>, readings: map<string, Reading>, kinds: seq<MeterKind>): (items: seq<Item>)
    ensures |items| <= |kinds|
  {
    if kinds == [] then []
    else
      MeterItems(meters, readings, kinds[..|kinds| - 1]) + MeterItem(meters, readings, kinds[|kinds| - 1])
  }

  const METER_KINDS := [WaterMeter, ElectricMeter]

  /** Rent, then water, then electricity, then the fees in their order. */
  function BatchItems(rentAmount: Amount, meters: seq<Meter>, readings: map<string, Reading>, fees: Fees)
    : (items: Items)
    ensures 1 <= |items| <= 13
  {
    Numbered([RentItem(rentAmount)] + MeterItems(meters, readings, METER_KINDS) + FeeItems(fees))
  }

  // ----- the pass over the contracts ---------------------------------------------------------

  /** The contracts that already have an invoice for the period which is not void. */
  function ExistingSet(invoices: seq<Invoice>, period: string): (ids: set<string>)
    ensures forall id :: id in ids <==> SlotTaken(invoices, id, period)
  {
    set i | 0 <= i < |invoices| && Occupies(invoices[i], invoices[i].contractId, period) :: invoices[i].contractId
  }

  datatype Plan = Bill(items: Items) | Leave(reason: SkipReason)

  /** The three skip rules, in order; otherwise the items to bill. */
  function PlanFor(existing: set<string>, input: Input, c: Tenancy): Plan {
    var unitMeters := UnitMeters(input.meters, c.unitId);
    var missing := FindMissingReadingReason(unitMeters, input.readings);
    if !c.status.Active? then Leave(InactiveContract)
    else if c.contractId in existing then Leave(SkipReason.DuplicateInvoice)
    else if missing.Some? then Leave(missing.value)
    else Bill(BatchItems(c.rentAmount, unitMeters, input.readings, input.fees))
  }

  datatype Job = Job(contractId: string, unitId: string, plan: Plan)

  function JobFor(existing: set<string>, input: Input, c: Tenancy): Job {
    Job(c.contractId, c.unitId, PlanFor(existing, input, c))
  }

  function Jobs(existing: set<string>, input: Input): (jobs: seq<Job>)
    ensures |jobs| == |input.contracts|
    ensures forall i :: 0 <= i < |jobs| ==> jobs[i] == JobFor(existing, input, input.contracts[i])
  {
    seq(|input.contracts|, i requires 0 <= i < |input.contracts| => JobFor(existing, input, input.contracts[i]))
  }

  datatype Turn = Generated(id: nat) | Skipped(reason: SkipReason) | Threw

  /** One turn of the pass. */
  function TakeTurn(t: Tables, period: string, job: Job): (Tables, Turn) {
    match job.plan
    case Leave(reason) => (t, Skipped(reason))
    case Bill(items) =>
      var (tables, reply) := InsertDraft(t, job.contractId, period, items);
      if reply.Done? then (tables, Generated(reply.id))
      else if reply.reason.DuplicateInvoice? then (t, Skipped(SkipReason.DuplicateInvoice))
      else (t, Threw)
  }

  datatype Progress = Progress(tables: Tables, generated: seq<nat>, skipped: seq<Skip>, failed: bool)

  function Record(p: Progress, tables: Tables, turn: Turn, job: Job): Progress {
    match turn
    case Generated(id) => p.(tables := tables, generated := p.generated + [id])
    case Skipped(reason) => p.(skipped := p.skipped + [Skip(job.unitId, job.contractId, reason)])
    case Threw => p.(failed := true)
  }

  /** An insert that fails for another reason than a duplicate ends the pass. */
  function Visits(t: Tables, period: string, jobs: seq<Job>): Progress {
    if jobs == [] then Progress(t, [], [], false)
    else
      var p, job := Visits(t, period, jobs[..|jobs| - 1]), jobs[|jobs| - 1];
      if p.failed then p
      else
        var (tables, turn) := TakeTurn(p.tables, period, job);
        Record(p, tables, turn, job)
  }

  function JobsAt(t: Tables, input: Input): (jobs: seq<Job>)
    ensures |jobs| == |input.contracts|
  {
    Jobs(ExistingSet(t.invoices, input.period), input)
  }

  /** A request that fails is rolled back. */
  function Generate(t: Tables, input: Input): (Tables, BatchReply) {
    var p := Visits(t, input.period, JobsAt(t, input));
    if p.failed then (t, Failed) else (p.tables, Batched(p.generated, p.skipped))
  }

  lemma {:induction false} FailureEndsThePass(t: Tables, period: string, jobs: seq<Job>, n: nat)
    requires n <= |jobs| && Visits(t, period, jobs[..n]).failed
    ensures Visits(t, period, jobs).failed
    decreases |jobs|
  {
    if n < |jobs| {
      assert jobs[..|jobs| - 1][..n] == jobs[..n];
      FailureEndsThePass(t, period, jobs[..|jobs| - 1], n);
    } else {
      assert jobs[..n] == jobs;
    }
  }

  lemma NextTurn(t: Tables, period: string, jobs: seq<Job>, n: nat, p: Progress, tables: Tables, turn: Turn)
    requires n < |jobs| && p == Visits(t, period, jobs[..n]) && !p.failed
    requires (tables, turn) == TakeTurn(p.tables, period, jobs[n])
    ensures Visits(t, period, jobs[..n + 1]) == Record(p, tables, turn, jobs[n])
    ensures !turn.Generated? ==> tables == p.tables
  {
    assert jobs[..n + 1][..n] == jobs[..n];
  }

  // ----- the service ---------------------------------------------------------------------------

  /** The meters in query order, grouped by unit. */
  method GroupByUnit(meters: seq<Meter>) returns (metersByUnitId: map<string, seq<Meter>>)
    ensures forall unitId :: (if unitId in metersByUnitId then metersByUnitId[unitId] else [])
                          == UnitMeters(meters, unitId)
  {
    metersByUnitId := map[];
    for i := 0 to |meters|
      invariant forall unitId :: (if unitId in metersByUnitId then metersByUnitId[unitId] else [])
                              == UnitMeters(meters[..i], unitId)
    {
      assert meters[..i + 1][..i] == meters[..i];
      var meter := meters[i];
      var list := if meter.unitId in metersByUnitId then metersByUnitId[meter.unitId] else [];
      assert list == UnitMeters(meters[..i], meter.unitId);
      assert UnitMeters(meters[..i + 1], meter.unitId) == list + [meter];
      metersByUnitId := metersByUnitId[meter.unitId := list + [meter]];
    }
    assert meters[..|meters|] == meters;
  }

  lemma NumberNext(items: seq<Item>, item: Item)
    ensures Numbered(items + [item]) == Numbered(items) + [item.(sortOrder := |items|)]
  {
  }

  lemma NextKind(meters: seq<Meter>, readings: map<string, Reading>, k: nat)
    requires k < 2
    ensures MeterItems(meters, readings, METER_KINDS[..k + 1])
         == MeterItems(meters, readings, METER_KINDS[..k]) + MeterItem(meters, readings, METER_KINDS[k])
  {
    assert METER_KINDS[..k + 1][..k] == METER_KINDS[..k];
  }

  method PushMeterItems(rent: Item, meters: seq<Meter>, readings: map<string, Reading>) returns (items: seq<Item>)
    requires rent.sortOrder == 0
    ensures items == Numbered([rent] + MeterItems(meters, readings, METER_KINDS))
  {
    items := [rent];
    var sortOrder := 1;
    ghost var plain := [rent];
    for k := 0 to 2
      invariant plain == [rent] + MeterItems(meters, readings, METER_KINDS[..k])
      invariant items == Numbered(plain) && sortOrder == |items|
    {
      NextKind(meters, readings, k);
      var kind := METER_KINDS[k];
      var meter := FindMeter(meters, kind);
      if meter.None? || meter.value.id !in readings {
        continue;
      }
      var reading := readings[meter.value.id];
      var line := Line(reading.consumption, meter.value.ratePerUnit);
      var item := Item(if kind == WaterMeter then Water else Electric, line.quantity, line.unitPrice,
                       LineTotal(line), Some(reading.id), sortOrder);
      NumberNext(plain, item.(sortOrder := 0));
      plain := plain + [item.(sortOrder := 0)];
      items := items + [item];
      sortOrder := sortOrder + 1;
    }
    assert METER_KINDS[..2] == METER_KINDS;
  }

  method PushFees(items: seq<Item>, additional: seq<Fee>, ghost plain: seq<Item>) returns (all: seq<Item>)
    requires items == Numbered(plain)
    ensures all == Numbered(plain + FeeItems(additional))
  {
    all := items;
    var sortOrder := |items|;
    ghost var pushed := plain;
    for i := 0 to |additional|
      invariant pushed == plain + FeeItems(additional[..i])
      invariant all == Numbered(pushed) && sortOrder == |pushed|
    {
      var add := additional[i];
      var item := Item(add.kind, add.line.quantity, add.line.unitPrice, LineTotal(add.line), None, sortOrder);
      assert FeeItems(additional[..i + 1]) == FeeItems(additional[..i]) + [item.(sortOrder := 0)];
      NumberNext(pushed, item.(sortOrder := 0));
      pushed := pushed + [item.(sortOrder := 0)];
      all := all + [item];
      sortOrder := sortOrder + 1;
    }
    assert additional[..|additional|] == additional;
  }

  method BuildBatchItems(rentAmount: Amount, meters: seq<Meter>, readings: map<string, Reading>, additional: Fees)
    returns (items: Items)
    ensures items == BatchItems(rentAmount, meters, readings, additional)
  {
    var pushed := PushMeterItems(RentItem(rentAmount), meters, readings);
    items := PushFees(pushed, additional,
                      [RentItem(rentAmount)] + MeterItems(meters, readings, METER_KINDS));
  }

  /** The body of the loop. */
  method VisitContract(billing: Billing, existingSet: set<string>, input: Input, c: Tenancy, unitMeters: seq<Meter>)
    returns (turn: Turn)
    requires unitMeters == UnitMeters(input.meters, c.unitId)
    modifies billing`invoices
    ensures (billing.Contents(), turn)
         == TakeTurn(old(billing.Contents()), input.period, JobFor(existingSet, input, c))
  {
    if c.status != Contracts.Active {
      return Skipped(InactiveContract);
    }
    if c.contractId in existingSet {
      return Skipped(SkipReason.DuplicateInvoice);
    }
    var skipReason := FindMissingReadingReason(unitMeters, input.readings);
    if skipReason.Some? {
      return Skipped(skipReason.value);
    }
    var items := BuildBatchItems(c.rentAmount, unitMeters, input.readings, input.fees);
    var created := billing.InsertDraftInvoice(c.contractId, input.period, items);
    if created.Done? {
      return Generated(created.id);
    }
    if created.reason.DuplicateInvoice? {
      return Skipped(SkipReason.DuplicateInvoice);
    }
    turn := Threw;
  }

  /** One turn at position `n` of the pass that started from `start`. */
  method VisitNext(billing: Billing, existingSet: set<string>, input: Input, unitMeters: seq<Meter>,
                   ghost start: Tables, n: nat, ghost jobs: seq<Job>)
    returns (turn: Turn)
    requires n < |input.contracts| && unitMeters == UnitMeters(input.meters, input.contracts[n].unitId)
    requires jobs == Jobs(existingSet, input)
    requires Visits(start, input.period, jobs[..n]).tables == billing.Contents()
    requires !Visits(start, input.period, jobs[..n]).failed
    modifies billing`invoices
    ensures Visits(start, input.period, jobs[..n + 1])
         == Record(Visits(start, input.period, jobs[..n]), billing.Contents(), turn, jobs[n])
    ensures !turn.Generated? ==> billing.Contents() == old(billing.Contents())
  {
    turn := VisitContract(billing, existingSet, input, input.contracts[n], unitMeters);
    NextTurn(start, input.period, jobs, n, Visits(start, input.period, jobs[..n]), billing.Contents(), turn);
  }

  method CreateBatch(billing: Billing, input: Input) returns (reply: BatchReply)
    modifies billing`invoices
    ensures (billing.Contents(), reply) == Generate(old(billing.Contents()), input)
  {
    var before := billing.invoices;
    var contracts := input.contracts;
    if |contracts| == 0 {
      return Batched([], []);
    }
    var existingSet := ExistingSet(before, input.period);
    var metersByUnitId := GroupByUnit(input.meters);
    var generated: seq<nat>, skipped: seq<Skip> := [], [];
    ghost var start, jobs := billing.Contents(), Jobs(existingSet, input);
    for i := 0 to |contracts|
      invariant Progress(billing.Contents(), generated, skipped, false) == Visits(start, input.period, jobs[..i])
    {
      var c := contracts[i];
      var unitMeters := if c.unitId in metersByUnitId then metersByUnitId[c.unitId] else [];
      var turn := VisitNext(billing, existingSet, input, unitMeters, start, i, jobs);
      match turn
      case Generated(id) => generated := generated + [id];
      case Skipped(reason) => skipped := skipped + [Skip(c.unitId, c.contractId, reason)];
      case Threw =>
        FailureEndsThePass(start, input.period, jobs, i + 1);
        billing.invoices := before;
        return Failed;
    }
    assert jobs[..|contracts|] == jobs;
    reply := Batched(generated, skipped);
  }
}
