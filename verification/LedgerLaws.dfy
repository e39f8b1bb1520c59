/** What every run of ledger requests keeps, how invoices and payments may move, and what replays do. */
module LedgerLaws {
  import opened Money
  import opened Options
  import opened PromptPay
  import opened Ledger
  import Batch
  import BatchLaws

  datatype Op =
    | BillByHand(contracts: set<string>, contractId: string, period: string, charges: Charges)
    | GenerateBatch(input: Batch.Input)
    | IssueInvoice(id: nat, promptPayId: Option<string>)
    | VoidTheInvoice(id: nat)
    | Pay(invoiceId: nat, amount: Amount, key: string)
    | ConfirmPayment(id: nat)
    | RejectPayment(id: nat)

  function Apply(t: Tables, op: Op): Tables {
    match op
    case BillByHand(contracts, contractId, period, charges) =>
      CreateInvoice(t, contracts, contractId, period, charges).0
    case GenerateBatch(input) => Batch.Generate(t, input).0
    case IssueInvoice(id, promptPayId) => Issue(t, id, promptPayId).0
    case VoidTheInvoice(id) => VoidInvoice(t, id).0
    case Pay(invoiceId, amount, key) => CreatePayment(t, invoiceId, amount, key).0
    case ConfirmPayment(id) => Confirm(t, id).0
    case RejectPayment(id) => Reject(t, id).0
  }

  function Run(t: Tables, ops: seq<Op>): Tables
    decreases |ops|
  {
    if ops == [] then t else Run(Apply(t, ops[0]), ops[1..])
  }

  const Empty := Tables([], [])

  // ----- the invariant ------------------------------------------------------------------

  /** The status says how much confirmed money there is. */
  predicate StatusMatches(status: InvoiceStatus, total: int, paidTotal: int) {
    match status
    case Draft => paidTotal == 0
    case Issued => paidTotal == 0
    case PartiallyPaid => 0 < paidTotal < total
    case Paid => 0 < paidTotal && total <= paidTotal
    case Void => true
    case Overdue => false
  }

  /** The stored QR payload decodes to the total of the invoice. */
  predicate RefMatches(invoice: Invoice) {
    && (invoice.status.Draft? ==> invoice.promptPayRef.None?)
    && (invoice.status.Issued? || invoice.status.PartiallyPaid? || invoice.status.Paid? ==> invoice.promptPayRef.Some?)
    && (invoice.promptPayRef.Some? ==>
      var decoded := Decode(invoice.promptPayRef.value);
      decoded.Some? && decoded.value.amount == Some(ToStorage(Decimal(invoice.total, 2))))
  }

  function LinesOf(items: seq<Item>): (lines: seq<Line>)
    requires forall i :: 0 <= i < |items| ==> ItemFits(items[i])
    ensures |lines| == |items|
  {
    seq(|items|, i requires 0 <= i < |items| && ItemFits(items[i]) =>
      Line(items[i].quantity, items[i].unitPrice))
  }

  /** The line total is the product, rounded. */
  predicate PricedRight(item: Item) {
    ItemFits(item) ==> item.lineTotal == LineTotal(Line(item.quantity, item.unitPrice))
  }

  /** The total of an invoice is the sum of its line totals, and each is its product, rounded. */
  predicate Balanced(invoice: Invoice) {
    && (forall i :: 0 <= i < |invoice.items| ==> ItemFits(invoice.items[i]) && PricedRight(invoice.items[i]))
    && invoice.total == Subtotal(LinesOf(invoice.items))
  }

  predicate InvoiceInv(t: Tables, i: nat)
    requires i < |t.invoices|
  {
    && FitsColumn(t.invoices[i].total)
    && StatusMatches(t.invoices[i].status, t.invoices[i].total, PaidTotal(t.payments, i))
    && RefMatches(t.invoices[i])
  }

  predicate PaymentsInv(t: Tables) {
    && (forall k :: 0 <= k < |t.payments| ==>
         && t.payments[k].amount > 0 && t.payments[k].invoiceId < |t.invoices|
         && !t.invoices[t.payments[k].invoiceId].status.Draft?)
    && (forall k, l :: 0 <= k < l < |t.payments| ==> t.payments[k].key != t.payments[l].key)
  }

  predicate SlotInv(invoices: seq<Invoice>) {
    forall i, j :: 0 <= i < j < |invoices| ==>
      !(Occupies(invoices[i], invoices[j].contractId, invoices[j].period) && !invoices[j].status.Void?)
  }

  predicate BooksInv(invoices: seq<Invoice>) {
    forall i :: 0 <= i < |invoices| ==> Balanced(invoices[i])
  }

  predicate Inv(t: Tables) {
    && PaymentsInv(t) && SlotInv(t.invoices)
    && forall i :: 0 <= i < |t.invoices| ==> InvoiceInv(t, i)
  }

  // ----- sums -------------------------------------------------------------------------

  function Contribution(p: Payment, i: nat): int {
    if p.invoiceId == i && p.status.Confirmed? then p.amount else 0
  }

  lemma PaidAppend(payments: seq<Payment>, p: Payment, i: nat)
    ensures PaidTotal(payments + [p], i) == PaidTotal(payments, i) + Contribution(p, i)
  {
    assert (payments + [p])[..|payments|] == payments;
  }

  lemma {:induction false} PaidUpdate(payments: seq<Payment>, k: nat, p: Payment, i: nat)
    requires k < |payments|
    ensures PaidTotal(payments[k := p], i)
         == PaidTotal(payments, i) - Contribution(payments[k], i) + Contribution(p, i)
    decreases |payments|
  {
    var n := |payments| - 1;
    if k == n {
      assert payments[k := p][..n] == payments[..n];
    } else {
      assert payments[k := p][..n] == payments[..n][k := p];
      PaidUpdate(payments[..n], k, p, i);
    }
  }

  lemma {:induction false} PaidNonNegative(payments: seq<Payment>, i: nat)
    requires forall k :: 0 <= k < |payments| ==> payments[k].amount > 0
    ensures PaidTotal(payments, i) >= 0
    ensures (forall k :: 0 <= k < |payments| ==> payments[k].invoiceId != i) ==> PaidTotal(payments, i) == 0
    decreases |payments|
  {
    if payments != [] {
      PaidNonNegative(payments[..|payments| - 1], i);
    }
  }

  // ----- each request keeps the invariant ---------------------------------------------------

  lemma TotalsAgree(items: Items)
    requires forall i :: 0 <= i < |items| ==> ItemFits(items[i]) && PricedRight(items[i])
    ensures LineTotals(LinesOf(items)) == ItemTotals(items) && Column(ItemTotals(items))
  {
  }

  lemma DraftBalanced(contractId: string, period: string, items: Items)
    requires forall i :: 0 <= i < |items| ==> ItemFits(items[i]) && PricedRight(items[i])
    ensures Balanced(Invoice(contractId, period, items, ItemsTotal(items), Draft, None))
  {
    TotalsAgree(items);
  }

  lemma DraftKeepsInv(t: Tables, draft: Invoice)
    requires Inv(t) && draft.status.Draft? && draft.promptPayRef.None?
    requires FitsColumn(draft.total) && !SlotTaken(t.invoices, draft.contractId, draft.period)
    ensures Inv(t.(invoices := t.invoices + [draft]))
  {
    var t' := t.(invoices := t.invoices + [draft]);
    PaidNonNegative(t.payments, |t.invoices|);
    forall i | 0 <= i < |t'.invoices|
      ensures InvoiceInv(t', i)
    {
      if i < |t.invoices| {
        assert InvoiceInv(t, i);
      }
    }
    forall i | 0 <= i < |t.invoices|
      ensures !Occupies(t'.invoices[i], draft.contractId, draft.period)
    {
      assert !Occupies(t.invoices[i], draft.contractId, draft.period);
    }
  }

  lemma InsertKeepsInv(t: Tables, contractId: string, period: string, items: Items)
    requires Inv(t)
    ensures Inv(InsertDraft(t, contractId, period, items).0)
  {
    if InsertDraft(t, contractId, period, items).1.Done? {
      DraftKeepsInv(t, Invoice(contractId, period, items, ItemsTotal(items), Draft, None));
    }
  }

  lemma InsertEvolves(t: Tables, contractId: string, period: string, items: Items)
    ensures Evolves(t, InsertDraft(t, contractId, period, items).0)
  {
    var t' := InsertDraft(t, contractId, period, items).0;
    assert forall i :: 0 <= i < |t.invoices| ==> t'.invoices[i] == t.invoices[i];
  }

  lemma InsertKeepsBooks(t: Tables, contractId: string, period: string, items: Items)
    requires BooksInv(t.invoices)
    requires forall i :: 0 <= i < |items| ==> PricedRight(items[i])
    ensures BooksInv(InsertDraft(t, contractId, period, items).0.invoices)
  {
    if InsertDraft(t, contractId, period, items).1.Done? {
      DraftBalanced(contractId, period, items);
    }
  }

  lemma RentPriced(rentAmount: Amount)
    ensures PricedRight(Batch.RentItem(rentAmount))
  {
    var item := Batch.RentItem(rentAmount);
    if ItemFits(item) {
      PowersOfTen();
      FinaliseSmall(Decimal(100 * item.unitPrice, 6));
    }
  }

  predicate AllPriced(items: seq<Item>) {
    forall i :: 0 <= i < |items| ==> PricedRight(items[i])
  }

  lemma {:induction false} MetersPriced(
      meters: seq<Batch.Meter>, readings: map<string, Batch.Reading>, kinds: seq<Batch.MeterKind>)
    ensures AllPriced(Batch.MeterItems(meters, readings, kinds))
    decreases |kinds|
  {
    if kinds != [] {
      MetersPriced(meters, readings, kinds[..|kinds| - 1]);
    }
  }

  lemma FeesPriced(fees: seq<Batch.Fee>)
    ensures AllPriced(Batch.FeeItems(fees))
  {
  }

  lemma NumberedPriced(items: seq<Item>)
    requires AllPriced(items)
    ensures AllPriced(Batch.Numbered(items))
  {
    forall i | 0 <= i < |items|
      ensures PricedRight(Batch.Numbered(items)[i])
    {
      assert PricedRight(items[i]);
    }
  }

  lemma BatchItemsPriced(
      rentAmount: Amount, meters: seq<Batch.Meter>, readings: map<string, Batch.Reading>, fees: Batch.Fees)
    ensures AllPriced(Batch.BatchItems(rentAmount, meters, readings, fees))
  {
    RentPriced(rentAmount);
    MetersPriced(meters, readings, Batch.METER_KINDS);
    FeesPriced(fees);
    NumberedPriced([Batch.RentItem(rentAmount)] + Batch.MeterItems(meters, readings, Batch.METER_KINDS)
                   + Batch.FeeItems(fees));
  }

  predicate JobsPriced(jobs: seq<Batch.Job>) {
    forall k :: 0 <= k < |jobs| && jobs[k].plan.Bill? ==> AllPriced(jobs[k].plan.items)
  }

  lemma PlansPriced(t: Tables, input: Batch.Input)
    ensures JobsPriced(Batch.JobsAt(t, input))
  {
    var jobs := Batch.JobsAt(t, input);
    forall k | 0 <= k < |jobs| && jobs[k].plan.Bill?
      ensures AllPriced(jobs[k].plan.items)
    {
      var c := input.contracts[k];
      BatchItemsPriced(c.rentAmount, Batch.UnitMeters(input.meters, c.unitId), input.readings, input.fees);
    }
  }

  /** A turn of the pass leaves the tables alone or inserts one draft. */
  lemma OneTurnOfPass(t: Tables, period: string, jobs: seq<Batch.Job>)
    requires jobs != []
    ensures var last := jobs[|jobs| - 1];
      var before, now := Batch.Visits(t, period, jobs[..|jobs| - 1]).tables, Batch.Visits(t, period, jobs).tables;
      || now == before
      || (last.plan.Bill? && now == InsertDraft(before, last.contractId, period, last.plan.items).0)
  {
  }

  lemma {:induction false} PassKeepsInv(t: Tables, period: string, jobs: seq<Batch.Job>)
    requires Inv(t)
    ensures Inv(Batch.Visits(t, period, jobs).tables)
    ensures Evolves(t, Batch.Visits(t, period, jobs).tables)
    decreases |jobs|
  {
    if jobs != [] {
      var front, last := jobs[..|jobs| - 1], jobs[|jobs| - 1];
      var before := Batch.Visits(t, period, front).tables;
      PassKeepsInv(t, period, front);
      OneTurnOfPass(t, period, jobs);
      if last.plan.Bill? {
        InsertKeepsInv(before, last.contractId, period, last.plan.items);
        InsertEvolves(before, last.contractId, period, last.plan.items);
        EvolvesTransitive(t, before, InsertDraft(before, last.contractId, period, last.plan.items).0);
      }
    }
  }

  lemma {:induction false} PassKeepsBooks(t: Tables, period: string, jobs: seq<Batch.Job>)
    requires BooksInv(t.invoices) && JobsPriced(jobs)
    ensures BooksInv(Batch.Visits(t, period, jobs).tables.invoices)
    decreases |jobs|
  {
    if jobs != [] {
      var front, last := jobs[..|jobs| - 1], jobs[|jobs| - 1];
      PassKeepsBooks(t, period, front);
      OneTurnOfPass(t, period, jobs);
      if last.plan.Bill? {
        InsertKeepsBooks(Batch.Visits(t, period, front).tables, last.contractId, period, last.plan.items);
      }
    }
  }

  /** Changing one invoice's status or payload, apart from reviving a void one. */
  lemma SetInvoiceKeepsInv(t: Tables, id: nat, invoice: Invoice)
    requires Inv(t) && id < |t.invoices|
    requires invoice.contractId == t.invoices[id].contractId && invoice.period == t.invoices[id].period
    requires invoice.total == t.invoices[id].total && !invoice.status.Draft?
    requires t.invoices[id].status.Void? ==> invoice.status.Void?
    requires InvoiceInv(SetInvoice(t, id, invoice), id)
    ensures Inv(SetInvoice(t, id, invoice))
  {
    var t' := SetInvoice(t, id, invoice);
    forall i | 0 <= i < |t'.invoices|
      ensures InvoiceInv(t', i)
    {
      if i != id {
        assert InvoiceInv(t, i);
      }
    }
    forall i, j | 0 <= i < j < |t'.invoices|
      ensures !(Occupies(t'.invoices[i], t'.invoices[j].contractId, t'.invoices[j].period)
                && !t'.invoices[j].status.Void?)
    {
      assert !(Occupies(t.invoices[i], t.invoices[j].contractId, t.invoices[j].period)
               && !t.invoices[j].status.Void?);
    }
  }

  lemma IssueKeepsInv(t: Tables, id: nat, promptPayId: Option<string>)
    requires Inv(t)
    ensures Inv(Issue(t, id, promptPayId).0)
  {
    var t' := Issue(t, id, promptPayId).0;
    if t' != t {
      assert InvoiceInv(t, id);
      DecodeInvertsPayload(promptPayId.value, Some(Decimal(t.invoices[id].total, 2)));
      SetInvoiceKeepsInv(t, id, t'.invoices[id]);
    }
  }

  lemma VoidKeepsInv(t: Tables, id: nat)
    requires Inv(t)
    ensures Inv(VoidInvoice(t, id).0)
  {
    var t' := VoidInvoice(t, id).0;
    if t' != t {
      assert InvoiceInv(t, id);
      SetInvoiceKeepsInv(t, id, t'.invoices[id]);
    }
  }

  lemma PayKeepsInv(t: Tables, invoiceId: nat, amount: Amount, key: string)
    requires Inv(t)
    ensures Inv(CreatePayment(t, invoiceId, amount, key).0)
  {
    var t' := CreatePayment(t, invoiceId, amount, key).0;
    if t' != t {
      forall i | 0 <= i < |t'.invoices|
        ensures InvoiceInv(t', i)
      {
        assert InvoiceInv(t, i);
        PaidAppend(t.payments, t'.payments[|t.payments|], i);
      }
    }
  }

  /** The invoice a payment belongs to, once the payment is confirmed and the status recomputed. */
  lemma RecomputedMatches(t: Tables, paid: Tables, i: nat)
    requires i < |t.invoices| && InvoiceInv(t, i) && !t.invoices[i].status.Draft?
    requires paid.invoices == t.invoices
    requires PaidTotal(t.payments, i) >= 0 && PaidTotal(paid.payments, i) > PaidTotal(t.payments, i)
    ensures InvoiceInv(Recompute(paid, i), i)
    ensures InvoiceEvolves(t.invoices[i], Recompute(paid, i).invoices[i])
    ensures Recompute(paid, i).payments == paid.payments
  {
  }

  /** Confirming adds the amount to the invoice the payment belongs to, and to no other. */
  lemma ConfirmedSums(t: Tables, id: nat, i: nat)
    requires PaymentsInv(t) && id < |t.payments| && t.payments[id].status.Pending?
    ensures PaidTotal(t.payments, i) >= 0
    ensures PaidTotal(SetPayment(t, id, Confirmed).payments, i)
         == PaidTotal(t.payments, i) + if t.payments[id].invoiceId == i then t.payments[id].amount else 0
  {
    PaidNonNegative(t.payments, i);
    PaidUpdate(t.payments, id, t.payments[id].(status := Confirmed), i);
  }

  /** What confirming a pending payment changes: the payment, and the status of its invoice. */
  lemma ConfirmChanges(t: Tables, id: nat)
    requires Inv(t) && id < |t.payments| && t.payments[id].status.Pending?
    ensures var t', i := Confirm(t, id).0, t.payments[id].invoiceId;
      && t'.payments == t.payments[id := t.payments[id].(status := Confirmed)]
      && t'.invoices == t.invoices[i := t'.invoices[i]]
      && InvoiceEvolves(t.invoices[i], t'.invoices[i])
      && InvoiceInv(t', i)
  {
    var i := t.payments[id].invoiceId;
    assert InvoiceInv(t, i);
    ConfirmedSums(t, id, i);
    RecomputedMatches(t, SetPayment(t, id, Confirmed), i);
  }

  lemma ConfirmEvolves(t: Tables, id: nat)
    requires Inv(t)
    ensures Evolves(t, Confirm(t, id).0)
  {
    if id < |t.payments| && t.payments[id].status.Pending? {
      ConfirmChanges(t, id);
    }
  }

  /** An invoice the payment does not belong to. */
  lemma OthersKeepInv(t: Tables, t': Tables, id: nat, i: nat)
    requires PaymentsInv(t) && id < |t.payments| && t.payments[id].status.Pending?
    requires t'.payments == t.payments[id := t.payments[id].(status := Confirmed)]
    requires i < |t.invoices| && InvoiceInv(t, i) && t.payments[id].invoiceId != i
    requires i < |t'.invoices| && t'.invoices[i] == t.invoices[i]
    ensures InvoiceInv(t', i)
  {
    ConfirmedSums(t, id, i);
  }

  /** The payment is flipped and the invoice it belongs to is recomputed. */
  lemma ConfirmKeepsInv(t: Tables, id: nat)
    requires Inv(t)
    ensures Inv(Confirm(t, id).0)
  {
    if id < |t.payments| && t.payments[id].status.Pending? {
      var t' := Confirm(t, id).0;
      ConfirmChanges(t, id);
      ConfirmEvolves(t, id);
      SlotsUnchanged(t.invoices, t'.invoices);
      StillNotDraft(t, t');
      forall i | 0 <= i < |t'.invoices| && i != t.payments[id].invoiceId
        ensures InvoiceInv(t', i)
      {
        assert InvoiceInv(t, i);
        OthersKeepInv(t, t', id, i);
      }
    }
  }

  lemma SlotsUnchanged(a: seq<Invoice>, b: seq<Invoice>)
    requires SlotInv(a) && |a| == |b|
    requires forall i :: 0 <= i < |a| ==> InvoiceEvolves(a[i], b[i])
    ensures SlotInv(b)
  {
    forall i, j | 0 <= i < j < |b|
      ensures !(Occupies(b[i], b[j].contractId, b[j].period) && !b[j].status.Void?)
    {
      assert InvoiceEvolves(a[i], b[i]) && InvoiceEvolves(a[j], b[j]);
      assert !(Occupies(a[i], a[j].contractId, a[j].period) && !a[j].status.Void?);
    }
  }

  lemma StillNotDraft(t: Tables, t': Tables)
    requires PaymentsInv(t) && |t.payments| == |t'.payments| && |t.invoices| == |t'.invoices|
    requires forall k :: 0 <= k < |t.payments| ==> PaymentEvolves(t.payments[k], t'.payments[k])
    requires forall i :: 0 <= i < |t.invoices| ==> InvoiceEvolves(t.invoices[i], t'.invoices[i])
    ensures PaymentsInv(t')
  {
    forall k | 0 <= k < |t'.payments|
      ensures t'.payments[k].amount > 0 && t'.payments[k].invoiceId < |t'.invoices|
      ensures !t'.invoices[t'.payments[k].invoiceId].status.Draft?
    {
      assert PaymentEvolves(t.payments[k], t'.payments[k]);
      var i := t.payments[k].invoiceId;
      assert InvoiceEvolves(t.invoices[i], t'.invoices[i]);
    }
    forall k, l | 0 <= k < l < |t'.payments|
      ensures t'.payments[k].key != t'.payments[l].key
    {
      assert PaymentEvolves(t.payments[k], t'.payments[k]) && PaymentEvolves(t.payments[l], t'.payments[l]);
    }
  }

  lemma RejectKeepsInv(t: Tables, id: nat)
    requires Inv(t)
    ensures Inv(Reject(t, id).0)
  {
    if id < |t.payments| && t.payments[id].status.Pending? {
      var t' := SetPayment(t, id, Rejected);
      forall i | 0 <= i < |t'.invoices|
        ensures InvoiceInv(t', i)
      {
        assert InvoiceInv(t, i);
        PaidUpdate(t.payments, id, t'.payments[id], i);
      }
    }
  }

  lemma ApplyKeepsInv(t: Tables, op: Op)
    requires Inv(t)
    ensures Inv(Apply(t, op))
  {
    match op
    case BillByHand(_, contractId, period, charges) => InsertKeepsInv(t, contractId, period, Priced(charges));
    case GenerateBatch(input) => PassKeepsInv(t, input.period, Batch.JobsAt(t, input));
    case IssueInvoice(id, promptPayId) => IssueKeepsInv(t, id, promptPayId);
    case VoidTheInvoice(id) => VoidKeepsInv(t, id);
    case Pay(invoiceId, amount, key) => PayKeepsInv(t, invoiceId, amount, key);
    case ConfirmPayment(id) => ConfirmKeepsInv(t, id);
    case RejectPayment(id) => RejectKeepsInv(t, id);
  }

  lemma SameBooks(t: Tables, t': Tables)
    requires BooksInv(t.invoices) && Evolves(t, t') && |t'.invoices| == |t.invoices|
    ensures BooksInv(t'.invoices)
  {
    forall i | 0 <= i < |t.invoices|
      ensures Balanced(t'.invoices[i])
    {
      assert Balanced(t.invoices[i]) && InvoiceEvolves(t.invoices[i], t'.invoices[i]);
    }
  }

  lemma ApplyKeepsBooks(t: Tables, op: Op)
    requires Inv(t) && BooksInv(t.invoices)
    ensures BooksInv(Apply(t, op).invoices)
  {
    match op
    case BillByHand(_, contractId, period, charges) => InsertKeepsBooks(t, contractId, period, Priced(charges));
    case GenerateBatch(input) =>
      PlansPriced(t, input);
      PassKeepsBooks(t, input.period, Batch.JobsAt(t, input));
    case _ =>
      ApplyEvolves(t, op);
      SameBooks(t, Apply(t, op));
  }

  /** After any sequence of requests: a draft has no payments, an issued invoice nothing confirmed, a
      partially paid one something but less than the total, a paid one at least the total; every QR payload
      handed out decodes to its invoice's total; one invoice per contract and period is not void; and every
      total is that of its items. */
  lemma {:induction false} EveryRunKeepsLedger(t: Tables, ops: seq<Op>)
    requires Inv(t) && BooksInv(t.invoices)
    ensures Inv(Run(t, ops)) && BooksInv(Run(t, ops).invoices)
    decreases |ops|
  {
    if ops != [] {
      ApplyKeepsInv(t, ops[0]);
      ApplyKeepsBooks(t, ops[0]);
      EveryRunKeepsLedger(Apply(t, ops[0]), ops[1..]);
    }
  }

  /** What an invoice says about its payments and its QR code. */
  predicate TellsTheTruth(t: Tables, i: nat)
    requires i < |t.invoices|
  {
    var invoice, paidTotal := t.invoices[i], PaidTotal(t.payments, i);
    && (invoice.status.Draft? ==> forall k :: 0 <= k < |t.payments| ==> t.payments[k].invoiceId != i)
    && (invoice.status.Issued? ==> paidTotal == 0)
    && (invoice.status.PartiallyPaid? <==> !invoice.status.Void? && 0 < paidTotal < invoice.total)
    && (invoice.status.Paid? <==> !invoice.status.Void? && 0 < paidTotal && invoice.total <= paidTotal)
    && (invoice.promptPayRef.Some? ==>
          Decode(invoice.promptPayRef.value).Some?
          && Decode(invoice.promptPayRef.value).value.amount == Some(ToStorage(Decimal(invoice.total, 2))))
  }

  lemma InvTellsTheTruth(t: Tables, i: nat)
    requires Inv(t) && i < |t.invoices|
    ensures TellsTheTruth(t, i)
  {
    assert InvoiceInv(t, i);
  }

  /** The ledger invariant in the words of the services. */
  lemma ReachableLedger(ops: seq<Op>)
    ensures forall i :: 0 <= i < |Run(Empty, ops).invoices| ==> TellsTheTruth(Run(Empty, ops), i)
  {
    EveryRunKeepsLedger(Empty, ops);
    var t := Run(Empty, ops);
    forall i | 0 <= i < |t.invoices|
      ensures TellsTheTruth(t, i)
    {
      InvTellsTheTruth(t, i);
    }
  }

  predicate RightTotal(invoice: Invoice) {
    && invoice.total == SumSatang(ItemTotals(invoice.items))
    && (forall k :: 0 <= k < |invoice.items| ==> ItemFits(invoice.items[k]))
    && Abs(invoice.total * 10_000 - SumExactTotals(LinesOf(invoice.items))) <= |invoice.items| * 5_000
  }

  lemma BalancedIsRight(invoice: Invoice)
    requires Balanced(invoice)
    ensures RightTotal(invoice)
  {
    var lines := LinesOf(invoice.items);
    TotalsAgree(invoice.items);
    SubtotalError(lines);
    assert invoice.total == Subtotal(lines) == SumSatang(ItemTotals(invoice.items));
  }

  /** The total of every invoice ever stored, by hand or by a batch, is the exact sum of its line totals, and
      within half a satang per line of the exact sum of quantity times unit price. */
  lemma ReachableTotals(ops: seq<Op>)
    ensures forall i :: 0 <= i < |Run(Empty, ops).invoices| ==> RightTotal(Run(Empty, ops).invoices[i])
  {
    EveryRunKeepsLedger(Empty, ops);
    var invoices := Run(Empty, ops).invoices;
    forall i | 0 <= i < |invoices|
      ensures RightTotal(invoices[i])
    {
      BalancedIsRight(invoices[i]);
    }
  }

  function RequestedLines(charges: Charges): (lines: seq<Line>)
    ensures |lines| == |charges|
    ensures forall k :: 0 <= k < |charges| ==> lines[k] == charges[k].line
  {
    seq(|charges|, k requires 0 <= k < |charges| => charges[k].line)
  }

  /** The item stored for the charge at position `k`. */
  predicate Stores(item: Item, charge: Charge, k: nat) {
    && item.kind == charge.kind
    && item.quantity == charge.line.quantity && item.unitPrice == charge.line.unitPrice
    && item.readingId == charge.readingId
    && item.sortOrder == (if charge.sortOrder.Some? then charge.sortOrder.value else k)
    && -5_000 <= item.lineTotal * 10_000 - charge.line.quantity * charge.line.unitPrice <= 5_000
  }

  /** A one-off invoice that is accepted stores every charge as it was requested, and its total is within half
      a satang per charge of the exact sum of what was requested. */
  lemma ChargesStored(t: Tables, contracts: set<string>, contractId: string, period: string, charges: Charges)
    requires CreateInvoice(t, contracts, contractId, period, charges).1.Done?
    ensures var (t', reply) := CreateInvoice(t, contracts, contractId, period, charges);
      && reply.id == |t.invoices| && |t'.invoices| == |t.invoices| + 1
      && var invoice := t'.invoices[reply.id];
         && invoice.contractId == contractId && invoice.period == period
         && |invoice.items| == |charges|
         && (forall k :: 0 <= k < |charges| ==> Stores(invoice.items[k], charges[k], k))
         && Abs(invoice.total * 10_000 - SumExactTotals(RequestedLines(charges))) <= |charges| * 5_000
  {
    PricedAsRequested(charges);
  }

  /** A one-off invoice is accepted if and only if the contract is known, it has no invoice for the period that is
      not void, and every line total and their sum fit their columns. */
  lemma CreateAcceptedIff(t: Tables, contracts: set<string>, contractId: string, period: string, charges: Charges)
    ensures var (t', reply) := CreateInvoice(t, contracts, contractId, period, charges);
      && (reply == Refused(InvalidContractId) <==> contractId !in contracts)
      && (reply.Done? <==>
            && contractId in contracts
            && (forall i :: 0 <= i < |t.invoices| && t.invoices[i].contractId == contractId ==>
                  t.invoices[i].period != period || t.invoices[i].status.Void?)
            && FitsColumn(Subtotal(RequestedLines(charges)))
            && forall k :: 0 <= k < |charges| ==> FitsColumn(LineTotal(charges[k].line)))
      && (reply.Refused? ==> t' == t)
  {
    SameTotals(Priced(charges), RequestedLines(charges));
    assert forall i :: 0 <= i < |t.invoices| && t.invoices[i].contractId == contractId ==>
      (Occupies(t.invoices[i], contractId, period) <==>
        t.invoices[i].period == period && !t.invoices[i].status.Void?);
    assert forall k :: 0 <= k < |charges| ==>
      (ItemFits(Priced(charges)[k]) <==> FitsColumn(LineTotal(charges[k].line)));
  }

  lemma PricedAsRequested(charges: Charges)
    requires forall k :: 0 <= k < |charges| ==> ItemFits(Priced(charges)[k])
    ensures forall k :: 0 <= k < |charges| ==> Stores(Priced(charges)[k], charges[k], k)
    ensures Abs(ItemsTotal(Priced(charges)) * 10_000 - SumExactTotals(RequestedLines(charges))) <= |charges| * 5_000
  {
    var items, lines := Priced(charges), RequestedLines(charges);
    forall k | 0 <= k < |charges|
      ensures Stores(items[k], charges[k], k) && FitsColumn(LineTotals(lines)[k])
    {
      assert ItemFits(items[k]) && items[k].lineTotal == LineTotal(lines[k]);
      LineTotalRoundsOnce(charges[k].line);
    }
    SameTotals(items, lines);
    SubtotalError(lines);
  }

  lemma SameTotals(items: seq<Item>, lines: seq<Line>)
    requires |items| == |lines| && forall k :: 0 <= k < |items| ==> items[k].lineTotal == LineTotal(lines[k])
    ensures ItemsTotal(items) == Subtotal(lines)
  {
    assert ItemTotals(items) == LineTotals(lines);
  }

  // ----- how things move ------------------------------------------------------------------

  function Rank(status: InvoiceStatus): nat {
    match status
    case Draft => 0
    case Issued => 1
    case Overdue => 1
    case PartiallyPaid => 2
    case Paid => 3
    case Void => 4
  }

  /** Up along draft, issued, partially paid, paid; or to void from anything but paid. */
  predicate Climbs(a: InvoiceStatus, b: InvoiceStatus) {
    a == b || (!a.Paid? && !a.Void? && Rank(a) < Rank(b))
  }

  predicate InvoiceEvolves(a: Invoice, b: Invoice) {
    && a.contractId == b.contractId && a.period == b.period && a.items == b.items && a.total == b.total
    && Climbs(a.status, b.status)
    && (a.promptPayRef.Some? ==> b.promptPayRef == a.promptPayRef)
  }

  predicate PaymentEvolves(a: Payment, b: Payment) {
    && a.invoiceId == b.invoiceId && a.amount == b.amount && a.key == b.key
    && (a.status.Pending? || b.status == a.status)
  }

  predicate Evolves(t: Tables, t': Tables) {
    && |t.invoices| <= |t'.invoices| && |t.payments| <= |t'.payments|
    && (forall i :: 0 <= i < |t.invoices| ==> InvoiceEvolves(t.invoices[i], t'.invoices[i]))
    && (forall k :: 0 <= k < |t.payments| ==> PaymentEvolves(t.payments[k], t'.payments[k]))
  }

  lemma IssueEvolves(t: Tables, id: nat, promptPayId: Option<string>)
    requires Inv(t)
    ensures Evolves(t, Issue(t, id, promptPayId).0)
  {
    if id < |t.invoices| {
      assert InvoiceInv(t, id);
    }
  }

  lemma VoidEvolves(t: Tables, id: nat)
    ensures Evolves(t, VoidInvoice(t, id).0)
  {
  }

  lemma PayEvolves(t: Tables, invoiceId: nat, amount: Amount, key: string)
    ensures Evolves(t, CreatePayment(t, invoiceId, amount, key).0)
  {
  }

  lemma RejectEvolves(t: Tables, id: nat)
    ensures Evolves(t, Reject(t, id).0)
  {
  }

  lemma ApplyEvolves(t: Tables, op: Op)
    requires Inv(t)
    ensures Evolves(t, Apply(t, op))
  {
    match op
    case BillByHand(_, contractId, period, charges) => InsertEvolves(t, contractId, period, Priced(charges));
    case GenerateBatch(input) => PassKeepsInv(t, input.period, Batch.JobsAt(t, input));
    case IssueInvoice(id, promptPayId) => IssueEvolves(t, id, promptPayId);
    case VoidTheInvoice(id) => VoidEvolves(t, id);
    case Pay(invoiceId, amount, key) => PayEvolves(t, invoiceId, amount, key);
    case ConfirmPayment(id) => ConfirmEvolves(t, id);
    case RejectPayment(id) => RejectEvolves(t, id);
  }

  lemma EvolvesTransitive(a: Tables, b: Tables, c: Tables)
    requires Evolves(a, b) && Evolves(b, c)
    ensures Evolves(a, c)
  {
    forall i | 0 <= i < |a.invoices|
      ensures InvoiceEvolves(a.invoices[i], c.invoices[i])
    {
      assert InvoiceEvolves(a.invoices[i], b.invoices[i]) && InvoiceEvolves(b.invoices[i], c.invoices[i]);
    }
    forall k | 0 <= k < |a.payments|
      ensures PaymentEvolves(a.payments[k], c.payments[k])
    {
      assert PaymentEvolves(a.payments[k], b.payments[k]) && PaymentEvolves(b.payments[k], c.payments[k]);
    }
  }

  /** Along every run an invoice only climbs or is voided before it is paid; paid and void are final, totals
      and handed-out payloads never change, and a decided payment stays as it was decided. */
  lemma {:induction false} RunsEvolve(t: Tables, ops: seq<Op>)
    requires Inv(t)
    ensures Inv(Run(t, ops)) && Evolves(t, Run(t, ops))
    decreases |ops|
  {
    if ops != [] {
      ApplyKeepsInv(t, ops[0]);
      ApplyEvolves(t, ops[0]);
      RunsEvolve(Apply(t, ops[0]), ops[1..]);
      EvolvesTransitive(t, Apply(t, ops[0]), Run(t, ops));
    }
  }

  // ----- replays ----------------------------------------------------------------------------

  lemma {:induction false} FindKeyAppend(payments: seq<Payment>, p: Payment)
    ensures FindKey(payments, p.key) == |payments| ==> FindKey(payments + [p], p.key) == |payments|
    decreases |payments|
  {
    if payments != [] && payments[0].key != p.key {
      assert (payments + [p])[1..] == payments[1..] + [p];
      FindKeyAppend(payments[1..], p);
    }
  }

  function ReplyTo(t: Tables, op: Op): Reply
    requires !op.GenerateBatch?
  {
    match op
    case BillByHand(contracts, contractId, period, charges) =>
      CreateInvoice(t, contracts, contractId, period, charges).1
    case IssueInvoice(id, promptPayId) => Issue(t, id, promptPayId).1
    case VoidTheInvoice(id) => VoidInvoice(t, id).1
    case Pay(invoiceId, amount, key) => CreatePayment(t, invoiceId, amount, key).1
    case ConfirmPayment(id) => Confirm(t, id).1
    case RejectPayment(id) => Reject(t, id).1
  }

  lemma PayTwice(t: Tables, invoiceId: nat, amount: Amount, key: string)
    ensures var (t', reply) := CreatePayment(t, invoiceId, amount, key);
      CreatePayment(t', invoiceId, amount, key) == (t', reply)
  {
    FindKeyAppend(t.payments, Payment(invoiceId, amount, Pending, key));
  }

  lemma CreateTwice(t: Tables, contracts: set<string>, contractId: string, period: string, charges: Charges)
    ensures var t' := CreateInvoice(t, contracts, contractId, period, charges).0;
      CreateInvoice(t', contracts, contractId, period, charges).0 == t'
  {
    var t' := CreateInvoice(t, contracts, contractId, period, charges).0;
    if t' != t {
      assert Occupies(t'.invoices[|t.invoices|], contractId, period);
    }
  }

  /** Repeating any request at once leaves the ledger as the first attempt left it, with the same reply if it
      went through; only a second creation of the same invoice is refused, as a duplicate. */
  lemma ReplayChangesNothing(t: Tables, op: Op)
    requires op.GenerateBatch? ==> BatchLaws.DistinctContracts(op.input)
    ensures Apply(Apply(t, op), op) == Apply(t, op)
    ensures !op.GenerateBatch? && ReplyTo(t, op).Done? ==>
      ReplyTo(Apply(t, op), op) == if op.BillByHand? then Refused(DuplicateInvoice) else ReplyTo(t, op)
  {
    match op
    case BillByHand(contracts, contractId, period, charges) =>
      CreateTwice(t, contracts, contractId, period, charges);
      if ReplyTo(t, op).Done? {
        assert Occupies(Apply(t, op).invoices[|t.invoices|], contractId, period);
      }
    case GenerateBatch(input) =>
      if Batch.Generate(t, input).1.Batched? {
        BatchLaws.SecondRunIsIdle(t, input);
      }
    case Pay(invoiceId, amount, key) => PayTwice(t, invoiceId, amount, key);
    case IssueInvoice(_, _) =>
    case VoidTheInvoice(_) =>
    case ConfirmPayment(id) => ConfirmTwice(t, id);
    case RejectPayment(_) =>
  }

  lemma ConfirmTwice(t: Tables, id: nat)
    ensures Confirm(t, id).1.Done? ==> Confirm(Confirm(t, id).0, id) == Confirm(t, id)
  {
  }

  lemma KeyFound(t: Tables, p: nat)
    requires PaymentsInv(t) && p < |t.payments|
    ensures FindKey(t.payments, t.payments[p].key) == p
  {
    assert forall k :: 0 <= k < p ==> t.payments[k].key != t.payments[p].key;
  }

  /** The checks on the invoice and the amount, which come before the key is looked up. */
  predicate PassesChecks(t: Tables, invoiceId: nat, amount: int) {
    && invoiceId < |t.invoices| && amount > 0
    && !t.invoices[invoiceId].status.Draft? && !t.invoices[invoiceId].status.Void?
  }

  /** A payment request replayed at any later time changes nothing, and returns the first payment exactly
      when the invoice it names passes these checks. */
  lemma LaterReplay(t: Tables, ops: seq<Op>, p: nat, invoiceId: nat, amount: Amount)
    requires Inv(t) && p < |t.payments|
    ensures var later := Run(t, ops);
      var (after, reply) := CreatePayment(later, invoiceId, amount, t.payments[p].key);
      && after == later
      && (reply == Done(p) <==> PassesChecks(later, invoiceId, amount))
  {
    var later := Run(t, ops);
    RunsEvolve(t, ops);
    assert PaymentEvolves(t.payments[p], later.payments[p]);
    KeyFound(later, p);
  }

  predicate Decides(op: Op) {
    op.ConfirmPayment? || op.RejectPayment? || op.VoidTheInvoice?
  }

  lemma RunAfter(t: Tables, op: Op, ops: seq<Op>)
    requires Inv(t)
    ensures Inv(Run(Apply(t, op), ops)) && Evolves(Apply(t, op), Run(Apply(t, op), ops))
  {
    ApplyKeepsInv(t, op);
    RunsEvolve(Apply(t, op), ops);
  }

  /** A confirm, reject or void that went through can be repeated at any later time: it goes through again and
      changes nothing. */
  lemma LaterDecisionReplay(t: Tables, op: Op, ops: seq<Op>)
    requires Inv(t) && Decides(op) && ReplyTo(t, op).Done?
    ensures var later := Run(Apply(t, op), ops);
      Apply(later, op) == later && ReplyTo(later, op) == ReplyTo(t, op)
  {
    RunAfter(t, op, ops);
    DecisionStands(t, op);
    DecisionRepeats(Apply(t, op), Run(Apply(t, op), ops), op);
  }

  /** What a decision that went through leaves behind. */
  predicate Decided(t: Tables, op: Op)
    requires Decides(op)
  {
    match op
    case VoidTheInvoice(id) => id < |t.invoices| && t.invoices[id].status.Void?
    case ConfirmPayment(id) => id < |t.payments| && t.payments[id].status.Confirmed?
    case RejectPayment(id) => id < |t.payments| && t.payments[id].status.Rejected?
  }

  lemma DecisionStands(t: Tables, op: Op)
    requires Decides(op) && ReplyTo(t, op).Done?
    ensures Decided(Apply(t, op), op) && ReplyTo(t, op) == Done(op.id)
  {
  }

  lemma DecisionRepeats(t: Tables, later: Tables, op: Op)
    requires Decides(op) && Decided(t, op) && Evolves(t, later)
    ensures Apply(later, op) == later && ReplyTo(later, op) == Done(op.id)
  {
    if op.VoidTheInvoice? {
      assert InvoiceEvolves(t.invoices[op.id], later.invoices[op.id]);
    } else {
      assert PaymentEvolves(t.payments[op.id], later.payments[op.id]);
    }
  }

  /** An issue that went through can be repeated at any later time, with any PromptPay id: it changes nothing,
      and it goes through if and only if the invoice is still `issued`. */
  lemma LaterIssueReplay(t: Tables, id: nat, promptPayId: Option<string>, ops: seq<Op>, again: Option<string>)
    requires Inv(t) && Issue(t, id, promptPayId).1.Done?
    ensures var later := Run(Issue(t, id, promptPayId).0, ops);
      && id < |later.invoices|
      && Issue(later, id, again).0 == later
      && Issue(later, id, again).1
         == if later.invoices[id].status.Issued? then Done(id) else Refused(InvoiceNotDraft)
  {
    var op := IssueInvoice(id, promptPayId);
    RunAfter(t, op, ops);
    assert InvoiceEvolves(Apply(t, op).invoices[id], Run(Apply(t, op), ops).invoices[id]);
  }

  /** So a replay is refused once the invoice has been voided, although the payment exists. */
  lemma ReplayAfterVoidRefused(t: Tables, p: nat, amount: Amount)
    requires Inv(t) && p < |t.payments| && !t.invoices[t.payments[p].invoiceId].status.Paid?
    ensures var invoiceId, key := t.payments[p].invoiceId, t.payments[p].key;
      var voided := VoidInvoice(t, invoiceId).0;
      && FindKey(voided.payments, key) == p
      && CreatePayment(voided, invoiceId, amount, key) == (voided, Refused(InvoiceVoid))
  {
    KeyFound(t, p);
  }

  /** An invoice can be voided exactly until confirmed payments cover its total. */
  lemma VoidableUntilCovered(t: Tables, id: nat)
    requires Inv(t) && id < |t.invoices| && !t.invoices[id].status.Void?
    ensures VoidInvoice(t, id).1
         == if 0 < PaidTotal(t.payments, id) && t.invoices[id].total <= PaidTotal(t.payments, id)
            then Refused(InvoicePaid) else Done(id)
  {
    InvTellsTheTruth(t, id);
  }

  /** A confirmation adds exactly its amount to what counts as paid, and the sum decides the status. */
  lemma ConfirmDecides(t: Tables, id: nat)
    requires Inv(t) && id < |t.payments| && t.payments[id].status.Pending?
    requires !t.invoices[t.payments[id].invoiceId].status.Void?
    ensures var t', i := Confirm(t, id).0, t.payments[id].invoiceId;
      && PaidTotal(t'.payments, i) == PaidTotal(t.payments, i) + t.payments[id].amount
      && t'.invoices[i].status
         == if t.invoices[i].total <= PaidTotal(t'.payments, i) then Paid else PartiallyPaid
  {
    var i := t.payments[id].invoiceId;
    ConfirmedSums(t, id, i);
    ConfirmChanges(t, id);
    assert InvoiceInv(Confirm(t, id).0, i);
  }

  /** What the QR code of an invoice pays when it is issued with this PromptPay id. */
  predicate Pays(invoice: Invoice, promptPayId: string) {
    && invoice.promptPayRef.Some? && NormalizePromptPayId(promptPayId).Ok?
    && Decode(invoice.promptPayRef.value)
       == Some(Decoded(NormalizePromptPayId(promptPayId).value, Some(ToStorage(Decimal(invoice.total, 2)))))
  }

  lemma IssueEncodes(t: Tables, id: nat, promptPayId: Option<string>)
    requires id < |t.invoices| && t.invoices[id].status.Draft? && Issue(t, id, promptPayId).1.Done?
    ensures promptPayId.Some? && Pays(Issue(t, id, promptPayId).0.invoices[id], promptPayId.value)
  {
    DecodeInvertsPayload(promptPayId.value, Some(Decimal(t.invoices[id].total, 2)));
  }

  /** The QR code of an issued draft pays the company's id the total of the invoice, then and at any later time. */
  lemma IssuedQrPays(t: Tables, id: nat, promptPayId: Option<string>, ops: seq<Op>)
    requires Inv(t) && id < |t.invoices| && t.invoices[id].status.Draft? && Issue(t, id, promptPayId).1.Done?
    ensures var later := Run(Issue(t, id, promptPayId).0, ops);
      promptPayId.Some? && id < |later.invoices| && Pays(later.invoices[id], promptPayId.value)
  {
    var issued := Issue(t, id, promptPayId).0;
    IssueEncodes(t, id, promptPayId);
    IssueKeepsInv(t, id, promptPayId);
    RunsEvolve(issued, ops);
    assert InvoiceEvolves(issued.invoices[id], Run(issued, ops).invoices[id]);
  }

  predicate HadRef(t: Tables, i: nat, ref: Option<string>) {
    i < |t.invoices| && t.invoices[i].promptPayRef == ref
  }

  lemma RefFromIssue(t: Tables, id: nat, promptPayId: Option<string>, i: nat)
    requires i < |t.invoices| && Issue(t, id, promptPayId).0.invoices[i].promptPayRef.Some?
    ensures var invoice := Issue(t, id, promptPayId).0.invoices[i];
      HadRef(t, i, invoice.promptPayRef) || (id == i && promptPayId.Some? && Pays(invoice, promptPayId.value))
  {
    if id == i && t.invoices[id].status.Draft? && Issue(t, id, promptPayId).1.Done? {
      IssueEncodes(t, id, promptPayId);
    }
  }

  lemma InsertAddsNoRef(t: Tables, contractId: string, period: string, items: Items, i: nat)
    requires i < |InsertDraft(t, contractId, period, items).0.invoices|
    ensures var ref := InsertDraft(t, contractId, period, items).0.invoices[i].promptPayRef;
      ref.Some? ==> HadRef(t, i, ref)
  {
  }

  lemma ConfirmAddsNoRef(t: Tables, id: nat, i: nat)
    requires i < |t.invoices|
    ensures |Confirm(t, id).0.invoices| == |t.invoices|
    ensures HadRef(t, i, Confirm(t, id).0.invoices[i].promptPayRef)
  {
  }

  lemma BatchAddsNoRef(t: Tables, input: Batch.Input, i: nat)
    requires i < |Batch.Generate(t, input).0.invoices|
    ensures var ref := Batch.Generate(t, input).0.invoices[i].promptPayRef;
      ref.Some? ==> HadRef(t, i, ref)
  {
    var jobs := Batch.JobsAt(t, input);
    var p := Batch.Visits(t, input.period, jobs);
    if !p.failed && p.tables.invoices[i].promptPayRef.Some? {
      PassAddsNoRef(t, input.period, jobs, i);
    }
  }

  lemma VoidAddsNoRef(t: Tables, id: nat, i: nat)
    requires i < |t.invoices|
    ensures HadRef(t, i, VoidInvoice(t, id).0.invoices[i].promptPayRef)
  {
  }

  lemma {:induction false} PassAddsNoRef(t: Tables, period: string, jobs: seq<Batch.Job>, i: nat)
    requires i < |Batch.Visits(t, period, jobs).tables.invoices|
    requires Batch.Visits(t, period, jobs).tables.invoices[i].promptPayRef.Some?
    ensures HadRef(t, i, Batch.Visits(t, period, jobs).tables.invoices[i].promptPayRef)
    decreases |jobs|
  {
    if jobs != [] {
      var front, last := jobs[..|jobs| - 1], jobs[|jobs| - 1];
      var before := Batch.Visits(t, period, front).tables;
      OneTurnOfPass(t, period, jobs);
      if last.plan.Bill? && Batch.Visits(t, period, jobs).tables != before {
        InsertAddsNoRef(before, last.contractId, period, last.plan.items, i);
      }
      PassAddsNoRef(t, period, jobs[..|jobs| - 1], i);
    }
  }

  /** Only issuing an invoice gives it a QR code. */
  lemma RefFromOneStep(t: Tables, op: Op, i: nat)
    requires i < |Apply(t, op).invoices| && Apply(t, op).invoices[i].promptPayRef.Some?
    ensures HadRef(t, i, Apply(t, op).invoices[i].promptPayRef) || IssuesFor(op, i, Apply(t, op).invoices[i])
  {
    match op
    case IssueInvoice(id, promptPayId) => RefFromIssue(t, id, promptPayId, i);
    case BillByHand(_, contractId, period, charges) => InsertAddsNoRef(t, contractId, period, Priced(charges), i);
    case GenerateBatch(input) => BatchAddsNoRef(t, input, i);
    case VoidTheInvoice(id) => VoidAddsNoRef(t, id, i);
    case Pay(_, _, _) =>
    case ConfirmPayment(id) => ConfirmAddsNoRef(t, id, i);
    case RejectPayment(_) =>
  }

  /** Some request of the run issued invoice `i` with a PromptPay id that its QR code pays. */
  predicate IssuedBy(ops: seq<Op>, i: nat, invoice: Invoice) {
    exists k :: 0 <= k < |ops| && IssuesFor(ops[k], i, invoice)
  }

  predicate IssuesFor(op: Op, i: nat, invoice: Invoice) {
    op.IssueInvoice? && op.id == i && op.promptPayId.Some? && Pays(invoice, op.promptPayId.value)
  }

  lemma {:induction false} RefFromRun(t: Tables, ops: seq<Op>, i: nat)
    requires Inv(t) && i < |Run(t, ops).invoices| && Run(t, ops).invoices[i].promptPayRef.Some?
    ensures HadRef(t, i, Run(t, ops).invoices[i].promptPayRef) || IssuedBy(ops, i, Run(t, ops).invoices[i])
    decreases |ops|
  {
    if ops != [] {
      var t1, last := Apply(t, ops[0]), Run(t, ops).invoices[i];
      ApplyKeepsInv(t, ops[0]);
      RefFromRun(t1, ops[1..], i);
      if HadRef(t1, i, last.promptPayRef) {
        RefFromOneStep(t, ops[0], i);
        RunsEvolve(t1, ops[1..]);
        assert InvoiceEvolves(t1.invoices[i], last);
        assert IssuesFor(ops[0], i, t1.invoices[i]) ==> IssuesFor(ops[0], i, last);
      } else {
        var k :| 0 <= k < |ops| - 1 && IssuesFor(ops[1..][k], i, last);
        assert ops[k + 1] == ops[1..][k];
      }
    }
  }

  /** In every reachable ledger, a QR code pays the total of its invoice to a PromptPay id with which that very
      invoice was issued. */
  lemma EveryQrPaysItsIssuer(ops: seq<Op>)
    ensures forall i :: 0 <= i < |Run(Empty, ops).invoices| && Run(Empty, ops).invoices[i].promptPayRef.Some? ==>
      IssuedBy(ops, i, Run(Empty, ops).invoices[i])
  {
    forall i | 0 <= i < |Run(Empty, ops).invoices| && Run(Empty, ops).invoices[i].promptPayRef.Some?
      ensures IssuedBy(ops, i, Run(Empty, ops).invoices[i])
    {
      RefFromRun(Empty, ops, i);
    }
  }

  // ----- where payments come from -------------------------------------------------------------

  lemma BatchKeepsPayments(t: Tables, input: Batch.Input)
    ensures Batch.Generate(t, input).0.payments == t.payments
  {
    PassKeepsPayments(t, input.period, Batch.JobsAt(t, input));
  }

  lemma {:induction false} PassKeepsPayments(t: Tables, period: string, jobs: seq<Batch.Job>)
    ensures Batch.Visits(t, period, jobs).tables.payments == t.payments
    decreases |jobs|
  {
    if jobs != [] {
      PassKeepsPayments(t, period, jobs[..|jobs| - 1]);
      OneTurnOfPass(t, period, jobs);
    }
  }

  /** The decision that a request makes on payment `id`. */
  function DecisionOf(op: Op, id: nat): PaymentStatus {
    if op == ConfirmPayment(id) then Confirmed else if op == RejectPayment(id) then Rejected else Pending
  }

  /** What becomes of payment `id` when these requests follow: the first decision on it counts. */
  function Decision(ops: seq<Op>, id: nat): PaymentStatus
    decreases |ops|
  {
    if ops == [] then Pending
    else if DecisionOf(ops[0], id).Pending? then Decision(ops[1..], id)
    else DecisionOf(ops[0], id)
  }

  /** One request adds at most one payment, the one it asks for, and decides at most the one it names. */
  lemma PaymentsAfter(t: Tables, op: Op)
    ensures |t.payments| <= |Apply(t, op).payments| <= |t.payments| + 1
    ensures forall k :: 0 <= k < |t.payments| ==>
      Apply(t, op).payments[k]
      == t.payments[k].(status := if t.payments[k].status.Pending? then DecisionOf(op, k) else t.payments[k].status)
    ensures |Apply(t, op).payments| > |t.payments| ==>
      op.Pay? && Apply(t, op).payments[|t.payments|] == Payment(op.invoiceId, op.amount, Pending, op.key)
  {
    match op
    case BillByHand(_, _, _, _) =>
    case GenerateBatch(input) => BatchKeepsPayments(t, input);
    case IssueInvoice(_, _) =>
    case VoidTheInvoice(_) =>
    case Pay(_, _, _) =>
    case ConfirmPayment(id) => ConfirmSetsStatus(t, id);
    case RejectPayment(_) =>
  }

  lemma ConfirmSetsStatus(t: Tables, id: nat)
    ensures Confirm(t, id).0.payments
      == if id < |t.payments| && t.payments[id].status.Pending?
         then t.payments[id := t.payments[id].(status := Confirmed)] else t.payments
  {
  }

  /** A payment that is there keeps all but its status, and a pending one is decided by the first request that
      names it. */
  lemma {:induction false} DecidedByTheFirst(t: Tables, ops: seq<Op>, id: nat)
    requires id < |t.payments|
    ensures id < |Run(t, ops).payments|
    ensures Run(t, ops).payments[id]
      == t.payments[id].(status := if t.payments[id].status.Pending? then Decision(ops, id)
                                   else t.payments[id].status)
    decreases |ops|
  {
    if ops != [] {
      PaymentsAfter(t, ops[0]);
      DecidedByTheFirst(Apply(t, ops[0]), ops[1..], id);
    }
  }

  /** Request `k` of the run asked for this very payment, was the one that added it, and the requests behind it
      decided it. */
  predicate MadeBy(t: Tables, ops: seq<Op>, k: nat, id: nat, p: Payment) {
    && k < |ops|
    && ops[k].Pay? && ops[k].invoiceId == p.invoiceId && ops[k].amount == p.amount && ops[k].key == p.key
    && |Run(t, ops[..k]).payments| == id
    && p.status == Decision(ops[k + 1..], id)
  }

  predicate WasRequested(ops: seq<Op>, id: nat, p: Payment) {
    exists k :: 0 <= k < |ops| && MadeBy(Empty, ops, k, id, p)
  }

  lemma {:induction false} PaymentOrigin(t: Tables, ops: seq<Op>, id: nat) returns (k: nat)
    requires |t.payments| <= id < |Run(t, ops).payments|
    ensures MadeBy(t, ops, k, id, Run(t, ops).payments[id])
    decreases |ops|
  {
    var t1 := Apply(t, ops[0]);
    PaymentsAfter(t, ops[0]);
    if id < |t1.payments| {
      k := 0;
      DecidedByTheFirst(t1, ops[1..], id);
      assert ops[..0] == [];
    } else {
      var l := PaymentOrigin(t1, ops[1..], id);
      k := l + 1;
      assert ops[..k][0] == ops[0] && ops[..k][1..] == ops[1..][..l];
      assert ops[1..][l + 1..] == ops[k + 1..];
    }
  }

  /** In every reachable ledger every payment has the invoice, the amount and the key of a payment request of the
      run, and its status is the first decision made on it since. */
  lemma EveryPaymentWasRequested(ops: seq<Op>)
    ensures forall id :: 0 <= id < |Run(Empty, ops).payments| ==>
      WasRequested(ops, id, Run(Empty, ops).payments[id])
  {
    forall id | 0 <= id < |Run(Empty, ops).payments|
      ensures WasRequested(ops, id, Run(Empty, ops).payments[id])
    {
      var k := PaymentOrigin(Empty, ops, id);
    }
  }

  /** A payment request with a key that no earlier request used is accepted if and only if the invoice checks
      pass, and then exactly this payment is added, and stays. */
  lemma FreshKeyAccepted(ops: seq<Op>, invoiceId: nat, amount: Amount, key: string, more: seq<Op>)
    requires forall k :: 0 <= k < |ops| && ops[k].Pay? ==> ops[k].key != key
    ensures var t := Run(Empty, ops);
      var (t', reply) := CreatePayment(t, invoiceId, amount, key);
      && (reply.Done? <==> PassesChecks(t, invoiceId, amount))
      && (reply.Refused? ==> t' == t)
      && (reply == Refused(InvalidInvoiceId) <==> invoiceId >= |t.invoices|)
      && (reply == Refused(InvoiceNotIssued) <==> invoiceId < |t.invoices| && t.invoices[invoiceId].status.Draft?)
      && (reply == Refused(InvoiceVoid) <==> invoiceId < |t.invoices| && t.invoices[invoiceId].status.Void?)
      && (reply.Done? ==>
            && reply.id == |t.payments| && t'.invoices == t.invoices
            && t'.payments == t.payments + [Payment(invoiceId, amount, Pending, key)]
            && reply.id < |Run(t', more).payments|
            && Run(t', more).payments[reply.id] == Payment(invoiceId, amount, Decision(more, reply.id), key))
  {
    var t := Run(Empty, ops);
    forall id | 0 <= id < |t.payments|
      ensures t.payments[id].key != key
    {
      var k := PaymentOrigin(Empty, ops, id);
      assert ops[k].key == t.payments[id].key;
    }
    var (t', reply) := CreatePayment(t, invoiceId, amount, key);
    if reply.Done? {
      DecidedByTheFirst(t', more, reply.id);
    }
  }

  /** A payment that is pending is confirmed or rejected later, whatever happens in between, unless it has been
      decided the other way first. */
  lemma DecidedOnce(t: Tables, ops: seq<Op>, id: nat)
    requires id < |t.payments| && t.payments[id].status.Pending?
    ensures var later := Run(t, ops);
      && Confirm(later, id).1 == (if Decision(ops, id).Rejected? then Refused(PaymentAlreadyRejected) else Done(id))
      && Reject(later, id).1 == (if Decision(ops, id).Confirmed? then Refused(PaymentAlreadyConfirmed) else Done(id))
  {
    DecidedByTheFirst(t, ops, id);
  }

  // ----- void invoices --------------------------------------------------------------------------

  predicate VoidAt(t: Tables, i: nat, invoice: Invoice) {
    i < |t.invoices| && t.invoices[i] == invoice && invoice.status.Void?
  }

  lemma InsertKeepsOld(t: Tables, contractId: string, period: string, items: Items, i: nat)
    requires i < |t.invoices|
    ensures i < |InsertDraft(t, contractId, period, items).0.invoices|
    ensures InsertDraft(t, contractId, period, items).0.invoices[i] == t.invoices[i]
  {
  }

  lemma {:induction false} PassKeepsOld(t: Tables, period: string, jobs: seq<Batch.Job>, i: nat)
    requires i < |t.invoices|
    ensures i < |Batch.Visits(t, period, jobs).tables.invoices|
    ensures Batch.Visits(t, period, jobs).tables.invoices[i] == t.invoices[i]
    decreases |jobs|
  {
    if jobs != [] {
      var front, last := jobs[..|jobs| - 1], jobs[|jobs| - 1];
      PassKeepsOld(t, period, front, i);
      OneTurnOfPass(t, period, jobs);
      if last.plan.Bill? {
        InsertKeepsOld(Batch.Visits(t, period, front).tables, last.contractId, period, last.plan.items, i);
      }
    }
  }

  lemma ConfirmKeepsVoid(t: Tables, id: nat, i: nat)
    requires i < |t.invoices| && t.invoices[i].status.Void?
    ensures |Confirm(t, id).0.invoices| == |t.invoices| && Confirm(t, id).0.invoices[i] == t.invoices[i]
  {
  }

  lemma ApplyKeepsVoid(t: Tables, op: Op, i: nat)
    requires i < |t.invoices| && t.invoices[i].status.Void?
    ensures VoidAt(Apply(t, op), i, t.invoices[i])
    ensures |Apply(t, op).payments| > |t.payments| ==> Apply(t, op).payments[|t.payments|].invoiceId != i
  {
    PaymentsAfter(t, op);
    match op
    case BillByHand(_, contractId, period, charges) => InsertKeepsOld(t, contractId, period, Priced(charges), i);
    case GenerateBatch(input) => PassKeepsOld(t, input.period, Batch.JobsAt(t, input), i);
    case IssueInvoice(_, _) =>
    case VoidTheInvoice(_) =>
    case Pay(_, _, _) =>
    case ConfirmPayment(id) => ConfirmKeepsVoid(t, id, i);
    case RejectPayment(_) =>
  }

  /** No request changes a void invoice or adds a payment to it. */
  lemma {:induction false} VoidIsFinal(t: Tables, i: nat, ops: seq<Op>)
    requires i < |t.invoices| && t.invoices[i].status.Void?
    ensures VoidAt(Run(t, ops), i, t.invoices[i])
    ensures forall k :: |t.payments| <= k < |Run(t, ops).payments| ==> Run(t, ops).payments[k].invoiceId != i
    decreases |ops|
  {
    if ops != [] {
      var t1 := Apply(t, ops[0]);
      ApplyKeepsVoid(t, ops[0], i);
      PaymentsAfter(t, ops[0]);
      VoidIsFinal(t1, i, ops[1..]);
      forall k | |t.payments| <= k < |Run(t, ops).payments|
        ensures Run(t, ops).payments[k].invoiceId != i
      {
        if k < |t1.payments| {
          DecidedByTheFirst(t1, ops[1..], k);
        }
      }
    }
  }

  /** Once an invoice has been voided, no request ever changes it again, whatever is confirmed; a payment that was
      pending then can be confirmed for as long as nobody has decided it, and nothing but its status changes. */
  lemma ConfirmOnVoidInvoice(t: Tables, i: nat, ops: seq<Op>, id: nat)
    requires VoidInvoice(t, i).1.Done? && id < |t.payments|
    requires t.payments[id].invoiceId == i && t.payments[id].status.Pending? && Decision(ops, id).Pending?
    ensures var voided := VoidInvoice(t, i).0;
      var later := Run(voided, ops);
      && i < |voided.invoices| && VoidAt(later, i, voided.invoices[i])
      && id < |later.payments| && Confirm(later, id) == (SetPayment(later, id, Confirmed), Done(id))
      && VoidAt(Confirm(later, id).0, i, voided.invoices[i])
  {
    var voided := VoidInvoice(t, i).0;
    VoidIsFinal(voided, i, ops);
    DecidedByTheFirst(voided, ops, id);
  }

  /** An issue request on a draft goes through exactly if the company's PromptPay id is usable. */
  lemma IssueSucceedsIff(t: Tables, id: nat, promptPayId: Option<string>)
    requires Inv(t) && id < |t.invoices| && t.invoices[id].status.Draft?
    ensures Issue(t, id, promptPayId).1
         == if promptPayId.Some? && NormalizePromptPayId(promptPayId.value).Ok?
            then Done(id) else Refused(PromptPayNotConfigured)
  {
    assert InvoiceInv(t, id);
    if promptPayId.Some? {
      StoredTotalEncodable(promptPayId.value, t.invoices[id].total);
      DecodeInvertsPayload(promptPayId.value, Some(Decimal(t.invoices[id].total, 2)));
    }
  }
}
