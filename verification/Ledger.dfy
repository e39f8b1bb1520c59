/** Invoices and payments: the state machines of apps/api/src/modules/billing/invoice.service.ts and
    payment.service.ts. One HTTP request is one atomic step, as the request transaction makes it.

    Ids are positions in the tables; rows are never deleted. Amounts are in satang. The functions specify
    one request each; class `Billing` holds the tables, and its methods carry the requests out.
  */
module Ledger {
  import opened Money
  import opened Options
  import opened PromptPay

  datatype InvoiceStatus = Draft | Issued | PartiallyPaid | Paid | Void | Overdue

  datatype ItemKind = Rent | Water | Electric | CommonFee | Deposit | LateFee | Other

  /** A line item: quantity in hundredths, unit price in ten-thousandths of a baht, total in satang. */
  datatype Item = Item(
    kind: ItemKind, quantity: int, unitPrice: int, lineTotal: int, readingId: Option<string>, sortOrder: nat)

  /** JavaScript has no longer arrays. */
  type Items = s: seq<Item> | |s| <= MAX_ARRAY

  datatype Invoice = Invoice(
    contractId: string, period: string, items: Items, total: int,
    status: InvoiceStatus, promptPayRef: Option<string>)

  datatype PaymentStatus = Pending | Confirmed | Rejected

  datatype Payment = Payment(invoiceId: nat, amount: int, status: PaymentStatus, key: string)

  datatype Tables = Tables(invoices: seq<Invoice>, payments: seq<Payment>)

  datatype Refusal =
    | NotFound | InvalidContractId | InvalidInvoiceId | InvoiceNotIssued | InvoiceVoid | InvalidAmount
    | PaymentAlreadyRejected | PaymentAlreadyConfirmed
    | DuplicateInvoice | AmountOverflow | InvoiceNotDraft | PromptPayNotConfigured | InvoicePaid

  datatype Reply = Done(id: nat) | Refused(reason: Refusal)

  /** What the wire schema lets through as an amount. */
  type Amount = n: int | FitsColumn(n)

  // ----- invoices ---------------------------------------------------------------------

  /** The partial unique index: one invoice per contract and period that is not void. */
  predicate SlotTaken(invoices: seq<Invoice>, contractId: string, period: string) {
    exists i :: 0 <= i < |invoices| && Occupies(invoices[i], contractId, period)
  }

  predicate Occupies(invoice: Invoice, contractId: string, period: string) {
    invoice.contractId == contractId && invoice.period == period && !invoice.status.Void?
  }

  /** The columns hold Decimal(12,2), Decimal(10,4) and Decimal(10,2). */
  predicate ItemFits(item: Item) {
    && -1_000_000_000_000 < item.quantity < 1_000_000_000_000
    && -10_000_000_000 < item.unitPrice < 10_000_000_000
    && FitsColumn(item.lineTotal)
  }

  function ItemTotals(items: seq<Item>): (totals: seq<int>)
    ensures |totals| == |items|
    ensures forall i :: 0 <= i < |items| ==> totals[i] == items[i].lineTotal
  {
    seq(|items|, i requires 0 <= i < |items| => items[i].lineTotal)
  }

  /** `toStorage(moneySum(items.map(i => i.lineTotal)))`, in satang. */
  function ItemsTotal(items: seq<Item>): int {
    Satang(SumOf(InBaht(ItemTotals(items))))
  }

  /** The nested write of a draft invoice with its items. */
  function InsertDraft(t: Tables, contractId: string, period: string, items: Items): (Tables, Reply) {
    if !FitsColumn(ItemsTotal(items)) then (t, Refused(AmountOverflow))
    else if SlotTaken(t.invoices, contractId, period) then (t, Refused(DuplicateInvoice))
    else if exists i :: 0 <= i < |items| && !ItemFits(items[i]) then (t, Refused(AmountOverflow))
    else
      var invoice := Invoice(contractId, period, items, ItemsTotal(items), Draft, None);
      (t.(invoices := t.invoices + [invoice]), Done(|t.invoices|))
  }

  datatype Charge = Charge(kind: ItemKind, line: Line, readingId: Option<string>, sortOrder: Option<nat>)

  type Charges = s: seq<Charge> | |s| <= MAX_ARRAY

  /** The items of a one-off invoice, numbered by position unless the request numbers them. */
  function Priced(charges: Charges): (items: Items)
    ensures |items| == |charges|
  {
    seq(|charges|, i requires 0 <= i < |charges| =>
      var c := charges[i];
      Item(c.kind, c.line.quantity, c.line.unitPrice, LineTotal(c.line), c.readingId,
           if c.sortOrder.Some? then c.sortOrder.value else i))
  }

  function CreateInvoice(t: Tables, contracts: set<string>, contractId: string, period: string, charges: Charges)
    : (Tables, Reply)
  {
    if contractId !in contracts then (t, Refused(InvalidContractId))
    else InsertDraft(t, contractId, period, Priced(charges))
  }

  function SetInvoice(t: Tables, id: nat, invoice: Invoice): Tables
    requires id < |t.invoices|
  {
    t.(invoices := t.invoices[id := invoice])
  }

  function Issue(t: Tables, id: nat, promptPayId: Option<string>): (Tables, Reply) {
    if id >= |t.invoices| then (t, Refused(NotFound))
    else
      var invoice := t.invoices[id];
      if invoice.status.Issued? then (t, Done(id))
      else if !invoice.status.Draft? then (t, Refused(InvoiceNotDraft))
      else if promptPayId.None? then (t, Refused(PromptPayNotConfigured))
      else
        var payload := Payload(promptPayId.value, Some(Decimal(invoice.total, 2)));
        if payload.Err? then (t, Refused(PromptPayNotConfigured))
        else (SetInvoice(t, id, invoice.(status := Issued, promptPayRef := Some(payload.value))), Done(id))
  }

  function VoidInvoice(t: Tables, id: nat): (Tables, Reply) {
    if id >= |t.invoices| then (t, Refused(NotFound))
    else if t.invoices[id].status.Void? then (t, Done(id))
    else if t.invoices[id].status.Paid? then (t, Refused(InvoicePaid))
    else (SetInvoice(t, id, t.invoices[id].(status := Void)), Done(id))
  }

  // ----- payments ---------------------------------------------------------------------

  /** The position of the payment with this key, or the length of the table. */
  function FindKey(payments: seq<Payment>, key: string): (i: nat)
    ensures i <= |payments|
    ensures i < |payments| ==> payments[i].key == key
    ensures forall k :: 0 <= k < i ==> payments[k].key != key
  {
    if payments == [] || payments[0].key == key then 0
    else
      var i := FindKey(payments[1..], key);
      assert forall k :: 0 < k < i + 1 ==> payments[k] == payments[1..][k - 1];
      i + 1
  }

  function CreatePayment(t: Tables, invoiceId: nat, amount: Amount, key: string): (Tables, Reply) {
    if invoiceId >= |t.invoices| then (t, Refused(InvalidInvoiceId))
    else if t.invoices[invoiceId].status.Draft? then (t, Refused(InvoiceNotIssued))
    else if t.invoices[invoiceId].status.Void? then (t, Refused(InvoiceVoid))
    else if amount <= 0 then (t, Refused(InvalidAmount))
    else
      var i := FindKey(t.payments, key);
      if i < |t.payments| then (t, Done(i))
      else (t.(payments := t.payments + [Payment(invoiceId, amount, Pending, key)]), Done(i))
  }

  /** The confirmed payments against an invoice, added up. */
  function PaidTotal(payments: seq<Payment>, invoiceId: nat): int {
    if payments == [] then 0
    else
      var last := payments[|payments| - 1];
      PaidTotal(payments[..|payments| - 1], invoiceId)
      + if last.invoiceId == invoiceId && last.status.Confirmed? then last.amount else 0
  }

  function Recompute(t: Tables, invoiceId: nat): Tables {
    if invoiceId >= |t.invoices| || t.invoices[invoiceId].status.Void? then t
    else
      var paidTotal := PaidTotal(t.payments, invoiceId);
      var outstanding := t.invoices[invoiceId].total - paidTotal;
      if outstanding <= 0 then SetInvoice(t, invoiceId, t.invoices[invoiceId].(status := Paid))
      else if paidTotal > 0 then SetInvoice(t, invoiceId, t.invoices[invoiceId].(status := PartiallyPaid))
      else t
  }

  function SetPayment(t: Tables, id: nat, status: PaymentStatus): Tables
    requires id < |t.payments|
  {
    t.(payments := t.payments[id := t.payments[id].(status := status)])
  }

  function Confirm(t: Tables, id: nat): (Tables, Reply) {
    if id >= |t.payments| then (t, Refused(NotFound))
    else if t.payments[id].status.Confirmed? then (t, Done(id))
    else if t.payments[id].status.Rejected? then (t, Refused(PaymentAlreadyRejected))
    else (Recompute(SetPayment(t, id, Confirmed), t.payments[id].invoiceId), Done(id))
  }

  function Reject(t: Tables, id: nat): (Tables, Reply) {
    if id >= |t.payments| then (t, Refused(NotFound))
    else if t.payments[id].status.Rejected? then (t, Done(id))
    else if t.payments[id].status.Confirmed? then (t, Refused(PaymentAlreadyConfirmed))
    else (SetPayment(t, id, Rejected), Done(id))
  }

  // ----- the service on its tables ------------------------------------------------------

  class Billing {
    var invoices: seq<Invoice>
    var payments: seq<Payment>

    function Contents(): Tables
      reads this
    {
      Tables(invoices, payments)
    }

    constructor ()
      ensures Contents() == Tables([], [])
    {
      invoices, payments := [], [];
    }

    method InsertDraftInvoice(contractId: string, period: string, items: Items) returns (reply: Reply)
      modifies this`invoices
      ensures (Contents(), reply) == InsertDraft(old(Contents()), contractId, period, items)
    {
      var sum := Sum(InBaht(ItemTotals(items)));
      var total := Satang(sum);
      if !FitsColumn(total) {
        return Refused(AmountOverflow);
      }
      var i := 0;
      while i < |invoices|
        invariant 0 <= i <= |invoices|
        invariant forall k :: 0 <= k < i ==> !Occupies(invoices[k], contractId, period)
      {
        if Occupies(invoices[i], contractId, period) {
          return Refused(DuplicateInvoice);
        }
        i := i + 1;
      }
      i := 0;
      while i < |items|
        invariant 0 <= i <= |items|
        invariant forall k :: 0 <= k < i ==> ItemFits(items[k])
      {
        if !ItemFits(items[i]) {
          return Refused(AmountOverflow);
        }
        i := i + 1;
      }
      reply := Done(|invoices|);
      invoices := invoices + [Invoice(contractId, period, items, total, Draft, None)];
    }

    method Create(contracts: set<string>, contractId: string, period: string, charges: Charges)
      returns (reply: Reply)
      modifies this`invoices
      ensures (Contents(), reply) == CreateInvoice(old(Contents()), contracts, contractId, period, charges)
    {
      if contractId !in contracts {
        return Refused(InvalidContractId);
      }
      reply := InsertDraftInvoice(contractId, period, Priced(charges));
    }

    method IssueInvoice(id: nat, promptPayId: Option<string>) returns (reply: Reply)
      modifies this`invoices
      ensures (Contents(), reply) == Issue(old(Contents()), id, promptPayId)
    {
      if id >= |invoices| {
        return Refused(NotFound);
      }
      var existing := invoices[id];
      if existing.status == Issued {
        return Done(id);
      }
      if existing.status != Draft {
        return Refused(InvoiceNotDraft);
      }
      if promptPayId.None? {
        return Refused(PromptPayNotConfigured);
      }
      var payload := GeneratePromptPayPayload(promptPayId.value, Some(Decimal(existing.total, 2)));
      if payload.Err? {
        return Refused(PromptPayNotConfigured);
      }
      invoices := invoices[id := existing.(status := Issued, promptPayRef := Some(payload.value))];
      reply := Done(id);
    }

    method Void(id: nat) returns (reply: Reply)
      modifies this`invoices
      ensures (Contents(), reply) == VoidInvoice(old(Contents()), id)
    {
      if id >= |invoices| {
        return Refused(NotFound);
      }
      var existing := invoices[id];
      if existing.status == InvoiceStatus.Void {
        return Done(id);
      }
      if existing.status == Paid {
        return Refused(InvoicePaid);
      }
      invoices := invoices[id := existing.(status := InvoiceStatus.Void)];
      reply := Done(id);
    }

    method RecordPayment(invoiceId: nat, amount: Amount, key: string) returns (reply: Reply)
      modifies this`payments
      ensures (Contents(), reply) == CreatePayment(old(Contents()), invoiceId, amount, key)
    {
      if invoiceId >= |invoices| {
        return Refused(InvalidInvoiceId);
      }
      if invoices[invoiceId].status == Draft {
        return Refused(InvoiceNotIssued);
      }
      if invoices[invoiceId].status == InvoiceStatus.Void {
        return Refused(InvoiceVoid);
      }
      if amount <= 0 {
        return Refused(InvalidAmount);
      }
      var replay := FindKey(payments, key);
      reply := Done(replay);
      if replay == |payments| {
        payments := payments + [Payment(invoiceId, amount, Pending, key)];
      }
    }

    method SumConfirmed(invoiceId: nat) returns (paidTotal: int)
      ensures paidTotal == PaidTotal(payments, invoiceId)
    {
      paidTotal := 0;
      for i := 0 to |payments|
        invariant paidTotal == PaidTotal(payments[..i], invoiceId)
      {
        assert payments[..i + 1][..i] == payments[..i];
        if payments[i].invoiceId == invoiceId && payments[i].status == Confirmed {
          paidTotal := paidTotal + payments[i].amount;
        }
      }
      assert payments[..|payments|] == payments;
    }

    method RecomputeInvoiceStatus(invoiceId: nat)
      modifies this`invoices
      ensures Contents() == Recompute(old(Contents()), invoiceId)
    {
      if invoiceId >= |invoices| {
        return;
      }
      var invoice := invoices[invoiceId];
      if invoice.status == InvoiceStatus.Void {
        return;
      }
      var paidTotal := SumConfirmed(invoiceId);
      var outstanding := invoice.total - paidTotal;
      var nextStatus := invoice.status;
      if outstanding <= 0 {
        nextStatus := Paid;
      } else if paidTotal > 0 {
        nextStatus := PartiallyPaid;
      }
      if nextStatus != invoice.status {
        invoices := invoices[invoiceId := invoice.(status := nextStatus)];
      }
    }

    method ConfirmPayment(id: nat) returns (reply: Reply)
      modifies this
      ensures (Contents(), reply) == Confirm(old(Contents()), id)
    {
      if id >= |payments| {
        return Refused(NotFound);
      }
      var existing := payments[id];
      if existing.status == Confirmed {
        return Done(id);
      }
      if existing.status == Rejected {
        return Refused(PaymentAlreadyRejected);
      }
      payments := payments[id := existing.(status := Confirmed)];
      RecomputeInvoiceStatus(existing.invoiceId);
      reply := Done(id);
    }

    method RejectPayment(id: nat) returns (reply: Reply)
      modifies this`payments
      ensures (Contents(), reply) == Reject(old(Contents()), id)
    {
      if id >= |payments| {
        return Refused(NotFound);
      }
      var existing := payments[id];
      if existing.status == Rejected {
        return Done(id);
      }
      if existing.status == Confirmed {
        return Refused(PaymentAlreadyConfirmed);
      }
      payments := payments[id := existing.(status := Rejected)];
      reply := Done(id);
    }
  }
}
