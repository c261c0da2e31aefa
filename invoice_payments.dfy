/** Payments recorded against an invoice: each create or delete of a payment
    row overwrites the invoice's cached `paidAmount` and re-derives its
    `paymentStatus` (paid, partial or pending) from the new amount. */
module InvoicePayments {
  import opened Seqs

  datatype PaymentStatus = Pending | Partial | Paid

  /** The invoice columns the ledger reads and writes; `paidAmount` is nullable. */
  datatype Invoice = Invoice(totalAmount: int, paidAmount: Option<int>, paymentStatus: PaymentStatus)

  datatype InvoicePayment = InvoicePayment(
    id: int,
    invoiceId: int,
    paymentAmount: int,
    paymentDate: int,
    paymentMethod: Option<string>,
    reference: Option<string>,
    notes: Option<string>)

  datatype CreateInvoicePaymentDto = CreateInvoicePaymentDto(
    invoiceId: int,
    paymentAmount: int,
    paymentDate: int,
    paymentMethod: Option<string>,
    reference: Option<string>,
    notes: Option<string>)

  /** An invoice as created: pending, with nothing paid. */
  function NewInvoice(totalAmount: int): (inv: Invoice)
    ensures inv.totalAmount == totalAmount && inv.paidAmount == Some(0) && inv.paymentStatus == Pending
  {
    Invoice(totalAmount, Some(0), Pending)
  }

  /** The three-way status rule: paid once the total is covered, partial when
      something but not all is paid, pending otherwise. */
  function DeriveStatus(paid: int, total: int): (s: PaymentStatus)
    ensures s == Paid <==> paid >= total
    ensures s == Partial <==> 0 < paid < total
    ensures s == Pending <==> paid <= 0 && paid < total
  {
    if paid >= total then Paid
    else if paid > 0 then Partial
    else Pending
  }

  function Rank(s: PaymentStatus): int {
    match s
    case Pending => 0
    case Partial => 1
    case Paid => 2
  }

  /** Paying more never moves an invoice back from paid to partial or from partial to pending. */
  lemma StatusIsMonotone(paid1: int, paid2: int, total: int)
    requires paid1 <= paid2
    ensures Rank(DeriveStatus(paid1, total)) <= Rank(DeriveStatus(paid2, total))
  {
  }

  /** The invoice after a payment: a null paid amount counts as 0 and the status
      is derived from the new amount. */
  function AfterPayment(inv: Invoice, amount: int): (r: Invoice)
    ensures r.totalAmount == inv.totalAmount
    ensures r.paidAmount == Some(inv.paidAmount.GetOr(0) + amount)
    ensures r.paymentStatus == DeriveStatus(r.paidAmount.value, r.totalAmount)
  {
    var newPaidAmount := inv.paidAmount.GetOr(0) + amount;
    inv.(paidAmount := Some(newPaidAmount), paymentStatus := DeriveStatus(newPaidAmount, inv.totalAmount))
  }

  /** The invoice after a payment is deleted: the stored amount is clamped at 0,
      while the status is derived from the unclamped difference. */
  function AfterPaymentRemoved(inv: Invoice, amount: int): (r: Invoice)
    ensures r.totalAmount == inv.totalAmount
    ensures r.paidAmount.Some? && r.paidAmount.value >= 0
    ensures inv.paidAmount.GetOr(0) - amount >= 0 ==> r.paidAmount.value == inv.paidAmount.GetOr(0) - amount
    ensures inv.paidAmount.GetOr(0) - amount < 0 ==> r.paidAmount.value == 0
    ensures r.paymentStatus == DeriveStatus(inv.paidAmount.GetOr(0) - amount, inv.totalAmount)
  {
    var newPaidAmount := inv.paidAmount.GetOr(0) - amount;
    inv.(paidAmount := Some(if newPaidAmount > 0 then newPaidAmount else 0),
         paymentStatus := DeriveStatus(newPaidAmount, inv.totalAmount))
  }

  /** Creating and then deleting the same payment restores a non-negative prior
      paid amount, with the status derived from it. */
  lemma PaymentThenRemoveRestores(inv: Invoice, amount: int)
    requires inv.paidAmount.GetOr(0) >= 0
    ensures AfterPaymentRemoved(AfterPayment(inv, amount), amount)
            == inv.(paidAmount := Some(inv.paidAmount.GetOr(0)),
                    paymentStatus := DeriveStatus(inv.paidAmount.GetOr(0), inv.totalAmount))
  {
  }

  /** For a positive total the status after a deletion agrees with the stored,
      clamped amount; for a total of 0 or less an over-deletion leaves the
      invoice pending although its stored amount 0 covers the total. */
  lemma ClampedStatusAgreement(inv: Invoice, amount: int)
    ensures inv.totalAmount > 0 ==>
              AfterPaymentRemoved(inv, amount).paymentStatus
              == DeriveStatus(AfterPaymentRemoved(inv, amount).paidAmount.value, inv.totalAmount)
    ensures AfterPaymentRemoved(Invoice(0, Some(10), Paid), 30)
            == Invoice(0, Some(0), Pending)
    ensures DeriveStatus(0, 0) == Paid
  {
  }

  /** The amount a payment contributes to the ledger of `invoiceId`. */
  function AmountFor(invoiceId: int): InvoicePayment -> int {
    (p: InvoicePayment) => if p.invoiceId == invoiceId then p.paymentAmount else 0
  }

  /** The sum of the payments recorded for `invoiceId`. */
  function LedgerTotal(payments: seq<InvoicePayment>, invoiceId: int): int {
    Sum(payments, AmountFor(invoiceId))
  }

  lemma {:induction false} LedgerAppend(payments: seq<InvoicePayment>, p: InvoicePayment, invoiceId: int)
    ensures LedgerTotal(payments + [p], invoiceId)
            == LedgerTotal(payments, invoiceId) + (if p.invoiceId == invoiceId then p.paymentAmount else 0)
  {
    SumAppend(payments, [p], AmountFor(invoiceId));
    assert Sum([p], AmountFor(invoiceId)) == AmountFor(invoiceId)(p) + Sum([], AmountFor(invoiceId));
  }

  /** A ledger of non-negative payments has a non-negative total. */
  lemma LedgerNonNegative(payments: seq<InvoicePayment>, invoiceId: int)
    requires forall p :: p in payments ==> p.paymentAmount >= 0
    ensures LedgerTotal(payments, invoiceId) >= 0
  {
    assert forall i :: 0 <= i < |payments| ==> AmountFor(invoiceId)(payments[i]) >= 0 by {
      forall i | 0 <= i < |payments|
        ensures AmountFor(invoiceId)(payments[i]) >= 0
      {
        assert payments[i] in payments;
      }
    }
    SumNonNegative(payments, AmountFor(invoiceId));
  }

  function HasId(id: int): InvoicePayment -> bool {
    (p: InvoicePayment) => p.id == id
  }

  /** The ledger agrees with the invoices: no payment is negative, and every
      invoice's paid amount (null read as 0) is the sum of its payments and its
      status is derived from that sum. */
  ghost predicate LedgerConsistent(invoices: map<int, Invoice>, payments: seq<InvoicePayment>) {
    (forall p :: p in payments ==> p.paymentAmount >= 0)
    && forall invoiceId :: invoiceId in invoices ==>
         var inv := invoices[invoiceId];
         inv.paidAmount.GetOr(0) == LedgerTotal(payments, invoiceId)
         && inv.paymentStatus == DeriveStatus(inv.paidAmount.GetOr(0), inv.totalAmount)
  }

  /** The invoices after recording payment `p`: its invoice, if any, gets the new amount. */
  function WithPayment(invoices: map<int, Invoice>, p: InvoicePayment): map<int, Invoice> {
    if p.invoiceId in invoices then invoices[p.invoiceId := AfterPayment(invoices[p.invoiceId], p.paymentAmount)]
    else invoices
  }

  /** The invoices after deleting payment `p`: its invoice, if any, gets the clamped amount. */
  function WithoutPayment(invoices: map<int, Invoice>, p: InvoicePayment): map<int, Invoice> {
    if p.invoiceId in invoices then invoices[p.invoiceId := AfterPaymentRemoved(invoices[p.invoiceId], p.paymentAmount)]
    else invoices
  }

  /** Recording a non-negative payment keeps the invoices consistent with the ledger. */
  lemma {:induction false} PaymentKeepsConsistent(invoices: map<int, Invoice>, payments: seq<InvoicePayment>,
                                                  p: InvoicePayment)
    requires LedgerConsistent(invoices, payments) && p.paymentAmount >= 0
    ensures LedgerConsistent(WithPayment(invoices, p), payments + [p])
  {
    forall invoiceId | invoiceId in invoices
      ensures LedgerTotal(payments + [p], invoiceId)
              == LedgerTotal(payments, invoiceId) + (if invoiceId == p.invoiceId then p.paymentAmount else 0)
    {
      LedgerAppend(payments, p, invoiceId);
    }
  }

  /** Deleting a payment keeps the invoices consistent with the ledger: the
      remaining payments of its invoice sum to at least 0, so the clamp never bites. */
  lemma {:induction false} RemovalKeepsConsistent(invoices: map<int, Invoice>, payments: seq<InvoicePayment>, k: nat)
    requires LedgerConsistent(invoices, payments) && k < |payments|
    ensures LedgerConsistent(WithoutPayment(invoices, payments[k]), payments[..k] + payments[k + 1..])
  {
    var p, rest := payments[k], payments[..k] + payments[k + 1..];
    forall invoiceId | invoiceId in invoices
      ensures LedgerTotal(rest, invoiceId)
              == LedgerTotal(payments, invoiceId) - (if invoiceId == p.invoiceId then p.paymentAmount else 0)
    {
      SumRemoveAt(payments, k, AmountFor(invoiceId));
    }
    forall q | q in rest
      ensures q in payments
    {
    }
    LedgerNonNegative(rest, p.invoiceId);
  }

  /** The invoice and payment tables. */
  class InvoicePaymentRepository {
    var invoices: map<int, Invoice>
    var payments: seq<InvoicePayment>
    var nextId: int

    /** Stored ids are below the next one handed out. */
    ghost predicate Valid()
      reads this
    {
      forall p :: p in payments ==> p.id < nextId
    }

    /** The cached amounts and statuses agree with the payment rows. */
    ghost predicate Consistent()
      reads this
    {
      LedgerConsistent(invoices, payments)
    }

    /** A new invoice is pending with nothing paid, which agrees with the status
        rule only for a positive total. */
    constructor (invoiceTotals: map<int, int>)
      ensures Valid() && payments == []
      ensures (forall id :: id in invoiceTotals ==> invoiceTotals[id] > 0) ==> Consistent()
      ensures forall id :: id in invoices <==> id in invoiceTotals
      ensures forall id :: id in invoices ==> invoices[id] == NewInvoice(invoiceTotals[id])
    {
      invoices := map id | id in invoiceTotals :: NewInvoice(invoiceTotals[id]);
      payments := [];
      nextId := 1;
      assert forall id :: LedgerTotal([], id) == 0;
    }

    /** create: the payment row is always inserted; the invoice, when it exists,
        gets the new paid amount and status. A non-negative payment keeps the
        ledger consistent. */
    method Create(data: CreateInvoicePaymentDto) returns (payment: InvoicePayment)
      requires Valid()
      modifies this
      ensures Valid()
      ensures payment == InvoicePayment(old(nextId), data.invoiceId, data.paymentAmount, data.paymentDate,
                                        data.paymentMethod, data.reference, data.notes)
      ensures payments == old(payments) + [payment] && nextId == old(nextId) + 1
      ensures invoices == WithPayment(old(invoices), payment)
      ensures old(Consistent()) && data.paymentAmount >= 0 ==> Consistent()
    {
      payment := InvoicePayment(nextId, data.invoiceId, data.paymentAmount, data.paymentDate,
                                data.paymentMethod, data.reference, data.notes);
      if Consistent() && data.paymentAmount >= 0 {
        PaymentKeepsConsistent(invoices, payments, payment);
      }
      payments := payments + [payment];
      nextId := nextId + 1;
      if data.invoiceId in invoices {
        var invoice := invoices[data.invoiceId];
        var newPaidAmount := invoice.paidAmount.GetOr(0) + data.paymentAmount;
        var newStatus := DeriveStatus(newPaidAmount, invoice.totalAmount);
        invoices := invoices[data.invoiceId := invoice.(paidAmount := Some(newPaidAmount), paymentStatus := newStatus)];
      }
    }

    /** delete: an unknown id gives false and changes nothing; otherwise the row is
        removed and its invoice, when it exists, gets the clamped amount and the
        re-derived status. Deleting from a consistent ledger keeps it consistent. */
    method Delete(id: int) returns (ok: bool)
      requires Valid()
      modifies this`payments, this`invoices
      ensures Valid()
      ensures ok <==> exists i :: 0 <= i < |old(payments)| && old(payments)[i].id == id
      ensures !ok ==> invoices == old(invoices) && payments == old(payments)
      ensures ok ==>
                var k := FindIndex(old(payments), HasId(id));
                var p := old(payments)[k];
                && payments == old(payments)[..k] + old(payments)[k + 1..]
                && invoices == WithoutPayment(old(invoices), p)
      ensures old(Consistent()) ==> Consistent()
    {
      var k := FindIndex(payments, HasId(id));
      if k < 0 {
        return false;
      }
      var payment := payments[k];
      if Consistent() {
        RemovalKeepsConsistent(invoices, payments, k);
      }
      var rest := payments[..k] + payments[k + 1..];
      forall q | q in rest
        ensures q in payments
      {
      }
      payments := rest;
      if payment.invoiceId in invoices {
        invoices := invoices[payment.invoiceId := AfterPaymentRemoved(invoices[payment.invoiceId], payment.paymentAmount)];
      }
      ok := true;
    }
  }
}
