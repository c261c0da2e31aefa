/** The invoice reconciliation request: the submitted invoice numbers are
    trimmed and blanks dropped, the invoices found for them are split into
    already paid and payable, the numbers matching no invoice are listed, and
    the payable invoices' totals are summed. Also the input check of the
    batch-pay request. */
module InvoiceRoutes {
  import opened Seqs
  import opened JsStrings
  import opened InvoicePayments

  /** An invoice as the lookup by invoice number returns it. */
  datatype InvoiceSummary = InvoiceSummary(id: int, invoiceNumber: string, totalAmount: int, paymentStatus: PaymentStatus)

  /** A request-body field that should hold an array: absent or falsy, some other
      value, or an array. */
  datatype BodyField<T> = Missing | NotArray | ArrayOf(items: seq<T>)

  /** An element of the submitted array: a string, or any other JSON value
      (a number, null, an object), which has no `trim` method. */
  datatype Element = Text(text: string) | NotText

  predicate AllText(items: seq<Element>) {
    forall i :: 0 <= i < |items| ==> items[i].Text?
  }

  /** The string an element holds; only read once every element is a string. */
  function TextOrEmpty(e: Element): string {
    if e.Text? then e.text else ""
  }

  datatype ReconcileResponse =
    | ReconcileBadRequest            // 400 'Invalid input. Expected invoiceNumbers array.'
    | ReconcileServerError           // 500 'Failed to reconcile invoices'
    | Reconciled(payable: seq<InvoiceSummary>, alreadyPaid: seq<InvoiceSummary>,
                 notFound: seq<string>, totalAmount: int)

  predicate NonEmpty(s: string) {
    |s| > 0
  }

  /** The submitted numbers, trimmed, with empty ones dropped and order kept. */
  function CleanNumbers(invoiceNumbers: seq<string>): (r: seq<string>)
    ensures forall n :: n in r <==> n != [] && exists i :: 0 <= i < |invoiceNumbers| && n == Trim(invoiceNumbers[i])
    ensures IsSubsequence(r, Map(invoiceNumbers, Trim))
  {
    MapContains(invoiceNumbers, Trim);
    var trimmed := Map(invoiceNumbers, Trim);
    Filter(trimmed, NonEmpty)
  }

  function InvoiceNumberOf(inv: InvoiceSummary): string {
    inv.invoiceNumber
  }

  predicate IsPaid(inv: InvoiceSummary) {
    inv.paymentStatus == Paid
  }

  function TotalOf(inv: InvoiceSummary): int {
    inv.totalAmount
  }

  /** The numbers that are not among `foundNumbers`. */
  function Unmatched(foundNumbers: seq<string>): string -> bool {
    n => n !in foundNumbers
  }

  /** The cleaned numbers for which no found invoice has that number. */
  function NotFound(cleanNumbers: seq<string>, found: seq<InvoiceSummary>): (r: seq<string>)
    ensures forall n :: n in r <==> n in cleanNumbers && forall inv :: inv in found ==> inv.invoiceNumber != n
    ensures IsSubsequence(r, cleanNumbers)
  {
    var foundNumbers := Map(found, InvoiceNumberOf);
    assert forall n :: n in foundNumbers <==> exists inv :: inv in found && inv.invoiceNumber == n by {
      forall n | n in foundNumbers
        ensures exists inv :: inv in found && inv.invoiceNumber == n
      {
        var i :| 0 <= i < |foundNumbers| && foundNumbers[i] == n;
        assert found[i] in found;
      }
      forall inv | inv in found
        ensures inv.invoiceNumber in foundNumbers
      {
        var i :| 0 <= i < |found| && found[i] == inv;
        assert foundNumbers[i] == inv.invoiceNumber;
      }
    }
    Filter(cleanNumbers, Unmatched(foundNumbers))
  }

  /** POST /api/invoices/reconcile; `found` is what the lookup of the cleaned
      numbers returned. An element that is not a string makes `trim` throw, and
      the handler's catch answers 500. */
  function Reconcile(invoiceNumbers: BodyField<Element>, found: seq<InvoiceSummary>): (r: ReconcileResponse)
    ensures r.ReconcileBadRequest? <==> !invoiceNumbers.ArrayOf?
    ensures r.ReconcileServerError? <==> invoiceNumbers.ArrayOf? && !AllText(invoiceNumbers.items)
    ensures r.Reconciled? ==>
              var clean := CleanNumbers(Map(invoiceNumbers.items, TextOrEmpty));
              && (forall n :: n in r.notFound <==>
                    n in clean && forall inv :: inv in found ==> inv.invoiceNumber != n)
              && IsSubsequence(r.notFound, clean)
              && (forall inv :: inv in r.alreadyPaid <==> inv in found && inv.paymentStatus == Paid)
              && (forall inv :: inv in r.payable <==> inv in found && inv.paymentStatus != Paid)
              && IsSubsequence(r.alreadyPaid, found) && IsSubsequence(r.payable, found)
              && r.totalAmount == Sum(r.payable, TotalOf)
  {
    match invoiceNumbers
    case Missing => ReconcileBadRequest
    case NotArray => ReconcileBadRequest
    case ArrayOf(items) =>
      if !AllText(items) then ReconcileServerError
      else
        var cleanNumbers := CleanNumbers(Map(items, TextOrEmpty));
        var notFound := NotFound(cleanNumbers, found);
        var alreadyPaid := Filter(found, IsPaid);
        var payable := Filter(found, Not(IsPaid));
        Reconciled(payable, alreadyPaid, notFound, Sum(payable, TotalOf))
  }

  /** Every found invoice lands in exactly one of the two lists, and the payable
      total is the found invoices' total less that of the paid ones. */
  lemma ReconcilePartitionsFound(items: seq<Element>, found: seq<InvoiceSummary>)
    ensures var r := Reconcile(ArrayOf(items), found);
            r.Reconciled? ==>
            multiset(r.payable) + multiset(r.alreadyPaid) == multiset(found)
            && r.totalAmount == Sum(found, TotalOf) - Sum(r.alreadyPaid, TotalOf)
  {
    FilterPartition(found, IsPaid);
    SumPartition(found, IsPaid, TotalOf);
  }

  /** Cleaning works item by item: a blank item vanishes, any other is trimmed. */
  lemma CleanNumbersOne(n: string)
    ensures CleanNumbers([n]) == if Trim(n) == [] then [] else [Trim(n)]
  {
    assert Map([n], Trim) == [Trim(n)];
    assert [Trim(n)][1..] == [];
  }

  /** Cleaning a concatenation cleans each part, keeping their order. */
  lemma CleanNumbersAppend(a: seq<string>, b: seq<string>)
    ensures CleanNumbers(a + b) == CleanNumbers(a) + CleanNumbers(b)
  {
    MapAppend(a, b, Trim);
    FilterAppend(Map(a, Trim), Map(b, Trim), NonEmpty);
  }

  /** Of the numbers of two found invoices and a third number, only the third is not found. */
  lemma NotFoundThird(clean: seq<string>, a: InvoiceSummary, b: InvoiceSummary, c: string)
    requires clean == [a.invoiceNumber, b.invoiceNumber, c]
    requires c != a.invoiceNumber && c != b.invoiceNumber
    ensures NotFound(clean, [a, b]) == [c]
  {
    var found := [a, b];
    var foundNumbers := Map(found, InvoiceNumberOf);
    var unmatched := Unmatched(foundNumbers);
    assert foundNumbers == [a.invoiceNumber, b.invoiceNumber];
    assert clean[1..] == [b.invoiceNumber, c] && clean[2..] == [c] && clean[3..] == [];
    assert Filter(clean[3..], unmatched) == [];
    assert Filter(clean[2..], unmatched) == [c];
    assert Filter(clean[1..], unmatched) == [c];
  }

  /** A paid and a pending invoice: the pending one is payable, the paid one already paid. */
  lemma SplitPaidAndPending(a: InvoiceSummary, b: InvoiceSummary)
    requires a.paymentStatus == Paid && b.paymentStatus == Pending
    ensures Filter([a, b], IsPaid) == [a] && Filter([a, b], Not(IsPaid)) == [b]
    ensures Sum([b], TotalOf) == b.totalAmount
  {
    var found := [a, b];
    assert found[1..] == [b] && [b][1..] == [];
    assert Filter([b], IsPaid) == [];
    assert Not(IsPaid)(b) && !Not(IsPaid)(a);
    assert Filter([b], Not(IsPaid)) == [b];
    assert Sum([b], TotalOf) == b.totalAmount + Sum([], TotalOf);
  }

  /** Three numbers submitted; the first is found paid, the second found
      pending, the third matches no invoice. */
  lemma ReconcileExample(items: seq<Element>, a: InvoiceSummary, b: InvoiceSummary, c: string)
    requires AllText(items) && CleanNumbers(Map(items, TextOrEmpty)) == [a.invoiceNumber, b.invoiceNumber, c]
    requires a.paymentStatus == Paid && b.paymentStatus == Pending
    requires c != a.invoiceNumber && c != b.invoiceNumber
    ensures Reconcile(ArrayOf(items), [a, b]) == Reconciled([b], [a], [c], b.totalAmount)
  {
    NotFoundThird(CleanNumbers(Map(items, TextOrEmpty)), a, b, c);
    SplitPaidAndPending(a, b);
  }

  /** POST /api/invoices/batch-pay input check: a missing, non-array or empty
      `invoiceIds` is rejected (400) before the repository is called. */
  function ValidateBatchPay(invoiceIds: BodyField<int>): (r: Option<seq<int>>)
    ensures r.None? <==> !invoiceIds.ArrayOf? || invoiceIds.items == []
    ensures r.Some? ==> r.value == invoiceIds.items && |r.value| > 0
  {
    match invoiceIds
    case ArrayOf(items) => if |items| == 0 then None else Some(items)
    case _ => None
  }
}
