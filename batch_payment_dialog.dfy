/** The batch payment dialog: the pasted invoice numbers are split and
    cleaned and sent for reconciliation; the payable invoices found are all
    selected, the user toggles the selection, the total follows it, and the
    selected ids are submitted for payment. */
module BatchPaymentDialog {
  import opened Seqs
  import opened JsStrings
  import opened InvoiceRoutes

  /** The separators of the pasted list: line feed and comma. */
  predicate IsSeparator(c: char) {
    c == '\n' || c == ','
  }

  predicate NoSeparator(s: string) {
    forall i :: 0 <= i < |s| ==> !IsSeparator(s[i])
  }

  /** The length of the longest prefix of `s` holding no separator. */
  function PieceLength(s: string): (k: nat)
    ensures k <= |s| && NoSeparator(s[..k])
    ensures k < |s| ==> IsSeparator(s[k])
  {
    if s == [] || IsSeparator(s[0]) then 0
    else
      var k := 1 + PieceLength(s[1..]);
      assert s[..k] == [s[0]] + s[1..][..k - 1];
      k
  }

  /** The length of the longest prefix of `s` made of separators only. */
  function RunLength(s: string): (k: nat)
    ensures k <= |s| && forall i :: 0 <= i < k ==> IsSeparator(s[i])
    ensures k < |s| ==> !IsSeparator(s[k])
  {
    if s == [] || !IsSeparator(s[0]) then 0 else 1 + RunLength(s[1..])
  }

  function Concat(pieces: seq<string>): string {
    if pieces == [] then [] else pieces[0] + Concat(pieces[1..])
  }

  lemma {:induction false} ConcatCons(piece: string, pieces: seq<string>)
    ensures Concat([piece] + pieces) == piece + Concat(pieces)
  {
    assert ([piece] + pieces)[1..] == pieces;
  }

  /** `s` with every separator removed. */
  function WithoutSeparators(s: string): string {
    if s == [] then [] else (if IsSeparator(s[0]) then [] else [s[0]]) + WithoutSeparators(s[1..])
  }

  lemma {:induction false} WithoutSeparatorsAppend(a: string, b: string)
    ensures WithoutSeparators(a + b) == WithoutSeparators(a) + WithoutSeparators(b)
  {
    if a != [] {
      assert (a + b)[1..] == a[1..] + b;
      WithoutSeparatorsAppend(a[1..], b);
    } else {
      assert a + b == b;
    }
  }

  lemma {:induction false} WithoutSeparatorsKeepsPiece(piece: string)
    requires NoSeparator(piece)
    ensures WithoutSeparators(piece) == piece
  {
    if piece != [] {
      WithoutSeparatorsKeepsPiece(piece[1..]);
    }
  }

  lemma {:induction false} WithoutSeparatorsDropsRun(run: string)
    requires forall i :: 0 <= i < |run| ==> IsSeparator(run[i])
    ensures WithoutSeparators(run) == []
  {
    if run != [] {
      WithoutSeparatorsDropsRun(run[1..]);
    }
  }

  /** `s.split(/[\n,]+/)`: the pieces between maximal runs of separators; a
      leading or trailing run gives an empty first or last piece. */
  function SplitOnSeparators(s: string): (r: seq<string>)
    ensures |r| >= 1
    ensures forall i :: 0 <= i < |r| ==> NoSeparator(r[i])
    decreases |s|
  {
    var k := PieceLength(s);
    if k == |s| then [s]
    else
      var rest := s[k..];
      var e := RunLength(rest);
      [s[..k]] + SplitOnSeparators(rest[e..])
  }

  /** Text without separators is a single piece. */
  lemma SplitWithoutSeparators(s: string)
    requires NoSeparator(s)
    ensures SplitOnSeparators(s) == [s]
  {
    assert PieceLength(s) == |s|;
  }

  /** A cut falls exactly at a maximal separator run: a separator-free piece,
      then a non-empty run, then text not starting with a separator splits into
      that piece followed by the pieces of the text. */
  lemma {:induction false} SplitAtRun(piece: string, run: string, rest: string)
    requires NoSeparator(piece)
    requires run != [] && forall i :: 0 <= i < |run| ==> IsSeparator(run[i])
    requires rest == [] || !IsSeparator(rest[0])
    ensures SplitOnSeparators(piece + run + rest) == [piece] + SplitOnSeparators(rest)
  {
    var s := piece + run + rest;
    var k := PieceLength(s);
    assert forall i :: 0 <= i < |piece| ==> s[i] == piece[i];
    assert IsSeparator(s[|piece|]);
    assert k == |piece| && s[..k] == piece;
    var after := s[k..];
    assert after == run + rest;
    var e := RunLength(after);
    assert forall i :: 0 <= i < |run| ==> after[i] == run[i];
    assert |run| < |after| ==> after[|run|] == rest[0];
    assert e == |run| && after[e..] == rest;
  }

  /** No piece is empty except a first or last one produced by a leading or
      trailing separator. */
  lemma {:induction false} InnerPiecesAreNonEmpty(s: string)
    ensures var r := SplitOnSeparators(s);
            (forall i :: 0 < i < |r| - 1 ==> r[i] != "")
            && (s != [] && !IsSeparator(s[0]) ==> r[0] != "")
    decreases |s|
  {
    var k := PieceLength(s);
    if k < |s| {
      var rest := s[k..];
      var e := RunLength(rest);
      var tail := SplitOnSeparators(rest[e..]);
      InnerPiecesAreNonEmpty(rest[e..]);
      assert SplitOnSeparators(s) == [s[..k]] + tail;
      if |tail| > 1 {
        assert rest[e..] != [];
      }
    }
  }

  /** Removing the separators from a piece, its separator run and the rest
      leaves the piece followed by the rest without separators. */
  lemma {:induction false} WithoutSeparatorsStep(piece: string, run: string, rest: string)
    requires NoSeparator(piece)
    requires forall i :: 0 <= i < |run| ==> IsSeparator(run[i])
    ensures WithoutSeparators(piece + (run + rest)) == piece + WithoutSeparators(rest)
  {
    WithoutSeparatorsAppend(piece, run + rest);
    WithoutSeparatorsAppend(run, rest);
    WithoutSeparatorsKeepsPiece(piece);
    WithoutSeparatorsDropsRun(run);
  }

  /** The pieces hold exactly the non-separator characters of `s`, in order. */
  lemma {:induction false} PiecesKeepText(s: string)
    ensures Concat(SplitOnSeparators(s)) == WithoutSeparators(s)
    decreases |s|
  {
    var k := PieceLength(s);
    if k == |s| {
      WithoutSeparatorsKeepsPiece(s);
      assert Concat([s]) == s + Concat([]);
    } else {
      var rest := s[k..];
      var e := RunLength(rest);
      var piece, run, after := s[..k], rest[..e], rest[e..];
      PiecesKeepText(after);
      assert s == piece + (run + after) by {
        assert rest == run + after;
      }
      calc {
        Concat(SplitOnSeparators(s));
        Concat([piece] + SplitOnSeparators(after));
        { ConcatCons(piece, SplitOnSeparators(after)); }
        piece + Concat(SplitOnSeparators(after));
        piece + WithoutSeparators(after);
        { WithoutSeparatorsStep(piece, run, after); }
        WithoutSeparators(piece + (run + after));
      }
    }
  }

  /** Trimming a string without separators leaves none. */
  lemma {:induction false} TrimKeepsNoSeparator(s: string)
    requires NoSeparator(s)
    ensures NoSeparator(Trim(s))
  {
    var t := TrimStart(s);
    var n := TrimEnd(t);
    assert t == s[|s| - |t|..];
    assert n == t[..|n|];
    forall j | 0 <= j < |n|
      ensures !IsSeparator(n[j])
    {
      assert n[j] == t[j] == s[|s| - |t| + j];
    }
  }

  /** The numbers the dialog sends: the pieces, trimmed, without empty ones. */
  function ParseNumbers(input: string): (r: seq<string>)
    ensures forall n :: n in r ==> n != "" && NoSeparator(n) && Trim(n) == n
  {
    var pieces := SplitOnSeparators(input);
    var r := CleanNumbers(pieces);
    forall n | n in r
      ensures NoSeparator(n) && Trim(n) == n
    {
      var i :| 0 <= i < |pieces| && n == Trim(pieces[i]);
      TrimIdempotent(pieces[i]);
      TrimKeepsNoSeparator(pieces[i]);
    }
    r
  }

  /** Input without separators gives its trimmed text, unless that is blank. */
  lemma ParseNumbersOne(s: string)
    requires NoSeparator(s)
    ensures ParseNumbers(s) == if Trim(s) == [] then [] else [Trim(s)]
  {
    SplitWithoutSeparators(s);
    CleanNumbersOne(s);
  }

  /** Each separator-free segment contributes its trimmed text, unless blank,
      ahead of the numbers of the rest of the input. */
  lemma ParseNumbersAtRun(piece: string, run: string, rest: string)
    requires NoSeparator(piece)
    requires run != [] && forall i :: 0 <= i < |run| ==> IsSeparator(run[i])
    requires rest == [] || !IsSeparator(rest[0])
    ensures ParseNumbers(piece + run + rest)
            == (if Trim(piece) == [] then [] else [Trim(piece)]) + ParseNumbers(rest)
  {
    SplitAtRun(piece, run, rest);
    CleanNumbersAppend([piece], SplitOnSeparators(rest));
    CleanNumbersOne(piece);
  }

  /** Cleaning leaves a list of trimmed, non-empty numbers as it is. */
  lemma {:induction false} CleanNumbersKeepsClean(numbers: seq<string>)
    requires forall n :: n in numbers ==> n != "" && Trim(n) == n
    ensures CleanNumbers(numbers) == numbers
  {
    if numbers != [] {
      assert numbers == [numbers[0]] + numbers[1..];
      CleanNumbersAppend([numbers[0]], numbers[1..]);
      CleanNumbersOne(numbers[0]);
      CleanNumbersKeepsClean(numbers[1..]);
    }
  }

  /** The server's own cleaning of the numbers the dialog sends changes nothing. */
  lemma ServerCleaningIsIdentity(input: string)
    ensures CleanNumbers(ParseNumbers(input)) == ParseNumbers(input)
  {
    CleanNumbersKeepsClean(ParseNumbers(input));
  }

  datatype Step = InputStep | VerifyStep

  function IdOf(inv: InvoiceSummary): int {
    inv.id
  }

  function IsSelectedIn(selected: set<int>): InvoiceSummary -> bool {
    (inv: InvoiceSummary) => inv.id in selected
  }

  /** The amount an invoice adds to the total: its total when selected, else 0. */
  function SelectedAmount(selected: set<int>): InvoiceSummary -> int {
    Masked(IsSelectedIn(selected), TotalOf)
  }

  /** The dialog's state. */
  class BatchPaymentDialogComponent {
    var inputNumbers: string
    var selectedSupplierId: Option<int>
    var foundInvoices: seq<InvoiceSummary>
    var alreadyPaidInvoices: seq<InvoiceSummary>
    var notFoundNumbers: seq<string>
    var totalAmount: int
    var step: Step
    var isProcessing: bool
    var selectedInvoiceIds: set<int>

    constructor ()
      ensures inputNumbers == "" && selectedSupplierId.None?
      ensures foundInvoices == [] && alreadyPaidInvoices == [] && notFoundNumbers == []
      ensures totalAmount == 0 && step == InputStep && !isProcessing && selectedInvoiceIds == {}
    {
      inputNumbers := "";
      selectedSupplierId := None;
      foundInvoices := [];
      alreadyPaidInvoices := [];
      notFoundNumbers := [];
      totalAmount := 0;
      step := InputStep;
      isProcessing := false;
      selectedInvoiceIds := {};
    }

    /** onVerify: blank input does nothing; otherwise the dialog is busy and the
        parsed numbers are the reconcile request. */
    method OnVerify() returns (request: Option<seq<string>>)
      modifies this`isProcessing
      ensures Trim(inputNumbers) == "" ==> request.None? && isProcessing == old(isProcessing)
      ensures Trim(inputNumbers) != "" ==> request == Some(ParseNumbers(inputNumbers)) && isProcessing
    {
      if Trim(inputNumbers) == "" {
        return None;
      }
      isProcessing := true;
      request := Some(ParseNumbers(inputNumbers));
    }

    /** The reconcile result arrives: it is shown, every payable invoice is
        selected, and the dialog moves to the verify step. */
    method OnVerifyResult(payable: seq<InvoiceSummary>, alreadyPaid: seq<InvoiceSummary>,
                          notFound: seq<string>, resultTotal: int)
      modifies this`foundInvoices, this`alreadyPaidInvoices, this`notFoundNumbers, this`totalAmount
      modifies this`selectedInvoiceIds, this`step, this`isProcessing
      ensures foundInvoices == payable && alreadyPaidInvoices == alreadyPaid
      ensures notFoundNumbers == notFound && totalAmount == resultTotal
      ensures selectedInvoiceIds == old(selectedInvoiceIds) + (set inv | inv in payable :: inv.id)
      ensures step == VerifyStep && !isProcessing
    {
      foundInvoices := payable;
      alreadyPaidInvoices := alreadyPaid;
      notFoundNumbers := notFound;
      totalAmount := resultTotal;
      for i := 0 to |foundInvoices|
        invariant foundInvoices == payable && alreadyPaidInvoices == alreadyPaid
        invariant notFoundNumbers == notFound && totalAmount == resultTotal
        invariant selectedInvoiceIds == old(selectedInvoiceIds) + (set j | 0 <= j < i :: foundInvoices[j].id)
      {
        selectedInvoiceIds := selectedInvoiceIds + {foundInvoices[i].id};
      }
      assert (set j | 0 <= j < |payable| :: payable[j].id) == (set inv | inv in payable :: inv.id) by {
        forall inv | inv in payable
          ensures inv.id in (set j | 0 <= j < |payable| :: payable[j].id)
        {
          var j :| 0 <= j < |payable| && payable[j] == inv;
        }
      }
      step := VerifyStep;
      isProcessing := false;
    }

    /** The reconcile request failed: only the busy flag is reset. */
    method OnVerifyError()
      modifies this`isProcessing
      ensures !isProcessing
    {
      isProcessing := false;
    }

    /** onBack: back to the input step with the results and the selection
        cleared; the total is left as it was. */
    method OnBack()
      modifies this`step, this`foundInvoices, this`alreadyPaidInvoices, this`notFoundNumbers
      modifies this`selectedInvoiceIds
      ensures step == InputStep
      ensures foundInvoices == [] && alreadyPaidInvoices == [] && notFoundNumbers == []
      ensures selectedInvoiceIds == {}
    {
      step := InputStep;
      foundInvoices := [];
      alreadyPaidInvoices := [];
      notFoundNumbers := [];
      selectedInvoiceIds := {};
    }

    /** recalculateTotal: the sum of the totals of the found invoices whose id
        is selected. */
    method RecalculateTotal()
      modifies this`totalAmount
      ensures totalAmount == Sum(foundInvoices, SelectedAmount(selectedInvoiceIds))
    {
      totalAmount := Sum(Filter(foundInvoices, IsSelectedIn(selectedInvoiceIds)), TotalOf);
      SumFilter(foundInvoices, IsSelectedIn(selectedInvoiceIds), TotalOf);
    }

    /** toggleSelection: flips the id's membership and recomputes the total. */
    method ToggleSelection(id: int)
      modifies this`selectedInvoiceIds, this`totalAmount
      ensures selectedInvoiceIds == Toggle(old(selectedInvoiceIds), id)
      ensures totalAmount == Sum(foundInvoices, SelectedAmount(selectedInvoiceIds))
    {
      if id in selectedInvoiceIds {
        selectedInvoiceIds := selectedInvoiceIds - {id};
      } else {
        selectedInvoiceIds := selectedInvoiceIds + {id};
      }
      RecalculateTotal();
    }

    /** onPay: with nothing selected nothing happens; otherwise the dialog is
        busy and the selected ids, each once, are the batch-pay request. */
    method OnPay() returns (request: Option<seq<int>>)
      modifies this`isProcessing
      ensures selectedInvoiceIds == {} ==> request.None? && isProcessing == old(isProcessing)
      ensures selectedInvoiceIds != {} ==>
                && request.Some? && isProcessing
                && |request.value| == |selectedInvoiceIds|
                && forall id :: id in request.value <==> id in selectedInvoiceIds
    {
      if |selectedInvoiceIds| == 0 {
        return None;
      }
      isProcessing := true;
      var ids := ArrayFrom(selectedInvoiceIds);
      request := Some(ids);
    }

    /** The batch-pay request failed: the busy flag is reset and the dialog stays
        open with its selection. */
    method OnPayError()
      modifies this`isProcessing
      ensures !isProcessing
    {
      isProcessing := false;
    }
  }

  /** A set of ids that is not empty has an element. */
  lemma {:induction false} NonEmptyHasId(s: set<int>)
    requires s != {}
    ensures exists id :: id in s
  {
    if forall id :: id !in s {
      assert false;
    }
  }

  /** Array.from(set): every element of the set exactly once. */
  method ArrayFrom(selected: set<int>) returns (ids: seq<int>)
    ensures forall id :: id in ids <==> id in selected
    ensures |ids| == |selected|
  {
    ids := [];
    var remaining := selected;
    while remaining != {}
      invariant remaining <= selected
      invariant forall id :: id in ids <==> id in selected && id !in remaining
      invariant |ids| + |remaining| == |selected|
      decreases remaining
    {
      NonEmptyHasId(remaining);
      var id :| id in remaining;
      ids := ids + [id];
      remaining := remaining - {id};
    }
  }

  /** The default selection, every payable invoice, gives back the server's total. */
  lemma {:induction false} FullSelectionTotal(payable: seq<InvoiceSummary>, selected: set<int>)
    requires forall inv :: inv in payable ==> inv.id in selected
    ensures Sum(payable, SelectedAmount(selected)) == Sum(payable, TotalOf)
  {
    if payable != [] {
      assert payable[0] in payable;
      FullSelectionTotal(payable[1..], selected);
    }
  }

  /** With no id selected the total is 0. */
  lemma {:induction false} EmptySelectionTotal(found: seq<InvoiceSummary>)
    ensures Sum(found, SelectedAmount({})) == 0
  {
    if found != [] {
      EmptySelectionTotal(found[1..]);
    }
  }
}
