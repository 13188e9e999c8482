/** What the three transitions accept and what they write, in the columns of the tables. */
module BooksLaws {
  import opened Sums
  import opened Receivables
  import opened BooksInvariant
  import opened BooksTransitions
  import opened FifoAllocation
  import opened BooksRuns

  // ---------------------------------------------------------------- what is accepted

  /** Explicit requests are accepted exactly if each names an existing invoice of the customer, settled or not. */
  lemma {:induction false} ExplicitAccepted(invs: seq<Invoice>, c: int, available: int, requests: seq<Request>)
    ensures ExplicitAllocs(invs, c, available, requests).Ok? <==>
      forall i :: 0 <= i < |requests| ==> requests[i].invoice < |invs| && invs[requests[i].invoice].customer == c
    decreases requests
  {
    if requests != [] {
      var j, rest := requests[0].invoice, requests[1..];
      assert forall i :: 0 <= i < |rest| ==> rest[i] == requests[i + 1];
      assert forall i :: 1 <= i < |requests| ==> requests[i] == rest[i - 1];
      if j < |invs| && invs[j].customer == c {
        var amount := Granted(invs[j], requests[0].amount, available);
        ExplicitAccepted(if amount <= 0 then invs else invs[j := PayDown(invs[j], amount)], c, available, rest);
      }
    }
  }

  /** The first request that is not acceptable decides on the error. */
  lemma {:induction false} ExplicitRefused(invs: seq<Invoice>, c: int, available: int, requests: seq<Request>, k: nat)
    requires k < |requests|
    requires forall i :: 0 <= i < k ==> requests[i].invoice < |invs| && invs[requests[i].invoice].customer == c
    requires requests[k].invoice >= |invs| || invs[requests[k].invoice].customer != c
    ensures ExplicitAllocs(invs, c, available, requests) ==
      Err(if requests[k].invoice >= |invs| then InvoiceNotFound else ForeignInvoice)
    decreases requests
  {
    if k > 0 {
      var j, rest := requests[0].invoice, requests[1..];
      assert forall i :: 0 <= i < |rest| ==> rest[i] == requests[i + 1];
      var amount := Granted(invs[j], requests[0].amount, available);
      ExplicitRefused(if amount <= 0 then invs else invs[j := PayDown(invs[j], amount)], c, available, rest, k - 1);
    }
  }

  /** A payment is accepted exactly if its requests are; one without requests always is. */
  lemma {:induction false} PayAccepted(b: Books, c: int, amount: int, requests: seq<Request>)
    ensures Pay(b, c, amount, requests).Ok? <==>
      forall i :: 0 <= i < |requests| ==>
        requests[i].invoice < |b.invoices| && b.invoices[requests[i].invoice].customer == c
  {
    if requests != [] { ExplicitAccepted(b.invoices, c, amount, requests); }
  }

  lemma {:induction false} PayRefused(b: Books, c: int, amount: int, requests: seq<Request>, k: nat)
    requires k < |requests|
    requires forall i :: 0 <= i < k ==>
      requests[i].invoice < |b.invoices| && b.invoices[requests[i].invoice].customer == c
    requires requests[k].invoice >= |b.invoices| || b.invoices[requests[k].invoice].customer != c
    ensures Pay(b, c, amount, requests) ==
      Err(if requests[k].invoice >= |b.invoices| then InvoiceNotFound else ForeignInvoice)
  {
    ExplicitRefused(b.invoices, c, amount, requests, k);
  }

  // ---------------------------------------------------------------- what is written

  /** The new row, and what a credit sale moves: the receivables of its customer and the control balance. */
  lemma {:induction false} CreateWrites(b: Books, c: int, total: int, isCredit: bool, due: int, date: int, d: int)
    ensures var b' := CreateInvoice(b, c, total, isCredit, due, date);
      && |b'.invoices| == |b.invoices| + 1 && b'.invoices[..|b.invoices|] == b.invoices && b'.payments == b.payments
      && var inv := b'.invoices[|b.invoices|];
      && inv.customer == c && inv.isCredit == isCredit && inv.total == total && inv.dueDate == due && inv.invoiceDate == date
      && inv.amountPaid + inv.outstanding == total
      && (if isCredit then inv.amountPaid == 0 && inv.status == Sent else inv.outstanding == 0 && inv.status == Paid)
      && b'.glAr == b.glAr + (if isCredit then total else 0)
      && ReceivablesOf(b'.accounts, d) == ReceivablesOf(b.accounts, d) + (if isCredit && d == c then total else 0)
      && CreditOf(b'.accounts, d) == CreditOf(b.accounts, d)
  {
    if isCredit { PostMoves(b.accounts, c, total, 0, d); }
  }

  predicate SameTerm(a: Invoice, b: Invoice) {
    a.customer == b.customer && a.isCredit == b.isCredit && a.total == b.total
    && a.dueDate == b.dueDate && a.invoiceDate == b.invoiceDate
  }

  /** The new payment, and what it moves. The terms of the invoices and all earlier payments stay. */
  lemma {:induction false} PayWrites(b: Books, c: int, amount: int, requests: seq<Request>, d: int)
    requires Pay(b, c, amount, requests).Ok?
    ensures var b' := Pay(b, c, amount, requests).value;
      && |b'.payments| == |b.payments| + 1 && b'.payments[..|b.payments|] == b.payments
      && |b'.invoices| == |b.invoices|
      && (forall j :: 0 <= j < |b.invoices| ==> SameTerm(b'.invoices[j], b.invoices[j]))
      && var p := b'.payments[|b.payments|];
      && p.customer == c && p.amount == amount && !p.cancelled
      && b'.glAr == b.glAr - amount
      && ReceivablesOf(b'.accounts, d) == ReceivablesOf(b.accounts, d) - (if d == c then p.amountAllocated else 0)
      && CreditOf(b'.accounts, d) ==
           CreditOf(b.accounts, d) + (if d == c && p.unallocated > 0 then p.unallocated else 0)
  {
    hide ExplicitAllocs, AutoAllocs, OpenQueue;
    var allocs := Allocs(b.invoices, c, amount, requests).value;
    var used := Sum(Amount(), allocs);
    PostMoves(b.accounts, c, -used, if amount - used > 0 then amount - used else 0, d);
    ApplyKeepsTerms(b.invoices, allocs);
  }

  lemma {:induction false} ApplyKeepsTerms(invs: seq<Invoice>, allocs: seq<Allocation>)
    requires forall i :: 0 <= i < |allocs| ==> allocs[i].invoice < |invs|
    ensures forall j :: 0 <= j < |invs| ==> SameTerm(ApplyAll(invs, allocs)[j], invs[j])
    decreases allocs
  {
    if allocs != [] {
      ApplyKeepsTerms(invs[allocs[0].invoice := PayDown(invs[allocs[0].invoice], allocs[0].amount)], allocs[1..]);
    }
  }

  lemma {:induction false} PutBackKeepsTerms(invs: seq<Invoice>, allocs: seq<Allocation>)
    requires forall i :: 0 <= i < |allocs| ==> allocs[i].invoice < |invs|
    ensures forall j :: 0 <= j < |invs| ==> SameTerm(PutBackAll(invs, allocs)[j], invs[j])
    decreases allocs
  {
    if allocs != [] {
      PutBackKeepsTerms(invs[allocs[0].invoice := PutBack(invs[allocs[0].invoice], allocs[0].amount)], allocs[1..]);
    }
  }

  /** A reversal is accepted exactly if the payment exists and stands. */
  lemma {:induction false} ReverseAccepted(b: Books, k: nat)
    requires AllocationsInRange(b)
    ensures Reverse(b, k).Ok? <==> k < |b.payments| && !b.payments[k].cancelled
    ensures Reverse(b, k).Err? ==>
      Reverse(b, k).error == if k >= |b.payments| then PaymentNotFound else AlreadyCancelled
  {
    hide PutBackAll, Post, AccountIndex;
  }

  /** It cancels that payment and no other, keeps the invoices' terms, and gives the control account its money back. */
  lemma {:induction false} ReverseWrites(b: Books, k: nat)
    requires AllocationsInRange(b) && Reverse(b, k).Ok?
    ensures var b', p := Reverse(b, k).value, b.payments[k];
      && b'.payments == b.payments[k := p.(cancelled := true)]
      && |b'.invoices| == |b.invoices|
      && (forall j :: 0 <= j < |b.invoices| ==> SameTerm(b'.invoices[j], b.invoices[j]))
      && b'.glAr == b.glAr + p.amount
  {
    PutBackKeepsTerms(b.invoices, b.payments[k].allocations);
  }

  /** And it takes back what the payment moved on its customer's account, and on no other. */
  lemma {:induction false} ReversePosts(b: Books, k: nat, d: int)
    requires AllocationsInRange(b) && Reverse(b, k).Ok? && AccountIndex(b.accounts, b.payments[k].customer) < |b.accounts|
    ensures var b', p := Reverse(b, k).value, b.payments[k];
      && ReceivablesOf(b'.accounts, d) == ReceivablesOf(b.accounts, d) + (if d == p.customer then p.amountAllocated else 0)
      && CreditOf(b'.accounts, d) == CreditOf(b.accounts, d) - (if d == p.customer then p.unallocated else 0)
  {
    var p := b.payments[k];
    PostMoves(b.accounts, p.customer, p.amountAllocated, -p.unallocated, d);
  }

  // ---------------------------------------------------------------- the state of an invoice

  /**
   * In sound books an invoice's columns agree: what is paid and what is outstanding add up to the total, and the status
   * follows from them. Nothing is ever allocated to a cash sale.
   */
  lemma {:induction false} InvoiceColumns(b: Books, j: nat)
    requires Sound(b) && j < |b.invoices|
    ensures var inv := b.invoices[j];
      && inv.amountPaid + inv.outstanding == inv.total
      && (inv.isCredit ==>
            && inv.amountPaid == Sum(PaidOn(j), b.payments)
            && (inv.status == Sent <==> inv.amountPaid == 0)
            && (inv.status == PartiallyPaid <==> inv.amountPaid > 0 && inv.outstanding > 0)
            && (inv.status == Paid <==> inv.amountPaid > 0 && inv.outstanding == 0))
      && (!inv.isCredit ==> inv.outstanding == 0 && inv.status == Paid && Sum(PaidOn(j), b.payments) == 0)
  {
  }

  // ---------------------------------------------------------------- steps of a run

  predicate Acceptable(b: Books, c: int, requests: seq<Request>) {
    forall i :: 0 <= i < |requests| ==> requests[i].invoice < |b.invoices| && b.invoices[requests[i].invoice].customer == c
  }

  /** A step of a run does what it is asked to, or nothing. */
  lemma {:induction false} StepTakes(b: Books, op: Operation)
    requires Sound(b)
    ensures var after := Step(b, op);
      match op
      case CreateOp(c, total, isCredit, due, date) =>
        after.payments == b.payments && |after.invoices| == |b.invoices| + 1
        && after.invoices[|b.invoices|].customer == c && after.invoices[|b.invoices|].total == total
        && after.invoices[|b.invoices|].dueDate == due && after.invoices[|b.invoices|].invoiceDate == date
        && after.invoices[|b.invoices|].isCredit == isCredit
      case PayOp(c, amount, requests) =>
        if Acceptable(b, c, requests)
        then |after.payments| == |b.payments| + 1 && after.payments[|b.payments|].customer == c
             && after.payments[|b.payments|].amount == amount && after.glAr == b.glAr - amount
        else after == b
      case ReverseOp(k) =>
        if k < |b.payments| && !b.payments[k].cancelled
        then |after.payments| == |b.payments| && after.payments[k].cancelled && after.glAr == b.glAr + b.payments[k].amount
        else after == b
  {
    SoundInRange(b);
    match op
    case CreateOp(c, total, isCredit, due, date) => CreateWrites(b, c, total, isCredit, due, date, c);
    case PayOp(c, amount, requests) =>
      PayAccepted(b, c, amount, requests);
      if Pay(b, c, amount, requests).Ok? { PayWrites(b, c, amount, requests, c); }
    case ReverseOp(k) =>
      ReverseAccepted(b, k);
      if Reverse(b, k).Ok? { ReverseWrites(b, k); }
  }
}
