/** Creating an invoice, settling a payment and reversing a payment keep the books sound. */
module BooksTransitions {
  import opened Sums
  import opened Receivables
  import opened BooksInvariant

  // ---------------------------------------------------------------- what every transition shares

  /** What customer `d`'s account should hold. */
  function CreditDue(d: int, payments: seq<Payment>): int {
    Sum(LiveUnallocatedOf(d), payments) + Sum(OverdraftOf(d), payments)
  }

  function TotalCreditDue(payments: seq<Payment>): int {
    Sum(LiveUnallocated(), payments) + Sum(Overdraft(), payments)
  }

  /** If invoices and payments move by what is posted on the customer's account, the accounts stay explained. */
  lemma {:induction false} PostingKeepsAccounts(b: Books, b': Books, c: int, receivables: int, credit: int)
    requires AccountsExplained(b)
    requires b'.accounts == Post(b.accounts, c, receivables, credit)
    requires forall d :: Sum(OutstandingOf(d), b'.invoices) ==
                         Sum(OutstandingOf(d), b.invoices) + (if d == c then receivables else 0)
    requires forall d :: CreditDue(d, b'.payments) == CreditDue(d, b.payments) + (if d == c then credit else 0)
    requires TotalCreditDue(b'.payments) == TotalCreditDue(b.payments) + credit
    ensures AccountsExplained(b')
  {
    PostTotals(b.accounts, c, receivables, credit);
    forall d ensures ReceivablesOf(b'.accounts, d) == Sum(OutstandingOf(d), b'.invoices) {
      PostMoves(b.accounts, c, receivables, credit, d);
    }
    forall d ensures CreditOf(b'.accounts, d) == Sum(LiveUnallocatedOf(d), b'.payments) + Sum(OverdraftOf(d), b'.payments) {
      PostMoves(b.accounts, c, receivables, credit, d);
      assert CreditDue(d, b'.payments) == CreditDue(d, b.payments) + (if d == c then credit else 0);
    }
  }

  predicate SameCustomers(b: Books, b': Books) {
    && |b.invoices| <= |b'.invoices|
    && forall j :: 0 <= j < |b.invoices| ==> b'.invoices[j].customer == b.invoices[j].customer
  }

  lemma {:induction false} PaymentStaysSound(b: Books, b': Books, p: Payment, c: int, receivables: int, credit: int)
    requires PaymentSound(b, p) && SameCustomers(b, b')
    requires b'.accounts == Post(b.accounts, c, receivables, credit) || b'.accounts == b.accounts
    ensures PaymentSound(b', p)
  {
    PostMoves(b.accounts, c, receivables, credit, p.customer);
  }

  // ---------------------------------------------------------------- create an invoice

  lemma {:induction false} CreatedInvoices(b: Books, c: int, total: int, isCredit: bool, due: int, date: int)
    requires Sound(b)
    ensures var b' := CreateInvoice(b, c, total, isCredit, due, date);
      InvoicesExplained(b') && PaymentsSound(b')
  {
    var b' := CreateInvoice(b, c, total, isCredit, due, date);
    NobodyPaid(b, |b.invoices|);
    forall k | 0 <= k < |b.payments| ensures PaymentSound(b', b'.payments[k]) {
      PaymentStaysSound(b, b', b.payments[k], c, total, 0);
    }
  }

  lemma {:induction false} CreateKeepsSound(b: Books, c: int, total: int, isCredit: bool, due: int, date: int)
    requires Sound(b)
    ensures Sound(CreateInvoice(b, c, total, isCredit, due, date))
  {
    var b' := CreateInvoice(b, c, total, isCredit, due, date);
    var inv := b'.invoices[|b.invoices|];
    CreatedInvoices(b, c, total, isCredit, due, date);
    SumAppend(Outstanding(), b.invoices, inv);
    forall d ensures Sum(OutstandingOf(d), b'.invoices) ==
                     Sum(OutstandingOf(d), b.invoices) + (if d == c && isCredit then total else 0)
    {
      SumAppend(OutstandingOf(d), b.invoices, inv);
    }
    if isCredit { PostingKeepsAccounts(b, b', c, total, 0); }
  }

  /** No payment has touched an invoice that does not exist yet. */
  lemma {:induction false} NobodyPaid(b: Books, j: nat)
    requires PaymentsSound(b) && j >= |b.invoices|
    ensures Sum(PaidOn(j), b.payments) == 0
  {
    forall k | 0 <= k < |b.payments| ensures PaidOn(j)(b.payments[k]) == 0 {
      assert PaymentSound(b, b.payments[k]);
      NothingOn(j, b.payments[k].allocations);
    }
    SumZero(PaidOn(j), b.payments);
  }

  // ---------------------------------------------------------------- settle a payment

  lemma {:induction false} PayingExplained(inv: Invoice, live: int, amount: int)
    requires inv == Explained(inv, live) && WithinTotal(inv, live) && 0 <= amount <= Max(inv.outstanding, 0)
    ensures var after := AfterPaying(inv, amount);
      after == Explained(after, live + amount) && WithinTotal(after, live + amount)
  {
  }

  lemma {:induction false} PutBackExplained(inv: Invoice, live: int, amount: int)
    requires inv == Explained(inv, live) && WithinTotal(inv, live) && 0 <= amount <= live
    ensures var after := AfterPutBack(inv, amount);
      after == Explained(after, live - amount) && WithinTotal(after, live - amount)
  {
  }

  lemma {:induction false} SettledInvoice(b: Books, c: int, amount: int, allocs: seq<Allocation>, j: nat)
    requires InvoicesExplained(b) && Applicable(b.invoices, c, allocs) && OnCustomer(b.invoices, c, allocs)
    requires j < |b.invoices|
    ensures var b' := Settle(b, c, amount, allocs);
      var live := Sum(PaidOn(j), b'.payments);
      && b'.invoices[j] == Explained(b'.invoices[j], live) && WithinTotal(b'.invoices[j], live)
      && b'.invoices[j].customer == b.invoices[j].customer
  {
    var b' := Settle(b, c, amount, allocs);
    var p := b'.payments[|b.payments|];
    SumAppend(PaidOn(j), b.payments, p);
    ApplyAllEffect(b.invoices, c, allocs, j);
    PayingExplained(b.invoices[j], Sum(PaidOn(j), b.payments), Sum(AmountOn(j), allocs));
    assert PaidOn(j)(p) == Sum(AmountOn(j), allocs);
  }

  lemma {:induction false} SettledInvoices(b: Books, c: int, amount: int, allocs: seq<Allocation>)
    requires Sound(b) && Applicable(b.invoices, c, allocs) && OnCustomer(b.invoices, c, allocs)
    ensures InvoicesExplained(Settle(b, c, amount, allocs))
    ensures SameCustomers(b, Settle(b, c, amount, allocs))
  {
    forall j: nat | j < |b.invoices| { SettledInvoice(b, c, amount, allocs, j); }
  }

  lemma {:induction false} SettledPayments(b: Books, c: int, amount: int, allocs: seq<Allocation>)
    requires PaymentsSound(b) && OnCustomer(b.invoices, c, allocs)
    requires SameCustomers(b, Settle(b, c, amount, allocs))
    ensures PaymentsSound(Settle(b, c, amount, allocs))
  {
    var b' := Settle(b, c, amount, allocs);
    var p := b'.payments[|b.payments|];
    var credit := if p.unallocated > 0 then p.unallocated else 0;
    PostMoves(b.accounts, c, -p.amountAllocated, credit, c);
    forall k | 0 <= k < |b'.payments| ensures PaymentSound(b', b'.payments[k]) {
      if k < |b.payments| { PaymentStaysSound(b, b', b.payments[k], c, -p.amountAllocated, credit); }
    }
  }

  lemma {:induction false} SettledAccounts(b: Books, c: int, amount: int, allocs: seq<Allocation>)
    requires AccountsExplained(b) && Applicable(b.invoices, c, allocs) && OnCustomer(b.invoices, c, allocs)
    ensures AccountsExplained(Settle(b, c, amount, allocs))
  {
    var b' := Settle(b, c, amount, allocs);
    var p := b'.payments[|b.payments|];
    var credit := if p.unallocated > 0 then p.unallocated else 0;
    SumAppend(LiveUnallocated(), b.payments, p);
    SumAppend(Overdraft(), b.payments, p);
    forall d
      ensures Sum(OutstandingOf(d), b'.invoices) ==
              Sum(OutstandingOf(d), b.invoices) + (if d == c then -p.amountAllocated else 0)
      ensures CreditDue(d, b'.payments) == CreditDue(d, b.payments) + (if d == c then credit else 0)
    {
      ApplyAllTotals(b.invoices, c, allocs, d);
      SumAppend(LiveUnallocatedOf(d), b.payments, p);
      SumAppend(OverdraftOf(d), b.payments, p);
    }
    PostingKeepsAccounts(b, b', c, -p.amountAllocated, credit);
  }

  lemma {:induction false} SettleKeepsSound(b: Books, c: int, amount: int, allocs: seq<Allocation>)
    requires Sound(b) && Applicable(b.invoices, c, allocs) && OnCustomer(b.invoices, c, allocs)
    ensures Sound(Settle(b, c, amount, allocs))
  {
    SettledInvoices(b, c, amount, allocs);
    SettledPayments(b, c, amount, allocs);
    SettledAccounts(b, c, amount, allocs);
    ApplyAllTotals(b.invoices, c, allocs, c);
    SumAppend(LiveUnallocated(), b.payments, Settle(b, c, amount, allocs).payments[|b.payments|]);
  }

  // ---------------------------------------------------------------- reverse a payment

  lemma {:induction false} AllocationsNonNegative(allocs: seq<Allocation>, j: nat)
    requires forall i :: 0 <= i < |allocs| ==> allocs[i].amount > 0
    ensures Sum(AmountOn(j), allocs) >= 0
    ensures Sum(AmountOn(j), allocs) == 0 <==> forall i :: 0 <= i < |allocs| ==> allocs[i].invoice != j
  {
    SumNonNegative(AmountOn(j), allocs);
    if Sum(AmountOn(j), allocs) == 0 {
      forall i | 0 <= i < |allocs| ensures allocs[i].invoice != j { assert AmountOn(j)(allocs[i]) == 0; }
    }
  }

  /** Taking one standing payment away leaves the rest, and what it put on an invoice is part of the whole. */
  lemma {:induction false} WithoutPayment(b: Books, k: nat, j: nat)
    requires PaymentsSound(b) && k < |b.payments| && !b.payments[k].cancelled
    ensures var rest := b.payments[k := b.payments[k].(cancelled := true)];
      && Sum(PaidOn(j), rest) == Sum(PaidOn(j), b.payments) - Sum(AmountOn(j), b.payments[k].allocations)
      && Sum(PaidOn(j), rest) >= 0
  {
    var rest := b.payments[k := b.payments[k].(cancelled := true)];
    SumUpdate(PaidOn(j), b.payments, k, rest[k]);
    forall i | 0 <= i < |rest| ensures PaidOn(j)(rest[i]) >= 0 {
      assert PaymentSound(b, b.payments[i]);
      AllocationsNonNegative(b.payments[i].allocations, j);
    }
    SumNonNegative(PaidOn(j), rest);
  }

  /** Every invoice a standing payment touched still has a non-negative balance. */
  lemma {:induction false} TouchedNotNegative(b: Books, k: nat)
    requires Sound(b) && k < |b.payments| && !b.payments[k].cancelled
    ensures var allocs := b.payments[k].allocations;
      && OnCustomer(b.invoices, b.payments[k].customer, allocs)
      && forall i :: 0 <= i < |allocs| ==> b.invoices[allocs[i].invoice].outstanding >= 0
  {
    assert PaymentSound(b, b.payments[k]);
    var allocs := b.payments[k].allocations;
    forall i | 0 <= i < |allocs| ensures b.invoices[allocs[i].invoice].outstanding >= 0 {
      var j := allocs[i].invoice;
      WithoutPayment(b, k, j);
      AllocationsNonNegative(allocs, j);
    }
  }

  lemma {:induction false} ReversedInvoice(b: Books, k: nat, j: nat)
    requires Sound(b) && AllocationsInRange(b) && k < |b.payments| && !b.payments[k].cancelled && j < |b.invoices|
    ensures var b' := Reverse(b, k).value;
      var live := Sum(PaidOn(j), b'.payments);
      && b'.invoices[j] == Explained(b'.invoices[j], live) && WithinTotal(b'.invoices[j], live)
      && b'.invoices[j].customer == b.invoices[j].customer
  {
    var p := b.payments[k];
    TouchedNotNegative(b, k);
    PutBackAllEffect(b.invoices, p.customer, p.allocations, j);
    WithoutPayment(b, k, j);
    PutBackExplained(b.invoices[j], Sum(PaidOn(j), b.payments), Sum(AmountOn(j), p.allocations));
  }

  lemma {:induction false} SoundInRange(b: Books)
    requires PaymentsSound(b)
    ensures AllocationsInRange(b)
  {
    forall k, i | 0 <= k < |b.payments| && 0 <= i < |b.payments[k].allocations|
      ensures b.payments[k].allocations[i].invoice < |b.invoices|
    {
      assert PaymentSound(b, b.payments[k]);
    }
  }

  lemma {:induction false} ReversedPayments(b: Books, k: nat)
    requires Sound(b) && AllocationsInRange(b) && Reverse(b, k).Ok?
    ensures var b' := Reverse(b, k).value;
      InvoicesExplained(b') && PaymentsSound(b')
  {
    var b' := Reverse(b, k).value;
    var p := b.payments[k];
    assert PaymentSound(b, p);
    forall j: nat | j < |b.invoices| { ReversedInvoice(b, k, j); }
    assert SameCustomers(b, b');
    forall i | 0 <= i < |b'.payments| ensures PaymentSound(b', b'.payments[i]) {
      assert PaymentSound(b, b.payments[i]);
      PaymentStaysSound(b, b', b.payments[i], p.customer, p.amountAllocated, -p.unallocated);
    }
  }

  /** What the customers owe moves by what was allocated, and what they have in credit by what was not. */
  lemma {:induction false} ReversedSums(b: Books, k: nat, d: int)
    requires AllocationsInRange(b) && Reverse(b, k).Ok? && b.payments[k].amountAllocated == Sum(Amount(), b.payments[k].allocations)
    requires OnCustomer(b.invoices, b.payments[k].customer, b.payments[k].allocations)
    ensures var b', p := Reverse(b, k).value, b.payments[k];
      && Sum(OutstandingOf(d), b'.invoices) ==
           Sum(OutstandingOf(d), b.invoices) + (if d == p.customer then p.amountAllocated else 0)
      && CreditDue(d, b'.payments) == CreditDue(d, b.payments) + (if d == p.customer then -p.unallocated else 0)
      && TotalCreditDue(b'.payments) == TotalCreditDue(b.payments) - p.unallocated
  {
    hide Post, PutBackAll, AccountIndex;
    var p := b.payments[k];
    var gone := p.(cancelled := true);
    PutBackAllTotals(b.invoices, p.customer, p.allocations, d);
    SumUpdate(LiveUnallocatedOf(d), b.payments, k, gone);
    SumUpdate(OverdraftOf(d), b.payments, k, gone);
    SumUpdate(LiveUnallocated(), b.payments, k, gone);
    SumUpdate(Overdraft(), b.payments, k, gone);
  }

  lemma {:induction false} ReversedAccounts(b: Books, k: nat)
    requires AccountsExplained(b) && AllocationsInRange(b) && Reverse(b, k).Ok?
    requires PaymentSound(b, b.payments[k]) && OnCustomer(b.invoices, b.payments[k].customer, b.payments[k].allocations)
    ensures AccountsExplained(Reverse(b, k).value)
  {
    var b', p := Reverse(b, k).value, b.payments[k];
    hide AccountsExplained, OnCustomer, Post, PutBackAll, CreditDue, TotalCreditDue;
    ReversedSums(b, k, p.customer);
    forall d
      ensures Sum(OutstandingOf(d), b'.invoices) ==
              Sum(OutstandingOf(d), b.invoices) + (if d == p.customer then p.amountAllocated else 0)
      ensures CreditDue(d, b'.payments) == CreditDue(d, b.payments) + (if d == p.customer then -p.unallocated else 0)
    {
      ReversedSums(b, k, d);
    }
    PostingKeepsAccounts(b, b', p.customer, p.amountAllocated, -p.unallocated);
  }

  lemma {:induction false} ReverseKeepsSound(b: Books, k: nat)
    requires Sound(b) && AllocationsInRange(b) && Reverse(b, k).Ok?
    ensures Sound(Reverse(b, k).value)
  {
    var p := b.payments[k];
    assert PaymentSound(b, p);
    TouchedNotNegative(b, k);
    ReversedPayments(b, k);
    ReversedAccounts(b, k);
    PutBackAllTotals(b.invoices, p.customer, p.allocations, p.customer);
    SumUpdate(LiveUnallocated(), b.payments, k, p.(cancelled := true));
  }
}
