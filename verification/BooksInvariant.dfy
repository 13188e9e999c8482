/**
 * What every reachable state of the receivables books satisfies, with no restriction on the
 * amounts or the requests that were processed.
 */
module BooksInvariant {
  import opened Sums
  import opened Receivables

  /** The invoice as the allocations of the payments that still stand, worth `live` in all, determine it. */
  function Explained(inv: Invoice, live: int): Invoice {
    if !inv.isCredit then inv.(amountPaid := inv.total, outstanding := 0, status := Paid)
    else inv.(amountPaid := live, outstanding := inv.total - live,
              status := if live == 0 then Sent else if live < inv.total then PartiallyPaid else Paid)
  }

  /** Money stands on credit invoices only, and never more than the invoice is worth. */
  predicate WithinTotal(inv: Invoice, live: int) {
    0 <= live && (live > 0 ==> inv.isCredit && live <= inv.total)
  }

  ghost predicate InvoicesExplained(b: Books) {
    forall j: nat :: j < |b.invoices| ==>
      var live := Sum(PaidOn(j), b.payments);
      b.invoices[j] == Explained(b.invoices[j], live) && WithinTotal(b.invoices[j], live)
  }

  predicate PaymentSound(b: Books, p: Payment) {
    && p.amountAllocated == Sum(Amount(), p.allocations)
    && p.amount == p.amountAllocated + p.unallocated
    && AccountIndex(b.accounts, p.customer) < |b.accounts|
    && forall i :: 0 <= i < |p.allocations| ==>
         var a := p.allocations[i];
         a.amount > 0 && a.invoice < |b.invoices| && b.invoices[a.invoice].customer == p.customer
  }

  predicate PaymentsSound(b: Books) { forall k :: 0 <= k < |b.payments| ==> PaymentSound(b, b.payments[k]) }

  predicate OneAccountEach(accounts: seq<Account>) {
    forall i :: 0 <= i < |accounts| ==> AccountIndex(accounts, accounts[i].customer) == i
  }

  /** Credit holds the unallocated money of the standing payments, plus every overdraft ever made. */
  ghost predicate AccountsExplained(b: Books) {
    && OneAccountEach(b.accounts)
    && (forall c :: ReceivablesOf(b.accounts, c) == Sum(OutstandingOf(c), b.invoices))
    && (forall c :: CreditOf(b.accounts, c) == Sum(LiveUnallocatedOf(c), b.payments) + Sum(OverdraftOf(c), b.payments))
    && Sum(Credit(), b.accounts) == Sum(LiveUnallocated(), b.payments) + Sum(Overdraft(), b.payments)
  }

  predicate ControlExplained(b: Books) {
    b.glAr == Sum(Outstanding(), b.invoices) - Sum(LiveUnallocated(), b.payments)
  }

  ghost predicate Sound(b: Books) {
    InvoicesExplained(b) && PaymentsSound(b) && AccountsExplained(b) && ControlExplained(b)
  }

  // ---------------------------------------------------------------- allocations on invoices

  /** Each allocation is positive, on one of the customer's invoices, and within its balance when it is made. */
  predicate Applicable(invs: seq<Invoice>, c: int, allocs: seq<Allocation>)
    decreases allocs
  {
    allocs == [] ||
    var a := allocs[0];
    && a.invoice < |invs| && invs[a.invoice].customer == c
    && 0 < a.amount <= invs[a.invoice].outstanding
    && Applicable(invs[a.invoice := PayDown(invs[a.invoice], a.amount)], c, allocs[1..])
  }

  predicate OnCustomer(invs: seq<Invoice>, c: int, allocs: seq<Allocation>) {
    forall i :: 0 <= i < |allocs| ==>
      allocs[i].invoice < |invs| && invs[allocs[i].invoice].customer == c && allocs[i].amount > 0
  }

  lemma {:induction false} ApplicableOnCustomer(invs: seq<Invoice>, c: int, allocs: seq<Allocation>)
    requires Applicable(invs, c, allocs)
    ensures OnCustomer(invs, c, allocs)
    decreases allocs
  {
    if allocs != [] {
      var a := allocs[0];
      var next := invs[a.invoice := PayDown(invs[a.invoice], a.amount)];
      ApplicableOnCustomer(next, c, allocs[1..]);
      forall i | 0 <= i < |allocs|
        ensures allocs[i].invoice < |invs| && invs[allocs[i].invoice].customer == c && allocs[i].amount > 0
      {
        if i > 0 { assert allocs[i] == allocs[1..][i - 1]; }
      }
    }
  }

  function AfterPaying(inv: Invoice, amount: int): Invoice { if amount == 0 then inv else PayDown(inv, amount) }

  function AfterPutBack(inv: Invoice, amount: int): Invoice { if amount == 0 then inv else PutBack(inv, amount) }

  /** A list of allocations acts on each invoice like one allocation of the sum. */
  lemma {:induction false} ApplyAllEffect(invs: seq<Invoice>, c: int, allocs: seq<Allocation>, j: nat)
    requires Applicable(invs, c, allocs) && OnCustomer(invs, c, allocs) && j < |invs|
    ensures ApplyAll(invs, allocs)[j] == AfterPaying(invs[j], Sum(AmountOn(j), allocs))
    ensures 0 <= Sum(AmountOn(j), allocs) <= Max(invs[j].outstanding, 0)
    ensures invs[j].customer != c ==> Sum(AmountOn(j), allocs) == 0
    decreases allocs
  {
    if allocs != [] {
      var a := allocs[0];
      var next := invs[a.invoice := PayDown(invs[a.invoice], a.amount)];
      ApplicableOnCustomer(next, c, allocs[1..]);
      ApplyAllEffect(next, c, allocs[1..], j);
    }
  }

  lemma {:induction false} ApplyAllTotals(invs: seq<Invoice>, c: int, allocs: seq<Allocation>, d: int)
    requires Applicable(invs, c, allocs) && OnCustomer(invs, c, allocs)
    ensures Sum(Outstanding(), ApplyAll(invs, allocs)) == Sum(Outstanding(), invs) - Sum(Amount(), allocs)
    ensures Sum(OutstandingOf(d), ApplyAll(invs, allocs)) ==
            Sum(OutstandingOf(d), invs) - (if d == c then Sum(Amount(), allocs) else 0)
    decreases allocs
  {
    if allocs != [] {
      var a := allocs[0];
      var paid := PayDown(invs[a.invoice], a.amount);
      var next := invs[a.invoice := paid];
      ApplicableOnCustomer(next, c, allocs[1..]);
      SumUpdate(Outstanding(), invs, a.invoice, paid);
      SumUpdate(OutstandingOf(d), invs, a.invoice, paid);
      ApplyAllTotals(next, c, allocs[1..], d);
    }
  }

  lemma {:induction false} PutBackAllEffect(invs: seq<Invoice>, c: int, allocs: seq<Allocation>, j: nat)
    requires OnCustomer(invs, c, allocs) && j < |invs|
    requires forall i :: 0 <= i < |allocs| ==> invs[allocs[i].invoice].outstanding >= 0
    ensures PutBackAll(invs, allocs)[j] == AfterPutBack(invs[j], Sum(AmountOn(j), allocs))
    ensures 0 <= Sum(AmountOn(j), allocs)
    decreases allocs
  {
    if allocs != [] {
      var a := allocs[0];
      var next := invs[a.invoice := PutBack(invs[a.invoice], a.amount)];
      forall i | 0 <= i < |allocs[1..]|
        ensures var x := allocs[1..][i];
          x.invoice < |next| && next[x.invoice].customer == c && x.amount > 0 && next[x.invoice].outstanding >= 0
      {
        assert allocs[1..][i] == allocs[i + 1];
      }
      PutBackAllEffect(next, c, allocs[1..], j);
    }
  }

  lemma {:induction false} PutBackAllTotals(invs: seq<Invoice>, c: int, allocs: seq<Allocation>, d: int)
    requires OnCustomer(invs, c, allocs)
    ensures Sum(Outstanding(), PutBackAll(invs, allocs)) == Sum(Outstanding(), invs) + Sum(Amount(), allocs)
    ensures Sum(OutstandingOf(d), PutBackAll(invs, allocs)) ==
            Sum(OutstandingOf(d), invs) + (if d == c then Sum(Amount(), allocs) else 0)
    decreases allocs
  {
    if allocs != [] {
      var a := allocs[0];
      var back := PutBack(invs[a.invoice], a.amount);
      var next := invs[a.invoice := back];
      forall i | 0 <= i < |allocs[1..]|
        ensures var x := allocs[1..][i];
          x.invoice < |next| && next[x.invoice].customer == c && x.amount > 0
      {
        assert allocs[1..][i] == allocs[i + 1];
      }
      SumUpdate(Outstanding(), invs, a.invoice, back);
      SumUpdate(OutstandingOf(d), invs, a.invoice, back);
      PutBackAllTotals(next, c, allocs[1..], d);
    }
  }

  lemma {:induction false} NothingOn(j: nat, allocs: seq<Allocation>)
    requires forall i :: 0 <= i < |allocs| ==> allocs[i].invoice != j
    ensures Sum(AmountOn(j), allocs) == 0
  {
    SumZero(AmountOn(j), allocs);
  }

  // ---------------------------------------------------------------- the allocators only make applicable lists

  lemma {:induction false} ExplicitApplicable(invs: seq<Invoice>, c: int, available: int, requests: seq<Request>)
    requires ExplicitAllocs(invs, c, available, requests).Ok?
    ensures Applicable(invs, c, ExplicitAllocs(invs, c, available, requests).value)
    decreases requests
  {
    if requests != [] {
      var j := requests[0].invoice;
      var amount := Granted(invs[j], requests[0].amount, available);
      if amount <= 0 {
        ExplicitApplicable(invs, c, available, requests[1..]);
      } else {
        var next := invs[j := PayDown(invs[j], amount)];
        ExplicitApplicable(next, c, available, requests[1..]);
        var all := ExplicitAllocs(invs, c, available, requests).value;
        assert all[1..] == ExplicitAllocs(next, c, available, requests[1..]).value;
      }
    }
  }

  predicate OpenFor(invs: seq<Invoice>, c: int, queue: seq<nat>) {
    && AllBelow(queue, |invs|)
    && (forall i :: 0 <= i < |queue| ==> invs[queue[i]].customer == c && invs[queue[i]].outstanding > 0)
    && forall i, j :: 0 <= i < j < |queue| ==> queue[i] != queue[j]
  }

  lemma {:induction false} AutoApplicable(invs: seq<Invoice>, c: int, queue: seq<nat>, remaining: int)
    requires OpenFor(invs, c, queue)
    ensures Applicable(invs, c, AutoAllocs(invs, queue, remaining))
    decreases queue
  {
    if queue != [] && remaining > 0 {
      var j := queue[0];
      var amount := Min(invs[j].outstanding, remaining);
      var next := invs[j := PayDown(invs[j], amount)];
      AutoApplicable(next, c, queue[1..], remaining - amount);
      var all := AutoAllocs(invs, queue, remaining);
      assert all[1..] == AutoAllocs(next, queue[1..], remaining - amount);
    }
  }

  // ---------------------------------------------------------------- accounts

  lemma {:induction false} AccountIndexIs(accounts: seq<Account>, c: int, k: nat)
    requires k < |accounts| && accounts[k].customer == c
    requires forall i :: 0 <= i < k ==> accounts[i].customer != c
    ensures AccountIndex(accounts, c) == k
  {
  }

  lemma {:induction false} SameCustomersSameIndex(a: seq<Account>, b: seq<Account>, c: int)
    requires |a| == |b| && forall i :: 0 <= i < |a| ==> a[i].customer == b[i].customer
    ensures AccountIndex(a, c) == AccountIndex(b, c)
  {
    if a != [] && a[0].customer != c { SameCustomersSameIndex(a[1..], b[1..], c); }
  }

  lemma {:induction false} WithAccountEffect(accounts: seq<Account>, c: int)
    requires OneAccountEach(accounts)
    ensures var rows := WithAccount(accounts, c);
      && OneAccountEach(rows)
      && Sum(Credit(), rows) == Sum(Credit(), accounts)
  {
    var rows := WithAccount(accounts, c);
    if AccountIndex(accounts, c) == |accounts| {
      SumAppend(Credit(), accounts, Account(c, 0, 0));
      forall i | 0 <= i < |rows| ensures AccountIndex(rows, rows[i].customer) == i {
        if i < |accounts| { assert AccountIndex(accounts, accounts[i].customer) == i; }
        AccountIndexIs(rows, rows[i].customer, i);
      }
    }
  }

  lemma {:induction false} WithAccountKeeps(accounts: seq<Account>, c: int, d: int)
    ensures var rows := WithAccount(accounts, c);
      && ReceivablesOf(rows, d) == ReceivablesOf(accounts, d)
      && CreditOf(rows, d) == CreditOf(accounts, d)
      && (AccountIndex(accounts, d) < |accounts| ==> AccountIndex(rows, d) < |rows|)
  {
    var rows := WithAccount(accounts, c);
    var k := AccountIndex(accounts, d);
    if k < |accounts| || (d == c && k < |rows|) {
      AccountIndexIs(rows, d, k);
    }
  }

  /** Posting moves one customer's balances by the amounts posted and nobody else's. */
  lemma {:induction false} PostMoves(accounts: seq<Account>, c: int, receivables: int, credit: int, d: int)
    ensures var rows := Post(accounts, c, receivables, credit);
      && ReceivablesOf(rows, d) == ReceivablesOf(accounts, d) + (if d == c then receivables else 0)
      && CreditOf(rows, d) == CreditOf(accounts, d) + (if d == c then credit else 0)
      && (AccountIndex(accounts, d) < |accounts| || d == c ==> AccountIndex(rows, d) < |rows|)
  {
    WithAccountKeeps(accounts, c, d);
    var rows := WithAccount(accounts, c);
    SameCustomersSameIndex(rows, Post(accounts, c, receivables, credit), d);
  }

  lemma {:induction false} PostTotals(accounts: seq<Account>, c: int, receivables: int, credit: int)
    requires OneAccountEach(accounts)
    ensures var rows := Post(accounts, c, receivables, credit);
      OneAccountEach(rows) && Sum(Credit(), rows) == Sum(Credit(), accounts) + credit
  {
    WithAccountEffect(accounts, c);
    var rows := WithAccount(accounts, c);
    var after := Post(accounts, c, receivables, credit);
    var k := AccountIndex(rows, c);
    SumUpdate(Credit(), rows, k, after[k]);
    forall i | 0 <= i < |after| ensures AccountIndex(after, after[i].customer) == i {
      SameCustomersSameIndex(rows, after, after[i].customer);
      assert AccountIndex(rows, rows[i].customer) == i;
    }
  }
}
