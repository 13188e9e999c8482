/**
 * Whole runs of the receivables books: which runs keep the control account, the customer accounts
 * and the invoices tied together, and what a reversal gives back.
 */
module BooksRuns {
  import opened Sums
  import opened Receivables
  import opened BooksInvariant
  import opened BooksTransitions
  import opened FifoAllocation

  datatype Operation =
    | CreateOp(customer: int, total: int, isCredit: bool, due: int, date: int)
    | PayOp(customer: int, amount: int, requests: seq<Request>)
    | ReverseOp(payment: nat)

  // ---------------------------------------------------------------- how much explicit requests take

  /** What a request can take from an invoice that is large enough. */
  function AskedOn(j: nat, available: int): Request -> int {
    (r: Request) => if r.invoice == j then Clamp(r.amount, 0, Max(available, 0)) else 0
  }

  /** What all the requests together take from invoice `j`. */
  function DemandOn(invs: seq<Invoice>, available: int, requests: seq<Request>): nat -> int {
    (j: nat) => if j < |invs| then Min(Max(invs[j].outstanding, 0), Sum(AskedOn(j, available), requests)) else 0
  }

  function Ids(n: nat): (ids: seq<nat>)
    ensures |ids| == n && forall i :: 0 <= i < n ==> ids[i] == i
  {
    seq(n, (i: nat) => i)
  }

  function Demand(invs: seq<Invoice>, available: int, requests: seq<Request>): int {
    Sum(DemandOn(invs, available, requests), Ids(|invs|))
  }

  /** Whether a payment covers what it is about to allocate; known before it is made. */
  predicate Covered(b: Books, amount: int, requests: seq<Request>) {
    if requests == [] then amount >= 0 else Demand(b.invoices, amount, requests) <= amount
  }

  lemma {:induction false} AskedNonNegative(j: nat, available: int, requests: seq<Request>)
    ensures Sum(AskedOn(j, available), requests) >= 0
  {
    SumNonNegative(AskedOn(j, available), requests);
  }

  /** The order of the requests, and how often an invoice is named, only matter through their sum. */
  lemma {:induction false} ExplicitTakes(invs: seq<Invoice>, c: int, available: int, requests: seq<Request>, j: nat)
    requires ExplicitAllocs(invs, c, available, requests).Ok? && j < |invs|
    ensures Sum(AmountOn(j), ExplicitAllocs(invs, c, available, requests).value) ==
            Min(Max(invs[j].outstanding, 0), Sum(AskedOn(j, available), requests))
    decreases requests
  {
    if requests != [] {
      var k := requests[0].invoice;
      var amount := Granted(invs[k], requests[0].amount, available);
      AskedNonNegative(j, available, requests[1..]);
      if amount <= 0 {
        ExplicitTakes(invs, c, available, requests[1..], j);
      } else {
        var next := invs[k := PayDown(invs[k], amount)];
        ExplicitTakes(next, c, available, requests[1..], j);
        var all := ExplicitAllocs(invs, c, available, requests).value;
        assert all[1..] == ExplicitAllocs(next, c, available, requests[1..]).value;
      }
    }
  }

  function TakenBy(allocs: seq<Allocation>): nat -> int { (j: nat) => Sum(AmountOn(j), allocs) }

  function OneOn(a: Allocation): nat -> int { (j: nat) => if a.invoice == j then a.amount else 0 }

  lemma {:induction false} SumOfOne(a: Allocation, n: nat)
    ensures Sum<nat>(OneOn(a), Ids(n)) == if a.invoice < n then a.amount else 0
  {
    if n == 0 {
      assert Ids(n) == [];
    } else {
      SumOfOne(a, n - 1);
      assert Ids(n) == Ids(n - 1) + [n - 1];
      SumAppend<nat>(OneOn(a), Ids(n - 1), n - 1);
    }
  }

  lemma {:induction false} SumByInvoice(allocs: seq<Allocation>, n: nat)
    requires forall i :: 0 <= i < |allocs| ==> allocs[i].invoice < n
    ensures Sum(Amount(), allocs) == Sum(TakenBy(allocs), Ids(n))
  {
    if allocs == [] {
      SumZero(TakenBy(allocs), Ids(n));
    } else {
      SumByInvoice(allocs[1..], n);
      SumOfOne(allocs[0], n);
      SumDifference(TakenBy(allocs), Ids(n), OneOn(allocs[0]), Ids(n), TakenBy(allocs[1..]), Ids(n));
    }
  }

  lemma {:induction false} ExplicitTotal(invs: seq<Invoice>, c: int, available: int, requests: seq<Request>)
    requires ExplicitAllocs(invs, c, available, requests).Ok?
    ensures Sum(Amount(), ExplicitAllocs(invs, c, available, requests).value) == Demand(invs, available, requests)
  {
    var allocs := ExplicitAllocs(invs, c, available, requests).value;
    SumByInvoice(allocs, |invs|);
    forall i | 0 <= i < |invs|
      ensures TakenBy(allocs)(Ids(|invs|)[i]) == DemandOn(invs, available, requests)(Ids(|invs|)[i])
    {
      ExplicitTakes(invs, c, available, requests, i);
    }
    SumAlike(TakenBy(allocs), Ids(|invs|), DemandOn(invs, available, requests), Ids(|invs|));
  }

  function Asked(): Request -> int { (r: Request) => Max(r.amount, 0) }

  /** Requests whose positive amounts fit in the payment are always covered. */
  lemma {:induction false} ModestRequestsTakeLess(invs: seq<Invoice>, c: int, available: int, requests: seq<Request>)
    requires ExplicitAllocs(invs, c, available, requests).Ok?
    ensures Demand(invs, available, requests) <= Sum(Asked(), requests)
  {
    ExplicitTotal(invs, c, available, requests);
    ExplicitAtMostAsked(invs, c, available, requests);
  }

  lemma {:induction false} ExplicitAtMostAsked(invs: seq<Invoice>, c: int, available: int, requests: seq<Request>)
    requires ExplicitAllocs(invs, c, available, requests).Ok?
    ensures Sum(Amount(), ExplicitAllocs(invs, c, available, requests).value) <= Sum(Asked(), requests)
    decreases requests
  {
    if requests != [] {
      var k := requests[0].invoice;
      var amount := Granted(invs[k], requests[0].amount, available);
      if amount <= 0 {
        ExplicitAtMostAsked(invs, c, available, requests[1..]);
      } else {
        var next := invs[k := PayDown(invs[k], amount)];
        ExplicitAtMostAsked(next, c, available, requests[1..]);
        var all := ExplicitAllocs(invs, c, available, requests).value;
        assert all[1..] == ExplicitAllocs(next, c, available, requests[1..]).value;
      }
    }
  }

  /** The new payment holds all its money, and it is overdrawn exactly when it was not covered. */
  lemma {:induction false} PayOverdraws(b: Books, c: int, amount: int, requests: seq<Request>)
    requires Pay(b, c, amount, requests).Ok?
    ensures var b' := Pay(b, c, amount, requests).value;
      && |b'.payments| == |b.payments| + 1 && b'.payments[..|b.payments|] == b.payments
      && var p := b'.payments[|b.payments|];
      && p.amountAllocated + p.unallocated == amount
      && (requests != [] ==> p.amountAllocated == Demand(b.invoices, amount, requests))
      && (p.unallocated >= 0 <==> Covered(b, amount, requests))
  {
    if requests == [] {
      AutoPayAllocates(b, c, amount);
    } else {
      ExplicitTotal(b.invoices, c, amount, requests);
    }
  }

  lemma {:induction false} PayApplicable(b: Books, c: int, amount: int, requests: seq<Request>)
    requires Pay(b, c, amount, requests).Ok?
    ensures var allocs := Allocs(b.invoices, c, amount, requests).value;
      Applicable(b.invoices, c, allocs) && OnCustomer(b.invoices, c, allocs)
  {
    if requests == [] {
      OpenQueueExact(b.invoices, c);
      AutoApplicable(b.invoices, c, OpenQueue(b.invoices, c), amount);
    } else {
      ExplicitApplicable(b.invoices, c, amount, requests);
    }
    ApplicableOnCustomer(b.invoices, c, Allocs(b.invoices, c, amount, requests).value);
  }

  lemma {:induction false} PayKeepsSound(b: Books, c: int, amount: int, requests: seq<Request>)
    requires Sound(b) && Pay(b, c, amount, requests).Ok?
    ensures Sound(Pay(b, c, amount, requests).value)
  {
    PayApplicable(b, c, amount, requests);
    SettleKeepsSound(b, c, amount, Allocs(b.invoices, c, amount, requests).value);
  }

  /** No request list drives an invoice below nothing owed, nor touches another customer's invoice. */
  lemma {:induction false} PayNeverOverpays(b: Books, c: int, amount: int, requests: seq<Request>, j: nat)
    requires Sound(b) && Pay(b, c, amount, requests).Ok? && j < |b.invoices|
    ensures var after := Pay(b, c, amount, requests).value.invoices;
      && |after| == |b.invoices|
      && Min(b.invoices[j].outstanding, 0) <= after[j].outstanding <= b.invoices[j].outstanding
      && (b.invoices[j].customer != c ==> after[j] == b.invoices[j])
  {
    var allocs := Allocs(b.invoices, c, amount, requests).value;
    PayApplicable(b, c, amount, requests);
    ApplyAllEffect(b.invoices, c, allocs, j);
  }

  // ---------------------------------------------------------------- runs

  /** One transaction; a failed one leaves the books as they were. */
  ghost function Step(b: Books, op: Operation): (r: Books)
    requires Sound(b)
    ensures Sound(r)
  {
    SoundInRange(b);
    match op
    case CreateOp(c, total, isCredit, due, date) =>
      CreateKeepsSound(b, c, total, isCredit, due, date);
      CreateInvoice(b, c, total, isCredit, due, date)
    case PayOp(c, amount, requests) =>
      (match Pay(b, c, amount, requests)
       case Ok(after) => PayKeepsSound(b, c, amount, requests); after
       case Err(_) => b)
    case ReverseOp(k) =>
      (match Reverse(b, k)
       case Ok(after) => ReverseKeepsSound(b, k); after
       case Err(_) => b)
  }

  ghost function Run(b: Books, ops: seq<Operation>): (r: Books)
    requires Sound(b)
    ensures Sound(r)
    decreases ops
  {
    if ops == [] then b else Run(Step(b, ops[0]), ops[1..])
  }

  lemma {:induction false} NoBooksSound()
    ensures Sound(NO_BOOKS)
  {
  }

  predicate OperationCovered(b: Books, op: Operation) {
    op.PayOp? && Pay(b, op.customer, op.amount, op.requests).Ok? ==> Covered(b, op.amount, op.requests)
  }

  /** Every payment the run accepted was covered when it was made. */
  ghost predicate AllCovered(b: Books, ops: seq<Operation>)
    requires Sound(b)
    decreases ops
  {
    ops == [] || (OperationCovered(b, ops[0]) && AllCovered(Step(b, ops[0]), ops[1..]))
  }

  predicate NoOverdraft(payments: seq<Payment>) {
    forall k :: 0 <= k < |payments| ==> payments[k].unallocated >= 0
  }

  /** The control account and every customer's credit agree with the invoices and the standing payments. */
  ghost predicate Tied(b: Books) {
    && b.glAr == Sum(Outstanding(), b.invoices) - Sum(Credit(), b.accounts)
    && forall c :: CreditOf(b.accounts, c) == Sum(LiveUnallocatedOf(c), b.payments)
  }

  lemma {:induction false} OverdraftSums(payments: seq<Payment>)
    ensures Sum(Overdraft(), payments) == 0 <==> NoOverdraft(payments)
    ensures NoOverdraft(payments) ==> forall c :: Sum(OverdraftOf(c), payments) == 0
  {
    SumNonNegative(Overdraft(), payments);
    if NoOverdraft(payments) {
      forall c ensures Sum(OverdraftOf(c), payments) == 0 { SumZero(OverdraftOf(c), payments); }
    } else {
      var k :| 0 <= k < |payments| && payments[k].unallocated < 0;
      assert Overdraft()(payments[k]) > 0;
    }
  }

  /** The books miss tying by exactly what has ever been overdrawn. */
  lemma {:induction false} TiedUnlessOverdrawn(b: Books)
    requires AccountsExplained(b) && ControlExplained(b)
    ensures b.glAr == Sum(Outstanding(), b.invoices) - Sum(Credit(), b.accounts) + Sum(Overdraft(), b.payments)
    ensures Tied(b) <==> NoOverdraft(b.payments)
  {
    OverdraftSums(b.payments);
  }

  lemma {:induction false} PayOverdraft(b: Books, c: int, amount: int, requests: seq<Request>)
    requires Pay(b, c, amount, requests).Ok?
    ensures NoOverdraft(Pay(b, c, amount, requests).value.payments) <==>
            NoOverdraft(b.payments) && Covered(b, amount, requests)
  {
    PayOverdraws(b, c, amount, requests);
    var after := Pay(b, c, amount, requests).value.payments;
    forall k | 0 <= k < |b.payments| ensures after[k] == b.payments[k] {
      assert after[..|b.payments|][k] == b.payments[k];
    }
  }

  lemma {:induction false} ReverseOverdraft(b: Books, k: nat)
    requires AllocationsInRange(b) && Reverse(b, k).Ok?
    ensures NoOverdraft(Reverse(b, k).value.payments) <==> NoOverdraft(b.payments)
  {
    var after := Reverse(b, k).value.payments;
    assert forall i :: 0 <= i < |b.payments| ==> after[i].unallocated == b.payments[i].unallocated;
  }

  lemma {:induction false} StepOverdraws(b: Books, op: Operation)
    requires Sound(b)
    ensures NoOverdraft(Step(b, op).payments) <==> NoOverdraft(b.payments) && OperationCovered(b, op)
  {
    SoundInRange(b);
    match op
    case CreateOp(_, _, _, _, _) =>
    case PayOp(c, amount, requests) =>
      if Pay(b, c, amount, requests).Ok? { PayOverdraft(b, c, amount, requests); }
    case ReverseOp(k) =>
      if Reverse(b, k).Ok? { ReverseOverdraft(b, k); }
  }

  lemma {:induction false} RunOverdraws(b: Books, ops: seq<Operation>)
    requires Sound(b)
    ensures NoOverdraft(Run(b, ops).payments) <==> NoOverdraft(b.payments) && AllCovered(b, ops)
    decreases ops
  {
    if ops != [] {
      StepOverdraws(b, ops[0]);
      RunOverdraws(Step(b, ops[0]), ops[1..]);
    }
  }

  /** From empty books, the books tie after a run exactly when every payment in it was covered. */
  lemma {:induction false} RunTied(ops: seq<Operation>)
    ensures Sound(NO_BOOKS)
    ensures Sound(Run(NO_BOOKS, ops))
    ensures Tied(Run(NO_BOOKS, ops)) <==> AllCovered(NO_BOOKS, ops)
  {
    NoBooksSound();
    RunOverdraws(NO_BOOKS, ops);
    TiedUnlessOverdrawn(Run(NO_BOOKS, ops));
  }

  // ---------------------------------------------------------------- reversal

  /** After a reversal every invoice is as the other payments, taken alone, leave it. */
  lemma {:induction false} ReversalForgets(b: Books, k: nat, j: nat)
    requires Sound(b) && AllocationsInRange(b) && Reverse(b, k).Ok? && j < |b.invoices|
    ensures var others := b.payments[..k] + b.payments[k + 1..];
      var after := Reverse(b, k).value.invoices;
      |after| == |b.invoices| && after[j] == Explained(b.invoices[j], Sum(PaidOn(j), others))
  {
    var p := b.payments[k];
    var after := Reverse(b, k).value;
    ReversedInvoice(b, k, j);
    ReversalKeepsTerms(b.invoices, p.allocations);
    SumWithout(PaidOn(j), b.payments, k, p.(cancelled := true));
  }

  lemma {:induction false} ReversalKeepsTerms(invs: seq<Invoice>, allocs: seq<Allocation>)
    requires forall i :: 0 <= i < |allocs| ==> allocs[i].invoice < |invs|
    ensures SameTerms(PutBackAll(invs, allocs), invs)
    decreases allocs
  {
    if allocs != [] {
      var a := allocs[0];
      ReversalKeepsTerms(invs[a.invoice := PutBack(invs[a.invoice], a.amount)], allocs[1..]);
    }
  }

  lemma {:induction false} PayingKeepsTerms(invs: seq<Invoice>, allocs: seq<Allocation>)
    requires forall i :: 0 <= i < |allocs| ==> allocs[i].invoice < |invs|
    ensures SameTerms(ApplyAll(invs, allocs), invs)
    decreases allocs
  {
    if allocs != [] {
      var a := allocs[0];
      PayingKeepsTerms(invs[a.invoice := PayDown(invs[a.invoice], a.amount)], allocs[1..]);
    }
  }

  lemma {:induction false} PayThenReverseInvoices(b: Books, c: int, amount: int, requests: seq<Request>)
    requires Sound(b) && Pay(b, c, amount, requests).Ok?
    ensures var paid := Pay(b, c, amount, requests).value;
      && AllocationsInRange(paid) && Reverse(paid, |b.payments|).Ok?
      && Reverse(paid, |b.payments|).value.invoices == b.invoices
  {
    hide ExplicitAllocs, AutoAllocs, OpenQueue;
    var paid := Pay(b, c, amount, requests).value;
    PayKeepsSound(b, c, amount, requests);
    SoundInRange(paid);
    var back := Reverse(paid, |b.payments|).value;
    PayingKeepsTerms(b.invoices, Allocs(b.invoices, c, amount, requests).value);
    assert paid.payments[..|b.payments|] + paid.payments[|b.payments| + 1..] == b.payments;
    forall j | 0 <= j < |b.invoices| ensures back.invoices[j] == b.invoices[j] {
      ReversalForgets(paid, |b.payments|, j);
    }
  }

  lemma {:induction false} PostOpens(accounts: seq<Account>, c: int, receivables: int, credit: int)
    ensures var rows := Post(accounts, c, receivables, credit); AccountIndex(rows, c) < |rows|
  {
    PostMoves(accounts, c, receivables, credit, c);
  }

  lemma {:induction false} PostThenPostBack(
      accounts: seq<Account>, mid: seq<Account>, back: seq<Account>,
      c: int, used: int, credit: int, unallocated: int, d: int)
    requires mid == Post(accounts, c, -used, credit) && back == Post(mid, c, used, -unallocated)
    ensures ReceivablesOf(back, d) == ReceivablesOf(accounts, d)
    ensures CreditOf(back, d) == CreditOf(accounts, d) + (if d == c then credit - unallocated else 0)
  {
    assert ReceivablesOf(mid, d) == ReceivablesOf(accounts, d) + (if d == c then -used else 0)
        && CreditOf(mid, d) == CreditOf(accounts, d) + (if d == c then credit else 0) by {
      PostMoves(accounts, c, -used, credit, d);
    }
    assert ReceivablesOf(back, d) == ReceivablesOf(mid, d) + (if d == c then used else 0)
        && CreditOf(back, d) == CreditOf(mid, d) + (if d == c then -unallocated else 0) by {
      PostMoves(mid, c, used, -unallocated, d);
    }
  }

  lemma {:induction false} SettleThenReverse(b: Books, c: int, amount: int, allocs: seq<Allocation>, d: int)
    requires forall i :: 0 <= i < |allocs| ==> allocs[i].invoice < |b.invoices|
    requires AllocationsInRange(Settle(b, c, amount, allocs))
    ensures var paid := Settle(b, c, amount, allocs);
      && Reverse(paid, |b.payments|).Ok?
      && var back := Reverse(paid, |b.payments|).value;
      && back.glAr == b.glAr
      && ReceivablesOf(back.accounts, d) == ReceivablesOf(b.accounts, d)
      && CreditOf(back.accounts, d) ==
           CreditOf(b.accounts, d) + (if d == c then Max(Sum(Amount(), allocs) - amount, 0) else 0)
  {
    var used := Sum(Amount(), allocs);
    var credit := if amount - used > 0 then amount - used else 0;
    var paid := Settle(b, c, amount, allocs);
    var back := Reverse(paid, |b.payments|).value;
    assert back.accounts == Post(paid.accounts, c, used, -(amount - used)) by {
      PostOpens(b.accounts, c, -used, credit);
    }
    PostThenPostBack(b.accounts, paid.accounts, back.accounts, c, used, credit, amount - used, d);
  }

  lemma {:induction false} PayThenReverseBalances(b: Books, c: int, amount: int, requests: seq<Request>, d: int)
    requires Pay(b, c, amount, requests).Ok? && AllocationsInRange(Pay(b, c, amount, requests).value)
    ensures var paid := Pay(b, c, amount, requests).value;
      && |paid.payments| == |b.payments| + 1
      && Reverse(paid, |b.payments|).Ok?
      && var back := Reverse(paid, |b.payments|).value;
      && back.glAr == b.glAr
      && ReceivablesOf(back.accounts, d) == ReceivablesOf(b.accounts, d)
      && CreditOf(back.accounts, d) ==
           CreditOf(b.accounts, d) + (if d == c then Max(-paid.payments[|b.payments|].unallocated, 0) else 0)
  {
    SettleThenReverse(b, c, amount, Allocs(b.invoices, c, amount, requests).value, d);
  }

  /** Paying and reversing at once gives back everything except an overdraft, which stays as credit. */
  lemma {:induction false} PayThenReverse(b: Books, c: int, amount: int, requests: seq<Request>, d: int)
    requires Sound(b) && Pay(b, c, amount, requests).Ok?
    ensures var paid := Pay(b, c, amount, requests).value;
      && AllocationsInRange(paid) && Reverse(paid, |b.payments|).Ok?
      && |paid.payments| == |b.payments| + 1
      && var back := Reverse(paid, |b.payments|).value;
      && back.invoices == b.invoices
      && back.glAr == b.glAr
      && ReceivablesOf(back.accounts, d) == ReceivablesOf(b.accounts, d)
      && CreditOf(back.accounts, d) ==
           CreditOf(b.accounts, d) + (if d == c then Max(-paid.payments[|b.payments|].unallocated, 0) else 0)
  {
    PayThenReverseInvoices(b, c, amount, requests);
    PayThenReverseBalances(b, c, amount, requests, d);
  }

  /** So it gives back everything exactly when the payment was covered. */
  lemma {:induction false} PayThenReverseRestores(b: Books, c: int, amount: int, requests: seq<Request>)
    requires Sound(b) && Pay(b, c, amount, requests).Ok?
    ensures var paid := Pay(b, c, amount, requests).value;
      && AllocationsInRange(paid) && Reverse(paid, |b.payments|).Ok?
      && var back := Reverse(paid, |b.payments|).value;
      (forall d :: CreditOf(back.accounts, d) == CreditOf(b.accounts, d)) <==> Covered(b, amount, requests)
  {
    PayThenReverse(b, c, amount, requests, c);
    PayOverdraws(b, c, amount, requests);
    var back := Reverse(Pay(b, c, amount, requests).value, |b.payments|).value;
    if Covered(b, amount, requests) {
      forall d ensures CreditOf(back.accounts, d) == CreditOf(b.accounts, d) { PayThenReverse(b, c, amount, requests, d); }
    }
  }

  // ---------------------------------------------------------------- the overdrawn payment

  const BILL := Invoice(7, true, 80, 0, 0, 0, 80, Sent)

  const TWICE_80: seq<Request> := [Request(0, 80), Request(1, 80)]

  /** Two requests of 80 against a payment of 100 take 160 ... */
  lemma {:induction false} OverdrawnWitness()
    ensures ExplicitAllocs([BILL, BILL], 7, 100, TWICE_80) == Ok([Allocation(0, 80), Allocation(1, 80)])
    ensures Demand([BILL, BILL], 100, TWICE_80) == 160
  {
    var paid := PayDown(BILL, 80);
    var later := TWICE_80[1..];
    assert later == [Request(1, 80)] && [BILL, BILL][0 := paid] == [paid, BILL];
    assert [paid, BILL][1] == BILL && Granted(BILL, 80, 100) == 80;
    assert later[1..] == [];
    assert ExplicitAllocs([paid, BILL][1 := paid], 7, 100, []) == Ok([]);
    var rest := [Allocation(1, 80)];
    assert rest + [] == rest && [Allocation(0, 80)] + rest == [Allocation(0, 80), Allocation(1, 80)];
    assert ExplicitAllocs([paid, BILL], 7, 100, later) == Ok(rest);
    ExplicitTotal([BILL, BILL], 7, 100, TWICE_80);
    assert [Allocation(0, 80), Allocation(1, 80)][1..] == rest && rest[1..] == [];
  }

  /** ... so in sound books the payment is overdrawn by 60, and reversing it leaves that much credit behind. */
  lemma {:induction false} OverdrawnWitnessCredit(b: Books)
    requires Sound(b) && b.invoices == [BILL, BILL]
    ensures Pay(b, 7, 100, TWICE_80).Ok?
    ensures var paid := Pay(b, 7, 100, TWICE_80).value;
      && |paid.payments| == |b.payments| + 1 && paid.payments[|b.payments|].unallocated == -60
      && AllocationsInRange(paid) && Reverse(paid, |b.payments|).Ok?
      && CreditOf(Reverse(paid, |b.payments|).value.accounts, 7) == CreditOf(b.accounts, 7) + 60
  {
    OverdrawnWitness();
    PayOverdraws(b, 7, 100, TWICE_80);
    PayThenReverse(b, 7, 100, TWICE_80, 7);
  }

  lemma {:induction false} BilledOnce(b: Books)
    requires Sound(b)
    ensures Step(b, CreateOp(7, 80, true, 0, 0)).invoices == b.invoices + [BILL]
  {
  }

  lemma {:induction false} RunTwo(b: Books, op: Operation)
    requires Sound(b)
    ensures Run(b, [op, op]) == Step(Step(b, op), op)
  {
    assert [op, op][1..] == [op] && [op][1..] == [];
    var one := Step(b, op);
    var two := Step(one, op);
    assert Run(two, []) == two;
    assert Run(one, [op]) == two;
  }

  lemma {:induction false} TwoBills(b: Books)
    requires Sound(b)
    ensures Run(b, [CreateOp(7, 80, true, 0, 0), CreateOp(7, 80, true, 0, 0)]).invoices == b.invoices + [BILL, BILL]
  {
    var bill := CreateOp(7, 80, true, 0, 0);
    var one := Step(b, bill);
    BilledOnce(b);
    BilledOnce(one);
    RunTwo(b, bill);
  }

  /** Such books are reached from empty ones by two credit sales of 80. */
  lemma {:induction false} OverdrawnWitnessReached()
    ensures Sound(NO_BOOKS)
    ensures Run(NO_BOOKS, [CreateOp(7, 80, true, 0, 0), CreateOp(7, 80, true, 0, 0)]).invoices ==
            NO_BOOKS.invoices + [BILL, BILL]
  {
    assert Sound(NO_BOOKS) by { NoBooksSound(); }
    TwoBills(NO_BOOKS);
  }
}
