/**
 * The accounts-receivable subledger: invoices, customer payments with their allocations,
 * customer accounts, and the balance of the AR control account in the general ledger.
 * Money is exact and counted in the smallest unit the decimal columns can hold.
 */
module Receivables {
  import opened Sums

  datatype InvoiceStatus = Sent | PartiallyPaid | Paid

  datatype Invoice = Invoice(
    customer: int, isCredit: bool, total: int, dueDate: int, invoiceDate: int,
    amountPaid: int, outstanding: int, status: InvoiceStatus)

  /** `invoice` is the position of the invoice in the invoice table. */
  datatype Allocation = Allocation(invoice: nat, amount: int)

  datatype Payment = Payment(
    customer: int, amount: int, amountAllocated: int, unallocated: int,
    allocations: seq<Allocation>, cancelled: bool)

  datatype Account = Account(customer: int, receivables: int, credit: int)

  /** Row identifiers are positions: rows are only ever appended or updated in place. */
  datatype Books = Books(invoices: seq<Invoice>, payments: seq<Payment>, accounts: seq<Account>, glAr: int)

  datatype Request = Request(invoice: nat, amount: int)

  datatype Error = InvoiceNotFound | ForeignInvoice | PaymentNotFound | AlreadyCancelled

  datatype Result<+T> = Ok(value: T) | Err(error: Error)

  const NO_BOOKS := Books([], [], [], 0)

  // ---------------------------------------------------------------- measures

  function Amount(): Allocation -> int { (a: Allocation) => a.amount }

  /** What an allocation puts on invoice `j`. */
  function AmountOn(j: nat): Allocation -> int { (a: Allocation) => if a.invoice == j then a.amount else 0 }

  function Outstanding(): Invoice -> int { (i: Invoice) => i.outstanding }

  function OutstandingOf(c: int): Invoice -> int { (i: Invoice) => if i.customer == c then i.outstanding else 0 }

  function Credit(): Account -> int { (a: Account) => a.credit }

  /** What a payment that still stands leaves on invoice `j`. */
  function PaidOn(j: nat): Payment -> int { (p: Payment) => if p.cancelled then 0 else Sum(AmountOn(j), p.allocations) }

  function LiveUnallocated(): Payment -> int { (p: Payment) => if p.cancelled then 0 else p.unallocated }

  function LiveUnallocatedOf(c: int): Payment -> int {
    (p: Payment) => if p.cancelled || p.customer != c then 0 else p.unallocated
  }

  /** By how much a payment allocated more than it brought in. */
  function Overdraft(): Payment -> int { (p: Payment) => Max(-p.unallocated, 0) }

  function OverdraftOf(c: int): Payment -> int {
    (p: Payment) => if p.customer == c then Max(-p.unallocated, 0) else 0
  }

  // ---------------------------------------------------------------- invoices

  function PayDown(inv: Invoice, amount: int): Invoice {
    var left := inv.outstanding - amount;
    inv.(amountPaid := inv.amountPaid + amount, outstanding := left,
         status := if left <= 0 then Paid else PartiallyPaid)
  }

  function PutBack(inv: Invoice, amount: int): Invoice {
    var paid := inv.amountPaid - amount;
    var left := inv.outstanding + amount;
    inv.(amountPaid := paid, outstanding := left,
         status := if paid <= 0 then Sent else if left > 0 then PartiallyPaid else inv.status)
  }

  function ApplyAll(invs: seq<Invoice>, allocs: seq<Allocation>): (r: seq<Invoice>)
    requires forall i :: 0 <= i < |allocs| ==> allocs[i].invoice < |invs|
    ensures |r| == |invs|
    decreases allocs
  {
    if allocs == [] then invs
    else ApplyAll(invs[allocs[0].invoice := PayDown(invs[allocs[0].invoice], allocs[0].amount)], allocs[1..])
  }

  function PutBackAll(invs: seq<Invoice>, allocs: seq<Allocation>): (r: seq<Invoice>)
    requires forall i :: 0 <= i < |allocs| ==> allocs[i].invoice < |invs|
    ensures |r| == |invs|
    decreases allocs
  {
    if allocs == [] then invs
    else PutBackAll(invs[allocs[0].invoice := PutBack(invs[allocs[0].invoice], allocs[0].amount)], allocs[1..])
  }

  // ---------------------------------------------------------------- due order

  /** Due date first, then invoice date; equal dates keep the order of creation. */
  predicate Before(invs: seq<Invoice>, i: nat, j: nat)
    requires i < |invs| && j < |invs|
  {
    var a, b := invs[i], invs[j];
    a.dueDate < b.dueDate ||
    (a.dueDate == b.dueDate && (a.invoiceDate < b.invoiceDate ||
                                (a.invoiceDate == b.invoiceDate && i < j)))
  }

  predicate AllBelow(ids: seq<nat>, n: nat) { forall i :: 0 <= i < |ids| ==> ids[i] < n }

  predicate InDueOrder(invs: seq<Invoice>, ids: seq<nat>)
    requires AllBelow(ids, |invs|)
  {
    forall i, j :: 0 <= i < j < |ids| ==> Before(invs, ids[i], ids[j])
  }

  function InsertByDue(invs: seq<Invoice>, ids: seq<nat>, j: nat): (r: seq<nat>)
    requires AllBelow(ids, |invs|) && j < |invs|
    ensures AllBelow(r, |invs|) && |r| == |ids| + 1
  {
    if ids == [] || Before(invs, j, ids[0]) then [j] + ids
    else [ids[0]] + InsertByDue(invs, ids[1..], j)
  }

  /** The first `n` invoices that belong to customer `c`, oldest due first. */
  function DueOrder(invs: seq<Invoice>, c: int, n: nat): (r: seq<nat>)
    requires n <= |invs|
    ensures AllBelow(r, |invs|)
  {
    if n == 0 then []
    else
      var rest := DueOrder(invs, c, n - 1);
      if invs[n - 1].customer == c then InsertByDue(invs, rest, n - 1) else rest
  }

  function OpenOnly(invs: seq<Invoice>, ids: seq<nat>): (r: seq<nat>)
    requires AllBelow(ids, |invs|)
    ensures AllBelow(r, |invs|)
  {
    if ids == [] then []
    else (if invs[ids[0]].outstanding > 0 then [ids[0]] else []) + OpenOnly(invs, ids[1..])
  }

  /** The customer's invoices with something outstanding, oldest due first. */
  function OpenQueue(invs: seq<Invoice>, c: int): (r: seq<nat>)
    ensures AllBelow(r, |invs|)
  {
    OpenOnly(invs, DueOrder(invs, c, |invs|))
  }

  // ---------------------------------------------------------------- allocation

  /** FIFO allocation of `remaining` along a queue of invoices. */
  function AutoAllocs(invs: seq<Invoice>, queue: seq<nat>, remaining: int): (r: seq<Allocation>)
    requires AllBelow(queue, |invs|)
    ensures forall i :: 0 <= i < |r| ==> r[i].invoice < |invs|
    decreases queue
  {
    if queue == [] || remaining <= 0 then []
    else
      var j := queue[0];
      var amount := Min(invs[j].outstanding, remaining);
      [Allocation(j, amount)] + AutoAllocs(invs[j := PayDown(invs[j], amount)], queue[1..], remaining - amount)
  }

  /** What one request receives: every request is capped by the same, never updated, `available`. */
  function Granted(inv: Invoice, requested: int, available: int): int {
    Min(requested, Min(inv.outstanding, available))
  }

  function ExplicitAllocs(invs: seq<Invoice>, c: int, available: int, requests: seq<Request>): (r: Result<seq<Allocation>>)
    ensures r.Ok? ==> forall i :: 0 <= i < |r.value| ==> r.value[i].invoice < |invs|
    decreases requests
  {
    if requests == [] then Ok([])
    else
      var j := requests[0].invoice;
      if j >= |invs| then Err(InvoiceNotFound)
      else if invs[j].customer != c then Err(ForeignInvoice)
      else
        var amount := Granted(invs[j], requests[0].amount, available);
        if amount <= 0 then ExplicitAllocs(invs, c, available, requests[1..])
        else
          match ExplicitAllocs(invs[j := PayDown(invs[j], amount)], c, available, requests[1..])
          case Ok(rest) => Ok([Allocation(j, amount)] + rest)
          case Err(e) => Err(e)
  }

  /** An absent or empty request list means automatic allocation. */
  function Allocs(invs: seq<Invoice>, c: int, amount: int, requests: seq<Request>): (r: Result<seq<Allocation>>)
    ensures r.Ok? ==> forall i :: 0 <= i < |r.value| ==> r.value[i].invoice < |invs|
  {
    if requests == [] then Ok(AutoAllocs(invs, OpenQueue(invs, c), amount))
    else ExplicitAllocs(invs, c, amount, requests)
  }

  // ---------------------------------------------------------------- accounts

  /** Position of the customer's account, or the length of the table when there is none. */
  function AccountIndex(accounts: seq<Account>, c: int): (k: nat)
    ensures k <= |accounts|
    ensures k < |accounts| ==> accounts[k].customer == c
    ensures forall i :: 0 <= i < k ==> accounts[i].customer != c
  {
    if accounts == [] || accounts[0].customer == c then 0 else 1 + AccountIndex(accounts[1..], c)
  }

  /** Opens an account with nothing on it when the customer has none. */
  function WithAccount(accounts: seq<Account>, c: int): (r: seq<Account>)
    ensures AccountIndex(r, c) < |r|
  {
    if AccountIndex(accounts, c) < |accounts| then accounts
    else
      var r := accounts + [Account(c, 0, 0)];
      assert r[|accounts|].customer == c;
      r
  }

  function Post(accounts: seq<Account>, c: int, receivables: int, credit: int): seq<Account> {
    var rows := WithAccount(accounts, c);
    var k := AccountIndex(rows, c);
    rows[k := Account(c, rows[k].receivables + receivables, rows[k].credit + credit)]
  }

  function ReceivablesOf(accounts: seq<Account>, c: int): int {
    var k := AccountIndex(accounts, c);
    if k < |accounts| then accounts[k].receivables else 0
  }

  function CreditOf(accounts: seq<Account>, c: int): int {
    var k := AccountIndex(accounts, c);
    if k < |accounts| then accounts[k].credit else 0
  }

  // ---------------------------------------------------------------- transitions

  function CreateInvoice(b: Books, c: int, total: int, isCredit: bool, due: int, date: int): Books {
    var inv :=
      if isCredit then Invoice(c, true, total, due, date, 0, total, Sent)
      else Invoice(c, false, total, due, date, total, 0, Paid);
    Books(b.invoices + [inv], b.payments,
          if isCredit then Post(b.accounts, c, total, 0) else b.accounts,
          if isCredit then b.glAr + total else b.glAr)
  }

  /** Books the payment once its allocations are known. */
  function Settle(b: Books, c: int, amount: int, allocs: seq<Allocation>): Books
    requires forall i :: 0 <= i < |allocs| ==> allocs[i].invoice < |b.invoices|
  {
    var used := Sum(Amount(), allocs);
    Books(ApplyAll(b.invoices, allocs),
          b.payments + [Payment(c, amount, used, amount - used, allocs, false)],
          Post(b.accounts, c, -used, if amount - used > 0 then amount - used else 0),
          b.glAr - amount)
  }

  function Pay(b: Books, c: int, amount: int, requests: seq<Request>): Result<Books> {
    match Allocs(b.invoices, c, amount, requests)
    case Ok(allocs) => Ok(Settle(b, c, amount, allocs))
    case Err(e) => Err(e)
  }

  predicate AllocationsInRange(b: Books) {
    forall p, i :: 0 <= p < |b.payments| && 0 <= i < |b.payments[p].allocations| ==>
      b.payments[p].allocations[i].invoice < |b.invoices|
  }

  function Reverse(b: Books, k: nat): Result<Books>
    requires AllocationsInRange(b)
  {
    if k >= |b.payments| then Err(PaymentNotFound)
    else if b.payments[k].cancelled then Err(AlreadyCancelled)
    else
      var p := b.payments[k];
      Ok(Books(PutBackAll(b.invoices, p.allocations),
               b.payments[k := p.(cancelled := true)],
               if AccountIndex(b.accounts, p.customer) < |b.accounts|
               then Post(b.accounts, p.customer, p.amountAllocated, -p.unallocated) else b.accounts,
               b.glAr + p.amount))
  }
}
