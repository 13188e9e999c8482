/**
 * The service that changes the receivables tables. Each public method is one database transaction:
 * it either commits the whole change or restores what it touched.
 */
module PaymentService {
  import opened Sums
  import opened Receivables
  import opened BooksInvariant
  import opened BooksLaws

  lemma {:induction false} ApplyAllSnoc(invs: seq<Invoice>, allocs: seq<Allocation>, a: Allocation)
    requires forall i :: 0 <= i < |allocs| ==> allocs[i].invoice < |invs|
    requires a.invoice < |invs|
    ensures var done := ApplyAll(invs, allocs);
      ApplyAll(invs, allocs + [a]) == done[a.invoice := PayDown(done[a.invoice], a.amount)]
    decreases allocs
  {
    if allocs != [] {
      assert (allocs + [a])[1..] == allocs[1..] + [a];
      ApplyAllSnoc(invs[allocs[0].invoice := PayDown(invs[allocs[0].invoice], allocs[0].amount)], allocs[1..], a);
    } else {
      assert [a][1..] == [];
    }
  }

  /** One turn of the automatic allocation: the head of the queue moves from what is to do to what is done. */
  lemma {:induction false} AutoTurn(before: seq<Invoice>, done: seq<Allocation>, queue: seq<nat>, remaining: int)
    requires forall k :: 0 <= k < |done| ==> done[k].invoice < |before|
    requires AllBelow(queue, |before|) && queue != [] && remaining > 0
    ensures var invs := ApplyAll(before, done);
      var amount := Min(invs[queue[0]].outstanding, remaining);
      var a := Allocation(queue[0], amount);
      var next := invs[queue[0] := PayDown(invs[queue[0]], amount)];
      && ApplyAll(before, done + [a]) == next
      && Sum(Amount(), done + [a]) == Sum(Amount(), done) + amount
      && done + AutoAllocs(invs, queue, remaining) == (done + [a]) + AutoAllocs(next, queue[1..], remaining - amount)
  {
    var invs := ApplyAll(before, done);
    var a := Allocation(queue[0], Min(invs[queue[0]].outstanding, remaining));
    ApplyAllSnoc(before, done, a);
    SumAppend(Amount(), done, a);
  }

  function Prefixed(done: seq<Allocation>, rest: Result<seq<Allocation>>): Result<seq<Allocation>> {
    match rest
    case Ok(allocs) => Ok(done + allocs)
    case Err(e) => Err(e)
  }

  class ReceivablesService {
    var invoices: seq<Invoice>
    var payments: seq<Payment>
    var accounts: seq<Account>
    var glAr: int

    function Value(): Books
      reads this
    {
      Books(invoices, payments, accounts, glAr)
    }

    /** Every allocation refers to an invoice that exists. */
    predicate Valid()
      reads this
    {
      AllocationsInRange(Value())
    }

    constructor ()
      ensures Valid() && Value() == NO_BOOKS
    {
      invoices, payments, accounts, glAr := [], [], [], 0;
    }

    method CreateInvoiceFromSale(c: int, total: int, isCredit: bool, due: int, date: int)
      requires Valid()
      modifies this
      ensures Valid() && Value() == CreateInvoice(old(Value()), c, total, isCredit, due, date)
    {
      invoices := invoices + [Invoice(c, isCredit, total, due, date,
                                      if isCredit then 0 else total, if isCredit then total else 0,
                                      if isCredit then Sent else Paid)];
      if isCredit {
        glAr := glAr + total;
        PostToAccount(c, total, 0);
      }
    }

    method PostToAccount(c: int, receivables: int, credit: int)
      modifies `accounts
      ensures accounts == Post(old(accounts), c, receivables, credit)
    {
      var k := AccountIndex(accounts, c);
      if k == |accounts| {
        accounts := accounts + [Account(c, 0, 0)];
        AccountIndexIs(accounts, c, k);
      }
      accounts := accounts[k := Account(c, accounts[k].receivables + receivables, accounts[k].credit + credit)];
    }

    method AllocatePaymentToInvoices(c: int, unallocated: int, requests: seq<Request>)
      returns (r: Result<seq<Allocation>>, totalAllocated: int)
      modifies `invoices
      ensures r == ExplicitAllocs(old(invoices), c, unallocated, requests)
      ensures r.Ok? <==> forall i :: 0 <= i < |requests| ==>
        requests[i].invoice < |old(invoices)| && old(invoices)[requests[i].invoice].customer == c
      ensures r.Ok? ==> totalAllocated == Sum(Amount(), r.value) && invoices == ApplyAll(old(invoices), r.value)
    {
      var done: seq<Allocation> := [];
      totalAllocated := 0;
      assert requests[0..] == requests;
      ghost var spec := ExplicitAllocs(invoices, c, unallocated, requests);
      assert spec.Ok? ==> [] + spec.value == spec.value;
      ExplicitAccepted(invoices, c, unallocated, requests);
      for i := 0 to |requests|
        invariant |invoices| == |old(invoices)|
        invariant forall k :: 0 <= k < |done| ==> done[k].invoice < |old(invoices)|
        invariant invoices == ApplyAll(old(invoices), done)
        invariant totalAllocated == Sum(Amount(), done)
        invariant spec == Prefixed(done, ExplicitAllocs(invoices, c, unallocated, requests[i..]))
      {
        var request := requests[i];
        assert requests[i..][0] == request && requests[i..][1..] == requests[i + 1..];
        if request.invoice >= |invoices| { return Err(InvoiceNotFound), 0; }
        var invoice := invoices[request.invoice];
        if invoice.customer != c { return Err(ForeignInvoice), 0; }
        var maxAllocation := Min(invoice.outstanding, unallocated);
        var amount := Min(request.amount, maxAllocation);
        if amount > 0 {
          var allocation := Allocation(request.invoice, amount);
          ghost var rest := ExplicitAllocs(invoices[request.invoice := PayDown(invoice, amount)], c, unallocated, requests[i + 1..]);
          assert rest.Ok? ==> done + ([allocation] + rest.value) == done + [allocation] + rest.value;
          ApplyAllSnoc(old(invoices), done, allocation);
          SumAppend(Amount(), done, allocation);
          invoices := invoices[request.invoice := PayDown(invoice, amount)];
          done := done + [allocation];
          totalAllocated := totalAllocated + amount;
        }
      }
      assert done + [] == done;
      return Ok(done), totalAllocated;
    }

    method AutoAllocatePayment(c: int, unallocated: int) returns (done: seq<Allocation>, totalAllocated: int)
      modifies `invoices
      ensures done == AutoAllocs(old(invoices), OpenQueue(old(invoices), c), unallocated)
      ensures totalAllocated == Sum(Amount(), done) && invoices == ApplyAll(old(invoices), done)
    {
      var queue := OpenQueue(invoices, c);
      var remaining := unallocated;
      done := [];
      var i := 0;
      while i < |queue|
        invariant 0 <= i <= |queue| && |invoices| == |old(invoices)|
        invariant forall k :: 0 <= k < |done| ==> done[k].invoice < |old(invoices)|
        invariant invoices == ApplyAll(old(invoices), done)
        invariant unallocated - remaining == Sum(Amount(), done)
        invariant AutoAllocs(old(invoices), queue, unallocated) == done + AutoAllocs(invoices, queue[i..], remaining)
      {
        if remaining <= 0 { break; }
        var j := queue[i];
        var amount := Min(invoices[j].outstanding, remaining);
        AutoTurn(old(invoices), done, queue[i..], remaining);
        assert queue[i..][1..] == queue[i + 1..];
        invoices := invoices[j := PayDown(invoices[j], amount)];
        done := done + [Allocation(j, amount)];
        remaining := remaining - amount;
        i := i + 1;
      }
      totalAllocated := unallocated - remaining;
    }

    method ProcessCustomerPayment(c: int, amount: int, requests: seq<Request>) returns (r: Result<nat>)
      requires Valid()
      modifies this
      ensures Valid()
      ensures r.Ok? <==> forall i :: 0 <= i < |requests| ==>
        requests[i].invoice < |old(invoices)| && old(invoices)[requests[i].invoice].customer == c
      ensures r.Ok? <==> Pay(old(Value()), c, amount, requests).Ok?
      ensures r.Ok? ==> Value() == Pay(old(Value()), c, amount, requests).value && r.value == old(|payments|)
      ensures r.Err? ==> Value() == old(Value()) && r.error == Pay(old(Value()), c, amount, requests).error
    {
      PayAccepted(Value(), c, amount, requests);
      var rollback := invoices;
      glAr := glAr - amount;
      var allocations, used;
      if requests != [] {
        var granted;
        granted, used := AllocatePaymentToInvoices(c, amount, requests);
        if granted.Err? {
          invoices, glAr := rollback, glAr + amount;
          return Err(granted.error);
        }
        allocations := granted.value;
      } else {
        allocations, used := AutoAllocatePayment(c, amount);
      }
      r := Ok(|payments|);
      payments := payments + [Payment(c, amount, used, amount - used, allocations, false)];
      PostToAccount(c, -used, if amount - used > 0 then amount - used else 0);
    }

    method ReversePayment(k: nat) returns (r: Result<()>)
      requires Valid()
      modifies this
      ensures Valid()
      ensures r.Ok? <==> k < |old(payments)| && !old(payments)[k].cancelled
      ensures r.Ok? <==> Reverse(old(Value()), k).Ok?
      ensures r.Ok? ==> Value() == Reverse(old(Value()), k).value
      ensures r.Err? ==> Value() == old(Value()) && r.error == Reverse(old(Value()), k).error
    {
      if k >= |payments| { return Err(PaymentNotFound); }
      var payment := payments[k];
      if payment.cancelled { return Err(AlreadyCancelled); }
      for i := 0 to |payment.allocations|
        invariant |invoices| == |old(invoices)|
        invariant unchanged(`payments) && unchanged(`accounts) && unchanged(`glAr)
        invariant PutBackAll(old(invoices), payment.allocations) == PutBackAll(invoices, payment.allocations[i..])
      {
        var allocation := payment.allocations[i];
        assert payment.allocations[i..][0] == allocation && payment.allocations[i..][1..] == payment.allocations[i + 1..];
        invoices := invoices[allocation.invoice := PutBack(invoices[allocation.invoice], allocation.amount)];
      }
      payments := payments[k := payment.(cancelled := true)];
      glAr := glAr + payment.amount;
      if AccountIndex(accounts, payment.customer) < |accounts| {
        PostToAccount(payment.customer, payment.amountAllocated, -payment.unallocated);
      }
      r := Ok(());
    }
  }
}
