/** Automatic allocation pays a customer's oldest debts first, and paying twice is paying once. */
module FifoAllocation {
  import opened Basics
  import opened Sums
  import opened Receivables
  import opened BooksInvariant

  // ---------------------------------------------------------------- the due order

  lemma {:induction false} InsertKeepsOrder(invs: seq<Invoice>, ids: seq<nat>, j: nat)
    requires AllBelow(ids, |invs|) && j < |invs| && InDueOrder(invs, ids) && j !in ids
    ensures InDueOrder(invs, InsertByDue(invs, ids, j))
    ensures forall k: nat :: k in InsertByDue(invs, ids, j) <==> k == j || k in ids
  {
    if ids != [] && !Before(invs, j, ids[0]) {
      InsertKeepsOrder(invs, ids[1..], j);
      var tail := InsertByDue(invs, ids[1..], j);
      forall k | 0 <= k < |tail| ensures Before(invs, ids[0], tail[k]) {
        assert tail[k] in tail;
        if tail[k] in ids[1..] {
          var m :| 0 <= m < |ids[1..]| && ids[1..][m] == tail[k];
          assert Before(invs, ids[0], ids[m + 1]);
        }
      }
    }
  }

  lemma {:induction false} NothingInDueOrder(invs: seq<Invoice>)
    ensures InDueOrder(invs, [])
  {
  }

  lemma {:induction false} DueOrderSorted(invs: seq<Invoice>, c: int, n: nat)
    requires n <= |invs|
    ensures InDueOrder(invs, DueOrder(invs, c, n))
    ensures forall k: nat :: k in DueOrder(invs, c, n) <==> k < n && invs[k].customer == c
  {
    hide Before, InsertByDue, InDueOrder;
    if n == 0 {
      NothingInDueOrder(invs);
    } else {
      DueOrderSorted(invs, c, n - 1);
      if invs[n - 1].customer == c { InsertKeepsOrder(invs, DueOrder(invs, c, n - 1), n - 1); }
    }
  }

  lemma {:induction false} OpenOnlySorted(invs: seq<Invoice>, ids: seq<nat>)
    requires AllBelow(ids, |invs|) && InDueOrder(invs, ids)
    ensures InDueOrder(invs, OpenOnly(invs, ids))
    ensures forall k: nat :: k in OpenOnly(invs, ids) <==> k in ids && invs[k].outstanding > 0
  {
    if ids != [] {
      OpenOnlySorted(invs, ids[1..]);
      var tail := OpenOnly(invs, ids[1..]);
      forall k | 0 <= k < |tail| ensures Before(invs, ids[0], tail[k]) {
        assert tail[k] in tail;
        var m :| 0 <= m < |ids[1..]| && ids[1..][m] == tail[k];
        assert Before(invs, ids[0], ids[m + 1]);
      }
    }
  }

  /** The queue holds exactly the customer's open invoices, each once, by due date and then by invoice date, both ascending. */
  lemma {:induction false} OpenQueueExact(invs: seq<Invoice>, c: int)
    ensures var queue := OpenQueue(invs, c);
      && InDueOrder(invs, queue) && OpenFor(invs, c, queue)
      && (forall k: nat :: k in queue <==> k < |invs| && invs[k].customer == c && invs[k].outstanding > 0)
      && forall x, y :: 0 <= x < y < |queue| ==>
           var a, b := invs[queue[x]], invs[queue[y]];
           a.dueDate < b.dueDate || (a.dueDate == b.dueDate && a.invoiceDate <= b.invoiceDate)
  {
    DueOrderSorted(invs, c, |invs|);
    OpenOnlySorted(invs, DueOrder(invs, c, |invs|));
    var queue := OpenQueue(invs, c);
    forall i | 0 <= i < |queue| ensures invs[queue[i]].customer == c && invs[queue[i]].outstanding > 0 {
      assert queue[i] in queue;
    }
    forall i, j | 0 <= i < j < |queue| ensures queue[i] != queue[j] {
      assert Before(invs, queue[i], queue[j]);
    }
  }

  // ---------------------------------------------------------------- how much is allocated

  function OpenOf(c: int): Invoice -> int {
    (i: Invoice) => if i.customer == c then Max(i.outstanding, 0) else 0
  }

  function OpenAt(invs: seq<Invoice>): nat -> int { (j: nat) => if j < |invs| then Max(invs[j].outstanding, 0) else 0 }

  lemma {:induction false} InsertSum(invs: seq<Invoice>, ids: seq<nat>, j: nat)
    requires AllBelow(ids, |invs|) && j < |invs|
    ensures Sum(OpenAt(invs), InsertByDue(invs, ids, j)) == Sum(OpenAt(invs), ids) + OpenAt(invs)(j)
  {
    if ids != [] && !Before(invs, j, ids[0]) {
      InsertSum(invs, ids[1..], j);
    } else {
      assert ([j] + ids)[1..] == ids;
    }
  }

  lemma {:induction false} DueOrderSum(invs: seq<Invoice>, c: int, n: nat)
    requires n <= |invs|
    ensures Sum(OpenAt(invs), DueOrder(invs, c, n)) == Sum(OpenOf(c), invs[..n])
  {
    if n > 0 {
      DueOrderSum(invs, c, n - 1);
      assert invs[..n] == invs[..n - 1] + [invs[n - 1]];
      SumAppend(OpenOf(c), invs[..n - 1], invs[n - 1]);
      if invs[n - 1].customer == c { InsertSum(invs, DueOrder(invs, c, n - 1), n - 1); }
    }
  }

  lemma {:induction false} OpenOnlySum(invs: seq<Invoice>, ids: seq<nat>)
    requires AllBelow(ids, |invs|)
    ensures Sum(OpenAt(invs), OpenOnly(invs, ids)) == Sum(OpenAt(invs), ids)
  {
    if ids != [] {
      OpenOnlySum(invs, ids[1..]);
      if invs[ids[0]].outstanding > 0 {
        assert ([ids[0]] + OpenOnly(invs, ids[1..]))[1..] == OpenOnly(invs, ids[1..]);
      } else {
        assert [] + OpenOnly(invs, ids[1..]) == OpenOnly(invs, ids[1..]);
      }
    }
  }

  lemma {:induction false} OpenQueueSum(invs: seq<Invoice>, c: int)
    ensures Sum(OpenAt(invs), OpenQueue(invs, c)) == Sum(OpenOf(c), invs)
  {
    OpenOnlySum(invs, DueOrder(invs, c, |invs|));
    DueOrderSum(invs, c, |invs|);
    assert invs[..|invs|] == invs;
  }

  // ---------------------------------------------------------------- filling invoices in order

  /** Pays along `ids`, passing over invoices with nothing outstanding. */
  function Fill(invs: seq<Invoice>, ids: seq<nat>, remaining: int): (r: seq<Invoice>)
    requires AllBelow(ids, |invs|)
    ensures |r| == |invs|
    decreases ids
  {
    if ids == [] then invs
    else
      var j := ids[0];
      Fill(invs[j := Filled(invs[j], remaining)], ids[1..], remaining - FillAmount(invs[j], remaining))
  }

  function FillAmount(inv: Invoice, remaining: int): int { Max(Min(inv.outstanding, remaining), 0) }

  function Filled(inv: Invoice, remaining: int): Invoice {
    var amount := FillAmount(inv, remaining);
    if amount > 0 then PayDown(inv, amount) else inv
  }

  lemma {:induction false} FillFrame(invs: seq<Invoice>, ids: seq<nat>, remaining: int, j: nat, inv: Invoice)
    requires AllBelow(ids, |invs|) && j < |invs| && j !in ids
    ensures Fill(invs, ids, remaining)[j] == invs[j]
    ensures Fill(invs[j := inv], ids, remaining) == Fill(invs, ids, remaining)[j := inv]
    decreases ids
  {
    if ids != [] {
      var k := ids[0];
      assert k in ids;
      var next := invs[k := Filled(invs[k], remaining)];
      assert invs[j := inv][k := next[k]] == next[j := inv];
      FillFrame(next, ids[1..], remaining - FillAmount(invs[k], remaining), j, inv);
    }
  }

  lemma {:induction false} OpenOnlyFrame(invs: seq<Invoice>, ids: seq<nat>, j: nat, inv: Invoice)
    requires AllBelow(ids, |invs|) && j < |invs| && j !in ids
    ensures OpenOnly(invs[j := inv], ids) == OpenOnly(invs, ids)
  {
    if ids != [] {
      assert ids[0] in ids;
      OpenOnlyFrame(invs, ids[1..], j, inv);
    }
  }

  lemma {:induction false} FillDry(invs: seq<Invoice>, ids: seq<nat>, remaining: int)
    requires AllBelow(ids, |invs|) && remaining <= 0
    ensures Fill(invs, ids, remaining) == invs
    decreases ids
  {
    if ids != [] {
      assert invs[ids[0] := Filled(invs[ids[0]], remaining)] == invs;
      FillDry(invs, ids[1..], remaining);
    }
  }

  lemma {:induction false} AutoAllocsHead(invs: seq<Invoice>, queue: seq<nat>, remaining: int)
    requires AllBelow(queue, |invs|) && queue != [] && remaining > 0
    ensures var j := queue[0];
      var amount := Min(invs[j].outstanding, remaining);
      var next := invs[j := PayDown(invs[j], amount)];
      ApplyAll(invs, AutoAllocs(invs, queue, remaining)) ==
      ApplyAll(next, AutoAllocs(next, queue[1..], remaining - amount))
  {
    var j := queue[0];
    var amount := Min(invs[j].outstanding, remaining);
    var next := invs[j := PayDown(invs[j], amount)];
    var rest := AutoAllocs(next, queue[1..], remaining - amount);
    var all := AutoAllocs(invs, queue, remaining);
    assert all == [Allocation(j, amount)] + rest && all[1..] == rest;
  }

  /** The head of the due order is either skipped or heads the open queue. */
  lemma {:induction false} OpenOnlyHead(invs: seq<Invoice>, ids: seq<nat>, inv: Invoice)
    requires AllBelow(ids, |invs|) && ids != [] && ids[0] !in ids[1..]
    ensures invs[ids[0]].outstanding > 0 ==>
      var queue := OpenOnly(invs, ids);
      queue != [] && queue[0] == ids[0] && queue[1..] == OpenOnly(invs[ids[0] := inv], ids[1..])
    ensures invs[ids[0]].outstanding <= 0 ==> OpenOnly(invs, ids) == OpenOnly(invs, ids[1..])
  {
    OpenOnlyFrame(invs, ids[1..], ids[0], inv);
  }

  /** Allocating along the open invoices is filling along all of them. */
  lemma {:induction false} AutoFills(invs: seq<Invoice>, ids: seq<nat>, remaining: int)
    requires AllBelow(ids, |invs|) && Distinct(ids)
    ensures ApplyAll(invs, AutoAllocs(invs, OpenOnly(invs, ids), remaining)) == Fill(invs, ids, remaining)
    decreases ids
  {
    if remaining <= 0 {
      FillDry(invs, ids, remaining);
    } else if ids != [] {
      var j := ids[0];
      assert j !in ids[1..];
      var next := invs[j := Filled(invs[j], remaining)];
      OpenOnlyHead(invs, ids, next[j]);
      if invs[j].outstanding > 0 {
        AutoAllocsHead(invs, OpenOnly(invs, ids), remaining);
      } else {
        assert next == invs;
      }
      AutoFills(next, ids[1..], remaining - FillAmount(invs[j], remaining));
    }
  }

  lemma {:induction false} FilledTwice(inv: Invoice, a: int, b: int)
    requires a >= 0 && b >= 0
    ensures Filled(Filled(inv, a), b) == Filled(inv, a + b)
    ensures FillAmount(inv, a) + FillAmount(Filled(inv, a), b) == FillAmount(inv, a + b)
    ensures 0 <= FillAmount(inv, a) <= a && 0 <= FillAmount(Filled(inv, a), b) <= b
  {
  }

  lemma {:induction false} FillAdditive(invs: seq<Invoice>, ids: seq<nat>, a: int, b: int)
    requires AllBelow(ids, |invs|) && Distinct(ids) && a >= 0 && b >= 0
    ensures Fill(Fill(invs, ids, a), ids, b) == Fill(invs, ids, a + b)
    decreases ids
  {
    if ids != [] {
      var j, rest := ids[0], ids[1..];
      assert j !in rest;
      var once := Filled(invs[j], a);
      var twice := Filled(once, b);
      var a', b' := a - FillAmount(invs[j], a), b - FillAmount(once, b);
      FilledTwice(invs[j], a, b);
      FillFrame(invs[j := once], rest, a', j, twice);
      assert invs[j := once][j := twice] == invs[j := twice];
      FillAdditive(invs[j := twice], rest, a', b');
    }
  }

  /** Once money has reached an invoice, everything due before it is fully paid. */
  lemma {:induction false} FillShape(invs: seq<Invoice>, ids: seq<nat>, remaining: int, i: nat, k: nat)
    requires AllBelow(ids, |invs|) && Distinct(ids) && i < k < |ids|
    requires Fill(invs, ids, remaining)[ids[k]] != invs[ids[k]]
    ensures Fill(invs, ids, remaining)[ids[i]].outstanding <= 0
    decreases ids
  {
    var j, rest := ids[0], ids[1..];
    assert j !in rest;
    var next := invs[j := Filled(invs[j], remaining)];
    var remaining' := remaining - FillAmount(invs[j], remaining);
    FillFrame(next, rest, remaining', j, next[j]);
    if i == 0 {
      if next[j].outstanding > 0 { FillDry(next, rest, remaining'); }
    } else {
      FillShape(next, rest, remaining', i - 1, k - 1);
    }
  }

  predicate SameTerms(a: seq<Invoice>, b: seq<Invoice>) {
    && |a| == |b|
    && forall j :: 0 <= j < |a| ==>
         a[j] == b[j].(amountPaid := a[j].amountPaid, outstanding := a[j].outstanding, status := a[j].status)
  }

  lemma {:induction false} InsertSameTerms(a: seq<Invoice>, b: seq<Invoice>, ids: seq<nat>, j: nat)
    requires SameTerms(a, b) && AllBelow(ids, |a|) && j < |a|
    ensures InsertByDue(a, ids, j) == InsertByDue(b, ids, j)
  {
    if ids != [] { InsertSameTerms(a, b, ids[1..], j); }
  }

  lemma {:induction false} DueOrderSameTerms(a: seq<Invoice>, b: seq<Invoice>, c: int, n: nat)
    requires SameTerms(a, b) && n <= |a|
    ensures DueOrder(a, c, n) == DueOrder(b, c, n)
  {
    if n > 0 {
      DueOrderSameTerms(a, b, c, n - 1);
      InsertSameTerms(a, b, DueOrder(a, c, n - 1), n - 1);
    }
  }

  lemma {:induction false} FillSameTerms(invs: seq<Invoice>, ids: seq<nat>, remaining: int)
    requires AllBelow(ids, |invs|)
    ensures SameTerms(Fill(invs, ids, remaining), invs)
    decreases ids
  {
    if ids != [] {
      var inv := invs[ids[0]];
      FillSameTerms(invs[ids[0] := Filled(inv, remaining)], ids[1..], remaining - FillAmount(inv, remaining));
    }
  }

  lemma {:induction false} AutoTotal(invs: seq<Invoice>, queue: seq<nat>, remaining: int)
    requires AllBelow(queue, |invs|) && Distinct(queue)
    requires forall i :: 0 <= i < |queue| ==> invs[queue[i]].outstanding > 0
    ensures Sum(Amount(), AutoAllocs(invs, queue, remaining)) == Clamp(remaining, 0, Sum(OpenAt(invs), queue))
    ensures Sum(OpenAt(invs), queue) >= 0
    decreases queue
  {
    SumNonNegative(OpenAt(invs), queue);
    if queue != [] {
      var j := queue[0];
      var amount := Min(invs[j].outstanding, remaining);
      var next := invs[j := PayDown(invs[j], amount)];
      AutoTotal(next, queue[1..], remaining - amount);
      SumAlike(OpenAt(next), queue[1..], OpenAt(invs), queue[1..]);
      if remaining > 0 {
        var rest := AutoAllocs(next, queue[1..], remaining - amount);
        assert AutoAllocs(invs, queue, remaining)[1..] == rest;
      }
    }
  }

  // ---------------------------------------------------------------- automatic payments

  lemma {:induction false} AutoPayFills(b: Books, c: int, amount: int)
    ensures Pay(b, c, amount, []).Ok?
    ensures var ids := DueOrder(b.invoices, c, |b.invoices|);
      && Distinct(ids)
      && Pay(b, c, amount, []).value.invoices == Fill(b.invoices, ids, amount)
  {
    var ids := DueOrder(b.invoices, c, |b.invoices|);
    DueOrderSorted(b.invoices, c, |b.invoices|);
    forall i, j | 0 <= i < j < |ids| ensures ids[i] != ids[j] { assert Before(b.invoices, ids[i], ids[j]); }
    AutoFills(b.invoices, ids, amount);
  }

  /** An automatic payment uses what it can: all it has, or all the customer owes. */
  lemma {:induction false} AutoPayAllocates(b: Books, c: int, amount: int)
    ensures Pay(b, c, amount, []).Ok?
    ensures var b' := Pay(b, c, amount, []).value;
      var p := b'.payments[|b.payments|];
      && p.amountAllocated == Clamp(amount, 0, Sum(OpenOf(c), b.invoices))
      && (p.unallocated >= 0 <==> amount >= 0)
      && (p.unallocated > 0 ==> Sum(OpenOf(c), b'.invoices) == 0)
  {
    var invs := b.invoices;
    var queue := OpenQueue(invs, c);
    OpenQueueExact(invs, c);
    OpenQueueSum(invs, c);
    AutoTotal(invs, queue, amount);
    var allocs := AutoAllocs(invs, queue, amount);
    AutoApplicable(invs, c, queue, amount);
    ApplicableOnCustomer(invs, c, allocs);
    OpenAfter(invs, c, allocs);
  }

  lemma {:induction false} OpenAfter(invs: seq<Invoice>, c: int, allocs: seq<Allocation>)
    requires Applicable(invs, c, allocs) && OnCustomer(invs, c, allocs)
    ensures Sum(OpenOf(c), ApplyAll(invs, allocs)) == Sum(OpenOf(c), invs) - Sum(Amount(), allocs)
    decreases allocs
  {
    if allocs != [] {
      var a := allocs[0];
      var paid := PayDown(invs[a.invoice], a.amount);
      var next := invs[a.invoice := paid];
      ApplicableOnCustomer(next, c, allocs[1..]);
      SumUpdate(OpenOf(c), invs, a.invoice, paid);
      OpenAfter(next, c, allocs[1..]);
    }
  }

  /** A fully paid prefix in due order, at most one invoice in between, an untouched suffix. */
  lemma {:induction false} AutoPayOldestFirst(b: Books, c: int, amount: int, i: nat, j: nat)
    requires i < |b.invoices| && j < |b.invoices| && b.invoices[i].customer == b.invoices[j].customer == c
    requires b.invoices[i].dueDate < b.invoices[j].dueDate
      || (b.invoices[i].dueDate == b.invoices[j].dueDate && b.invoices[i].invoiceDate < b.invoices[j].invoiceDate)
      || (b.invoices[i].dueDate == b.invoices[j].dueDate && b.invoices[i].invoiceDate == b.invoices[j].invoiceDate && i < j)
    ensures Pay(b, c, amount, []).Ok?
    ensures var invs := Pay(b, c, amount, []).value.invoices;
      |invs| == |b.invoices| && (invs[j] != b.invoices[j] ==> invs[i].outstanding <= 0)
  {
    AutoPayFills(b, c, amount);
    var ids := DueOrder(b.invoices, c, |b.invoices|);
    DueOrderSorted(b.invoices, c, |b.invoices|);
    assert i in ids && j in ids;
    var x :| 0 <= x < |ids| && ids[x] == i;
    var y :| 0 <= y < |ids| && ids[y] == j;
    if Fill(b.invoices, ids, amount)[j] != b.invoices[j] { FillShape(b.invoices, ids, amount, x, y); }
  }

  /** Invoices of other customers are not touched. */
  lemma {:induction false} AutoPayOthers(b: Books, c: int, amount: int, j: nat)
    requires j < |b.invoices| && b.invoices[j].customer != c
    ensures Pay(b, c, amount, []).Ok?
    ensures var invs := Pay(b, c, amount, []).value.invoices; |invs| == |b.invoices| && invs[j] == b.invoices[j]
  {
    AutoPayFills(b, c, amount);
    DueOrderSorted(b.invoices, c, |b.invoices|);
    FillFrame(b.invoices, DueOrder(b.invoices, c, |b.invoices|), amount, j, b.invoices[j]);
  }

  /** Two payments one after the other leave every invoice as one payment of the sum does. */
  lemma {:induction false} AutoPayAdditive(b: Books, c: int, first: int, second: int)
    requires first >= 0 && second >= 0
    ensures Pay(b, c, first, []).Ok? && Pay(b, c, first + second, []).Ok?
    ensures var between := Pay(b, c, first, []).value;
      && Pay(between, c, second, []).Ok?
      && Pay(between, c, second, []).value.invoices == Pay(b, c, first + second, []).value.invoices
  {
    var invs := b.invoices;
    var ids := DueOrder(invs, c, |invs|);
    AutoPayFills(b, c, first);
    AutoPayFills(b, c, first + second);
    var between := Pay(b, c, first, []).value;
    AutoPayFills(between, c, second);
    FillSameTerms(invs, ids, first);
    DueOrderSameTerms(between.invoices, invs, c, |invs|);
    FillAdditive(invs, ids, first, second);
  }
}
