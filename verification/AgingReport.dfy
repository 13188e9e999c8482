/**
 * The accounts-receivable aging report: positive balances grouped by customer and cached customer
 * name, split into five buckets by whole days overdue, greatest total first.
 */
module AgingReport {
  import opened Sums
  import Receivables
  import BooksInvariant

  const TICKS_PER_DAY: int := 864000000000

  /** What the query selects of an invoice; due dates and the current date are in ticks. */
  datatype Open = Open(customer: int, name: string, outstanding: int, dueDate: int)

  datatype Key = Key(customer: int, name: string)

  datatype Bucket = Current | Days1To30 | Days31To60 | Days61To90 | Over90Days

  datatype Row = Row(key: Key, total: int, current: int, days1To30: int, days31To60: int, days61To90: int, over90Days: int)

  function Where<T(==)>(test: T -> bool, rows: seq<T>): seq<T> {
    if rows == [] then []
    else if test(rows[0]) then [rows[0]] + Where(test, rows[1..])
    else Where(test, rows[1..])
  }

  function KeyOf(e: Open): Key { Key(e.customer, e.name) }

  function Owed(): Open -> int { (e: Open) => e.outstanding }

  function IsPositive(): Open -> bool { (e: Open) => e.outstanding > 0 }

  function HasKey(k: Key): Open -> bool { (e: Open) => KeyOf(e) == k }

  /** Whole days, the part of a day cut off. */
  function DaysOverdue(today: int, due: int): int { if today > due then (today - due) / TICKS_PER_DAY else 0 }

  function InBucket(b: Bucket, days: int): bool {
    match b
    case Current => days <= 0
    case Days1To30 => 0 < days <= 30
    case Days31To60 => 30 < days <= 60
    case Days61To90 => 60 < days <= 90
    case Over90Days => 90 < days
  }

  function Aged(b: Bucket, today: int): Open -> bool { (e: Open) => InBucket(b, DaysOverdue(today, e.dueDate)) }

  /** The groups' keys in order of first appearance. */
  function Keys(entries: seq<Open>): (keys: seq<Key>)
    decreases |entries|
  {
    if entries == [] then []
    else
      var last := |entries| - 1;
      var keys := Keys(entries[..last]);
      if KeyOf(entries[last]) in keys then keys else keys + [KeyOf(entries[last])]
  }

  function RowOf(k: Key, entries: seq<Open>, today: int): Row {
    var group := Where(HasKey(k), entries);
    Row(k, Sum(Owed(), group),
        Sum(Owed(), Where(Aged(Current, today), group)), Sum(Owed(), Where(Aged(Days1To30, today), group)),
        Sum(Owed(), Where(Aged(Days31To60, today), group)), Sum(Owed(), Where(Aged(Days61To90, today), group)),
        Sum(Owed(), Where(Aged(Over90Days, today), group)))
  }

  function RowsOf(keys: seq<Key>, entries: seq<Open>, today: int): seq<Row> {
    if keys == [] then [] else [RowOf(keys[0], entries, today)] + RowsOf(keys[1..], entries, today)
  }

  function Insert(row: Row, rows: seq<Row>): seq<Row> {
    if rows == [] then [row]
    else if row.total >= rows[0].total then [row] + rows
    else [rows[0]] + Insert(row, rows[1..])
  }

  /** The stable sort by descending total. */
  function Sorted(rows: seq<Row>): seq<Row> {
    if rows == [] then [] else Insert(rows[0], Sorted(rows[1..]))
  }

  function Report(invoices: seq<Open>, today: int): seq<Row> {
    var entries := Where(IsPositive(), invoices);
    Sorted(RowsOf(Keys(entries), entries, today))
  }

  // ---------------------------------------------------------------- sums over selections

  function Only<T>(test: T -> bool, measure: T -> int): T -> int { (e: T) => if test(e) then measure(e) else 0 }

  lemma {:induction false} SumWhere<T>(test: T -> bool, measure: T -> int, rows: seq<T>)
    ensures Sum(measure, Where(test, rows)) == Sum(Only(test, measure), rows)
  {
    if rows != [] {
      SumWhere(test, measure, rows[1..]);
      SumConcat(measure, [rows[0]], Where(test, rows[1..]));
    }
  }

  lemma {:induction false} WhereMembers<T>(test: T -> bool, rows: seq<T>)
    ensures forall e :: e in Where(test, rows) <==> e in rows && test(e)
  {
    if rows != [] { WhereMembers(test, rows[1..]); }
  }

  lemma {:induction false} WhereConcat<T>(test: T -> bool, a: seq<T>, b: seq<T>)
    ensures Where(test, a + b) == Where(test, a) + Where(test, b)
  {
    if a == [] {
      assert a + b == b;
    } else {
      assert (a + b)[1..] == a[1..] + b;
      WhereConcat(test, a[1..], b);
    }
  }

  // ---------------------------------------------------------------- the sort

  predicate Descending(rows: seq<Row>) { forall i, j :: 0 <= i < j < |rows| ==> rows[i].total >= rows[j].total }

  lemma {:induction false} InsertSum(measure: Row -> int, row: Row, rows: seq<Row>)
    ensures Sum(measure, Insert(row, rows)) == measure(row) + Sum(measure, rows)
  {
    if rows != [] {
      var at := Insert(row, rows);
      if row.total < rows[0].total {
        InsertSum(measure, row, rows[1..]);
        assert at[1..] == Insert(row, rows[1..]);
      } else {
        assert at[1..] == rows;
      }
    }
  }

  /** Sorting keeps every sum over the rows, in particular how often each row occurs. */
  lemma {:induction false} SortedSum(measure: Row -> int, rows: seq<Row>)
    ensures Sum(measure, Sorted(rows)) == Sum(measure, rows)
  {
    if rows != [] {
      SortedSum(measure, rows[1..]);
      InsertSum(measure, rows[0], Sorted(rows[1..]));
    }
  }

  lemma {:induction false} InsertMembers(row: Row, rows: seq<Row>)
    ensures forall r :: r in Insert(row, rows) <==> r == row || r in rows
  {
    if rows != [] && row.total < rows[0].total { InsertMembers(row, rows[1..]); }
  }

  lemma {:induction false} SortedMembers(rows: seq<Row>)
    ensures forall r :: r in Sorted(rows) <==> r in rows
  {
    if rows != [] {
      SortedMembers(rows[1..]);
      InsertMembers(rows[0], Sorted(rows[1..]));
    }
  }

  lemma {:induction false} InsertDescending(row: Row, rows: seq<Row>)
    requires Descending(rows)
    ensures Descending(Insert(row, rows))
  {
    if rows != [] && row.total < rows[0].total {
      InsertDescending(row, rows[1..]);
      InsertMembers(row, rows[1..]);
      var rest := Insert(row, rows[1..]);
      forall r | r in rest ensures rows[0].total >= r.total {
        if r != row {
          var i :| 0 <= i < |rows[1..]| && rows[1..][i] == r;
          assert r == rows[i + 1];
        }
      }
      forall j | 0 <= j < |rest| ensures rows[0].total >= rest[j].total { assert rest[j] in rest; }
    }
  }

  lemma {:induction false} SortedDescending(rows: seq<Row>)
    ensures Descending(Sorted(rows))
  {
    if rows != [] {
      SortedDescending(rows[1..]);
      InsertDescending(rows[0], Sorted(rows[1..]));
    }
  }

  function TotalIs(t: int): Row -> bool { (r: Row) => r.total == t }

  lemma {:induction false} InsertStable(row: Row, rows: seq<Row>, t: int)
    ensures Where(TotalIs(t), Insert(row, rows)) == Where(TotalIs(t), [row] + rows)
  {
    assert ([row] + rows)[1..] == rows;
    if rows != [] && row.total < rows[0].total {
      InsertStable(row, rows[1..], t);
      assert ([row] + rows[1..])[1..] == rows[1..];
      assert ([rows[0]] + Insert(row, rows[1..]))[1..] == Insert(row, rows[1..]);
    }
  }

  lemma {:induction false} SortedStable(rows: seq<Row>, t: int)
    ensures Where(TotalIs(t), Sorted(rows)) == Where(TotalIs(t), rows)
  {
    if rows != [] {
      SortedStable(rows[1..], t);
      InsertStable(rows[0], Sorted(rows[1..]), t);
      assert ([rows[0]] + Sorted(rows[1..]))[1..] == Sorted(rows[1..]);
    }
  }

  /** The report is in descending order, and rows of equal total stand in the order of their groups. */
  lemma {:induction false} ReportOrder(invoices: seq<Open>, today: int, t: int)
    ensures var entries := Where(IsPositive(), invoices);
      && Descending(Report(invoices, today))
      && Where(TotalIs(t), Report(invoices, today)) == Where(TotalIs(t), RowsOf(Keys(entries), entries, today))
  {
    var entries := Where(IsPositive(), invoices);
    SortedDescending(RowsOf(Keys(entries), entries, today));
    SortedStable(RowsOf(Keys(entries), entries, today), t);
  }

  // ---------------------------------------------------------------- rows

  /** How late a bucket's invoices are, in ticks: 31 days are the first that no longer count as 30. */
  predicate LateBy(b: Bucket, late: int) {
    match b
    case Current => late < TicksOf(1)
    case Days1To30 => TicksOf(1) <= late < TicksOf(31)
    case Days31To60 => TicksOf(31) <= late < TicksOf(61)
    case Days61To90 => TicksOf(61) <= late < TicksOf(91)
    case Over90Days => TicksOf(91) <= late
  }

  /** Ten million ticks a second. */
  function TicksOf(days: int): int { days * 24 * 60 * 60 * 10000000 }

  function Share(row: Row, b: Bucket): int {
    match b
    case Current => row.current
    case Days1To30 => row.days1To30
    case Days31To60 => row.days31To60
    case Days61To90 => row.days61To90
    case Over90Days => row.over90Days
  }

  predicate Carries(e: Open, k: Key) { e.customer == k.customer && e.name == k.name }

  /** The positive balances of one customer under one name. */
  function OwedBy(k: Key): Open -> int { (e: Open) => if e.outstanding > 0 && Carries(e, k) then e.outstanding else 0 }

  function OwedLate(k: Key, b: Bucket, today: int): Open -> int {
    (e: Open) => if e.outstanding > 0 && Carries(e, k) && LateBy(b, today - e.dueDate) then e.outstanding else 0
  }

  lemma {:induction false} BucketByTicks(b: Bucket, today: int, due: int)
    ensures InBucket(b, DaysOverdue(today, due)) <==> LateBy(b, today - due)
  {
  }

  /** Every entry falls into one bucket. */
  lemma {:induction false} BucketsCover(entries: seq<Open>, today: int)
    ensures Sum(Owed(), entries) ==
      Sum(Only(Aged(Current, today), Owed()), entries) + Sum(Only(Aged(Days1To30, today), Owed()), entries) +
      Sum(Only(Aged(Days31To60, today), Owed()), entries) + Sum(Only(Aged(Days61To90, today), Owed()), entries) +
      Sum(Only(Aged(Over90Days, today), Owed()), entries)
  {
    if entries != [] { BucketsCover(entries[1..], today); }
  }

  lemma {:induction false} RowTotal(k: Key, invoices: seq<Open>, today: int)
    ensures RowOf(k, Where(IsPositive(), invoices), today).total == Sum(OwedBy(k), invoices)
  {
    var entries := Where(IsPositive(), invoices);
    SumWhere(HasKey(k), Owed(), entries);
    SumWhere(IsPositive(), Only(HasKey(k), Owed()), invoices);
    SumAlike(Only(IsPositive(), Only(HasKey(k), Owed())), invoices, OwedBy(k), invoices);
  }

  lemma {:induction false} RowShare(k: Key, b: Bucket, invoices: seq<Open>, today: int)
    ensures Share(RowOf(k, Where(IsPositive(), invoices), today), b) == Sum(OwedLate(k, b, today), invoices)
  {
    var entries := Where(IsPositive(), invoices);
    var group := Where(HasKey(k), entries);
    var aged := Only(Aged(b, today), Owed());
    SumWhere(Aged(b, today), Owed(), group);
    SumWhere(HasKey(k), aged, entries);
    SumWhere(IsPositive(), Only(HasKey(k), aged), invoices);
    forall i | 0 <= i < |invoices|
      ensures Only(IsPositive(), Only(HasKey(k), aged))(invoices[i]) == OwedLate(k, b, today)(invoices[i])
    {
      BucketByTicks(b, today, invoices[i].dueDate);
    }
    SumAlike(Only(IsPositive(), Only(HasKey(k), aged)), invoices, OwedLate(k, b, today), invoices);
  }

  lemma {:induction false} RowsMembers(keys: seq<Key>, entries: seq<Open>, today: int, row: Row)
    ensures row in RowsOf(keys, entries, today) <==> row.key in keys && row == RowOf(row.key, entries, today)
  {
    hide Where;
    if keys != [] {
      RowsMembers(keys[1..], entries, today, row);
      assert RowOf(keys[0], entries, today).key == keys[0];
    }
  }

  /**
   * A reported row holds the positive balances of its customer and name, each bucket those that are
   * late by its range of ticks, and the buckets add up to the total.
   */
  lemma {:induction false} ReportedRow(invoices: seq<Open>, today: int, row: Row, b: Bucket)
    requires row in Report(invoices, today)
    ensures row.total == Sum(OwedBy(row.key), invoices)
    ensures Share(row, b) == Sum(OwedLate(row.key, b, today), invoices)
    ensures row.current + row.days1To30 + row.days31To60 + row.days61To90 + row.over90Days == row.total
  {
    var entries := Where(IsPositive(), invoices);
    SortedMembers(RowsOf(Keys(entries), entries, today));
    RowsMembers(Keys(entries), entries, today, row);
    RowTotal(row.key, invoices, today);
    RowShare(row.key, b, invoices, today);
    var group := Where(HasKey(row.key), entries);
    BucketsCover(group, today);
    SumWhere(Aged(Current, today), Owed(), group);
    SumWhere(Aged(Days1To30, today), Owed(), group);
    SumWhere(Aged(Days31To60, today), Owed(), group);
    SumWhere(Aged(Days61To90, today), Owed(), group);
    SumWhere(Aged(Over90Days, today), Owed(), group);
  }

  // ---------------------------------------------------------------- every invoice once

  function IsKey(k: Key): Key -> int { (q: Key) => if q == k then 1 else 0 }

  function RowHasKey(k: Key): Row -> int { (r: Row) => if r.key == k then 1 else 0 }

  lemma {:induction false} KeysOnce(entries: seq<Open>, k: Key)
    ensures k in Keys(entries) <==> exists e :: e in entries && KeyOf(e) == k
    ensures Sum(IsKey(k), Keys(entries)) == if k in Keys(entries) then 1 else 0
    decreases |entries|
  {
    if entries != [] {
      var last := |entries| - 1;
      var before, e := entries[..last], entries[last];
      assert entries == before + [e];
      KeysOnce(before, k);
      SumAppend(IsKey(k), Keys(before), KeyOf(e));
      if KeyOf(e) == k {
        assert e in entries;
      }
    }
  }

  /** There is one row for each customer and name with a positive balance, and no other row. */
  lemma {:induction false} OneRowEach(invoices: seq<Open>, today: int, k: Key)
    ensures Sum(RowHasKey(k), Report(invoices, today)) ==
      if exists e :: e in invoices && e.outstanding > 0 && Carries(e, k) then 1 else 0
  {
    var entries := Where(IsPositive(), invoices);
    var keys := Keys(entries);
    WhereMembers(IsPositive(), invoices);
    KeysOnce(entries, k);
    SortedSum(RowHasKey(k), RowsOf(keys, entries, today));
    RowsKeys(keys, entries, today, k);
    assert forall e :: e in entries <==> e in invoices && e.outstanding > 0;
  }

  lemma {:induction false} RowsKeys(keys: seq<Key>, entries: seq<Open>, today: int, k: Key)
    ensures Sum(RowHasKey(k), RowsOf(keys, entries, today)) == Sum(IsKey(k), keys)
  {
    if keys != [] { RowsKeys(keys[1..], entries, today, k); }
  }

  /** Total of the rows whose key is selected. */
  function TotalAmong(among: Key -> bool): Row -> int { (r: Row) => if among(r.key) then r.total else 0 }

  function OwedAmong(among: Key -> bool): Open -> int {
    (e: Open) => if e.outstanding > 0 && among(Key(e.customer, e.name)) then e.outstanding else 0
  }

  function GroupSum(among: Key -> bool, entries: seq<Open>): Key -> int {
    (k: Key) => if among(k) then Sum(Only(HasKey(k), Owed()), entries) else 0
  }

  function EntryAt(among: Key -> bool, e: Open): Key -> int {
    (k: Key) => if among(k) && k == KeyOf(e) then e.outstanding else 0
  }

  lemma {:induction false} EntryOnce(among: Key -> bool, e: Open, keys: seq<Key>)
    ensures Sum(EntryAt(among, e), keys) == if among(KeyOf(e)) then e.outstanding * Sum(IsKey(KeyOf(e)), keys) else 0
  {
    if keys != [] { EntryOnce(among, e, keys[1..]); }
  }

  lemma {:induction false} GroupsGrow(among: Key -> bool, before: seq<Open>, e: Open, keys: seq<Key>)
    ensures Sum(GroupSum(among, before + [e]), keys) == Sum(GroupSum(among, before), keys) + Sum(EntryAt(among, e), keys)
  {
    forall i | 0 <= i < |keys|
      ensures GroupSum(among, before + [e])(keys[i]) == GroupSum(among, before)(keys[i]) + EntryAt(among, e)(keys[i])
    {
      SumAppend(Only(HasKey(keys[i]), Owed()), before, e);
    }
    SumDifference(GroupSum(among, before + [e]), keys, GroupSum(among, before), keys, EntryAt(among, e), keys);
  }

  lemma {:induction false} NoGroup(entries: seq<Open>, k: Key)
    requires k !in Keys(entries)
    ensures Sum(Only(HasKey(k), Owed()), entries) == 0
  {
    KeysOnce(entries, k);
    forall i | 0 <= i < |entries| ensures Only(HasKey(k), Owed())(entries[i]) == 0 {
      var e := entries[i];
      assert e in entries;
    }
    SumZero(Only(HasKey(k), Owed()), entries);
  }

  function AmongEntries(among: Key -> bool): Open -> int { (e: Open) => if among(KeyOf(e)) then e.outstanding else 0 }

  lemma {:induction false} GroupsCover(among: Key -> bool, entries: seq<Open>)
    ensures Sum(GroupSum(among, entries), Keys(entries)) == Sum(AmongEntries(among), entries)
    decreases |entries|
  {
    if entries != [] {
      var last := |entries| - 1;
      var before, e := entries[..last], entries[last];
      var keys, k := Keys(before), KeyOf(e);
      assert entries == before + [e];
      GroupsCover(among, before);
      SumAppend(AmongEntries(among), before, e);
      KeysOnce(before, k);
      GroupsGrow(among, before, e, Keys(entries));
      EntryOnce(among, e, Keys(entries));
      if k !in keys {
        SumAppend(GroupSum(among, before), keys, k);
        SumAppend(IsKey(k), keys, k);
        NoGroup(before, k);
      }
    }
  }

  lemma {:induction false} RowsSums(among: Key -> bool, keys: seq<Key>, entries: seq<Open>, today: int)
    ensures Sum(TotalAmong(among), RowsOf(keys, entries, today)) == Sum(GroupSum(among, entries), keys)
  {
    if keys != [] {
      RowsSums(among, keys[1..], entries, today);
      SumWhere(HasKey(keys[0]), Owed(), entries);
    }
  }

  /** Whichever customers and names are selected, their rows total their positive balances. */
  lemma {:induction false} ReportTotals(invoices: seq<Open>, today: int, among: Key -> bool)
    ensures Sum(TotalAmong(among), Report(invoices, today)) == Sum(OwedAmong(among), invoices)
  {
    var entries := Where(IsPositive(), invoices);
    var keys := Keys(entries);
    SortedSum(TotalAmong(among), RowsOf(keys, entries, today));
    RowsSums(among, keys, entries, today);
    GroupsCover(among, entries);
    SumWhere(IsPositive(), AmongEntries(among), invoices);
    assert forall e: Open :: KeyOf(e) == Key(e.customer, e.name);
    SumAlike(Only(IsPositive(), AmongEntries(among)), invoices, OwedAmong(among), invoices);
  }

  // ---------------------------------------------------------------- the report and the books

  function OfCustomer(c: int): Key -> bool { (k: Key) => k.customer == c }

  /** The books' invoices under the customer names cached on them. */
  function Listed(invs: seq<Receivables.Invoice>, names: seq<string>): (entries: seq<Open>)
    requires |names| == |invs|
    ensures |entries| == |invs|
  {
    if invs == [] then []
    else [Open(invs[0].customer, names[0], invs[0].outstanding, invs[0].dueDate)] + Listed(invs[1..], names[1..])
  }

  /** What the customer's negative balances take off. */
  function Negative(c: int): Receivables.Invoice -> int {
    (i: Receivables.Invoice) => if i.customer == c then Max(-i.outstanding, 0) else 0
  }

  lemma {:induction false} ListedOwed(invs: seq<Receivables.Invoice>, names: seq<string>, c: int)
    requires |names| == |invs|
    ensures Sum(OwedAmong(OfCustomer(c)), Listed(invs, names)) ==
      Sum(Receivables.OutstandingOf(c), invs) + Sum(Negative(c), invs)
  {
    if invs != [] {
      var first := Open(invs[0].customer, names[0], invs[0].outstanding, invs[0].dueDate);
      ListedOwed(invs[1..], names[1..], c);
      assert Listed(invs, names)[1..] == Listed(invs[1..], names[1..]);
      assert Listed(invs, names)[0] == first;
      assert OfCustomer(c)(KeyOf(first)) <==> first.customer == c;
      assert OwedAmong(OfCustomer(c))(first) == if first.customer == c then Max(first.outstanding, 0) else 0;
      assert OwedAmong(OfCustomer(c))(first) == Receivables.OutstandingOf(c)(invs[0]) + Negative(c)(invs[0]);
    }
  }

  /**
   * In every state the books can reach, and whatever names are cached, the rows of a customer add up
   * to the receivables of the customer's account exactly if none of its balances is negative.
   */
  lemma {:induction false} ReportMatchesAccount(b: Receivables.Books, names: seq<string>, today: int, c: int)
    requires BooksInvariant.Sound(b) && |names| == |b.invoices|
    ensures Sum(TotalAmong(OfCustomer(c)), Report(Listed(b.invoices, names), today)) ==
        Receivables.ReceivablesOf(b.accounts, c)
      <==> forall j :: 0 <= j < |b.invoices| && b.invoices[j].customer == c ==> b.invoices[j].outstanding >= 0
  {
    ReportTotals(Listed(b.invoices, names), today, OfCustomer(c));
    ListedOwed(b.invoices, names, c);
    SumNonNegative(Negative(c), b.invoices);
    if Sum(Negative(c), b.invoices) == 0 {
      forall j | 0 <= j < |b.invoices| && b.invoices[j].customer == c ensures b.invoices[j].outstanding >= 0 {
        assert Negative(c)(b.invoices[j]) == 0;
      }
    }
  }
}
