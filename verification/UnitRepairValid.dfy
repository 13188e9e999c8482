/** The rebuild respects the schema, so the whole repair can be run again, and then changes nothing. */
module UnitRepairValid {
  import opened Basics
  import opened UnitCatalog
  import opened UnitMerge
  import opened UnitRebuild
  import opened UnitRebaseUpdate
  import opened UnitRepair

  // ---------------------------------------------------------------- lawful conversion lists

  predicate Compatible(v: Conversion, w: Conversion) {
    v.item == w.item ==> v.from != w.from && !(v.from == w.to && v.to == w.from)
  }

  lemma {:induction false} HeadLawful(table: seq<Conversion>)
    requires ConversionsLawful(table) && table != []
    ensures ConversionsLawful(table[1..]) && table[0].from != table[0].to
    ensures forall w :: w in table[1..] ==> Compatible(table[0], w)
  {
    forall i | 0 <= i < |table[1..]| ensures table[1..][i] == table[i + 1] {}
  }

  lemma {:induction false} ConcatLawful(a: seq<Conversion>, b: seq<Conversion>)
    requires ConversionsLawful(a) && ConversionsLawful(b)
    requires forall v, w :: v in a && w in b ==> Compatible(v, w)
    ensures ConversionsLawful(a + b)
  {
    var all := a + b;
    forall i, j | 0 <= i < j < |all| ensures Compatible(all[i], all[j]) {
      if i < |a| <= j { assert all[i] in a && all[j] in b; }
    }
    assert forall i, j :: 0 <= i < j < |all| && all[i].item == all[j].item ==> Compatible(all[i], all[j]);
  }

  lemma {:induction false} WithoutLawful(table: seq<Conversion>, p: ProductId)
    requires ConversionsLawful(table)
    ensures ConversionsLawful(Without(table, p))
  {
    if table != [] {
      HeadLawful(table);
      WithoutLawful(table[1..], p);
      if table[0].item != p { ConcatLawful([table[0]], Without(table[1..], p)); }
    }
  }

  predicate DistinctUoms(rows: seq<UnitRow>) { forall i, j :: 0 <= i < j < |rows| ==> rows[i].uom != rows[j].uom }

  lemma {:induction false} ConversionsForLawful(p: ProductId, base: UomId, rows: seq<UnitRow>)
    requires DistinctUoms(rows)
    ensures ConversionsLawful(ConversionsFor(p, base, rows))
    ensures forall v :: v in ConversionsFor(p, base, rows) ==>
      v.item == p && v.to == base != v.from && exists i :: 0 <= i < |rows| && rows[i].uom == v.from
  {
    if rows != [] {
      var rest := ConversionsFor(p, base, rows[1..]);
      forall i | 0 <= i < |rows[1..]| ensures rows[1..][i] == rows[i + 1] {}
      ConversionsForLawful(p, base, rows[1..]);
      forall v | v in rest ensures exists i :: 0 <= i < |rows| && rows[i].uom == v.from && v.from != rows[0].uom {
        var i :| 0 <= i < |rows[1..]| && rows[1..][i].uom == v.from;
        assert rows[i + 1].uom == v.from;
      }
      if Convertible(rows[0], base) {
        ConcatLawful([Conversion(p, rows[0].uom, base, rows[0].factor)], rest);
      }
    }
  }

  // ---------------------------------------------------------------- one product's rows

  lemma {:induction false} RowsWithDistinct(units: seq<UnitRow>, p: ProductId, isDefault: bool)
    requires UnitsUnique(units)
    ensures DistinctUoms(RowsWith(units, p, isDefault))
  {
    if units != [] {
      forall i | 0 <= i < |units[1..]| ensures units[1..][i] == units[i + 1] {}
      RowsWithDistinct(units[1..], p, isDefault);
      var rest := RowsWith(units[1..], p, isDefault);
      forall k | 0 <= k < |rest| && units[0].product == p ensures rest[k].uom != units[0].uom {
        assert rest[k] in rest && rest[k] in units[1..];
      }
    }
  }

  lemma {:induction false} RowsDistinct(units: seq<UnitRow>, p: ProductId)
    requires UnitsUnique(units)
    ensures DistinctUoms(Rows(units, p))
  {
    RowsWithDistinct(units, p, true);
    RowsWithDistinct(units, p, false);
    var a, b := RowsWith(units, p, true), RowsWith(units, p, false);
    forall i, j | 0 <= i < |a| && 0 <= j < |b| ensures a[i].uom != b[j].uom {
      assert a[i] in a && b[j] in b && a[i] in units && b[j] in units;
      var x :| 0 <= x < |units| && units[x] == a[i];
      var y :| 0 <= y < |units| && units[y] == b[j];
      assert x != y;
    }
  }

  // ---------------------------------------------------------------- validity

  lemma {:induction false} RebasedBaseNamed(c: Catalog, p: ProductId)
    requires p in c.products && Repairable(c) && Referential(c) && ShouldRebase(c, p)
    ensures Rebase(c, p).products[p].base.Some? && Rebase(c, p).products[p].base.value in c.names
  {
    RebaseGuard(c, p);
    hide ShouldRebase, RebasedUnits, RebasedPrices, NewBase;
    RebaseKeepsPositive(c, p);
    RebasedBase(c, p);
  }

  /** Two catalogs alike in the keys of their unit rows and all that a rebase does not touch. */
  lemma {:induction false} RebasedStaysValid(c: Catalog, d: Catalog, p: ProductId)
    requires Valid(c) && p in c.products && p in d.products && |d.units| == |c.units|
    requires d == c.(units := d.units, products := c.products[p := d.products[p]])
    requires d.products[p].base.Some? && d.products[p].base.value in c.names
    requires forall i :: 0 <= i < |c.units| ==>
      d.units[i].product == c.units[i].product && d.units[i].uom == c.units[i].uom
    requires OneDefaultEach(d.units)
    ensures Valid(d) <==> FactorsFit(d.units)
  {
  }

  lemma {:induction false} BaseAloneDefault(units: seq<UnitRow>, after: seq<UnitRow>, p: ProductId, base: UomId)
    requires UnitsUnique(units) && OneDefaultEach(units) && |after| == |units|
    requires forall i :: 0 <= i < |units| ==>
      && after[i].product == units[i].product && after[i].uom == units[i].uom
      && (after[i].isDefault <==> if units[i].product == p then units[i].uom == base else units[i].isDefault)
    ensures OneDefaultEach(after)
  {
    forall i, j | 0 <= i < j < |after| && after[i].product == after[j].product
      ensures !(after[i].isDefault && after[j].isDefault)
    {
      assert units[i].uom != units[j].uom && !(units[i].isDefault && units[j].isDefault);
    }
  }

  /** A rebase leaves its product with the new base as only default. */
  lemma {:induction false} RebasedDefaults(c: Catalog, p: ProductId)
    requires p in c.products && Repairable(c) && UnitsUnique(c.units) && OneDefaultEach(c.units) && ShouldRebase(c, p)
    ensures OneDefaultEach(Rebase(c, p).units)
  {
    var rows := Rows(c.units, p);
    SmallestPositive(c.units, p);
    hide ShouldRebase, Rows, Smallest, NewBase, Round6, UnitsUnique, OneDefaultEach;
    BaseAloneDefault(c.units, RebasedUnits(c.units, p, Smallest(rows), NewBase(rows)), p, NewBase(rows));
  }

  /** The factors in range, the other constraints take care of themselves. */
  lemma {:induction false} RebaseKeepsValid(c: Catalog, p: ProductId)
    requires p in c.products && Repairable(c) && Valid(c)
    ensures Valid(Rebase(c, p)) <==> RebaseFits(c, p)
  {
    if ShouldRebase(c, p) {
      RebaseKeepsPositive(c, p);
      RebasedBaseNamed(c, p);
      RebasedDefaults(c, p);
      RebasedInRange(c, p);
      hide Valid, ShouldRebase, RebasedUnits, RebasedPrices, NewBase, Smallest;
      RebasedStaysValid(c, Rebase(c, p), p);
    }
  }

  lemma {:induction false} UpdatedInRange(units: seq<UnitRow>, p: ProductId, smallest: real, base: UomId)
    requires smallest != 0.0 && FactorsFit(units)
    ensures FactorsFit(RebasedUnits(units, p, smallest, base)) <==> RebasedFactorsFit(units, p, smallest)
  {
    hide Round6;
    var after := RebasedUnits(units, p, smallest, base);
    if FactorsFit(after) {
      forall i | 0 <= i < |units| && units[i].product == p ensures Round6(units[i].factor / smallest) < 1000000000000.0 {
        assert after[i] == RebasedUnit(units[i], p, smallest, base);
      }
    }
  }

  lemma {:induction false} RebasedInRange(c: Catalog, p: ProductId)
    requires p in c.products && PositiveFactors(c.units) && FactorsFit(c.units) && ShouldRebase(c, p)
    ensures FactorsFit(Rebase(c, p).units) <==> RebaseFits(c, p)
  {
    SmallestPositive(c.units, p);
    hide Rows, Smallest, NewBase, FactorsFit, RebasedFactorsFit, RebasedUnits;
    UpdatedInRange(c.units, p, Smallest(Rows(c.units, p)), NewBase(Rows(c.units, p)));
  }

  lemma {:induction false} ConversionsReferential(c: Catalog, p: ProductId, base: UomId)
    requires Valid(c) && base in c.names
    ensures var table := Without(c.conversions, p) + ConversionsFor(p, base, Rows(c.units, p));
      && ConversionsLawful(table)
      && forall i :: 0 <= i < |table| ==> table[i].from in c.names && table[i].to in c.names
  {
    var rows := Rows(c.units, p);
    var kept, rebuilt := Without(c.conversions, p), ConversionsFor(p, base, rows);
    RowsDistinct(c.units, p);
    WithoutLawful(c.conversions, p);
    ConversionsForLawful(p, base, rows);
    ConcatLawful(kept, rebuilt);
    RebuiltReferential(c, p, base);
    var table := kept + rebuilt;
    forall i | 0 <= i < |table| ensures table[i].from in c.names && table[i].to in c.names {
      var v := table[i];
      assert v in kept || v in rebuilt;
      if v in kept { assert v in c.conversions; }
    }
  }

  lemma {:induction false} RebuiltReferential(c: Catalog, p: ProductId, base: UomId)
    requires Valid(c) && base in c.names
    ensures forall v :: v in ConversionsFor(p, base, Rows(c.units, p)) ==> v.from in c.names && v.to in c.names
  {
    var rows := Rows(c.units, p);
    RowsDistinct(c.units, p);
    ConversionsForLawful(p, base, rows);
    forall v | v in ConversionsFor(p, base, rows) ensures v.from in c.names && v.to in c.names {
      var i :| 0 <= i < |rows| && rows[i].uom == v.from;
      assert rows[i] in rows && rows[i] in c.units;
    }
  }

  lemma {:induction false} BaseExists(c: Catalog, p: ProductId)
    requires p in c.products && Valid(c) && BaseOf(c, p).Some?
    ensures BaseOf(c, p).value in c.names
  {
    var rows := Rows(c.units, p);
    if c.products[p].base.None? { assert rows[0] in rows && rows[0] in c.units; }
  }

  lemma {:induction false} RebuildKeepsValid(c: Catalog, p: ProductId)
    requires p in c.products && Repairable(c) && Valid(c) && RebaseFits(c, p)
    ensures Valid(RebuildOne(c, p)) && RebuildOne(c, p).names == c.names
  {
    RebaseKeepsValid(c, p);
    var d := Rebase(c, p);
    if BaseOf(d, p).Some? {
      BaseExists(d, p);
      ConversionsReferential(d, p, BaseOf(d, p).value);
    }
  }

  // ---------------------------------------------------------------- which rebuilds go through

  /** For each product the order in which the statement that rebases it would visit its rows. */
  type Visits = map<ProductId, seq<nat>>

  predicate VisitsFor(c: Catalog, ids: seq<ProductId>, visits: Visits) {
    forall i :: 0 <= i < |ids| ==> ids[i] in c.products && ids[i] in visits && IsVisit(c.units, ids[i], visits[ids[i]])
  }

  predicate AllCommit(c: Catalog, ids: seq<ProductId>, visits: Visits)
    requires PositiveFactors(c.units) && VisitsFor(c, ids, visits)
  {
    forall i :: 0 <= i < |ids| ==> RebaseCommits(c, ids[i], visits[ids[i]])
  }

  lemma {:induction false} RebuildElsewhere(c: Catalog, p: ProductId, q: ProductId, visit: seq<nat>)
    requires p in c.products && q in c.products && q != p && Repairable(c) && IsVisit(c.units, q, visit)
    ensures var d := RebuildOne(c, p);
      && q in d.products && PositiveFactors(d.units) && IsVisit(d.units, q, visit)
      && (RebaseCommits(d, q, visit) <==> RebaseCommits(c, q, visit))
  {
    var d := RebuildOne(c, p);
    RebuiltIsDone(c, p);
    RebaseOthers(c, p, q);
    RebaseKeepsPositive(c, p);
    OtherRowsKept(c, p, q);
    hide Rows, Rebase;
    CommitsElsewhere(c, d, q, visit);
  }

  lemma {:induction false} OtherRowsKept(c: Catalog, p: ProductId, q: ProductId)
    requires p in c.products && q != p && PositiveFactors(c.units)
    ensures var d := RebuildOne(c, p);
      && d.units == Rebase(c, p).units && d.products == Rebase(c, p).products && |d.units| == |c.units|
      && forall i :: 0 <= i < |c.units| && c.units[i].product == q ==> d.units[i] == c.units[i]
  {
    hide Rows, NewBase, Round6;
    if ShouldRebase(c, p) { SmallestPositive(c.units, p); }
  }

  /** Going through the products one after the other meets the same conditions as all of them at the start. */
  lemma {:induction false} AllCommitNext(c: Catalog, ids: seq<ProductId>, visits: Visits)
    requires Repairable(c) && VisitsFor(c, ids, visits) && Distinct(ids) && ids != []
    ensures var d := RebuildOne(c, ids[0]);
      && Repairable(d) && VisitsFor(d, ids[1..], visits)
      && (AllCommit(c, ids, visits) <==>
            RebaseCommits(c, ids[0], visits[ids[0]]) && AllCommit(d, ids[1..], visits))
  {
    hide RebaseCommits, RebuildOne, IsVisit;
    var d, rest := RebuildOne(c, ids[0]), ids[1..];
    RebuiltIsDone(c, ids[0]);
    forall i | 0 <= i < |rest|
      ensures rest[i] == ids[i + 1] && rest[i] in d.products && rest[i] in visits
      ensures IsVisit(d.units, rest[i], visits[rest[i]])
      ensures RebaseCommits(d, rest[i], visits[rest[i]]) <==> RebaseCommits(c, rest[i], visits[rest[i]])
    {
      RebuildElsewhere(c, ids[0], ids[i + 1], visits[ids[i + 1]]);
    }
    if RebaseCommits(c, ids[0], visits[ids[0]]) && AllCommit(d, rest, visits) {
      forall i | 0 <= i < |ids| ensures RebaseCommits(c, ids[i], visits[ids[i]]) {
        if i > 0 { assert rest[i - 1] == ids[i]; }
      }
    }
  }

  /** If it goes through, the rebuild breaks no constraint and no reference, and leaves the units' names alone. */
  lemma {:induction false} RebuildAllKeepsValid(c: Catalog, ids: seq<ProductId>, visits: Visits)
    requires Repairable(c) && Valid(c) && Distinct(ids) && VisitsFor(c, ids, visits) && AllCommit(c, ids, visits)
    ensures Valid(RebuildAll(c, ids)) && RebuildAll(c, ids).names == c.names
    decreases ids
  {
    if ids != [] {
      AllCommitNext(c, ids, visits);
      assert RebaseFits(c, ids[0]) by { assert RebaseCommits(c, ids[0], visits[ids[0]]); }
      RebuildKeepsValid(c, ids[0]);
      hide Valid, RebuildOne, AllCommit, VisitsFor;
      RebuildAllKeepsValid(RebuildOne(c, ids[0]), ids[1..], visits);
    }
  }

  // ---------------------------------------------------------------- the whole repair

  lemma {:induction false} MergeKeepsRepairable(c: Catalog, order: seq<UomId>, ids: seq<ProductId>)
    requires Repairable(c) && IsQuery(c.names, order) && IsProductQuery(c, ids)
    ensures Repairable(Merged(c, order)) && IsProductQuery(Merged(c, order), ids)
  {
    hide Canon, Target;
    assert Merged(c, order).units == SubUnits(Target(c.names, order), c.units);
  }

  /** The catalog after a repair that goes through. */
  ghost function Repaired(c: Catalog, order: seq<UomId>, ids: seq<ProductId>): Catalog
    requires Repairable(c) && IsQuery(c.names, order) && IsProductQuery(c, ids)
  {
    MergeKeepsRepairable(c, order, ids);
    RebuildAll(Merged(c, order), ids)
  }

  /** Exactly when the repair goes through. */
  predicate RepairCommits(c: Catalog, order: seq<UomId>, ids: seq<ProductId>, visits: Visits)
    requires PositiveFactors(c.units) && IsQuery(c.names, order) && VisitsFor(c, ids, visits)
  {
    Mergeable(c, order) && AllCommit(c, ids, visits)
  }

  lemma {:induction false} AllCommitMerged(c: Catalog, order: seq<UomId>, ids: seq<ProductId>, visits: Visits)
    requires Valid(c) && Repairable(c) && IsQuery(c.names, order) && IsProductQuery(c, ids) && Mergeable(c, order)
    requires VisitsFor(c, ids, visits)
    ensures var m := Merged(c, order);
      && Valid(m) && Repairable(m) && IsProductQuery(m, ids) && VisitsFor(m, ids, visits)
      && (AllCommit(m, ids, visits) <==> AllCommit(c, ids, visits))
  {
    hide Canon, Target, Merged, Mergeable, RebaseCommits, IsVisit;
    MergeKeepsRepairable(c, order, ids);
    MergeKeepsValid(c, order);
    var m := Merged(c, order);
    forall i | 0 <= i < |ids|
      ensures ids[i] in m.products && IsVisit(m.units, ids[i], visits[ids[i]])
      ensures RebaseCommits(m, ids[i], visits[ids[i]]) <==> RebaseCommits(c, ids[i], visits[ids[i]])
    {
      CommitsAfterMerge(c, order, ids[i], visits[ids[i]]);
    }
  }

  /** If a repair goes through, so does the next one, whatever order its statements visit rows in, and changes nothing. */
  lemma {:induction false} RepairTwice(
      c: Catalog, order: seq<UomId>, ids: seq<ProductId>, visits: Visits,
      order': seq<UomId>, ids': seq<ProductId>, visits': Visits)
    requires Valid(c) && Repairable(c) && IsQuery(c.names, order) && IsProductQuery(c, ids)
    requires VisitsFor(c, ids, visits) && RepairCommits(c, order, ids, visits)
    requires var once := Repaired(c, order, ids);
      && IsQuery(once.names, order') && IsProductQuery(once, ids') && VisitsFor(once, ids', visits')
      && forall i :: 0 <= i < |ids'| ==> ids'[i] in ids
    ensures var once := Repaired(c, order, ids);
      && Valid(once) && Repairable(once) && RepairCommits(once, order', ids', visits')
      && SameCatalog(Repaired(once, order', ids'), once)
  {
    hide Canon, Target, RebaseCommits, IsVisit;
    var merged := Merged(c, order);
    var once := Repaired(c, order, ids);
    AllCommitMerged(c, order, ids, visits);
    RebuildAllKeepsValid(merged, ids, visits);
    OneUnitPerName(c, order);
    CanonicalMergesToItself(once, order');
    RebuildTwice(merged, ids, ids');
    NothingToRebase(merged, ids, ids', visits');
  }

  lemma {:induction false} NothingToRebase(c: Catalog, ids: seq<ProductId>, again: seq<ProductId>, visits: Visits)
    requires Repairable(c) && IsProductQuery(c, ids) && forall i :: 0 <= i < |again| ==> again[i] in ids
    requires VisitsFor(RebuildAll(c, ids), again, visits)
    ensures AllCommit(RebuildAll(c, ids), again, visits)
  {
    forall i | 0 <= i < |again| ensures RebaseCommits(RebuildAll(c, ids), again[i], visits[again[i]]) {
      AllDone(c, ids, again[i]);
    }
  }
}
