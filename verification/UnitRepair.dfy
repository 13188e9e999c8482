/** The repair as a whole: what the rebuilt conversion table holds, and why a second run changes nothing. */
module UnitRepair {
  import opened Basics
  import opened UnitCatalog
  import opened UnitRebuild

  /** The catalog can be repaired: its products exist and its factors are positive. */
  predicate Repairable(c: Catalog) {
    PositiveFactors(c.units) && forall i :: 0 <= i < |c.units| ==> c.units[i].product in c.products
  }

  /** `ids` is what the query of all products with unit rows returns. */
  predicate IsProductQuery(c: Catalog, ids: seq<ProductId>) {
    && (forall i :: 0 <= i < |ids| ==> ids[i] in c.products)
    && (forall i, j :: 0 <= i < j < |ids| ==> ids[i] != ids[j])
    && (forall i :: 0 <= i < |c.units| ==> c.units[i].product in ids)
  }

  // ---------------------------------------------------------------- one product leaves the others alone

  lemma {:induction false} RebasedRowsOfOthers(
      units: seq<UnitRow>, p: ProductId, smallest: real, base: UomId, q: ProductId, isDefault: bool)
    requires smallest != 0.0 && q != p
    ensures RowsWith(RebasedUnits(units, p, smallest, base), q, isDefault) == RowsWith(units, q, isDefault)
  {
    if units != [] {
      RebasedRowsOfOthers(units[1..], p, smallest, base, q, isDefault);
      assert RebasedUnits(units, p, smallest, base)[1..] == RebasedUnits(units[1..], p, smallest, base);
    }
  }

  lemma {:induction false} OnlyOthers(table: seq<Conversion>, p: ProductId, q: ProductId)
    requires q != p
    ensures Only(Without(table, p), q) == Only(table, q)
  {
    if table != [] {
      OnlyOthers(table[1..], p, q);
      var rest := Without(table[1..], p);
      assert ([table[0]] + rest)[1..] == rest;
    }
  }

  lemma {:induction false} OnlyConcat(a: seq<Conversion>, b: seq<Conversion>, p: ProductId)
    ensures Only(a + b, p) == Only(a, p) + Only(b, p)
  {
    if a == [] {
      assert [] + b == b;
    } else {
      assert (a + b)[1..] == a[1..] + b;
      OnlyConcat(a[1..], b, p);
    }
  }

  lemma {:induction false} OnlyAll(rows: seq<Conversion>, p: ProductId)
    requires forall i :: 0 <= i < |rows| ==> rows[i].item == p
    ensures Only(rows, p) == rows && forall q :: q != p ==> Only(rows, q) == []
  {
    if rows != [] {
      OnlyAll(rows[1..], p);
      assert rows == [rows[0]] + rows[1..];
    }
  }

  lemma {:induction false} OnlyNone(table: seq<Conversion>, p: ProductId)
    ensures Only(Without(table, p), p) == []
  {
    if table != [] {
      OnlyNone(table[1..], p);
      var rest := Without(table[1..], p);
      assert ([table[0]] + rest)[1..] == rest;
    }
  }

  lemma {:induction false} ConversionsItem(p: ProductId, base: UomId, rows: seq<UnitRow>)
    ensures forall i :: 0 <= i < |ConversionsFor(p, base, rows)| ==> ConversionsFor(p, base, rows)[i].item == p
  {
    if rows != [] { ConversionsItem(p, base, rows[1..]); }
  }

  /** A product's new conversions, with everything else about the product and all others as it was. */
  lemma {:induction false} Replaced(table: seq<Conversion>, p: ProductId, base: UomId, rows: seq<UnitRow>)
    ensures var after := Without(table, p) + ConversionsFor(p, base, rows);
      && Only(after, p) == ConversionsFor(p, base, rows)
      && forall q :: q != p ==> Only(after, q) == Only(table, q)
  {
    var rebuilt := ConversionsFor(p, base, rows);
    ConversionsItem(p, base, rows);
    OnlyAll(rebuilt, p);
    OnlyNone(table, p);
    OnlyConcat(Without(table, p), rebuilt, p);
    assert [] + rebuilt == rebuilt;
    forall q | q != p ensures Only(Without(table, p) + rebuilt, q) == Only(table, q) {
      OnlyConcat(Without(table, p), rebuilt, q);
      OnlyOthers(table, p, q);
      assert Only(table, q) + [] == Only(table, q);
    }
  }

  lemma {:induction false} RebaseOthers(c: Catalog, p: ProductId, q: ProductId)
    requires p in c.products && q in c.products && q != p && PositiveFactors(c.units)
    ensures var d := Rebase(c, p);
      && Rows(d.units, q) == Rows(c.units, q) && d.products.Keys == c.products.Keys
      && d.products[q] == c.products[q] && d.conversions == c.conversions
  {
    if ShouldRebase(c, p) {
      SmallestPositive(c.units, p);
      var rows := Rows(c.units, p);
      RebasedRowsOfOthers(c.units, p, Smallest(rows), NewBase(rows), q, true);
      RebasedRowsOfOthers(c.units, p, Smallest(rows), NewBase(rows), q, false);
    }
  }

  lemma {:induction false} RebaseKeepsPositive(c: Catalog, p: ProductId)
    requires p in c.products && Repairable(c)
    ensures var d := Rebase(c, p);
      Repairable(d) && d.products.Keys == c.products.Keys && |d.units| == |c.units|
    ensures forall i :: 0 <= i < |c.units| ==>
      Rebase(c, p).units[i].product == c.units[i].product && Rebase(c, p).units[i].uom == c.units[i].uom
  {
    RebaseGuard(c, p);
    var d := Rebase(c, p);
    if ShouldRebase(c, p) {
      forall i | 0 <= i < |c.units|
        ensures d.units[i].factor > 0.0 && d.units[i].product == c.units[i].product && d.units[i].uom == c.units[i].uom
      {
        if c.units[i].product == p { RebasedFactors(c, p, i); }
      }
    }
  }

  /** A rebased product needs no rebasing. */
  lemma {:induction false} RebasedOnce(c: Catalog, p: ProductId)
    requires p in c.products && PositiveFactors(c.units)
    requires PositiveFactors(Rebase(c, p).units) && p in Rebase(c, p).products
    ensures !ShouldRebase(Rebase(c, p), p)
  {
    RebaseGuard(c, p);
    var d := Rebase(c, p);
    if ShouldRebase(c, p) {
      var rows := Rows(d.units, p);
      forall k | 0 <= k < |rows| ensures rows[k].factor >= 1.0 {
        assert rows[k] in rows && rows[k] in d.units;
        var i :| 0 <= i < |d.units| && d.units[i] == rows[k];
        RebasedFactors(c, p, i);
      }
    }
  }

  // ---------------------------------------------------------------- products that are done

  /** The product needs no rebasing, and its conversions are the ones its units call for. */
  predicate Done(c: Catalog, p: ProductId)
    requires p in c.products
  {
    && !ShouldRebase(c, p)
    && (BaseOf(c, p).Some? ==> Only(c.conversions, p) == ConversionsFor(p, BaseOf(c, p).value, Rows(c.units, p)))
  }

  lemma {:induction false} RebuiltIsDone(c: Catalog, p: ProductId)
    requires p in c.products && Repairable(c)
    ensures var d := RebuildOne(c, p);
      Repairable(d) && d.products.Keys == c.products.Keys && Done(d, p)
  {
    RebaseKeepsPositive(c, p);
    RebasedOnce(c, p);
    var r := Rebase(c, p);
    if BaseOf(r, p).Some? { Replaced(r.conversions, p, BaseOf(r, p).value, Rows(r.units, p)); }
  }

  lemma {:induction false} OthersStayDone(c: Catalog, p: ProductId, q: ProductId)
    requires p in c.products && q in c.products && q != p && Repairable(c) && Done(c, q)
    ensures q in RebuildOne(c, p).products && Done(RebuildOne(c, p), q)
  {
    RebaseOthers(c, p, q);
    var r := Rebase(c, p);
    if BaseOf(r, p).Some? { Replaced(r.conversions, p, BaseOf(r, p).value, Rows(r.units, p)); }
  }

  ghost function RebuildAll(c: Catalog, ids: seq<ProductId>): (d: Catalog)
    requires Repairable(c) && forall i :: 0 <= i < |ids| ==> ids[i] in c.products
    ensures Repairable(d) && d.products.Keys == c.products.Keys
    decreases ids
  {
    if ids == [] then c
    else
      RebuiltIsDone(c, ids[0]);
      RebuildAll(RebuildOne(c, ids[0]), ids[1..])
  }

  lemma {:induction false} StaysDone(c: Catalog, ids: seq<ProductId>, q: ProductId)
    requires Repairable(c) && forall i :: 0 <= i < |ids| ==> ids[i] in c.products
    requires q in c.products && q !in ids && Done(c, q)
    ensures Done(RebuildAll(c, ids), q)
    decreases ids
  {
    if ids != [] {
      RebuiltIsDone(c, ids[0]);
      OthersStayDone(c, ids[0], q);
      StaysDone(RebuildOne(c, ids[0]), ids[1..], q);
    }
  }

  lemma {:induction false} AllDone(c: Catalog, ids: seq<ProductId>, q: ProductId)
    requires Repairable(c) && forall i :: 0 <= i < |ids| ==> ids[i] in c.products
    requires forall i, j :: 0 <= i < j < |ids| ==> ids[i] != ids[j]
    requires q in ids
    ensures q in c.products && Done(RebuildAll(c, ids), q)
    decreases ids
  {
    RebuiltIsDone(c, ids[0]);
    var next := RebuildOne(c, ids[0]);
    if q == ids[0] {
      StaysDone(next, ids[1..], q);
    } else {
      AllDone(next, ids[1..], q);
    }
  }

  // ---------------------------------------------------------------- what the table holds

  lemma {:induction false} ConversionsExact(p: ProductId, base: UomId, rows: seq<UnitRow>, v: Conversion)
    ensures v in ConversionsFor(p, base, rows) <==>
            exists i :: 0 <= i < |rows| && Convertible(rows[i], base) && v == Conversion(p, rows[i].uom, base, rows[i].factor)
  {
    if rows != [] {
      ConversionsExact(p, base, rows[1..], v);
      if i :| 0 <= i < |rows| && Convertible(rows[i], base) && v == Conversion(p, rows[i].uom, base, rows[i].factor) {
        if i > 0 { assert rows[i] == rows[1..][i - 1]; }
      }
      if i :| 0 <= i < |rows[1..]| && Convertible(rows[1..][i], base) && v == Conversion(p, rows[1..][i].uom, base, rows[1..][i].factor) {
        assert rows[i + 1] == rows[1..][i];
      }
    }
  }

  /** `u` is the product's base, or, where it has none, the unit of its default row. */
  predicate IsBase(c: Catalog, p: ProductId, u: UomId)
    requires p in c.products
  {
    || c.products[p].base == Some(u)
    || (c.products[p].base.None?
        && (exists i :: 0 <= i < |c.units| && c.units[i].product == p && c.units[i].isDefault)
        && (forall i :: 0 <= i < |c.units| && c.units[i].product == p && c.units[i].isDefault ==> c.units[i].uom == u))
  }

  lemma {:induction false} IsBaseOf(c: Catalog, p: ProductId, u: UomId)
    requires p in c.products && IsBase(c, p, u)
    ensures BaseOf(c, p) == Some(u)
  {
    BaseExactly(c, p);
  }

  /**
   * After the rebuild a product with base `u` has a row for each of its units that is neither that base nor the default
   * and whose factor is at least 1, pointing straight at the base with the unit's own factor, and no other row.
   */
  lemma {:induction false} TableAgrees(c: Catalog, ids: seq<ProductId>, p: ProductId, u: UomId, v: Conversion)
    requires Repairable(c) && IsProductQuery(c, ids) && p in ids
    ensures p in RebuildAll(c, ids).products
    ensures var d := RebuildAll(c, ids);
      IsBase(d, p, u) ==>
        (v in d.conversions && v.item == p <==>
         exists r :: r in d.units && r.product == p && r.uom != u && !r.isDefault && r.factor >= 1.0
                     && v == Conversion(p, r.uom, u, r.factor))
  {
    var d := RebuildAll(c, ids);
    AllDone(c, ids, p);
    if IsBase(d, p, u) {
      IsBaseOf(d, p, u);
      var rows := Rows(d.units, p);
      assert v in Only(d.conversions, p) <==> v in d.conversions && v.item == p;
      ConversionsExact(p, u, rows, v);
      if i :| 0 <= i < |rows| && Convertible(rows[i], u) && v == Conversion(p, rows[i].uom, u, rows[i].factor) {
        var r := rows[i];
        assert r in rows;
      }
      if r :| r in d.units && r.product == p && Convertible(r, u) && v == Conversion(p, r.uom, u, r.factor) {
        assert r in rows;
      }
    }
  }

  lemma {:induction false} OneKept(c: Catalog, p: ProductId, q: ProductId)
    requires p in c.products && q in c.products && q != p && Repairable(c)
    ensures var d := RebuildOne(c, p);
      && d.products.Keys == c.products.Keys && d.products[q] == c.products[q]
      && Rows(d.units, q) == Rows(c.units, q) && Only(d.conversions, q) == Only(c.conversions, q)
  {
    RebaseOthers(c, p, q);
    var r := Rebase(c, p);
    if BaseOf(r, p).Some? { Replaced(r.conversions, p, BaseOf(r, p).value, Rows(r.units, p)); }
  }

  lemma {:induction false} OthersKept(c: Catalog, ids: seq<ProductId>, q: ProductId)
    requires Repairable(c) && forall i :: 0 <= i < |ids| ==> ids[i] in c.products
    requires q in c.products && q !in ids
    ensures var d := RebuildAll(c, ids);
      && d.products[q] == c.products[q]
      && Rows(d.units, q) == Rows(c.units, q) && Only(d.conversions, q) == Only(c.conversions, q)
    decreases ids
  {
    if ids != [] {
      RebuiltIsDone(c, ids[0]);
      OneKept(c, ids[0], q);
      hide Rows;
      OthersKept(RebuildOne(c, ids[0]), ids[1..], q);
    }
  }

  /** A product without a base keeps its conversions as they were: the job passes it over. */
  lemma {:induction false} BaselessKept(c: Catalog, ids: seq<ProductId>, p: ProductId)
    requires Repairable(c) && forall i :: 0 <= i < |ids| ==> ids[i] in c.products
    requires forall i, j :: 0 <= i < j < |ids| ==> ids[i] != ids[j]
    requires p in ids && c.products[p].base.None? && !ShouldRebase(c, p)
    requires forall i :: 0 <= i < |c.units| && c.units[i].product == p ==> !c.units[i].isDefault
    ensures p in RebuildAll(c, ids).products && RebuildAll(c, ids).products[p].base.None?
    ensures Only(RebuildAll(c, ids).conversions, p) == Only(c.conversions, p)
    decreases ids
  {
    var q, rest := ids[0], ids[1..];
    RebuiltIsDone(c, q);
    var next := RebuildOne(c, q);
    if q == p {
      BaseExactly(c, p);
      assert next == c;
      OthersKept(next, rest, p);
    } else {
      OneKept(c, q, p);
      RebaseTouches(c, q);
      SameGuard(c, next, p);
      BaselessKept(next, rest, p);
    }
  }

  lemma {:induction false} SameGuard(c: Catalog, d: Catalog, p: ProductId)
    requires p in c.products && p in d.products && d.products[p] == c.products[p] && Rows(d.units, p) == Rows(c.units, p)
    ensures ShouldRebase(d, p) <==> ShouldRebase(c, p)
  {
  }

  // ---------------------------------------------------------------- running it again

  /** The same tables, conversions counted as rows without an order. */
  predicate SameCatalog(a: Catalog, b: Catalog) {
    a == b.(conversions := a.conversions) && multiset(a.conversions) == multiset(b.conversions)
  }

  lemma {:induction false} SplitTable(table: seq<Conversion>, p: ProductId)
    ensures multiset(table) == multiset(Without(table, p)) + multiset(Only(table, p))
  {
    if table != [] {
      SplitTable(table[1..], p);
      assert table == [table[0]] + table[1..];
    }
  }

  lemma {:induction false} RebuildDone(c: Catalog, p: ProductId)
    requires p in c.products && PositiveFactors(c.units) && Done(c, p)
    ensures SameCatalog(RebuildOne(c, p), c)
    ensures forall q :: Only(RebuildOne(c, p).conversions, q) == Only(c.conversions, q)
  {
    if BaseOf(c, p).Some? {
      Replaced(c.conversions, p, BaseOf(c, p).value, Rows(c.units, p));
      SplitTable(c.conversions, p);
    }
  }

  lemma {:induction false} RebuildAllDone(c: Catalog, ids: seq<ProductId>)
    requires Repairable(c) && forall i :: 0 <= i < |ids| ==> ids[i] in c.products && Done(c, ids[i])
    ensures SameCatalog(RebuildAll(c, ids), c)
    decreases ids
  {
    if ids != [] {
      RebuiltIsDone(c, ids[0]);
      RebuildDone(c, ids[0]);
      var next := RebuildOne(c, ids[0]);
      forall i | 0 <= i < |ids[1..]| ensures ids[1..][i] in next.products && Done(next, ids[1..][i]) {
        assert ids[1..][i] == ids[i + 1];
      }
      RebuildAllDone(next, ids[1..]);
    }
  }

  lemma {:induction false} RebuildTwice(c: Catalog, ids: seq<ProductId>, again: seq<ProductId>)
    requires Repairable(c) && IsProductQuery(c, ids) && forall i :: 0 <= i < |again| ==> again[i] in ids
    ensures forall i :: 0 <= i < |again| ==> again[i] in RebuildAll(c, ids).products
    ensures SameCatalog(RebuildAll(RebuildAll(c, ids), again), RebuildAll(c, ids))
  {
    forall i | 0 <= i < |again|
      ensures again[i] in RebuildAll(c, ids).products && Done(RebuildAll(c, ids), again[i])
    {
      AllDone(c, ids, again[i]);
    }
    RebuildAllDone(RebuildAll(c, ids), again);
  }
}
