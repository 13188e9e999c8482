/**
 * The statement that rebases a product's unit rows, as the database executes it: row by row in some order, with the
 * range of the factor column and the partial unique index on default units checked at each row.
 */
module UnitRebaseUpdate {
  import opened Basics
  import opened UnitCatalog
  import opened UnitMerge
  import opened UnitRebuild

  /** `visit` names the product's rows, each once, in the order the statement comes to them. */
  predicate IsVisit(units: seq<UnitRow>, p: ProductId, visit: seq<nat>) {
    && Distinct(visit)
    && (forall i :: i in visit ==> i < |units| && units[i].product == p)
    && (forall i :: 0 <= i < |units| && units[i].product == p ==> i in visit)
  }

  predicate InRange(units: seq<UnitRow>, visit: seq<nat>) { forall k :: 0 <= k < |visit| ==> visit[k] < |units| }

  /** The rows in `done` have their new values. */
  function Updated(units: seq<UnitRow>, p: ProductId, smallest: real, base: UomId, done: seq<nat>): (rows: seq<UnitRow>)
    requires smallest != 0.0
    ensures |rows| == |units|
    ensures forall i: nat :: i < |rows| ==>
      rows[i] == if i in done then RebasedUnit(units[i], p, smallest, base) else units[i]
  {
    seq(|units|, i requires 0 <= i < |units| => if i in done then RebasedUnit(units[i], p, smallest, base) else units[i])
  }

  /** The new row does not fit its column, or would be a second default while another row still is one. */
  predicate RowRefused(now: seq<UnitRow>, i: nat, row: UnitRow) {
    || row.factor >= FACTOR_LIMIT
    || (row.isDefault && exists j: nat :: j < |now| && j != i && now[j].product == row.product && now[j].isDefault)
  }

  // ---------------------------------------------------------------- when the statement succeeds

  predicate RebasedFactorsFit(units: seq<UnitRow>, p: ProductId, smallest: real)
    requires smallest != 0.0
  {
    forall i :: 0 <= i < |units| && units[i].product == p ==> Round6(units[i].factor / smallest) < 1000000000000.0
  }

  /** No default unit is visited after the row of the new base. */
  predicate OldDefaultFirst(units: seq<UnitRow>, base: UomId, visit: seq<nat>)
    requires InRange(units, visit)
  {
    forall k, j :: 0 <= k < j < |visit| && units[visit[k]].uom == base ==> !units[visit[j]].isDefault
  }

  /** Every new factor fits its column. */
  predicate RebaseFits(c: Catalog, p: ProductId)
    requires p in c.products && PositiveFactors(c.units)
  {
    ShouldRebase(c, p) ==>
      (SmallestPositive(c.units, p); RebasedFactorsFit(c.units, p, Smallest(Rows(c.units, p))))
  }

  /** Whether rebasing the product goes through; known before it is begun. */
  predicate RebaseCommits(c: Catalog, p: ProductId, visit: seq<nat>)
    requires p in c.products && PositiveFactors(c.units) && IsVisit(c.units, p, visit)
  {
    RebaseFits(c, p) && (ShouldRebase(c, p) ==>
      (VisitInRange(c.units, p, visit); OldDefaultFirst(c.units, NewBase(Rows(c.units, p)), visit)))
  }

  lemma {:induction false} VisitInRange(units: seq<UnitRow>, p: ProductId, visit: seq<nat>)
    requires IsVisit(units, p, visit)
    ensures InRange(units, visit) && forall k :: 0 <= k < |visit| ==> units[visit[k]].product == p
  {
    forall k | 0 <= k < |visit| ensures visit[k] < |units| && units[visit[k]].product == p {
      assert visit[k] in visit;
    }
  }

  /** A row is refused exactly if its new factor is too large, or it is the new base's and an old default is still to come. */
  lemma {:induction false} RefusedExactly(
      units: seq<UnitRow>, p: ProductId, smallest: real, base: UomId, visit: seq<nat>, k: nat)
    requires smallest != 0.0 && UnitsUnique(units) && IsVisit(units, p, visit) && k < |visit| && InRange(units, visit)
    ensures RowRefused(Updated(units, p, smallest, base, visit[..k]), visit[k],
                       RebasedUnit(units[visit[k]], p, smallest, base)) <==>
      || Round6(units[visit[k]].factor / smallest) >= FACTOR_LIMIT
      || (units[visit[k]].uom == base && exists j :: k < j < |visit| && units[visit[j]].isDefault)
  {
    hide Round6;
    VisitInRange(units, p, visit);
    var now := Updated(units, p, smallest, base, visit[..k]);
    var i := visit[k];
    if units[i].uom == base {
      if j: nat :| j < |now| && j != i && now[j].product == p && now[j].isDefault {
        assert j !in visit[..k] && j in visit;
        var m :| 0 <= m < |visit| && visit[m] == j;
        forall h | 0 <= h < k ensures visit[h] in visit[..k] { assert visit[..k][h] == visit[h]; }
        assert k < m && units[visit[m]].isDefault;
      }
      if m :| k < m < |visit| && units[visit[m]].isDefault {
        assert visit[m] !in visit[..k];
        assert now[visit[m]].isDefault;
      }
    }
  }

  lemma {:induction false} AllUpdated(units: seq<UnitRow>, p: ProductId, smallest: real, base: UomId, visit: seq<nat>)
    requires smallest != 0.0 && IsVisit(units, p, visit)
    ensures Updated(units, p, smallest, base, visit) == RebasedUnits(units, p, smallest, base)
    ensures Updated(units, p, smallest, base, []) == units
  {
    hide Round6;
  }

  lemma {:induction false} OneMoreUpdated(
      units: seq<UnitRow>, p: ProductId, smallest: real, base: UomId, visit: seq<nat>, k: nat)
    requires smallest != 0.0 && Distinct(visit) && k < |visit| && visit[k] < |units|
    ensures Updated(units, p, smallest, base, visit[..k + 1]) ==
            Updated(units, p, smallest, base, visit[..k])[visit[k] := RebasedUnit(units[visit[k]], p, smallest, base)]
    ensures Updated(units, p, smallest, base, visit[..k])[visit[k]] == units[visit[k]]
  {
    hide Round6;
    assert visit[..k + 1] == visit[..k] + [visit[k]];
  }

  /** The statement as code: `ok` says whether it went through, and `units` are the rows after it. */
  method UpdateUnits(units: seq<UnitRow>, p: ProductId, smallest: real, base: UomId, visit: seq<nat>)
    returns (ok: bool, rows: seq<UnitRow>)
    requires smallest != 0.0 && UnitsUnique(units) && IsVisit(units, p, visit)
    ensures InRange(units, visit)
    ensures ok <==> RebasedFactorsFit(units, p, smallest) && OldDefaultFirst(units, base, visit)
    ensures ok ==> rows == RebasedUnits(units, p, smallest, base)
  {
    hide Round6, RowRefused, RebasedUnit;
    VisitInRange(units, p, visit);
    AllUpdated(units, p, smallest, base, visit);
    rows := units;
    assert visit[..0] == [];
    for k := 0 to |visit|
      invariant rows == Updated(units, p, smallest, base, visit[..k])
      invariant forall m :: 0 <= m < k ==> Round6(units[visit[m]].factor / smallest) < FACTOR_LIMIT
      invariant forall m, j :: 0 <= m < k && m < j < |visit| && units[visit[m]].uom == base ==> !units[visit[j]].isDefault
    {
      RefusedExactly(units, p, smallest, base, visit, k);
      OneMoreUpdated(units, p, smallest, base, visit, k);
      var row := RebasedUnit(rows[visit[k]], p, smallest, base);
      if RowRefused(rows, visit[k], row) { return false, rows; }
      rows := rows[visit[k] := row];
    }
    assert visit[..|visit|] == visit;
    forall i | 0 <= i < |units| && units[i].product == p ensures Round6(units[i].factor / smallest) < FACTOR_LIMIT {
      assert i in visit;
    }
    ok := true;
  }

  // ---------------------------------------------------------------- the conditions on other catalogs

  /** Rebuilding one product does not affect whether another can be rebased. */
  lemma {:induction false} CommitsElsewhere(c: Catalog, d: Catalog, q: ProductId, visit: seq<nat>)
    requires q in c.products && q in d.products && PositiveFactors(c.units) && PositiveFactors(d.units)
    requires IsVisit(c.units, q, visit) && |d.units| == |c.units| && Rows(d.units, q) == Rows(c.units, q)
    requires forall i :: 0 <= i < |c.units| ==>
      d.units[i].product == c.units[i].product && (c.units[i].product == q ==> d.units[i] == c.units[i])
    requires d.products[q] == c.products[q]
    ensures IsVisit(d.units, q, visit)
    ensures RebaseCommits(d, q, visit) <==> RebaseCommits(c, q, visit)
  {
    hide Round6, Rows, Smallest, NeedsRebase, NewBase;
    VisitInRange(c.units, q, visit);
    VisitInRange(d.units, q, visit);
  }

  lemma {:induction false} SubCons(t: map<UomId, UomId>, r: UnitRow, rows: seq<UnitRow>)
    ensures SubUnits(t, [r] + rows) == [SubUnit(t, r)] + SubUnits(t, rows)
  {
  }

  lemma {:induction false} SubRowsWith(t: map<UomId, UomId>, units: seq<UnitRow>, p: ProductId, isDefault: bool)
    ensures RowsWith(SubUnits(t, units), p, isDefault) == SubUnits(t, RowsWith(units, p, isDefault))
  {
    hide Sub;
    if units != [] {
      var head, tail := units[0], units[1..];
      assert units == [head] + tail;
      SubCons(t, head, tail);
      assert SubUnits(t, units)[1..] == SubUnits(t, tail);
      SubRowsWith(t, tail, p, isDefault);
      SubCons(t, head, RowsWith(tail, p, isDefault));
    }
  }

  lemma {:induction false} SubSmallest(t: map<UomId, UomId>, rows: seq<UnitRow>)
    ensures Smallest(SubUnits(t, rows)) == Smallest(rows)
    ensures NeedsRebase(SubUnits(t, rows)) <==> NeedsRebase(rows)
  {
    if rows != [] {
      SubSmallest(t, rows[1..]);
      assert SubUnits(t, rows)[1..] == SubUnits(t, rows[1..]);
    }
    assert forall i :: 0 <= i < |rows| ==> SubUnits(t, rows)[i].factor == rows[i].factor;
  }

  lemma {:induction false} SubFirstWith(t: map<UomId, UomId>, rows: seq<UnitRow>, factor: real)
    ensures FirstWith(SubUnits(t, rows), factor) == FirstWith(rows, factor)
  {
    if rows != [] {
      SubFirstWith(t, rows[1..], factor);
      assert SubUnits(t, rows)[1..] == SubUnits(t, rows[1..]);
    }
  }

  lemma {:induction false} SubAllRows(t: map<UomId, UomId>, units: seq<UnitRow>, p: ProductId)
    ensures Rows(SubUnits(t, units), p) == SubUnits(t, Rows(units, p))
  {
    hide RowsWith;
    SubRowsWith(t, units, p, true);
    SubRowsWith(t, units, p, false);
  }

  lemma {:induction false} SubRows(t: map<UomId, UomId>, units: seq<UnitRow>, p: ProductId)
    ensures var rows, after := Rows(units, p), Rows(SubUnits(t, units), p);
      && Smallest(after) == Smallest(rows)
      && (NeedsRebase(after) <==> NeedsRebase(rows))
      && (NeedsRebase(rows) ==> NewBase(after) == Sub(t, NewBase(rows)))
  {
    hide Rows, Sub, Smallest, FirstWith;
    var rows := Rows(units, p);
    SubAllRows(t, units, p);
    SubSmallest(t, rows);
    SubFirstWith(t, rows, Smallest(rows));
    if NeedsRebase(rows) {
      var i := FirstWith(rows, Smallest(rows));
      assert i < |rows|;
      assert SubUnits(t, rows)[i] == SubUnit(t, rows[i]);
    }
  }

  /** The merge does not affect it either, so it can be told from the catalog as it stands. */
  lemma {:induction false} CommitsAfterMerge(c: Catalog, order: seq<UomId>, p: ProductId, visit: seq<nat>)
    requires Valid(c) && IsQuery(c.names, order) && Mergeable(c, order)
    requires p in c.products && PositiveFactors(c.units) && IsVisit(c.units, p, visit)
    ensures var m := Merged(c, order);
      && p in m.products && PositiveFactors(m.units)
      && IsVisit(m.units, p, visit)
      && (RebaseCommits(m, p, visit) <==> RebaseCommits(c, p, visit))
  {
    hide Canon, Target, Mergeable, Round6, Rows, Smallest, NeedsRebase, NewBase, Merged;
    var m, t := Merged(c, order), Target(c.names, order);
    MergedUnits(c, order, p);
    MergeKeepsValid(c, order);
    VisitInRange(c.units, p, visit);
    SubRows(t, c.units, p);
    VisitInRange(m.units, p, visit);
    if ShouldRebase(c, p) { SameOldDefaultFirst(c, m, t, p, visit); }
  }

  lemma {:induction false} MergedUnits(c: Catalog, order: seq<UomId>, p: ProductId)
    requires IsQuery(c.names, order) && p in c.products
    ensures var m := Merged(c, order);
      && m.units == SubUnits(Target(c.names, order), c.units)
      && p in m.products && m.products[p].txnCount == c.products[p].txnCount && m.products[p].onHand == c.products[p].onHand
  {
    hide Canon, Target;
  }

  /** Rows of one product that had different units still have. */
  lemma {:induction false} StillDistinct(units: seq<UnitRow>, after: seq<UnitRow>, i: nat, b: nat)
    requires UnitsUnique(units) && UnitsUnique(after) && |after| == |units| && i < |units| && b < |units|
    requires units[i].product == units[b].product == after[i].product == after[b].product
    ensures after[i].uom == after[b].uom <==> units[i].uom == units[b].uom
  {
    if i < b { assert units[i].uom != units[b].uom; }
    if b < i { assert units[b].uom != units[i].uom; }
  }

  lemma {:induction false} BaseRow(units: seq<UnitRow>, p: ProductId) returns (b: nat)
    requires NeedsRebase(Rows(units, p))
    ensures b < |units| && units[b].product == p && units[b].uom == NewBase(Rows(units, p))
  {
    hide RowsWith, Smallest, NewBase;
    var rows := Rows(units, p);
    var k :| 0 <= k < |rows| && rows[k].uom == NewBase(rows);
    assert rows[k] in rows && rows[k] in units;
    b :| 0 <= b < |units| && units[b] == rows[k];
  }

  lemma {:induction false} SameOldDefaultFirst(c: Catalog, m: Catalog, t: map<UomId, UomId>, p: ProductId, visit: seq<nat>)
    requires UnitsUnique(c.units) && m.units == SubUnits(t, c.units) && UnitsUnique(m.units)
    requires IsVisit(c.units, p, visit) && InRange(c.units, visit) && InRange(m.units, visit)
    requires NeedsRebase(Rows(c.units, p)) && NeedsRebase(Rows(m.units, p))
    requires NewBase(Rows(m.units, p)) == Sub(t, NewBase(Rows(c.units, p)))
    ensures OldDefaultFirst(m.units, NewBase(Rows(m.units, p)), visit) <==>
            OldDefaultFirst(c.units, NewBase(Rows(c.units, p)), visit)
  {
    hide Rows, NewBase, Smallest, NeedsRebase, Sub, UnitsUnique;
    var base, base' := NewBase(Rows(c.units, p)), NewBase(Rows(m.units, p));
    var b := BaseRow(c.units, p);
    VisitInRange(c.units, p, visit);
    assert m.units[b] == SubUnit(t, c.units[b]);
    forall k | 0 <= k < |visit|
      ensures m.units[visit[k]].uom == base' <==> c.units[visit[k]].uom == base
      ensures m.units[visit[k]].isDefault == c.units[visit[k]].isDefault
    {
      StillDistinct(c.units, m.units, visit[k], b);
    }
  }

  // ---------------------------------------------------------------- what decides

  const OLD_DEFAULT := UnitRow(1, 20, 1.0, true)
  const SMALL_UNIT := UnitRow(1, 10, 0.5, false)

  lemma {:induction false} TwoRows(units: seq<UnitRow>)
    requires units == [SMALL_UNIT, OLD_DEFAULT]
    ensures Rows(units, 1) == [OLD_DEFAULT, SMALL_UNIT]
  {
    assert units[1..] == [OLD_DEFAULT] && [OLD_DEFAULT][1..] == [];
    assert RowsWith([OLD_DEFAULT], 1, true) == [OLD_DEFAULT] && RowsWith([OLD_DEFAULT], 1, false) == [];
  }

  lemma {:induction false} LeastOfTwo(rows: seq<UnitRow>)
    requires rows == [OLD_DEFAULT, SMALL_UNIT]
    ensures NeedsRebase(rows) && Smallest(rows) == 0.5 && NewBase(rows) == 10
  {
    assert rows[1].factor == 0.5;
    assert NeedsRebase(rows);
    var k :| 0 <= k < |rows| && rows[k].uom == NewBase(rows) && rows[k].factor == Smallest(rows);
  }

  /** Whether the default or the smaller unit is visited first decides whether the job goes through. */
  lemma {:induction false} VisitDecides(c: Catalog)
    requires c.units == [SMALL_UNIT, OLD_DEFAULT] && 1 in c.products
    requires c.products[1].txnCount == 0 && c.products[1].onHand <= 0.0
    ensures PositiveFactors(c.units) && IsVisit(c.units, 1, [0, 1]) && IsVisit(c.units, 1, [1, 0])
    ensures !RebaseCommits(c, 1, [0, 1]) && RebaseCommits(c, 1, [1, 0])
  {
    hide Rows, Smallest, NewBase, NeedsRebase;
    TwoRows(c.units);
    LeastOfTwo(Rows(c.units, 1));
    var visit := [0, 1];
    assert c.units[visit[0]].uom == 10 && c.units[visit[1]].isDefault;
    assert 0.5 / 0.5 == 1.0 && 1.0 / 0.5 == 2.0;
    assert Round6(1.0) < FACTOR_LIMIT && Round6(2.0) < FACTOR_LIMIT;
  }

  /** Ten million to a millionth is more than the factor column can hold. */
  lemma {:induction false} FactorTooLarge()
    ensures Round6(10000000.0 / 0.000001) >= FACTOR_LIMIT
  {
    assert 10000000.0 / 0.000001 == 10000000000000.0;
  }
}
