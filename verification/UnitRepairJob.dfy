/** The whole repair as the job runs it, statement by statement. */
module UnitRepairJob {
  import opened Basics
  import opened UnitCatalog
  import opened UnitMerge
  import opened UnitMergeJob
  import opened UnitRebuild
  import opened UnitRebaseUpdate
  import opened UnitRepair
  import opened UnitRepairValid

  function Upsert(table: seq<Conversion>, v: Conversion): seq<Conversion> {
    if table == [] then [v]
    else if table[0].item == v.item && table[0].from == v.from then [v] + table[1..]
    else [table[0]] + Upsert(table[1..], v)
  }

  lemma {:induction false} UpsertFresh(table: seq<Conversion>, v: Conversion)
    requires forall w :: w in table ==> !(w.item == v.item && w.from == v.from)
    ensures Upsert(table, v) == table + [v]
  {
    if table != [] {
      assert table[0] in table;
      UpsertFresh(table[1..], v);
      assert [table[0]] + (table[1..] + [v]) == table + [v];
    }
  }

  lemma {:induction false} ConversionsSnoc(p: ProductId, base: UomId, rows: seq<UnitRow>, r: UnitRow)
    ensures ConversionsFor(p, base, rows + [r]) ==
            ConversionsFor(p, base, rows) + if Convertible(r, base) then [Conversion(p, r.uom, base, r.factor)] else []
  {
    if rows == [] {
      assert [] + [r] == [r] && [r][1..] == [];
    } else {
      assert (rows + [r])[1..] == rows[1..] + [r];
      ConversionsSnoc(p, base, rows[1..], r);
    }
  }

  class RepairJob {
    var db: Catalog

    constructor (db: Catalog)
      ensures this.db == db
    {
      this.db := db;
    }

    /** Inserts the conversions of one product; with one row a unit, no insert meets an existing row. */
    method InsertConversions(p: ProductId, base: UomId, rows: seq<UnitRow>)
      requires DistinctUoms(rows) && Only(db.conversions, p) == []
      modifies this
      ensures db == old(db).(conversions := old(db).conversions + ConversionsFor(p, base, rows))
    {
      ghost var before := db;
      assert before.conversions + [] == before.conversions;
      for i := 0 to |rows|
        invariant db == before.(conversions := before.conversions + ConversionsFor(p, base, rows[..i]))
      {
        var row := rows[i];
        assert rows[..i + 1] == rows[..i] + [row];
        ConversionsSnoc(p, base, rows[..i], row);
        ConversionsForLawful(p, base, rows[..i]);
        if row.uom == base || row.isDefault || row.factor < 1.0 {
          assert ConversionsFor(p, base, rows[..i + 1]) == ConversionsFor(p, base, rows[..i]);
        } else {
          var v := Conversion(p, row.uom, base, row.factor);
          NotInserted(before.conversions, p, base, rows, i, v);
          UpsertFresh(db.conversions, v);
          db := db.(conversions := Upsert(db.conversions, v));
          assert before.conversions + (ConversionsFor(p, base, rows[..i]) + [v]) ==
                 before.conversions + ConversionsFor(p, base, rows[..i]) + [v];
        }
      }
      assert rows[..|rows|] == rows;
    }

    static lemma {:induction false} NotInserted(
        table: seq<Conversion>, p: ProductId, base: UomId, rows: seq<UnitRow>, i: nat, v: Conversion)
      requires DistinctUoms(rows) && i < |rows| && Only(table, p) == [] && v.item == p && v.from == rows[i].uom
      ensures forall w :: w in table + ConversionsFor(p, base, rows[..i]) ==> !(w.item == v.item && w.from == v.from)
    {
      ConversionsForLawful(p, base, rows[..i]);
      forall w | w in table + ConversionsFor(p, base, rows[..i]) ensures !(w.item == v.item && w.from == v.from) {
        if w in table {
          assert w in Only(table, p) <==> w.item == p;
        } else {
          assert w in ConversionsFor(p, base, rows[..i]);
        }
      }
    }

    /** The statements that rebase one product: its base, its unit rows, its prices. */
    method RebaseProduct(p: ProductId, rows: seq<UnitRow>, visit: seq<nat>) returns (ok: bool)
      requires p in db.products && PositiveFactors(db.units) && Valid(db) && IsVisit(db.units, p, visit)
      requires rows == Rows(db.units, p) && NeedsRebase(rows)
      modifies this
      ensures ok <==> RebaseCommits(old(db), p, visit)
      ensures ok ==> db == Rebase(old(db), p)
      ensures old(db).products[p].txnCount > 0 || old(db).products[p].onHand > 0.0 ==> ok && db == old(db)
    {
      hide Rows, Smallest, NewBase, NeedsRebase, Round6, Valid;
      var state := db.products[p];
      if state.txnCount > 0 || state.onHand > 0.0 { return true; }
      SmallestPositive(db.units, p);
      var smallest, newBase := Smallest(rows), NewBase(rows);
      db := db.(products := db.products[p := state.(base := Some(newBase))]);
      assert UnitsUnique(db.units) by { assert Valid(old(db)); UniqueWhenValid(old(db)); }
      var after;
      ok, after := UpdateUnits(db.units, p, smallest, newBase, visit);
      if !ok { return; }
      db := db.(units := after);
      db := db.(products := db.products[p := db.products[p].(prices := RebasedPrices(state.prices, smallest))]);
      assert db.products == Rebase(old(db), p).products;
    }

    static lemma {:induction false} UniqueWhenValid(c: Catalog)
      requires Valid(c)
      ensures UnitsUnique(c.units)
    {
    }

    method RebuildProduct(p: ProductId, visit: seq<nat>) returns (ok: bool)
      requires p in db.products && Repairable(db) && Valid(db) && IsVisit(db.units, p, visit)
      modifies this
      ensures ok <==> RebaseCommits(old(db), p, visit)
      ensures ok ==> db == RebuildOne(old(db), p)
      ensures old(db).products[p].txnCount > 0 || old(db).products[p].onHand > 0.0 ==>
        ok && db.units == old(db).units && db.products == old(db).products
    {
      var rows := Rows(db.units, p);
      RebaseKeepsPositive(db, p);
      RebaseKeepsValid(db, p);
      if NeedsRebase(rows) {
        ok := RebaseProduct(p, rows, visit);
        if !ok { return; }
      }
      ok := true;
      var refreshed := Rows(db.units, p);
      var base := BaseOf(db, p);
      if base.None? { return; }
      RowsDistinct(db.units, p);
      OnlyNone(db.conversions, p);
      db := db.(conversions := Without(db.conversions, p));
      InsertConversions(p, base.value, refreshed);
    }

    method RebuildCanonicalConversions(ids: seq<ProductId>, visits: Visits) returns (ok: bool)
      requires Repairable(db) && Valid(db) && Distinct(ids) && VisitsFor(db, ids, visits)
      modifies this
      ensures ok <==> AllCommit(old(db), ids, visits)
      ensures ok ==> db == RebuildAll(old(db), ids)
    {
      hide Valid, RebaseCommits, RebuildOne, IsVisit, AllCommit, Distinct;
      assert ids[0..] == ids;
      for i := 0 to |ids|
        invariant Repairable(db) && Valid(db) && Distinct(ids[i..]) && VisitsFor(db, ids[i..], visits)
        invariant forall k :: i <= k < |ids| ==> ids[k] in db.products
        invariant AllCommit(old(db), ids, visits) <==> AllCommit(db, ids[i..], visits)
        invariant RebuildAll(old(db), ids) == RebuildAll(db, ids[i..])
      {
        assert ids[i..][0] == ids[i] && ids[i..][1..] == ids[i + 1..];
        StepToNext(db, ids[i..], visits);
        ok := RebuildProduct(ids[i], visits[ids[i]]);
        if !ok { return; }
      }
      NothingLeft(db, ids[|ids|..], visits);
      ok := true;
    }

    static lemma {:induction false} CommitsFit(c: Catalog, p: ProductId, visit: seq<nat>)
      requires p in c.products && PositiveFactors(c.units) && IsVisit(c.units, p, visit) && RebaseCommits(c, p, visit)
      ensures RebaseFits(c, p)
    {
    }

    static lemma {:induction false} StepToNext(c: Catalog, ids: seq<ProductId>, visits: Visits)
      requires Repairable(c) && Valid(c) && Distinct(ids) && VisitsFor(c, ids, visits) && ids != []
      ensures ids[0] in c.products && ids[0] in visits && IsVisit(c.units, ids[0], visits[ids[0]])
      ensures var d := RebuildOne(c, ids[0]);
        && Repairable(d) && VisitsFor(d, ids[1..], visits) && Distinct(ids[1..])
        && (forall i :: 0 <= i < |ids| ==> ids[i] in d.products)
        && (AllCommit(c, ids, visits) <==> RebaseCommits(c, ids[0], visits[ids[0]]) && AllCommit(d, ids[1..], visits))
        && (RebaseCommits(c, ids[0], visits[ids[0]]) ==> Valid(d))
        && RebuildAll(c, ids) == RebuildAll(d, ids[1..])
    {
      hide Valid, RebaseCommits, RebuildOne, IsVisit, AllCommit;
      AllCommitNext(c, ids, visits);
      RebuiltIsDone(c, ids[0]);
      if RebaseCommits(c, ids[0], visits[ids[0]]) {
        CommitsFit(c, ids[0], visits[ids[0]]);
        RebuildKeepsValid(c, ids[0]);
      }
    }

    static lemma {:induction false} NothingLeft(c: Catalog, ids: seq<ProductId>, visits: Visits)
      requires Repairable(c) && VisitsFor(c, ids, visits) && ids == []
      ensures AllCommit(c, ids, visits) && RebuildAll(c, ids) == c
    {
    }

    /** The job: both parts in one transaction. */
    method Repair(order: seq<UomId>, ids: seq<ProductId>, visits: Visits) returns (ok: bool)
      requires Repairable(db) && Valid(db) && IsQuery(db.names, order) && IsProductQuery(db, ids)
      requires VisitsFor(db, ids, visits)
      modifies this
      ensures ok <==> RepairCommits(old(db), order, ids, visits)
      ensures db == if ok then Repaired(old(db), order, ids) else old(db)
    {
      hide Canon, Target, RebaseCommits, IsVisit, Mergeable, Merged, Valid;
      var rollback := db;
      var merge := new MergeJob(db);
      ok := merge.MergeDuplicateUoms(order);
      if ok {
        AllCommitMerged(db, order, ids, visits);
        db := merge.db;
        ok := RebuildCanonicalConversions(ids, visits);
        if !ok { db := rollback; }
      }
    }
  }
}
