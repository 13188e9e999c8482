/** Rebasing products whose units are smaller than their base, and rebuilding the conversion table. */
module UnitRebuild {
  import opened Basics
  import opened UnitCatalog

  // ---------------------------------------------------------------- rounding

  /** Six decimals, halves away from zero. */
  function Round6(x: real): real {
    if x < 0.0 then -((-x * 1000000.0 + 0.5).Floor as real / 1000000.0)
    else (x * 1000000.0 + 0.5).Floor as real / 1000000.0
  }

  function HalfUpCents(x: real): real { (x * 100.0 + 0.5).Floor as real / 100.0 }

  /** Two decimals, halves away from zero. */
  function Round2(x: real): real { if x < 0.0 then -HalfUpCents(-x) else HalfUpCents(x) }

  predicate WholeCents(x: real) { (x * 100.0).Floor as real == x * 100.0 }

  const HALF_STEP: real := 0.0000005
  const HALF_CENT: real := 0.005

  lemma {:induction false} Round2Near(x: real)
    ensures -HALF_CENT <= Round2(x) - x <= HALF_CENT
  {
  }

  /** Rounding to cents changes exactly what is not a whole number of cents. */
  lemma {:induction false} Round2Fixed(x: real)
    ensures Round2(x) == x <==> WholeCents(x)
  {
    hide WholeCents, HalfUpCents;
    CentsFixed(if x < 0.0 then -x else x);
    if x < 0.0 && WholeCents(x) { WholeCentsTurned(x); }
    if x < 0.0 && WholeCents(-x) { WholeCentsTurned(-x); }
  }

  lemma {:induction false} FloorIs(y: real, n: int)
    requires n as real <= y < n as real + 1.0
    ensures y.Floor == n
  {
  }

  lemma {:induction false} WholeCentsTurned(x: real)
    requires WholeCents(x)
    ensures WholeCents(-x)
  {
    var n := (x * 100.0).Floor;
    assert (-x) * 100.0 == (-n) as real;
    FloorIs((-x) * 100.0, -n);
  }

  lemma {:induction false} CentsFixed(x: real)
    ensures HalfUpCents(x) == x <==> WholeCents(x)
  {
    var y := x * 100.0;
    var n := (y + 0.5).Floor;
    if HalfUpCents(x) == x {
      assert y == n as real;
      FloorIs(y, n);
    }
    if WholeCents(x) { FloorIs(y + 0.5, y.Floor); }
  }

  /** Whole steps that are nearest, halves away from zero, and the same on both sides of zero. */
  lemma {:induction false} Round6Exactly(x: real, n: int)
    requires x >= 0.0
    ensures Round6(x) == n as real / 1000000.0 <==> n as real - 0.5 <= x * 1000000.0 < n as real + 0.5
    ensures Round6(-x) == -Round6(x)
  {
    var m := (x * 1000000.0 + 0.5).Floor;
    if m as real / 1000000.0 == n as real / 1000000.0 { assert m as real == n as real; }
    if n as real - 0.5 <= x * 1000000.0 < n as real + 0.5 { FloorIs(x * 1000000.0 + 0.5, n); }
  }

  lemma {:induction false} Round2Exactly(x: real, n: int)
    requires x >= 0.0
    ensures Round2(x) == n as real / 100.0 <==> n as real - 0.5 <= x * 100.0 < n as real + 0.5
    ensures Round2(-x) == -Round2(x)
  {
    var m := (x * 100.0 + 0.5).Floor;
    if m as real / 100.0 == n as real / 100.0 { assert m as real == n as real; }
    if n as real - 0.5 <= x * 100.0 < n as real + 0.5 { FloorIs(x * 100.0 + 0.5, n); }
  }

  lemma {:induction false} Round6Near(x: real)
    ensures -HALF_STEP <= Round6(x) - x <= HALF_STEP
  {
  }

  lemma {:induction false} Round6AtLeastOne(x: real)
    requires x >= 1.0
    ensures Round6(x) >= 1.0
    ensures Round6(1.0) == 1.0
  {
    assert (x * 1000000.0 + 0.5).Floor >= 1000000;
  }

  // ---------------------------------------------------------------- a product's rows

  function RowsWith(units: seq<UnitRow>, p: ProductId, isDefault: bool): (rows: seq<UnitRow>)
    ensures forall r :: r in rows <==> r in units && r.product == p && r.isDefault == isDefault
  {
    if units == [] then []
    else if units[0].product == p && units[0].isDefault == isDefault
      then [units[0]] + RowsWith(units[1..], p, isDefault)
    else RowsWith(units[1..], p, isDefault)
  }

  /** The product's unit rows, its default first. */
  function Rows(units: seq<UnitRow>, p: ProductId): (rows: seq<UnitRow>)
    ensures forall r :: r in rows <==> r in units && r.product == p
  {
    RowsWith(units, p, true) + RowsWith(units, p, false)
  }

  predicate NeedsRebase(rows: seq<UnitRow>) { exists i :: 0 <= i < |rows| && rows[i].factor < 1.0 }

  /** The least of 1 and the factors. */
  function Smallest(rows: seq<UnitRow>): (s: real)
    ensures s <= 1.0 && forall i :: 0 <= i < |rows| ==> s <= rows[i].factor
    ensures s == 1.0 || exists i :: 0 <= i < |rows| && rows[i].factor == s
  {
    if rows == [] then 1.0
    else
      var s := Smallest(rows[1..]);
      if rows[0].factor < s then rows[0].factor else s
  }

  function FirstWith(rows: seq<UnitRow>, factor: real): (k: nat)
    ensures k <= |rows| && (k < |rows| ==> rows[k].factor == factor)
    ensures (exists i :: 0 <= i < |rows| && rows[i].factor == factor) ==> k < |rows|
  {
    if rows == [] || rows[0].factor == factor then 0 else 1 + FirstWith(rows[1..], factor)
  }

  /** The first unit with the smallest factor becomes the base. */
  function NewBase(rows: seq<UnitRow>): (u: UomId)
    requires NeedsRebase(rows)
    ensures exists i :: 0 <= i < |rows| && rows[i].uom == u && rows[i].factor == Smallest(rows)
  {
    rows[FirstWith(rows, Smallest(rows))].uom
  }

  // ---------------------------------------------------------------- rebasing

  /** A product with history or stock is left for manual repair. */
  predicate ShouldRebase(c: Catalog, p: ProductId)
    requires p in c.products
  {
    NeedsRebase(Rows(c.units, p)) && c.products[p].txnCount == 0 && c.products[p].onHand <= 0.0
  }

  function RebasedUnit(r: UnitRow, p: ProductId, smallest: real, base: UomId): UnitRow
    requires smallest != 0.0
  {
    if r.product == p then r.(factor := Round6(r.factor / smallest), isDefault := r.uom == base) else r
  }

  function RebasedUnits(units: seq<UnitRow>, p: ProductId, smallest: real, base: UomId): (rows: seq<UnitRow>)
    requires smallest != 0.0
    ensures |rows| == |units| && forall i :: 0 <= i < |rows| ==> rows[i] == RebasedUnit(units[i], p, smallest, base)
  {
    seq(|units|, i requires 0 <= i < |units| => RebasedUnit(units[i], p, smallest, base))
  }

  /** What the statement computes ... */
  function SixPlacePrice(price: real, smallest: real): real
    requires smallest != 0.0
  {
    Round6(price / (1.0 / smallest))
  }

  /** ... and what the column, which has two places, keeps of it. */
  function RebasedPrice(price: real, smallest: real): real
    requires smallest != 0.0
  {
    Round2(SixPlacePrice(price, smallest))
  }

  function RebasedPrices(prices: seq<real>, smallest: real): (after: seq<real>)
    requires smallest != 0.0
    ensures |after| == |prices| && forall i :: 0 <= i < |after| ==> after[i] == RebasedPrice(prices[i], smallest)
  {
    seq(|prices|, i requires 0 <= i < |prices| => RebasedPrice(prices[i], smallest))
  }

  predicate PositiveFactors(units: seq<UnitRow>) { forall i :: 0 <= i < |units| ==> units[i].factor > 0.0 }

  lemma {:induction false} SmallestPositive(units: seq<UnitRow>, p: ProductId)
    requires PositiveFactors(units)
    ensures Smallest(Rows(units, p)) > 0.0
  {
    var rows := Rows(units, p);
    if Smallest(rows) != 1.0 {
      var i :| 0 <= i < |rows| && rows[i].factor == Smallest(rows);
      assert rows[i] in rows;
      assert rows[i] in units;
    }
  }

  function Rebase(c: Catalog, p: ProductId): Catalog
    requires p in c.products && PositiveFactors(c.units)
  {
    if ShouldRebase(c, p) then
      SmallestPositive(c.units, p);
      var rows := Rows(c.units, p);
      var smallest, base := Smallest(rows), NewBase(rows);
      var prices := RebasedPrices(c.products[p].prices, smallest);
      c.(units := RebasedUnits(c.units, p, smallest, base),
         products := c.products[p := c.products[p].(base := Some(base), prices := prices)])
    else c
  }

  // ---------------------------------------------------------------- conversions

  function BaseOf(c: Catalog, p: ProductId): Option<UomId>
    requires p in c.products
  {
    var rows := Rows(c.units, p);
    if c.products[p].base.Some? then c.products[p].base
    else if rows != [] && rows[0].isDefault then Some(rows[0].uom)
    else None
  }

  predicate Convertible(r: UnitRow, base: UomId) { r.uom != base && !r.isDefault && r.factor >= 1.0 }

  function ConversionsFor(p: ProductId, base: UomId, rows: seq<UnitRow>): seq<Conversion> {
    if rows == [] then []
    else if Convertible(rows[0], base)
      then [Conversion(p, rows[0].uom, base, rows[0].factor)] + ConversionsFor(p, base, rows[1..])
    else ConversionsFor(p, base, rows[1..])
  }

  function Only(table: seq<Conversion>, p: ProductId): (rows: seq<Conversion>)
    ensures forall v :: v in rows <==> v in table && v.item == p
  {
    if table == [] then []
    else if table[0].item == p then [table[0]] + Only(table[1..], p)
    else Only(table[1..], p)
  }

  function Without(table: seq<Conversion>, p: ProductId): (rows: seq<Conversion>)
    ensures forall v :: v in rows <==> v in table && v.item != p
  {
    if table == [] then []
    else if table[0].item == p then Without(table[1..], p)
    else [table[0]] + Without(table[1..], p)
  }

  function RebuildOne(c: Catalog, p: ProductId): Catalog
    requires p in c.products && PositiveFactors(c.units)
  {
    var d := Rebase(c, p);
    var base := BaseOf(d, p);
    if base.None? then d
    else d.(conversions := Without(d.conversions, p) + ConversionsFor(p, base.value, Rows(d.units, p)))
  }

  // ---------------------------------------------------------------- what a rebase does

  lemma {:induction false} MulOrder(a: real, b: real, s: real)
    requires a < b && s > 0.0
    ensures a * s < b * s
  {
  }

  lemma {:induction false} RebasedFactor(f: real, s: real)
    requires 0.0 < s <= f
    ensures Round6(f / s) >= 1.0
    ensures f == s ==> Round6(f / s) == 1.0
  {
    var q := f / s;
    assert q * s == f;
    if q < 1.0 { MulOrder(q, 1.0, s); }
    Round6AtLeastOne(q);
  }

  /** A product is rebased exactly if it has no history, no stock and a unit smaller than its base. */
  lemma {:induction false} RebaseGuard(c: Catalog, p: ProductId)
    requires p in c.products
    ensures ShouldRebase(c, p) <==>
      && c.products[p].txnCount == 0 && c.products[p].onHand <= 0.0
      && exists i :: 0 <= i < |c.units| && c.units[i].product == p && c.units[i].factor < 1.0
  {
    var rows := Rows(c.units, p);
    if NeedsRebase(rows) {
      var k :| 0 <= k < |rows| && rows[k].factor < 1.0;
      assert rows[k] in rows && rows[k] in c.units;
    }
    if i :| 0 <= i < |c.units| && c.units[i].product == p && c.units[i].factor < 1.0 {
      assert c.units[i] in rows;
    }
  }

  /** History or stock stops a rebase: units and products stay as they are. */
  lemma {:induction false} HistoryStops(c: Catalog, p: ProductId)
    requires p in c.products && PositiveFactors(c.units)
    requires c.products[p].txnCount > 0 || c.products[p].onHand > 0.0
    ensures Rebase(c, p) == c
    ensures RebuildOne(c, p).units == c.units && RebuildOne(c, p).products == c.products
  {
  }

  /** Every factor of a rebased product is at least 1, the new base's is exactly 1 and it is the only default. */
  lemma {:induction false} RebasedFactors(c: Catalog, p: ProductId, i: nat)
    requires p in c.products && PositiveFactors(c.units)
    requires c.products[p].txnCount == 0 && c.products[p].onHand <= 0.0
    requires exists h :: 0 <= h < |c.units| && c.units[h].product == p && c.units[h].factor < 1.0
    requires i < |c.units| && c.units[i].product == p
    ensures var d := Rebase(c, p);
      && |d.units| == |c.units| && d.units[i].product == p && d.units[i].uom == c.units[i].uom
      && d.units[i].factor >= 1.0
      && (d.units[i].isDefault <==> d.products[p].base == Some(d.units[i].uom))
      && (c.units[i].factor == Smallest(Rows(c.units, p)) ==> d.units[i].factor == 1.0)
  {
    RebaseGuard(c, p);
    hide Round6, Smallest, RowsWith;
    var rows := Rows(c.units, p);
    SmallestPositive(c.units, p);
    assert c.units[i] in rows;
    var k :| 0 <= k < |rows| && rows[k] == c.units[i];
    RebasedFactor(c.units[i].factor, Smallest(rows));
  }

  /** No unit of the product has a smaller factor. */
  predicate LeastOf(units: seq<UnitRow>, p: ProductId, factor: real) {
    forall j :: 0 <= j < |units| && units[j].product == p ==> factor <= units[j].factor
  }

  lemma {:induction false} SmallestIsLeast(units: seq<UnitRow>, p: ProductId)
    ensures LeastOf(units, p, Smallest(Rows(units, p)))
  {
    var rows := Rows(units, p);
    hide Smallest, RowsWith;
    forall j | 0 <= j < |units| && units[j].product == p ensures Smallest(rows) <= units[j].factor {
      assert units[j] in rows;
      var h :| 0 <= h < |rows| && rows[h] == units[j];
    }
  }

  lemma {:induction false} NewBaseRow(units: seq<UnitRow>, p: ProductId) returns (i: nat)
    requires NeedsRebase(Rows(units, p))
    ensures i < |units| && units[i].product == p
    ensures units[i].uom == NewBase(Rows(units, p)) && units[i].factor == Smallest(Rows(units, p))
  {
    var rows := Rows(units, p);
    hide Smallest, RowsWith, NewBase;
    var k :| 0 <= k < |rows| && rows[k].uom == NewBase(rows) && rows[k].factor == Smallest(rows);
    assert rows[k] in rows && rows[k] in units;
    i :| 0 <= i < |units| && units[i] == rows[k];
  }

  /** The new base is one of the product's units, with factor exactly 1. */
  lemma {:induction false} RebasedBase(c: Catalog, p: ProductId)
    requires p in c.products && PositiveFactors(c.units)
    requires c.products[p].txnCount == 0 && c.products[p].onHand <= 0.0
    requires exists h :: 0 <= h < |c.units| && c.units[h].product == p && c.units[h].factor < 1.0
    ensures exists i :: (
      && 0 <= i < |c.units| && c.units[i].product == p
      && Rebase(c, p).products[p].base == Some(Rebase(c, p).units[i].uom) && Rebase(c, p).units[i].factor == 1.0
      && LeastOf(c.units, p, c.units[i].factor))
  {
    RebaseGuard(c, p);
    var i := NewBaseRow(c.units, p);
    SmallestIsLeast(c.units, p);
    RebasedFactors(c, p, i);
    hide Round6, Smallest, Rows, LeastOf, NewBase;
    assert Rebase(c, p).products[p].base == Some(Rebase(c, p).units[i].uom);
  }

  lemma {:induction false} LeastIsSmallest(units: seq<UnitRow>, p: ProductId, k: nat)
    requires k < |units| && units[k].product == p && units[k].factor < 1.0 && LeastOf(units, p, units[k].factor)
    ensures Smallest(Rows(units, p)) == units[k].factor
  {
    var rows := Rows(units, p);
    hide Smallest, RowsWith;
    SmallestIsLeast(units, p);
    if Smallest(rows) != 1.0 {
      var y :| 0 <= y < |rows| && rows[y].factor == Smallest(rows);
      assert rows[y] in rows && rows[y] in units;
    }
  }

  /** Every new factor is the old one over the least, rounded: row `k` is one with the least factor. */
  lemma {:induction false} RebasedByLeast(c: Catalog, p: ProductId, i: nat, k: nat)
    requires p in c.products && PositiveFactors(c.units)
    requires c.products[p].txnCount == 0 && c.products[p].onHand <= 0.0
    requires i < |c.units| && c.units[i].product == p
    requires k < |c.units| && c.units[k].product == p && c.units[k].factor < 1.0
    requires LeastOf(c.units, p, c.units[k].factor)
    ensures Smallest(Rows(c.units, p)) == c.units[k].factor
    ensures |Rebase(c, p).units| == |c.units|
    ensures Rebase(c, p).units[i].factor == Round6(c.units[i].factor / c.units[k].factor)
  {
    RebaseGuard(c, p);
    LeastIsSmallest(c.units, p, k);
    SmallestPositive(c.units, p);
    hide Round6, Smallest, Rows, NewBase, LeastOf;
    var s, base := Smallest(Rows(c.units, p)), NewBase(Rows(c.units, p));
    assert Rebase(c, p).units == RebasedUnits(c.units, p, s, base);
    assert RebasedUnits(c.units, p, s, base)[i] == RebasedUnit(c.units[i], p, s, base);
  }

  lemma {:induction false} OnlyDefault(units: seq<UnitRow>, j: nat, k: nat)
    requires OneDefaultEach(units) && j < |units| && k < |units| && units[j].product == units[k].product
    requires units[j].isDefault && units[k].isDefault
    ensures j == k
  {
  }

  /** A default unit with the least factor remains the base. */
  lemma {:induction false} DefaultPreferred(c: Catalog, p: ProductId, k: nat)
    requires p in c.products && PositiveFactors(c.units) && OneDefaultEach(c.units)
    requires c.products[p].txnCount == 0 && c.products[p].onHand <= 0.0
    requires k < |c.units| && c.units[k].product == p && c.units[k].isDefault && c.units[k].factor < 1.0
    requires LeastOf(c.units, p, c.units[k].factor)
    ensures Rebase(c, p).products[p].base == Some(c.units[k].uom)
  {
    RebaseGuard(c, p);
    RebasedByLeast(c, p, k, k);
    var rows, defaults := Rows(c.units, p), RowsWith(c.units, p, true);
    assert c.units[k] in defaults;
    assert rows[0] == defaults[0] && defaults[0] in defaults;
    var j :| 0 <= j < |c.units| && c.units[j] == defaults[0];
    OnlyDefault(c.units, j, k);
    SmallestPositive(c.units, p);
  }

  /** A rebase touches the product's own unit rows, its base and its prices, and nothing else. */
  lemma {:induction false} RebaseTouches(c: Catalog, p: ProductId)
    requires p in c.products && PositiveFactors(c.units)
    ensures var d := Rebase(c, p);
      && d.products.Keys == c.products.Keys && |d.units| == |c.units|
      && d == c.(products := d.products, units := d.units)
      && d.products[p].txnCount == c.products[p].txnCount && d.products[p].onHand == c.products[p].onHand
      && (forall q :: q in c.products && q != p ==> d.products[q] == c.products[q])
      && (forall i :: 0 <= i < |c.units| ==>
            && d.units[i].product == c.units[i].product && d.units[i].uom == c.units[i].uom
            && (c.units[i].product != p ==> d.units[i] == c.units[i]))
  {
    hide Round6, Rows, Smallest, NewBase;
    if ShouldRebase(c, p) { SmallestPositive(c.units, p); }
  }

  // ---------------------------------------------------------------- which base

  /** The product's own base; only where it has none, its default unit; otherwise nothing. */
  lemma {:induction false} BaseExactly(c: Catalog, p: ProductId)
    requires p in c.products
    ensures c.products[p].base.Some? ==> BaseOf(c, p) == c.products[p].base
    ensures c.products[p].base.None? ==>
      (BaseOf(c, p).Some? <==> exists i :: 0 <= i < |c.units| && c.units[i].product == p && c.units[i].isDefault)
    ensures c.products[p].base.None? && BaseOf(c, p).Some? ==>
      exists i :: 0 <= i < |c.units| && c.units[i].product == p && c.units[i].isDefault && BaseOf(c, p).value == c.units[i].uom
  {
    var rows, defaults := Rows(c.units, p), RowsWith(c.units, p, true);
    if i :| 0 <= i < |c.units| && c.units[i].product == p && c.units[i].isDefault {
      assert c.units[i] in defaults;
      assert rows[0] == defaults[0] && defaults[0] in defaults;
    }
    if rows != [] && rows[0].isDefault {
      assert rows[0] in rows && rows[0] in c.units;
    }
  }

  lemma {:induction false} AbsProduct(x: real, a: real, y: real, b: real)
    requires -a <= x <= a && -b <= y <= b
    ensures Abs(x * y) <= a * b
  {
    assert Abs(x * y) == Abs(x) * Abs(y);
    assert Abs(x) * Abs(y) <= a * Abs(y);
    assert a * Abs(y) <= a * b;
  }

  lemma {:induction false} RoundedProduct(x: real, y: real, e: real, g: real, a: real, b: real)
    requires x >= 0.0 && y >= 0.0 && -a <= e <= a && -b <= g <= b
    ensures Abs((x + e) * (y + g) - x * y) <= b * x + a * y + a * b
  {
    assert (x + e) * (y + g) - x * y == x * g + y * e + e * g;
    AbsProduct(x, x, g, b);
    AbsProduct(y, y, e, a);
    AbsProduct(e, a, g, b);
  }

  lemma {:induction false} ExactRebase(price: real, factor: real, s: real)
    requires s > 0.0
    ensures price / (1.0 / s) == price * s
    ensures (price * s) * (factor / s) == price * factor
  {
    var inverse := 1.0 / s;
    assert inverse * s == 1.0;
    var q := price / inverse;
    assert q * inverse == price;
    assert q == q * (inverse * s) == (q * inverse) * s;
    assert factor / s * s == factor;
    assert (price * s) * (factor / s) == price * (factor / s * s);
  }

  lemma {:induction false} RoundedPair(x: real, y: real, x': real, a: real)
    requires x >= 0.0 && y >= 0.0 && -a <= x' - x <= a
    ensures Abs(x' * Round6(y) - x * y) <= HALF_STEP * x + a * y + a * HALF_STEP
  {
    var e, g := x' - x, Round6(y) - y;
    Round6Near(y);
    hide Round6, Abs;
    RoundedProduct(x, y, e, g, a, HALF_STEP);
    assert (x + e) * (y + g) == x' * Round6(y);
  }

  /**
   * The price of one pack, price times factor, is off by no more than an error of `step` in the price per base unit
   * and the six-place rounding of the factor account for.
   */
  predicate PackPriceWithin(step: real, price': real, factor': real, price: real, factor: real, s: real)
    requires s > 0.0
  {
    Abs(price' * factor' - price * factor) <= HALF_STEP * (price * s) + step * (factor / s) + step * HALF_STEP
  }

  lemma {:induction false} PackPriceMoves(price: real, factor: real, s: real, price': real, step: real)
    requires price >= 0.0 && factor > 0.0 && s > 0.0
    requires -step <= price' - price * s <= step
    ensures PackPriceWithin(step, price', Round6(factor / s), price, factor, s)
  {
    hide Round6;
    var x, y := price * s, factor / s;
    ExactRebase(price, factor, s);
    assert x >= 0.0 && y > 0.0 by { assert y * s == factor; }
    RoundedPair(x, y, price', step);
    assert x * y == price * factor;
  }

  /**
   * As computed, with six places, the price of a pack moves by no more than that rounding can account for; without
   * rounding it would not move at all.
   */
  lemma {:induction false} PackPriceKept(price: real, factor: real, s: real)
    requires price >= 0.0 && factor > 0.0 && s > 0.0
    ensures PackPriceWithin(HALF_STEP, SixPlacePrice(price, s), Round6(factor / s), price, factor, s)
    ensures (price / (1.0 / s)) * (factor / s) == price * factor
  {
    hide PackPriceWithin, Round6;
    ExactRebase(price, factor, s);
    Round6Near(price * s);
    PackPriceMoves(price, factor, s, SixPlacePrice(price, s), HALF_STEP);
  }

  /** As stored, in whole cents, it moves by what an error of half a cent and half a step can account for. */
  lemma {:induction false} StoredPackPriceKept(price: real, factor: real, s: real)
    requires price >= 0.0 && factor > 0.0 && s > 0.0
    ensures PackPriceWithin(HALF_CENT + HALF_STEP, RebasedPrice(price, s), Round6(factor / s), price, factor, s)
  {
    hide PackPriceWithin, Round6, Round2;
    ExactRebase(price, factor, s);
    Round6Near(price * s);
    Round2Near(SixPlacePrice(price, s));
    PackPriceMoves(price, factor, s, RebasedPrice(price, s), HALF_CENT + HALF_STEP);
  }

  /**
   * In a rebased catalog every price, taken for a pack of any of the product's units, is within the bound for cents.
   * The stored price is the computed one exactly if that comes out in whole cents, and then the six-place bound holds.
   */
  lemma {:induction false} RebasedPackPrices(c: Catalog, p: ProductId, i: nat, k: nat)
    requires p in c.products && PositiveFactors(c.units) && ShouldRebase(c, p)
    requires i < |c.units| && c.units[i].product == p
    requires k < |c.products[p].prices| && c.products[p].prices[k] >= 0.0
    ensures var d, s := Rebase(c, p), Smallest(Rows(c.units, p));
      var price, factor := c.products[p].prices[k], c.units[i].factor;
      && s > 0.0
      && |d.units| == |c.units| && |d.products[p].prices| == |c.products[p].prices|
      && PackPriceWithin(HALF_CENT + HALF_STEP, d.products[p].prices[k], d.units[i].factor, price, factor, s)
      && (d.products[p].prices[k] == SixPlacePrice(price, s) <==> WholeCents(SixPlacePrice(price, s)))
      && (WholeCents(SixPlacePrice(price, s)) ==>
            PackPriceWithin(HALF_STEP, d.products[p].prices[k], d.units[i].factor, price, factor, s))
  {
    hide Round6, Round2, Smallest, RowsWith, SixPlacePrice, PackPriceWithin, WholeCents;
    SmallestPositive(c.units, p);
    var s, d := Smallest(Rows(c.units, p)), Rebase(c, p);
    var price, factor := c.products[p].prices[k], c.units[i].factor;
    assert d.units[i] == RebasedUnit(c.units[i], p, s, NewBase(Rows(c.units, p)));
    assert d.products[p].prices[k] == RebasedPrice(price, s);
    Round2Fixed(SixPlacePrice(price, s));
    StoredPackPriceKept(price, factor, s);
    PackPriceKept(price, factor, s);
  }

  /** A price is lost altogether exactly if the computed one is below half a cent. */
  lemma {:induction false} PriceVanishes(price: real, s: real)
    requires price >= 0.0 && s > 0.0
    ensures RebasedPrice(price, s) == 0.0 <==> SixPlacePrice(price, s) < HALF_CENT
  {
    ExactRebase(price, 1.0, s);
    var x := SixPlacePrice(price, s);
    assert x >= 0.0 by { assert price * s >= 0.0; }
    hide SixPlacePrice, Round6;
    if x < HALF_CENT { assert x * 100.0 + 0.5 < 1.0; } else { assert x * 100.0 + 0.5 >= 1.0; }
  }

  /** So a price of 1.00 for a unit of factor 1 is stored as nothing if the least factor is 0.001. */
  lemma {:induction false} PriceLost()
    ensures RebasedPrice(1.0, 0.001) == 0.0
    ensures !PackPriceWithin(HALF_STEP, RebasedPrice(1.0, 0.001), Round6(1.0 / 0.001), 1.0, 1.0, 0.001)
  {
    assert 1.0 / 0.001 == 1000.0 && 1.0 / 1000.0 == 0.001;
    assert SixPlacePrice(1.0, 0.001) == 0.001;
    PriceVanishes(1.0, 0.001);
  }

  /** How far f' to g' is from f to g, written crosswise. */
  function CrossError(f': real, g': real, f: real, g: real): real { Abs(f' * g - g' * f) }

  /**
   * The proportion between two units of a rebased product is off by no more than the rounding of
   * both factors accounts for, and is kept exactly where both new factors have six places.
   */
  lemma {:induction false} RebasedRatios(c: Catalog, p: ProductId, i: nat, j: nat)
    requires p in c.products && PositiveFactors(c.units) && ShouldRebase(c, p)
    requires i < |c.units| && c.units[i].product == p && j < |c.units| && c.units[j].product == p
    ensures var d, s := Rebase(c, p), Smallest(Rows(c.units, p));
      var f, g := c.units[i].factor, c.units[j].factor;
      && s > 0.0 && |d.units| == |c.units|
      && CrossError(d.units[i].factor, d.units[j].factor, f, g) <= HALF_STEP * (f + g)
      && (Round6(f / s) == f / s && Round6(g / s) == g / s ==> CrossError(d.units[i].factor, d.units[j].factor, f, g) == 0.0)
  {
    hide Round6, Smallest, RowsWith, CrossError;
    SmallestPositive(c.units, p);
    var s, d, base := Smallest(Rows(c.units, p)), Rebase(c, p), NewBase(Rows(c.units, p));
    assert d.units[i] == RebasedUnit(c.units[i], p, s, base) && d.units[j] == RebasedUnit(c.units[j], p, s, base);
    RoundedRatio(c.units[i].factor, c.units[j].factor, s, d.units[i].factor, d.units[j].factor);
  }

  lemma {:induction false} SameRatio(f: real, g: real, s: real, x: real, y: real)
    requires s > 0.0 && x == f / s && y == g / s
    ensures x * g == y * f
  {
    assert x * s == f && y * s == g;
    assert x * (y * s) == y * (x * s);
  }

  lemma {:induction false} RoundedRatio(f: real, g: real, s: real, f': real, g': real)
    requires f > 0.0 && g > 0.0 && s > 0.0 && f' == Round6(f / s) && g' == Round6(g / s)
    ensures CrossError(f', g', f, g) <= HALF_STEP * (f + g)
    ensures Round6(f / s) == f / s && Round6(g / s) == g / s ==> CrossError(f', g', f, g) == 0.0
  {
    var x, y := f / s, g / s;
    Round6Near(x);
    Round6Near(y);
    SameRatio(f, g, s, x, y);
    hide Round6;
    ErrorsCross(f, g, x, y, f' - x, g' - y);
    assert x + (f' - x) == f' && y + (g' - y) == g';
  }

  lemma {:induction false} ErrorsCross(f: real, g: real, x: real, y: real, e: real, h: real)
    requires f > 0.0 && g > 0.0 && -HALF_STEP <= e <= HALF_STEP && -HALF_STEP <= h <= HALF_STEP
    requires x * g == y * f
    ensures CrossError(x + e, y + h, f, g) <= HALF_STEP * (f + g)
    ensures e == 0.0 && h == 0.0 ==> CrossError(x + e, y + h, f, g) == 0.0
  {
    assert (x + e) * g - (y + h) * f == e * g - h * f;
    AbsProduct(e, HALF_STEP, g, g);
    AbsProduct(h, HALF_STEP, f, f);
  }
}
