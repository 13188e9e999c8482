/**
 * Units of measure and every table the canonical repair job reads or rewrites, with the schema's
 * constraints on them.
 */
module UnitCatalog {
  import opened Basics

  type UomId = int
  type ProductId = int

  // ---------------------------------------------------------------- names

  predicate IsKeyChar(c: char) { 'A' <= c <= 'Z' || '0' <= c <= '9' }

  function KeyChars(s: string): string {
    if s == "" then "" else (if IsKeyChar(s[0]) then [s[0]] else "") + KeyChars(s[1..])
  }

  /** Upper case, letters and digits only; blanks at the ends go with the other characters. */
  function NameKey(name: string): string { KeyChars(UpperText(name)) }

  const ALIASES: seq<(string, string)> := [
    ("TAB", "TABLET"), ("TABS", "TABLET"), ("TABLETS", "TABLET"),
    ("PK", "PACK"), ("PKT", "PACKET"), ("PACKS", "PACK"), ("PACKETS", "PACKET"),
    ("PCS", "PIECE"), ("EA", "EACH")]

  function Lookup(aliases: seq<(string, string)>, key: string): string
    decreases aliases
  {
    if aliases == [] then key
    else if aliases[0].0 == key then aliases[0].1
    else Lookup(aliases[1..], key)
  }

  function Canon(name: string): string { Lookup(ALIASES, NameKey(name)) }

  predicate IsKey(key: string) { forall i :: 0 <= i < |key| ==> IsKeyChar(key[i]) }

  lemma {:induction false} KeyCharsAreKey(s: string)
    ensures IsKey(KeyChars(s))
  {
    if s != "" { KeyCharsAreKey(s[1..]); }
  }

  lemma {:induction false} KeyIsItsOwnKey(key: string)
    requires IsKey(key)
    ensures UpperText(key) == key && NameKey(key) == key
  {
    if key != "" {
      KeyIsItsOwnKey(key[1..]);
      assert Upper(key[0]) == [key[0]];
      assert key == [key[0]] + key[1..];
    }
  }

  lemma {:induction false} LookupFinds(aliases: seq<(string, string)>, key: string)
    ensures Lookup(aliases, key) == key || exists i :: 0 <= i < |aliases| && Lookup(aliases, key) == aliases[i].1
    ensures (forall i :: 0 <= i < |aliases| ==> aliases[i].0 != key) ==> Lookup(aliases, key) == key
    ensures Lookup(aliases, key) == key || exists i :: 0 <= i < |aliases| && aliases[i].0 == key
    decreases aliases
  {
    if aliases != [] && aliases[0].0 != key {
      LookupFinds(aliases[1..], key);
      forall i | 0 <= i < |aliases[1..]| ensures aliases[1..][i] == aliases[i + 1] {}
    }
  }

  /** What an alias stands for is a key, and no alias itself. */
  lemma {:induction false} AliasValues(i: nat, j: nat)
    requires i < |ALIASES| && j < |ALIASES|
    ensures IsKey(ALIASES[i].1) && ALIASES[j].0 != ALIASES[i].1
  {
    var alias, value := ALIASES[j].0, ALIASES[i].1;
    assert |alias| == |value| == 4 ==> alias[0] != value[0];
    assert |alias| == |value| == 5 ==> alias[1] != value[1];
  }

  /** A canonical name is canonical. */
  lemma {:induction false} CanonTwice(name: string)
    ensures Canon(Canon(name)) == Canon(name) && NameKey(Canon(name)) == Canon(name)
  {
    var key, c := NameKey(name), Canon(name);
    KeyCharsAreKey(UpperText(name));
    LookupFinds(ALIASES, key);
    if c != key {
      var i :| 0 <= i < |ALIASES| && c == ALIASES[i].1;
      AliasValues(i, 0);
      forall j: nat | j < |ALIASES| ensures ALIASES[j].0 != c { AliasValues(i, j); }
    }
    KeyIsItsOwnKey(c);
    LookupFinds(ALIASES, c);
  }

  // ---------------------------------------------------------------- which names are one

  /** Letters and digits stay, everything else goes. */
  lemma {:induction false} KeyCharsExactly(s: string)
    ensures forall x :: x in KeyChars(s) <==> x in s && ('A' <= x <= 'Z' || '0' <= x <= '9')
  {
    if s != "" { KeyCharsExactly(s[1..]); }
  }

  lemma {:induction false} KeyCharsConcat(a: string, b: string)
    ensures KeyChars(a + b) == KeyChars(a) + KeyChars(b)
  {
    if a == "" {
      assert a + b == b;
    } else {
      assert (a + b)[1..] == a[1..] + b;
      KeyCharsConcat(a[1..], b);
    }
  }

  /** The key of a text is made up of the keys of its parts, in their order. */
  lemma {:induction false} NameKeyConcat(a: string, b: string)
    ensures NameKey(a + b) == NameKey(a) + NameKey(b)
  {
    UpperTextConcat(a, b);
    KeyCharsConcat(UpperText(a), UpperText(b));
  }

  /** A text of capital letters and digits is its own key. */
  lemma {:induction false} NameKeyOfKey(s: string)
    requires forall i :: 0 <= i < |s| ==> 'A' <= s[i] <= 'Z' || '0' <= s[i] <= '9'
    ensures NameKey(s) == s
  {
    KeyIsItsOwnKey(s);
  }

  /** Small letters count as capital ones; no other character below 128 counts. */
  lemma {:induction false} NameKeyOfChar(c: char)
    ensures 'a' <= c <= 'z' ==> NameKey([c]) == [(c as int - 32) as char]
    ensures 'A' <= c <= 'Z' || '0' <= c <= '9' ==> NameKey([c]) == [c]
    ensures c as int < 128 && !('a' <= c <= 'z' || 'A' <= c <= 'Z' || '0' <= c <= '9') ==> NameKey([c]) == ""
  {
    assert [c][1..] == "";
    assert UpperText([c]) == Upper(c) + "";
    if c as int < 128 {
      var u := if 'a' <= c <= 'z' then (c as int - 32) as char else c;
      assert Upper(c) == [u] && [u][1..] == "" && [u] + "" == [u];
      assert KeyChars([u]) == if IsKeyChar(u) then [u] else "";
    }
  }

  /** Of the characters from 128 on, these count as the letters of their upper case, and no other counts. */
  lemma {:induction false} NameKeyOfSpecial(c: char)
    requires c as int >= 128
    ensures NameKey([c]) ==
      if c == '\U{00DF}' then "SS" else if c == '\U{0131}' then "I" else if c == '\U{0149}' then "N"
      else if c == '\U{017F}' then "S" else if c == '\U{01F0}' then "J" else if c == '\U{1E96}' then "H"
      else if c == '\U{1E97}' then "T" else if c == '\U{1E98}' then "W" else if c == '\U{1E99}' then "Y"
      else if c == '\U{1E9A}' then "A" else if c == '\U{FB00}' then "FF" else if c == '\U{FB01}' then "FI"
      else if c == '\U{FB02}' then "FL" else if c == '\U{FB03}' then "FFI" else if c == '\U{FB04}' then "FFL"
      else if c == '\U{FB05}' || c == '\U{FB06}' then "ST" else ""
  {
    assert [c][1..] == "";
    var u := Upper(c);
    assert UpperText([c]) == u + "" == u;
    hide UpperText;
    assert |u| <= 3;
    assert |u| > 0 ==> |u[1..]| == |u| - 1;
    KeyCharsOfThree(u);
  }

  lemma {:induction false} KeyCharsOfThree(u: string)
    requires 1 <= |u| <= 3
    ensures KeyChars(u) ==
      (if IsKeyChar(u[0]) then [u[0]] else "") + (if |u| > 1 && IsKeyChar(u[1]) then [u[1]] else "")
      + (if |u| > 2 && IsKeyChar(u[2]) then [u[2]] else "")
  {
    var v := u[1..];
    if |u| == 1 {
      assert KeyChars(v) == "";
    } else {
      assert v[0] == u[1];
      var w := v[1..];
      if |u| == 2 {
        assert KeyChars(w) == "";
      } else {
        assert w[0] == u[2] && KeyChars(w[1..]) == "";
        assert KeyChars(w) == if IsKeyChar(u[2]) then [u[2]] else "";
      }
      assert KeyChars(v) == (if IsKeyChar(u[1]) then [u[1]] else "") + KeyChars(w);
    }
  }

  lemma {:induction false} LookupAt(aliases: seq<(string, string)>, key: string, i: nat)
    requires i < |aliases| && aliases[i].0 == key && forall j :: 0 <= j < i ==> aliases[j].0 != key
    ensures Lookup(aliases, key) == aliases[i].1
    decreases aliases
  {
    if i > 0 { LookupAt(aliases[1..], key, i - 1); }
  }

  /** The nine aliases and what they stand for; every other key stands for itself. */
  lemma {:induction false} CanonExactly(name: string)
    ensures var key := NameKey(name);
      Canon(name) ==
        if key == "TAB" || key == "TABS" || key == "TABLETS" then "TABLET"
        else if key == "PK" || key == "PACKS" then "PACK"
        else if key == "PKT" || key == "PACKETS" then "PACKET"
        else if key == "PCS" then "PIECE"
        else if key == "EA" then "EACH"
        else key
  {
    hide Lookup, NameKey;
    var key := NameKey(name);
    LookupFinds(ALIASES, key);
    assert ALIASES[0].0 == "TAB" && ALIASES[1].0 == "TABS" && ALIASES[2].0 == "TABLETS";
    assert ALIASES[3].0 == "PK" && ALIASES[4].0 == "PKT" && ALIASES[5].0 == "PACKS" && ALIASES[6].0 == "PACKETS";
    assert ALIASES[7].0 == "PCS" && ALIASES[8].0 == "EA";
    if i: nat :| i < |ALIASES| && ALIASES[i].0 == key {
      forall j: nat | j < i ensures ALIASES[j].0 != key { AliasesDiffer(i, j); }
      LookupAt(ALIASES, key, i);
    }
  }

  lemma {:induction false} AliasesDiffer(i: nat, j: nat)
    requires j < i < |ALIASES|
    ensures ALIASES[j].0 != ALIASES[i].0
  {
    var a, b := ALIASES[i].0, ALIASES[j].0;
    assert |a| == |b| == 2 ==> a[0] != b[0];
    assert |a| == |b| == 3 ==> a[0] != b[0] || a[1] != b[1];
    assert |a| == |b| == 7 ==> a[0] != b[0];
  }

  // ---------------------------------------------------------------- tables

  /** `prices` are the product's price cells: cost and selling price, and those of its valuation row. */
  datatype Product = Product(base: Option<UomId>, txnCount: nat, onHand: real, prices: seq<real>)

  datatype UnitRow = UnitRow(product: ProductId, uom: UomId, factor: real, isDefault: bool)

  datatype Conversion = Conversion(item: ProductId, from: UomId, to: UomId, factor: real)

  datatype Cell = Cell(column: nat, row: int)

  /**
   * `refs` are the cells of columns 2 to 12 of the rewrite list. Of the columns that are not in the list,
   * `restricted` holds the units whose deletion a foreign key refuses, and `loose` the cells a deletion empties.
   * `columns` says which columns of the rewrite list the database has.
   */
  datatype Catalog = Catalog(
    names: map<UomId, string>,
    products: map<ProductId, Product>,
    units: seq<UnitRow>,
    conversions: seq<Conversion>,
    refs: map<Cell, UomId>,
    restricted: set<UomId>,
    loose: map<Cell, UomId>,
    columns: set<nat>)

  const COLUMNS: nat := 15

  /** The characters a unit's name can have. */
  const NAME_LIMIT: nat := 100

  /** Twelve digits before the point: factors stay below this. */
  const FACTOR_LIMIT: real := 1000000000000.0

  predicate AllColumns(c: Catalog) { forall j: nat :: j < COLUMNS ==> j in c.columns }

  predicate NamesUnique(names: map<UomId, string>) {
    forall u, v :: u in names && v in names && u != v ==> names[u] != names[v]
  }

  predicate UnitsUnique(units: seq<UnitRow>) {
    forall i, j :: 0 <= i < j < |units| && units[i].product == units[j].product ==> units[i].uom != units[j].uom
  }

  /** No unit converts to itself, an item has one conversion from a unit, and never one in each direction. */
  predicate ConversionsLawful(rows: seq<Conversion>) {
    && (forall i :: 0 <= i < |rows| ==> rows[i].from != rows[i].to)
    && (forall i, j :: 0 <= i < j < |rows| && rows[i].item == rows[j].item ==>
          rows[i].from != rows[j].from && !(rows[i].from == rows[j].to && rows[i].to == rows[j].from))
  }

  predicate Lawful(c: Catalog) { UnitsUnique(c.units) && ConversionsLawful(c.conversions) }

  predicate ListedColumns(refs: map<Cell, UomId>) { forall x :: x in refs ==> 2 <= x.column <= 12 }

  /** Every cell refers to a unit that exists. */
  predicate Referential(c: Catalog) {
    && (forall p :: p in c.products && c.products[p].base.Some? ==> c.products[p].base.value in c.names)
    && (forall i :: 0 <= i < |c.units| ==> c.units[i].uom in c.names && c.units[i].product in c.products)
    && (forall i :: 0 <= i < |c.conversions| ==> c.conversions[i].from in c.names && c.conversions[i].to in c.names)
    && (forall x :: x in c.refs ==> c.refs[x] in c.names)
    && ListedColumns(c.refs)
    && (forall x :: x in c.loose ==> c.loose[x] in c.names)
    && c.restricted <= c.names.Keys
  }

  /** The partial unique index: a product has at most one default unit. */
  predicate OneDefaultEach(units: seq<UnitRow>) {
    forall i, j :: 0 <= i < j < |units| && units[i].product == units[j].product ==>
      !(units[i].isDefault && units[j].isDefault)
  }

  predicate FactorsFit(units: seq<UnitRow>) { forall i :: 0 <= i < |units| ==> units[i].factor < 1000000000000.0 }

  predicate NamesWithinLimit(names: map<UomId, string>) { forall u :: u in names ==> |names[u]| <= 100 }

  predicate Valid(c: Catalog) {
    && NamesUnique(c.names) && NamesWithinLimit(c.names)
    && Lawful(c) && OneDefaultEach(c.units) && FactorsFit(c.units) && Referential(c)
  }

  // ---------------------------------------------------------------- substitution

  function Sub(sub: map<UomId, UomId>, u: UomId): UomId { if u in sub then sub[u] else u }

  function SubBase(sub: map<UomId, UomId>, p: Product): Product {
    if p.base.Some? then p.(base := Some(Sub(sub, p.base.value))) else p
  }

  function SubUnit(sub: map<UomId, UomId>, r: UnitRow): UnitRow { r.(uom := Sub(sub, r.uom)) }

  function SubFrom(sub: map<UomId, UomId>, r: Conversion): Conversion { r.(from := Sub(sub, r.from)) }

  function SubTo(sub: map<UomId, UomId>, r: Conversion): Conversion { r.(to := Sub(sub, r.to)) }

  function SubProducts(sub: map<UomId, UomId>, products: map<ProductId, Product>): map<ProductId, Product> {
    map p | p in products :: SubBase(sub, products[p])
  }

  function SubUnits(sub: map<UomId, UomId>, rows: seq<UnitRow>): (r: seq<UnitRow>)
    ensures |r| == |rows| && forall i :: 0 <= i < |r| ==> r[i] == SubUnit(sub, rows[i])
  {
    seq(|rows|, i requires 0 <= i < |rows| => SubUnit(sub, rows[i]))
  }

  function SubFroms(sub: map<UomId, UomId>, rows: seq<Conversion>): (r: seq<Conversion>)
    ensures |r| == |rows| && forall i :: 0 <= i < |r| ==> r[i] == SubFrom(sub, rows[i])
  {
    seq(|rows|, i requires 0 <= i < |rows| => SubFrom(sub, rows[i]))
  }

  function SubTos(sub: map<UomId, UomId>, rows: seq<Conversion>): (r: seq<Conversion>)
    ensures |r| == |rows| && forall i :: 0 <= i < |r| ==> r[i] == SubTo(sub, rows[i])
  {
    seq(|rows|, i requires 0 <= i < |rows| => SubTo(sub, rows[i]))
  }

  function SubRefs(sub: map<UomId, UomId>, refs: map<Cell, UomId>, columns: nat): map<Cell, UomId> {
    map x | x in refs :: if x.column < columns then Sub(sub, refs[x]) else refs[x]
  }

  /** The catalog with the first `columns` columns of the rewrite list substituted. */
  function Retargeted(c: Catalog, sub: map<UomId, UomId>, columns: nat): Catalog {
    c.(products := if columns > 0 then SubProducts(sub, c.products) else c.products,
       units := if columns > 1 then SubUnits(sub, c.units) else c.units,
       conversions := SubSome(sub, c.conversions, columns),
       refs := SubRefs(sub, c.refs, columns))
  }

  function SubSome(sub: map<UomId, UomId>, rows: seq<Conversion>, columns: nat): seq<Conversion> {
    var froms := if columns > 13 then SubFroms(sub, rows) else rows;
    if columns > 14 then SubTos(sub, froms) else froms
  }

  function Retarget(c: Catalog, sub: map<UomId, UomId>): Catalog { Retargeted(c, sub, COLUMNS) }

  /** One UPDATE of the rewrite list: the cells of column `j` that refer to `old` refer to `new` instead. */
  function UpdateColumn(c: Catalog, j: nat, duplicate: UomId, winner: UomId): Catalog
    requires j < COLUMNS
  {
    var sub := map[duplicate := winner];
    if j == 0 then c.(products := SubProducts(sub, c.products))
    else if j == 1 then c.(units := SubUnits(sub, c.units))
    else if j == 13 then c.(conversions := SubFroms(sub, c.conversions))
    else if j == 14 then c.(conversions := SubTos(sub, c.conversions))
    else c.(refs := map x | x in c.refs :: if x.column == j then Sub(sub, c.refs[x]) else c.refs[x])
  }

  lemma {:induction false} NoColumns(c: Catalog, sub: map<UomId, UomId>)
    ensures Retargeted(c, sub, 0) == c
  {
    assert SubRefs(sub, c.refs, 0) == c.refs;
  }

  lemma {:induction false} OneMoreColumn(c: Catalog, j: nat, duplicate: UomId, winner: UomId)
    requires j < COLUMNS && ListedColumns(c.refs)
    ensures var sub := map[duplicate := winner];
      UpdateColumn(Retargeted(c, sub, j), j, duplicate, winner) == Retargeted(c, sub, j + 1)
  {
    var sub := map[duplicate := winner];
    var now := Retargeted(c, sub, j);
    if 2 <= j <= 12 {
      assert UpdateColumn(now, j, duplicate, winner).refs == SubRefs(sub, c.refs, j + 1);
    } else {
      assert SubRefs(sub, c.refs, j + 1) == SubRefs(sub, c.refs, j);
    }
  }
}
