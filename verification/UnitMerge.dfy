/** What merging duplicate units does: which merges go through, and what they preserve. */
module UnitMerge {
  import opened Basics
  import opened UnitCatalog

  // ---------------------------------------------------------------- buckets and winners

  predicate Listed(names: map<UomId, string>, rows: seq<UomId>) { forall i :: 0 <= i < |rows| ==> rows[i] in names }

  /** `order` is what the query of all units returns: each of them once, in some order. */
  predicate IsQuery(names: map<UomId, string>, order: seq<UomId>) {
    && Listed(names, order)
    && Distinct(order)
    && (forall u :: u in names ==> u in order)
  }

  /** The units with canonical name `c`, in query order. */
  function Bucket(names: map<UomId, string>, order: seq<UomId>, c: string): (rows: seq<UomId>)
    requires Listed(names, order)
    ensures Listed(names, rows)
    ensures forall u :: u in rows <==> u in order && Canon(names[u]) == c
  {
    if order == [] then []
    else Kept(names, order[0], c) + Bucket(names, order[1..], c)
  }

  function Kept(names: map<UomId, string>, u: UomId, c: string): (rows: seq<UomId>)
    requires u in names
    ensures forall v :: v in rows <==> v == u && Canon(names[u]) == c
  {
    if Canon(names[u]) == c then [u] else []
  }

  /** The name is not an alias of its canonical name. */
  predicate IsPlain(name: string) { NameKey(name) == Canon(name) }

  /** The first row whose name is not an alias, or the first row. */
  function WinnerOf(names: map<UomId, string>, rows: seq<UomId>): (w: UomId)
    requires Listed(names, rows) && rows != []
    ensures w in rows
  {
    var plain := FirstPlain(names, rows);
    if plain < |rows| then rows[plain] else rows[0]
  }

  function FirstPlain(names: map<UomId, string>, rows: seq<UomId>): (k: nat)
    requires Listed(names, rows)
    ensures k <= |rows|
    ensures k < |rows| ==> IsPlain(names[rows[k]])
    ensures forall i :: 0 <= i < k ==> !IsPlain(names[rows[i]])
  {
    if rows == [] || IsPlain(names[rows[0]]) then 0 else 1 + FirstPlain(names, rows[1..])
  }

  /** The unit that stands for each unit after the merge. */
  function Target(names: map<UomId, string>, order: seq<UomId>): (t: map<UomId, UomId>)
    requires IsQuery(names, order)
    ensures t.Keys == names.Keys
  {
    map u | u in names :: WinnerOf(names, Bucket(names, order, Canon(names[u])))
  }

  predicate Winner(names: map<UomId, string>, order: seq<UomId>, u: UomId)
    requires IsQuery(names, order)
  {
    u in names && Target(names, order)[u] == u
  }

  lemma {:induction false} TargetMeans(names: map<UomId, string>, order: seq<UomId>, u: UomId)
    requires IsQuery(names, order) && u in names
    ensures var t := Target(names, order);
      && t[u] in names && Canon(names[t[u]]) == Canon(names[u])
      && Winner(names, order, t[u])
      && forall v :: v in names ==> (t[v] == t[u] <==> Canon(names[v]) == Canon(names[u]))
  {
    hide Canon;
    var t := Target(names, order);
    assert t[u] in Bucket(names, order, Canon(names[u]));
    forall v | v in names ensures t[v] == t[u] <==> Canon(names[v]) == Canon(names[u]) {
      assert t[v] in Bucket(names, order, Canon(names[v]));
    }
  }

  // ---------------------------------------------------------------- the merged catalog

  function MergedNames(names: map<UomId, string>, order: seq<UomId>): map<UomId, string>
    requires IsQuery(names, order)
  {
    map u | u in names && Winner(names, order, u) :: Canon(names[u])
  }

  function MergedLoose(c: Catalog, order: seq<UomId>): map<Cell, UomId>
    requires IsQuery(c.names, order)
  {
    map x | x in c.loose && Winner(c.names, order, c.loose[x]) :: c.loose[x]
  }

  function Merged(c: Catalog, order: seq<UomId>): Catalog
    requires IsQuery(c.names, order)
  {
    Retarget(c, Target(c.names, order)).(names := MergedNames(c.names, order), loose := MergedLoose(c, order))
  }

  /** No row but the winner bears the canonical name already, so renaming the winner finds the name free. */
  predicate NamesFree(c: Catalog, order: seq<UomId>)
    requires IsQuery(c.names, order)
  {
    forall u :: u in c.names && c.names[u] == Canon(c.names[u]) ==> Winner(c.names, order, u)
  }

  predicate NoneRestricted(c: Catalog, order: seq<UomId>)
    requires IsQuery(c.names, order)
  {
    forall u :: u in c.restricted ==> Winner(c.names, order, u)
  }

  function NameOf(c: Catalog, u: UomId): string { if u in c.names then Canon(c.names[u]) else "" }

  predicate UnitsUniqueByName(c: Catalog) {
    forall i, j :: 0 <= i < j < |c.units| && c.units[i].product == c.units[j].product ==>
      NameOf(c, c.units[i].uom) != NameOf(c, c.units[j].uom)
  }

  predicate ConversionsLawfulByName(c: Catalog) {
    && (forall i :: 0 <= i < |c.conversions| ==> NameOf(c, c.conversions[i].from) != NameOf(c, c.conversions[i].to))
    && (forall i, j :: 0 <= i < j < |c.conversions| && c.conversions[i].item == c.conversions[j].item ==>
          && NameOf(c, c.conversions[i].from) != NameOf(c, c.conversions[j].from)
          && !(NameOf(c, c.conversions[i].from) == NameOf(c, c.conversions[j].to)
               && NameOf(c, c.conversions[i].to) == NameOf(c, c.conversions[j].from)))
  }

  /** The schema's constraints with canonical names in place of units. */
  predicate LawfulByName(c: Catalog) { UnitsUniqueByName(c) && ConversionsLawfulByName(c) }

  /** A canonical name can be longer than the name, when its upper case is. */
  predicate NamesFit(c: Catalog) { forall u :: u in c.names ==> |Canon(c.names[u])| <= 100 }

  /** References are only rewritten when there is a duplicate, but then in every column of the list. */
  predicate ColumnsComplete(c: Catalog, order: seq<UomId>)
    requires IsQuery(c.names, order)
  {
    AllColumns(c) || forall u :: u in c.names ==> Winner(c.names, order, u)
  }

  /** Exactly when the merge goes through. */
  predicate Mergeable(c: Catalog, order: seq<UomId>)
    requires IsQuery(c.names, order)
  {
    NamesFit(c) && NamesFree(c, order) && ColumnsComplete(c, order) && NoneRestricted(c, order) && LawfulByName(c)
  }

  /** The substitution identifies exactly the units that share a canonical name. */
  predicate Separates(c: Catalog, t: map<UomId, UomId>) {
    forall u, v :: u in c.names && v in c.names ==> (Sub(t, u) == Sub(t, v) <==> NameOf(c, u) == NameOf(c, v))
  }

  lemma {:induction false} TargetSeparates(c: Catalog, order: seq<UomId>)
    requires IsQuery(c.names, order)
    ensures Separates(c, Target(c.names, order))
  {
    hide Canon;
    forall u, v | u in c.names && v in c.names
      ensures Sub(Target(c.names, order), u) == Sub(Target(c.names, order), v) <==> NameOf(c, u) == NameOf(c, v)
    {
      TargetMeans(c.names, order, u);
    }
  }

  lemma {:induction false} UnitsInNames(c: Catalog, t: map<UomId, UomId>)
    requires Separates(c, t) && forall i :: 0 <= i < |c.units| ==> c.units[i].uom in c.names
    ensures UnitsUnique(SubUnits(t, c.units)) <==> UnitsUniqueByName(c)
  {
    hide Canon;
    var rows := SubUnits(t, c.units);
    forall i, j | 0 <= i < j < |rows|
      ensures rows[i].product == c.units[i].product && rows[j].product == c.units[j].product
      ensures rows[i].uom == rows[j].uom <==> NameOf(c, c.units[i].uom) == NameOf(c, c.units[j].uom)
    {
    }
  }

  lemma {:induction false} ConversionsInNames(c: Catalog, t: map<UomId, UomId>)
    requires Separates(c, t)
    requires forall i :: 0 <= i < |c.conversions| ==> c.conversions[i].from in c.names && c.conversions[i].to in c.names
    ensures ConversionsLawful(SubTos(t, SubFroms(t, c.conversions))) <==> ConversionsLawfulByName(c)
  {
    hide Canon;
    var rows := SubTos(t, SubFroms(t, c.conversions));
    forall i | 0 <= i < |rows|
      ensures rows[i] == Conversion(c.conversions[i].item, Sub(t, c.conversions[i].from),
                                    Sub(t, c.conversions[i].to), c.conversions[i].factor)
      ensures rows[i].from == rows[i].to <==> NameOf(c, c.conversions[i].from) == NameOf(c, c.conversions[i].to)
    {
      assert rows[i] == SubTo(t, SubFroms(t, c.conversions)[i]);
    }
  }

  lemma {:induction false} LawfulInNames(c: Catalog, order: seq<UomId>)
    requires Referential(c) && IsQuery(c.names, order)
    ensures Lawful(Retarget(c, Target(c.names, order))) <==> LawfulByName(c)
  {
    hide Canon;
    TargetSeparates(c, order);
    UnitsInNames(c, Target(c.names, order));
    ConversionsInNames(c, Target(c.names, order));
  }

  // ---------------------------------------------------------------- what a merge keeps

  predicate ProductsBear(c: Catalog, m: Catalog) {
    forall p :: p in c.products ==>
      && p in m.products
      && (c.products[p].base.Some? <==> m.products[p].base.Some?)
      && (c.products[p].base.Some? ==> Bears(c, c.products[p].base.value, m, m.products[p].base.value))
  }

  predicate UnitsBear(c: Catalog, m: Catalog) {
    |m.units| == |c.units| && forall i :: 0 <= i < |c.units| ==> Bears(c, c.units[i].uom, m, m.units[i].uom)
  }

  predicate ConversionsBear(c: Catalog, m: Catalog) {
    && |m.conversions| == |c.conversions|
    && forall i :: 0 <= i < |c.conversions| ==>
         && Bears(c, c.conversions[i].from, m, m.conversions[i].from)
         && Bears(c, c.conversions[i].to, m, m.conversions[i].to)
  }

  predicate RefsBear(c: Catalog, m: Catalog) {
    forall x :: x in c.refs ==> x in m.refs && Bears(c, c.refs[x], m, m.refs[x])
  }

  /** No cell changes its canonical name, every cell refers to a surviving unit, and that unit bears the name. */
  lemma {:induction false} MergeKeepsMeaning(c: Catalog, order: seq<UomId>)
    requires Referential(c) && IsQuery(c.names, order)
    ensures var m := Merged(c, order);
      ProductsBear(c, m) && UnitsBear(c, m) && ConversionsBear(c, m) && RefsBear(c, m)
  {
    hide Canon;
    var m := Merged(c, order);
    var t := Target(c.names, order);
    forall u | u in c.names ensures Bears(c, u, m, Sub(t, u)) { TargetMeans(c.names, order, u); }
    CellsBear(c, t, m);
  }

  lemma {:induction false} CellsBear(c: Catalog, t: map<UomId, UomId>, m: Catalog)
    requires Referential(c) && forall u :: u in c.names ==> Bears(c, u, m, Sub(t, u))
    requires m.products == SubProducts(t, c.products) && m.units == SubUnits(t, c.units)
    requires m.conversions == SubTos(t, SubFroms(t, c.conversions)) && m.refs == SubRefs(t, c.refs, COLUMNS)
    ensures ProductsBear(c, m) && UnitsBear(c, m) && ConversionsBear(c, m) && RefsBear(c, m)
  {
    hide Canon;
  }

  predicate Bears(c: Catalog, u: UomId, m: Catalog, v: UomId) {
    u in c.names && v in m.names && m.names[v] == Canon(c.names[u])
  }

  /** Exactly one unit remains for each canonical name, and it bears that name. */
  lemma {:induction false} OneUnitPerName(c: Catalog, order: seq<UomId>)
    requires IsQuery(c.names, order)
    ensures var names := Merged(c, order).names;
      && NamesUnique(names)
      && (forall u :: u in names ==> u in c.names && names[u] == Canon(names[u]) == Canon(c.names[u]))
      && (forall u :: u in c.names ==> exists v :: v in names && names[v] == Canon(c.names[u]))
  {
    hide Canon;
    var t := Target(c.names, order);
    var names := Merged(c, order).names;
    forall u | u in c.names ensures exists v :: v in names && names[v] == Canon(c.names[u]) {
      TargetMeans(c.names, order, u);
      assert t[u] in names;
    }
    forall u, v | u in names && v in names && u != v ensures names[u] != names[v] { TargetMeans(c.names, order, u); }
    forall u | u in names ensures names[u] == Canon(names[u]) { CanonTwice(c.names[u]); }
  }

  /** Apart from the references and the units' names, a merge changes nothing: no key, no quantity, no order of rows. */
  lemma {:induction false} MergeKeepsTheRest(c: Catalog, order: seq<UomId>)
    requires IsQuery(c.names, order)
    ensures var m := Merged(c, order);
      && m.products.Keys == c.products.Keys && m.refs.Keys == c.refs.Keys
      && (forall p :: p in c.products ==>
            && m.products[p].txnCount == c.products[p].txnCount && m.products[p].onHand == c.products[p].onHand
            && m.products[p].prices == c.products[p].prices)
      && |m.units| == |c.units|
      && (forall i :: 0 <= i < |c.units| ==>
            && m.units[i].product == c.units[i].product && m.units[i].factor == c.units[i].factor
            && m.units[i].isDefault == c.units[i].isDefault)
      && |m.conversions| == |c.conversions|
      && (forall i :: 0 <= i < |c.conversions| ==>
            m.conversions[i].item == c.conversions[i].item && m.conversions[i].factor == c.conversions[i].factor)
      && m.restricted == c.restricted && m.columns == c.columns
  {
    hide Canon, Target;
    var t := Target(c.names, order);
    var rows := SubTos(t, SubFroms(t, c.conversions));
    assert forall i :: 0 <= i < |rows| ==> rows[i] == SubTo(t, SubFrom(t, c.conversions[i]));
  }

  /** A name is plain unless its key is one of the nine aliases. */
  lemma {:induction false} PlainExactly(name: string)
    ensures IsPlain(name) <==>
      NameKey(name) !in ["TAB", "TABS", "TABLETS", "PK", "PKT", "PACKS", "PACKETS", "PCS", "EA"]
  {
    hide Canon, NameKey;
    CanonExactly(name);
    AliasesStandForOthers(NameKey(name));
  }

  lemma {:induction false} AliasesStandForOthers(key: string)
    ensures key == "TAB" || key == "TABS" || key == "TABLETS" ==> key != "TABLET"
    ensures key == "PK" || key == "PACKS" ==> key != "PACK"
    ensures key == "PKT" || key == "PACKETS" ==> key != "PACKET"
    ensures key == "PCS" ==> key != "PIECE"
    ensures key == "EA" ==> key != "EACH"
  {
    assert |"TABLET"| == 6 && |"PACK"| == 4 && |"PACKET"| == 6 && |"PIECE"| == 5 && |"EACH"| == 4;
    assert |"TAB"| == 3 && |"TABS"| == 4 && |"TABLETS"| == 7 && |"PK"| == 2 && |"PACKS"| == 5;
    assert |"PKT"| == 3 && |"PACKETS"| == 7 && |"PCS"| == 3 && |"EA"| == 2;
  }

  lemma {:induction false} BearingIsReferential(c: Catalog, m: Catalog)
    requires Referential(c) && ProductsBear(c, m) && UnitsBear(c, m) && ConversionsBear(c, m) && RefsBear(c, m)
    requires m.products.Keys == c.products.Keys && m.refs.Keys == c.refs.Keys
    requires forall i :: 0 <= i < |c.units| ==> m.units[i].product == c.units[i].product
    requires m.restricted <= m.names.Keys && forall x :: x in m.loose ==> m.loose[x] in m.names
    ensures Referential(m)
  {
    hide Canon;
  }

  lemma {:induction false} RestrictedSurvive(c: Catalog, order: seq<UomId>)
    requires IsQuery(c.names, order) && NoneRestricted(c, order)
    ensures c.restricted <= MergedNames(c.names, order).Keys
  {
    hide Canon;
    forall u | u in c.restricted ensures u in MergedNames(c.names, order) { assert Winner(c.names, order, u); }
  }

  lemma {:induction false} LooseSurvive(c: Catalog, order: seq<UomId>)
    requires IsQuery(c.names, order)
    ensures forall x :: x in MergedLoose(c, order) ==> MergedLoose(c, order)[x] in MergedNames(c.names, order)
  {
    hide Canon, Target;
  }

  lemma {:induction false} MergeKeepsReferential(c: Catalog, order: seq<UomId>)
    requires Referential(c) && IsQuery(c.names, order) && NoneRestricted(c, order)
    ensures Referential(Merged(c, order))
  {
    hide Canon, Target, Winner, MergedNames, MergedLoose;
    MergeKeepsMeaning(c, order);
    RestrictedSurvive(c, order);
    LooseSurvive(c, order);
    BearingIsReferential(c, Merged(c, order));
  }

  lemma {:induction false} MergeKeepsValid(c: Catalog, order: seq<UomId>)
    requires Valid(c) && IsQuery(c.names, order) && Mergeable(c, order)
    ensures Valid(Merged(c, order))
  {
    hide Canon;
    assert NamesUnique(Merged(c, order).names) by { OneUnitPerName(c, order); }
    assert Lawful(Merged(c, order)) by { LawfulInNames(c, order); }
    MergeKeepsReferential(c, order);
  }

  /** Every unit stands alone and bears its canonical name. */
  predicate Canonical(names: map<UomId, string>) {
    NamesUnique(names) && forall u :: u in names ==> names[u] == Canon(names[u])
  }

  lemma {:induction false} AloneInBucket(names: map<UomId, string>, order: seq<UomId>, u: UomId)
    requires Canonical(names) && IsQuery(names, order) && u in names
    ensures Winner(names, order, u)
  {
    hide Canon;
    assert Target(names, order)[u] in Bucket(names, order, Canon(names[u]));
  }

  lemma {:induction false} SubIdentity(c: Catalog, sub: map<UomId, UomId>)
    requires forall u :: u in sub ==> sub[u] == u
    ensures Retarget(c, sub) == c
  {
    forall p | p in c.products ensures SubBase(sub, c.products[p]) == c.products[p] {
      if c.products[p].base.Some? { assert Sub(sub, c.products[p].base.value) == c.products[p].base.value; }
    }
    assert SubProducts(sub, c.products) == c.products;
    assert SubUnits(sub, c.units) == c.units;
    assert SubFroms(sub, c.conversions) == c.conversions && SubTos(sub, c.conversions) == c.conversions;
    assert SubRefs(sub, c.refs, COLUMNS) == c.refs;
  }

  lemma {:induction false} CanonicalTarget(names: map<UomId, string>, order: seq<UomId>)
    requires Canonical(names) && IsQuery(names, order)
    ensures forall u :: u in Target(names, order) ==> Target(names, order)[u] == u
    ensures MergedNames(names, order) == names
  {
    hide Canon;
    forall u | u in names ensures Winner(names, order, u) { AloneInBucket(names, order, u); }
  }

  lemma {:induction false} CanonicalMerged(c: Catalog, order: seq<UomId>)
    requires Canonical(c.names) && IsQuery(c.names, order)
    requires forall x :: x in c.loose ==> c.loose[x] in c.names
    ensures Merged(c, order) == c && Retarget(c, Target(c.names, order)) == c
  {
    hide Canon;
    CanonicalTarget(c.names, order);
    assert MergedLoose(c, order) == c.loose;
    assert Retarget(c, Target(c.names, order)) == c by { SubIdentity(c, Target(c.names, order)); }
  }

  /** Canonical units merge without a change, whatever else the catalog holds. */
  lemma {:induction false} CanonicalMergesToItself(c: Catalog, order: seq<UomId>)
    requires Valid(c) && Canonical(c.names) && IsQuery(c.names, order)
    ensures Mergeable(c, order) && Merged(c, order) == c
  {
    hide Canon;
    CanonicalMerged(c, order);
    assert LawfulByName(c) by { LawfulInNames(c, order); }
    CanonicalTarget(c.names, order);
  }

  /** A second merge goes through and changes nothing. */
  lemma {:induction false} MergeTwice(c: Catalog, order: seq<UomId>, again: seq<UomId>)
    requires Valid(c) && IsQuery(c.names, order) && Mergeable(c, order)
    requires IsQuery(Merged(c, order).names, again)
    ensures Mergeable(Merged(c, order), again) && Merged(Merged(c, order), again) == Merged(c, order)
  {
    hide Canon;
    OneUnitPerName(c, order);
    MergeKeepsValid(c, order);
    CanonicalMergesToItself(Merged(c, order), again);
  }

  // ---------------------------------------------------------------- when renaming the winner clashes

  lemma {:induction false} BucketCons(names: map<UomId, string>, order: seq<UomId>, c: string)
    requires Listed(names, order) && order != []
    ensures var rows, rest := Bucket(names, order, c), Bucket(names, order[1..], c);
      if Canon(names[order[0]]) == c then rows != [] && rows[0] == order[0] && rows[1..] == rest else rows == rest
  {
    hide Canon;
    var rest := Bucket(names, order[1..], c);
    assert [] + rest == rest && ([order[0]] + rest)[1..] == rest;
  }

  lemma {:induction false} FirstPlainOfBucket(names: map<UomId, string>, order: seq<UomId>, k: nat)
    requires Listed(names, order) && k < |order| && IsPlain(names[order[k]])
    requires forall i :: 0 <= i < k && Canon(names[order[i]]) == Canon(names[order[k]]) ==> !IsPlain(names[order[i]])
    ensures var rows := Bucket(names, order, Canon(names[order[k]]));
      FirstPlain(names, rows) < |rows| && rows[FirstPlain(names, rows)] == order[k]
    decreases order
  {
    hide Canon, IsPlain, Bucket, Kept;
    var tail := order[1..];
    BucketCons(names, order, Canon(names[order[k]]));
    if k > 0 {
      assert tail[k - 1] == order[k] && forall i :: 0 <= i < |tail| ==> tail[i] == order[i + 1];
      FirstPlainOfBucket(names, tail, k - 1);
    }
  }

  /** The unit at position `k` of the query is the first of its bucket whose name is no alias. */
  predicate FirstOfItsKind(names: map<UomId, string>, order: seq<UomId>, k: nat)
    requires Listed(names, order) && k < |order|
  {
    forall i :: 0 <= i < k && Canon(names[order[i]]) == Canon(names[order[k]]) ==> !IsPlain(names[order[i]])
  }

  lemma {:induction false} PlainWinner(names: map<UomId, string>, order: seq<UomId>, k: nat)
    requires IsQuery(names, order) && k < |order| && IsPlain(names[order[k]])
    ensures Winner(names, order, order[k]) <==> FirstOfItsKind(names, order, k)
    decreases k
  {
    hide Canon, IsPlain, Bucket;
    if FirstOfItsKind(names, order, k) {
      FirstPlainOfBucket(names, order, k);
    } else {
      var i :| 0 <= i < k && Canon(names[order[i]]) == Canon(names[order[k]]) && IsPlain(names[order[i]]);
      var j := Earliest(names, order, i);
      FirstPlainOfBucket(names, order, j);
    }
  }

  ghost function Earliest(names: map<UomId, string>, order: seq<UomId>, i: nat): (j: nat)
    requires Listed(names, order) && i < |order| && IsPlain(names[order[i]])
    ensures j <= i && IsPlain(names[order[j]]) && Canon(names[order[j]]) == Canon(names[order[i]])
    ensures FirstOfItsKind(names, order, j)
  {
    if FirstOfItsKind(names, order, i) then i
    else
      var h: nat :| h < i && Canon(names[order[h]]) == Canon(names[order[i]]) && IsPlain(names[order[h]]);
      Earliest(names, order, h)
  }

  lemma {:induction false} FirstOfBucket(names: map<UomId, string>, order: seq<UomId>, k: nat)
    requires Listed(names, order) && k < |order|
    requires forall i :: 0 <= i < k ==> Canon(names[order[i]]) != Canon(names[order[k]])
    ensures var rows := Bucket(names, order, Canon(names[order[k]]));
      rows != [] && rows[0] == order[k]
    decreases order
  {
    hide Canon, Bucket, Kept;
    var tail := order[1..];
    BucketCons(names, order, Canon(names[order[k]]));
    if k > 0 {
      assert tail[k - 1] == order[k] && forall i :: 0 <= i < |tail| ==> tail[i] == order[i + 1];
      FirstOfBucket(names, tail, k - 1);
    }
  }

  ghost function EarliestOfBucket(names: map<UomId, string>, order: seq<UomId>, i: nat): (j: nat)
    requires Listed(names, order) && i < |order|
    ensures j <= i && Canon(names[order[j]]) == Canon(names[order[i]])
    ensures forall h :: 0 <= h < j ==> Canon(names[order[h]]) != Canon(names[order[j]])
  {
    if h: nat :| h < i && Canon(names[order[h]]) == Canon(names[order[i]]) then EarliestOfBucket(names, order, h) else i
  }

  /** No other spelling of its canonical name is better than an alias, and none is listed earlier. */
  predicate FirstAmongAliases(names: map<UomId, string>, order: seq<UomId>, k: nat)
    requires Listed(names, order) && k < |order|
  {
    forall i :: 0 <= i < |order| && i != k && Canon(names[order[i]]) == Canon(names[order[k]]) ==>
      !IsPlain(names[order[i]]) && k < i
  }

  lemma {:induction false} AliasWinner(names: map<UomId, string>, order: seq<UomId>, k: nat)
    requires IsQuery(names, order) && k < |order| && !IsPlain(names[order[k]])
    ensures Winner(names, order, order[k]) <==> FirstAmongAliases(names, order, k)
  {
    hide Canon, IsPlain, Bucket;
    var rows := Bucket(names, order, Canon(names[order[k]]));
    var plain := FirstPlain(names, rows);
    var j := EarliestOfBucket(names, order, k);
    FirstOfBucket(names, order, j);
    if plain < |rows| {
      assert rows[plain] in rows;
      var i :| 0 <= i < |order| && order[i] == rows[plain];
    } else {
      forall i | 0 <= i < |order| && Canon(names[order[i]]) == Canon(names[order[k]]) ensures !IsPlain(names[order[i]]) {
        assert order[i] in rows;
      }
    }
  }

  /** Which unit of a bucket survives, by spelling and query order alone. */
  predicate Preferred(names: map<UomId, string>, order: seq<UomId>, k: nat)
    requires Listed(names, order) && k < |order|
  {
    if IsPlain(names[order[k]]) then FirstOfItsKind(names, order, k) else FirstAmongAliases(names, order, k)
  }

  lemma {:induction false} WinnerExactly(names: map<UomId, string>, order: seq<UomId>, k: nat)
    requires IsQuery(names, order) && k < |order|
    ensures Winner(names, order, order[k]) <==> Preferred(names, order, k)
  {
    hide Canon, IsPlain, Winner, FirstOfItsKind, FirstAmongAliases;
    if IsPlain(names[order[k]]) { PlainWinner(names, order, k); } else { AliasWinner(names, order, k); }
  }

  /**
   * A cell outside the rewrite list loses its unit exactly if that unit, at position `k` of the query, is not the
   * preferred spelling of its name; a cell that keeps its unit keeps the canonical name too.
   */
  lemma {:induction false} LooseCells(c: Catalog, order: seq<UomId>, x: Cell, k: nat)
    requires IsQuery(c.names, order) && x in c.loose && k < |order| && order[k] == c.loose[x]
    ensures var m := Merged(c, order);
      && (x in m.loose <==> Preferred(c.names, order, k))
      && (x in m.loose ==> Bears(c, c.loose[x], m, m.loose[x]))
  {
    hide Canon, Preferred, Target;
    WinnerExactly(c.names, order, k);
  }

  /**
   * Without one of the columns in the rewrite list, the merge goes through exactly if there is nothing to merge:
   * no two units share a canonical name.
   */
  lemma {:induction false} MissingColumn(c: Catalog, order: seq<UomId>)
    requires Valid(c) && IsQuery(c.names, order) && !AllColumns(c)
    ensures Mergeable(c, order) <==>
      NamesFit(c) && forall u, v :: u in c.names && v in c.names && u != v ==> Canon(c.names[u]) != Canon(c.names[v])
  {
    hide Canon, Target;
    var t := Target(c.names, order);
    forall u | u in c.names
      ensures t[u] in c.names && Canon(c.names[t[u]]) == Canon(c.names[u])
      ensures forall v :: v in c.names ==> (t[v] == t[u] <==> Canon(c.names[v]) == Canon(c.names[u]))
    {
      TargetMeans(c.names, order, u);
    }
    if forall u :: u in c.names ==> Winner(c.names, order, u) {
      SubIdentity(c, t);
      assert LawfulByName(c) by { LawfulInNames(c, order); }
      assert NamesFree(c, order) && NoneRestricted(c, order);
    } else {
      var u :| u in c.names && !Winner(c.names, order, u);
      assert t[u] != u && Canon(c.names[t[u]]) == Canon(c.names[u]);
    }
  }

  /**
   * Renaming winners meets no clash exactly if no unit that already bears its canonical name comes after another
   * spelling of that name in the query.
   */
  lemma {:induction false} NamesFreeMeans(c: Catalog, order: seq<UomId>)
    requires IsQuery(c.names, order)
    ensures NamesFree(c, order) <==>
      forall k: nat :: k < |order| && c.names[order[k]] == Canon(c.names[order[k]]) ==> FirstOfItsKind(c.names, order, k)
  {
    forall k: nat | k < |order| && c.names[order[k]] == Canon(c.names[order[k]])
      ensures Winner(c.names, order, order[k]) <==> FirstOfItsKind(c.names, order, k)
    {
      CanonTwice(c.names[order[k]]);
      PlainWinner(c.names, order, k);
    }
    hide Canon, FirstOfItsKind, Winner;
    if forall k: nat :: k < |order| && c.names[order[k]] == Canon(c.names[order[k]]) ==> FirstOfItsKind(c.names, order, k) {
      forall u | u in c.names && c.names[u] == Canon(c.names[u]) ensures Winner(c.names, order, u) {
        var k :| 0 <= k < |order| && order[k] == u;
      }
    }
  }

  lemma {:induction false} UpperPack()
    ensures UpperText("Pack") == "PACK"
  {
    assert "Pack"[1..] == "ack" && "ack"[1..] == "ck" && "ck"[1..] == "k" && "k"[1..] == "";
    assert UpperText("k") == "K";
    assert UpperText("ck") == "CK";
    assert UpperText("ack") == "ACK";
  }

  lemma {:induction false} PackIsNoAlias()
    ensures Lookup(ALIASES, "PACK") == "PACK"
  {
    hide Lookup;
    LookupFinds(ALIASES, "PACK");
    forall j: nat | j < |ALIASES| ensures ALIASES[j].0 != "PACK" { AliasValues(3, j); }
  }

  lemma {:induction false} Spellings()
    ensures Canon("Pack") == "PACK" && Canon("PACK") == "PACK" && IsPlain("Pack") && IsPlain("PACK")
  {
    hide Lookup, UpperText, KeyChars;
    KeyIsItsOwnKey("PACK");
    UpperPack();
    PackIsNoAlias();
  }

  /** "Pack" listed before "PACK": the job fails, though the two are duplicates it is meant to merge. */
  lemma {:induction false} TwoSpellingsBlock(c: Catalog)
    requires c.names == map[1 := "Pack", 2 := "PACK"]
    ensures IsQuery(c.names, [1, 2]) && !Mergeable(c, [1, 2])
  {
    hide Canon, IsPlain, Winner;
    Spellings();
    var order := [1, 2];
    assert order[0] == 1 && order[1] == 2;
    assert !FirstOfItsKind(c.names, order, 1);
    NamesFreeMeans(c, order);
  }
}
