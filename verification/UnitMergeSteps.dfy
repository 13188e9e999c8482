/** What the merge has done part of the way through, and why a statement that fails proves the merge impossible. */
module UnitMergeSteps {
  import opened Basics
  import opened UnitCatalog
  import opened UnitMerge

  predicate SameTables(a: Catalog, b: Catalog) {
    && a.products == b.products && a.units == b.units && a.conversions == b.conversions && a.refs == b.refs
    && a.columns == b.columns
  }

  /** `t` substitutes once and for all. */
  predicate Settled(t: map<UomId, UomId>) { forall u :: u in t ==> t[u] in t && t[t[u]] == t[u] }

  /** `sub` does part of what `t` does. */
  predicate PartOf(sub: map<UomId, UomId>, t: map<UomId, UomId>) {
    forall u :: u in sub ==> u in t && sub[u] == t[u] && t[u] != u
  }

  lemma {:induction false} FinishOne(t: map<UomId, UomId>, sub: map<UomId, UomId>, u: UomId)
    requires Settled(t) && PartOf(sub, t)
    ensures Sub(t, Sub(sub, u)) == Sub(t, u)
  {
  }

  lemma {:induction false} FinishProducts(products: map<ProductId, Product>, t: map<UomId, UomId>, sub: map<UomId, UomId>)
    requires Settled(t) && PartOf(sub, t)
    ensures SubProducts(t, SubProducts(sub, products)) == SubProducts(t, products)
  {
    forall p | p in products ensures SubBase(t, SubBase(sub, products[p])) == SubBase(t, products[p]) {
      if products[p].base.Some? { FinishOne(t, sub, products[p].base.value); }
    }
  }

  lemma {:induction false} FinishUnits(rows: seq<UnitRow>, t: map<UomId, UomId>, sub: map<UomId, UomId>)
    requires Settled(t) && PartOf(sub, t)
    ensures SubUnits(t, SubUnits(sub, rows)) == SubUnits(t, rows)
  {
    var part := SubUnits(sub, rows);
    forall i | 0 <= i < |rows| ensures SubUnit(t, part[i]) == SubUnit(t, rows[i]) { FinishOne(t, sub, rows[i].uom); }
  }

  lemma {:induction false} FinishRefs(refs: map<Cell, UomId>, t: map<UomId, UomId>, sub: map<UomId, UomId>, columns: nat)
    requires Settled(t) && PartOf(sub, t) && columns <= COLUMNS
    ensures SubRefs(t, SubRefs(sub, refs, columns), COLUMNS) == SubRefs(t, refs, COLUMNS)
  {
    forall x | x in refs ensures Sub(t, Sub(sub, refs[x])) == Sub(t, refs[x]) { FinishOne(t, sub, refs[x]); }
  }

  /** Whatever part of a substitution has been made, in however many columns, completing it gives the whole. */
  lemma {:induction false} Finish(c: Catalog, t: map<UomId, UomId>, sub: map<UomId, UomId>, columns: nat)
    requires Settled(t) && PartOf(sub, t) && columns <= COLUMNS
    ensures SameTables(Retarget(Retargeted(c, sub, columns), t), Retarget(c, t))
  {
    FinishProducts(c.products, t, sub);
    FinishUnits(c.units, t, sub);
    FinishConversions(c.conversions, t, sub, columns);
    FinishRefs(c.refs, t, sub, columns);
  }

  lemma {:induction false} FinishConversions(
      rows: seq<Conversion>, t: map<UomId, UomId>, sub: map<UomId, UomId>, columns: nat)
    requires Settled(t) && PartOf(sub, t)
    ensures SubSome(t, SubSome(sub, rows, columns), COLUMNS) == SubSome(t, rows, COLUMNS)
  {
    var part := SubSome(sub, rows, columns);
    var a, b := SubSome(t, part, COLUMNS), SubSome(t, rows, COLUMNS);
    forall i | 0 <= i < |rows| ensures a[i] == b[i] {
      FinishOne(t, sub, rows[i].from);
      FinishOne(t, sub, rows[i].to);
      assert a[i] == SubTo(t, SubFrom(t, part[i])) && b[i] == SubTo(t, SubFrom(t, rows[i]));
    }
  }

  /** A substitution can only bring constraint violations, never remove one. */
  lemma {:induction false} LawfulBefore(c: Catalog, t: map<UomId, UomId>)
    requires Lawful(Retarget(c, t))
    ensures Lawful(c)
  {
    var m := Retarget(c, t);
    assert forall i :: 0 <= i < |c.units| ==> m.units[i] == SubUnit(t, c.units[i]);
    assert forall i :: 0 <= i < |c.conversions| ==> m.conversions[i] == SubTo(t, SubFrom(t, c.conversions[i]));
  }

  lemma {:induction false} SubOneMore(sub: map<UomId, UomId>, t: map<UomId, UomId>, d: UomId, u: UomId)
    requires Settled(t) && PartOf(sub, t) && d in t && t[d] != d && d !in sub
    ensures Sub(map[d := t[d]], Sub(sub, u)) == Sub(sub[d := t[d]], u)
  {
  }

  /** Substituting one more duplicate extends the substitution. */
  lemma {:induction false} RetargetOneMore(c: Catalog, sub: map<UomId, UomId>, t: map<UomId, UomId>, d: UomId)
    requires Settled(t) && PartOf(sub, t) && d in t && t[d] != d && d !in sub
    ensures SameTables(Retarget(Retarget(c, sub), map[d := t[d]]), Retarget(c, sub[d := t[d]]))
  {
    forall u: UomId ensures Sub(map[d := t[d]], Sub(sub, u)) == Sub(sub[d := t[d]], u) { SubOneMore(sub, t, d, u); }
    var one, more := map[d := t[d]], sub[d := t[d]];
    var part := Retarget(c, sub);
    forall p | p in c.products ensures SubBase(one, part.products[p]) == SubBase(more, c.products[p]) {
      if c.products[p].base.Some? { SubOneMore(sub, t, d, c.products[p].base.value); }
    }
    assert SubProducts(one, part.products) == SubProducts(more, c.products);
    assert SubUnits(one, part.units) == SubUnits(more, c.units);
    var a, b := SubSome(one, part.conversions, COLUMNS), SubSome(more, c.conversions, COLUMNS);
    forall i | 0 <= i < |c.conversions| ensures a[i] == b[i] {
      assert a[i] == SubTo(one, SubFrom(one, part.conversions[i])) && b[i] == SubTo(more, SubFrom(more, c.conversions[i]));
      assert part.conversions[i] == SubTo(sub, SubFrom(sub, c.conversions[i]));
    }
    assert SubRefs(one, part.refs, COLUMNS) == SubRefs(more, c.refs, COLUMNS);
  }

  /** Two substitutions that agree on the units that exist give the same tables. */
  lemma {:induction false} SameSubstitution(c: Catalog, sub: map<UomId, UomId>, t: map<UomId, UomId>)
    requires Referential(c) && forall u :: u in c.names ==> Sub(sub, u) == Sub(t, u)
    ensures SameTables(Retarget(c, sub), Retarget(c, t))
  {
    forall p | p in c.products ensures SubBase(sub, c.products[p]) == SubBase(t, c.products[p]) {
      if c.products[p].base.Some? { assert Sub(sub, c.products[p].base.value) == Sub(t, c.products[p].base.value); }
    }
    assert SubProducts(sub, c.products) == SubProducts(t, c.products);
    assert SubUnits(sub, c.units) == SubUnits(t, c.units);
    assert SubFroms(sub, c.conversions) == SubFroms(t, c.conversions);
    assert SubTos(sub, SubFroms(sub, c.conversions)) == SubTos(t, SubFroms(t, c.conversions));
    assert SubRefs(sub, c.refs, COLUMNS) == SubRefs(t, c.refs, COLUMNS);
  }

  // ---------------------------------------------------------------- part of the way through

  /** `t` picks one unit for each canonical name. */
  predicate Choice(names: map<UomId, string>, t: map<UomId, UomId>) {
    && t.Keys == names.Keys
    && Settled(t)
    && (forall u :: u in names ==> Canon(names[t[u]]) == Canon(names[u]))
    && (forall u, v :: u in names && v in names && Canon(names[u]) == Canon(names[v]) ==> t[u] == t[v])
  }

  lemma {:induction false} TargetIsChoice(names: map<UomId, string>, order: seq<UomId>)
    requires IsQuery(names, order)
    ensures Choice(names, Target(names, order))
  {
    hide Canon, Target;
    forall u | u in names
      ensures var t := Target(names, order);
        && t[u] in t && t[t[u]] == t[u] && Canon(names[t[u]]) == Canon(names[u])
        && forall v :: v in names && Canon(names[u]) == Canon(names[v]) ==> t[u] == t[v]
    {
      TargetMeans(names, order, u);
    }
  }

  function NameMidway(name: string, isWinner: bool, renamed: set<string>): string {
    if isWinner && Canon(name) in renamed then Canon(name) else name
  }

  function NamesMidway(names: map<UomId, string>, t: map<UomId, UomId>, sub: map<UomId, UomId>, renamed: set<string>): map<UomId, string>
    requires t.Keys == names.Keys
  {
    map u | u in names && u !in sub :: NameMidway(names[u], t[u] == u, renamed)
  }

  function LooseMidway(loose: map<Cell, UomId>, sub: map<UomId, UomId>): map<Cell, UomId> {
    map x | x in loose && loose[x] !in sub :: loose[x]
  }

  /** The names after the duplicates in `sub` are gone and the winners of the buckets in `renamed` are renamed. */
  predicate NamesStage(
      start: map<UomId, string>, t: map<UomId, UomId>, names: map<UomId, string>, sub: map<UomId, UomId>, renamed: set<string>)
  {
    && t.Keys == start.Keys
    && names == NamesMidway(start, t, sub, renamed)
    && (forall u :: u in sub ==> u in start && t[u] != u && Canon(start[u]) in renamed)
    && (forall u :: u in start && start[u] == Canon(start[u]) && start[u] in renamed ==> t[u] == u)
  }

  /** The other tables after the duplicates in `sub` are gone. */
  predicate DataStage(c: Catalog, t: map<UomId, UomId>, now: Catalog, sub: map<UomId, UomId>) {
    && PartOf(sub, t)
    && SameTables(now, Retarget(c, sub))
    && now.restricted == c.restricted && sub.Keys !! c.restricted
    && now.loose == LooseMidway(c.loose, sub)
  }

  /** Where a merge that started on `c` stands. */
  predicate Midway(c: Catalog, t: map<UomId, UomId>, now: Catalog, sub: map<UomId, UomId>, renamed: set<string>) {
    NamesStage(c.names, t, now.names, sub, renamed) && DataStage(c, t, now, sub)
  }

  lemma {:induction false} MidwayStart(c: Catalog, t: map<UomId, UomId>)
    requires t.Keys == c.names.Keys
    ensures Midway(c, t, c, map[], {})
  {
    hide Canon;
    assert DataStage(c, t, c, map[]) by {
      SubIdentity(c, map[]);
      assert LooseMidway(c.loose, map[]) == c.loose;
    }
    assert NamesMidway(c.names, t, map[], {}) == c.names;
  }

  lemma {:induction false} SameTablesRetarget(a: Catalog, b: Catalog, t: map<UomId, UomId>)
    requires SameTables(a, b)
    ensures SameTables(Retarget(a, t), Retarget(b, t))
  {
  }

  /** A rewrite that violates a constraint shows that the whole substitution does. */
  lemma {:induction false} RewriteFailed(
      c: Catalog, t: map<UomId, UomId>, now: Catalog, sub: map<UomId, UomId>, d: UomId, columns: nat)
    requires Settled(t) && DataStage(c, t, now, sub) && d in t && t[d] != d && columns <= COLUMNS
    requires !Lawful(Retargeted(now, map[d := t[d]], columns))
    ensures !Lawful(Retarget(c, t))
  {
    hide Canon;
    var part := Retargeted(now, map[d := t[d]], columns);
    Finish(now, t, map[d := t[d]], columns);
    Finish(c, t, sub, COLUMNS);
    SameTablesRetarget(now, Retarget(c, sub), t);
    if Lawful(Retarget(part, t)) { LawfulBefore(part, t); }
  }

  lemma {:induction false} NotRemovedYet(
      start: map<UomId, string>, t: map<UomId, UomId>, names: map<UomId, string>,
      sub: map<UomId, UomId>, renamed: set<string>, u: UomId)
    requires NamesStage(start, t, names, sub, renamed) && u in start && Canon(start[u]) !in renamed
    ensures u !in sub
  {
    hide Canon;
  }

  predicate Taken(names: map<UomId, string>, name: string, w: UomId) {
    exists v :: v in names && v != w && names[v] == name
  }

  /** Some row that is not its bucket's winner is already named `name`. */
  predicate NameBlocked(start: map<UomId, string>, t: map<UomId, UomId>, name: string)
    requires t.Keys == start.Keys
  {
    exists v :: v in start && start[v] == name && t[v] != v
  }

  /** Renaming the winner finds its canonical name taken exactly if another row of its bucket bears it. */
  lemma {:induction false} RenameClash(
      start: map<UomId, string>, t: map<UomId, UomId>, names: map<UomId, string>,
      sub: map<UomId, UomId>, renamed: set<string>, w: UomId)
    requires Choice(start, t) && NamesStage(start, t, names, sub, renamed)
    requires w in start && t[w] == w && Canon(start[w]) !in renamed
    ensures w in names
    ensures Taken(names, Canon(start[w]), w) <==> NameBlocked(start, t, Canon(start[w]))
  {
    hide Canon;
    var name := Canon(start[w]);
    CanonTwice(start[w]);
    if Taken(names, name, w) {
      var v :| v in names && v != w && names[v] == name;
      assert start[v] == name;
      assert Canon(start[v]) == Canon(start[w]);
    }
    if NameBlocked(start, t, name) {
      var v :| v in start && start[v] == name && t[v] != v;
      assert v !in sub && names[v] == name;
    }
  }

  predicate OnlyWinnerOf(start: map<UomId, string>, t: map<UomId, UomId>, w: UomId)
    requires t.Keys == start.Keys && w in start
  {
    forall u :: u in start && t[u] == u && Canon(start[u]) == Canon(start[w]) ==> u == w
  }

  lemma {:induction false} OnlyWinner(start: map<UomId, string>, t: map<UomId, UomId>, w: UomId)
    requires Choice(start, t) && w in start && t[w] == w
    ensures OnlyWinnerOf(start, t, w)
  {
    hide Canon;
  }

  lemma {:induction false} WinnerRenamed(
      start: map<UomId, string>, t: map<UomId, UomId>, names: map<UomId, string>,
      sub: map<UomId, UomId>, renamed: set<string>, w: UomId)
    requires NamesStage(start, t, names, sub, renamed)
    requires w in start && t[w] == w && Canon(start[w]) !in renamed && OnlyWinnerOf(start, t, w)
    requires !NameBlocked(start, t, Canon(start[w]))
    ensures NamesStage(start, t, names[w := Canon(start[w])], sub, renamed + {Canon(start[w])})
  {
    hide Canon;
    var name := Canon(start[w]);
    assert NamesMidway(start, t, sub, renamed + {name}) == names[w := name];
  }

  lemma {:induction false} DuplicateUnnamed(
      start: map<UomId, string>, t: map<UomId, UomId>, names: map<UomId, string>,
      sub: map<UomId, UomId>, renamed: set<string>, d: UomId)
    requires NamesStage(start, t, names, sub, renamed)
    requires d in start && d !in sub && t[d] != d && Canon(start[d]) in renamed
    ensures NamesStage(start, t, names - {d}, sub[d := t[d]], renamed)
  {
    hide Canon;
    assert NamesMidway(start, t, sub[d := t[d]], renamed) == names - {d};
  }

  function WithoutLoose(loose: map<Cell, UomId>, d: UomId): map<Cell, UomId> {
    map x | x in loose && loose[x] != d :: loose[x]
  }

  lemma {:induction false} DuplicateRetargeted(c: Catalog, t: map<UomId, UomId>, now: Catalog, sub: map<UomId, UomId>, d: UomId)
    requires Settled(t) && DataStage(c, t, now, sub)
    requires d in t && d !in sub && t[d] != d && d !in c.restricted
    ensures DataStage(c, t,
              Retarget(now, map[d := t[d]]).(names := now.names - {d}, loose := WithoutLoose(now.loose, d)), sub[d := t[d]])
  {
    var after := Retarget(now, map[d := t[d]]);
    assert SameTables(after, Retarget(c, sub[d := t[d]])) by {
      RetargetOneMore(c, sub, t, d);
      SameTablesRetarget(now, Retarget(c, sub), map[d := t[d]]);
    }
    assert LooseMidway(c.loose, sub[d := t[d]]) == WithoutLoose(now.loose, d);
  }

  predicate AllRemoved(start: map<UomId, string>, t: map<UomId, UomId>, sub: map<UomId, UomId>, renamed: set<string>)
    requires t.Keys == start.Keys
  {
    forall u :: u in start ==> Canon(start[u]) in renamed && (t[u] != u ==> u in sub)
  }

  lemma {:induction false} NamesEnd(
      start: map<UomId, string>, t: map<UomId, UomId>, names: map<UomId, string>, sub: map<UomId, UomId>, renamed: set<string>)
    requires NamesStage(start, t, names, sub, renamed) && AllRemoved(start, t, sub, renamed)
    ensures names == map u | u in start && t[u] == u :: Canon(start[u])
    ensures forall u :: u in start && start[u] == Canon(start[u]) ==> t[u] == u
  {
    hide Canon;
  }

  lemma {:induction false} WinnersNamed(start: map<UomId, string>, order: seq<UomId>, t: map<UomId, UomId>)
    requires IsQuery(start, order) && t == Target(start, order)
    ensures MergedNames(start, order) == map u | u in start && t[u] == u :: Canon(start[u])
  {
    hide Canon, Target;
  }

  lemma {:induction false} DataEnd(c: Catalog, t: map<UomId, UomId>, now: Catalog, sub: map<UomId, UomId>)
    requires Referential(c) && t.Keys == c.names.Keys && DataStage(c, t, now, sub) && Lawful(now)
    requires forall u :: u in c.names && t[u] != u ==> u in sub
    ensures SameTables(now, Retarget(c, t)) && Lawful(Retarget(c, t))
    ensures forall u :: u in c.restricted ==> t[u] == u
    ensures now.loose == map x | x in c.loose && t[c.loose[x]] == c.loose[x] :: c.loose[x]
  {
    SameSubstitution(c, sub, t);
  }

  lemma {:induction false} LooseEnd(c: Catalog, order: seq<UomId>, t: map<UomId, UomId>)
    requires IsQuery(c.names, order) && t == Target(c.names, order)
    requires forall x :: x in c.loose ==> c.loose[x] in c.names
    ensures MergedLoose(c, order) == map x | x in c.loose && t[c.loose[x]] == c.loose[x] :: c.loose[x]
  {
    hide Canon, Target;
  }

  lemma {:induction false} TablesEnd(c: Catalog, order: seq<UomId>, now: Catalog, sub: map<UomId, UomId>)
    requires Valid(c) && IsQuery(c.names, order) && Lawful(now)
    requires DataStage(c, Target(c.names, order), now, sub)
    requires forall u :: u in c.names && Target(c.names, order)[u] != u ==> u in sub
    ensures SameTables(now, Merged(c, order)) && now.loose == MergedLoose(c, order) && now.restricted == c.restricted
    ensures LawfulByName(c) && NoneRestricted(c, order)
  {
    hide Canon;
    var t := Target(c.names, order);
    DataEnd(c, t, now, sub);
    assert LawfulByName(c) by { LawfulInNames(c, order); }
    assert now.loose == MergedLoose(c, order) by { LooseEnd(c, order, t); }
    assert NoneRestricted(c, order);
  }

  /** If some row other than the winner has the canonical name, the merge cannot go through. */
  lemma {:induction false} BlockedNotFree(c: Catalog, order: seq<UomId>, w: UomId)
    requires IsQuery(c.names, order) && w in c.names
    requires NameBlocked(c.names, Target(c.names, order), Canon(c.names[w]))
    ensures !NamesFree(c, order)
  {
    hide Canon;
    CanonTwice(c.names[w]);
    var name := Canon(c.names[w]);
    var v :| v in c.names && c.names[v] == name && Target(c.names, order)[v] != v;
    assert !Winner(c.names, order, v);
  }

  /** When every bucket is done, the catalog is the merged one. */
  lemma {:induction false} MidwayEnd(c: Catalog, order: seq<UomId>, now: Catalog, sub: map<UomId, UomId>, renamed: set<string>)
    requires Valid(c) && IsQuery(c.names, order) && Midway(c, Target(c.names, order), now, sub, renamed) && Lawful(now)
    requires AllRemoved(c.names, Target(c.names, order), sub, renamed)
    requires NamesFit(c) && (AllColumns(c) || sub == map[])
    ensures Mergeable(c, order) && now == Merged(c, order)
  {
    hide Canon;
    assert now.names == MergedNames(c.names, order) && NamesFree(c, order) by {
      NamesEnd(c.names, Target(c.names, order), now.names, sub, renamed);
      WinnersNamed(c.names, order, Target(c.names, order));
    }
    TablesEnd(c, order, now, sub);
  }
}
