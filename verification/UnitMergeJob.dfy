/** The merge as the job runs it: bucket by bucket, statement by statement, in one transaction. */
module UnitMergeJob {
  import opened Basics
  import opened UnitCatalog
  import opened UnitMerge
  import opened UnitMergeSteps

  lemma {:induction false} BucketSnoc(names: map<UomId, string>, order: seq<UomId>, u: UomId, c: string)
    requires Listed(names, order) && u in names
    ensures Listed(names, order + [u])
    ensures Bucket(names, order + [u], c) == Bucket(names, order, c) + Kept(names, u, c)
    decreases order
  {
    hide Kept;
    if order == [] {
      assert [] + [u] == [u] && [u][1..] == [];
      assert Bucket(names, [u], c) == Kept(names, u, c) + Bucket(names, [], c);
    } else {
      assert (order + [u])[1..] == order[1..] + [u];
      BucketSnoc(names, order[1..], u, c);
      var head, rest := Kept(names, order[0], c), Bucket(names, order[1..], c);
      assert head + (rest + Kept(names, u, c)) == head + rest + Kept(names, u, c);
    }
  }

  /** `grouped` holds the buckets of the rows seen so far, and `keys` their names, each once. */
  ghost predicate Grouped(names: map<UomId, string>, seen: seq<UomId>, grouped: map<string, seq<UomId>>, keys: seq<string>)
    requires Listed(names, seen)
  {
    && (forall i, j :: 0 <= i < j < |keys| ==> keys[i] != keys[j])
    && (forall k :: k in keys <==> k in grouped)
    && (forall k :: k in grouped ==> grouped[k] == Bucket(names, seen, k) && grouped[k] != [])
    && (forall u :: u in seen ==> Canon(names[u]) in grouped)
  }

  function GroupedAfter(grouped: map<string, seq<UomId>>, c: string, u: UomId): map<string, seq<UomId>> {
    grouped[c := (if c in grouped then grouped[c] else []) + [u]]
  }

  lemma {:induction false} BucketsOneMore(
      names: map<UomId, string>, seen: seq<UomId>, u: UomId, grouped: map<string, seq<UomId>>, k: string)
    requires Listed(names, seen) && u in names
    requires k in grouped ==> grouped[k] == Bucket(names, seen, k) && grouped[k] != []
    requires k !in grouped ==> Bucket(names, seen, k) == []
    requires k in GroupedAfter(grouped, Canon(names[u]), u)
    ensures Listed(names, seen + [u])
    ensures GroupedAfter(grouped, Canon(names[u]), u)[k] == Bucket(names, seen + [u], k) != []
  {
    hide Canon;
    BucketSnoc(names, seen, u, k);
    assert [] + [u] == [u];
  }

  lemma {:induction false} NotSeen(names: map<UomId, string>, seen: seq<UomId>, grouped: map<string, seq<UomId>>, k: string)
    requires Listed(names, seen) && k !in grouped && forall u :: u in seen ==> Canon(names[u]) in grouped
    ensures Bucket(names, seen, k) == []
  {
    hide Canon;
    if seen != [] {
      var u := seen[0];
      assert u in seen;
      assert Canon(names[u]) in grouped;
      NotSeen(names, seen[1..], grouped, k);
      assert Bucket(names, seen, k) == [] + Bucket(names, seen[1..], k);
    }
  }

  lemma {:induction false} GroupOneMore(
      names: map<UomId, string>, seen: seq<UomId>, u: UomId, grouped: map<string, seq<UomId>>, keys: seq<string>)
    requires Listed(names, seen) && u in names && Grouped(names, seen, grouped, keys)
    ensures Listed(names, seen + [u])
    ensures var c := Canon(names[u]);
      Grouped(names, seen + [u], GroupedAfter(grouped, c, u), if c in grouped then keys else keys + [c])
  {
    hide Canon;
    var c := Canon(names[u]);
    var after := GroupedAfter(grouped, c, u);
    forall k | k in after ensures after[k] == Bucket(names, seen + [u], k) && after[k] != [] {
      if k !in grouped { NotSeen(names, seen, grouped, k); }
      BucketsOneMore(names, seen, u, grouped, k);
    }
  }

  lemma {:induction false} GroupedNothing(names: map<UomId, string>)
    ensures Grouped(names, [], map[], [])
  {
  }

  /** Buckets by canonical name, and the names in the order their first unit comes up. */
  method GroupByName(names: map<UomId, string>, order: seq<UomId>)
    returns (grouped: map<string, seq<UomId>>, keys: seq<string>)
    requires Listed(names, order)
    ensures Grouped(names, order, grouped, keys)
  {
    hide Canon, Grouped, GroupedAfter, Bucket;
    GroupedNothing(names);
    assert order[..0] == [];
    grouped, keys := map[], [];
    for i := 0 to |order|
      invariant Grouped(names, order[..i], grouped, keys)
    {
      var canonical := Canon(names[order[i]]);
      GroupOneMore(names, order[..i], order[i], grouped, keys);
      assert order[..i + 1] == order[..i] + [order[i]];
      keys := if canonical in grouped then keys else keys + [canonical];
      grouped := GroupedAfter(grouped, canonical, order[i]);
    }
    assert order[..|order|] == order;
  }

  class MergeJob {
    var db: Catalog

    constructor (db: Catalog)
      ensures this.db == db
    {
      this.db := db;
    }

    /** The fifteen UPDATE statements that move every reference from a duplicate to its winner. */
    method RewriteReferences(duplicate: UomId, winner: UomId) returns (ok: bool, ghost columns: nat)
      requires ListedColumns(db.refs) && Lawful(db)
      modifies this
      ensures ok ==> db == Retarget(old(db), map[duplicate := winner]) && Lawful(db) && AllColumns(db)
      ensures !ok ==>
        !AllColumns(old(db)) || (columns <= COLUMNS && !Lawful(Retargeted(old(db), map[duplicate := winner], columns)))
    {
      ghost var sub := map[duplicate := winner];
      NoColumns(db, sub);
      for j := 0 to COLUMNS
        invariant db == Retargeted(old(db), sub, j) && Lawful(db)
        invariant forall i: nat :: i < j ==> i in db.columns
      {
        if j !in db.columns { return false, j; }
        OneMoreColumn(old(db), j, duplicate, winner);
        db := UpdateColumn(db, j, duplicate, winner);
        if !Lawful(db) { return false, j + 1; }
      }
      return true, COLUMNS;
    }

    method RemoveDuplicate(duplicate: UomId, winner: UomId, ghost c: Catalog, ghost t: map<UomId, UomId>,
                           ghost sub: map<UomId, UomId>, ghost renamed: set<string>) returns (ok: bool)
      requires Settled(t) && t.Keys == c.names.Keys && ListedColumns(c.refs)
      requires Midway(c, t, db, sub, renamed) && Lawful(db)
      requires duplicate in c.names && duplicate !in sub && t[duplicate] == winner != duplicate
      requires Canon(c.names[duplicate]) in renamed
      modifies this
      ensures ok ==> Midway(c, t, db, sub[duplicate := winner], renamed) && Lawful(db) && AllColumns(c)
      ensures !ok ==> !AllColumns(c) || duplicate in c.restricted || !Lawful(Retarget(c, t))
    {
      hide Canon;
      ghost var now := db;
      ghost var columns;
      ok, columns := RewriteReferences(duplicate, winner);
      if !ok {
        if AllColumns(now) { RewriteFailed(c, t, now, sub, duplicate, columns); }
        return;
      }
      if duplicate in db.restricted { return false; }
      db := db.(names := db.names - {duplicate}, loose := WithoutLoose(db.loose, duplicate));
      DuplicateUnnamed(c.names, t, now.names, sub, renamed, duplicate);
      DuplicateRetargeted(c, t, now, sub, duplicate);
    }

    method RenameWinner(winner: UomId, key: string, ghost c: Catalog, ghost t: map<UomId, UomId>,
                        ghost sub: map<UomId, UomId>, ghost renamed: set<string>) returns (ok: bool)
      requires Choice(c.names, t) && Midway(c, t, db, sub, renamed) && Lawful(db)
      requires winner in c.names && t[winner] == winner && Canon(c.names[winner]) == key && key !in renamed
      modifies this
      ensures ok ==> Midway(c, t, db, sub, renamed + {key}) && Lawful(db) && |key| <= NAME_LIMIT
      ensures !ok ==> |key| > NAME_LIMIT || NameBlocked(c.names, t, key)
    {
      hide Canon;
      RenameClash(c.names, t, db.names, sub, renamed, winner);
      if |key| > NAME_LIMIT || Taken(db.names, key, winner) { return false; }
      OnlyWinner(c.names, t, winner);
      WinnerRenamed(c.names, t, db.names, sub, renamed, winner);
      db := db.(names := db.names[winner := key]);
      ok := true;
    }

    method RemoveDuplicates(rows: seq<UomId>, winner: UomId, ghost c: Catalog, ghost t: map<UomId, UomId>,
                            ghost sub: map<UomId, UomId>, ghost renamed: set<string>)
      returns (ok: bool, ghost after: map<UomId, UomId>)
      requires Settled(t) && t.Keys == c.names.Keys && ListedColumns(c.refs)
      requires Midway(c, t, db, sub, renamed) && Lawful(db)
      requires forall i :: 0 <= i < |rows| ==>
        rows[i] in c.names && t[rows[i]] == winner && rows[i] !in sub && Canon(c.names[rows[i]]) in renamed
      requires Distinct(rows)
      modifies this
      ensures ok ==> Midway(c, t, db, after, renamed) && Lawful(db)
      ensures ok ==> forall u :: u in after <==> u in sub || (u in rows && u != winner)
      ensures ok ==> after == sub || AllColumns(c)
      ensures !ok ==> LacksColumn(c, t) || !Lawful(Retarget(c, t)) || exists d :: d in c.restricted && d in t && t[d] != d
    {
      hide Canon;
      after := sub;
      for i := 0 to |rows|
        invariant Midway(c, t, db, after, renamed) && Lawful(db)
        invariant forall u :: u in after <==> u in sub || (u in rows[..i] && u != winner)
        invariant after == sub || AllColumns(c)
      {
        if rows[i] != winner {
          ok := RemoveDuplicate(rows[i], winner, c, t, after, renamed);
          if !ok { return; }
          after := after[rows[i] := winner];
        }
      }
      assert rows[..|rows|] == rows;
      ok := true;
    }

    static lemma {:induction false} BucketOfTarget(names: map<UomId, string>, order: seq<UomId>, key: string)
      requires IsQuery(names, order) && Bucket(names, order, key) != []
      ensures BucketOf(names, Target(names, order), Bucket(names, order, key), WinnerOf(names, Bucket(names, order, key)), key)
    {
      var rows := Bucket(names, order, key);
      var winner, t := WinnerOf(names, rows), Target(names, order);
      hide Canon, Bucket, WinnerOf, Target;
      forall u | u in rows ensures u in names && Canon(names[u]) == key && t[u] == winner { TargetOf(names, order, u); }
      assert winner in rows;
      BucketDistinct(names, order, key);
      forall i | 0 <= i < |rows| ensures rows[i] in rows {}
    }

    static lemma {:induction false} TargetOf(names: map<UomId, string>, order: seq<UomId>, u: UomId)
      requires IsQuery(names, order) && u in names
      ensures u in Bucket(names, order, Canon(names[u]))
      ensures Target(names, order)[u] == WinnerOf(names, Bucket(names, order, Canon(names[u])))
    {
      hide Canon;
    }

    static lemma {:induction false} BucketDistinct(names: map<UomId, string>, order: seq<UomId>, key: string)
      requires Listed(names, order) && Distinct(order)
      ensures Distinct(Bucket(names, order, key))
    {
      hide Canon;
      if order != [] {
        BucketDistinct(names, order[1..], key);
        var rest := Bucket(names, order[1..], key);
        assert order[0] !in order[1..];
        assert order[0] !in rest;
        assert Distinct([order[0]] + rest);
        assert [] + rest == rest;
      }
    }

    /** What a bucket is to the merge. */
    static predicate BucketOf(names: map<UomId, string>, t: map<UomId, UomId>, rows: seq<UomId>, winner: UomId, key: string)
      requires t.Keys == names.Keys
    {
      && winner in names && t[winner] == winner && Canon(names[winner]) == key
      && (forall i :: 0 <= i < |rows| ==> rows[i] in names && Canon(names[rows[i]]) == key && t[rows[i]] == winner)
      && Distinct(rows)
    }

    /** There is something to merge, and a column to rewrite that the database does not have. */
    static predicate LacksColumn(c: Catalog, t: map<UomId, UomId>) {
      !AllColumns(c) && exists d :: d in t && t[d] != d
    }

    /** Why a merge stops. */
    static predicate Stuck(c: Catalog, t: map<UomId, UomId>)
      requires t.Keys == c.names.Keys
    {
      || (exists w :: w in c.names && (|Canon(c.names[w])| > NAME_LIMIT || NameBlocked(c.names, t, Canon(c.names[w]))))
      || LacksColumn(c, t)
      || !Lawful(Retarget(c, t))
      || (exists d :: d in c.restricted && d in t && t[d] != d)
    }

    static lemma {:induction false} StuckNotMergeable(c: Catalog, order: seq<UomId>)
      requires Referential(c) && IsQuery(c.names, order) && Stuck(c, Target(c.names, order))
      ensures !Mergeable(c, order)
    {
      hide Canon;
      var t := Target(c.names, order);
      if w :| w in c.names && |Canon(c.names[w])| > NAME_LIMIT {
        assert !NamesFit(c);
      } else if w :| w in c.names && NameBlocked(c.names, t, Canon(c.names[w])) {
        BlockedNotFree(c, order, w);
      } else if LacksColumn(c, t) {
        var d :| d in t && t[d] != d;
        assert !Winner(c.names, order, d);
      } else if !Lawful(Retarget(c, t)) {
        LawfulInNames(c, order);
      } else {
        var d :| d in c.restricted && d in t && t[d] != d;
        assert !Winner(c.names, order, d);
      }
    }

    method MergeBucket(key: string, rows: seq<UomId>, winner: UomId, ghost c: Catalog, ghost t: map<UomId, UomId>,
                       ghost sub: map<UomId, UomId>, ghost renamed: set<string>)
      returns (ok: bool, ghost after: map<UomId, UomId>)
      requires Choice(c.names, t) && ListedColumns(c.refs) && BucketOf(c.names, t, rows, winner, key)
      requires Midway(c, t, db, sub, renamed) && Lawful(db) && key !in renamed
      modifies this
      ensures ok ==> Midway(c, t, db, after, renamed + {key}) && Lawful(db)
      ensures ok ==> forall u :: u in after <==> u in sub || (u in rows && u != winner)
      ensures ok ==> |key| <= NAME_LIMIT && (after == sub || AllColumns(c))
      ensures !ok ==> Stuck(c, t)
    {
      hide Canon;
      after := sub;
      forall i | 0 <= i < |rows| ensures rows[i] !in sub { NotRemovedYet(c.names, t, db.names, sub, renamed, rows[i]); }
      ok := RenameWinner(winner, key, c, t, sub, renamed);
      if !ok { return; }
      ok, after := RemoveDuplicates(rows, winner, c, t, sub, renamed + {key});
    }

    static predicate BucketReady(
        names: map<UomId, string>, t: map<UomId, UomId>, grouped: map<string, seq<UomId>>, key: string)
      requires t.Keys == names.Keys
    {
      && key in grouped && grouped[key] != [] && Listed(names, grouped[key])
      && BucketOf(names, t, grouped[key], WinnerOf(names, grouped[key]), key)
      && (forall u :: u in names && Canon(names[u]) == key ==> u in grouped[key])
    }

    /** The first `k` buckets are merged, and no other. */
    static ghost predicate BucketsDone(
        c: Catalog, t: map<UomId, UomId>, keys: seq<string>, k: nat, sub: map<UomId, UomId>, renamed: set<string>)
      requires k <= |keys|
    {
      && (forall i :: 0 <= i < |keys| ==> (keys[i] in renamed <==> i < k))
      && (forall i :: 0 <= i < k ==> |keys[i]| <= NAME_LIMIT)
      && (forall u :: u in c.names && u in t && Canon(c.names[u]) in renamed && t[u] != u ==> u in sub)
      && (sub == map[] || AllColumns(c))
    }

    static lemma {:induction false} OneMoreBucket(
        c: Catalog, t: map<UomId, UomId>, keys: seq<string>, k: nat, sub: map<UomId, UomId>, renamed: set<string>,
        rows: seq<UomId>, winner: UomId, after: map<UomId, UomId>)
      requires k < |keys| && Distinct(keys) && BucketsDone(c, t, keys, k, sub, renamed)
      requires forall u :: u in c.names && Canon(c.names[u]) == keys[k] ==> u in rows
      requires winner in t && t[winner] == winner
      requires forall u :: u in after <==> u in sub || (u in rows && u != winner)
      requires |keys[k]| <= NAME_LIMIT && (after == sub || AllColumns(c))
      ensures BucketsDone(c, t, keys, k + 1, after, renamed + {keys[k]})
    {
      hide Canon, AllColumns;
    }

    method MergeBuckets(names: map<UomId, string>, grouped: map<string, seq<UomId>>, keys: seq<string>,
                        ghost c: Catalog, ghost t: map<UomId, UomId>)
      returns (ok: bool, ghost sub: map<UomId, UomId>, ghost renamed: set<string>)
      requires names == c.names && Choice(names, t) && ListedColumns(c.refs) && Lawful(c) && db == c
      requires Distinct(keys)
      requires forall i :: 0 <= i < |keys| ==> BucketReady(names, t, grouped, keys[i])
      modifies this
      ensures ok ==> Midway(c, t, db, sub, renamed) && Lawful(db) && BucketsDone(c, t, keys, |keys|, sub, renamed)
      ensures !ok ==> Stuck(c, t)
    {
      assert t.Keys == c.names.Keys;
      hide Canon, Retarget, Midway, BucketOf, Choice, Lawful, Stuck, BucketsDone, AllColumns, Distinct;
      sub, renamed := map[], {};
      MidwayStart(c, t);
      NoBucketDone(c, t, keys);
      for k := 0 to |keys|
        invariant Midway(c, t, db, sub, renamed) && Lawful(db) && BucketsDone(c, t, keys, k, sub, renamed)
      {
        assert BucketReady(names, t, grouped, keys[k]);
        var rows := grouped[keys[k]];
        var winner := WinnerOf(names, rows);
        BucketNotDone(c, t, keys, k, sub, renamed, rows, winner);
        ghost var after;
        ok, after := MergeBucket(keys[k], rows, winner, c, t, sub, renamed);
        if !ok { return; }
        OneMoreBucket(c, t, keys, k, sub, renamed, rows, winner, after);
        sub, renamed := after, renamed + {keys[k]};
      }
      ok := true;
    }

    static lemma {:induction false} NoBucketDone(c: Catalog, t: map<UomId, UomId>, keys: seq<string>)
      ensures BucketsDone(c, t, keys, 0, map[], {})
    {
    }

    static lemma {:induction false} BucketNotDone(
        c: Catalog, t: map<UomId, UomId>, keys: seq<string>, k: nat, sub: map<UomId, UomId>, renamed: set<string>,
        rows: seq<UomId>, winner: UomId)
      requires k < |keys| && BucketsDone(c, t, keys, k, sub, renamed)
      requires t.Keys == c.names.Keys && BucketOf(c.names, t, rows, winner, keys[k])
      ensures keys[k] !in renamed && winner in t && t[winner] == winner
    {
      hide Canon;
    }

    static lemma {:induction false} BucketsReady(
        names: map<UomId, string>, order: seq<UomId>, grouped: map<string, seq<UomId>>, keys: seq<string>)
      requires IsQuery(names, order) && Grouped(names, order, grouped, keys)
      ensures forall i :: 0 <= i < |keys| ==> BucketReady(names, Target(names, order), grouped, keys[i])
    {
      hide Canon;
      forall i | 0 <= i < |keys| ensures BucketReady(names, Target(names, order), grouped, keys[i]) {
        assert keys[i] in keys;
        BucketOfTarget(names, order, keys[i]);
      }
    }

    static lemma {:induction false} AllKeysRenamed(
        names: map<UomId, string>, order: seq<UomId>, grouped: map<string, seq<UomId>>, keys: seq<string>, renamed: set<string>)
      requires IsQuery(names, order) && Grouped(names, order, grouped, keys)
      requires forall i :: 0 <= i < |keys| ==> keys[i] in renamed && |keys[i]| <= NAME_LIMIT
      ensures forall u :: u in names ==> Canon(names[u]) in renamed && |Canon(names[u])| <= NAME_LIMIT
    {
      hide Canon;
      forall u | u in names ensures Canon(names[u]) in renamed && |Canon(names[u])| <= NAME_LIMIT {
        assert Canon(names[u]) in keys;
      }
    }

    /** The whole merge: it goes through exactly on mergeable catalogs, and otherwise leaves everything as it was. */
    method MergeDuplicateUoms(order: seq<UomId>) returns (ok: bool)
      requires Valid(db) && IsQuery(db.names, order)
      modifies this
      ensures ok <==> Mergeable(old(db), order)
      ensures db == if ok then Merged(old(db), order) else old(db)
    {
      hide Canon, Retarget, NamesStage, DataStage, Lawful, Stuck, Choice, BucketReady, Mergeable, Merged;
      var rollback := db;
      ghost var t := Target(db.names, order);
      TargetIsChoice(db.names, order);
      var grouped, keys := GroupByName(db.names, order);
      BucketsReady(db.names, order, grouped, keys);
      ghost var sub, renamed;
      ok, sub, renamed := MergeBuckets(db.names, grouped, keys, rollback, t);
      if ok {
        AllKeysRenamed(rollback.names, order, grouped, keys, renamed);
        MidwayEnd(rollback, order, db, sub, renamed);
      } else {
        StuckNotMergeable(rollback, order);
        db := rollback;
      }
    }
  }
}
