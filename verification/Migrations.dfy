/**
 * The lot write-down migration runner. Every SQL script and every ledger record is a separate
 * statement, and a run can be cut short before any of them: by a crash, after which the next run
 * starts from what the database holds, or because the statement itself fails.
 */
module Migrations {

  datatype File = F611 | F612 | F613

  const FILES: seq<File> := [F611, F612, F613]
  const BEFORE_613: seq<File> := [F611, F612]

  /**
   * `ledger` is schema_migrations. `documents` says the table lot_write_down_documents exists. The other
   * fields are what the live check looks for: the carrying-value guard forbids increases, the guard accepts
   * a document without a journal, the deferred trigger exists, the trigger's function compares the journal's
   * reference with the document.
   */
  datatype Database = Database(
    ledger: set<File>, documents: bool,
    forbidsIncrease: bool, acceptsUnjournaled: bool, deferredTrigger: bool, comparesReference: bool)

  datatype Statement = Execute(file: File) | Record(file: File) | CheckLive

  predicate LiveIs613(db: Database) {
    db.forbidsIncrease && !db.acceptsUnjournaled && db.deferredTrigger && db.comparesReference
  }

  /** 612, 613 and the live check name the documents table, and fail while it does not exist. */
  predicate Possible(db: Database, s: Statement) {
    db.documents || s == Execute(F611) || s.Record?
  }

  function Do(db: Database, s: Statement): Database
    requires Possible(db, s)
  {
    match s
    case Execute(F611) => db.(documents := true)
    case Execute(F612) => db.(forbidsIncrease := false, acceptsUnjournaled := true)
    case Execute(F613) => db.(forbidsIncrease := true, acceptsUnjournaled := false,
                              deferredTrigger := true, comparesReference := true)
    case Record(f) => db.(ledger := db.ledger + {f})
    case CheckLive => db
  }

  // ---------------------------------------------------------------- one run

  /** A statement together with the database it ran on. */
  datatype Performed = Performed(db: Database, statement: Statement)

  /** A run in the making: `budget` more statements will be let through, and `ok` until one is not. */
  datatype Progress = Progress(db: Database, budget: nat, trace: seq<Performed>, ok: bool)

  function Try(p: Progress, s: Statement): Progress {
    if !p.ok || p.budget == 0 || !Possible(p.db, s) then p.(ok := false)
    else Progress(Do(p.db, s), p.budget - 1, p.trace + [Performed(p.db, s)], true)
  }

  function Apply(p: Progress, f: File): Progress { Try(Try(p, Execute(f)), Record(f)) }

  function RecordMissing(p: Progress, ledger: set<File>, files: seq<File>): Progress
    decreases files
  {
    if files == [] then p
    else RecordMissing(if files[0] in ledger then p else Try(p, Record(files[0])), ledger, files[1..])
  }

  function ApplyMissing(p: Progress, ledger: set<File>, files: seq<File>): Progress
    decreases files
  {
    if files == [] then p
    else ApplyMissing(if files[0] in ledger then p else Apply(p, files[0]), ledger, files[1..])
  }

  /** Once 613 is on record the older files are recorded without running them. */
  function CatchUp(p: Progress): Progress {
    var ledger := p.db.ledger;
    if F613 in ledger then RecordMissing(p, ledger, BEFORE_613) else ApplyMissing(p, ledger, FILES)
  }

  function Checked(db: Database, budget: nat): Progress { Try(CatchUp(Progress(db, budget, [], true)), CheckLive) }

  predicate Reapplies(db: Database, budget: nat) {
    var checked := Checked(db, budget);
    checked.ok && !LiveIs613(checked.db)
  }

  /** One run that starts on `db` and is let through `budget` statements. */
  function RunOnce(db: Database, budget: nat): Progress {
    var checked := Checked(db, budget);
    Try(if Reapplies(db, budget) then Apply(checked, F613) else checked, CheckLive)
  }

  /** Runs one after the other, each cut short after its own number of statements. */
  function RunAll(db: Database, budgets: seq<nat>): Progress
    decreases budgets
  {
    if budgets == [] then Progress(db, 0, [], true)
    else
      var first := RunOnce(db, budgets[0]);
      var rest := RunAll(first.db, budgets[1..]);
      rest.(trace := first.trace + rest.trace)
  }

  // ---------------------------------------------------------------- what statements keep

  /** 613 on record means its guard is the live one. */
  predicate Closed(db: Database) { F613 in db.ledger ==> LiveIs613(db) }

  /** The documents table exists, or the file that creates it is still to be run. */
  predicate Recoverable(db: Database) { db.documents || (F611 !in db.ledger && F613 !in db.ledger) }

  /** In no statement is 612 executed with 613 on record. */
  predicate Never612After613(trace: seq<Performed>) {
    forall i :: 0 <= i < |trace| && trace[i].statement == Execute(F612) ==> F613 !in trace[i].db.ledger
  }

  predicate ClosedThroughout(trace: seq<Performed>) { forall i :: 0 <= i < |trace| ==> Closed(trace[i].db) }

  predicate LiveThroughout(trace: seq<Performed>) { forall i :: 0 <= i < |trace| ==> LiveIs613(trace[i].db) }

  lemma {:induction false} CatchUpUnrolled(p: Progress)
    ensures CatchUp(p) ==
      (var ledger := p.db.ledger;
       if F613 in ledger then
         var one := if F611 in ledger then p else Try(p, Record(F611));
         if F612 in ledger then one else Try(one, Record(F612))
       else
         var one := if F611 in ledger then p else Apply(p, F611);
         var two := if F612 in ledger then one else Apply(one, F612);
         Apply(two, F613))
  {
    var ledger := p.db.ledger;
    assert FILES[1..] == [F612, F613] && [F612, F613][1..] == [F613] && [F613][1..] == [];
    assert BEFORE_613[1..] == [F612] && [F612][1..] == [];
    if F613 in ledger {
      var one := if F611 in ledger then p else Try(p, Record(F611));
      assert RecordMissing(one, ledger, [F612]) == if F612 in ledger then one else Try(one, Record(F612));
    } else {
      var one := if F611 in ledger then p else Apply(p, F611);
      var two := if F612 in ledger then one else Apply(one, F612);
      assert ApplyMissing(two, ledger, [F613]) == Apply(two, F613);
      assert ApplyMissing(one, ledger, [F612, F613]) == Apply(two, F613);
    }
  }

  /** What a run from `start` has kept by the time it got to `p`. */
  predicate Kept(start: Database, p: Progress) {
    && start.ledger <= p.db.ledger
    && Never612After613(p.trace)
    && (Closed(start) ==> ClosedThroughout(p.trace) && Closed(p.db))
    && (F613 in start.ledger && LiveIs613(start) ==> LiveThroughout(p.trace) && LiveIs613(p.db))
    && (Recoverable(p.db) <==> Recoverable(start))
  }

  /** When it is safe to send a statement. */
  predicate SafeNow(db: Database, s: Statement) {
    match s
    case Execute(F611) => Recoverable(db)
    case Execute(F612) => F613 !in db.ledger
    case Record(F611) => db.documents || F613 in db.ledger
    case Record(F613) => db.documents && LiveIs613(db)
    case _ => true
  }

  lemma {:induction false} TryKeeps(start: Database, p: Progress, s: Statement)
    requires Kept(start, p) && (p.ok ==> SafeNow(p.db, s))
    ensures Kept(start, Try(p, s))
  {
  }

  lemma {:induction false} ApplyKeeps(start: Database, p: Progress, f: File)
    requires Kept(start, p)
    requires p.ok && f == F611 ==> Recoverable(p.db)
    requires p.ok && f == F612 ==> F613 !in p.db.ledger
    ensures var q := Apply(p, f);
      && Kept(start, q)
      && (q.ok ==> p.ok && q.db.ledger == p.db.ledger + {f} && q.db.documents && (f == F613 ==> LiveIs613(q.db)))
      && (f != F613 && F613 !in p.db.ledger ==> F613 !in q.db.ledger)
  {
    TryKeeps(start, p, Execute(f));
    TryKeeps(start, Try(p, Execute(f)), Record(f));
  }

  /** Everything the runner promises before its first live check. */
  lemma {:induction false} CatchUpKeeps(db: Database, budget: nat)
    ensures var q := CatchUp(Progress(db, budget, [], true));
      && Kept(db, q)
      && (q.ok ==> q.db.ledger >= {F611, F612, F613} && (F613 !in db.ledger ==> LiveIs613(q.db) && q.db.documents))
  {
    var p := Progress(db, budget, [], true);
    CatchUpUnrolled(p);
    if F613 in db.ledger {
      var one := if F611 in db.ledger then p else Try(p, Record(F611));
      TryKeeps(db, p, Record(F611));
      TryKeeps(db, one, Record(F612));
    } else {
      var one := if F611 in db.ledger then p else Apply(p, F611);
      var two := if F612 in db.ledger then one else Apply(one, F612);
      if F611 !in db.ledger { ApplyKeeps(db, p, F611); }
      if F612 !in db.ledger { ApplyKeeps(db, one, F612); }
      ApplyKeeps(db, two, F613);
    }
  }

  lemma {:induction false} RunKeeps(db: Database, budget: nat)
    ensures var q := RunOnce(db, budget);
      && Kept(db, q)
      && (q.ok ==> q.db.ledger >= {F611, F612, F613} && LiveIs613(q.db) && q.db.documents)
  {
    var caughtUp := CatchUp(Progress(db, budget, [], true));
    CatchUpKeeps(db, budget);
    var checked := Try(caughtUp, CheckLive);
    TryKeeps(db, caughtUp, CheckLive);
    if Reapplies(db, budget) {
      ApplyKeeps(db, checked, F613);
      TryKeeps(db, Apply(checked, F613), CheckLive);
    } else {
      TryKeeps(db, checked, CheckLive);
    }
  }

  // ---------------------------------------------------------------- single runs

  /** From any database, a run that completes leaves all three files on record and the 613 guard live. */
  lemma {:induction false} CompletedRun(db: Database, budget: nat)
    requires RunOnce(db, budget).ok
    ensures var after := RunOnce(db, budget).db;
      && after.ledger == {F611, F612, F613} && after.documents
      && after.forbidsIncrease && !after.acceptsUnjournaled && after.deferredTrigger && after.comparesReference
  {
    RunKeeps(db, budget);
    AllFiles(RunOnce(db, budget).db.ledger);
  }

  lemma {:induction false} AllFiles(ledger: set<File>)
    requires ledger >= {F611, F612, F613}
    ensures ledger == {F611, F612, F613}
  {
    forall f | f in ledger ensures f in {F611, F612, F613} { match f case F611 => case F612 => case F613 => }
  }

  /** The run after that changes nothing: two live checks and no more. */
  lemma {:induction false} RunAfterCompleted(db: Database, budget: nat, next: nat)
    requires RunOnce(db, budget).ok && next >= 2
    ensures var after := RunOnce(db, budget).db;
      && RunOnce(after, next).ok && !Reapplies(after, next)
      && RunOnce(after, next).db == after
      && RunOnce(after, next).trace == [Performed(after, CheckLive), Performed(after, CheckLive)]
  {
    CompletedRun(db, budget);
    var after := RunOnce(db, budget).db;
    var p := Progress(after, next, [], true);
    CatchUpUnrolled(p);
    assert CatchUp(p) == p;
    assert [] + [Performed(after, CheckLive)] == [Performed(after, CheckLive)];
  }

  // ---------------------------------------------------------------- whole histories

  /** Over every history of interrupted runs, 612 is never executed with 613 on record. */
  lemma {:induction false} HistoryNever612After613(db: Database, budgets: seq<nat>)
    ensures Never612After613(RunAll(db, budgets).trace)
    decreases budgets
  {
    if budgets != [] {
      RunKeeps(db, budgets[0]);
      HistoryNever612After613(RunOnce(db, budgets[0]).db, budgets[1..]);
    }
  }

  /** If 613 on record means its guard is live at the start, it means so before every statement of the history. */
  lemma {:induction false} HistoryKeepsClosed(db: Database, budgets: seq<nat>)
    requires Closed(db)
    ensures ClosedThroughout(RunAll(db, budgets).trace) && Closed(RunAll(db, budgets).db)
    decreases budgets
  {
    if budgets != [] {
      RunKeeps(db, budgets[0]);
      HistoryKeepsClosed(RunOnce(db, budgets[0]).db, budgets[1..]);
    }
  }

  /** If 613 is recorded and live at the start, the guard is live before every statement of the history. */
  lemma {:induction false} HistoryKeepsLive(db: Database, budgets: seq<nat>)
    requires F613 in db.ledger && LiveIs613(db)
    ensures LiveThroughout(RunAll(db, budgets).trace) && LiveIs613(RunAll(db, budgets).db)
    decreases budgets
  {
    if budgets != [] {
      RunKeeps(db, budgets[0]);
      HistoryKeepsLive(RunOnce(db, budgets[0]).db, budgets[1..]);
    }
  }

  lemma {:induction false} HistoryKeepsRecoverable(db: Database, budgets: seq<nat>)
    ensures Recoverable(RunAll(db, budgets).db) <==> Recoverable(db)
    decreases budgets
  {
    if budgets != [] {
      RunKeeps(db, budgets[0]);
      HistoryKeepsRecoverable(RunOnce(db, budgets[0]).db, budgets[1..]);
    }
  }

  const ENOUGH: nat := 10

  lemma {:induction false} TryProgresses(p: Progress, s: Statement)
    requires p.ok && p.budget > 0 && Possible(p.db, s)
    ensures Try(p, s).ok && Try(p, s).budget == p.budget - 1 && (p.db.documents ==> Try(p, s).db.documents)
  {
  }

  lemma {:induction false} ApplyProgresses(p: Progress, f: File)
    requires p.ok && p.budget >= 2 && (p.db.documents || f == F611)
    ensures var q := Apply(p, f); q.ok && q.budget == p.budget - 2 && q.db.documents
  {
    TryProgresses(p, Execute(f));
    TryProgresses(Try(p, Execute(f)), Record(f));
  }

  lemma {:induction false} RecoverableCompletes(db: Database, budget: nat)
    requires budget >= ENOUGH && Recoverable(db)
    ensures RunOnce(db, budget).ok
  {
    var p := Progress(db, budget, [], true);
    CatchUpUnrolled(p);
    if F613 in db.ledger {
      var one := if F611 in db.ledger then p else Try(p, Record(F611));
      if F611 !in db.ledger { TryProgresses(p, Record(F611)); }
      if F612 !in db.ledger { TryProgresses(one, Record(F612)); }
    } else {
      var one := if F611 in db.ledger then p else Apply(p, F611);
      var two := if F612 in db.ledger then one else Apply(one, F612);
      if F611 !in db.ledger { ApplyProgresses(p, F611); }
      if F612 !in db.ledger { ApplyProgresses(one, F612); }
      ApplyProgresses(two, F613);
    }
    var caughtUp := CatchUp(p);
    assert caughtUp.ok && caughtUp.budget >= 4 && caughtUp.db.documents;
    TryProgresses(caughtUp, CheckLive);
    var checked := Try(caughtUp, CheckLive);
    if Reapplies(db, budget) { ApplyProgresses(checked, F613); }
  }

  /** After any history, a run that nothing interrupts completes exactly if the first database was recoverable. */
  lemma {:induction false} UninterruptedRun(db: Database, budgets: seq<nat>, budget: nat)
    requires budget >= ENOUGH
    ensures RunOnce(RunAll(db, budgets).db, budget).ok <==> Recoverable(db)
  {
    HistoryKeepsRecoverable(db, budgets);
    var now := RunAll(db, budgets).db;
    RunKeeps(now, budget);
    if Recoverable(now) { RecoverableCompletes(now, budget); }
  }

  // ---------------------------------------------------------------- exactly which statements

  function Statements(trace: seq<Performed>): (r: seq<Statement>)
    ensures |r| == |trace| && forall i :: 0 <= i < |r| ==> r[i] == trace[i].statement
  {
    seq(|trace|, i requires 0 <= i < |trace| => trace[i].statement)
  }

  /** What a run that completes sends: records only, or each missing file and its record, in order. */
  function CatchUpStatements(ledger: set<File>): seq<Statement> {
    if F613 in ledger then
      (if F611 in ledger then [] else [Record(F611)]) + (if F612 in ledger then [] else [Record(F612)])
    else
      (if F611 in ledger then [] else [Execute(F611), Record(F611)])
      + (if F612 in ledger then [] else [Execute(F612), Record(F612)])
      + [Execute(F613), Record(F613)]
  }

  /** The 613 file is on record but one of the four facts the live check looks for is not so. */
  predicate RecordedButNotLive(db: Database) {
    F613 in db.ledger &&
    !(db.forbidsIncrease && !db.acceptsUnjournaled && db.deferredTrigger && db.comparesReference)
  }

  lemma {:induction false} TryStatements(p: Progress, s: Statement)
    requires Try(p, s).ok
    ensures p.ok && Statements(Try(p, s).trace) == Statements(p.trace) + [s]
    ensures s.Record? || s == CheckLive ==> LiveIs613(Try(p, s).db) == LiveIs613(p.db)
  {
  }

  lemma {:induction false} ApplyStatements(p: Progress, f: File)
    requires Apply(p, f).ok
    ensures p.ok && Statements(Apply(p, f).trace) == Statements(p.trace) + [Execute(f), Record(f)]
    ensures f == F613 ==> LiveIs613(Apply(p, f).db)
  {
    TryStatements(Try(p, Execute(f)), Record(f));
    TryStatements(p, Execute(f));
  }

  lemma {:induction false} CaughtUp(db: Database, budget: nat)
    requires CatchUp(Progress(db, budget, [], true)).ok
    ensures var q := CatchUp(Progress(db, budget, [], true));
      && Statements(q.trace) == CatchUpStatements(db.ledger)
      && LiveIs613(q.db) == (F613 in db.ledger ==> LiveIs613(db))
  {
    var p := Progress(db, budget, [], true);
    CatchUpUnrolled(p);
    assert Statements([]) == [];
    if F613 in db.ledger {
      var one := if F611 in db.ledger then p else Try(p, Record(F611));
      hide Try;
      if F612 !in db.ledger { TryStatements(one, Record(F612)); }
      if F611 !in db.ledger { TryStatements(p, Record(F611)); }
    } else {
      var one := if F611 in db.ledger then p else Apply(p, F611);
      var two := if F612 in db.ledger then one else Apply(one, F612);
      hide Apply;
      ApplyStatements(two, F613);
      if F612 !in db.ledger { ApplyStatements(one, F612); }
      if F611 !in db.ledger { ApplyStatements(p, F611); }
    }
  }

  /**
   * A run that completes catches up, checks, applies 613 once more exactly if it was on record without being live, and
   * checks again.
   */
  lemma {:induction false} CompletedStatements(db: Database, budget: nat)
    requires RunOnce(db, budget).ok
    ensures Reapplies(db, budget) <==> RecordedButNotLive(db)
    ensures Statements(RunOnce(db, budget).trace) ==
      CatchUpStatements(db.ledger) + [CheckLive]
      + (if RecordedButNotLive(db) then [Execute(F613), Record(F613)] else []) + [CheckLive]
  {
    var caughtUp, checked := CatchUp(Progress(db, budget, [], true)), Checked(db, budget);
    var settled := if Reapplies(db, budget) then Apply(checked, F613) else checked;
    hide CatchUp, Apply, Try;
    TryStatements(settled, CheckLive);
    if Reapplies(db, budget) { ApplyStatements(checked, F613); }
    TryStatements(caughtUp, CheckLive);
    CaughtUp(db, budget);
  }

  /** With nothing in its way, a run applies 613 once more exactly then. */
  lemma {:induction false} ReappliesExactly(db: Database, budget: nat)
    requires budget >= ENOUGH && (db.documents || (F611 !in db.ledger && F613 !in db.ledger))
    ensures RunOnce(db, budget).ok
    ensures Reapplies(db, budget) <==> RecordedButNotLive(db)
  {
    RecoverableCompletes(db, budget);
    CompletedStatements(db, budget);
  }

  /** A run cut short right after 612 leaves a guard that accepts unjournaled documents, and 612 off the record. */
  lemma {:induction false} HoleOpens(db: Database)
    requires db.documents && F611 in db.ledger && F612 !in db.ledger && F613 !in db.ledger
    ensures var after := RunOnce(db, 1);
      && !after.ok && after.db.ledger == db.ledger
      && !after.db.forbidsIncrease && after.db.acceptsUnjournaled
      && Statements(after.trace) == [Execute(F612)]
  {
    var p := Progress(db, 1, [], true);
    CatchUpUnrolled(p);
    var one := Try(p, Execute(F612));
    var two := Apply(p, F612);
    assert two == one.(ok := false) && CatchUp(p) == two;
    assert [] + [Performed(db, Execute(F612))] == [Performed(db, Execute(F612))];
    assert Checked(db, 1) == two && !Reapplies(db, 1);
  }

  // ---------------------------------------------------------------- the runner

  datatype Entry = Applied(file: File) | RecordedWithoutRerun(file: File) | Reapplied

  function AsApplied(): File -> Entry { (f: File) => Applied(f) }

  function AsRecorded(): File -> Entry { (f: File) => RecordedWithoutRerun(f) }

  function Report(ledger: set<File>, files: seq<File>, entry: File -> Entry): seq<Entry> {
    if files == [] then []
    else (if files[0] in ledger then [] else [entry(files[0])]) + Report(ledger, files[1..], entry)
  }

  function FullReport(db: Database, budget: nat): seq<Entry> {
    (if F613 in db.ledger then Report(db.ledger, BEFORE_613, AsRecorded())
     else Report(db.ledger, FILES, AsApplied()))
    + if Reapplies(db, budget) then [Reapplied] else []
  }

  /** What a run that completes reports for a database. */
  function ExpectedReport(db: Database): seq<Entry> {
    if F613 in db.ledger then
      (if F611 in db.ledger then [] else [RecordedWithoutRerun(F611)])
      + (if F612 in db.ledger then [] else [RecordedWithoutRerun(F612)])
      + (if RecordedButNotLive(db) then [Reapplied] else [])
    else
      (if F611 in db.ledger then [] else [Applied(F611)]) + (if F612 in db.ledger then [] else [Applied(F612)])
      + [Applied(F613)]
  }

  lemma {:induction false} ReportOfFiles(ledger: set<File>, entry: File -> Entry)
    ensures Report(ledger, BEFORE_613, entry) ==
      (if F611 in ledger then [] else [entry(F611)]) + (if F612 in ledger then [] else [entry(F612)])
    ensures Report(ledger, FILES, entry) ==
      (if F611 in ledger then [] else [entry(F611)]) + (if F612 in ledger then [] else [entry(F612)])
      + (if F613 in ledger then [] else [entry(F613)])
  {
    assert FILES[1..] == [F612, F613] && [F612, F613][1..] == [F613] && [F613][1..] == [];
    assert BEFORE_613[1..] == [F612] && [F612][1..] == [];
    assert Report(ledger, [F613], entry) == if F613 in ledger then [] else [entry(F613)];
    assert Report(ledger, [F612], entry) == if F612 in ledger then [] else [entry(F612)];
    assert Report(ledger, [F612, F613], entry) ==
      (if F612 in ledger then [] else [entry(F612)]) + Report(ledger, [F613], entry);
  }

  /** Files are reported as applied or as recorded without a rerun, according to what was done with them. */
  lemma {:induction false} CompletedReport(db: Database, budget: nat)
    requires RunOnce(db, budget).ok
    ensures FullReport(db, budget) == ExpectedReport(db)
  {
    CompletedStatements(db, budget);
    hide Reapplies, RunOnce, RecordedButNotLive;
    ReportOfFiles(db.ledger, AsRecorded());
    ReportOfFiles(db.ledger, AsApplied());
  }

  /** The run after a completed one reports no file applied. */
  lemma {:induction false} NothingLeftToReport(db: Database, budget: nat, next: nat)
    requires RunOnce(db, budget).ok && next >= 2
    ensures FullReport(RunOnce(db, budget).db, next) == []
  {
    hide CatchUp;
    CompletedRun(db, budget);
    RunAfterCompleted(db, budget, next);
    var ledger := RunOnce(db, budget).db.ledger;
    assert F611 in ledger && F612 in ledger && F613 in ledger;
    assert BEFORE_613[1..] == [F612] && [F612][1..] == [];
    assert Report(ledger, [F612], AsRecorded()) == [];
    assert Report(ledger, BEFORE_613, AsRecorded()) == [];
    assert !Reapplies(RunOnce(db, budget).db, next);
  }

  datatype Outcome = Interrupted | Completed(applied: seq<Entry>, reapplied613: bool)

  lemma {:induction false} RecordStuck(p: Progress, ledger: set<File>, files: seq<File>)
    requires !p.ok
    ensures RecordMissing(p, ledger, files) == p
    decreases files
  {
    if files != [] { RecordStuck(p, ledger, files[1..]); }
  }

  lemma {:induction false} ApplyStuck(p: Progress, ledger: set<File>, files: seq<File>)
    requires !p.ok
    ensures ApplyMissing(p, ledger, files) == p
    decreases files
  {
    if files != [] { ApplyStuck(p, ledger, files[1..]); }
  }

  lemma {:induction false} NothingPending(p: Progress, ledger: set<File>)
    requires forall i :: 0 <= i < |FILES| ==> FILES[i] in ledger
    ensures ApplyMissing(p, ledger, FILES) == p
    ensures Report(ledger, FILES, AsApplied()) == []
  {
    assert FILES[1..] == [F612, F613] && [F612, F613][1..] == [F613] && [F613][1..] == [];
    assert ApplyMissing(p, ledger, [F613]) == p && ApplyMissing(p, ledger, [F612, F613]) == p;
    assert Report(ledger, [F613], AsApplied()) == [];
    assert Report(ledger, [F612, F613], AsApplied()) == [];
  }

  class Pool {
    var db: Database
    var budget: nat
    ghost var trace: seq<Performed>

    constructor (db: Database, budget: nat)
      ensures this.db == db && this.budget == budget && trace == []
    {
      this.db, this.budget, trace := db, budget, [];
    }

    ghost function Now(ok: bool): Progress
      reads this
    {
      Progress(db, budget, trace, ok)
    }

    method Query(s: Statement) returns (ok: bool)
      modifies this
      ensures Now(ok) == Try(old(Now(true)), s)
    {
      ok := budget > 0 && Possible(db, s);
      if ok {
        trace := trace + [Performed(db, s)];
        db, budget := Do(db, s), budget - 1;
      }
    }

    method RunAndRecord(f: File) returns (ok: bool)
      modifies this
      ensures Now(ok) == Apply(old(Now(true)), f)
    {
      ok := Query(Execute(f));
      if ok { ok := Query(Record(f)); }
    }
  }

  /** Records 611 and 612 when 613 is already there; `appliedSet` is what the ledger held when it was read. */
  method RecordOlder(pool: Pool, ledger: set<File>) returns (ok: bool, appliedSet: set<File>, applied: seq<Entry>)
    modifies pool
    ensures pool.Now(ok) == RecordMissing(old(pool.Now(true)), ledger, BEFORE_613)
    ensures ok ==> appliedSet == ledger + {F611, F612}
    ensures ok ==> applied == Report(ledger, BEFORE_613, AsRecorded())
  {
    ok, appliedSet, applied := true, ledger, [];
    for i := 0 to 2
      invariant appliedSet == ledger + (set f | f in BEFORE_613[..i])
      invariant RecordMissing(old(pool.Now(true)), ledger, BEFORE_613) ==
                RecordMissing(pool.Now(true), ledger, BEFORE_613[i..])
      invariant Report(ledger, BEFORE_613, AsRecorded()) == applied + Report(ledger, BEFORE_613[i..], AsRecorded())
    {
      var f := BEFORE_613[i];
      assert BEFORE_613[i..][1..] == BEFORE_613[i + 1..];
      if f !in appliedSet {
        ok := pool.Query(Record(f));
        if !ok {
          RecordStuck(pool.Now(false), ledger, BEFORE_613[i + 1..]);
          return;
        }
        appliedSet := appliedSet + {f};
        applied := applied + [RecordedWithoutRerun(f)];
      }
    }
    assert forall f :: f in BEFORE_613[..2] <==> f == F611 || f == F612;
  }

  method ApplyPending(pool: Pool, ledger: set<File>) returns (ok: bool, applied: seq<Entry>)
    modifies pool
    ensures pool.Now(ok) == ApplyMissing(old(pool.Now(true)), ledger, FILES)
    ensures ok ==> applied == Report(ledger, FILES, AsApplied())
  {
    ok, applied := true, [];
    var appliedSet := ledger;
    for i := 0 to 3
      invariant forall k :: i <= k < 3 ==> (FILES[k] in appliedSet <==> FILES[k] in ledger)
      invariant ApplyMissing(old(pool.Now(true)), ledger, FILES) == ApplyMissing(pool.Now(true), ledger, FILES[i..])
      invariant Report(ledger, FILES, AsApplied()) == applied + Report(ledger, FILES[i..], AsApplied())
    {
      var f := FILES[i];
      assert FILES[i..][1..] == FILES[i + 1..];
      if f !in appliedSet {
        ok := pool.RunAndRecord(f);
        if !ok {
          ApplyStuck(pool.Now(false), ledger, FILES[i + 1..]);
          return;
        }
        appliedSet := appliedSet + {f};
        applied := applied + [Applied(f)];
      }
    }
  }

  /** Runs on whatever the database holds; the last live check cannot find the guard missing. */
  method EnsureLotWriteDownMigrations(pool: Pool) returns (r: Outcome)
    requires pool.trace == []
    modifies pool
    ensures pool.Now(r.Completed?) == RunOnce(old(pool.db), old(pool.budget))
    ensures r.Completed? ==> r.applied == FullReport(old(pool.db), old(pool.budget))
    ensures r.Completed? ==> r.reapplied613 == Reapplies(old(pool.db), old(pool.budget))
    ensures r.Completed? ==>
      r.applied == ExpectedReport(old(pool.db)) && r.reapplied613 == RecordedButNotLive(old(pool.db))
  {
    var ledger := pool.db.ledger;
    var ok, applied;
    var appliedSet := ledger;
    applied := [];
    if F613 in ledger {
      ok, appliedSet, applied := RecordOlder(pool, ledger);
      if !ok { return Interrupted; }
      NothingPending(pool.Now(true), appliedSet);
    }
    var pending;
    ok, pending := ApplyPending(pool, appliedSet);
    if !ok { return Interrupted; }
    applied := applied + pending;
    ok := pool.Query(CheckLive);
    if !ok { return Interrupted; }
    var reapplied613 := false;
    if !LiveIs613(pool.db) {
      ok := pool.RunAndRecord(F613);
      if !ok { return Interrupted; }
      reapplied613 := true;
      applied := applied + [Reapplied];
    }
    ok := pool.Query(CheckLive);
    if !ok { return Interrupted; }
    RunKeeps(old(pool.db), old(pool.budget));
    assert LiveIs613(pool.db);
    CompletedStatements(old(pool.db), old(pool.budget));
    CompletedReport(old(pool.db), old(pool.budget));
    return Completed(applied, reapplied613);
  }
}
