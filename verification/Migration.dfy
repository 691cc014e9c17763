/** The migration runner: planning from recorded checksums, one transaction per file, resuming after a failure. */
module Migration {
  import opened Collections
  datatype File = File(name: string, sql: string)

  /** Newline-normalised text; it stands for its digest. */
  function Checksum(sql: string): string {
    if |sql| < 2 then sql
    else if sql[0] == '\r' && sql[1] == '\n' then "\n" + Checksum(sql[2..])
    else [sql[0]] + Checksum(sql[1..])
  }

  datatype Action = Apply | Skip | Reapply | SkipDrift

  datatype PlanItem = PlanItem(file: File, checksum: string, action: Action) {
    predicate Pending() { action.Apply? || action.Reapply? }
  }

  type Record = map<string, string>

  function ActionFor(f: File, applied: Record, force: bool): Action {
    if f.name !in applied then Apply
    else if applied[f.name] == Checksum(f.sql) then Skip
    else if force then Reapply
    else SkipDrift
  }

  function PlanOf(files: seq<File>, applied: Record, force: bool): seq<PlanItem> {
    seq(|files|, i requires 0 <= i < |files| =>
      PlanItem(files[i], Checksum(files[i].sql), ActionFor(files[i], applied, force)))
  }

  method PlanMigrations(files: seq<File>, applied: Record, force: bool) returns (plan: seq<PlanItem>)
    ensures plan == PlanOf(files, applied, force)
  {
    plan := [];
    for n := 0 to |files|
      invariant plan == PlanOf(files, applied, force)[..n]
    {
      var cs := Checksum(files[n].sql);
      var action;
      if files[n].name !in applied {
        action := Apply;
      } else if applied[files[n].name] == cs {
        action := Skip;
      } else if force {
        action := Reapply;
      } else {
        action := SkipDrift;
      }
      plan := plan + [PlanItem(files[n], cs, action)];
    }
  }

  // ---- the database ---------------------------------------------------------------------------

  /** The recorded checksums and every SQL text ever committed, in order. */
  datatype Db = Db(applied: Record, committed: seq<string>)

  function Commit(db: Db, f: File): Db {
    Db(db.applied[f.name := Checksum(f.sql)], db.committed + [f.sql])
  }

  /** How one transaction ends: committed, rolled back, or committed with the acknowledgement lost. */
  datatype Outcome = Done | RolledBack | LostAck

  class Backend {
    var applied: Record
    var committed: seq<string>

    ghost function Contents(): Db
      reads this
    {
      Db(applied, committed)
    }

    /** The file's SQL and its tracking row in one transaction. */
    method Apply(f: File, checksum: string, outcome: Outcome) returns (ok: bool)
      requires checksum == Checksum(f.sql)
      modifies this
      ensures ok == outcome.Done?
      ensures Contents() == if outcome.RolledBack? then old(Contents()) else Commit(old(Contents()), f)
    {
      if outcome.RolledBack? { return false; }
      committed := committed + [f.sql];
      applied := applied[f.name := checksum];
      ok := outcome.Done?;
    }
  }

  // ---- one run ------------------------------------------------------------------------------------

  /** The items in order; the run stops at the first transaction that is not reported done. */
  function RunItems(db: Db, items: seq<PlanItem>, outcomes: seq<Outcome>): (Db, bool)
    decreases |items|
  {
    if items == [] then (db, true)
    else if !items[0].Pending() then RunItems(db, items[1..], outcomes)
    else
      var outcome := if outcomes == [] then Done else outcomes[0];
      var rest := if outcomes == [] then [] else outcomes[1..];
      match outcome
      case Done => RunItems(Commit(db, items[0].file), items[1..], rest)
      case RolledBack => (db, false)
      case LostAck => (Commit(db, items[0].file), false)
  }

  function RunOf(db: Db, files: seq<File>, force: bool, outcomes: seq<Outcome>): (Db, bool) {
    RunItems(db, PlanOf(files, db.applied, force), outcomes)
  }

  /** `outcomes` says how the transactions of this run end, those beyond it being done; exit code 0 is success. */
  method RunMigrate(backend: Backend, files: seq<File>, dryRun: bool, force: bool, outcomes: seq<Outcome>)
    returns (code: nat)
    modifies backend
    ensures files == [] || dryRun ==> backend.Contents() == old(backend.Contents())
    ensures code == 0 <==> files != [] && (dryRun || RunOf(old(backend.Contents()), files, force, outcomes).1)
    ensures files != [] && !dryRun ==> backend.Contents() == RunOf(old(backend.Contents()), files, force, outcomes).0
  {
    if files == [] { return 1; }
    var plan := PlanMigrations(files, backend.applied, force);
    if dryRun { return 0; }
    ghost var whole := RunItems(backend.Contents(), plan, outcomes);
    var left := outcomes;
    for n := 0 to |plan|
      invariant whole == RunItems(backend.Contents(), plan[n..], left)
    {
      var item := plan[n];
      assert plan[n..][1..] == plan[n + 1..];
      if item.Pending() {
        var outcome := if left == [] then Done else left[0];
        left := if left == [] then [] else left[1..];
        var ok := backend.Apply(item.file, item.checksum, outcome);
        if !ok { return 1; }
      }
    }
    return 0;
  }

  // ---- what a run comes to --------------------------------------------------------------------------

  ghost predicate PendingIn(db: Db, f: File, force: bool) { ActionFor(f, db.applied, force) in {Apply, Reapply} }

  /** Every file brought up to date, one after the other. */
  ghost function Finish(db: Db, files: seq<File>, force: bool): Db
    decreases |files|
  {
    if files == [] then db
    else
      var front, f := files[..|files| - 1], files[|files| - 1];
      var before := Finish(db, front, force);
      if PendingIn(before, f, force) then Commit(before, f) else before
  }

  ghost predicate DistinctNames(files: seq<File>) {
    forall i, j :: 0 <= i < j < |files| ==> files[i].name != files[j].name
  }

  /** A run touches the records of its own files only. */
  lemma {:induction false} FinishLeavesOthers(db: Db, files: seq<File>, force: bool, name: string)
    requires forall f :: f in files ==> f.name != name
    ensures name in Finish(db, files, force).applied <==> name in db.applied
    ensures name in db.applied ==> Finish(db, files, force).applied[name] == db.applied[name]
    decreases |files|
  {
    if files != [] {
      FinishLeavesOthers(db, files[..|files| - 1], force, name);
      assert files[|files| - 1] in files;
    }
  }

  /** A file is brought up to date exactly if it was pending before the run, whatever the files before it did. */
  lemma StillPending(db: Db, files: seq<File>, k: nat, force: bool)
    requires DistinctNames(files) && k < |files|
    ensures PendingIn(Finish(db, files[..k], force), files[k], force) == PendingIn(db, files[k], force)
  {
    FinishLeavesOthers(db, files[..k], force, files[k].name);
  }

  ghost function PendingSql(db: Db, files: seq<File>, force: bool): seq<string> {
    if files == [] then []
    else
      var f := files[|files| - 1];
      PendingSql(db, files[..|files| - 1], force) + if PendingIn(db, f, force) then [f.sql] else []
  }

  /** Bringing every file up to date executes exactly the files pending at the start, in file name order. */
  lemma {:induction false} FinishExecutesPending(db: Db, files: seq<File>, force: bool)
    requires DistinctNames(files)
    ensures Finish(db, files, force).committed == db.committed + PendingSql(db, files, force)
    decreases |files|
  {
    if files != [] {
      var n := |files| - 1;
      FinishExecutesPending(db, files[..n], force);
      StillPending(db, files, n, force);
    }
  }

  /** After it nothing is pending, neither for the same kind of run nor for an unforced one. */
  lemma {:induction false} NothingLeftPending(db: Db, files: seq<File>, force: bool, f: File)
    requires DistinctNames(files) && f in files
    ensures !PendingIn(Finish(db, files, force), f, force) && !PendingIn(Finish(db, files, force), f, false)
    decreases |files|
  {
    var n := |files| - 1;
    assert files == files[..n] + [files[n]];
    if f != files[n] { NothingLeftPending(db, files[..n], force, f); }
  }

  /** A run over files of which none is pending does nothing. */
  lemma {:induction false} NothingToDo(db: Db, files: seq<File>, force: bool)
    requires forall f :: f in files ==> !PendingIn(db, f, force)
    ensures Finish(db, files, force) == db
    decreases |files|
  {
    if files != [] {
      NothingToDo(db, files[..|files| - 1], force);
      assert files[|files| - 1] in files;
    }
  }

  lemma {:induction false} FinishJoin(db: Db, a: seq<File>, b: seq<File>, force: bool)
    ensures Finish(db, a + b, force) == Finish(Finish(db, a, force), b, force)
    decreases |b|
  {
    if b == [] {
      assert a + b == a;
    } else {
      FinishJoin(db, a, b[..|b| - 1], force);
      assert (a + b)[..|a + b| - 1] == a + b[..|b| - 1];
    }
  }

  // ---- crash and resume --------------------------------------------------------------------------------

  /** However a run ends, it has brought some first files up to date, and all of them if it succeeds. */
  lemma {:induction false} RunFinishesSomeFiles(db: Db, files: seq<File>, force: bool, items: seq<PlanItem>,
                                                k: nat, outcomes: seq<Outcome>) returns (done: nat)
    requires DistinctNames(files) && k <= |files| && items == PlanOf(files, db.applied, force)[k..]
    ensures k <= done <= |files|
    ensures var run := RunItems(Finish(db, files[..k], force), items, outcomes);
      run.0 == Finish(db, files[..done], force) && (run.1 ==> done == |files|)
    ensures outcomes == [] ==> done == |files|
    decreases |items|
  {
    if items == [] { return k; }
    assert files[..k + 1][..k] == files[..k];
    StillPending(db, files, k, force);
    assert items[1..] == PlanOf(files, db.applied, force)[k + 1..];
    var rest := if outcomes == [] || !items[0].Pending() then outcomes else outcomes[1..];
    if items[0].Pending() && outcomes != [] && !outcomes[0].Done? {
      done := if outcomes[0].LostAck? then k + 1 else k;
    } else {
      done := RunFinishesSomeFiles(db, files, force, items[1..], k + 1, rest);
    }
  }

  lemma {:induction false} PendingSqlOfFirst(db: Db, files: seq<File>, k: nat, force: bool)
    requires k <= |files|
    ensures PendingSql(db, files[..k], force) <= PendingSql(db, files, force)
    decreases |files|
  {
    if k == |files| {
      assert files[..k] == files;
    } else {
      var front := files[..|files| - 1];
      PendingSqlOfFirst(db, front, k, force);
      assert front[..k] == files[..k];
    }
  }

  /**
    However a run ends, it has executed exactly the pending ones of some first files, in file name order and each
    once; all that were pending at its start if it reports success, as it does when nothing fails.
   */
  lemma ExecutesPendingInOrder(db: Db, files: seq<File>, force: bool, outcomes: seq<Outcome>) returns (done: nat)
    requires DistinctNames(files)
    ensures done <= |files|
    ensures var (after, ok) := RunOf(db, files, force, outcomes);
      && after.committed == db.committed + PendingSql(db, files[..done], force)
      && PendingSql(db, files[..done], force) <= PendingSql(db, files, force)
      && (ok || outcomes == [] ==> PendingSql(db, files[..done], force) == PendingSql(db, files, force))
  {
    done := RunFinishesSomeFiles(db, files, force, PlanOf(files, db.applied, force), 0, outcomes);
    FinishExecutesPending(db, files[..done], force);
    PendingSqlOfFirst(db, files, done, force);
    assert done == |files| ==> files[..done] == files;
  }

  lemma Resume(db: Db, files: seq<File>, k: nat, force: bool)
    requires DistinctNames(files) && k <= |files|
    ensures Finish(Finish(db, files[..k], force), files, force) == Finish(db, files, force)
  {
    var part := Finish(db, files[..k], force);
    assert files == files[..k] + files[k..];
    FinishJoin(part, files[..k], files[k..], force);
    FinishJoin(db, files[..k], files[k..], force);
    forall f | f in files[..k]
      ensures !PendingIn(part, f, force)
    {
      NothingLeftPending(db, files[..k], force, f);
    }
    NothingToDo(part, files[..k], force);
  }

  lemma WholeRun(db: Db, files: seq<File>, force: bool)
    requires DistinctNames(files)
    ensures RunOf(db, files, force, []) == (Finish(db, files, force), true)
  {
    var done := RunFinishesSomeFiles(db, files, force, PlanOf(files, db.applied, force), 0, []);
    assert files[..|files|] == files;
    NoFailure(db, PlanOf(files, db.applied, force));
  }

  lemma {:induction false} NoFailure(db: Db, items: seq<PlanItem>)
    ensures RunItems(db, items, []).1
    decreases |items|
  {
    if items != [] {
      NoFailure(if items[0].Pending() then Commit(db, items[0].file) else db, items[1..]);
    }
  }

  ghost function Runs(db: Db, files: seq<File>, force: bool, crashes: seq<seq<Outcome>>): Db
    decreases |crashes|
  {
    if crashes == [] then db else Runs(RunOf(db, files, force, crashes[0]).0, files, force, crashes[1..])
  }

  /**
    Crash and resume. After any number of runs that end in any way, one more run leaves exactly the database that a
    single uninterrupted run would have left: the same records, and the same SQL committed in the same order.
   */
  lemma {:induction false} ResumingEqualsOneRun(db: Db, files: seq<File>, force: bool, crashes: seq<seq<Outcome>>)
    requires DistinctNames(files)
    ensures RunOf(Runs(db, files, force, crashes), files, force, []) == RunOf(db, files, force, [])
    decreases |crashes|
  {
    if crashes != [] {
      var next := RunOf(db, files, force, crashes[0]).0;
      var done := RunFinishesSomeFiles(db, files, force, PlanOf(files, db.applied, force), 0, crashes[0]);
      Resume(db, files, done, force);
      WholeRun(db, files, force);
      WholeRun(next, files, force);
      ResumingEqualsOneRun(next, files, force, crashes[1..]);
    }
  }

  /** A run that reports success has nothing left for an unforced run to do, forced or not. */
  lemma SuccessIsComplete(db: Db, files: seq<File>, force: bool, outcomes: seq<Outcome>)
    requires DistinctNames(files) && RunOf(db, files, force, outcomes).1
    ensures var after := RunOf(db, files, force, outcomes).0;
      && (forall i :: 0 <= i < |files| ==> !PlanOf(files, after.applied, false)[i].Pending())
      && after.committed == db.committed + PendingSql(db, files, force)
  {
    var done := RunFinishesSomeFiles(db, files, force, PlanOf(files, db.applied, force), 0, outcomes);
    assert files[..|files|] == files;
    FinishExecutesPending(db, files, force);
    forall i | 0 <= i < |files|
      ensures !PendingIn(Finish(db, files, force), files[i], false)
    {
      NothingLeftPending(db, files, force, files[i]);
    }
  }

  // ---- which files a run executes, from names and texts alone ------------------------------------------------

  /** The character stays when line ends are made alike: it is no carriage return right before a line feed. */
  predicate Stays(sql: string, i: nat)
    requires i < |sql|
  {
    !(sql[i] == '\r' && i + 1 < |sql| && sql[i + 1] == '\n')
  }

  /** The text that stands for the digest is the file's, less every carriage return right before a line feed. */
  lemma {:induction false} ChecksumKeeps(sql: string) returns (at: seq<nat>)
    ensures Picks(sql, at, Checksum(sql))
    ensures forall i | 0 <= i < |sql| :: i in at <==> Stays(sql, i)
  {
    if |sql| < 2 {
      at := seq(|sql|, i => i);
      assert forall i | 0 <= i < |sql| :: at[i] == i;
    } else {
      var two := sql[0] == '\r' && sql[1] == '\n';
      var rest, from := [], sql[1..];
      if two {
        var later := ChecksumKeeps(sql[2..]);
        rest := [0] + seq(|later|, j requires 0 <= j < |later| => later[j] + 1);
        SkippedOne(sql, later, rest);
      } else {
        rest := ChecksumKeeps(sql[1..]);
      }
      var moved := seq(|rest|, j requires 0 <= j < |rest| => rest[j] + 1);
      at := (if two then [] else [0]) + moved;
      assert sql == [sql[0]] + sql[1..];
      LaterBy(sql[0], sql[1..], rest, moved, if two then "\n" + Checksum(sql[2..]) else Checksum(sql[1..]), !two);
      LaterMembers(rest, moved, at, !two);
      forall i | 0 < i < |sql| ensures i in at <==> Stays(sql, i) { assert Stays(sql[1..], i - 1) <==> Stays(sql, i); }
    }
  }

  /** After a carriage return and a line feed: the line feed stays, then what stays of the rest. */
  lemma SkippedOne(sql: string, later: seq<nat>, rest: seq<nat>)
    requires |sql| >= 2 && sql[0] == '\r' && sql[1] == '\n'
    requires Picks(sql[2..], later, Checksum(sql[2..]))
    requires forall i | 0 <= i < |sql[2..]| :: i in later <==> Stays(sql[2..], i)
    requires rest == [0] + seq(|later|, j requires 0 <= j < |later| => later[j] + 1)
    ensures Picks(sql[1..], rest, "\n" + Checksum(sql[2..]))
    ensures forall i | 0 <= i < |sql[1..]| :: i in rest <==> Stays(sql[1..], i)
  {
    var moved := seq(|later|, j requires 0 <= j < |later| => later[j] + 1);
    assert sql[1..] == [sql[1]] + sql[2..];
    LaterBy(sql[1], sql[2..], later, moved, Checksum(sql[2..]), true);
    LaterMembers(later, moved, rest, true);
    forall i | 0 < i < |sql[1..]| ensures i in rest <==> Stays(sql[1..], i) {
      assert Stays(sql[2..], i - 1) <==> Stays(sql[1..], i);
    }
  }

  /** `t` is the text without the carriage returns of its line ends. */
  ghost predicate ReadsAs(sql: string, t: string) {
    exists at :: Picks(sql, at, t) && forall i | 0 <= i < |sql| :: i in at <==> Stays(sql, i)
  }

  lemma ReadsAsOne(sql: string, t: string)
    ensures ReadsAs(sql, t) <==> t == Checksum(sql)
  {
    var at := ChecksumKeeps(sql);
    if bt :| Picks(sql, bt, t) && forall i | 0 <= i < |sql| :: i in bt <==> Stays(sql, i) {
      forall k: nat ensures k in at <==> k in bt {
        if k in at { assert k < |sql|; }
        if k in bt { assert k < |sql|; }
      }
      SameIncreasing(at, bt);
      assert |t| == |Checksum(sql)|;
      assert forall j | 0 <= j < |t| :: t[j] == sql[at[j]] == Checksum(sql)[j];
    }
  }

  /** Two texts have one digest exactly if they are the same up to the carriage returns of their line ends. */
  lemma SameDigest(a: string, b: string)
    ensures Checksum(a) == Checksum(b) <==> exists t :: ReadsAs(a, t) && ReadsAs(b, t)
  {
    ReadsAsOne(a, Checksum(a));
    ReadsAsOne(b, Checksum(a));
    if t :| ReadsAs(a, t) && ReadsAs(b, t) {
      ReadsAsOne(a, t);
      ReadsAsOne(b, t);
    }
  }

  /** The file has never been recorded, or the run is forced and its text differs from the recorded one. */
  predicate Wanted(applied: Record, f: File, force: bool) {
    f.name !in applied || (force && applied[f.name] != Checksum(f.sql))
  }

  function WantedSql(applied: Record, files: seq<File>, force: bool): seq<string> {
    if files == [] then []
    else
      var f := files[|files| - 1];
      WantedSql(applied, files[..|files| - 1], force) + if Wanted(applied, f, force) then [f.sql] else []
  }

  lemma {:induction false} WantedIsPending(db: Db, files: seq<File>, force: bool)
    ensures PendingSql(db, files, force) == WantedSql(db.applied, files, force)
    decreases |files|
  {
    if files != [] { WantedIsPending(db, files[..|files| - 1], force); }
  }

  /** What is on record of a file after all files were brought up to date. */
  lemma {:induction false} RecordedAfter(db: Db, files: seq<File>, force: bool, f: File)
    requires DistinctNames(files) && f in files
    ensures var after := Finish(db, files, force).applied;
      && f.name in after
      && after[f.name] == if Wanted(db.applied, f, force) then Checksum(f.sql) else db.applied[f.name]
    decreases |files|
  {
    var n := |files| - 1;
    assert files == files[..n] + [files[n]];
    if f == files[n] {
      StillPending(db, files, n, force);
      FinishLeavesOthers(db, files[..n], force, f.name);
    } else {
      assert f in files[..n] && files[n].name != f.name;
      RecordedAfter(db, files[..n], force, f);
    }
  }

  /**
    However a run ends, what it added is the SQL of exactly those of some first files that were wanted, in order. If it
    reports success these are all wanted files, every file is on record, under its own text if it was wanted and as it
    was otherwise; no other record has changed. A run in which nothing fails reports success.
   */
  lemma RunExecutes(db: Db, files: seq<File>, force: bool, outcomes: seq<Outcome>) returns (done: nat)
    requires DistinctNames(files)
    ensures done <= |files|
    ensures var (after, ok) := RunOf(db, files, force, outcomes);
      && after.committed == db.committed + WantedSql(db.applied, files[..done], force)
      && (outcomes == [] ==> ok)
      && (ok ==> done == |files| && after.committed == db.committed + WantedSql(db.applied, files, force))
      && (ok ==> forall f | f in files ::
            && f.name in after.applied
            && after.applied[f.name] ==
                 if Wanted(db.applied, f, force) then Checksum(f.sql) else db.applied[f.name])
      && forall name | forall f | f in files :: f.name != name ::
           (name in after.applied <==> name in db.applied)
           && (name in db.applied ==> after.applied[name] == db.applied[name])
  {
    done := RunFinishesSomeFiles(db, files, force, PlanOf(files, db.applied, force), 0, outcomes);
    FinishExecutesPending(db, files[..done], force);
    WantedIsPending(db, files[..done], force);
    if outcomes == [] { WholeRun(db, files, force); }
    var (after, ok) := RunOf(db, files, force, outcomes);
    if ok {
      assert files[..|files|] == files;
      forall f | f in files
        ensures f.name in after.applied
          && after.applied[f.name] == if Wanted(db.applied, f, force) then Checksum(f.sql) else db.applied[f.name]
      {
        RecordedAfter(db, files, force, f);
      }
    }
    forall name | forall f | f in files :: f.name != name
      ensures (name in after.applied <==> name in db.applied)
        && (name in db.applied ==> after.applied[name] == db.applied[name])
    {
      FinishLeavesOthers(db, files[..done], force, name);
    }
  }
}
