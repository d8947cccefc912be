/**
 On every run of journal commands and snapshot jobs, the accounting rows, current and archived, mirror
 the journal, and the rows of a snapshotted month never change.
 */
module JournalTheorems {
  import opened Basics
  import opened Journal

  // ---------- Rows of one log ----------

  function RowsOf(rows: seq<Row>, id: nat): seq<Row> {
    if rows == [] then []
    else (if rows[0].log == id then [rows[0]] else []) + RowsOf(rows[1..], id)
  }

  lemma {:induction false} RowsOfAppend(a: seq<Row>, b: seq<Row>, id: nat)
    ensures RowsOf(a + b, id) == RowsOf(a, id) + RowsOf(b, id)
  {
    if a == [] {
      assert a + b == b;
    } else {
      RowsOfAppend(a[1..], b, id);
      ConcatTail(a, b);
      ConcatAssociative(if a[0].log == id then [a[0]] else [], RowsOf(a[1..], id), RowsOf(b, id));
    }
  }

  lemma {:induction false} RowsOfWithout(rows: seq<Row>, id: nat, other: nat)
    ensures RowsOf(WithoutLog(rows, id), other) == if other == id then [] else RowsOf(rows, other)
  {
    if rows != [] {
      RowsOfWithout(rows[1..], id, other);
      RowsOfAppend(if rows[0].log == id then [] else [rows[0]], WithoutLog(rows[1..], id), other);
    }
  }

  lemma {:induction false} RowInRowsOf(rows: seq<Row>, row: Row)
    requires row in rows
    ensures row in RowsOf(rows, row.log)
  {
    if row != rows[0] {
      RowInRowsOf(rows[1..], row);
    }
  }

  lemma {:induction false} RowsOfIn(rows: seq<Row>, id: nat, row: Row)
    requires row in RowsOf(rows, id)
    ensures row in rows && row.log == id
  {
    if rows[0].log != id || row != rows[0] {
      RowsOfIn(rows[1..], id, row);
    }
  }

  // Splitting rows by a period moves the single row of a log to one side or the other.
  lemma {:induction false} RowsOfSplit(rows: seq<Row>, p: Period, id: nat)
    requires |RowsOf(rows, id)| <= 1
    ensures RowsOf(RowsOutside(rows, p), id) + RowsOf(RowsIn(rows, p), id) == RowsOf(rows, id)
  {
    if rows != [] {
      RowsOfSplit(rows[1..], p, id);
      var outside := if InPeriod(rows[0], p) then [] else [rows[0]];
      var inside := if InPeriod(rows[0], p) then [rows[0]] else [];
      RowsOfAppend(outside, RowsOutside(rows[1..], p), id);
      RowsOfAppend(inside, RowsIn(rows[1..], p), id);
    }
  }

  // ---------- The mirror ----------

  // The one row a live log with an expense has, and no other log.
  function ExpectedRows(id: nat, log: Log): seq<Row> {
    if !log.deleted && log.amount.Some? && log.title.Some? then [RowFor(id, log)] else []
  }

  ghost predicate LogKept(log: Log, titles: seq<Title>) {
    && TrimOptional(log.description) == log.description
    && (log.amount.Some? <==> log.title.Some?)
    && (log.title.Some? ==> log.title.value in titles)
  }

  ghost predicate UniqueTitles(titles: seq<Title>) {
    forall t, u | t in titles && u in titles && t.id == u.id :: t == u
  }

  ghost predicate LogsKept(logs: seq<Log>, titles: seq<Title>) {
    forall log | log in logs :: LogKept(log, titles)
  }

  // A row belongs to a log, and is in the archive exactly when its month is snapshotted.
  ghost predicate Placed(rows: seq<Row>, logs: nat, snapshots: set<Period>, archived: bool) {
    forall row | row in rows :: row.log < logs && (Period(row.property, row.month) in snapshots <==> archived)
  }

  ghost predicate HasItsRow(j: Journal, id: nat, log: Log) {
    RowsOf(j.rows, id) + RowsOf(j.archive, id) == ExpectedRows(id, log)
  }

  ghost predicate AllHaveTheirRow(j: Journal) {
    forall id: nat | id < |j.logs| :: HasItsRow(j, id, j.logs[id])
  }

  ghost predicate Mirrors(j: Journal) {
    && UniqueTitles(j.titles)
    && LogsKept(j.logs, j.titles)
    && Placed(j.rows, |j.logs|, j.snapshots, false)
    && Placed(j.archive, |j.logs|, j.snapshots, true)
    && AllHaveTheirRow(j)
  }

  lemma EmptyJournalMirrors(titles: seq<Title>, properties: set<nat>, rooms: map<nat, nat>, accounts: set<nat>)
    requires UniqueTitles(titles)
    ensures Mirrors(Journal([], [], [], {}, titles, properties, rooms, accounts))
  {
  }

  // Where the row of a log is: in the archive exactly when its month is snapshotted.
  lemma MirrorSplits(j: Journal, id: nat)
    requires Mirrors(j) && id < |j.logs|
    ensures PeriodOf(j.logs[id]) !in j.snapshots ==>
            RowsOf(j.archive, id) == [] && RowsOf(j.rows, id) == ExpectedRows(id, j.logs[id])
    ensures PeriodOf(j.logs[id]) in j.snapshots ==>
            RowsOf(j.rows, id) == [] && RowsOf(j.archive, id) == ExpectedRows(id, j.logs[id])
  {
    hide AccountingMonth, TaipeiDate, LogsKept, UniqueTitles, RowsOf;
    var current, archived := RowsOf(j.rows, id), RowsOf(j.archive, id);
    assert HasItsRow(j, id, j.logs[id]);
    assert current + archived == ExpectedRows(id, j.logs[id]);
    if archived != [] {
      RowsOfIn(j.archive, id, archived[0]);
      assert (current + archived)[|current|] == archived[0];
    }
    if current != [] {
      RowsOfIn(j.rows, id, current[0]);
      assert (current + archived)[0] == current[0];
    }
  }

  // ---------- Every command keeps the mirror ----------

  lemma CreateKeepsMirror(j: Journal, input: CreateInput)
    requires Mirrors(j) && Created(j, input).Success?
    ensures Mirrors(Created(j, input).value)
  {
    hide *;
    var log := CreatedLog(j, input);
    AddedLogKeepsMirror(j, log);
  }

  lemma CreatedLog(j: Journal, input: CreateInput) returns (log: Log)
    requires Created(j, input).Success?
    ensures LogKept(log, j.titles)
    ensures ExpectedRows(|j.logs|, log) != [] ==> PeriodOf(log) !in j.snapshots
    ensures Created(j, input).value
         == j.(logs := j.logs + [log], rows := j.rows + ExpectedRows(|j.logs|, log))
  {
    hide AccountingMonth, TaipeiDate, TrimSpace, UniqueTitles;
    TrimOptionalIdempotent(input.description);
    var after := Created(j, input).value;
    log := after.logs[|j.logs|];
    assert j.rows + [] == j.rows;
  }

  lemma AddedLogKeepsMirror(j: Journal, log: Log)
    requires Mirrors(j) && LogKept(log, j.titles)
    requires ExpectedRows(|j.logs|, log) != [] ==> PeriodOf(log) !in j.snapshots
    ensures Mirrors(j.(logs := j.logs + [log], rows := j.rows + ExpectedRows(|j.logs|, log)))
  {
    hide RowsOf, ExpectedRows, LogKept, UniqueTitles, Placed, HasItsRow, PeriodOf;
    var n := |j.logs|;
    ExpectedIsPlaced(n, log, n + 1, j.snapshots);
    PlacedAppend(j.rows, ExpectedRows(n, log), n + 1, j.snapshots, false);
    PlacedAmongMore(j.rows, n, j.snapshots, false);
    PlacedAmongMore(j.archive, n, j.snapshots, true);
    var after, logs := j.(rows := j.rows + ExpectedRows(n, log)), j.logs + [log];
    forall id: nat | id <= n
      ensures HasItsRow(after, id, logs[id])
    {
      AddedRow(j, log, id);
    }
    SameRowsHaveThem(after, logs);
  }

  lemma SameRowsHaveThem(j: Journal, logs: seq<Log>)
    requires forall id: nat | id < |logs| :: HasItsRow(j, id, logs[id])
    ensures AllHaveTheirRow(j.(logs := logs))
  {
    hide RowsOf, ExpectedRows;
  }

  lemma AddedRow(j: Journal, log: Log, id: nat)
    requires Placed(j.rows, |j.logs|, j.snapshots, false) && Placed(j.archive, |j.logs|, j.snapshots, true)
    requires id <= |j.logs| && (id < |j.logs| ==> HasItsRow(j, id, j.logs[id]))
    ensures HasItsRow(j.(rows := j.rows + ExpectedRows(|j.logs|, log)), id, (j.logs + [log])[id])
  {
    hide ExpectedRows, RowsOf;
    var n := |j.logs|;
    RowsOfAppend(j.rows, ExpectedRows(n, log), id);
    RowsOfExpected(n, log, id);
    if id == n {
      NoRowsOfNewLog(j.rows, n);
      NoRowsOfNewLog(j.archive, n);
    }
  }

  lemma RowsOfExpected(id: nat, log: Log, other: nat)
    ensures RowsOf(ExpectedRows(id, log), other) == if other == id then ExpectedRows(id, log) else []
  {
    hide AccountingMonth, TaipeiDate;
  }

  lemma ExpectedIsPlaced(id: nat, log: Log, logs: nat, snapshots: set<Period>)
    requires id < logs && (ExpectedRows(id, log) != [] ==> PeriodOf(log) !in snapshots)
    ensures Placed(ExpectedRows(id, log), logs, snapshots, false)
  {
    hide AccountingMonth, TaipeiDate;
  }

  lemma PlacedAppend(a: seq<Row>, b: seq<Row>, logs: nat, snapshots: set<Period>, archived: bool)
    requires Placed(b, logs, snapshots, archived)
    ensures Placed(a, logs, snapshots, archived) ==> Placed(a + b, logs, snapshots, archived)
  {
  }

  lemma PlacedAmongMore(rows: seq<Row>, logs: nat, snapshots: set<Period>, archived: bool)
    requires Placed(rows, logs, snapshots, archived)
    ensures Placed(rows, logs + 1, snapshots, archived)
  {
  }

  lemma {:induction false} NoRowsOfNewLog(rows: seq<Row>, n: nat)
    requires forall row | row in rows :: row.log < n
    ensures RowsOf(rows, n) == []
  {
    if rows != [] {
      NoRowsOfNewLog(rows[1..], n);
    }
  }

  lemma {:induction false} WithoutLogIn(rows: seq<Row>, id: nat, row: Row)
    ensures row in WithoutLog(rows, id) ==> row in rows
  {
    if rows != [] {
      WithoutLogIn(rows[1..], id, row);
    }
  }

  lemma WithoutLogPlaced(rows: seq<Row>, id: nat, logs: nat, snapshots: set<Period>)
    requires Placed(rows, logs, snapshots, false)
    ensures Placed(WithoutLog(rows, id), logs, snapshots, false)
  {
    hide WithoutLog;
    forall row {
      WithoutLogIn(rows, id, row);
    }
  }

  // Rewriting the row of a log whose month is open keeps the mirror.
  lemma RewriteKeepsMirror(j: Journal, id: nat, log: Log)
    requires Mirrors(j) && id < |j.logs|
    requires PeriodOf(j.logs[id]) !in j.snapshots
    requires PeriodOf(log) == PeriodOf(j.logs[id]) && LogKept(log, j.titles)
    ensures Mirrors(j.(logs := j.logs[id := log], rows := WithoutLog(j.rows, id) + ExpectedRows(id, log)))
  {
    MirrorSplits(j, id);
    hide WithoutLog, RowsOf, ExpectedRows, LogKept, UniqueTitles, Placed, HasItsRow, PeriodOf;
    WithoutLogPlaced(j.rows, id, |j.logs|, j.snapshots);
    ExpectedIsPlaced(id, log, |j.logs|, j.snapshots);
    PlacedAppend(WithoutLog(j.rows, id), ExpectedRows(id, log), |j.logs|, j.snapshots, false);
    var after, logs := j.(rows := WithoutLog(j.rows, id) + ExpectedRows(id, log)), j.logs[id := log];
    forall other: nat | other < |j.logs|
      ensures HasItsRow(after, other, logs[other])
    {
      RewrittenRow(j, id, log, other);
    }
    SameRowsHaveThem(after, logs);
  }

  lemma RewrittenRow(j: Journal, id: nat, log: Log, other: nat)
    requires id < |j.logs| && other < |j.logs| && HasItsRow(j, other, j.logs[other])
    requires RowsOf(j.archive, id) == []
    ensures HasItsRow(j.(rows := WithoutLog(j.rows, id) + ExpectedRows(id, log)), other, j.logs[id := log][other])
  {
    hide WithoutLog, RowsOf, ExpectedRows;
    RowsOfAppend(WithoutLog(j.rows, id), ExpectedRows(id, log), other);
    RowsOfExpected(id, log, other);
    RowsOfWithout(j.rows, id, other);
  }

  // Replacing a log without changing what its row says keeps the mirror.
  lemma SameRowKeepsMirror(j: Journal, id: nat, log: Log)
    requires Mirrors(j) && id < |j.logs|
    requires ExpectedRows(id, log) == ExpectedRows(id, j.logs[id]) && LogKept(log, j.titles)
    ensures Mirrors(j.(logs := j.logs[id := log]))
  {
    hide RowsOf, ExpectedRows, LogKept, Placed, UniqueTitles;
    var logs := j.logs[id := log];
    forall other: nat | other < |j.logs|
      ensures HasItsRow(j, other, logs[other])
    {
      assert HasItsRow(j, other, j.logs[other]);
    }
    SameRowsHaveThem(j, logs);
  }

  lemma UpdateKeepsMirror(j: Journal, id: nat, input: UpdateInput)
    requires Mirrors(j) && Updated(j, id, input).Success?
    ensures Mirrors(Updated(j, id, input).value)
  {
    hide AccountingMonth, TaipeiDate, TrimSpace, Placed, AllHaveTheirRow, WithoutLog;
    var after := Updated(j, id, input).value;
    var current, log := j.logs[id], after.logs[id];
    assert current in j.logs;
    TrimOptionalIdempotent(if input.description.Some? then input.description else current.description);
    assert LogKept(log, j.titles);
    if AccountingChanges(current, log.amount, log.description, log.title) {
      assert after == j.(logs := j.logs[id := log], rows := WithoutLog(j.rows, id) + ExpectedRows(id, log));
      RewriteKeepsMirror(j, id, log);
    } else {
      assert after == j.(logs := j.logs[id := log]);
      assert current.title == log.title;
      SameRowKeepsMirror(j, id, log);
    }
  }

  lemma DeleteKeepsMirror(j: Journal, id: nat)
    requires Mirrors(j) && Deleted(j, id).Success?
    ensures Mirrors(Deleted(j, id).value)
  {
    hide AccountingMonth, TaipeiDate, TrimSpace, TrimOptional, Placed, AllHaveTheirRow, WithoutLog;
    var current := j.logs[id];
    var log := current.(deleted := true);
    assert current in j.logs;
    if current.amount.Some? {
      assert Deleted(j, id).value
          == j.(logs := j.logs[id := log], rows := WithoutLog(j.rows, id) + ExpectedRows(id, log));
      RewriteKeepsMirror(j, id, log);
    } else {
      SameRowKeepsMirror(j, id, log);
    }
  }

  lemma {:induction false} PartitionIn(rows: seq<Row>, p: Period, row: Row)
    ensures row in RowsIn(rows, p) <==> row in rows && InPeriod(row, p)
    ensures row in RowsOutside(rows, p) <==> row in rows && !InPeriod(row, p)
  {
    if rows != [] {
      PartitionIn(rows[1..], p, row);
    }
  }

  lemma SnapshotKeepsMirror(j: Journal, p: Period)
    requires Mirrors(j)
    ensures Mirrors(Snapshotted(j, p))
  {
    hide RowsOf, ExpectedRows, LogKept, UniqueTitles, Placed, HasItsRow, RowsIn, RowsOutside;
    var after := Snapshotted(j, p);
    if after != j {
      SnapshotPlaces(j, p);
      forall id: nat | id < |j.logs|
        ensures HasItsRow(after, id, j.logs[id])
      {
        SnapshottedRow(j, p, id);
      }
      SameRowsHaveThem(after, j.logs);
    }
  }

  lemma SnapshotPlaces(j: Journal, p: Period)
    requires Placed(j.rows, |j.logs|, j.snapshots, false) && Placed(j.archive, |j.logs|, j.snapshots, true)
    ensures Placed(RowsOutside(j.rows, p), |j.logs|, j.snapshots + {p}, false)
    ensures Placed(j.archive + RowsIn(j.rows, p), |j.logs|, j.snapshots + {p}, true)
  {
    hide RowsIn, RowsOutside;
    forall row {
      PartitionIn(j.rows, p, row);
    }
  }

  lemma SnapshottedRow(j: Journal, p: Period, id: nat)
    requires id < |j.logs| && HasItsRow(j, id, j.logs[id])
    ensures HasItsRow(Snapshotted(j, p), id, j.logs[id])
  {
    hide RowsOf, RowsIn, RowsOutside, RowFor;
    if Snapshotted(j, p) != j {
      RowsOfAppend(j.archive, RowsIn(j.rows, p), id);
      RowsOfSplit(j.rows, p, id);
      AtMostOne(RowsOf(j.rows, id), RowsOf(j.archive, id), RowsOf(RowsOutside(j.rows, p), id),
                RowsOf(RowsIn(j.rows, p), id));
    }
  }

  lemma AtMostOne(rows: seq<Row>, archive: seq<Row>, outside: seq<Row>, inside: seq<Row>)
    requires |rows + archive| <= 1 && outside + inside == rows
    ensures outside + (archive + inside) == rows + archive
  {
  }

  // ---------- Runs ----------

  datatype Step =
    | CreateLog(create: CreateInput)
    | UpdateLog(id: nat, update: UpdateInput)
    | DeleteLog(id: nat)
    | SnapshotJobRun(properties: seq<nat>, month: int)

  // A refused command leaves the journal as it was.
  function AfterStep(j: Journal, step: Step): Journal {
    match step
    case CreateLog(input) => if Created(j, input).Success? then Created(j, input).value else j
    case UpdateLog(id, input) => if Updated(j, id, input).Success? then Updated(j, id, input).value else j
    case DeleteLog(id) => if Deleted(j, id).Success? then Deleted(j, id).value else j
    case SnapshotJobRun(properties, month) => SnapshotJob(j, properties, month).journal
  }

  function Run(j: Journal, steps: seq<Step>): Journal
    decreases |steps|
  {
    if steps == [] then j else Run(AfterStep(j, steps[0]), steps[1..])
  }

  lemma {:induction false} JobKeepsMirror(j: Journal, properties: seq<nat>, month: int)
    requires Mirrors(j)
    ensures Mirrors(SnapshotJob(j, properties, month).journal)
  {
    hide Mirrors;
    if properties != [] {
      var n := |properties| - 1;
      JobKeepsMirror(j, properties[..n], month);
      SnapshotKeepsMirror(SnapshotJob(j, properties[..n], month).journal, Period(properties[n], month));
    }
  }

  // In every reachable state a live log has exactly one row, current or archived, if it has an expense,
  // and none otherwise, and the row carries the log's amount, description, title and Taipei month.
  lemma {:induction false} RunKeepsMirror(j: Journal, steps: seq<Step>)
    requires Mirrors(j)
    ensures Mirrors(Run(j, steps))
    decreases |steps|
  {
    if steps != [] {
      hide Mirrors, Created, Updated, Deleted, SnapshotJob;
      match steps[0] {
        case CreateLog(input) =>
          if Created(j, input).Success? {
            CreateKeepsMirror(j, input);
          }
        case UpdateLog(id, input) =>
          if Updated(j, id, input).Success? {
            UpdateKeepsMirror(j, id, input);
          }
        case DeleteLog(id) =>
          if Deleted(j, id).Success? {
            DeleteKeepsMirror(j, id);
          }
        case SnapshotJobRun(properties, month) =>
          JobKeepsMirror(j, properties, month);
      }
      RunKeepsMirror(AfterStep(j, steps[0]), steps[1..]);
    }
  }

  // ---------- Frozen months ----------

  // The month is closed, no current row is left in it, and its archived rows are exactly these.
  ghost predicate FrozenAs(j: Journal, p: Period, rows: seq<Row>) {
    p in j.snapshots && RowsIn(j.rows, p) == [] && RowsIn(j.archive, p) == rows
  }

  lemma {:induction false} RowsInAppend(a: seq<Row>, b: seq<Row>, p: Period)
    ensures RowsIn(a + b, p) == RowsIn(a, p) + RowsIn(b, p)
  {
    if a == [] {
      assert a + b == b;
    } else {
      RowsInAppend(a[1..], b, p);
      ConcatTail(a, b);
      ConcatAssociative(if InPeriod(a[0], p) then [a[0]] else [], RowsIn(a[1..], p), RowsIn(b, p));
    }
  }

  lemma {:induction false} RowsInNone(rows: seq<Row>, p: Period)
    ensures RowsIn(rows, p) == [] <==> forall row | row in rows :: !InPeriod(row, p)
  {
    if rows != [] {
      RowsInNone(rows[1..], p);
      assert rows == [rows[0]] + rows[1..];
    }
  }

  lemma RowsInRowsIn(rows: seq<Row>, p: Period, q: Period)
    requires p != q
    ensures RowsIn(RowsIn(rows, q), p) == []
  {
    forall row {
      PartitionIn(rows, q, row);
    }
    RowsInNone(RowsIn(rows, q), p);
  }

  lemma SnapshotKeepsFrozen(j: Journal, q: Period, p: Period, rows: seq<Row>)
    requires FrozenAs(j, p, rows)
    ensures FrozenAs(Snapshotted(j, q), p, rows)
  {
    if Snapshotted(j, q) != j {
      RowsInRowsIn(j.rows, p, q);
      RowsInAppend(j.archive, RowsIn(j.rows, q), p);
      RowsInNone(j.rows, p);
      forall row {
        PartitionIn(j.rows, q, row);
      }
      RowsInNone(RowsOutside(j.rows, q), p);
    }
  }

  lemma {:induction false} JobKeepsFrozen(j: Journal, properties: seq<nat>, month: int, p: Period, rows: seq<Row>)
    requires FrozenAs(j, p, rows)
    ensures FrozenAs(SnapshotJob(j, properties, month).journal, p, rows)
  {
    hide FrozenAs;
    if properties != [] {
      var n := |properties| - 1;
      JobKeepsFrozen(j, properties[..n], month, p, rows);
      SnapshotKeepsFrozen(SnapshotJob(j, properties[..n], month).journal, Period(properties[n], month), p, rows);
    }
  }

  // A step that only drops rows, or adds rows of other months, leaves a closed month as it is.
  lemma KeptFrozen(j: Journal, after: Journal, p: Period, rows: seq<Row>)
    requires FrozenAs(j, p, rows)
    requires after.archive == j.archive && after.snapshots == j.snapshots
    requires forall row | row in after.rows :: row in j.rows || !InPeriod(row, p)
    ensures FrozenAs(after, p, rows)
  {
    RowsInNone(j.rows, p);
    RowsInNone(after.rows, p);
  }

  // No command writes a row of a closed month, and none touches the archive.
  lemma CommandsKeepFrozen(j: Journal, step: Step, p: Period, rows: seq<Row>)
    requires !step.SnapshotJobRun?
    requires FrozenAs(j, p, rows)
    ensures FrozenAs(AfterStep(j, step), p, rows)
  {
    hide *;
    var after := AfterStep(j, step);
    CommandsKeepArchive(j, step);
    forall row | row in after.rows
      ensures row in j.rows || !InPeriod(row, p)
    {
      NewRowIsOpen(j, step, row);
      if row !in j.rows {
        ClosedPeriod(j, p, rows, row);
      }
    }
    KeptFrozen(j, after, p, rows);
  }

  lemma CommandsKeepArchive(j: Journal, step: Step)
    requires !step.SnapshotJobRun?
    ensures AfterStep(j, step).archive == j.archive && AfterStep(j, step).snapshots == j.snapshots
  {
    hide WithoutLog, RowFor, PeriodOf, TrimSpace, TrimOptional, ResolvedTitle, AccountingChanges;
  }

  lemma NewRowIsOpen(j: Journal, step: Step, row: Row)
    requires !step.SnapshotJobRun? && row in AfterStep(j, step).rows
    ensures row in j.rows || Period(row.property, row.month) !in j.snapshots
  {
    hide WithoutLog, AccountingMonth, TaipeiDate, TrimSpace, TrimOptional, ResolvedTitle, AccountingChanges;
    if step.UpdateLog? || step.DeleteLog? {
      WithoutLogIn(j.rows, step.id, row);
    }
  }

  lemma ClosedPeriod(j: Journal, p: Period, rows: seq<Row>, row: Row)
    requires FrozenAs(j, p, rows) && Period(row.property, row.month) !in j.snapshots
    ensures !InPeriod(row, p)
  {
  }

  // Once a month is closed, no run of commands and snapshot jobs changes its rows.
  lemma {:induction false} FrozenMonthStaysFrozen(j: Journal, steps: seq<Step>, p: Period, rows: seq<Row>)
    requires FrozenAs(j, p, rows)
    ensures FrozenAs(Run(j, steps), p, rows)
    decreases |steps|
  {
    if steps != [] {
      hide FrozenAs, Created, Updated, Deleted, SnapshotJob;
      match steps[0] {
        case SnapshotJobRun(properties, month) => JobKeepsFrozen(j, properties, month, p, rows);
        case _ => CommandsKeepFrozen(j, steps[0], p, rows);
      }
      FrozenMonthStaysFrozen(AfterStep(j, steps[0]), steps[1..], p, rows);
    }
  }

  // Taking a snapshot closes the month with exactly the rows it had, current and archived.
  lemma SnapshotFreezes(j: Journal, p: Period)
    requires Mirrors(j) && p.property in j.accounts
    ensures FrozenAs(Snapshotted(j, p), p, RowsIn(j.archive, p) + (if p in j.snapshots then [] else RowsIn(j.rows, p)))
  {
    RowsInNone(j.rows, p);
    if p !in j.snapshots {
      RowsInAppend(j.archive, RowsIn(j.rows, p), p);
      RowsInTwice(j.rows, p);
      forall row {
        PartitionIn(j.rows, p, row);
      }
      RowsInNone(RowsOutside(j.rows, p), p);
    }
  }

  lemma {:induction false} RowsInTwice(rows: seq<Row>, p: Period)
    ensures RowsIn(RowsIn(rows, p), p) == RowsIn(rows, p)
  {
    if rows != [] {
      RowsInTwice(rows[1..], p);
      RowsInAppend(if InPeriod(rows[0], p) then [rows[0]] else [], RowsIn(rows[1..], p), p);
    }
  }

  // Rerunning the job for the same month changes nothing and processes nothing.
  lemma {:induction false} RerunChangesNothing(j: Journal, properties: seq<nat>, month: int)
    requires forall n: nat | n in properties :: Period(n, month) in j.snapshots || n !in j.accounts
    ensures SnapshotJob(j, properties, month).journal == j
    ensures SnapshotJob(j, properties, month).summary.processed == 0
  {
    if properties != [] {
      RerunChangesNothing(j, properties[..|properties| - 1], month);
    }
  }

  lemma {:induction false} JobClosesMonth(j: Journal, properties: seq<nat>, month: int)
    ensures var after := SnapshotJob(j, properties, month).journal;
            && after.accounts == j.accounts
            && j.snapshots <= after.snapshots
            && (forall n: nat | n in properties :: Period(n, month) in after.snapshots || n !in after.accounts)
    ensures var s := SnapshotJob(j, properties, month).summary;
            s.processed + s.skipped + s.failed == |properties|
  {
    if properties != [] {
      JobClosesMonth(j, properties[..|properties| - 1], month);
    }
  }
}
