/**
 internal/domain/journal, internal/application/journal and the monthly snapshot step of
 internal/application/jobs/batch.go: journal logs, the accounting row of every expense, and the snapshot
 that moves a month's rows into an archive.
 */
module Journal {
  import opened Basics
  import opened Calendar

  // ---------- Records ----------

  datatype Title = Title(id: nat, code: string, name: string)

  datatype Log = Log(
    property: nat,
    room: Option<nat>,
    author: nat,
    content: string,
    amount: Option<int>,
    description: Option<string>,
    title: Option<Title>,
    createdAt: int,
    deleted: bool)

  // A journal_expense row; year and month are one month index.
  datatype Row = Row(log: nat, property: nat, titleCode: string, amount: int, description: Option<string>, month: int,
      sourceDate: Day)

  // One property's month.
  datatype Period = Period(property: nat, month: int)

  // A log is identified by its position. Titles are the active expense titles.
  datatype Journal = Journal(
    logs: seq<Log>,
    rows: seq<Row>,
    archive: seq<Row>,
    snapshots: set<Period>,
    titles: seq<Title>,
    properties: set<nat>,
    rooms: map<nat, nat>,
    accounts: set<nat>)

  datatype JournalError =
    | BadRequest(field: string)
    | ContentRequired
    | LogNotFound
    | PropertyNotFound
    | RoomNotFound
    | TitleNotFound
    | PropertyAccountNotFound
    | SnapshotFinalized

  const DEFAULT_TITLE_CODE := "6681"
  const UNIX_EPOCH: Day := 719162
  const TAIPEI_OFFSET := 8 * 60 * 60
  const SECONDS_PER_DAY := 24 * 60 * 60

  // An instant is counted in seconds since 1970-01-01 UTC.
  function TaipeiDate(instant: int): Day {
    UNIX_EPOCH + (instant + TAIPEI_OFFSET) / SECONDS_PER_DAY
  }

  function AccountingMonth(instant: int): int {
    MonthOf(TaipeiDate(instant))
  }

  function PeriodOf(log: Log): Period {
    Period(log.property, AccountingMonth(log.createdAt))
  }

  // The accounting row of a log with an expense.
  function RowFor(id: nat, log: Log): Row
    requires log.amount.Some? && log.title.Some?
  {
    Row(id, log.property, log.title.value.code, log.amount.value, log.description, AccountingMonth(log.createdAt),
        TaipeiDate(log.createdAt))
  }

  // ---------- Titles ----------

  function FindTitle(titles: seq<Title>, id: nat): (title: Option<Title>)
    ensures title.Some? ==> title.value in titles && title.value.id == id
  {
    if titles == [] then None
    else if titles[0].id == id then Some(titles[0])
    else FindTitle(titles[1..], id)
  }

  function FindTitleByCode(titles: seq<Title>, code: string): (title: Option<Title>)
    ensures title.Some? ==> title.value in titles && title.value.code == code
    ensures title.None? ==> forall t | t in titles :: t.code != code
  {
    if titles == [] then None
    else if titles[0].code == code then Some(titles[0])
    else FindTitleByCode(titles[1..], code)
  }

  function ResolvedTitle(titles: seq<Title>, requested: Option<nat>, current: Option<Title>): Option<Title> {
    if requested.Some? then FindTitle(titles, requested.value)
    else if current.Some? then current
    else FindTitleByCode(titles, DEFAULT_TITLE_CODE)
  }

  // ---------- Rows ----------

  function WithoutLog(rows: seq<Row>, id: nat): seq<Row> {
    if rows == [] then []
    else (if rows[0].log == id then [] else [rows[0]]) + WithoutLog(rows[1..], id)
  }

  predicate InPeriod(row: Row, p: Period) {
    row.property == p.property && row.month == p.month
  }

  function RowsIn(rows: seq<Row>, p: Period): seq<Row> {
    if rows == [] then []
    else (if InPeriod(rows[0], p) then [rows[0]] else []) + RowsIn(rows[1..], p)
  }

  function RowsOutside(rows: seq<Row>, p: Period): seq<Row> {
    if rows == [] then []
    else (if InPeriod(rows[0], p) then [] else [rows[0]]) + RowsOutside(rows[1..], p)
  }

  // ---------- What each command does ----------

  datatype CreateInput = CreateInput(
    property: nat,
    room: Option<nat>,
    author: nat,
    content: string,
    amount: Option<int>,
    description: Option<string>,
    title: Option<nat>,
    now: int)

  function Created(j: Journal, input: CreateInput): Result<Journal, JournalError> {
    var content, description := TrimSpace(input.content), TrimOptional(input.description);
    if content == "" then Failure(ContentRequired)
    else if input.property !in j.properties then Failure(PropertyNotFound)
    else if input.room.Some? && input.room.value !in j.rooms then Failure(RoomNotFound)
    else if input.room.Some? && j.rooms[input.room.value] != input.property then Failure(BadRequest("room_id"))
    else
      var title := if input.amount.Some? then ResolvedTitle(j.titles, input.title, None) else None;
      var log := Log(input.property, input.room, input.author, content, input.amount, description, title, input.now,
          false);
      if input.amount.None? then Success(j.(logs := j.logs + [log]))
      else if title.None? then Failure(TitleNotFound)
      else if PeriodOf(log) in j.snapshots then Failure(SnapshotFinalized)
      else if input.property !in j.accounts then Failure(PropertyAccountNotFound)
      else Success(j.(logs := j.logs + [log], rows := j.rows + [RowFor(|j.logs|, log)]))
  }

  datatype UpdateInput = UpdateInput(
    content: Option<string>,
    amount: Option<int>,
    description: Option<string>,
    title: Option<nat>)

  // journalExpenseAccountingChanges: must the accounting row be written again?
  predicate AccountingChanges(current: Log, amount: Option<int>, description: Option<string>, title: Option<Title>) {
    if current.amount != amount || current.description != description then true
    else if amount.None? then false
    else (if current.title.Some? then Some(current.title.value.id) else None) != (if title.Some?
        then Some(title.value.id) else None)
  }

  function Synced(j: Journal, id: nat): Journal
    requires id < |j.logs|
  {
    var log := j.logs[id];
    j.(rows := WithoutLog(j.rows, id) + if log.amount.Some? && log.title.Some? then [RowFor(id, log)] else [])
  }

  function Updated(j: Journal, id: nat, input: UpdateInput): Result<Journal, JournalError> {
    if input.content.None? && input.amount.None? && input.description.None? && input.title.None?
        then Failure(BadRequest(""))
    else if id >= |j.logs| || j.logs[id].deleted then Failure(LogNotFound)
    else
      var current := j.logs[id];
      var content := TrimSpace(if input.content.Some? then input.content.value else current.content);
      var amount := if input.amount.Some? then input.amount else current.amount;
      var description := TrimOptional(if input.description.Some? then input.description else current.description);
      var title := if amount.Some? then ResolvedTitle(j.titles, input.title, current.title) else None;
      if TrimSpace(current.content) == "" || content == "" then Failure(ContentRequired)
      else if amount.Some? && title.None? then Failure(TitleNotFound)
      else if amount.None? && input.title.Some? then Failure(BadRequest("expense_accounting_title_id"))
      else
        var log := current.(content := content, amount := amount, description := description, title := title);
        var stored := j.(logs := j.logs[id := log]);
        if !AccountingChanges(current, amount, description, title) then Success(stored)
        else if PeriodOf(current) in j.snapshots then Failure(SnapshotFinalized)
        else if amount.Some? && current.property !in j.accounts then Failure(PropertyAccountNotFound)
        else Success(Synced(stored, id))
  }

  function Deleted(j: Journal, id: nat): Result<Journal, JournalError> {
    if id >= |j.logs| || j.logs[id].deleted then Failure(LogNotFound)
    else
      var current := j.logs[id];
      if current.amount.Some? && PeriodOf(current) in j.snapshots then Failure(SnapshotFinalized)
      else
        var stored := j.(logs := j.logs[id := current.(deleted := true)]);
        Success(if current.amount.Some? then stored.(rows := WithoutLog(j.rows, id)) else stored)
  }

  // CreateMonthlySnapshot moves the rows of the month into the archive.
  function Snapshotted(j: Journal, p: Period): Journal {
    if p in j.snapshots || p.property !in j.accounts then j
    else j.(rows := RowsOutside(j.rows, p), archive := j.archive + RowsIn(j.rows, p), snapshots := j.snapshots + {p})
  }

  datatype Summary = Summary(processed: nat, skipped: nat, failed: nat)

  datatype JobResult = JobResult(journal: Journal, summary: Summary)

  function SnapshotJob(j: Journal, properties: seq<nat>, month: int): JobResult {
    if properties == [] then JobResult(j, Summary(0, 0, 0))
    else
      var n := |properties| - 1;
      var before := SnapshotJob(j, properties[..n], month);
      var p, s := Period(properties[n], month), before.summary;
      if p in before.journal.snapshots then before.(summary := s.(skipped := s.skipped + 1))
      else if p.property !in before.journal.accounts then before.(summary := s.(failed := s.failed + 1))
      else JobResult(Snapshotted(before.journal, p), s.(processed := s.processed + 1))
  }

  // ---------- The aggregate ----------

  function NormalizedLog(log: Log): Result<Log, JournalError> {
    if TrimSpace(log.content) == "" then Failure(ContentRequired)
    else Success(log.(content := TrimSpace(log.content), description := TrimOptional(log.description)))
  }

  // Only the given fields change; a blank content is refused, a blank description removes it.
  function EditedLog(log: Log, input: UpdateInput): Result<Log, JournalError> {
    if input.content.Some? && TrimSpace(input.content.value) == "" then Failure(ContentRequired)
    else Success(log.(content := if input.content.Some? then TrimSpace(input.content.value) else log.content,
                      amount := if input.amount.Some? then input.amount else log.amount,
                      description := if input.description.Some? then TrimOptional(input.description)
                          else log.description))
  }

  class JournalAggregate {
    var state: Log

    constructor (state: Log)
      ensures this.state == state
    {
      this.state := state;
    }

    static method Rehydrate(state: Log) returns (r: Result<JournalAggregate, JournalError>)
      ensures r.Success? ==> fresh(r.value) && NormalizedLog(state) == Success(r.value.state)
      ensures r.Failure? ==> NormalizedLog(state) == Failure(r.error)
    {
      var content := TrimSpace(state.content);
      if content == "" {
        return Failure(ContentRequired);
      }
      var aggregate := new JournalAggregate(state.(content := content, description := TrimOptional(state.description)));
      return Success(aggregate);
    }

    method Update(input: UpdateInput) returns (r: Result<(), JournalError>)
      modifies this
      ensures r.Success? ==> EditedLog(old(state), input) == Success(state)
      ensures r.Failure? ==> EditedLog(old(state), input) == Failure(r.error) && state == old(state)
    {
      if input.content.Some? {
        var content := TrimSpace(input.content.value);
        if content == "" {
          return Failure(ContentRequired);
        }
        state := state.(content := content);
      }
      if input.amount.Some? {
        state := state.(amount := input.amount);
      }
      if input.description.Some? {
        state := state.(description := TrimOptional(input.description));
      }
      return Success(());
    }
  }

  // ---------- The commands ----------

  class JournalDb {
    var logs: seq<Log>
    var rows: seq<Row>
    var archive: seq<Row>
    var snapshots: set<Period>
    const titles: seq<Title>
    const properties: set<nat>
    const rooms: map<nat, nat>
    const accounts: set<nat>

    constructor (j: Journal)
      ensures Contents() == j
    {
      logs, rows, archive, snapshots := j.logs, j.rows, j.archive, j.snapshots;
      titles, properties, rooms, accounts := j.titles, j.properties, j.rooms, j.accounts;
    }

    function Contents(): Journal
      reads this
    {
      Journal(logs, rows, archive, snapshots, titles, properties, rooms, accounts)
    }

    // SyncExpenseAccountingEntry: replace the row of a log, or only remove it.
    method SyncExpenseAccountingEntry(id: nat, row: Option<Row>) returns (r: Result<(), JournalError>)
      requires id < |logs|
      modifies this`rows
      ensures r.Success? <==> row.None? || row.value.property in accounts
      ensures r.Success? ==> rows == WithoutLog(old(rows), id) + if row.Some? then [row.value] else []
      ensures r.Failure? ==> r.error == PropertyAccountNotFound && rows == old(rows)
    {
      if row.None? {
        rows := WithoutLog(rows, id);
        return Success(());
      }
      if row.value.property !in accounts {
        return Failure(PropertyAccountNotFound);
      }
      rows := WithoutLog(rows, id);
      rows := rows + [row.value];
      return Success(());
    }

    // A refused command rolls back the log it has already inserted.
    method Create(input: CreateInput) returns (r: Result<nat, JournalError>)
      modifies this
      ensures r.Success? ==> Created(old(Contents()), input) == Success(Contents()) && r.value == |old(logs)|
      ensures r.Failure? ==> Created(old(Contents()), input) == Failure(r.error) && Contents() == old(Contents())
    {
      hide AccountingMonth, TaipeiDate;
      var log := Log(input.property, input.room, input.author, input.content, input.amount, input.description, None,
          input.now, false);
      var aggregate := JournalAggregate.Rehydrate(log);
      if aggregate.Failure? {
        return Failure(aggregate.error);
      }
      log := aggregate.value.state;
      if input.property !in properties {
        return Failure(PropertyNotFound);
      }
      if input.room.Some? {
        if input.room.value !in rooms {
          return Failure(RoomNotFound);
        }
        if rooms[input.room.value] != input.property {
          return Failure(BadRequest("room_id"));
        }
      }
      var title := None;
      if input.amount.Some? {
        title := ResolvedTitle(titles, input.title, None);
        if title.None? {
          return Failure(TitleNotFound);
        }
      }
      var saved := logs;
      log := log.(title := title);
      logs := logs + [log];
      if log.amount.Some? {
        if PeriodOf(log) in snapshots {
          logs := saved;
          return Failure(SnapshotFinalized);
        }
        if log.property !in accounts {
          logs := saved;
          return Failure(PropertyAccountNotFound);
        }
        rows := rows + [RowFor(|saved|, log)];
      }
      return Success(|saved|);
    }

    method Update(id: nat, input: UpdateInput) returns (r: Result<(), JournalError>)
      modifies this
      ensures r.Success? ==> Updated(old(Contents()), id, input) == Success(Contents())
      ensures r.Failure? ==> Updated(old(Contents()), id, input) == Failure(r.error) && Contents() == old(Contents())
    {
      hide AccountingMonth, TaipeiDate, PeriodOf, WithoutLog, TrimSpace, ResolvedTitle, AccountingChanges;
      if input.content.None? && input.amount.None? && input.description.None? && input.title.None? {
        return Failure(BadRequest(""));
      }
      if id >= |logs| || logs[id].deleted {
        return Failure(LogNotFound);
      }
      var current := logs[id];
      var aggregate := JournalAggregate.Rehydrate(current);
      if aggregate.Failure? {
        return Failure(aggregate.error);
      }
      var edited := aggregate.value.Update(input);
      if edited.Failure? {
        return Failure(edited.error);
      }
      var state := aggregate.value.state;
      var title := None;
      if state.amount.Some? {
        title := ResolvedTitle(titles, input.title, current.title);
        if title.None? {
          return Failure(TitleNotFound);
        }
      } else if input.title.Some? {
        return Failure(BadRequest("expense_accounting_title_id"));
      }
      var accountingChanged := AccountingChanges(current, state.amount, state.description, title);
      if accountingChanged && PeriodOf(current) in snapshots {
        return Failure(SnapshotFinalized);
      }
      var saved := logs;
      var log := state.(title := title);
      logs := logs[id := log];
      if accountingChanged {
        var row := None;
        if log.amount.Some? {
          row := Some(RowFor(id, log));
        }
        var synced := SyncExpenseAccountingEntry(id, row);
        if synced.Failure? {
          logs := saved;
          return Failure(synced.error);
        }
      }
      return Success(());
    }

    method Delete(id: nat) returns (r: Result<(), JournalError>)
      modifies this
      ensures r.Success? ==> Deleted(old(Contents()), id) == Success(Contents())
      ensures r.Failure? ==> Deleted(old(Contents()), id) == Failure(r.error) && Contents() == old(Contents())
    {
      hide AccountingMonth, TaipeiDate;
      if id >= |logs| || logs[id].deleted {
        return Failure(LogNotFound);
      }
      var current := logs[id];
      if current.amount.Some? && PeriodOf(current) in snapshots {
        return Failure(SnapshotFinalized);
      }
      logs := logs[id := current.(deleted := true)];
      if current.amount.Some? {
        var synced := SyncExpenseAccountingEntry(id, None);
        assert rows == WithoutLog(old(rows), id);
      }
      return Success(());
    }

    method RunMonthlySnapshot(list: seq<nat>, month: int) returns (summary: Summary)
      modifies this
      ensures SnapshotJob(old(Contents()), list, month) == JobResult(Contents(), summary)
    {
      summary := Summary(0, 0, 0);
      for i := 0 to |list|
        invariant SnapshotJob(old(Contents()), list[..i], month) == JobResult(Contents(), summary)
      {
        assert list[..i + 1][..i] == list[..i];
        var p := Period(list[i], month);
        if p in snapshots {
          summary := summary.(skipped := summary.skipped + 1);
        } else if p.property !in accounts {
          summary := summary.(failed := summary.failed + 1);
        } else {
          archive := archive + RowsIn(rows, p);
          rows := RowsOutside(rows, p);
          snapshots := snapshots + {p};
          summary := summary.(processed := summary.processed + 1);
        }
      }
      assert list[..|list|] == list;
    }
  }
}
