/**
 What a journal command stores, on which day and in which month its row is booked, and when it is refused
 (internal/application/journal: create.go, update.go, delete.go, helpers.go).
 */
module JournalEntries {
  import opened Basics
  import opened Calendar
  import opened Journal
  import opened JournalTheorems

  // ---------- The day and month of a row ----------

  // An instant is so many seconds after midnight UTC of a day.
  predicate TakenOn(instant: int, date: Day, second: int) {
    0 <= second < 86400 && instant == 86400 * (date - MakeDate(1970, 1, 1)) + second
  }

  // In Taipei it is the next day from 16:00 UTC on.
  function BookingDay(date: Day, second: int): Day {
    if second < 16 * 3600 then date else date + 1
  }

  function BookingMonth(date: Day, second: int): int {
    12 * Year(BookingDay(date, second)) + MonthNumber(BookingDay(date, second)) - 1
  }

  lemma EpochIsDay719162()
    ensures MakeDate(1970, 1, 1) == 719162
  {
    hide MonthStart;
    MonthStartIsGregorian(12 * 1970);
    assert (12 * 1970) / 12 == 1970 && (12 * 1970) % 12 == 0;
  }

  // A row is booked on the Taipei day of its log and in the civil month of that day.
  lemma BookedInTaipei(instant: int, date: Day, second: int)
    requires TakenOn(instant, date, second)
    ensures TaipeiDate(instant) == BookingDay(date, second)
    ensures AccountingMonth(instant) == BookingMonth(date, second)
  {
    EpochIsDay719162();
    hide MonthStart, MakeDate, MonthOf;
    assert TaipeiDate(instant) == BookingDay(date, second) by {
      SecondsOfDay(date - MakeDate(1970, 1, 1), second);
    }
    hide TaipeiDate;
    MonthIndex(MonthOf(BookingDay(date, second)));
  }

  lemma SecondsOfDay(days: int, second: int)
    requires 0 <= second < 86400
    ensures (86400 * days + second + 28800) / 86400 == days + if second < 16 * 3600 then 0 else 1
  {
  }

  lemma MonthIndex(i: int)
    ensures 12 * (i / 12) + (i % 12 + 1) - 1 == i
  {
  }

  // The same with the date written as year, month and day.
  lemma CivilBooking(year: int, month: int, day: int, second: int)
    requires 1 <= month <= 12 && 1 <= day <= MonthLength(12 * year + month - 1)
    requires 0 <= second < 86400
    ensures var instant := 86400 * (MakeDate(year, month, day) - MakeDate(1970, 1, 1)) + second;
            && (second < 57600 ==>
                  TaipeiDate(instant) == MakeDate(year, month, day)
                      && AccountingMonth(instant) == 12 * year + month - 1)
            && (second >= 57600 ==>
                  && TaipeiDate(instant) == MakeDate(year, month, day + 1)
                  && AccountingMonth(instant)
                     == 12 * year + month - if day < MonthLength(12 * year + month - 1) then 1 else 0)
  {
    var i := 12 * year + month - 1;
    hide MonthStart, MonthLength, MonthOf;
    var date := MakeDate(year, month, day);
    BookedInTaipei(86400 * (date - MakeDate(1970, 1, 1)) + second, date, second);
    MonthStartNext(i);
    MonthStartIncreases(i + 1, i + 2);
    MonthOfUnique(date, i);
    MonthOfUnique(date + 1, if day < MonthLength(i) then i else i + 1);
    MonthIndex(MonthOf(date));
    MonthIndex(MonthOf(date + 1));
  }

  // ---------- Titles ----------

  // The title a command asks for: the one given, or else the one the log has, or else the default title.
  ghost predicate IsTitleFor(titles: seq<Title>, requested: Option<nat>, current: Option<Title>,
                             title: Option<Title>) {
    match requested
    case Some(id) =>
      (if title.Some? then title.value in titles && title.value.id == id else forall t | t in titles :: t.id != id)
    case None =>
      if current.Some? then title == current
      else if title.Some? then title.value in titles && title.value.code == "6681"
      else forall t | t in titles :: t.code != "6681"
  }

  lemma {:induction false} NoTitleHasId(titles: seq<Title>, id: nat)
    requires FindTitle(titles, id).None?
    ensures forall t | t in titles :: t.id != id
  {
    if titles != [] {
      NoTitleHasId(titles[1..], id);
    }
  }

  lemma TitleIsResolved(titles: seq<Title>, requested: Option<nat>, current: Option<Title>)
    ensures IsTitleFor(titles, requested, current, ResolvedTitle(titles, requested, current))
  {
    if requested.Some? && FindTitle(titles, requested.value).None? {
      NoTitleHasId(titles, requested.value);
    }
  }

  // ---------- Creating a log ----------

  // The row of an expense, with the day and the month of the log's instant written out.
  function RowOn(id: nat, property: nat, title: Title, amount: int, description: Option<string>, date: Day,
                 second: int): Row {
    Row(id, property, title.code, amount, description, BookingMonth(date, second), BookingDay(date, second))
  }

  // Every answer to a new log.
  lemma CreationIsAccepted(j: Journal, input: CreateInput, date: Day, second: int) returns (title: Option<Title>)
    requires TakenOn(input.now, date, second)
    ensures IsTitleFor(j.titles, input.title, None, title)
    ensures var r := Created(j, input);
            var content, known := TrimSpace(input.content) != "", input.property in j.properties;
            var roomKnown := input.room.Some? ==> input.room.value in j.rooms;
            var roomFits := input.room.Some? && roomKnown ==> j.rooms[input.room.value] == input.property;
            var placed := content && known && roomKnown && roomFits;
            var closed := Period(input.property, BookingMonth(date, second)) in j.snapshots;
            && (r == Failure(ContentRequired) <==> !content)
            && (r == Failure(PropertyNotFound) <==> content && !known)
            && (r == Failure(RoomNotFound) <==> content && known && !roomKnown)
            && (r == Failure(BadRequest("room_id")) <==> content && known && roomKnown && !roomFits)
            && (r == Failure(TitleNotFound) <==> placed && input.amount.Some? && title.None?)
            && (r == Failure(SnapshotFinalized) <==> placed && input.amount.Some? && title.Some? && closed)
            && (r == Failure(PropertyAccountNotFound)
                <==> placed && input.amount.Some? && title.Some? && !closed && input.property !in j.accounts)
            && (r.Success?
                <==> placed && (input.amount.Some? ==> title.Some? && !closed && input.property in j.accounts))
            && (r.Success? ==>
                  var log := Log(input.property, input.room, input.author, TrimSpace(input.content), input.amount,
                      TrimOptional(input.description), if input.amount.Some? then title else None, input.now, false);
                  r.value == j.(logs := j.logs + [log], rows := j.rows + if input.amount.None? then [] else
                      [RowOn(|j.logs|, input.property, title.value, input.amount.value,
                          TrimOptional(input.description), date, second)]))
  {
    title := ResolvedTitle(j.titles, input.title, None);
    TitleIsResolved(j.titles, input.title, None);
    BookedInTaipei(input.now, date, second);
    assert j.rows + [] == j.rows;
    hide TaipeiDate, AccountingMonth, BookingDay, BookingMonth, ResolvedTitle, TrimSpace, TrimOptional, IsTitleFor,
         TakenOn;
  }

  // ---------- Updating a log ----------

  // What the row of a log says would change.
  predicate RowChanges(current: Log, amount: Option<int>, description: Option<string>, title: Option<Title>) {
    || amount != current.amount
    || description != current.description
    || (amount.Some? && (title.Some? != current.title.Some?
                         || (title.Some? && title.value.id != current.title.value.id)))
  }

  // The log after an update: what is given replaces what was there.
  function UpdatedLog(current: Log, input: UpdateInput, title: Option<Title>): Log {
    current.(content := TrimSpace(if input.content.Some? then input.content.value else current.content),
             amount := if input.amount.Some? then input.amount else current.amount,
             description := TrimOptional(if input.description.Some? then input.description else current.description),
             title := if input.amount.Some? || current.amount.Some? then title else None)
  }

  predicate AsksNothing(input: UpdateInput) {
    input.content.None? && input.amount.None? && input.description.None? && input.title.None?
  }

  // Every answer to an update, and the log it leaves.
  lemma UpdateIsAccepted(j: Journal, id: nat, input: UpdateInput, date: Day, second: int)
    returns (title: Option<Title>)
    requires id < |j.logs| && TakenOn(j.logs[id].createdAt, date, second)
    ensures IsTitleFor(j.titles, input.title, j.logs[id].title, title)
    ensures var r, current, log := Updated(j, id, input), j.logs[id], UpdatedLog(j.logs[id], input, title);
            var found := !AsksNothing(input) && !current.deleted;
            var content := TrimSpace(current.content) != "" && log.content != "";
            var titled := (log.amount.Some? ==> title.Some?) && (log.amount.None? ==> input.title.None?);
            var rewrites := RowChanges(current, log.amount, log.description, log.title);
            var closed := Period(current.property, BookingMonth(date, second)) in j.snapshots;
            var booked := log.amount.Some? ==> current.property in j.accounts;
            && (r == Failure(BadRequest("")) <==> AsksNothing(input))
            && (r == Failure(LogNotFound) <==> !AsksNothing(input) && current.deleted)
            && (r == Failure(ContentRequired) <==> found && !content)
            && (r == Failure(TitleNotFound) <==> found && content && log.amount.Some? && title.None?)
            && (r == Failure(BadRequest("expense_accounting_title_id"))
                <==> found && content && log.amount.None? && input.title.Some?)
            && (r == Failure(SnapshotFinalized) <==> found && content && titled && rewrites && closed)
            && (r == Failure(PropertyAccountNotFound)
                <==> found && content && titled && rewrites && !closed && !booked)
            && (r.Success? <==> found && content && titled && (rewrites ==> !closed && booked))
            && (r.Success? ==>
                  && r.value.logs == j.logs[id := log]
                  && r.value == j.(logs := r.value.logs, rows := r.value.rows)
                  && (!rewrites ==> r.value.rows == j.rows))
  {
    title := ResolvedTitle(j.titles, input.title, j.logs[id].title);
    TitleIsResolved(j.titles, input.title, j.logs[id].title);
    BookedInTaipei(j.logs[id].createdAt, date, second);
    hide TaipeiDate, AccountingMonth, BookingMonth, ResolvedTitle, TrimSpace, TrimOptional, IsTitleFor, TakenOn,
         WithoutLog, RowFor;
  }

  // After an update, the one row of the log says what the log says, on the log's own day and in its month.
  lemma UpdatedRowIsExact(j: Journal, id: nat, input: UpdateInput, date: Day, second: int)
    requires Mirrors(j) && Updated(j, id, input).Success?
    requires id < |j.logs| && TakenOn(j.logs[id].createdAt, date, second)
    ensures var after := Updated(j, id, input).value;
            && id < |after.logs|
            && var log := after.logs[id];
               && (log.amount.Some? ==> log.title.Some?)
               && RowsOf(after.rows, id) + RowsOf(after.archive, id)
                  == if log.amount.None? then [] else
                     [RowOn(id, log.property, log.title.value, log.amount.value, log.description, date, second)]
  {
    hide *;
    var after := Updated(j, id, input).value;
    var title := UpdateIsAccepted(j, id, input, date, second);
    UpdateKeepsMirror(j, id, input);
    StaysOpen(j, id, input, title);
    RowOfLog(after, id);
    BookedInTaipei(j.logs[id].createdAt, date, second);
    ExpectedRow(id, after.logs[id], date, second);
  }

  lemma StaysOpen(j: Journal, id: nat, input: UpdateInput, title: Option<Title>)
    requires Updated(j, id, input).Success? && id < |j.logs|
    requires Updated(j, id, input).value.logs == j.logs[id := UpdatedLog(j.logs[id], input, title)]
    ensures var after := Updated(j, id, input).value;
            && id < |after.logs| && !after.logs[id].deleted && after.logs[id].createdAt == j.logs[id].createdAt
  {
    hide TrimSpace, TrimOptional, ResolvedTitle, AccountingChanges, WithoutLog, RowFor, PeriodOf;
  }

  lemma RowOfLog(j: Journal, id: nat)
    requires Mirrors(j) && id < |j.logs|
    ensures RowsOf(j.rows, id) + RowsOf(j.archive, id) == ExpectedRows(id, j.logs[id])
    ensures j.logs[id].amount.Some? <==> j.logs[id].title.Some?
  {
    hide RowsOf, ExpectedRows, TrimOptional, UniqueTitles, Placed;
    assert j.logs[id] in j.logs;
    assert HasItsRow(j, id, j.logs[id]);
  }

  lemma ExpectedRow(id: nat, log: Log, date: Day, second: int)
    requires !log.deleted && (log.amount.Some? <==> log.title.Some?)
    requires TaipeiDate(log.createdAt) == BookingDay(date, second)
    requires AccountingMonth(log.createdAt) == BookingMonth(date, second)
    ensures ExpectedRows(id, log) == if log.amount.None? then [] else
            [RowOn(id, log.property, log.title.value, log.amount.value, log.description, date, second)]
  {
    hide TaipeiDate, AccountingMonth, BookingDay, BookingMonth;
  }

  // ---------- Deleting a log ----------

  // A live log is deleted with its row, unless the month of its expense is closed.
  lemma DeletionIsAccepted(j: Journal, id: nat, date: Day, second: int)
    requires id < |j.logs| && TakenOn(j.logs[id].createdAt, date, second)
    ensures var r, current := Deleted(j, id), j.logs[id];
            var closed := Period(current.property, BookingMonth(date, second)) in j.snapshots;
            && (r == Failure(LogNotFound) <==> current.deleted)
            && (r == Failure(SnapshotFinalized) <==> !current.deleted && current.amount.Some? && closed)
            && (r.Success? <==> !current.deleted && (current.amount.Some? ==> !closed))
            && (r.Success? ==>
                  && r.value.logs == j.logs[id := current.(deleted := true)]
                  && r.value == j.(logs := r.value.logs, rows := r.value.rows)
                  && (current.amount.Some? ==> forall other: nat ::
                        RowsOf(r.value.rows, other) == if other == id then [] else RowsOf(j.rows, other))
                  && (current.amount.None? ==> r.value.rows == j.rows))
  {
    BookedInTaipei(j.logs[id].createdAt, date, second);
    forall other: nat {
      RowsOfWithout(j.rows, id, other);
    }
    hide TaipeiDate, AccountingMonth, BookingMonth, TakenOn, WithoutLog, RowsOf;
  }

  // Updating or deleting a log that was never written is refused.
  lemma UnknownLogIsRefused(j: Journal, id: nat, input: UpdateInput)
    requires id >= |j.logs|
    ensures Deleted(j, id) == Failure(LogNotFound)
    ensures Updated(j, id, input) == Failure(if AsksNothing(input) then BadRequest("") else LogNotFound)
  {
  }

  // ---------- The counters of the snapshot job ----------

  function HowMany(properties: seq<nat>, counted: nat -> bool): nat {
    if properties == [] then 0
    else HowMany(properties[..|properties| - 1], counted) + if counted(properties[|properties| - 1]) then 1 else 0
  }

  predicate EachOnce(properties: seq<nat>) {
    forall i, k | 0 <= i < k < |properties| :: properties[i] != properties[k]
  }

  // For a list without repetitions: closed months are skipped, other properties without an account fail,
  // and the rest are processed; exactly the months of the processed ones are closed.
  lemma {:induction false} JobCountsAreExact(j: Journal, properties: seq<nat>, month: int)
    requires EachOnce(properties)
    ensures var r := SnapshotJob(j, properties, month);
            && r.summary.skipped == HowMany(properties, (n: nat) => Period(n, month) in j.snapshots)
            && r.summary.failed
               == HowMany(properties, (n: nat) => Period(n, month) !in j.snapshots && n !in j.accounts)
            && r.summary.processed
               == HowMany(properties, (n: nat) => Period(n, month) !in j.snapshots && n in j.accounts)
            && r.journal.accounts == j.accounts
            && (forall p :: p in r.journal.snapshots
                  <==> p in j.snapshots || (p.month == month && p.property in properties && p.property in j.accounts))
  {
    hide RowsIn, RowsOutside;
    if properties != [] {
      var n := |properties| - 1;
      JobCountsAreExact(j, properties[..n], month);
      assert properties == properties[..n] + [properties[n]];
      assert properties[n] !in properties[..n];
    }
  }
}
