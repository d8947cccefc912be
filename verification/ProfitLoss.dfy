/**
 internal/application/billing/reports.go: the profit-and-loss report of a month merges the source rows
 of that month and of the month before by subject, and adds the fixed subjects of the old system.
 */
module ProfitLoss {
  import opened Basics

  datatype SourceRow = SourceRow(code: string, name: string, amount: int, supported: bool, note: Option<string>)

  datatype Row = Row(
    code: string,
    name: string,
    currentAmount: int,
    previousAmount: int,
    deltaAmount: int,
    supported: bool,
    note: Option<string>)

  datatype Period = Period(year: int, month: int, rows: seq<SourceRow>)

  datatype Report = Report(
    year: int,
    month: int,
    previousYear: int,
    previousMonth: int,
    rows: seq<Row>,
    currentTotal: int,
    previousTotal: int,
    deltaTotal: int)

  function StringValue(s: Option<string>): string {
    if s.Some? then s.value else ""
  }

  function Key(row: SourceRow): string {
    if !row.supported then row.code + "|" + row.name + "|" + StringValue(row.note)
    else if row.code != "" then row.code
    else row.name
  }

  function LegacyRow(code: string, name: string): SourceRow {
    SourceRow(code, name, 0, false, Some("未支援舊系統損益科目：" + name))
  }

  function LegacyRows(): seq<SourceRow> {
    [LegacyRow("legacy_management_income", "管理費收入"),
     LegacyRow("legacy_salary_expense", "薪資支出"),
     LegacyRow("legacy_supplies_expense", "用品支出"),
     LegacyRow("legacy_utilities_expense", "水電瓦斯費"),
     LegacyRow("legacy_cleaning_expense", "清潔費"),
     LegacyRow("legacy_repair_expense", "修繕費"),
     LegacyRow("legacy_commission_expense", "佣金支出"),
     LegacyRow("legacy_tax_expense", "稅捐")]
  }

  // The month before, across the turn of the year too.
  function PreviousReportPeriod(year: int, month: int): (before: (int, int))
    ensures 1 <= month <= 12 ==> 1 <= before.1 <= 12 && 12 * before.0 + before.1 == 12 * year + month - 1
  {
    if month == 1 then (year - 1, 12) else (year, month - 1)
  }

  // ---------- What a report contains, by subject ----------

  predicate HasKey(rows: seq<SourceRow>, key: string) {
    exists row | row in rows :: Key(row) == key
  }

  // The distinct keys, in the order in which they are first seen.
  function FirstSeen(rows: seq<SourceRow>): seq<string> {
    if rows == [] then []
    else
      var n := |rows| - 1;
      FirstSeen(rows[..n]) + if HasKey(rows[..n], Key(rows[n])) then [] else [Key(rows[n])]
  }

  function FirstOf(rows: seq<SourceRow>, key: string): SourceRow
    requires HasKey(rows, key)
  {
    var n := |rows| - 1;
    if HasKey(rows[..n], key) then FirstOf(rows[..n], key) else rows[n]
  }

  function SumOf(rows: seq<SourceRow>, key: string): int {
    if rows == [] then 0
    else
      var n := |rows| - 1;
      SumOf(rows[..n], key) + if Key(rows[n]) == key then rows[n].amount else 0
  }

  predicate AllSupported(rows: seq<SourceRow>, key: string) {
    forall row | row in rows && Key(row) == key :: row.supported
  }

  // The note of the first row, or else the first note of an unsupported row.
  function NoteOf(rows: seq<SourceRow>, key: string): Option<string> {
    if rows == [] then None
    else
      var n := |rows| - 1;
      var before := NoteOf(rows[..n], key);
      if before.None? && Key(rows[n]) == key && (!rows[n].supported || !HasKey(rows[..n], key)) then rows[n].note
      else before
  }

  function Merged(current: seq<SourceRow>, previous: seq<SourceRow>, key: string): Row
    requires HasKey(current + previous, key)
  {
    var rows := current + previous;
    Row(FirstOf(rows, key).code, FirstOf(rows, key).name, SumOf(current, key), SumOf(previous, key), 0,
        AllSupported(rows, key), NoteOf(rows, key))
  }

  // A subject of the old system gets its fixed row only when no source row has its key.
  function ReportRow(current: seq<SourceRow>, previous: seq<SourceRow>, key: string): Row
    requires HasKey(current + previous + LegacyRows(), key)
  {
    if HasKey(current + previous, key) then
      Merged(current, previous, key).(deltaAmount := SumOf(current, key) - SumOf(previous, key))
    else
      HasKeyAppend(current + previous, LegacyRows(), key);
      Opened(FirstOf(LegacyRows(), key))
  }

  function ReportKeys(current: seq<SourceRow>, previous: seq<SourceRow>): seq<string> {
    FirstSeen(current + previous + LegacyRows())
  }

  function ReportRows(current: seq<SourceRow>, previous: seq<SourceRow>): seq<Row> {
    var keys := ReportKeys(current, previous);
    FirstSeenExact(current + previous + LegacyRows());
    seq(|keys|, i requires 0 <= i < |keys| => ReportRow(current, previous, keys[i]))
  }

  function Current(row: Row): int {
    row.currentAmount
  }

  function Previous(row: Row): int {
    row.previousAmount
  }

  function SupportedCurrent(row: Row): int {
    if row.supported then row.currentAmount else 0
  }

  function SupportedPrevious(row: Row): int {
    if row.supported then row.previousAmount else 0
  }

  function SupportedDelta(row: Row): int {
    if row.supported then row.deltaAmount else 0
  }

  function SumRows(rows: seq<Row>, amount: Row -> int): int {
    if rows == [] then 0 else SumRows(rows[..|rows| - 1], amount) + amount(rows[|rows| - 1])
  }

  function ReportOf(current: Period, previous: Period): Report {
    var before := PreviousReportPeriod(current.year, current.month);
    var rows := ReportRows(current.rows, previous.rows);
    Report(current.year, current.month, before.0, before.1, rows,
           SumRows(rows, SupportedCurrent), SumRows(rows, SupportedPrevious), SumRows(rows, SupportedDelta))
  }

  predicate Distinct(keys: seq<string>) {
    forall i, j | 0 <= i < j < |keys| :: keys[i] != keys[j]
  }

  // The order list holds every key exactly once.
  lemma {:induction false} FirstSeenExact(rows: seq<SourceRow>)
    ensures forall key :: key in FirstSeen(rows) <==> HasKey(rows, key)
    ensures Distinct(FirstSeen(rows))
  {
    if rows != [] {
      var n := |rows| - 1;
      FirstSeenExact(rows[..n]);
      assert rows == rows[..n] + [rows[n]];
      forall key
        ensures HasKey(rows, key) <==> HasKey(rows[..n], key) || key == Key(rows[n])
      {
        HasKeyAppend(rows[..n], [rows[n]], key);
        assert rows[n] in [rows[n]];
      }
      hide HasKey, Key;
    }
  }

  lemma HasKeyAppend(a: seq<SourceRow>, b: seq<SourceRow>, key: string)
    ensures HasKey(a + b, key) <==> HasKey(a, key) || HasKey(b, key)
  {
  }

  // ---------- The merge loop ----------

  // What the map and the order list hold after the rows seen so far.
  ghost predicate Holds(rowsByKey: map<string, Row>, order: seq<string>, current: seq<SourceRow>,
                        previous: seq<SourceRow>) {
    && order == FirstSeen(current + previous)
    && (forall key :: key in rowsByKey <==> HasKey(current + previous, key))
    && (forall key | key in rowsByKey :: rowsByKey[key] == Merged(current, previous, key))
  }

  function With(rows: seq<SourceRow>, source: SourceRow, added: bool): seq<SourceRow> {
    if added then rows + [source] else rows
  }

  // The row of one subject once another source row of it is merged in.
  function WithSource(row: Row, source: SourceRow, currentPeriod: bool): Row {
    var noted := if source.supported then row
                 else row.(supported := false, note := if row.note.None? then source.note else row.note);
    if currentPeriod then noted.(currentAmount := row.currentAmount + source.amount)
    else noted.(previousAmount := row.previousAmount + source.amount)
  }

  function Opened(source: SourceRow): Row {
    Row(source.code, source.name, 0, 0, 0, source.supported, source.note)
  }

  // How one more source row changes what is known about a subject.
  lemma SubjectAfter(rows: seq<SourceRow>, source: SourceRow, key: string)
    ensures HasKey(rows + [source], key) <==> HasKey(rows, key) || key == Key(source)
    ensures SumOf(rows + [source], key) == SumOf(rows, key) + if Key(source) == key then source.amount else 0
    ensures HasKey(rows, key) ==> FirstOf(rows + [source], key) == FirstOf(rows, key)
    ensures !HasKey(rows, key) && key == Key(source) ==> FirstOf(rows + [source], key) == source
    ensures AllSupported(rows + [source], key) <==> AllSupported(rows, key) && (Key(source) == key ==> source.supported)
    ensures NoteOf(rows + [source], key)
            == if NoteOf(rows, key).None? && Key(source) == key && (!source.supported || !HasKey(rows, key))
                then source.note
               else NoteOf(rows, key)
  {
    hide Key;
    assert (rows + [source])[..|rows|] == rows;
    HasKeyAppend(rows, [source], key);
    assert source in rows + [source];
    assert forall row :: row in rows + [source] <==> row in rows || row == source;
  }

  lemma {:induction false} AbsentSubject(rows: seq<SourceRow>, key: string)
    requires !HasKey(rows, key)
    ensures SumOf(rows, key) == 0 && NoteOf(rows, key) == None
  {
    if rows != [] {
      AbsentSubject(rows[..|rows| - 1], key);
      assert rows[|rows| - 1] in rows;
    }
  }

  lemma MergedStep(current: seq<SourceRow>, previous: seq<SourceRow>, source: SourceRow, currentPeriod: bool,
                   key: string)
    requires currentPeriod ==> previous == []
    requires HasKey(current + previous, key) || key == Key(source)
    ensures var c, p := With(current, source, currentPeriod), With(previous, source, !currentPeriod);
            var row := if HasKey(current + previous, key) then Merged(current, previous, key) else Opened(source);
            && HasKey(c + p, key)
            && Merged(c, p, key) == if key == Key(source) then WithSource(row, source, currentPeriod) else row
  {
    hide Key, SumOf, NoteOf, FirstOf, AllSupported;
    var rows := current + previous;
    var c, p := With(current, source, currentPeriod), With(previous, source, !currentPeriod);
    assert c + p == rows + [source];
    SubjectAfter(rows, source, key);
    SubjectAfter(current, source, key);
    SubjectAfter(previous, source, key);
    HasKeyAppend(current, previous, key);
    if !HasKey(rows, key) {
      AbsentSubject(rows, key);
      AbsentSubject(current, key);
      AbsentSubject(previous, key);
      assert AllSupported(rows, key) by { NoneUnsupported(rows, key); }
    }
  }

  lemma NoneUnsupported(rows: seq<SourceRow>, key: string)
    requires !HasKey(rows, key)
    ensures AllSupported(rows, key)
  {
  }

  lemma MergedAfter(current: seq<SourceRow>, previous: seq<SourceRow>, source: SourceRow, currentPeriod: bool,
                    c: seq<SourceRow>, p: seq<SourceRow>, key: string)
    requires currentPeriod ==> previous == []
    requires c == With(current, source, currentPeriod)
    requires p == With(previous, source, !currentPeriod)
    ensures HasKey(c + p, key) <==> HasKey(current + previous, key) || key == Key(source)
    ensures HasKey(c + p, key) && key == Key(source) ==>
              Merged(c, p, key) == WithSource(if HasKey(current + previous, key) then Merged(current, previous, key)
                  else Opened(source),
                                              source, currentPeriod)
    ensures HasKey(c + p, key) && key != Key(source) ==> Merged(c, p, key) == Merged(current, previous, key)
  {
    assert c + p == current + previous + [source];
    hide Merged, WithSource, Opened, Key;
    HasKeyAfter(current + previous, source, key);
    if HasKey(c + p, key) {
      MergedStep(current, previous, source, currentPeriod, key);
    }
  }

  lemma HasKeyAfter(rows: seq<SourceRow>, source: SourceRow, key: string)
    ensures HasKey(rows + [source], key) <==> HasKey(rows, key) || key == Key(source)
  {
    SubjectAfter(rows, source, key);
  }

  // The map and the order list after one more source row, with the rows of each period named.
  lemma HoldsStep(rowsByKey: map<string, Row>, order: seq<string>, current: seq<SourceRow>, previous: seq<SourceRow>,
                  source: SourceRow, currentPeriod: bool, c: seq<SourceRow>, p: seq<SourceRow>)
    requires Holds(rowsByKey, order, current, previous)
    requires currentPeriod ==> previous == []
    requires c == With(current, source, currentPeriod)
    requires p == With(previous, source, !currentPeriod)
    requires c + p == current + previous + [source]
    ensures var key := Key(source);
            var row := if key in rowsByKey then rowsByKey[key] else Opened(source);
            var order' := if key in rowsByKey then order else order + [key];
            Holds(rowsByKey[key := WithSource(row, source, currentPeriod)], order', c, p)
  {
    hide Key, Merged, WithSource, Opened, HasKey, FirstSeen;
    var key := Key(source);
    FirstSeenAfter(current + previous, source);
    forall k {
      MergedAfter(current, previous, source, currentPeriod, c, p, k);
    }
  }

  lemma HoldsAfter(rowsByKey: map<string, Row>, order: seq<string>, current: seq<SourceRow>, previous: seq<SourceRow>,
                   source: SourceRow, currentPeriod: bool)
    requires Holds(rowsByKey, order, current, previous)
    requires currentPeriod ==> previous == []
    ensures var key := Key(source);
            var row := if key in rowsByKey then rowsByKey[key] else Opened(source);
            var order' := if key in rowsByKey then order else order + [key];
            Holds(rowsByKey[key := WithSource(row, source, currentPeriod)], order',
                  With(current, source, currentPeriod), With(previous, source, !currentPeriod))
  {
    hide Holds, Key, WithSource, Opened;
    var c, p := With(current, source, currentPeriod), With(previous, source, !currentPeriod);
    assert c + p == current + previous + [source];
    HoldsStep(rowsByKey, order, current, previous, source, currentPeriod, c, p);
  }

  lemma FirstSeenAfter(rows: seq<SourceRow>, source: SourceRow)
    ensures FirstSeen(rows + [source])
            == if HasKey(rows, Key(source)) then FirstSeen(rows) else FirstSeen(rows) + [Key(source)]
  {
    hide Key, HasKey;
    assert (rows + [source])[..|rows|] == rows;
    assert FirstSeen(rows) + [] == FirstSeen(rows);
  }

  method Merge(rowsByKey: map<string, Row>, order: seq<string>, sources: seq<SourceRow>, currentPeriod: bool,
               ghost current: seq<SourceRow>, ghost previous: seq<SourceRow>)
    returns (rowsByKey': map<string, Row>, order': seq<string>)
    requires Holds(rowsByKey, order, current, previous)
    requires currentPeriod ==> previous == []
    ensures Holds(rowsByKey', order', if currentPeriod then current + sources else current,
                  if currentPeriod then previous else previous + sources)
  {
    hide Holds, Key;
    rowsByKey', order' := rowsByKey, order;
    ghost var c, p := current, previous;
    assert current + sources[..0] == current && previous + sources[..0] == previous;
    for i := 0 to |sources|
      invariant c == if currentPeriod then current + sources[..i] else current
      invariant p == if currentPeriod then previous else previous + sources[..i]
      invariant Holds(rowsByKey', order', c, p)
    {
      var source := sources[i];
      HoldsAfter(rowsByKey', order', c, p, source, currentPeriod);
      var key := Key(source);
      var row;
      if key in rowsByKey' {
        row := rowsByKey'[key];
      } else {
        row := Row(source.code, source.name, 0, 0, 0, source.supported, source.note);
        order' := order' + [key];
      }
      if !source.supported {
        row := row.(supported := false);
        if row.note.None? {
          row := row.(note := source.note);
        }
      }
      if currentPeriod {
        row := row.(currentAmount := row.currentAmount + source.amount);
      } else {
        row := row.(previousAmount := row.previousAmount + source.amount);
      }
      rowsByKey' := rowsByKey'[key := row];
      assert sources[..i + 1] == sources[..i] + [source];
      c, p := With(c, source, currentPeriod), With(p, source, !currentPeriod);
    }
    assert sources[..|sources|] == sources;
  }

  // ---------- The fixed subjects ----------

  ghost predicate HoldsLegacy(rowsByKey: map<string, Row>, order: seq<string>, current: seq<SourceRow>,
                              previous: seq<SourceRow>,
                              legacy: seq<SourceRow>) {
    && order == FirstSeen(current + previous + legacy)
    && (forall key :: key in rowsByKey <==> HasKey(current + previous, key) || HasKey(legacy, key))
    && (forall key | key in rowsByKey ::
          rowsByKey[key] == if HasKey(current + previous, key) then Merged(current, previous, key)
              else Opened(FirstOf(legacy, key)))
  }

  lemma HoldsLegacyAfter(rowsByKey: map<string, Row>, order: seq<string>, current: seq<SourceRow>,
                         previous: seq<SourceRow>,
                         legacy: seq<SourceRow>, row: SourceRow)
    requires HoldsLegacy(rowsByKey, order, current, previous, legacy)
    ensures if Key(row) in rowsByKey then HoldsLegacy(rowsByKey, order, current, previous, legacy + [row])
            else HoldsLegacy(rowsByKey[Key(row) := Opened(row)], order + [Key(row)], current, previous, legacy + [row])
  {
    hide Key, Merged, Opened, HasKey, FirstSeen, FirstOf;
    var sources := current + previous;
    assert sources + (legacy + [row]) == sources + legacy + [row];
    FirstSeenAfter(sources + legacy, row);
    forall key
      ensures HasKey(legacy + [row], key) <==> HasKey(legacy, key) || key == Key(row)
      ensures HasKey(legacy, key) ==> FirstOf(legacy + [row], key) == FirstOf(legacy, key)
      ensures !HasKey(legacy, key) && key == Key(row) ==> FirstOf(legacy + [row], key) == row
      ensures HasKey(sources + legacy, key) <==> HasKey(sources, key) || HasKey(legacy, key)
    {
      HasKeyAppend(sources, legacy, key);
      SubjectAfter(legacy, row, key);
    }
  }

  lemma NothingTotalled()
    ensures SumRows([], SupportedCurrent) == SumRows([], SupportedPrevious) == SumRows([], SupportedDelta) == 0
  {
  }

  lemma TotalsAfter(rows: seq<Row>, row: Row)
    ensures SumRows(rows + [row], SupportedCurrent)
            == SumRows(rows, SupportedCurrent) + if row.supported then row.currentAmount else 0
    ensures SumRows(rows + [row], SupportedPrevious)
            == SumRows(rows, SupportedPrevious) + if row.supported then row.previousAmount else 0
    ensures SumRows(rows + [row], SupportedDelta)
            == SumRows(rows, SupportedDelta) + if row.supported then row.deltaAmount else 0
  {
    assert (rows + [row])[..|rows|] == rows;
  }

  lemma OpenedFields(source: SourceRow)
    ensures Opened(source) == Row(source.code, source.name, 0, 0, 0, source.supported, source.note)
  {
  }

  lemma ReportFields(current: Period, previous: Period)
    ensures ReportOf(current, previous) ==
            var before, rows := PreviousReportPeriod(current.year, current.month),
              ReportRows(current.rows, previous.rows);
            Report(current.year, current.month, before.0, before.1, rows,
                   SumRows(rows, SupportedCurrent), SumRows(rows, SupportedPrevious), SumRows(rows, SupportedDelta))
  {
    hide ReportRows, SumRows, PreviousReportPeriod;
  }

  method NewProfitLossReport(current: Period, previous: Period) returns (report: Report)
    ensures report == ReportOf(current, previous)
  {
    hide *;
    var before := PreviousReportPeriod(current.year, current.month);
    NothingHeld();
    var rowsByKey: map<string, Row>, order: seq<string> := map[], [];
    rowsByKey, order := Merge(rowsByKey, order, current.rows, true, [], []);
    assert [] + current.rows == current.rows;
    rowsByKey, order := Merge(rowsByKey, order, previous.rows, false, current.rows, []);
    assert [] + previous.rows == previous.rows;
    var legacy := LegacyRows();
    NoLegacyHeld(rowsByKey, order, current.rows, previous.rows);
    for i := 0 to |legacy|
      invariant HoldsLegacy(rowsByKey, order, current.rows, previous.rows, legacy[..i])
    {
      assert legacy[..i + 1] == legacy[..i] + [legacy[i]];
      HoldsLegacyAfter(rowsByKey, order, current.rows, previous.rows, legacy[..i], legacy[i]);
      OpenedFields(legacy[i]);
      var key := Key(legacy[i]);
      if key in rowsByKey {
        continue;
      }
      rowsByKey := rowsByKey[key := Row(legacy[i].code, legacy[i].name, 0, 0, 0, legacy[i].supported, legacy[i].note)];
      order := order + [key];
    }
    assert legacy[..|legacy|] == legacy;
    HeldRows(rowsByKey, order, current.rows, previous.rows);
    ghost var expected := ReportRows(current.rows, previous.rows);
    var rows: seq<Row> := [];
    var currentTotal, previousTotal, deltaTotal := 0, 0, 0;
    NothingTotalled();
    for i := 0 to |order|
      invariant rows == expected[..i]
      invariant currentTotal == SumRows(rows, SupportedCurrent)
      invariant previousTotal == SumRows(rows, SupportedPrevious)
      invariant deltaTotal == SumRows(rows, SupportedDelta)
    {
      assert order[i] in order;
      var row := rowsByKey[order[i]];
      row := row.(deltaAmount := row.currentAmount - row.previousAmount);
      if row.supported {
        currentTotal := currentTotal + row.currentAmount;
        previousTotal := previousTotal + row.previousAmount;
        deltaTotal := deltaTotal + row.deltaAmount;
      }
      TotalsAfter(rows, row);
      rows := rows + [row];
    }
    assert expected[..|order|] == expected;
    report := Report(current.year, current.month, before.0, before.1, rows, currentTotal, previousTotal, deltaTotal);
    ReportFields(current, previous);
  }

  lemma NothingHeld()
    ensures Holds(map[], [], [], [])
  {
  }

  lemma NoLegacyHeld(rowsByKey: map<string, Row>, order: seq<string>, current: seq<SourceRow>, previous: seq<SourceRow>)
    requires Holds(rowsByKey, order, current, previous)
    ensures HoldsLegacy(rowsByKey, order, current, previous, LegacyRows()[..0])
  {
    assert current + previous + LegacyRows()[..0] == current + previous;
  }

  // The map holds every row of the report, but for the deltas.
  lemma HeldRows(rowsByKey: map<string, Row>, order: seq<string>, current: seq<SourceRow>, previous: seq<SourceRow>)
    requires HoldsLegacy(rowsByKey, order, current, previous, LegacyRows())
    ensures |order| == |ReportRows(current, previous)|
    ensures forall i | 0 <= i < |order| ::
              && order[i] in rowsByKey
              && var row := rowsByKey[order[i]];
                 ReportRows(current, previous)[i] == row.(deltaAmount := row.currentAmount - row.previousAmount)
  {
    hide LegacyRows, Key, HasKey, FirstSeen, FirstOf, SumOf;
    var all := current + previous + LegacyRows();
    FirstSeenExact(all);
    forall i | 0 <= i < |order|
      ensures order[i] in rowsByKey
    {
      assert order[i] in order;
      HasKeyAppend(current + previous, LegacyRows(), order[i]);
    }
  }

  // ---------- What the report guarantees ----------

  // Subjects appear in first-seen order: when a subject is first seen, no later one has been.
  lemma {:induction false} FirstSeenInOrder(rows: seq<SourceRow>, i: nat, j: nat) returns (n: nat)
    requires i < j < |FirstSeen(rows)|
    ensures n <= |rows| && HasKey(rows[..n], FirstSeen(rows)[i]) && !HasKey(rows[..n], FirstSeen(rows)[j])
  {
    hide HasKey, Key;
    var last := |rows| - 1;
    FirstSeenExact(rows[..last]);
    if j < |FirstSeen(rows[..last])| {
      n := FirstSeenInOrder(rows[..last], i, j);
      assert rows[..last][..n] == rows[..n];
    } else {
      n := last;
      assert FirstSeen(rows)[i] in FirstSeen(rows[..last]);
    }
  }

  // The amounts of the rows whose subject satisfies a condition.
  function TotalWhere(rows: seq<SourceRow>, good: string -> bool): int {
    if rows == [] then 0
    else TotalWhere(rows[..|rows| - 1], good) + if good(Key(rows[|rows| - 1])) then rows[|rows| - 1].amount else 0
  }

  function SumKeys(keys: seq<string>, rows: seq<SourceRow>, good: string -> bool): int {
    if keys == [] then 0
    else SumKeys(keys[..|keys| - 1], rows, good) + if good(keys[|keys| - 1]) then SumOf(rows, keys[|keys| - 1]) else 0
  }

  lemma {:induction false} SumKeysAfter(keys: seq<string>, rows: seq<SourceRow>, source: SourceRow,
                                        good: string -> bool)
    requires Distinct(keys)
    ensures SumKeys(keys, rows + [source], good)
            == SumKeys(keys, rows, good) + if Key(source) in keys && good(Key(source)) then source.amount else 0
  {
    hide Key, SumOf;
    if keys != [] {
      var n := |keys| - 1;
      SumKeysAfter(keys[..n], rows, source, good);
      SubjectAfter(rows, source, keys[n]);
      assert keys == keys[..n] + [keys[n]];
    }
  }

  lemma {:induction false} NoRowsNoSum(keys: seq<string>, good: string -> bool)
    ensures SumKeys(keys, [], good) == 0
  {
    if keys != [] {
      NoRowsNoSum(keys[..|keys| - 1], good);
    }
  }

  // Summing by subject, over any list that names every subject once, sums every row once.
  lemma {:induction false} SumKeysIsTotal(keys: seq<string>, rows: seq<SourceRow>, good: string -> bool)
    requires Distinct(keys)
    requires forall row | row in rows :: Key(row) in keys
    ensures SumKeys(keys, rows, good) == TotalWhere(rows, good)
  {
    hide Key, SumKeys, Distinct;
    if rows == [] {
      NoRowsNoSum(keys, good);
    } else {
      var n := |rows| - 1;
      SumKeysIsTotal(keys, rows[..n], good);
      SumKeysAfter(keys, rows[..n], rows[n], good);
      assert rows == rows[..n] + [rows[n]];
    }
  }

  function Always(key: string): bool {
    true
  }

  // A subject counts in the totals when none of its source rows is unsupported.
  function Counted(current: seq<SourceRow>, previous: seq<SourceRow>): string -> bool {
    (key: string) => AllSupported(current + previous, key)
  }

  lemma RowAmounts(current: seq<SourceRow>, previous: seq<SourceRow>, key: string)
    requires HasKey(current + previous + LegacyRows(), key)
    ensures var row, counted := ReportRow(current, previous, key), Counted(current, previous)(key);
            && Current(row) == SumOf(current, key)
            && Previous(row) == SumOf(previous, key)
            && SupportedCurrent(row) == (if counted then SumOf(current, key) else 0)
            && SupportedPrevious(row) == (if counted then SumOf(previous, key) else 0)
            && SupportedDelta(row) == SupportedCurrent(row) - SupportedPrevious(row)
  {
    hide Key, LegacyRows, SumOf;
    HasKeyAppend(current, previous, key);
    if !HasKey(current + previous, key) {
      AbsentSubject(current, key);
      AbsentSubject(previous, key);
    }
  }

  lemma RowAt(current: seq<SourceRow>, previous: seq<SourceRow>, i: nat)
    requires i < |ReportKeys(current, previous)|
    ensures |ReportRows(current, previous)| == |ReportKeys(current, previous)|
    ensures HasKey(current + previous + LegacyRows(), ReportKeys(current, previous)[i])
    ensures ReportRows(current, previous)[i] == ReportRow(current, previous, ReportKeys(current, previous)[i])
  {
    hide LegacyRows, HasKey;
    FirstSeenExact(current + previous + LegacyRows());
    assert ReportKeys(current, previous)[i] in ReportKeys(current, previous);
  }

  // ---------- One row ----------

  // The first row of a subject.
  ghost predicate FirstAt(rows: seq<SourceRow>, key: string, n: nat) {
    n < |rows| && Key(rows[n]) == key && forall l | 0 <= l < n :: Key(rows[l]) != key
  }

  // The rows of a subject whose note can become the note of its row: its first row, and unsupported ones.
  ghost predicate MayNote(rows: seq<SourceRow>, key: string, n: nat) {
    n < |rows| && Key(rows[n]) == key && (!rows[n].supported || FirstAt(rows, key, n))
  }

  // The note is that of the first such row that has one.
  ghost predicate IsNote(rows: seq<SourceRow>, key: string, note: Option<string>) {
    if note.Some?
    then exists m: nat :: MayNote(rows, key, m) && rows[m].note == note
           && forall l: nat | l < m && MayNote(rows, key, l) :: rows[l].note.None?
    else forall m: nat | MayNote(rows, key, m) :: rows[m].note.None?
  }

  lemma SubjectIndex(rows: seq<SourceRow>, key: string, n: nat)
    requires n <= |rows|
    ensures HasKey(rows[..n], key) <==> exists l :: 0 <= l < n && Key(rows[l]) == key
  {
    hide Key;
    if HasKey(rows[..n], key) {
      var row :| row in rows[..n] && Key(row) == key;
    }
    if l :| 0 <= l < n && Key(rows[l]) == key {
      assert rows[l] in rows[..n];
    }
  }

  lemma MayNotePrefix(rows: seq<SourceRow>, key: string, n: nat, m: nat)
    requires n <= |rows|
    ensures MayNote(rows[..n], key, m) <==> m < n && MayNote(rows, key, m)
  {
    hide Key;
  }

  lemma {:induction false} NoteIsExact(rows: seq<SourceRow>, key: string)
    ensures IsNote(rows, key, NoteOf(rows, key))
  {
    hide Key, MayNote;
    if rows == [] {
      assert forall m: nat :: !MayNote(rows, key, m) by { NothingToNote(key); }
    } else {
      var n := |rows| - 1;
      NoteIsExact(rows[..n], key);
      forall m: nat {
        MayNotePrefix(rows, key, n, m);
      }
      LastMayNote(rows, key);
      var before := NoteOf(rows[..n], key);
      if before.Some? {
        var m: nat :| MayNote(rows[..n], key, m) && rows[..n][m].note == before
          && forall l: nat | l < m && MayNote(rows[..n], key, l) :: rows[..n][l].note.None?;
        assert MayNote(rows, key, m);
      } else {
        assert forall m: nat | MayNote(rows[..n], key, m) :: rows[..n][m].note.None?;
      }
    }
  }

  lemma NothingToNote(key: string)
    ensures forall m: nat :: !MayNote([], key, m)
  {
  }

  lemma LastMayNote(rows: seq<SourceRow>, key: string)
    requires rows != []
    ensures var n := |rows| - 1;
            && (MayNote(rows, key, n)
                <==> Key(rows[n]) == key && (!rows[n].supported || !HasKey(rows[..n], key)))
            && forall m: nat | MayNote(rows, key, m) :: m <= n
  {
    SubjectIndex(rows, key, |rows| - 1);
    hide Key, HasKey;
  }

  lemma {:induction false} FirstOfIsFirst(rows: seq<SourceRow>, key: string) returns (n: nat)
    requires HasKey(rows, key)
    ensures FirstAt(rows, key, n) && FirstOf(rows, key) == rows[n]
  {
    hide Key;
    assert rows != [];
    hide HasKey;
    var last := |rows| - 1;
    SubjectIndex(rows, key, last);
    SubjectIndex(rows, key, |rows|);
    assert rows[..|rows|] == rows;
    if HasKey(rows[..last], key) {
      n := FirstOfIsFirst(rows[..last], key);
    } else {
      n := last;
    }
  }

  lemma {:induction false} SumIsTotal(rows: seq<SourceRow>, key: string)
    ensures SumOf(rows, key) == TotalWhere(rows, k => k == key)
  {
    hide Key;
    if rows != [] {
      SumIsTotal(rows[..|rows| - 1], key);
    }
  }

  // The row of a subject that a source row has: code and name of its first source row, the sums of its
  // amounts in either month, supported only if all its source rows are, and the first note among the first
  // and the unsupported ones.
  lemma RowIsExact(current: seq<SourceRow>, previous: seq<SourceRow>, i: nat) returns (n: nat)
    requires i < |ReportKeys(current, previous)| == |ReportRows(current, previous)|
    requires HasKey(current + previous, ReportKeys(current, previous)[i])
    ensures var key, row, sources := ReportKeys(current, previous)[i], ReportRows(current, previous)[i],
            current + previous;
            && FirstAt(sources, key, n) && row.code == sources[n].code && row.name == sources[n].name
            && row.currentAmount == TotalWhere(current, k => k == key)
            && row.previousAmount == TotalWhere(previous, k => k == key)
            && row.deltaAmount == row.currentAmount - row.previousAmount
            && (row.supported <==> forall source | source in sources && Key(source) == key :: source.supported)
            && IsNote(sources, key, row.note)
  {
    var key := ReportKeys(current, previous)[i];
    RowAt(current, previous, i);
    n := FirstOfIsFirst(current + previous, key);
    SumIsTotal(current, key);
    SumIsTotal(previous, key);
    NoteIsExact(current + previous, key);
    hide Key, HasKey, ReportKeys, ReportRows, FirstOf, NoteOf, SumOf, TotalWhere, IsNote, FirstAt, LegacyRows;
  }

  // Rows of one subject: supported rows with a code agree exactly in the code, unsupported rows without the
  // separator in code and name agree exactly in code, name and note.
  lemma KeysAgree(a: SourceRow, b: SourceRow)
    ensures a.supported && b.supported && a.code != "" && b.code != "" ==> (Key(a) == Key(b) <==> a.code == b.code)
    ensures a.supported && b.supported && a.code == b.code == "" ==> (Key(a) == Key(b) <==> a.name == b.name)
    ensures !a.supported && !b.supported && '|' !in a.code + a.name + b.code + b.name ==>
              (Key(a) == Key(b) <==> a.code == b.code && a.name == b.name && StringValue(a.note) == StringValue(b.note))
  {
    if !a.supported && !b.supported && '|' !in a.code + a.name + b.code + b.name {
      KeyParts(a);
      KeyParts(b);
      assert forall c | c in a.code || c in a.name || c in b.code || c in b.name ::
          c in a.code + a.name + b.code + b.name;
      JoinedParts(a.code, a.name + "|" + StringValue(a.note), b.code, b.name + "|" + StringValue(b.note));
      JoinedParts(a.name, StringValue(a.note), b.name, StringValue(b.note));
      hide Key;
    }
  }

  lemma KeyParts(row: SourceRow)
    requires !row.supported
    ensures Key(row) == row.code + "|" + (row.name + "|" + StringValue(row.note))
  {
    assert row.code + "|" + row.name + "|" + StringValue(row.note)
        == row.code + "|" + (row.name + "|" + StringValue(row.note));
  }

  // A text is split at the first separator in one way only.
  lemma JoinedParts(a: string, x: string, b: string, y: string)
    requires '|' !in a && '|' !in b
    ensures a + "|" + x == b + "|" + y ==> a == b && x == y
  {
    var s, t := a + "|" + x, b + "|" + y;
    assert s[|a|] == '|' && t[|b|] == '|';
    assert forall i | 0 <= i < |a| :: s[i] == a[i] && a[i] in a;
    assert forall i | 0 <= i < |b| :: t[i] == b[i] && b[i] in b;
    if s == t {
      assert |a| == |b|;
      assert a == s[..|a|] && b == t[..|b|];
      assert x == s[|a| + 1..] && y == t[|b| + 1..];
    }
  }

  // Row by row, the report's sums are the sums by subject.
  lemma {:induction false} RowSums(current: seq<SourceRow>, previous: seq<SourceRow>, n: nat)
    requires n <= |ReportKeys(current, previous)| == |ReportRows(current, previous)|
    ensures var rows, keys := ReportRows(current, previous)[..n], ReportKeys(current, previous)[..n];
            && SumRows(rows, Current) == SumKeys(keys, current, Always)
            && SumRows(rows, Previous) == SumKeys(keys, previous, Always)
            && SumRows(rows, SupportedCurrent) == SumKeys(keys, current, Counted(current, previous))
            && SumRows(rows, SupportedPrevious) == SumKeys(keys, previous, Counted(current, previous))
            && SumRows(rows, SupportedDelta) == SumRows(rows, SupportedCurrent) - SumRows(rows, SupportedPrevious)
  {
    hide ReportRows, ReportRow, ReportKeys, LegacyRows, HasKey, Key, SumOf, Counted,
         Current, Previous, SupportedCurrent, SupportedPrevious, SupportedDelta;
    if n > 0 {
      RowSums(current, previous, n - 1);
      var rows, keys := ReportRows(current, previous)[..n], ReportKeys(current, previous)[..n];
      assert rows[..n - 1] == ReportRows(current, previous)[..n - 1]
          && keys[..n - 1] == ReportKeys(current, previous)[..n - 1];
      RowAt(current, previous, n - 1);
      RowAmounts(current, previous, keys[n - 1]);
    }
  }

  // Every amount of a period is in exactly one row, and the totals add up the counted subjects.
  lemma ReportConservesAmounts(current: Period, previous: Period)
    ensures var report := ReportOf(current, previous);
            && SumRows(report.rows, Current) == TotalWhere(current.rows, Always)
            && SumRows(report.rows, Previous) == TotalWhere(previous.rows, Always)
            && report.currentTotal == TotalWhere(current.rows, Counted(current.rows, previous.rows))
            && report.previousTotal == TotalWhere(previous.rows, Counted(current.rows, previous.rows))
            && report.deltaTotal == report.currentTotal - report.previousTotal
  {
    var c, p := current.rows, previous.rows;
    var keys := ReportKeys(c, p);
    KeysAreNamed(c, p);
    var rows := ReportRows(c, p);
    assert |rows| == |keys| && rows[..|rows|] == rows && keys[..|keys|] == keys;
    hide ReportRows, ReportKeys, Key, Counted;
    RowSums(c, p, |keys|);
    SumKeysIsTotal(keys, c, Always);
    SumKeysIsTotal(keys, p, Always);
    SumKeysIsTotal(keys, c, Counted(c, p));
    SumKeysIsTotal(keys, p, Counted(c, p));
  }

  lemma KeysAreNamed(current: seq<SourceRow>, previous: seq<SourceRow>)
    ensures Distinct(ReportKeys(current, previous))
    ensures forall row | row in current || row in previous :: Key(row) in ReportKeys(current, previous)
  {
    hide LegacyRows, Key;
    FirstSeenExact(current + previous + LegacyRows());
    forall row | row in current || row in previous
      ensures HasKey(current + previous + LegacyRows(), Key(row))
    {
      assert row in current + previous + LegacyRows();
    }
  }

  // ---------- Supported amounts the totals leave out ----------

  function SupportedAmount(rows: seq<SourceRow>): int {
    if rows == [] then 0
    else SupportedAmount(rows[..|rows| - 1]) + if rows[|rows| - 1].supported then rows[|rows| - 1].amount else 0
  }

  // The supported amounts booked under a key that some unsupported source row has too.
  function ClashingAmount(rows: seq<SourceRow>, sources: seq<SourceRow>): int {
    if rows == [] then 0
    else
      var row := rows[|rows| - 1];
      ClashingAmount(rows[..|rows| - 1], sources) + if row.supported && !AllSupported(sources, Key(row))
          then row.amount else 0
  }

  lemma {:induction false} CountedAmounts(rows: seq<SourceRow>, current: seq<SourceRow>, previous: seq<SourceRow>)
    requires forall row | row in rows :: row in current + previous
    ensures TotalWhere(rows, Counted(current, previous))
            == SupportedAmount(rows) - ClashingAmount(rows, current + previous)
  {
    hide Key;
    if rows != [] {
      CountedAmounts(rows[..|rows| - 1], current, previous);
      assert rows[|rows| - 1] in rows;
    }
  }

  // The totals of a report are the supported amounts, less those whose key clashes with an unsupported row.
  lemma TotalsCountSupported(current: Period, previous: Period)
    ensures var report, sources := ReportOf(current, previous), current.rows + previous.rows;
            && report.currentTotal == SupportedAmount(current.rows) - ClashingAmount(current.rows, sources)
            && report.previousTotal == SupportedAmount(previous.rows) - ClashingAmount(previous.rows, sources)
  {
    hide ReportOf, TotalWhere, SupportedAmount, ClashingAmount, Counted;
    ReportConservesAmounts(current, previous);
    CountedAmounts(current.rows, current.rows, previous.rows);
    CountedAmounts(previous.rows, current.rows, previous.rows);
  }

  // No supported amount is left out when no supported subject has the separator in its key.
  lemma {:induction false} SeparatorFreeKeysNeverClash(rows: seq<SourceRow>, sources: seq<SourceRow>)
    requires forall row | row in rows && row.supported :: '|' !in Key(row)
    ensures ClashingAmount(rows, sources) == 0
  {
    if rows != [] {
      var row := rows[|rows| - 1];
      SeparatorFreeKeysNeverClash(rows[..|rows| - 1], sources);
      assert row in rows;
      forall other | other in sources && Key(other) == Key(row) && row.supported
        ensures other.supported
      {
        UnsupportedKeyHasSeparator(other);
      }
    }
  }

  lemma UnsupportedKeyHasSeparator(row: SourceRow)
    ensures !row.supported ==> '|' in Key(row)
  {
    if !row.supported {
      assert Key(row)[|row.code|] == '|';
    }
  }

  // The merge itself does not rule a clash out: here a supported amount drops out of the totals. The
  // repository's query returns no such rows (see `QueriedTotalsAreExact`).
  lemma ClashExample(amount: int)
    ensures var current := Period(2025, 1,
            [SourceRow("a|b|", "x", amount, true, None), SourceRow("a", "b", 0, false, None)]);
            SupportedAmount(current.rows) == amount && ReportOf(current, Period(2024, 12, [])).currentTotal == 0
  {
    var rows := [SourceRow("a|b|", "x", amount, true, None), SourceRow("a", "b", 0, false, None)];
    assert Key(rows[0]) == Key(rows[1]) == "a|b|";
    assert rows[..1] == [rows[0]];
    assert rows + [] == rows && !rows[1].supported && rows[1] in rows;
    TotalsCountSupported(Period(2025, 1, rows), Period(2024, 12, []));
    assert ClashingAmount(rows, rows) == amount;
  }

  // ---------- The fixed subjects, once each ----------

  // Two letters that tell the fixed subjects apart.
  function Marks(): seq<string> {
    ["ma", "sa", "su", "ut", "cl", "re", "co", "ta"]
  }

  lemma LegacyMark(n: nat)
    requires n < |LegacyRows()|
    ensures |LegacyRows()| == |Marks()| && |LegacyRows()[n].code| >= 9 && LegacyRows()[n].code[7..9] == Marks()[n]
  {
    hide Key;
    MarkedCodes();
  }

  lemma MarkedCodes()
    ensures "legacy_management_income"[7..9] == "ma" && "legacy_salary_expense"[7..9] == "sa"
    ensures "legacy_supplies_expense"[7..9] == "su" && "legacy_utilities_expense"[7..9] == "ut"
    ensures "legacy_cleaning_expense"[7..9] == "cl" && "legacy_repair_expense"[7..9] == "re"
    ensures "legacy_commission_expense"[7..9] == "co" && "legacy_tax_expense"[7..9] == "ta"
  {
  }

  lemma KeyStartsWithCode(row: SourceRow)
    requires !row.supported && |row.code| >= 9
    ensures |Key(row)| >= 9 && Key(row)[7..9] == row.code[7..9]
  {
    assert Key(row)[..|row.code|] == row.code;
  }

  lemma LegacyKeysDiffer(i: nat, j: nat)
    requires i < j < |LegacyRows()|
    ensures Key(LegacyRows()[i]) != Key(LegacyRows()[j])
  {
    LegacyMark(i);
    LegacyMark(j);
    hide Key;
    KeyStartsWithCode(LegacyRows()[i]);
    KeyStartsWithCode(LegacyRows()[j]);
    assert Marks()[i][0] != Marks()[j][0] || Marks()[i][1] != Marks()[j][1];
  }

  // A fixed row has no amounts, is not supported and says so.
  lemma LegacyRowIs(n: nat)
    requires n < |LegacyRows()|
    ensures var row := Opened(LegacyRows()[n]);
            && row.currentAmount == row.previousAmount == row.deltaAmount == 0 && !row.supported
            && row.code == LegacyRows()[n].code && row.name == LegacyRows()[n].name
            && row.note == Some("未支援舊系統損益科目：" + row.name)
  {
  }

  // Each fixed subject heads exactly one row, its own fixed row unless a source row has the key.
  lemma LegacyOnce(current: seq<SourceRow>, previous: seq<SourceRow>, n: nat) returns (i: nat)
    requires n < |LegacyRows()|
    ensures i < |ReportKeys(current, previous)| == |ReportRows(current, previous)|
    ensures forall j: nat | j < |ReportKeys(current, previous)| ::
            ReportKeys(current, previous)[j] == Key(LegacyRows()[n]) <==> j == i
    ensures !HasKey(current + previous, Key(LegacyRows()[n])) ==>
              ReportRows(current, previous)[i] == Opened(LegacyRows()[n])
  {
    hide *;
    var key := Key(LegacyRows()[n]);
    assert LegacyRows()[..|LegacyRows()|] == LegacyRows();
    FirstLegacy(n, |LegacyRows()|);
    HasKeyAppend(current + previous, LegacyRows(), key);
    i := SeenOnce(current, previous, key);
    RowAt(current, previous, i);
    UnusedLegacyRow(current, previous, key);
  }

  lemma SeenOnce(current: seq<SourceRow>, previous: seq<SourceRow>, key: string) returns (i: nat)
    requires HasKey(current + previous + LegacyRows(), key)
    ensures i < |ReportKeys(current, previous)|
    ensures forall j: nat | j < |ReportKeys(current, previous)| :: ReportKeys(current, previous)[j] == key <==> j == i
  {
    hide HasKey, Key, FirstSeen, LegacyRows;
    FirstSeenExact(current + previous + LegacyRows());
    assert key in ReportKeys(current, previous);
    i :| 0 <= i < |ReportKeys(current, previous)| && ReportKeys(current, previous)[i] == key;
  }

  lemma UnusedLegacyRow(current: seq<SourceRow>, previous: seq<SourceRow>, key: string)
    requires HasKey(LegacyRows(), key) && HasKey(current + previous + LegacyRows(), key)
    ensures !HasKey(current + previous, key) ==>
              ReportRow(current, previous, key) == Opened(FirstOf(LegacyRows(), key))
  {
    hide HasKey, Key, FirstOf, LegacyRows;
  }

  lemma {:induction false} FirstLegacy(n: nat, m: nat)
    requires n < m <= |LegacyRows()|
    ensures HasKey(LegacyRows()[..m], Key(LegacyRows()[n]))
    ensures FirstOf(LegacyRows()[..m], Key(LegacyRows()[n])) == LegacyRows()[n]
  {
    var rows := LegacyRows();
    hide LegacyRows, Key;
    assert rows[..m] == rows[..m - 1] + [rows[m - 1]];
    SubjectAfter(rows[..m - 1], rows[m - 1], Key(rows[n]));
    if n < m - 1 {
      FirstLegacy(n, m - 1);
    } else if HasKey(rows[..n], Key(rows[n])) {
      var row :| row in rows[..n] && Key(row) == Key(rows[n]);
      var i :| 0 <= i < n && rows[..n][i] == row;
      LegacyKeysDiffer(i, n);
    }
  }

  // ---------- The rows the repository returns ----------

  const MAX_CODE_LENGTH := 20
  const UNSUPPORTED_NOTE := "未支援會計分類："

  // A supported row has a title code; an unsupported one is spelled by the query, its category in the note.
  predicate AsQueried(row: SourceRow) {
    if row.supported then 0 < |row.code| <= MAX_CODE_LENGTH
    else && row.code == "unsupported" && row.name == "未支援科目"
         && row.note.Some? && |row.note.value| >= |UNSUPPORTED_NOTE|
             && row.note.value[..|UNSUPPORTED_NOTE|] == UNSUPPORTED_NOTE
  }

  lemma QueriedKey(row: SourceRow)
    requires AsQueried(row)
    ensures row.supported ==> |Key(row)| <= MAX_CODE_LENGTH
    ensures !row.supported ==> |Key(row)| > MAX_CODE_LENGTH && Key(row)[0] == 'u'
  {
    if !row.supported {
      assert Key(row)[0] == row.code[0];
    }
  }

  lemma LegacyKey(n: nat)
    requires n < |LegacyRows()|
    ensures |Key(LegacyRows()[n])| > MAX_CODE_LENGTH && Key(LegacyRows()[n])[0] == 'l'
  {
    var row := LegacyRows()[n];
    assert Key(row)[0] == row.code[0];
  }

  lemma {:induction false} QueriedRowsNeverClash(rows: seq<SourceRow>, sources: seq<SourceRow>)
    requires forall row | row in rows || row in sources :: AsQueried(row)
    ensures ClashingAmount(rows, sources) == 0
  {
    hide Key, AsQueried;
    if rows != [] {
      var row := rows[|rows| - 1];
      QueriedRowsNeverClash(rows[..|rows| - 1], sources);
      QueriedKey(row);
      forall other | other in sources && Key(other) == Key(row) && row.supported
        ensures other.supported
      {
        QueriedKey(other);
      }
    }
  }

  // On the rows the repository returns, the totals are exactly the supported amounts of each month, and
  // every fixed subject keeps its own row of zeros.
  lemma QueriedTotalsAreExact(current: Period, previous: Period)
    requires forall row | row in current.rows + previous.rows :: AsQueried(row)
    ensures var report := ReportOf(current, previous);
            && report.currentTotal == SupportedAmount(current.rows)
            && report.previousTotal == SupportedAmount(previous.rows)
            && report.deltaTotal == SupportedAmount(current.rows) - SupportedAmount(previous.rows)
    ensures forall n: nat | n < |LegacyRows()| ::
              exists i | 0 <= i < |ReportOf(current, previous).rows| ::
                  ReportOf(current, previous).rows[i] == Opened(LegacyRows()[n])
  {
    var sources := current.rows + previous.rows;
    TotalsCountSupported(current, previous);
    ReportConservesAmounts(current, previous);
    QueriedRowsNeverClash(current.rows, sources);
    QueriedRowsNeverClash(previous.rows, sources);
    forall n: nat | n < |LegacyRows()|
      ensures exists i | 0 <= i < |ReportOf(current, previous).rows| ::
              ReportOf(current, previous).rows[i] == Opened(LegacyRows()[n])
    {
      LegacyKeyIsFree(sources, n);
      var i := LegacyOnce(current.rows, previous.rows, n);
      hide LegacyRows, Key, ReportRows, Opened, HasKey;
      assert ReportOf(current, previous).rows == ReportRows(current.rows, previous.rows);
    }
  }

  lemma LegacyKeyIsFree(sources: seq<SourceRow>, n: nat)
    requires forall row | row in sources :: AsQueried(row)
    requires n < |LegacyRows()|
    ensures !HasKey(sources, Key(LegacyRows()[n]))
  {
    LegacyKey(n);
    hide Key, LegacyRows, AsQueried;
    forall row | row in sources
      ensures Key(row) != Key(LegacyRows()[n])
    {
      QueriedKey(row);
    }
  }
}
