/**
 Usage from the CLI database (usage-sources.cjs, readDatabase): one observation a row when
 rows have a stable key, and otherwise one a model, with exact sums of complete columns.
 */
module DatabaseReader {
  import opened Results
  import DeltaLog
  import JsonText
  import opened Totals
  import opened UsageImports
  import opened JsonTree
  import opened UsageReader

  const MAX_ROWS := 10_000
  const MAX_MODEL := 512

  datatype Column = InputColumn | OutputColumn | CacheReadColumn | CacheWriteColumn | NanoAiuColumn

  // A row as it is selected: NULL or a missing column is absent, text or a blob reads -1.
  datatype DatabaseRecord = DatabaseRecord(
    model: Json, key: Option<Json>,
    input: Option<Json>, output: Option<Json>, cacheRead: Option<Json>, cacheWrite: Option<Json>, nanoAiu: Option<Json>)
  {
    function Cell(c: Column): Option<Json> {
      match c
      case InputColumn => input
      case OutputColumn => output
      case CacheReadColumn => cacheRead
      case CacheWriteColumn => cacheWrite
      case NanoAiuColumn => nanoAiu
    }
  }

  function MaxOf(c: Column): nat {
    if c.NanoAiuColumn? then MAXIMUM_NANO_AIU else MAXIMUM_COUNT
  }

  function FieldOf(f: Fields, c: Column): Option<int> {
    match c
    case InputColumn => f.input
    case OutputColumn => f.output
    case CacheReadColumn => f.cacheRead
    case CacheWriteColumn => f.cacheWrite
    case NanoAiuColumn => f.nanoAiu
  }

  function Read(row: DatabaseRecord, c: Column): Result<Option<int>, SourceError> {
    NumberValue(row.Cell(c), MaxOf(c))
  }

  // Every cell holds a count or nothing.
  ghost predicate CellsReadable(row: DatabaseRecord) {
    forall c :: IsCountOrAbsent(row.Cell(c), MaxOf(c))
  }

  function RowFields(row: DatabaseRecord): (r: Result<Fields, SourceError>)
    ensures r.Ok? ==> FieldsInRange(r.value) && forall c :: Read(row, c) == Ok(FieldOf(r.value, c))
    ensures r.Ok? <==> CellsReadable(row)
  {
    match (Read(row, InputColumn), Read(row, OutputColumn), Read(row, CacheReadColumn), Read(row, CacheWriteColumn),
        Read(row, NanoAiuColumn))
    case (Ok(a), Ok(b), Ok(c), Ok(d), Ok(e)) => Ok(Fields(a, b, c, d, e))
    case _ =>
      assert Read(row, InputColumn).Err? || Read(row, OutputColumn).Err? || Read(row, CacheReadColumn).Err?
          || Read(row, CacheWriteColumn).Err? || Read(row, NanoAiuColumn).Err?;
      Err(InvalidUsage)
  }

  // ----- Rows with a stable key -----

  predicate ModelReadable(model: Json) {
    model.Null? || model.Text?
  }

  function KeyText(key: Option<Json>): Option<string> {
    match key
    case Some(Text(s)) => Some(s)
    case Some(Number(Safe(n))) => DeltaLog.SegmentText(Number(Safe(n)))
    case _ => None
  }


  function KeyedRow(context: Context, column: string, row: DatabaseRecord): Result<UsageObservation, SourceError> {
    var key := KeyText(row.key);
    if !ModelReadable(row.model) then Err(InvalidUsage)
    else if key.None? || Units(key.value) == 0 || Units(key.value) > MAX_ID then Err(UnsupportedFormat)
    else match RowFields(row)
      case Err(e) => Err(e)
      case Ok(f) =>
          Observe(context, ObservationKey.DatabaseRow(column, key.value), Some(row.model), None, f, None, false)
  }

  function KeyedRows(context: Context, column: string, rows: seq<DatabaseRecord>): Result<seq<UsageObservation>,
                     SourceError> {
    if rows == [] then Ok([])
    else match KeyedRows(context, column, rows[..|rows| - 1])
      case Err(e) => Err(e)
      case Ok(earlier) =>
        match KeyedRow(context, column, rows[|rows| - 1])
        case Err(e) => Err(e)
        case Ok(o) => Ok(earlier + [o])
  }

  // A key is a text of 1 to 512 characters, or a whole number of as many.
  predicate KeyReadable(key: Option<Json>) {
    match key
    case Some(Text(s)) => 0 < Units(s) <= 512
    case Some(Number(Safe(n))) => 0 < Units(if n < 0 then "-" + JsonText.Digits(-n) else JsonText.Digits(n)) <= 512
    case _ => false
  }

  // A row with a key, and a model and cells that can be read.
  ghost predicate KeyedRowReadable(row: DatabaseRecord) {
    ModelReadable(row.model) && KeyReadable(row.key) && CellsReadable(row)
  }

  ghost predicate AllKeyed(rows: seq<DatabaseRecord>) {
    forall i | 0 <= i < |rows| :: KeyedRowReadable(rows[i])
  }

  lemma KeyedOneMore(rows: seq<DatabaseRecord>)
    requires rows != []
    ensures AllKeyed(rows) <==> AllKeyed(rows[..|rows| - 1]) && KeyedRowReadable(rows[|rows| - 1])
  {
    var n := |rows| - 1;
    assert forall i | 0 <= i < n :: rows[..n][i] == rows[i];
  }

  lemma KeyIsReadExactly(key: Option<Json>)
    ensures KeyReadable(key) <==> KeyText(key).Some? && 0 < Units(KeyText(key).value) <= MAX_ID
  {
  }

  lemma KeyedRowIsReadExactly(context: Context, column: string, row: DatabaseRecord)
    ensures KeyedRow(context, column, row).Ok? <==> KeyedRowReadable(row)
  {
    KeyIsReadExactly(row.key);
  }

  lemma {:induction false} KeyedRowsAreReadExactly(context: Context, column: string, rows: seq<DatabaseRecord>)
    ensures KeyedRows(context, column, rows).Ok? <==> AllKeyed(rows)
  {
    if rows != [] {
      KeyedRowsAreReadExactly(context, column, rows[..|rows| - 1]);
      KeyedRowIsReadExactly(context, column, rows[|rows| - 1]);
      KeyedOneMore(rows);
    }
  }

  // ----- Per-model totals -----

  // What one column of a model has come to: a sum, and whether a row did not report it.
  datatype Aggregate = Aggregate(totals: map<Column, int>, missing: set<Column>)

  const ALL_COLUMNS: seq<Column> := [InputColumn, OutputColumn, CacheReadColumn, CacheWriteColumn, NanoAiuColumn]

  // The cells of one model in one column, as read.
  function CellsOf(rows: seq<DatabaseRecord>, model: Json, c: Column): seq<Option<int>> {
    if rows == [] then []
    else
      var last := rows[|rows| - 1];
      CellsOf(rows[..|rows| - 1], model, c) +
        if last.model == model then [if Read(last, c).Ok? then Read(last, c).value else None] else []
  }

  function Sum(cells: seq<Option<int>>): int {
    if cells == [] then 0 else Sum(cells[..|cells| - 1]) + cells[|cells| - 1].GetOr(0)
  }

  predicate Complete(cells: seq<Option<int>>) {
    forall i | 0 <= i < |cells| :: cells[i].Some?
  }

  predicate AnyReported(cells: seq<Option<int>>) {
    exists i | 0 <= i < |cells| :: cells[i].Some?
  }

  // The aggregate says of a column what the cells say.
  ghost predicate Says(a: Aggregate, c: Column, cells: seq<Option<int>>) {
    && (c in a.missing <==> !Complete(cells))
    && (if c in a.totals then a.totals[c] else 0) == Sum(cells)
    && (c in a.totals <==> AnyReported(cells))
  }

  ghost predicate AggregatesColumn(a: Aggregate, rows: seq<DatabaseRecord>, model: Json, c: Column) {
    Says(a, c, CellsOf(rows, model, c))
  }

  ghost predicate Aggregated(a: Aggregate, rows: seq<DatabaseRecord>, model: Json) {
    forall c :: AggregatesColumn(a, rows, model, c)
  }

  const NOTHING := Aggregate(map[], {})

  function AddCell(a: Aggregate, c: Column, value: Option<int>): Aggregate {
    if value.None? then a.(missing := a.missing + {c})
    else a.(totals := a.totals[c := (if c in a.totals then a.totals[c] else 0) + value.value])
  }

  function AddCells(a: Aggregate, f: Fields, columns: seq<Column>): Aggregate {
    if columns == [] then a
    else AddCell(AddCells(a, f, columns[..|columns| - 1]), columns[|columns| - 1], FieldOf(f, columns[|columns| - 1]))
  }

  // The models in order of first mention.
  function Models(rows: seq<DatabaseRecord>): seq<Json> {
    if rows == [] then []
    else
      var earlier, model := Models(rows[..|rows| - 1]), rows[|rows| - 1].model;
      if model in earlier then earlier else earlier + [model]
  }

  ghost predicate RowReadable(row: DatabaseRecord) {
    && (row.model.Null? || (row.model.Text? && Units(row.model.text) <= 512))
    && CellsReadable(row)
  }

  ghost predicate Aggregating(rows: seq<DatabaseRecord>, models: seq<Json>, aggregates: map<Json, Aggregate>) {
    && models == Models(rows)
    && (forall m :: m in aggregates <==> m in models)
    && (forall m | m in aggregates :: Aggregated(aggregates[m], rows, m))
  }

  lemma CellsOneMore(rows: seq<DatabaseRecord>, row: DatabaseRecord, model: Json, c: Column)
    ensures CellsOf(rows + [row], model, c) ==
            if row.model == model then CellsOf(rows, model, c) + [if Read(row, c).Ok? then Read(row, c).value else None]
            else CellsOf(rows, model, c)
  {
    assert (rows + [row])[..|rows|] == rows;
    assert CellsOf(rows, model, c) + [] == CellsOf(rows, model, c);
  }

  lemma SaysOneMore(a: Aggregate, c: Column, cells: seq<Option<int>>, value: Option<int>)
    requires Says(a, c, cells)
    ensures Says(AddCell(a, c, value), c, cells + [value])
  {
    var after := cells + [value];
    assert after[..|cells|] == cells && after[|cells|] == value;
    assert Complete(after) <==> Complete(cells) && value.Some? by {
      if Complete(after) { assert forall i | 0 <= i < |cells| :: after[i] == cells[i]; }
    }
    assert AnyReported(after) <==> AnyReported(cells) || value.Some? by {
      if AnyReported(cells) {
        var i :| 0 <= i < |cells| && cells[i].Some?;
        assert after[i].Some?;
      }
    }
  }

  lemma AddOneColumn(a: Aggregate, rows: seq<DatabaseRecord>, row: DatabaseRecord, c: Column, value: Option<int>)
    requires AggregatesColumn(a, rows, row.model, c) && Read(row, c) == Ok(value)
    ensures AggregatesColumn(AddCell(a, c, value), rows + [row], row.model, c)
  {
    CellsOneMore(rows, row, row.model, c);
    SaysOneMore(a, c, CellsOf(rows, row.model, c), value);
  }

  lemma OtherColumn(a: Aggregate, rows: seq<DatabaseRecord>, model: Json, c: Column, other: Column, value: Option<int>)
    requires AggregatesColumn(a, rows, model, c) && c != other
    ensures AggregatesColumn(AddCell(a, other, value), rows, model, c)
  {
  }

  lemma {:induction false} AddCellsAdds(a: Aggregate, rows: seq<DatabaseRecord>, row: DatabaseRecord, f: Fields,
                                        columns: seq<Column>, c: Column)
    requires Aggregated(a, rows, row.model) && RowFields(row) == Ok(f)
    requires Distinct(columns)
    ensures AggregatesColumn(AddCells(a, f, columns), if c in columns then rows + [row] else rows, row.model, c)
  {
    if columns == [] {
      assert AggregatesColumn(a, rows, row.model, c);
    } else {
      var init, last := columns[..|columns| - 1], columns[|columns| - 1];
      assert columns == init + [last] && last !in init;
      AddCellsAdds(a, rows, row, f, init, c);
      assert Read(row, c) == Ok(FieldOf(f, c));
      if c == last {
        AddOneColumn(AddCells(a, f, init), rows, row, c, FieldOf(f, c));
      } else {
        OtherColumn(AddCells(a, f, init), if c in init then rows + [row]
            else rows, row.model, c, last, FieldOf(f, last));
      }
    }
  }

  lemma OtherModel(a: Aggregate, rows: seq<DatabaseRecord>, row: DatabaseRecord, model: Json)
    requires Aggregated(a, rows, model) && model != row.model
    ensures Aggregated(a, rows + [row], model)
  {
    forall c ensures AggregatesColumn(a, rows + [row], model, c) {
      assert AggregatesColumn(a, rows, model, c);
      CellsOneMore(rows, row, model, c);
    }
  }

  lemma {:induction false} UnmentionedHasNoCells(rows: seq<DatabaseRecord>, model: Json, c: Column)
    requires model !in Models(rows)
    ensures CellsOf(rows, model, c) == []
  {
    if rows != [] {
      assert rows[|rows| - 1].model in Models(rows);
      UnmentionedHasNoCells(rows[..|rows| - 1], model, c);
    }
  }

  lemma AllColumns()
    ensures Distinct(ALL_COLUMNS) && forall c: Column :: c in ALL_COLUMNS
  {
    forall c: Column ensures c in ALL_COLUMNS {
      match c
      case InputColumn => assert ALL_COLUMNS[0] == c;
      case OutputColumn => assert ALL_COLUMNS[1] == c;
      case CacheReadColumn => assert ALL_COLUMNS[2] == c;
      case CacheWriteColumn => assert ALL_COLUMNS[3] == c;
      case NanoAiuColumn => assert ALL_COLUMNS[4] == c;
    }
  }

  lemma OneMoreRow(rows: seq<DatabaseRecord>, models: seq<Json>, aggregates: map<Json, Aggregate>, row: DatabaseRecord,
                   f: Fields)
    requires Aggregating(rows, models, aggregates) && RowFields(row) == Ok(f)
    ensures var known := row.model in aggregates;
            var a := if known then aggregates[row.model] else NOTHING;
            Aggregating(rows + [row], if known then models
                else models + [row.model], aggregates[row.model := AddCells(a, f, ALL_COLUMNS)])
  {
    var known := row.model in aggregates;
    var a := if known then aggregates[row.model] else NOTHING;
    var after := aggregates[row.model := AddCells(a, f, ALL_COLUMNS)];
    assert (rows + [row])[..|rows|] == rows;
    if !known {
      forall c ensures AggregatesColumn(NOTHING, rows, row.model, c) {
        UnmentionedHasNoCells(rows, row.model, c);
      }
    }
    AllColumns();
    forall m | m in after ensures Aggregated(after[m], rows + [row], m) {
      if m == row.model {
        forall c ensures AggregatesColumn(after[m], rows + [row], m, c) {
          AddCellsAdds(a, rows, row, f, ALL_COLUMNS, c);
        }
      } else {
        OtherModel(aggregates[m], rows, row, m);
      }
    }
  }

  // The fields of one row, added to the aggregate of its model.
  method AddRow(aggregate: Aggregate, f: Fields) returns (r: Aggregate)
    ensures r == AddCells(aggregate, f, ALL_COLUMNS)
  {
    r := aggregate;
    for k := 0 to |ALL_COLUMNS|
      invariant r == AddCells(aggregate, f, ALL_COLUMNS[..k])
    {
      assert ALL_COLUMNS[..k + 1][..k] == ALL_COLUMNS[..k];
      r := AddCell(r, ALL_COLUMNS[k], FieldOf(f, ALL_COLUMNS[k]));
    }
    assert ALL_COLUMNS[..|ALL_COLUMNS|] == ALL_COLUMNS;
  }

  // One more row: its model gets an aggregate unless it has one, and the row is added to it.
  method Accumulate(ghost rows: seq<DatabaseRecord>, models: seq<Json>, aggregates: map<Json, Aggregate>,
                    row: DatabaseRecord, f: Fields)
    returns (more: seq<Json>, after: map<Json, Aggregate>)
    requires Aggregating(rows, models, aggregates) && RowFields(row) == Ok(f)
    ensures Aggregating(rows + [row], more, after)
  {
    OneMoreRow(rows, models, aggregates, row, f);
    more := models;
    var aggregate := NOTHING;
    if row.model in aggregates {
      aggregate := aggregates[row.model];
    } else {
      more := models + [row.model];
    }
    aggregate := AddRow(aggregate, f);
    after := aggregates[row.model := aggregate];
  }

  // The rows of each model, added up.
  method SumByModel(rows: seq<DatabaseRecord>) returns (r: Result<(seq<Json>, map<Json, Aggregate>), SourceError>)
    ensures r.Ok? <==> forall i | 0 <= i < |rows| :: RowReadable(rows[i])
    ensures r.Ok? ==> Aggregating(rows, r.value.0, r.value.1)
  {
    var models: seq<Json> := [];
    var aggregates: map<Json, Aggregate> := map[];
    for n := 0 to |rows|
      invariant Aggregating(rows[..n], models, aggregates)
      invariant forall i | 0 <= i < n :: RowReadable(rows[i])
    {
      var row := rows[n];
      assert rows[..n + 1] == rows[..n] + [row];
      if !(row.model.Null? || (row.model.Text? && Units(row.model.text) <= MAX_MODEL)) {
        return Err(InvalidUsage);
      }
      var fields := RowFields(row);
      if fields.Err? {
        return Err(fields.error);
      }
      models, aggregates := Accumulate(rows[..n], models, aggregates, row, fields.value);
    }
    assert rows[..|rows|] == rows;
    r := Ok((models, aggregates));
  }

  // The counters of one model's observation, from its aggregate.
  function Finished(a: Aggregate, c: Column): Result<Option<int>, SourceError> {
    if c in a.missing then Ok(None)
    else if c !in a.totals then Ok(None)
    else if a.totals[c] <= MaxOf(c) then Ok(Some(a.totals[c]))
    else Err(InvalidUsage)
  }

  function TotalFields(a: Aggregate): Result<Fields, SourceError> {
    match (Finished(a, InputColumn), Finished(a, OutputColumn), Finished(a, CacheReadColumn),
        Finished(a, CacheWriteColumn), Finished(a, NanoAiuColumn))
    case (Ok(i), Ok(o), Ok(r), Ok(w), Ok(n)) => Ok(Fields(i, o, r, w, n))
    case _ => Err(InvalidUsage)
  }

  lemma {:induction false} SumOfComplete(cells: seq<Option<int>>)
    requires forall i | 0 <= i < |cells| && cells[i].Some? :: cells[i].value >= 0
    ensures Sum(cells) >= 0
    ensures Complete(cells) && cells != [] ==> Total(cells) == Some(Sum(cells))
  {
    if cells != [] {
      var init, last := cells[..|cells| - 1], cells[|cells| - 1];
      SumOfComplete(init);
      assert cells == init + [last];
      TotalOfConcat(init, [last]);
      assert [last][1..] == [];
    }
  }

  lemma {:induction false} CellsAreCounts(rows: seq<DatabaseRecord>, model: Json, c: Column)
    ensures forall i | 0 <= i < |CellsOf(rows, model, c)| && CellsOf(rows, model, c)[i].Some? ::
            CellsOf(rows, model, c)[i].value >= 0
  {
    if rows != [] { CellsAreCounts(rows[..|rows| - 1], model, c); }
  }

  lemma {:induction false} MentionedHasCells(rows: seq<DatabaseRecord>, model: Json, c: Column)
    requires model in Models(rows)
    ensures CellsOf(rows, model, c) != []
  {
    if rows[|rows| - 1].model != model { MentionedHasCells(rows[..|rows| - 1], model, c); }
  }

  // A model's counter is the exact sum over its rows when every row reports it, absent
  // otherwise, and too large a sum is refused rather than cut off.
  lemma AggregationIsExact(rows: seq<DatabaseRecord>, models: seq<Json>, aggregates: map<Json, Aggregate>, model: Json,
                           c: Column)
    requires Aggregating(rows, models, aggregates) && model in models
    ensures Complete(CellsOf(rows, model, c)) ==> Total(CellsOf(rows, model, c)).Some?
    ensures var cells := CellsOf(rows, model, c);
            Finished(aggregates[model], c) ==
              if !Complete(cells) then Ok(None)
              else if Total(cells).value <= MaxOf(c) then Ok(Total(cells)) else Err(InvalidUsage)
  {
    var cells := CellsOf(rows, model, c);
    assert Aggregated(aggregates[model], rows, model);
    assert AggregatesColumn(aggregates[model], rows, model, c);
    CellsAreCounts(rows, model, c);
    MentionedHasCells(rows, model, c);
    SumOfComplete(cells);
    if Complete(cells) { assert cells[0].Some?; }
  }
}
