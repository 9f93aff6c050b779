/**
 From a source to an import (usage-sources.cjs readSource and snapshot, usage-collector.cjs
 importBody): whatever the reader collects, the recorder's own rules accept.
 */
module UsageSnapshots {
  import opened Results
  import opened Text
  import opened Totals
  import opened Trace
  import opened UsageImports
  import opened Normalising
  import opened JsonTree
  import opened DeltaLog
  import opened UsageReader
  import opened EventReader
  import EventEvidence
  import opened DatabaseReader

  const MAX_EVENTS := 50_000

  datatype SourceFile =
    | JsonFile(tree: Json)
    | JsonLines(events: seq<Json>)
    | DatabaseFile(rows: seq<DatabaseRecord>, stableKey: Option<string>)

  datatype UsageSnapshot = UsageSnapshot(sourceId: string, sourceKind: string, format: string,
                                         observations: seq<UsageObservation>, revision: string)

  // ----- Trees within one budget -----

  function NodesOfAll(trees: seq<Json>): nat {
    if trees == [] then 0 else NodesOfAll(trees[..|trees| - 1]) + Nodes(trees[|trees| - 1])
  }

  lemma {:induction false} NodesOfPrefix(trees: seq<Json>, n: nat)
    requires n <= |trees|
    ensures NodesOfAll(trees[..n]) <= NodesOfAll(trees)
    decreases |trees| - n
  {
    if n < |trees| {
      assert trees[..n + 1][..n] == trees[..n];
      NodesOfPrefix(trees, n + 1);
    } else {
      assert trees[..n] == trees;
    }
  }

  // Every line of a log is checked against one node budget.
  method CheckLines(events: seq<Json>) returns (r: Result<(), SourceError>)
    ensures r.Ok? <==> 0 < |events| <= 50_000 && NodesOfAll(events) <= 200_000
                       && forall i | 0 <= i < |events| :: Bounded(events[i], 0)
  {
    if |events| == 0 {
      return Err(UnsupportedFormat);
    }
    if |events| > MAX_EVENTS {
      return Err(SourceTooLarge);
    }
    var nodes := 0;
    for n := 0 to |events|
      invariant nodes == NodesOfAll(events[..n]) && (n == 0 || nodes <= MAX_NODES)
      invariant forall i | 0 <= i < n :: Bounded(events[i], 0)
    {
      assert events[..n + 1][..n] == events[..n];
      NodesOfPrefix(events, n + 1);
      var checked := ValidateTree(events[n], nodes);
      if checked.Err? {
        return Err(checked.error);
      }
      nodes := checked.value;
    }
    assert events[..|events|] == events;
    r := Ok(());
  }

  // ----- Reading the database -----

  function ModelName(model: Json): Option<string> {
    if model.Text? then Some(model.text) else None
  }

  // The observation of one model: named after it, with the counters of its aggregate.
  ghost predicate IsModelTotal(context: Context, rows: seq<DatabaseRecord>, model: Json, o: UsageObservation) {
    && o.id == context.digest(context.id, ObservationKey.DatabaseModel(ModelName(model))) && o.timestamp.None?
    && o.model == ModelLabel(Some(model)) && o.estimatedInputTokens.None? && o.estimatedOutputTokens.None?
    && forall c :: Counter(o, c) == CompleteTotal(rows, model, c)
  }

  function Counter(o: UsageObservation, c: Column): Option<int> {
    match c
    case InputColumn => o.inputTokens
    case OutputColumn => o.outputTokens
    case CacheReadColumn => o.cacheReadTokens
    case CacheWriteColumn => o.cacheWriteTokens
    case NanoAiuColumn => o.nanoAiu
  }

  // The total of a column over the rows of a model, when all of them report it.
  function CompleteTotal(rows: seq<DatabaseRecord>, model: Json, c: Column): Option<int> {
    var cells := CellsOf(rows, model, c);
    if Complete(cells) then Total(cells) else None
  }

  lemma FinishedIsExact(rows: seq<DatabaseRecord>, models: seq<Json>, aggregates: map<Json, Aggregate>, model: Json,
                        c: Column)
    requires Aggregating(rows, models, aggregates) && model in models && Finished(aggregates[model], c).Ok?
    ensures var total := Finished(aggregates[model], c).value;
            total == CompleteTotal(rows, model, c) && (total.Some? ==> 0 <= total.value <= MaxOf(c))
  {
    AggregationIsExact(rows, models, aggregates, model, c);
    CellsAreCounts(rows, model, c);
    MentionedHasCells(rows, model, c);
    SumOfComplete(CellsOf(rows, model, c));
  }

  lemma FieldsAreFinished(a: Aggregate, f: Fields, c: Column)
    requires TotalFields(a) == Ok(f)
    ensures Finished(a, c) == Ok(FieldOf(f, c))
  {
  }

  // The complete totals of a model are counts the recorder takes.
  ghost predicate TotalsFit(rows: seq<DatabaseRecord>, model: Json) {
    forall c :: var total := CompleteTotal(rows, model, c); total.Some? ==> total.value <= MaxOf(c)
  }

  lemma TotalsFitExactly(rows: seq<DatabaseRecord>, models: seq<Json>, aggregates: map<Json, Aggregate>, model: Json)
    requires Aggregating(rows, models, aggregates) && model in models
    ensures TotalFields(aggregates[model]).Ok? <==> TotalsFit(rows, model)
  {
    var a := aggregates[model];
    forall c
      ensures Finished(a, c).Ok? <==>
              (CompleteTotal(rows, model, c).Some? ==> CompleteTotal(rows, model, c).value <= MaxOf(c))
    {
      AggregationIsExact(rows, models, aggregates, model, c);
    }
    FieldsByColumn(a);
  }

  lemma FieldsByColumn(a: Aggregate)
    ensures TotalFields(a).Ok? <==> forall c :: Finished(a, c).Ok?
  {
    if TotalFields(a).Ok? {
      forall c ensures Finished(a, c).Ok? { match c case _ => }
    }
  }

  lemma TotalFieldsAreExact(rows: seq<DatabaseRecord>, models: seq<Json>, aggregates: map<Json, Aggregate>, model: Json,
                            f: Fields)
    requires Aggregating(rows, models, aggregates) && model in models && TotalFields(aggregates[model]) == Ok(f)
    ensures FieldsInRange(f)
    ensures forall c :: FieldOf(f, c) == CompleteTotal(rows, model, c)
  {
    forall c ensures FieldOf(f, c) == CompleteTotal(rows, model, c)
             ensures FieldOf(f, c).Some? ==> 0 <= FieldOf(f, c).value <= MaxOf(c)
    {
      FieldsAreFinished(aggregates[model], f, c);
      FinishedIsExact(rows, models, aggregates, model, c);
    }
    InRangeByColumn(f);
  }

  lemma InRangeByColumn(f: Fields)
    requires forall c :: FieldOf(f, c).Some? ==> 0 <= FieldOf(f, c).value <= MaxOf(c)
    ensures FieldsInRange(f)
  {
    assert FieldOf(f, InputColumn) == f.input && FieldOf(f, OutputColumn) == f.output
        && FieldOf(f, CacheReadColumn) == f.cacheRead;
    assert FieldOf(f, CacheWriteColumn) == f.cacheWrite && FieldOf(f, NanoAiuColumn) == f.nanoAiu;
  }

  // Every row can be read, and the complete totals of every model fit.
  ghost predicate AllRowsFit(rows: seq<DatabaseRecord>) {
    && (forall i | 0 <= i < |rows| :: RowReadable(rows[i]))
    && (forall i | 0 <= i < |Models(rows)| :: TotalsFit(rows, Models(rows)[i]))
  }

  method PerModel(context: Context, rows: seq<DatabaseRecord>) returns (r: Result<seq<UsageObservation>, SourceError>)
    requires DigestsAreHashes(context) && context.kind == CLI
    ensures r.Ok? <==> AllRowsFit(rows)
    ensures r.Ok? ==> AllEmitted(context.kind, r.value) && |r.value| == |Models(rows)|
    ensures r.Ok? ==> forall i | 0 <= i < |r.value| :: IsModelTotal(context, rows, Models(rows)[i], r.value[i])
  {
    var summed := SumByModel(rows);
    if summed.Err? {
      return Err(summed.error);
    }
    r := TotalEach(context, rows, summed.value.0, summed.value.1);
  }

  method TotalEach(context: Context, rows: seq<DatabaseRecord>, models: seq<Json>, aggregates: map<Json, Aggregate>)
    returns (r: Result<seq<UsageObservation>, SourceError>)
    requires DigestsAreHashes(context) && context.kind == CLI && Aggregating(rows, models, aggregates)
    ensures r.Ok? <==> forall i | 0 <= i < |models| :: TotalsFit(rows, models[i])
    ensures r.Ok? ==> AllEmitted(context.kind, r.value) && |r.value| == |models|
    ensures r.Ok? ==> forall i | 0 <= i < |models| :: IsModelTotal(context, rows, models[i], r.value[i])
  {
    var observations: seq<UsageObservation> := [];
    for n := 0 to |models|
      invariant AreModelTotals(context, rows, models[..n], observations)
    {
      var total := ModelTotal(context, rows, models, aggregates, models[n]);
      if total.Err? {
        return Err(total.error);
      }
      assert models[..n + 1] == models[..n] + [models[n]];
      OneMoreModelTotal(context, rows, models[..n], observations, models[n], total.value);
      observations := observations + [total.value];
    }
    assert models[..|models|] == models;
    r := Ok(observations);
  }

  // The observations are the totals of these models, which all fit.
  ghost predicate AreModelTotals(context: Context, rows: seq<DatabaseRecord>, models: seq<Json>,
                                 observations: seq<UsageObservation>) {
    && |observations| == |models| && AllEmitted(context.kind, observations)
    && (forall i | 0 <= i < |models| :: TotalsFit(rows, models[i]))
    && (forall i | 0 <= i < |models| :: IsModelTotal(context, rows, models[i], observations[i]))
  }

  lemma OneMoreModelTotal(context: Context, rows: seq<DatabaseRecord>, models: seq<Json>,
                          observations: seq<UsageObservation>, model: Json, total: UsageObservation)
    requires AreModelTotals(context, rows, models, observations)
    requires TotalsFit(rows, model) && IsModelTotal(context, rows, model, total) && Emitted(context.kind, total)
    ensures AreModelTotals(context, rows, models + [model], observations + [total])
  {
    var more, totals := models + [model], observations + [total];
    AppendEmitted(context.kind, observations, total);
    forall i | 0 <= i < |more| ensures TotalsFit(rows, more[i]) && IsModelTotal(context, rows, more[i], totals[i]) {
      if i < |models| { assert more[i] == models[i] && totals[i] == observations[i]; }
    }
  }

  method ModelTotal(context: Context, rows: seq<DatabaseRecord>, ghost models: seq<Json>,
                    aggregates: map<Json, Aggregate>, model: Json)
    returns (r: Result<UsageObservation, SourceError>)
    requires DigestsAreHashes(context) && context.kind == CLI && Aggregating(rows, models, aggregates)
             && model in models
    ensures r.Ok? <==> TotalsFit(rows, model)
    ensures r.Ok? ==> Emitted(context.kind, r.value) && IsModelTotal(context, rows, model, r.value)
  {
    TotalsFitExactly(rows, models, aggregates, model);
    var fields := TotalFields(aggregates[model]);
    if fields.Err? {
      return Err(fields.error);
    }
    TotalFieldsAreExact(rows, models, aggregates, model, fields.value);
    var key := ObservationKey.DatabaseModel(ModelName(model));
    ObservedIsEmitted(context, key, Some(model), None, fields.value, None, false);
    r := Observe(context, key, Some(model), None, fields.value, None, false);
    TotalIsObserved(context, rows, model, fields.value, r.value);
  }

  lemma TotalIsObserved(context: Context, rows: seq<DatabaseRecord>, model: Json, f: Fields, o: UsageObservation)
    requires forall c :: FieldOf(f, c) == CompleteTotal(rows, model, c)
    requires Observe(context, ObservationKey.DatabaseModel(ModelName(model)), Some(model), None, f, None, false) ==
             Ok(o)
    ensures IsModelTotal(context, rows, model, o)
  {
    forall c ensures Counter(o, c) == CompleteTotal(rows, model, c) {
      assert FieldOf(f, c) == Counter(o, c);
    }
  }

  lemma {:induction false} KeyedRowsAreEmitted(context: Context, column: string, rows: seq<DatabaseRecord>)
    requires DigestsAreHashes(context) && context.kind == CLI && KeyedRows(context, column, rows).Ok?
    ensures AllEmitted(context.kind, KeyedRows(context, column, rows).value)
  {
    if rows != [] {
      var row := rows[|rows| - 1];
      KeyedRowsAreEmitted(context, column, rows[..|rows| - 1]);
      ObservedIsEmitted(context, ObservationKey.DatabaseRow(column, KeyText(row.key).value), Some(row.model), None,
                        RowFields(row).value, None, false);
    }
  }

  // ----- One snapshot -----

  // Observations with one id agree, so dropping repetitions loses nothing.
  ghost predicate Consistent(observations: seq<UsageObservation>) {
    forall i, j | 0 <= i < j < |observations| ::
        observations[i].id == observations[j].id ==> observations[i] == observations[j]
  }

  ghost predicate SameMembers(a: seq<UsageObservation>, b: seq<UsageObservation>) {
    forall o :: o in a <==> o in b
  }

  // new Map() by id, refusing a second observation that differs.
  method Deduplicate(observations: seq<UsageObservation>) returns (r: Result<seq<UsageObservation>, SourceError>)
    ensures r.Ok? <==> Consistent(observations)
    ensures r.Ok? ==> Distinct(Ids(r.value)) && SameMembers(r.value, observations) && |r.value| <= |observations|
  {
    var unique: map<string, UsageObservation> := map[];
    var order: seq<UsageObservation> := [];
    for n := 0 to |observations|
      invariant Consistent(observations[..n]) && Distinct(Ids(order)) && SameMembers(order, observations[..n])
          && |order| <= n
      invariant forall id :: id in unique <==> exists o :: o in order && o.id == id
      invariant forall id | id in unique :: unique[id] in order && unique[id].id == id
    {
      var item := observations[n];
      assert observations[..n + 1] == observations[..n] + [item];
      if item.id in unique {
        KnownItem(observations, n, order, unique[item.id]);
        if unique[item.id] != item {
          return Err(InvalidUsage);
        }
      } else {
        NewItem(observations, n, order);
        order := order + [item];
        unique := unique[item.id := item];
      }
    }
    assert observations[..|observations|] == observations;
    r := Ok(order);
  }

  lemma KnownItem(observations: seq<UsageObservation>, n: nat, order: seq<UsageObservation>, known: UsageObservation)
    requires n < |observations| && Consistent(observations[..n]) && SameMembers(order, observations[..n])
    requires known in order && known.id == observations[n].id
    ensures known != observations[n] ==> !Consistent(observations)
    ensures known == observations[n] ==> Consistent(observations[..n + 1]) && SameMembers(order, observations[..n + 1])
  {
    assert observations[..n + 1] == observations[..n] + [observations[n]];
    assert known in observations[..n];
    var k :| 0 <= k < n && observations[k] == known;
    if known == observations[n] {
      forall i, j | 0 <= i < j < n + 1 && observations[i].id == observations[j].id
          ensures observations[i] == observations[j] {
        assert observations[..n][i] == observations[i] && observations[..n][k] == observations[k];
        if j < n { assert observations[..n][j] == observations[j]; }
      }
    }
  }

  lemma NewItem(observations: seq<UsageObservation>, n: nat, order: seq<UsageObservation>)
    requires n < |observations| && Consistent(observations[..n]) && SameMembers(order, observations[..n])
             && Distinct(Ids(order))
    requires forall o | o in order :: o.id != observations[n].id
    ensures Consistent(observations[..n + 1]) && SameMembers(order + [observations[n]], observations[..n + 1])
    ensures Distinct(Ids(order + [observations[n]]))
  {
    var item := observations[n];
    assert observations[..n + 1] == observations[..n] + [item];
    forall i | 0 <= i < n ensures observations[i].id != item.id {
      assert observations[..n][i] in order;
    }
    assert forall i, j | 0 <= i < j < n ::
        observations[..n][i] == observations[i] && observations[..n][j] == observations[j];
    var more := order + [item];
    forall i, j | 0 <= i < j < |more| ensures Ids(more)[i] != Ids(more)[j] {
      if j < |order| {
        assert Ids(order)[i] != Ids(order)[j];
      } else {
        assert order[i] in order;
      }
    }
  }

  // What a snapshot from this reader keeps.
  ghost predicate SnapshotOk(context: Context, s: UsageSnapshot) {
    && s.sourceId == context.id && s.sourceKind == context.kind && IsSource(s.sourceKind, s.format)
    && |s.observations| <= MAX_SOURCE_OBSERVATIONS && AllEmitted(context.kind, s.observations)
    && Distinct(Ids(s.observations)) && Sorted(s.observations)
    && s.revision == context.fingerprint(s.observations)
  }

  method Snapshot(context: Context, format: string, observations: seq<UsageObservation>)
    returns (r: Result<UsageSnapshot, SourceError>)
    requires AllEmitted(context.kind, observations) && IsSource(context.kind, format)
    ensures r.Ok? <==> |observations| <= MAX_SOURCE_OBSERVATIONS && Consistent(observations)
    ensures r.Ok? ==>
            SnapshotOk(context, r.value) && SameMembers(r.value.observations, observations) && r.value.format == format
  {
    if |observations| > MAX_SOURCE_OBSERVATIONS {
      return Err(SourceTooLarge);
    }
    var unique := Deduplicate(observations);
    if unique.Err? {
      return Err(unique.error);
    }
    var sorted := OrderById(unique.value);
    OrderByIdSorts(unique.value);
    SortedKeeps(context.kind, unique.value, sorted, observations);
    r := Ok(UsageSnapshot(context.id, context.kind, format, sorted, context.fingerprint(sorted)));
  }

  lemma SortedKeeps(kind: string, unique: seq<UsageObservation>, sorted: seq<UsageObservation>,
                    observations: seq<UsageObservation>)
    requires sorted == OrderById(unique) && Distinct(Ids(unique)) && SameMembers(unique, observations)
             && AllEmitted(kind, observations)
    ensures Distinct(Ids(sorted)) && SameMembers(sorted, observations) && AllEmitted(kind, sorted)
            && |sorted| == |unique|
  {
    PermutedDistinct(unique, sorted);
    PermutedMembers(unique, sorted);
    EmittedMembers(kind, sorted, observations);
  }

  lemma PermutedMembers(a: seq<UsageObservation>, b: seq<UsageObservation>)
    requires multiset(a) == multiset(b)
    ensures SameMembers(b, a)
  {
    forall o ensures o in b <==> o in a {
      assert o in multiset(b) <==> o in multiset(a);
    }
  }

  lemma EmittedMembers(kind: string, a: seq<UsageObservation>, b: seq<UsageObservation>)
    requires SameMembers(a, b) && AllEmitted(kind, b)
    ensures AllEmitted(kind, a)
  {
    forall i | 0 <= i < |a| ensures Emitted(kind, a[i]) {
      assert a[i] in b;
      var j :| 0 <= j < |b| && b[j] == a[i];
      assert Emitted(kind, b[j]);
    }
  }

  // ----- What is read from where -----

  // A chat log that starts with a state is replayed; any other log is one of events.
  predicate IsDeltaLog(context: Context, events: seq<Json>) {
    context.kind == CHAT && events != [] && Prop(Some(events[0]), "kind") == Some(Number(Safe(0)))
  }

  // The observations are what the source says, read in the way of its format.
  ghost predicate ReadFrom(context: Context, file: SourceFile, format: string, observations: seq<UsageObservation>) {
    match file
    case JsonFile(tree) =>
        format == "vscode-json" && Bounded(tree, 0) && ChatObservations(context, tree) == Ok(observations)
    case JsonLines(events) =>
      if IsDeltaLog(context, events) then
        format == "vscode-delta-jsonl" && DeltaOf(events).Ok?
            && ChatObservations(context, DeltaOf(events).value) == Ok(observations)
      else
        format == (if context.kind == CLI then "copilot-cli-events" else "vscode-event-jsonl")
        && EventsRead(context, events) == Ok(observations)
    case DatabaseFile(rows, key) =>
      && format == "copilot-cli-db" && |rows| <= MAX_ROWS
      && if key.Some? then KeyedRows(context, key.value, rows) == Ok(observations)
         else |observations| == |Models(rows)|
              && forall i | 0 <= i < |observations| :: IsModelTotal(context, rows, Models(rows)[i], observations[i])
  }

  // The file kinds a source kind allows.
  predicate MayHold(kind: string, file: SourceFile) {
    match file
    case JsonFile(_) => kind == CHAT
    case JsonLines(_) => kind == CHAT || kind == CLI
    case DatabaseFile(_, _) => kind == CLI
  }

  // What the source holds can be read in the way of its format.
  ghost predicate Readable(context: Context, file: SourceFile) {
    match file
    case JsonFile(tree) => Bounded(tree, 0) && Nodes(tree) <= 200_000 && StateReadable(context, tree)
    case JsonLines(events) =>
      && 0 < |events| <= 50_000 && NodesOfAll(events) <= 200_000
      && (forall i | 0 <= i < |events| :: Bounded(events[i], 0))
      && if IsDeltaLog(context, events) then
           && DeltaOf(events).Ok? && Bounded(DeltaOf(events).value, 0) && Nodes(DeltaOf(events).value) <= 200_000
           && StateReadable(context, DeltaOf(events).value)
         else EventEvidence.LogOk(context, events) && EventEvidence.AnyRecognised(events)
              && EventEvidence.EvidenceReadable(context, events)
    case DatabaseFile(rows, key) =>
      && |rows| <= 10_000
      && if key.Some? then |rows| <= 1000 && AllKeyed(rows)
         else AllRowsFit(rows)
  }

  method DatabaseObservations(context: Context, rows: seq<DatabaseRecord>, key: Option<string>)
    returns (r: Result<seq<UsageObservation>, SourceError>)
    requires DigestsAreHashes(context) && context.kind == CLI
    ensures r.Ok? <==> Readable(context, DatabaseFile(rows, key))
    ensures r.Ok? ==>
            ReadFrom(context, DatabaseFile(rows, key), "copilot-cli-db", r.value) && AllEmitted(context.kind, r.value)
  {
    if |rows| > MAX_ROWS || (key.Some? && |rows| > MAX_SOURCE_OBSERVATIONS) {
      return Err(SourceTooLarge);
    }
    if key.Some? {
      KeyedRowsAreReadExactly(context, key.value, rows);
      r := KeyedRows(context, key.value, rows);
      if r.Ok? { KeyedRowsAreEmitted(context, key.value, rows); }
    } else {
      r := PerModel(context, rows);
    }
  }

  method JsonObservations(context: Context, tree: Json) returns (r: Result<seq<UsageObservation>, SourceError>)
    requires DigestsAreHashes(context)
    ensures r.Ok? <==> Readable(context, JsonFile(tree))
    ensures r.Ok? ==> ReadFrom(context, JsonFile(tree), "vscode-json", r.value) && AllEmitted(context.kind, r.value)
  {
    var checked := ValidateTree(tree, 0);
    if checked.Err? {
      return Err(checked.error);
    }
    StatesAreReadExactly(context, tree);
    r := ChatObservations(context, tree);
    if r.Ok? { ChatStateIsEmitted(context, tree); }
  }

  function FormatOf(context: Context, events: seq<Json>): string {
    if IsDeltaLog(context, events) then "vscode-delta-jsonl"
    else if context.kind == CLI then "copilot-cli-events" else "vscode-event-jsonl"
  }

  method LineObservations(context: Context, events: seq<Json>) returns (r: Result<seq<UsageObservation>, SourceError>)
    requires DigestsAreHashes(context)
    ensures r.Ok? <==> Readable(context, JsonLines(events))
    ensures r.Ok? ==>
            ReadFrom(context, JsonLines(events), FormatOf(context, events), r.value)
                && AllEmitted(context.kind, r.value)
  {
    var checked := CheckLines(events);
    if checked.Err? {
      return Err(checked.error);
    }
    if IsDeltaLog(context, events) {
      var state := DeltaState(events);
      if state.Err? {
        return Err(state.error);
      }
      StatesAreReadExactly(context, state.value);
      r := ChatObservations(context, state.value);
      if r.Ok? { ChatStateIsEmitted(context, state.value); }
    } else {
      r := EventEvidence.EventObservations(context, events);
      if r.Ok? { EventsAreEmitted(context, events); }
    }
  }

  method Observations(context: Context, file: SourceFile)
    returns (r: Result<(string, seq<UsageObservation>), SourceError>)
    requires DigestsAreHashes(context)
    ensures r.Ok? <==> MayHold(context.kind, file) && Readable(context, file)
    ensures r.Ok? ==> IsSource(context.kind, r.value.0)
    ensures r.Ok? ==> ReadFrom(context, file, r.value.0, r.value.1) && AllEmitted(context.kind, r.value.1)
  {
    if !MayHold(context.kind, file) {
      return Err(UnsupportedFormat);
    }
    match file {
      case DatabaseFile(rows, key) =>
        var read := DatabaseObservations(context, rows, key);
        r := WithFormat("copilot-cli-db", read);
      case JsonFile(tree) =>
        var read := JsonObservations(context, tree);
        r := WithFormat("vscode-json", read);
      case JsonLines(events) =>
        var read := LineObservations(context, events);
        r := WithFormat(FormatOf(context, events), read);
    }
  }

  function WithFormat(format: string,
                      read: Result<seq<UsageObservation>, SourceError>): Result<(string, seq<UsageObservation>),
                          SourceError> {
    match read
    case Ok(observations) => Ok((format, observations))
    case Err(e) => Err(e)
  }

  lemma ChatStateIsEmitted(context: Context, state: Json)
    requires DigestsAreHashes(context) && ChatObservations(context, state).Ok?
    ensures AllEmitted(context.kind, ChatObservations(context, state).value)
  {
    ChatIsEmitted(context, RequestsOf(state).value.items);
  }

  method ReadSource(context: Context, file: SourceFile)
    returns (r: Result<UsageSnapshot, SourceError>, ghost read: seq<UsageObservation>)
    requires DigestsAreHashes(context)
    ensures r.Ok? <==>
            MayHold(context.kind, file) && Readable(context, file) && |read| <= 1000
                && Consistent(read)
    ensures MayHold(context.kind, file) && Readable(context, file) ==> exists format ::
            ReadFrom(context, file, format, read)
    ensures r.Ok? ==> SnapshotOk(context, r.value)
    ensures r.Ok? ==>
            ReadFrom(context, file, r.value.format, read) && SameMembers(r.value.observations, read) && Consistent(read)
  {
    read := [];
    var observed := Observations(context, file);
    if observed.Err? {
      return Err(observed.error), [];
    }
    read := observed.value.1;
    r := Snapshot(context, observed.value.0, observed.value.1);
  }

  // ----- What the collector sends -----

  // importBody: a snapshot with something in it, under the revision it replaces.
  function ImportBody(s: UsageSnapshot, expectedRevision: Option<string>): Option<UsageImportRequest> {
    if !(IsHash(s.sourceId) && IsLowerHex(s.sourceId)) || !(IsHash(s.revision) && IsLowerHex(s.revision))
       || !(s.sourceKind == CHAT || s.sourceKind == CLI) || s.observations == []
       || |s.observations| > MAX_SOURCE_OBSERVATIONS
    then None
    else Some(UsageImportRequest(s.sourceKind, s.format, s.revision, expectedRevision, s.observations))
  }

  // Every observation with a date is dated from 1970 up to the end of 9999.
  predicate Datable(observations: seq<UsageObservation>) {
    forall i | 0 <= i < |observations| && observations[i].timestamp.Some? :: SinceEpoch(observations[i].timestamp.value)
  }

  // An empty snapshot is not sent.
  lemma EmptyIsNotSent(s: UsageSnapshot, expectedRevision: Option<string>)
    ensures s.observations == [] ==> ImportBody(s, expectedRevision).None?
  {
  }

  // Every snapshot with something in it is sent, and the recorder's rules accept what is
  // sent exactly when no observation is dated before 1970 or after 9999.
  lemma SnapshotsAreAccepted(context: Context, s: UsageSnapshot, expectedRevision: Option<string>)
    requires DigestsAreHashes(context) && SnapshotOk(context, s) && s.observations != []
    requires IsHash(context.id) && IsLowerHex(context.id)
    requires expectedRevision.Some? ==> IsHash(expectedRevision.value)
    ensures ImportBody(s, expectedRevision).Some?
    ensures var sent := ImportBody(s, expectedRevision).value;
            && sent.sourceKind == s.sourceKind && sent.format == s.format && sent.revision == s.revision
            && sent.expectedRevision == expectedRevision && sent.observations == s.observations
    ensures ValidImport(s.sourceId, ImportBody(s, expectedRevision).value) <==> Datable(s.observations)
  {
    var request := ImportBody(s, expectedRevision).value;
    LowerIdsDiffer(s.observations);
    forall i | 0 <= i < |s.observations|
      ensures ValidObservation(s.sourceKind, s.observations[i]) <==>
              (s.observations[i].timestamp.Some? ==> SinceEpoch(s.observations[i].timestamp.value))
    {
      assert Emitted(context.kind, s.observations[i]);
    }
    assert forall i | 0 <= i < |s.observations| :: IsHash(s.observations[i].id) by {
      forall i | 0 <= i < |s.observations|
          ensures IsHash(s.observations[i].id) { assert Emitted(context.kind, s.observations[i]); }
    }
  }

  // A log of one call, made at the time this text names.
  function CallAt(stamp: string): Json {
    Obj([("type", Text("assistant.usage")), ("timestamp", Text(stamp)), ("data", Obj([]))])
  }

  lemma CallAtParts(stamp: string)
    ensures var event := Some(CallAt(stamp));
            && Prop(event, "type") == Some(Text("assistant.usage")) && Prop(event, "timestamp") == Some(Text(stamp))
            && Prop(event, "data") == Some(Obj([])) && Prop(event, "id") == None && Prop(event, "kind") == None
    ensures forall name :: Prop(Some(Obj([])), name) == None
  {
    var entries := CallAt(stamp).entries;
    var data := [("data", Obj([]))];
    assert entries[1..] == [("timestamp", Text(stamp))] + data && entries[1..][1..] == data && data[1..] == [];
    forall name | name == "id" || name == "kind" ensures EntryAt(entries, name) == 3 {
      assert EntryAt(data, name) == 1;
      assert EntryAt(entries[1..], name) == 2;
    }
    assert EntryAt(entries[1..], "timestamp") == 0 && EntryAt(entries, "timestamp") == 1;
    assert "data"[0] != "type"[0];
    assert EntryAt(data, "data") == 0 && EntryAt(entries[1..], "data") == 1 && EntryAt(entries, "data") == 2;
  }

  lemma CallAtIsCalled(context: Context, stamp: string)
    ensures Call(context, CallAt(stamp), 0) ==
            Observe(context, EventIndex(0), None, Timestamp(context, Some(Text(stamp)), false), NO_FIELDS, None, false)
  {
    CallAtParts(stamp);
  }

  lemma CallAtReads(context: Context, stamp: string, o: UsageObservation)
    requires Call(context, CallAt(stamp), 0) == Ok(o)
    ensures EventsRead(context, [CallAt(stamp)]) == Ok([o])
  {
    var event, scan := CallAt(stamp), Scan([o], [], [], true);
    CallAtParts(stamp);
    assert [event][..0] == [] && EMPTY_SCAN.calls + [o] == [o];
    assert ScanOne(context, EMPTY_SCAN, event, 0) == Ok(scan);
    assert ScanAll(context, [event]) == Ok(scan);
    assert [o][..1] == [o];
  }

  // A time before 1970 or after 9999 in a log is read, sent, and refused by the recorder.
  lemma UndatableCallIsRefused(context: Context, stamp: string, milliseconds: int, expectedRevision: Option<string>)
    returns (o: UsageObservation, s: UsageSnapshot)
    requires DigestsAreHashes(context) && IsHash(context.id) && IsLowerHex(context.id)
             && (context.kind == CHAT || context.kind == CLI)
    requires context.parseTime(stamp) == Some(milliseconds) && (milliseconds < 0 || milliseconds > LAST_MILLISECOND)
    requires expectedRevision.Some? ==> IsHash(expectedRevision.value)
    ensures ReadFrom(context, JsonLines([CallAt(stamp)]), s.format, [o])
    ensures SnapshotOk(context, s) && s.observations == [o]
    ensures ImportBody(s, expectedRevision).Some? && !ValidImport(s.sourceId, ImportBody(s, expectedRevision).value)
  {
    CallAtIsCalled(context, stamp);
    o := Call(context, CallAt(stamp), 0).value;
    CallAtReads(context, stamp, o);
    EventsAreEmitted(context, [CallAt(stamp)]);
    s := UsageSnapshot(context.id, context.kind, if context.kind == CLI then "copilot-cli-events"
        else "vscode-event-jsonl",
                       [o], context.fingerprint([o]));
    UndatableIsRefused(context, s, o, milliseconds, expectedRevision);
    CallAtParts(stamp);
  }

  lemma UndatableIsRefused(context: Context, s: UsageSnapshot, o: UsageObservation, milliseconds: int,
                           expectedRevision: Option<string>)
    requires DigestsAreHashes(context) && SnapshotOk(context, s) && s.observations == [o]
    requires IsHash(context.id) && IsLowerHex(context.id)
    requires o.timestamp == Some(Instant(milliseconds * TICKS_PER_MILLISECOND, 0))
    requires milliseconds < 0 || milliseconds > LAST_MILLISECOND
    requires expectedRevision.Some? ==> IsHash(expectedRevision.value)
    ensures ImportBody(s, expectedRevision).Some? && !ValidImport(s.sourceId, ImportBody(s, expectedRevision).value)
  {
    assert !SinceEpoch(s.observations[0].timestamp.value);
    SnapshotsAreAccepted(context, s, expectedRevision);
  }

  lemma LowerIdsDiffer(observations: seq<UsageObservation>)
    requires Distinct(Ids(observations)) && forall i | 0 <= i < |observations| :: IsLowerHex(observations[i].id)
    ensures DistinctIgnoringCase(Ids(observations))
  {
    forall i, j | 0 <= i < j < |observations| ensures Lower(Ids(observations)[i]) != Lower(Ids(observations)[j]) {
      LowerFixesLowerHex(observations[i].id);
      LowerFixesLowerHex(observations[j].id);
    }
  }
}
