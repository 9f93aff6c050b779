/** Comparing two runs event by event (TraceViewService.Compare and ChangedFields). */
module TraceCompare {
  import opened Results
  import opened Totals
  import opened Trace
  import Decoding
  import opened TraceKeys
  import opened TraceIndex

  // ----- ChangedFields -----

  function DurationOf(e: FlightEvent): int {
    e.endedAt.GetOr(e.startedAt).utc - e.startedAt.utc
  }

  const COMPARED := 25

  // One compared field of two events, with whether it differs.
  function FieldChange(b: FlightEvent, c: FlightEvent, i: nat): (string, bool)
    requires i < COMPARED
  {
    match i
    case 0 => ("Status", b.status != c.status)
    case 1 => ("Identity", b.identity != c.identity)
    case 2 => ("AgentVersion", b.details.agentVersion != c.details.agentVersion)
    case 3 => ("Model", b.model != c.model)
    case 4 => ("ToolServer", b.details.toolServer != c.details.toolServer)
    case 5 => ("Objective", b.details.objective != c.details.objective)
    case 6 => ("RequestedScope", b.details.requestedScope != c.details.requestedScope)
    case 7 => ("GrantedScope", b.details.grantedScope != c.details.grantedScope)
    case 8 => ("PolicyName", b.details.policyName != c.details.policyName)
    case 9 => ("PolicyReason", b.details.policyReason != c.details.policyReason)
    case 10 => ("Duration", DurationOf(b) != DurationOf(c))
    case 11 => ("InputTokens", b.inputTokens != c.inputTokens)
    case 12 => ("OutputTokens", b.outputTokens != c.outputTokens)
    case 13 => ("EstimatedCost", b.estimatedCost != c.estimatedCost)
    case 14 => ("CostBasis", b.costBasis != c.costBasis)
    case 15 => ("ImportedUsage", b.imported != c.imported)
    case 16 => ("TaskId", b.taskId != c.taskId)
    case 17 => ("ParentTaskId", b.parentTaskId != c.parentTaskId)
    case 18 => ("ChatSessionId", b.details.chatSessionId != c.details.chatSessionId)
    case 19 => ("ChatTurnId", b.details.chatTurnId != c.details.chatTurnId)
    case 20 => ("SubagentSessionId", b.details.subagentSessionId != c.details.subagentSessionId)
    case 21 => ("TraceId", b.traceId != c.traceId)
    case 22 => ("SpanId", b.spanId != c.spanId)
    case 23 => ("ReportedAiCredits", b.reportedAiCredits != c.reportedAiCredits)
    case _ => ("EstimatedAiCredits", b.estimatedAiCredits != c.estimatedAiCredits)
  }

  function FieldChanges(b: FlightEvent, c: FlightEvent): (r: seq<(string, bool)>)
    ensures |r| == COMPARED && forall i | 0 <= i < COMPARED :: r[i] == FieldChange(b, c, i)
  {
    seq(COMPARED, i requires 0 <= i < COMPARED => FieldChange(b, c, i))
  }

  function Differing(changes: seq<(string, bool)>): seq<string> {
    if changes == [] then []
    else (if changes[0].1 then [changes[0].0] else []) + Differing(changes[1..])
  }

  function ChangedFields(b: Option<FlightEvent>, c: Option<FlightEvent>): seq<string> {
    if b.None? || c.None? then [] else Differing(FieldChanges(b.value, c.value))
  }

  lemma {:induction false} DifferingIsEmpty(changes: seq<(string, bool)>)
    ensures Differing(changes) == [] <==> forall i | 0 <= i < |changes| :: !changes[i].1
  {
    if changes != [] {
      DifferingIsEmpty(changes[1..]);
      assert forall i | 1 <= i < |changes| :: changes[i] == changes[1..][i - 1];
    }
  }

  lemma NothingDiffersFromItself(e: FlightEvent)
    ensures ChangedFields(Some(e), Some(e)) == []
  {
    DifferingIsEmpty(FieldChanges(e, e));
  }

  lemma FieldChangesAreSymmetric(b: FlightEvent, c: FlightEvent)
    ensures FieldChanges(b, c) == FieldChanges(c, b)
  {
  }

  // ----- Compare -----

  datatype Change = Added | Removed | Changed | Unchanged

  datatype Row = Row(key: string, change: Change, baseline: Option<FlightEvent>, candidate: Option<FlightEvent>,
                     fields: seq<string>)

  // Where a key stands among the events of a run, or |events|.
  function Position(keys: seq<string>, key: string): (i: nat)
    ensures i <= |keys|
    ensures i < |keys| ==> keys[i] == key
    ensures i == |keys| ==> key !in keys
  {
    if keys == [] then 0
    else if keys[0] == key then 0
    else 1 + Position(keys[1..], key)
  }

  function EventWith(events: seq<FlightEvent>, key: string): Option<FlightEvent> {
    var i := Position(Keys(events), key);
    if i < |events| then Some(events[i]) else None
  }

  function RowFor(key: string, b: Option<FlightEvent>, c: Option<FlightEvent>): Row {
    var fields := ChangedFields(b, c);
    Row(key, if b.None? then Added
        else if c.None? then Removed else if |fields| > 0 then Changed else Unchanged, b, c, fields)
  }

  // The keys of the candidate that the baseline does not have.
  function Others(keys: seq<string>, known: seq<string>): seq<string> {
    if keys == [] then []
    else Others(keys[..|keys| - 1], known) + if keys[|keys| - 1] in known then [] else [keys[|keys| - 1]]
  }

  // Concat and Distinct, in order of first mention.
  function ComparedKeys(baseline: seq<FlightEvent>, candidate: seq<FlightEvent>): seq<string> {
    Keys(baseline) + Others(Keys(candidate), Keys(baseline))
  }

  function RowAt(baseline: seq<FlightEvent>, candidate: seq<FlightEvent>, key: string): Row {
    RowFor(key, EventWith(baseline, key), EventWith(candidate, key))
  }

  function RowMaker(baseline: seq<FlightEvent>, candidate: seq<FlightEvent>): string -> Row {
    key => RowAt(baseline, candidate, key)
  }

  function Select<T>(keys: seq<string>, f: string -> T): (r: seq<T>)
    ensures |r| == |keys| && forall i | 0 <= i < |r| :: r[i] == f(keys[i])
  {
    seq(|keys|, i requires 0 <= i < |keys| => f(keys[i]))
  }

  function Rows(baseline: seq<FlightEvent>, candidate: seq<FlightEvent>): seq<Row> {
    Select(ComparedKeys(baseline, candidate), RowMaker(baseline, candidate))
  }

  function Entry(result: map<string, FlightEvent>, key: string): Option<FlightEvent> {
    if key in result then Some(result[key]) else None
  }

  lemma EntryIsEvent(events: seq<FlightEvent>, result: map<string, FlightEvent>, key: string)
    requires Indexed(events, Keys(events), result)
    ensures Entry(result, key) == EventWith(events, key)
  {
    var i := Position(Keys(events), key);
    if i < |events| { assert result[Keys(events)[i]] == events[i]; }
  }

  // Concat and Distinct over the two dictionaries' keys.
  method KeysOfBoth(first: seq<string>, second: seq<string>) returns (keys: seq<string>)
    ensures keys == first + Others(second, first)
  {
    keys := first;
    for n := 0 to |second|
      invariant keys == first + Others(second[..n], first)
    {
      assert second[..n + 1][..n] == second[..n];
      if second[n] !in first {
        keys := keys + [second[n]];
      }
    }
    assert second[..|second|] == second;
  }

  lemma EntriesMakeRow(baseline: seq<FlightEvent>, candidate: seq<FlightEvent>, before: map<string, FlightEvent>,
                       after: map<string, FlightEvent>, key: string)
    requires Indexed(baseline, Keys(baseline), before) && Indexed(candidate, Keys(candidate), after)
    ensures RowFor(key, Entry(before, key), Entry(after, key)) == RowAt(baseline, candidate, key)
  {
    EntryIsEvent(baseline, before, key);
    EntryIsEvent(candidate, after, key);
  }

  // One row for each key, from the two dictionaries.
  method MakeRows(keys: seq<string>, before: map<string, FlightEvent>, after: map<string, FlightEvent>,
                  ghost maker: string -> Row)
    returns (rows: seq<Row>)
    requires forall key :: RowFor(key, Entry(before, key), Entry(after, key)) == maker(key)
    ensures rows == Select(keys, maker)
  {
    rows := [];
    for n := 0 to |keys|
      invariant rows == Select(keys[..n], maker)
    {
      SelectOneMore(keys, n, maker);
      rows := rows + [RowFor(keys[n], Entry(before, keys[n]), Entry(after, keys[n]))];
    }
    assert keys[..|keys|] == keys;
  }

  method Compare(baseline: TraceRun, candidate: TraceRun) returns (rows: seq<Row>)
    ensures rows == Rows(baseline.events, candidate.events)
  {
    var keysBefore, before := Index(baseline.events);
    var keysAfter, after := Index(candidate.events);
    var keys := KeysOfBoth(keysBefore, keysAfter);
    ghost var maker := RowMaker(baseline.events, candidate.events);
    forall key ensures RowFor(key, Entry(before, key), Entry(after, key)) == maker(key) {
      EntriesMakeRow(baseline.events, candidate.events, before, after, key);
    }
    rows := MakeRows(keys, before, after, maker);
  }

  lemma SelectOneMore<T>(keys: seq<string>, n: nat, f: string -> T)
    requires n < |keys|
    ensures Select(keys[..n + 1], f) == Select(keys[..n], f) + [f(keys[n])]
  {
  }

  // ----- What the rows say -----

  lemma {:induction false} OthersAre(keys: seq<string>, known: seq<string>)
    requires Distinct(keys)
    ensures Distinct(Others(keys, known))
    ensures forall key :: key in Others(keys, known) <==> key in keys && key !in known
  {
    if keys != [] {
      var init, last := keys[..|keys| - 1], keys[|keys| - 1];
      OthersAre(init, known);
      assert keys == init + [last];
    }
  }

  lemma JoinedDistinct(a: seq<string>, o: seq<string>, all: seq<string>)
    requires Distinct(a) && Distinct(o) && all == a + o && forall key | key in o :: key !in a
    ensures Distinct(all)
    ensures forall key :: key in all <==> key in a || key in o
  {
    forall i, j | 0 <= i < j < |all| ensures all[i] != all[j] {
      if i < |a| <= j { assert all[i] in a && all[j] in o; }
    }
  }

  // No two rows have the same key, and every event of either run has a row.
  lemma RowKeys(baseline: seq<FlightEvent>, candidate: seq<FlightEvent>)
    ensures Distinct(ComparedKeys(baseline, candidate))
    ensures forall key :: key in ComparedKeys(baseline, candidate) <==> key in Keys(baseline) || key in Keys(candidate)
  {
    KeysAreUnique(baseline);
    KeysAreUnique(candidate);
    OthersAre(Keys(candidate), Keys(baseline));
    JoinedDistinct(Keys(baseline), Others(Keys(candidate), Keys(baseline)), ComparedKeys(baseline, candidate));
  }

  lemma EventAtItsKey(events: seq<FlightEvent>, i: nat)
    requires i < |events|
    ensures Position(Keys(events), Keys(events)[i]) == i && EventWith(events, Keys(events)[i]) == Some(events[i])
  {
    KeysAreUnique(events);
    var p := Position(Keys(events), Keys(events)[i]);
    assert Keys(events)[p] == Keys(events)[i];
  }

  // Event i of the baseline and event j of the candidate stand in one row.
  ghost predicate Matched(baseline: seq<FlightEvent>, candidate: seq<FlightEvent>, i: int, j: int) {
    0 <= i < |baseline| && 0 <= j < |candidate| && Keys(baseline)[i] == Keys(candidate)[j]
  }

  // ... so the rows pair the events one to one, apart from those without a counterpart.
  lemma MatchingIsPartialBijection(baseline: seq<FlightEvent>, candidate: seq<FlightEvent>, i: int, j: int, k: int)
    ensures Matched(baseline, candidate, i, j) && Matched(baseline, candidate, i, k) ==> j == k
    ensures Matched(baseline, candidate, j, i) && Matched(baseline, candidate, k, i) ==> j == k
  {
    KeysAreUnique(baseline);
    KeysAreUnique(candidate);
  }

  lemma OnlyThere(keys: seq<string>, key: string) returns (r: nat)
    requires Distinct(keys) && key in keys
    ensures r < |keys| && forall q | 0 <= q < |keys| :: keys[q] == key <==> q == r
  {
    r :| 0 <= r < |keys| && keys[r] == key;
  }

  // The one row with the key of an event holds it.
  lemma RowOfBaseline(baseline: seq<FlightEvent>, candidate: seq<FlightEvent>, i: nat)
    requires i < |baseline|
    ensures var row := RowAt(baseline, candidate, Keys(baseline)[i]);
            && row.baseline == Some(baseline[i]) && (row.candidate.Some? <==> row.change != Removed)
            && (row.candidate.Some? <==> exists j :: Matched(baseline, candidate, i, j))
            && (forall j | Matched(baseline, candidate, i, j) :: row.candidate == Some(candidate[j]))
            && (row.change == Removed ==> row.fields == [])
  {
    EventAtItsKey(baseline, i);
    var p := Position(Keys(candidate), Keys(baseline)[i]);
    if p < |candidate| { assert Matched(baseline, candidate, i, p); }
    forall j | Matched(baseline, candidate, i, j) ensures j == p {
      EventAtItsKey(candidate, j);
    }
  }

  lemma RowOfCandidate(baseline: seq<FlightEvent>, candidate: seq<FlightEvent>, j: nat)
    requires j < |candidate|
    ensures var row := RowAt(baseline, candidate, Keys(candidate)[j]);
            && row.candidate == Some(candidate[j]) && (row.baseline.Some? <==> row.change != Added)
            && (row.baseline.Some? <==> exists i :: Matched(baseline, candidate, i, j))
            && (forall i | Matched(baseline, candidate, i, j) :: row.baseline == Some(baseline[i]))
            && (row.change == Added ==> row.fields == [])
  {
    EventAtItsKey(candidate, j);
    var p := Position(Keys(baseline), Keys(candidate)[j]);
    if p < |baseline| { assert Matched(baseline, candidate, p, j); }
    forall i | Matched(baseline, candidate, i, j) ensures i == p {
      EventAtItsKey(baseline, i);
    }
  }

  // Every event of the baseline is in exactly one row; beside it stands the event of the
  // candidate it is matched with, or none.
  lemma BaselineEventHasOneRow(baseline: seq<FlightEvent>, candidate: seq<FlightEvent>, i: nat) returns (r: nat)
    requires i < |baseline|
    ensures r < |Rows(baseline, candidate)|
    ensures forall q | 0 <= q < |Rows(baseline, candidate)| ::
            Rows(baseline, candidate)[q].key == Keys(baseline)[i] <==> q == r
    ensures Rows(baseline, candidate)[r] == RowAt(baseline, candidate, Keys(baseline)[i])
  {
    RowKeys(baseline, candidate);
    r := OnlyThere(ComparedKeys(baseline, candidate), Keys(baseline)[i]);
    RowsHaveTheirKeys(baseline, candidate);
  }

  // Every event of the candidate is in exactly one row.
  lemma CandidateEventHasOneRow(baseline: seq<FlightEvent>, candidate: seq<FlightEvent>, j: nat) returns (r: nat)
    requires j < |candidate|
    ensures r < |Rows(baseline, candidate)|
    ensures forall q | 0 <= q < |Rows(baseline, candidate)| ::
            Rows(baseline, candidate)[q].key == Keys(candidate)[j] <==> q == r
    ensures Rows(baseline, candidate)[r] == RowAt(baseline, candidate, Keys(candidate)[j])
  {
    RowKeys(baseline, candidate);
    r := OnlyThere(ComparedKeys(baseline, candidate), Keys(candidate)[j]);
    RowsHaveTheirKeys(baseline, candidate);
  }

  lemma RowsHaveTheirKeys(baseline: seq<FlightEvent>, candidate: seq<FlightEvent>)
    ensures |Rows(baseline, candidate)| == |ComparedKeys(baseline, candidate)|
    ensures forall q | 0 <= q < |Rows(baseline, candidate)| ::
            Rows(baseline, candidate)[q].key == ComparedKeys(baseline, candidate)[q]
  {
  }

  // ----- When a matched row is Changed, and in what -----

  // The two events agree in every compared property.
  predicate Agree(b: FlightEvent, c: FlightEvent) {
    && b.status == c.status
    && b.identity == c.identity
    && b.details.agentVersion == c.details.agentVersion
    && b.model == c.model
    && b.details.toolServer == c.details.toolServer
    && b.details.objective == c.details.objective
    && b.details.requestedScope == c.details.requestedScope
    && b.details.grantedScope == c.details.grantedScope
    && b.details.policyName == c.details.policyName
    && b.details.policyReason == c.details.policyReason
    && b.endedAt.GetOr(b.startedAt).utc - b.startedAt.utc == c.endedAt.GetOr(c.startedAt).utc - c.startedAt.utc
    && b.inputTokens == c.inputTokens
    && b.outputTokens == c.outputTokens
    && b.estimatedCost == c.estimatedCost
    && b.costBasis == c.costBasis
    && b.imported == c.imported
    && b.taskId == c.taskId
    && b.parentTaskId == c.parentTaskId
    && b.details.chatSessionId == c.details.chatSessionId
    && b.details.chatTurnId == c.details.chatTurnId
    && b.details.subagentSessionId == c.details.subagentSessionId
    && b.traceId == c.traceId
    && b.spanId == c.spanId
    && b.reportedAiCredits == c.reportedAiCredits
    && b.estimatedAiCredits == c.estimatedAiCredits
  }

  // Of what was done and by whom, the names tell exactly what the two events differ in.
  predicate TellsOfAction(fields: seq<string>, b: FlightEvent, c: FlightEvent) {
    && ("Status" in fields <==> b.status != c.status)
    && ("Identity" in fields <==> b.identity != c.identity)
    && ("AgentVersion" in fields <==> b.details.agentVersion != c.details.agentVersion)
    && ("Model" in fields <==> b.model != c.model)
    && ("ToolServer" in fields <==> b.details.toolServer != c.details.toolServer)
    && ("Objective" in fields <==> b.details.objective != c.details.objective)
  }

  // Of what it was permitted, the names tell exactly what the two events differ in.
  predicate TellsOfPermission(fields: seq<string>, b: FlightEvent, c: FlightEvent) {
    && ("RequestedScope" in fields <==> b.details.requestedScope != c.details.requestedScope)
    && ("GrantedScope" in fields <==> b.details.grantedScope != c.details.grantedScope)
    && ("PolicyName" in fields <==> b.details.policyName != c.details.policyName)
    && ("PolicyReason" in fields <==> b.details.policyReason != c.details.policyReason)
  }

  // Of what it used, the names tell exactly what the two events differ in.
  predicate TellsOfUsage(fields: seq<string>, b: FlightEvent, c: FlightEvent) {
    && ("Duration" in fields <==> 
        b.endedAt.GetOr(b.startedAt).utc - b.startedAt.utc != c.endedAt.GetOr(c.startedAt).utc - c.startedAt.utc)
    && ("InputTokens" in fields <==> b.inputTokens != c.inputTokens)
    && ("OutputTokens" in fields <==> b.outputTokens != c.outputTokens)
    && ("EstimatedCost" in fields <==> b.estimatedCost != c.estimatedCost)
    && ("CostBasis" in fields <==> b.costBasis != c.costBasis)
    && ("ImportedUsage" in fields <==> b.imported != c.imported)
  }

  // Of where it belongs, the names tell exactly what the two events differ in.
  predicate TellsOfPlace(fields: seq<string>, b: FlightEvent, c: FlightEvent) {
    && ("TaskId" in fields <==> b.taskId != c.taskId)
    && ("ParentTaskId" in fields <==> b.parentTaskId != c.parentTaskId)
    && ("ChatSessionId" in fields <==> b.details.chatSessionId != c.details.chatSessionId)
    && ("ChatTurnId" in fields <==> b.details.chatTurnId != c.details.chatTurnId)
    && ("SubagentSessionId" in fields <==> b.details.subagentSessionId != c.details.subagentSessionId)
  }

  // Of its trace and its credits, the names tell exactly what the two events differ in.
  predicate TellsOfOrigin(fields: seq<string>, b: FlightEvent, c: FlightEvent) {
    && ("TraceId" in fields <==> b.traceId != c.traceId)
    && ("SpanId" in fields <==> b.spanId != c.spanId)
    && ("ReportedAiCredits" in fields <==> b.reportedAiCredits != c.reportedAiCredits)
    && ("EstimatedAiCredits" in fields <==> b.estimatedAiCredits != c.estimatedAiCredits)
  }

  predicate Tells(fields: seq<string>, b: FlightEvent, c: FlightEvent) {
    && TellsOfAction(fields, b, c)
    && TellsOfPermission(fields, b, c)
    && TellsOfUsage(fields, b, c)
    && TellsOfPlace(fields, b, c)
    && TellsOfOrigin(fields, b, c)
  }

  lemma {:induction false} DifferingIsListed(changes: seq<(string, bool)>, name: string)
    ensures name in Differing(changes) <==> exists i :: 0 <= i < |changes| && changes[i] == (name, true)
  {
    if changes != [] {
      var rest := changes[1..];
      DifferingIsListed(rest, name);
      assert forall i | 1 <= i < |changes| :: changes[i] == rest[i - 1];
      if changes[0] == (name, true) {
        assert name in [changes[0].0];
      } else if i: nat :| i < |rest| && rest[i] == (name, true) {
        assert changes[i + 1] == (name, true);
      }
    }
  }

  // Where a name stands in the list: length and first letters tell.
  function PlaceOf(name: string): int {
    match |name|
    case 5 => 3
    case 6 => if name[0] == 'T' then 16 else if name[1] == 't' then 0 else 22
    case 7 => 21
    case 8 => if name[0] == 'I' then 1 else 10
    case 9 => if name[0] == 'O' then 5 else 14
    case 10 => if name[0] == 'T' then 4 else if name[0] == 'P' then 8 else 19
    case 11 => 11
    case 12 =>
      if name[0] == 'A' then 2 else if name[0] == 'G' then 7 else if name[0] == 'O' then 12
      else if name[1] == 'o' then 9 else 17
    case 13 => if name[0] == 'E' then 13 else if name[0] == 'I' then 15 else 18
    case 14 => 6
    case 17 => if name[0] == 'S' then 20 else 23
    case _ => 24
  }

  lemma NameHasPlace(b: FlightEvent, c: FlightEvent, i: nat)
    requires i < COMPARED
    ensures PlaceOf(FieldChange(b, c, i).0) == i
  {
  }

  lemma NamesAreDistinct(b: FlightEvent, c: FlightEvent)
    ensures forall i, k | 0 <= i < k < COMPARED :: FieldChanges(b, c)[i].0 != FieldChanges(b, c)[k].0
  {
    forall i, k | 0 <= i < k < COMPARED ensures FieldChanges(b, c)[i].0 != FieldChanges(b, c)[k].0 {
      NameHasPlace(b, c, i);
      NameHasPlace(b, c, k);
    }
  }

  lemma ListedOnce(b: FlightEvent, c: FlightEvent, i: nat)
    requires i < |FieldChanges(b, c)|
    ensures FieldChanges(b, c)[i].0 in Differing(FieldChanges(b, c)) <==> FieldChanges(b, c)[i].1
  {
    var changes := FieldChanges(b, c);
    NamesAreDistinct(b, c);
    DifferingIsListed(changes, changes[i].0);
  }

  // Every compared field is listed exactly when it differs.
  ghost predicate Listed(changes: seq<(string, bool)>, fields: seq<string>) {
    forall i | 0 <= i < |changes| :: changes[i].0 in fields <==> changes[i].1
  }

  lemma AllListed(b: FlightEvent, c: FlightEvent)
    ensures Listed(FieldChanges(b, c), Differing(FieldChanges(b, c)))
  {
    forall i | 0 <= i < |FieldChanges(b, c)|
      ensures FieldChanges(b, c)[i].0 in Differing(FieldChanges(b, c)) <==> FieldChanges(b, c)[i].1
    {
      ListedOnce(b, c, i);
    }
  }

  lemma ActionIsTold(b: FlightEvent, c: FlightEvent, fields: seq<string>)
    requires Listed(FieldChanges(b, c), fields)
    ensures TellsOfAction(fields, b, c)
  {
    var changes := FieldChanges(b, c);
    assert changes[0] == ("Status", b.status != c.status);
    assert changes[1] == ("Identity", b.identity != c.identity);
    assert changes[2] == ("AgentVersion", b.details.agentVersion != c.details.agentVersion);
    assert changes[3] == ("Model", b.model != c.model);
    assert changes[4] == ("ToolServer", b.details.toolServer != c.details.toolServer);
    assert changes[5] == ("Objective", b.details.objective != c.details.objective);
  }

  lemma PermissionIsTold(b: FlightEvent, c: FlightEvent, fields: seq<string>)
    requires Listed(FieldChanges(b, c), fields)
    ensures TellsOfPermission(fields, b, c)
  {
    var changes := FieldChanges(b, c);
    assert changes[6] == ("RequestedScope", b.details.requestedScope != c.details.requestedScope);
    assert changes[7] == ("GrantedScope", b.details.grantedScope != c.details.grantedScope);
    assert changes[8] == ("PolicyName", b.details.policyName != c.details.policyName);
    assert changes[9] == ("PolicyReason", b.details.policyReason != c.details.policyReason);
  }

  lemma UsageIsTold(b: FlightEvent, c: FlightEvent, fields: seq<string>)
    requires Listed(FieldChanges(b, c), fields)
    ensures TellsOfUsage(fields, b, c)
  {
    var changes := FieldChanges(b, c);
    assert changes[10] == ("Duration", DurationOf(b) != DurationOf(c));
    assert changes[11] == ("InputTokens", b.inputTokens != c.inputTokens);
    assert changes[12] == ("OutputTokens", b.outputTokens != c.outputTokens);
    assert changes[13] == ("EstimatedCost", b.estimatedCost != c.estimatedCost);
    assert changes[14] == ("CostBasis", b.costBasis != c.costBasis);
    assert changes[15] == ("ImportedUsage", b.imported != c.imported);
  }

  lemma PlaceIsTold(b: FlightEvent, c: FlightEvent, fields: seq<string>)
    requires Listed(FieldChanges(b, c), fields)
    ensures TellsOfPlace(fields, b, c)
  {
    var changes := FieldChanges(b, c);
    assert changes[16] == ("TaskId", b.taskId != c.taskId);
    assert changes[17] == ("ParentTaskId", b.parentTaskId != c.parentTaskId);
    assert changes[18] == ("ChatSessionId", b.details.chatSessionId != c.details.chatSessionId);
    assert changes[19] == ("ChatTurnId", b.details.chatTurnId != c.details.chatTurnId);
    assert changes[20] == ("SubagentSessionId", b.details.subagentSessionId != c.details.subagentSessionId);
  }

  lemma OriginIsTold(b: FlightEvent, c: FlightEvent, fields: seq<string>)
    requires Listed(FieldChanges(b, c), fields)
    ensures TellsOfOrigin(fields, b, c)
  {
    var changes := FieldChanges(b, c);
    assert changes[21] == ("TraceId", b.traceId != c.traceId);
    assert changes[22] == ("SpanId", b.spanId != c.spanId);
    assert changes[23] == ("ReportedAiCredits", b.reportedAiCredits != c.reportedAiCredits);
    assert changes[24] == ("EstimatedAiCredits", b.estimatedAiCredits != c.estimatedAiCredits);
  }

  lemma FieldsTell(b: FlightEvent, c: FlightEvent, fields: seq<string>)
    requires Listed(FieldChanges(b, c), fields)
    ensures Tells(fields, b, c)
  {
    ActionIsTold(b, c, fields);
    PermissionIsTold(b, c, fields);
    UsageIsTold(b, c, fields);
    PlaceIsTold(b, c, fields);
    OriginIsTold(b, c, fields);
  }

  lemma AgreementIsNoChange(b: FlightEvent, c: FlightEvent)
    ensures Agree(b, c) ==> ChangedFields(Some(b), Some(c)) == []
  {
    DifferingIsEmpty(FieldChanges(b, c));
  }

  // The row of two matched events is Unchanged exactly when they agree in every compared
  // property, Changed otherwise, and its fields name the properties they differ in.
  lemma MatchedRowTells(baseline: seq<FlightEvent>, candidate: seq<FlightEvent>, i: nat, j: nat, row: Row)
    requires Matched(baseline, candidate, i, j)
    requires row in Rows(baseline, candidate) && row.key == Keys(baseline)[i]
    ensures row.baseline == Some(baseline[i]) && row.candidate == Some(candidate[j])
    ensures row.change == if Agree(baseline[i], candidate[j]) then Unchanged else Changed
    ensures Tells(row.fields, baseline[i], candidate[j])
  {
    RowOfBaseline(baseline, candidate, i);
    AllListed(baseline[i], candidate[j]);
    FieldsTell(baseline[i], candidate[j], row.fields);
    AgreementIsNoChange(baseline[i], candidate[j]);
  }

  // ----- Matched events have matched parents -----

  lemma {:induction false} LastOfWellOrdered(events: seq<FlightEvent>, n: nat, k: nat)
    requires Decoding.WellOrdered(events) && k < n <= |events|
    ensures LastWithId(events[..n], events[k].id) == k
  {
    var p := LastWithId(events[..n], events[k].id);
    assert events[..n][k] == events[k];
    assert p < n;
  }

  // In a run whose parents are earlier events, an event's path is its parent's and one
  // segment more.
  lemma ParentPart(events: seq<FlightEvent>, i: nat) returns (parent: Path, p: nat, n: nat)
    requires Decoding.WellOrdered(events) && i < |events|
    ensures Paths(events)[i] ==
            parent + [Segment(KindText(events[i].kind), events[i].agentName.GetOr(""), events[i].name, n)]
    ensures events[i].parentEventId.None? ==> parent == []
    ensures events[i].parentEventId.Some? ==>
              p < i && events[p].id == events[i].parentEventId.value && Paths(events)[p] == parent && parent != []
  {
    PathAt(events, i);
    var stem := EventStem(events[..i], Paths(events)[..i], events[i]);
    parent, p, n := stem.parent, 0, Occurrences(Paths(events)[..i], stem);
    assert Decoding.ParentIsEarlier(events, i);
    if events[i].parentEventId.Some? {
      p :| 0 <= p < i && events[p].id == events[i].parentEventId.value;
      LastOfWellOrdered(events, i, p);
      PathAt(events, p);
    }
  }

  lemma SnocsAgree(a: Path, x: Segment, b: Path, y: Segment)
    requires a + [x] == b + [y]
    ensures a == b && x == y
  {
    assert (a + [x])[|a|] == x && (b + [y])[|b|] == y && |a| == |b|;
    assert a == (a + [x])[..|a|] && b == (b + [y])[..|b|];
  }

  // Matched events are of one type, agent and name, and their parents are matched too.
  lemma MatchedEventsHaveMatchedParents(baseline: seq<FlightEvent>, candidate: seq<FlightEvent>, i: nat, j: nat)
    returns (p: nat, q: nat)
    requires Decoding.WellOrdered(baseline) && Decoding.WellOrdered(candidate) && Matched(baseline, candidate, i, j)
    ensures baseline[i].kind == candidate[j].kind && baseline[i].name == candidate[j].name
    ensures baseline[i].agentName.GetOr("") == candidate[j].agentName.GetOr("")
    ensures baseline[i].parentEventId.Some? <==> candidate[j].parentEventId.Some?
    ensures baseline[i].parentEventId.Some? ==>
              && Matched(baseline, candidate, p, q)
              && baseline[p].id == baseline[i].parentEventId.value
              && candidate[q].id == candidate[j].parentEventId.value
  {
    PathsAreDecodable(Paths(baseline)[i], Paths(candidate)[j]);
    var a, b, m, n;
    a, p, m := ParentPart(baseline, i);
    b, q, n := ParentPart(candidate, j);
    SnocsAgree(a, Segment(KindText(baseline[i].kind), baseline[i].agentName.GetOr(""), baseline[i].name, m),
               b, Segment(KindText(candidate[j].kind), candidate[j].agentName.GetOr(""), candidate[j].name, n));
    KindsAreTold(baseline[i].kind, candidate[j].kind);
  }

  lemma KindsAreTold(a: EventKind, b: EventKind)
    ensures KindText(a) == KindText(b) ==> a == b
  {
  }

  // ----- A run against itself, and the other way round -----

  lemma {:induction false} NoOthers(keys: seq<string>, known: seq<string>)
    requires forall key | key in keys :: key in known
    ensures Others(keys, known) == []
  {
    if keys != [] {
      assert keys == keys[..|keys| - 1] + [keys[|keys| - 1]];
      NoOthers(keys[..|keys| - 1], known);
    }
  }

  // Comparing a run with itself pairs each event with itself and finds nothing changed.
  lemma SelfComparisonIsUnchanged(events: seq<FlightEvent>)
    ensures |Rows(events, events)| == |events|
    ensures forall r | 0 <= r < |events| ::
              Rows(events, events)[r] == Row(Keys(events)[r], Unchanged, Some(events[r]), Some(events[r]), [])
  {
    NoOthers(Keys(events), Keys(events));
    assert ComparedKeys(events, events) == Keys(events);
    forall r | 0 <= r < |events|
      ensures Rows(events, events)[r] == Row(Keys(events)[r], Unchanged, Some(events[r]), Some(events[r]), [])
    {
      EventAtItsKey(events, r);
      NothingDiffersFromItself(events[r]);
    }
  }

  function Mirrored(change: Change): Change {
    match change
    case Added => Removed
    case Removed => Added
    case _ => change
  }

  lemma RowIsMirrored(key: string, b: Option<FlightEvent>, c: Option<FlightEvent>)
    requires b.Some? || c.Some?
    ensures RowFor(key, c, b) ==
            Row(key, Mirrored(RowFor(key, b, c).change), RowFor(key, b, c).candidate, RowFor(key, b, c).baseline,
                RowFor(key, b, c).fields)
  {
    if b.Some? && c.Some? {
      FieldChangesAreSymmetric(b.value, c.value);
      assert ChangedFields(b, c) == ChangedFields(c, b);
    }
  }

  // Exchanging the runs exchanges the sides of every row.
  lemma ComparisonIsMirrored(baseline: seq<FlightEvent>, candidate: seq<FlightEvent>, key: string)
    requires key in ComparedKeys(baseline, candidate)
    ensures var row := RowAt(baseline, candidate, key);
            RowAt(candidate, baseline, key) == Row(key, Mirrored(row.change), row.candidate, row.baseline, row.fields)
    ensures key in ComparedKeys(candidate, baseline)
  {
    RowKeys(baseline, candidate);
    RowKeys(candidate, baseline);
    RowIsMirrored(key, EventWith(baseline, key), EventWith(candidate, key));
  }

  // ----- The event count -----

  function CountOf(rows: seq<Row>, change: Change): nat {
    if rows == [] then 0 else CountOf(rows[..|rows| - 1], change) + if rows[|rows| - 1].change == change then 1 else 0
  }

  function AsSet(keys: seq<string>): set<string> {
    set key | key in keys
  }

  lemma {:induction false} DistinctCount(keys: seq<string>)
    requires Distinct(keys)
    ensures |AsSet(keys)| == |keys|
  {
    if keys != [] {
      var init, last := keys[..|keys| - 1], keys[|keys| - 1];
      DistinctCount(init);
      assert keys == init + [last];
      assert AsSet(keys) == AsSet(init) + {last};
    }
  }

  function KeysWith(keys: seq<string>, f: string -> Row, change: Change): set<string> {
    set key | key in keys && f(key).change == change
  }

  lemma CountOfSnoc(rows: seq<Row>, row: Row, change: Change)
    ensures CountOf(rows + [row], change) == CountOf(rows, change) + if row.change == change then 1 else 0
  {
    assert (rows + [row])[..|rows|] == rows;
  }

  lemma KeysWithSnoc(init: seq<string>, last: string, keys: seq<string>, f: string -> Row, change: Change)
    requires keys == init + [last] && last !in init
    ensures |KeysWith(keys, f, change)| == |KeysWith(init, f, change)| + if f(last).change == change then 1 else 0
  {
    assert KeysWith(keys, f, change) == KeysWith(init, f, change) + (if f(last).change == change then {last} else {});
  }

  lemma {:induction false} CountByKey(keys: seq<string>, f: string -> Row, change: Change)
    requires Distinct(keys)
    ensures CountOf(Select(keys, f), change) == |KeysWith(keys, f, change)|
  {
    if keys != [] {
      var init, last := keys[..|keys| - 1], keys[|keys| - 1];
      CountByKey(init, f, change);
      assert keys == init + [last];
      SelectOneMore(keys, |init|, f);
      assert keys[..|init| + 1] == keys;
      CountOfSnoc(Select(init, f), f(last), change);
      KeysWithSnoc(init, last, keys, f, change);
    }
  }

  lemma SidesOfRow(baseline: seq<FlightEvent>, candidate: seq<FlightEvent>, key: string)
    requires key in Keys(baseline) || key in Keys(candidate)
    ensures RowMaker(baseline, candidate)(key).change == Added <==> key !in Keys(baseline)
    ensures RowMaker(baseline, candidate)(key).change == Removed <==> key !in Keys(candidate)
  {
    HasEventWith(baseline, key);
    HasEventWith(candidate, key);
    ChangeOfSides(key, EventWith(baseline, key), EventWith(candidate, key));
  }

  lemma HasEventWith(events: seq<FlightEvent>, key: string)
    ensures EventWith(events, key).Some? <==> key in Keys(events)
  {
    var p := Position(Keys(events), key);
    assert p < |events| ==> key in Keys(events);
  }

  lemma ChangeOfSides(key: string, b: Option<FlightEvent>, c: Option<FlightEvent>)
    requires b.Some? || c.Some?
    ensures RowFor(key, b, c).change == Added <==> b.None?
    ensures RowFor(key, b, c).change == Removed <==> c.None?
  {
  }

  lemma DifferenceOfCounts(b: set<string>, c: set<string>)
    ensures |c - b| - |b - c| == |c| - |b|
  {
    assert c == (c - b) + (c * b) && b == (b - c) + (c * b);
  }

  lemma SidesAsSets(baseline: seq<FlightEvent>, candidate: seq<FlightEvent>, keys: seq<string>, f: string -> Row)
    requires keys == ComparedKeys(baseline, candidate) && f == RowMaker(baseline, candidate)
    ensures KeysWith(keys, f, Added) == AsSet(Keys(candidate)) - AsSet(Keys(baseline))
    ensures KeysWith(keys, f, Removed) == AsSet(Keys(baseline)) - AsSet(Keys(candidate))
  {
    RowKeys(baseline, candidate);
    forall key | key in keys ensures (f(key).change == Added <==> key !in Keys(baseline))
        && (f(key).change == Removed <==> key !in Keys(candidate)) {
      SidesOfRow(baseline, candidate, key);
    }
  }

  // The difference of the two event counts is the added rows less the removed ones.
  lemma EventCountDelta(baseline: seq<FlightEvent>, candidate: seq<FlightEvent>)
    ensures |candidate| - |baseline| ==
            CountOf(Rows(baseline, candidate), Added) - CountOf(Rows(baseline, candidate), Removed)
  {
    RowKeys(baseline, candidate);
    KeysAreUnique(baseline);
    KeysAreUnique(candidate);
    DistinctCount(Keys(baseline));
    DistinctCount(Keys(candidate));
    CountByKey(ComparedKeys(baseline, candidate), RowMaker(baseline, candidate), Added);
    CountByKey(ComparedKeys(baseline, candidate), RowMaker(baseline, candidate), Removed);
    SidesAsSets(baseline, candidate, ComparedKeys(baseline, candidate), RowMaker(baseline, candidate));
    DifferenceOfCounts(AsSet(Keys(baseline)), AsSet(Keys(candidate)));
  }
}
