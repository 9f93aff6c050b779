/**
 What each observation of the usage reader says, told from the properties of the record it
 was read from: its identity, model, time and counters.
 */
module ReadContents {
  import opened Results
  import opened Text
  import opened Totals
  import opened Trace
  import opened UsageImports
  import opened JsonTree
  import DeltaLog
  import opened JsonText
  import opened UsageReader
  import opened EventReader
  import opened EventEvidence
  import opened DatabaseReader
  import opened UsageSnapshots

  // ----- Counters, labels and times -----

  // The counter is what the place reports: its number, or nothing for nothing or null.
  predicate Reports(counter: Option<int>, place: Option<Json>) {
    match counter
    case Some(n) => place == Some(Number(Safe(n)))
    case None => place.None? || place == Some(Null)
  }

  // A model is the text of its place, unless that is no label that may be shown.
  predicate Labels(model: Option<string>, place: Option<Json>) {
    match model
    case Some(s) => place == Some(Text(s)) && MayBeShown(s)
    case None => !(place.Some? && place.value.Text? && MayBeShown(place.value.text))
  }

  // A label of at most 120 characters that looks like no token and no address.
  predicate MayBeShown(s: string) {
    && |s| <= 120 && IsLabelText(s) && s !in {"__proto__", "prototype", "constructor"}
    && !BeginsLikeSecret(Lower(s))
  }

  predicate BeginsLikeSecret(t: string) {
    || "github_pat_" <= t || "sk-" <= t || "http:" <= t || "https:" <= t || "file:" <= t
    || "gho_" <= t || "ghp_" <= t || "ghr_" <= t || "ghs_" <= t || "ghu_" <= t
  }

  // A text is as long as its UTF-16 code units: two for a character outside the basic plane.
  lemma {:induction false} UnitsOfSnoc(s: string, c: char)
    ensures Units(s + [c]) == Units(s) + (if c as int > 0xFFFF then 2 else 1)
  {
    assert (s + [c])[..|s|] == s;
  }

  // A time is the one its place names, as a text, or where that is allowed as milliseconds
  // since 1970 up to the end of 9999.
  predicate Dates(context: Context, time: Option<Instant>, place: Option<Json>, milliseconds: bool) {
    match place
    case Some(Text(s)) =>
      time == if context.parseTime(s).Some? then Some(Instant(context.parseTime(s).value * 10_000, 0)) else None
    case Some(Number(Safe(n))) =>
      time == if milliseconds && 0 <= n <= 253_402_300_799_999 then Some(Instant(n * 10_000, 0)) else None
    case _ => time.None?
  }

  // A quarter of the characters, rounded up.
  predicate Estimates(estimate: Option<int>, chars: Option<nat>) {
    match estimate
    case Some(n) => chars.Some? && n == (chars.value + 3) / 4
    case None => chars.None?
  }

  predicate NoEstimates(o: UsageObservation) {
    o.estimatedInputTokens.None? && o.estimatedOutputTokens.None?
  }

  // Estimates stand in for input and output counters of which neither is reported.
  predicate Estimated(o: UsageObservation, chars: Option<Visible>) {
    if o.inputTokens.None? && o.outputTokens.None? && chars.Some?
    then Estimates(o.estimatedInputTokens, chars.value.input) && Estimates(o.estimatedOutputTokens, chars.value.output)
    else NoEstimates(o)
  }

  // Measured with a counter of tokens, or else estimated with an estimate.
  predicate HasItsQuality(o: UsageObservation) {
    o.quality ==
      if o.inputTokens.Some? || o.outputTokens.Some? || o.cacheReadTokens.Some? || o.cacheWriteTokens.Some?
      then "measured"
      else if o.estimatedInputTokens.Some? || o.estimatedOutputTokens.Some? then "estimated" else "unavailable"
  }

  lemma LabelIsRead(place: Option<Json>)
    ensures Labels(ModelLabel(place), place)
  {
  }

  lemma TimeIsRead(context: Context, place: Option<Json>, milliseconds: bool)
    ensures Dates(context, Timestamp(context, place, milliseconds), place, milliseconds)
  {
  }

  lemma ObservedContents(context: Context, key: ObservationKey, model: Option<Json>, time: Option<Instant>, f: Fields,
                         visible: Option<Visible>, allowEstimates: bool, o: UsageObservation)
    requires Observe(context, key, model, time, f, visible, allowEstimates) == Ok(o)
    ensures o.id == context.digest(context.id, key) && Labels(o.model, model) && o.timestamp == time
    ensures o.inputTokens == f.input && o.outputTokens == f.output && o.cacheReadTokens == f.cacheRead
            && o.cacheWriteTokens == f.cacheWrite && o.nanoAiu == f.nanoAiu
    ensures Estimated(o, if allowEstimates then visible else None) && HasItsQuality(o)
  {
    LabelIsRead(model);
  }

  // The four counters of a record, by the names of its properties.
  predicate HasCounters(o: UsageObservation, record: Option<Json>) {
    && Reports(o.inputTokens, Prop(record, "inputTokens")) && Reports(o.outputTokens, Prop(record, "outputTokens"))
    && Reports(o.cacheReadTokens, Prop(record, "cacheReadTokens"))
    && Reports(o.cacheWriteTokens, Prop(record, "cacheWriteTokens"))
  }

  lemma CountersAreRead(record: Option<Json>, f: Fields)
    requires CliFields(record) == Ok(f)
    ensures Reports(f.input, Prop(record, "inputTokens")) && Reports(f.output, Prop(record, "outputTokens"))
    ensures Reports(f.cacheRead, Prop(record, "cacheReadTokens"))
    ensures Reports(f.cacheWrite, Prop(record, "cacheWriteTokens"))
  {
  }

  // ----- Records of an event log -----

  // A text of 1 to 512 characters identifies a record; any other record goes by its place.
  predicate IsIdentity(id: Option<Json>) {
    id.Some? && id.value.Text? && 1 <= Units(id.value.text) <= 512
  }

  predicate IsEventId(context: Context, id: string, event: Json, index: nat) {
    var place := Prop(Some(event), "id");
    id == context.digest(context.id, if IsIdentity(place) then EventId(place.value.text) else EventIndex(index))
  }

  // One "assistant.usage" record.
  predicate IsOfCall(context: Context, o: UsageObservation, event: Json, index: nat) {
    var data := Prop(Some(event), "data");
    && IsEventId(context, o.id, event, index) && Labels(o.model, Prop(data, "model"))
    && Dates(context, o.timestamp, Prop(Some(event), "timestamp"), false)
    && HasCounters(o, data) && NoEstimates(o) && HasItsQuality(o)
    && if context.kind == "copilot-cli" then Reports(o.nanoAiu, Prop(Prop(data, "copilotUsage"), "totalNanoAiu"))
       else o.nanoAiu.None?
  }

  lemma CallContents(context: Context, event: Json, index: nat, o: UsageObservation)
    requires Call(context, event, index) == Ok(o)
    ensures IsOfCall(context, o, event, index)
  {
    var data := Prop(Some(event), "data");
    var f := CliFields(data).value;
    var nano := NumberValue(Prop(Prop(data, "copilotUsage"), "totalNanoAiu"), MAXIMUM_NANO_AIU).value;
    CountersAreRead(data, f);
    TimeIsRead(context, Prop(Some(event), "timestamp"), false);
    ObservedContents(context, EventKey(event, index), Prop(data, "model"), TimeOf(context, event),
                     if context.kind == CLI then f.(nanoAiu := nano) else f, None, false, o);
  }

  // One model of a "session.shutdown" record.
  predicate IsOfModel(context: Context, o: UsageObservation, event: Json, model: string, metrics: Json) {
    && o.id == context.digest(context.id, ShutdownModel(model)) && Labels(o.model, Some(Text(model)))
    && Dates(context, o.timestamp, Prop(Some(event), "timestamp"), false)
    && HasCounters(o, Prop(Some(metrics), "usage")) && o.nanoAiu.None? && NoEstimates(o) && HasItsQuality(o)
  }

  // The billed amount of a "session.shutdown" record.
  predicate IsOfBilling(context: Context, o: UsageObservation, event: Json) {
    && o.id == context.digest(context.id, ShutdownBilling) && o.model.None?
    && Dates(context, o.timestamp, Prop(Some(event), "timestamp"), false)
    && o.nanoAiu.Some? && Reports(o.nanoAiu, Prop(Prop(Some(event), "data"), "totalNanoAiu"))
    && o.inputTokens.None? && o.outputTokens.None? && o.cacheReadTokens.None? && o.cacheWriteTokens.None?
    && NoEstimates(o) && HasItsQuality(o)
  }

  ghost predicate AreOfModels(context: Context, r: seq<UsageObservation>, event: Json, entries: seq<(string, Json)>) {
    |r| == |entries| && forall i | 0 <= i < |r| :: IsOfModel(context, r[i], event, entries[i].0, entries[i].1)
  }

  // An observation for each model the record lists, and behind them, for a CLI session that
  // reports one, the billed amount.
  ghost predicate IsOfShutdown(context: Context, r: seq<UsageObservation>, event: Json) {
    var data := Prop(Some(event), "data");
    var metrics, billed := Prop(data, "modelMetrics"), Prop(data, "totalNanoAiu");
    && metrics.Some? && metrics.value.Obj?
    && var n := |metrics.value.entries|;
       if context.kind == "copilot-cli" && billed.Some? && billed != Some(Null)
       then |r| == n + 1 && AreOfModels(context, r[..n], event, metrics.value.entries)
            && IsOfBilling(context, r[n], event)
       else AreOfModels(context, r, event, metrics.value.entries)
  }

  lemma ModelContents(context: Context, event: Json, model: string, metrics: Json, f: Fields, o: UsageObservation)
    requires CliFields(Prop(Some(metrics), "usage")) == Ok(f)
    requires Observe(context, ShutdownModel(model), Some(Text(model)), TimeOf(context, event), f, None, false) == Ok(o)
    ensures IsOfModel(context, o, event, model, metrics)
  {
    CountersAreRead(Prop(Some(metrics), "usage"), f);
    TimeIsRead(context, Prop(Some(event), "timestamp"), false);
    ObservedContents(context, ShutdownModel(model), Some(Text(model)), TimeOf(context, event), f, None, false, o);
  }

  lemma {:induction false} TotalsCount(context: Context, event: Json, entries: seq<(string, Json)>,
                                       r: seq<UsageObservation>)
    requires ModelTotals(context, event, entries) == Ok(r)
    ensures |r| == |entries|
    decreases |entries|
  {
    if entries != [] {
      var init := entries[..|entries| - 1];
      TotalsCount(context, event, init, ModelTotals(context, event, init).value);
    }
  }

  lemma LastModel(context: Context, event: Json, entries: seq<(string, Json)>, r: seq<UsageObservation>)
    returns (earlier: seq<UsageObservation>, o: UsageObservation)
    requires entries != [] && ModelTotals(context, event, entries) == Ok(r)
    ensures ModelTotals(context, event, entries[..|entries| - 1]) == Ok(earlier) && r == earlier + [o]
    ensures |r| == |entries|
    ensures IsOfModel(context, o, event, entries[|entries| - 1].0, entries[|entries| - 1].1)
  {
    var n := |entries| - 1;
    earlier := ModelTotals(context, event, entries[..n]).value;
    o := r[|earlier|];
    TotalsCount(context, event, entries, r);
    ModelContents(context, event, entries[n].0, entries[n].1, CliFields(Prop(Some(entries[n].1), "usage")).value, o);
  }

  lemma OneMoreModel(context: Context, r: seq<UsageObservation>, event: Json, entries: seq<(string, Json)>, n: nat)
    requires |r| == |entries| == n + 1 && AreOfModels(context, r[..n], event, entries[..n])
    requires IsOfModel(context, r[n], event, entries[n].0, entries[n].1)
    ensures AreOfModels(context, r, event, entries)
  {
    forall i | 0 <= i < |r| ensures IsOfModel(context, r[i], event, entries[i].0, entries[i].1) {
      if i < n { assert IsOfModel(context, r[..n][i], event, entries[..n][i].0, entries[..n][i].1); }
    }
  }

  lemma {:induction false} ModelsContents(context: Context, event: Json, entries: seq<(string, Json)>,
                                          r: seq<UsageObservation>)
    requires ModelTotals(context, event, entries) == Ok(r)
    ensures AreOfModels(context, r, event, entries)
    decreases |entries|
  {
    if entries != [] {
      var earlier, o := LastModel(context, event, entries, r);
      ModelsContents(context, event, entries[..|entries| - 1], earlier);
      assert r[..|entries| - 1] == earlier;
      OneMoreModel(context, r, event, entries, |entries| - 1);
    }
  }

  lemma BillingContents(context: Context, event: Json, nano: Option<int>, o: UsageObservation)
    requires nano.Some? && Reports(nano, Prop(Prop(Some(event), "data"), "totalNanoAiu"))
    requires Observe(context, ShutdownBilling, None, TimeOf(context, event), NO_FIELDS.(nanoAiu := nano), None, false)
             == Ok(o)
    ensures IsOfBilling(context, o, event)
  {
    TimeIsRead(context, Prop(Some(event), "timestamp"), false);
    ObservedContents(context, ShutdownBilling, None, TimeOf(context, event), NO_FIELDS.(nanoAiu := nano), None, false,
                     o);
  }

  lemma ShutdownContents(context: Context, event: Json, r: seq<UsageObservation>)
    requires ShutdownTotals(context, event) == Ok(r)
    ensures IsOfShutdown(context, r, event)
  {
    var data := Prop(Some(event), "data");
    var metrics := Prop(data, "modelMetrics");
    var totals := ModelTotals(context, event, metrics.value.entries).value;
    var nano := NumberValue(Prop(data, "totalNanoAiu"), MAXIMUM_NANO_AIU).value;
    ModelsContents(context, event, metrics.value.entries, totals);
    if nano.Some? && context.kind == CLI {
      BillingContents(context, event, nano, r[|totals|]);
      assert r[..|totals|] == totals;
    }
  }

  // A request of a log without calls and shutdowns: the prompt or reply at `from` with the
  // replies up to `to`.
  ghost predicate IsOfRequest(context: Context, o: UsageObservation, events: seq<Json>, from: nat, to: nat) {
    && from < to <= |events| && IsEventId(context, o.id, events[from], from)
    && var replies := RepliesIn(events, from, to);
       && Labels(o.model, replies.model) && Dates(context, o.timestamp, Prop(Some(events[from]), "timestamp"), false)
       && o.outputTokens == replies.tokens
       && o.inputTokens.None? && o.cacheReadTokens.None? && o.cacheWriteTokens.None? && o.nanoAiu.None?
       && HasItsQuality(o)
       && Estimated(o, if !context.allowEstimates then None
                       else Some(Visible(if EventType(events[from]) == "user.message" then ContentUnits(events[from])
                                         else None, replies.chars)))
  }

  ghost predicate AreOfRequests(context: Context, r: seq<UsageObservation>, events: seq<Json>, starts: seq<nat>) {
    && |r| == |starts|
    && forall k | 0 <= k < |r| :: IsOfRequest(context, r[k], events, starts[k], EndOf(starts, |events|, k))
  }

  lemma RequestContents(context: Context, events: seq<Json>, message: Message, from: nat, to: nat, o: UsageObservation)
    requires IsRequest(message, events, from, to) && FromMessage(context, message) == Ok(o)
    ensures IsOfRequest(context, o, events, from, to)
  {
    TimeIsRead(context, Prop(Some(message.event), "timestamp"), false);
    ObservedContents(context, EventKey(message.event, message.index), message.model, TimeOf(context, message.event),
                     NO_FIELDS.(output := message.outputTokens), Some(Visible(message.input, message.output)),
                     context.allowEstimates, o);
  }

  ghost predicate AreRead(context: Context, r: seq<UsageObservation>, messages: seq<Message>) {
    |r| == |messages| && forall k | 0 <= k < |r| :: FromMessage(context, messages[k]) == Ok(r[k])
  }

  lemma OneMoreRead(context: Context, r: seq<UsageObservation>, messages: seq<Message>, n: nat)
    requires |r| == |messages| == n + 1 && AreRead(context, r[..n], messages[..n])
    requires FromMessage(context, messages[n]) == Ok(r[n])
    ensures AreRead(context, r, messages)
  {
    forall k | 0 <= k < |r| ensures FromMessage(context, messages[k]) == Ok(r[k]) {
      if k < n { assert FromMessage(context, messages[..n][k]) == Ok(r[..n][k]); }
    }
  }

  lemma LastRead(context: Context, messages: seq<Message>, r: seq<UsageObservation>)
    returns (earlier: seq<UsageObservation>, o: UsageObservation)
    requires messages != [] && FromMessages(context, messages) == Ok(r)
    ensures FromMessages(context, messages[..|messages| - 1]) == Ok(earlier) && r == earlier + [o]
    ensures FromMessage(context, messages[|messages| - 1]) == Ok(o)
  {
    earlier := FromMessages(context, messages[..|messages| - 1]).value;
    o := r[|earlier|];
  }

  lemma {:induction false} MessagesAreRead(context: Context, messages: seq<Message>, r: seq<UsageObservation>)
    requires FromMessages(context, messages) == Ok(r)
    ensures AreRead(context, r, messages)
    decreases |messages|
  {
    if messages != [] {
      var n := |messages| - 1;
      var earlier, o := LastRead(context, messages, r);
      MessagesAreRead(context, messages[..n], earlier);
      assert r[..n] == earlier;
      OneMoreRead(context, r, messages, n);
    }
  }

  lemma RequestsContents(context: Context, events: seq<Json>, starts: seq<nat>, requests: seq<Message>,
                         r: seq<UsageObservation>)
    requires AreRequests(events, starts, requests) && FromMessages(context, requests) == Ok(r)
    ensures AreOfRequests(context, r, events, starts)
  {
    MessagesAreRead(context, requests, r);
    forall k | 0 <= k < |r| ensures IsOfRequest(context, r[k], events, starts[k], EndOf(starts, |events|, k)) {
      assert IsRequest(requests[k], events, starts[k], EndOf(starts, |events|, k));
      RequestContents(context, events, requests[k], starts[k], EndOf(starts, |events|, k), r[k]);
    }
  }

  // A record of a call with a token counter in it.
  predicate HasTokens(event: Json) {
    var data := Prop(Some(event), "data");
    && EventType(event) == "assistant.usage"
    && (IsReported(Prop(data, "inputTokens")) || IsReported(Prop(data, "outputTokens"))
        || IsReported(Prop(data, "cacheReadTokens")) || IsReported(Prop(data, "cacheWriteTokens")))
  }

  ghost predicate AreOfCalls(context: Context, r: seq<UsageObservation>, events: seq<Json>, positions: seq<nat>) {
    && |r| == |positions|
    && forall k | 0 <= k < |r| ::
         positions[k] < |events| && IsOfCall(context, r[k], events[positions[k]], positions[k])
  }

  lemma CallsContents(context: Context, events: seq<Json>, positions: seq<nat>, r: seq<UsageObservation>)
    requires AreCalls(context, events, positions, r)
    ensures AreOfCalls(context, r, events, positions)
  {
    forall k | 0 <= k < |r|
      ensures positions[k] < |events| && IsOfCall(context, r[k], events[positions[k]], positions[k])
    {
      assert IsCall(context, events, positions[k], r[k]);
      CallContents(context, events[positions[k]], positions[k], r[k]);
    }
  }

  lemma MeasuredHasTokens(context: Context, events: seq<Json>)
    requires LogOk(context, events)
    ensures (exists i :: MeasuredAt(context, events, i)) <==> AnyTokens(events)
  {
    forall i | IsAt(events, i, CALL) ensures MeasuredAt(context, events, i) <==> HasTokens(events[i]) {
      assert RecordOk(context, events[i], i);
      CallsAreReadExactly(context, events[i], i);
      CallContents(context, events[i], i, Call(context, events[i], i).value);
    }
    if i :| 0 <= i < |events| && HasTokens(events[i]) {
      assert IsAt(events, i, CALL) && MeasuredAt(context, events, i);
    }
    if i :| MeasuredAt(context, events, i) {
      assert HasTokens(events[i]);
    }
  }

  ghost predicate AnyTokens(events: seq<Json>) {
    exists i | 0 <= i < |events| :: HasTokens(events[i])
  }

  // Everything read from an event log, told from its records: every call when any call has a
  // token counter, or else the last shutdown, or else the calls there are, or else the
  // requests.
  ghost predicate IsOfLog(context: Context, r: seq<UsageObservation>, events: seq<Json>) {
    var calls, shutdowns := Positions(events, "assistant.usage"), Positions(events, "session.shutdown");
    if AnyTokens(events) || (calls != [] && shutdowns == []) then AreOfCalls(context, r, events, calls)
    else if shutdowns != [] then IsOfShutdown(context, r, events[shutdowns[|shutdowns| - 1]])
    else AreOfRequests(context, r, events, Starts(events))
  }

  lemma RequestEvidence(context: Context, events: seq<Json>, r: seq<UsageObservation>)
    requires IsEvidence(context, events, r) && !exists i :: MeasuredAt(context, events, i)
    requires Positions(events, CALL) == [] && Positions(events, SHUTDOWN) == []
    ensures AreOfRequests(context, r, events, Starts(events))
  {
    var requests :| AreRequests(events, Starts(events), requests) && FromMessages(context, requests) == Ok(r);
    RequestsContents(context, events, Starts(events), requests, r);
  }

  lemma ShutdownEvidence(context: Context, events: seq<Json>, r: seq<UsageObservation>)
    requires IsEvidence(context, events, r) && !exists i :: MeasuredAt(context, events, i)
    requires Positions(events, SHUTDOWN) != []
    ensures IsOfShutdown(context, r, events[Positions(events, SHUTDOWN)[|Positions(events, SHUTDOWN)| - 1]])
  {
    var shutdowns := Positions(events, SHUTDOWN);
    ShutdownContents(context, events[shutdowns[|shutdowns| - 1]], r);
  }

  lemma CallEvidence(context: Context, events: seq<Json>, r: seq<UsageObservation>)
    requires IsEvidence(context, events, r)
    requires (exists i :: MeasuredAt(context, events, i))
             || (Positions(events, CALL) != [] && Positions(events, SHUTDOWN) == [])
    ensures AreOfCalls(context, r, events, Positions(events, CALL))
  {
    CallsContents(context, events, Positions(events, CALL), r);
  }

  lemma EvidenceContents(context: Context, events: seq<Json>, r: seq<UsageObservation>)
    requires IsEvidence(context, events, r)
    requires (exists i :: MeasuredAt(context, events, i)) <==> AnyTokens(events)
    ensures IsOfLog(context, r, events)
  {
    if AnyTokens(events) || (Positions(events, CALL) != [] && Positions(events, SHUTDOWN) == []) {
      CallEvidence(context, events, r);
    } else if Positions(events, SHUTDOWN) != [] {
      ShutdownEvidence(context, events, r);
    } else {
      RequestEvidence(context, events, r);
    }
  }

  lemma LogContents(context: Context, events: seq<Json>, r: seq<UsageObservation>)
    requires EventsRead(context, events) == Ok(r)
    ensures IsOfLog(context, r, events)
  {
    LogsAreReadExactly(context, events);
    EvidenceIsSelected(context, events, r);
    MeasuredHasTokens(context, events);
    EvidenceContents(context, events, r);
  }

  // ----- Chat requests -----

  // A counter is what any of the places reports, and absent when none does.
  predicate ReportsAny(counter: Option<int>, places: seq<Option<Json>>) {
    && (forall i | 0 <= i < |places| && IsReported(places[i]) :: counter.Some? && Reports(counter, places[i]))
    && (counter.Some? ==> exists i | 0 <= i < |places| :: IsReported(places[i]))
  }

  function FirstReported(places: seq<Option<Json>>): Option<Json> {
    if places == [] then None else if IsReported(places[0]) then places[0] else FirstReported(places[1..])
  }

  function TextIn(place: Option<Json>): Option<string> {
    match place
    case Some(Text(s)) => Some(s)
    case _ => None
  }

  // The text a part of a response shows.
  function ShownIn(part: Json): Option<string> {
    var kind := Prop(Some(part), "kind");
    if !part.Obj? || !(kind.None? || kind.value in {Text("markdownContent"), Text("markdown"), Text("text")}) then None
    else TextIn(Prop(Prop(Some(part), "content"), "value")).OrElse(TextIn(Prop(Some(part), "value")))
  }

  // The characters of these texts together; absent when there is none.
  function CharsOf(texts: seq<Option<string>>): Option<int> {
    Total(CharsOfEach(texts))
  }

  function CharsOfEach(texts: seq<Option<string>>): (r: seq<Option<int>>)
    ensures |r| == |texts|
    ensures forall i | 0 <= i < |r| :: r[i] == if texts[i].Some? then Some(Units(texts[i].value)) else None
  {
    seq(|texts|, i requires 0 <= i < |texts| => if texts[i].Some? then Some(Units(texts[i].value)) else None)
  }

  function PartTexts(parts: seq<Json>): seq<Option<string>> {
    seq(|parts|, i requires 0 <= i < |parts| => TextIn(Prop(Some(parts[i]), "text")))
  }

  function ShownTexts(parts: seq<Json>): seq<Option<string>> {
    seq(|parts|, i requires 0 <= i < |parts| => ShownIn(parts[i]))
  }

  predicate AreChars(chars: Option<nat>, total: Option<int>) {
    (chars.Some? <==> total.Some?) && (chars.Some? ==> chars.value == total.value)
  }

  // The characters of a message: of its text, or of its parts' texts.
  predicate AreOfMessage(chars: Option<nat>, message: Option<Json>) {
    match (Prop(message, "text"), Prop(message, "parts"))
    case (Some(Text(s)), _) => chars == Some(Units(s))
    case (_, Some(Arr(parts))) => AreChars(chars, CharsOf(PartTexts(parts)))
    case _ => chars.None?
  }

  // The characters of what a response shows.
  predicate AreOfResponse(chars: Option<nat>, response: Option<Json>) {
    match response
    case Some(Arr(parts)) => AreChars(chars, CharsOf(ShownTexts(parts)))
    case _ => chars.None?
  }

  // The visible characters of a request.
  predicate AreVisible(chars: Visible, item: Json) {
    && AreOfMessage(chars.input, Prop(Some(item), "message"))
    && AreOfResponse(chars.output, FirstReported([Prop(Some(item), "response"), Prop(Some(item), "responses")]))
  }

  lemma CharsOfSnoc(texts: seq<Option<string>>, text: Option<string>)
    ensures CharsOf(texts + [text]) == Combine(CharsOf(texts), if text.Some? then Some(Units(text.value)) else None)
  {
    var last: Option<int> := if text.Some? then Some(Units(text.value)) else None;
    assert CharsOfEach(texts + [text]) == CharsOfEach(texts) + [last];
    TotalOfSnoc(CharsOfEach(texts), last);
  }

  lemma {:induction false} PartCharsAre(parts: seq<Json>)
    ensures AreChars(PartChars(parts), CharsOf(PartTexts(parts)))
  {
    if parts != [] {
      var init, last := parts[..|parts| - 1], parts[|parts| - 1];
      PartCharsAre(init);
      assert PartTexts(parts) == PartTexts(init) + [TextIn(Prop(Some(last), "text"))];
      CharsOfSnoc(PartTexts(init), TextIn(Prop(Some(last), "text")));
    }
  }

  lemma {:induction false} ResponseCharsAre(parts: seq<Json>)
    ensures AreChars(ResponseChars(parts), CharsOf(ShownTexts(parts)))
  {
    if parts != [] {
      var init, last := parts[..|parts| - 1], parts[|parts| - 1];
      ResponseCharsAre(init);
      assert ShownTexts(parts) == ShownTexts(init) + [ShownIn(last)];
      CharsOfSnoc(ShownTexts(init), ShownIn(last));
    }
  }

  lemma MessageChars(item: Json)
    ensures AreOfMessage(VisibleChat(Some(item)).input, Prop(Some(item), "message"))
  {
    var parts := Prop(Prop(Some(item), "message"), "parts");
    if IsArr(parts) { PartCharsAre(parts.value.items); }
  }

  lemma FirstOfTwo(a: Option<Json>, b: Option<Json>)
    ensures FirstReported([a, b]) == if IsReported(Coalesce(a, b)) then Coalesce(a, b) else None
  {
    assert [a, b][1..] == [b] && [b][1..] == [];
    assert FirstReported([b]) == if IsReported(b) then b else None;
  }

  lemma ShownChars(item: Json)
    ensures AreOfResponse(VisibleChat(Some(item)).output,
                          FirstReported([Prop(Some(item), "response"), Prop(Some(item), "responses")]))
  {
    var response := Coalesce(Prop(Some(item), "response"), Prop(Some(item), "responses"));
    FirstOfTwo(Prop(Some(item), "response"), Prop(Some(item), "responses"));
    if IsArr(response) { ResponseCharsAre(response.value.items); }
  }

  // The places a request may name its model in, the first that does counting.
  function ModelPlaces(item: Json): seq<Option<Json>> {
    [Prop(Some(item), "modelId"), Prop(Prop(Some(item), "selectedModel"), "identifier"), Prop(Some(item), "model"),
     Prop(Prop(Prop(Some(item), "result"), "metadata"), "modelId")]
  }

  // One chat request, the index-th of its session.
  ghost predicate IsOfChat(context: Context, o: UsageObservation, item: Json, index: nat) {
    var id := FirstReported([Prop(Some(item), "requestId"), Prop(Some(item), "id")]);
    && o.id == context.digest(context.id, if IsIdentity(id) then RequestId(id.value.text) else RequestIndex(index))
    && Labels(o.model, FirstReported(ModelPlaces(item)))
    && Dates(context, o.timestamp, Prop(Some(item), "timestamp"), true)
    && ReportsAny(o.inputTokens, InputPlaces(Some(item))) && ReportsAny(o.outputTokens, OutputPlaces(Some(item)))
    && o.cacheReadTokens.None? && o.cacheWriteTokens.None? && o.nanoAiu.None? && HasItsQuality(o)
    && if context.allowEstimates then exists chars :: AreVisible(chars, item) && Estimated(o, Some(chars))
       else NoEstimates(o)
  }

  lemma AgreedIsReported(a: Option<Json>, b: Option<Json>, c: Option<Json>, agreed: Option<int>)
    requires IsCountOrAbsent(a, MAXIMUM_COUNT) && IsCountOrAbsent(b, MAXIMUM_COUNT) && IsCountOrAbsent(c, MAXIMUM_COUNT)
    requires Agreed(NumberValue(a, MAXIMUM_COUNT).value, NumberValue(b, MAXIMUM_COUNT).value,
                    NumberValue(c, MAXIMUM_COUNT).value) == Ok(agreed)
    ensures ReportsAny(agreed, [a, b, c])
  {
    var places := [a, b, c];
    CountIsReported(a);
    CountIsReported(b);
    CountIsReported(c);
    assert places[0] == a && places[1] == b && places[2] == c;
  }

  lemma ChatCounters(request: Option<Json>, f: Fields)
    requires ChatUsage(request) == Ok(f)
    ensures ReportsAny(f.input, InputPlaces(request)) && ReportsAny(f.output, OutputPlaces(request))
  {
    var a, b := InputPlaces(request), OutputPlaces(request);
    ReadPlacesAreCounts(request);
    AgreedIsReported(a[0], a[1], a[2], f.input);
    AgreedIsReported(b[0], b[1], b[2], f.output);
    assert a == [a[0], a[1], a[2]] && b == [b[0], b[1], b[2]];
  }

  lemma FirstOfModels(item: Json)
    ensures FirstReported(ModelPlaces(item)) ==
            var chosen := Coalesce(ModelPlaces(item)[0], Coalesce(ModelPlaces(item)[1], Coalesce(ModelPlaces(item)[2],
                                   ModelPlaces(item)[3])));
            if IsReported(chosen) then chosen else None
  {
    var p := ModelPlaces(item);
    FirstOfTwo(p[2], p[3]);
    assert p[1..][1..] == [p[2], p[3]];
    assert FirstReported(p[1..]) == if IsReported(p[1]) then p[1] else FirstReported([p[2], p[3]]);
  }

  lemma ChatContents(context: Context, item: Json, index: nat, o: UsageObservation)
    requires ChatObservation(context, item, index) == Ok(o)
    ensures IsOfChat(context, o, item, index)
  {
    var request, p := Some(item), ModelPlaces(item);
    var f := ChatUsage(request).value;
    ChatCounters(request, f);
    FirstOfModels(item);
    FirstOfTwo(Prop(request, "requestId"), Prop(request, "id"));
    TimeIsRead(context, Prop(request, "timestamp"), true);
    MessageChars(item);
    ShownChars(item);
    ObservedContents(context, RequestKey(request, index),
                     Coalesce(p[0], Coalesce(p[1], Coalesce(p[2], p[3]))),
                     Timestamp(context, Prop(request, "timestamp"), true), f,
                     if context.allowEstimates then Some(VisibleChat(request)) else None, context.allowEstimates, o);
  }

  ghost predicate AreOfChats(context: Context, r: seq<UsageObservation>, requests: seq<Json>) {
    |r| == |requests| && forall i | 0 <= i < |r| :: IsOfChat(context, r[i], requests[i], i)
  }

  lemma LastChat(context: Context, requests: seq<Json>, r: seq<UsageObservation>)
    returns (earlier: seq<UsageObservation>, o: UsageObservation)
    requires requests != [] && ChatEach(context, requests) == Ok(r)
    ensures ChatEach(context, requests[..|requests| - 1]) == Ok(earlier) && r == earlier + [o]
    ensures ChatObservation(context, requests[|requests| - 1], |requests| - 1) == Ok(o)
  {
    earlier := ChatEach(context, requests[..|requests| - 1]).value;
    o := r[|earlier|];
  }

  lemma OneMoreChat(context: Context, r: seq<UsageObservation>, requests: seq<Json>, n: nat)
    requires |r| == |requests| == n + 1 && AreOfChats(context, r[..n], requests[..n])
    requires IsOfChat(context, r[n], requests[n], n)
    ensures AreOfChats(context, r, requests)
  {
    forall i | 0 <= i < |r| ensures IsOfChat(context, r[i], requests[i], i) {
      if i < n { assert IsOfChat(context, r[..n][i], requests[..n][i], i); }
    }
  }

  lemma {:induction false} ChatsCount(context: Context, requests: seq<Json>, r: seq<UsageObservation>)
    requires ChatEach(context, requests) == Ok(r)
    ensures |r| == |requests|
    decreases |requests|
  {
    if requests != [] {
      var earlier, o := LastChat(context, requests, r);
      ChatsCount(context, requests[..|requests| - 1], earlier);
    }
  }

  lemma {:induction false} ChatsContents(context: Context, requests: seq<Json>, r: seq<UsageObservation>)
    requires ChatEach(context, requests) == Ok(r)
    ensures AreOfChats(context, r, requests)
    decreases |requests|
  {
    if requests != [] {
      var n := |requests| - 1;
      var earlier, o := LastChat(context, requests, r);
      ChatsCount(context, requests, r);
      ChatsContents(context, requests[..n], earlier);
      ChatContents(context, requests[n], n, o);
      assert r[..n] == earlier;
      OneMoreChat(context, r, requests, n);
    }
  }

  // A chat state: one observation for each entry of "requests", or else of "history".
  ghost predicate IsOfState(context: Context, r: seq<UsageObservation>, state: Json) {
    var requests, history := Prop(Some(state), "requests"), Prop(Some(state), "history");
    if IsArr(requests) then AreOfChats(context, r, requests.value.items)
    else IsArr(history) && AreOfChats(context, r, history.value.items)
  }

  lemma StateContents(context: Context, state: Json, r: seq<UsageObservation>)
    requires ChatObservations(context, state) == Ok(r)
    ensures IsOfState(context, r, state)
  {
    ChatsContents(context, RequestsOf(state).value.items, r);
  }

  // ----- Rows of the database -----

  // One row with a key: the text of the key, or its decimal digits.
  predicate IsOfRow(context: Context, o: UsageObservation, column: string, row: DatabaseRecord) {
    && (match row.key
        case Some(Text(s)) => o.id == context.digest(context.id, ObservationKey.DatabaseRow(column, s))
        case Some(Number(Safe(n))) =>
          o.id == context.digest(context.id,
                                 ObservationKey.DatabaseRow(column, if n < 0 then "-" + Digits(-n) else Digits(n)))
        case _ => false)
    && Labels(o.model, Some(row.model)) && o.timestamp.None?
    && Reports(o.inputTokens, row.input) && Reports(o.outputTokens, row.output)
    && Reports(o.cacheReadTokens, row.cacheRead) && Reports(o.cacheWriteTokens, row.cacheWrite)
    && Reports(o.nanoAiu, row.nanoAiu) && NoEstimates(o) && HasItsQuality(o)
  }

  lemma RowCounters(row: DatabaseRecord, f: Fields)
    requires RowFields(row) == Ok(f)
    ensures Reports(f.input, row.input) && Reports(f.output, row.output) && Reports(f.cacheRead, row.cacheRead)
    ensures Reports(f.cacheWrite, row.cacheWrite) && Reports(f.nanoAiu, row.nanoAiu)
  {
    assert Read(row, InputColumn).Ok? && Read(row, OutputColumn).Ok? && Read(row, CacheReadColumn).Ok?;
    assert Read(row, CacheWriteColumn).Ok? && Read(row, NanoAiuColumn).Ok?;
  }

  lemma RowContents(context: Context, column: string, row: DatabaseRecord, o: UsageObservation)
    requires KeyedRow(context, column, row) == Ok(o)
    ensures IsOfRow(context, o, column, row)
  {
    var f := RowFields(row).value;
    RowCounters(row, f);
    ObservedContents(context, ObservationKey.DatabaseRow(column, KeyText(row.key).value), Some(row.model), None, f,
        None,
                     false, o);
  }

  ghost predicate AreOfRows(context: Context, r: seq<UsageObservation>, column: string, rows: seq<DatabaseRecord>) {
    |r| == |rows| && forall i | 0 <= i < |r| :: IsOfRow(context, r[i], column, rows[i])
  }

  lemma LastRow(context: Context, column: string, rows: seq<DatabaseRecord>, r: seq<UsageObservation>)
    returns (earlier: seq<UsageObservation>, o: UsageObservation)
    requires rows != [] && KeyedRows(context, column, rows) == Ok(r)
    ensures KeyedRows(context, column, rows[..|rows| - 1]) == Ok(earlier) && r == earlier + [o]
    ensures KeyedRow(context, column, rows[|rows| - 1]) == Ok(o)
  {
    earlier := KeyedRows(context, column, rows[..|rows| - 1]).value;
    o := r[|earlier|];
  }

  lemma OneMoreRowRead(context: Context, r: seq<UsageObservation>, column: string, rows: seq<DatabaseRecord>, n: nat)
    requires |r| == |rows| == n + 1 && AreOfRows(context, r[..n], column, rows[..n])
    requires IsOfRow(context, r[n], column, rows[n])
    ensures AreOfRows(context, r, column, rows)
  {
    forall i | 0 <= i < |r| ensures IsOfRow(context, r[i], column, rows[i]) {
      if i < n { assert IsOfRow(context, r[..n][i], column, rows[..n][i]); }
    }
  }

  lemma {:induction false} RowsCount(context: Context, column: string, rows: seq<DatabaseRecord>,
                                     r: seq<UsageObservation>)
    requires KeyedRows(context, column, rows) == Ok(r)
    ensures |r| == |rows|
    decreases |rows|
  {
    if rows != [] {
      var earlier, o := LastRow(context, column, rows, r);
      RowsCount(context, column, rows[..|rows| - 1], earlier);
    }
  }

  lemma {:induction false} RowsContents(context: Context, column: string, rows: seq<DatabaseRecord>,
                                        r: seq<UsageObservation>)
    requires KeyedRows(context, column, rows) == Ok(r)
    ensures AreOfRows(context, r, column, rows)
    decreases |rows|
  {
    if rows != [] {
      var n := |rows| - 1;
      var earlier, o := LastRow(context, column, rows, r);
      RowsCount(context, column, rows, r);
      RowsContents(context, column, rows[..n], earlier);
      RowContents(context, column, rows[n], o);
      assert r[..n] == earlier;
      OneMoreRowRead(context, r, column, rows, n);
    }
  }

  const InputPlace: DatabaseRecord -> Option<Json> := (row: DatabaseRecord) => row.input
  const OutputPlace: DatabaseRecord -> Option<Json> := (row: DatabaseRecord) => row.output
  const CacheReadPlace: DatabaseRecord -> Option<Json> := (row: DatabaseRecord) => row.cacheRead
  const CacheWritePlace: DatabaseRecord -> Option<Json> := (row: DatabaseRecord) => row.cacheWrite
  const BilledPlace: DatabaseRecord -> Option<Json> := (row: DatabaseRecord) => row.nanoAiu

  // The places of one column in the rows of a model.
  function PlacesOf(rows: seq<DatabaseRecord>, model: Json, place: DatabaseRecord -> Option<Json>): seq<Option<Json>> {
    if rows == [] then []
    else
      var last := rows[|rows| - 1];
      PlacesOf(rows[..|rows| - 1], model, place) + if last.model == model then [place(last)] else []
  }

  function NumberIn(place: Option<Json>): int {
    match place
    case Some(Number(Safe(n))) => n
    case _ => 0
  }

  // The sum of what the places report, when all of them report something.
  function SumOf(places: seq<Option<Json>>): int {
    if places == [] then 0
    else SumOf(places[..|places| - 1]) + NumberIn(places[|places| - 1])
  }

  predicate SumsTo(counter: Option<int>, places: seq<Option<Json>>) {
    if forall i | 0 <= i < |places| :: IsReported(places[i]) then counter == Some(SumOf(places)) else counter.None?
  }

  // The one observation of a model without keyed rows.
  ghost predicate IsOfRowsOf(context: Context, o: UsageObservation, rows: seq<DatabaseRecord>, model: Json) {
    && o.id == context.digest(context.id, ObservationKey.DatabaseModel(TextIn(Some(model))))
    && Labels(o.model, Some(model)) && o.timestamp.None? && NoEstimates(o)
    && SumsTo(o.inputTokens, PlacesOf(rows, model, InputPlace))
    && SumsTo(o.outputTokens, PlacesOf(rows, model, OutputPlace))
    && SumsTo(o.cacheReadTokens, PlacesOf(rows, model, CacheReadPlace))
    && SumsTo(o.cacheWriteTokens, PlacesOf(rows, model, CacheWritePlace))
    && SumsTo(o.nanoAiu, PlacesOf(rows, model, BilledPlace))
  }

  ghost predicate IsCell(c: Column, place: DatabaseRecord -> Option<Json>) {
    forall row: DatabaseRecord :: row.Cell(c) == place(row)
  }

  ghost predicate AllReadableRows(rows: seq<DatabaseRecord>) {
    forall i | 0 <= i < |rows| :: RowReadable(rows[i])
  }

  ghost predicate CellsSayPlaces(cells: seq<Option<int>>, places: seq<Option<Json>>) {
    && |cells| == |places| && Sum(cells) == SumOf(places)
    && forall i | 0 <= i < |cells| :: cells[i].Some? <==> IsReported(places[i])
  }

  lemma CellIsPlace(row: DatabaseRecord, c: Column, place: DatabaseRecord -> Option<Json>)
    requires IsCell(c, place) && RowReadable(row)
    ensures Read(row, c).Ok? && (Read(row, c).value.Some? <==> IsReported(place(row)))
    ensures Read(row, c).value.GetOr(0) == NumberIn(place(row))
  {
    assert row.Cell(c) == place(row) && IsCountOrAbsent(row.Cell(c), MaxOf(c));
  }

  lemma CellsSayOneMore(cells: seq<Option<int>>, places: seq<Option<Json>>, cell: Option<int>, place: Option<Json>)
    requires CellsSayPlaces(cells, places) && (cell.Some? <==> IsReported(place)) && cell.GetOr(0) == NumberIn(place)
    ensures CellsSayPlaces(cells + [cell], places + [place])
  {
    assert (cells + [cell])[..|cells|] == cells && (places + [place])[..|places|] == places;
  }

  // The cells of a column are read from their places one by one.
  lemma {:induction false} CellsArePlaces(rows: seq<DatabaseRecord>, model: Json, c: Column,
                                          place: DatabaseRecord -> Option<Json>)
    requires IsCell(c, place) && AllReadableRows(rows)
    ensures CellsSayPlaces(CellsOf(rows, model, c), PlacesOf(rows, model, place))
  {
    if rows != [] {
      var init, last := rows[..|rows| - 1], rows[|rows| - 1];
      CellsArePlaces(init, model, c, place);
      CellIsPlace(last, c, place);
      var cells, places := CellsOf(init, model, c), PlacesOf(init, model, place);
      CellsSayOneMore(cells, places, Read(last, c).value, place(last));
      assert cells + [] == cells && places + [] == places;
    }
  }

  lemma ColumnContents(rows: seq<DatabaseRecord>, model: Json, counter: Option<int>, c: Column,
                       place: DatabaseRecord -> Option<Json>)
    requires counter == CompleteTotal(rows, model, c)
    requires IsCell(c, place) && model in Models(rows) && AllReadableRows(rows)
    ensures SumsTo(counter, PlacesOf(rows, model, place))
  {
    CellsArePlaces(rows, model, c, place);
    CellsAreCounts(rows, model, c);
    MentionedHasCells(rows, model, c);
    SumOfComplete(CellsOf(rows, model, c));
  }

  lemma ColumnsHavePlaces()
    ensures IsCell(InputColumn, InputPlace) && IsCell(OutputColumn, OutputPlace)
    ensures IsCell(CacheReadColumn, CacheReadPlace) && IsCell(CacheWriteColumn, CacheWritePlace)
    ensures IsCell(NanoAiuColumn, BilledPlace)
  {
  }

  lemma CountersAreTotals(context: Context, rows: seq<DatabaseRecord>, model: Json, o: UsageObservation)
    requires IsModelTotal(context, rows, model, o)
    ensures o.inputTokens == CompleteTotal(rows, model, InputColumn)
    ensures o.outputTokens == CompleteTotal(rows, model, OutputColumn)
    ensures o.cacheReadTokens == CompleteTotal(rows, model, CacheReadColumn)
    ensures o.cacheWriteTokens == CompleteTotal(rows, model, CacheWriteColumn)
    ensures o.nanoAiu == CompleteTotal(rows, model, NanoAiuColumn)
  {
    assert UsageSnapshots.Counter(o, InputColumn) == o.inputTokens;
    assert UsageSnapshots.Counter(o, OutputColumn) == o.outputTokens;
    assert UsageSnapshots.Counter(o, CacheReadColumn) == o.cacheReadTokens;
    assert UsageSnapshots.Counter(o, CacheWriteColumn) == o.cacheWriteTokens;
    assert UsageSnapshots.Counter(o, NanoAiuColumn) == o.nanoAiu;
  }

  lemma ModelTotalContents(context: Context, rows: seq<DatabaseRecord>, model: Json, o: UsageObservation)
    requires IsModelTotal(context, rows, model, o) && model in Models(rows) && AllReadableRows(rows)
    ensures IsOfRowsOf(context, o, rows, model)
  {
    LabelIsRead(Some(model));
    ColumnsHavePlaces();
    CountersAreTotals(context, rows, model, o);
    ColumnContents(rows, model, o.inputTokens, InputColumn, InputPlace);
    ColumnContents(rows, model, o.outputTokens, OutputColumn, OutputPlace);
    ColumnContents(rows, model, o.cacheReadTokens, CacheReadColumn, CacheReadPlace);
    ColumnContents(rows, model, o.cacheWriteTokens, CacheWriteColumn, CacheWritePlace);
    ColumnContents(rows, model, o.nanoAiu, NanoAiuColumn, BilledPlace);
  }

  // The models of the rows, each once.
  lemma {:induction false} ModelsAre(rows: seq<DatabaseRecord>)
    ensures Distinct(Models(rows))
    ensures forall m :: m in Models(rows) <==> exists i :: 0 <= i < |rows| && rows[i].model == m
  {
    if rows != [] {
      var init, last := rows[..|rows| - 1], rows[|rows| - 1];
      ModelsAre(init);
      forall m ensures m in Models(rows) <==> exists i :: 0 <= i < |rows| && rows[i].model == m {
        if m in Models(init) {
          var i :| 0 <= i < |init| && init[i].model == m;
          assert rows[i].model == m;
        }
        forall i | 0 <= i < |rows| && rows[i].model == m ensures m in Models(rows) {
          if i < |init| { assert init[i].model == m; }
        }
        assert m == last.model ==> rows[|init|].model == m;
      }
    }
  }

  // ----- Whole sources -----

  ghost predicate AreOfModelsOf(context: Context, r: seq<UsageObservation>, rows: seq<DatabaseRecord>) {
    && |r| == |Models(rows)|
    && forall i | 0 <= i < |r| :: IsOfRowsOf(context, r[i], rows, Models(rows)[i])
  }

  // A chat log whose first record is of kind 0 is a delta log.
  predicate StartsWithState(context: Context, events: seq<Json>) {
    context.kind == "vscode-chat" && events != [] && Prop(Some(events[0]), "kind") == Some(Number(Safe(0)))
  }

  // What is read from a source, by the form the source has.
  ghost predicate IsOfSource(context: Context, file: SourceFile, format: string, r: seq<UsageObservation>) {
    match file
    case JsonFile(tree) => format == "vscode-json" && IsOfState(context, r, tree)
    case JsonLines(events) =>
      if StartsWithState(context, events)
      then format == "vscode-delta-jsonl" && DeltaLog.DeltaOf(events).Ok?
           && IsOfState(context, r, DeltaLog.DeltaOf(events).value)
      else format == (if context.kind == "copilot-cli" then "copilot-cli-events" else "vscode-event-jsonl")
           && IsOfLog(context, r, events)
    case DatabaseFile(rows, key) =>
      && format == "copilot-cli-db"
      && if key.Some? then AreOfRows(context, r, key.value, rows) else AreOfModelsOf(context, r, rows)
  }

  lemma LinesContents(context: Context, events: seq<Json>, format: string, r: seq<UsageObservation>)
    requires ReadFrom(context, JsonLines(events), format, r)
    ensures IsOfSource(context, JsonLines(events), format, r)
  {
    if IsDeltaLog(context, events) {
      StateContents(context, DeltaLog.DeltaOf(events).value, r);
    } else {
      LogContents(context, events, r);
    }
  }

  lemma DatabaseContents(context: Context, rows: seq<DatabaseRecord>, key: Option<string>, format: string,
                         r: seq<UsageObservation>)
    requires ReadFrom(context, DatabaseFile(rows, key), format, r) && Readable(context, DatabaseFile(rows, key))
    ensures IsOfSource(context, DatabaseFile(rows, key), format, r)
  {
    if key.Some? {
      RowsContents(context, key.value, rows, r);
    } else {
      forall i | 0 <= i < |r| ensures IsOfRowsOf(context, r[i], rows, Models(rows)[i]) {
        ModelTotalContents(context, rows, Models(rows)[i], r[i]);
      }
    }
  }

  // Whatever is read from a readable source is what its records say.
  lemma SourceContents(context: Context, file: SourceFile, format: string, r: seq<UsageObservation>)
    requires ReadFrom(context, file, format, r) && Readable(context, file)
    ensures IsOfSource(context, file, format, r)
  {
    match file
    case JsonFile(tree) => StateContents(context, tree, r);
    case JsonLines(events) => LinesContents(context, events, format, r);
    case DatabaseFile(rows, key) => DatabaseContents(context, rows, key, format, r);
  }
}
