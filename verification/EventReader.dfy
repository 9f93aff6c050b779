/**
 Usage from an event log (usage-sources.cjs, eventObservations): per-call records, or else
 the last shutdown totals, or else what the messages themselves say. Never a sum of two.
 */
module EventReader {
  import opened Results
  import opened Totals
  import opened Trace
  import opened UsageImports
  import opened JsonTree
  import opened UsageReader

  // A request and the reply to it, as far as the log has got.
  datatype Message = Message(event: Json, index: nat, input: Option<nat>, output: Option<nat>,
                             outputTokens: Option<int>, model: Option<Json>)

  datatype Scan = Scan(calls: seq<UsageObservation>, shutdowns: seq<Json>, requests: seq<Message>, recognized: bool)

  const EMPTY_SCAN := Scan([], [], [], false)

  // The four counts of a record are counts, or absent.
  predicate CountsReadable(record: Option<Json>) {
    && IsCountOrAbsent(Prop(record, "inputTokens"), MAXIMUM_COUNT)
    && IsCountOrAbsent(Prop(record, "outputTokens"), MAXIMUM_COUNT)
    && IsCountOrAbsent(Prop(record, "cacheReadTokens"), MAXIMUM_COUNT)
    && IsCountOrAbsent(Prop(record, "cacheWriteTokens"), MAXIMUM_COUNT)
  }

  function CliFields(record: Option<Json>): (r: Result<Fields, SourceError>)
    ensures r.Ok? ==> FieldsInRange(r.value) && r.value.nanoAiu.None?
    ensures r.Ok? <==> CountsReadable(record)
  {
    match (Both(NumberValue(Prop(record, "inputTokens"), MAXIMUM_COUNT),
        NumberValue(Prop(record, "outputTokens"), MAXIMUM_COUNT)),
           Both(NumberValue(Prop(record, "cacheReadTokens"), MAXIMUM_COUNT),
               NumberValue(Prop(record, "cacheWriteTokens"), MAXIMUM_COUNT)))
    case (Ok(tokens), Ok(cache)) => Ok(Fields(tokens.0, tokens.1, cache.0, cache.1, None))
    case _ => Err(InvalidUsage)
  }

  function EventKey(event: Json, index: nat): ObservationKey {
    var id := Prop(Some(event), "id");
    if IsText(id) && 0 < Units(id.value.text) <= MAX_ID then EventId(id.value.text) else EventIndex(index)
  }

  function TimeOf(context: Context, event: Json): Option<Instant> {
    Timestamp(context, Prop(Some(event), "timestamp"), false)
  }

  // assistant.usage
  function Call(context: Context, event: Json, index: nat): Result<UsageObservation, SourceError> {
    var data := Prop(Some(event), "data");
    match (CliFields(data), NumberValue(Prop(Prop(data, "copilotUsage"), "totalNanoAiu"), MAXIMUM_NANO_AIU))
    case (Ok(f), Ok(nano)) =>
      Observe(context, EventKey(event, index), Prop(data, "model"), TimeOf(context, event),
              if context.kind == CLI then f.(nanoAiu := nano) else f, None, false)
    case _ => Err(InvalidUsage)
  }

  // assistant.message, added to the request it answers.
  function Replied(message: Message, data: Option<Json>): Result<Message, SourceError> {
    var content := Prop(data, "content");
    var output := if IsText(content) then Some(message.output.GetOr(0) + Units(content.value.text)) else message.output;
    var model := if Prop(data, "model").Some? then Prop(data, "model") else message.model;
    match NumberValue(Prop(data, "outputTokens"), MAXIMUM_COUNT)
    case Err(e) => Err(e)
    case Ok(None) => Ok(message.(output := output, model := model))
    case Ok(Some(tokens)) =>
      var sum := message.outputTokens.GetOr(0) + tokens;
      if sum > MAXIMUM_COUNT then Err(InvalidUsage)
      else Ok(message.(output := output, model := model, outputTokens := Some(sum)))
  }

  function EventType(event: Json): string {
    var kind := Prop(Some(event), "type");
    if IsText(kind) then kind.value.text else ""
  }

  function ScanOne(context: Context, scan: Scan, event: Json, index: nat): Result<Scan, SourceError> {
    var data := Prop(Some(event), "data");
    if !event.Obj? || !IsText(Prop(Some(event), "type")) || !IsObj(data) then Err(UnsupportedFormat)
    else if EventType(event) == "assistant.usage" then
      match Call(context, event, index)
      case Err(e) => Err(e)
      case Ok(call) => Ok(scan.(calls := scan.calls + [call], recognized := true))
    else if EventType(event) == "session.shutdown" then
      Ok(scan.(shutdowns := scan.shutdowns + [event], recognized := true))
    else if EventType(event) == "user.message" then
      var content := Prop(data, "content");
      if !IsText(content) then Err(UnsupportedFormat)
      else Ok(scan.(requests := scan.requests
          + [Message(event, index, Some(Units(content.value.text)), None, None, None)],
                    recognized := true))
    else if EventType(event) == "assistant.message" then
      if !IsText(Prop(data, "content")) && Prop(data, "outputTokens").None? then Err(UnsupportedFormat)
      else
        var requests := if scan.requests == [] then [Message(event, index, None, None, None, None)] else scan.requests;
        match Replied(requests[|requests| - 1], data)
        case Err(e) => Err(e)
        case Ok(message) => Ok(scan.(requests := requests[..|requests| - 1] + [message], recognized := true))
    else if EventType(event) == "session.start" && IsText(Prop(data, "sessionId")) then Ok(scan.(recognized := true))
    else Ok(scan)
  }

  function ScanAll(context: Context, events: seq<Json>): Result<Scan, SourceError> {
    if events == [] then Ok(EMPTY_SCAN)
    else match ScanAll(context, events[..|events| - 1])
      case Err(e) => Err(e)
      case Ok(scan) => ScanOne(context, scan, events[|events| - 1], |events| - 1)
  }

  // session.shutdown: the totals of each model, and the billed amount of a CLI session.
  function ModelTotals(context: Context, event: Json, entries: seq<(string, Json)>): Result<seq<UsageObservation>,
                       SourceError> {
    if entries == [] then Ok([])
    else match ModelTotals(context, event, entries[..|entries| - 1])
      case Err(e) => Err(e)
      case Ok(earlier) =>
        var (model, metrics) := entries[|entries| - 1];
        var usage := Prop(Some(metrics), "usage");
        if !IsObj(usage) then Err(UnsupportedFormat)
        else match CliFields(usage)
          case Err(e) => Err(e)
          case Ok(f) =>
            match Observe(context, ShutdownModel(model), Some(Text(model)), TimeOf(context, event), f, None, false)
            case Err(e) => Err(e)
            case Ok(o) => Ok(earlier + [o])
  }

  function ShutdownTotals(context: Context, event: Json): Result<seq<UsageObservation>, SourceError> {
    var data := Prop(Some(event), "data");
    var metrics := Prop(data, "modelMetrics");
    if !IsObj(metrics) then Err(UnsupportedFormat)
    else match ModelTotals(context, event, metrics.value.entries)
      case Err(e) => Err(e)
      case Ok(totals) =>
        match NumberValue(Prop(data, "totalNanoAiu"), MAXIMUM_NANO_AIU)
        case Err(e) => Err(e)
        case Ok(nano) =>
          if nano.Some? && context.kind == CLI then
            match Observe(context, ShutdownBilling, None, TimeOf(context, event), NO_FIELDS.(nanoAiu := nano), None,
                false)
            case Err(e) => Err(e)
            case Ok(o) => Ok(totals + [o])
          else Ok(totals)
  }

  function FromMessage(context: Context, message: Message): Result<UsageObservation, SourceError> {
    Observe(context, EventKey(message.event, message.index), message.model, TimeOf(context, message.event),
            NO_FIELDS.(output := message.outputTokens), Some(Visible(message.input, message.output)),
                context.allowEstimates)
  }

  function FromMessages(context: Context, messages: seq<Message>): Result<seq<UsageObservation>, SourceError> {
    if messages == [] then Ok([])
    else match (FromMessages(context, messages[..|messages| - 1]), FromMessage(context, messages[|messages| - 1]))
      case (Ok(earlier), Ok(o)) => Ok(earlier + [o])
      case _ => Err(InvalidUsage)
  }

  predicate AnyMeasured(calls: seq<UsageObservation>) {
    exists i | 0 <= i < |calls| :: calls[i].quality == "measured"
  }

  // The one kind of evidence that is used.
  function Selected(context: Context, scan: Scan): Result<seq<UsageObservation>, SourceError> {
    if !scan.recognized then Err(UnsupportedFormat)
    else if AnyMeasured(scan.calls) then Ok(scan.calls)
    else if scan.shutdowns != [] then ShutdownTotals(context, scan.shutdowns[|scan.shutdowns| - 1])
    else if scan.calls != [] then Ok(scan.calls)
    else FromMessages(context, scan.requests)
  }

  function EventsRead(context: Context, events: seq<Json>): Result<seq<UsageObservation>, SourceError> {
    match ScanAll(context, events)
    case Err(e) => Err(e)
    case Ok(scan) => Selected(context, scan)
  }

  lemma {:induction false} ScanFails(context: Context, events: seq<Json>, n: nat)
    requires n <= |events| && ScanAll(context, events[..n]).Err?
    ensures ScanAll(context, events) == ScanAll(context, events[..n])
    decreases |events| - n
  {
    if n == |events| {
      assert events[..n] == events;
    } else {
      assert events[..n + 1][..n] == events[..n];
      ScanFails(context, events, n + 1);
    }
  }

  // ----- Everything read is acceptable to the recorder -----

  ghost predicate MessagesInRange(messages: seq<Message>) {
    forall i | 0 <= i < |messages| && messages[i].outputTokens.Some? ::
        0 <= messages[i].outputTokens.value <= MAXIMUM_COUNT
  }

  ghost predicate ScanOk(context: Context, scan: Scan) {
    AllEmitted(context.kind, scan.calls) && MessagesInRange(scan.requests)
  }

  lemma ScanOneIsOk(context: Context, scan: Scan, event: Json, index: nat, after: Scan)
    requires DigestsAreHashes(context) && ScanOk(context, scan) && ScanOne(context, scan, event, index) == Ok(after)
    ensures ScanOk(context, after)
  {
    if EventType(event) == "assistant.usage" {
      CallIsEmitted(context, event, index);
      AppendEmitted(context.kind, scan.calls, Call(context, event, index).value);
    } else {
      RequestsStayInRange(context, scan, event, index, after);
    }
  }

  // The requests a reply finds, of which it answers the last.
  function AnsweredBy(scan: Scan, event: Json, index: nat): (r: seq<Message>)
    ensures r != []
  {
    if scan.requests == [] then [Message(event, index, None, None, None, None)] else scan.requests
  }

  function ContentUnits(event: Json): Option<nat> {
    var content := Prop(Prop(Some(event), "data"), "content");
    if IsText(content) then Some(Units(content.value.text)) else None
  }

  // What one record makes of the requests.
  lemma ScanOneRequests(context: Context, scan: Scan, event: Json, index: nat, after: Scan)
    requires ScanOne(context, scan, event, index) == Ok(after)
    ensures EventType(event) == "user.message" ==>
              after.requests == scan.requests + [Message(event, index, ContentUnits(event), None, None, None)]
    ensures EventType(event) == "assistant.message" ==>
              var requests := AnsweredBy(scan, event, index);
              && Replied(requests[|requests| - 1], Prop(Some(event), "data")).Ok?
              && after.requests == requests[..|requests| - 1]
                 + [Replied(requests[|requests| - 1], Prop(Some(event), "data")).value]
    ensures EventType(event) != "user.message" && EventType(event) != "assistant.message" ==>
            after.requests == scan.requests
  {
  }

  lemma RequestsStayInRange(context: Context, scan: Scan, event: Json, index: nat, after: Scan)
    requires MessagesInRange(scan.requests) && ScanOne(context, scan, event, index) == Ok(after)
    ensures MessagesInRange(after.requests)
  {
    ScanOneRequests(context, scan, event, index, after);
    if EventType(event) == "assistant.message" {
      ReplyInRange(AnsweredBy(scan, event, index), Prop(Some(event), "data"), after.requests);
    }
  }

  lemma AppendEmitted(kind: string, calls: seq<UsageObservation>, call: UsageObservation)
    requires AllEmitted(kind, calls) && Emitted(kind, call)
    ensures AllEmitted(kind, calls + [call])
  {
  }

  lemma ReplyInRange(requests: seq<Message>, data: Option<Json>, after: seq<Message>)
    requires requests != [] && MessagesInRange(requests) && Replied(requests[|requests| - 1], data).Ok?
    requires after == requests[..|requests| - 1] + [Replied(requests[|requests| - 1], data).value]
    ensures MessagesInRange(after)
  {
  }

  lemma CallIsEmitted(context: Context, event: Json, index: nat)
    requires DigestsAreHashes(context) && Call(context, event, index).Ok?
    ensures Emitted(context.kind, Call(context, event, index).value)
  {
    var data := Prop(Some(event), "data");
    var f := CliFields(data).value;
    var nano := NumberValue(Prop(Prop(data, "copilotUsage"), "totalNanoAiu"), MAXIMUM_NANO_AIU).value;
    ObservedIsEmitted(context, EventKey(event, index), Prop(data, "model"), TimeOf(context, event),
                      if context.kind == CLI then f.(nanoAiu := nano) else f, None, false);
  }

  lemma {:induction false} ScanIsOk(context: Context, events: seq<Json>)
    requires DigestsAreHashes(context) && ScanAll(context, events).Ok?
    ensures ScanOk(context, ScanAll(context, events).value)
  {
    if events != [] {
      ScanIsOk(context, events[..|events| - 1]);
      ScanOneIsOk(context, ScanAll(context, events[..|events| - 1]).value, events[|events| - 1], |events| - 1,
                  ScanAll(context, events).value);
    }
  }

  lemma {:induction false} ModelTotalsAreEmitted(context: Context, event: Json, entries: seq<(string, Json)>)
    requires DigestsAreHashes(context) && ModelTotals(context, event, entries).Ok?
    ensures AllEmitted(context.kind, ModelTotals(context, event, entries).value)
  {
    if entries != [] {
      var (model, metrics) := entries[|entries| - 1];
      ModelTotalsAreEmitted(context, event, entries[..|entries| - 1]);
      ObservedIsEmitted(context, ShutdownModel(model), Some(Text(model)), TimeOf(context, event),
                        CliFields(Prop(Some(metrics), "usage")).value, None, false);
    }
  }

  lemma {:induction false} MessagesAreEmitted(context: Context, messages: seq<Message>)
    requires DigestsAreHashes(context) && MessagesInRange(messages) && FromMessages(context, messages).Ok?
    ensures AllEmitted(context.kind, FromMessages(context, messages).value)
    ensures |FromMessages(context, messages).value| == |messages|
  {
    if messages != [] {
      var message := messages[|messages| - 1];
      MessagesAreEmitted(context, messages[..|messages| - 1]);
      ObservedIsEmitted(context, EventKey(message.event, message.index), message.model, TimeOf(context, message.event),
                        NO_FIELDS.(output := message.outputTokens), Some(Visible(message.input, message.output)),
                        context.allowEstimates);
    }
  }

  lemma EventsAreEmitted(context: Context, events: seq<Json>)
    requires DigestsAreHashes(context) && EventsRead(context, events).Ok?
    ensures AllEmitted(context.kind, EventsRead(context, events).value)
  {
    ScanIsOk(context, events);
    var scan := ScanAll(context, events).value;
    if AnyMeasured(scan.calls) {
    } else if scan.shutdowns != [] {
      ShutdownIsEmitted(context, scan.shutdowns[|scan.shutdowns| - 1]);
    } else if scan.calls == [] {
      MessagesAreEmitted(context, scan.requests);
    }
  }

  lemma ShutdownIsEmitted(context: Context, event: Json)
    requires DigestsAreHashes(context) && ShutdownTotals(context, event).Ok?
    ensures AllEmitted(context.kind, ShutdownTotals(context, event).value)
  {
    var data := Prop(Some(event), "data");
    ModelTotalsAreEmitted(context, event, Prop(data, "modelMetrics").value.entries);
    var nano := NumberValue(Prop(data, "totalNanoAiu"), MAXIMUM_NANO_AIU).value;
    if nano.Some? && context.kind == CLI {
      ObservedIsEmitted(context, ShutdownBilling, None, TimeOf(context, event), NO_FIELDS.(nanoAiu := nano), None,
          false);
    }
  }

  // ----- Output tokens are conserved -----

  // What the replies of a log report.
  function ReplyTokens(event: Json): Option<int> {
    var tokens := NumberValue(Prop(Prop(Some(event), "data"), "outputTokens"), MAXIMUM_COUNT);
    if EventType(event) == "assistant.message" && tokens.Ok? then tokens.value else None
  }

  function AllReplyTokens(events: seq<Json>): seq<Option<int>> {
    seq(|events|, i requires 0 <= i < |events| => ReplyTokens(events[i]))
  }

  function MessageTokens(messages: seq<Message>): seq<Option<int>> {
    seq(|messages|, i requires 0 <= i < |messages| => messages[i].outputTokens)
  }

  lemma TotalOfSnoc(values: seq<Option<int>>, x: Option<int>)
    ensures Total(values + [x]) == Combine(Total(values), x)
  {
    TotalOfConcat(values, [x]);
    assert [x][1..] == [];
  }

  lemma MessageTokensOfSnoc(messages: seq<Message>, last: Message)
    ensures Total(MessageTokens(messages + [last])) == Combine(Total(MessageTokens(messages)), last.outputTokens)
  {
    assert MessageTokens(messages + [last]) == MessageTokens(messages) + [last.outputTokens];
    TotalOfSnoc(MessageTokens(messages), last.outputTokens);
  }

  lemma RepliedAddsTokens(message: Message, event: Json)
    requires EventType(event) == "assistant.message" && Replied(message, Prop(Some(event), "data")).Ok?
    ensures Replied(message, Prop(Some(event), "data")).value.outputTokens ==
            Combine(message.outputTokens, ReplyTokens(event))
  {
  }

  // A reply adds its tokens to the last request, which may have been made for it.
  lemma ReplyConserves(requests: seq<Message>, event: Json, replied: Message)
    requires requests != [] && EventType(event) == "assistant.message"
    requires Replied(requests[|requests| - 1], Prop(Some(event), "data")) == Ok(replied)
    ensures Total(MessageTokens(requests[..|requests| - 1] + [replied])) ==
            Combine(Total(MessageTokens(requests)), ReplyTokens(event))
  {
    var init, last := requests[..|requests| - 1], requests[|requests| - 1];
    assert requests == init + [last];
    RepliedAddsTokens(last, event);
    MessageTokensOfSnoc(init, last);
    MessageTokensOfSnoc(init, replied);
    CombineReorders(Total(MessageTokens(init)), last.outputTokens, ReplyTokens(event));
  }

  lemma NewRequestHasNone(event: Json, index: nat)
    ensures Total(MessageTokens([Message(event, index, None, None, None, None)])) == None == Total(MessageTokens([]))
  {
    MessageTokensOfSnoc([], Message(event, index, None, None, None, None));
    assert [] + [Message(event, index, None, None, None, None)] == [Message(event, index, None, None, None, None)];
    assert MessageTokens([]) == [];
  }

  lemma ScanOneConserves(context: Context, scan: Scan, event: Json, index: nat, after: Scan)
    requires ScanOne(context, scan, event, index) == Ok(after)
    ensures Total(MessageTokens(after.requests)) == Combine(Total(MessageTokens(scan.requests)), ReplyTokens(event))
  {
    ScanOneRequests(context, scan, event, index, after);
    if EventType(event) == "assistant.message" {
      var requests := AnsweredBy(scan, event, index);
      NewRequestHasNone(event, index);
      ReplyConserves(requests, event, Replied(requests[|requests| - 1], Prop(Some(event), "data")).value);
    } else if EventType(event) == "user.message" {
      MessageTokensOfSnoc(scan.requests, after.requests[|scan.requests|]);
    }
  }

  lemma ConservesOneMore(context: Context, events: seq<Json>, before: Scan, after: Scan)
    requires events != [] && ScanOne(context, before, events[|events| - 1], |events| - 1) == Ok(after)
    requires Total(MessageTokens(before.requests)) == Total(AllReplyTokens(events[..|events| - 1]))
    ensures Total(MessageTokens(after.requests)) == Total(AllReplyTokens(events))
  {
    var init, last := events[..|events| - 1], events[|events| - 1];
    assert events == init + [last];
    ScanOneConserves(context, before, last, |init|, after);
    AllReplyTokensOfSnoc(init, last, events);
  }

  lemma LastScan(context: Context, events: seq<Json>, scan: Scan) returns (before: Scan)
    requires events != [] && ScanAll(context, events) == Ok(scan)
    ensures ScanAll(context, events[..|events| - 1]) == Ok(before)
    ensures ScanOne(context, before, events[|events| - 1], |events| - 1) == Ok(scan)
  {
    before := ScanAll(context, events[..|events| - 1]).value;
  }

  lemma NothingConserved(context: Context, events: seq<Json>, scan: Scan)
    requires events == [] && ScanAll(context, events) == Ok(scan)
    ensures Total(MessageTokens(scan.requests)) == Total(AllReplyTokens(events))
  {
    assert AllReplyTokens(events) == MessageTokens(scan.requests);
  }

  // The output tokens attributed to requests are exactly those the replies report.
  lemma {:induction false} OutputTokensAreConserved(context: Context, events: seq<Json>, scan: Scan)
    requires ScanAll(context, events) == Ok(scan)
    ensures Total(MessageTokens(scan.requests)) == Total(AllReplyTokens(events))
    decreases |events|
  {
    if events == [] {
      NothingConserved(context, events, scan);
    } else {
      var before := LastScan(context, events, scan);
      OutputTokensAreConserved(context, events[..|events| - 1], before);
      ConservesOneMore(context, events, before, scan);
    }
  }

  lemma AllReplyTokensOfSnoc(init: seq<Json>, last: Json, events: seq<Json>)
    requires events == init + [last]
    ensures Total(AllReplyTokens(events)) == Combine(Total(AllReplyTokens(init)), ReplyTokens(last))
  {
    assert AllReplyTokens(events) == AllReplyTokens(init) + [ReplyTokens(last)];
    TotalOfSnoc(AllReplyTokens(init), ReplyTokens(last));
  }
}
