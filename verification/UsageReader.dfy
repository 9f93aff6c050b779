/** Reading usage out of parsed records (usage-sources.cjs): numbers, labels, times and observations. */
module UsageReader {
  import opened Results
  import opened Text
  import opened Trace
  import opened UsageImports
  import opened JsonTree
  import opened DeltaLog

  // What an observation is identified by within its source.
  datatype ObservationKey =
    | RequestId(id: string) | RequestIndex(index: nat)
    | EventId(id: string) | EventIndex(index: nat)
    | ShutdownModel(model: string) | ShutdownBilling
    | DatabaseRow(column: string, key: string) | DatabaseModel(name: Option<string>)

  // The source being read, and the functions the reader takes from outside.
  datatype Context = Context(
    id: string,
    kind: string,
    allowEstimates: bool,
    digest: (string, ObservationKey) -> string,             // SHA-256 of the source and the key
    fingerprint: seq<UsageObservation> -> string,           // SHA-256 of the snapshot
    parseTime: string -> Option<int>)                       // milliseconds of an RFC 3339 text, when it is one

  ghost predicate DigestsAreHashes(context: Context) {
    && (forall source, key :: IsHash(context.digest(source, key)) && IsLowerHex(context.digest(source, key)))
    && (forall observations ::
       IsHash(context.fingerprint(observations)) && IsLowerHex(context.fingerprint(observations)))
  }

  // The premise can hold.
  lemma SomeDigestsAreHashes(id: string, kind: string, allowEstimates: bool) returns (context: Context)
    ensures DigestsAreHashes(context) && context.id == id && context.kind == kind
            && context.allowEstimates == allowEstimates
  {
    var zeros := seq(64, _ => '0');
    context := Context(id, kind, allowEstimates, (_, _) => zeros, _ => zeros, _ => None);
    assert IsHash(zeros) && IsLowerHex(zeros);
  }

  const CHAT := "vscode-chat"
  const CLI := "copilot-cli"
  const MAX_SOURCE_OBSERVATIONS := 1000
  const MAX_ID := 512
  const LAST_MILLISECOND := 253_402_300_799_999
  const TICKS_PER_MILLISECOND := 10_000

  // ----- Values -----

  // value?.name, where a missing value or property is undefined.
  function Prop(value: Option<Json>, name: string): Option<Json> {
    if value.Some? && value.value.Obj? then Get(value.value, name) else None
  }

  // a ?? b
  function Coalesce(a: Option<Json>, b: Option<Json>): Option<Json> {
    if a.None? || a.value.Null? then b else a
  }

  // Absent, null, or a whole number within bounds.
  predicate IsCountOrAbsent(value: Option<Json>, max: int) {
    match value
    case Some(Number(Safe(n))) => 0 <= n <= max
    case Some(other) => other.Null?
    case None => true
  }

  function NumberValue(value: Option<Json>, max: int): (r: Result<Option<int>, SourceError>)
    ensures r == Ok(None) <==> value.None? || value == Some(Null)
    ensures forall n :: r == Ok(Some(n)) <==> value == Some(Number(Safe(n))) && 0 <= n <= max
    ensures r.Err? ==> r.error == InvalidUsage
    ensures r.Ok? <==> IsCountOrAbsent(value, max)
  {
    match value
    case None => Ok(None)
    case Some(Null) => Ok(None)
    case Some(Number(Safe(n))) => if 0 <= n <= max then Ok(Some(n)) else Err(InvalidUsage)
    case _ => Err(InvalidUsage)
  }

  // The length of a text in UTF-16 code units.
  function Units(s: string): nat {
    if s == "" then 0 else Units(s[..|s| - 1]) + if s[|s| - 1] as int > 0xFFFF then 2 else 1
  }

  predicate IsLabelStart(c: char) {
    '0' <= c <= '9' || 'a' <= c <= 'z' || 'A' <= c <= 'Z'
  }

  predicate IsLabelChar(c: char) {
    IsLabelStart(c) || c == '.' || c == '_' || c == '-'
  }

  predicate IsLabelPart(s: string) {
    s != "" && IsLabelStart(s[0]) && forall i | 0 <= i < |s| :: IsLabelChar(s[i])
  }

  // Letters, digits, dots, underscores and dashes, with at most one slash inside.
  predicate IsLabelText(s: string) {
    IsLabelPart(s) || exists i | 0 < i < |s| :: s[i] == '/' && IsLabelPart(s[..i]) && IsLabelPart(s[i + 1..])
  }

  predicate LooksSecret(s: string) {
    var t := Lower(s);
    || "ghp_" <= t || "gho_" <= t || "ghu_" <= t || "ghr_" <= t || "ghs_" <= t || "github_pat_" <= t
    || "sk-" <= t || "http:" <= t || "https:" <= t || "file:" <= t
  }

  function ModelLabel(value: Option<Json>): Option<string> {
    match value
    case Some(Text(s)) =>
      if |s| <= 120 && IsLabelText(s) && !LooksSecret(s) && !IsUnsafeKey(s) then Some(s) else None
    case _ => None
  }

  function Timestamp(context: Context, value: Option<Json>, milliseconds: bool): Option<Instant> {
    match value
    case Some(Number(Safe(n))) =>
      if milliseconds && 0 <= n <= LAST_MILLISECOND then Some(Instant(n * TICKS_PER_MILLISECOND, 0)) else None
    case Some(Text(s)) =>
      if context.parseTime(s).Some? then Some(Instant(context.parseTime(s).value * TICKS_PER_MILLISECOND, 0)) else None
    case _ => None
  }

  lemma LabelCharacters(s: string)
    requires IsLabelText(s)
    ensures s != "" && IsLabelStart(s[0]) && forall k | 0 <= k < |s| :: IsLabelChar(s[k]) || s[k] == '/'
  {
    if !IsLabelPart(s) {
      var i :| 0 < i < |s| && s[i] == '/' && IsLabelPart(s[..i]) && IsLabelPart(s[i + 1..]);
      forall k | 0 <= k < |s| ensures IsLabelChar(s[k]) || s[k] == '/' {
        if k < i { assert s[..i][k] == s[k]; }
        if k > i { assert s[i + 1..][k - i - 1] == s[k]; }
      }
      assert s[..i][0] == s[0];
    }
  }

  // A label the reader lets through is a model the recorder accepts.
  lemma LabelsAreValidModels(value: Option<Json>)
    ensures ModelLabel(value).Some? ==> ValidModel(ModelLabel(value).value)
  {
    if ModelLabel(value).Some? {
      var s := ModelLabel(value).value;
      LabelCharacters(s);
      assert !IsWhite(s[0]);
      forall k | 0 <= k < |s| ensures !IsForbiddenInModel(s[k]) {
        assert IsLabelChar(s[k]) || s[k] == '/';
      }
    }
  }

  // ----- One observation -----

  datatype Fields = Fields(input: Option<int>, output: Option<int>, cacheRead: Option<int>, cacheWrite: Option<int>,
                           nanoAiu: Option<int>)

  const NO_FIELDS := Fields(None, None, None, None, None)

  // The visible characters of a request, in UTF-16 code units.
  datatype Visible = Visible(input: Option<nat>, output: Option<nat>)

  predicate Measured(f: Fields) {
    f.input.Some? || f.output.Some? || f.cacheRead.Some? || f.cacheWrite.Some?
  }

  // Math.ceil(chars / 4), as a count.
  predicate CharsFit(chars: Option<nat>) {
    chars.Some? ==> chars.value <= 4 * MAXIMUM_COUNT
  }

  function Estimate(chars: Option<nat>): (r: Result<Option<int>, SourceError>)
    ensures r.Ok? <==> CharsFit(chars)
    ensures r.Ok? ==> (r.value.Some? <==> chars.Some?)
    ensures r.Ok? && chars.Some? ==>
            0 <= r.value.value <= MAXIMUM_COUNT && 4 * (r.value.value - 1) < chars.value <= 4 * r.value.value
  {
    if chars.None? then Ok(None)
    else
      var quarter := (chars.value + 3) / 4;
      if quarter <= MAXIMUM_COUNT then Ok(Some(quarter)) else Err(InvalidUsage)
  }

  function Observe(context: Context, key: ObservationKey, model: Option<Json>, time: Option<Instant>, f: Fields,
                   visible: Option<Visible>, allowEstimates: bool): Result<UsageObservation, SourceError> {
    var base := UsageObservation(context.digest(context.id, key), if Measured(f) then "measured" else "unavailable",
                                 ModelLabel(model), time, f.input, f.output, None, None, f.cacheRead, f.cacheWrite,
                                     f.nanoAiu);
    if allowEstimates && f.input.None? && f.output.None? && visible.Some? then
      match (Estimate(visible.value.input), Estimate(visible.value.output))
      case (Ok(i), Ok(o)) =>
        Ok(base.(estimatedInputTokens := i, estimatedOutputTokens := o,
                 quality := if !Measured(f) && (i.Some? || o.Some?) then "estimated" else base.quality))
      case _ => Err(InvalidUsage)
    else Ok(base)
  }

  // An observation fails only where an estimate that is made comes to too much.
  predicate EstimatesFit(f: Fields, visible: Option<Visible>, allowEstimates: bool) {
    allowEstimates && f.input.None? && f.output.None? && visible.Some? ==>
      CharsFit(visible.value.input) && CharsFit(visible.value.output)
  }

  lemma ObserveExactly(context: Context, key: ObservationKey, model: Option<Json>, time: Option<Instant>, f: Fields,
                       visible: Option<Visible>, allowEstimates: bool)
    ensures Observe(context, key, model, time, f, visible, allowEstimates).Ok? <==>
            EstimatesFit(f, visible, allowEstimates)
  {
  }

  predicate FieldsInRange(f: Fields) {
    && (f.input.Some? ==> 0 <= f.input.value <= MAXIMUM_COUNT)
    && (f.output.Some? ==> 0 <= f.output.value <= MAXIMUM_COUNT)
    && (f.cacheRead.Some? ==> 0 <= f.cacheRead.value <= MAXIMUM_COUNT)
    && (f.cacheWrite.Some? ==> 0 <= f.cacheWrite.value <= MAXIMUM_COUNT)
    && (f.nanoAiu.Some? ==> 0 <= f.nanoAiu.value <= MAXIMUM_NANO_AIU)
  }

  // What every observation the reader hands on satisfies: all the recorder asks of it,
  // but for a time before 1970.
  ghost predicate Emitted(kind: string, o: UsageObservation) {
    IsHash(o.id) && IsLowerHex(o.id) && ValidObservation(kind, o.(timestamp := None))
  }

  // Estimates are only made where cache counters are never read, so the quality agrees
  // with the counters present.
  lemma ObservedIsEmitted(context: Context, key: ObservationKey, model: Option<Json>, time: Option<Instant>, f: Fields,
                          visible: Option<Visible>, allowEstimates: bool)
    requires DigestsAreHashes(context) && FieldsInRange(f)
    requires f.nanoAiu.Some? ==> context.kind == CLI
    requires visible.Some? ==> f.cacheRead.None? && f.cacheWrite.None?
    requires Observe(context, key, model, time, f, visible, allowEstimates).Ok?
    ensures Emitted(context.kind, Observe(context, key, model, time, f, visible, allowEstimates).value)
  {
    LabelsAreValidModels(model);
  }

  // ... and where both are present the recorder would refuse the observation.
  lemma EstimatesBesideCacheCountersAreRefused(context: Context, key: ObservationKey, f: Fields, visible: Visible)
    requires DigestsAreHashes(context) && FieldsInRange(f)
    requires f.input.None? && f.output.None? && (f.cacheRead.Some? || f.cacheWrite.Some?) && visible.input.Some?
    requires Observe(context, key, None, None, f, Some(visible), true).Ok?
    ensures !ValidObservation(context.kind, Observe(context, key, None, None, f, Some(visible), true).value)
  {
  }

  // ----- Chat requests -----

  function Both(a: Result<Option<int>, SourceError>,
                b: Result<Option<int>, SourceError>): Result<(Option<int>, Option<int>), SourceError> {
    match (a, b)
    case (Ok(x), Ok(y)) => Ok((x, y))
    case (Err(e), _) => Err(e)
    case (_, Err(e)) => Err(e)
  }

  function InputOutput(record: Option<Json>, input: string,
                       output: string): (r: Result<(Option<int>, Option<int>), SourceError>)
    ensures r.Ok? && r.value.0.Some? ==> 0 <= r.value.0.value <= MAXIMUM_COUNT
    ensures r.Ok? && r.value.1.Some? ==> 0 <= r.value.1.value <= MAXIMUM_COUNT
  {
    Both(NumberValue(Prop(record, input), MAXIMUM_COUNT), NumberValue(Prop(record, output), MAXIMUM_COUNT))
  }

  // The one value that several places report; they may not disagree.
  function Agreed(a: Option<int>, b: Option<int>, c: Option<int>): (r: Result<Option<int>, SourceError>)
    ensures r.Ok? <==> (forall x, y | x in {a, b, c} && y in {a, b, c} && x.Some? && y.Some? :: x == y)
    ensures r.Ok? ==> forall x | x in {a, b, c} && x.Some? :: r.value == x
    ensures r.Ok? && r.value.Some? ==> r.value in {a, b, c}
  {
    var first := a.OrElse(b).OrElse(c);
    if (a.Some? && a != first) || (b.Some? && b != first) || (c.Some? && c != first) then
      assert a.Some? || b.Some?;
      assert a in {a, b, c} && b in {a, b, c} && c in {a, b, c};
      Err(InvalidUsage)
    else Ok(first)
  }

  function ChatUsage(request: Option<Json>): (r: Result<Fields, SourceError>)
    ensures r.Ok? ==>
            FieldsInRange(r.value) && r.value.cacheRead.None? && r.value.cacheWrite.None? && r.value.nanoAiu.None?
  {
    var result := Prop(request, "result");
    match (InputOutput(Prop(result, "usage"), "promptTokens", "completionTokens"),
           InputOutput(result, "promptTokens", "outputTokens"),
           InputOutput(Prop(result, "metadata"), "promptTokens", "outputTokens"))
    case (Ok(a), Ok(b), Ok(c)) => (
      match (Agreed(a.0, b.0, c.0), Agreed(a.1, b.1, c.1))
      case (Ok(input), Ok(output)) => Ok(Fields(input, output, None, None, None))
      case _ => Err(InvalidUsage))
    case _ => Err(InvalidUsage)
  }

  predicate IsText(value: Option<Json>) {
    value.Some? && value.value.Text?
  }

  // The characters of the parts that have a text; absent when none has.
  function PartChars(parts: seq<Json>): Option<nat> {
    if parts == [] then None
    else
      var earlier, text := PartChars(parts[..|parts| - 1]), Prop(Some(parts[|parts| - 1]), "text");
      if IsText(text) then Some(earlier.GetOr(0) + Units(text.value.text)) else earlier
  }

  predicate IsShownKind(kind: Option<Json>) {
    kind.None? || kind == Some(Text("markdownContent")) || kind == Some(Text("markdown")) || kind == Some(Text("text"))
  }

  function ResponseChars(parts: seq<Json>): Option<nat> {
    if parts == [] then None
    else
      var earlier, part := ResponseChars(parts[..|parts| - 1]), Some(parts[|parts| - 1]);
      var inner := Prop(Prop(part, "content"), "value");
      var value := if IsText(inner) then inner else Prop(part, "value");
      if part.value.Obj? && IsShownKind(Prop(part, "kind")) && IsText(value)
      then Some(earlier.GetOr(0) + Units(value.value.text)) else earlier
  }

  function VisibleChat(request: Option<Json>): Visible {
    var message := Prop(request, "message");
    var text, parts := Prop(message, "text"), Prop(message, "parts");
    var response := Coalesce(Prop(request, "response"), Prop(request, "responses"));
    Visible(if IsText(text) then Some(Units(text.value.text))
            else if parts.Some? && parts.value.Arr? then PartChars(parts.value.items) else None,
            if response.Some? && response.value.Arr? then ResponseChars(response.value.items) else None)
  }

  function RequestKey(request: Option<Json>, index: nat): ObservationKey {
    var id := Coalesce(Prop(request, "requestId"), Prop(request, "id"));
    if IsText(id) && 0 < Units(id.value.text) <= MAX_ID then RequestId(id.value.text) else RequestIndex(index)
  }

  predicate IsArr(value: Option<Json>) {
    value.Some? && value.value.Arr?
  }

  predicate IsObj(value: Option<Json>) {
    value.Some? && value.value.Obj?
  }

  function ChatObservation(context: Context, item: Json, index: nat): Result<UsageObservation, SourceError> {
    var request := Some(item);
    if !item.Obj? || !(IsObj(Prop(request, "message")) || IsObj(Prop(request, "result"))
                       || IsArr(Prop(request, "response")) || IsArr(Prop(request, "responses")))
    then Err(UnsupportedFormat)
    else match ChatUsage(request)
      case Err(e) => Err(e)
      case Ok(f) =>
        var model := Coalesce(Prop(request, "modelId"), Coalesce(Prop(Prop(request, "selectedModel"), "identifier"),
                       Coalesce(Prop(request, "model"), Prop(Prop(Prop(request, "result"), "metadata"), "modelId"))));
        Observe(context, RequestKey(request, index), model, Timestamp(context, Prop(request, "timestamp"), true), f,
                if context.allowEstimates then Some(VisibleChat(request)) else None, context.allowEstimates)
  }

  function ChatEach(context: Context, requests: seq<Json>): Result<seq<UsageObservation>, SourceError> {
    if requests == [] then Ok([])
    else match ChatEach(context, requests[..|requests| - 1])
      case Err(e) => Err(e)
      case Ok(earlier) =>
        match ChatObservation(context, requests[|requests| - 1], |requests| - 1)
        case Err(e) => Err(e)
        case Ok(o) => Ok(earlier + [o])
  }

  function RequestsOf(state: Json): Option<Json> {
    if IsArr(Prop(Some(state), "requests")) then Prop(Some(state), "requests") else Prop(Some(state), "history")
  }

  function ChatObservations(context: Context, state: Json): Result<seq<UsageObservation>, SourceError> {
    var requests := RequestsOf(state);
    if !state.Obj? || !IsArr(requests) then Err(UnsupportedFormat)
    else if |requests.value.items| > MAX_SOURCE_OBSERVATIONS then Err(SourceTooLarge)
    else ChatEach(context, requests.value.items)
  }

  // ----- Which chat states are read -----

  // The places a chat request reports a count in.
  function InputPlaces(request: Option<Json>): seq<Option<Json>> {
    var result := Prop(request, "result");
    [Prop(Prop(result, "usage"), "promptTokens"), Prop(result, "promptTokens"),
        Prop(Prop(result, "metadata"), "promptTokens")]
  }

  function OutputPlaces(request: Option<Json>): seq<Option<Json>> {
    var result := Prop(request, "result");
    [Prop(Prop(result, "usage"), "completionTokens"), Prop(result, "outputTokens"),
        Prop(Prop(result, "metadata"), "outputTokens")]
  }

  predicate IsReported(place: Option<Json>) {
    place.Some? && !place.value.Null?
  }

  // Every place holds a count or nothing, and those that hold one hold the same.
  ghost predicate PlacesAgree(places: seq<Option<Json>>) {
    && AreCounts(places)
    && (forall i, j | 0 <= i < |places| && 0 <= j < |places| && IsReported(places[i]) && IsReported(places[j]) ::
       places[i] == places[j])
  }

  ghost predicate NoneReported(places: seq<Option<Json>>) {
    forall i | 0 <= i < |places| :: !IsReported(places[i])
  }

  // A request is an object with something of a request in it, its counts agree, and so far
  // as it is estimated it is not too long.
  ghost predicate RequestReadable(context: Context, item: Json) {
    var request := Some(item);
    && item.Obj?
    && (IsObj(Prop(request, "message")) || IsObj(Prop(request, "result"))
        || IsArr(Prop(request, "response")) || IsArr(Prop(request, "responses")))
    && PlacesAgree(InputPlaces(request)) && PlacesAgree(OutputPlaces(request))
    && (context.allowEstimates && NoneReported(InputPlaces(request)) && NoneReported(OutputPlaces(request)) ==>
          CharsFit(VisibleChat(request).input) && CharsFit(VisibleChat(request).output))
  }

  lemma CountIsReported(place: Option<Json>)
    requires IsCountOrAbsent(place, MAXIMUM_COUNT)
    ensures NumberValue(place, MAXIMUM_COUNT).value.Some? <==> IsReported(place)
    ensures IsReported(place) ==> place == Some(Number(Safe(NumberValue(place, MAXIMUM_COUNT).value.value)))
  {
  }

  // Three places are read as one count exactly when they agree.
  lemma ThreePlacesAgree(a: Option<Json>, b: Option<Json>, c: Option<Json>)
    requires IsCountOrAbsent(a, MAXIMUM_COUNT) && IsCountOrAbsent(b, MAXIMUM_COUNT) && IsCountOrAbsent(c, MAXIMUM_COUNT)
    ensures var agreed := Agreed(NumberValue(a, MAXIMUM_COUNT).value, NumberValue(b, MAXIMUM_COUNT).value,
            NumberValue(c, MAXIMUM_COUNT).value);
            && (agreed.Ok? <==> PlacesAgree([a, b, c]))
            && (agreed.Ok? ==> (agreed.value.None? <==> NoneReported([a, b, c])))
  {
    var places := [a, b, c];
    CountIsReported(a);
    CountIsReported(b);
    CountIsReported(c);
    assert places[0] == a && places[1] == b && places[2] == c;
  }

  ghost predicate AreCounts(places: seq<Option<Json>>) {
    forall i | 0 <= i < |places| :: IsCountOrAbsent(places[i], MAXIMUM_COUNT)
  }

  lemma ReadPlacesAreCounts(request: Option<Json>)
    requires ChatUsage(request).Ok?
    ensures AreCounts(InputPlaces(request)) && AreCounts(OutputPlaces(request))
  {
  }

  lemma ChatUsageExactly(request: Option<Json>)
    ensures ChatUsage(request).Ok? <==> PlacesAgree(InputPlaces(request)) && PlacesAgree(OutputPlaces(request))
    ensures ChatUsage(request).Ok? ==>
              (ChatUsage(request).value.input.None? <==> NoneReported(InputPlaces(request)))
              && (ChatUsage(request).value.output.None? <==> NoneReported(OutputPlaces(request)))
  {
    var a, b := InputPlaces(request), OutputPlaces(request);
    if ChatUsage(request).Ok? { ReadPlacesAreCounts(request); }
    if AreCounts(a) && AreCounts(b) {
      ThreePlacesAgree(a[0], a[1], a[2]);
      ThreePlacesAgree(b[0], b[1], b[2]);
    }
  }

  lemma RequestIsReadExactly(context: Context, item: Json, index: nat)
    ensures ChatObservation(context, item, index).Ok? <==> RequestReadable(context, item)
  {
    ChatUsageExactly(Some(item));
  }

  ghost predicate AllReadable(context: Context, requests: seq<Json>) {
    forall i | 0 <= i < |requests| :: RequestReadable(context, requests[i])
  }

  lemma ReadableOneMore(context: Context, requests: seq<Json>)
    requires requests != []
    ensures AllReadable(context, requests) <==>
              AllReadable(context, requests[..|requests| - 1]) && RequestReadable(context, requests[|requests| - 1])
  {
    var n := |requests| - 1;
    assert forall i | 0 <= i < n :: requests[..n][i] == requests[i];
  }

  lemma ChatEachOneMore(context: Context, requests: seq<Json>)
    requires requests != []
    ensures ChatEach(context, requests).Ok? <==>
              ChatEach(context, requests[..|requests| - 1]).Ok?
              && ChatObservation(context, requests[|requests| - 1], |requests| - 1).Ok?
  {
  }

  lemma {:induction false} RequestsAreReadExactly(context: Context, requests: seq<Json>)
    ensures ChatEach(context, requests).Ok? <==> AllReadable(context, requests)
  {
    if requests != [] {
      RequestsAreReadExactly(context, requests[..|requests| - 1]);
      RequestIsReadExactly(context, requests[|requests| - 1], |requests| - 1);
      ChatEachOneMore(context, requests);
      ReadableOneMore(context, requests);
    }
  }

  // A state lists at most 1000 requests, each of which can be read.
  ghost predicate StateReadable(context: Context, state: Json) {
    && state.Obj? && IsArr(RequestsOf(state)) && |RequestsOf(state).value.items| <= 1000
    && AllReadable(context, RequestsOf(state).value.items)
  }

  lemma StatesAreReadExactly(context: Context, state: Json)
    ensures ChatObservations(context, state).Ok? <==> StateReadable(context, state)
  {
    if IsArr(RequestsOf(state)) { RequestsAreReadExactly(context, RequestsOf(state).value.items); }
  }

  ghost predicate AllEmitted(kind: string, observations: seq<UsageObservation>) {
    forall i | 0 <= i < |observations| :: Emitted(kind, observations[i])
  }

  lemma {:induction false} ChatIsEmitted(context: Context, requests: seq<Json>)
    requires DigestsAreHashes(context) && ChatEach(context, requests).Ok?
    ensures AllEmitted(context.kind, ChatEach(context, requests).value)
            && |ChatEach(context, requests).value| == |requests|
  {
    if requests != [] {
      ChatIsEmitted(context, requests[..|requests| - 1]);
      ChatOneIsEmitted(context, requests[|requests| - 1], |requests| - 1);
    }
  }

  lemma ChatOneIsEmitted(context: Context, item: Json, index: nat)
    requires DigestsAreHashes(context) && ChatObservation(context, item, index).Ok?
    ensures Emitted(context.kind, ChatObservation(context, item, index).value)
  {
    var request := Some(item);
    var model := Coalesce(Prop(request, "modelId"), Coalesce(Prop(Prop(request, "selectedModel"), "identifier"),
                   Coalesce(Prop(request, "model"), Prop(Prop(Prop(request, "result"), "metadata"), "modelId"))));
    ObservedIsEmitted(context, RequestKey(request, index), model, Timestamp(context, Prop(request, "timestamp"), true),
                      ChatUsage(request).value, if context.allowEstimates then Some(VisibleChat(request)) else None,
                      context.allowEstimates);
  }
}
