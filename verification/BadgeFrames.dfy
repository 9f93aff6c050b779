/**
 The badge link: one JSON frame a line on the sending side (scripts/lib/badge-protocol.mjs),
 and a decoder fed one character at a time on the device (integrations/badger2040/flight_badge.py).
 */
module BadgeFrames {
  import opened Results
  import Characters = Text

  const MAX_FRAME := 1024
  const MAX_METRIC: real := 9007199254740991.0
  const MAX_AGENT := 28
  const MAX_ALERT := 64
  const MAX_NUMBER_WIDTH := 25

  // A JSON value as either side sees it; Other is an array or an object.
  datatype Value = Null | Bool(b: bool) | Number(n: real) | Text(s: string) | Other

  // What a summary frame says.
  datatype Frame = Frame(
    version: real,
    runId: string,
    agent: string,
    status: string,
    eventCount: real,
    tokens: Option<real>,
    durationSeconds: real,
    estimatedCost: Option<real>,
    alert: Option<string>)

  // The numbers either side can hold and their printing on one side, JSON parsing on the
  // other; a text that is no JSON object parses to nothing.
  datatype Wire = Wire(numbers: set<real>, number: real -> string, loads: string -> Option<map<string, Value>>)

  // ----- Shared rules -----

  predicate IsPrintable(c: char) {
    0x20 <= c as int <= 0x7E
  }

  predicate IsAscii(s: string) {
    forall i | 0 <= i < |s| :: IsPrintable(s[i])
  }

  predicate IsStatus(s: string) {
    s == "Started" || s == "Succeeded" || s == "Failed" || s == "Blocked" || s == "RequiresApproval"
  }

  predicate IsUuid(s: string) {
    |s| == 36 && forall i | 0 <= i < 36 ::
        if i == 8 || i == 13 || i == 18 || i == 23 then s[i] == '-' else Characters.IsHexDigit(s[i])
  }

  predicate IsMetric(n: real, integer: bool) {
    0.0 <= n <= MAX_METRIC && (integer ==> n == n.Floor as real)
  }

  predicate FrameOk(f: Frame) {
    && (f.version == 1.0 || f.version == 2.0) && IsUuid(f.runId) && IsStatus(f.status)
    && IsAscii(f.agent) && |f.agent| <= MAX_AGENT
    && IsMetric(f.eventCount, true) && IsMetric(f.durationSeconds, false)
    && (f.tokens.Some? ==> IsMetric(f.tokens.value, true)) && (f.tokens.None? ==> f.version == 2.0)
    && (f.estimatedCost.Some? ==> IsMetric(f.estimatedCost.value, false))
    && (f.estimatedCost.None? ==> f.version == 2.0)
    && (f.alert.Some? ==> IsAscii(f.alert.value) && |f.alert.value| <= MAX_ALERT)
  }

  // ----- The sender -----

  // JSON.stringify of printable ASCII.
  function Escaped(s: string): string {
    if s == "" then ""
    else Escaped(s[..|s| - 1]) + (if s[|s| - 1] == '"' || s[|s| - 1] == '\\' then ['\\', s[|s| - 1]] else [s[|s| - 1]])
  }

  function Quoted(s: string): string {
    "\"" + Escaped(s) + "\""
  }

  // A flat JSON object: its properties in order.
  type Fields = seq<(string, Value)>

  // JSON.stringify of a value that is no array and no object.
  function ValueText(w: Wire, v: Value): string {
    match v
    case Number(n) => w.number(n)
    case Text(s) => Quoted(s)
    case Bool(b) => if b then "true" else "false"
    case _ => "null"
  }

  function Member(key: string, value: string): string {
    "\"" + key + "\":" + value
  }

  function Joined(members: seq<string>): string {
    if members == [] then ""
    else if |members| == 1 then members[0]
    else Joined(members[..|members| - 1]) + "," + members[|members| - 1]
  }

  function Members(w: Wire, fields: Fields): (r: seq<string>)
    ensures |r| == |fields|
    ensures forall i | 0 <= i < |r| :: r[i] == Member(fields[i].0, ValueText(w, fields[i].1))
  {
    seq(|fields|, i requires 0 <= i < |fields| => Member(fields[i].0, ValueText(w, fields[i].1)))
  }

  function ObjectText(w: Wire, fields: Fields): string {
    "{" + Joined(Members(w, fields)) + "}"
  }

  // The object itself.
  function Properties(fields: Fields): map<string, Value> {
    if fields == [] then map[]
    else Properties(fields[..|fields| - 1])[fields[|fields| - 1].0 := fields[|fields| - 1].1]
  }

  function NumberValue(n: Option<real>): Value {
    if n.Some? then Number(n.value) else Null
  }

  function TextValue(s: Option<string>): Value {
    if s.Some? then Text(s.value) else Null
  }

  // The object badgeFrame prints.
  function FieldsOf(f: Frame): Fields {
    [("version", Number(f.version)), ("runId", Text(f.runId)), ("agent", Text(f.agent)), ("status", Text(f.status)),
     ("eventCount", Number(f.eventCount)), ("tokens", NumberValue(f.tokens)),
     ("durationSeconds", Number(f.durationSeconds)), ("estimatedCost", NumberValue(f.estimatedCost)),
     ("alert", TextValue(f.alert))]
  }

  function Print(w: Wire, f: Frame): string {
    ObjectText(w, FieldsOf(f))
  }

  predicate IsNumber(w: Wire, n: Option<real>) {
    n.Some? ==> n.value in w.numbers
  }

  // Every number of the frame is one that either side can hold.
  predicate HasNumbers(w: Wire, f: Frame) {
    && f.version in w.numbers && f.eventCount in w.numbers && f.durationSeconds in w.numbers
    && IsNumber(w, f.tokens) && IsNumber(w, f.estimatedCost)
  }

  // A flat object either side can hold: plain names, each once, and printable texts.
  predicate IsPlainKey(key: string) {
    IsAscii(key) && forall i | 0 <= i < |key| :: key[i] != '"' && key[i] != '\\'
  }

  predicate IsFlat(w: Wire, v: Value) {
    match v
    case Null => true
    case Number(n) => n in w.numbers
    case Text(s) => IsAscii(s)
    case _ => false
  }

  ghost predicate Holds(w: Wire, fields: Fields) {
    && (forall i | 0 <= i < |fields| :: IsPlainKey(fields[i].0) && IsFlat(w, fields[i].1))
    && (forall i, j | 0 <= i < j < |fields| :: fields[i].0 != fields[j].0)
  }

  // Premises: a metric prints in a few printable characters, and parsing reads back every
  // flat object that was printed. BadgeReading shows that they can be met.
  ghost predicate PrintsShort(w: Wire) {
    forall n: real | n in w.numbers && 0.0 <= n <= MAX_METRIC ::
        0 < |w.number(n)| <= MAX_NUMBER_WIDTH && IsAscii(w.number(n))
  }

  ghost predicate ReadsBack(w: Wire) {
    forall fields | fields != [] && Holds(w, fields) :: w.loads(ObjectText(w, fields)) == Some(Properties(fields))
  }

  // The regular expression replaces UTF-16 code units, so a character outside the basic
  // plane becomes two question marks.
  function Asciified(s: string): (r: string)
    ensures IsAscii(r)
  {
    if s == "" then ""
    else
      var c := s[|s| - 1];
      Asciified(s[..|s| - 1]) + (if IsPrintable(c) then [c] else if c as int > 0xFFFF then "??" else "?")
  }

  function AsciiText(value: Option<Value>, length: nat): (r: string)
    ensures IsAscii(r) && |r| <= length
  {
    match value
    case Some(Text(s)) => if |Asciified(s)| <= length then Asciified(s) else Asciified(s)[..length]
    case _ => ""
  }

  function Nonnegative(value: Option<Value>, integer: bool): Option<real> {
    match value
    case Some(Number(n)) => if IsMetric(n, integer) then Some(n) else None
    case _ => None
  }

  // The properties of a summary object; a missing one is undefined.
  type Summary = map<string, Value>

  function Property(summary: Summary, name: string): Option<Value> {
    if name in summary then Some(summary[name]) else None
  }

  // The numbers of a summary are numbers of JavaScript.
  ghost predicate HoldsNumbers(w: Wire, summary: Summary) {
    forall name | name in summary && summary[name].Number? :: summary[name].n in w.numbers
  }

  datatype BadgeError = UnsupportedSummary | InvalidRunId | InvalidMetric | FrameTooBig

  // A metric that version 2 allows to be unknown.
  function Optional(version: real, value: Option<Value>, integer: bool): Option<Option<real>> {
    if version == 2.0 && value == Some(Null) then Some(None)
    else match Nonnegative(value, integer)
      case None => None
      case Some(n) => Some(Some(n))
  }

  function FrameOf(summary: Summary): Result<Frame, BadgeError> {
    match (Property(summary, "version"), Property(summary, "status"))
    case (Some(Number(version)), Some(Text(status))) => (
      if !(version == 1.0 || version == 2.0) || !IsStatus(status) then Err(UnsupportedSummary)
      else match Property(summary, "runId")
        case Some(Text(runId)) => (
          if !IsUuid(runId) then Err(InvalidRunId)
          else match (Nonnegative(Property(summary, "eventCount"), true),
              Optional(version, Property(summary, "tokens"), true),
                      Nonnegative(Property(summary, "durationSeconds"), false),
                          Optional(version, Property(summary, "estimatedCost"), false))
            case (Some(events), Some(tokens), Some(duration), Some(cost)) =>
              var alert := Property(summary, "alert");
              Ok(Frame(version, runId, AsciiText(Property(summary, "agent"), MAX_AGENT), status, events, tokens,
                  duration, cost,
                       if alert.None? || alert == Some(Null) then None else Some(AsciiText(alert, MAX_ALERT))))
            case _ => Err(InvalidMetric))
        case _ => Err(InvalidRunId))
    case _ => Err(UnsupportedSummary)
  }

  // Buffer.byteLength(text, "utf8")
  function ByteLength(s: string): nat {
    if s == "" then 0
    else
      var u := s[|s| - 1] as int;
      ByteLength(s[..|s| - 1]) + if u < 0x80 then 1 else if u < 0x800 then 2 else if u < 0x1_0000 then 3 else 4
  }

  function BadgeFrame(w: Wire, summary: Summary): Result<string, BadgeError> {
    match FrameOf(summary)
    case Err(e) => Err(e)
    case Ok(f) =>
      var frame := Print(w, f) + "\n";
      if ByteLength(frame) > MAX_FRAME then Err(FrameTooBig) else Ok(frame)
  }

  ghost predicate Sendable(w: Wire, summary: Summary) {
    HoldsNumbers(w, summary) && BadgeFrame(w, summary).Ok?
  }

  lemma {:induction false} AsciiBytes(s: string)
    requires forall i | 0 <= i < |s| :: s[i] as int < 0x80
    ensures ByteLength(s) == |s|
  {
    if s != "" { AsciiBytes(s[..|s| - 1]); }
  }

  lemma {:induction false} EscapedIsShort(s: string)
    requires IsAscii(s)
    ensures IsAscii(Escaped(s)) && |Escaped(s)| <= 2 * |s|
  {
    if s != "" { EscapedIsShort(s[..|s| - 1]); }
  }

  lemma {:induction false} EscapedOfPlain(s: string)
    requires forall i | 0 <= i < |s| :: s[i] != '"' && s[i] != '\\'
    ensures Escaped(s) == s
  {
    if s != "" { EscapedOfPlain(s[..|s| - 1]); }
  }

  lemma FrameOfIsOk(w: Wire, summary: Summary)
    requires HoldsNumbers(w, summary)
    ensures FrameOf(summary).Ok? ==> FrameOk(FrameOf(summary).value) && HasNumbers(w, FrameOf(summary).value)
  {
  }

  lemma QuotedIsShort(s: string, n: nat)
    requires IsAscii(s) && |s| <= n
    ensures IsAscii(Quoted(s)) && |Quoted(s)| <= 2 * n + 2
  {
    EscapedIsShort(s);
  }

  lemma NumberIsShort(w: Wire, n: Option<real>)
    requires PrintsShort(w) && IsNumber(w, n) && (n.Some? ==> 0.0 <= n.value <= MAX_METRIC)
    ensures Fits(ValueText(w, NumberValue(n)), MAX_NUMBER_WIDTH)
  {
  }

  lemma UuidIsPlain(s: string)
    requires IsUuid(s)
    ensures IsAscii(s) && Escaped(s) == s
  {
    forall i | 0 <= i < |s| ensures IsPrintable(s[i]) && s[i] != '"' && s[i] != '\\' {
      assert Characters.IsHexDigit(s[i]) || s[i] == '-';
    }
    EscapedOfPlain(s);
  }

  lemma StatusIsPlain(s: string)
    requires IsStatus(s)
    ensures IsAscii(s) && |s| <= 16
  {
  }

  ghost predicate Fits(s: string, n: nat) {
    IsAscii(s) && |s| <= n
  }

  lemma MemberFits(key: string, value: string, n: nat)
    requires IsAscii(key) && Fits(value, n)
    ensures Fits(Member(key, value), |key| + 3 + n)
  {
  }

  // The width of each member: nine short keys, and values of which only two can be long.
  const WIDTHS: seq<nat> := [35, 82, 66, 43, 38, 34, 43, 41, 138]

  function Sum(widths: seq<nat>): nat {
    if widths == [] then 0 else Sum(widths[..|widths| - 1]) + widths[|widths| - 1] + 1
  }

  lemma {:induction false} JoinedFits(members: seq<string>, widths: seq<nat>)
    requires |members| == |widths| && forall i | 0 <= i < |members| :: Fits(members[i], widths[i])
    ensures Fits(Joined(members), Sum(widths))
  {
    if |members| > 1 {
      JoinedFits(members[..|members| - 1], widths[..|widths| - 1]);
    }
  }

  lemma ValuesFit(w: Wire, f: Frame)
    requires PrintsShort(w) && FrameOk(f) && HasNumbers(w, f)
    ensures Fits(Quoted(f.runId), 74) && Fits(Quoted(f.agent), 58) && Fits(Quoted(f.status), 34)
    ensures Fits(w.number(f.version), 25) && Fits(w.number(f.eventCount), 25) && Fits(w.number(f.durationSeconds), 25)
    ensures Fits(ValueText(w, NumberValue(f.tokens)), 25) && Fits(ValueText(w, NumberValue(f.estimatedCost)), 25)
    ensures Fits(ValueText(w, TextValue(f.alert)), 130)
  {
    UuidIsPlain(f.runId);
    StatusIsPlain(f.status);
    QuotedIsShort(f.runId, 36);
    QuotedIsShort(f.agent, MAX_AGENT);
    QuotedIsShort(f.status, 16);
    NumberIsShort(w, f.tokens);
    NumberIsShort(w, f.estimatedCost);
    if f.alert.Some? { QuotedIsShort(f.alert.value, MAX_ALERT); }
  }

  lemma MembersFit(w: Wire, f: Frame)
    requires PrintsShort(w) && FrameOk(f) && HasNumbers(w, f)
    ensures forall i | 0 <= i < 9 :: Fits(Members(w, FieldsOf(f))[i], WIDTHS[i])
  {
    ValuesFit(w, f);
    NumberMembersFit(w, f);
    MemberFits("runId", Quoted(f.runId), 74);
    MemberFits("agent", Quoted(f.agent), 58);
    MemberFits("status", Quoted(f.status), 34);
    MemberFits("alert", ValueText(w, TextValue(f.alert)), 130);
  }

  lemma NumberMembersFit(w: Wire, f: Frame)
    requires Fits(w.number(f.version), 25) && Fits(w.number(f.eventCount), 25) && Fits(w.number(f.durationSeconds), 25)
    requires Fits(ValueText(w, NumberValue(f.tokens)), 25) && Fits(ValueText(w, NumberValue(f.estimatedCost)), 25)
    ensures forall i | i == 0 || 4 <= i < 8 :: Fits(Members(w, FieldsOf(f))[i], WIDTHS[i])
  {
    MemberFits("version", w.number(f.version), 25);
    MemberFits("eventCount", w.number(f.eventCount), 25);
    MemberFits("tokens", ValueText(w, NumberValue(f.tokens)), 25);
    MemberFits("durationSeconds", w.number(f.durationSeconds), 25);
    MemberFits("estimatedCost", ValueText(w, NumberValue(f.estimatedCost)), 25);
  }

  lemma SumOfWidths()
    ensures Sum(WIDTHS) == 529
  {
    assert WIDTHS[..8] == [35, 82, 66, 43, 38, 34, 43, 41];
    assert Sum([35, 82, 66, 43, 38, 34, 43, 41]) == 390 by {
      assert [35, 82, 66, 43, 38, 34, 43, 41][..7] == [35, 82, 66, 43, 38, 34, 43];
      assert [35, 82, 66, 43, 38, 34, 43][..6] == [35, 82, 66, 43, 38, 34];
      assert [35, 82, 66, 43, 38, 34][..5] == [35, 82, 66, 43, 38];
      assert [35, 82, 66, 43, 38][..4] == [35, 82, 66, 43];
      assert [35, 82, 66, 43][..3] == [35, 82, 66];
      assert [35, 82, 66][..2] == [35, 82];
      assert [35, 82][..1] == [35];
    }
  }

  // A printed frame is printable ASCII and little more than half of what the device can hold.
  lemma PrintIsShort(w: Wire, f: Frame)
    requires PrintsShort(w) && FrameOk(f) && HasNumbers(w, f)
    ensures IsAscii(Print(w, f)) && 0 < |Print(w, f)| <= 531
  {
    MembersFit(w, f);
    JoinedFits(Members(w, FieldsOf(f)), WIDTHS);
    SumOfWidths();
  }

  // The length check of badgeFrame never refuses: a summary is refused for what it says or not at all.
  lemma FrameIsNeverTooBig(w: Wire, summary: Summary)
    requires PrintsShort(w) && HoldsNumbers(w, summary)
    ensures BadgeFrame(w, summary) != Err(FrameTooBig)
    ensures FrameOf(summary).Ok? ==> BadgeFrame(w, summary) == Ok(Print(w, FrameOf(summary).value) + "\n")
  {
    FrameOfIsOk(w, summary);
    if FrameOf(summary).Ok? {
      var text := Print(w, FrameOf(summary).value);
      PrintIsShort(w, FrameOf(summary).value);
      forall i | 0 <= i < |text + "\n"| ensures (text + "\n")[i] as int < 0x80 {
        assert i < |text| ==> IsPrintable(text[i]);
      }
      AsciiBytes(text + "\n");
    }
  }

  // ----- The device -----

  datatype Outcome = Nothing | Shown(summary: Frame) | TooLarge | Malformed

  // value[:limit], with every character that does not print replaced.
  function DeviceText(value: Option<Value>, limit: nat): string {
    match value
    case Some(Text(s)) => Replaced(if |s| <= limit then s else s[..limit])
    case _ => ""
  }

  function Replaced(s: string): string {
    seq(|s|, i requires 0 <= i < |s| => if IsPrintable(s[i]) then s[i] else '?')
  }

  // str.split("-")
  function Split(s: string): (r: seq<string>)
    ensures r != []
    decreases |s|
  {
    var i := DashAt(s);
    if i == |s| then [s] else [s[..i]] + Split(s[i + 1..])
  }

  function DashAt(s: string): (i: nat)
    ensures i <= |s| && (i < |s| ==> s[i] == '-') && forall k | 0 <= k < i :: s[k] != '-'
  {
    if s == "" || s[0] == '-' then 0
    else
      var rest := DashAt(s[1..]);
      assert forall k | 1 <= k < 1 + rest :: s[k] == s[1..][k - 1];
      1 + rest
  }

  predicate IsRunId(s: string) {
    var parts := Split(s);
    && |parts| == 5 && |parts[0]| == 8 && |parts[1]| == 4 && |parts[2]| == 4 && |parts[3]| == 4 && |parts[4]| == 12
    && forall i | 0 <= i < |s| :: Characters.IsHexDigit(s[i]) || s[i] == '-'
  }

  function Metric(value: Option<Value>, integer: bool, nullable: bool): Option<Option<real>> {
    match value
    case Some(Null) => if nullable then Some(None) else None
    case Some(Number(n)) => if IsMetric(n, integer) then Some(Some(n)) else None
    case _ => None
  }

  function DecodeFrame(w: Wire, line: string): Outcome {
    if |line| > MAX_FRAME then TooLarge
    else match w.loads(line)
      case None => Malformed
      case Some(data) =>
        match (Property(data, "version"), Property(data, "status"))
        case (Some(Number(version)), Some(Text(status))) => (
          if !(version == 1.0 || version == 2.0) || !IsStatus(status) || "tokens" !in data || "estimatedCost" !in data
              then Malformed
          else match Property(data, "runId")
            case Some(Text(runId)) => (
              if !IsRunId(runId) then Malformed
              else match (Metric(Property(data, "eventCount"), true, false),
                  Metric(Property(data, "tokens"), true, version == 2.0),
                          Metric(Property(data, "durationSeconds"), false, false),
                          Metric(Property(data, "estimatedCost"), false, version == 2.0))
                case (Some(Some(events)), Some(tokens), Some(Some(duration)), Some(cost)) =>
                  var alert := DeviceText(Property(data, "alert"), MAX_ALERT);
                  Shown(Frame(version, runId, DeviceText(Property(data, "agent"), MAX_AGENT), status, events, tokens,
                      duration, cost,
                              if alert == "" then None else Some(alert)))
                case _ => Malformed)
            case _ => Malformed)
        case _ => Malformed
  }

  // ----- What is printed decodes to the same summary -----

  lemma SplitAtDash(a: string, rest: string)
    requires forall i | 0 <= i < |a| :: a[i] != '-'
    ensures Split(a + "-" + rest) == [a] + Split(rest)
  {
    var s := a + "-" + rest;
    assert s[|a|] == '-' && forall k | 0 <= k < |a| :: s[k] == a[k];
    assert DashAt(s) == |a|;
    assert s[..|a|] == a && s[|a| + 1..] == rest;
  }

  // The part of s from i to the dash at j, and the rest.
  lemma SplitPart(s: string, i: nat, j: nat)
    requires i <= j < |s| && s[j] == '-' && forall k | i <= k < j :: s[k] != '-'
    ensures Split(s[i..]) == [s[i..j]] + Split(s[j + 1..])
  {
    assert s[i..] == s[i..j] + "-" + s[j + 1..];
    SplitAtDash(s[i..j], s[j + 1..]);
  }

  lemma LastPart(s: string)
    requires forall k | 0 <= k < |s| :: s[k] != '-'
    ensures Split(s) == [s]
  {
    assert DashAt(s) == |s|;
  }

  lemma UuidParts(s: string)
    requires IsUuid(s)
    ensures Split(s) == [s[0..8]] + ([s[9..13]] + ([s[14..18]] + ([s[19..23]] + [s[24..]])))
  {
    forall i | 0 <= i < 36 && i != 8 && i != 13 && i != 18 && i != 23 ensures s[i] != '-' {
      assert Characters.IsHexDigit(s[i]);
    }
    SplitPart(s, 0, 8);
    SplitPart(s, 9, 13);
    SplitPart(s, 14, 18);
    SplitPart(s, 19, 23);
    LastPart(s[24..]);
    assert s[0..] == s;
  }

  lemma UuidsAreRunIds(s: string)
    requires IsUuid(s)
    ensures IsRunId(s)
  {
    UuidParts(s);
    FiveParts(Split(s), s[0..8], s[9..13], s[14..18], s[19..23], s[24..]);
    assert forall i | 0 <= i < |s| :: Characters.IsHexDigit(s[i]) || s[i] == '-';
  }

  lemma FiveParts(parts: seq<string>, a: string, b: string, c: string, d: string, e: string)
    requires parts == [a] + ([b] + ([c] + ([d] + [e])))
    ensures |parts| == 5 && parts[0] == a && parts[1] == b && parts[2] == c && parts[3] == d && parts[4] == e
  {
  }

  lemma AsciiIsKept(s: string, limit: nat)
    requires IsAscii(s) && |s| <= limit
    ensures DeviceText(Some(Text(s)), limit) == s
  {
  }

  // What the device shows of a frame: an empty alert is no alert.
  function Normalised(f: Frame): Frame {
    f.(alert := if f.alert == Some("") then None else f.alert)
  }

  lemma NamesArePlain()
    ensures IsPlainKey("version") && IsPlainKey("runId") && IsPlainKey("agent") && IsPlainKey("status")
    ensures IsPlainKey("eventCount") && IsPlainKey("tokens") && IsPlainKey("durationSeconds")
    ensures IsPlainKey("estimatedCost") && IsPlainKey("alert")
  {
  }

  lemma ValuesAreFlat(w: Wire, f: Frame)
    requires FrameOk(f) && HasNumbers(w, f)
    ensures IsFlat(w, Text(f.runId)) && IsFlat(w, Text(f.agent)) && IsFlat(w, Text(f.status))
    ensures IsFlat(w, NumberValue(f.tokens)) && IsFlat(w, NumberValue(f.estimatedCost)) && IsFlat(w, TextValue(f.alert))
  {
    UuidIsPlain(f.runId);
    StatusIsPlain(f.status);
  }

  lemma FieldsAreHeld(w: Wire, f: Frame)
    requires FrameOk(f) && HasNumbers(w, f)
    ensures Holds(w, FieldsOf(f))
  {
    var fields := FieldsOf(f);
    NamesArePlain();
    ValuesAreFlat(w, f);
    assert forall i | 0 <= i < 9 :: IsPlainKey(fields[i].0) && IsFlat(w, fields[i].1);
    KeysDiffer(fields);
  }

  // The nine names differ in length or in their first letter.
  lemma KeysDiffer(fields: Fields)
    requires |fields| == 9
    requires fields[0].0 == "version" && fields[1].0 == "runId" && fields[2].0 == "agent" && fields[3].0 == "status"
    requires fields[4].0 == "eventCount" && fields[5].0 == "tokens" && fields[6].0 == "durationSeconds"
    requires fields[7].0 == "estimatedCost" && fields[8].0 == "alert"
    ensures forall i, j | 0 <= i < j < |fields| :: fields[i].0 != fields[j].0
  {
    forall i, j | 0 <= i < j < |fields| ensures fields[i].0 != fields[j].0 {
      assert |fields[i].0| != |fields[j].0| || fields[i].0[0] != fields[j].0[0] || fields[i].0[1] != fields[j].0[1];
    }
  }

  lemma {:induction false} PropertiesAre(fields: Fields, i: nat)
    requires i < |fields| && forall j, k | 0 <= j < k < |fields| :: fields[j].0 != fields[k].0
    ensures fields[i].0 in Properties(fields) && Properties(fields)[fields[i].0] == fields[i].1
  {
    if i < |fields| - 1 {
      PropertiesAre(fields[..|fields| - 1], i);
      assert fields[i].0 != fields[|fields| - 1].0;
    }
  }

  lemma PrintedFramesDecode(w: Wire, f: Frame)
    requires PrintsShort(w) && ReadsBack(w) && FrameOk(f) && HasNumbers(w, f)
    ensures DecodeFrame(w, Print(w, f)) == Shown(Normalised(f))
  {
    PrintIsShort(w, f);
    FieldsAreHeld(w, f);
    UuidsAreRunIds(f.runId);
    AsciiIsKept(f.agent, MAX_AGENT);
    if f.alert.Some? { AsciiIsKept(f.alert.value, MAX_ALERT); }
    FieldsAreProperties(f);
    ObjectDecodes(w, f, Print(w, f), Properties(FieldsOf(f)));
  }

  // The object has the frame's values under the names the device looks for.
  ghost predicate Describes(data: map<string, Value>, f: Frame) {
    && Property(data, "version") == Some(Number(f.version)) && Property(data, "runId") == Some(Text(f.runId))
    && Property(data, "agent") == Some(Text(f.agent)) && Property(data, "status") == Some(Text(f.status))
    && Property(data, "eventCount") == Some(Number(f.eventCount))
    && Property(data, "tokens") == Some(NumberValue(f.tokens))
    && Property(data, "durationSeconds") == Some(Number(f.durationSeconds))
    && Property(data, "estimatedCost") == Some(NumberValue(f.estimatedCost))
    && Property(data, "alert") == Some(TextValue(f.alert))
  }

  lemma FieldsAreProperties(f: Frame)
    ensures Describes(Properties(FieldsOf(f)), f)
  {
    var fields := FieldsOf(f);
    KeysDiffer(fields);
    forall i | 0 <= i < 9 ensures Property(Properties(fields), fields[i].0) == Some(fields[i].1) {
      PropertiesAre(fields, i);
    }
    assert fields[0].0 == "version" && fields[1].0 == "runId" && fields[2].0 == "agent" && fields[3].0 == "status";
    assert fields[4].0 == "eventCount" && fields[5].0 == "tokens" && fields[6].0 == "durationSeconds";
    assert fields[7].0 == "estimatedCost" && fields[8].0 == "alert";
  }

  lemma ObjectDecodes(w: Wire, f: Frame, line: string, data: map<string, Value>)
    requires FrameOk(f) && |line| <= MAX_FRAME && w.loads(line) == Some(data) && Describes(data, f)
    requires IsRunId(f.runId) && DeviceText(Some(Text(f.agent)), MAX_AGENT) == f.agent
    requires f.alert.Some? ==> DeviceText(Some(Text(f.alert.value)), MAX_ALERT) == f.alert.value
    ensures DecodeFrame(w, line) == Shown(Normalised(f))
  {
  }

  // ----- FrameBuffer -----

  datatype Buffer = Buffer(text: string, overflow: bool)

  const EMPTY := Buffer("", false)

  function Feed(w: Wire, b: Buffer, c: char): (Buffer, Outcome) {
    if c == '\r' then (b, Nothing)
    else if c == '\n' then
      (EMPTY, if b.overflow then TooLarge else if b.text != "" then DecodeFrame(w, b.text) else Nothing)
    else if b.overflow then (b, Nothing)
    else if |b.text| >= MAX_FRAME then (Buffer("", true), Nothing)
    else (Buffer(b.text + [c], false), Nothing)
  }

  class FrameBuffer {
    const wire: Wire
    var buffer: string
    var overflow: bool

    constructor (wire: Wire)
      ensures this.wire == wire && State() == EMPTY
    {
      this.wire := wire;
      buffer, overflow := "", false;
    }

    function State(): Buffer
      reads this
    {
      Buffer(buffer, overflow)
    }

    method FeedCharacter(character: char) returns (outcome: Outcome)
      modifies this
      ensures (State(), outcome) == Feed(wire, old(State()), character)
    {
      if character == '\r' {
        return Nothing;
      }
      if character == '\n' {
        var line, overflowed := buffer, overflow;
        buffer, overflow := "", false;
        if overflowed {
          return TooLarge;
        }
        return if line != "" then DecodeFrame(wire, line) else Nothing;
      }
      if !overflow {
        if |buffer| >= MAX_FRAME {
          buffer, overflow := "", true;
        } else {
          buffer := buffer + [character];
        }
      }
      return Nothing;
    }
  }

  // A whole stream: the buffer it leaves, and the outcome at each newline in turn.
  function FeedAll(w: Wire, b: Buffer, stream: string): (Buffer, seq<Outcome>)
    decreases |stream|
  {
    if stream == "" then (b, [])
    else
      var (next, outcome) := Feed(w, b, stream[0]);
      var (last, outcomes) := FeedAll(w, next, stream[1..]);
      (last, (if stream[0] == '\n' then [outcome] else []) + outcomes)
  }

  // ----- Splitting the stream at newlines -----

  function NewlineAt(s: string): (i: nat)
    ensures i <= |s| && (i < |s| ==> s[i] == '\n') && forall k | 0 <= k < i :: s[k] != '\n'
  {
    if s == "" || s[0] == '\n' then 0
    else
      var rest := NewlineAt(s[1..]);
      assert forall k | 1 <= k < 1 + rest :: s[k] == s[1..][k - 1];
      1 + rest
  }

  // The segments that end in a newline, and what follows the last of them.
  function Segments(stream: string): (seq<string>, string)
    decreases |stream|
  {
    var i := NewlineAt(stream);
    if i == |stream| then ([], stream)
    else
      var (segments, rest) := Segments(stream[i + 1..]);
      ([stream[..i]] + segments, rest)
  }

  function Line(segment: string): string {
    if segment == "" then ""
    else (if segment[0] == '\r' then "" else [segment[0]]) + Line(segment[1..])
  }

  // What one segment comes to, on its own.
  function OutcomeOf(w: Wire, segment: string): Outcome {
    if |Line(segment)| > MAX_FRAME then TooLarge
    else if Line(segment) == "" then Nothing else DecodeFrame(w, Line(segment))
  }

  function OutcomesOf(w: Wire, segments: seq<string>): seq<Outcome> {
    if segments == [] then [] else [OutcomeOf(w, segments[0])] + OutcomesOf(w, segments[1..])
  }

  function BufferFor(line: string): Buffer {
    if |line| > MAX_FRAME then Buffer("", true) else Buffer(line, false)
  }

  lemma CharacterFills(w: Wire, line: string, c: char, longer: string, rest: string)
    requires c != '\n' && longer == line + if c == '\r' then "" else [c]
    ensures FeedAll(w, BufferFor(line), [c] + rest) == FeedAll(w, BufferFor(longer), rest)
  {
    assert ([c] + rest)[1..] == rest && line + "" == line;
    assert Feed(w, BufferFor(line), c) == (BufferFor(longer), Nothing);
    assert [] + FeedAll(w, BufferFor(longer), rest).1 == FeedAll(w, BufferFor(longer), rest).1;
  }

  lemma LineOfCons(line: string, segment: string, longer: string)
    requires segment != "" && longer == line + if segment[0] == '\r' then "" else [segment[0]]
    ensures line + Line(segment) == longer + Line(segment[1..])
  {
  }

  lemma {:induction false} SegmentFills(w: Wire, line: string, segment: string, rest: string)
    requires forall i | 0 <= i < |segment| :: segment[i] != '\n'
    ensures FeedAll(w, BufferFor(line), segment + rest) == FeedAll(w, BufferFor(line + Line(segment)), rest)
    decreases |segment|
  {
    if segment == "" {
      assert segment + rest == rest && line + "" == line;
    } else {
      var c, more := segment[0], segment[1..];
      var longer := line + if c == '\r' then "" else [c];
      assert segment + rest == [c] + (more + rest);
      CharacterFills(w, line, c, longer, more + rest);
      SegmentFills(w, longer, more, rest);
      LineOfCons(line, segment, longer);
    }
  }

  // Feeding any stream character by character is splitting it at newlines: each segment
  // has the outcome it would have alone, whatever came before it.
  lemma {:induction false} StreamIsItsSegments(w: Wire, stream: string)
    ensures var (segments, rest) := Segments(stream);
            FeedAll(w, EMPTY, stream) == (BufferFor(Line(rest)), OutcomesOf(w, segments))
    decreases |stream|
  {
    var i := NewlineAt(stream);
    assert BufferFor("") == EMPTY;
    if i == |stream| {
      assert stream + "" == stream && "" + Line(stream) == Line(stream);
      SegmentFills(w, "", stream, "");
    } else {
      var segment, rest := stream[..i], stream[i + 1..];
      assert stream == segment + ("\n" + rest);
      SegmentFills(w, "", segment, "\n" + rest);
      assert "" + Line(segment) == Line(segment);
      StreamIsItsSegments(w, rest);
      SegmentEnds(w, segment, rest);
    }
  }

  lemma SegmentEnds(w: Wire, segment: string, rest: string)
    ensures FeedAll(w, BufferFor(Line(segment)), "\n" + rest) ==
            (FeedAll(w, EMPTY, rest).0, [OutcomeOf(w, segment)] + FeedAll(w, EMPTY, rest).1)
  {
    assert ("\n" + rest)[1..] == rest;
  }

  // ----- The round trip -----

  lemma {:induction false} LineOfPlain(s: string)
    requires forall i | 0 <= i < |s| :: s[i] != '\r'
    ensures Line(s) == s
  {
    if s != "" {
      LineOfPlain(s[1..]);
      assert [s[0]] + s[1..] == s;
    }
  }

  // Whatever a stream left behind, once a newline has passed every frame badgeFrame prints
  // is shown as the summary it was made of.
  lemma FramesArriveWhole(w: Wire, summary: Summary)
    requires PrintsShort(w) && ReadsBack(w) && Sendable(w, summary)
    ensures FeedAll(w, EMPTY, BadgeFrame(w, summary).value) == (EMPTY, [Shown(Normalised(FrameOf(summary).value))])
  {
    var f := FrameOf(summary).value;
    FrameOfIsOk(w, summary);
    FrameIsNeverTooBig(w, summary);
    PrintIsShort(w, f);
    PrintedFramesDecode(w, f);
    LineArrivesWhole(w, Print(w, f), Shown(Normalised(f)));
  }

  lemma LineArrivesWhole(w: Wire, text: string, outcome: Outcome)
    requires IsAscii(text) && 0 < |text| <= MAX_FRAME && DecodeFrame(w, text) == outcome
    ensures FeedAll(w, EMPTY, text + "\n") == (EMPTY, [outcome])
  {
    forall i | 0 <= i < |text| ensures text[i] != '\r' && text[i] != '\n' { assert IsPrintable(text[i]); }
    LineOfPlain(text);
    SegmentFills(w, "", text, "\n");
    assert BufferFor("") == EMPTY && "" + text == text && "\n" + "" == "\n";
    SegmentEnds(w, text, "");
    assert FeedAll(w, EMPTY, "") == (EMPTY, []) && [outcome] + [] == [outcome];
  }

  // ----- BadgeRelay -----

  // What a relay remembers, and everything it has written.
  datatype Relay = Relay(previous: Option<string>, written: string)

  // A summary to send, and whether writing to the device succeeds.
  datatype Sending = Sending(summary: Summary, writes: bool)

  // A repeated frame is not written; a failed write is forgotten.
  function Sent(w: Wire, r: Relay, s: Sending): Relay {
    match BadgeFrame(w, s.summary)
    case Err(_) => r
    case Ok(frame) => if r.previous == Some(frame) || !s.writes then r else Relay(Some(frame), r.written + frame)
  }

  function SentAll(w: Wire, sendings: seq<Sending>): Relay {
    if sendings == [] then Relay(None, "")
    else Sent(w, SentAll(w, sendings[..|sendings| - 1]), sendings[|sendings| - 1])
  }

  // The sending brings its summary to the device, or finds it there.
  predicate Arrives(w: Wire, r: Relay, s: Sending) {
    BadgeFrame(w, s.summary).Ok? && (s.writes || r.previous == Some(BadgeFrame(w, s.summary).value))
  }

  // The last summary that was written or was a repetition.
  function LastArrived(w: Wire, sendings: seq<Sending>): Option<Summary> {
    if sendings == [] then None
    else
      var init, last := sendings[..|sendings| - 1], sendings[|sendings| - 1];
      if Arrives(w, SentAll(w, init), last) then Some(last.summary) else LastArrived(w, init)
  }

  class BadgeRelay {
    const wire: Wire
    var previous: Option<string>

    constructor (wire: Wire)
      ensures this.wire == wire && previous == None
    {
      this.wire := wire;
      previous := None;
    }

    // `writes` says whether writing to the device succeeds; a failed write is forgotten, so
    // that the same frame is tried again.
    method Send(summary: Summary, writes: bool) returns (r: Result<Option<string>, BadgeError>)
      modifies this
      ensures BadgeFrame(wire, summary).Err? ==> r == Err(BadgeFrame(wire, summary).error) && previous == old(previous)
      ensures BadgeFrame(wire, summary).Ok? ==>
                r == Ok(if writes && old(previous) != Some(BadgeFrame(wire, summary).value)
                    then Some(BadgeFrame(wire, summary).value) else None)
                && previous == if r.value.Some? then r.value else old(previous)
      ensures forall written :: previous == Sent(wire, Relay(old(previous), written), Sending(summary, writes)).previous
    {
      var frame := BadgeFrame(wire, summary);
      match frame {
        case Err(e) =>
          r := Err(e);
        case Ok(text) =>
          if previous == Some(text) || !writes {
            return Ok(None);
          }
          previous := Some(text);
          r := Ok(Some(text));
      }
    }
  }

  lemma {:induction false} FeedInTwo(w: Wire, b: Buffer, first: string, second: string)
    ensures var (middle, before) := FeedAll(w, b, first);
            var (last, after) := FeedAll(w, middle, second);
            FeedAll(w, b, first + second) == (last, before + after)
    decreases |first|
  {
    if first == "" {
      assert first + second == second && [] + FeedAll(w, b, second).1 == FeedAll(w, b, second).1;
    } else {
      assert (first + second)[1..] == first[1..] + second;
      var (next, outcome) := Feed(w, b, first[0]);
      FeedInTwo(w, next, first[1..], second);
      var head := if first[0] == '\n' then [outcome] else [];
      var middle := FeedAll(w, next, first[1..]).0;
      Reassociates(head, FeedAll(w, next, first[1..]).1, FeedAll(w, middle, second).1);
    }
  }

  lemma Reassociates<T>(a: seq<T>, b: seq<T>, c: seq<T>)
    ensures (a + b) + c == a + (b + c)
  {
  }

  // The device has been shown this summary last, and its frame is remembered.
  ghost predicate ShowsLast(w: Wire, relay: Relay, last: Summary) {
    var (buffer, outcomes) := FeedAll(w, EMPTY, relay.written);
    && BadgeFrame(w, last).Ok? && relay.previous == Some(BadgeFrame(w, last).value)
    && buffer == EMPTY && outcomes != [] && outcomes[|outcomes| - 1] == Shown(Normalised(FrameOf(last).value))
  }

  // What a device shows that a relay has written to.
  ghost predicate DeviceShows(w: Wire, relay: Relay, last: Option<Summary>) {
    match last
    case None => relay == Relay(None, "")
    case Some(summary) => HoldsNumbers(w, summary) && ShowsLast(w, relay, summary)
  }

  ghost predicate AllHoldNumbers(w: Wire, sendings: seq<Sending>) {
    forall i | 0 <= i < |sendings| :: HoldsNumbers(w, sendings[i].summary)
  }

  lemma PrefixHoldsNumbers(w: Wire, sendings: seq<Sending>)
    requires sendings != [] && AllHoldNumbers(w, sendings)
    ensures AllHoldNumbers(w, sendings[..|sendings| - 1]) && HoldsNumbers(w, sendings[|sendings| - 1].summary)
  {
  }

  // Whatever is sent in turn, and whichever writes fail, the device shows the last summary
  // that was written or was a repetition: leaving out repeated frames loses nothing.
  lemma {:induction false} DeviceShowsTheLatest(w: Wire, sendings: seq<Sending>)
    requires PrintsShort(w) && ReadsBack(w) && AllHoldNumbers(w, sendings)
    ensures DeviceShows(w, SentAll(w, sendings), LastArrived(w, sendings))
  {
    if sendings != [] {
      var init, last := sendings[..|sendings| - 1], sendings[|sendings| - 1];
      PrefixHoldsNumbers(w, sendings);
      DeviceShowsTheLatest(w, init);
      if Arrives(w, SentAll(w, init), last) {
        NextArrives(w, SentAll(w, init), LastArrived(w, init), last);
      }
    }
  }

  lemma NextArrives(w: Wire, before: Relay, previous: Option<Summary>, last: Sending)
    requires PrintsShort(w) && ReadsBack(w) && DeviceShows(w, before, previous)
    requires HoldsNumbers(w, last.summary) && Arrives(w, before, last)
    ensures ShowsLast(w, Sent(w, before, last), last.summary)
  {
    if before.previous == Some(BadgeFrame(w, last.summary).value) {
      RepeatShows(w, before, previous.value, last.summary);
    } else {
      assert FeedAll(w, EMPTY, "") == (EMPTY, []);
      NewShows(w, before, last);
    }
  }

  lemma RepeatShows(w: Wire, before: Relay, previous: Summary, last: Summary)
    requires PrintsShort(w) && ReadsBack(w) && Sendable(w, previous) && Sendable(w, last)
    requires ShowsLast(w, before, previous) && BadgeFrame(w, last) == BadgeFrame(w, previous)
    ensures ShowsLast(w, before, last)
  {
    SameFrameSameSummary(w, previous, last);
  }

  lemma NewShows(w: Wire, before: Relay, last: Sending)
    requires PrintsShort(w) && ReadsBack(w) && Sendable(w, last.summary) && last.writes
    requires FeedAll(w, EMPTY, before.written).0 == EMPTY && before.previous != Some(BadgeFrame(w, last.summary).value)
    ensures ShowsLast(w, Sent(w, before, last), last.summary)
  {
    FramesArriveWhole(w, last.summary);
    FeedInTwo(w, EMPTY, before.written, BadgeFrame(w, last.summary).value);
  }

  lemma SameFrameSameSummary(w: Wire, a: Summary, b: Summary)
    requires PrintsShort(w) && ReadsBack(w) && Sendable(w, a) && Sendable(w, b)
    requires BadgeFrame(w, b) == BadgeFrame(w, a)
    ensures Normalised(FrameOf(a).value) == Normalised(FrameOf(b).value)
  {
    FramesArriveWhole(w, a);
    FramesArriveWhole(w, b);
  }
}
