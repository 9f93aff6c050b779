/**
 What a badge frame says of its summary, and what the device shows of a line, property by
 property; and that both sides take the same texts for run ids.
 */
module BadgeContents {
  import opened Results
  import opened BadgeFrames

  // ----- The sender -----

  lemma {:induction false} AsciifiedOfConcat(a: string, b: string)
    ensures Asciified(a + b) == Asciified(a) + Asciified(b)
  {
    if b == "" {
      assert a + b == a;
    } else {
      assert (a + b)[..|a + b| - 1] == a + b[..|b| - 1];
      AsciifiedOfConcat(a, b[..|b| - 1]);
    }
  }

  lemma AsciifiedOfOne(s: string, c: char)
    requires |s| == 1 && s[0] == c
    ensures Asciified(s) == if ' ' <= c <= '~' then [c] else if c as int > 0xFFFF then "??" else "?"
  {
    assert s[..0] == "";
  }

  // Character by character: itself if it prints, and otherwise a question mark for each of
  // its UTF-16 code units.
  lemma AsciifiedCharacter(c: char, rest: string)
    ensures Asciified([c] + rest) ==
            (if ' ' <= c <= '~' then [c] else if c as int > 0xFFFF then "??" else "?") + Asciified(rest)
  {
    AsciifiedOfConcat([c], rest);
    AsciifiedOfOne([c], c);
  }

  // A metric is the number at its place, not negative and not too large, whole where it is a
  // count; where that is allowed it may be unknown.
  predicate SaysMetric(metric: Option<real>, place: Option<Value>, whole: bool, mayBeUnknown: bool) {
    match metric
    case Some(n) => place == Some(Number(n)) && 0.0 <= n <= 9007199254740991.0 && (whole ==> n == n.Floor as real)
    case None => mayBeUnknown && place == Some(Null)
  }

  // A text is the beginning of the text at its place, in ASCII; without one it is empty.
  predicate SaysText(text: string, place: Option<Value>, limit: nat) {
    match place
    case Some(Text(s)) => text <= Asciified(s) && |text| == if |Asciified(s)| <= limit then |Asciified(s)| else limit
    case _ => text == ""
  }

  predicate SaysHeader(f: Frame, data: map<string, Value>) {
    && Property(data, "version") == Some(Number(f.version)) && (f.version == 1.0 || f.version == 2.0)
    && Property(data, "status") == Some(Text(f.status))
    && f.status in {"Started", "Succeeded", "Failed", "Blocked", "RequiresApproval"}
    && Property(data, "runId") == Some(Text(f.runId)) && IsUuid(f.runId)
  }

  predicate SaysMetrics(f: Frame, data: map<string, Value>) {
    && SaysMetric(Some(f.eventCount), Property(data, "eventCount"), true, false)
    && SaysMetric(f.tokens, Property(data, "tokens"), true, f.version == 2.0)
    && SaysMetric(Some(f.durationSeconds), Property(data, "durationSeconds"), false, false)
    && SaysMetric(f.estimatedCost, Property(data, "estimatedCost"), false, f.version == 2.0)
  }

  predicate SaysTexts(f: Frame, summary: Summary) {
    var alert := Property(summary, "alert");
    && SaysText(f.agent, Property(summary, "agent"), 28)
    && if alert.None? || alert == Some(Null) then f.alert.None? else f.alert.Some? && SaysText(f.alert.value, alert, 64)
  }

  lemma TextIsSaidExactly(place: Option<Value>, limit: nat, text: string)
    ensures AsciiText(place, limit) == text <==> SaysText(text, place, limit)
  {
    if SaysText(text, place, limit) && place.Some? && place.value.Text? {
      var whole := Asciified(place.value.s);
      assert text == whole[..|text|] && whole[..|whole|] == whole;
    }
  }

  // A summary is framed as f if and only if f says what the summary does; any other summary
  // is refused.
  lemma SummaryIsFramedExactly(summary: Summary, f: Frame)
    ensures FrameOf(summary) == Ok(f) <==>
            SaysHeader(f, summary) && SaysMetrics(f, summary) && SaysTexts(f, summary)
  {
    TextIsSaidExactly(Property(summary, "agent"), 28, f.agent);
    if f.alert.Some? { TextIsSaidExactly(Property(summary, "alert"), 64, f.alert.value); }
  }

  // ----- Run ids -----

  // The first dash ends the first part; without one there is only one part.
  lemma SplitAtFirst(s: string)
    ensures DashAt(s) == |s| ==> Split(s) == [s]
    ensures DashAt(s) < |s| ==> Split(s) == [s[..DashAt(s)]] + Split(s[DashAt(s) + 1..]) && |Split(s)| > 1
  {
    if DashAt(s) < |s| { assert |Split(s[DashAt(s) + 1..])| > 0; }
  }

  lemma HeadAndTail<T>(s: seq<T>, head: T, tail: seq<T>)
    requires s == [head] + tail
    ensures s[0] == head && s[1..] == tail
  {
  }

  // The parts of s from i on begin with one of n characters.
  lemma NextPart(s: string, i: nat, n: nat, parts: seq<string>)
    requires i <= |s| && Split(s[i..]) == parts && |parts| > 1 && |parts[0]| == n
    ensures i + n < |s| && s[i + n] == '-' && (forall k | i <= k < i + n :: s[k] != '-')
    ensures Split(s[i + n + 1..]) == parts[1..]
  {
    var t := s[i..];
    SplitAtFirst(t);
    HeadAndTail(parts, t[..DashAt(t)], Split(t[DashAt(t) + 1..]));
    assert t[n + 1..] == s[i + n + 1..];
    forall k | i <= k < i + n ensures s[k] != '-' { assert t[k - i] == s[k]; }
  }

  lemma LastOnePart(s: string, i: nat, parts: seq<string>)
    requires i <= |s| && Split(s[i..]) == parts && |parts| == 1
    ensures |parts[0]| == |s| - i && forall k | i <= k < |s| :: s[k] != '-'
  {
    var t := s[i..];
    SplitAtFirst(t);
    forall k | i <= k < |s| ensures s[k] != '-' { assert t[k - i] == s[k]; }
  }

  // Five parts of these lengths have their dashes where a UUID has them.
  lemma DashesOfRunId(s: string)
    requires IsRunId(s)
    ensures |s| == 36 && forall k | 0 <= k < 36 :: s[k] == '-' <==> k == 8 || k == 13 || k == 18 || k == 23
  {
    var parts := Split(s);
    assert s[0..] == s;
    NextPart(s, 0, 8, parts);
    NextPart(s, 9, 4, parts[1..]);
    NextPart(s, 14, 4, parts[1..][1..]);
    NextPart(s, 19, 4, parts[1..][1..][1..]);
    LastOnePart(s, 24, parts[1..][1..][1..][1..]);
  }

  // The sender's pattern and the device's split accept the same run ids.
  lemma RunIdsAreUuids(s: string)
    ensures IsRunId(s) <==> IsUuid(s)
  {
    if IsUuid(s) {
      UuidsAreRunIds(s);
    } else if IsRunId(s) {
      DashesOfRunId(s);
    }
  }

  // ----- The device -----

  // A text is the first characters of the text at its place, each replaced unless it prints.
  predicate ShowsText(text: string, place: Option<Value>, limit: nat) {
    match place
    case Some(Text(s)) =>
      && |text| == (if |s| <= limit then |s| else limit)
      && forall i | 0 <= i < |text| :: text[i] == if ' ' <= s[i] <= '~' then s[i] else '?'
    case _ => text == ""
  }

  predicate ShowsTexts(f: Frame, data: map<string, Value>) {
    && ShowsText(f.agent, Property(data, "agent"), 28)
    && ShowsText(f.alert.GetOr(""), Property(data, "alert"), 64) && f.alert != Some("")
  }

  lemma TextIsShownExactly(place: Option<Value>, limit: nat, text: string)
    ensures DeviceText(place, limit) == text <==> ShowsText(text, place, limit)
  {
    if ShowsText(text, place, limit) && place.Some? && place.value.Text? {
      assert DeviceText(place, limit) == text;
    }
  }

  lemma MetricIsShownExactly(place: Option<Value>, whole: bool, mayBeUnknown: bool, metric: Option<real>)
    ensures Metric(place, whole, mayBeUnknown) == Some(metric) <==> SaysMetric(metric, place, whole, mayBeUnknown)
  {
  }

  lemma ObjectIsShownExactly(w: Wire, line: string, data: map<string, Value>, f: Frame)
    requires |line| <= 1024 && w.loads(line) == Some(data)
    ensures DecodeFrame(w, line) == Shown(f) <==> SaysHeader(f, data) && SaysMetrics(f, data) && ShowsTexts(f, data)
  {
    TextIsShownExactly(Property(data, "agent"), 28, f.agent);
    TextIsShownExactly(Property(data, "alert"), 64, f.alert.GetOr(""));
    RunIdsAreUuids(f.runId);
    MetricIsShownExactly(Property(data, "eventCount"), true, false, Some(f.eventCount));
    MetricIsShownExactly(Property(data, "tokens"), true, f.version == 2.0, f.tokens);
    MetricIsShownExactly(Property(data, "durationSeconds"), false, false, Some(f.durationSeconds));
    MetricIsShownExactly(Property(data, "estimatedCost"), false, f.version == 2.0, f.estimatedCost);
  }

  // A line is shown as f if and only if it is at most 1024 characters of a JSON object that
  // says so; a longer one is too large, and any other malformed.
  lemma LineIsShownExactly(w: Wire, line: string, f: Frame)
    ensures DecodeFrame(w, line) == Shown(f) <==>
            && |line| <= 1024 && w.loads(line).Some?
            && SaysHeader(f, w.loads(line).value) && SaysMetrics(f, w.loads(line).value)
            && ShowsTexts(f, w.loads(line).value)
    ensures DecodeFrame(w, line) == TooLarge <==> |line| > 1024
    ensures DecodeFrame(w, line) != Nothing
  {
    if |line| <= 1024 && w.loads(line).Some? {
      ObjectIsShownExactly(w, line, w.loads(line).value, f);
    }
  }
}
