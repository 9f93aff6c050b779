/**
 What is read from an event log, told from the log itself: which records the calls, the
 shutdowns and the requests come from, and which of them are used.
 */
module EventEvidence {
  import opened Results
  import opened Totals
  import opened UsageImports
  import opened JsonTree
  import opened UsageReader
  import opened EventReader

  const CALL := "assistant.usage"
  const SHUTDOWN := "session.shutdown"
  const PROMPT := "user.message"
  const REPLY := "assistant.message"

  predicate IsAt(events: seq<Json>, i: int, kind: string) {
    0 <= i < |events| && EventType(events[i]) == kind
  }

  // ----- Calls and shutdowns -----

  // Where the records of one kind are.
  function Positions(events: seq<Json>, kind: string): (r: seq<nat>)
    ensures forall k | 0 <= k < |r| :: r[k] < |events|
  {
    if events == [] then []
    else
      var init := events[..|events| - 1];
      Positions(init, kind) + if EventType(events[|init|]) == kind then [|init|] else []
  }

  lemma {:induction false} PositionsAre(events: seq<Json>, kind: string)
    ensures Increasing(Positions(events, kind))
    ensures forall i :: i in Positions(events, kind) <==> IsAt(events, i, kind)
  {
    if events != [] {
      var init := events[..|events| - 1];
      PositionsAre(init, kind);
      forall i ensures IsAt(events, i, kind) <==> IsAt(init, i, kind) || (i == |init| && EventType(events[i]) == kind) {
        if 0 <= i < |init| { assert events[i] == init[i]; }
      }
    }
  }

  // One record adds a call or a shutdown, or neither.
  lemma ScanOneAdds(context: Context, scan: Scan, event: Json, index: nat, after: Scan)
    requires ScanOne(context, scan, event, index) == Ok(after)
    ensures EventType(event) == CALL ==>
              Call(context, event, index).Ok? && after.calls == scan.calls + [Call(context, event, index).value]
    ensures EventType(event) != CALL ==> after.calls == scan.calls
    ensures after.shutdowns == scan.shutdowns + if EventType(event) == SHUTDOWN then [event] else []
  {
    assert scan.shutdowns + [] == scan.shutdowns;
  }

  ghost predicate IsCall(context: Context, events: seq<Json>, position: nat, call: UsageObservation) {
    position < |events| && Call(context, events[position], position) == Ok(call)
  }

  // The calls are those of the records at these positions, in order.
  ghost predicate AreCalls(context: Context, events: seq<Json>, positions: seq<nat>, calls: seq<UsageObservation>) {
    |calls| == |positions| && forall k | 0 <= k < |calls| :: IsCall(context, events, positions[k], calls[k])
  }

  ghost predicate AreRecords(events: seq<Json>, positions: seq<nat>, records: seq<Json>) {
    |records| == |positions| && forall k | 0 <= k < |records| ::
        positions[k] < |events| && events[positions[k]] == records[k]
  }

  lemma {:induction false} ScanFollowsTheLog(context: Context, events: seq<Json>, scan: Scan)
    requires ScanAll(context, events) == Ok(scan)
    ensures AreCalls(context, events, Positions(events, CALL), scan.calls)
    ensures AreRecords(events, Positions(events, SHUTDOWN), scan.shutdowns)
    decreases |events|
  {
    if events != [] {
      var init, last := events[..|events| - 1], events[|events| - 1];
      assert events == init + [last];
      var before := LastScan(context, events, scan);
      ScanFollowsTheLog(context, init, before);
      ScanOneMore(context, init, last, events, before, scan);
    } else {
      assert scan == EMPTY_SCAN;
    }
  }

  lemma ScanOneMore(context: Context, init: seq<Json>, last: Json, events: seq<Json>, before: Scan, after: Scan)
    requires events == init + [last] && ScanOne(context, before, last, |init|) == Ok(after)
    requires AreCalls(context, init, Positions(init, CALL), before.calls)
    requires AreRecords(init, Positions(init, SHUTDOWN), before.shutdowns)
    ensures AreCalls(context, events, Positions(events, CALL), after.calls)
    ensures AreRecords(events, Positions(events, SHUTDOWN), after.shutdowns)
  {
    ScanOneAdds(context, before, last, |init|, after);
    CallsOneMore(context, init, last, Positions(init, CALL), before.calls, after.calls);
    RecordsOneMore(init, last, Positions(init, SHUTDOWN), before.shutdowns, after.shutdowns);
    assert events[..|init|] == init;
  }

  lemma CallsOneMore(context: Context, init: seq<Json>, last: Json, positions: seq<nat>,
                     before: seq<UsageObservation>, after: seq<UsageObservation>)
    requires AreCalls(context, init, positions, before)
    requires if EventType(last) == CALL
             then after != [] && after == before + [after[|after| - 1]]
                 && Call(context, last, |init|) == Ok(after[|after| - 1])
             else after == before
    ensures AreCalls(context, init + [last], positions + if EventType(last) == CALL then [|init|] else [], after)
  {
    forall k | 0 <= k < |before| ensures IsCall(context, init + [last], positions[k], before[k]) {
      assert IsCall(context, init, positions[k], before[k]);
      assert (init + [last])[positions[k]] == init[positions[k]];
    }
    assert positions + [] == positions && (init + [last])[|init|] == last;
  }

  lemma RecordsOneMore(init: seq<Json>, last: Json, positions: seq<nat>, before: seq<Json>, after: seq<Json>)
    requires AreRecords(init, positions, before)
    requires after == before + if EventType(last) == SHUTDOWN then [last] else []
    ensures AreRecords(init + [last], positions + if EventType(last) == SHUTDOWN then [|init|] else [], after)
  {
    assert positions + [] == positions && before + [] == before && (init + [last])[|init|] == last;
    assert forall k | 0 <= k < |before| :: (init + [last])[positions[k]] == init[positions[k]];
  }

  // ----- Requests -----

  // A prompt starts a request, and so does a reply that nothing came before.
  ghost predicate StartsRequest(events: seq<Json>, i: int) {
    IsAt(events, i, PROMPT) || (IsAt(events, i, REPLY) && NoRequests(events[..i]))
  }

  function Starts(events: seq<Json>): (r: seq<nat>)
    ensures forall k | 0 <= k < |r| :: r[k] < |events|
  {
    if events == [] then []
    else
      var init := events[..|events| - 1];
      var kind := EventType(events[|init|]);
      Starts(init) + if kind == PROMPT || (kind == REPLY && Starts(init) == []) then [|init|] else []
  }

  lemma {:induction false} StartsIncrease(events: seq<Json>)
    ensures Increasing(Starts(events))
  {
    if events != [] {
      StartsIncrease(events[..|events| - 1]);
    }
  }

  lemma {:induction false} NothingStarts(events: seq<Json>)
    ensures Starts(events) == [] <==> NoRequests(events)
  {
    if events != [] {
      NothingStarts(events[..|events| - 1]);
      NoneOneMore(events);
    }
  }

  // The starts are exactly the records that start a request.
  lemma {:induction false} StartsAre(events: seq<Json>)
    ensures forall i :: i in Starts(events) <==> StartsRequest(events, i)
  {
    if events != [] {
      var init, last := events[..|events| - 1], events[|events| - 1];
      assert events == init + [last];
      StartsAre(init);
      forall i ensures i in Starts(events) <==> StartsRequest(events, i) {
        StartIsKept(init, last, events, i);
      }
    }
  }

  lemma StartIsKept(init: seq<Json>, last: Json, events: seq<Json>, i: int)
    requires events == init + [last] && (i in Starts(init) <==> StartsRequest(init, i))
    ensures i in Starts(events) <==> StartsRequest(events, i)
  {
    NothingStarts(init);
    StartsOneMore(init, last, i);
    StartedOneMore(init, last, events, i);
  }

  lemma StartedOneMore(init: seq<Json>, last: Json, events: seq<Json>, i: int)
    requires events == init + [last]
    ensures i in Starts(events) <==>
              if i == |init| then EventType(last) == PROMPT || (EventType(last) == REPLY && Starts(init) == [])
              else i in Starts(init)
  {
    assert events[..|init|] == init && |init| !in Starts(init);
  }

  ghost predicate NoRequests(events: seq<Json>) {
    forall k | 0 <= k < |events| :: EventType(events[k]) != PROMPT && EventType(events[k]) != REPLY
  }

  lemma NoneOneMore(events: seq<Json>)
    requires events != []
    ensures var n := |events| - 1;
            NoRequests(events) <==>
                NoRequests(events[..n]) && EventType(events[n]) != PROMPT && EventType(events[n]) != REPLY
  {
    var n := |events| - 1;
    assert forall k | 0 <= k < n :: events[..n][k] == events[k];
  }

  lemma StartsOneMore(init: seq<Json>, last: Json, i: int)
    ensures i != |init| ==> (StartsRequest(init + [last], i) <==> StartsRequest(init, i))
    ensures StartsRequest(init + [last], |init|) <==>
            EventType(last) == PROMPT || (EventType(last) == REPLY && NoRequests(init))
  {
    var events := init + [last];
    assert events[|init|] == last && events[..|init|] == init;
    if 0 <= i < |init| {
      assert events[i] == init[i] && events[..i] == init[..i];
    }
  }

  // Where the records of request k end: at the next request, or with the log.
  function EndOf(starts: seq<nat>, length: nat, k: nat): nat
    requires k < |starts|
  {
    if k + 1 < |starts| then starts[k + 1] else length
  }

  // What replies come to: their visible characters and reported output tokens, each absent
  // when no reply has any, and the last model that is named.
  datatype Replies = Replies(chars: Option<nat>, tokens: Option<int>, model: Option<Json>)

  const NO_REPLIES := Replies(None, None, None)

  function WithReply(r: Replies, reply: Json): Replies {
    var model := Prop(Prop(Some(reply), "data"), "model");
    Replies(if ContentUnits(reply).Some? then Some(r.chars.GetOr(0) + ContentUnits(reply).value) else r.chars,
            Combine(r.tokens, ReplyTokens(reply)), if model.Some? then model else r.model)
  }

  // The replies among the records from one position up to another.
  function RepliesIn(events: seq<Json>, from: nat, to: nat): Replies
    requires to <= |events|
  {
    if to <= from then NO_REPLIES
    else
      var earlier := RepliesIn(events, from, to - 1);
      if EventType(events[to - 1]) == REPLY then WithReply(earlier, events[to - 1]) else earlier
  }

  // A request is its first record with what all its replies come to.
  ghost predicate IsRequest(message: Message, events: seq<Json>, from: nat, to: nat) {
    && from < to <= |events|
    && message.event == events[from] && message.index == from
    && message.input == (if EventType(events[from]) == PROMPT then ContentUnits(events[from]) else None)
    && Replies(message.output, message.outputTokens, message.model) == RepliesIn(events, from, to)
  }

  ghost predicate AreRequests(events: seq<Json>, starts: seq<nat>, requests: seq<Message>) {
    && |requests| == |starts|
    && forall k | 0 <= k < |requests| :: IsRequest(requests[k], events, starts[k], EndOf(starts, |events|, k))
  }

  lemma {:induction false} RepliesOfPrefix(init: seq<Json>, last: Json, from: nat, to: nat)
    requires to <= |init|
    ensures RepliesIn(init + [last], from, to) == RepliesIn(init, from, to)
  {
    if from < to {
      RepliesOfPrefix(init, last, from, to - 1);
      assert (init + [last])[to - 1] == init[to - 1];
    }
  }

  lemma RepliesOneMore(init: seq<Json>, last: Json, from: nat)
    requires from <= |init|
    ensures RepliesIn(init + [last], from, |init| + 1) ==
            if EventType(last) == REPLY then WithReply(RepliesIn(init, from, |init|), last)
            else RepliesIn(init, from, |init|)
  {
    RepliesOfPrefix(init, last, from, |init|);
    assert (init + [last])[|init|] == last;
  }

  lemma RepliedAdds(message: Message, event: Json, after: Message)
    requires EventType(event) == REPLY && Replied(message, Prop(Some(event), "data")) == Ok(after)
    ensures after.event == message.event && after.index == message.index && after.input == message.input
    ensures Replies(after.output, after.outputTokens, after.model) ==
            WithReply(Replies(message.output, message.outputTokens, message.model), event)
  {
    RepliedAddsTokens(message, event);
  }

  // One more record that belongs to a request.
  lemma RequestOneMore(message: Message, init: seq<Json>, last: Json, from: nat, after: Message)
    requires IsRequest(message, init, from, |init|)
    requires if EventType(last) == REPLY then Replied(message, Prop(Some(last), "data")) == Ok(after)
             else after == message
    ensures IsRequest(after, init + [last], from, |init| + 1)
  {
    RepliesOneMore(init, last, from);
    assert (init + [last])[from] == init[from];
    if EventType(last) == REPLY { RepliedAdds(message, last, after); }
  }

  // A record that comes after a request has ended.
  lemma RequestIsOver(message: Message, init: seq<Json>, last: Json, from: nat, to: nat)
    requires IsRequest(message, init, from, to)
    ensures IsRequest(message, init + [last], from, to)
  {
    RepliesOfPrefix(init, last, from, to);
    assert (init + [last])[from] == init[from];
  }

  // A request that a prompt starts, or a reply.
  lemma PromptIsRequest(init: seq<Json>, last: Json)
    requires EventType(last) == PROMPT
    ensures IsRequest(Message(last, |init|, ContentUnits(last), None, None, None), init + [last], |init|, |init| + 1)
  {
    RepliesOneMore(init, last, |init|);
    assert (init + [last])[|init|] == last;
  }

  lemma ReplyIsRequest(init: seq<Json>, last: Json, message: Message)
    requires EventType(last) == REPLY
    requires Replied(Message(last, |init|, None, None, None, None), Prop(Some(last), "data")) == Ok(message)
    ensures IsRequest(message, init + [last], |init|, |init| + 1)
  {
    RepliesOneMore(init, last, |init|);
    assert (init + [last])[|init|] == last;
    RepliedAdds(Message(last, |init|, None, None, None, None), last, message);
  }

  // Request k of a log that goes on after it has ended.
  lemma EarlierRequest(init: seq<Json>, last: Json, starts: seq<nat>, requests: seq<Message>, k: nat)
    requires AreRequests(init, starts, requests) && k < |requests|
    ensures IsRequest(requests[k], init + [last], starts[k], EndOf(starts, |init|, k))
  {
    RequestIsOver(requests[k], init, last, starts[k], EndOf(starts, |init|, k));
  }

  // The last request goes on, and those before it have ended.
  lemma LastGoesOn(init: seq<Json>, last: Json, events: seq<Json>, starts: seq<nat>, before: seq<Message>,
                   after: seq<Message>)
    requires events == init + [last] && AreRequests(init, starts, before) && before != [] && |after| == |before|
    requires after[..|after| - 1] == before[..|after| - 1]
    requires IsRequest(after[|after| - 1], events, starts[|after| - 1], |events|)
    ensures AreRequests(events, starts, after)
  {
    forall k | 0 <= k < |after| ensures IsRequest(after[k], events, starts[k], EndOf(starts, |events|, k)) {
      if k < |after| - 1 {
        assert after[k] == after[..|after| - 1][k] == before[k];
        EarlierRequest(init, last, starts, before, k);
      }
    }
  }

  // A record starts a request, and those before it have ended.
  lemma NextStarts(init: seq<Json>, last: Json, events: seq<Json>, starts: seq<nat>, before: seq<Message>,
                   message: Message)
    requires events == init + [last] && AreRequests(init, starts, before)
             && IsRequest(message, events, |init|, |events|)
    ensures AreRequests(events, starts + [|init|], before + [message])
  {
    var after, more := before + [message], starts + [|init|];
    forall k | 0 <= k < |after| ensures IsRequest(after[k], events, more[k], EndOf(more, |events|, k)) {
      if k < |before| { EarlierRequest(init, last, starts, before, k); }
    }
  }

  lemma PromptStarts(context: Context, init: seq<Json>, last: Json, events: seq<Json>, before: Scan, after: Scan)
    requires events == init + [last] && EventType(last) == PROMPT
    requires AreRequests(init, Starts(init), before.requests) && ScanOne(context, before, last, |init|) == Ok(after)
    ensures AreRequests(events, Starts(init) + [|init|], after.requests)
  {
    ScanOneRequests(context, before, last, |init|, after);
    var message := Message(last, |init|, ContentUnits(last), None, None, None);
    PromptIsRequest(init, last);
    NextStarts(init, last, events, Starts(init), before.requests, message);
  }

  lemma ReplyStarts(context: Context, init: seq<Json>, last: Json, events: seq<Json>, before: Scan, after: Scan)
    requires events == init + [last] && EventType(last) == REPLY && before.requests == []
    requires AreRequests(init, Starts(init), before.requests) && ScanOne(context, before, last, |init|) == Ok(after)
    ensures AreRequests(events, Starts(init) + [|init|], after.requests)
  {
    ScanOneRequests(context, before, last, |init|, after);
    ReplyIsRequest(init, last, after.requests[0]);
    NextStarts(init, last, events, Starts(init), before.requests, after.requests[0]);
  }

  lemma RequestGoesOn(context: Context, init: seq<Json>, last: Json, events: seq<Json>, before: Scan, after: Scan)
    requires events == init + [last] && EventType(last) != PROMPT && before.requests != []
    requires AreRequests(init, Starts(init), before.requests) && ScanOne(context, before, last, |init|) == Ok(after)
    ensures AreRequests(events, Starts(init), after.requests)
  {
    LastRequestGoesOn(context, init, last, Starts(init), before, after);
    ScanOneRequests(context, before, last, |init|, after);
    LastGoesOn(init, last, events, Starts(init), before.requests, after.requests);
  }

  lemma LastRequestGoesOn(context: Context, init: seq<Json>, last: Json, starts: seq<nat>, before: Scan, after: Scan)
    requires EventType(last) != PROMPT && before.requests != []
    requires AreRequests(init, starts, before.requests) && ScanOne(context, before, last, |init|) == Ok(after)
    ensures |after.requests| == |before.requests|
    ensures IsRequest(after.requests[|before.requests| - 1], init + [last], starts[|before.requests| - 1], |init| + 1)
  {
    var n := |before.requests| - 1;
    ScanOneRequests(context, before, last, |init|, after);
    assert IsRequest(before.requests[n], init, starts[n], EndOf(starts, |init|, n));
    RequestOneMore(before.requests[n], init, last, starts[n], after.requests[n]);
  }

  lemma RequestsOneMore(context: Context, init: seq<Json>, last: Json, events: seq<Json>, before: Scan, after: Scan)
    requires events == init + [last]
    requires AreRequests(init, Starts(init), before.requests) && ScanOne(context, before, last, |init|) == Ok(after)
    ensures AreRequests(events, Starts(events), after.requests)
  {
    StartsOfSnoc(init, last, events);
    if EventType(last) == PROMPT {
      PromptStarts(context, init, last, events, before, after);
    } else if before.requests != [] {
      RequestGoesOn(context, init, last, events, before, after);
    } else if EventType(last) == REPLY {
      ReplyStarts(context, init, last, events, before, after);
    } else {
      ScanOneRequests(context, before, last, |init|, after);
    }
  }

  lemma StartsOfSnoc(init: seq<Json>, last: Json, events: seq<Json>)
    requires events == init + [last]
    ensures Starts(events) ==
            if EventType(last) == PROMPT || (EventType(last) == REPLY && Starts(init) == [])
                then Starts(init) + [|init|] else Starts(init)
  {
    assert events[..|init|] == init && Starts(init) + [] == Starts(init);
  }

  // The requests of a scan are those the log starts, each with all its replies.
  lemma {:induction false} RequestsFollowTheLog(context: Context, events: seq<Json>, scan: Scan)
    requires ScanAll(context, events) == Ok(scan)
    ensures AreRequests(events, Starts(events), scan.requests)
    decreases |events|
  {
    if events != [] {
      var init := events[..|events| - 1];
      assert events == init + [events[|init|]];
      var before := LastScan(context, events, scan);
      RequestsFollowTheLog(context, init, before);
      RequestsOneMore(context, init, events[|init|], events, before, scan);
    } else {
      assert scan == EMPTY_SCAN;
    }
  }

  // ----- Selection -----

  ghost predicate MeasuredAt(context: Context, events: seq<Json>, i: int) {
    IsAt(events, i, CALL) && Call(context, events[i], i).Ok? && Call(context, events[i], i).value.quality == "measured"
  }

  // The observations a log gives: its calls when any of them is measured, or else the totals
  // of its last shutdown, or else its unmeasured calls, or else its requests.
  ghost predicate IsEvidence(context: Context, events: seq<Json>, observations: seq<UsageObservation>) {
    var calls, shutdowns := Positions(events, CALL), Positions(events, SHUTDOWN);
    if exists i :: MeasuredAt(context, events, i) then AreCalls(context, events, calls, observations)
    else if shutdowns != [] then ShutdownTotals(context, events[shutdowns[|shutdowns| - 1]]) == Ok(observations)
    else if calls != [] then AreCalls(context, events, calls, observations)
    else exists requests ::
        AreRequests(events, Starts(events), requests) && FromMessages(context, requests) == Ok(observations)
  }

  lemma MeasuredCalls(context: Context, events: seq<Json>, calls: seq<UsageObservation>)
    requires AreCalls(context, events, Positions(events, CALL), calls)
    ensures AnyMeasured(calls) <==> exists i :: MeasuredAt(context, events, i)
  {
    var positions := Positions(events, CALL);
    PositionsAre(events, CALL);
    if AnyMeasured(calls) {
      var k :| 0 <= k < |calls| && calls[k].quality == "measured";
      assert IsCall(context, events, positions[k], calls[k]) && positions[k] in positions;
      assert MeasuredAt(context, events, positions[k]);
    }
    if exists i :: MeasuredAt(context, events, i) {
      var i :| MeasuredAt(context, events, i);
      var k :| 0 <= k < |positions| && positions[k] == i;
      assert IsCall(context, events, positions[k], calls[k]);
    }
  }

  // A record that says what kind of log it is in.
  predicate IsRecognised(event: Json) {
    || EventType(event) == CALL || EventType(event) == SHUTDOWN || EventType(event) == PROMPT
    || EventType(event) == REPLY
    || (EventType(event) == "session.start" && IsText(Prop(Prop(Some(event), "data"), "sessionId")))
  }

  ghost predicate AnyRecognised(events: seq<Json>) {
    exists i | 0 <= i < |events| :: IsRecognised(events[i])
  }

  lemma RecognisedOneMore(init: seq<Json>, last: Json)
    ensures AnyRecognised(init + [last]) <==> AnyRecognised(init) || IsRecognised(last)
  {
    var events := init + [last];
    assert events[|init|] == last && forall i | 0 <= i < |init| :: events[i] == init[i];
    if AnyRecognised(init) {
      var i :| 0 <= i < |init| && IsRecognised(init[i]);
      assert IsRecognised(events[i]);
    }
  }

  lemma ScanOneRecognises(context: Context, scan: Scan, event: Json, index: nat, after: Scan)
    requires ScanOne(context, scan, event, index) == Ok(after)
    ensures after.recognized <==> scan.recognized || IsRecognised(event)
  {
  }

  lemma {:induction false} RecognitionFollowsTheLog(context: Context, events: seq<Json>, scan: Scan)
    requires ScanAll(context, events) == Ok(scan)
    ensures scan.recognized <==> AnyRecognised(events)
    decreases |events|
  {
    if events != [] {
      var init, last := events[..|events| - 1], events[|events| - 1];
      var before := LastScan(context, events, scan);
      assert events == init + [last];
      RecognitionFollowsTheLog(context, init, before);
      ScanOneRecognises(context, before, last, |init|, scan);
      RecognisedOneMore(init, last);
    } else {
      assert scan == EMPTY_SCAN;
    }
  }

  lemma EvidenceIsSelected(context: Context, events: seq<Json>, observations: seq<UsageObservation>)
    requires EventsRead(context, events) == Ok(observations)
    ensures AnyRecognised(events)
    ensures IsEvidence(context, events, observations)
  {
    var scan := ScanAll(context, events).value;
    RecognitionFollowsTheLog(context, events, scan);
    ScanFollowsTheLog(context, events, scan);
    RequestsFollowTheLog(context, events, scan);
    MeasuredCalls(context, events, scan.calls);
  }

  // ----- Which logs are read -----

  predicate IsWithin(tokens: Option<int>) {
    tokens.Some? ==> 0 <= tokens.value <= MAXIMUM_COUNT
  }

  // The record can be read on its own.
  predicate RecordOk(context: Context, event: Json, index: nat) {
    var data := Prop(Some(event), "data");
    && event.Obj? && IsText(Prop(Some(event), "type")) && IsObj(data)
    && (EventType(event) == CALL ==>
          CountsReadable(data) && IsCountOrAbsent(Prop(Prop(data, "copilotUsage"), "totalNanoAiu"), MAXIMUM_NANO_AIU))
    && (EventType(event) == PROMPT ==> ContentUnits(event).Some?)
    && (EventType(event) == REPLY ==>
          (ContentUnits(event).Some? || Prop(data, "outputTokens").Some?)
          && IsCountOrAbsent(Prop(data, "outputTokens"), MAXIMUM_COUNT))
  }

  lemma CallsAreReadExactly(context: Context, event: Json, index: nat)
    ensures Call(context, event, index).Ok? <==>
              CountsReadable(Prop(Some(event), "data"))
              && IsCountOrAbsent(Prop(Prop(Prop(Some(event), "data"), "copilotUsage"), "totalNanoAiu"),
                 MAXIMUM_NANO_AIU)
  {
  }

  ghost predicate RequestWithin(events: seq<Json>, starts: seq<nat>, k: nat)
    requires k < |starts|
  {
    EndOf(starts, |events|, k) <= |events| && IsWithin(RepliesIn(events, starts[k], EndOf(starts, |events|, k)).tokens)
  }

  // Every record can be read, and no request's output tokens come to too much.
  ghost predicate LogOk(context: Context, events: seq<Json>) {
    && (forall i | 0 <= i < |events| :: RecordOk(context, events[i], i))
    && (forall k | 0 <= k < |Starts(events)| :: RequestWithin(events, Starts(events), k))
  }

  // The tokens of the request a reply goes to.
  function TokensSoFar(scan: Scan): Option<int> {
    if scan.requests == [] then None else scan.requests[|scan.requests| - 1].outputTokens
  }

  lemma ReplyTokensAreCounts(event: Json)
    ensures IsWithin(ReplyTokens(event))
  {
  }

  lemma RepliedExactly(message: Message, event: Json)
    requires EventType(event) == REPLY && IsWithin(message.outputTokens)
    ensures Replied(message, Prop(Some(event), "data")).Ok? <==>
              NumberValue(Prop(Prop(Some(event), "data"), "outputTokens"), MAXIMUM_COUNT).Ok?
              && IsWithin(Combine(message.outputTokens, ReplyTokens(event)))
  {
  }

  lemma ScanOneExactly(context: Context, scan: Scan, event: Json, index: nat)
    requires IsWithin(TokensSoFar(scan))
    ensures ScanOne(context, scan, event, index).Ok? <==>
              RecordOk(context, event, index)
                  && (EventType(event) == REPLY ==> IsWithin(Combine(TokensSoFar(scan), ReplyTokens(event))))
  {
    if EventType(event) == CALL {
      CallsAreReadExactly(context, event, index);
    } else if EventType(event) == REPLY {
      ReplyScansExactly(context, scan, event, index);
    }
  }

  lemma ReplyScansExactly(context: Context, scan: Scan, event: Json, index: nat)
    requires IsWithin(TokensSoFar(scan)) && EventType(event) == REPLY
    ensures ScanOne(context, scan, event, index).Ok? <==>
              RecordOk(context, event, index) && IsWithin(Combine(TokensSoFar(scan), ReplyTokens(event)))
  {
    var started := Message(event, index, None, None, None, None);
    RepliedExactly(if scan.requests == [] then started else scan.requests[|scan.requests| - 1], event);
  }

  lemma {:induction false} ScannedIsWithin(context: Context, events: seq<Json>, scan: Scan)
    requires ScanAll(context, events) == Ok(scan)
    ensures MessagesInRange(scan.requests)
    decreases |events|
  {
    if events != [] {
      var before := LastScan(context, events, scan);
      ScannedIsWithin(context, events[..|events| - 1], before);
      RequestsStayInRange(context, before, events[|events| - 1], |events| - 1, scan);
    } else {
      assert scan == EMPTY_SCAN;
    }
  }

  // Where the last request of a log starts; its end when there is none.
  function LastStart(starts: seq<nat>, length: nat): nat {
    if starts == [] then length else starts[|starts| - 1]
  }

  // The tokens a reply would be added to, told from the log.
  lemma SoFarFollowsTheLog(context: Context, events: seq<Json>, scan: Scan)
    requires ScanAll(context, events) == Ok(scan)
    ensures TokensSoFar(scan) == RepliesIn(events, LastStart(Starts(events), |events|), |events|).tokens
    ensures IsWithin(TokensSoFar(scan))
  {
    RequestsFollowTheLog(context, events, scan);
    ScannedIsWithin(context, events, scan);
    if scan.requests != [] {
      var n := |scan.requests| - 1;
      assert IsRequest(scan.requests[n], events, Starts(events)[n], EndOf(Starts(events), |events|, n));
    }
  }

  // A request of a log that goes on comes to no less than before.
  lemma PrefixWithin(init: seq<Json>, last: Json, events: seq<Json>, k: nat)
    requires events == init + [last] && k < |Starts(init)| && k < |Starts(events)|
             && RequestWithin(events, Starts(events), k)
    ensures RequestWithin(init, Starts(init), k)
  {
    var starts := Starts(init);
    StartsOfSnoc(init, last, events);
    if EndOf(Starts(events), |events|, k) == |events| {
      RepliesOneMore(init, last, starts[k]);
      RepliesAreCounts(init, starts[k], |init|);
      ReplyTokensAreCounts(last);
    } else {
      RepliesOfPrefix(init, last, starts[k], EndOf(starts, |init|, k));
    }
  }

  lemma {:induction false} RepliesAreCounts(events: seq<Json>, from: nat, to: nat)
    requires to <= |events|
    ensures var tokens := RepliesIn(events, from, to).tokens; tokens.Some? ==> tokens.value >= 0
  {
    if from < to {
      RepliesAreCounts(events, from, to - 1);
      ReplyTokensAreCounts(events[to - 1]);
    }
  }

  lemma PrefixIsOk(context: Context, init: seq<Json>, last: Json, events: seq<Json>)
    requires events == init + [last] && LogOk(context, events)
    ensures LogOk(context, init) && RecordOk(context, last, |init|)
  {
    StartsOfSnoc(init, last, events);
    assert events[|init|] == last && forall i | 0 <= i < |init| :: events[i] == init[i];
    forall k | 0 <= k < |Starts(init)| ensures RequestWithin(init, Starts(init), k) {
      assert RequestWithin(events, Starts(events), k);
      PrefixWithin(init, last, events, k);
    }
  }

  // A reply that is added to the last request, or starts one, keeps it within bounds.
  lemma ReplyWithin(init: seq<Json>, last: Json, events: seq<Json>, from: nat)
    requires events == init + [last] && EventType(last) == REPLY && from <= |init|
    requires IsWithin(RepliesIn(events, from, |events|).tokens)
    ensures IsWithin(Combine(RepliesIn(init, from, |init|).tokens, ReplyTokens(last)))
  {
    RepliesOneMore(init, last, from);
  }

  lemma LastStartOfReply(init: seq<Json>, last: Json, events: seq<Json>)
    requires events == init + [last] && EventType(last) == REPLY
    ensures Starts(events) != [] && LastStart(Starts(events), |events|) == LastStart(Starts(init), |init|) <= |init|
  {
    StartsOfSnoc(init, last, events);
  }

  lemma LastIsWithin(events: seq<Json>, starts: seq<nat>)
    requires starts != [] && RequestWithin(events, starts, |starts| - 1)
    ensures IsWithin(RepliesIn(events, LastStart(starts, |events|), |events|).tokens)
  {
  }

  // A log is scanned if and only if every record can be read and no request's output tokens
  // come to too much.
  lemma {:induction false} LogsAreScannedExactly(context: Context, events: seq<Json>)
    ensures ScanAll(context, events).Ok? <==> LogOk(context, events)
    decreases |events|
  {
    if events != [] {
      var init, last := events[..|events| - 1], events[|events| - 1];
      assert events == init + [last];
      LogsAreScannedExactly(context, init);
      if ScanAll(context, events).Ok? {
        ScannedIsOk(context, init, last, events);
      } else if LogOk(context, events) {
        PrefixIsOk(context, init, last, events);
        var scan := ScanAll(context, init).value;
        SoFarFollowsTheLog(context, init, scan);
        ScanOneExactly(context, scan, last, |init|);
        if EventType(last) == REPLY {
          LastStartOfReply(init, last, events);
          LastIsWithin(events, Starts(events));
          ReplyWithin(init, last, events, LastStart(Starts(init), |init|));
        }
      }
    }
  }

  lemma ScannedIsOk(context: Context, init: seq<Json>, last: Json, events: seq<Json>)
    requires events == init + [last] && ScanAll(context, events).Ok? && LogOk(context, init)
    ensures LogOk(context, events)
  {
    var scan := ScanAll(context, events).value;
    var before := LastScan(context, events, scan);
    assert events[..|init|] == init;
    SoFarFollowsTheLog(context, init, before);
    ScanOneExactly(context, before, last, |init|);
    forall i | 0 <= i < |events| ensures RecordOk(context, events[i], i) {
      if i < |init| { assert events[i] == init[i]; }
    }
    RequestsFollowTheLog(context, events, scan);
    ScannedIsWithin(context, events, scan);
    forall k | 0 <= k < |Starts(events)| ensures RequestWithin(events, Starts(events), k) {
      assert IsRequest(scan.requests[k], events, Starts(events)[k], EndOf(Starts(events), |events|, k));
    }
  }

  // A shutdown lists counts for each model, and may bill an amount.
  ghost predicate ShutdownReadable(event: Json) {
    var data := Prop(Some(event), "data");
    var metrics := Prop(data, "modelMetrics");
    && IsObj(metrics) && MetricsReadable(metrics.value.entries)
    && IsCountOrAbsent(Prop(data, "totalNanoAiu"), MAXIMUM_NANO_AIU)
  }

  predicate ModelReadable(metrics: Json) {
    var usage := Prop(Some(metrics), "usage");
    IsObj(usage) && CountsReadable(usage)
  }

  ghost predicate MetricsReadable(entries: seq<(string, Json)>) {
    forall i | 0 <= i < |entries| :: ModelReadable(entries[i].1)
  }

  lemma MetricsOneMore(entries: seq<(string, Json)>)
    requires entries != []
    ensures MetricsReadable(entries) <==>
            MetricsReadable(entries[..|entries| - 1]) && ModelReadable(entries[|entries| - 1].1)
  {
    var n := |entries| - 1;
    assert forall i | 0 <= i < n :: entries[..n][i] == entries[i];
  }

  lemma ModelTotalsOneMore(context: Context, event: Json, entries: seq<(string, Json)>)
    requires entries != []
    ensures ModelTotals(context, event, entries).Ok? <==>
              ModelTotals(context, event, entries[..|entries| - 1]).Ok? && ModelReadable(entries[|entries| - 1].1)
  {
  }

  lemma {:induction false} MetricsAreReadExactly(context: Context, event: Json, entries: seq<(string, Json)>)
    ensures ModelTotals(context, event, entries).Ok? <==> MetricsReadable(entries)
  {
    if entries != [] {
      MetricsAreReadExactly(context, event, entries[..|entries| - 1]);
      ModelTotalsOneMore(context, event, entries);
      MetricsOneMore(entries);
    }
  }

  lemma ShutdownsAreReadExactly(context: Context, event: Json)
    ensures ShutdownTotals(context, event).Ok? <==> ShutdownReadable(event)
  {
    var metrics := Prop(Prop(Some(event), "data"), "modelMetrics");
    if IsObj(metrics) { MetricsAreReadExactly(context, event, metrics.value.entries); }
  }

  // A request that is estimated is not too long.
  ghost predicate RequestFits(context: Context, events: seq<Json>, from: nat, to: nat) {
    from < to <= |events| &&
    var replies := RepliesIn(events, from, to);
    context.allowEstimates && replies.tokens.None? ==>
      (EventType(events[from]) == PROMPT ==> CharsFit(ContentUnits(events[from]))) && CharsFit(replies.chars)
  }

  ghost predicate RequestsFit(context: Context, events: seq<Json>, starts: seq<nat>) {
    forall k | 0 <= k < |starts| :: RequestFits(context, events, starts[k], EndOf(starts, |events|, k))
  }

  lemma MessageIsReadExactly(context: Context, events: seq<Json>, message: Message, from: nat, to: nat)
    requires IsRequest(message, events, from, to)
    ensures FromMessage(context, message).Ok? <==> RequestFits(context, events, from, to)
  {
  }

  ghost predicate MessagesReadable(context: Context, messages: seq<Message>) {
    forall k | 0 <= k < |messages| :: FromMessage(context, messages[k]).Ok?
  }

  lemma MessagesOneMore(context: Context, messages: seq<Message>)
    requires messages != []
    ensures MessagesReadable(context, messages) <==>
              MessagesReadable(context, messages[..|messages| - 1])
                  && FromMessage(context, messages[|messages| - 1]).Ok?
  {
    var n := |messages| - 1;
    assert forall k | 0 <= k < n :: messages[..n][k] == messages[k];
  }

  lemma {:induction false} MessagesAreReadExactly(context: Context, messages: seq<Message>)
    ensures FromMessages(context, messages).Ok? <==> MessagesReadable(context, messages)
  {
    if messages != [] {
      MessagesAreReadExactly(context, messages[..|messages| - 1]);
      MessagesOneMore(context, messages);
    }
  }

  lemma RequestsAreReadExactly(context: Context, events: seq<Json>, starts: seq<nat>, requests: seq<Message>)
    requires AreRequests(events, starts, requests)
    ensures FromMessages(context, requests).Ok? <==> RequestsFit(context, events, starts)
  {
    MessagesAreReadExactly(context, requests);
    forall k | 0 <= k < |requests|
      ensures FromMessage(context, requests[k]).Ok? <==>
              RequestFits(context, events, starts[k], EndOf(starts, |events|, k))
    {
      assert IsRequest(requests[k], events, starts[k], EndOf(starts, |events|, k));
      MessageIsReadExactly(context, events, requests[k], starts[k], EndOf(starts, |events|, k));
    }
  }

  // What the log gives can be read.
  ghost predicate EvidenceReadable(context: Context, events: seq<Json>) {
    var calls, shutdowns := Positions(events, CALL), Positions(events, SHUTDOWN);
    if exists i :: MeasuredAt(context, events, i) then true
    else if shutdowns != [] then ShutdownReadable(events[shutdowns[|shutdowns| - 1]])
    else calls != [] || RequestsFit(context, events, Starts(events))
  }

  // A log is read if and only if it can be scanned, has a recognised record, and the evidence
  // it gives can be read.
  lemma LogsAreReadExactly(context: Context, events: seq<Json>)
    ensures EventsRead(context, events).Ok? <==>
            LogOk(context, events) && AnyRecognised(events) && EvidenceReadable(context, events)
  {
    LogsAreScannedExactly(context, events);
    if LogOk(context, events) {
      var scan := ScanAll(context, events).value;
      ScanFollowsTheLog(context, events, scan);
      RequestsFollowTheLog(context, events, scan);
      RecognitionFollowsTheLog(context, events, scan);
      MeasuredCalls(context, events, scan.calls);
      RequestsAreReadExactly(context, events, Starts(events), scan.requests);
      if scan.shutdowns != [] { ShutdownsAreReadExactly(context, scan.shutdowns[|scan.shutdowns| - 1]); }
    }
  }

  // ----- The scan -----

  method EventObservations(context: Context, events: seq<Json>) returns (r: Result<seq<UsageObservation>, SourceError>)
    ensures r == EventsRead(context, events)
    ensures r.Ok? <==> LogOk(context, events) && AnyRecognised(events) && EvidenceReadable(context, events)
    ensures r.Ok? ==> IsEvidence(context, events, r.value)
  {
    var scan := EMPTY_SCAN;
    for index := 0 to |events|
      invariant ScanAll(context, events[..index]) == Ok(scan)
    {
      assert events[..index + 1][..index] == events[..index];
      var next := ScanOne(context, scan, events[index], index);
      if next.Err? {
        ScanFails(context, events, index + 1);
        LogsAreReadExactly(context, events);
        return Err(next.error);
      }
      scan := next.value;
    }
    assert events[..|events|] == events;
    r := Selected(context, scan);
    LogsAreReadExactly(context, events);
    if r.Ok? { EvidenceIsSelected(context, events, r.value); }
  }
}
