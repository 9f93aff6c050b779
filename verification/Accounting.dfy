/**
 What recording accounts for: the totals of a run grow by exactly what the newly recorded
 requests report, and a replayed request adds nothing.
 */
module Accounting {
  import opened Results
  import opened Totals
  import opened Trace
  import opened Policy
  import opened TaskContexts
  import opened Recording

  // The counters a request reports; those of imports come from elsewhere.
  function OfRequest(r: RecordEventRequest, c: Counter): Option<int> {
    match c
    case Input => r.inputTokens
    case Output => r.outputTokens
    case Cost => r.estimatedCost
    case ReportedCredits => r.reportedAiCredits
    case EstimatedCredits => r.estimatedAiCredits
    case _ => None
  }

  function RequestTotal(requests: seq<RecordEventRequest>, c: Counter): Option<int> {
    Total(seq(|requests|, i requires 0 <= i < |requests| => OfRequest(requests[i], c)))
  }

  // The requests of a batch that are recorded as new events, and not answered with old ones.
  function NewlyRecorded(env: Environment, run: TraceRun, minted: nat,
                         requests: seq<RecordEventRequest>): seq<RecordEventRequest>
    requires RecordAll(env, run, minted, requests).Ok?
  {
    if requests == [] then []
    else
      var init, last := requests[..|requests| - 1], requests[|requests| - 1];
      var p := RecordAll(env, run, minted, init).value;
      NewlyRecorded(env, run, minted, init) +
        if IsReplayable(last) && FirstSpan(p.events, last.traceId, last.spanId) < |p.events| then [] else [last]
  }

  lemma RequestTotalOfSnoc(requests: seq<RecordEventRequest>, r: RecordEventRequest, c: Counter)
    ensures RequestTotal(requests + [r], c) == Combine(RequestTotal(requests, c), OfRequest(r, c))
  {
    var values := seq(|requests|, i requires 0 <= i < |requests| => OfRequest(requests[i], c));
    var more := requests + [r];
    assert seq(|more|, i requires 0 <= i < |more| => OfRequest(more[i], c)) == values + [OfRequest(r, c)];
    TotalOfConcat(values, [OfRequest(r, c)]);
    assert [OfRequest(r, c)][1..] == [];
  }

  lemma CombineAssociates(a: Option<int>, b: Option<int>, c: Option<int>)
    ensures Combine(Combine(a, b), c) == Combine(a, Combine(b, c))
  {
  }

  // One request: nothing changes, or its event is added with its counters.
  lemma RecordOneConserves(env: Environment, run: TraceRun, p: Progress, r: RecordEventRequest, after: Progress,
                           c: Counter)
    requires RecordOne(env, run, p, r) == Ok(after)
    ensures EventTotal(after.events, c) ==
            if IsReplayable(r) && FirstSpan(p.events, r.traceId, r.spanId) < |p.events| then EventTotal(p.events, c)
            else Combine(EventTotal(p.events, c), OfRequest(r, c))
  {
    if !(IsReplayable(r) && FirstSpan(p.events, r.traceId, r.spanId) < |p.events|) {
      EventTotalOfSnoc(p.events, RecordedEvent(env, run, r, env.newGuid(p.minted), ContextOf(p.events)), c);
    }
  }

  // The totals of a run after a batch are those before it and those of the new requests.
  lemma {:induction false} RecordingConserves(env: Environment, run: TraceRun, minted: nat,
                                              requests: seq<RecordEventRequest>, c: Counter)
    requires RecordAll(env, run, minted, requests).Ok?
    ensures EventTotal(RecordAll(env, run, minted, requests).value.events, c) ==
            Combine(EventTotal(run.events, c), RequestTotal(NewlyRecorded(env, run, minted, requests), c))
  {
    if requests != [] {
      var init, last := requests[..|requests| - 1], requests[|requests| - 1];
      var p := RecordAll(env, run, minted, init).value;
      var earlier := NewlyRecorded(env, run, minted, init);
      RecordingConserves(env, run, minted, init, c);
      RecordOneConserves(env, run, p, last, RecordAll(env, run, minted, requests).value, c);
      RequestTotalOfSnoc(earlier, last, c);
      CombineAssociates(EventTotal(run.events, c), RequestTotal(earlier, c), OfRequest(last, c));
      assert earlier + [] == earlier;
    }
  }
}
