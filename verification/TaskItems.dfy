/** What each item of a task breakdown says of its task, told from the events of the run. */
module TaskItems {
  import opened Results
  import opened Text
  import opened Totals
  import opened Trace
  import opened TaskContexts
  import opened TaskUsage

  // ----- The events of a task, in place -----

  ghost predicate IsOf(events: seq<FlightEvent>, task: Guid, i: int) {
    0 <= i < |events| && events[i].taskId == Some(task)
  }

  ghost function PlacesOf(events: seq<FlightEvent>, task: Guid): set<nat> {
    set i: nat | i < |events| && IsOf(events, task, i)
  }

  ghost function KindPlaces(events: seq<FlightEvent>, task: Guid, kind: EventKind): set<nat> {
    set i: nat | i < |events| && IsOf(events, task, i) && events[i].kind == kind
  }

  // A counter of each event of the task, and nothing for every other event.
  function CounterOf(events: seq<FlightEvent>, task: Guid, counter: FlightEvent -> Option<int>): (r: seq<Option<int>>)
    ensures |r| == |events|
    ensures forall i | 0 <= i < |r| :: r[i] == if events[i].taskId == Some(task) then counter(events[i]) else None
  {
    seq(|events|, i requires 0 <= i < |events| =>
      if events[i].taskId == Some(task) then counter(events[i]) else None)
  }

  // The time between start and end, of each event that has ended.
  const Elapsed: FlightEvent -> Option<int> :=
    (e: FlightEvent) => if e.endedAt.Some? then Some(e.endedAt.value.utc - e.startedAt.utc) else None
  const InputOf: FlightEvent -> Option<int> := (e: FlightEvent) => e.inputTokens
  const OutputOf: FlightEvent -> Option<int> := (e: FlightEvent) => e.outputTokens
  const ReportedOf: FlightEvent -> Option<int> := (e: FlightEvent) => e.reportedAiCredits
  const EstimatedOf: FlightEvent -> Option<int> := (e: FlightEvent) => e.estimatedAiCredits

  // The first event of the task that starts it.
  ghost predicate IsFirstStart(events: seq<FlightEvent>, task: Guid, i: int) {
    && IsOf(events, task, i) && StartsTask(events[i], task)
    && forall k | 0 <= k < i :: !StartsTask(events[k], task)
  }

  // The first event that mentions it.
  ghost predicate IsFirstOf(events: seq<FlightEvent>, task: Guid, i: int) {
    IsOf(events, task, i) && forall k | 0 <= k < i :: !IsOf(events, task, k)
  }

  // What an event says of where its task came from.
  predicate SaysSource(e: FlightEvent, source: string) {
    if e.attributes.Some? && "flightrecorder.task.source" in e.attributes.value
    then source == e.attributes.value["flightrecorder.task.source"] else source == "inferred"
  }

  // An item is named after the first start of its task, or its first mention; its parent is
  // the one named there; and it counts exactly the events of its task.
  ghost predicate IsItem(events: seq<FlightEvent>, item: TaskUsageItem) {
    var task := item.taskId;
    && (exists i :: IsFirstOf(events, task, i) && item.parentTaskId == events[i].parentTaskId
                    && ((forall k :: !IsFirstStart(events, task, k)) ==> item.name == events[i].name))
    && (forall k | IsFirstStart(events, task, k) :: item.name == events[k].name && SaysSource(events[k], item.source))
    && ((forall k :: !IsFirstStart(events, task, k)) ==> item.source == "inferred")
    && (item.isActive <==> exists i :: ActiveSince(events, task, i))
    && item.eventCount == |PlacesOf(events, task)|
    && item.modelCalls == |KindPlaces(events, task, ModelCall)|
    && item.toolCalls == |KindPlaces(events, task, ToolCall)|
    && item.inputTokens == Total(CounterOf(events, task, InputOf))
    && item.outputTokens == Total(CounterOf(events, task, OutputOf))
    && item.reportedAiCredits == Total(CounterOf(events, task, ReportedOf))
    && item.estimatedAiCredits == Total(CounterOf(events, task, EstimatedOf))
    && item.duration == Total(CounterOf(events, task, Elapsed)).GetOr(0)
  }

  // ----- Counts and totals -----

  lemma {:induction false} CountsAre(events: seq<FlightEvent>, task: Guid, kind: EventKind)
    ensures |EventsOf(events, task)| == |PlacesOf(events, task)|
    ensures CountKind(EventsOf(events, task), kind) == |KindPlaces(events, task, kind)|
  {
    if events == [] {
      assert PlacesOf(events, task) == {} && KindPlaces(events, task, kind) == {};
    } else {
      var init, last := events[..|events| - 1], events[|events| - 1];
      CountsAre(init, task, kind);
      assert events == init + [last];
      PlacesOneMore(init, last, events, task);
      KindPlacesOneMore(init, last, events, task, kind);
      EventsOfSnoc(init, last, task);
      if last.taskId == Some(task) { CountKindOfSnoc(EventsOf(init, task), last, kind); }
    }
  }

  lemma CountKindOfSnoc(events: seq<FlightEvent>, last: FlightEvent, kind: EventKind)
    ensures CountKind(events + [last], kind) == CountKind(events, kind) + if last.kind == kind then 1 else 0
  {
    assert (events + [last])[..|events|] == events;
  }

  lemma PlacesOneMore(init: seq<FlightEvent>, last: FlightEvent, events: seq<FlightEvent>, task: Guid)
    requires events == init + [last]
    ensures |PlacesOf(events, task)| == |PlacesOf(init, task)| + if last.taskId == Some(task) then 1 else 0
  {
    var fewer, n := PlacesOf(init, task), |init|;
    forall i: nat ensures i in PlacesOf(events, task) <==> i in fewer || (i == n && last.taskId == Some(task)) {
      if i < n { assert events[i] == init[i]; }
    }
    assert PlacesOf(events, task) == if last.taskId == Some(task) then fewer + {n} else fewer;
  }

  lemma KindPlacesOneMore(init: seq<FlightEvent>, last: FlightEvent, events: seq<FlightEvent>, task: Guid,
                          kind: EventKind)
    requires events == init + [last]
    ensures |KindPlaces(events, task, kind)| ==
            |KindPlaces(init, task, kind)| + if last.taskId == Some(task) && last.kind == kind then 1 else 0
  {
    var fewer, n, counts := KindPlaces(init, task, kind), |init|, last.taskId == Some(task) && last.kind == kind;
    forall i: nat ensures i in KindPlaces(events, task, kind) <==> i in fewer || (i == n && counts) {
      if i < n { assert events[i] == init[i]; }
    }
    assert KindPlaces(events, task, kind) == if counts then fewer + {n} else fewer;
  }

  ghost predicate Counts(c: Counter, counter: FlightEvent -> Option<int>) {
    forall e: FlightEvent :: OfEvent(e, c) == counter(e)
  }

  lemma CounterOfSnoc(init: seq<FlightEvent>, last: FlightEvent, task: Guid, counter: FlightEvent -> Option<int>)
    ensures Total(CounterOf(init + [last], task, counter)) ==
            Combine(Total(CounterOf(init, task, counter)), if last.taskId == Some(task) then counter(last) else None)
  {
    var x := if last.taskId == Some(task) then counter(last) else None;
    assert CounterOf(init + [last], task, counter) == CounterOf(init, task, counter) + [x];
    TotalOfConcat(CounterOf(init, task, counter), [x]);
    assert [x][1..] == [];
  }

  lemma {:induction false} TotalIs(events: seq<FlightEvent>, task: Guid, c: Counter,
                                   counter: FlightEvent -> Option<int>)
    requires Counts(c, counter)
    ensures EventTotal(EventsOf(events, task), c) == Total(CounterOf(events, task, counter))
  {
    if events != [] {
      var init, last := events[..|events| - 1], events[|events| - 1];
      TotalIs(init, task, c, counter);
      assert events == init + [last];
      EventsOfSnoc(init, last, task);
      CounterOfSnoc(init, last, task, counter);
      if last.taskId == Some(task) { EventTotalOfSnoc(EventsOf(init, task), last, c); }
    } else {
      assert CounterOf(events, task, counter) == [];
      assert Counters([], (e: FlightEvent) => OfEvent(e, c)) == [];
    }
  }

  lemma CountersAreCounted()
    ensures Counts(Input, InputOf) && Counts(Output, OutputOf) && Counts(ReportedCredits, ReportedOf)
    ensures Counts(EstimatedCredits, EstimatedOf)
  {
  }

  lemma DurationOfSnoc(events: seq<FlightEvent>, last: FlightEvent)
    ensures Duration(events + [last]) == Duration(events) + last.endedAt.GetOr(last.startedAt).utc - last.startedAt.utc
  {
    assert (events + [last])[..|events|] == events;
  }

  lemma {:induction false} DurationIs(events: seq<FlightEvent>, task: Guid)
    ensures Duration(EventsOf(events, task)) == Total(CounterOf(events, task, Elapsed)).GetOr(0)
  {
    if events != [] {
      var init, last := events[..|events| - 1], events[|events| - 1];
      DurationIs(init, task);
      assert events == init + [last];
      EventsOfSnoc(init, last, task);
      CounterOfSnoc(init, last, task, Elapsed);
      if last.taskId == Some(task) { DurationOfSnoc(EventsOf(init, task), last); }
    } else {
      assert CounterOf(events, task, Elapsed) == [];
    }
  }

  // ----- Names, parents and activity -----

  lemma StartOfSnoc(events: seq<FlightEvent>, last: FlightEvent)
    ensures StartOf(events + [last]) ==
            if StartOf(events).Some? then StartOf(events)
            else if Lifecycle(last) == Some("start") then Some(last) else None
    decreases |events|
  {
    if events == [] {
      assert [] + [last] == [last] && [last][1..] == [];
    } else {
      assert (events + [last])[1..] == events[1..] + [last];
      StartOfSnoc(events[1..], last);
    }
  }

  ghost predicate NeverStarts(events: seq<FlightEvent>, task: Guid) {
    forall k | 0 <= k < |events| :: !StartsTask(events[k], task)
  }

  lemma {:induction false} StartIs(events: seq<FlightEvent>, task: Guid) returns (i: nat)
    ensures StartOf(EventsOf(events, task)).Some? ==>
              IsFirstStart(events, task, i) && events[i] == StartOf(EventsOf(events, task)).value
    ensures StartOf(EventsOf(events, task)).None? ==> NeverStarts(events, task)
  {
    i := 0;
    if events != [] {
      var init, last := events[..|events| - 1], events[|events| - 1];
      assert events == init + [last];
      i := StartIs(init, task);
      EventsOfSnoc(init, last, task);
      if last.taskId == Some(task) { StartOfSnoc(EventsOf(init, task), last); }
      if StartOf(EventsOf(init, task)).None? {
        i := |init|;
        assert forall k | 0 <= k < |init| :: init[k] == events[k];
      }
    }
  }

  lemma OneFirstStart(events: seq<FlightEvent>, task: Guid, i: int, k: int)
    requires IsFirstStart(events, task, i) && IsFirstStart(events, task, k)
    ensures i == k
  {
  }

  lemma {:induction false} NameIs(events: seq<FlightEvent>, task: Guid)
    ensures var i := FirstMention(events, task);
            && (task in Names(events) <==> i < |events|)
            && (i < |events| ==> Names(events)[task] == events[i].name)
  {
    if events != [] {
      NameIs(events[..|events| - 1], task);
    }
  }

  // The first start of a task gives its name and source.
  lemma StartNames(events: seq<FlightEvent>, task: Guid, item: TaskUsageItem, k: int)
    requires item == Item(ToolReplay(events), task, EventsOf(events, task)) && IsFirstStart(events, task, k)
    ensures item.name == events[k].name && SaysSource(events[k], item.source)
  {
    var i := StartIs(events, task);
    assert StartsTask(events[k], task);
    OneFirstStart(events, task, i, k);
  }

  // A task that is never started has its name from its first mention.
  lemma MentionNames(events: seq<FlightEvent>, task: Guid, item: TaskUsageItem)
    requires item == Item(ToolReplay(events), task, EventsOf(events, task)) && FirstMention(events, task) < |events|
    requires forall k :: !IsFirstStart(events, task, k)
    ensures item.name == events[FirstMention(events, task)].name && item.source == "inferred"
  {
    NameIs(events, task);
    var i := StartIs(events, task);
    assert !IsFirstStart(events, task, i);
  }

  lemma TotalsAre(events: seq<FlightEvent>, task: Guid, item: TaskUsageItem)
    requires item == Item(ToolReplay(events), task, EventsOf(events, task))
    ensures item.inputTokens == Total(CounterOf(events, task, InputOf))
    ensures item.outputTokens == Total(CounterOf(events, task, OutputOf))
    ensures item.reportedAiCredits == Total(CounterOf(events, task, ReportedOf))
    ensures item.estimatedAiCredits == Total(CounterOf(events, task, EstimatedOf))
    ensures item.duration == Total(CounterOf(events, task, Elapsed)).GetOr(0)
  {
    CountersAreCounted();
    TotalIs(events, task, Input, InputOf);
    TotalIs(events, task, Output, OutputOf);
    TotalIs(events, task, ReportedCredits, ReportedOf);
    TotalIs(events, task, EstimatedCredits, EstimatedOf);
    DurationIs(events, task);
  }

  lemma FirstMentionIsFirst(events: seq<FlightEvent>, task: Guid)
    requires task in Tasks(events)
    ensures FirstMention(events, task) < |events| && IsFirstOf(events, task, FirstMention(events, task))
  {
    GroupsAreByTask(events, task);
    var i :| 0 <= i < |events| && events[i].taskId == Some(task);
  }

  lemma ItemIs(events: seq<FlightEvent>, task: Guid, item: TaskUsageItem)
    requires task in Tasks(events) && item == Item(ToolReplay(events), task, EventsOf(events, task))
    ensures item.taskId == task && IsItem(events, item)
  {
    FirstMentionIsFirst(events, task);
    ParentsComeFromFirstMention(events, task);
    if forall k :: !IsFirstStart(events, task, k) { MentionNames(events, task, item); }
    forall k | IsFirstStart(events, task, k) ensures item.name == events[k].name && SaysSource(events[k], item.source) {
      StartNames(events, task, item, k);
    }
    TotalsAre(events, task, item);
    CountsAre(events, task, ModelCall);
    CountsAre(events, task, ToolCall);
    StackIsExactlyTheActiveTasks(events, task);
  }

  ghost predicate IsMentioned(events: seq<FlightEvent>, task: Guid) {
    exists i :: IsOf(events, task, i)
  }

  ghost predicate IsShown(items: seq<TaskUsageItem>, task: Guid) {
    exists k :: 0 <= k < |items| && items[k].taskId == task
  }

  lemma TaskIsMentioned(events: seq<FlightEvent>, task: Guid)
    ensures task in Tasks(events) <==> IsMentioned(events, task)
  {
    GroupsAreByTask(events, task);
    if i :| 0 <= i < |events| && events[i].taskId == Some(task) {
      assert IsOf(events, task, i);
    }
  }

  lemma MentionedIsShown(events: seq<FlightEvent>, task: Guid)
    ensures IsMentioned(events, task) <==> IsShown(Items(events), task)
  {
    TaskIsMentioned(events, task);
    if k :| 0 <= k < |Tasks(events)| && Tasks(events)[k] == task {
      assert Items(events)[k].taskId == task;
    }
    if k :| 0 <= k < |Items(events)| && Items(events)[k].taskId == task {
      assert Tasks(events)[k] == task;
    }
  }

  lemma ShownAlike(a: seq<TaskUsageItem>, b: seq<TaskUsageItem>, task: Guid)
    requires forall x :: x in a <==> x in b
    ensures IsShown(a, task) <==> IsShown(b, task)
  {
    if k :| 0 <= k < |a| && a[k].taskId == task { assert a[k] in b; }
    if k :| 0 <= k < |b| && b[k].taskId == task { assert b[k] in a; }
  }

  // What an item is ordered by: its reported credits, or else its estimated ones.
  function CreditsOf(item: TaskUsageItem): int {
    match (item.reportedAiCredits, item.estimatedAiCredits)
    case (Some(reported), _) => reported
    case (None, Some(estimated)) => estimated
    case (None, None) => 0
  }

  // The items are shown with most credits first, and by name among equals.
  lemma BreakdownIsOrdered(events: seq<FlightEvent>, i: nat, k: nat)
    requires i < k < |Ordered(Items(events))|
    ensures var a, b := Ordered(Items(events))[i], Ordered(Items(events))[k];
            CreditsOf(a) > CreditsOf(b) || (CreditsOf(a) == CreditsOf(b) && !Before(b.name, a.name))
  {
    OrderedIsInOrder(Items(events));
  }

  // The breakdown shows an item for each task that is mentioned and for no other, and each
  // item says of its task what the events do.
  lemma BreakdownIsOfTheEvents(events: seq<FlightEvent>)
    ensures forall k | 0 <= k < |Ordered(Items(events))| :: IsItem(events, Ordered(Items(events))[k])
    ensures forall task :: IsMentioned(events, task) <==> IsShown(Ordered(Items(events)), task)
  {
    var items, shown := Items(events), Ordered(Items(events));
    OrderedKeepsTotals(items, Input);
    forall k | 0 <= k < |shown| ensures IsItem(events, shown[k]) {
      assert shown[k] in items;
      var i :| 0 <= i < |items| && items[i] == shown[k];
      ItemIs(events, Tasks(events)[i], shown[k]);
    }
    forall task ensures IsMentioned(events, task) <==> IsShown(shown, task) {
      MentionedIsShown(events, task);
      ShownAlike(shown, items, task);
    }
  }
}
