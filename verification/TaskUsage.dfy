/** Usage by task (FlightRecorderMcpTools.ShowTaskUsage): groups that partition the attributed events. */
module TaskUsage {
  import opened Results
  import opened Text
  import opened Totals
  import opened Trace
  import opened TaskContexts

  const SOURCE_KEY := "flightrecorder.task.source"

  datatype TaskUsageItem = TaskUsageItem(
    taskId: Guid,
    parentTaskId: Option<Guid>,
    name: string,
    source: string,
    isActive: bool,
    modelCalls: nat,
    toolCalls: nat,
    inputTokens: Option<int>,
    outputTokens: Option<int>,
    reportedAiCredits: Option<int>,
    estimatedAiCredits: Option<int>,
    duration: int,
    eventCount: nat)

  // The totals a breakdown shows of each task.
  type Shown = c: Counter | c.Input? || c.Output? || c.ReportedCredits? || c.EstimatedCredits? witness Input

  function OfItem(item: TaskUsageItem, c: Shown): Option<int> {
    match c
    case Input => item.inputTokens
    case Output => item.outputTokens
    case ReportedCredits => item.reportedAiCredits
    case EstimatedCredits => item.estimatedAiCredits
  }

  // ----- Groups -----

  // The tasks that are mentioned, in order of first mention.
  function Tasks(events: seq<FlightEvent>): seq<Guid> {
    if events == [] then []
    else
      var earlier, task := Tasks(events[..|events| - 1]), events[|events| - 1].taskId;
      if task.None? || task.value in earlier then earlier else earlier + [task.value]
  }

  // GroupBy: the events of one task, in order.
  function EventsOf(events: seq<FlightEvent>, task: Guid): seq<FlightEvent> {
    if events == [] then []
    else
      var last := events[|events| - 1];
      EventsOf(events[..|events| - 1], task) + if last.taskId == Some(task) then [last] else []
  }

  function CountKind(events: seq<FlightEvent>, kind: EventKind): nat {
    if events == [] then 0
    else CountKind(events[..|events| - 1], kind) + if events[|events| - 1].kind == kind then 1 else 0
  }

  function Duration(events: seq<FlightEvent>): int {
    if events == [] then 0
    else
      var last := events[|events| - 1];
      Duration(events[..|events| - 1]) + last.endedAt.GetOr(last.startedAt).utc - last.startedAt.utc
  }

  // The first event that starts the task, if any does.
  function StartOf(events: seq<FlightEvent>): Option<FlightEvent> {
    if events == [] then None
    else if Lifecycle(events[0]) == Some("start") then Some(events[0]) else StartOf(events[1..])
  }

  function SourceOf(start: Option<FlightEvent>): string {
    if start.Some? && start.value.attributes.Some? && SOURCE_KEY in start.value.attributes.value
    then start.value.attributes.value[SOURCE_KEY] else "inferred"
  }

  function Item(context: ToolContext, task: Guid, events: seq<FlightEvent>): TaskUsageItem {
    var start := StartOf(events);
    TaskUsageItem(task, if task in context.parents then context.parents[task] else None,
                  if start.Some? then start.value.name else if task in context.names then context.names[task] else "",
                  SourceOf(start), task in context.stack, CountKind(events, ModelCall), CountKind(events, ToolCall),
                  EventTotal(events, Input), EventTotal(events, Output), EventTotal(events, ReportedCredits),
                      EventTotal(events, EstimatedCredits),
                  Duration(events), |events|)
  }

  function Items(events: seq<FlightEvent>): (r: seq<TaskUsageItem>)
    ensures |r| == |Tasks(events)|
    ensures forall i | 0 <= i < |r| ::
            r[i] == Item(ToolReplay(events), Tasks(events)[i], EventsOf(events, Tasks(events)[i]))
  {
    seq(|Tasks(events)|, i requires 0 <= i < |Tasks(events)| =>
        Item(ToolReplay(events), Tasks(events)[i], EventsOf(events, Tasks(events)[i])))
  }

  // ----- The order items are shown in -----

  function Credits(item: TaskUsageItem): int {
    item.reportedAiCredits.OrElse(item.estimatedAiCredits).GetOr(0)
  }

  predicate ShownBefore(a: TaskUsageItem, b: TaskUsageItem) {
    Credits(a) > Credits(b) || (Credits(a) == Credits(b) && Before(a.name, b.name))
  }

  // OrderByDescending and ThenBy, a stable sort.
  function Insert(item: TaskUsageItem, sorted: seq<TaskUsageItem>): (r: seq<TaskUsageItem>)
    ensures |r| == |sorted| + 1
  {
    if sorted == [] then [item]
    else if ShownBefore(item, sorted[0]) then [item] + sorted
    else [sorted[0]] + Insert(item, sorted[1..])
  }

  function Ordered(items: seq<TaskUsageItem>): (r: seq<TaskUsageItem>)
    ensures |r| == |items|
  {
    if items == [] then [] else Insert(items[|items| - 1], Ordered(items[..|items| - 1]))
  }

  ghost predicate InOrder(items: seq<TaskUsageItem>) {
    forall i, j | 0 <= i < j < |items| :: !ShownBefore(items[j], items[i])
  }

  lemma ShownBeforeIsOrder(a: TaskUsageItem, b: TaskUsageItem, c: TaskUsageItem)
    ensures !(ShownBefore(a, b) && ShownBefore(b, a))
    ensures ShownBefore(a, b) && ShownBefore(b, c) ==> ShownBefore(a, c)
  {
    BeforeIsTotal(a.name, b.name);
    if Before(a.name, b.name) && Before(b.name, c.name) { BeforeIsTransitive(a.name, b.name, c.name); }
  }

  lemma {:induction false} InsertKeepsOrder(item: TaskUsageItem, sorted: seq<TaskUsageItem>)
    requires InOrder(sorted)
    ensures InOrder(Insert(item, sorted))
    ensures forall x :: x in Insert(item, sorted) <==> x == item || x in sorted
  {
    var r := Insert(item, sorted);
    if sorted != [] {
      if ShownBefore(item, sorted[0]) {
        forall j | 0 <= j < |sorted| ensures !ShownBefore(sorted[j], item) {
          ShownBeforeIsOrder(sorted[j], item, sorted[0]);
          ShownBeforeIsOrder(item, sorted[0], sorted[0]);
        }
      } else {
        InsertKeepsOrder(item, sorted[1..]);
        var rest := Insert(item, sorted[1..]);
        assert sorted == [sorted[0]] + sorted[1..];
        forall j | 0 <= j < |rest| ensures !ShownBefore(rest[j], sorted[0]) {
          assert rest[j] in rest;
        }
      }
    }
  }

  // Most credits first, and by name among equals.
  lemma {:induction false} OrderedIsInOrder(items: seq<TaskUsageItem>)
    ensures InOrder(Ordered(items))
  {
    if items != [] {
      OrderedIsInOrder(items[..|items| - 1]);
      InsertKeepsOrder(items[|items| - 1], Ordered(items[..|items| - 1]));
    }
  }

  lemma OrderedOfPrefix(items: seq<TaskUsageItem>, n: nat)
    requires n < |items|
    ensures Ordered(items[..n + 1]) == Insert(items[n], Ordered(items[..n]))
  {
    assert items[..n + 1][..n] == items[..n];
  }

  method ShowTaskUsage(events: seq<FlightEvent>) returns (items: seq<TaskUsageItem>)
    ensures items == Ordered(Items(events)) && InOrder(items)
  {
    ghost var whole := Items(events);
    OrderedIsInOrder(whole);
    var context := BuildTaskContext(events);
    var tasks := Tasks(events);
    items := [];
    for n := 0 to |tasks|
      invariant items == Ordered(whole[..n])
    {
      OrderedOfPrefix(whole, n);
      items := Insert(Item(context, tasks[n], EventsOf(events, tasks[n])), items);
    }
    assert whole[..|tasks|] == whole;
  }

  // ----- The groups partition the attributed events -----

  // An attributed event is in the group of its task and in no other, and every group
  // holds events of its task only.
  lemma {:induction false} GroupsAreByTask(events: seq<FlightEvent>, task: Guid)
    ensures forall e :: e in EventsOf(events, task) <==> e in events && e.taskId == Some(task)
    ensures Distinct(Tasks(events))
    ensures task in Tasks(events) <==> exists i | 0 <= i < |events| :: events[i].taskId == Some(task)
  {
    if events != [] {
      var init, last := events[..|events| - 1], events[|events| - 1];
      GroupsAreByTask(init, task);
      assert events == init + [last];
      if exists i | 0 <= i < |init| :: init[i].taskId == Some(task) {
        var i :| 0 <= i < |init| && init[i].taskId == Some(task);
        assert events[i].taskId == Some(task);
      }
      if last.taskId == Some(task) { assert events[|init|].taskId == Some(task); }
    }
  }

  // The counts and totals of the groups, in order of first mention.
  function GroupTotals(events: seq<FlightEvent>, tasks: seq<Guid>, c: Counter): (r: seq<Option<int>>)
    ensures |r| == |tasks| && forall i | 0 <= i < |r| :: r[i] == EventTotal(EventsOf(events, tasks[i]), c)
  {
    seq(|tasks|, i requires 0 <= i < |tasks| => EventTotal(EventsOf(events, tasks[i]), c))
  }

  lemma TotalWithOneMore(values: seq<Option<int>>, i: nat, x: Option<int>)
    requires i < |values|
    ensures Total(values[i := Combine(values[i], x)]) == Combine(Total(values), x)
  {
    var a, b := values[..i], values[i + 1..];
    assert values == a + [values[i]] + b && values[i := Combine(values[i], x)] == a + [Combine(values[i], x)] + b;
    TotalOfMiddle(a, values[i], b);
    TotalOfMiddle(a, Combine(values[i], x), b);
  }

  lemma OtherGroups(init: seq<FlightEvent>, last: FlightEvent, tasks: seq<Guid>, c: Counter)
    requires last.taskId.None? || last.taskId.value !in tasks
    ensures GroupTotals(init + [last], tasks, c) == GroupTotals(init, tasks, c)
  {
    forall i | 0 <= i < |tasks| ensures EventsOf(init + [last], tasks[i]) == EventsOf(init, tasks[i]) {
      EventsOfSnoc(init, last, tasks[i]);
    }
  }

  lemma {:induction false} NoMention(events: seq<FlightEvent>, task: Guid)
    requires task !in Tasks(events)
    ensures EventsOf(events, task) == []
  {
    if events != [] {
      var earlier := Tasks(events[..|events| - 1]);
      assert forall t | t in earlier :: t in Tasks(events);
      assert events[|events| - 1].taskId == Some(task) ==> task in Tasks(events);
      NoMention(events[..|events| - 1], task);
    }
  }

  lemma EventsOfSnoc(init: seq<FlightEvent>, last: FlightEvent, task: Guid)
    ensures EventsOf(init + [last], task) == if last.taskId == Some(task) then EventsOf(init, task) + [last]
            else EventsOf(init, task)
  {
    assert (init + [last])[..|init|] == init;
    assert EventsOf(init, task) + [] == EventsOf(init, task);
  }

  // The group of a task that has been mentioned grows by the event.
  lemma KnownGroupGrows(init: seq<FlightEvent>, last: FlightEvent, events: seq<FlightEvent>, tasks: seq<Guid>, k: nat,
                        c: Counter)
    requires events == init + [last] && Distinct(tasks) && k < |tasks| && last.taskId == Some(tasks[k])
    ensures Total(GroupTotals(events, tasks, c)) == Combine(Total(GroupTotals(init, tasks, c)), OfEvent(last, c))
  {
    var before, after := GroupTotals(init, tasks, c), GroupTotals(events, tasks, c);
    forall i | 0 <= i < |tasks| ensures after[i] == before[k := Combine(before[k], OfEvent(last, c))][i] {
      EventsOfSnoc(init, last, tasks[i]);
      if i == k { EventTotalOfSnoc(EventsOf(init, tasks[k]), last, c); } else { assert tasks[i] != tasks[k]; }
    }
    assert after == before[k := Combine(before[k], OfEvent(last, c))];
    TotalWithOneMore(before, k, OfEvent(last, c));
  }

  // A task that had not been mentioned gets a group of its own.
  lemma NewGroupIsAdded(init: seq<FlightEvent>, last: FlightEvent, events: seq<FlightEvent>, tasks: seq<Guid>,
                        task: Guid, c: Counter)
    requires events == init + [last] && last.taskId == Some(task) && task !in tasks && EventsOf(init, task) == []
    ensures Total(GroupTotals(events, tasks + [task], c)) ==
            Combine(Total(GroupTotals(init, tasks, c)), OfEvent(last, c))
  {
    OtherGroups(init, last, tasks, c);
    EventsOfSnoc(init, last, task);
    EventTotalOfSnoc([], last, c);
    assert EventTotal([], c) == None && [] + [last] == [last];
    assert GroupTotals(events, tasks + [task], c) == GroupTotals(init, tasks, c) + [OfEvent(last, c)];
    TotalOfConcat(GroupTotals(init, tasks, c), [OfEvent(last, c)]);
    assert [OfEvent(last, c)][1..] == [];
  }

  lemma TasksOfSnoc(init: seq<FlightEvent>, last: FlightEvent)
    ensures Tasks(init + [last]) ==
            if last.taskId.None? || last.taskId.value in Tasks(init) then Tasks(init)
            else Tasks(init) + [last.taskId.value]
  {
    assert (init + [last])[..|init|] == init;
  }

  // One more event: its own group grows by it, or a group is added for it.
  lemma GroupTotalsOneMore(init: seq<FlightEvent>, last: FlightEvent, c: Counter)
    requires last.taskId.Some?
    ensures Total(GroupTotals(init + [last], Tasks(init + [last]), c)) ==
            Combine(Total(GroupTotals(init, Tasks(init), c)), OfEvent(last, c))
  {
    var task, tasks := last.taskId.value, Tasks(init);
    GroupsAreByTask(init, task);
    TasksOfSnoc(init, last);
    if task in tasks {
      var k :| 0 <= k < |tasks| && tasks[k] == task;
      KnownGroupGrows(init, last, init + [last], tasks, k, c);
    } else {
      NoMention(init, task);
      NewGroupIsAdded(init, last, init + [last], tasks, task, c);
    }
  }

  // The totals of the groups come to the total of the attributed events: nothing is
  // counted twice and nothing is lost.
  lemma {:induction false} GroupsConserve(events: seq<FlightEvent>, c: Counter)
    ensures Total(GroupTotals(events, Tasks(events), c)) == EventTotal(WithTask(events), c)
  {
    if events != [] {
      var init, last := events[..|events| - 1], events[|events| - 1];
      GroupsConserve(init, c);
      assert events == init + [last];
      if last.taskId.Some? {
        GroupTotalsOneMore(init, last, c);
        EventTotalOfSnoc(WithTask(init), last, c);
      } else {
        OtherGroups(init, last, Tasks(init), c);
        assert WithTask(init) + [] == WithTask(init);
      }
    }
  }

  // ----- What is shown -----

  function ItemTotals(items: seq<TaskUsageItem>, c: Shown): (r: seq<Option<int>>)
    ensures |r| == |items| && forall i | 0 <= i < |r| :: r[i] == OfItem(items[i], c)
  {
    seq(|items|, i requires 0 <= i < |items| => OfItem(items[i], c))
  }

  lemma ItemTotalsOfConcat(a: seq<TaskUsageItem>, b: seq<TaskUsageItem>, c: Shown)
    ensures Total(ItemTotals(a + b, c)) == Combine(Total(ItemTotals(a, c)), Total(ItemTotals(b, c)))
  {
    assert ItemTotals(a + b, c) == ItemTotals(a, c) + ItemTotals(b, c);
    TotalOfConcat(ItemTotals(a, c), ItemTotals(b, c));
  }

  lemma PlacedAfter(item: TaskUsageItem, first: TaskUsageItem, rest: seq<TaskUsageItem>, placed: seq<TaskUsageItem>,
                    c: Shown)
    requires Total(ItemTotals(placed, c)) == Combine(Total(ItemTotals([item], c)), Total(ItemTotals(rest, c)))
    ensures Total(ItemTotals([first] + placed, c)) ==
            Combine(Total(ItemTotals([item], c)), Total(ItemTotals([first] + rest, c)))
  {
    ItemTotalsOfConcat([first], placed, c);
    ItemTotalsOfConcat([first], rest, c);
    CombineReorders(Total(ItemTotals([first], c)), Total(ItemTotals([item], c)), Total(ItemTotals(rest, c)));
  }

  lemma {:induction false} InsertKeepsTotals(item: TaskUsageItem, sorted: seq<TaskUsageItem>, c: Shown)
    ensures Total(ItemTotals(Insert(item, sorted), c)) ==
            Combine(Total(ItemTotals([item], c)), Total(ItemTotals(sorted, c)))
    ensures forall x :: x in Insert(item, sorted) <==> x == item || x in sorted
  {
    if sorted == [] {
      assert Insert(item, sorted) == [item];
    } else if ShownBefore(item, sorted[0]) {
      ItemTotalsOfConcat([item], sorted, c);
    } else {
      InsertKeepsTotals(item, sorted[1..], c);
      PlacedAfter(item, sorted[0], sorted[1..], Insert(item, sorted[1..]), c);
      assert sorted == [sorted[0]] + sorted[1..];
    }
  }

  lemma OrderedOneMore(init: seq<TaskUsageItem>, last: TaskUsageItem, sorted: seq<TaskUsageItem>,
                       items: seq<TaskUsageItem>, ordered: seq<TaskUsageItem>, c: Shown)
    requires items == init + [last] && ordered == Insert(last, sorted)
    requires Total(ItemTotals(sorted, c)) == Total(ItemTotals(init, c)) && forall x :: x in sorted <==> x in init
    ensures Total(ItemTotals(ordered, c)) == Total(ItemTotals(items, c)) && forall x :: x in ordered <==> x in items
  {
    InsertKeepsTotals(last, sorted, c);
    ItemTotalsOfConcat(init, [last], c);
    CombineReorders(Total(ItemTotals(init, c)), Total(ItemTotals([last], c)), None);
  }

  lemma {:induction false} OrderedKeepsTotals(items: seq<TaskUsageItem>, c: Shown)
    ensures Total(ItemTotals(Ordered(items), c)) == Total(ItemTotals(items, c))
    ensures forall x :: x in Ordered(items) <==> x in items
  {
    if items != [] {
      var init, last := items[..|items| - 1], items[|items| - 1];
      OrderedKeepsTotals(init, c);
      OrderedOneMore(init, last, Ordered(init), items, Ordered(items), c);
    }
  }

  // The breakdown shows one item a task, and its totals come to those of the attributed
  // events, in whatever order the items are shown.
  lemma BreakdownConserves(events: seq<FlightEvent>, c: Shown)
    ensures |Ordered(Items(events))| == |Tasks(events)|
    ensures forall item | item in Ordered(Items(events)) ::
              item.taskId in Tasks(events) && OfItem(item, c) == EventTotal(EventsOf(events, item.taskId), c)
    ensures Total(ItemTotals(Ordered(Items(events)), c)) == EventTotal(WithTask(events), c)
  {
    OrderedKeepsTotals(Items(events), c);
    GroupsConserve(events, c);
    assert ItemTotals(Items(events), c) == GroupTotals(events, Tasks(events), c);
  }
}
