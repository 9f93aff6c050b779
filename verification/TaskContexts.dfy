/**
 Task attribution: which task an event belongs to when its sender names none.
 The recorder and its MCP tools each replay the events of a run over a stack of
 active tasks; both replays are modelled and shown to agree.
 */
module TaskContexts {
  import opened Results
  import opened Totals
  import opened Trace

  const LIFECYCLE_KEY := "flightrecorder.task.lifecycle"

  function Lifecycle(e: FlightEvent): Option<string> {
    if e.attributes.Some? && LIFECYCLE_KEY in e.attributes.value then Some(e.attributes.value[LIFECYCLE_KEY]) else None
  }

  predicate SaysOfTask(e: FlightEvent, lifecycle: string) {
    && e.attributes.Some? && "flightrecorder.task.lifecycle" in e.attributes.value
    && e.attributes.value["flightrecorder.task.lifecycle"] == lifecycle
  }

  predicate StartsTask(e: FlightEvent, task: Guid) {
    e.taskId == Some(task) && SaysOfTask(e, "start")
  }

  predicate CompletesTask(e: FlightEvent, task: Guid) {
    e.taskId == Some(task) && SaysOfTask(e, "complete")
  }

  datatype TaskContext = TaskContext(stack: seq<Guid>, parents: map<Guid, Option<Guid>>) {
    function CurrentTaskId(): Option<Guid> {
      if stack == [] then None else Some(stack[|stack| - 1])
    }

    function ParentOf(task: Guid): Option<Guid> {
      if task in parents then parents[task] else None
    }
  }

  // List.LastIndexOf, with |s| for "not found".
  function LastIndexOf(s: seq<Guid>, x: Guid): (i: nat)
    ensures i <= |s|
    ensures i < |s| ==> s[i] == x
    ensures i == |s| <==> x !in s
  {
    if s == [] then 0
    else if s[|s| - 1] == x then |s| - 1
    else var i := LastIndexOf(s[..|s| - 1], x);
      if i == |s| - 1 then |s| else i
  }

  function Advance(context: TaskContext, e: FlightEvent): TaskContext {
    if e.taskId.None? then context
    else
      var task := e.taskId.value;
      var parents := if task in context.parents then context.parents else context.parents[task := e.parentTaskId];
      var index := LastIndexOf(context.stack, task);
      if Lifecycle(e) == Some("start") then
        TaskContext(if task in context.stack then context.stack else context.stack + [task], parents)
      else if Lifecycle(e) == Some("complete") && index < |context.stack| then
        TaskContext(Without(context.stack, index), parents)
      else
        TaskContext(context.stack, parents)
  }

  function ContextOf(events: seq<FlightEvent>): TaskContext {
    if events == [] then TaskContext([], map[])
    else Advance(ContextOf(events[..|events| - 1]), events[|events| - 1])
  }

  // FlightRecorderService.TaskContext
  method ReplayTasks(events: seq<FlightEvent>) returns (context: TaskContext)
    ensures context == ContextOf(events)
  {
    var parents: map<Guid, Option<Guid>> := map[];
    var stack: seq<Guid> := [];
    for n := 0 to |events|
      invariant TaskContext(stack, parents) == ContextOf(events[..n])
    {
      assert events[..n + 1][..n] == events[..n];
      var evt := events[n];
      if evt.taskId.None? { continue; }
      var task := evt.taskId.value;
      if task !in parents { parents := parents[task := evt.parentTaskId]; }
      var lifecycle := Lifecycle(evt);
      if lifecycle == Some("start") {
        if task !in stack { stack := stack + [task]; }
        continue;
      }
      if lifecycle != Some("complete") { continue; }
      var index := LastIndexOf(stack, task);
      if index < |stack| { stack := stack[..index] + stack[index + 1..]; }
    }
    assert events[..|events|] == events;
    context := TaskContext(stack, parents);
  }

  // ----- What the stack means -----

  // Task `task` has been active since event `i`: the event starts it, nothing
  // completes it later, and every earlier start was completed before `i`.
  ghost predicate ActiveSince(events: seq<FlightEvent>, task: Guid, i: int) {
    && 0 <= i < |events| && StartsTask(events[i], task)
    && (forall j | i < j < |events| :: !CompletesTask(events[j], task))
    && (forall k | 0 <= k < i && StartsTask(events[k], task) :: CompletedWithin(events, task, k, i))
  }

  ghost predicate CompletedWithin(events: seq<FlightEvent>, task: Guid, lo: nat, hi: nat)
    requires hi <= |events|
  {
    exists j | lo < j < hi :: CompletesTask(events[j], task)
  }

  lemma ActiveSinceIsUnique(events: seq<FlightEvent>, task: Guid, i: int, j: int)
    requires ActiveSince(events, task, i) && ActiveSince(events, task, j)
    ensures i == j
  {
    assert i < j ==> !CompletedWithin(events, task, i, j);
    assert j < i ==> !CompletedWithin(events, task, j, i);
  }

  // One more event keeps an activation, unless it completes the task.
  lemma ActiveSinceSurvives(events: seq<FlightEvent>, e: FlightEvent, task: Guid, i: int)
    ensures ActiveSince(events, task, i) && !CompletesTask(e, task) ==> ActiveSince(events + [e], task, i)
    ensures ActiveSince(events + [e], task, i) && i < |events| ==>
            ActiveSince(events, task, i) && !CompletesTask(e, task)
  {
    var more := events + [e];
    if ActiveSince(events, task, i) && !CompletesTask(e, task) {
      forall k | 0 <= k < i && StartsTask(more[k], task) ensures CompletedWithin(more, task, k, i) {
        assert StartsTask(events[k], task) && CompletedWithin(events, task, k, i);
        var j :| k < j < i && CompletesTask(events[j], task);
        assert CompletesTask(more[j], task);
      }
    }
    if ActiveSince(more, task, i) && i < |events| {
      assert more[|events|] == e;
      forall j | i < j < |events| ensures !CompletesTask(events[j], task) {
        assert !CompletesTask(more[j], task);
      }
      forall k | 0 <= k < i && StartsTask(events[k], task) ensures CompletedWithin(events, task, k, i) {
        assert StartsTask(more[k], task) && CompletedWithin(more, task, k, i);
        var j :| k < j < i && CompletesTask(more[j], task);
        assert CompletesTask(events[j], task);
      }
    }
  }

  // A start activates a task only if it is not active already.
  lemma ActivatedByLast(events: seq<FlightEvent>, e: FlightEvent, task: Guid)
    requires StartsTask(e, task)
    ensures ActiveSince(events + [e], task, |events|) <==> !exists i :: ActiveSince(events, task, i)
  {
    var more := events + [e];
    if i :| ActiveSince(events, task, i) {
      assert StartsTask(more[i], task);
      assert !CompletedWithin(more, task, i, |events|) by {
        assert forall j | i < j < |events| :: more[j] == events[j];
      }
    } else {
      forall k | 0 <= k < |events| && StartsTask(more[k], task) ensures CompletedWithin(more, task, k, |events|) {
        if !CompletedWithin(more, task, k, |events|) {
          forall j | k < j < |events| ensures !CompletesTask(events[j], task) {
            assert !CompletesTask(more[j], task);
          }
          var first := FirstOpenStart(events, task, k);
        }
      }
    }
  }

  // Among the starts since the last completion, the first is the activation.
  lemma {:induction false} FirstOpenStart(events: seq<FlightEvent>, task: Guid, k: nat) returns (i: nat)
    requires k < |events| && StartsTask(events[k], task)
    requires forall j | k < j < |events| :: !CompletesTask(events[j], task)
    ensures ActiveSince(events, task, i)
    decreases k
  {
    if h :| 0 <= h < k && StartsTask(events[h], task) && !CompletedWithin(events, task, h, k) {
      i := FirstOpenStart(events, task, h);
    } else {
      i := k;
    }
  }

  lemma WithoutIncreasing(s: seq<nat>, i: nat)
    requires i < |s| && Increasing(s)
    ensures Increasing(Without(s, i))
  {
    var r := Without(s, i);
    assert forall p | 0 <= p < |r| :: r[p] == s[if p < i then p else p + 1];
  }

  // The stack lists the active tasks, without duplicates, in order of activation.
  ghost predicate ListsActive(events: seq<FlightEvent>, stack: seq<Guid>, since: seq<nat>) {
    && |stack| == |since|
    && Distinct(stack)
    && (forall p | 0 <= p < |stack| :: ActiveSince(events, stack[p], since[p]))
    && Increasing(since)
    && (forall task, i :: ActiveSince(events, task, i) ==> task in stack)
  }

  lemma {:induction false} StackListsActive(events: seq<FlightEvent>) returns (since: seq<nat>)
    ensures ListsActive(events, ContextOf(events).stack, since)
  {
    if events == [] {
      since := [];
    } else {
      var before, e := events[..|events| - 1], events[|events| - 1];
      assert before + [e] == events;
      var sinceBefore := StackListsActive(before);
      var stack := ContextOf(before).stack;
      if e.taskId.Some? && Lifecycle(e) == Some("start") {
        since := PushListsActive(before, e, e.taskId.value, stack, sinceBefore);
      } else if e.taskId.Some? && Lifecycle(e) == Some("complete") && e.taskId.value in stack {
        since := PopListsActive(before, e, e.taskId.value, stack, sinceBefore);
      } else {
        KeepListsActive(before, e, stack, sinceBefore);
        since := sinceBefore;
      }
    }
  }

  lemma KeepListsActive(before: seq<FlightEvent>, e: FlightEvent, stack: seq<Guid>, since: seq<nat>)
    requires ListsActive(before, stack, since)
    requires forall task :: !StartsTask(e, task) && (CompletesTask(e, task) ==> task !in stack)
    ensures ListsActive(before + [e], stack, since)
  {
    var events := before + [e];
    forall t, i | ActiveSince(events, t, i) ensures t in stack {
      assert events[|before|] == e;
      ActiveSinceSurvives(before, e, t, i);
    }
    forall p | 0 <= p < |stack| ensures ActiveSince(events, stack[p], since[p]) {
      ActiveSinceSurvives(before, e, stack[p], since[p]);
    }
  }

  lemma PopListsActive(before: seq<FlightEvent>, e: FlightEvent, task: Guid, stack: seq<Guid>, sinceBefore: seq<nat>)
    returns (since: seq<nat>)
    requires ListsActive(before, stack, sinceBefore) && CompletesTask(e, task) && task in stack
    ensures ListsActive(before + [e], Without(stack, LastIndexOf(stack, task)), since)
  {
    var events := before + [e];
    var index := LastIndexOf(stack, task);
    WithoutDistinct(stack, index);
    var kept := Without(stack, index);
    since := Without(sinceBefore, index);
    WithoutIncreasing(sinceBefore, index);
    forall t, i | ActiveSince(events, t, i) ensures t in kept {
      assert events[|before|] == e;
      ActiveSinceSurvives(before, e, t, i);
    }
    forall p | 0 <= p < |kept| ensures ActiveSince(events, kept[p], since[p]) {
      var q := if p < index then p else p + 1;
      assert kept[p] == stack[q] && since[p] == sinceBefore[q];
      assert kept[p] in kept;
      ActiveSinceSurvives(before, e, stack[q], sinceBefore[q]);
    }
  }

  lemma PushListsActive(before: seq<FlightEvent>, e: FlightEvent, task: Guid, stack: seq<Guid>, sinceBefore: seq<nat>)
    returns (since: seq<nat>)
    requires ListsActive(before, stack, sinceBefore) && StartsTask(e, task)
    ensures ListsActive(before + [e], if task in stack then stack else stack + [task], since)
  {
    StartKeepsActivations(before, e, task, stack, sinceBefore);
    if task in stack {
      since := sinceBefore;
    } else {
      ActivatedByLast(before, e, task);
      since := sinceBefore + [|before|];
    }
  }

  lemma StartKeepsActivations(before: seq<FlightEvent>, e: FlightEvent, task: Guid, stack: seq<Guid>, since: seq<nat>)
    requires ListsActive(before, stack, since) && StartsTask(e, task)
    ensures forall p | 0 <= p < |stack| :: ActiveSince(before + [e], stack[p], since[p])
    ensures forall t, i :: ActiveSince(before + [e], t, i) ==> t in stack || t == task
  {
    forall t, i | ActiveSince(before + [e], t, i) ensures t in stack || t == task {
      if i < |before| { ActiveSinceSurvives(before, e, t, i); }
    }
    forall p | 0 <= p < |stack| ensures ActiveSince(before + [e], stack[p], since[p]) {
      ActiveSinceSurvives(before, e, stack[p], since[p]);
    }
  }

  lemma TopIsLatest(events: seq<FlightEvent>, stack: seq<Guid>, since: seq<nat>)
    requires ListsActive(events, stack, since) && stack != []
    ensures LatestActivation(events, stack[|stack| - 1], since[|stack| - 1])
    ensures forall t, j | ActiveSince(events, t, j) :: j == since[|stack| - 1] ==> t == stack[|stack| - 1]
  {
    var last := |stack| - 1;
    forall t, j | ActiveSince(events, t, j) ensures j <= since[last] && (j == since[last] ==> t == stack[last]) {
      var p :| 0 <= p < |stack| && stack[p] == t;
      ActiveSinceIsUnique(events, t, j, since[p]);
    }
  }

  // The current task is the active one that was activated last.
  lemma CurrentTaskIsLatestActivation(events: seq<FlightEvent>, task: Guid)
    ensures ContextOf(events).CurrentTaskId() == Some(task) <==> exists i :: LatestActivation(events, task, i)
  {
    var since := StackListsActive(events);
    var stack := ContextOf(events).stack;
    if stack == [] {
      assert forall i :: !ActiveSince(events, task, i);
    } else {
      var last := |stack| - 1;
      TopIsLatest(events, stack, since);
      if i :| LatestActivation(events, task, i) {
        assert ActiveSince(events, stack[last], since[last]) && ActiveSince(events, task, i);
      }
    }
  }

  // There is no current task exactly when no task is active.
  lemma NoTaskIsCurrent(events: seq<FlightEvent>)
    ensures ContextOf(events).CurrentTaskId().None? <==> forall task, i :: !ActiveSince(events, task, i)
  {
    var since := StackListsActive(events);
    var stack := ContextOf(events).stack;
    if stack != [] {
      assert ActiveSince(events, stack[0], since[0]);
    }
  }

  ghost predicate LatestActivation(events: seq<FlightEvent>, task: Guid, i: int) {
    ActiveSince(events, task, i) && forall t, j :: ActiveSince(events, t, j) ==> j <= i
  }

  // The stack holds each active task once and nothing else.
  lemma StackIsExactlyTheActiveTasks(events: seq<FlightEvent>, task: Guid)
    ensures Distinct(ContextOf(events).stack)
    ensures task in ContextOf(events).stack <==> exists i :: ActiveSince(events, task, i)
  {
    var since := StackListsActive(events);
    var stack := ContextOf(events).stack;
    if task in stack {
      var p :| 0 <= p < |stack| && stack[p] == task;
      assert ActiveSince(events, task, since[p]);
    }
  }

  // The first event that mentions a task, or |events|.
  function FirstMention(events: seq<FlightEvent>, task: Guid): (i: nat)
    ensures i <= |events|
    ensures i < |events| ==> events[i].taskId == Some(task)
    ensures forall k | 0 <= k < i :: events[k].taskId != Some(task)
  {
    if events == [] then 0
    else
      var last := |events| - 1;
      var i := FirstMention(events[..last], task);
      if i < last then i else if events[last].taskId == Some(task) then last else last + 1
  }

  // The parent of a task is the one its first event named.
  lemma {:induction false} ParentsComeFromFirstMention(events: seq<FlightEvent>, task: Guid)
    ensures var i := FirstMention(events, task);
            && (task in ContextOf(events).parents <==> i < |events|)
            && (i < |events| ==> ContextOf(events).parents[task] == events[i].parentTaskId)
  {
    if events != [] {
      ParentsComeFromFirstMention(events[..|events| - 1], task);
      ParentsOneMore(events);
    }
  }

  lemma ParentsOneMore(events: seq<FlightEvent>)
    requires events != []
    ensures var e, parents := events[|events| - 1], ContextOf(events[..|events| - 1]).parents;
            ContextOf(events).parents ==
            if e.taskId.Some? && e.taskId.value !in parents then parents[e.taskId.value := e.parentTaskId] else parents
  {
    AdvanceKeepsFirstParents(ContextOf(events[..|events| - 1]), events[|events| - 1]);
  }

  lemma AdvanceKeepsFirstParents(context: TaskContext, e: FlightEvent)
    ensures Advance(context, e).parents ==
            if e.taskId.Some? && e.taskId.value !in context.parents
                then context.parents[e.taskId.value := e.parentTaskId]
            else context.parents
  {
  }

  // ----- The same replay in the MCP tools -----

  datatype ToolContext = ToolContext(stack: seq<Guid>, parents: map<Guid, Option<Guid>>, names: map<Guid, string>)

  function WithTask(events: seq<FlightEvent>): seq<FlightEvent> {
    if events == [] then []
    else WithTask(events[..|events| - 1]) + if events[|events| - 1].taskId.Some? then [events[|events| - 1]] else []
  }

  // The name a task is shown under: that of the first event that mentions it.
  function Names(events: seq<FlightEvent>): map<Guid, string> {
    if events == [] then map[]
    else
      var e := events[|events| - 1];
      var names := Names(events[..|events| - 1]);
      if e.taskId.Some? && e.taskId.value !in names then names[e.taskId.value := e.name] else names
  }

  lemma {:induction false} AttributedEventsSuffice(events: seq<FlightEvent>)
    ensures ContextOf(WithTask(events)) == ContextOf(events)
    ensures Names(WithTask(events)) == Names(events)
    ensures forall e | e in WithTask(events) :: e.taskId.Some?
  {
    if events != [] {
      AttributedEventsSuffice(events[..|events| - 1]);
      var e := events[|events| - 1];
      var kept := WithTask(events[..|events| - 1]);
      if e.taskId.Some? {
        assert WithTask(events) == kept + [e];
        ReplayOneMore(kept, e);
      } else {
        assert WithTask(events) == kept;
      }
    }
  }

  lemma ReplayOneMore(events: seq<FlightEvent>, e: FlightEvent)
    ensures ContextOf(events + [e]) == Advance(ContextOf(events), e)
    ensures Names(events + [e]) ==
            if e.taskId.Some? && e.taskId.value !in Names(events) then Names(events)[e.taskId.value := e.name]
            else Names(events)
  {
    assert (events + [e])[..|events|] == events;
  }

  function ToolReplay(events: seq<FlightEvent>): ToolContext {
    ToolContext(ContextOf(events).stack, ContextOf(events).parents, Names(events))
  }

  function ToolAdvance(context: ToolContext, e: FlightEvent): ToolContext
    requires e.taskId.Some?
  {
    var next := Advance(TaskContext(context.stack, context.parents), e);
    ToolContext(next.stack, next.parents, if e.taskId.value in context.names then context.names
        else context.names[e.taskId.value := e.name])
  }

  lemma ToolReplayOneMore(events: seq<FlightEvent>, e: FlightEvent, more: seq<FlightEvent>)
    requires more == events + [e] && e.taskId.Some?
    ensures ToolReplay(more) == ToolAdvance(ToolReplay(events), e)
  {
    ReplayOneMore(events, e);
  }

  // One pass of the loop in BuildTaskContext.
  method TakeIn(evt: FlightEvent, stack: seq<Guid>, parents: map<Guid, Option<Guid>>, names: map<Guid, string>)
    returns (stack': seq<Guid>, parents': map<Guid, Option<Guid>>, names': map<Guid, string>)
    requires evt.taskId.Some?
    ensures ToolContext(stack', parents', names') == ToolAdvance(ToolContext(stack, parents, names), evt)
  {
    stack', parents', names' := stack, parents, names;
    var task := evt.taskId.value;
    if task !in parents { parents' := parents[task := evt.parentTaskId]; }
    if task !in names { names' := names[task := evt.name]; }
    var lifecycle := Lifecycle(evt);
    if lifecycle == Some("start") {
      if task !in stack { stack' := stack + [task]; }
      return;
    }
    if lifecycle != Some("complete") { return; }
    var index := LastIndexOf(stack, task);
    if index < |stack| { stack' := stack[..index] + stack[index + 1..]; }
  }

  method ReplayAttributed(attributed: seq<FlightEvent>) returns (context: ToolContext)
    requires forall e | e in attributed :: e.taskId.Some?
    ensures context == ToolReplay(attributed)
  {
    var stack: seq<Guid> := [];
    var parents: map<Guid, Option<Guid>> := map[];
    var names: map<Guid, string> := map[];
    for n := 0 to |attributed|
      invariant ToolContext(stack, parents, names) == ToolReplay(attributed[..n])
    {
      assert attributed[n] in attributed;
      assert attributed[..n + 1] == attributed[..n] + [attributed[n]];
      ToolReplayOneMore(attributed[..n], attributed[n], attributed[..n + 1]);
      stack, parents, names := TakeIn(attributed[n], stack, parents, names);
    }
    assert attributed[..|attributed|] == attributed;
    context := ToolContext(stack, parents, names);
  }

  // FlightRecorderMcpTools.BuildTaskContext
  method BuildTaskContext(events: seq<FlightEvent>) returns (context: ToolContext)
    ensures context == ToolReplay(events)
  {
    AttributedEventsSuffice(events);
    context := ReplayAttributed(WithTask(events));
  }

  // Events outside every task leave the context alone, wherever they stand and
  // whatever else they hold.
  ghost predicate SameAttribution(a: FlightEvent, b: FlightEvent) {
    a.taskId == b.taskId && a.parentTaskId == b.parentTaskId && Lifecycle(a) == Lifecycle(b)
  }

  lemma {:induction false} ContextDependsOnAttribution(a: seq<FlightEvent>, b: seq<FlightEvent>)
    requires |a| <= |b|
    requires forall i | 0 <= i < |a| :: SameAttribution(a[i], b[i])
    requires forall i | |a| <= i < |b| :: b[i].taskId.None?
    ensures ContextOf(a) == ContextOf(b)
    decreases |b|
  {
    if |a| < |b| {
      ContextDependsOnAttribution(a, b[..|b| - 1]);
      UnattributedAdvances(ContextOf(a), b[|b| - 1]);
    } else if a != [] {
      ContextDependsOnAttribution(a[..|a| - 1], b[..|b| - 1]);
      SameAdvance(ContextOf(a[..|a| - 1]), a[|a| - 1], b[|b| - 1]);
    }
  }

  lemma UnattributedAdvances(context: TaskContext, e: FlightEvent)
    requires e.taskId.None?
    ensures Advance(context, e) == context
  {
  }

  lemma SameAdvance(context: TaskContext, a: FlightEvent, b: FlightEvent)
    requires SameAttribution(a, b)
    ensures Advance(context, a) == Advance(context, b)
  {
  }
}
