/**
 The SDK adapter's delivery queue (integrations/copilot-sdk/usage.mjs, attachCopilotUsage):
 handlers run to completion one at a time, in any order; each accepted event is sent once,
 after the one before it has settled.
 */
module SdkCapture {
  import opened Results

  // What the handler sees of an SDK event: its lower-case id unless it is no UUID, the key
  // of the API call when it names one, and the payload unless building it fails.
  datatype UsageEvent = UsageEvent(isUsage: bool, id: Option<string>, call: Option<string>, payload: Option<string>)

  datatype Phase = Idle | Sending | Answered

  datatype Capture = Capture(
    active: bool,
    subscribed: bool,
    seenEvents: set<string>,
    seenCalls: set<string>,
    pending: nat,
    failures: nat,
    observers: nat,               // onError calls that have not settled
    accepted: seq<UsageEvent>,    // the promise chain: one link for each accepted event
    started: nat,                 // links whose request has been made
    settled: nat,                 // links that are done
    phase: Phase,                 // how far the link after the settled ones is
    acknowledged: set<nat>)       // links the recorder acknowledged

  datatype Limits = Limits(maxPending: nat, maxEvents: nat)

  const ATTACHED := Capture(true, true, {}, {}, 0, 0, 0, [], 0, 0, Idle, {})

  function Notify(c: Capture): Capture {
    c.(failures := c.failures + 1, observers := c.observers + 1)
  }

  // Unsubscribing happens once; it may fail.
  function Stop(c: Capture, offFails: bool): Capture {
    var stopped := c.(active := false, subscribed := false);
    if c.subscribed && offFails then Notify(stopped) else stopped
  }

  function Fail(c: Capture, offFails: bool): Capture {
    Stop(Notify(c), offFails)
  }

  predicate IsRepeat(c: Capture, e: UsageEvent)
    requires e.id.Some?
  {
    e.id.value in c.seenEvents || (e.call.Some? && e.call.value in c.seenCalls)
  }

  predicate HasRoom(limits: Limits, c: Capture) {
    c.pending < limits.maxPending && |c.seenEvents| < limits.maxEvents
  }

  predicate Accepts(limits: Limits, c: Capture, e: UsageEvent) {
    c.active && e.isUsage && e.id.Some? && !IsRepeat(c, e) && HasRoom(limits, c) && e.payload.Some?
  }

  // The event is remembered and joins the chain.
  function Queued(c: Capture, e: UsageEvent): Capture
    requires e.id.Some?
  {
    c.(seenEvents := c.seenEvents + {e.id.value},
       seenCalls := c.seenCalls + (if e.call.Some? then {e.call.value} else {}),
       pending := c.pending + 1, accepted := c.accepted + [e])
  }

  function OnUsage(limits: Limits, c: Capture, e: UsageEvent, offFails: bool): Capture {
    if !c.active || !e.isUsage then c
    else if e.id.None? then Fail(c, offFails)
    else if IsRepeat(c, e) then c
    else if !HasRoom(limits, c) || e.payload.None? then Fail(c, offFails)
    else Queued(c, e)
  }

  // ----- Steps -----

  datatype Step =
    | Usage(event: UsageEvent, offFails: bool)     // the SDK calls the handler
    | Begin                                        // .then: the next request is made
    | Acknowledge                                  // ... and acknowledged
    | Reject(offFails: bool)                       // ... or not: .catch(fail)
    | Settle                                       // .finally
    | Observed(fails: bool)                        // an onError call settles
    | Detach(offFails: bool)

  predicate Enabled(c: Capture, step: Step) {
    match step
    case Usage(_, _) => true
    case Begin => c.phase.Idle? && c.settled < |c.accepted|
    case Acknowledge => c.phase.Sending?
    case Reject(_) => c.phase.Sending?
    case Settle => c.phase.Answered? && c.pending > 0
    case Observed(_) => c.observers > 0
    case Detach(_) => true
  }

  function Next(limits: Limits, c: Capture, step: Step): Capture
    requires Enabled(c, step)
  {
    match step
    case Usage(e, offFails) => OnUsage(limits, c, e, offFails)
    case Begin => c.(phase := Sending, started := c.started + 1)
    case Acknowledge => c.(phase := Answered, acknowledged := c.acknowledged + {c.settled})
    case Reject(offFails) => Fail(c.(phase := Answered), offFails)
    case Settle => c.(phase := Idle, settled := c.settled + 1, pending := c.pending - 1)
    case Observed(fails) => c.(observers := c.observers - 1, failures := if fails then c.failures + 1 else c.failures)
    case Detach(offFails) => Stop(c, offFails)
  }

  // ----- What every reachable state keeps -----

  function IdsOf(events: seq<UsageEvent>): set<string> {
    set i | 0 <= i < |events| && events[i].id.Some? :: events[i].id.value
  }

  function CallsOf(events: seq<UsageEvent>): set<string> {
    set i | 0 <= i < |events| && events[i].call.Some? :: events[i].call.value
  }

  ghost predicate NoRepeats(events: seq<UsageEvent>) {
    && (forall i | 0 <= i < |events| :: events[i].isUsage && events[i].id.Some? && events[i].payload.Some?)
    && (forall i, j | 0 <= i < j < |events| :: events[i].id != events[j].id)
    && (forall i, j | 0 <= i < j < |events| && events[i].call.Some? :: events[i].call != events[j].call)
  }

  ghost predicate Sound(limits: Limits, c: Capture) {
    // Requests are made in the order of acceptance, each after the one before has settled.
    && c.settled <= c.started <= |c.accepted| && c.started == c.settled + (if c.phase.Idle? then 0 else 1)
    // Both bounds hold, and the counters are true.
    && c.pending == |c.accepted| - c.settled <= limits.maxPending
    && |c.seenEvents| == |c.accepted| <= limits.maxEvents
    && c.seenEvents == IdsOf(c.accepted) && c.seenCalls == CallsOf(c.accepted) && NoRepeats(c.accepted)
    // A failure ends the capture, and without one everything settled was acknowledged.
    && (c.failures > 0 ==> !c.active) && (c.active ==> c.subscribed)
    && (c.failures == 0 ==> c.observers == 0)
    && (c.failures == 0 ==> forall k | 0 <= k < c.settled :: k in c.acknowledged)
    && (c.failures == 0 && c.phase.Answered? ==> c.settled in c.acknowledged)
    && (forall k | k in c.acknowledged :: k < c.started)
  }

  lemma IdsOneMore(events: seq<UsageEvent>, e: UsageEvent)
    ensures IdsOf(events + [e]) == IdsOf(events) + (if e.id.Some? then {e.id.value} else {})
  {
    var more := events + [e];
    assert more[|events|] == e;
    forall id | id in IdsOf(events) ensures id in IdsOf(more) {
      var i :| 0 <= i < |events| && events[i].id == Some(id);
      assert more[i].id == Some(id);
    }
  }

  lemma CallsOneMore(events: seq<UsageEvent>, e: UsageEvent)
    ensures CallsOf(events + [e]) == CallsOf(events) + (if e.call.Some? then {e.call.value} else {})
  {
    var more := events + [e];
    assert more[|events|] == e;
    forall call | call in CallsOf(events) ensures call in CallsOf(more) {
      var i :| 0 <= i < |events| && events[i].call == Some(call);
      assert more[i].call == Some(call);
    }
  }

  lemma NoRepeatsOneMore(events: seq<UsageEvent>, e: UsageEvent)
    requires NoRepeats(events) && e.isUsage && e.id.Some? && e.payload.Some?
    requires e.id.value !in IdsOf(events) && (e.call.Some? ==> e.call.value !in CallsOf(events))
    ensures NoRepeats(events + [e])
  {
    forall i | 0 <= i < |events| ensures events[i].id != e.id && (events[i].call.Some? ==> events[i].call != e.call) {
      assert events[i].id.value in IdsOf(events);
      assert events[i].call.Some? ==> events[i].call.value in CallsOf(events);
    }
  }

  lemma AcceptKeepsSound(limits: Limits, c: Capture, e: UsageEvent, offFails: bool)
    requires Sound(limits, c) && Accepts(limits, c, e)
    ensures Sound(limits, OnUsage(limits, c, e, offFails))
  {
    IdsOneMore(c.accepted, e);
    CallsOneMore(c.accepted, e);
    NoRepeatsOneMore(c.accepted, e);
  }

  lemma StepKeepsSound(limits: Limits, c: Capture, step: Step)
    requires Sound(limits, c) && Enabled(c, step)
    ensures Sound(limits, Next(limits, c, step))
  {
    match step
    case Usage(event, offFails) =>
      if Accepts(limits, c, event) { AcceptKeepsSound(limits, c, event, offFails); }
      else { RefuseKeepsSound(limits, c, event, offFails); }
    case _ =>
  }

  lemma RefuseKeepsSound(limits: Limits, c: Capture, e: UsageEvent, offFails: bool)
    requires Sound(limits, c) && !Accepts(limits, c, e)
    ensures Sound(limits, OnUsage(limits, c, e, offFails))
  {
  }

  ghost predicate IsRun(limits: Limits, states: seq<Capture>, steps: seq<Step>) {
    && |states| == |steps| + 1 && states[0] == ATTACHED
    && forall i | 0 <= i < |steps| :: Enabled(states[i], steps[i]) && states[i + 1] == Next(limits, states[i], steps[i])
  }

  lemma {:induction false} RunKeepsSound(limits: Limits, states: seq<Capture>, steps: seq<Step>, n: nat)
    requires IsRun(limits, states, steps) && n <= |steps|
    ensures Sound(limits, states[n])
  {
    if n > 0 {
      RunKeepsSound(limits, states, steps, n - 1);
      StepKeepsSound(limits, states[n - 1], steps[n - 1]);
    } else {
      assert IdsOf([]) == {} && CallsOf([]) == {};
    }
  }

  // ----- Delivery -----

  // The requests a run makes, by the link they belong to.
  function Requests(states: seq<Capture>, steps: seq<Step>): seq<nat>
    requires |states| == |steps| + 1
    decreases |steps|
  {
    if steps == [] then []
    else
      Requests(states[..|steps|], steps[..|steps| - 1]) +
        if steps[|steps| - 1].Begin? then [states[|steps| - 1].started] else []
  }

  // In every run the k-th request is the one for the k-th accepted event: each accepted
  // event is sent at most once, in order of acceptance, and those not sent yet come last.
  lemma {:induction false} RequestsFollowAcceptance(limits: Limits, states: seq<Capture>, steps: seq<Step>)
    requires IsRun(limits, states, steps)
    ensures |Requests(states, steps)| == states[|steps|].started
    ensures forall k | 0 <= k < |Requests(states, steps)| :: Requests(states, steps)[k] == k
    decreases |steps|
  {
    if steps != [] {
      var n := |steps| - 1;
      assert IsRun(limits, states[..n + 1], steps[..n]);
      RequestsFollowAcceptance(limits, states[..n + 1], steps[..n]);
      assert states[n + 1] == Next(limits, states[n], steps[n]);
    }
  }

  // A request is only made when every earlier one has settled.
  lemma RequestsDoNotOverlap(limits: Limits, states: seq<Capture>, steps: seq<Step>, n: nat)
    requires IsRun(limits, states, steps) && n < |steps| && steps[n].Begin?
    ensures states[n].settled == states[n].started && states[n].started < |states[n].accepted|
  {
    RunKeepsSound(limits, states, steps, n);
  }

  // Nothing already accepted is dropped or moved, and nothing is accepted after a failure.
  lemma {:induction false} AcceptedOnlyGrows(limits: Limits, states: seq<Capture>, steps: seq<Step>, m: nat, n: nat)
    requires IsRun(limits, states, steps) && m <= n <= |steps|
    ensures states[m].accepted <= states[n].accepted
    ensures states[m].failures > 0 || !states[m].active ==>
            states[n].accepted == states[m].accepted && !states[n].active
    decreases n - m
  {
    RunKeepsSound(limits, states, steps, m);
    if m < n {
      AcceptedOnlyGrows(limits, states, steps, m + 1, n);
      assert states[m + 1] == Next(limits, states[m], steps[m]);
    }
  }

  // From any reachable state the queue can be worked off: some run of requests settles
  // every accepted event without accepting another.
  lemma {:induction false} QueueDrains(limits: Limits, c: Capture) returns (steps: seq<Step>, last: Capture)
    requires Sound(limits, c)
    ensures Sound(limits, last) && last.accepted == c.accepted && last.settled == |c.accepted| == last.started
    ensures After(limits, c, steps) == Some(last)
    decreases |c.accepted| - c.settled, if c.phase.Idle? then 2 else if c.phase.Sending? then 1 else 0
  {
    if c.phase.Idle? && c.settled == |c.accepted| {
      return [], c;
    }
    var step := if c.phase.Idle? then Begin else if c.phase.Sending? then Acknowledge else Settle;
    var next := Next(limits, c, step);
    StepKeepsSound(limits, c, step);
    var rest;
    rest, last := QueueDrains(limits, next);
    steps := [step] + rest;
  }

  function After(limits: Limits, c: Capture, steps: seq<Step>): Option<Capture>
    decreases |steps|
  {
    if steps == [] then Some(c)
    else if Enabled(c, steps[0]) then After(limits, Next(limits, c, steps[0]), steps[1..])
    else None
  }

  // ----- flush -----

  // How far one call of flush is: waiting for the chain as it stood, then for observers.
  datatype Flush = Waiting(target: nat) | Observing(target: nat) | Resolved | Rejected

  predicate FlushCanMove(c: Capture, f: Flush) {
    match f
    case Waiting(target) => c.settled >= target
    // The onError calls known when the wait began have settled; there may be later ones.
    case Observing(_) => true
    case _ => false
  }

  // After both waits flush starts over if the chain has grown, and otherwise reports.
  function FlushNext(c: Capture, f: Flush): Flush
    requires FlushCanMove(c, f)
  {
    match f
    case Waiting(target) => Observing(target)
    case Observing(target) =>
      if |c.accepted| != target then Waiting(|c.accepted|)
      else if c.failures > 0 then Rejected
      else Resolved
  }

  // What a flush knows of the capture while it waits.
  ghost predicate FlushOk(c: Capture, f: Flush) {
    match f
    case Waiting(target) => target <= |c.accepted|
    case Observing(target) => target <= c.settled
    case _ => true
  }

  lemma FlushKeepsUp(limits: Limits, c: Capture, step: Step, f: Flush)
    requires Sound(limits, c) && Enabled(c, step) && FlushOk(c, f)
    ensures FlushOk(Next(limits, c, step), f)
  {
  }

  lemma FlushMoveKeepsUp(limits: Limits, c: Capture, f: Flush)
    requires Sound(limits, c) && FlushOk(c, f) && FlushCanMove(c, f)
    ensures FlushOk(c, FlushNext(c, f))
    ensures FlushNext(c, f).Resolved? ==> AllDelivered(c)
    ensures FlushNext(c, f).Rejected? ==> c.failures > 0
  {
  }

  // Nothing accepted is under way, and all of it was acknowledged.
  ghost predicate AllDelivered(c: Capture) {
    c.settled == |c.accepted| && c.failures == 0 && forall k | 0 <= k < |c.accepted| :: k in c.acknowledged
  }

  // A capture and one call of flush, which may come at any time and waits while the
  // capture goes on.
  datatype Session = Session(capture: Capture, flush: Option<Flush>)

  datatype Move = Work(step: Step) | CallFlush | Advance

  predicate CanMove(s: Session, move: Move) {
    match move
    case Work(step) => Enabled(s.capture, step)
    case CallFlush => s.flush.None?
    case Advance => s.flush.Some? && FlushCanMove(s.capture, s.flush.value)
  }

  function Moved(limits: Limits, s: Session, move: Move): Session
    requires CanMove(s, move)
  {
    match move
    case Work(step) => s.(capture := Next(limits, s.capture, step))
    case CallFlush => s.(flush := Some(Waiting(|s.capture.accepted|)))
    case Advance => s.(flush := Some(FlushNext(s.capture, s.flush.value)))
  }

  ghost predicate IsSession(limits: Limits, states: seq<Session>, moves: seq<Move>) {
    && |states| == |moves| + 1 && states[0] == Session(ATTACHED, None)
    && forall i | 0 <= i < |moves| ::
       CanMove(states[i], moves[i]) && states[i + 1] == Moved(limits, states[i], moves[i])
  }

  ghost predicate SessionOk(limits: Limits, s: Session) {
    && Sound(limits, s.capture)
    && (s.flush.Some? ==> FlushOk(s.capture, s.flush.value))
    && (s.flush == Some(Rejected) ==> s.capture.failures > 0)
  }

  lemma MoveKeepsOk(limits: Limits, s: Session, move: Move)
    requires SessionOk(limits, s) && CanMove(s, move)
    ensures SessionOk(limits, Moved(limits, s, move))
    ensures s.capture.accepted <= Moved(limits, s, move).capture.accepted
    ensures s.capture.acknowledged <= Moved(limits, s, move).capture.acknowledged
  {
    match move
    case Work(step) =>
      StepKeepsSound(limits, s.capture, step);
      if s.flush.Some? { FlushKeepsUp(limits, s.capture, step, s.flush.value); }
    case CallFlush =>
    case Advance => FlushMoveKeepsUp(limits, s.capture, s.flush.value);
  }

  lemma {:induction false} SessionKeepsOk(limits: Limits, states: seq<Session>, moves: seq<Move>, n: nat)
    requires IsSession(limits, states, moves) && n <= |moves|
    ensures SessionOk(limits, states[n])
  {
    if n > 0 {
      SessionKeepsOk(limits, states, moves, n - 1);
      MoveKeepsOk(limits, states[n - 1], moves[n - 1]);
    } else {
      assert IdsOf([]) == {} && CallsOf([]) == {};
    }
  }

  // What is accepted or acknowledged stays so.
  lemma {:induction false} SessionGrows(limits: Limits, states: seq<Session>, moves: seq<Move>, m: nat, n: nat)
    requires IsSession(limits, states, moves) && m <= n <= |moves|
    ensures states[m].capture.accepted <= states[n].capture.accepted
    ensures states[m].capture.acknowledged <= states[n].capture.acknowledged
    decreases n
  {
    if m < n {
      SessionGrows(limits, states, moves, m, n - 1);
      SessionKeepsOk(limits, states, moves, n - 1);
      MoveKeepsOk(limits, states[n - 1], moves[n - 1]);
    }
  }

  // The flush resolves by this move.
  ghost predicate ResolvesAt(states: seq<Session>, moves: seq<Move>, k: nat) {
    k < |moves| && k + 1 < |states| && moves[k].Advance? && states[k].flush != Some(Resolved)
        && states[k + 1].flush == Some(Resolved)
  }

  lemma ResolvingDelivers(limits: Limits, before: Session, move: Move, after: Session)
    requires SessionOk(limits, before) && CanMove(before, move) && after == Moved(limits, before, move)
    requires before.flush != Some(Resolved) && after.flush == Some(Resolved)
    ensures move.Advance? && AllDelivered(before.capture)
  {
    if move.Advance? { FlushMoveKeepsUp(limits, before.capture, before.flush.value); }
  }

  lemma {:induction false} ResolvedSomewhere(limits: Limits, states: seq<Session>, moves: seq<Move>, m: nat, n: nat)
    returns (k: nat)
    requires IsSession(limits, states, moves) && m <= n <= |moves|
    requires states[m].flush != Some(Resolved) && states[n].flush == Some(Resolved)
    ensures m <= k < n && states[k].flush != Some(Resolved) && states[k + 1].flush == Some(Resolved)
    decreases n
  {
    if states[n - 1].flush == Some(Resolved) {
      k := ResolvedSomewhere(limits, states, moves, m, n - 1);
    } else {
      k := n - 1;
    }
  }

  // A flush called at m that has resolved by n did so at some moment in between at which
  // everything accepted until then, before and after the call, had been acknowledged.
  lemma FlushIsHonest(limits: Limits, states: seq<Session>, moves: seq<Move>, m: nat, n: nat) returns (k: nat)
    requires IsSession(limits, states, moves) && m < n <= |moves| && moves[m].CallFlush?
    requires states[n].flush == Some(Resolved)
    ensures m < k < n && ResolvesAt(states, moves, k) && AllDelivered(states[k].capture)
    ensures states[m].capture.accepted <= states[k].capture.accepted
    ensures forall i | 0 <= i < |states[k].capture.accepted| :: i in states[n].capture.acknowledged
  {
    assert CanMove(states[m], moves[m]) && states[m + 1] == Moved(limits, states[m], moves[m]);
    k := ResolvedSomewhere(limits, states, moves, m + 1, n);
    SessionKeepsOk(limits, states, moves, k);
    ResolvingDelivers(limits, states[k], moves[k], states[k + 1]);
    SessionGrows(limits, states, moves, m, k);
    SessionGrows(limits, states, moves, k, n);
  }

  // A flush rejects only when something has failed.
  lemma FlushRejectsAfterFailure(limits: Limits, states: seq<Session>, moves: seq<Move>, n: nat)
    requires IsSession(limits, states, moves) && n <= |moves| && states[n].flush == Some(Rejected)
    ensures states[n].capture.failures > 0
  {
    SessionKeepsOk(limits, states, moves, n);
  }

  // ----- The adapter's own variables -----

  class UsageCapture {
    const limits: Limits
    var seenEvents: set<string>
    var seenCalls: set<string>
    var pending: nat
    var active: bool
    var subscribed: bool
    var failures: nat
    var observers: nat
    // The promise chain: the links whose request has not been made.
    var tail: seq<UsageEvent>
    ghost var accepted: seq<UsageEvent>
    ghost var started: nat
    ghost var settled: nat
    ghost var phase: Phase
    ghost var acknowledged: set<nat>

    constructor (limits: Limits)
      ensures this.limits == limits && Valid() && State() == ATTACHED
    {
      this.limits := limits;
      seenEvents, seenCalls, pending, failures, observers, tail := {}, {}, 0, 0, 0, [];
      active, subscribed := true, true;
      accepted, started, settled, phase, acknowledged := [], 0, 0, Idle, {};
      new;
      assert IdsOf([]) == {} && CallsOf([]) == {};
    }

    ghost function State(): Capture
      reads this
    {
      Capture(active, subscribed, seenEvents, seenCalls, pending, failures, observers, accepted, started, settled,
          phase, acknowledged)
    }

    ghost predicate Valid()
      reads this
    {
      Sound(limits, State()) && tail == accepted[started..]
    }

    method NotifyFailure()
      modifies this`failures, this`observers
      ensures State() == Notify(old(State()))
    {
      failures := failures + 1;
      observers := observers + 1;
    }

    method StopCapture(offFails: bool)
      modifies this`failures, this`observers, this`active, this`subscribed
      ensures State() == Stop(old(State()), offFails)
    {
      active := false;
      var off := subscribed;
      subscribed := false;
      if off && offFails {
        NotifyFailure();
      }
    }

    method FailCapture(offFails: bool)
      modifies this`failures, this`observers, this`active, this`subscribed
      ensures State() == Fail(old(State()), offFails)
    {
      NotifyFailure();
      StopCapture(offFails);
    }

    method OnUsageEvent(event: UsageEvent, offFails: bool)
      requires Valid()
      modifies this
      ensures Valid() && State() == OnUsage(limits, old(State()), event, offFails)
    {
      StepKeepsSound(limits, State(), Usage(event, offFails));
      if !active || !event.isUsage {
        return;
      }
      if event.id.None? {
        FailCapture(offFails);
        return;
      }
      if event.id.value in seenEvents || (event.call.Some? && event.call.value in seenCalls) {
        return;
      }
      if pending >= limits.maxPending || |seenEvents| >= limits.maxEvents || event.payload.None? {
        FailCapture(offFails);
        return;
      }
      Enqueue(event);
    }

    method Enqueue(event: UsageEvent)
      requires started <= |accepted| && tail == accepted[started..] && event.id.Some?
      modifies this`seenEvents, this`seenCalls, this`pending, this`tail, this`accepted
      ensures State() == Queued(old(State()), event)
      ensures started <= |accepted| && tail == accepted[started..]
    {
      seenEvents := seenEvents + {event.id.value};
      seenCalls := seenCalls + if event.call.Some? then {event.call.value} else {};
      pending := pending + 1;
      tail := tail + [event];
      accepted := accepted + [event];
    }

    // The next link of the chain makes its request.
    method Send() returns (payload: string)
      requires Valid() && phase.Idle? && tail != []
      modifies this`tail, this`phase, this`started
      ensures Valid() && State() == Next(limits, old(State()), Begin)
      ensures old(started) < |accepted| && accepted[old(started)].payload == Some(payload)
    {
      StepKeepsSound(limits, State(), Begin);
      payload := tail[0].payload.value;
      tail := tail[1..];
      phase, started := Sending, started + 1;
    }

    // The request settles: acknowledged, or refused, timed out or malformed.
    method Answer(delivered: bool, offFails: bool)
      requires Valid() && phase.Sending?
      modifies this
      ensures Valid() && State() == Next(limits, old(State()), if delivered then Acknowledge else Reject(offFails))
    {
      StepKeepsSound(limits, State(), if delivered then Acknowledge else Reject(offFails));
      phase := Answered;
      if delivered {
        acknowledged := acknowledged + {settled};
      } else {
        FailCapture(offFails);
      }
    }

    method Finally()
      requires Valid() && phase.Answered?
      modifies this`pending, this`phase, this`settled
      ensures Valid() && State() == Next(limits, old(State()), Settle)
    {
      StepKeepsSound(limits, State(), Settle);
      pending := pending - 1;
      phase, settled := Idle, settled + 1;
    }
  }
}
