/**
 What becomes of each usage event the SDK adapter is handed: it repeats an accepted one, it
 is accepted, or it fails the capture; so a flush that resolves has lost none.
 */
module SdkDelivery {
  import opened Results
  import opened SdkCapture

  // ----- One usage event -----

  // An accepted event has the same id, or names the same API call.
  ghost predicate Repeats(accepted: seq<UsageEvent>, e: UsageEvent) {
    e.id.Some? && exists k ::
        0 <= k < |accepted| && (accepted[k].id == e.id || (e.call.Some? && accepted[k].call == e.call))
  }

  // Too many are waiting or were accepted already, or the event cannot be turned into a payload.
  predicate CannotQueue(limits: Limits, c: Capture, e: UsageEvent) {
    |c.accepted| - c.settled >= limits.maxPending || |c.accepted| >= limits.maxEvents || e.payload.None?
  }

  // The capture has failed by now and is over.
  predicate HasFailed(before: Capture, after: Capture) {
    after.failures > before.failures && !after.active && !after.subscribed && after.accepted == before.accepted
  }

  lemma RepeatsExactly(limits: Limits, c: Capture, e: UsageEvent)
    requires Sound(limits, c) && e.id.Some?
    ensures IsRepeat(c, e) <==> Repeats(c.accepted, e)
  {
    if e.id.value in c.seenEvents {
      var k :| 0 <= k < |c.accepted| && c.accepted[k].id.Some? && c.accepted[k].id.value == e.id.value;
      assert c.accepted[k].id == e.id;
    }
    if e.call.Some? && e.call.value in c.seenCalls {
      var k :| 0 <= k < |c.accepted| && c.accepted[k].call.Some? && c.accepted[k].call.value == e.call.value;
      assert c.accepted[k].call == e.call;
    }
    if Repeats(c.accepted, e) {
      var k :| 0 <= k < |c.accepted| && (c.accepted[k].id == e.id || (e.call.Some? && c.accepted[k].call == e.call));
      assert c.accepted[k].id == e.id ==> c.accepted[k].id.value in IdsOf(c.accepted);
      assert e.call.Some? && c.accepted[k].call == e.call ==> c.accepted[k].call.value in CallsOf(c.accepted);
    }
  }

  // A usage event met while the capture is active is ignored exactly when it repeats an
  // accepted one; it fails the capture exactly when it has no id, or is fresh and cannot be
  // queued; otherwise it is the next accepted event. Any other event changes nothing.
  lemma UsageIsAccountedFor(limits: Limits, c: Capture, e: UsageEvent, offFails: bool)
    requires Sound(limits, c)
    ensures var after := Next(limits, c, Usage(e, offFails));
            if !c.active || !e.isUsage || Repeats(c.accepted, e) then after == c
            else if e.id.None? || CannotQueue(limits, c, e) then HasFailed(c, after)
            else after.accepted == c.accepted + [e] && after.failures == c.failures && after.active
  {
    if e.id.Some? { RepeatsExactly(limits, c, e); }
  }

  // ----- Whole sessions -----

  // The adapter is handed e by the i-th move, and has not been detached before.
  ghost predicate Handed(moves: seq<Move>, i: nat, e: UsageEvent) {
    && i < |moves| && e.isUsage && (exists offFails :: moves[i] == Work(Usage(e, offFails)))
    && forall d | 0 <= d < i :: !(moves[d].Work? && moves[d].step.Detach?)
  }

  lemma StepKeepsFailures(limits: Limits, c: Capture, step: Step)
    requires Enabled(c, step)
    ensures Next(limits, c, step).failures >= c.failures
    ensures c.active && !Next(limits, c, step).active ==> step.Detach? || Next(limits, c, step).failures > 0
  {
  }

  lemma {:induction false} ActiveUntilDetached(limits: Limits, states: seq<Session>, moves: seq<Move>, n: nat)
    requires IsSession(limits, states, moves) && n <= |moves| && states[n].capture.failures == 0
    requires forall d | 0 <= d < n :: !(moves[d].Work? && moves[d].step.Detach?)
    ensures states[n].capture.active
  {
    if n > 0 {
      assert CanMove(states[n - 1], moves[n - 1]) && states[n] == Moved(limits, states[n - 1], moves[n - 1]);
      if moves[n - 1].Work? { StepKeepsFailures(limits, states[n - 1].capture, moves[n - 1].step); }
      ActiveUntilDetached(limits, states, moves, n - 1);
    }
  }

  lemma {:induction false} FailuresStay(limits: Limits, states: seq<Session>, moves: seq<Move>, m: nat, n: nat)
    requires IsSession(limits, states, moves) && m <= n <= |moves|
    ensures states[m].capture.failures <= states[n].capture.failures
    decreases n
  {
    if m < n {
      FailuresStay(limits, states, moves, m, n - 1);
      assert CanMove(states[n - 1], moves[n - 1]) && states[n] == Moved(limits, states[n - 1], moves[n - 1]);
      if moves[n - 1].Work? { StepKeepsFailures(limits, states[n - 1].capture, moves[n - 1].step); }
    }
  }

  // While nothing has failed, each event handed over is among the accepted ones, by its id
  // or by the call it names.
  lemma HandedIsAccepted(limits: Limits, states: seq<Session>, moves: seq<Move>, i: nat, e: UsageEvent, n: nat)
    requires IsSession(limits, states, moves) && i < n <= |moves| && Handed(moves, i, e)
    requires states[n].capture.failures == 0
    ensures Repeats(states[n].capture.accepted, e)
  {
    FailuresStay(limits, states, moves, i, n);
    FailuresStay(limits, states, moves, i + 1, n);
    ActiveUntilDetached(limits, states, moves, i);
    SessionKeepsOk(limits, states, moves, i);
    var offFails :| moves[i] == Work(Usage(e, offFails));
    var before, after := states[i].capture, states[i + 1].capture;
    assert CanMove(states[i], moves[i]) && states[i + 1] == Moved(limits, states[i], moves[i]);
    UsageIsAccountedFor(limits, before, e, offFails);
    assert Repeats(after.accepted, e) by {
      if !Repeats(before.accepted, e) { assert after.accepted[|before.accepted|].id == e.id; }
    }
    SessionGrows(limits, states, moves, i + 1, n);
    var k :| 0 <= k < |after.accepted|
        && (after.accepted[k].id == e.id || (e.call.Some? && after.accepted[k].call == e.call));
    assert states[n].capture.accepted[k] == after.accepted[k];
  }

  // A flush resolves only if no fresh usage event was lost: at the moment it did, every
  // event handed over until then had an accepted and acknowledged event of its id or call.
  lemma NothingFreshIsLost(limits: Limits, states: seq<Session>, moves: seq<Move>, m: nat, n: nat) returns (k: nat)
    requires IsSession(limits, states, moves) && m < n <= |moves| && moves[m].CallFlush?
    requires states[n].flush == Some(Resolved)
    ensures m < k < n && ResolvesAt(states, moves, k) && AllDelivered(states[k].capture)
    ensures forall i, e | 0 <= i < k && Handed(moves, i, e) :: Repeats(states[k].capture.accepted, e)
  {
    k := FlushIsHonest(limits, states, moves, m, n);
    forall i, e | 0 <= i < k && Handed(moves, i, e) ensures Repeats(states[k].capture.accepted, e) {
      HandedIsAccepted(limits, states, moves, i, e, k);
    }
  }

  // ----- Detaching and acknowledgement -----

  // Nothing is accepted once the adapter was detached.
  lemma {:induction false} NothingAfterDetach(limits: Limits, states: seq<Capture>, steps: seq<Step>, m: nat, n: nat)
    requires IsRun(limits, states, steps) && m < n <= |steps| && steps[m].Detach?
    ensures states[n].accepted == states[m].accepted && !states[n].active
  {
    assert states[m + 1] == Next(limits, states[m], steps[m]);
    AcceptedOnlyGrows(limits, states, steps, m + 1, n);
  }

  // A link is acknowledged only by an answer to its own request.
  lemma {:induction false} AcknowledgedWasAnswered(limits: Limits, states: seq<Capture>, steps: seq<Step>, n: nat,
                                                   k: nat)
    returns (i: nat)
    requires IsRun(limits, states, steps) && n <= |steps| && k in states[n].acknowledged
    ensures i < n && steps[i].Acknowledge? && states[i].settled == k && states[i].started == k + 1
  {
    assert n > 0;
    assert Enabled(states[n - 1], steps[n - 1]) && states[n] == Next(limits, states[n - 1], steps[n - 1]);
    RunKeepsSound(limits, states, steps, n - 1);
    if k in states[n - 1].acknowledged {
      i := AcknowledgedWasAnswered(limits, states, steps, n - 1, k);
    } else {
      i := n - 1;
    }
  }

  // A request that is not acknowledged fails the capture, and so does a failing observer.
  lemma RefusalFails(limits: Limits, states: seq<Capture>, steps: seq<Step>, m: nat, n: nat)
    requires IsRun(limits, states, steps) && m < n <= |steps|
    requires steps[m].Reject? || steps[m] == Observed(true)
    ensures states[n].failures > states[m].failures && !states[n].active
  {
    assert Enabled(states[m], steps[m]) && states[m + 1] == Next(limits, states[m], steps[m]);
    RunKeepsSound(limits, states, steps, m + 1);
    AcceptedOnlyGrows(limits, states, steps, m + 1, n);
    RunFailuresStay(limits, states, steps, m + 1, n);
  }

  lemma {:induction false} RunFailuresStay(limits: Limits, states: seq<Capture>, steps: seq<Step>, m: nat, n: nat)
    requires IsRun(limits, states, steps) && m <= n <= |steps|
    ensures states[m].failures <= states[n].failures
    decreases n
  {
    if m < n {
      RunFailuresStay(limits, states, steps, m, n - 1);
      assert Enabled(states[n - 1], steps[n - 1]) && states[n] == Next(limits, states[n - 1], steps[n - 1]);
      StepKeepsFailures(limits, states[n - 1], steps[n - 1]);
    }
  }
}
