/** What becomes of one Execute call, read off the steps: which run it streams, what it tells its
    client when it cannot, and what it stops when its client leaves. */
module A2ABridgeCalls {
  import opened Wrappers
  import opened A2AEvents
  import opened ParkRegistry
  import opened A2ABridge
  import opened A2ABridgeProofs
  import opened A2ABridgeTheorems

  // ---------------------------------------------------------------- which run it streams

  predicate BeforeRun(p: Phase) {
    p.Entered? || p.Fresh? || p.Submitting? || p.Ready?
  }

  /** The call took up run `r`, and streams no other. */
  predicate BoundTo(call: Call, r: RunId) {
    && !BeforeRun(call.phase) && (call.phase.Resuming? ==> call.phase.run == r) && (call.run.Some? ==> call.run == Some(r))
  }

  /** The call took up no run, and if it streams one that was started after the first n. */
  predicate OnItsOwn(call: Call, n: nat) {
    !call.phase.Entered? && !call.phase.Resuming? && (call.run.Some? ==> call.run.value >= n)
  }

  lemma BoundStep(s: State, st: Step, c: CallId, r: RunId)
    requires Enabled(s, st) && c < |s.calls| && BoundTo(s.calls[c], r)
    ensures c < |Apply(s, st).calls| && BoundTo(Apply(s, st).calls[c], r)
  {
    if Actor(st) != Some(c) { OnlyActorMoves(s, st, c); }
  }

  lemma OnItsOwnStep(s: State, st: Step, c: CallId, n: nat)
    requires Enabled(s, st) && c < |s.calls| && OnItsOwn(s.calls[c], n) && n <= |s.runs|
    ensures c < |Apply(s, st).calls| && OnItsOwn(Apply(s, st).calls[c], n)
  {
    if Actor(st) != Some(c) { OnlyActorMoves(s, st, c); }
  }

  lemma {:induction false} BoundStays(states: seq<State>, steps: seq<Step>, i: nat, j: nat, c: CallId, r: RunId)
    requires IsTrace(states, steps) && i <= j < |states| && c < |states[i].calls| && BoundTo(states[i].calls[c], r)
    ensures c < |states[j].calls| && BoundTo(states[j].calls[c], r)
  {
    if i == j {
    } else {
      BoundStays(states, steps, i, j - 1, c, r);
      BoundStep(states[j - 1], steps[j - 1], c, r);
    }
  }

  lemma {:induction false} OnItsOwnStays(states: seq<State>, steps: seq<Step>, i: nat, j: nat, c: CallId, n: nat)
    requires IsTrace(states, steps) && i <= j < |states| && c < |states[i].calls| && OnItsOwn(states[i].calls[c], n) && n <= |states[i].runs|
    ensures c < |states[j].calls| && OnItsOwn(states[j].calls[c], n)
  {
    if i == j {
    } else {
      OnItsOwnStays(states, steps, i, j - 1, c, n);
      NotYetStarted(states, steps, i, j - 1);
      OnItsOwnStep(states[j - 1], steps[j - 1], c, n);
    }
  }

  lemma AtLookup(s: State, c: CallId, n: nat)
    requires Enabled(s, Lookup(c)) && Talks(s.calls[c]) && n == |s.runs|
    ensures var call, call' := s.calls[c], DoLookup(s, c).calls[c];
            if call.stored && call.task in s.parks then
              BoundTo(call', s.parks[call.task].run) && call'.phase == Resuming(s.parks[call.task].run)
              && DoLookup(s, c).parks == s.parks - {call.task}
            else OnItsOwn(call', n) && call'.phase == Fresh && DoLookup(s, c).parks == s.parks
  {
  }

  /** A message to a stored task with a run parked takes that very run up and streams no other; any
      other message streams, if any, a run started after it came. */
  lemma StreamsTheParkedRun(states: seq<State>, steps: seq<Step>, i: nat, j: nat, c: CallId)
    requires IsTrace(states, steps) && i < j < |states| && steps[i] == Lookup(c)
    ensures c < |states[i].calls| && c < |states[j].calls|
    ensures var was, call := states[i].calls[c], states[j].calls[c];
            if was.stored && was.task in states[i].parks then
              && states[i + 1].calls[c].phase == Resuming(states[i].parks[was.task].run) && was.task !in states[i + 1].parks
              && (call.run.Some? ==> call.run == Some(states[i].parks[was.task].run))
            else states[i + 1].calls[c].phase == Fresh && (call.run.Some? ==> call.run.value >= |states[i].runs|)
  {
    var s := states[i];
    InvAlways(states, steps, i);
    AtLookup(s, c, |s.runs|);
    NotYetStarted(states, steps, i, i + 1);
    if s.calls[c].stored && s.calls[c].task in s.parks {
      BoundStays(states, steps, i + 1, j, c, s.parks[s.calls[c].task].run);
    } else {
      OnItsOwnStays(states, steps, i + 1, j, c, |s.runs|);
    }
  }

  // ---------------------------------------------------------------- what it tells its client

  predicate LastWord(call: Call, before: seq<Out>, o: Out) {
    (call.phase == Closing(o) && call.out == before) || (call.phase == Returned && call.out == before + [o])
  }

  lemma LastWordStep(s: State, st: Step, c: CallId, before: seq<Out>, o: Out)
    requires Enabled(s, st) && c < |s.calls| && LastWord(s.calls[c], before, o)
    ensures c < |Apply(s, st).calls| && LastWord(Apply(s, st).calls[c], before, o)
  {
    if Actor(st) != Some(c) { OnlyActorMoves(s, st, c); }
  }

  /** The closing event a call settled on is the last thing it yields, and nothing comes between. */
  lemma {:induction false} ClosingIsYielded(states: seq<State>, steps: seq<Step>, i: nat, j: nat, c: CallId, o: Out)
    requires IsTrace(states, steps) && i <= j < |states| && c < |states[i].calls| && states[i].calls[c].phase == Closing(o)
    ensures c < |states[j].calls| && LastWord(states[j].calls[c], states[i].calls[c].out, o)
  {
    if i == j {
    } else {
      ClosingIsYielded(states, steps, i, j - 1, c, o);
      LastWordStep(states[j - 1], steps[j - 1], c, states[i].calls[c].out, o);
    }
  }

  /** A drained run's call ends with the closing event of what RunOnce returned and the row said. */
  lemma EndsWithTheResult(states: seq<State>, steps: seq<Step>, i: nat, j: nat)
    requires IsTrace(states, steps) && i < j < |states| && steps[i].ReadResult?
    ensures var c, r := steps[i].call, states[i].calls[steps[i].call].phase.run;
            && ReturnedWith(steps[..i], r).Some? && c < |states[j].calls|
            && LastWord(states[j].calls[c], states[i].calls[c].out, ClosingEvent(ReturnedWith(steps[..i], r).value, steps[i].row))
  {
    var c := steps[i].call;
    ErrorReadOnlyWhenFinal(states, steps, i, i + 1);
    ClosingIsYielded(states, steps, i + 1, j, c, states[i + 1].calls[c].phase.event);
  }

  /** A failed resume ends with one FAILED status that says which of the four checks failed. */
  lemma FailedResumeSaysWhy(states: seq<State>, steps: seq<Step>, i: nat, j: nat)
    requires IsTrace(states, steps) && i < j < |states| && steps[i].FailResume?
    ensures var c := steps[i].call;
            var text := match steps[i].failure
                        case RunNotLocated => "a2a executor: resume could not locate the parked run: " + steps[i].detail
                        case AnswerUnusable =>
                          "a2a executor: resume message content unusable (only text parts are accepted): " + steps[i].detail
                        case AnswerEmpty => "a2a executor: resume message carried no usable text answer"
                        case ResolveFailed => "a2a executor: resolve interruption failed: " + steps[i].detail;
            c < |states[j].calls| && LastWord(states[j].calls[c], [], Status(Failed, text))
  {
    var c := steps[i].call;
    InvAlways(states, steps, i);
    assert Talks(states[i].calls[c]);
    ClosingIsYielded(states, steps, i + 1, j, c, states[i + 1].calls[c].phase.event);
  }

  /** What a verdict on a new message leads to, from the moment it is given. */
  predicate Fated(call: Call, v: Verdict) {
    match v
    case RateRefused(why) => call.run.None? && LastWord(call, [], Error(why))
    case BadInput(cause) =>
      && call.run.None?
      && if call.stored then LastWord(call, [], Status(Failed, cause))
         else
           || (call.phase == Submitting(Some(cause)) && call.out == [])
           || (call.phase == Returned && call.refused && call.out == [SubmittedTask])
           || LastWord(call, [SubmittedTask], Status(Failed, cause))
    case Accepted =>
      || (call.phase == Submitting(None) && call.out == []) || call.phase == Ready || call.run.Some?
      || (call.phase == Returned && call.refused && call.out == [SubmittedTask])
  }

  lemma FatedYield(s: State, c: CallId, ok: bool, v: Verdict)
    requires Enabled(s, YieldHead(c, ok)) && Talks(s.calls[c]) && Fated(s.calls[c], v)
    ensures Fated(DoYieldHead(s, c, ok).calls[c], v)
  {
    assert [] + [SubmittedTask] == [SubmittedTask];
  }

  lemma FatedStep(s: State, st: Step, c: CallId, v: Verdict)
    requires Enabled(s, st) && c < |s.calls| && Talks(s.calls[c]) && Fated(s.calls[c], v)
    ensures c < |Apply(s, st).calls| && Fated(Apply(s, st).calls[c], v)
  {
    if Actor(st) != Some(c) {
      OnlyActorMoves(s, st, c);
    } else if st.YieldHead? {
      FatedYield(s, c, st.ok, v);
    } else if s.calls[c].run.Some? {
      CallRunKept(s, st, c);
    }
  }

  /** The verdict decides: a rate refusal is a lone error with its text and no run; bad input is one
      FAILED status with its cause, SUBMITTED before it exactly when no task was stored, and no run; and
      an accepted message gets a run unless its client left at SUBMITTED. */
  lemma {:induction false} VerdictDecides(states: seq<State>, steps: seq<Step>, i: nat, j: nat, c: CallId, v: Verdict)
    requires IsTrace(states, steps) && i < j < |states| && steps[i] == Prepare(c, v)
    ensures c < |states[j].calls| && Fated(states[j].calls[c], v)
  {
    InvAlways(states, steps, j - 1);
    if j == i + 1 {
      assert Talks(states[i].calls[c]);
    } else {
      VerdictDecides(states, steps, i, j - 1, c, v);
      assert Talks(states[j - 1].calls[c]);
      FatedStep(states[j - 1], steps[j - 1], c, v);
    }
  }

  // ---------------------------------------------------------------- what it stops

  lemma CancelledStays(s: State, st: Step, r: RunId)
    requires Enabled(s, st) && r < |s.runs| && s.runs[r].cancelled
    ensures r < |Apply(s, st).runs| && Apply(s, st).runs[r].cancelled
  {
  }

  /** A client that leaves in mid-stream stops the run at once. */
  lemma LeavingStopsTheRun(states: seq<State>, steps: seq<Step>, i: nat, c: CallId)
    requires IsTrace(states, steps) && i < |steps| && steps[i] == Yield(c, false) && states[i].calls[c].phase.Streaming?
    ensures var r := states[i].calls[c].phase.run; r < |states[i + 1].runs| && states[i + 1].runs[r].cancelled
    ensures states[i + 1].calls[c].phase == Returned
  {
  }

  /** The call has looked for its park again, at step k, and stopped what it found. */
  ghost predicate Reclaimed(states: seq<State>, steps: seq<Step>, k: nat, j: nat, c: CallId)
    requires IsTrace(states, steps) && k < j < |states|
  {
    && steps[k] == Reclaim(c) && c < |states[k].calls| && c < |states[j].calls|
    && var s, phase := states[k], states[j].calls[c].phase;
       if s.calls[c].task in s.parks then
         var r := s.parks[s.calls[c].task].run;
         phase == Reclaiming(r) || (phase == Returned && r < |states[j].runs| && states[j].runs[r].cancelled)
       else phase == Returned
  }

  ghost predicate LeavingPark(states: seq<State>, steps: seq<Step>, i: nat, j: nat, c: CallId)
    requires IsTrace(states, steps) && i < j < |states|
  {
    && c < |states[j].calls|
    && (states[j].calls[c].phase == Abandoned || exists k :: i < k < j && Reclaimed(states, steps, k, j, c))
  }

  lemma ReclaimStep(states: seq<State>, steps: seq<Step>, j: nat, c: CallId)
    requires IsTrace(states, steps) && j < |steps| && c < |states[j].calls| && states[j].calls[c].phase == Abandoned
    ensures c < |states[j + 1].calls|
    ensures states[j + 1].calls[c].phase == Abandoned || Reclaimed(states, steps, j, j + 1, c)
  {
    if Actor(steps[j]) != Some(c) { OnlyActorMoves(states[j], steps[j], c); }
  }

  lemma ReclaimedStays(states: seq<State>, steps: seq<Step>, k: nat, j: nat, c: CallId)
    requires IsTrace(states, steps) && k < j < |steps| && Reclaimed(states, steps, k, j, c)
    ensures Reclaimed(states, steps, k, j + 1, c)
  {
    var s := states[k];
    if s.calls[c].task in s.parks {
      var r := s.parks[s.calls[c].task].run;
      if r < |states[j].runs| && states[j].runs[r].cancelled { CancelledStays(states[j], steps[j], r); }
    }
    if Actor(steps[j]) != Some(c) { OnlyActorMoves(states[j], steps[j], c); }
  }

  lemma BecomesAbandoned(s: State, c: CallId)
    requires Enabled(s, Yield(c, false)) && s.calls[c].phase.AtPark?
    ensures DoYield(s, c, false).calls[c].phase == Abandoned && |DoYield(s, c, false).calls| == |s.calls|
  {
  }

  lemma LeavingParkStep(states: seq<State>, steps: seq<Step>, i: nat, j: nat, c: CallId)
    requires IsTrace(states, steps) && i < j < |steps| && LeavingPark(states, steps, i, j, c)
    ensures LeavingPark(states, steps, i, j + 1, c)
  {
    if states[j].calls[c].phase == Abandoned {
      ReclaimStep(states, steps, j, c);
    } else {
      var k :| i < k < j && Reclaimed(states, steps, k, j, c);
      ReclaimedStays(states, steps, k, j, c);
    }
  }

  lemma {:induction false} LeavingParkAlways(states: seq<State>, steps: seq<Step>, i: nat, j: nat, c: CallId)
    requires IsTrace(states, steps) && i < j < |states| && steps[i] == Yield(c, false) && states[i].calls[c].phase.AtPark?
    ensures LeavingPark(states, steps, i, j, c)
  {
    if j == i + 1 {
      BecomesAbandoned(states[i], c);
    } else {
      LeavingParkAlways(states, steps, i, j - 1, c);
      LeavingParkStep(states, steps, i, j - 1, c);
    }
  }

  /** A client that leaves exactly at the question: before the call returns it looks for the park again,
      and the run it finds there is cancelled. */
  lemma LeavingAtParkStopsTheRun(states: seq<State>, steps: seq<Step>, i: nat, j: nat, c: CallId)
    requires IsTrace(states, steps) && i < j < |states| && steps[i] == Yield(c, false) && states[i].calls[c].phase.AtPark?
    requires c < |states[j].calls| && states[j].calls[c].phase == Returned
    ensures exists k :: i < k < j && steps[k] == Reclaim(c) && c < |states[k].calls|
              && (states[k].calls[c].task in states[k].parks ==>
                    var r := states[k].parks[states[k].calls[c].task].run; r < |states[j].runs| && states[j].runs[r].cancelled)
  {
    LeavingParkAlways(states, steps, i, j, c);
    var k :| i < k < j && Reclaimed(states, steps, k, j, c);
  }
}
