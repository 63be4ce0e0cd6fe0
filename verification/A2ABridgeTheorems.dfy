/** The guarantees of the run bridge over every interleaving: no run is lost or shared, the
    client sees the run's events once and in order, and every Execute stream is well formed. */
module A2ABridgeTheorems {
  import opened Wrappers
  import opened A2AEvents
  import opened ParkRegistry
  import opened A2ABridge
  import opened A2ABridgeProofs

  // ---------------------------------------------------------------- one place per run

  function SpotOf(p: Place): set<Spot> {
    match p
    case HeldBy(c) => {Reader(c)}
    case ParkedUnder(t) => {InRegistry(t)}
    case Stopped => {CancelledSpot}
    case Lost => {}
    case Drained => {}
  }

  lemma SpotsAreThePlace(s: State, r: RunId)
    requires Linked(s) && Flows(s) && r < |s.runs|
    ensures Spots(s, r) == SpotOf(s.runs[r].place)
  {
    assert RunFlows(s.runs[r]);
    forall x | x in Spots(s, r)
      ensures x in SpotOf(s.runs[r].place)
    {
      match x
      case Reader(c) => assert Holding(s.calls[c].phase);
      case InRegistry(t) =>
      case CancelledSpot =>
    }
  }

  /** The steps that leave run `r` with nobody: one of the four failure returns of a resume,
      which has taken the park already, or a park that overwrites its live entry. */
  predicate Loses(s: State, st: Step, r: RunId)
    requires Enabled(s, st)
  {
    || (st.FailResume? && s.calls[st.call].phase.run == r)
    || (ReceivesQuestion(s, st) && s.hasResolver && Overwrites(s.parks, s.ttl, s.calls[st.call].task, s.now, r))
  }

  lemma LostAtReceive(s: State, c: CallId, r: RunId)
    requires Linked(s) && Enabled(s, Receive(c)) && r < |s.runs|
    ensures DoReceive(s, c).runs[r].place.Lost? <==> s.runs[r].place.Lost? || Loses(s, Receive(c), r)
  {
    assert Holding(s.calls[c].phase);
  }

  lemma LostStaysLost(s: State, st: Step, r: RunId)
    requires Linked(s) && Enabled(s, st) && !st.Receive? && r < |s.runs| && s.runs[r].place.Lost?
    ensures r < |Apply(s, st).runs| && Apply(s, st).runs[r].place.Lost?
  {
    if Actor(st).Some? {
      assert Holding(s.calls[st.call].phase) ==> s.runs[s.calls[st.call].phase.run].place == HeldBy(st.call);
    }
  }

  lemma LostElsewhere(s: State, st: Step, r: RunId)
    requires Enabled(s, st) && !st.Receive? && r < |Apply(s, st).runs| && !(r < |s.runs| && s.runs[r].place.Lost?)
    ensures Apply(s, st).runs[r].place.Lost? <==> Loses(s, st, r)
  {
  }

  lemma LostExactlyBy(s: State, st: Step, r: RunId)
    requires Linked(s) && Enabled(s, st) && r < |Apply(s, st).runs|
    ensures Apply(s, st).runs[r].place.Lost? <==> (r < |s.runs| && s.runs[r].place.Lost?) || Loses(s, st, r)
  {
    if st.Receive? {
      LostAtReceive(s, st.call, r);
    } else if r < |s.runs| && s.runs[r].place.Lost? {
      LostStaysLost(s, st, r);
    } else {
      LostElsewhere(s, st, r);
    }
  }

  ghost predicate LostBefore(states: seq<State>, steps: seq<Step>, i: nat, r: RunId)
    requires IsTrace(states, steps) && i < |states|
  {
    exists j :: 0 <= j < i && Loses(states[j], steps[j], r)
  }

  lemma {:induction false} NotYetStarted(states: seq<State>, steps: seq<Step>, j: nat, i: nat)
    requires IsTrace(states, steps) && j <= i < |states|
    ensures |states[j].runs| <= |states[i].runs|
  {
    if j == i {
    } else {
      NotYetStarted(states, steps, j, i - 1);
    }
  }

  lemma LosesOnlyStarted(s: State, st: Step, r: RunId)
    requires Linked(s) && Enabled(s, st) && Loses(s, st, r)
    ensures r < |s.runs|
  {
  }

  lemma NotLostBeforeStart(states: seq<State>, steps: seq<Step>, i: nat, r: RunId)
    requires IsTrace(states, steps) && i < |states| && |states[i].runs| <= r
    ensures !LostBefore(states, steps, i, r)
  {
    forall j | 0 <= j < i
      ensures !Loses(states[j], steps[j], r)
    {
      NotYetStarted(states, steps, j, i);
      InvAlways(states, steps, j);
      if Loses(states[j], steps[j], r) { LosesOnlyStarted(states[j], steps[j], r); }
    }
  }

  lemma {:induction false} LostMeansLostBefore(states: seq<State>, steps: seq<Step>, i: nat, r: RunId)
    requires IsTrace(states, steps) && i < |states| && r < |states[i].runs|
    ensures states[i].runs[r].place.Lost? <==> LostBefore(states, steps, i, r)
  {
    if i == 0 {
    } else {
      InvAlways(states, steps, i - 1);
      LostExactlyBy(states[i - 1], steps[i - 1], r);
      if r < |states[i - 1].runs| {
        LostMeansLostBefore(states, steps, i - 1, r);
      } else {
        NotLostBeforeStart(states, steps, i - 1, r);
      }
      LostBeforeUnfold(states, steps, i, r);
    }
  }

  lemma LostBeforeUnfold(states: seq<State>, steps: seq<Step>, i: nat, r: RunId)
    requires IsTrace(states, steps) && 0 < i < |states|
    ensures LostBefore(states, steps, i, r) <==> LostBefore(states, steps, i - 1, r) || Loses(states[i - 1], steps[i - 1], r)
  {
  }

  /** In every interleaving an unfinished run is in exactly one place (read by one call, parked
      under one task, or cancelled) unless some earlier step lost it; a lost run is nowhere. */
  lemma OnePlaceUnlessLost(states: seq<State>, steps: seq<Step>, i: nat, r: RunId)
    requires IsTrace(states, steps) && i < |states| && Unfinished(states[i], r)
    ensures |Spots(states[i], r)| == (if LostBefore(states, steps, i, r) then 0 else 1)
  {
    InvAlways(states, steps, i);
    SpotsAreThePlace(states[i], r);
    LostMeansLostBefore(states, steps, i, r);
    assert RunFlows(states[i].runs[r]);
  }

  // ---------------------------------------------------------------- one live run per task

  ghost predicate Attended(s: State, r: RunId) {
    r < |s.runs| && (s.runs[r].place.HeldBy? || s.runs[r].place.ParkedUnder?)
  }

  /** The SDK's side of the contract: a fresh run starts only when no other run of its task is
      being read or is parked. */
  ghost predicate SoloStart(s: State, st: Step)
    requires Enabled(s, st)
  {
    st.Start? ==> forall r {:trigger s.runs[r]} :: 0 <= r < |s.runs| && s.runs[r].task == s.calls[st.call].task ==> Spots(s, r) <= {CancelledSpot}
  }

  ghost predicate Solo(s: State) {
    forall r: RunId, q: RunId :: Attended(s, r) && Attended(s, q) && s.runs[r].task == s.runs[q].task ==> r == q
  }

  lemma AttendedAtReceive(s: State, c: CallId, r: RunId)
    requires Linked(s) && Enabled(s, Receive(c)) && r < |s.runs| && Attended(DoReceive(s, c), r)
    ensures Attended(s, r) && DoReceive(s, c).runs[r].task == s.runs[r].task
  {
    assert Holding(s.calls[c].phase);
  }

  lemma AttendedBefore(s: State, st: Step, r: RunId)
    requires Linked(s) && Enabled(s, st) && Attended(Apply(s, st), r) && r < |s.runs|
    ensures Attended(s, r) && Apply(s, st).runs[r].task == s.runs[r].task
  {
    if st.Receive? {
      AttendedAtReceive(s, st.call, r);
    }
  }

  /** A run that is new after the step was started by it, alone in its task. */
  lemma NewIsAlone(s: State, st: Step, r: RunId, q: RunId)
    requires Inv(s) && Enabled(s, st) && SoloStart(s, st) && |s.runs| <= r < |Apply(s, st).runs| && Attended(s, q)
    ensures r == |s.runs| && s.runs[q].task != Apply(s, st).runs[r].task
  {
    assert st.Start?;
    SpotsAreThePlace(s, q);
  }

  lemma SoloStep(s: State, st: Step)
    requires Inv(s) && Solo(s) && Enabled(s, st) && SoloStart(s, st)
    ensures Solo(Apply(s, st))
  {
    var s' := Apply(s, st);
    assert |s'.runs| <= |s.runs| + 1;
    forall r: RunId, q: RunId | Attended(s', r) && Attended(s', q) && s'.runs[r].task == s'.runs[q].task
      ensures r == q
    {
      if r < |s.runs| { AttendedBefore(s, st, r); }
      if q < |s.runs| { AttendedBefore(s, st, q); }
      if r < |s.runs| <= q { NewIsAlone(s, st, q, r); }
      if q < |s.runs| <= r { NewIsAlone(s, st, r, q); }
    }
  }

  lemma {:induction false} SoloAlways(states: seq<State>, steps: seq<Step>, i: nat)
    requires IsTrace(states, steps) && i < |states|
    requires forall j :: 0 <= j < i ==> SoloStart(states[j], steps[j])
    ensures Solo(states[i])
  {
    if i == 0 {
    } else {
      SoloAlways(states, steps, i - 1);
      InvAlways(states, steps, i - 1);
      SoloStep(states[i - 1], steps[i - 1]);
    }
  }

  ghost predicate ResumeFailedBefore(states: seq<State>, steps: seq<Step>, i: nat, r: RunId)
    requires IsTrace(states, steps) && i < |states|
  {
    exists j :: 0 <= j < i && steps[j].FailResume? && states[j].calls[steps[j].call].phase.run == r
  }

  /** A finished run stays finished, and the error RunOnce left is never written again. */
  lemma StageOnlyAdvances(s: State, st: Step, r: RunId)
    requires Enabled(s, st) && r < |s.runs|
    ensures r < |Apply(s, st).runs|
    ensures !s.runs[r].stage.Running? ==>
              !Apply(s, st).runs[r].stage.Running? && Apply(s, st).runs[r].err == s.runs[r].err
  {
  }

  /** With the SDK keeping its side, an unfinished run is in exactly one place if and only if no
      resume of it took one of its four failure returns. */
  lemma OnlyResumeFailuresLose(states: seq<State>, steps: seq<Step>, i: nat, r: RunId)
    requires IsTrace(states, steps) && i < |states| && Unfinished(states[i], r)
    requires forall j :: 0 <= j < i ==> SoloStart(states[j], steps[j])
    ensures |Spots(states[i], r)| == (if ResumeFailedBefore(states, steps, i, r) then 0 else 1)
  {
    OnePlaceUnlessLost(states, steps, i, r);
    forall j | 0 <= j < i && Loses(states[j], steps[j], r)
      ensures steps[j].FailResume?
    {
      var s := states[j];
      InvAlways(states, steps, j);
      SoloAlways(states, steps, j);
      if !steps[j].FailResume? {
        var q := s.calls[steps[j].call].phase.run;
        assert Holding(s.calls[steps[j].call].phase);
        assert Attended(s, q) && Attended(s, r);
      }
    }
  }

  // ---------------------------------------------------------------- what the run did

  /** Everything RunOnce reported about run `r`, read off the steps alone. */
  function Reported(steps: seq<Step>, r: RunId): seq<Event> {
    if steps == [] then []
    else
      var last := steps[|steps| - 1];
      Reported(steps[..|steps| - 1], r) + if (last.Emit? || last.Discard?) && last.run == r then [last.ev] else []
  }

  /** What RunOnce returned with, None while it has not returned. */
  function ReturnedWith(steps: seq<Step>, r: RunId): Option<Option<string>> {
    if steps == [] then None
    else
      var last := steps[|steps| - 1];
      if last.Finish? && last.run == r then Some(last.err) else ReturnedWith(steps[..|steps| - 1], r)
  }

  lemma EmittedStep(s: State, st: Step, r: RunId)
    requires Enabled(s, st) && r < |Apply(s, st).runs|
    ensures Apply(s, st).runs[r].emitted ==
            (if r < |s.runs| then s.runs[r].emitted else []) + if (st.Emit? || st.Discard?) && st.run == r then [st.ev] else []
  {
  }

  lemma ReturnStep(s: State, st: Step, r: RunId)
    requires Enabled(s, st) && r < |Apply(s, st).runs|
    ensures var run := Apply(s, st).runs[r];
            if st.Finish? && st.run == r then !run.stage.Running? && run.err == st.err
            else if r < |s.runs| then (run.stage.Running? <==> s.runs[r].stage.Running?) && run.err == s.runs[r].err
            else run.stage.Running?
  {
  }

  lemma {:induction false} NothingBeforeStart(states: seq<State>, steps: seq<Step>, i: nat, r: RunId)
    requires IsTrace(states, steps) && i < |states| && |states[i].runs| <= r
    ensures Reported(steps[..i], r) == [] && ReturnedWith(steps[..i], r).None?
  {
    if i == 0 {
    } else {
      NotYetStarted(states, steps, i - 1, i);
      NothingBeforeStart(states, steps, i - 1, r);
      assert steps[..i][..i - 1] == steps[..i - 1];
      assert Enabled(states[i - 1], steps[i - 1]);
    }
  }

  /** The history kept with a run is what the steps did: it holds exactly the events RunOnce reported,
      and the run has ended exactly when RunOnce returned, with what it returned. */
  lemma {:induction false} HistoryIsTrue(states: seq<State>, steps: seq<Step>, i: nat, r: RunId)
    requires IsTrace(states, steps) && i < |states| && r < |states[i].runs|
    ensures states[i].runs[r].emitted == Reported(steps[..i], r)
    ensures states[i].runs[r].stage.Running? <==> ReturnedWith(steps[..i], r).None?
    ensures ReturnedWith(steps[..i], r).Some? ==> states[i].runs[r].err == ReturnedWith(steps[..i], r).value
  {
    if i == 0 {
    } else {
      assert steps[..i][..i - 1] == steps[..i - 1];
      EmittedStep(states[i - 1], steps[i - 1], r);
      ReturnStep(states[i - 1], steps[i - 1], r);
      if r < |states[i - 1].runs| {
        HistoryIsTrue(states, steps, i - 1, r);
      } else {
        NothingBeforeStart(states, steps, i - 1, r);
      }
    }
  }

  /** The channel never holds more than sixteen events. */
  lemma ChannelIsBounded(states: seq<State>, steps: seq<Step>, i: nat, r: RunId)
    requires IsTrace(states, steps) && i < |states| && r < |states[i].runs|
    ensures 0 <= |states[i].runs[r].sent| - states[i].runs[r].got <= 16
  {
    InvAlways(states, steps, i);
    assert RunFlows(states[i].runs[r]);
  }

  /** A run's line holds exactly the calls that stream it or did. */
  ghost predicate LineComplete(s: State) {
    forall c {:trigger s.calls[c]} :: 0 <= c < |s.calls| && s.calls[c].run.Some? ==>
      s.calls[c].run.value < |s.runs| && c in s.runs[s.calls[c].run.value].calls
  }

  lemma LineStays(s: State, st: Step, r: RunId)
    requires Enabled(s, st) && r < |s.runs|
    ensures r < |Apply(s, st).runs| && s.runs[r].calls <= Apply(s, st).runs[r].calls
  {
    if st.Receive? { ReceiveLineChange(s, st.call, r); } else { OtherLineChange(s, st, r); }
  }

  lemma LineCompleteFor(s: State, st: Step, c: CallId)
    requires LineComplete(s) && Enabled(s, st) && c < |Apply(s, st).calls| && Apply(s, st).calls[c].run.Some?
    ensures var r := Apply(s, st).calls[c].run.value; r < |Apply(s, st).runs| && c in Apply(s, st).runs[r].calls
  {
    if c < |s.calls| && s.calls[c].run == Apply(s, st).calls[c].run {
      var r := s.calls[c].run.value;
      LineStays(s, st, r);
      assert s.runs[r].calls <= Apply(s, st).runs[r].calls;
    } else {
      JoinsLineBy(s, st, c);
    }
  }

  lemma JoinsLineBy(s: State, st: Step, c: CallId)
    requires Enabled(s, st) && c < |Apply(s, st).calls| && Apply(s, st).calls[c].run.Some?
    requires c < |s.calls| ==> s.calls[c].run != Apply(s, st).calls[c].run
    ensures var r := Apply(s, st).calls[c].run.value; r < |Apply(s, st).runs| && c in Apply(s, st).runs[r].calls
  {
    if c < |s.calls| && Actor(st) != Some(c) { OnlyActorMoves(s, st, c); }
  }

  lemma {:induction false} LineAlwaysComplete(states: seq<State>, steps: seq<Step>, i: nat)
    requires IsTrace(states, steps) && i < |states|
    ensures LineComplete(states[i])
  {
    if i == 0 {
    } else {
      LineAlwaysComplete(states, steps, i - 1);
      forall c | 0 <= c < |states[i].calls| && states[i].calls[c].run.Some?
        ensures states[i].calls[c].run.value < |states[i].runs| && c in states[i].runs[states[i].calls[c].run.value].calls
      {
        LineCompleteFor(states[i - 1], steps[i - 1], c);
      }
    }
  }

  // ---------------------------------------------------------------- what the client sees

  /** At every moment the yields of all the calls that streamed a run, with what they have in
      hand, are the translation of exactly the events received, in order, none twice. */
  lemma NothingLostOrRepeated(states: seq<State>, steps: seq<Step>, i: nat, r: RunId)
    requires IsTrace(states, steps) && i < |states| && r < |states[i].runs|
    ensures RunLined(states[i], r)
    ensures JoinedLogs(states[i].calls, states[i].runs[r].calls) == ShownAll(states[i].runs[r].sent[..states[i].runs[r].got])
  {
    InvAlways(states, steps, i);
    assert RunLined(states[i], r);
  }

  lemma {:induction false} JoinedWhenDelivered(calls: seq<Call>, ids: seq<CallId>)
    requires forall i {:trigger ids[i]} :: 0 <= i < |ids| ==> ids[i] < |calls| && calls[ids[i]].todo == []
    ensures JoinedLogs(calls, ids) == Joined(calls, ids)
  {
    if ids == [] {
    } else {
      JoinedWhenDelivered(calls, ids[..|ids| - 1]);
    }
  }

  /** A run whose stream was read to its end, by calls whose clients all stayed: across however
      many parks and resumes, the calls' yields joined together are the translation of everything
      the run reported, in the order it reported it, with one INPUT_REQUIRED per question. */
  lemma DeliveredInOrder(states: seq<State>, steps: seq<Step>, i: nat, r: RunId)
    requires IsTrace(states, steps) && i < |states| && r < |states[i].runs|
    requires Spots(states[i], r) == {} && !LostBefore(states, steps, i, r)
    requires forall c {:trigger states[i].calls[c]} ::
               0 <= c < |states[i].calls| && states[i].calls[c].run == Some(r) ==> states[i].calls[c].phase.Returned? && !states[i].calls[c].refused
    ensures RunLined(states[i], r)
    ensures forall c: CallId :: c in states[i].runs[r].calls <==> c < |states[i].calls| && states[i].calls[c].run == Some(r)
    ensures Joined(states[i].calls, states[i].runs[r].calls) == ShownAll(Reported(steps[..i], r))
    ensures InputRequests(Joined(states[i].calls, states[i].runs[r].calls)) == Questions(Reported(steps[..i], r))
    ensures states[i].runs[r].stage.DoneClosed?
  {
    var s := states[i];
    InvAlways(states, steps, i);
    SpotsAreThePlace(s, r);
    LostMeansLostBefore(states, steps, i, r);
    var run := s.runs[r];
    assert RunFlows(run) && RunLined(s, r);
    assert run.sent[..run.got] == run.emitted;
    forall j | 0 <= j < |run.calls|
      ensures s.calls[run.calls[j]].todo == []
    {
      assert Talks(s.calls[run.calls[j]]);
    }
    JoinedWhenDelivered(s.calls, run.calls);
    OneRequestPerQuestion(run.emitted);
    HistoryIsTrue(states, steps, i, r);
    LineAlwaysComplete(states, steps, i);
  }

  lemma {:induction false} ErrorFinalAfterReturn(states: seq<State>, steps: seq<Step>, i: nat, j: nat, r: RunId)
    requires IsTrace(states, steps) && i <= j < |states| && r < |states[i].runs| && !states[i].runs[r].stage.Running?
    ensures r < |states[j].runs| && !states[j].runs[r].stage.Running? && states[j].runs[r].err == states[i].runs[r].err
  {
    if i == j {
    } else {
      ErrorFinalAfterReturn(states, steps, i, j - 1, r);
      StageOnlyAdvances(states[j - 1], steps[j - 1], r);
    }
  }

  /** The run error is read only once it is final: the closing event made from it is the one its
      value at any later time would give. */
  lemma ErrorReadOnlyWhenFinal(states: seq<State>, steps: seq<Step>, i: nat, j: nat)
    requires IsTrace(states, steps) && i < j < |states| && steps[i].ReadResult?
    ensures var c := steps[i].call;
            var r := states[i].calls[c].phase.run;
            && r < |states[j].runs|
            && states[i + 1].calls[c].phase == Closing(ClosingEvent(states[j].runs[r].err, steps[i].row))
            && ReturnedWith(steps[..i], r) == Some(states[j].runs[r].err)
  {
    HistoryIsTrue(states, steps, i, states[i].calls[steps[i].call].phase.run);
    ErrorFinalAfterReturn(states, steps, i, j, states[i].calls[steps[i].call].phase.run);
  }

  // ---------------------------------------------------------------- the grammar of one stream

  /** Every Execute stream follows the grammar at every moment, and one that ends with its client
      listening has been closed. */
  lemma EveryStreamWellFormed(states: seq<State>, steps: seq<Step>, i: nat, c: CallId)
    requires IsTrace(states, steps) && i < |states| && c < |states[i].calls|
    ensures !Scan(states[i].calls[c].stored, states[i].calls[c].out).Broken?
    ensures states[i].calls[c].phase.Returned? && !states[i].calls[c].refused ==>
              Scan(states[i].calls[c].stored, states[i].calls[c].out).Closed?
  {
    InvAlways(states, steps, i);
    assert Talks(states[i].calls[c]);
    assert [SubmittedTask][..0] == [];
  }

  lemma RefusedIsSilent(s: State, st: Step, c: CallId)
    requires Inv(s) && Enabled(s, st) && c < |s.calls| && s.calls[c].refused
    ensures c < |Apply(s, st).calls| && Apply(s, st).calls[c].refused && Apply(s, st).calls[c].out == s.calls[c].out
  {
    assert Talks(s.calls[c]);
    if Actor(st) != Some(c) { OnlyActorMoves(s, st, c); }
  }

  /** Nothing is yielded after a yield answered false. */
  lemma {:induction false} SilentAfterRefusal(states: seq<State>, steps: seq<Step>, i: nat, j: nat, c: CallId)
    requires IsTrace(states, steps) && i <= j < |states| && c < |states[i].calls| && states[i].calls[c].refused
    ensures c < |states[j].calls| && states[j].calls[c].refused && states[j].calls[c].out == states[i].calls[c].out
  {
    if i == j {
    } else {
      SilentAfterRefusal(states, steps, i, j - 1, c);
      InvAlways(states, steps, j - 1);
      RefusedIsSilent(states[j - 1], steps[j - 1], c);
    }
  }

  // What the automaton accepts, said without it.

  predicate AllProgress(out: seq<Out>) {
    forall k :: 0 <= k < |out| ==> IsProgress(out[k])
  }

  lemma {:induction false} OpenStreams(stored: bool, out: seq<Out>)
    ensures Scan(stored, out).Nothing? <==> out == []
    ensures Scan(stored, out).Open? <==>
              |out| > 0 && (if stored then AllProgress(out) else out[0] == SubmittedTask && AllProgress(out[1..]))
  {
    if out == [] {
    } else {
      var front := out[..|out| - 1];
      OpenStreams(stored, front);
      assert |out| > 1 ==> out[1..] == front[1..] + [out[|out| - 1]];
    }
  }

  /** A closed stream is a lone error; or, with no stored task, SUBMITTED, working and artifact
      events, and one closing event; or, with a stored task, the same without SUBMITTED. */
  lemma ClosedStreams(stored: bool, out: seq<Out>)
    ensures Scan(stored, out).Closed? <==>
              || (|out| == 1 && out[0].Error?)
              || (stored && |out| > 0 && AllProgress(out[..|out| - 1]) && IsClosing(out[|out| - 1]))
              || (!stored && |out| > 1 && out[0] == SubmittedTask && AllProgress(out[1..|out| - 1]) && IsClosing(out[|out| - 1]))
  {
    if |out| > 0 {
      var front := out[..|out| - 1];
      OpenStreams(stored, front);
      assert |out| > 1 ==> out[1..|out| - 1] == front[1..];
    }
  }
}
