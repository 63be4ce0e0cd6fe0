/** What every interleaving of the run bridge keeps. */
module A2ABridgeProofs {
  import opened Wrappers
  import opened A2AEvents
  import opened ParkRegistry
  import opened A2ABridge

  // ---------------------------------------------------------------- the invariant

  predicate NamesRun(p: Phase) {
    Holding(p) || p.AtPark?
  }

  /** The history variable `place` says the same as the phases and the registry. */
  ghost predicate Linked(s: State) {
    && (forall c {:trigger s.calls[c]} :: 0 <= c < |s.calls| && NamesRun(s.calls[c].phase) ==>
          s.calls[c].phase.run < |s.runs| && s.runs[s.calls[c].phase.run].task == s.calls[c].task)
    && (forall c {:trigger s.calls[c]} :: 0 <= c < |s.calls| && Holding(s.calls[c].phase) ==>
          s.calls[c].phase.run < |s.runs| && s.runs[s.calls[c].phase.run].place == HeldBy(c))
    && (forall r {:trigger s.runs[r]} :: 0 <= r < |s.runs| && s.runs[r].place.HeldBy? ==>
          s.runs[r].place.call < |s.calls| && Holding(s.calls[s.runs[r].place.call].phase) && s.calls[s.runs[r].place.call].phase.run == r)
    && (forall t {:trigger t in s.parks} :: t in s.parks ==>
          s.parks[t].run < |s.runs| && s.runs[s.parks[t].run].place == ParkedUnder(t) && s.runs[s.parks[t].run].task == t)
    && (forall r {:trigger s.runs[r]} :: 0 <= r < |s.runs| && s.runs[r].place.ParkedUnder? ==>
          s.runs[r].place.task in s.parks && s.parks[s.runs[r].place.task].run == r)
    && (!s.hasResolver ==> s.parks == map[])
  }

  /** A step that moves no run. */
  ghost predicate MovesNothing(s: State, s': State) {
    && s'.parks == s.parks && s'.hasResolver == s.hasResolver
    && |s'.runs| == |s.runs|
    && (forall r {:trigger s'.runs[r]} :: 0 <= r < |s.runs| ==> s'.runs[r].place == s.runs[r].place && s'.runs[r].task == s.runs[r].task)
    && |s'.calls| >= |s.calls|
    && (forall c {:trigger s'.calls[c]} :: 0 <= c < |s'.calls| && NamesRun(s'.calls[c].phase) ==>
          c < |s.calls| && NamesRun(s.calls[c].phase) && s'.calls[c].phase.run == s.calls[c].phase.run && s'.calls[c].task == s.calls[c].task)
    && (forall c {:trigger s'.calls[c]} :: 0 <= c < |s'.calls| ==>
          (Holding(s'.calls[c].phase) <==> c < |s.calls| && Holding(s.calls[c].phase)))
  }

  lemma LinkedStill(s: State, s': State)
    requires Linked(s) && MovesNothing(s, s')
    ensures Linked(s')
  {
    forall r | 0 <= r < |s'.runs| && s'.runs[r].place.HeldBy?
      ensures s'.runs[r].place.call < |s'.calls| && Holding(s'.calls[s'.runs[r].place.call].phase) && s'.calls[s'.runs[r].place.call].phase.run == r
    {
      assert s.runs[r].place == s'.runs[r].place;
      var c := s.runs[r].place.call;
      assert Holding(s.calls[c].phase) && Holding(s'.calls[c].phase);
    }
  }

  /** A step in which call `c` lets go of run `r` for good. */
  ghost predicate Releases(s: State, s': State, c: CallId, r: RunId) {
    && c < |s.calls| && r < |s.runs| && Holding(s.calls[c].phase) && s.calls[c].phase.run == r
    && s'.parks == s.parks && s'.hasResolver == s.hasResolver
    && |s'.runs| == |s.runs| && s'.runs == s.runs[r := s'.runs[r]]
    && s'.runs[r].task == s.runs[r].task && !s'.runs[r].place.HeldBy? && !s'.runs[r].place.ParkedUnder?
    && |s'.calls| == |s.calls| && s'.calls == s.calls[c := s'.calls[c]]
    && !NamesRun(s'.calls[c].phase)
  }

  lemma LinkedRelease(s: State, s': State, c: CallId, r: RunId)
    requires Linked(s) && Releases(s, s', c, r)
    ensures Linked(s')
  {
    assert s.runs[r].place == HeldBy(c);
  }

  lemma LinkedTake(s: State, c: CallId, phase: Phase)
    requires Linked(s) && c < |s.calls| && !NamesRun(s.calls[c].phase) && s.calls[c].task in s.parks
    requires s.parks[s.calls[c].task].run < |s.runs|
    requires Holding(phase) && phase.run == s.parks[s.calls[c].task].run
    ensures Linked(TakePark(s, c, phase))
  {
  }

  lemma LinkedStart(s: State, c: CallId)
    requires Linked(s) && Enabled(s, Start(c))
    ensures Linked(DoStart(s, c))
  {
  }

  /** A park leaves the other runs where they were, or with nobody; and those it leaves parked are
      still in the registry. */
  lemma OthersAfterPark(s: State, r: RunId, task: TaskId, i: RunId)
    requires Linked(s) && r < |s.runs| && s.runs[r].place.HeldBy? && i < |s.runs| && i != r
    ensures var was, now := s.runs[i], RunsAfterPark(s, r, task)[i];
            var parks := AfterPut(s.parks, s.ttl, task, r, s.now);
            && now.task == was.task
            && (now.place == was.place || !(now.place.HeldBy? || now.place.ParkedUnder?))
            && (was.place.HeldBy? ==> now.place == was.place)
            && (now.place.ParkedUnder? ==> now.place.task in parks && parks[now.place.task].run == i)
  {
  }

  lemma ParksAfterPark(s: State, r: RunId, task: TaskId, t: TaskId)
    requires Linked(s) && r < |s.runs| && s.runs[r].place.HeldBy? && s.runs[r].task == task
    requires t in AfterPut(s.parks, s.ttl, task, r, s.now)
    ensures var p := AfterPut(s.parks, s.ttl, task, r, s.now)[t].run;
            p < |s.runs| && RunsAfterPark(s, r, task)[p].place == ParkedUnder(t) && RunsAfterPark(s, r, task)[p].task == t
  {
  }

  lemma LinkedPark(s: State, c: CallId)
    requires Linked(s) && Enabled(s, Receive(c)) && s.hasResolver
    requires s.runs[s.calls[c].phase.run].sent[s.runs[s.calls[c].phase.run].got].InterruptionPending?
    ensures Linked(DoReceive(s, c))
  {
    var s' := DoReceive(s, c);
    var r := s.calls[c].phase.run;
    var task := s.calls[c].task;
    assert s.runs[r].place == HeldBy(c) && s.runs[r].task == task;
    forall i | 0 <= i < |s.runs| && i != r
      ensures s'.runs[i].task == s.runs[i].task
      ensures s'.runs[i].place == s.runs[i].place || !(s'.runs[i].place.HeldBy? || s'.runs[i].place.ParkedUnder?)
      ensures s.runs[i].place.HeldBy? ==> s'.runs[i].place == s.runs[i].place
      ensures s'.runs[i].place.ParkedUnder? ==>
                s'.runs[i].place.task in s'.parks && s'.parks[s'.runs[i].place.task].run == i
    {
      OthersAfterPark(s, r, task, i);
    }
    forall t | t in s'.parks
      ensures s'.parks[t].run < |s'.runs| && s'.runs[s'.parks[t].run].place == ParkedUnder(t) && s'.runs[s'.parks[t].run].task == t
    {
      ParksAfterPark(s, r, task, t);
    }
  }

  /** What a step does to the runs' places. */
  datatype Effect = Still | Release(call: CallId, run: RunId) | Take(call: CallId) | Launch(call: CallId) | DoPark(call: CallId)

  predicate ReceivesQuestion(s: State, st: Step)
    requires Enabled(s, st)
  {
    st.Receive? && var run := s.runs[s.calls[st.call].phase.run]; run.sent[run.got].InterruptionPending?
  }

  function EffectOf(s: State, st: Step): Effect
    requires Enabled(s, st)
  {
    match st
    case Lookup(c) => if s.calls[c].stored && s.calls[c].task in s.parks then Take(c) else Still
    case Reclaim(c) => if s.calls[c].task in s.parks then Take(c) else Still
    case Start(c) => Launch(c)
    case Receive(c) => if !ReceivesQuestion(s, st) then Still else if s.hasResolver then DoPark(c) else Release(c, s.calls[c].phase.run)
    case Yield(c, ok) => if s.calls[c].phase.Streaming? && !ok then Release(c, s.calls[c].phase.run) else Still
    case CancelReclaimed(c) => Release(c, s.calls[c].phase.run)
    case ReadResult(c, _) => Release(c, s.calls[c].phase.run)
    case FailResume(c, _, _) => Release(c, s.calls[c].phase.run)
    case _ => Still
  }

  /** The call a step belongs to. */
  function Actor(st: Step): Option<CallId> {
    match st
    case Arrive(_, _, _) => None
    case Emit(_, _) => None
    case Discard(_, _) => None
    case Finish(_, _) => None
    case CloseOut(_) => None
    case CloseDone(_) => None
    case Tick(_) => None
    case _ => Some(st.call)
  }

  lemma OnlyActorMoves(s: State, st: Step, c: CallId)
    requires Enabled(s, st) && c < |s.calls| && Actor(st) != Some(c)
    ensures c < |Apply(s, st).calls| && Apply(s, st).calls[c] == s.calls[c]
  {
  }

  lemma StillKeepsPlaces(s: State, st: Step)
    requires Enabled(s, st) && EffectOf(s, st).Still?
    ensures var s' := Apply(s, st);
            && s'.parks == s.parks && s'.hasResolver == s.hasResolver && |s'.runs| == |s.runs|
            && forall r {:trigger s'.runs[r]} :: 0 <= r < |s.runs| ==> s'.runs[r].place == s.runs[r].place && s'.runs[r].task == s.runs[r].task
  {
  }

  /** A call holds the same run in both phases, or none in either. */
  predicate HoldsAlike(p: Phase, p': Phase) {
    (NamesRun(p') ==> NamesRun(p) && p'.run == p.run) && (Holding(p') <==> Holding(p))
  }

  lemma StillKeepsActor(s: State, st: Step)
    requires Enabled(s, st) && EffectOf(s, st).Still? && Actor(st).Some?
    ensures st.call < |Apply(s, st).calls| && Apply(s, st).calls[st.call].task == s.calls[st.call].task
    ensures HoldsAlike(s.calls[st.call].phase, Apply(s, st).calls[st.call].phase)
  {
  }

  lemma NewHoldsNothing(s: State, st: Step, c: CallId)
    requires Enabled(s, st) && |s.calls| <= c < |Apply(s, st).calls|
    ensures !NamesRun(Apply(s, st).calls[c].phase)
  {
    assert st.Arrive?;
  }

  lemma StillKeepsCall(s: State, st: Step, c: CallId)
    requires Enabled(s, st) && EffectOf(s, st).Still? && c < |s.calls|
    ensures c < |Apply(s, st).calls| && Apply(s, st).calls[c].task == s.calls[c].task
    ensures HoldsAlike(s.calls[c].phase, Apply(s, st).calls[c].phase)
  {
    if Actor(st) == Some(c) { StillKeepsActor(s, st); } else { OnlyActorMoves(s, st, c); }
  }

  lemma StillMovesNothing(s: State, st: Step)
    requires Enabled(s, st) && EffectOf(s, st).Still?
    ensures MovesNothing(s, Apply(s, st))
  {
    StillKeepsPlaces(s, st);
    var s' := Apply(s, st);
    forall c | 0 <= c < |s'.calls|
      ensures NamesRun(s'.calls[c].phase) ==>
                c < |s.calls| && NamesRun(s.calls[c].phase) && s'.calls[c].phase.run == s.calls[c].phase.run && s'.calls[c].task == s.calls[c].task
      ensures Holding(s'.calls[c].phase) <==> c < |s.calls| && Holding(s.calls[c].phase)
    {
      if c < |s.calls| { StillKeepsCall(s, st, c); } else { NewHoldsNothing(s, st, c); }
    }
  }

  lemma ReleaseReleases(s: State, st: Step)
    requires Enabled(s, st) && EffectOf(s, st).Release?
    ensures Releases(s, Apply(s, st), EffectOf(s, st).call, EffectOf(s, st).run)
  {
  }

  lemma TakeTakes(s: State, st: Step)
    requires Enabled(s, st) && EffectOf(s, st).Take?
    ensures var c := EffectOf(s, st).call;
            && c < |s.calls| && s.calls[c].task in s.parks && s.parks[s.calls[c].task].run < |s.runs| && !NamesRun(s.calls[c].phase)
            && c < |Apply(s, st).calls|
            && (var phase := Apply(s, st).calls[c].phase;
                Holding(phase) && phase.run == s.parks[s.calls[c].task].run && Apply(s, st) == TakePark(s, c, phase))
  {
  }

  lemma LinkedStep(s: State, st: Step)
    requires Linked(s) && Enabled(s, st)
    ensures Linked(Apply(s, st))
  {
    var s' := Apply(s, st);
    match EffectOf(s, st)
    case Still => StillMovesNothing(s, st); LinkedStill(s, s');
    case Release(c, r) => ReleaseReleases(s, st); LinkedRelease(s, s', c, r);
    case Take(c) => TakeTakes(s, st); LinkedTake(s, c, s'.calls[c].phase);
    case Launch(c) => LinkedStart(s, c);
    case DoPark(c) => LinkedPark(s, c);
  }

  // ---------------------------------------------------------------- one run's channel

  ghost predicate RunFlows(run: Run) {
    && run.got <= |run.sent| <= run.got + CHANNEL_CAPACITY
    && (run.cancelled <==> run.place.Stopped?)
    && (!run.cancelled ==> run.sent == run.emitted)
    && (run.stage.Running? ==> run.err.None?)
    && (run.place.Drained? ==> run.stage.DoneClosed? && run.got == |run.sent|)
  }

  predicate StreamOver(run: Run) {
    run.got == |run.sent| && (run.stage.OutClosed? || run.stage.DoneClosed?)
  }

  ghost predicate Flows(s: State) {
    && (forall r {:trigger s.runs[r]} :: 0 <= r < |s.runs| ==> RunFlows(s.runs[r]))
    && (forall c {:trigger s.calls[c]} :: 0 <= c < |s.calls| && s.calls[c].phase.Settling? ==>
          s.calls[c].phase.run < |s.runs| && StreamOver(s.runs[s.calls[c].phase.run]))
  }

  /** A run that is received from, but for where it then is. */
  lemma ReceivedFlows(run: Run, run': Run)
    requires RunFlows(run) && run.place.HeldBy? && run.got < |run.sent|
    requires run' == run.(got := run.got + 1, cancelled := run'.cancelled, place := run'.place)
    requires run'.cancelled <==> run'.place.Stopped?
    requires !run'.place.Drained?
    ensures RunFlows(run')
  {
  }

  /** A run that is moved without being received from. */
  lemma MovedFlows(run: Run, run': Run)
    requires RunFlows(run) && !run.cancelled
    requires run' == run.(cancelled := run'.cancelled, place := run'.place)
    requires (run'.cancelled <==> run'.place.Stopped?) && !run'.place.Drained?
    ensures RunFlows(run')
  {
  }

  lemma ParkFlows(s: State, r: RunId, task: TaskId, i: RunId)
    requires Linked(s) && Flows(s) && r < |s.runs| && s.runs[r].place.HeldBy? && s.runs[r].got < |s.runs[r].sent| && i < |s.runs|
    ensures RunFlows(RunsAfterPark(s, r, task)[i])
  {
    var run, run' := s.runs[i], RunsAfterPark(s, r, task)[i];
    assert RunFlows(run);
    if i == r {
      ReceivedFlows(run, run');
    } else if run' != run {
      assert run.place.ParkedUnder?;
      MovedFlows(run, run');
    }
  }

  lemma ReceiveFlows(s: State, c: CallId, r: RunId)
    requires Linked(s) && Flows(s) && Enabled(s, Receive(c)) && r < |s.runs|
    ensures |DoReceive(s, c).runs| == |s.runs| && RunFlows(DoReceive(s, c).runs[r])
  {
    var q := s.calls[c].phase.run;
    assert RunFlows(s.runs[r]) && s.runs[q].place == HeldBy(c);
    if ReceivesQuestion(s, Receive(c)) && s.hasResolver {
      ParkFlows(s, q, s.calls[c].task, r);
    } else if r == q {
      ReceivedFlows(s.runs[r], DoReceive(s, c).runs[r]);
    }
  }

  lemma ProducerFlows(s: State, st: Step, r: RunId)
    requires Linked(s) && Flows(s) && Enabled(s, st) && Actor(st).None? && r < |Apply(s, st).runs|
    ensures RunFlows(Apply(s, st).runs[r])
  {
    assert r < |s.runs| ==> RunFlows(s.runs[r]);
  }

  lemma CallerFlows(s: State, st: Step, r: RunId)
    requires Linked(s) && Flows(s) && Enabled(s, st) && Actor(st).Some? && !st.Receive? && r < |Apply(s, st).runs|
    ensures RunFlows(Apply(s, st).runs[r])
  {
    assert r < |s.runs| ==> RunFlows(s.runs[r]);
  }

  lemma RunFlowsStep(s: State, st: Step, r: RunId)
    requires Linked(s) && Flows(s) && Enabled(s, st) && r < |Apply(s, st).runs|
    ensures RunFlows(Apply(s, st).runs[r])
  {
    if st.Receive? {
      ReceiveFlows(s, st.call, r);
    } else if Actor(st).Some? {
      CallerFlows(s, st, r);
    } else {
      ProducerFlows(s, st, r);
    }
  }

  /** A stream that is over stays over: nothing is sent once `out` is closed. */
  lemma OverStaysOver(s: State, st: Step, r: RunId)
    requires Enabled(s, st) && r < |s.runs| && StreamOver(s.runs[r])
    ensures r < |Apply(s, st).runs| && StreamOver(Apply(s, st).runs[r])
  {
  }

  /** A call waiting for `done` has drained its stream, and so it stays. */
  lemma SettlingStep(s: State, st: Step, c: CallId)
    requires Flows(s) && Enabled(s, st) && c < |Apply(s, st).calls| && Apply(s, st).calls[c].phase.Settling?
    ensures var r := Apply(s, st).calls[c].phase.run; r < |Apply(s, st).runs| && StreamOver(Apply(s, st).runs[r])
  {
    var r := Apply(s, st).calls[c].phase.run;
    SettlingBefore(s, st, c);
    OverStaysOver(s, st, r);
  }

  /** It was waiting already, or this step found its stream over. */
  lemma SettlesBy(s: State, st: Step, c: CallId)
    requires Enabled(s, st) && c < |Apply(s, st).calls| && Apply(s, st).calls[c].phase.Settling?
    ensures c < |s.calls|
    ensures s.calls[c].phase == Apply(s, st).calls[c].phase
            || (st == EndOfStream(c) && s.calls[c].phase.run == Apply(s, st).calls[c].phase.run)
  {
    if c < |s.calls| && Actor(st) != Some(c) { OnlyActorMoves(s, st, c); }
  }

  lemma SettlingBefore(s: State, st: Step, c: CallId)
    requires Flows(s) && Enabled(s, st) && c < |Apply(s, st).calls| && Apply(s, st).calls[c].phase.Settling?
    ensures var r := Apply(s, st).calls[c].phase.run; r < |s.runs| && StreamOver(s.runs[r])
  {
    SettlesBy(s, st, c);
  }

  lemma FlowsStep(s: State, st: Step)
    requires Linked(s) && Flows(s) && Enabled(s, st)
    ensures Flows(Apply(s, st))
  {
    var s' := Apply(s, st);
    forall r | 0 <= r < |s'.runs| ensures RunFlows(s'.runs[r]) { RunFlowsStep(s, st, r); }
    forall c | 0 <= c < |s'.calls| && s'.calls[c].phase.Settling?
      ensures s'.calls[c].phase.run < |s'.runs| && StreamOver(s'.runs[s'.calls[c].phase.run])
    {
      SettlingStep(s, st, c);
    }
  }

  // ---------------------------------------------------------------- one call's yields

  predicate Going(call: Call) {
    var m := Scan(call.stored, call.out);
    m.Open? || (call.stored && m.Nothing?)
  }

  predicate Untouched(call: Call) {
    call.todo == [] && call.run.None? && !call.refused
  }

  ghost predicate Talks(call: Call) {
    match call.phase
    case Entered => call.out == [] && Untouched(call)
    case Fresh => call.out == [] && Untouched(call)
    case Submitting(_) => call.out == [] && Untouched(call) && !call.stored
    case Resuming(_) => call.out == [] && Untouched(call) && call.stored
    case Ready => call.out == (if call.stored then [] else [SubmittedTask]) && Untouched(call)
    case Streaming(r) => call.run == Some(r) && !call.refused && Going(call) && (forall o :: o in call.todo ==> IsProgress(o))
    case Settling(r) => call.run == Some(r) && !call.refused && Going(call) && call.todo == []
    case AtPark(r) => call.run == Some(r) && !call.refused && Going(call) && |call.todo| == 1 && IsInputRequired(call.todo[0])
    case AtDeadPark => !call.refused && Going(call) && |call.todo| == 1 && IsInputRequired(call.todo[0])
    case Abandoned => call.refused && Scan(call.stored, call.out).Closed?
    case Reclaiming(_) => call.refused && Scan(call.stored, call.out).Closed?
    case Closing(o) => !call.refused && call.todo == []
                       && ((o.Error? && call.out == []) || (o.Status? && Terminal(o.state) && Going(call)))
    case Returned => !Scan(call.stored, call.out).Broken?
                     && (!call.refused ==> Scan(call.stored, call.out).Closed? && call.todo == [])
  }

  lemma SayReads(call: Call, o: Out, rest: seq<Out>, ok: bool, next: Phase)
    ensures var said := Say(call, o, rest, ok, next);
            && Scan(call.stored, said.out) == Read(call.stored, Scan(call.stored, call.out), o)
            && RunPart(said.out) == RunPart(call.out) + (if IsProgress(o) || IsInputRequired(o) then [o] else [])
  {
    var said := Say(call, o, rest, ok, next);
    assert said.out[..|said.out| - 1] == call.out;
  }

  lemma HeadTalks(call: Call, ok: bool, next: Phase)
    requires Talks(call) && call.phase.Submitting?
    requires next == if !ok then Returned else if call.phase.reject.Some? then Closing(Status(Failed, call.phase.reject.value)) else Ready
    ensures var said := Say(call, SubmittedTask, call.todo, ok, next); Talks(said) && Log(said) == Log(call)
  {
    SayReads(call, SubmittedTask, call.todo, ok, next);
  }

  lemma BodyLog(call: Call, ok: bool, next: Phase)
    requires call.todo != [] && (IsProgress(call.todo[0]) || IsInputRequired(call.todo[0]))
    ensures Log(Say(call, call.todo[0], call.todo[1..], ok, next)) == Log(call)
  {
    var o := call.todo[0];
    SayReads(call, o, call.todo[1..], ok, next);
    assert RunPart(call.out) + [o] + call.todo[1..] == RunPart(call.out) + call.todo;
  }

  lemma BodyTalks(call: Call, ok: bool, next: Phase)
    requires Talks(call) && call.todo != [] && (call.phase.Streaming? || call.phase.AtPark? || call.phase.AtDeadPark?)
    requires next == if call.phase.Streaming? then (if ok then call.phase else Returned)
                     else if call.phase.AtPark? && !ok then Abandoned else Returned
    ensures var said := Say(call, call.todo[0], call.todo[1..], ok, next); Talks(said) && Log(said) == Log(call)
  {
    if call.phase.Streaming? { ProgressTalks(call, ok, next); } else { QuestionTalks(call, ok, next); }
    BodyLog(call, ok, next);
  }

  lemma ProgressTalks(call: Call, ok: bool, next: Phase)
    requires Talks(call) && call.todo != [] && call.phase.Streaming? && next == if ok then call.phase else Returned
    ensures IsProgress(call.todo[0]) && Talks(Say(call, call.todo[0], call.todo[1..], ok, next))
  {
    assert call.todo[0] in call.todo;
    SayReads(call, call.todo[0], call.todo[1..], ok, next);
  }

  lemma QuestionTalks(call: Call, ok: bool, next: Phase)
    requires Talks(call) && (call.phase.AtPark? || call.phase.AtDeadPark?)
    requires next == if call.phase.AtPark? && !ok then Abandoned else Returned
    ensures call.todo != [] && IsInputRequired(call.todo[0]) && Talks(Say(call, call.todo[0], call.todo[1..], ok, next))
  {
    SayReads(call, call.todo[0], call.todo[1..], ok, next);
  }

  lemma LastTalks(call: Call, ok: bool)
    requires Talks(call) && call.phase.Closing?
    ensures var said := Say(call, call.phase.event, call.todo, ok, Returned); Talks(said) && Log(said) == Log(call)
  {
    SayReads(call, call.phase.event, call.todo, ok, Returned);
  }

  lemma ReceiveTalks(s: State, c: CallId)
    requires Enabled(s, Receive(c)) && Talks(s.calls[c])
    ensures Talks(DoReceive(s, c).calls[c])
  {
    var run := s.runs[s.calls[c].phase.run];
    assert Shown(run.sent[run.got]) == DoReceive(s, c).calls[c].todo;
  }

  lemma QuietTalks(s: State, st: Step)
    requires Enabled(s, st) && Actor(st).Some? && !st.YieldHead? && !st.Yield? && !st.YieldLast? && !st.Receive?
    requires Talks(s.calls[st.call])
    ensures Talks(Apply(s, st).calls[st.call])
  {
    assert [SubmittedTask][..0] == [];
  }

  lemma ActorTalks(s: State, st: Step)
    requires Enabled(s, st) && Actor(st).Some? && Talks(s.calls[st.call])
    ensures Talks(Apply(s, st).calls[st.call])
  {
    match st
    case YieldHead(c, ok) => HeadTalks(s.calls[c], ok, Apply(s, st).calls[c].phase);
    case Yield(c, ok) => BodyTalks(s.calls[c], ok, Apply(s, st).calls[c].phase);
    case YieldLast(c, ok) => LastTalks(s.calls[c], ok);
    case Receive(c) => ReceiveTalks(s, c);
    case _ => QuietTalks(s, st);
  }

  ghost predicate AllTalk(s: State) {
    forall c {:trigger s.calls[c]} :: 0 <= c < |s.calls| ==> Talks(s.calls[c])
  }

  lemma TalksStep(s: State, st: Step)
    requires AllTalk(s) && Enabled(s, st)
    ensures AllTalk(Apply(s, st))
  {
    var s' := Apply(s, st);
    forall c | 0 <= c < |s'.calls|
      ensures Talks(s'.calls[c])
    {
      if c >= |s.calls| {
      } else if Actor(st) == Some(c) {
        ActorTalks(s, st);
      } else {
        OnlyActorMoves(s, st, c);
      }
    }
  }

  // ---------------------------------------------------------------- the lines of calls that streamed one run

  /** The calls that streamed run `r` are distinct, and their logs joined show what was received. */
  ghost predicate LineOk(calls: seq<Call>, r: RunId, ids: seq<CallId>, sent: seq<Event>, got: nat) {
    && (forall i {:trigger ids[i]} :: 0 <= i < |ids| ==> ids[i] < |calls| && calls[ids[i]].run == Some(r))
    && (forall i, j :: 0 <= i < j < |ids| ==> ids[i] != ids[j])
    && got <= |sent|
    && JoinedLogs(calls, ids) == ShownAll(sent[..got])
  }

  ghost predicate RunLined(s: State, r: RunId)
    requires r < |s.runs|
  {
    LineOk(s.calls, r, s.runs[r].calls, s.runs[r].sent, s.runs[r].got)
  }

  /** The call inside the receive loop of a run is the latest in that run's line. */
  ghost predicate CallLined(s: State, c: CallId)
    requires c < |s.calls|
  {
    var call := s.calls[c];
    call.phase.Streaming? || call.phase.Settling? ==>
      call.phase.run < |s.runs| && var ids := s.runs[call.phase.run].calls; |ids| > 0 && ids[|ids| - 1] == c
  }

  ghost predicate Lined(s: State) {
    && (forall r {:trigger s.runs[r]} :: 0 <= r < |s.runs| ==> RunLined(s, r))
    && (forall c {:trigger s.calls[c]} :: 0 <= c < |s.calls| ==> CallLined(s, c))
  }

  lemma {:induction false} JoinedLogsSame(calls: seq<Call>, calls': seq<Call>, ids: seq<CallId>)
    requires forall i {:trigger ids[i]} :: 0 <= i < |ids| ==> ids[i] < |calls| && ids[i] < |calls'| && Log(calls[ids[i]]) == Log(calls'[ids[i]])
    ensures JoinedLogs(calls, ids) == JoinedLogs(calls', ids)
  {
    if ids == [] {
    } else {
      JoinedLogsSame(calls, calls', ids[..|ids| - 1]);
    }
  }

  lemma LogKept(s: State, st: Step, c: CallId)
    requires Enabled(s, st) && c < |s.calls| && Talks(s.calls[c]) && !(st.Receive? && st.call == c)
    ensures c < |Apply(s, st).calls| && Log(Apply(s, st).calls[c]) == Log(s.calls[c])
  {
    if Actor(st) != Some(c) {
      OnlyActorMoves(s, st, c);
    } else {
      match st
      case YieldHead(_, ok) => HeadTalks(s.calls[c], ok, Apply(s, st).calls[c].phase);
      case Yield(_, ok) => BodyTalks(s.calls[c], ok, Apply(s, st).calls[c].phase);
      case YieldLast(_, ok) => LastTalks(s.calls[c], ok);
      case _ =>
    }
  }

  /** A call keeps the run it streams. */
  lemma CallRunKept(s: State, st: Step, c: CallId)
    requires Enabled(s, st) && c < |s.calls| && Talks(s.calls[c]) && s.calls[c].run.Some?
    ensures c < |Apply(s, st).calls| && Apply(s, st).calls[c].run == s.calls[c].run
  {
    if Actor(st) != Some(c) { OnlyActorMoves(s, st, c); }
  }

  lemma ReceiveLineChange(s: State, c: CallId, r: RunId)
    requires Enabled(s, Receive(c)) && r < |s.runs|
    ensures var run := DoReceive(s, c).runs[r];
            && |DoReceive(s, c).runs| == |s.runs|
            && run.calls == s.runs[r].calls && run.sent == s.runs[r].sent
            && run.got == if s.calls[c].phase.run == r then s.runs[r].got + 1 else s.runs[r].got
  {
  }

  lemma OtherLineChange(s: State, st: Step, r: RunId)
    requires Enabled(s, st) && !st.Receive? && r < |s.runs|
    ensures var s' := Apply(s, st);
            && r < |s'.runs| && s.runs[r].sent <= s'.runs[r].sent && s'.runs[r].got == s.runs[r].got
            && s'.runs[r].calls == if st.Attach? && s.calls[st.call].phase.run == r then s.runs[r].calls + [st.call] else s.runs[r].calls
  {
  }

  /** What a step does to the run's received events and line of calls. */
  lemma RunLineChange(s: State, st: Step, r: RunId)
    requires Linked(s) && AllTalk(s) && Enabled(s, st) && r < |s.runs| && s.runs[r].got <= |s.runs[r].sent|
    ensures var s' := Apply(s, st);
            && r < |s'.runs|
            && s.runs[r].sent <= s'.runs[r].sent
            && s'.runs[r].calls == (if st.Attach? && s.calls[st.call].phase.run == r then s.runs[r].calls + [st.call] else s.runs[r].calls)
            && s'.runs[r].got == (if st.Receive? && s.calls[st.call].phase.run == r then s.runs[r].got + 1 else s.runs[r].got)
  {
    if st.Receive? { ReceiveLineChange(s, st.call, r); } else { OtherLineChange(s, st, r); }
  }

  ghost predicate Inv(s: State) {
    Linked(s) && Flows(s) && AllTalk(s) && Lined(s)
  }

  lemma LinedStart(s: State, c: CallId)
    requires Enabled(s, Start(c)) && Talks(s.calls[c])
    ensures RunLined(DoStart(s, c), |s.runs|)
  {
    var s' := DoStart(s, c);
    assert [c][..0] == [] && [SubmittedTask][..0] == [];
    assert JoinedLogs(s'.calls, [c]) == [] + Log(s'.calls[c]);
  }

  lemma LogOfRunKept(s: State, st: Step, r: RunId, c: CallId)
    requires AllTalk(s) && Enabled(s, st) && c < |s.calls| && s.calls[c].run == Some(r)
    requires !(st.Receive? && s.calls[st.call].phase.run == r)
    ensures c < |Apply(s, st).calls| && Apply(s, st).calls[c].run == Some(r) && Log(Apply(s, st).calls[c]) == Log(s.calls[c])
  {
    CallRunKept(s, st, c);
    assert st.Receive? ==> Talks(s.calls[st.call]) && s.calls[st.call].run != Some(r);
    LogKept(s, st, c);
  }

  /** Nothing the step does shows in the logs of run `r`. */
  lemma LinedSame(s: State, st: Step, r: RunId)
    requires Inv(s) && Enabled(s, st) && r < |s.runs|
    requires !(st.Attach? && s.calls[st.call].phase.run == r)
    requires !(st.Receive? && s.calls[st.call].phase.run == r)
    ensures r < |Apply(s, st).runs| && RunLined(Apply(s, st), r)
  {
    var s' := Apply(s, st);
    RunLineChange(s, st, r);
    var ids := s.runs[r].calls;
    assert RunLined(s, r);
    forall i | 0 <= i < |ids|
      ensures ids[i] < |s'.calls| && s'.calls[ids[i]].run == Some(r) && Log(s'.calls[ids[i]]) == Log(s.calls[ids[i]])
    {
      LogOfRunKept(s, st, r, ids[i]);
    }
    JoinedLogsSame(s.calls, s'.calls, ids);
    assert s'.runs[r].sent[..s'.runs[r].got] == s.runs[r].sent[..s.runs[r].got];
  }

  lemma LinedAttach(s: State, c: CallId)
    requires Inv(s) && Enabled(s, Attach(c))
    ensures RunLined(DoAttach(s, c), s.calls[c].phase.run)
  {
    var s' := DoAttach(s, c);
    var r := s.calls[c].phase.run;
    var ids := s.runs[r].calls;
    assert RunLined(s, r) && Talks(s.calls[c]);
    assert c !in ids;
    JoinedLogsSame(s.calls, s'.calls, ids);
    assert (ids + [c])[..|ids + [c]| - 1] == ids;
    assert Log(s'.calls[c]) == [];
  }

  lemma ReceiveGrowsLog(s: State, c: CallId)
    requires Enabled(s, Receive(c))
    ensures var s' := DoReceive(s, c);
            && s'.calls == s.calls[c := s'.calls[c]]
            && s'.calls[c].run == s.calls[c].run
            && (var run := s.runs[s.calls[c].phase.run]; Log(s'.calls[c]) == Log(s.calls[c]) + Shown(run.sent[run.got]))
  {
  }

  lemma JoinedGrows(calls: seq<Call>, calls': seq<Call>, ids: seq<CallId>, extra: seq<Out>)
    requires forall i {:trigger ids[i]} :: 0 <= i < |ids| ==> ids[i] < |calls|
    requires forall i, j :: 0 <= i < j < |ids| ==> ids[i] != ids[j]
    requires |ids| > 0 && |calls'| == |calls|
    requires var c := ids[|ids| - 1]; calls' == calls[c := calls'[c]] && Log(calls'[c]) == Log(calls[c]) + extra
    ensures JoinedLogs(calls', ids) == JoinedLogs(calls, ids) + extra
  {
    JoinedLogsSame(calls, calls', ids[..|ids| - 1]);
  }

  /** Lined calls stay lined when the latest of them logs what the next event shows. */
  lemma LineGrows(calls: seq<Call>, calls': seq<Call>, r: RunId, ids: seq<CallId>, sent: seq<Event>, got: nat)
    requires LineOk(calls, r, ids, sent, got) && |ids| > 0 && |calls'| == |calls| && got < |sent|
    requires var c := ids[|ids| - 1];
             calls' == calls[c := calls'[c]] && calls'[c].run == calls[c].run && Log(calls'[c]) == Log(calls[c]) + Shown(sent[got])
    ensures LineOk(calls', r, ids, sent, got + 1)
  {
    JoinedGrows(calls, calls', ids, Shown(sent[got]));
    ShownGrows(sent, got);
  }

  lemma LinedReceive(s: State, c: CallId)
    requires Enabled(s, Receive(c)) && RunLined(s, s.calls[c].phase.run) && CallLined(s, c)
    ensures RunLined(DoReceive(s, c), s.calls[c].phase.run)
  {
    var r := s.calls[c].phase.run;
    ReceiveLineChange(s, c, r);
    ReceiveGrowsLog(s, c);
    var run := s.runs[r];
    LineGrows(s.calls, DoReceive(s, c).calls, r, run.calls, run.sent, run.got);
  }

  lemma NewRunLined(s: State, st: Step, r: RunId)
    requires AllTalk(s) && Enabled(s, st) && |s.runs| <= r < |Apply(s, st).runs|
    ensures RunLined(Apply(s, st), r)
  {
    assert st.Start?;
    LinedStart(s, st.call);
  }

  lemma RunLinedStep(s: State, st: Step, r: RunId)
    requires Inv(s) && Enabled(s, st) && r < |Apply(s, st).runs|
    ensures RunLined(Apply(s, st), r)
  {
    if r >= |s.runs| {
      NewRunLined(s, st, r);
    } else if st.Attach? && s.calls[st.call].phase.run == r {
      LinedAttach(s, st.call);
    } else if st.Receive? && s.calls[st.call].phase.run == r {
      LinedReceive(s, st.call);
    } else {
      LinedSame(s, st, r);
    }
  }

  lemma LinedStep(s: State, st: Step)
    requires Inv(s) && Enabled(s, st)
    ensures Lined(Apply(s, st))
  {
    var s' := Apply(s, st);
    forall r | 0 <= r < |s'.runs|
      ensures RunLined(s', r)
    {
      RunLinedStep(s, st, r);
    }
    forall c | 0 <= c < |s'.calls|
      ensures CallLined(s', c)
    {
      CallLinedStep(s, st, c);
    }
  }

  lemma OtherStaysLined(s: State, st: Step, c: CallId)
    requires Inv(s) && Enabled(s, st) && c < |s.calls| && Actor(st) != Some(c)
    ensures c < |Apply(s, st).calls| && CallLined(Apply(s, st), c)
  {
    OnlyActorMoves(s, st, c);
    var phase := s.calls[c].phase;
    if phase.Streaming? || phase.Settling? {
      assert CallLined(s, c) && Holding(phase) && RunLined(s, phase.run);
      assert st.Attach? ==> Holding(s.calls[st.call].phase);
      RunLineChange(s, st, phase.run);
    }
  }

  predicate InLoop(p: Phase) {
    p.Streaming? || p.Settling?
  }

  /** A call gets into the receive loop of a run only by starting it or taking it up. */
  lemma EntersLoopBy(s: State, st: Step, c: CallId)
    requires Enabled(s, st) && Actor(st) == Some(c) && !st.Start? && !st.Attach?
    ensures c < |Apply(s, st).calls|
    ensures InLoop(Apply(s, st).calls[c].phase) ==> s.calls[c].phase.Streaming? && Apply(s, st).calls[c].phase.run == s.calls[c].phase.run
  {
  }

  lemma ActorStaysLined(s: State, st: Step, c: CallId)
    requires Linked(s) && AllTalk(s) && Enabled(s, st) && Actor(st) == Some(c) && CallLined(s, c)
    requires s.calls[c].phase.Streaming? ==> RunLined(s, s.calls[c].phase.run)
    ensures CallLined(Apply(s, st), c)
  {
    if st.Start? {
      assert Apply(s, st) == DoStart(s, c);
    } else if st.Attach? {
      assert Apply(s, st) == DoAttach(s, c);
    } else {
      EntersLoopBy(s, st, c);
      if s.calls[c].phase.Streaming? { RunLineChange(s, st, s.calls[c].phase.run); }
    }
  }

  lemma NewCallLined(s: State, st: Step, c: CallId)
    requires Enabled(s, st) && |s.calls| <= c < |Apply(s, st).calls|
    ensures CallLined(Apply(s, st), c)
  {
    assert st.Arrive?;
  }

  lemma CallLinedStep(s: State, st: Step, c: CallId)
    requires Inv(s) && Enabled(s, st) && c < |Apply(s, st).calls|
    ensures CallLined(Apply(s, st), c)
  {
    if c >= |s.calls| {
      NewCallLined(s, st, c);
    } else if Actor(st) == Some(c) {
      ActorStaysLined(s, st, c);
    } else {
      OtherStaysLined(s, st, c);
    }
  }

  lemma InvStep(s: State, st: Step)
    requires Inv(s) && Enabled(s, st)
    ensures Inv(Apply(s, st))
  {
    LinkedStep(s, st);
    FlowsStep(s, st);
    TalksStep(s, st);
    LinedStep(s, st);
  }

  lemma {:induction false} InvAlways(states: seq<State>, steps: seq<Step>, i: nat)
    requires IsTrace(states, steps) && i < |states|
    ensures Inv(states[i])
  {
    if i == 0 {
    } else {
      InvAlways(states, steps, i - 1);
      InvStep(states[i - 1], steps[i - 1]);
    }
  }
}
