/** The run bridge of internal/a2a/executor.go as a transition system: detached runs, each with
    its bounded channel, its done signal and its cancel; any number of Execute calls; and the
    park registry they share. One step is what happens between two points where another
    goroutine may interleave, so a trace is one interleaving. */
module A2ABridge {
  import opened Wrappers
  import opened A2AEvents
  import opened ParkRegistry

  type CallId = nat

  /** The run goroutine: inside RunOnce, returned from it, `out` closed, `done` closed. */
  datatype Stage = Running | Finished | OutClosed | DoneClosed

  /** Where a run is, kept as a history variable beside the real state. */
  datatype Place = HeldBy(call: CallId) | ParkedUnder(task: TaskId) | Stopped | Lost | Drained

  /** `emitted` is everything RunOnce reported, `sent` what went into the channel, and the first
      `got` of those have been received; so the channel holds sent[got..]. `calls` lists the
      Execute calls that streamed the run, oldest first. */
  datatype Run = Run(
    task: TaskId,
    emitted: seq<Event>,
    sent: seq<Event>,
    got: nat,
    cancelled: bool,
    stage: Stage,
    err: Option<string>,
    calls: seq<CallId>,
    place: Place)

  const CHANNEL_CAPACITY := 16

  datatype Phase =
    | Entered                          // before the park lookup
    | Resuming(run: RunId)             // park taken, the resume checks still ahead
    | Fresh                            // no park: a new run is to be admitted
    | Submitting(reject: Option<string>) // SUBMITTED about to be yielded
    | Ready                            // startRun is next
    | Streaming(run: RunId)            // inside the receive loop
    | AtPark(run: RunId)               // parked, INPUT_REQUIRED about to be yielded
    | AtDeadPark                       // cancelled for want of a resolver, INPUT_REQUIRED about to be yielded
    | Abandoned                        // the client left at the park; the park is to be reclaimed
    | Reclaiming(run: RunId)           // reclaimed, cancel is next
    | Settling(run: RunId)             // `out` drained, waiting for `done`
    | Closing(event: Out)              // the last yield
    | Returned

  /** `out` is what was yielded, `todo` what the event in hand still has to yield, `refused`
      whether a yield answered false, `run` the run this call streams. */
  datatype Call = Call(
    task: TaskId,
    stored: bool,
    phase: Phase,
    out: seq<Out>,
    todo: seq<Out>,
    refused: bool,
    run: Option<RunId>)

  datatype State = State(
    hasResolver: bool,
    ttl: int,
    now: int,
    runs: seq<Run>,
    calls: seq<Call>,
    parks: map<TaskId, Park>)

  datatype Verdict = RateRefused(why: string) | BadInput(cause: string) | Accepted

  datatype ResumeFailure = RunNotLocated | AnswerUnusable | AnswerEmpty | ResolveFailed

  datatype Step =
    | Arrive(task: TaskId, stored: bool, nilMessage: bool)
    | Lookup(call: CallId)
    | Prepare(call: CallId, verdict: Verdict)
    | YieldHead(call: CallId, ok: bool)
    | Start(call: CallId)
    | Emit(run: RunId, ev: Event)
    | Discard(run: RunId, ev: Event)
    | Finish(run: RunId, err: Option<string>)
    | CloseOut(run: RunId)
    | CloseDone(run: RunId)
    | Receive(call: CallId)
    | Yield(call: CallId, ok: bool)
    | Reclaim(call: CallId)
    | CancelReclaimed(call: CallId)
    | EndOfStream(call: CallId)
    | ReadResult(call: CallId, row: Option<RunRow>)
    | FailResume(call: CallId, failure: ResumeFailure, detail: string)
    | Attach(call: CallId)
    | YieldLast(call: CallId, ok: bool)
    | Tick(elapsed: int)              // the clock may be set back

  function ResumeFailureText(f: ResumeFailure, detail: string): string {
    match f
    case RunNotLocated => "a2a executor: resume could not locate the parked run: " + detail
    case AnswerUnusable => "a2a executor: resume message content unusable (only text parts are accepted): " + detail
    case AnswerEmpty => "a2a executor: resume message carried no usable text answer"
    case ResolveFailed => "a2a executor: resolve interruption failed: " + detail
  }

  function Init(hasResolver: bool, ttl: int, now: int): State {
    State(hasResolver, ttl, now, [], [], map[])
  }

  predicate OnRun(s: State, c: CallId) {
    c < |s.calls| && s.calls[c].phase.Streaming? && s.calls[c].phase.run < |s.runs|
  }

  predicate Enabled(s: State, st: Step) {
    match st
    case Arrive(_, _, _) => true
    case Lookup(c) => c < |s.calls| && s.calls[c].phase.Entered?
                      && (s.calls[c].task in s.parks ==> s.parks[s.calls[c].task].run < |s.runs|)
    case Prepare(c, _) => c < |s.calls| && s.calls[c].phase.Fresh?
    case YieldHead(c, _) => c < |s.calls| && s.calls[c].phase.Submitting?
    case Start(c) => c < |s.calls| && s.calls[c].phase.Ready?
    case Emit(r, _) => r < |s.runs| && s.runs[r].stage.Running? && |s.runs[r].sent| - s.runs[r].got < CHANNEL_CAPACITY
    case Discard(r, _) => r < |s.runs| && s.runs[r].stage.Running? && s.runs[r].cancelled
    case Finish(r, _) => r < |s.runs| && s.runs[r].stage.Running?
    case CloseOut(r) => r < |s.runs| && s.runs[r].stage.Finished?
    case CloseDone(r) => r < |s.runs| && s.runs[r].stage.OutClosed?
    case Receive(c) => OnRun(s, c) && s.calls[c].todo == [] && s.runs[s.calls[c].phase.run].got < |s.runs[s.calls[c].phase.run].sent|
    case Yield(c, _) => c < |s.calls| && s.calls[c].todo != []
                        && (OnRun(s, c) || s.calls[c].phase.AtPark? || s.calls[c].phase.AtDeadPark?)
    case Reclaim(c) => c < |s.calls| && s.calls[c].phase.Abandoned?
                       && (s.calls[c].task in s.parks ==> s.parks[s.calls[c].task].run < |s.runs|)
    case CancelReclaimed(c) => c < |s.calls| && s.calls[c].phase.Reclaiming? && s.calls[c].phase.run < |s.runs|
    case EndOfStream(c) => OnRun(s, c) && s.calls[c].todo == []
                           && (var run := s.runs[s.calls[c].phase.run]; run.got == |run.sent| && (run.stage.OutClosed? || run.stage.DoneClosed?))
    case ReadResult(c, _) => c < |s.calls| && s.calls[c].phase.Settling? && s.calls[c].phase.run < |s.runs|
                             && s.runs[s.calls[c].phase.run].stage.DoneClosed?
    case FailResume(c, _, _) => c < |s.calls| && s.calls[c].phase.Resuming? && s.calls[c].phase.run < |s.runs|
    case Attach(c) => c < |s.calls| && s.calls[c].phase.Resuming? && s.calls[c].phase.run < |s.runs|
    case YieldLast(c, _) => c < |s.calls| && s.calls[c].phase.Closing?
    case Tick(_) => true
  }

  // ---------------------------------------------------------------- the steps

  function Go(s: State, c: CallId, phase: Phase): State
    requires c < |s.calls|
  {
    s.(calls := s.calls[c := s.calls[c].(phase := phase)])
  }

  function SetRun(s: State, r: RunId, run: Run): State
    requires r < |s.runs|
  {
    s.(runs := s.runs[r := run])
  }

  /** One yield: `o` goes to the client, whose answer is `ok`. */
  function Say(call: Call, o: Out, rest: seq<Out>, ok: bool, next: Phase): Call {
    call.(out := call.out + [o], todo := rest, refused := !ok, phase := next)
  }

  function TakePark(s: State, c: CallId, phase: Phase): State
    requires c < |s.calls| && s.calls[c].task in s.parks && s.parks[s.calls[c].task].run < |s.runs|
  {
    var task := s.calls[c].task;
    var r := s.parks[task].run;
    var s1 := s.(parks := s.parks - {task}, runs := s.runs[r := s.runs[r].(place := HeldBy(c))]);
    Go(s1, c, phase)
  }

  function Stop(s: State, r: RunId): State
    requires r < |s.runs|
  {
    SetRun(s, r, s.runs[r].(cancelled := true, place := Stopped))
  }

  function DoLookup(s: State, c: CallId): State
    requires Enabled(s, Lookup(c))
  {
    if s.calls[c].stored && s.calls[c].task in s.parks then TakePark(s, c, Resuming(s.parks[s.calls[c].task].run))
    else Go(s, c, Fresh)
  }

  function DoPrepare(s: State, c: CallId, v: Verdict): State
    requires Enabled(s, Prepare(c, v))
  {
    match v
    case RateRefused(why) => Go(s, c, Closing(Error(why)))
    case BadInput(cause) => if s.calls[c].stored then Go(s, c, Closing(Status(Failed, cause))) else Go(s, c, Submitting(Some(cause)))
    case Accepted => if s.calls[c].stored then Go(s, c, Ready) else Go(s, c, Submitting(None))
  }

  function DoYieldHead(s: State, c: CallId, ok: bool): State
    requires Enabled(s, YieldHead(c, ok))
  {
    var call := s.calls[c];
    var next := if !ok then Returned
                else if call.phase.reject.Some? then Closing(Status(Failed, call.phase.reject.value)) else Ready;
    s.(calls := s.calls[c := Say(call, SubmittedTask, call.todo, ok, next)])
  }

  function DoStart(s: State, c: CallId): State
    requires Enabled(s, Start(c))
  {
    var r := |s.runs|;
    var run := Run(s.calls[c].task, [], [], 0, false, Running, None, [c], HeldBy(c));
    s.(runs := s.runs + [run], calls := s.calls[c := s.calls[c].(phase := Streaming(r), run := Some(r))])
  }

  function DoEmit(s: State, r: RunId, ev: Event): State
    requires Enabled(s, Emit(r, ev))
  {
    var run := s.runs[r];
    SetRun(s, r, run.(emitted := run.emitted + [ev], sent := run.sent + [ev]))
  }

  /** The runs after a park: the parking one goes under its task, the expired ones are cancelled,
      and one overwritten within its time is left with nobody. */
  function RunsAfterPark(s: State, r: RunId, task: TaskId): (runs: seq<Run>)
    requires r < |s.runs|
    ensures |runs| == |s.runs|
  {
    seq(|s.runs|, i requires 0 <= i < |s.runs| =>
      var run := s.runs[i];
      if i == r then run.(got := run.got + 1, place := ParkedUnder(task))
      else if i in Reaped(s.parks, s.ttl, s.now) then run.(cancelled := true, place := Stopped)
      else if Overwrites(s.parks, s.ttl, task, s.now, i) then run.(place := Lost)
      else run)
  }

  function DoReceive(s: State, c: CallId): State
    requires Enabled(s, Receive(c))
  {
    var call := s.calls[c];
    var r := call.phase.run;
    var run := s.runs[r];
    var ev := run.sent[run.got];
    if !ev.InterruptionPending? then
      s.(runs := s.runs[r := run.(got := run.got + 1)], calls := s.calls[c := call.(todo := Translate(ev))])
    else if !s.hasResolver then
      s.(runs := s.runs[r := run.(got := run.got + 1, cancelled := true, place := Stopped)],
         calls := s.calls[c := call.(phase := AtDeadPark, todo := Shown(ev))])
    else
      s.(runs := RunsAfterPark(s, r, call.task),
         parks := AfterPut(s.parks, s.ttl, call.task, r, s.now),
         calls := s.calls[c := call.(phase := AtPark(r), todo := Shown(ev))])
  }

  function DoYield(s: State, c: CallId, ok: bool): State
    requires Enabled(s, Yield(c, ok))
  {
    var call := s.calls[c];
    var next := if call.phase.Streaming? then (if ok then call.phase else Returned)
                else if call.phase.AtPark? && !ok then Abandoned
                else Returned;
    var s1 := s.(calls := s.calls[c := Say(call, call.todo[0], call.todo[1..], ok, next)]);
    if call.phase.Streaming? && !ok then Stop(s1, call.phase.run) else s1
  }

  function DoReclaim(s: State, c: CallId): State
    requires Enabled(s, Reclaim(c))
  {
    if s.calls[c].task in s.parks then TakePark(s, c, Reclaiming(s.parks[s.calls[c].task].run)) else Go(s, c, Returned)
  }

  function DoReadResult(s: State, c: CallId, row: Option<RunRow>): State
    requires Enabled(s, ReadResult(c, row))
  {
    var r := s.calls[c].phase.run;
    Go(SetRun(s, r, s.runs[r].(place := Drained)), c, Closing(ClosingEvent(s.runs[r].err, row)))
  }

  function DoFailResume(s: State, c: CallId, f: ResumeFailure, detail: string): State
    requires Enabled(s, FailResume(c, f, detail))
  {
    var r := s.calls[c].phase.run;
    Go(SetRun(s, r, s.runs[r].(place := Lost)), c, Closing(Status(Failed, ResumeFailureText(f, detail))))
  }

  function DoAttach(s: State, c: CallId): State
    requires Enabled(s, Attach(c))
  {
    var r := s.calls[c].phase.run;
    var s1 := SetRun(s, r, s.runs[r].(calls := s.runs[r].calls + [c]));
    s1.(calls := s.calls[c := s.calls[c].(phase := Streaming(r), run := Some(r))])
  }

  function DoYieldLast(s: State, c: CallId, ok: bool): State
    requires Enabled(s, YieldLast(c, ok))
  {
    var call := s.calls[c];
    s.(calls := s.calls[c := Say(call, call.phase.event, call.todo, ok, Returned)])
  }

  function Apply(s: State, st: Step): State
    requires Enabled(s, st)
  {
    match st
    case Arrive(task, stored, nilMessage) =>
      s.(calls := s.calls + [Call(task, stored, if nilMessage then Closing(Error("a2a executor: nil message on execute")) else Entered,
                                  [], [], false, None)])
    case Lookup(c) => DoLookup(s, c)
    case Prepare(c, v) => DoPrepare(s, c, v)
    case YieldHead(c, ok) => DoYieldHead(s, c, ok)
    case Start(c) => DoStart(s, c)
    case Emit(r, ev) => DoEmit(s, r, ev)
    case Discard(r, ev) => SetRun(s, r, s.runs[r].(emitted := s.runs[r].emitted + [ev]))
    case Finish(r, err) => SetRun(s, r, s.runs[r].(stage := Finished, err := err))
    case CloseOut(r) => SetRun(s, r, s.runs[r].(stage := OutClosed))
    case CloseDone(r) => SetRun(s, r, s.runs[r].(stage := DoneClosed))
    case Receive(c) => DoReceive(s, c)
    case Yield(c, ok) => DoYield(s, c, ok)
    case Reclaim(c) => DoReclaim(s, c)
    case CancelReclaimed(c) => Go(Stop(s, s.calls[c].phase.run), c, Returned)
    case EndOfStream(c) => Go(s, c, Settling(s.calls[c].phase.run))
    case ReadResult(c, row) => DoReadResult(s, c, row)
    case FailResume(c, f, detail) => DoFailResume(s, c, f, detail)
    case Attach(c) => DoAttach(s, c)
    case YieldLast(c, ok) => DoYieldLast(s, c, ok)
    case Tick(elapsed) => s.(now := s.now + elapsed)
  }

  // ---------------------------------------------------------------- traces

  /** One interleaving, from an executor with no calls, with every state on the way. */
  ghost predicate IsTrace(states: seq<State>, steps: seq<Step>) {
    && |states| == |steps| + 1
    && (exists hasResolver, ttl, now :: states[0] == Init(hasResolver, ttl, now))
    && forall i :: 0 <= i < |steps| ==> Enabled(states[i], steps[i]) && states[i + 1] == Apply(states[i], steps[i])
  }

  // ---------------------------------------------------------------- what is observed

  /** The call holds a run's stream. */
  predicate Holding(p: Phase) {
    p.Resuming? || p.Streaming? || p.Settling? || p.Reclaiming?
  }

  /** Where an observer finds the run: the calls that hold its stream, the tasks it is parked
      under, and its cancelled context. */
  datatype Spot = Reader(call: CallId) | InRegistry(task: TaskId) | CancelledSpot

  ghost function Spots(s: State, r: RunId): set<Spot>
    requires r < |s.runs|
  {
    (set c | 0 <= c < |s.calls| && Holding(s.calls[c].phase) && s.calls[c].phase.run == r :: Reader(c))
    + (set t | t in s.parks && s.parks[t].run == r :: InRegistry(t))
    + (if s.runs[r].cancelled then {CancelledSpot} else {})
  }

  predicate Unfinished(s: State, r: RunId) {
    r < |s.runs| && s.runs[r].stage.Running?
  }

  /** The grammar of one Execute stream, as an automaton reading the yields. */
  datatype Mode = Nothing | Open | Closed | Broken

  function Read(stored: bool, m: Mode, o: Out): Mode {
    match m
    case Nothing =>
      if o.Error? then Closed
      else if o.SubmittedTask? then (if stored then Broken else Open)
      else if !stored then Broken
      else if IsProgress(o) then Open
      else if IsClosing(o) then Closed
      else Broken
    case Open => if IsProgress(o) then Open else if IsClosing(o) then Closed else Broken
    case Closed => Broken
    case Broken => Broken
  }

  function Scan(stored: bool, out: seq<Out>): Mode {
    if out == [] then Nothing else Read(stored, Scan(stored, out[..|out| - 1]), out[|out| - 1])
  }

  /** The yields that come from the run's own events. */
  function RunPart(out: seq<Out>): seq<Out> {
    if out == [] then []
    else
      var last := out[|out| - 1];
      RunPart(out[..|out| - 1]) + (if IsProgress(last) || IsInputRequired(last) then [last] else [])
  }

  /** The yields of several calls, run events only, joined in the order the calls took the run. */
  function Joined(calls: seq<Call>, ids: seq<CallId>): seq<Out>
    requires forall i :: 0 <= i < |ids| ==> ids[i] < |calls|
  {
    if ids == [] then []
    else Joined(calls, ids[..|ids| - 1]) + RunPart(calls[ids[|ids| - 1]].out)
  }

  /** One call's run events, with what it still has in hand or dropped when its client left. */
  function Log(call: Call): seq<Out> {
    RunPart(call.out) + call.todo
  }

  function JoinedLogs(calls: seq<Call>, ids: seq<CallId>): seq<Out>
    requires forall i :: 0 <= i < |ids| ==> ids[i] < |calls|
  {
    if ids == [] then [] else JoinedLogs(calls, ids[..|ids| - 1]) + Log(calls[ids[|ids| - 1]])
  }
}
