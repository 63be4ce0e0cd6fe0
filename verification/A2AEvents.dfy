/** The event vocabulary of the A2A bridge (internal/a2a/events.go, statemap.go): provider
    events coming out of a run, A2A events handed to the client, and the pure translations
    between them. */
module A2AEvents {
  import opened Wrappers

  /** What a run reports through OnEvent. `Other` stands for every kind with no branch of its
      own in the translator (tool call, usage, done, error, ...). */
  datatype Event =
    | Started
    | Text(text: string)
    | ToolResult(output: string, isError: bool)
    | Queued
    | Admitted
    | InterruptionPending(question: string)
    | Other(kind: string)

  /** The TaskState values the bridge emits (section 6.3 of the A2A specification v0.3.0). */
  datatype TaskState = Submitted | Working | InputRequired | Completed | Failed | Canceled | Rejected

  predicate Terminal(s: TaskState) {
    s.Completed? || s.Failed? || s.Canceled? || s.Rejected?
  }

  /** One call of the SDK's yield: the submitted task, a status update, an artifact, or an error. */
  datatype Out =
    | SubmittedTask
    | Status(state: TaskState, message: string)
    | Artifact(content: string)
    | Error(reason: string)

  predicate IsProgress(o: Out) {
    o.Artifact? || (o.Status? && o.state.Working?)
  }

  predicate IsInputRequired(o: Out) {
    o.Status? && o.state.InputRequired?
  }

  predicate IsClosing(o: Out) {
    o.Status? && (Terminal(o.state) || o.state.InputRequired?)
  }

  /** translateEvent: only a start and a piece of text show; tool results do not, failed or not. */
  function Translate(ev: Event): (r: seq<Out>)
    ensures |r| == if ev.Started? || (ev.Text? && ev.text != "") then 1 else 0
    ensures forall o :: o in r ==> IsProgress(o)
  {
    match ev
    case Started => [Status(Working, "")]
    case Text(t) => if t == "" then [] else [Artifact(t)]
    case _ => []
  }

  /** What one received event makes the client see, parks included. */
  function Shown(ev: Event): (r: seq<Out>)
    ensures |r| <= 1
    ensures forall o :: o in r ==> IsProgress(o) || IsInputRequired(o)
    ensures ev.InterruptionPending? <==> |r| == 1 && IsInputRequired(r[0])
    ensures ev.InterruptionPending? ==> r[0].message == ev.question
  {
    if ev.InterruptionPending? then [Status(InputRequired, ev.question)] else Translate(ev)
  }

  function ShownAll(evs: seq<Event>): seq<Out> {
    if evs == [] then [] else ShownAll(evs[..|evs| - 1]) + Shown(evs[|evs| - 1])
  }

  lemma ShownGrows(sent: seq<Event>, got: nat)
    requires got < |sent|
    ensures ShownAll(sent[..got + 1]) == ShownAll(sent[..got]) + Shown(sent[got])
  {
    assert sent[..got + 1][..got] == sent[..got];
  }

  // ---------------------------------------------------------------- terminal status

  datatype RunStatus =
    | RunQueued | RunConfigured | RunRunning
    | RunCompleted | RunFailed | RunCancelled | RunRejected
    | UnknownStatus

  /** The run row read back after RunOnce returned. */
  datatype RunRow = RunRow(status: RunStatus, stopReason: string, errorMsg: string)

  function TaskStateForRunStatus(s: RunStatus): Option<TaskState> {
    match s
    case RunQueued => Some(Submitted)
    case RunConfigured => Some(Submitted)
    case RunRunning => Some(Working)
    case RunCompleted => Some(Completed)
    case RunFailed => Some(Failed)
    case RunCancelled => Some(Canceled)
    case RunRejected => Some(Rejected)
    case UnknownStatus => None
  }

  datatype RunOutcome = RunOutcome(status: RunStatus, detail: string)

  /** finalOutcome: None when the row is missing or its status is not in the table. */
  function FinalOutcome(row: Option<RunRow>): Option<RunOutcome> {
    if row.None? || TaskStateForRunStatus(row.value.status).None? then None
    else
      var run := row.value;
      Some(RunOutcome(run.status, if run.status.RunFailed? && run.errorMsg != "" then run.errorMsg else run.stopReason))
  }

  /** terminalStatusForRun. */
  function TerminalStatusForRun(outcome: RunOutcome): (r: Option<Out>)
    ensures r.Some? ==> r.value.Status? && Terminal(r.value.state)
    ensures r.Some? <==> outcome.status.RunCompleted? || outcome.status.RunFailed?
                         || outcome.status.RunCancelled? || outcome.status.RunRejected?
  {
    var state := TaskStateForRunStatus(outcome.status);
    if state.None? || !Terminal(state.value) then None else Some(Status(state.value, outcome.detail))
  }

  const NO_STATUS := "a2a executor: run finished without a resolvable terminal status"

  /** yieldTerminal: the closing event of a finished run. The run's own error wins over the row,
      and a row that is missing or still live closes the stream as FAILED, never as WORKING. */
  function ClosingEvent(runErr: Option<string>, row: Option<RunRow>): (o: Out)
    ensures o.Status? && Terminal(o.state)
    ensures runErr.Some? ==> o == Status(Failed, runErr.value)
    ensures o.state.Completed? <==> runErr.None? && row.Some? && row.value.status.RunCompleted?
    ensures o.state.Canceled? <==> runErr.None? && row.Some? && row.value.status.RunCancelled?
    ensures o.state.Rejected? <==> runErr.None? && row.Some? && row.value.status.RunRejected?
    ensures !o.state.Failed? ==> o.message == row.value.stopReason
    ensures runErr.None? && row.Some? && row.value.status.RunFailed? ==>
              o.message == if row.value.errorMsg != "" then row.value.errorMsg else row.value.stopReason
    ensures runErr.None? && (row.None? || row.value.status.RunQueued? || row.value.status.RunConfigured?
                             || row.value.status.RunRunning? || row.value.status.UnknownStatus?) ==>
              o == Status(Failed, "a2a executor: run finished without a resolvable terminal status")
  {
    if runErr.Some? then Status(Failed, runErr.value)
    else
      var outcome := FinalOutcome(row);
      if outcome.Some? && TerminalStatusForRun(outcome.value).Some? then TerminalStatusForRun(outcome.value).value
      else Status(Failed, NO_STATUS)
  }

  // ---------------------------------------------------------------- counting questions

  function Questions(evs: seq<Event>): nat {
    if evs == [] then 0
    else Questions(evs[..|evs| - 1]) + (if evs[|evs| - 1].InterruptionPending? then 1 else 0)
  }

  function InputRequests(outs: seq<Out>): nat {
    if outs == [] then 0
    else InputRequests(outs[..|outs| - 1]) + (if IsInputRequired(outs[|outs| - 1]) then 1 else 0)
  }

  lemma {:induction false} InputRequestsAppend(a: seq<Out>, b: seq<Out>)
    ensures InputRequests(a + b) == InputRequests(a) + InputRequests(b)
  {
    if b == [] {
      assert a + b == a;
    } else {
      InputRequestsAppend(a, b[..|b| - 1]);
      assert (a + b)[..|a + b| - 1] == a + b[..|b| - 1];
    }
  }

  /** One INPUT_REQUIRED for each interruption, whatever else the run reported. */
  lemma {:induction false} OneRequestPerQuestion(evs: seq<Event>)
    ensures InputRequests(ShownAll(evs)) == Questions(evs)
  {
    if evs == [] {
    } else {
      var last := evs[|evs| - 1];
      OneRequestPerQuestion(evs[..|evs| - 1]);
      var shown := Shown(last);
      InputRequestsAppend(ShownAll(evs[..|evs| - 1]), shown);
      assert |shown| == 1 ==> shown[..0] == [];
    }
  }

  // ---------------------------------------------------------------- nothing added, nothing dropped

  /** The text a run produced. */
  function RunText(evs: seq<Event>): string {
    if evs == [] then ""
    else RunText(evs[..|evs| - 1]) + (if evs[|evs| - 1].Text? then evs[|evs| - 1].text else "")
  }

  function Starts(evs: seq<Event>): nat {
    if evs == [] then 0 else Starts(evs[..|evs| - 1]) + (if evs[|evs| - 1].Started? then 1 else 0)
  }

  function Texts(evs: seq<Event>): nat {
    if evs == [] then 0
    else
      var last := evs[|evs| - 1];
      Texts(evs[..|evs| - 1]) + if last.Text? && last.text != "" then 1 else 0
  }

  /** Nothing else is shown: every yield is for a start, a piece of text or a question. */
  lemma {:induction false} NothingElseShown(evs: seq<Event>)
    ensures |ShownAll(evs)| == Starts(evs) + Texts(evs) + Questions(evs)
  {
    if evs == [] {
    } else {
      NothingElseShown(evs[..|evs| - 1]);
    }
  }

  /** The text a client puts together from the artifacts. */
  function ArtifactText(outs: seq<Out>): string {
    if outs == [] then ""
    else ArtifactText(outs[..|outs| - 1]) + (if outs[|outs| - 1].Artifact? then outs[|outs| - 1].content else "")
  }

  function WorkingBeats(outs: seq<Out>): nat {
    if outs == [] then 0
    else WorkingBeats(outs[..|outs| - 1]) + (if outs[|outs| - 1] == Status(Working, "") then 1 else 0)
  }

  lemma ArtifactTextSnoc(outs: seq<Out>, ev: Event)
    ensures ArtifactText(outs + Shown(ev)) == ArtifactText(outs) + if ev.Text? then ev.text else ""
  {
    if Shown(ev) == [] {
      assert outs + Shown(ev) == outs;
    } else {
      assert (outs + Shown(ev))[..|outs|] == outs;
    }
  }

  lemma WorkingBeatsSnoc(outs: seq<Out>, ev: Event)
    ensures WorkingBeats(outs + Shown(ev)) == WorkingBeats(outs) + if ev.Started? then 1 else 0
  {
    if Shown(ev) == [] {
      assert outs + Shown(ev) == outs;
    } else {
      assert (outs + Shown(ev))[..|outs|] == outs;
    }
  }

  /** The artifacts carry exactly the run's text, empty pieces and tool output left out, and there
      is one WORKING beat for each start. */
  lemma {:induction false} ClientGetsTheText(evs: seq<Event>)
    ensures ArtifactText(ShownAll(evs)) == RunText(evs)
    ensures WorkingBeats(ShownAll(evs)) == Starts(evs)
  {
    if evs == [] {
    } else {
      var front, last := evs[..|evs| - 1], evs[|evs| - 1];
      ClientGetsTheText(front);
      ArtifactTextSnoc(ShownAll(front), last);
      WorkingBeatsSnoc(ShownAll(front), last);
    }
  }
}
