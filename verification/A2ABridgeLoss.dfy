/** A run of the bridge in which a park overwrites a live park of the same task, and so loses its run. */
module A2ABridgeLoss {
  import opened Wrappers
  import opened A2AEvents
  import opened ParkRegistry
  import opened A2ABridge
  import opened A2ABridgeProofs
  import opened A2ABridgeTheorems

  lemma Extend(states: seq<State>, steps: seq<Step>, st: Step)
    requires IsTrace(states, steps) && Enabled(states[|steps|], st)
    ensures IsTrace(states + [Apply(states[|steps|], st)], steps + [st])
  {
    var ss, ts := states + [Apply(states[|steps|], st)], steps + [st];
    assert ss[0] == states[0];
    forall i | 0 <= i < |ts| ensures Enabled(ss[i], ts[i]) && ss[i + 1] == Apply(ss[i], ts[i]) {
      if i < |steps| {
        assert ss[i] == states[i] && ss[i + 1] == states[i + 1] && ts[i] == steps[i];
      }
    }
  }

  function NewCall(task: TaskId, phase: Phase, run: Option<RunId>): Call {
    Call(task, true, phase, [], [], false, run)
  }

  function NewRun(task: TaskId, c: CallId): Run {
    Run(task, [], [], 0, false, Running, None, [c], HeldBy(c))
  }

  function WithCall(s: State, call: Call): State {
    s.(calls := s.calls + [call])
  }

  function WithRun(s: State, task: TaskId): State {
    WithCall(s, NewCall(task, Streaming(|s.runs|), Some(|s.runs|))).(runs := s.runs + [NewRun(task, |s.calls|)])
  }

  /** The four steps that take a message to a fresh run, with no park of its task in the way. */
  lemma FreshRunSteps(s: State, task: TaskId)
    requires task !in s.parks
    ensures var c := |s.calls|;
            && Enabled(s, Arrive(task, true, false)) && Apply(s, Arrive(task, true, false)) == WithCall(s, NewCall(task, Entered, None))
            && (var s1 := WithCall(s, NewCall(task, Entered, None));
                Enabled(s1, Lookup(c)) && Apply(s1, Lookup(c)) == WithCall(s, NewCall(task, Fresh, None)))
            && (var s2 := WithCall(s, NewCall(task, Fresh, None));
                Enabled(s2, Prepare(c, Accepted)) && Apply(s2, Prepare(c, Accepted)) == WithCall(s, NewCall(task, Ready, None)))
            && (var s3 := WithCall(s, NewCall(task, Ready, None)); Enabled(s3, Start(c)) && Apply(s3, Start(c)) == WithRun(s, task))
  {
  }

  lemma StartFresh(states: seq<State>, steps: seq<Step>, task: TaskId) returns (states': seq<State>, steps': seq<Step>)
    requires IsTrace(states, steps) && task !in states[|steps|].parks && forall k :: 0 <= k < |steps| ==> !steps[k].FailResume?
    ensures IsTrace(states', steps') && states'[|steps'|] == WithRun(states[|steps|], task)
    ensures forall k :: 0 <= k < |steps'| ==> !steps'[k].FailResume?
  {
    var s := states[|steps|];
    var c := |s.calls|;
    FreshRunSteps(s, task);
    Extend(states, steps, Arrive(task, true, false));
    states', steps' := states + [Apply(s, Arrive(task, true, false))], steps + [Arrive(task, true, false)];
    Extend(states', steps', Lookup(c));
    states', steps' := states' + [Apply(states'[|steps'|], Lookup(c))], steps' + [Lookup(c)];
    Extend(states', steps', Prepare(c, Accepted));
    states', steps' := states' + [Apply(states'[|steps'|], Prepare(c, Accepted))], steps' + [Prepare(c, Accepted)];
    Extend(states', steps', Start(c));
    states', steps' := states' + [Apply(states'[|steps'|], Start(c))], steps' + [Start(c)];
  }

  function Asked(run: Run, q: string): Run {
    run.(emitted := [InterruptionPending(q)], sent := [InterruptionPending(q)])
  }

  /** Run `k` and call `k` belong together under this task id, nothing sent yet. */
  ghost predicate Streams(s: State, task: TaskId, k: nat) {
    && k < |s.runs| && k < |s.calls| && s.runs[k] == NewRun(task, k) && s.calls[k] == NewCall(task, Streaming(k), Some(k))
  }

  lemma Asks(s: State, task: TaskId, k: nat, q: string)
    requires Streams(s, task, k)
    ensures var ask := Emit(k, InterruptionPending(q));
            Enabled(s, ask) && Apply(s, ask) == s.(runs := s.runs[k := Asked(s.runs[k], q)]) && Enabled(Apply(s, ask), Receive(k))
  {
    var s1 := Apply(s, Emit(k, InterruptionPending(q)));
    assert s1.runs[k] == Asked(s.runs[k], q);
  }

  /** The state after run `k` asked and was parked. */
  ghost function AfterAsking(s: State, task: TaskId, k: nat, q: string): State
    requires Streams(s, task, k)
  {
    Asks(s, task, k, q);
    DoReceive(s.(runs := s.runs[k := Asked(s.runs[k], q)]), k)
  }

  lemma AskAndPark(states: seq<State>, steps: seq<Step>, task: TaskId, k: nat, q: string)
    returns (states': seq<State>, steps': seq<Step>)
    requires IsTrace(states, steps) && Streams(states[|steps|], task, k)
    requires forall i :: 0 <= i < |steps| ==> !steps[i].FailResume?
    ensures IsTrace(states', steps') && states'[|steps'|] == AfterAsking(states[|steps|], task, k, q)
    ensures forall i :: 0 <= i < |steps'| ==> !steps'[i].FailResume?
  {
    var ask := Emit(k, InterruptionPending(q));
    Asks(states[|steps|], task, k, q);
    Extend(states, steps, ask);
    states', steps' := states + [Apply(states[|steps|], ask)], steps + [ask];
    Extend(states', steps', Receive(k));
    states', steps' := states' + [Apply(states'[|steps'|], Receive(k))], steps' + [Receive(k)];
  }

  lemma FirstParks(s: State, task: TaskId, q: string)
    requires Streams(s, task, 0) && Streams(s, task, 1) && s.parks == map[] && s.hasResolver
    ensures var s' := AfterAsking(s, task, 0, q);
            && Streams(s', task, 1) && s'.parks == map[task := Park(0, s.now)] && s'.hasResolver && s'.now == s.now
            && |s'.runs| == |s.runs| && s'.runs[0].stage.Running?
  {
  }

  lemma SecondOverwrites(s: State, task: TaskId, q: string)
    requires |s.runs| > 0 && Streams(s, task, 1) && s.parks == map[task := Park(0, s.now)] && s.hasResolver
    requires s.runs[0].stage.Running?
    ensures var s' := AfterAsking(s, task, 1, q); Unfinished(s', 0) && s'.runs[0].place == Lost
  {
  }

  /** Two fresh runs of one task both ask: no resume failed, and the first, still running, is read by
      nobody, parked nowhere and not cancelled. */
  lemma OverwriteLosesRun(task: TaskId, ttl: int, now: int, q: string) returns (states: seq<State>, steps: seq<Step>)
    ensures IsTrace(states, steps) && Unfinished(states[|steps|], 0) && Spots(states[|steps|], 0) == {}
    ensures forall k :: 0 <= k < |steps| ==> !steps[k].FailResume?
  {
    states, steps := [Init(true, ttl, now)], [];
    states, steps := StartFresh(states, steps, task);
    states, steps := StartFresh(states, steps, task);
    FirstParks(states[|steps|], task, q);
    states, steps := AskAndPark(states, steps, task, 0, q);
    SecondOverwrites(states[|steps|], task, q);
    states, steps := AskAndPark(states, steps, task, 1, q);
    InvAlways(states, steps, |steps|);
    SpotsAreThePlace(states[|steps|], 0);
  }
}
