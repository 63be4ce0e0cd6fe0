/** The receive loop of one Execute call (streamToClient), as it runs when no other call
    touches its registry: the interleavings are A2ABridge's. */
module A2AStream {
  import opened Wrappers
  import opened A2AEvents
  import opened ParkRegistry

  datatype Ending = ParkedHere | ClientLeft | StreamEnded

  /** The client's answers to the yields, in order; past the end it keeps listening. */
  predicate Accepts(answers: seq<bool>, k: nat) {
    k < |answers| ==> answers[k]
  }

  predicate NoQuestion(evs: seq<Event>) {
    forall k :: 0 <= k < |evs| ==> !evs[k].InterruptionPending?
  }

  /** A question came: park the run and ask, or cancel it when nothing could resume it. `accepted` is
      the client's answer to the yield; `reaped` are the runs whose time had run out. */
  method AskClient(registry: Registry, task: TaskId, run: RunId, hasResolver: bool, now: int, accepted: bool)
    returns (stopped: bool, ending: Ending, reaped: set<RunId>)
    modifies registry
    ensures stopped == (!hasResolver || !accepted)
    ensures ending == if hasResolver && !accepted then ClientLeft else ParkedHere
    ensures reaped == if hasResolver then Reaped(old(registry.parked), registry.ttl, now) else {}
    ensures registry.parked ==
              if !hasResolver then old(registry.parked)
              else
                var after := AfterPut(old(registry.parked), registry.ttl, task, run, now);
                if accepted then after else after - {task}
  {
    stopped, ending, reaped := false, ParkedHere, {};
    if !hasResolver {
      stopped := true;
      return;
    }
    reaped := registry.Put(task, run, now);
    if !accepted {
      var park := registry.Take(task);
      if park.Some? { stopped := true; }
      ending := ClientLeft;
    }
  }

  /** The yields so far are what the first `received` events show, and none was refused. */
  ghost predicate Delivered(incoming: seq<Event>, received: nat, out: seq<Out>, answers: seq<bool>) {
    && received <= |incoming| && NoQuestion(incoming[..received]) && out == ShownAll(incoming[..received])
    && forall k {:trigger Accepts(answers, k)} :: 0 <= k < |out| ==> Accepts(answers, k)
  }

  /** The client leaves at a yield: everything before it was accepted, nothing follows it. */
  ghost predicate LeftAt(incoming: seq<Event>, received: nat, out: seq<Out>, answers: seq<bool>) {
    && 0 < received <= |incoming| && NoQuestion(incoming[..received - 1]) && out == ShownAll(incoming[..received]) && |out| > 0
    && !Accepts(answers, |out| - 1)
    && forall k {:trigger Accepts(answers, k)} :: 0 <= k < |out| - 1 ==> Accepts(answers, k)
  }

  /** `incoming` is everything the channel delivers before it is closed; `err` and `row` are what
      the run left. `stopped` says whether the run's cancel was called, `reaped` which others'. */
  method StreamToClient(registry: Registry, task: TaskId, run: RunId, hasResolver: bool, now: int,
                        incoming: seq<Event>, err: Option<string>, row: Option<RunRow>, answers: seq<bool>)
    returns (out: seq<Out>, received: nat, stopped: bool, ending: Ending, reaped: set<RunId>)
    modifies registry
    ensures received <= |incoming|
    ensures ending.StreamEnded? ==>
              && received == |incoming| && NoQuestion(incoming) && out == ShownAll(incoming) + [ClosingEvent(err, row)]
              && !stopped && reaped == {} && registry.parked == old(registry.parked)
    ensures ending.ParkedHere? ==>
              && 0 < received && NoQuestion(incoming[..received - 1]) && incoming[received - 1].InterruptionPending?
              && out == ShownAll(incoming[..received]) && stopped == !hasResolver
    ensures ending.ClientLeft? ==> stopped && LeftAt(incoming, received, out, answers)
    ensures !ending.StreamEnded? ==>
              if received > 0 && incoming[received - 1].InterruptionPending? && hasResolver then
                var after := AfterPut(old(registry.parked), registry.ttl, task, run, now);
                && reaped == Reaped(old(registry.parked), registry.ttl, now)
                && registry.parked == if ending.ParkedHere? then after else after - {task}
              else reaped == {} && registry.parked == old(registry.parked)
    ensures forall k {:trigger Accepts(answers, k)} :: 0 <= k < |out| - 1 ==> Accepts(answers, k)
  {
    out, received, stopped, reaped := [], 0, false, {};
    while received < |incoming|
      invariant Delivered(incoming, received, out, answers)
      invariant !stopped && reaped == {} && registry.parked == old(registry.parked)
    {
      var ev := incoming[received];
      ShownGrows(incoming, received);
      received := received + 1;
      assert incoming[..received][..received - 1] == incoming[..received - 1];
      if ev.InterruptionPending? {
        out := out + Shown(ev);
        stopped, ending, reaped := AskClient(registry, task, run, hasResolver, now, Accepts(answers, |out| - 1));
        return;
      }
      var shown := Translate(ev);
      if |shown| == 1 {
        out := out + [shown[0]];
        if !Accepts(answers, |out| - 1) {
          stopped := true;
          ending := ClientLeft;
          return;
        }
      }
    }
    assert incoming[..received] == incoming;
    out := out + [ClosingEvent(err, row)];
    ending := StreamEnded;
  }
}
