/** The refusal budget of POST /api/team/invites (cloud-deployment/landing/server.js): the budget is
    read under the tenant's lock, an upstream call is awaited, and only then is a slot taken. The
    slot is always there, because whoever could take it first needs the same lock. */
module TeamInvite {
  import opened Grants

  datatype Phase = Waiting | Asking | Done

  datatype Request = Request(tenant: string, subject: string, phase: Phase)

  /** `refused` is the refusal limiter's history, as in SlidingWindow. */
  datatype State = State(now: int, refused: seq<Grant>, requests: seq<Request>, queues: map<string, seq<nat>>)

  const REFUSED_LIMIT := Limit(10, 24 * 3600000)

  function Key(subject: string): string {
    "id:" + subject
  }

  datatype Step =
    | Arrive(tenant: string, subject: string)
    | Check(r: nat, full: bool)    // the lock is ours: read the budget
    | Answered(r: nat)             // any answer but "address taken", or a failure
    | AddressTaken(r: nat)         // counted against the budget
    | Tick(elapsed: nat)

  function QueueOf(s: State, t: string): seq<nat> {
    if t in s.queues then s.queues[t] else []
  }

  ghost predicate Enabled(s: State, st: Step) {
    match st
    case Arrive(tenant, subject) =>
      // the tenant is derived from the verified identity
      forall k {:trigger s.requests[k]} :: 0 <= k < |s.requests| && s.requests[k].subject == subject ==> s.requests[k].tenant == tenant
    case Check(r, full) =>
      && r < |s.requests| && s.requests[r].phase.Waiting?
      && QueueOf(s, s.requests[r].tenant) != [] && QueueOf(s, s.requests[r].tenant)[0] == r
      && (full <==> Full(s.refused, Key(s.requests[r].subject), s.now, REFUSED_LIMIT))
    case Answered(r) => r < |s.requests| && s.requests[r].phase.Asking?
    case AddressTaken(r) => r < |s.requests| && s.requests[r].phase.Asking?
    case Tick(_) => true
  }

  function Finish(s: State, r: nat): State
    requires r < |s.requests|
  {
    var q := QueueOf(s, s.requests[r].tenant);
    s.(requests := s.requests[r := s.requests[r].(phase := Done)],
       queues := s.queues[s.requests[r].tenant := if q == [] then [] else q[1..]])
  }

  /** `take` under AddressTaken reserves nothing when the window is full. */
  ghost function Counted(s: State, subject: string): seq<Grant> {
    if Full(s.refused, Key(subject), s.now, REFUSED_LIMIT) then s.refused else Granted(s.refused, Key(subject), s.now)
  }

  ghost function Apply(s: State, st: Step): State
    requires Enabled(s, st)
  {
    match st
    case Arrive(tenant, subject) =>
      s.(requests := s.requests + [Request(tenant, subject, Waiting)],
         queues := s.queues[tenant := QueueOf(s, tenant) + [|s.requests|]])
    case Check(r, full) => if full then Finish(s, r) else s.(requests := s.requests[r := s.requests[r].(phase := Asking)])
    case Answered(r) => Finish(s, r)
    case AddressTaken(r) => Finish(s, r).(refused := Counted(s, s.requests[r].subject))
    case Tick(elapsed) => s.(now := s.now + elapsed)
  }

  ghost predicate IsTrace(states: seq<State>, steps: seq<Step>) {
    && |states| == |steps| + 1
    && (exists now :: states[0] == State(now, [], [], map[]))
    && forall i :: 0 <= i < |steps| ==> Enabled(states[i], steps[i]) && states[i + 1] == Apply(states[i], steps[i])
  }

  // ---------------------------------------------------------------- what every step keeps

  ghost predicate Locked(s: State) {
    && (forall r {:trigger s.requests[r]} :: 0 <= r < |s.requests| && s.requests[r].phase.Asking? ==>
          QueueOf(s, s.requests[r].tenant) != [] && QueueOf(s, s.requests[r].tenant)[0] == r)
    && (forall r, k :: 0 <= r < k < |s.requests| && s.requests[r].subject == s.requests[k].subject ==> s.requests[r].tenant == s.requests[k].tenant)
  }

  ghost predicate HasRoom(s: State) {
    forall r {:trigger s.requests[r]} :: 0 <= r < |s.requests| && s.requests[r].phase.Asking? ==>
      !Full(s.refused, Key(s.requests[r].subject), s.now, REFUSED_LIMIT)
  }

  ghost predicate Kept(s: State) {
    Ordered(s.refused) && Bounded(s.refused, REFUSED_LIMIT) && forall i {:trigger s.refused[i]} :: 0 <= i < |s.refused| ==> s.refused[i].t <= s.now
  }

  lemma LockedStep(s: State, st: Step)
    requires Locked(s) && Enabled(s, st)
    ensures Locked(Apply(s, st))
  {
  }

  lemma RoomStays(s: State, st: Step, k: nat)
    requires Locked(s) && HasRoom(s) && Enabled(s, st) && k < |s.requests| && s.requests[k].phase.Asking?
    requires !(st.AddressTaken? && st.r == k)
    ensures !Full(Apply(s, st).refused, Key(s.requests[k].subject), Apply(s, st).now, REFUSED_LIMIT)
  {
    var key, s' := Key(s.requests[k].subject), Apply(s, st);
    if st.AddressTaken? {
      // another subject: the same one would hold the same lock
      var other := Key(s.requests[st.r].subject);
      assert other[3..] == s.requests[st.r].subject && key[3..] == s.requests[k].subject;
      assert s.requests[st.r].phase.Asking? && other != key;
    }
    NotFullLater(s.refused, s'.refused, key, s.now, s'.now, REFUSED_LIMIT);
  }

  lemma InvStep(s: State, st: Step)
    requires Locked(s) && HasRoom(s) && Kept(s) && Enabled(s, st)
    ensures Locked(Apply(s, st)) && HasRoom(Apply(s, st)) && Kept(Apply(s, st))
  {
    var s' := Apply(s, st);
    LockedStep(s, st);
    forall k | 0 <= k < |s'.requests| && s'.requests[k].phase.Asking?
      ensures !Full(s'.refused, Key(s'.requests[k].subject), s'.now, REFUSED_LIMIT)
    {
      if k < |s.requests| && s.requests[k].phase.Asking? { RoomStays(s, st, k); }
    }
    if st.AddressTaken? && !Full(s.refused, Key(s.requests[st.r].subject), s.now, REFUSED_LIMIT) {
      GrantBounded(s.refused, Key(s.requests[st.r].subject), s.now, REFUSED_LIMIT);
    }
  }

  lemma {:induction false} InvAlways(states: seq<State>, steps: seq<Step>, i: nat)
    requires IsTrace(states, steps) && i < |states|
    ensures Locked(states[i]) && HasRoom(states[i]) && Kept(states[i])
  {
    if i == 0 {
    } else {
      InvAlways(states, steps, i - 1);
      InvStep(states[i - 1], steps[i - 1]);
    }
  }

  /** In every interleaving the slot a refusal takes is granted, so every refusal is counted, and no
      identity meets more than ten of them in any one day. */
  lemma EveryRefusalCounted(states: seq<State>, steps: seq<Step>, i: nat, subject: string, from: int)
    requires IsTrace(states, steps) && i < |steps|
    ensures steps[i].AddressTaken? ==>
              states[i + 1].refused ==
              states[i].refused + [Grant("id:" + states[i].requests[steps[i].r].subject, states[i].now, false)]
    ensures !steps[i].AddressTaken? ==> states[i + 1].refused == states[i].refused
    ensures |InWindow(states[i].refused, "id:" + subject, from, 86400000)| <= 10
  {
    InvAlways(states, steps, i);
    AtMostMaxPerWindow(states[i].refused, REFUSED_LIMIT, Key(subject), from);
  }

  /** A request is turned away without asking exactly when ten refusals of its identity lie within the
      last day. */
  lemma TurnedAwayExactly(states: seq<State>, steps: seq<Step>, i: nat)
    requires IsTrace(states, steps) && i < |steps| && steps[i].Check?
    ensures var s, r := states[i], steps[i].r;
            var recent := set k: nat | k < |s.refused| && s.refused[k].key == "id:" + s.requests[r].subject
                                       && !s.refused[k].released && s.now - 86400000 < s.refused[k].t;
            && r < |states[i + 1].requests|
            && states[i + 1].requests[r].phase == if |recent| >= 10 then Done else Asking
  {
    var s, r := states[i], steps[i].r;
    var recent := set k: nat | k < |s.refused| && s.refused[k].key == "id:" + s.requests[r].subject
                               && !s.refused[k].released && s.now - 86400000 < s.refused[k].t;
    assert recent == LiveAt(s.refused, Key(s.requests[r].subject), s.now, REFUSED_LIMIT.window);
  }
}
