/** The landing's per-tenant lock (cloud-deployment/landing/server.js, withTenantLock): a map from
    tenant to the tail of a chain of promises. A caller's code runs in pieces between its awaits,
    and a promise settles some time after what it waits for, so each of these is one step. */
module TenantLock {
  import opened Wrappers

  type Ticket = nat

  datatype Phase = Waiting | Running | Ended

  /** `prev` is the tail the caller found in the map, None standing for the resolved promise it
      makes when there is none; `mine` and `tail` say whether its own two promises are resolved. */
  datatype Caller = Caller(tenant: string, prev: Option<Ticket>, phase: Phase, mine: bool, tail: bool)

  datatype State = State(callers: seq<Caller>, locks: map<string, Ticket>)

  datatype Step =
    | Enter(tenant: string)             // up to the await of prev
    | Begin(ticket: Ticket)             // prev resolved: the body starts
    | End(ticket: Ticket, threw: bool)  // the body settled, either way: the finally block
    | Settle(ticket: Ticket)            // the tail promise resolves

  predicate PrevResolved(s: State, c: Caller) {
    c.prev.Some? ==> c.prev.value < |s.callers| && s.callers[c.prev.value].tail
  }

  predicate Enabled(s: State, st: Step) {
    match st
    case Enter(_) => true
    case Begin(i) => i < |s.callers| && s.callers[i].phase.Waiting? && PrevResolved(s, s.callers[i])
    case End(i, _) => i < |s.callers| && s.callers[i].phase.Running?
    case Settle(i) => i < |s.callers| && s.callers[i].mine && !s.callers[i].tail && PrevResolved(s, s.callers[i])
  }

  function Apply(s: State, st: Step): State
    requires Enabled(s, st)
  {
    match st
    case Enter(t) =>
      var prev := if t in s.locks then Some(s.locks[t]) else None;
      State(s.callers + [Caller(t, prev, Waiting, false, false)], s.locks[t := |s.callers|])
    case Begin(i) => s.(callers := s.callers[i := s.callers[i].(phase := Running)])
    case End(i, _) =>
      var t := s.callers[i].tenant;
      State(s.callers[i := s.callers[i].(phase := Ended, mine := true)],
            if t in s.locks && s.locks[t] == i then s.locks - {t} else s.locks)
    case Settle(i) => s.(callers := s.callers[i := s.callers[i].(tail := true)])
  }

  /** The same steps on the fields the source updates. */
  class TenantLocks {
    var callers: seq<Caller>
    var locks: map<string, Ticket>

    function View(): State
      reads this
    {
      State(callers, locks)
    }

    constructor ()
      ensures View() == State([], map[])
    {
      callers, locks := [], map[];
    }

    method EnterLock(tenant: string) returns (ticket: Ticket)
      modifies this
      ensures View() == Apply(old(View()), Enter(tenant)) && ticket == |old(callers)|
    {
      ticket := |callers|;
      var prev := None;
      if tenant in locks { prev := Some(locks[tenant]); }
      callers := callers + [Caller(tenant, prev, Waiting, false, false)];
      locks := locks[tenant := ticket];
    }

    method LeaveLock(ticket: Ticket, threw: bool)
      requires Enabled(View(), End(ticket, threw))
      modifies this
      ensures View() == Apply(old(View()), End(ticket, threw))
    {
      var me := callers[ticket];
      callers := callers[ticket := me.(phase := Ended, mine := true)];
      if me.tenant in locks && locks[me.tenant] == ticket { locks := locks - {me.tenant}; }
    }
  }

  ghost predicate IsTrace(states: seq<State>, steps: seq<Step>) {
    && |states| == |steps| + 1 && states[0] == State([], map[])
    && forall i :: 0 <= i < |steps| ==> Enabled(states[i], steps[i]) && states[i + 1] == Apply(states[i], steps[i])
  }

  // ---------------------------------------------------------------- the invariant

  /** Every earlier caller of the same tenant has ended. */
  ghost predicate First(s: State, i: Ticket)
    requires i < |s.callers|
  {
    forall k {:trigger s.callers[k]} :: 0 <= k < i && s.callers[k].tenant == s.callers[i].tenant ==> s.callers[k].phase.Ended?
  }

  /** `prev` is the caller of the tenant just before this one, or none was left when it came. */
  ghost predicate Chained(s: State, i: Ticket)
    requires i < |s.callers|
  {
    var c := s.callers[i];
    if c.prev.None? then First(s, i)
    else
      && c.prev.value < i && s.callers[c.prev.value].tenant == c.tenant
      && forall k {:trigger s.callers[k]} :: c.prev.value < k < i ==> s.callers[k].tenant != c.tenant
  }

  ghost predicate CallerOk(s: State, i: Ticket)
    requires i < |s.callers|
  {
    var c := s.callers[i];
    && Chained(s, i)
    && (c.mine <==> c.phase.Ended?)
    && (!c.phase.Waiting? ==> First(s, i))
    && (c.tail ==> c.mine)
  }

  /** The map's entry for a tenant is its latest caller, and that one has not ended. */
  ghost predicate LocksOk(s: State) {
    && (forall t {:trigger t in s.locks} :: t in s.locks ==>
          && s.locks[t] < |s.callers| && s.callers[s.locks[t]].tenant == t && !s.callers[s.locks[t]].phase.Ended?
          && forall k {:trigger s.callers[k]} :: s.locks[t] < k < |s.callers| ==> s.callers[k].tenant != t)
    && (forall k {:trigger s.callers[k]} :: 0 <= k < |s.callers| && s.callers[k].tenant !in s.locks ==> s.callers[k].phase.Ended?)
  }

  ghost predicate Inv(s: State) {
    (forall i {:trigger s.callers[i]} :: 0 <= i < |s.callers| ==> CallerOk(s, i)) && LocksOk(s)
  }

  lemma ResolvedMeansFirst(s: State, i: Ticket)
    requires Inv(s) && i < |s.callers| && PrevResolved(s, s.callers[i])
    ensures First(s, i)
  {
    assert CallerOk(s, i);
    var c := s.callers[i];
    if c.prev.Some? {
      assert CallerOk(s, c.prev.value);
    }
  }

  lemma OnlyAdvances(s: State, st: Step, k: Ticket)
    requires Enabled(s, st) && k < |s.callers|
    ensures k < |Apply(s, st).callers|
    ensures var c, c' := s.callers[k], Apply(s, st).callers[k];
            c'.tenant == c.tenant && c'.prev == c.prev && (c.phase.Ended? ==> c'.phase.Ended?)
  {
  }

  lemma FirstStays(s: State, st: Step, i: Ticket)
    requires Enabled(s, st) && i < |s.callers| && First(s, i)
    ensures i < |Apply(s, st).callers| && First(Apply(s, st), i)
  {
    OnlyAdvances(s, st, i);
    var s' := Apply(s, st);
    forall k | 0 <= k < i && s'.callers[k].tenant == s'.callers[i].tenant ensures s'.callers[k].phase.Ended? {
      OnlyAdvances(s, st, k);
    }
  }

  lemma ChainedStays(s: State, st: Step, i: Ticket)
    requires Enabled(s, st) && i < |s.callers| && Chained(s, i)
    ensures i < |Apply(s, st).callers| && Chained(Apply(s, st), i)
  {
    OnlyAdvances(s, st, i);
    var c := s.callers[i];
    if c.prev.None? {
      FirstStays(s, st, i);
    } else {
      forall k | c.prev.value <= k < i ensures Apply(s, st).callers[k].tenant == s.callers[k].tenant { OnlyAdvances(s, st, k); }
    }
  }

  lemma CallerStep(s: State, st: Step, i: Ticket)
    requires Inv(s) && Enabled(s, st) && i < |Apply(s, st).callers|
    ensures CallerOk(Apply(s, st), i)
  {
    assert LocksOk(s);
    if i < |s.callers| {
      assert CallerOk(s, i);
      ChainedStays(s, st, i);
      if st == Begin(i) || st == Settle(i) { ResolvedMeansFirst(s, i); }
      if First(s, i) { FirstStays(s, st, i); }
    }
  }

  lemma EntryStep(s: State, st: Step, t: string)
    requires Inv(s) && Enabled(s, st) && t in Apply(s, st).locks
    ensures var s' := Apply(s, st);
            && s'.locks[t] < |s'.callers| && s'.callers[s'.locks[t]].tenant == t && !s'.callers[s'.locks[t]].phase.Ended?
            && forall k {:trigger s'.callers[k]} :: s'.locks[t] < k < |s'.callers| ==> s'.callers[k].tenant != t
  {
    assert LocksOk(s);
    if st.End? { assert CallerOk(s, st.ticket); }
  }

  lemma NoEntryStep(s: State, st: Step, k: Ticket)
    requires Inv(s) && Enabled(s, st) && k < |Apply(s, st).callers| && Apply(s, st).callers[k].tenant !in Apply(s, st).locks
    ensures Apply(s, st).callers[k].phase.Ended?
  {
    assert LocksOk(s);
    if st.End? { assert CallerOk(s, st.ticket); }
    assert k < |s.callers| && Apply(s, st).callers[k].tenant == s.callers[k].tenant;
  }

  lemma LocksStep(s: State, st: Step)
    requires Inv(s) && Enabled(s, st)
    ensures LocksOk(Apply(s, st))
  {
    var s' := Apply(s, st);
    forall t | t in s'.locks
      ensures s'.locks[t] < |s'.callers| && s'.callers[s'.locks[t]].tenant == t && !s'.callers[s'.locks[t]].phase.Ended?
      ensures forall k {:trigger s'.callers[k]} :: s'.locks[t] < k < |s'.callers| ==> s'.callers[k].tenant != t
    {
      EntryStep(s, st, t);
    }
    forall k | 0 <= k < |s'.callers| && s'.callers[k].tenant !in s'.locks
      ensures s'.callers[k].phase.Ended?
    {
      NoEntryStep(s, st, k);
    }
  }

  lemma InvStep(s: State, st: Step)
    requires Inv(s) && Enabled(s, st)
    ensures Inv(Apply(s, st))
  {
    forall k | 0 <= k < |Apply(s, st).callers| ensures CallerOk(Apply(s, st), k) { CallerStep(s, st, k); }
    LocksStep(s, st);
  }

  lemma {:induction false} InvAlways(states: seq<State>, steps: seq<Step>, i: nat)
    requires IsTrace(states, steps) && i < |states|
    ensures Inv(states[i])
  {
    if i == 0 {
    } else {
      InvAlways(states, steps, i - 1);
      InvStep(states[i - 1], steps[i - 1]);
    }
  }

  // ---------------------------------------------------------------- the guarantees

  /** In every interleaving: bodies of one tenant never overlap and start in the order their
      callers came, and the map has an entry for a tenant exactly while some caller of it is
      queued or running. A body that threw counts as ended, so it blocks nobody. */
  lemma LockSafety(states: seq<State>, steps: seq<Step>, n: nat)
    requires IsTrace(states, steps) && n < |states|
    ensures var s := states[n];
            && (forall i, j :: 0 <= i < j < |s.callers| && s.callers[i].tenant == s.callers[j].tenant && !s.callers[j].phase.Waiting? ==>
                  s.callers[i].phase.Ended?)
            && (forall t :: t in s.locks <==> exists k :: 0 <= k < |s.callers| && s.callers[k].tenant == t && !s.callers[k].phase.Ended?)
  {
    var s := states[n];
    InvAlways(states, steps, n);
    forall i, j | 0 <= i < j < |s.callers| && s.callers[i].tenant == s.callers[j].tenant && !s.callers[j].phase.Waiting?
      ensures s.callers[i].phase.Ended?
    {
      assert CallerOk(s, j);
    }
    assert LocksOk(s);
    forall t | t in s.locks
      ensures exists k :: 0 <= k < |s.callers| && s.callers[k].tenant == t && !s.callers[k].phase.Ended?
    {
      assert s.callers[s.locks[t]].tenant == t;
    }
  }

  /** The callers of a tenant that have not ended, in the order they came. */
  function Queue(callers: seq<Caller>, t: string): seq<Ticket> {
    if callers == [] then []
    else
      var last := |callers| - 1;
      Queue(callers[..last], t) + (if callers[last].tenant == t && !callers[last].phase.Ended? then [last] else [])
  }

  lemma {:induction false} QueueMembers(callers: seq<Caller>, t: string)
    ensures forall k :: k in Queue(callers, t) <==> 0 <= k < |callers| && callers[k].tenant == t && !callers[k].phase.Ended?
    ensures forall a, b :: 0 <= a < b < |Queue(callers, t)| ==> Queue(callers, t)[a] < Queue(callers, t)[b]
  {
    if callers == [] {
    } else {
      var front := callers[..|callers| - 1];
      QueueMembers(front, t);
      forall a | 0 <= a < |Queue(front, t)| ensures Queue(front, t)[a] < |front| { assert Queue(front, t)[a] in Queue(front, t); }
    }
  }

  lemma {:induction false} QueueSame(callers: seq<Caller>, callers': seq<Caller>, t: string)
    requires |callers| == |callers'|
    requires forall k {:trigger callers[k]} {:trigger callers'[k]} :: 0 <= k < |callers| ==>
               (callers[k].tenant == t && !callers[k].phase.Ended? <==> callers'[k].tenant == t && !callers'[k].phase.Ended?)
    ensures Queue(callers, t) == Queue(callers', t)
  {
    if callers == [] {
    } else {
      QueueSame(callers[..|callers| - 1], callers'[..|callers| - 1], t);
    }
  }

  lemma {:induction false} QueueEmpty(callers: seq<Caller>, t: string)
    requires forall k {:trigger callers[k]} :: 0 <= k < |callers| && callers[k].tenant == t ==> callers[k].phase.Ended?
    ensures Queue(callers, t) == []
  {
    if callers == [] {
    } else {
      QueueEmpty(callers[..|callers| - 1], t);
    }
  }

  lemma {:induction false} QueueDropsHead(callers: seq<Caller>, i: Ticket)
    requires i < |callers| && !callers[i].phase.Ended?
    requires forall k {:trigger callers[k]} :: 0 <= k < i && callers[k].tenant == callers[i].tenant ==> callers[k].phase.Ended?
    ensures var q := Queue(callers, callers[i].tenant);
            |q| > 0 && q[0] == i && Queue(callers[i := callers[i].(phase := Ended, mine := true)], callers[i].tenant) == q[1..]
  {
    var t, n := callers[i].tenant, |callers| - 1;
    var after := callers[i := callers[i].(phase := Ended, mine := true)];
    if i == n {
      QueueEmpty(callers[..n], t);
      assert after[..n] == callers[..n];
    } else {
      QueueDropsHead(callers[..n], i);
      assert after[..n] == callers[..n][i := callers[i].(phase := Ended, mine := true)];
    }
  }

  /** The promise chain is a first-in first-out queue per tenant: entering appends, a body starts
      and ends only at the head, ending removes it, and no step touches another tenant's queue. */
  lemma RefinesQueue(states: seq<State>, steps: seq<Step>, n: nat, t: string)
    requires IsTrace(states, steps) && n < |steps|
    ensures var q, q' := Queue(states[n].callers, t), Queue(states[n + 1].callers, t);
            match steps[n]
            case Enter(tenant) => q' == if tenant == t then q + [|states[n].callers|] else q
            case Begin(i) => q' == q && (states[n].callers[i].tenant == t ==> |q| > 0 && q[0] == i)
            case End(i, _) => if states[n].callers[i].tenant == t then |q| > 0 && q[0] == i && q' == q[1..] else q' == q
            case Settle(_) => q' == q
  {
    var s, s' := states[n], states[n + 1];
    InvAlways(states, steps, n);
    match steps[n]
    case Enter(tenant) => assert s'.callers[..|s.callers|] == s.callers;
    case Begin(i) =>
      ResolvedMeansFirst(s, i);
      QueueSame(s.callers, s'.callers, t);
      if s.callers[i].tenant == t { QueueDropsHead(s.callers, i); }
    case End(i, _) =>
      assert CallerOk(s, i);
      if s.callers[i].tenant == t { QueueDropsHead(s.callers, i); } else { QueueSame(s.callers, s'.callers, t); }
    case Settle(_) => QueueSame(s.callers, s'.callers, t);
  }

  // ---------------------------------------------------------------- every waiter gets its turn

  /** Settling the tails of a tenant's ended callers, oldest first, is all that is needed before
      the next waiter may run: there are such steps, at most one per earlier caller. */
  lemma {:induction false} TailCanSettle(s: State, i: Ticket) returns (steps: seq<Step>, states: seq<State>)
    requires Inv(s) && i < |s.callers| && First(s, i) && s.callers[i].phase.Ended?
    ensures |states| == |steps| + 1 && states[0] == s && |steps| <= i + 1
    ensures forall n :: 0 <= n < |steps| ==> steps[n].Settle? && Enabled(states[n], steps[n]) && states[n + 1] == Apply(states[n], steps[n])
    ensures Inv(states[|steps|]) && |states[|steps|].callers| == |s.callers| && states[|steps|].callers[i].tail
    ensures forall k {:trigger states[|steps|].callers[k]} :: 0 <= k < |s.callers| ==>
              states[|steps|].callers[k].phase == s.callers[k].phase && states[|steps|].callers[k].tenant == s.callers[k].tenant
              && states[|steps|].callers[k].prev == s.callers[k].prev
    decreases i
  {
    assert CallerOk(s, i);
    var c := s.callers[i];
    steps, states := [], [s];
    if c.tail { return; }
    if c.prev.Some? {
      assert CallerOk(s, c.prev.value);
      steps, states := TailCanSettle(s, c.prev.value);
    }
    var last := states[|steps|];
    if last.callers[i].tail { return; }
    var st := Settle(i);
    assert CallerOk(last, i);
    InvStep(last, st);
    steps, states := steps + [st], states + [Apply(last, st)];
  }

  /** A waiter at the head of its tenant's queue gets its turn: the promises it waits for settle
      in at most as many steps as there were callers before it, and then its body may start. */
  lemma HeadGetsItsTurn(s: State, i: Ticket) returns (steps: seq<Step>, states: seq<State>)
    requires Inv(s) && i < |s.callers| && s.callers[i].phase.Waiting? && First(s, i)
    ensures |states| == |steps| + 1 && states[0] == s && |steps| <= i
    ensures forall n :: 0 <= n < |steps| ==> steps[n].Settle? && Enabled(states[n], steps[n]) && states[n + 1] == Apply(states[n], steps[n])
    ensures Enabled(states[|steps|], Begin(i))
  {
    assert CallerOk(s, i);
    steps, states := [], [s];
    if s.callers[i].prev.Some? {
      assert CallerOk(s, s.callers[i].prev.value);
      steps, states := TailCanSettle(s, s.callers[i].prev.value);
    }
  }
}
